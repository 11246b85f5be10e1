// The four compass moves (`MOVE_STRATEGIES`): a direction letter and the
// unit vector it adds to a position.
module Directions {
  import opened Sequences
  import opened Positions

  datatype Direction = North | East | South | West

  /** The `move` vector of each entry of `MOVE_STRATEGIES`. */
  function Vector(d: Direction): Coordinate {
    match d
    case North => Coordinate(0, -1)
    case East => Coordinate(1, 0)
    case South => Coordinate(0, 1)
    case West => Coordinate(-1, 0)
  }

  /** The `DirectionEnum` letter of a direction. */
  function Letter(d: Direction): string {
    match d
    case North => "N"
    case East => "E"
    case South => "S"
    case West => "W"
  }

  /** `MOVE_STRATEGIES.find(s => s.direction === word)`. */
  function ParseDirection(word: string): (r: Option<Direction>)
    ensures r.Some? ==> Letter(r.value) == word
  {
    if word == "N" then Some(North)
    else if word == "E" then Some(East)
    else if word == "S" then Some(South)
    else if word == "W" then Some(West)
    else None
  }

  /** `MOVE_STRATEGIES` in declaration order. */
  const MoveStrategies: seq<Direction> := [North, East, South, West]

  /** Letters and directions are in one-to-one correspondence. */
  lemma {:induction false} ParseLetterRoundTrip(d: Direction)
    ensures ParseDirection(Letter(d)) == Some(d)
  {
  }

  /** Every move is one unit long in both metrics. */
  lemma {:induction false} UnitMoves(d: Direction)
    ensures PathLength(Origin, Vector(d)) == 1 && Distance(Origin, Vector(d)) == 1
  {
    match d
    case North => UnitVector(0, -1);
    case East => UnitVector(1, 0);
    case South => UnitVector(0, 1);
    case West => UnitVector(-1, 0);
  }

  lemma {:induction false} UnitVector(x: int, y: int)
    requires (x == 0 && (y == 1 || y == -1)) || (y == 0 && (x == 1 || x == -1))
    ensures PathLength(Origin, Coordinate(x, y)) == 1 && Distance(Origin, Coordinate(x, y)) == 1
  {
  }

  /** One move changes the Manhattan distance to any point by exactly one. */
  lemma {:induction false} StepChangesPathLengthByOne(p: Coordinate, d: Direction, target: Coordinate)
    ensures PathLength(Add(p, Vector(d)), target) == PathLength(p, target) + 1
         || PathLength(Add(p, Vector(d)), target) + 1 == PathLength(p, target)
  {
  }

  /** `MOVE_STRATEGIES` lists each direction once. */
  lemma {:induction false} MoveStrategiesComplete(d: Direction)
    ensures d in MoveStrategies && Distinct(MoveStrategies)
  {
  }
}
