// `PathScenario`: one hypothesis about the opponent, held in an object
// whose position and visited set `add` updates in place.
module PathScenarios {
  import opened Sequences
  import opened Cells
  import opened Hypotheses

  class PathScenario {
    const start: Cell
    /** The `_visitedCells` Set, in insertion order. */
    var visited: seq<Cell>
    var position: Cell

    /** The hypothesis the object currently holds. */
    function State(): PathState
      reads this
    {
      PathState(start, visited, position)
    }

    /** A Set holds each value once. */
    ghost predicate Valid()
      reads this
    {
      Distinct(visited)
    }

    /**
     * `new PathScenario(start, visitedCells?, position?)`: the visited set is
     * built from the given list (first occurrences, in order) or is {start};
     * the position is the given one or the start.
     */
    constructor (start: Cell, visitedCells: Option<seq<Cell>>, position: Option<Cell>)
      ensures Valid()
      ensures this.start == start
      ensures visited == if visitedCells.Some? then Dedup(visitedCells.value) else [start]
      ensures this.position == if position.Some? then position.value else start
      ensures visitedCells.None? && position.None? ==> State() == Fresh(start)
    {
      this.start := start;
      if visitedCells.Some? {
        DedupSpec(visitedCells.value);
        visited := Dedup(visitedCells.value);
      } else {
        visited := [start];
      }
      this.position := if position.Some? then position.value else start;
    }

    /** `visitedCells`: a copy of the visited set in insertion order. */
    method VisitedCells() returns (r: seq<Cell>)
      ensures r == visited
    {
      r := visited;
    }

    /** `has(cell)`. */
    method Has(c: Cell) returns (b: bool)
      ensures b <==> c in visited
    {
      b := c in visited;
    }

    /** `add(cell)`: move to the cell and insert it into the visited set. */
    method Add(c: Cell)
      requires Valid()
      modifies this
      ensures Valid()
      ensures State() == Visit(old(State()), c)
    {
      position := c;
      if c !in visited {
        visited := visited + [c];
      }
    }

    /** `size`: the number of distinct visited cells. */
    method Size() returns (n: nat)
      requires Valid()
      ensures n == |visited|
      ensures forall c :: c in visited ==> multiset(visited)[c] == 1
    {
      n := |visited|;
      forall c | c in visited ensures multiset(visited)[c] == 1 {
        DistinctCountsOnce(visited, c);
      }
    }

    /** `clone()`: a new object holding the same hypothesis. */
    method Clone() returns (p: PathScenario)
      requires Valid()
      ensures fresh(p) && p.Valid() && p.State() == State()
    {
      DedupOfDistinct(visited);
      p := new PathScenario(start, Some(visited), Some(position));
    }
  }

  /** A value of a list without repeats occurs in it exactly once. */
  lemma {:induction false} DistinctCountsOnce(s: seq<Cell>, c: Cell)
    requires Distinct(s) && c in s
    ensures multiset(s)[c] == 1
  {
    assert s == [s[0]] + s[1..];
    if s[0] == c {
      assert c !in s[1..];
    } else {
      DistinctCountsOnce(s[1..], c);
    }
  }
}
