/**
 * The services `OurSubmarine`: our own submarine's turn counter, position
 * and cooldowns, the move it chooses along its planned path, the guess it
 * makes at the opponent's cell, the sonar region it asks about, and the
 * feedback it gives the opponent tracker after a sonar or an attack.
 */
module OurSubmarines {
  import opened Sequences
  import opened Positions
  import opened Directions
  import opened Cells
  import opened Grids
  import opened Hypotheses
  import opened Tracking
  import opened Tallies
  import opened TrackResolvers
  import opened PathFinders
  import PathResolvers
  import Submarines

  // ---- the values the class keeps and emits ----

  /** `ICooldown`: turns left before each power can be used again. */
  datatype Cooldown = Cooldown(torpedo: int, sonar: int, mine: int, silence: int)

  /** The cooldowns before the first turn's input: all -1. */
  const Unset := Cooldown(-1, -1, -1, -1)

  /** The powers a MOVE can charge. */
  datatype Power = TorpedoPower | SonarPower | SilencePower | MinePower

  /** The order an attack was recorded with. */
  datatype AttackOrder = MineOrder | TorpedoOrder

  /** An entry of `_isPreviousAttacks`. */
  datatype Attack = Attack(order: AttackOrder, cell: Coordinate)

  /** `ISonar`: the region last asked about, and the answer last received. */
  datatype Sonar = Sonar(region: Option<int>, result: string)

  /** The orders and messages an action carries. */
  datatype Command =
    | SurfaceCommand
    | SilenceCommand(direction: Direction, length: nat)
    | MoveCommand(direction: Direction, power: Power)
    | TorpedoCommand(target: Coordinate)
    | SonarCommand(region: int)
    | LookoutMessage(at: Coordinate)
    | HuntingMessage(candidates: nat)

  /** `IAction`: an order with its priority. */
  datatype Action = Action(priority: int, command: Command)

  // ---- nextPower ----

  /**
   * `nextPower`: TORPEDO while it charges; else SONAR on turns 1 modulo 3
   * when the opponent is not located; else SILENCE when it charges and
   * the turn is 0 modulo 3, the opponent is not located or it is fewer
   * than ten moves away; else MINE. Nothing when that distance is asked
   * of an undefined position, where the source throws.
   */
  function NextPower(cd: Cooldown, turn: nat, opponent: Option<Cell>, position: Option<Cell>): (r: Option<Power>)
    ensures r == Some(TorpedoPower) <==> cd.torpedo > 0
    ensures r == Some(SonarPower) ==> cd.torpedo <= 0 && cd.sonar > 0 && turn % 3 == 1 && opponent.None?
    ensures cd.torpedo <= 0 && cd.sonar > 0 && turn % 3 == 1 && opponent.None? ==> r == Some(SonarPower)
    ensures r == Some(SilencePower) ==> cd.torpedo <= 0 && cd.silence > 0
    ensures r.None? <==>
      cd.torpedo <= 0 && cd.silence > 0 && turn % 3 != 0 && opponent.Some? && position.None?
    ensures r == Some(MinePower) ==>
      cd.torpedo <= 0 && (cd.silence <= 0 || (turn % 3 != 0 && opponent.Some? && position.Some?
        && PathLength(opponent.value.coordinate, position.value.coordinate) >= 10))
  {
    if cd.torpedo > 0 then Some(TorpedoPower)
    else if cd.sonar > 0 && turn % 3 == 1 && opponent.None? then Some(SonarPower)
    else if cd.silence > 0 && turn % 3 != 0 && opponent.Some? && position.None? then None
    else if cd.silence > 0 && (turn % 3 == 0 || opponent.None?
      || PathLength(opponent.value.coordinate, position.value.coordinate) < 10) then Some(SilencePower)
    else Some(MinePower)
  }

  // ---- the SILENCE run of getMoveActions ----

  /** A path whose first node has a move: what `getMoveActions` can follow. */
  predicate HasMove(p: seq<PathNode>) {
    |p| > 0 && p[0].direction.Some?
  }

  /** How many leading nodes of `p` move in direction `d`, at most `cap`. */
  function LeadingRun(p: seq<PathNode>, d: Direction, cap: nat): (n: nat)
    ensures n <= cap && n <= |p|
    ensures forall i :: 0 <= i < n ==> p[i].direction == Some(d)
    ensures n < cap && n < |p| ==> p[n].direction != Some(d)
    decreases cap
  {
    if cap == 0 || p == [] || p[0].direction != Some(d) then 0
    else 1 + LeadingRun(p[1..], d, cap - 1)
  }

  /**
   * The SILENCE `getMoveActions` emits for a path: west and 0 for a path
   * of at most four nodes; otherwise the first node's direction and the
   * number of leading nodes that move that way, between 1 and 4.
   */
  function SilenceOf(p: seq<PathNode>): (r: (Direction, nat))
    requires HasMove(p)
    ensures |p| <= 4 ==> r == (West, 0)
    ensures |p| > 4 ==> 1 <= r.1 <= 4 && r.0 == p[0].direction.value
    ensures forall i :: 0 <= i < r.1 ==> p[i].direction == Some(r.0)
    ensures |p| > 4 && r.1 < 4 ==> p[r.1].direction != Some(r.0)
  {
    if |p| <= 4 then (West, 0)
    else
      var d := p[0].direction.value;
      (d, 1 + LeadingRun(p[1..], d, 3))
  }

  /** The cells a SILENCE of length `n` passes after its first step, which it marks visited. */
  function RunCells(p: seq<PathNode>, n: nat): set<Cell>
    requires n <= |p|
  {
    set i | 1 <= i < n :: p[i].cell
  }

  // ---- the opponent-position estimate of getOtherActions ----

  /** `Math.min` on each axis. */
  function Lower(a: Coordinate, b: Coordinate): Coordinate {
    Coordinate(if a.x < b.x then a.x else b.x, if a.y < b.y then a.y else b.y)
  }

  /** `Math.max` on each axis. */
  function Upper(a: Coordinate, b: Coordinate): Coordinate {
    Coordinate(Max(a.x, b.x), Max(a.y, b.y))
  }

  /**
   * The `{min, max}` reduce as written: each step takes the maximum
   * against the minimum it has just updated, not against the maximum.
   */
  function BoxAsWritten(ps: seq<Coordinate>): (r: (Coordinate, Coordinate))
    requires |ps| > 0
    decreases |ps|
  {
    if |ps| == 1 then (ps[0], ps[0])
    else
      var last := ps[|ps| - 1];
      var lo := Lower(BoxAsWritten(ps[..|ps| - 1]).0, last);
      (lo, Upper(lo, last))
  }

  /** The `{min, max}` reduce with the maximum folded against the maximum. */
  function Box(ps: seq<Coordinate>): (r: (Coordinate, Coordinate))
    requires |ps| > 0
    ensures forall i :: 0 <= i < |ps| ==> r.0.x <= ps[i].x <= r.1.x && r.0.y <= ps[i].y <= r.1.y
    ensures exists i :: 0 <= i < |ps| && ps[i].x == r.0.x
    ensures exists i :: 0 <= i < |ps| && ps[i].x == r.1.x
    ensures exists i :: 0 <= i < |ps| && ps[i].y == r.0.y
    ensures exists i :: 0 <= i < |ps| && ps[i].y == r.1.y
    decreases |ps|
  {
    if |ps| == 1 then (ps[0], ps[0])
    else
      var last := ps[|ps| - 1];
      var b := Box(ps[..|ps| - 1]);
      (Lower(b.0, last), Upper(b.1, last))
  }

  /** The floor midpoint of a box no wider or taller than three cells. */
  function Centre(lo: Coordinate, hi: Coordinate): Option<Coordinate> {
    if hi.x - lo.x <= 2 && hi.y - lo.y <= 2 then Some(Coordinate((lo.x + hi.x) / 2, (lo.y + hi.y) / 2))
    else None
  }

  /** The estimate from two to four candidates as written. */
  function EstimateCoordinateAsWritten(ps: seq<Coordinate>): Option<Coordinate>
    requires |ps| > 0
  {
    var b := BoxAsWritten(ps);
    Centre(b.0, b.1)
  }

  /** The estimate from two to four candidates with the true bounding box. */
  function EstimateCoordinate(ps: seq<Coordinate>): Option<Coordinate>
    requires |ps| > 0
  {
    var b := Box(ps);
    Centre(b.0, b.1)
  }

  /**
   * As written, the "max" of the reduce always ends equal to the last
   * candidate, while the "min" is the true minimum.
   */
  lemma {:induction false} AsWrittenMaxIsLast(ps: seq<Coordinate>)
    requires |ps| > 0
    ensures BoxAsWritten(ps).1 == ps[|ps| - 1]
    ensures BoxAsWritten(ps).0 == Box(ps).0
    decreases |ps|
  {
    if |ps| > 1 {
      AsWrittenMaxIsLast(ps[..|ps| - 1]);
    }
  }

  /**
   * The corrected estimate exists exactly when all candidates fit in a
   * 3 × 3 box, and it is then within one cell, on both axes, of each.
   */
  lemma {:induction false} EstimateCoordinateMeaning(ps: seq<Coordinate>)
    requires |ps| > 0
    ensures EstimateCoordinate(ps).Some? <==>
      forall i, j :: 0 <= i < |ps| && 0 <= j < |ps| ==> ps[j].x - ps[i].x <= 2 && ps[j].y - ps[i].y <= 2
    ensures EstimateCoordinate(ps).Some? ==>
      forall i :: 0 <= i < |ps| ==> Distance(ps[i], EstimateCoordinate(ps).value) <= 1
  {
    var b := Box(ps);
    var ix :| 0 <= ix < |ps| && ps[ix].x == b.0.x;
    var jx :| 0 <= jx < |ps| && ps[jx].x == b.1.x;
    var iy :| 0 <= iy < |ps| && ps[iy].y == b.0.y;
    var jy :| 0 <= jy < |ps| && ps[jy].y == b.1.y;
    if EstimateCoordinate(ps).Some? {
      var e := EstimateCoordinate(ps).value;
      forall i | 0 <= i < |ps| ensures Distance(ps[i], e) <= 1 {
        assert Abs(ps[i].x - e.x) <= 1;
        assert Abs(ps[i].y - e.y) <= 1;
      }
    } else {
      assert !(ps[jx].x - ps[ix].x <= 2 && ps[jy].y - ps[iy].y <= 2);
    }
  }

  /**
   * The estimate as written can name a cell five columns away from a
   * candidate: for (0,0), (5,0), (1,0) it gives (0,0), where the true
   * box is six columns wide and gives nothing.
   */
  lemma AsWrittenEstimateMissesCandidate()
    ensures var ps := [Coordinate(0, 0), Coordinate(5, 0), Coordinate(1, 0)];
      && EstimateCoordinateAsWritten(ps) == Some(Coordinate(0, 0))
      && Distance(ps[1], Coordinate(0, 0)) == 5
      && EstimateCoordinate(ps).None?
  {
    var ps := [Coordinate(0, 0), Coordinate(5, 0), Coordinate(1, 0)];
    assert ps[..2] == [Coordinate(0, 0), Coordinate(5, 0)];
    assert ps[..2][..1] == [Coordinate(0, 0)];
    assert BoxAsWritten(ps[..2]) == (Coordinate(0, 0), Coordinate(5, 0));
    assert Box(ps[..2]) == (Coordinate(0, 0), Coordinate(5, 0));
  }

  /** The coordinates of a list of cells. */
  function CoordinatesOf(cells: seq<Cell>): (r: seq<Coordinate>)
    ensures |r| == |cells| && forall i :: 0 <= i < |cells| ==> r[i] == cells[i].coordinate
  {
    seq(|cells|, i requires 0 <= i < |cells| => cells[i].coordinate)
  }

  /**
   * `_opponentPosition` from the possible positions: the one candidate,
   * or for two to four the cell at the estimate, or nothing.
   */
  function Estimate(g: Grid, ps: seq<Cell>): Option<Cell> {
    if 1 < |ps| < 5 then
      match EstimateCoordinate(CoordinatesOf(ps))
      case None => None
      case Some(p) => CellFromCoordinate(g, p)
    else if |ps| == 1 then Some(ps[0])
    else None
  }

  /**
   * An estimated opponent cell is within one cell, on both axes, of every
   * possible position; and two to four candidates that fit a 3 × 3 box of
   * the grid always give an estimate.
   */
  lemma {:induction false} EstimateNearEveryCandidate(g: Grid, ps: seq<Cell>)
    requires WellFormed(g)
    ensures Estimate(g, ps).Some? ==>
      forall i :: 0 <= i < |ps| ==> Distance(ps[i].coordinate, Estimate(g, ps).value.coordinate) <= 1
    ensures |ps| == 1 ==> Estimate(g, ps) == Some(ps[0])
    ensures |ps| == 0 || |ps| >= 5 ==> Estimate(g, ps).None?
  {
    if 1 < |ps| < 5 {
      var cs := CoordinatesOf(ps);
      EstimateCoordinateMeaning(cs);
      if EstimateCoordinate(cs).Some? {
        CellFromCoordinateFinds(g, EstimateCoordinate(cs).value);
      }
    }
  }

  // ---- the sonar region of getOtherActions ----

  /** The region of each cell. */
  function RegionsOf(ps: seq<Cell>): (r: seq<int>)
    ensures |r| == |ps| && forall i :: 0 <= i < |ps| ==> r[i] == ps[i].surface
  {
    seq(|ps|, i requires 0 <= i < |ps| => ps[i].surface)
  }

  /** The index of the first entry with the largest count. */
  function FirstMax(m: seq<(int, nat)>): (k: nat)
    requires |m| > 0
    ensures k < |m|
    ensures forall j :: 0 <= j < |m| ==> m[j].1 <= m[k].1
    ensures forall j :: 0 <= j < k ==> m[j].1 < m[k].1
    decreases |m|
  {
    if |m| == 1 then 0
    else
      var k := FirstMax(m[..|m| - 1]);
      if m[|m| - 1].1 > m[k].1 then |m| - 1 else k
  }

  /**
   * The key a count map sorted by decreasing count puts first, when the
   * map has more than one key: the most frequent value of `s`, and of
   * those the one seen first (the map keeps insertion order and the sort
   * is stable); none for fewer than two distinct values.
   */
  function MostFrequent(s: seq<int>): Option<int> {
    var m := CountFrom([], s);
    if |m| > 1 then Some(m[FirstMax(m)].0) else None
  }

  /**
   * The region the sonar asks about: with more than ten candidates in more
   * than one region, the region holding the most candidates, and of those
   * the one seen first; otherwise none.
   */
  function SonarRegion(ps: seq<Cell>): Option<int> {
    if |ps| > 10 then MostFrequent(RegionsOf(ps)) else None
  }

  /** In a count list with distinct keys, an entry's count is the count of its key. */
  lemma {:induction false} CountAtEntry(m: seq<(int, nat)>, j: nat)
    requires Distinct(Firsts(m)) && j < |m|
    ensures CountOf(m, m[j].0) == m[j].1
  {
    if j > 0 {
      assert Firsts(m)[0] != Firsts(m)[j];
      assert Distinct(Firsts(m[1..])) by {
        forall a, b | 0 <= a < b < |m| - 1 ensures Firsts(m[1..])[a] != Firsts(m[1..])[b] {
          assert Firsts(m)[a + 1] != Firsts(m)[b + 1];
        }
      }
      CountAtEntry(m[1..], j - 1);
    }
  }

  /**
   * A most frequent value exists exactly when `s` holds more than one
   * distinct value; it is one of them, no value occurs more often, and
   * every value first seen before it occurs strictly less often.
   */
  lemma {:induction false} MostFrequentMeaning(s: seq<int>)
    ensures MostFrequent(s).Some? <==> |Dedup(s)| > 1
    ensures MostFrequent(s).Some? ==> MostFrequent(s).value in s
    ensures MostFrequent(s).Some? ==> forall y :: y in s ==> multiset(s)[y] <= multiset(s)[MostFrequent(s).value]
    ensures MostFrequent(s).Some? ==> exists k :: (
      && 0 <= k < |Dedup(s)|
      && Dedup(s)[k] == MostFrequent(s).value
      && forall j :: 0 <= j < k ==> multiset(s)[Dedup(s)[j]] < multiset(s)[MostFrequent(s).value])
  {
    var m := CountFrom([], s);
    TallySpec(s);
    DedupSpec(s);
    if |m| > 1 {
      var k := FirstMax(m);
      var r := m[k].0;
      assert r == Firsts(m)[k] == Dedup(s)[k];
      CountAtEntry(m, k);
      forall y | y in s ensures multiset(s)[y] <= multiset(s)[r] {
        assert y in Dedup(s);
        var j :| 0 <= j < |Dedup(s)| && Dedup(s)[j] == y;
        assert Firsts(m)[j] == y;
        CountAtEntry(m, j);
      }
      forall j | 0 <= j < k ensures multiset(s)[Dedup(s)[j]] < multiset(s)[r] {
        assert Firsts(m)[j] == Dedup(s)[j];
        CountAtEntry(m, j);
      }
    }
  }

  /**
   * The sonar region is asked only with more than ten candidates over more
   * than one region; it holds the most candidates, and every region seen
   * before it holds strictly fewer.
   */
  lemma {:induction false} SonarRegionMeaning(ps: seq<Cell>)
    ensures SonarRegion(ps).Some? <==> |ps| > 10 && |Dedup(RegionsOf(ps))| > 1
    ensures SonarRegion(ps).Some? ==> SonarRegion(ps).value in RegionsOf(ps)
    ensures SonarRegion(ps).Some? ==> forall y :: y in RegionsOf(ps) ==>
      multiset(RegionsOf(ps))[y] <= multiset(RegionsOf(ps))[SonarRegion(ps).value]
    ensures SonarRegion(ps).Some? ==> exists k :: (
      && 0 <= k < |Dedup(RegionsOf(ps))|
      && Dedup(RegionsOf(ps))[k] == SonarRegion(ps).value
      && forall j :: 0 <= j < k ==>
        multiset(RegionsOf(ps))[Dedup(RegionsOf(ps))[j]] < multiset(RegionsOf(ps))[SonarRegion(ps).value])
  {
    MostFrequentMeaning(RegionsOf(ps));
  }

  // ---- updateOpponentPosition ----

  /** The attack feedback applies after exactly one MINE, or one TORPEDO while the torpedo recharges. */
  predicate Qualifies(attacks: seq<Attack>, cd: Cooldown) {
    && |attacks| == 1
    && (attacks[0].order == MineOrder || (attacks[0].order == TorpedoOrder && cd.torpedo > 0))
  }

  /** `getCellNext(target)` restricted to the possible positions. */
  function Neighbours(g: Grid, target: Coordinate, possible: seq<Cell>): (r: seq<Cell>)
    ensures forall c :: c in r <==> c in CellNext(g, target) && c in possible
  {
    CellsWhere(CellNext(g, target), (c: Cell) => c in possible)
  }

  /**
   * The tracker after `updateOpponentPosition`, by the opponent's `lost`:
   * 0 excludes the target's possible neighbours, 1 excludes the target and
   * keeps only those neighbours, 2 keeps only the target, anything else
   * changes nothing.
   */
  function AfterFeedback(g: Grid, t: Tracker, target: Coordinate, lost: int, possible: seq<Cell>): Tracker {
    var nexts := CoordinatesOf(Neighbours(g, target, possible));
    if lost == 0 then AfterExcludePositions(g, t, nexts)
    else if lost == 1 then AfterKeepOnlyPositions(g, AfterExcludePositions(g, t, [target]), nexts)
    else if lost == 2 then AfterKeepOnlyPositions(g, t, [target])
    else t
  }

  /** After a miss, no hypothesis sits on a looked-up neighbour, and none was added. */
  lemma {:induction false} MissPositions(g: Grid, t: Tracker, cells: seq<Cell>)
    ensures Count(Update(Tracker(t.starts, KeepWhere(t.scs, OutsideCells(cells)))).scs) <= Count(t.scs)
    ensures AllPositions(Update(Tracker(t.starts, KeepWhere(t.scs, OutsideCells(cells)))).scs, (c: Cell) => c !in cells)
  {
    var out: Cell -> bool := (c: Cell) => c !in cells;
    FilterThenUpdateDeletes(t, OutsideCells(cells));
    KeepWherePositions(t.scs, OutsideCells(cells), out);
    UpdateKeepsPositions(Tracker(t.starts, KeepWhere(t.scs, OutsideCells(cells))), out);
  }

  /** Keeping only some cells leaves hypotheses on those cells only, and adds none. */
  lemma {:induction false} KeepPositions(g: Grid, t: Tracker, cells: seq<Cell>)
    ensures Count(Update(Tracker(t.starts, KeepWhere(t.scs, InCells(cells)))).scs) <= Count(t.scs)
    ensures AllPositions(Update(Tracker(t.starts, KeepWhere(t.scs, InCells(cells)))).scs, (c: Cell) => c in cells)
  {
    var on: Cell -> bool := (c: Cell) => c in cells;
    FilterThenUpdateDeletes(t, InCells(cells));
    KeepWherePositions(t.scs, InCells(cells), on);
    UpdateKeepsPositions(Tracker(t.starts, KeepWhere(t.scs, InCells(cells))), on);
  }

  /** After one damage, each hypothesis sits on a neighbour and not on the target, and none was added. */
  lemma {:induction false} HitPositions(g: Grid, t: Tracker, here: seq<Cell>, nexts: seq<Cell>)
    ensures var t1 := Update(Tracker(t.starts, KeepWhere(t.scs, OutsideCells(here))));
      var r := Update(Tracker(t1.starts, KeepWhere(t1.scs, InCells(nexts))));
      && Count(r.scs) <= Count(t.scs)
      && AllPositions(r.scs, (c: Cell) => c in nexts && c !in here)
  {
    var t1 := Update(Tracker(t.starts, KeepWhere(t.scs, OutsideCells(here))));
    var both: Cell -> bool := (c: Cell) => c in nexts && c !in here;
    MissPositions(g, t, here);
    KeepPositions(g, t1, nexts);
    var kept: seq<Scenario> := KeepWhere(t1.scs, InCells(nexts));
    forall i, j | 0 <= i < |kept| && 0 <= j < |kept[i]| ensures both(kept[i][j].position) {
      FilterMember(t1.scs[i], InCells(nexts), kept[i][j]);
    }
    UpdateKeepsPositions(Tracker(t1.starts, kept), both);
  }

  /**
   * What the feedback leaves: after a miss no hypothesis sits next to the
   * target among the possible positions; after one damage each sits on
   * such a neighbour and none on the target; after two damages each sits
   * on the target. The feedback never adds a scenario.
   */
  lemma {:induction false} FeedbackPositions(g: Grid, t: Tracker, target: Coordinate, lost: int, possible: seq<Cell>)
    ensures var r := AfterFeedback(g, t, target, lost, possible);
      var nexts := Found(g, CoordinatesOf(Neighbours(g, target, possible)));
      && Count(r.scs) <= Count(t.scs)
      && (lost == 0 ==> AllPositions(r.scs, (c: Cell) => c !in nexts))
      && (lost == 1 ==> AllPositions(r.scs, (c: Cell) => c in nexts && CellFromCoordinate(g, target) != Some(c)))
      && (lost == 2 ==> AllPositions(r.scs, (c: Cell) => CellFromCoordinate(g, target) == Some(c)))
  {
    var nexts := Found(g, CoordinatesOf(Neighbours(g, target, possible)));
    var here := Found(g, [target]);
    assert forall c :: c in here <==> CellFromCoordinate(g, target) == Some(c);
    if lost == 0 {
      MissPositions(g, t, nexts);
    } else if lost == 1 {
      HitPositions(g, t, here, nexts);
    } else if lost == 2 {
      KeepPositions(g, t, here);
    }
  }

  // ---- the sonar setter ----

  /**
   * The tracker after the `sonarResult` setter: "Y" keeps only the asked
   * region, "N" excludes it, any other answer changes nothing; nothing
   * where the tracker throws.
   */
  function AfterSonarResult(g: Grid, t: Tracker, value: string, region: Option<int>): Option<Tracker> {
    if value == "Y" then PathResolvers.AfterResolverKeepInSurface(g, t, region)
    else if value == "N" then PathResolvers.AfterResolverExcludeInSurface(g, t, region)
    else Some(t)
  }

  /**
   * On a built grid, a "Y" for a region leaves every hypothesis in it, a
   * "N" leaves none in it, and "NA" changes nothing.
   */
  lemma {:induction false} SonarResultLands(g: Grid, t: Tracker, value: string, i: int)
    requires WellFormed(g) && AfterSonarResult(g, t, value, Some(i)).Some?
    ensures value == "Y" ==> AllPositions(AfterSonarResult(g, t, value, Some(i)).value.scs, (c: Cell) => c.surface == i)
    ensures value == "N" ==> AllPositions(AfterSonarResult(g, t, value, Some(i)).value.scs, (c: Cell) => c.surface != i)
    ensures value != "Y" && value != "N" ==> AfterSonarResult(g, t, value, Some(i)) == Some(t)
  {
    BuiltGridFacts(g);
    if value == "Y" {
      KeepOnlyInSurfaceLands(g, t, i);
    } else if value == "N" {
      ExcludeInSurfaceLeaves(g, t, i);
    }
  }

  // ---- the class ----

  /** The cell after the next move: the path's second node, or the current position. */
  function NextPosition(p: seq<PathNode>, position: Option<Cell>): Option<Cell> {
    if |p| > 1 then Some(p[1].cell) else position
  }

  /**
   * The loop of the SILENCE branch: after the first node of `whole`, take
   * each following node that moves the same way, up to four nodes in all,
   * and mark its cell visited; `length` counts the nodes taken.
   */
  method FollowRun(finder: PathFinder, whole: seq<PathNode>) returns (length: nat)
    requires HasMove(whole) && |whole| > 4
    modifies finder
    ensures length == SilenceOf(whole).1
    ensures finder.visited == old(finder.visited) + RunCells(whole, length)
    ensures finder.strategies == old(finder.strategies)
  {
    var direction := whole[0].direction.value;
    length := 1;
    var rest := whole[1..];
    while |rest| > 0 && rest[0].direction == Some(direction) && length < 4
      invariant 1 <= length <= 4 && rest == whole[length..]
      invariant LeadingRun(whole[1..], direction, 3) == length - 1 + LeadingRun(rest, direction, 4 - length)
      invariant finder.visited == old(finder.visited) + RunCells(whole, length)
      invariant finder.strategies == old(finder.strategies)
      decreases 4 - length
    {
      assert rest[1..] == whole[length + 1..];
      finder.AddVisitedCell(rest[0].cell);
      assert RunCells(whole, length + 1) == RunCells(whole, length) + {whole[length].cell};
      rest := rest[1..];
      length := length + 1;
    }
  }

  /** The services `OurSubmarine`, updated in place turn after turn. */
  class OurSubmarine {
    const grid: Grid
    /** The life and lost counters it inherits from `Submarine`. */
    const hull: Submarines.Submarine
    const finder: PathFinder
    const opponent: PathResolvers.OpponentSubmarine
    /** `_path`: undefined until a start cell has been searched. */
    var path: Option<seq<PathNode>>
    var turn: nat
    var sonar: Sonar
    var attacks: seq<Attack>
    /** `_possiblePositions`: undefined until the first `getOtherActions`. */
    var possible: Option<seq<Cell>>
    var opponentPosition: Option<Cell>
    var cooldown: Cooldown
    var position: Option<Cell>

    /**
     * The grid is a built one shared with the path finder and the opponent
     * tracker, and attacks are only recorded once the possible positions are.
     */
    ghost predicate Valid()
      reads this, opponent.resolver
    {
      && WellFormed(grid)
      && finder.grid == grid
      && opponent.resolver.grid == grid
      && opponent.resolver.Valid()
      && (attacks != [] ==> possible.Some?)
    }

    /** A new submarine over a built grid, facing the given opponent. */
    constructor (g: Grid, opponent: PathResolvers.OpponentSubmarine)
      requires WellFormed(g) && opponent.resolver.grid == g && opponent.resolver.Valid()
      ensures Valid() && grid == g && this.opponent == opponent
      ensures fresh(hull) && Submarines.Health(hull.life, hull.lost) == Submarines.Initial
      ensures fresh(finder) && finder.visited == {}
      ensures path.None? && turn == 0 && sonar == Sonar(None, "NA") && attacks == []
      ensures possible.None? && opponentPosition.None? && cooldown == Unset && position.None?
    {
      grid := g;
      hull := new Submarines.Submarine();
      finder := new PathFinder(g);
      this.opponent := opponent;
      path := None;
      turn := 0;
      sonar := Sonar(None, "NA");
      attacks := [];
      possible := None;
      opponentPosition := None;
      cooldown := Unset;
      position := None;
    }

    /**
     * `setPosition(x, y)`: the looked-up cell becomes the position and is
     * marked visited, and the turn counter goes up by one.
     */
    method SetPosition(x: int, y: int)
      requires Valid()
      modifies this, finder
      ensures Valid()
      ensures position == CellFromCoordinate(grid, Coordinate(x, y))
      ensures finder.visited == old(finder.visited) + (if position.Some? then {position.value} else {})
      ensures finder.strategies == old(finder.strategies)
      ensures turn == old(turn) + 1
      ensures path == old(path) && sonar == old(sonar) && attacks == old(attacks) && possible == old(possible)
      ensures opponentPosition == old(opponentPosition) && cooldown == old(cooldown)
    {
      position := CellFromCoordinate(grid, Coordinate(x, y));
      if position.Some? {
        finder.AddVisitedCell(position.value);
      }
      turn := turn + 1;
    }

    /** `setCooldown`. */
    method SetCooldown(torpedo: int, sonar: int, mine: int, silence: int)
      modifies this
      ensures cooldown == Cooldown(torpedo, sonar, mine, silence)
      ensures path == old(path) && turn == old(turn) && this.sonar == old(this.sonar) && attacks == old(attacks)
      ensures possible == old(possible) && opponentPosition == old(opponentPosition) && position == old(position)
    {
      cooldown := Cooldown(torpedo, sonar, mine, silence);
    }

    /**
     * `searchStartCell`: the best start cell of the path finder, whose path
     * becomes the planned path; nothing, and no change, when there is no
     * candidate, where the source throws.
     */
    method SearchStartCell() returns (r: Option<Cell>)
      requires Valid()
      modifies this, finder
      ensures Valid()
      ensures r.None? <==> StartCandidates(grid.cells, grid) == []
      ensures r.None? ==> path == old(path)
      ensures r.Some? ==> r.value in StartCandidates(grid.cells, grid) && path.Some?
      ensures r.Some? ==> Searched(grid, finder.visited, r.value, path.value)
      ensures finder.visited == old(finder.visited)
      ensures turn == old(turn) && sonar == old(sonar) && attacks == old(attacks) && possible == old(possible)
      ensures opponentPosition == old(opponentPosition) && cooldown == old(cooldown) && position == old(position)
    {
      var start, paths, best := finder.SearchStartCell();
      if start.None? {
        return None;
      }
      path := Some(start.value.path);
      r := Some(start.value.position);
    }

    /**
     * The path `getMoveActions` follows: the planned one when its first
     * node has a move, else a new longest path from the position; `ok` is
     * false, with nothing changed, when the position is undefined.
     */
    method RefreshPath() returns (ok: bool)
      requires Valid() && path.Some?
      modifies this, finder
      ensures Valid() && path.Some? && finder.visited == old(finder.visited)
      ensures HasMove(old(path.value)) ==> ok && path == old(path)
      ensures !HasMove(old(path.value)) ==> (ok <==> position.Some?)
      ensures !ok ==> path == old(path)
      ensures ok && !HasMove(old(path.value)) && !IsAvailable(position.value) ==> path.value == []
      ensures ok && !HasMove(old(path.value)) && IsAvailable(position.value) ==>
        && IsWalk(grid, true, position.value, Unvisited(grid, finder.visited, position.value), path.value)
        && Stuck(grid, true, Unvisited(grid, finder.visited, position.value), CellsOf(path.value),
                 path.value[|path.value| - 1].cell.coordinate)
      ensures turn == old(turn) && sonar == old(sonar) && attacks == old(attacks) && possible == old(possible)
      ensures opponentPosition == old(opponentPosition) && cooldown == old(cooldown) && position == old(position)
    {
      ok := true;
      if !HasMove(path.value) {
        if position.None? {
          return false;
        }
        var p := finder.SearchLongestPath(position.value);
        path := Some(p);
      }
    }

    /**
     * The SILENCE branch: with a path of more than four nodes, take its
     * first node and then every following node that moves the same way,
     * up to four in all, marking each but the first visited.
     */
    method SilenceStep() returns (c: Command)
      requires Valid() && path.Some? && HasMove(path.value)
      modifies this, finder
      ensures Valid()
      ensures var s := SilenceOf(old(path.value));
        && c == SilenceCommand(s.0, s.1)
        && path == Some(old(path.value)[s.1..])
        && finder.visited == old(finder.visited) + RunCells(old(path.value), s.1)
      ensures turn == old(turn) && sonar == old(sonar) && attacks == old(attacks) && possible == old(possible)
      ensures opponentPosition == old(opponentPosition) && cooldown == old(cooldown) && position == old(position)
    {
      var whole := path.value;
      var direction := West;
      var length := 0;
      if |whole| > 4 {
        direction := whole[0].direction.value;
        length := FollowRun(finder, whole);
        path := Some(whole[length..]);
      }
      c := SilenceCommand(direction, length);
    }

    /**
     * `getMoveActions`: along the planned path (refreshed first when it has
     * no first move), SURFACE and forget the visited cells when no move is
     * left; SILENCE while its cooldown is 0; otherwise MOVE one node with
     * the next power. `planned` is the path the choice was made on; `ok`
     * is false where the source throws: no path yet, no position to search
     * from, or the next power asks for an undefined position.
     */
    method GetMoveActions() returns (ok: bool, actions: seq<Action>, ghost planned: seq<PathNode>)
      requires Valid()
      modifies this, finder
      ensures Valid()
      ensures old(path).None? ==> !ok && path.None?
      ensures old(path).Some? && HasMove(old(path.value)) ==> planned == old(path.value)
      ensures old(path).Some? && !HasMove(old(path.value)) && position.None? ==> !ok && path == old(path)
      ensures ok ==> |actions| == 1 && actions[0].priority == 1
      ensures ok && !HasMove(planned) ==> actions[0].command == SurfaceCommand && finder.visited == {} && path == Some(planned)
      ensures ok && HasMove(planned) && cooldown.silence == 0 ==>
        var s := SilenceOf(planned);
        && actions[0].command == SilenceCommand(s.0, s.1)
        && path == Some(planned[s.1..])
        && finder.visited == old(finder.visited) + RunCells(planned, s.1)
      ensures ok && HasMove(planned) && cooldown.silence != 0 ==>
        && NextPower(cooldown, turn, opponentPosition, position).Some?
        && actions[0].command == MoveCommand(planned[0].direction.value, NextPower(cooldown, turn, opponentPosition, position).value)
        && path == Some(planned[1..])
        && finder.visited == old(finder.visited)
      ensures !ok && old(path).Some? && position.Some? ==>
        HasMove(planned) && cooldown.silence != 0 && NextPower(cooldown, turn, opponentPosition, position).None?
      ensures turn == old(turn) && sonar == old(sonar) && attacks == old(attacks) && possible == old(possible)
      ensures opponentPosition == old(opponentPosition) && cooldown == old(cooldown) && position == old(position)
    {
      actions := [];
      planned := [];
      if path.None? {
        return false, actions, planned;
      }
      ok := RefreshPath();
      if !ok {
        return;
      }
      var current := path.value;
      planned := current;
      if !HasMove(current) {
        finder.ClearVisitedCell();
        actions := [Action(1, SurfaceCommand)];
      } else if cooldown.silence == 0 {
        var c := SilenceStep();
        actions := [Action(1, c)];
      } else {
        var power := NextPower(cooldown, turn, opponentPosition, position);
        if power.None? {
          return false, actions, planned;
        }
        path := Some(current[1..]);
        actions := [Action(1, MoveCommand(current[0].direction.value, power.value))];
      }
    }

    /**
     * The torpedo part of `getOtherActions`: the shortest paths to the
     * target from the position and from the next position decide whether
     * and with which priority to fire. Every branch fires at the target
     * itself, since a five-node path ends on it.
     */
    method TorpedoChoice(from: Cell, next: Cell, target: Cell) returns (r: Option<(Cell, int)>)
      requires Valid()
      ensures r.Some? ==> r.value.0 == target && (r.value.1 == 0 || r.value.1 == 2)
      ensures PathLength(from.coordinate, target.coordinate) <= 3 ==> r == Some((target, 0))
      ensures PathLength(from.coordinate, target.coordinate) <= 4 || PathLength(next.coordinate, target.coordinate) <= 4 ==> r.Some?
      ensures r.Some? && r.value.1 == 2 ==> PathLength(from.coordinate, target.coordinate) >= 4
    {
      var before := finder.SearchShortestPath(from, target);
      var after := finder.SearchShortestPath(next, target);
      if |before| <= 4 {
        r := Some((target, 0));
      } else if |after| <= 4 {
        r := Some((target, 2));
      } else if |before| == 5 {
        r := Some((before[4].cell, 0));
      } else if |after| == 5 {
        r := Some((after[4].cell, 2));
      } else {
        r := None;
      }
    }

    /**
     * The start of `getOtherActions`: forget the last attacks, read the
     * possible positions and estimate the opponent's cell from them.
     */
    method Locate() returns (pp: seq<Cell>)
      requires Valid()
      modifies this
      ensures Valid()
      ensures pp == PathResolvers.PossibleCells(opponent.resolver.State())
      ensures attacks == [] && possible == Some(pp) && opponentPosition == Estimate(grid, pp)
      ensures path == old(path) && turn == old(turn) && sonar == old(sonar)
      ensures cooldown == old(cooldown) && position == old(position)
    {
      attacks := [];
      pp := opponent.resolver.GetPossiblePositions();
      possible := Some(pp);
      opponentPosition := Estimate(grid, pp);
    }

    /**
     * The torpedo part of `getOtherActions` for a located opponent: when
     * the torpedo is ready and the target is within five moves of the
     * position or of the next position, the shot `TorpedoChoice` picks is
     * recorded as the one attack. `ok` is false where the source throws:
     * an undefined position or target.
     */
    method Aim(target: Option<Cell>) returns (ok: bool, shot: seq<Action>)
      requires Valid() && attacks == [] && path.Some? && possible.Some?
      modifies this
      ensures Valid()
      ensures path == old(path) && turn == old(turn) && sonar == old(sonar) && possible == old(possible)
      ensures opponentPosition == old(opponentPosition) && cooldown == old(cooldown) && position == old(position)
      ensures ok <==> !(cooldown.torpedo == 0 && (position.None? || target.None?))
      ensures attacks == [] <==> shot == []
      ensures forall a :: a in shot ==> a.command.TorpedoCommand?
      ensures attacks != [] ==>
        && cooldown.torpedo == 0 && position.Some? && target.Some?
        && attacks == [Attack(TorpedoOrder, target.value.coordinate)]
        && |shot| == 1 && shot[0].command == TorpedoCommand(target.value.coordinate)
      ensures ok && cooldown.torpedo == 0 ==>
        var next := NextPosition(path.value, position).value;
        (PathLength(position.value.coordinate, target.value.coordinate) <= 4
          || PathLength(next.coordinate, target.value.coordinate) <= 4) ==> attacks != []
    {
      shot := [];
      ok := true;
      if cooldown.torpedo == 0 {
        if position.None? || target.None? {
          return false, shot;
        }
        var here := position.value;
        var ahead := if |path.value| > 1 then path.value[1].cell else here;
        if PathLength(here.coordinate, target.value.coordinate) <= 5 || PathLength(ahead.coordinate, target.value.coordinate) <= 5 {
          var choice := TorpedoChoice(here, ahead, target.value);
          if choice.Some? {
            attacks := [Attack(TorpedoOrder, choice.value.0.coordinate)];
            shot := [Action(choice.value.1, TorpedoCommand(choice.value.0.coordinate))];
          }
        }
      }
    }

    /**
     * The sonar part of `getOtherActions`: when the sonar is ready and
     * there are more than five candidates, ask about `SonarRegion`, and
     * emit the order unless that region is undefined or 0.
     */
    method ChooseSonar(pp: seq<Cell>) returns (order: seq<Action>)
      modifies this
      ensures sonar.result == old(sonar.result)
      ensures sonar.region == if cooldown.sonar == 0 && |pp| > 5 then SonarRegion(pp) else old(sonar.region)
      ensures forall a :: a in order <==>
        cooldown.sonar == 0 && |pp| > 5 && SonarRegion(pp).Some? && SonarRegion(pp).value != 0
        && a == Action(2, SonarCommand(SonarRegion(pp).value))
      ensures forall r :: Action(2, SonarCommand(r)) in order <==>
        cooldown.sonar == 0 && |pp| > 5 && SonarRegion(pp) == Some(r) && r != 0
      ensures forall a :: a in order ==> a.command.SonarCommand?
      ensures path == old(path) && turn == old(turn) && attacks == old(attacks) && possible == old(possible)
      ensures opponentPosition == old(opponentPosition) && cooldown == old(cooldown) && position == old(position)
    {
      order := [];
      if cooldown.sonar == 0 && |pp| > 5 {
        var region := SonarRegion(pp);
        sonar := sonar.(region := region);
        if region.Some? && region.value != 0 {
          order := [Action(2, SonarCommand(region.value))];
        }
      }
    }

    /**
     * `getOtherActions` as far as it goes before the mine placement: the
     * lookout or hunting message, the torpedo shot and the sonar order.
     * `ok` is false where the source throws: no path yet, a torpedo check
     * from an undefined position or at an undefined cell, or a mine that
     * would be placed, whose cell the source looks up by an index the
     * move strategies do not have.
     */
    method GetOtherActions() returns (ok: bool, actions: seq<Action>)
      requires Valid()
      modifies this
      ensures Valid()
      ensures var pp := PathResolvers.PossibleCells(opponent.resolver.State());
        && possible == Some(pp)
        && opponentPosition == Estimate(grid, pp)
        && (ok ==> (Action(3, HuntingMessage(|pp|)) in actions <==> opponentPosition.None?))
        && (ok ==> forall r :: Action(2, SonarCommand(r)) in actions <==>
              cooldown.sonar == 0 && |pp| > 5 && SonarRegion(pp) == Some(r) && r != 0)
        && (ok ==> sonar.region == if cooldown.sonar == 0 && |pp| > 5 then SonarRegion(pp) else old(sonar.region))
      ensures ok && opponentPosition.Some? ==> Action(3, LookoutMessage(opponentPosition.value.coordinate)) in actions
      ensures attacks != [] ==>
        && opponentPosition.Some? && cooldown.torpedo == 0 && position.Some?
        && CellFromCoordinate(grid, opponentPosition.value.coordinate).Some?
        && attacks == [Attack(TorpedoOrder, CellFromCoordinate(grid, opponentPosition.value.coordinate).value.coordinate)]
      ensures ok ==> path.Some?
      ensures ok && opponentPosition.Some? && cooldown.torpedo == 0 ==>
        && position.Some? && CellFromCoordinate(grid, opponentPosition.value.coordinate).Some?
        && var target := CellFromCoordinate(grid, opponentPosition.value.coordinate).value;
           var next := NextPosition(path.value, position).value;
           (PathLength(position.value.coordinate, target.coordinate) <= 4 || PathLength(next.coordinate, target.coordinate) <= 4)
             ==> attacks != []
      ensures ok && cooldown.mine == 0 ==>
        NextPosition(path.value, position).Some? && finder.GetMoveStrategies(NextPosition(path.value, position).value) == []
      ensures path == old(path) && turn == old(turn) && sonar.result == old(sonar.result)
      ensures cooldown == old(cooldown) && position == old(position)
    {
      var pp := Locate();
      actions := if opponentPosition.Some? then [Action(3, LookoutMessage(opponentPosition.value.coordinate))] else [];
      if path.None? {
        return false, actions;
      }
      if opponentPosition.Some? {
        var shot;
        ok, shot := Aim(CellFromCoordinate(grid, opponentPosition.value.coordinate));
        if !ok {
          return;
        }
        actions := actions + shot;
      } else {
        actions := actions + [Action(3, HuntingMessage(|pp|))];
      }
      ghost var before := actions;
      assert forall a :: a in before ==> a.command.LookoutMessage? || a.command.TorpedoCommand? || a.command.HuntingMessage?;
      var order := ChooseSonar(pp);
      actions := actions + order;
      var next := NextPosition(path.value, position);
      ok := !(cooldown.mine == 0 && (next.None? || finder.GetMoveStrategies(next.value) != []));
    }

    /**
     * `updateOpponentPosition`: after exactly one MINE, or one TORPEDO
     * while the torpedo recharges, feed the opponent's `lost` back to its
     * tracker around the attacked cell; otherwise change nothing.
     */
    method UpdateOpponentPosition()
      requires Valid()
      modifies opponent.resolver
      ensures Valid()
      ensures Qualifies(attacks, cooldown) ==> (opponent.resolver.State() ==
        AfterFeedback(grid, old(opponent.resolver.State()), attacks[0].cell, opponent.hull.lost, possible.value))
      ensures !Qualifies(attacks, cooldown) ==> opponent.resolver.State() == old(opponent.resolver.State())
    {
      if |attacks| == 1 && (attacks[0].order == MineOrder || (attacks[0].order == TorpedoOrder && cooldown.torpedo > 0)) {
        var target := attacks[0].cell;
        var nexts := CoordinatesOf(Neighbours(grid, target, possible.value));
        var lost := opponent.hull.lost;
        if lost == 0 {
          opponent.resolver.ExcludePositions(nexts);
        } else if lost == 1 {
          opponent.resolver.ExcludePositions([target]);
          opponent.resolver.KeepOnlyPositions(nexts);
        } else if lost == 2 {
          opponent.resolver.KeepOnlyPositions([target]);
        }
      }
    }

    /**
     * The `sonarResult` setter: store the answer, then on "Y" keep only,
     * and on "N" exclude, the hypotheses in the region last asked about,
     * which may be undefined. `ok` is false, with the tracker unchanged,
     * where the tracker throws.
     */
    method SetSonarResult(value: string) returns (ok: bool)
      requires Valid()
      modifies this, opponent.resolver
      ensures Valid()
      ensures sonar == Sonar(old(sonar.region), value)
      ensures ok <==> AfterSonarResult(grid, old(opponent.resolver.State()), value, sonar.region).Some?
      ensures ok ==> opponent.resolver.State() == AfterSonarResult(grid, old(opponent.resolver.State()), value, sonar.region).value
      ensures !ok ==> opponent.resolver.State() == old(opponent.resolver.State())
      ensures path == old(path) && turn == old(turn) && attacks == old(attacks) && possible == old(possible)
      ensures opponentPosition == old(opponentPosition) && cooldown == old(cooldown) && position == old(position)
    {
      sonar := sonar.(result := value);
      if value == "Y" {
        ok := opponent.resolver.KeepOnlyPositionsInSurface(sonar.region);
      } else if value == "N" {
        ok := opponent.resolver.ExcludePositionsInSurface(sonar.region);
      } else {
        ok := true;
      }
    }
  }
}
