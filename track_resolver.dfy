// The newest opponent tracker, `TrackResolver` (services): start cells and
// a list of scenarios, updated by the opponent's orders and by the
// feedback of our own sonar and attacks. This module states what every
// operation leaves in the two fields, as functions on a `Tracker` value,
// proves what the tracker promises about them, and implements the class
// whose methods update the fields with the source's loops.
module TrackResolvers {
  import opened Sequences
  import opened Positions
  import opened Directions
  import opened Cells
  import opened CellContainers
  import Surfaces
  import opened Grids
  import opened Hypotheses
  import opened Tracking
  import opened Strategies
  import opened Tallies
  import Orders
  import MoveScenarios

  /** The services grid looks targets up with the bounds-checked index and detects revisits by cell. */
  const Rules := StepRules(true, false)

  /** The fields `_startPositions` and `_moveScenarios`. */
  datatype Tracker = Tracker(starts: seq<Cell>, scs: seq<Scenario>)

  // ---- the clean-up and the reseed ----

  /** `updateMoveStrategies`: drop the empty scenarios, then the starts no scenario uses. */
  function Update(t: Tracker): Tracker {
    Tracker(UsedStarts(t.starts, NonEmpty(t.scs)), NonEmpty(t.scs))
  }

  /** `_startPositions = starts; _moveScenarios = [new MoveScenario(starts)]`. */
  function Reseed(starts: seq<Cell>): Tracker {
    Tracker(starts, [FromStarts(starts)])
  }

  /** `applyOrders` first seeds one scenario from the starts when there is none. */
  function Seeded(t: Tracker): Tracker {
    if t.scs == [] then Reseed(t.starts) else t
  }

  /** The number of hypotheses over all scenarios. */
  function Count(scs: seq<Scenario>): nat {
    if scs == [] then 0 else |scs[0]| + Count(scs[1..])
  }

  // ---- MOVE ----

  /** Every scenario after `addPosition(scenario, move)`. */
  function MoveAll(g: Grid, d: Direction, t: Tracker): (r: seq<Scenario>)
    ensures |r| == |t.scs|
  {
    seq(|t.scs|, i requires 0 <= i < |t.scs| => AddPosition(g, Rules, d, t.starts, t.scs[i]))
  }

  /** Some scenario holds the hypothesis of some start, so `addPosition` reads the move vector. */
  predicate AnyUsed(t: Tracker) {
    exists j :: 0 <= j < |t.starts| && IsUsed(t.scs, t.starts[j].index)
  }

  /**
   * `move(direction)`: a known direction advances every scenario and then
   * cleans up. An unknown one leaves `moveStrategy` undefined, and reading
   * its vector throws at the first start some scenario holds, before
   * anything has changed; with no such start, only the clean-up runs.
   */
  function AfterMove(g: Grid, t: Tracker, word: Option<string>): Option<Tracker> {
    var d := if word.Some? then ParseDirection(word.value) else None;
    if d.Some? then Some(Update(Tracker(t.starts, MoveAll(g, d.value, t))))
    else if AnyUsed(t) then None
    else Some(Update(t))
  }

  // ---- reduce and SILENCE ----

  /** `reduceMoveStrategies`, over the current cells before de-duplication. */
  function AfterReduce(g: Grid, t: Tracker): Tracker {
    Tracker(t.starts, Reduce(g, t.starts, PossiblePositions(t.scs), t.scs))
  }

  /**
   * `silenceMove`: reduce, then replace every scenario by itself and its
   * sixteen straight runs in the south-east table order, then clean up.
   */
  function AfterSilence(g: Grid, t: Tracker): Tracker {
    var r := AfterReduce(g, t);
    Update(Tracker(r.starts, Silence(g, Rules, SouthEast, r.starts, r.scs, true)))
  }

  // ---- filters ----

  /** Every scenario with only the hypotheses satisfying `keep`. */
  function KeepWhere(scs: seq<Scenario>, keep: PathState -> bool): (r: seq<Scenario>)
    ensures |r| == |scs|
    ensures forall i :: 0 <= i < |scs| ==> r[i] == Filter(scs[i], keep)
  {
    seq(|scs|, i requires 0 <= i < |scs| => Filter(scs[i], keep))
  }

  /** The hypotheses whose current cell is one of `cells` (`cells.includes(path.position)`). */
  function InCells(cells: seq<Cell>): PathState -> bool {
    (e: PathState) => e.position in cells
  }

  /** The complement of `InCells`. */
  function OutsideCells(cells: seq<Cell>): PathState -> bool {
    (e: PathState) => e.position !in cells
  }

  /** The hypotheses on the looked-up cell; an undefined cell matches none. */
  function AtCell(cell: Option<Cell>): PathState -> bool {
    (e: PathState) => Some(e.position) == cell
  }

  /** The complement of `AtCell`. */
  function AwayFrom(cell: Option<Cell>): PathState -> bool {
    (e: PathState) => Some(e.position) != cell
  }

  /** The hypotheses whose current cell lies in region `index`. */
  function InRegion(index: int): PathState -> bool {
    (e: PathState) => e.position.surface == index
  }

  /** The complement of `InRegion`. */
  function OutsideRegion(index: int): PathState -> bool {
    (e: PathState) => e.position.surface != index
  }

  /**
   * The cells a torpedo fired at (x, y) may have come from: without damage
   * the opponent was not in the blast, so the torpedo range minus the
   * danger ring, otherwise the whole range. A NaN coordinate makes every
   * distance comparison false, so no cell.
   */
  function TorpedoZone(g: Grid, x: Option<int>, y: Option<int>, lost: int): seq<Cell> {
    if x.None? || y.None? then []
    else if lost == 0 then TorpedoAreaWithoutDangerArea(g, Coordinate(x.value, y.value))
    else TorpedoArea(g, Coordinate(x.value, y.value))
  }

  /** `keepOnlyPositionsNearTorpedoArea`: filter on the zone, reduce, clean up. */
  function AfterTorpedo(g: Grid, t: Tracker, x: Option<int>, y: Option<int>, lost: int): Tracker {
    var zone := TorpedoZone(g, x, y, lost);
    Update(AfterReduce(g, Tracker(t.starts, KeepWhere(t.scs, InCells(zone)))))
  }

  /** `keepOnlyPosition(coordinate)`: an off-grid coordinate finds no cell and keeps nothing. */
  function AfterKeepOnlyPosition(g: Grid, t: Tracker, p: Coordinate): Tracker {
    var cell := CellFromCoordinate(g, p);
    Update(Tracker(t.starts, KeepWhere(t.scs, AtCell(cell))))
  }

  /**
   * The cells found for `coordinates.map(getCellFromCoordinate)`; an
   * undefined lookup matches no hypothesis in `includes`, so both
   * `keepOnlyPositions` and `excludePositions` behave as if it were absent.
   */
  function Found(g: Grid, ps: seq<Coordinate>): (r: seq<Cell>)
    ensures forall c :: c in r <==> exists i :: 0 <= i < |ps| && CellFromCoordinate(g, ps[i]) == Some(c)
  {
    if ps == [] then []
    else
      (match CellFromCoordinate(g, ps[0]) case None => [] case Some(c) => [c]) + Found(g, ps[1..])
  }

  /** `keepOnlyPositions(coordinates)`. */
  function AfterKeepOnlyPositions(g: Grid, t: Tracker, ps: seq<Coordinate>): Tracker {
    var cells := Found(g, ps);
    Update(Tracker(t.starts, KeepWhere(t.scs, InCells(cells))))
  }

  /** `excludePosition(coordinate)`: an off-grid coordinate finds no cell and excludes nothing. */
  function AfterExcludePosition(g: Grid, t: Tracker, p: Coordinate): Tracker {
    var cell := CellFromCoordinate(g, p);
    Update(Tracker(t.starts, KeepWhere(t.scs, AwayFrom(cell))))
  }

  /** `excludePositions(coordinates)`. */
  function AfterExcludePositions(g: Grid, t: Tracker, ps: seq<Coordinate>): Tracker {
    var cells := Found(g, ps);
    Update(Tracker(t.starts, KeepWhere(t.scs, OutsideCells(cells))))
  }

  // ---- region feedback ----

  /**
   * `keepOnlyPositionsInSurface(index)`: with more than 300 scenarios or
   * none, reseed from the sea cells of `surfaces[index - 1]` (which throws
   * when that slot is undefined); otherwise keep the hypotheses in the
   * region. Then clean up.
   */
  function AfterKeepOnlyInSurface(g: Grid, t: Tracker, index: int): Option<Tracker> {
    if |t.scs| > 300 || |t.scs| == 0 then
      match SurfaceAt(g, index - 1)
      case None => None
      case Some(s) => Some(Update(Reseed(Surfaces.SurfaceAvailableCells(s))))
    else Some(Update(Tracker(t.starts, KeepWhere(t.scs, InRegion(index)))))
  }

  /** A region number with no cell leaves an undefined slot in `surfaces`. */
  predicate HasHole(g: Grid) {
    exists k :: 0 <= k < |g.surfaces| && g.surfaces[k].None?
  }

  /** The sea cells of every region but `index`, region after region. */
  function OtherRegionCells(ss: seq<Option<Surfaces.Surface>>, index: int): seq<Cell> {
    if ss == [] then []
    else
      (match ss[0] case None => [] case Some(s) => if s.index != index then Surfaces.SurfaceAvailableCells(s) else [])
      + OtherRegionCells(ss[1..], index)
  }

  /**
   * `excludePositionsInSurface(index)`: with scenarios, drop the hypotheses
   * in the region; with none, reseed from the sea cells of every other
   * region (the filter callback throws on an undefined slot). Then clean up.
   */
  function AfterExcludeInSurface(g: Grid, t: Tracker, index: int): Option<Tracker> {
    if |t.scs| > 0 then Some(Update(Tracker(t.starts, KeepWhere(t.scs, OutsideRegion(index)))))
    else if HasHole(g) then None
    else Some(Update(Reseed(OtherRegionCells(g.surfaces, index))))
  }

  // ---- SURFACE ----

  /**
   * The new starts of `surface(index)`: the current cells inside the
   * region when there are any, otherwise the sea cells of
   * `surfaces[index - 1]`; none when that slot is undefined (the source
   * throws) or the index is NaN.
   */
  function SurfaceStarts(g: Grid, t: Tracker, index: Option<int>): Option<seq<Cell>> {
    var positions := if index.Some? then CellsWhere(PossiblePositions(t.scs), (c: Cell) => c.surface == index.value) else [];
    if |positions| > 0 then Some(positions)
    else match (if index.Some? then SurfaceAt(g, index.value - 1) else None)
      case None => None
      case Some(s) => Some(SeaCells(s.cells))
  }

  /** `surface(index)` as written: the current cells are taken with their repeats. */
  function AfterSurfaceAsWritten(g: Grid, t: Tracker, index: Option<int>): Option<Tracker> {
    match SurfaceStarts(g, t, index)
    case None => None
    case Some(starts) => Some(Update(Reseed(starts)))
  }

  /** `surface(index)` with the starts de-duplicated, as `Cell.removeDuplicate` would. */
  function AfterSurface(g: Grid, t: Tracker, index: Option<int>): Option<Tracker> {
    match SurfaceStarts(g, t, index)
    case None => None
    case Some(starts) => Some(Update(Reseed(Cells.RemoveDuplicate(starts))))
  }

  // ---- applyOrders ----

  /** One order: SONAR, MINE and TRIGGER do not touch the tracker. */
  function AfterOrder(g: Grid, t: Tracker, o: Orders.Order, lost: int): Option<Tracker> {
    match o
    case Move(w) => AfterMove(g, t, w)
    case Silence => Some(AfterSilence(g, t))
    case Torpedo(x, y) => Some(AfterTorpedo(g, t, x, y, lost))
    case Surface(i) => AfterSurface(g, t, i)
    case Sonar(_) => Some(t)
    case Mine => Some(t)
    case Trigger(_, _) => Some(t)
  }

  /** The orders in sequence; the first that throws stops the rest and leaves the state it found. */
  function AfterOrdersFrom(g: Grid, t: Tracker, orders: seq<Orders.Order>, lost: int): (Tracker, bool)
    decreases |orders|
  {
    if orders == [] then (t, true)
    else match AfterOrder(g, t, orders[0], lost)
      case None => (t, false)
      case Some(t') => AfterOrdersFrom(g, t', orders[1..], lost)
  }

  /** `applyOrders(orders, lost)`. */
  function AfterOrders(g: Grid, t: Tracker, orders: seq<Orders.Order>, lost: int): (Tracker, bool) {
    AfterOrdersFrom(g, Seeded(t), orders, lost)
  }

  // ---- statistics ----

  /** The visited cells of a scenario's hypotheses, hypothesis after hypothesis. */
  function VisitedOf(sc: Scenario): seq<Cell> {
    if sc == [] then [] else VisitedOf(sc[..|sc| - 1]) + sc[|sc| - 1].visited
  }

  /** The visited cells of every hypothesis, scenario after scenario. */
  function AllVisited(scs: seq<Scenario>): seq<Cell> {
    if scs == [] then [] else AllVisited(scs[..|scs| - 1]) + VisitedOf(scs[|scs| - 1])
  }

  /** `getPositionsStats()`. */
  datatype PositionsStats = PositionsStats(
    cells: seq<(Cell, nat)>,
    numberOfMoves: nat,
    visitedCells: seq<(Cell, nat)>,
    starts: seq<Cell>,
    surfaceStats: seq<(int, seq<Cell>)>)

  function RegionOf(c: Cell): int {
    c.surface
  }

  /** The statistics of a tracker state: counters of current and visited cells, and the current cells by region. */
  function StatsOf(t: Tracker): PositionsStats {
    var cells := CountFrom([], PossiblePositions(t.scs));
    PositionsStats(cells, |t.scs|, CountFrom([], AllVisited(t.scs)), t.starts,
      GroupFrom([], Firsts(cells), RegionOf))
  }

  // ======== properties ========

  // ---- keys ----

  /** Advancing one start keeps the keys unique and adds none. */
  lemma {:induction false} AdvanceKeys(g: Grid, rules: StepRules, d: Direction, sc: Scenario, s: Cell)
    requires UniqueKeys(sc)
    ensures UniqueKeys(Advance(g, rules, d, sc, s)) && Keys(Advance(g, rules, d, sc, s)) <= Keys(sc)
  {
    var i := Find(sc, s.index);
    if i < |sc| {
      match Step(g, rules, sc[i], d)
      case None =>
        var other := (e: PathState) => Key(e) != s.index;
        RemoveIsFilter(sc, s.index, other);
        FilterKeys(sc, other);
      case Some(e) =>
        StepKeepsStart(g, rules, sc[i], d);
        var r := sc[i := e];
        assert forall j :: 0 <= j < |r| ==> Key(r[j]) == Key(sc[j]);
        assert Keys(r) <= Keys(sc) by {
          forall k | k in Keys(r) ensures k in Keys(sc) {
            var j :| 0 <= j < |r| && Key(r[j]) == k;
            assert Key(sc[j]) == k;
          }
        }
    }
  }

  /** `addPosition` keeps the keys unique and adds none, whatever the starts. */
  lemma {:induction false} AddPositionKeys(g: Grid, rules: StepRules, d: Direction, starts: seq<Cell>, sc: Scenario)
    requires UniqueKeys(sc)
    ensures UniqueKeys(AddPosition(g, rules, d, starts, sc)) && Keys(AddPosition(g, rules, d, starts, sc)) <= Keys(sc)
    decreases |starts|
  {
    if starts != [] {
      AdvanceKeys(g, rules, d, sc, starts[0]);
      AddPositionKeys(g, rules, d, starts[1..], Advance(g, rules, d, sc, starts[0]));
    }
  }

  lemma {:induction false} AdvancedKeys(g: Grid, rules: StepRules, d: Direction, starts: seq<Cell>, sc: Scenario, n: nat)
    requires UniqueKeys(sc)
    ensures UniqueKeys(Advanced(g, rules, d, starts, sc, n)) && Keys(Advanced(g, rules, d, starts, sc, n)) <= Keys(sc)
  {
    if n > 0 {
      AdvancedKeys(g, rules, d, starts, sc, n - 1);
      AddPositionKeys(g, rules, d, starts, Advanced(g, rules, d, starts, sc, n - 1));
    }
  }

  /** Every child of the fan-out has unique keys drawn from the parent's. */
  lemma {:induction false} FanOutKeys(g: Grid, rules: StepRules, dirs: seq<Direction>, starts: seq<Cell>, sc: Scenario, withZero: bool)
    requires UniqueKeys(sc)
    ensures forall i :: 0 <= i < |FanOut(g, rules, dirs, starts, sc, withZero)| ==>
      UniqueKeys(FanOut(g, rules, dirs, starts, sc, withZero)[i]) && Keys(FanOut(g, rules, dirs, starts, sc, withZero)[i]) <= Keys(sc)
    decreases |dirs|
  {
    if dirs != [] {
      var d := dirs[|dirs| - 1];
      FanOutKeys(g, rules, dirs[..|dirs| - 1], starts, sc, withZero);
      AdvancedKeys(g, rules, d, starts, sc, 1);
      AdvancedKeys(g, rules, d, starts, sc, 2);
      AdvancedKeys(g, rules, d, starts, sc, 3);
      AdvancedKeys(g, rules, d, starts, sc, 4);
      var a := FanOut(g, rules, dirs[..|dirs| - 1], starts, sc, withZero);
      var b := Run(g, rules, d, starts, sc);
      assert FanOut(g, rules, dirs, starts, sc, withZero) == a + b;
      forall i | 0 <= i < |a + b| ensures UniqueKeys((a + b)[i]) && Keys((a + b)[i]) <= Keys(sc) {
        if i >= |a| {
          assert (a + b)[i] == b[i - |a|];
        }
      }
    }
  }

  /** The SILENCE fan-out keeps every scenario keyed by the starts. */
  lemma {:induction false} SilenceKeyed(g: Grid, rules: StepRules, dirs: seq<Direction>, starts: seq<Cell>, scs: seq<Scenario>, withZero: bool)
    requires Keyed(starts, scs)
    ensures Keyed(starts, Silence(g, rules, dirs, starts, scs, withZero))
    decreases |scs|
  {
    if scs != [] {
      SilenceKeyed(g, rules, dirs, starts, scs[1..], withZero);
      FanOutKeys(g, rules, dirs, starts, scs[0], withZero);
      var a := FanOut(g, rules, dirs, starts, scs[0], withZero);
      var b := Silence(g, rules, dirs, starts, scs[1..], withZero);
      KeyedConcat(starts, a, b);
      assert Silence(g, rules, dirs, starts, scs, withZero) == a + b;
    }
  }

  /** Two keyed lists of scenarios, one after the other, are keyed. */
  lemma {:induction false} KeyedConcat(starts: seq<Cell>, a: seq<Scenario>, b: seq<Scenario>)
    requires Keyed(starts, a) && Keyed(starts, b)
    ensures Keyed(starts, a + b)
  {
    forall i | 0 <= i < |a + b| ensures UniqueKeys((a + b)[i]) && Keys((a + b)[i]) <= StartKeys(starts) {
      if i >= |a| {
        assert (a + b)[i] == b[i - |a|];
      } else {
        assert (a + b)[i] == a[i];
      }
    }
  }

  /** Filtering every scenario keeps the state keyed. */
  lemma {:induction false} KeepWhereKeyed(starts: seq<Cell>, scs: seq<Scenario>, keep: PathState -> bool)
    requires Keyed(starts, scs)
    ensures Keyed(starts, KeepWhere(scs, keep))
  {
    forall i | 0 <= i < |scs| ensures UniqueKeys(Filter(scs[i], keep)) && Keys(Filter(scs[i], keep)) <= Keys(scs[i]) {
      FilterKeys(scs[i], keep);
    }
  }

  /** The reduce keeps the state keyed. */
  lemma {:induction false} ReduceKeyed(g: Grid, starts: seq<Cell>, positions: seq<Cell>, scs: seq<Scenario>)
    requires Keyed(starts, scs)
    ensures Keyed(starts, Reduce(g, starts, positions, scs))
  {
    var pairs, max := Pairs(starts, positions), g.width * g.height;
    var pruned := PruneAll(scs, pairs, max);
    var r := NonEmpty(pruned);
    forall i | 0 <= i < |r| ensures UniqueKeys(r[i]) && Keys(r[i]) <= StartKeys(starts) {
      var t :| 0 <= t < |pruned| && pruned[t] == r[i];
      FilterKeys(scs[t], Surviving(pairs, scs, max));
    }
  }

  /** A reseed is keyed by its own starts. */
  lemma {:induction false} ReseedKeyed(starts: seq<Cell>)
    ensures Keyed(Reseed(starts).starts, Reseed(starts).scs)
  {
    FromStartsShape(starts);
  }

  lemma {:induction false} ConsistentIsKeyed(starts: seq<Cell>, scs: seq<Scenario>)
    requires Consistent(starts, scs)
    ensures Keyed(starts, scs)
  {
  }

  /** MOVE keeps the state keyed. */
  lemma {:induction false} MoveAllKeyed(g: Grid, d: Direction, t: Tracker)
    requires Keyed(t.starts, t.scs)
    ensures Keyed(t.starts, MoveAll(g, d, t))
  {
    forall i | 0 <= i < |t.scs| ensures UniqueKeys(MoveAll(g, d, t)[i]) && Keys(MoveAll(g, d, t)[i]) <= StartKeys(t.starts) {
      AddPositionKeys(g, Rules, d, t.starts, t.scs[i]);
    }
  }

  /**
   * The structural invariant after every operation that ends with
   * `updateMoveStrategies`: from a keyed state, no scenario is empty, keys
   * are unique and are start indices, and every start is in use.
   */
  lemma {:induction false} OrdersRestoreInvariant(g: Grid, t: Tracker, o: Orders.Order, lost: int)
    requires Keyed(t.starts, t.scs)
    requires AfterOrder(g, t, o, lost).Some? && !o.Sonar? && !o.Mine? && !o.Trigger?
    ensures Consistent(AfterOrder(g, t, o, lost).value.starts, AfterOrder(g, t, o, lost).value.scs)
  {
    match o
    case Move(w) =>
      var d := if w.Some? then ParseDirection(w.value) else None;
      if d.Some? {
        MoveAllKeyed(g, d.value, t);
        UpdateRestoresInvariant(t.starts, MoveAll(g, d.value, t));
      } else {
        UpdateRestoresInvariant(t.starts, t.scs);
      }
    case Silence =>
      var r := AfterReduce(g, t);
      ReduceKeyed(g, t.starts, PossiblePositions(t.scs), t.scs);
      SilenceKeyed(g, Rules, SouthEast, t.starts, r.scs, true);
      UpdateRestoresInvariant(t.starts, Silence(g, Rules, SouthEast, t.starts, r.scs, true));
    case Torpedo(x, y) =>
      var zone := TorpedoZone(g, x, y, lost);
      var keep := InCells(zone);
      KeepWhereKeyed(t.starts, t.scs, keep);
      var kept := Tracker(t.starts, KeepWhere(t.scs, keep));
      ReduceKeyed(g, t.starts, PossiblePositions(kept.scs), kept.scs);
      UpdateRestoresInvariant(t.starts, AfterReduce(g, kept).scs);
    case Surface(i) =>
      var starts := SurfaceStarts(g, t, i).value;
      ReseedKeyed(Cells.RemoveDuplicate(starts));
      UpdateRestoresInvariant(Cells.RemoveDuplicate(starts), [FromStarts(Cells.RemoveDuplicate(starts))]);
  }

  // ---- MOVE moves by one unit ----

  /**
   * MOVE on a built grid, from a keyed state whose starts have pairwise
   * different indices: every surviving hypothesis comes from a hypothesis
   * of the same start that sat one unit vector back, on a sea cell it had
   * not visited, and its visited cells are the old ones plus that cell.
   */
  lemma {:induction false} MoveShiftsByOneUnit(g: Grid, t: Tracker, d: Direction, i: int, j: int)
    requires WellFormed(g) && Keyed(t.starts, t.scs) && DistinctIndices(t.starts)
    requires AfterMove(g, t, Some(Letter(d))).Some?
    requires var r := AfterMove(g, t, Some(Letter(d))).value; 0 <= i < |r.scs| && 0 <= j < |r.scs[i]|
    ensures var x := AfterMove(g, t, Some(Letter(d))).value.scs[i][j];
      exists i', j' :: 0 <= i' < |t.scs| && 0 <= j' < |t.scs[i']| &&
        var e := t.scs[i'][j'];
        && Key(e) == Key(x)
        && x.position.coordinate == Add(e.position.coordinate, Vector(d))
        && IsAvailable(x.position) && x.position !in e.visited
        && x.visited == e.visited + [x.position]
  {
    ParseLetterRoundTrip(d);
    var moved := MoveAll(g, d, t);
    var x := NonEmpty(moved)[i][j];
    var i' :| 0 <= i' < |moved| && moved[i'] == NonEmpty(moved)[i];
    var sc := t.scs[i'];
    AddPositionMovesEachOnce(g, Rules, d, t.starts, sc);
    StepAllShape(g, Rules, d, sc);
    assert x in StepAll(g, Rules, d, sc);
    assert StepOf(g, Rules, d, sc, x);
    var j' :| 0 <= j' < |sc| && Step(g, Rules, sc[j'], d) == Some(x);
    StepMovesOneUnit(g, sc[j'], d);
  }

  // ---- filters only delete ----

  lemma {:induction false} CountShrinks(a: seq<Scenario>, b: seq<Scenario>)
    requires |a| == |b| && forall i :: 0 <= i < |a| ==> |a[i]| <= |b[i]|
    ensures Count(a) <= Count(b)
  {
    if a != [] {
      CountShrinks(a[1..], b[1..]);
    }
  }

  lemma {:induction false} CountNonEmpty(scs: seq<Scenario>)
    ensures Count(NonEmpty(scs)) == Count(scs)
  {
    if scs != [] {
      CountNonEmpty(scs[1..]);
      var h: seq<Scenario> := if scs[0] != [] then [scs[0]] else [];
      assert NonEmpty(scs) == h + NonEmpty(scs[1..]);
      CountAppend(h, NonEmpty(scs[1..]));
    }
  }

  lemma {:induction false} CountAppend(a: seq<Scenario>, b: seq<Scenario>)
    ensures Count(a + b) == Count(a) + Count(b)
  {
    if a != [] {
      CountAppend(a[1..], b);
      assert (a + b)[1..] == a[1..] + b;
    } else {
      assert a + b == b;
    }
  }

  /**
   * A filter followed by the clean-up only deletes: each scenario left is a
   * sub-list of one before, and the number of hypotheses never grows.
   */
  lemma {:induction false} FilterThenUpdateDeletes(t: Tracker, keep: PathState -> bool)
    ensures var r := Update(Tracker(t.starts, KeepWhere(t.scs, keep)));
      && Count(r.scs) <= Count(t.scs)
      && forall i :: 0 <= i < |r.scs| ==> exists i' :: 0 <= i' < |t.scs| && r.scs[i] == Filter(t.scs[i'], keep)
  {
    var kept := KeepWhere(t.scs, keep);
    CountShrinks(kept, t.scs);
    CountNonEmpty(kept);
    forall i | 0 <= i < |NonEmpty(kept)| ensures exists i' :: 0 <= i' < |t.scs| && NonEmpty(kept)[i] == Filter(t.scs[i'], keep) {
      var i' :| 0 <= i' < |kept| && kept[i'] == NonEmpty(kept)[i];
    }
  }

  /** The reduce only deletes: the number of hypotheses never grows. */
  lemma {:induction false} ReduceCount(g: Grid, starts: seq<Cell>, positions: seq<Cell>, scs: seq<Scenario>)
    ensures Count(Reduce(g, starts, positions, scs)) <= Count(scs)
  {
    var pruned := PruneAll(scs, Pairs(starts, positions), g.width * g.height);
    CountShrinks(pruned, scs);
    CountNonEmpty(pruned);
  }

  /** The torpedo filter only deletes: the number of hypotheses never grows. */
  lemma {:induction false} TorpedoOnlyDeletes(g: Grid, t: Tracker, x: Option<int>, y: Option<int>, lost: int)
    ensures Count(AfterTorpedo(g, t, x, y, lost).scs) <= Count(t.scs)
    ensures forall i, j :: 0 <= i < |AfterTorpedo(g, t, x, y, lost).scs| && 0 <= j < |AfterTorpedo(g, t, x, y, lost).scs[i]| ==>
      AfterTorpedo(g, t, x, y, lost).scs[i][j].position in TorpedoZone(g, x, y, lost)
  {
    var zone := TorpedoZone(g, x, y, lost);
    var keep := InCells(zone);
    var kept := KeepWhere(t.scs, keep);
    CountShrinks(kept, t.scs);
    var reduced := Reduce(g, t.starts, PossiblePositions(kept), kept);
    ReduceCount(g, t.starts, PossiblePositions(kept), kept);
    CountNonEmpty(reduced);
    forall i, j | 0 <= i < |NonEmpty(reduced)| && 0 <= j < |NonEmpty(reduced)[i]|
      ensures NonEmpty(reduced)[i][j].position in zone
    {
      var i0 :| 0 <= i0 < |reduced| && reduced[i0] == NonEmpty(reduced)[i];
      ReduceOnlyDeletes(g, t.starts, PossiblePositions(kept), kept, i0, j);
      var i', j' :| 0 <= i' < |kept| && 0 <= j' < |kept[i']| && kept[i'][j'] == reduced[i0][j];
      assert kept[i'] == Filter(t.scs[i'], keep);
      FilterMember(t.scs[i'], keep, kept[i'][j']);
    }
  }

  // ---- region feedback ----

  /** The positions of every hypothesis satisfy `p`. */
  ghost predicate AllPositions(scs: seq<Scenario>, p: Cell -> bool) {
    forall i, j :: 0 <= i < |scs| && 0 <= j < |scs[i]| ==> p(scs[i][j].position)
  }

  /** A filter whose kept hypotheses all sit where `p` holds leaves only such positions. */
  lemma {:induction false} KeepWherePositions(scs: seq<Scenario>, keep: PathState -> bool, p: Cell -> bool)
    requires forall e: PathState :: keep(e) ==> p(e.position)
    ensures AllPositions(KeepWhere(scs, keep), p)
  {
    var kept: seq<seq<PathState>> := KeepWhere(scs, keep);
    forall i, j | 0 <= i < |kept| && 0 <= j < |kept[i]| ensures p(kept[i][j].position) {
      FilterMember(scs[i], keep, kept[i][j]);
    }
  }

  /** The clean-up keeps only hypotheses that were there. */
  lemma {:induction false} UpdateKeepsPositions(t: Tracker, p: Cell -> bool)
    requires AllPositions(t.scs, p)
    ensures AllPositions(Update(t).scs, p)
  {
    forall i, j | 0 <= i < |NonEmpty(t.scs)| && 0 <= j < |NonEmpty(t.scs)[i]| ensures p(NonEmpty(t.scs)[i][j].position) {
      var i' :| 0 <= i' < |t.scs| && t.scs[i'] == NonEmpty(t.scs)[i];
    }
  }

  /** A reseed puts one fresh hypothesis on each start, so every position is a start. */
  lemma {:induction false} ReseedPositions(starts: seq<Cell>, p: Cell -> bool)
    requires forall i :: 0 <= i < |starts| ==> p(starts[i])
    ensures AllPositions(Update(Reseed(starts)).scs, p)
  {
    FromStartsShape(starts);
    UpdateKeepsPositions(Reseed(starts), p);
  }

  /** Slot k of the Surface list holds the Surface numbered k + 1. */
  ghost predicate NumberedSlots(ss: seq<Option<Surfaces.Surface>>) {
    forall k :: 0 <= k < |ss| && ss[k].Some? ==> ss[k].value.index == k + 1
  }

  /** Each Surface's cells lie in the region it is numbered with. */
  ghost predicate LabelledRegions(ss: seq<Option<Surfaces.Surface>>) {
    forall k :: 0 <= k < |ss| && ss[k].Some? ==>
      forall j :: 0 <= j < |ss[k].value.cells| ==> ss[k].value.cells[j].surface == ss[k].value.index
  }

  /** The cells of every Surface slot are cells of the grid. */
  ghost predicate SlotsOnGrid(g: Grid) {
    forall k :: 0 <= k < |g.surfaces| && g.surfaces[k].Some? ==>
      forall j :: 0 <= j < |g.surfaces[k].value.cells| ==> g.surfaces[k].value.cells[j] in g.cells
  }

  /** What the tracker relies on about a built grid. */
  lemma {:induction false} BuiltGridFacts(g: Grid)
    requires WellFormed(g)
    ensures NumberedSlots(g.surfaces) && LabelledRegions(g.surfaces) && SlotsOnGrid(g)
    ensures forall i :: 0 <= i < |g.cells| ==> g.cells[i].index == i
  {
    forall k | 0 <= k < |g.surfaces| && g.surfaces[k].Some?
      ensures g.surfaces[k].value.index == k + 1
      ensures forall j :: 0 <= j < |g.surfaces[k].value.cells| ==> g.surfaces[k].value.cells[j].surface == g.surfaces[k].value.index
      ensures forall j :: 0 <= j < |g.surfaces[k].value.cells| ==> g.surfaces[k].value.cells[j] in g.cells
    {
      SurfaceBucketRegion(g, k);
    }
  }

  /**
   * After `keepOnlyPositionsInSurface(index)` on a built grid, every
   * hypothesis sits in region `index`, whether the scenarios were filtered
   * or reseeded from the region's sea cells.
   */
  lemma {:induction false} KeepOnlyInSurfaceLands(g: Grid, t: Tracker, index: int)
    requires NumberedSlots(g.surfaces) && LabelledRegions(g.surfaces) && AfterKeepOnlyInSurface(g, t, index).Some?
    ensures AllPositions(AfterKeepOnlyInSurface(g, t, index).value.scs, (c: Cell) => c.surface == index)
  {
    var inRegion := (c: Cell) => c.surface == index;
    if |t.scs| > 300 || |t.scs| == 0 {
      var k := index - 1;
      var slot := SurfaceAt(g, k).value;
      assert slot == g.surfaces[k].value;
      var cells := Surfaces.SurfaceAvailableCells(slot);
      ReseedPositions(cells, inRegion);
    } else {
      var kept := KeepWhere(t.scs, InRegion(index));
      KeepWherePositions(t.scs, InRegion(index), inRegion);
      UpdateKeepsPositions(Tracker(t.starts, kept), inRegion);
    }
  }

  lemma {:induction false} OtherRegionCellsOutside(ss: seq<Option<Surfaces.Surface>>, index: int)
    requires LabelledRegions(ss)
    ensures forall c :: c in OtherRegionCells(ss, index) ==> c.surface != index
  {
    if ss != [] {
      assert LabelledRegions(ss[1..]) by {
        forall k | 0 <= k < |ss[1..]| && ss[1..][k].Some?
          ensures forall j :: 0 <= j < |ss[1..][k].value.cells| ==> ss[1..][k].value.cells[j].surface == ss[1..][k].value.index
        {
          assert ss[1..][k] == ss[k + 1];
        }
      }
      OtherRegionCellsOutside(ss[1..], index);
    }
  }

  /**
   * After `excludePositionsInSurface(index)` on a built grid, no hypothesis
   * sits in region `index`, whether the scenarios were filtered or reseeded
   * from the other regions.
   */
  lemma {:induction false} ExcludeInSurfaceLeaves(g: Grid, t: Tracker, index: int)
    requires LabelledRegions(g.surfaces) && AfterExcludeInSurface(g, t, index).Some?
    ensures AllPositions(AfterExcludeInSurface(g, t, index).value.scs, (c: Cell) => c.surface != index)
  {
    var outside := (c: Cell) => c.surface != index;
    if |t.scs| > 0 {
      var kept := KeepWhere(t.scs, OutsideRegion(index));
      KeepWherePositions(t.scs, OutsideRegion(index), outside);
      UpdateKeepsPositions(Tracker(t.starts, kept), outside);
    } else {
      var cells := OtherRegionCells(g.surfaces, index);
      OtherRegionCellsOutside(g.surfaces, index);
      ReseedPositions(cells, outside);
    }
  }

  /** Keeping a list of cells and excluding it split every hypothesis between the two results. */
  lemma {:induction false} KeepAndExcludePositionsSplit(g: Grid, t: Tracker, ps: seq<Coordinate>, i: int)
    requires 0 <= i < |t.scs|
    ensures var cells := Found(g, ps);
      multiset(KeepWhere(t.scs, InCells(cells))[i])
      + multiset(KeepWhere(t.scs, OutsideCells(cells))[i]) == multiset(t.scs[i])
  {
    MoveScenarios.KeepAndExcludeSplit(t.scs[i], Found(g, ps), 0);
  }

  // ---- applyOrders ----

  /** Every order keeps the state keyed, and one that throws leaves it as it was. */
  lemma {:induction false} OrderKeepsKeyed(g: Grid, t: Tracker, o: Orders.Order, lost: int)
    requires Keyed(t.starts, t.scs) && AfterOrder(g, t, o, lost).Some?
    ensures Keyed(AfterOrder(g, t, o, lost).value.starts, AfterOrder(g, t, o, lost).value.scs)
  {
    if !o.Sonar? && !o.Mine? && !o.Trigger? {
      OrdersRestoreInvariant(g, t, o, lost);
    }
  }

  /** The orders from index i on: the first of them, then the rest from the state it leaves. */
  lemma {:induction false} OrdersFromStep(g: Grid, t: Tracker, orders: seq<Orders.Order>, lost: int, i: int)
    requires 0 <= i < |orders|
    ensures AfterOrdersFrom(g, t, orders[i..], lost) ==
      match AfterOrder(g, t, orders[i], lost)
      case None => (t, false)
      case Some(t') => AfterOrdersFrom(g, t', orders[i + 1..], lost)
  {
    assert orders[i..][0] == orders[i] && orders[i..][1..] == orders[i + 1..];
  }

  /** Once the first order has gone through, the orders of every longer prefix run from the state it left. */
  lemma {:induction false} OrdersPrefixShift(g: Grid, t: Tracker, t': Tracker, orders: seq<Orders.Order>, lost: int)
    requires orders != [] && AfterOrder(g, t, orders[0], lost) == Some(t')
    ensures forall n :: 1 <= n <= |orders| ==>
      AfterOrdersFrom(g, t, orders[..n], lost) == AfterOrdersFrom(g, t', orders[1..][..n - 1], lost)
  {
    forall n | 1 <= n <= |orders|
      ensures AfterOrdersFrom(g, t, orders[..n], lost) == AfterOrdersFrom(g, t', orders[1..][..n - 1], lost)
    {
      assert orders[..n][0] == orders[0];
      assert orders[..n][1..] == orders[1..][..n - 1];
    }
  }

  /**
   * `applyOrders` from a keyed state ends keyed, and it reports success
   * exactly when no order threw, in which case the state is the orders
   * applied one after the other.
   */
  lemma {:induction false} OrdersKeepKeyed(g: Grid, t: Tracker, orders: seq<Orders.Order>, lost: int)
    requires Keyed(t.starts, t.scs)
    ensures Keyed(AfterOrdersFrom(g, t, orders, lost).0.starts, AfterOrdersFrom(g, t, orders, lost).0.scs)
    ensures !AfterOrdersFrom(g, t, orders, lost).1 <==>
      exists n :: 0 <= n < |orders| && AfterOrder(g, AfterOrdersFrom(g, t, orders[..n], lost).0, orders[n], lost).None?
    decreases |orders|
  {
    if orders != [] {
      assert orders[..0] == [];
      match AfterOrder(g, t, orders[0], lost)
      case None =>
      case Some(t') =>
        OrderKeepsKeyed(g, t, orders[0], lost);
        OrdersKeepKeyed(g, t', orders[1..], lost);
        OrdersPrefixShift(g, t, t', orders, lost);
        var r := AfterOrdersFrom(g, t, orders, lost);
        if !r.1 {
          var n :| 0 <= n < |orders[1..]| && AfterOrder(g, AfterOrdersFrom(g, t', orders[1..][..n], lost).0, orders[1..][n], lost).None?;
          assert AfterOrder(g, AfterOrdersFrom(g, t, orders[..n + 1], lost).0, orders[n + 1], lost).None?;
        }
        if exists n :: 0 <= n < |orders| && AfterOrder(g, AfterOrdersFrom(g, t, orders[..n], lost).0, orders[n], lost).None? {
          var n :| 0 <= n < |orders| && AfterOrder(g, AfterOrdersFrom(g, t, orders[..n], lost).0, orders[n], lost).None?;
          assert n > 0;
          assert orders[1..][n - 1] == orders[n];
        }
    }
  }

  /** The seeding keeps a keyed state keyed. */
  lemma {:induction false} SeededKeyed(t: Tracker)
    requires Keyed(t.starts, t.scs)
    ensures Keyed(Seeded(t).starts, Seeded(t).scs)
  {
    if t.scs == [] {
      ReseedKeyed(t.starts);
    }
  }

  // ---- statistics ----

  lemma {:induction false} PossiblePositionsCount(scs: seq<Scenario>)
    ensures |PossiblePositions(scs)| == Count(scs)
  {
    if scs != [] {
      PossiblePositionsCount(scs[1..]);
    }
  }

  /**
   * `getPositionsStats()`: the counter's keys are the distinct current
   * cells in first-seen order, each counted once per hypothesis on it, the
   * counts add up to the number of hypotheses, and the regions group
   * exactly those cells by region number.
   */
  lemma {:induction false} StatsMeaning(t: Tracker)
    ensures var st := StatsOf(t); var ps := PossiblePositions(t.scs);
      && Firsts(st.cells) == Dedup(ps)
      && (forall c :: CountOf(st.cells, c) == multiset(ps)[c])
      && Total(st.cells) == Count(t.scs)
      && st.numberOfMoves == |t.scs|
      && Firsts(st.surfaceStats) == Dedup(KeysOf(Dedup(ps), RegionOf))
      && (forall k :: GroupOf(st.surfaceStats, k) == Where(Dedup(ps), RegionOf, k))
      && (forall c :: CountOf(st.visitedCells, c) == multiset(AllVisited(t.scs))[c])
  {
    var ps := PossiblePositions(t.scs);
    TallySpec(ps);
    TallySpec(AllVisited(t.scs));
    PossiblePositionsCount(t.scs);
    GroupSpec(Dedup(ps), RegionOf);
  }

  // ---- SURFACE ----

  /** Every hypothesis sits on a cell of the grid. */
  ghost predicate OnGrid(g: Grid, scs: seq<Scenario>) {
    forall i, j :: 0 <= i < |scs| && 0 <= j < |scs[i]| ==> scs[i][j].position in g.cells
  }

  /** Cells drawn from a list whose entry i has index i, without repeats, have pairwise different indices. */
  lemma {:induction false} DedupOfIndexedCells(all: seq<Cell>, cells: seq<Cell>)
    requires forall i :: 0 <= i < |all| ==> all[i].index == i
    requires forall i :: 0 <= i < |cells| ==> cells[i] in all
    ensures DistinctIndices(Dedup(cells))
  {
    DedupSpec(cells);
    var d := Dedup(cells);
    forall i, j | 0 <= i < j < |d| ensures d[i].index != d[j].index {
      assert d[i] in cells && d[j] in cells;
      var a :| 0 <= a < |all| && all[a] == d[i];
      var b :| 0 <= b < |all| && all[b] == d[j];
    }
  }

  lemma {:induction false} CellsWhereDistinct(cells: seq<Cell>, keep: Cell -> bool)
    requires DistinctIndices(cells)
    ensures DistinctIndices(CellsWhere(cells, keep))
  {
    if cells != [] {
      CellsWhereDistinct(cells[1..], keep);
      var rest := CellsWhere(cells[1..], keep);
      forall j | 0 <= j < |rest| ensures rest[j].index != cells[0].index {
        var t :| 0 <= t < |cells[1..]| && cells[1..][t] == rest[j];
        assert cells[t + 1] == rest[j];
      }
    }
  }

  /** The new starts of SURFACE are cells of the grid. */
  lemma {:induction false} SurfaceStartsOnGrid(g: Grid, t: Tracker, index: Option<int>)
    requires SlotsOnGrid(g) && OnGrid(g, t.scs) && SurfaceStarts(g, t, index).Some?
    ensures forall i :: 0 <= i < |SurfaceStarts(g, t, index).value| ==> SurfaceStarts(g, t, index).value[i] in g.cells
  {
    var positions := if index.Some? then CellsWhere(PossiblePositions(t.scs), (c: Cell) => c.surface == index.value) else [];
    if |positions| > 0 {
      forall i | 0 <= i < |positions| ensures positions[i] in g.cells {
        assert positions[i] in PossiblePositions(t.scs);
      }
    } else {
      var slot := g.surfaces[index.value - 1].value;
      assert SurfaceStarts(g, t, index).value == SeaCells(slot.cells);
    }
  }

  /**
   * The corrected SURFACE on a built grid: the new starts have pairwise
   * different indices, and the state satisfies the structural invariant.
   */
  lemma {:induction false} SurfaceStartsDistinct(g: Grid, t: Tracker, index: Option<int>)
    requires WellFormed(g) && OnGrid(g, t.scs) && AfterSurface(g, t, index).Some?
    ensures DistinctIndices(AfterSurface(g, t, index).value.starts)
    ensures Consistent(AfterSurface(g, t, index).value.starts, AfterSurface(g, t, index).value.scs)
  {
    var starts := SurfaceStarts(g, t, index).value;
    BuiltGridFacts(g);
    SurfaceStartsOnGrid(g, t, index);
    DedupOfIndexedCells(g.cells, starts);
    var r := Reseed(Cells.RemoveDuplicate(starts));
    CellsWhereDistinct(r.starts, (c: Cell) => IsUsed(NonEmpty(r.scs), c.index));
    ReseedKeyed(Cells.RemoveDuplicate(starts));
    UpdateRestoresInvariant(r.starts, r.scs);
  }

  /**
   * The corrected SURFACE followed by a MOVE: every hypothesis left has
   * moved exactly one unit from the hypothesis of the same start.
   */
  lemma {:induction false} SurfaceThenMoveShiftsOnce(g: Grid, t: Tracker, index: Option<int>, d: Direction, i: int, j: int)
    requires WellFormed(g) && OnGrid(g, t.scs) && AfterSurface(g, t, index).Some?
    requires var s := AfterSurface(g, t, index).value;
      AfterMove(g, s, Some(Letter(d))).Some? &&
      0 <= i < |AfterMove(g, s, Some(Letter(d))).value.scs| && 0 <= j < |AfterMove(g, s, Some(Letter(d))).value.scs[i]|
    ensures var s := AfterSurface(g, t, index).value;
      var x := AfterMove(g, s, Some(Letter(d))).value.scs[i][j];
      exists i', j' :: 0 <= i' < |s.scs| && 0 <= j' < |s.scs[i']| &&
        Key(s.scs[i'][j']) == Key(x) && x.position.coordinate == Add(s.scs[i'][j'].position.coordinate, Vector(d))
  {
    var s := AfterSurface(g, t, index).value;
    SurfaceStartsDistinct(g, t, index);
    MoveShiftsByOneUnit(g, s, d, i, j);
  }

  /** A row of four sea cells in region 1, the grid of the example below. */
  const C0 := Cell(Coordinate(0, 0), 0, Sea, 1)
  const C1 := Cell(Coordinate(1, 0), 1, Sea, 1)
  const C2 := Cell(Coordinate(2, 0), 2, Sea, 1)
  const C3 := Cell(Coordinate(3, 0), 3, Sea, 1)
  const SeaRow := Grid(4, 1, [C0, C1, C2, C3], [])

  /** SURFACE as written, when two hypotheses from different starts share cell 1: cell 1 becomes a start twice. */
  lemma {:induction false} SurfaceAsWrittenRepeatsStart()
    ensures AfterSurfaceAsWritten(SeaRow, Tracker([C0, C2], [[PathState(C0, [C0, C1], C1), PathState(C2, [C2, C1], C1)]]), Some(1))
      == Some(Tracker([C1, C1], [[Fresh(C1)]]))
  {
    var t := Tracker([C0, C2], [[PathState(C0, [C0, C1], C1), PathState(C2, [C2, C1], C1)]]);
    SharedCellStarts(t);
    ReseedRepeated();
  }

  /** Both hypotheses sit on cell 1, in region 1: the current cells, repeats kept, are [C1, C1]. */
  lemma {:induction false} SharedCellStarts(t: Tracker)
    requires t == Tracker([C0, C2], [[PathState(C0, [C0, C1], C1), PathState(C2, [C2, C1], C1)]])
    ensures SurfaceStarts(SeaRow, t, Some(1)) == Some([C1, C1])
  {
    assert PossiblePositions(t.scs) == [C1, C1];
    var inOne := (c: Cell) => c.surface == 1;
    assert CellsWhere([C1], inOne) == [C1];
    assert [C1, C1][1..] == [C1];
    assert CellsWhere([C1, C1], inOne) == [C1, C1];
  }

  /** Seeding from [C1, C1] gives one hypothesis, and the clean-up keeps both starts. */
  lemma {:induction false} ReseedRepeated()
    ensures Update(Reseed([C1, C1])) == Tracker([C1, C1], [[Fresh(C1)]])
  {
    assert FromStarts([C1]) == [Fresh(C1)];
    assert [C1, C1][..1] == [C1];
    assert FromStarts([C1, C1]) == [Fresh(C1)];
    var seeded := [[Fresh(C1)]];
    assert NonEmpty(seeded) == seeded;
    assert IsUsed(seeded, 1);
    var used := (c: Cell) => IsUsed(seeded, c.index);
    assert CellsWhere([C1], used) == [C1];
    assert UsedStarts([C1, C1], seeded) == [C1, C1];
  }

  lemma {:induction false} EastOnSeaRow()
    ensures Step(SeaRow, Rules, Fresh(C1), East) == Some(PathState(C1, [C1, C2], C2))
    ensures Step(SeaRow, Rules, PathState(C1, [C1, C2], C2), East) == Some(PathState(C1, [C1, C2, C3], C3))
  {
    EastFromC1();
    EastFromC2();
  }

  lemma {:induction false} EastFromC1()
    ensures Step(SeaRow, Rules, Fresh(C1), East) == Some(PathState(C1, [C1, C2], C2))
  {
    var e := Fresh(C1);
    assert e.start == C1 && e.position == C1 && e.visited == [C1];
    assert C2 !in e.visited && [C1] + [C2] == [C1, C2];
    SeaRowCell(2);
    StepTo(SeaRow, Rules, e, East, Coordinate(2, 0), C2);
  }

  lemma {:induction false} EastFromC2()
    ensures Step(SeaRow, Rules, PathState(C1, [C1, C2], C2), East) == Some(PathState(C1, [C1, C2, C3], C3))
  {
    var e := PathState(C1, [C1, C2], C2);
    assert C3 !in e.visited && [C1, C2] + [C3] == [C1, C2, C3];
    SeaRowCell(3);
    StepTo(SeaRow, Rules, e, East, Coordinate(3, 0), C3);
  }

  /** A step onto a free sea cell the guarded lookup finds. */
  lemma {:induction false} StepTo(g: Grid, rules: StepRules, e: PathState, d: Direction, q: Coordinate, t: Cell)
    requires rules == Rules && Add(e.position.coordinate, Vector(d)) == q && CellFromCoordinate(g, q) == Some(t)
    requires IsAvailable(t) && t !in e.visited
    ensures Step(g, rules, e, d) == Some(PathState(e.start, e.visited + [t], t))
  {
  }

  lemma {:induction false} SeaRowCell(x: int)
    requires 0 <= x < 4
    ensures CellFromCoordinate(SeaRow, Coordinate(x, 0)) == Some([C0, C1, C2, C3][x])
  {
    assert GetIndex(Frame(SeaRow), Coordinate(x, 0)) == x;
  }

  lemma {:induction false} AdvanceSingle(g: Grid, rules: StepRules, d: Direction, e: PathState, s: Cell, x: PathState)
    requires Key(e) == s.index && Step(g, rules, e, d) == Some(x)
    ensures Advance(g, rules, d, [e], s) == [x]
  {
  }

  lemma {:induction false} AddPositionRepeated(g: Grid, rules: StepRules, d: Direction, s: Cell, sc: Scenario)
    ensures AddPosition(g, rules, d, [s, s], sc) == Advance(g, rules, d, Advance(g, rules, d, sc, s), s)
  {
    var a := Advance(g, rules, d, sc, s);
    assert [s, s][1..] == [s];
    assert AddPosition(g, rules, d, [s, s], sc) == AddPosition(g, rules, d, [s], a);
    assert [s][1..] == [];
  }

  /** When every start is in use, the clean-up keeps them all. */
  lemma {:induction false} AllStartsUsed(starts: seq<Cell>, scs: seq<Scenario>)
    requires forall j :: 0 <= j < |starts| ==> IsUsed(scs, starts[j].index)
    ensures UsedStarts(starts, scs) == starts
  {
    if starts != [] {
      AllStartsUsed(starts[1..], scs);
    }
  }

  lemma {:induction false} AddPositionTwice()
    ensures AddPosition(SeaRow, Rules, East, [C1, C1], [Fresh(C1)]) == [PathState(C1, [C1, C2, C3], C3)]
  {
    var once := PathState(C1, [C1, C2], C2);
    var twice := PathState(C1, [C1, C2, C3], C3);
    EastOnSeaRow();
    AdvanceSingle(SeaRow, Rules, East, Fresh(C1), C1, once);
    AdvanceSingle(SeaRow, Rules, East, once, C1, twice);
    AddPositionRepeated(SeaRow, Rules, East, C1, [Fresh(C1)]);
  }

  lemma {:induction false} MoveByLetter(g: Grid, t: Tracker, d: Direction)
    ensures AfterMove(g, t, Some(Letter(d))) == Some(Update(Tracker(t.starts, MoveAll(g, d, t))))
  {
    ParseLetterRoundTrip(d);
  }

  /** A MOVE E with cell 1 a start twice advances its one hypothesis twice, to cell 3. */
  lemma {:induction false} RepeatedStartMovesTwice()
    ensures AfterMove(SeaRow, Tracker([C1, C1], [[Fresh(C1)]]), Some("E"))
      == Some(Tracker([C1, C1], [[PathState(C1, [C1, C2, C3], C3)]]))
  {
    var twice := PathState(C1, [C1, C2, C3], C3);
    var t := Tracker([C1, C1], [[Fresh(C1)]]);
    MoveByLetter(SeaRow, t, East);
    MoveAllTwice();
    UpdateTwice();
  }

  lemma {:induction false} MoveAllTwice()
    ensures MoveAll(SeaRow, East, Tracker([C1, C1], [[Fresh(C1)]])) == [[PathState(C1, [C1, C2, C3], C3)]]
  {
    AddPositionTwice();
    var moved := MoveAll(SeaRow, East, Tracker([C1, C1], [[Fresh(C1)]]));
    assert moved[0] == AddPosition(SeaRow, Rules, East, [C1, C1], [Fresh(C1)]);
  }

  lemma {:induction false} UpdateTwice()
    ensures var scs := [[PathState(C1, [C1, C2, C3], C3)]];
      Update(Tracker([C1, C1], scs)) == Tracker([C1, C1], scs)
  {
    var twice := PathState(C1, [C1, C2, C3], C3);
    assert NonEmpty([[twice]]) == [[twice]];
    assert Has([twice], C1.index);
    AllStartsUsed([C1, C1], [[twice]]);
  }

  /**
   * SURFACE as written followed by MOVE E on the sea row: the hypothesis
   * reseeded on cell 1 ends on cell 3 with three visited cells, two cells
   * for one move, where every hypothesis should move exactly one cell.
   */
  lemma {:induction false} SurfaceAsWrittenMovesTwice()
    ensures var t := Tracker([C0, C2], [[PathState(C0, [C0, C1], C1), PathState(C2, [C2, C1], C1)]]);
      var s := AfterSurfaceAsWritten(SeaRow, t, Some(1));
      && s.Some?
      && AfterMove(SeaRow, s.value, Some("E")) == Some(Tracker([C1, C1], [[PathState(C1, [C1, C2, C3], C3)]]))
      && C3.coordinate == Add(Add(C1.coordinate, Vector(East)), Vector(East))
  {
    SurfaceAsWrittenRepeatsStart();
    RepeatedStartMovesTwice();
    TwoCellsEast();
  }

  lemma {:induction false} TwoCellsEast()
    ensures C3.coordinate == Add(Add(C1.coordinate, Vector(East)), Vector(East))
  {
    assert Vector(East) == Coordinate(1, 0);
  }

  // ======== the loops of the class ========

  /** `addPosition` for one start, read off the Map: move the hypothesis there, or delete it. */
  lemma {:induction false} AdvanceByEntry(g: Grid, rules: StepRules, d: Direction, sc: Scenario, s: Cell)
    ensures Entry(sc, s.index).None? ==> Advance(g, rules, d, sc, s) == sc
    ensures Entry(sc, s.index).Some? ==>
      Advance(g, rules, d, sc, s) ==
        match Step(g, rules, Entry(sc, s.index).value, d)
        case Some(e) => Put(sc, e)
        case None => Remove(sc, s.index)
  {
    var i := Find(sc, s.index);
    if i < |sc| {
      MoveScenarios.FoundAt(sc, i, s.index);
      StepKeepsStart(g, rules, sc[i], d);
    }
  }

  /** The `forEach` of `addPosition`: each start in turn moves its hypothesis or deletes it. */
  method AdvanceScenario(g: Grid, rules: StepRules, d: Direction, starts: seq<Cell>, sc: Scenario) returns (r: Scenario)
    ensures r == AddPosition(g, rules, d, starts, sc)
  {
    r := sc;
    var i := 0;
    assert starts[0..] == starts;
    while i < |starts|
      invariant 0 <= i <= |starts|
      invariant AddPosition(g, rules, d, starts[i..], r) == AddPosition(g, rules, d, starts, sc)
    {
      var s := starts[i];
      AdvanceByEntry(g, rules, d, r, s);
      assert starts[i..][0] == s && starts[i..][1..] == starts[i + 1..];
      var e := Entry(r, s.index);
      if e.Some? {
        var next := Step(g, rules, e.value, d);
        if next.Some? {
          r := Put(r, next.value);
        } else {
          r := Remove(r, s.index);
        }
      }
      i := i + 1;
    }
  }

  /** The `minLength` reduce: the fewest visited cells of a hypothesis of key `k` on `p`, or `max`. */
  method MinLength(scs: seq<Scenario>, k: int, p: Cell, max: int) returns (m: int)
    ensures m == MinSize(scs, k, p, max)
  {
    m := max;
    var i := 0;
    while i < |scs|
      invariant 0 <= i <= |scs|
      invariant m == MinSize(scs[..i], k, p, max)
    {
      MinSizePrefixStep(scs, k, p, max, i);
      var e := Entry(scs[i], k);
      if e.Some? && e.value.position == p && |e.value.visited| < m {
        m := |e.value.visited|;
      }
      i := i + 1;
    }
    assert scs[..|scs|] == scs;
  }

  /** The deleting `forEach` of the reduce, for the pair (k, p) with bound m. */
  method DeleteLongerAll(cur: seq<Scenario>, k: int, p: Cell, m: int) returns (r: seq<Scenario>)
    ensures r == seq(|cur|, i requires 0 <= i < |cur| => DeleteLonger(cur[i], k, p, m))
  {
    r := cur;
    var i := 0;
    while i < |cur|
      invariant 0 <= i <= |cur| && |r| == |cur|
      invariant forall t :: 0 <= t < i ==> r[t] == DeleteLonger(cur[t], k, p, m)
      invariant forall t :: i <= t < |cur| ==> r[t] == cur[t]
    {
      var e := Entry(r[i], k);
      if e.Some? && e.value.position == p && |e.value.visited| > m {
        r := r[i := Remove(r[i], k)];
      }
      i := i + 1;
    }
  }

  lemma {:induction false} NonEmptyStep(scs: seq<Scenario>, i: int)
    requires 0 <= i < |scs|
    ensures NonEmpty(scs[i..]) == (if scs[i] != [] then [scs[i]] else []) + NonEmpty(scs[i + 1..])
  {
    assert scs[i..][0] == scs[i] && scs[i..][1..] == scs[i + 1..];
  }

  /** One element's share of `filter(ms => ms.size > 0)`. */
  function Kept(sc: Scenario): seq<Scenario> {
    if sc != [] then [sc] else []
  }

  lemma {:induction false} DropEmptyStep(r: seq<Scenario>, scs: seq<Scenario>, i: int)
    requires 0 <= i < |scs|
    requires r + NonEmpty(scs[i..]) == NonEmpty(scs)
    ensures (r + Kept(scs[i])) + NonEmpty(scs[i + 1..]) == NonEmpty(scs)
  {
    NonEmptyStep(scs, i);
    ConcatAssoc(r, Kept(scs[i]), NonEmpty(scs[i + 1..]));
  }

  /** `filter(ms => ms.size > 0)`. */
  method DropEmpty(scs: seq<Scenario>) returns (r: seq<Scenario>)
    ensures r == NonEmpty(scs)
  {
    r := [];
    var i := 0;
    assert scs[0..] == scs;
    while i < |scs|
      invariant 0 <= i <= |scs|
      invariant r + NonEmpty(scs[i..]) == NonEmpty(scs)
    {
      DropEmptyStep(r, scs, i);
      r := r + Kept(scs[i]);
      i := i + 1;
    }
    assert scs[i..] == [];
  }

  /** `some(ms => ms.has(start))`. */
  method StartInUse(scs: seq<Scenario>, k: int) returns (b: bool)
    ensures b == IsUsed(scs, k)
  {
    b := false;
    var i := 0;
    while i < |scs| && !b
      invariant 0 <= i <= |scs|
      invariant b <==> exists t :: 0 <= t < i && Has(scs[t], k)
    {
      b := Has(scs[i], k);
      i := i + 1;
    }
  }

  /** The start filter of `updateMoveStrategies`. */
  method KeepUsedStarts(starts: seq<Cell>, scs: seq<Scenario>) returns (r: seq<Cell>)
    ensures r == UsedStarts(starts, scs)
  {
    r := [];
    var i := 0;
    assert starts[0..] == starts;
    while i < |starts|
      invariant 0 <= i <= |starts|
      invariant r + UsedStarts(starts[i..], scs) == UsedStarts(starts, scs)
    {
      UsedStartsStep(starts, scs, i);
      var used := StartInUse(scs, starts[i].index);
      var kept := if used then [starts[i]] else [];
      ConcatAssoc(r, kept, UsedStarts(starts[i + 1..], scs));
      r := r + kept;
      i := i + 1;
    }
    assert starts[i..] == [];
  }

  lemma {:induction false} UsedStartsStep(starts: seq<Cell>, scs: seq<Scenario>, i: int)
    requires 0 <= i < |starts|
    ensures UsedStarts(starts[i..], scs) ==
      (if IsUsed(scs, starts[i].index) then [starts[i]] else []) + UsedStarts(starts[i + 1..], scs)
  {
    assert starts[i..][0] == starts[i] && starts[i..][1..] == starts[i + 1..];
  }

  /** Pruning for no pair deletes nothing. */
  lemma {:induction false} PruneNothing(scs: seq<Scenario>, max: int)
    ensures PruneAll(scs, {}, max) == scs
  {
    forall i | 0 <= i < |scs| ensures PruneScenario(scs[i], {}, scs, max) == scs[i] {
      FilterKeepsAll(scs[i], Surviving({}, scs, max));
    }
  }

  /** The pairs of one start with each of the positions. */
  function Row(k: int, positions: seq<Cell>): set<(int, Cell)> {
    set j | 0 <= j < |positions| :: (k, positions[j])
  }

  lemma {:induction false} RowSnoc(k: int, positions: seq<Cell>, j: int)
    requires 0 <= j < |positions|
    ensures Row(k, positions[..j + 1]) == Row(k, positions[..j]) + {(k, positions[j])}
  {
    var a, b := positions[..j + 1], positions[..j];
    forall q | q in Row(k, a) ensures q in Row(k, b) + {(k, positions[j])} {
      var t :| 0 <= t < |a| && q == (k, a[t]);
      if t < j { assert a[t] == b[t]; }
    }
    forall q | q in Row(k, b) ensures q in Row(k, a) {
      var t :| 0 <= t < |b| && q == (k, b[t]);
      assert a[t] == b[t];
    }
    assert a[j] == positions[j];
  }

  lemma {:induction false} PairsSnoc(starts: seq<Cell>, positions: seq<Cell>, i: int)
    requires 0 <= i < |starts|
    ensures Pairs(starts[..i + 1], positions) == Pairs(starts[..i], positions) + Row(starts[i].index, positions)
  {
    var a, b := starts[..i + 1], starts[..i];
    forall q | q in Pairs(a, positions) ensures q in Pairs(b, positions) + Row(starts[i].index, positions) {
      var t, j :| 0 <= t < |a| && 0 <= j < |positions| && q == (a[t].index, positions[j]);
      if t < i { assert a[t] == b[t]; }
    }
    forall q | q in Pairs(b, positions) ensures q in Pairs(a, positions) {
      var t, j :| 0 <= t < |b| && 0 <= j < |positions| && q == (b[t].index, positions[j]);
      assert a[t] == b[t];
    }
    forall q | q in Row(starts[i].index, positions) ensures q in Pairs(a, positions) {
      var j :| 0 <= j < |positions| && q == (starts[i].index, positions[j]);
      assert a[i] == starts[i];
    }
  }

  /** The inner `forEach` of the reduce: every position, for the start of index `k`. */
  method ReduceStart(scs: seq<Scenario>, ghost done: set<(int, Cell)>, k: int, positions: seq<Cell>, max: int, cur: seq<Scenario>)
    returns (r: seq<Scenario>)
    requires AllUniqueKeys(scs) && cur == PruneAll(scs, done, max)
    ensures r == PruneAll(scs, done + Row(k, positions), max)
  {
    r := cur;
    var j := 0;
    assert done + Row(k, positions[..0]) == done;
    while j < |positions|
      invariant 0 <= j <= |positions|
      invariant r == PruneAll(scs, done + Row(k, positions[..j]), max)
    {
      var p := positions[j];
      var pairs := done + Row(k, positions[..j]);
      PruneOnePair(scs, pairs, max, k, p);
      var m := MinLength(r, k, p, max);
      r := DeleteLongerAll(r, k, p, m);
      RowSnoc(k, positions, j);
      assert pairs + {(k, p)} == done + Row(k, positions[..j + 1]);
      j := j + 1;
    }
    assert positions[..|positions|] == positions;
  }

  /**
   * `reduceMoveStrategies`: for every start and every current cell, the
   * fewest visited cells among the hypotheses of that start on that cell,
   * then the deletion of the longer ones; finally the empty scenarios go.
   */
  method ReduceScenarios(g: Grid, starts: seq<Cell>, positions: seq<Cell>, scs: seq<Scenario>) returns (r: seq<Scenario>)
    requires AllUniqueKeys(scs)
    ensures r == Reduce(g, starts, positions, scs)
  {
    var max := g.width * g.height;
    PruneNothing(scs, max);
    assert Pairs(starts[..0], positions) == {};
    r := scs;
    var i := 0;
    while i < |starts|
      invariant 0 <= i <= |starts|
      invariant r == PruneAll(scs, Pairs(starts[..i], positions), max)
    {
      r := ReduceStart(scs, Pairs(starts[..i], positions), starts[i].index, positions, max, r);
      PairsSnoc(starts, positions, i);
      i := i + 1;
    }
    assert starts[..|starts|] == starts;
    r := DropEmpty(r);
  }

  lemma {:induction false} FanOutSnoc(g: Grid, rules: StepRules, dirs: seq<Direction>, starts: seq<Cell>, sc: Scenario, withZero: bool, i: int)
    requires 0 <= i < |dirs|
    ensures FanOut(g, rules, dirs[..i + 1], starts, sc, withZero)
      == FanOut(g, rules, dirs[..i], starts, sc, withZero) + Run(g, rules, dirs[i], starts, sc)
  {
    assert dirs[..i + 1][..i] == dirs[..i];
  }

  lemma {:induction false} RunAt(g: Grid, rules: StepRules, d: Direction, starts: seq<Cell>, sc: Scenario, k: int)
    requires 0 <= k < 4
    ensures Run(g, rules, d, starts, sc)[k] == Advanced(g, rules, d, starts, sc, k + 1)
  {
  }

  /** The `for (length = 1; length <= 4; length++)` loop: four chained clones, each one step further. */
  method RunOf(g: Grid, rules: StepRules, d: Direction, starts: seq<Cell>, sc: Scenario) returns (run: seq<Scenario>)
    ensures run == Run(g, rules, d, starts, sc)
  {
    ghost var all := Run(g, rules, d, starts, sc);
    run := [];
    var tmp := sc;
    var length := 1;
    while length <= 4
      invariant 1 <= length <= 5
      invariant tmp == Advanced(g, rules, d, starts, sc, length - 1)
      invariant run == all[..length - 1]
    {
      tmp := AdvanceScenario(g, rules, d, starts, tmp);
      RunAt(g, rules, d, starts, sc, length - 1);
      assert all[..length] == all[..length - 1] + [all[length - 1]];
      run := run + [tmp];
      length := length + 1;
    }
    assert all[..4] == all;
  }

  /** The children of one scenario: itself when the zero-length silence is kept, then four chained clones per direction of the table. */
  method Children(g: Grid, rules: StepRules, dirs: seq<Direction>, starts: seq<Cell>, sc: Scenario, withZero: bool) returns (children: seq<Scenario>)
    ensures children == FanOut(g, rules, dirs, starts, sc, withZero)
  {
    children := if withZero then [sc] else [];
    var di := 0;
    assert dirs[..0] == [];
    while di < |dirs|
      invariant 0 <= di <= |dirs|
      invariant children == FanOut(g, rules, dirs[..di], starts, sc, withZero)
    {
      var run := RunOf(g, rules, dirs[di], starts, sc);
      FanOutSnoc(g, rules, dirs, starts, sc, withZero, di);
      children := children + run;
      di := di + 1;
    }
    assert dirs[..|dirs|] == dirs;
  }

  lemma {:induction false} SilenceStep(g: Grid, rules: StepRules, dirs: seq<Direction>, starts: seq<Cell>, scs: seq<Scenario>, withZero: bool, i: int)
    requires 0 <= i < |scs|
    ensures Silence(g, rules, dirs, starts, scs[i..], withZero)
      == FanOut(g, rules, dirs, starts, scs[i], withZero) + Silence(g, rules, dirs, starts, scs[i + 1..], withZero)
  {
    assert scs[i..][0] == scs[i] && scs[i..][1..] == scs[i + 1..];
  }

  /** The `map` and flattening `reduce` of the SILENCE fan-out. */
  method SilenceAll(g: Grid, rules: StepRules, dirs: seq<Direction>, starts: seq<Cell>, scs: seq<Scenario>, withZero: bool) returns (r: seq<Scenario>)
    ensures r == Silence(g, rules, dirs, starts, scs, withZero)
  {
    r := [];
    var i := 0;
    assert scs[0..] == scs;
    while i < |scs|
      invariant 0 <= i <= |scs|
      invariant r + Silence(g, rules, dirs, starts, scs[i..], withZero) == Silence(g, rules, dirs, starts, scs, withZero)
    {
      SilenceStep(g, rules, dirs, starts, scs, withZero, i);
      var children := Children(g, rules, dirs, starts, scs[i], withZero);
      ConcatAssoc(r, children, Silence(g, rules, dirs, starts, scs[i + 1..], withZero));
      r := r + children;
      i := i + 1;
    }
    assert r + Silence(g, rules, dirs, starts, scs[i..], withZero) == r;
  }

  lemma {:induction false} PossiblePositionsSnoc(scs: seq<Scenario>, sc: Scenario)
    ensures PossiblePositions(scs + [sc]) == PossiblePositions(scs) + CurrentCells(sc)
  {
    if scs == [] {
      assert [] + [sc] == [sc];
      assert [sc][1..] == [];
    } else {
      assert (scs + [sc])[1..] == scs[1..] + [sc];
      PossiblePositionsSnoc(scs[1..], sc);
    }
  }

  /** `some(start => ms.has(start))` over the starts: does `addPosition` read the move vector? */
  method AnyStartInUse(t: Tracker) returns (b: bool)
    ensures b == AnyUsed(t)
  {
    b := false;
    var j := 0;
    while j < |t.starts| && !b
      invariant 0 <= j <= |t.starts|
      invariant b == exists q :: 0 <= q < j && IsUsed(t.scs, t.starts[q].index)
    {
      b := StartInUse(t.scs, t.starts[j].index);
      j := j + 1;
    }
  }

  lemma {:induction false} AllVisitedSnoc(scs: seq<Scenario>, i: int)
    requires 0 <= i < |scs|
    ensures AllVisited(scs[..i + 1]) == AllVisited(scs[..i]) + VisitedOf(scs[i])
  {
    assert scs[..i + 1][..i] == scs[..i];
  }

  lemma {:induction false} VisitedOfSnoc(sc: Scenario, j: int)
    requires 0 <= j < |sc|
    ensures VisitedOf(sc[..j + 1]) == VisitedOf(sc[..j]) + sc[j].visited
  {
    assert sc[..j + 1][..j] == sc[..j];
  }

  lemma {:induction false} CurrentCellsSnoc(sc: Scenario, j: int)
    requires 0 <= j < |sc|
    ensures CurrentCells(sc[..j + 1]) == CurrentCells(sc[..j]) + [sc[j].position]
  {
  }

  /** The inner `forEach` of `getStats` over one hypothesis's visited cells. */
  method CountVisited(acc: seq<(Cell, nat)>, cells: seq<Cell>) returns (r: seq<(Cell, nat)>)
    ensures r == CountFrom(acc, cells)
  {
    r := acc;
    var k := 0;
    assert cells[k..] == cells;
    while k < |cells|
      invariant 0 <= k <= |cells|
      invariant CountFrom(r, cells[k..]) == CountFrom(acc, cells)
    {
      assert cells[k..][0] == cells[k] && cells[k..][1..] == cells[k + 1..];
      r := Bump(r, cells[k]);
      k := k + 1;
    }
  }

  /** `getStats` over one scenario: one count per hypothesis's current cell, one per visited cell. */
  method CountScenario(ghost done: seq<Scenario>, sc: Scenario, positions: seq<(Cell, nat)>, visited: seq<(Cell, nat)>)
    returns (ps: seq<(Cell, nat)>, vs: seq<(Cell, nat)>)
    requires positions == CountFrom([], PossiblePositions(done))
    requires visited == CountFrom([], AllVisited(done))
    ensures ps == CountFrom([], PossiblePositions(done + [sc]))
    ensures vs == CountFrom([], AllVisited(done + [sc]))
  {
    ps, vs := positions, visited;
    var j := 0;
    assert sc[..0] == [];
    assert PossiblePositions(done) + CurrentCells(sc[..0]) == PossiblePositions(done);
    assert AllVisited(done) + VisitedOf(sc[..0]) == AllVisited(done);
    while j < |sc|
      invariant 0 <= j <= |sc|
      invariant ps == CountFrom([], PossiblePositions(done) + CurrentCells(sc[..j]))
      invariant vs == CountFrom([], AllVisited(done) + VisitedOf(sc[..j]))
    {
      CurrentCellsSnoc(sc, j);
      VisitedOfSnoc(sc, j);
      CountFromSnoc([], PossiblePositions(done) + CurrentCells(sc[..j]), sc[j].position);
      ConcatAssoc(PossiblePositions(done), CurrentCells(sc[..j]), [sc[j].position]);
      ps := Bump(ps, sc[j].position);
      CountFromAppend([], AllVisited(done) + VisitedOf(sc[..j]), sc[j].visited);
      vs := CountVisited(vs, sc[j].visited);
      ConcatAssoc(AllVisited(done), VisitedOf(sc[..j]), sc[j].visited);
      j := j + 1;
    }
    assert sc[..|sc|] == sc;
    PossiblePositionsSnoc(done, sc);
    AllVisitedSnoc(done + [sc], |done|);
    assert (done + [sc])[..|done|] == done && (done + [sc])[..|done| + 1] == done + [sc];
  }

  /** Counting `a + b` is counting `a`, then counting `b` into the result. */
  lemma {:induction false} CountFromAppend<T>(m: seq<(T, nat)>, a: seq<T>, b: seq<T>)
    ensures CountFrom(m, a + b) == CountFrom(CountFrom(m, a), b)
    decreases |a|
  {
    if a == [] {
      assert a + b == b;
    } else {
      assert (a + b)[0] == a[0] && (a + b)[1..] == a[1..] + b;
      CountFromAppend(Bump(m, a[0]), a[1..], b);
    }
  }

  /** The `reduce` of `getPositionsStats`: the current cells grouped by region. */
  method GroupByRegion(cells: seq<Cell>) returns (r: seq<(int, seq<Cell>)>)
    ensures r == GroupFrom([], cells, RegionOf)
  {
    r := [];
    var i := 0;
    assert cells[0..] == cells;
    while i < |cells|
      invariant 0 <= i <= |cells|
      invariant GroupFrom(r, cells[i..], RegionOf) == GroupFrom([], cells, RegionOf)
    {
      assert cells[i..][0] == cells[i] && cells[i..][1..] == cells[i + 1..];
      r := Append(r, cells[i].surface, cells[i]);
      i := i + 1;
    }
  }

  /**
   * The tracker itself. Its scenarios are held as values: every scenario
   * the source stores is either fresh or a deep clone, so no two of them
   * share a hypothesis.
   */
  class TrackResolver {
    const grid: Grid
    /** `_startPositions`. */
    var starts: seq<Cell>
    /** `_moveScenarios`, each one the entries of a `MoveScenario` in key order. */
    var scenarios: seq<Scenario>

    function State(): Tracker
      reads this
    {
      Tracker(starts, scenarios)
    }

    /** Every scenario has unique keys, all of them start indices. */
    ghost predicate Valid()
      reads this
    {
      Keyed(starts, scenarios)
    }

    /** Every sea cell is a possible start, and no scenario exists yet. */
    constructor (g: Grid)
      ensures Valid() && grid == g && State() == Tracker(AvailableCells(g), [])
    {
      grid := g;
      starts := AvailableCells(g);
      scenarios := [];
    }

    /** `updateMoveStrategies`: afterwards no scenario is empty and every start is used. */
    method UpdateMoveStrategies()
      requires Valid()
      modifies this
      ensures Valid() && State() == Update(old(State()))
      ensures Consistent(starts, scenarios)
    {
      UpdateRestoresInvariant(starts, scenarios);
      var kept := DropEmpty(scenarios);
      var used := KeepUsedStarts(starts, kept);
      scenarios := kept;
      starts := used;
    }

    /** `reduceMoveStrategies`. */
    method ReduceMoveStrategies()
      requires Valid()
      modifies this
      ensures Valid() && State() == AfterReduce(grid, old(State()))
    {
      ReduceKeyed(grid, starts, PossiblePositions(scenarios), scenarios);
      scenarios := ReduceScenarios(grid, starts, PossiblePositions(scenarios), scenarios);
    }

    /** `move(direction)`; `ok` is false when the source throws, and then nothing has changed. */
    method Move(word: Option<string>) returns (ok: bool)
      requires Valid()
      modifies this
      ensures Valid()
      ensures ok <==> AfterMove(grid, old(State()), word).Some?
      ensures ok ==> State() == AfterMove(grid, old(State()), word).value
      ensures !ok ==> State() == old(State())
    {
      var d := if word.Some? then ParseDirection(word.value) else None;
      if d.None? {
        var used := AnyStartInUse(State());
        if used {
          return false;
        }
        UpdateMoveStrategies();
        return true;
      }
      ghost var before := State();
      AdvanceAll(d.value);
      MoveAllKeyed(grid, d.value, before);
      UpdateMoveStrategies();
      ok := true;
    }

    /** The `forEach` of `move`: `addPosition` on every scenario in turn. */
    method AdvanceAll(d: Direction)
      modifies this
      ensures starts == old(starts) && scenarios == MoveAll(grid, d, old(State()))
    {
      ghost var before := State();
      var i := 0;
      while i < |scenarios|
        invariant 0 <= i <= |scenarios| == |before.scs| && starts == before.starts
        invariant forall t :: 0 <= t < i ==> scenarios[t] == AddPosition(grid, Rules, d, starts, before.scs[t])
        invariant forall t :: i <= t < |scenarios| ==> scenarios[t] == before.scs[t]
      {
        var next := AdvanceScenario(grid, Rules, d, starts, scenarios[i]);
        scenarios := scenarios[i := next];
        i := i + 1;
      }
    }

    /** `silenceMove`: reduce, then seventeen children per scenario, then clean up. */
    method SilenceMove()
      requires Valid()
      modifies this
      ensures Valid() && State() == AfterSilence(grid, old(State()))
    {
      ReduceMoveStrategies();
      SilenceKeyed(grid, Rules, SouthEast, starts, scenarios, true);
      scenarios := SilenceAll(grid, Rules, SouthEast, starts, scenarios, true);
      UpdateMoveStrategies();
    }

    /** Every scenario's filter loop, in place; the starts stay. */
    method FilterScenarios(keep: PathState -> bool)
      requires Valid()
      modifies this
      ensures Valid() && State() == Tracker(old(starts), KeepWhere(old(scenarios), keep))
    {
      ghost var before := scenarios;
      KeepWhereKeyed(starts, scenarios, keep);
      var i := 0;
      while i < |scenarios|
        invariant 0 <= i <= |scenarios| == |before| && starts == old(starts)
        invariant forall t :: 0 <= t < i ==> scenarios[t] == Filter(before[t], keep)
        invariant forall t :: i <= t < |scenarios| ==> scenarios[t] == before[t]
      {
        var kept := MoveScenarios.DeleteUnless(scenarios[i], keep);
        scenarios := scenarios[i := kept];
        i := i + 1;
      }
      assert scenarios == KeepWhere(before, keep);
    }

    /** `keepOnlyPosition(coordinate)`. */
    method KeepOnlyPosition(p: Coordinate)
      requires Valid()
      modifies this
      ensures Valid() && State() == AfterKeepOnlyPosition(grid, old(State()), p)
    {
      FilterScenarios(AtCell(CellFromCoordinate(grid, p)));
      UpdateMoveStrategies();
    }

    /** `keepOnlyPositions(coordinates)`. */
    method KeepOnlyPositions(ps: seq<Coordinate>)
      requires Valid()
      modifies this
      ensures Valid() && State() == AfterKeepOnlyPositions(grid, old(State()), ps)
    {
      FilterScenarios(InCells(Found(grid, ps)));
      UpdateMoveStrategies();
    }

    /** `excludePosition(coordinate)`. */
    method ExcludePosition(p: Coordinate)
      requires Valid()
      modifies this
      ensures Valid() && State() == AfterExcludePosition(grid, old(State()), p)
    {
      FilterScenarios(AwayFrom(CellFromCoordinate(grid, p)));
      UpdateMoveStrategies();
    }

    /** `excludePositions(coordinates)`. */
    method ExcludePositions(ps: seq<Coordinate>)
      requires Valid()
      modifies this
      ensures Valid() && State() == AfterExcludePositions(grid, old(State()), ps)
    {
      FilterScenarios(OutsideCells(Found(grid, ps)));
      UpdateMoveStrategies();
    }

    /** `_startPositions = cells; _moveScenarios = [new MoveScenario(cells)]`. */
    method ReseedFrom(cells: seq<Cell>)
      modifies this
      ensures Valid() && State() == Reseed(cells)
    {
      var ms := new MoveScenarios.MoveScenario(cells);
      starts := cells;
      scenarios := [ms.paths];
      ReseedKeyed(cells);
    }

    /** `keepOnlyPositionsNearTorpedoArea(coordinate, lost)`, which is also `torpedoAttack`. */
    method TorpedoAttack(x: Option<int>, y: Option<int>, lost: int)
      requires Valid()
      modifies this
      ensures Valid() && State() == AfterTorpedo(grid, old(State()), x, y, lost)
    {
      FilterScenarios(InCells(TorpedoZone(grid, x, y, lost)));
      ReduceMoveStrategies();
      UpdateMoveStrategies();
    }

    /** `keepOnlyPositionsInSurface(index)`; `ok` is false when the source throws, and then nothing has changed. */
    method KeepOnlyPositionsInSurface(index: int) returns (ok: bool)
      requires Valid()
      modifies this
      ensures Valid()
      ensures ok <==> AfterKeepOnlyInSurface(grid, old(State()), index).Some?
      ensures ok ==> State() == AfterKeepOnlyInSurface(grid, old(State()), index).value
      ensures !ok ==> State() == old(State())
    {
      if |scenarios| > 300 || |scenarios| == 0 {
        var slot := SurfaceAt(grid, index - 1);
        if slot.None? {
          return false;
        }
        ReseedFrom(Surfaces.SurfaceAvailableCells(slot.value));
      } else {
        FilterScenarios(InRegion(index));
      }
      UpdateMoveStrategies();
      ok := true;
    }

    /** `excludePositionsInSurface(index)`; `ok` is false when the source throws, and then nothing has changed. */
    method ExcludePositionsInSurface(index: int) returns (ok: bool)
      requires Valid()
      modifies this
      ensures Valid()
      ensures ok <==> AfterExcludeInSurface(grid, old(State()), index).Some?
      ensures ok ==> State() == AfterExcludeInSurface(grid, old(State()), index).value
      ensures !ok ==> State() == old(State())
    {
      if |scenarios| > 0 {
        FilterScenarios(OutsideRegion(index));
      } else {
        if HasHole(grid) {
          return false;
        }
        ReseedFrom(OtherRegionCells(grid.surfaces, index));
      }
      UpdateMoveStrategies();
      ok := true;
    }

    /** `surface(index)`, with the new starts de-duplicated; `ok` is false when the source throws. */
    method Surface(index: Option<int>) returns (ok: bool)
      requires Valid()
      modifies this
      ensures Valid()
      ensures ok <==> AfterSurface(grid, old(State()), index).Some?
      ensures ok ==> State() == AfterSurface(grid, old(State()), index).value
      ensures !ok ==> State() == old(State())
    {
      var found := SurfaceStarts(grid, State(), index);
      if found.None? {
        return false;
      }
      ReseedFrom(Cells.RemoveDuplicate(found.value));
      UpdateMoveStrategies();
      ok := true;
    }

    /** One order of `applyOrders`. */
    method ApplyOrder(o: Orders.Order, lost: int) returns (ok: bool)
      requires Valid()
      modifies this
      ensures Valid()
      ensures ok <==> AfterOrder(grid, old(State()), o, lost).Some?
      ensures ok ==> State() == AfterOrder(grid, old(State()), o, lost).value
      ensures !ok ==> State() == old(State())
    {
      match o {
        case Move(w) =>
          ok := Move(w);
        case Silence =>
          SilenceMove();
          ok := true;
        case Torpedo(x, y) =>
          TorpedoAttack(x, y, lost);
          ok := true;
        case Surface(k) =>
          ok := Surface(k);
        case Sonar(_) =>
          ok := true;
        case Mine =>
          ok := true;
        case Trigger(_, _) =>
          ok := true;
      }
    }

    /**
     * `applyOrders(orders, lost)`: seed one scenario when there is none,
     * then apply the orders in turn; `ok` is false when one of them throws,
     * which leaves the state the earlier orders produced.
     */
    method ApplyOrders(orders: seq<Orders.Order>, lost: int) returns (ok: bool)
      requires Valid()
      modifies this
      ensures Valid()
      ensures (State(), ok) == AfterOrders(grid, old(State()), orders, lost)
    {
      if |scenarios| == 0 {
        var ms := new MoveScenarios.MoveScenario(starts);
        scenarios := scenarios + [ms.paths];
        ReseedKeyed(starts);
      }
      assert State() == Seeded(old(State()));
      ghost var goal := AfterOrders(grid, old(State()), orders, lost);
      var i := 0;
      assert orders[0..] == orders;
      while i < |orders|
        invariant 0 <= i <= |orders| && Valid()
        invariant AfterOrdersFrom(grid, State(), orders[i..], lost) == goal
      {
        ghost var before := State();
        OrdersFromStep(grid, before, orders, lost, i);
        ok := ApplyOrder(orders[i], lost);
        if !ok {
          assert goal == (before, false);
          return;
        }
        assert State() == AfterOrder(grid, before, orders[i], lost).value;
        i := i + 1;
      }
      assert orders[i..] == [];
      ok := true;
    }

    /** `getStats()`: how many hypotheses sit on each cell, and how many visited each cell. */
    method GetStats() returns (positions: seq<(Cell, nat)>, visited: seq<(Cell, nat)>)
      ensures positions == CountFrom([], PossiblePositions(scenarios))
      ensures visited == CountFrom([], AllVisited(scenarios))
    {
      positions, visited := [], [];
      var i := 0;
      assert scenarios[..0] == [];
      while i < |scenarios|
        invariant 0 <= i <= |scenarios|
        invariant positions == CountFrom([], PossiblePositions(scenarios[..i]))
        invariant visited == CountFrom([], AllVisited(scenarios[..i]))
      {
        assert scenarios[..i + 1] == scenarios[..i] + [scenarios[i]];
        positions, visited := CountScenario(scenarios[..i], scenarios[i], positions, visited);
        i := i + 1;
      }
      assert scenarios[..|scenarios|] == scenarios;
    }

    /** `getPositionsStats()`: the statistics, with the current cells grouped by region; nothing changes. */
    method GetPositionsStats() returns (st: PositionsStats)
      ensures st == StatsOf(State())
    {
      var positions, visited := GetStats();
      var surfaceStats := GroupByRegion(Firsts(positions));
      st := PositionsStats(positions, |scenarios|, visited, starts, surfaceStats);
    }
  }
}
