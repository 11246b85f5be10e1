// The previous opponent tracker, `PathResolver` (services), which the
// services `OpponentSubmarine` feeds with the parsed orders. It keeps the
// same two fields as `TrackResolver` and shares its MOVE, its filters and
// its region feedback; it differs in three places, each stated here as a
// function on a `Tracker` value and related to the newer tracker:
// its reduce runs over the de-duplicated current cells, its torpedo
// filter always uses the whole torpedo range, and its SURFACE falls back
// to the grid's sea cells of the region instead of a `surfaces` slot.
module PathResolvers {
  import opened Sequences
  import opened Positions
  import opened Directions
  import opened Cells
  import opened Grids
  import opened Hypotheses
  import opened Tracking
  import opened Strategies
  import opened Tallies
  import Orders
  import MoveScenarios
  import opened TrackResolvers
  import Submarines

  // ---- the current cells ----

  /** `getPossiblePositions()`: every current cell once, in first-seen order. */
  function PossibleCells(t: Tracker): (r: seq<Cell>)
    ensures Distinct(r)
    ensures forall c :: c in r <==> c in PossiblePositions(t.scs)
  {
    RemoveDuplicateProperties(PossiblePositions(t.scs));
    Cells.RemoveDuplicate(PossiblePositions(t.scs))
  }

  // ---- reduce and SILENCE ----

  /** `reduceMoveStrategies`, over the de-duplicated current cells. */
  function AfterDedupReduce(g: Grid, t: Tracker): Tracker {
    Tracker(t.starts, Reduce(g, t.starts, PossibleCells(t), t.scs))
  }

  /** SILENCE: reduce, then every scenario and its sixteen straight runs, then clean up. */
  function AfterResolverSilence(g: Grid, t: Tracker): Tracker {
    var r := AfterDedupReduce(g, t);
    Update(Tracker(r.starts, Silence(g, Rules, SouthEast, r.starts, r.scs, true)))
  }

  /** The pairs of the reduce depend only on which cells are listed, not on repeats or order. */
  lemma {:induction false} PairsSameCells(starts: seq<Cell>, a: seq<Cell>, b: seq<Cell>)
    requires forall c :: c in a <==> c in b
    ensures Pairs(starts, a) == Pairs(starts, b)
  {
    forall q | q in Pairs(starts, a) ensures q in Pairs(starts, b) {
      PairsMember(starts, a, q.0, q.1);
      PairsMember(starts, b, q.0, q.1);
    }
    forall q | q in Pairs(starts, b) ensures q in Pairs(starts, a) {
      PairsMember(starts, a, q.0, q.1);
      PairsMember(starts, b, q.0, q.1);
    }
  }

  /**
   * De-duplicating the current cells does not change the reduce: it is
   * the newer tracker's reduce, and so is the SILENCE built on it.
   */
  lemma {:induction false} DedupReduceSame(g: Grid, t: Tracker)
    ensures AfterDedupReduce(g, t) == AfterReduce(g, t)
    ensures AfterResolverSilence(g, t) == AfterSilence(g, t)
  {
    PairsSameCells(t.starts, PossibleCells(t), PossiblePositions(t.scs));
  }

  // ---- TORPEDO ----

  /** `getTorpedoArea(coordinate)`; a NaN coordinate is within range of no cell. */
  function NearTorpedo(g: Grid, x: Option<int>, y: Option<int>): seq<Cell> {
    if x.None? || y.None? then [] else TorpedoArea(g, Coordinate(x.value, y.value))
  }

  /** `keepOnlyPositionsNearTorpedoArea(coordinate)`: filter on the range, reduce, clean up. */
  function AfterNearTorpedo(g: Grid, t: Tracker, x: Option<int>, y: Option<int>): Tracker {
    Update(AfterDedupReduce(g, Tracker(t.starts, KeepWhere(t.scs, InCells(NearTorpedo(g, x, y))))))
  }

  /** The torpedo filter is the newer tracker's for a torpedo that did damage. */
  lemma {:induction false} NearTorpedoIsDamagingTorpedo(g: Grid, t: Tracker, x: Option<int>, y: Option<int>, lost: int)
    requires lost != 0
    ensures AfterNearTorpedo(g, t, x, y) == TrackResolvers.AfterTorpedo(g, t, x, y, lost)
  {
    DedupReduceSame(g, Tracker(t.starts, KeepWhere(t.scs, InCells(NearTorpedo(g, x, y)))));
  }

  /**
   * The torpedo filter only deletes, and every hypothesis left sits on a
   * sea cell within Manhattan distance 4 of the target; a NaN target
   * leaves none.
   */
  lemma {:induction false} NearTorpedoKeepsInRange(g: Grid, t: Tracker, x: Option<int>, y: Option<int>)
    ensures Count(AfterNearTorpedo(g, t, x, y).scs) <= Count(t.scs)
    ensures forall i, j :: 0 <= i < |AfterNearTorpedo(g, t, x, y).scs| && 0 <= j < |AfterNearTorpedo(g, t, x, y).scs[i]| ==>
      var c := AfterNearTorpedo(g, t, x, y).scs[i][j].position;
      x.Some? && y.Some? && IsAvailable(c) && PathLength(c.coordinate, Coordinate(x.value, y.value)) <= 4
  {
    NearTorpedoIsDamagingTorpedo(g, t, x, y, 1);
    TorpedoOnlyDeletes(g, t, x, y, 1);
    var r := AfterNearTorpedo(g, t, x, y);
    forall i, j | 0 <= i < |r.scs| && 0 <= j < |r.scs[i]|
      ensures var c := r.scs[i][j].position;
        x.Some? && y.Some? && IsAvailable(c) && PathLength(c.coordinate, Coordinate(x.value, y.value)) <= 4
    {
      var zone := TorpedoZone(g, x, y, 1);
      assert r.scs[i][j].position in zone;
      var k :| 0 <= k < |zone| && zone[k] == r.scs[i][j].position;
    }
  }

  // ---- SURFACE ----

  /** The cells of a list that lie in region `i`, in list order. */
  function RegionCells(cells: seq<Cell>, i: int): (r: seq<Cell>)
    ensures forall c :: c in r <==> c in cells && c.surface == i
    ensures (forall c :: c in cells ==> c.surface != i) ==> r == []
    ensures DistinctIndices(cells) ==> DistinctIndices(r)
  {
    var r := CellsWhere(cells, (c: Cell) => c.surface == i);
    assert forall c :: c in r ==> c in cells && c.surface == i by {
      forall c | c in r ensures c in cells && c.surface == i {
        var k :| 0 <= k < |r| && r[k] == c;
      }
    }
    assert forall c :: c in cells && c.surface == i ==> c in r by {
      forall c | c in cells && c.surface == i ensures c in r {
        var k :| 0 <= k < |cells| && cells[k] == c;
      }
    }
    assert r != [] ==> r[0] in r;
    if DistinctIndices(cells) then
      CellsWhereDistinct(cells, (c: Cell) => c.surface == i);
      r
    else
      r
  }

  /**
   * The new starts of SURFACE: the current cells in the region when there
   * are any, otherwise the grid's sea cells in the region. A NaN index
   * matches no cell.
   */
  function SurfaceCells(g: Grid, t: Tracker, index: Option<int>): seq<Cell> {
    if index.None? then []
    else if |RegionCells(PossibleCells(t), index.value)| > 0 then RegionCells(PossibleCells(t), index.value)
    else RegionCells(AvailableCells(g), index.value)
  }

  /** SURFACE: reseed from the new starts and clean up; unlike the newer tracker, it cannot throw. */
  function AfterResolverSurface(g: Grid, t: Tracker, index: Option<int>): Tracker {
    Update(Reseed(SurfaceCells(g, t, index)))
  }

  /**
   * The new starts are the tracked cells of the region when the region
   * holds one, and otherwise all the grid's sea cells of the region.
   */
  lemma {:induction false} SurfaceCellsMeaning(g: Grid, t: Tracker, i: int)
    ensures (exists c :: c in PossiblePositions(t.scs) && c.surface == i) ==>
      forall c :: c in SurfaceCells(g, t, Some(i)) <==> c in PossiblePositions(t.scs) && c.surface == i
    ensures (forall c :: c in PossiblePositions(t.scs) ==> c.surface != i) ==>
      forall c :: c in SurfaceCells(g, t, Some(i)) <==> c in g.cells && IsAvailable(c) && c.surface == i
  {
    var positions := RegionCells(PossibleCells(t), i);
    if c :| c in PossiblePositions(t.scs) && c.surface == i {
      assert c in positions;
    } else {
      var sea := AvailableCells(g);
      forall c ensures c in sea <==> c in g.cells && IsAvailable(c) {
        if c in sea {
          var k :| 0 <= k < |sea| && sea[k] == c;
        }
        if c in g.cells && IsAvailable(c) {
          var k :| 0 <= k < |g.cells| && g.cells[k] == c;
        }
      }
    }
  }

  /** Filtering a list of cells with different indices keeps them different. */
  lemma {:induction false} SeaCellsDistinct(cells: seq<Cell>)
    requires DistinctIndices(cells)
    ensures DistinctIndices(SeaCells(cells))
  {
    if cells != [] {
      SeaCellsDistinct(cells[1..]);
      var rest := SeaCells(cells[1..]);
      forall j | 0 <= j < |rest| ensures rest[j].index != cells[0].index {
        var t :| 0 <= t < |cells[1..]| && cells[1..][t] == rest[j];
        assert cells[t + 1] == rest[j];
      }
    }
  }

  /** Every current cell of hypotheses that sit on the grid's cells is one of them. */
  lemma {:induction false} PositionsOnGrid(g: Grid, t: Tracker)
    requires OnGrid(g, t.scs)
    ensures forall k :: 0 <= k < |PossiblePositions(t.scs)| ==> PossiblePositions(t.scs)[k] in g.cells
  {
    var ps := PossiblePositions(t.scs);
    forall k | 0 <= k < |ps| ensures ps[k] in g.cells {
      assert ps[k] in ps;
      var i, j :| 0 <= i < |t.scs| && 0 <= j < |t.scs[i]| && t.scs[i][j].position == ps[k];
    }
  }

  /** The current cells of hypotheses that sit on a built grid have pairwise different indices. */
  lemma {:induction false} PossibleCellsDistinct(g: Grid, t: Tracker)
    requires WellFormed(g) && OnGrid(g, t.scs)
    ensures DistinctIndices(PossibleCells(t))
  {
    PositionsOnGrid(g, t);
    assert forall i :: 0 <= i < |g.cells| ==> g.cells[i].index == i;
    DedupOfIndexedCells(g.cells, PossiblePositions(t.scs));
  }

  /** The sea cells of a built grid have pairwise different indices. */
  lemma {:induction false} AvailableCellsDistinct(g: Grid)
    requires WellFormed(g)
    ensures DistinctIndices(AvailableCells(g))
  {
    BuiltGridFacts(g);
    SeaCellsDistinct(g.cells);
  }

  /** On a built grid whose hypotheses sit on its cells, the new starts of SURFACE have different indices. */
  lemma {:induction false} SurfaceCellsDistinct(g: Grid, t: Tracker, index: Option<int>)
    requires WellFormed(g) && OnGrid(g, t.scs)
    ensures DistinctIndices(SurfaceCells(g, t, index))
  {
    PossibleCellsDistinct(g, t);
    AvailableCellsDistinct(g);
  }

  /**
   * After SURFACE every hypothesis is fresh on one of the new starts, which
   * all lie in the region, and the structural invariant holds.
   */
  lemma {:induction false} SurfaceReseedsInRegion(g: Grid, t: Tracker, index: Option<int>)
    ensures var r := AfterResolverSurface(g, t, index);
      && Consistent(r.starts, r.scs)
      && (forall k :: 0 <= k < |r.starts| ==> index.Some? && r.starts[k].surface == index.value)
      && (forall i, j :: 0 <= i < |r.scs| && 0 <= j < |r.scs[i]| ==>
            r.scs[i][j] == Fresh(r.scs[i][j].position) && r.scs[i][j].position in SurfaceCells(g, t, index))
  {
    var s := SurfaceCells(g, t, index);
    var r := AfterResolverSurface(g, t, index);
    ReseedKeyed(s);
    UpdateRestoresInvariant(s, [FromStarts(s)]);
    FromStartsShape(s);
    forall i, j | 0 <= i < |r.scs| && 0 <= j < |r.scs[i]|
      ensures r.scs[i][j] == Fresh(r.scs[i][j].position) && r.scs[i][j].position in s
    {
      assert r.scs[i] in [FromStarts(s)];
      var k :| 0 <= k < |s| && FromStarts(s)[j] == Fresh(s[k]);
    }
    forall k | 0 <= k < |r.starts| ensures index.Some? && r.starts[k].surface == index.value {
      assert r.starts[k] in s;
    }
  }

  /**
   * On a built grid, SURFACE followed by MOVE moves every hypothesis left
   * exactly one unit from the hypothesis of the same start: the new starts
   * are de-duplicated, so no start is advanced twice.
   */
  lemma {:induction false} SurfaceThenMoveShiftsOnceHere(g: Grid, t: Tracker, index: Option<int>, d: Direction, i: int, j: int)
    requires WellFormed(g) && OnGrid(g, t.scs)
    requires var s := AfterResolverSurface(g, t, index);
      AfterMove(g, s, Some(Letter(d))).Some? &&
      0 <= i < |AfterMove(g, s, Some(Letter(d))).value.scs| && 0 <= j < |AfterMove(g, s, Some(Letter(d))).value.scs[i]|
    ensures var s := AfterResolverSurface(g, t, index);
      var x := AfterMove(g, s, Some(Letter(d))).value.scs[i][j];
      exists i', j' :: 0 <= i' < |s.scs| && 0 <= j' < |s.scs[i']| &&
        Key(s.scs[i'][j']) == Key(x) && x.position.coordinate == Add(s.scs[i'][j'].position.coordinate, Vector(d))
  {
    var s := AfterResolverSurface(g, t, index);
    SurfaceCellsDistinct(g, t, index);
    SurfaceReseedsInRegion(g, t, index);
    CellsWhereDistinct(SurfaceCells(g, t, index), (c: Cell) => IsUsed(NonEmpty([FromStarts(SurfaceCells(g, t, index))]), c.index));
    ConsistentIsKeyed(s.starts, s.scs);
    MoveShiftsByOneUnit(g, s, d, i, j);
  }

  // ---- applyMoveOrders ----

  /** One order: SONAR, MINE and TRIGGER do not touch the tracker; only an unknown MOVE letter can throw. */
  function AfterResolverOrder(g: Grid, t: Tracker, o: Orders.Order): Option<Tracker> {
    match o
    case Move(w) => AfterMove(g, t, w)
    case Silence => Some(AfterResolverSilence(g, t))
    case Torpedo(x, y) => Some(AfterNearTorpedo(g, t, x, y))
    case Surface(i) => Some(AfterResolverSurface(g, t, i))
    case Sonar(_) => Some(t)
    case Mine => Some(t)
    case Trigger(_, _) => Some(t)
  }

  /** The orders in sequence; the first that throws stops the rest and leaves the state it found. */
  function AfterResolverOrdersFrom(g: Grid, t: Tracker, orders: seq<Orders.Order>): (Tracker, bool)
    decreases |orders|
  {
    if orders == [] then (t, true)
    else match AfterResolverOrder(g, t, orders[0])
      case None => (t, false)
      case Some(t') => AfterResolverOrdersFrom(g, t', orders[1..])
  }

  /** The orders from index i on: the first of them, then the rest from the state it leaves. */
  lemma {:induction false} ResolverOrdersFromStep(g: Grid, t: Tracker, orders: seq<Orders.Order>, i: int)
    requires 0 <= i < |orders|
    ensures AfterResolverOrdersFrom(g, t, orders[i..]) ==
      match AfterResolverOrder(g, t, orders[i])
      case None => (t, false)
      case Some(t') => AfterResolverOrdersFrom(g, t', orders[i + 1..])
  {
    assert orders[i..][0] == orders[i] && orders[i..][1..] == orders[i + 1..];
  }

  /** `applyMoveOrders(orders)`: seed one scenario when there is none, then the orders. */
  function AfterMoveOrders(g: Grid, t: Tracker, orders: seq<Orders.Order>): (Tracker, bool) {
    AfterResolverOrdersFrom(g, Seeded(t), orders)
  }

  /** Every order but SONAR, MINE and TRIGGER restores the structural invariant from a keyed state. */
  lemma {:induction false} ResolverOrderRestoresInvariant(g: Grid, t: Tracker, o: Orders.Order)
    requires Keyed(t.starts, t.scs)
    requires AfterResolverOrder(g, t, o).Some? && !o.Sonar? && !o.Mine? && !o.Trigger?
    ensures Consistent(AfterResolverOrder(g, t, o).value.starts, AfterResolverOrder(g, t, o).value.scs)
  {
    match o
    case Move(w) =>
      OrdersRestoreInvariant(g, t, o, 1);
    case Silence =>
      DedupReduceSame(g, t);
      OrdersRestoreInvariant(g, t, o, 1);
    case Torpedo(x, y) =>
      NearTorpedoIsDamagingTorpedo(g, t, x, y, 1);
      OrdersRestoreInvariant(g, t, o, 1);
    case Surface(i) =>
      SurfaceReseedsInRegion(g, t, i);
  }

  /** Every order keeps the invariant the tracker holds between orders. */
  lemma {:induction false} ResolverOrderKeepsKeyed(g: Grid, t: Tracker, o: Orders.Order)
    requires Keyed(t.starts, t.scs) && AfterResolverOrder(g, t, o).Some?
    ensures Keyed(AfterResolverOrder(g, t, o).value.starts, AfterResolverOrder(g, t, o).value.scs)
  {
    if !o.Sonar? && !o.Mine? && !o.Trigger? {
      ResolverOrderRestoresInvariant(g, t, o);
      var r := AfterResolverOrder(g, t, o).value;
      ConsistentIsKeyed(r.starts, r.scs);
    }
  }

  /**
   * A sequence of orders fails exactly when one of them throws, at the
   * first such order, and leaves the state all the orders before it produced.
   */
  lemma {:induction false} ResolverOrdersStopAtThrow(g: Grid, t: Tracker, orders: seq<Orders.Order>)
    ensures !AfterResolverOrdersFrom(g, t, orders).1 <==>
      exists n :: 0 <= n < |orders| && AfterResolverOrdersFrom(g, t, orders[..n]).1 &&
        AfterResolverOrder(g, AfterResolverOrdersFrom(g, t, orders[..n]).0, orders[n]).None?
    decreases |orders|
  {
    if orders != [] {
      assert orders[..0] == [];
      match AfterResolverOrder(g, t, orders[0])
      case None =>
      case Some(t') =>
        ResolverOrdersStopAtThrow(g, t', orders[1..]);
        forall n | 1 <= n <= |orders|
          ensures AfterResolverOrdersFrom(g, t, orders[..n]) == AfterResolverOrdersFrom(g, t', orders[1..][..n - 1])
        {
          assert orders[..n][0] == orders[0];
          assert orders[..n][1..] == orders[1..][..n - 1];
        }
        if n :| (
            && 0 <= n < |orders[1..]| && AfterResolverOrdersFrom(g, t', orders[1..][..n]).1
            && AfterResolverOrder(g, AfterResolverOrdersFrom(g, t', orders[1..][..n]).0, orders[1..][n]).None?) {
          assert orders[n + 1] == orders[1..][n];
        }
        if n :| (
            && 0 <= n < |orders| && AfterResolverOrdersFrom(g, t, orders[..n]).1
            && AfterResolverOrder(g, AfterResolverOrdersFrom(g, t, orders[..n]).0, orders[n]).None?) {
          assert n > 0;
          assert orders[1..][n - 1] == orders[n];
        }
    }
  }

  // ---- statistics ----

  /** `getPositionsStats()`. */
  datatype ResolverStats = ResolverStats(
    cells: seq<Cell>,
    numberOfMoves: nat,
    starts: seq<Cell>,
    surfaceStats: seq<(int, seq<Cell>)>)

  /** The statistics of a tracker state: the current cells, and the same cells by region. */
  function ResolverStatsOf(t: Tracker): ResolverStats {
    var cells := PossibleCells(t);
    ResolverStats(cells, |t.scs|, t.starts, GroupFrom([], cells, RegionOf))
  }

  /**
   * The statistics list each current cell once, the regions in the order
   * their first cell appears, and under each region exactly its cells.
   */
  lemma {:induction false} ResolverStatsMeaning(t: Tracker)
    ensures var st := ResolverStatsOf(t);
      && Distinct(st.cells)
      && (forall c :: c in st.cells <==> c in PossiblePositions(t.scs))
      && st.numberOfMoves == |t.scs|
      && Firsts(st.surfaceStats) == Dedup(KeysOf(st.cells, RegionOf))
      && (forall k :: GroupOf(st.surfaceStats, k) == Where(st.cells, RegionOf, k))
  {
    GroupSpec(PossibleCells(t), RegionOf);
  }

  // ---- the region filters, with the region the sonar setter passes ----

  /** The sea cells of every defined region slot, slot after slot. */
  function AllRegionCells(ss: seq<Option<Surfaces.Surface>>): seq<Cell> {
    if ss == [] then []
    else (match ss[0] case None => [] case Some(s) => Surfaces.SurfaceAvailableCells(s)) + AllRegionCells(ss[1..])
  }

  /**
   * `keepOnlyPositionsInSurface(index)` where the index may be undefined:
   * `surfaces[undefined - 1]` is undefined, so the reseed throws, and no
   * hypothesis has an undefined region, so the filter deletes them all.
   */
  function AfterResolverKeepInSurface(g: Grid, t: Tracker, index: Option<int>): Option<Tracker> {
    match index
    case Some(i) => AfterKeepOnlyInSurface(g, t, i)
    case None =>
      if |t.scs| > 300 || |t.scs| == 0 then None
      else Some(Update(Tracker(t.starts, KeepWhere(t.scs, (e: PathState) => false))))
  }

  /**
   * `excludePositionsInSurface(index)` where the index may be undefined:
   * no hypothesis is in an undefined region, so the filter deletes none,
   * and with no scenario every region's sea cells become the starts.
   */
  function AfterResolverExcludeInSurface(g: Grid, t: Tracker, index: Option<int>): Option<Tracker> {
    match index
    case Some(i) => AfterExcludeInSurface(g, t, i)
    case None =>
      if |t.scs| > 0 then Some(Update(Tracker(t.starts, KeepWhere(t.scs, (e: PathState) => true))))
      else if HasHole(g) then None
      else Some(Update(Reseed(AllRegionCells(g.surfaces))))
  }

  /** A filter that keeps nothing empties a scenario. */
  lemma {:induction false} FilterKeepsNone(sc: Scenario, keep: PathState -> bool)
    requires forall e :: !keep(e)
    ensures Filter(sc, keep) == []
  {
    if sc != [] {
      FilterKeepsNone(sc[1..], keep);
    }
  }

  /**
   * With an undefined region, keeping the region's hypotheses leaves no
   * scenario and no start, and excluding it only cleans up.
   */
  lemma {:induction false} UndefinedRegionFilters(g: Grid, t: Tracker)
    ensures AfterResolverKeepInSurface(g, t, None).Some? ==>
      AfterResolverKeepInSurface(g, t, None).value == Tracker([], [])
    ensures |t.scs| > 0 ==> AfterResolverExcludeInSurface(g, t, None) == Some(Update(t))
  {
    if |t.scs| > 0 {
      var none := (e: PathState) => false;
      var all := (e: PathState) => true;
      forall i | 0 <= i < |t.scs| ensures Filter(t.scs[i], none) == [] && Filter(t.scs[i], all) == t.scs[i] {
        FilterKeepsNone(t.scs[i], none);
        FilterKeepsAll(t.scs[i], all);
      }
      var emptied := KeepWhere(t.scs, none);
      assert KeepWhere(t.scs, all) == t.scs;
      NonEmptyOfEmpties(emptied);
      NoStartUsed(t.starts);
    }
  }

  /** With no scenario, no start is in use. */
  lemma {:induction false} NoStartUsed(starts: seq<Cell>)
    ensures UsedStarts(starts, []) == []
  {
    if starts != [] {
      NoStartUsed(starts[1..]);
    }
  }

  /** Dropping the empty scenarios of a list of empty scenarios leaves none. */
  lemma {:induction false} NonEmptyOfEmpties(scs: seq<Scenario>)
    requires forall i :: 0 <= i < |scs| ==> scs[i] == []
    ensures NonEmpty(scs) == []
  {
    if scs != [] {
      NonEmptyOfEmpties(scs[1..]);
    }
  }

  // ======== the class ========

  /** `_moveScenarios.map(paths.values().map(position)).reduce(concat)`. */
  method CurrentCellsOf(scs: seq<Scenario>) returns (cells: seq<Cell>)
    ensures cells == PossiblePositions(scs)
  {
    cells := [];
    var i := 0;
    assert scs[..0] == [];
    while i < |scs|
      invariant 0 <= i <= |scs|
      invariant cells == PossiblePositions(scs[..i])
    {
      assert scs[..i + 1] == scs[..i] + [scs[i]];
      PossiblePositionsSnoc(scs[..i], scs[i]);
      cells := cells + CurrentCells(scs[i]);
      i := i + 1;
    }
    assert scs[..|scs|] == scs;
  }

  /**
   * The tracker itself. Its scenarios are held as values: every scenario
   * the source stores is either fresh or a deep clone (`cloneMoveScenario`).
   */
  class PathResolver {
    const grid: Grid
    /** `_startPositions`. */
    var starts: seq<Cell>
    /** `_moveScenarios`, each one the entries of its `paths` Map in key order. */
    var scenarios: seq<Scenario>

    function State(): Tracker
      reads this
    {
      Tracker(starts, scenarios)
    }

    /** Every scenario has unique keys, all of them start indices. */
    ghost predicate Valid()
      reads this
    {
      Keyed(starts, scenarios)
    }

    /** Every sea cell is a possible start, and no scenario exists yet. */
    constructor (g: Grid)
      ensures Valid() && grid == g && State() == Tracker(AvailableCells(g), [])
    {
      grid := g;
      starts := AvailableCells(g);
      scenarios := [];
    }

    /** `updateMoveStrategies`: afterwards no scenario is empty and every start is used. */
    method UpdateMoveStrategies()
      requires Valid()
      modifies this
      ensures Valid() && State() == Update(old(State()))
      ensures Consistent(starts, scenarios)
    {
      UpdateRestoresInvariant(starts, scenarios);
      var kept := DropEmpty(scenarios);
      var used := KeepUsedStarts(starts, kept);
      scenarios := kept;
      starts := used;
    }

    /** `getPossiblePositions()`; nothing changes. */
    method GetPossiblePositions() returns (r: seq<Cell>)
      ensures r == PossibleCells(State())
    {
      var cells := CurrentCellsOf(scenarios);
      r := Cells.RemoveDuplicate(cells);
    }

    /** `reduceMoveStrategies`. */
    method ReduceMoveStrategies()
      requires Valid()
      modifies this
      ensures Valid() && State() == AfterDedupReduce(grid, old(State()))
    {
      var positions := GetPossiblePositions();
      ReduceKeyed(grid, starts, positions, scenarios);
      scenarios := ReduceScenarios(grid, starts, positions, scenarios);
    }

    /** MOVE; `ok` is false when the source throws, and then nothing has changed. */
    method Move(word: Option<string>) returns (ok: bool)
      requires Valid()
      modifies this
      ensures Valid()
      ensures ok <==> AfterMove(grid, old(State()), word).Some?
      ensures ok ==> State() == AfterMove(grid, old(State()), word).value
      ensures !ok ==> State() == old(State())
    {
      var d := if word.Some? then ParseDirection(word.value) else None;
      if d.None? {
        var used := AnyStartInUse(State());
        if used {
          return false;
        }
        UpdateMoveStrategies();
        return true;
      }
      ghost var before := State();
      AdvanceAll(d.value);
      MoveAllKeyed(grid, d.value, before);
      UpdateMoveStrategies();
      ok := true;
    }

    /** The `forEach` of MOVE: `addMoveStrategy` on every scenario in turn. */
    method AdvanceAll(d: Direction)
      modifies this
      ensures starts == old(starts) && scenarios == MoveAll(grid, d, old(State()))
    {
      ghost var before := State();
      var i := 0;
      while i < |scenarios|
        invariant 0 <= i <= |scenarios| == |before.scs| && starts == before.starts
        invariant forall t :: 0 <= t < i ==> scenarios[t] == AddPosition(grid, Rules, d, starts, before.scs[t])
        invariant forall t :: i <= t < |scenarios| ==> scenarios[t] == before.scs[t]
      {
        var next := AdvanceScenario(grid, Rules, d, starts, scenarios[i]);
        scenarios := scenarios[i := next];
        i := i + 1;
      }
    }

    /** SILENCE: reduce, then seventeen children per scenario, then clean up. */
    method SilenceMove()
      requires Valid()
      modifies this
      ensures Valid() && State() == AfterResolverSilence(grid, old(State()))
    {
      ReduceMoveStrategies();
      SilenceKeyed(grid, Rules, SouthEast, starts, scenarios, true);
      scenarios := SilenceAll(grid, Rules, SouthEast, starts, scenarios, true);
      UpdateMoveStrategies();
    }

    /** Every scenario's deleting loop over its keys, in place; the starts stay. */
    method FilterScenarios(keep: PathState -> bool)
      requires Valid()
      modifies this
      ensures Valid() && State() == Tracker(old(starts), KeepWhere(old(scenarios), keep))
    {
      ghost var before := scenarios;
      KeepWhereKeyed(starts, scenarios, keep);
      var i := 0;
      while i < |scenarios|
        invariant 0 <= i <= |scenarios| == |before| && starts == old(starts)
        invariant forall t :: 0 <= t < i ==> scenarios[t] == Filter(before[t], keep)
        invariant forall t :: i <= t < |scenarios| ==> scenarios[t] == before[t]
      {
        var kept := MoveScenarios.DeleteUnless(scenarios[i], keep);
        scenarios := scenarios[i := kept];
        i := i + 1;
      }
      assert scenarios == KeepWhere(before, keep);
    }

    /** `keepOnlyPosition(coordinate)`. */
    method KeepOnlyPosition(p: Coordinate)
      requires Valid()
      modifies this
      ensures Valid() && State() == AfterKeepOnlyPosition(grid, old(State()), p)
    {
      FilterScenarios(AtCell(CellFromCoordinate(grid, p)));
      UpdateMoveStrategies();
    }

    /** `keepOnlyPositions(coordinates)`. */
    method KeepOnlyPositions(ps: seq<Coordinate>)
      requires Valid()
      modifies this
      ensures Valid() && State() == AfterKeepOnlyPositions(grid, old(State()), ps)
    {
      FilterScenarios(InCells(Found(grid, ps)));
      UpdateMoveStrategies();
    }

    /** `excludePositions(coordinates)`. */
    method ExcludePositions(ps: seq<Coordinate>)
      requires Valid()
      modifies this
      ensures Valid() && State() == AfterExcludePositions(grid, old(State()), ps)
    {
      FilterScenarios(OutsideCells(Found(grid, ps)));
      UpdateMoveStrategies();
    }

    /** `excludePosition(coordinate)`. */
    method ExcludePosition(p: Coordinate)
      requires Valid()
      modifies this
      ensures Valid() && State() == AfterExcludePosition(grid, old(State()), p)
    {
      FilterScenarios(AwayFrom(CellFromCoordinate(grid, p)));
      UpdateMoveStrategies();
    }

    /** `_startPositions = cells; _moveScenarios = [createMoveScenario()]`. */
    method ReseedFrom(cells: seq<Cell>)
      modifies this
      ensures Valid() && State() == Reseed(cells)
    {
      var ms := new MoveScenarios.MoveScenario(cells);
      starts := cells;
      scenarios := [ms.paths];
      ReseedKeyed(cells);
    }

    /**
     * `keepOnlyPositionsInSurface(index)`, the index possibly undefined;
     * `ok` is false when the source throws, and then nothing has changed.
     */
    method KeepOnlyPositionsInSurface(index: Option<int>) returns (ok: bool)
      requires Valid()
      modifies this
      ensures Valid()
      ensures ok <==> AfterResolverKeepInSurface(grid, old(State()), index).Some?
      ensures ok ==> State() == AfterResolverKeepInSurface(grid, old(State()), index).value
      ensures !ok ==> State() == old(State())
    {
      if |scenarios| > 300 || |scenarios| == 0 {
        var slot := if index.Some? then SurfaceAt(grid, index.value - 1) else None;
        if slot.None? {
          return false;
        }
        ReseedFrom(Surfaces.SurfaceAvailableCells(slot.value));
      } else if index.Some? {
        FilterScenarios(InRegion(index.value));
      } else {
        FilterScenarios((e: PathState) => false);
      }
      UpdateMoveStrategies();
      ok := true;
    }

    /**
     * `excludePositionsInSurface(index)`, the index possibly undefined;
     * `ok` is false when the source throws, and then nothing has changed.
     */
    method ExcludePositionsInSurface(index: Option<int>) returns (ok: bool)
      requires Valid()
      modifies this
      ensures Valid()
      ensures ok <==> AfterResolverExcludeInSurface(grid, old(State()), index).Some?
      ensures ok ==> State() == AfterResolverExcludeInSurface(grid, old(State()), index).value
      ensures !ok ==> State() == old(State())
    {
      if |scenarios| > 0 {
        if index.Some? {
          FilterScenarios(OutsideRegion(index.value));
        } else {
          FilterScenarios((e: PathState) => true);
        }
      } else {
        if HasHole(grid) {
          return false;
        }
        if index.Some? {
          ReseedFrom(OtherRegionCells(grid.surfaces, index.value));
        } else {
          ReseedFrom(AllRegionCells(grid.surfaces));
        }
      }
      UpdateMoveStrategies();
      ok := true;
    }

    /** `keepOnlyPositionsNearTorpedoArea(coordinate)`. */
    method KeepOnlyPositionsNearTorpedoArea(x: Option<int>, y: Option<int>)
      requires Valid()
      modifies this
      ensures Valid() && State() == AfterNearTorpedo(grid, old(State()), x, y)
    {
      FilterScenarios(InCells(NearTorpedo(grid, x, y)));
      ReduceMoveStrategies();
      UpdateMoveStrategies();
    }

    /** The SURFACE case of `applyMoveOrders`. */
    method SurfaceOrder(index: Option<int>)
      requires Valid()
      modifies this
      ensures Valid() && State() == AfterResolverSurface(grid, old(State()), index)
    {
      if index.None? {
        ReseedFrom([]);
      } else {
        var cells := GetPossiblePositions();
        var positions := RegionCells(cells, index.value);
        if |positions| > 0 {
          ReseedFrom(positions);
        } else {
          ReseedFrom(RegionCells(AvailableCells(grid), index.value));
        }
      }
      UpdateMoveStrategies();
    }

    /** One order of `applyMoveOrders`. */
    method ApplyOrder(o: Orders.Order) returns (ok: bool)
      requires Valid()
      modifies this
      ensures Valid()
      ensures ok <==> AfterResolverOrder(grid, old(State()), o).Some?
      ensures ok ==> State() == AfterResolverOrder(grid, old(State()), o).value
      ensures !ok ==> State() == old(State())
    {
      match o {
        case Move(w) =>
          ok := Move(w);
        case Silence =>
          SilenceMove();
          ok := true;
        case Torpedo(x, y) =>
          KeepOnlyPositionsNearTorpedoArea(x, y);
          ok := true;
        case Surface(k) =>
          SurfaceOrder(k);
          ok := true;
        case Sonar(_) =>
          ok := true;
        case Mine =>
          ok := true;
        case Trigger(_, _) =>
          ok := true;
      }
    }

    /**
     * `applyMoveOrders(orders)`: seed one scenario when there is none, then
     * apply the orders in turn; `ok` is false when one of them throws,
     * which leaves the state the earlier orders produced.
     */
    method ApplyMoveOrders(orders: seq<Orders.Order>) returns (ok: bool)
      requires Valid()
      modifies this
      ensures Valid()
      ensures (State(), ok) == AfterMoveOrders(grid, old(State()), orders)
    {
      if |scenarios| == 0 {
        var ms := new MoveScenarios.MoveScenario(starts);
        scenarios := scenarios + [ms.paths];
        ReseedKeyed(starts);
      }
      assert State() == Seeded(old(State()));
      ghost var goal := AfterMoveOrders(grid, old(State()), orders);
      var i := 0;
      assert orders[0..] == orders;
      while i < |orders|
        invariant 0 <= i <= |orders| && Valid()
        invariant AfterResolverOrdersFrom(grid, State(), orders[i..]) == goal
      {
        ghost var before := State();
        ResolverOrdersFromStep(grid, before, orders, i);
        ok := ApplyOrder(orders[i]);
        if !ok {
          assert goal == (before, false);
          return;
        }
        assert State() == AfterResolverOrder(grid, before, orders[i]).value;
        i := i + 1;
      }
      assert orders[i..] == [];
      ok := true;
    }

    /** `getPositionsStats()`; nothing changes. */
    method GetPositionsStats() returns (st: ResolverStats)
      ensures st == ResolverStatsOf(State())
    {
      var cells := GetPossiblePositions();
      var surfaceStats := GroupByRegion(cells);
      st := ResolverStats(cells, |scenarios|, starts, surfaceStats);
    }
  }

  /** The services `OpponentSubmarine`: the order parser in front of the tracker. */
  class OpponentSubmarine {
    /** The life and lost counters it inherits from `Submarine`. */
    const hull: Submarines.Submarine
    const resolver: PathResolver

    /** A new opponent has six lives and is tracked from every sea cell. */
    constructor (g: Grid)
      ensures fresh(hull) && Submarines.Health(hull.life, hull.lost) == Submarines.Initial
      ensures fresh(resolver) && resolver.Valid() && resolver.grid == g
      ensures resolver.State() == Tracker(AvailableCells(g), [])
    {
      hull := new Submarines.Submarine();
      resolver := new PathResolver(g);
    }

    /** `setOrders(orders)`: parse the tokens and pass exactly the parsed list to the tracker. */
    method SetOrders(tokens: seq<string>) returns (ok: bool)
      requires resolver.Valid()
      modifies resolver
      ensures resolver.Valid()
      ensures (resolver.State(), ok) == AfterMoveOrders(resolver.grid, old(resolver.State()), Orders.Parse(tokens))
    {
      ok := resolver.ApplyMoveOrders(Orders.Parse(tokens));
    }
  }
}
