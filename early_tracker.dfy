// The two earlier opponent trackers of the app folder: `PathResolver`
// (src/app/path-resolver.class.ts), driven by an `IOrders` object, and the
// tracking half of `OpponentSubmarine` (src/app/opponent-submarine.class.ts).
// Both keep start cells and a list of scenarios like the newer tracker, but
// look the target of a move up with the unguarded row-major index and never
// reduce. They differ in how a revisit is detected, in whether SILENCE keeps
// the zero-length child, and in when they reseed. The module states what
// every operation leaves in the two fields, as functions on a `Tracker`
// value, proves what the trackers promise about them, and implements the
// two classes with the source's loops.
module EarlyTrackers {
  import opened Sequences
  import opened Positions
  import opened Directions
  import opened Cells
  import opened CellContainers
  import Surfaces
  import opened Grids
  import opened Hypotheses
  import opened Tracking
  import opened TrackResolvers
  import Orders
  import MoveScenarios
  import PathResolvers

  /** `PathResolver`: unguarded lookup, a revisit is the same cell (`visitedCells.includes(cell)`). */
  const ResolverRules := StepRules(false, false)

  /** `OpponentSubmarine`: unguarded lookup, a revisit is a visited cell at the raw target coordinate. */
  const OpponentRules := StepRules(false, true)

  // ---- the fields of an `IOrders` object ----

  /** `orders.move.direction`; undefined when the field holds no MOVE. */
  function MoveWord(o: Option<Orders.Order>): Option<string> {
    if o.Some? && o.value.Move? then o.value.direction else None
  }

  /** `orders.surface.index`; NaN (`None`) when the field holds no SURFACE. */
  function SurfaceNumber(o: Option<Orders.Order>): Option<int> {
    if o.Some? && o.value.Surface? then o.value.index else None
  }

  /** `orders.torpedo.coordinate`, each part NaN (`None`) when missing. */
  function TorpedoTarget(o: Option<Orders.Order>): (Option<int>, Option<int>) {
    if o.Some? && o.value.Torpedo? then (o.value.x, o.value.y) else (None, None)
  }

  // ---- shared steps ----

  /** `grid.getCell(grid.getIndex(p))` with the unguarded index. */
  function LookUp(g: Grid, p: Coordinate): Option<Cell> {
    GetCell(g, GetIndexAsWritten(Frame(g), p))
  }

  /**
   * The cells found for `coordinates.map(c => getCell(getIndex(c)))`; an
   * undefined lookup matches no hypothesis, so it is left out.
   */
  function Looked(g: Grid, ps: seq<Coordinate>): (r: seq<Cell>)
    ensures forall c :: c in r <==> exists i :: 0 <= i < |ps| && LookUp(g, ps[i]) == Some(c)
  {
    if ps == [] then []
    else
      var rest := Looked(g, ps[1..]);
      assert forall c :: c in rest <==> exists i :: 1 <= i < |ps| && LookUp(g, ps[i]) == Some(c) by {
        forall c | c in rest ensures exists i :: 1 <= i < |ps| && LookUp(g, ps[i]) == Some(c) {
          var i :| 0 <= i < |ps[1..]| && LookUp(g, ps[1..][i]) == Some(c);
          assert ps[i + 1] == ps[1..][i];
        }
        forall c | (exists i :: 1 <= i < |ps| && LookUp(g, ps[i]) == Some(c)) ensures c in rest {
          var i :| 1 <= i < |ps| && LookUp(g, ps[i]) == Some(c);
          assert ps[1..][i - 1] == ps[i];
        }
      }
      (match LookUp(g, ps[0]) case None => [] case Some(c) => [c]) + rest
  }

  /** Every scenario after `addMoveStrategy(scenario, strategy)` with the given rules. */
  function Moved(g: Grid, rules: StepRules, d: Direction, t: Tracker): (r: seq<Scenario>)
    ensures |r| == |t.scs|
  {
    seq(|t.scs|, i requires 0 <= i < |t.scs| => AddPosition(g, rules, d, t.starts, t.scs[i]))
  }

  /**
   * MOVE before the clean-up: a known direction advances every scenario.
   * An unknown one leaves the strategy undefined, and reading its vector
   * throws at the first start some scenario holds, before anything has
   * changed; with no such start nothing is read.
   */
  function MoveStep(g: Grid, rules: StepRules, t: Tracker, word: Option<string>): Option<Tracker> {
    var d := if word.Some? then ParseDirection(word.value) else None;
    if d.Some? then Some(Tracker(t.starts, Moved(g, rules, d.value, t)))
    else if AnyUsed(t) then None
    else Some(t)
  }

  /**
   * `keepOnlyPositionsNearTorpedo(coordinate)` deletes a hypothesis when its
   * Manhattan distance to the coordinate is above 4; a NaN coordinate makes
   * the comparison false, so nothing is deleted.
   */
  function NearTorpedo(x: Option<int>, y: Option<int>): PathState -> bool {
    (e: PathState) => x.None? || y.None? || PathLength(e.position.coordinate, Coordinate(x.value, y.value)) <= 4
  }

  /**
   * `keepOnlyPositionsInSurface(index)` before the clean-up: with more than
   * `limit` scenarios or none, reseed from the sea cells of `surfaces[slot]`
   * (which throws when that slot is undefined); otherwise keep the
   * hypotheses in region `index`.
   */
  function InSurfaceStep(g: Grid, t: Tracker, index: int, limit: int, slot: int): Option<Tracker> {
    if |t.scs| > limit || |t.scs| == 0 then
      match SurfaceAt(g, slot)
      case None => None
      case Some(s) => Some(Reseed(Surfaces.SurfaceAvailableCells(s)))
    else Some(Tracker(t.starts, KeepWhere(t.scs, InRegion(index))))
  }

  /**
   * `excludePositionsInSurface(index)` before the clean-up: with scenarios,
   * drop the hypotheses in the region; with none, reseed from the sea cells
   * of every other region (the filter callback throws on an undefined slot).
   */
  function ExcludeStep(g: Grid, t: Tracker, index: int): Option<Tracker> {
    if |t.scs| > 0 then Some(Tracker(t.starts, KeepWhere(t.scs, OutsideRegion(index))))
    else if HasHole(g) then None
    else Some(Reseed(OtherRegionCells(g.surfaces, index)))
  }

  // ---- PathResolver ----

  /** `move` in `applyMoveOrders`: advance, then clean up. */
  function ResolverMove(g: Grid, t: Tracker, word: Option<string>): Option<Tracker> {
    match MoveStep(g, ResolverRules, t, word)
    case None => None
    case Some(m) => Some(Update(m))
  }

  /** `silence`: every scenario replaced by itself and its sixteen straight runs, then clean up. */
  function ResolverSilence(g: Grid, t: Tracker): Tracker {
    Update(Tracker(t.starts, Silence(g, ResolverRules, MoveStrategies, t.starts, t.scs, true)))
  }

  /** `surface`: whatever the index, restart from the distinct current cells. */
  function ResolverSurface(t: Tracker): Tracker {
    Update(Reseed(PathResolvers.PossibleCells(t)))
  }

  /**
   * `applyMoveOrders(orders)`: seed one scenario when there is none; then a
   * MOVE, or else a SILENCE; then a SURFACE. The flag is false when the MOVE
   * throws, which leaves the seeded state.
   */
  function ResolverOrders(g: Grid, t: Tracker, os: Orders.OrderSet): (Tracker, bool) {
    var s := Seeded(t);
    var a := if os.move.Some? then ResolverMove(g, s, MoveWord(os.move))
      else if os.silence.Some? then Some(ResolverSilence(g, s))
      else Some(s);
    match a
    case None => (s, false)
    case Some(b) => (if os.surface.Some? then ResolverSurface(b) else b, true)
  }

  /** `keepOnlyPositions(coordinates)`. */
  function ResolverKeepOnly(g: Grid, t: Tracker, ps: seq<Coordinate>): Tracker {
    Update(Tracker(t.starts, KeepWhere(t.scs, InCells(Looked(g, ps)))))
  }

  /** `excludePositions(coordinates)`. */
  function ResolverExclude(g: Grid, t: Tracker, ps: seq<Coordinate>): Tracker {
    Update(Tracker(t.starts, KeepWhere(t.scs, OutsideCells(Looked(g, ps)))))
  }

  /** `keepOnlyPositionsInSurface(index)` as written: it reseeds from `surfaces[index]`. */
  function ResolverInSurfaceAsWritten(g: Grid, t: Tracker, index: int): Option<Tracker> {
    match InSurfaceStep(g, t, index, 300, index)
    case None => None
    case Some(r) => Some(Update(r))
  }

  /** `keepOnlyPositionsInSurface(index)` reseeding from `surfaces[index - 1]`, the region numbered `index`. */
  function ResolverInSurface(g: Grid, t: Tracker, index: int): Option<Tracker> {
    match InSurfaceStep(g, t, index, 300, index - 1)
    case None => None
    case Some(r) => Some(Update(r))
  }

  /** `excludePositionsInSurface(index)`. */
  function ResolverOutsideSurface(g: Grid, t: Tracker, index: int): Option<Tracker> {
    match ExcludeStep(g, t, index)
    case None => None
    case Some(r) => Some(Update(r))
  }

  /** `keepOnlyPositionsNearTorpedo(coordinate)`. */
  function ResolverNearTorpedo(t: Tracker, x: Option<int>, y: Option<int>): Tracker {
    Update(Tracker(t.starts, KeepWhere(t.scs, NearTorpedo(x, y))))
  }

  // ---- OpponentSubmarine ----

  /** `updateMoveStrategies` of the opponent: clean up, and restart from every sea cell when no start is left. */
  function Settle(g: Grid, t: Tracker): Tracker {
    var u := Update(t);
    if u.starts == [] then Reseed(AvailableCells(g)) else u
  }

  /** `move` in `applyMoveOrders`. */
  function OpponentMove(g: Grid, t: Tracker, word: Option<string>): Option<Tracker> {
    match MoveStep(g, OpponentRules, t, word)
    case None => None
    case Some(m) => Some(Settle(g, m))
  }

  /**
   * `silence`: with more than 30 scenarios, restart from the distinct
   * current cells; then replace every scenario by its sixteen straight runs
   * (no zero-length child), then clean up.
   */
  function OpponentSilence(g: Grid, t: Tracker): Tracker {
    var s := if |t.scs| > 30 then Reseed(PathResolvers.PossibleCells(t)) else t;
    Settle(g, Tracker(s.starts, Silence(g, OpponentRules, MoveStrategies, s.starts, s.scs, false)))
  }

  /** `surface`: restart from the sea cells of `surfaces[index - 1]`; an undefined slot or a NaN index throws. */
  function OpponentSurface(g: Grid, t: Tracker, index: Option<int>): Option<Tracker> {
    match (if index.Some? then SurfaceAt(g, index.value - 1) else None)
    case None => None
    case Some(s) => Some(Settle(g, Reseed(Surfaces.SurfaceAvailableCells(s))))
  }

  /** `keepOnlyPositionsNearTorpedo(coordinate)`. */
  function OpponentNearTorpedo(g: Grid, t: Tracker, x: Option<int>, y: Option<int>): Tracker {
    Settle(g, Tracker(t.starts, KeepWhere(t.scs, NearTorpedo(x, y))))
  }

  /**
   * `setOrders(orders)`: parse, then `applyMoveOrders` (seed, MOVE or else
   * SILENCE, then SURFACE) and `applyOtherOrders` (TORPEDO). The flag is
   * false when an order throws, and the state is the one it found.
   */
  function OpponentOrders(g: Grid, t: Tracker, os: Orders.OrderSet): (Tracker, bool) {
    var s := Seeded(t);
    var a := if os.move.Some? then OpponentMove(g, s, MoveWord(os.move))
      else if os.silence.Some? then Some(OpponentSilence(g, s))
      else Some(s);
    match a
    case None => (s, false)
    case Some(b) =>
      match (if os.surface.Some? then OpponentSurface(g, b, SurfaceNumber(os.surface)) else Some(b))
      case None => (b, false)
      case Some(c) =>
        var target := TorpedoTarget(os.torpedo);
        (if os.torpedo.Some? then OpponentNearTorpedo(g, c, target.0, target.1) else c, true)
  }

  /** `keepOnlyPositions(coordinates)`. */
  function OpponentKeepOnly(g: Grid, t: Tracker, ps: seq<Coordinate>): Tracker {
    Settle(g, Tracker(t.starts, KeepWhere(t.scs, InCells(Looked(g, ps)))))
  }

  /** `excludePositions(coordinates)`. */
  function OpponentExclude(g: Grid, t: Tracker, ps: seq<Coordinate>): Tracker {
    Settle(g, Tracker(t.starts, KeepWhere(t.scs, OutsideCells(Looked(g, ps)))))
  }

  /** `keepOnlyPositionsInSurface(index)` as written: above 25 scenarios or none, it reseeds from `surfaces[index]`. */
  function OpponentInSurfaceAsWritten(g: Grid, t: Tracker, index: int): Option<Tracker> {
    match InSurfaceStep(g, t, index, 25, index)
    case None => None
    case Some(r) => Some(Settle(g, r))
  }

  /** `keepOnlyPositionsInSurface(index)` reseeding from `surfaces[index - 1]`, the region numbered `index`. */
  function OpponentInSurface(g: Grid, t: Tracker, index: int): Option<Tracker> {
    match InSurfaceStep(g, t, index, 25, index - 1)
    case None => None
    case Some(r) => Some(Settle(g, r))
  }

  /** `excludePositionsInSurface(index)`. */
  function OpponentOutsideSurface(g: Grid, t: Tracker, index: int): Option<Tracker> {
    match ExcludeStep(g, t, index)
    case None => None
    case Some(r) => Some(Settle(g, r))
  }

  // ======== properties ========

  // ---- the structural invariant ----

  /** The clean-up turns a keyed state into a consistent one, so a keyed one. */
  lemma {:induction false} UpdateKeyed(t: Tracker)
    requires Keyed(t.starts, t.scs)
    ensures Keyed(Update(t).starts, Update(t).scs)
  {
    UpdateRestoresInvariant(t.starts, t.scs);
  }

  /** A non-empty scenario has at least one key. */
  lemma {:induction false} KeysOfNonEmpty(sc: Scenario)
    requires sc != []
    ensures Key(sc[0]) in Keys(sc)
  {
  }

  /**
   * The opponent's clean-up restarts only when no hypothesis is left:
   * otherwise it is the plain clean-up.
   */
  lemma {:induction false} SettleRestartsOnlyWhenEmpty(g: Grid, t: Tracker)
    requires Keyed(t.starts, t.scs)
    ensures Settle(g, t) == Update(t) || (Update(t).scs == [] && Settle(g, t) == Reseed(AvailableCells(g)))
  {
    var u := Update(t);
    UpdateRestoresInvariant(t.starts, t.scs);
    if u.starts == [] && u.scs != [] {
      KeysOfNonEmpty(u.scs[0]);
      assert false;
    }
  }

  /**
   * The never-empty promise of the opponent's clean-up: on a board with sea,
   * from a keyed state, some start and some scenario are always left, and
   * the structural invariant holds.
   */
  lemma {:induction false} SettleNeverEmpty(g: Grid, t: Tracker)
    requires Keyed(t.starts, t.scs) && AvailableCells(g) != []
    ensures Settle(g, t).starts != [] && Settle(g, t).scs != []
    ensures Consistent(Settle(g, t).starts, Settle(g, t).scs)
  {
    var u := Update(t);
    UpdateRestoresInvariant(t.starts, t.scs);
    if u.starts != [] {
      assert IsUsed(u.scs, u.starts[0].index);
    } else {
      var a := AvailableCells(g);
      var sc := FromStarts(a);
      FromStartsShape(a);
      assert a[0].index in StartKeys(a);
      assert sc != [];
      forall j | 0 <= j < |a| ensures IsUsed([sc], a[j].index) {
        assert a[j].index in StartKeys(a);
        HasIsKey(sc, a[j].index);
        assert [sc][0] == sc;
        assert Has([sc][0], a[j].index);
      }
    }
  }

  /** The opponent's clean-up keeps a keyed state keyed, on any board. */
  lemma {:induction false} SettleKeyed(g: Grid, t: Tracker)
    requires Keyed(t.starts, t.scs)
    ensures Keyed(Settle(g, t).starts, Settle(g, t).scs)
  {
    UpdateKeyed(t);
    ReseedKeyed(AvailableCells(g));
  }

  lemma {:induction false} MovedKeyed(g: Grid, rules: StepRules, d: Direction, t: Tracker)
    requires Keyed(t.starts, t.scs)
    ensures Keyed(t.starts, Moved(g, rules, d, t))
  {
    forall i | 0 <= i < |t.scs|
      ensures UniqueKeys(Moved(g, rules, d, t)[i]) && Keys(Moved(g, rules, d, t)[i]) <= StartKeys(t.starts)
    {
      AddPositionKeys(g, rules, d, t.starts, t.scs[i]);
    }
  }

  lemma {:induction false} MoveStepKeyed(g: Grid, rules: StepRules, t: Tracker, word: Option<string>)
    requires Keyed(t.starts, t.scs) && MoveStep(g, rules, t, word).Some?
    ensures Keyed(MoveStep(g, rules, t, word).value.starts, MoveStep(g, rules, t, word).value.scs)
  {
    var d := if word.Some? then ParseDirection(word.value) else None;
    if d.Some? {
      MovedKeyed(g, rules, d.value, t);
    }
  }

  lemma {:induction false} InSurfaceStepKeyed(g: Grid, t: Tracker, index: int, limit: int, slot: int)
    requires Keyed(t.starts, t.scs) && InSurfaceStep(g, t, index, limit, slot).Some?
    ensures Keyed(InSurfaceStep(g, t, index, limit, slot).value.starts, InSurfaceStep(g, t, index, limit, slot).value.scs)
  {
    if |t.scs| > limit || |t.scs| == 0 {
      ReseedKeyed(Surfaces.SurfaceAvailableCells(SurfaceAt(g, slot).value));
    } else {
      KeepWhereKeyed(t.starts, t.scs, InRegion(index));
    }
  }

  lemma {:induction false} ExcludeStepKeyed(g: Grid, t: Tracker, index: int)
    requires Keyed(t.starts, t.scs) && ExcludeStep(g, t, index).Some?
    ensures Keyed(ExcludeStep(g, t, index).value.starts, ExcludeStep(g, t, index).value.scs)
  {
    if |t.scs| > 0 {
      KeepWhereKeyed(t.starts, t.scs, OutsideRegion(index));
    } else {
      ReseedKeyed(OtherRegionCells(g.surfaces, index));
    }
  }

  /** `applyMoveOrders` keeps the resolver keyed, whether or not it throws. */
  lemma {:induction false} ResolverOrdersKeyed(g: Grid, t: Tracker, os: Orders.OrderSet)
    requires Keyed(t.starts, t.scs)
    ensures Keyed(ResolverOrders(g, t, os).0.starts, ResolverOrders(g, t, os).0.scs)
  {
    var s := Seeded(t);
    SeededKeyed(t);
    var a := if os.move.Some? then ResolverMove(g, s, MoveWord(os.move))
      else if os.silence.Some? then Some(ResolverSilence(g, s))
      else Some(s);
    if os.move.Some? {
      if MoveStep(g, ResolverRules, s, MoveWord(os.move)).Some? {
        MoveStepKeyed(g, ResolverRules, s, MoveWord(os.move));
        UpdateKeyed(MoveStep(g, ResolverRules, s, MoveWord(os.move)).value);
      }
    } else if os.silence.Some? {
      SilenceKeyed(g, ResolverRules, MoveStrategies, s.starts, s.scs, true);
      UpdateKeyed(Tracker(s.starts, Silence(g, ResolverRules, MoveStrategies, s.starts, s.scs, true)));
    }
    if a.Some? && os.surface.Some? {
      ReseedKeyed(PathResolvers.PossibleCells(a.value));
      UpdateKeyed(Reseed(PathResolvers.PossibleCells(a.value)));
    }
  }

  lemma {:induction false} OpponentSilenceKeyed(g: Grid, t: Tracker)
    requires Keyed(t.starts, t.scs)
    ensures Keyed(OpponentSilence(g, t).starts, OpponentSilence(g, t).scs)
  {
    var s := if |t.scs| > 30 then Reseed(PathResolvers.PossibleCells(t)) else t;
    ReseedKeyed(PathResolvers.PossibleCells(t));
    SilenceKeyed(g, OpponentRules, MoveStrategies, s.starts, s.scs, false);
    SettleKeyed(g, Tracker(s.starts, Silence(g, OpponentRules, MoveStrategies, s.starts, s.scs, false)));
  }

  /** `setOrders` keeps the opponent keyed, whether or not an order throws. */
  lemma {:induction false} OpponentOrdersKeyed(g: Grid, t: Tracker, os: Orders.OrderSet)
    requires Keyed(t.starts, t.scs)
    ensures Keyed(OpponentOrders(g, t, os).0.starts, OpponentOrders(g, t, os).0.scs)
  {
    var s := Seeded(t);
    SeededKeyed(t);
    var a := if os.move.Some? then OpponentMove(g, s, MoveWord(os.move))
      else if os.silence.Some? then Some(OpponentSilence(g, s))
      else Some(s);
    if os.move.Some? {
      if MoveStep(g, OpponentRules, s, MoveWord(os.move)).Some? {
        MoveStepKeyed(g, OpponentRules, s, MoveWord(os.move));
        SettleKeyed(g, MoveStep(g, OpponentRules, s, MoveWord(os.move)).value);
      }
    } else if os.silence.Some? {
      OpponentSilenceKeyed(g, s);
    }
    if a.Some? {
      var b := a.value;
      var c := if os.surface.Some? then OpponentSurface(g, b, SurfaceNumber(os.surface)) else Some(b);
      if os.surface.Some? && c.Some? {
        var index := SurfaceNumber(os.surface).value;
        ReseedKeyed(Surfaces.SurfaceAvailableCells(SurfaceAt(g, index - 1).value));
        SettleKeyed(g, Reseed(Surfaces.SurfaceAvailableCells(SurfaceAt(g, index - 1).value)));
      }
      if c.Some? && os.torpedo.Some? {
        var target := TorpedoTarget(os.torpedo);
        KeepWhereKeyed(c.value.starts, c.value.scs, NearTorpedo(target.0, target.1));
        SettleKeyed(g, Tracker(c.value.starts, KeepWhere(c.value.scs, NearTorpedo(target.0, target.1))));
      }
    }
  }

  // ---- MOVE on the unguarded row-major index ----

  /** The change of row-major index one unit vector makes on a board `width` wide. */
  function Stride(width: int, d: Direction): int {
    match d
    case North => -width
    case East => 1
    case South => width
    case West => -1
  }

  /** On a built grid, the unguarded index of a cell's own coordinate is its place. */
  lemma {:induction false} OwnIndex(g: Grid, i: int)
    requires WellFormed(g) && 0 <= i < |g.cells|
    ensures GetIndexAsWritten(Frame(g), g.cells[i].coordinate) == i
  {
    var w := g.width;
    assert g.cells[i].coordinate == Coordinate(i % w, i / w);
    assert (i / w) * w + i % w == i;
  }

  /**
   * The unguarded lookup moves by index, not by coordinate: on a built grid
   * a surviving step lands on the cell whose index is the old index plus
   * the stride of the direction, a sea cell, recorded in the visited cells.
   */
  lemma {:induction false} StepStride(g: Grid, rules: StepRules, e: PathState, d: Direction)
    requires WellFormed(g) && !rules.guarded && e.position in g.cells
    ensures var r := Step(g, rules, e, d);
      r.Some? ==>
        && r.value.start == e.start && r.value.position in g.cells
        && r.value.position.index == e.position.index + Stride(g.width, d)
        && IsAvailable(r.value.position)
        && r.value.visited == e.visited + [r.value.position]
  {
    var i :| 0 <= i < |g.cells| && g.cells[i] == e.position;
    OwnIndex(g, i);
    var k := GetIndexAsWritten(Frame(g), Add(e.position.coordinate, Vector(d)));
    StrideIndex(Frame(g), e.position.coordinate, d);
    var r := Step(g, rules, e, d);
    if r.Some? {
      assert r.value.position == g.cells[k];
    }
  }

  /** One unit vector changes the unguarded index by the stride. */
  lemma {:induction false} StrideIndex(c: Container, p: Coordinate, d: Direction)
    ensures GetIndexAsWritten(c, Add(p, Vector(d))) == GetIndexAsWritten(c, p) + Stride(c.width, d)
  {
    match d
    case North =>
      assert (p.y - 1) * c.width == p.y * c.width - c.width;
    case South =>
      assert (p.y + 1) * c.width == p.y * c.width + c.width;
    case East =>
    case West =>
  }

  /**
   * The row wrap the unguarded lookup allows: a hypothesis on the last
   * column that moves East lands on the next cell by index, the first cell
   * of the next row, whenever that cell is sea and not yet visited. For the
   * opponent's test the raw target `(width, y)` lies off the board, so no
   * visited cell of the board can match it.
   */
  lemma {:induction false} EastEdgeWraps(g: Grid, rules: StepRules, e: PathState, i: int)
    requires WellFormed(g) && !rules.guarded && |g.cells| == g.width * g.height
    requires 0 <= i && i + 1 < |g.cells| && e.position == g.cells[i]
    requires e.position.coordinate.x == g.width - 1
    requires IsAvailable(g.cells[i + 1]) && g.cells[i + 1] !in e.visited
    requires forall k :: 0 <= k < |e.visited| ==> e.visited[k] in g.cells
    ensures g.cells[i + 1].coordinate == Coordinate(0, e.position.coordinate.y + 1)
    ensures Step(g, rules, e, East) == Some(PathState(e.start, e.visited + [g.cells[i + 1]], g.cells[i + 1]))
  {
    var w := g.width;
    var y := e.position.coordinate.y;
    assert y == i / w && w - 1 == i % w;
    DivModSplit(i, w);
    MultiplySucc(y, w);
    DivModUnique(i + 1, w, y + 1, 0);
    var q := Add(e.position.coordinate, Vector(East));
    assert q == Coordinate(w, y);
    assert GetIndexAsWritten(Frame(g), q) == i + 1;
    OffBoardNeverVisited(g, e, q);
  }

  /** No visited cell of a built board sits at a coordinate beyond its last column. */
  lemma {:induction false} OffBoardNeverVisited(g: Grid, e: PathState, q: Coordinate)
    requires WellFormed(g) && q.x >= g.width
    requires forall i :: 0 <= i < |e.visited| ==> e.visited[i] in g.cells
    ensures forall i :: 0 <= i < |e.visited| ==> e.visited[i].coordinate != q
  {
    forall i | 0 <= i < |e.visited| ensures e.visited[i].coordinate != q {
      var j :| 0 <= j < |g.cells| && g.cells[j] == e.visited[i];
      assert e.visited[i].coordinate.x == j % g.width;
    }
  }

  lemma {:induction false} DivModSplit(i: int, w: int)
    requires w > 0
    ensures i == (i / w) * w + i % w
  {
  }

  lemma {:induction false} MultiplySucc(y: int, w: int)
    ensures (y + 1) * w == y * w + w
  {
  }

  /**
   * MOVE on a built grid with the unguarded lookup, from a keyed state on
   * the grid whose starts have pairwise different indices: every hypothesis
   * of the advanced scenarios comes from one of the same start, moved by
   * the stride of the direction onto a sea cell and recorded.
   */
  lemma {:induction false} MovedByStride(g: Grid, rules: StepRules, d: Direction, t: Tracker, i: int, x: PathState)
    requires WellFormed(g) && !rules.guarded && Keyed(t.starts, t.scs) && DistinctIndices(t.starts) && OnGrid(g, t.scs)
    requires 0 <= i < |t.scs| && x in Moved(g, rules, d, t)[i]
    ensures exists j :: 0 <= j < |t.scs[i]| && Key(t.scs[i][j]) == Key(x) && x.position in g.cells
              && x.position.index == t.scs[i][j].position.index + Stride(g.width, d)
              && IsAvailable(x.position) && x.visited == t.scs[i][j].visited + [x.position]
  {
    var sc := t.scs[i];
    AddPositionMovesEachOnce(g, rules, d, t.starts, sc);
    StepAllShape(g, rules, d, sc);
    assert StepOf(g, rules, d, sc, x);
    var j :| 0 <= j < |sc| && Step(g, rules, sc[j], d) == Some(x);
    StepStride(g, rules, sc[j], d);
  }

  /** `PathResolver` MOVE: every survivor moved by the stride of the direction. */
  lemma {:induction false} ResolverMoveByStride(g: Grid, t: Tracker, d: Direction, i: int, j: int)
    requires WellFormed(g) && Keyed(t.starts, t.scs) && DistinctIndices(t.starts) && OnGrid(g, t.scs)
    requires var r := ResolverMove(g, t, Some(Letter(d))).value; 0 <= i < |r.scs| && 0 <= j < |r.scs[i]|
    ensures var x := ResolverMove(g, t, Some(Letter(d))).value.scs[i][j];
      exists i', j' :: 0 <= i' < |t.scs| && 0 <= j' < |t.scs[i']| &&
        var e := t.scs[i'][j'];
        && Key(e) == Key(x)
        && x.position.index == e.position.index + Stride(g.width, d)
        && IsAvailable(x.position) && x.visited == e.visited + [x.position]
  {
    ParseLetterRoundTrip(d);
    var moved := Moved(g, ResolverRules, d, t);
    var x := NonEmpty(moved)[i][j];
    var i' :| 0 <= i' < |moved| && moved[i'] == NonEmpty(moved)[i];
    MovedByStride(g, ResolverRules, d, t, i', x);
  }

  /**
   * `OpponentSubmarine` MOVE: either every hypothesis was lost and the
   * tracker restarted from every sea cell, or every survivor moved by the
   * stride of the direction.
   */
  lemma {:induction false} OpponentMoveByStride(g: Grid, t: Tracker, d: Direction, i: int, j: int)
    requires WellFormed(g) && Keyed(t.starts, t.scs) && DistinctIndices(t.starts) && OnGrid(g, t.scs)
    requires var r := OpponentMove(g, t, Some(Letter(d))).value; 0 <= i < |r.scs| && 0 <= j < |r.scs[i]|
    ensures var r := OpponentMove(g, t, Some(Letter(d))).value;
      || r == Reseed(AvailableCells(g))
      || exists i', j' :: 0 <= i' < |t.scs| && 0 <= j' < |t.scs[i']| &&
          var e := t.scs[i'][j'];
          && Key(e) == Key(r.scs[i][j])
          && r.scs[i][j].position.index == e.position.index + Stride(g.width, d)
          && IsAvailable(r.scs[i][j].position) && r.scs[i][j].visited == e.visited + [r.scs[i][j].position]
  {
    ParseLetterRoundTrip(d);
    var m := Tracker(t.starts, Moved(g, OpponentRules, d, t));
    MovedKeyed(g, OpponentRules, d, t);
    SettleRestartsOnlyWhenEmpty(g, m);
    if Settle(g, m) == Update(m) {
      var moved := m.scs;
      var x := NonEmpty(moved)[i][j];
      var i' :| 0 <= i' < |moved| && moved[i'] == NonEmpty(moved)[i];
      MovedByStride(g, OpponentRules, d, t, i', x);
    }
  }

  // ---- SILENCE and SURFACE of the PathResolver ----

  /** With the zero-length child kept, a scenario's first child is the scenario itself. */
  lemma {:induction false} FanOutKeepsItself(g: Grid, rules: StepRules, dirs: seq<Direction>, starts: seq<Cell>, sc: Scenario)
    ensures FanOut(g, rules, dirs, starts, sc, true)[0] == sc
    decreases |dirs|
  {
    if dirs != [] {
      FanOutKeepsItself(g, rules, dirs[..|dirs| - 1], starts, sc);
    }
  }

  /** With the zero-length child kept, every scenario survives SILENCE as one of its own children. */
  lemma {:induction false} SilenceKeepsParents(g: Grid, rules: StepRules, dirs: seq<Direction>, starts: seq<Cell>, scs: seq<Scenario>, i: int)
    requires 0 <= i < |scs|
    ensures scs[i] in Silence(g, rules, dirs, starts, scs, true)
    decreases |scs|
  {
    if i == 0 {
      FanOutKeepsItself(g, rules, dirs, starts, scs[0]);
    } else {
      SilenceKeepsParents(g, rules, dirs, starts, scs[1..], i - 1);
    }
  }

  /**
   * `PathResolver` SILENCE loses no position: every cell some hypothesis
   * held before is still held by one after, because the zero-length silence
   * keeps every scenario unchanged.
   */
  lemma {:induction false} ResolverSilenceKeepsPositions(g: Grid, t: Tracker)
    ensures forall c :: c in PossiblePositions(t.scs) ==> c in PossiblePositions(ResolverSilence(g, t).scs)
  {
    var children := Silence(g, ResolverRules, MoveStrategies, t.starts, t.scs, true);
    var r := ResolverSilence(g, t).scs;
    forall c | c in PossiblePositions(t.scs) ensures c in PossiblePositions(r) {
      var i, j :| 0 <= i < |t.scs| && 0 <= j < |t.scs[i]| && t.scs[i][j].position == c;
      SilenceKeepsParents(g, ResolverRules, MoveStrategies, t.starts, t.scs, i);
      var k :| 0 <= k < |children| && children[k] == t.scs[i];
      assert t.scs[i] in r;
      var k' :| 0 <= k' < |r| && r[k'] == t.scs[i];
      assert r[k'][j].position == c;
    }
  }

  /**
   * `PathResolver` SURFACE on a built grid: the new starts are distinct
   * cells, the state is consistent, and exactly the cells held before are
   * held after, each by one fresh hypothesis.
   */
  lemma {:induction false} ResolverSurfaceKeepsPositions(g: Grid, t: Tracker)
    requires WellFormed(g) && OnGrid(g, t.scs)
    ensures var r := ResolverSurface(t);
      && DistinctIndices(r.starts) && Consistent(r.starts, r.scs)
      && forall c :: c in PossiblePositions(r.scs) <==> c in PossiblePositions(t.scs)
  {
    var a := PathResolvers.PossibleCells(t);
    PossibleDistinct(g, t);
    ReseedHoldsExactly(a);
    var re := Reseed(a);
    ReseedKeyed(a);
    UpdateRestoresInvariant(re.starts, re.scs);
    CellsWhereDistinct(a, (c: Cell) => IsUsed(NonEmpty(re.scs), c.index));
    DedupSpec(PossiblePositions(t.scs));
  }

  /** On a built grid the de-duplicated current cells have pairwise different indices. */
  lemma {:induction false} PossibleDistinct(g: Grid, t: Tracker)
    requires WellFormed(g) && OnGrid(g, t.scs)
    ensures DistinctIndices(PathResolvers.PossibleCells(t))
  {
    var all := PossiblePositions(t.scs);
    BuiltGridFacts(g);
    forall k | 0 <= k < |all| ensures all[k] in g.cells {
      assert all[k] in all;
      var i, j :| 0 <= i < |t.scs| && 0 <= j < |t.scs[i]| && t.scs[i][j].position == all[k];
    }
    DedupOfIndexedCells(g.cells, all);
  }

  /** A reseed from distinct cells holds exactly those cells after the clean-up. */
  lemma {:induction false} ReseedHoldsExactly(a: seq<Cell>)
    requires DistinctIndices(a)
    ensures forall c :: c in PossiblePositions(Update(Reseed(a)).scs) <==> c in a
  {
    FromDistinctStarts(a);
    var sc := FromStarts(a);
    var r := Update(Reseed(a));
    forall c ensures c in PossiblePositions(r.scs) <==> c in a {
      if c in a {
        var k :| 0 <= k < |a| && a[k] == c;
        assert sc[k].position == c;
        assert sc != [] && sc in r.scs;
        var i :| 0 <= i < |r.scs| && r.scs[i] == sc;
        assert r.scs[i][k].position == c;
      }
      if c in PossiblePositions(r.scs) {
        var i, j :| 0 <= i < |r.scs| && 0 <= j < |r.scs[i]| && r.scs[i][j].position == c;
        assert r.scs[i] in [sc];
        assert sc[j] == Fresh(a[j]);
      }
    }
  }

  // ---- keepOnlyPositionsInSurface: which region the reseed draws from ----

  /**
   * The positions after the in-region step and the clean-up: a reseed takes
   * the sea cells of region `slot + 1`, a filter keeps region `index`.
   */
  lemma {:induction false} InSurfaceStepRegion(g: Grid, t: Tracker, index: int, limit: int, slot: int)
    requires WellFormed(g) && InSurfaceStep(g, t, index, limit, slot).Some?
    ensures var region := if |t.scs| > limit || |t.scs| == 0 then slot + 1 else index;
      AllPositions(Update(InSurfaceStep(g, t, index, limit, slot).value).scs, (c: Cell) => c.surface == region)
  {
    if |t.scs| > limit || |t.scs| == 0 {
      var cells := Surfaces.SurfaceAvailableCells(SurfaceAt(g, slot).value);
      SurfaceBucketRegion(g, slot);
      ReseedPositions(cells, (c: Cell) => c.surface == slot + 1);
    } else {
      var p := (c: Cell) => c.surface == index;
      KeepWherePositions(t.scs, InRegion(index), p);
      UpdateKeepsPositions(Tracker(t.starts, KeepWhere(t.scs, InRegion(index))), p);
    }
  }

  /**
   * `PathResolver.keepOnlyPositionsInSurface` as written, when it reseeds:
   * every hypothesis lands in region `index + 1`, none in region `index`;
   * and for the last region the slot `surfaces[index]` is past the end, so
   * the call throws.
   */
  lemma {:induction false} ResolverInSurfaceAsWrittenMisses(g: Grid, t: Tracker, index: int)
    requires WellFormed(g) && (|t.scs| > 300 || |t.scs| == 0)
    ensures ResolverInSurfaceAsWritten(g, t, index).Some? ==>
      AllPositions(ResolverInSurfaceAsWritten(g, t, index).value.scs, (c: Cell) => c.surface == index + 1)
    ensures index == |g.surfaces| ==> ResolverInSurfaceAsWritten(g, t, index).None?
  {
    if InSurfaceStep(g, t, index, 300, index).Some? {
      InSurfaceStepRegion(g, t, index, 300, index);
    }
  }

  /** The corrected `PathResolver.keepOnlyPositionsInSurface`: every hypothesis left is in region `index`. */
  lemma {:induction false} ResolverInSurfaceLands(g: Grid, t: Tracker, index: int)
    requires WellFormed(g) && ResolverInSurface(g, t, index).Some?
    ensures AllPositions(ResolverInSurface(g, t, index).value.scs, (c: Cell) => c.surface == index)
  {
    InSurfaceStepRegion(g, t, index, 300, index - 1);
  }

  /**
   * `OpponentSubmarine.keepOnlyPositionsInSurface` as written, when it
   * reseeds: unless it restarts from every sea cell, every hypothesis lands
   * in region `index + 1`; for the last region it throws.
   */
  lemma {:induction false} OpponentInSurfaceAsWrittenMisses(g: Grid, t: Tracker, index: int)
    requires WellFormed(g) && (|t.scs| > 25 || |t.scs| == 0)
    ensures var r := OpponentInSurfaceAsWritten(g, t, index);
      r.Some? ==> r.value == Reseed(AvailableCells(g)) || AllPositions(r.value.scs, (c: Cell) => c.surface == index + 1)
    ensures index == |g.surfaces| ==> OpponentInSurfaceAsWritten(g, t, index).None?
  {
    if InSurfaceStep(g, t, index, 25, index).Some? {
      InSurfaceStepRegion(g, t, index, 25, index);
    }
  }

  /**
   * The corrected `OpponentSubmarine.keepOnlyPositionsInSurface`: unless it
   * restarts from every sea cell, every hypothesis left is in region `index`.
   */
  lemma {:induction false} OpponentInSurfaceLands(g: Grid, t: Tracker, index: int)
    requires WellFormed(g) && OpponentInSurface(g, t, index).Some?
    ensures var r := OpponentInSurface(g, t, index).value;
      r == Reseed(AvailableCells(g)) || AllPositions(r.scs, (c: Cell) => c.surface == index)
  {
    InSurfaceStepRegion(g, t, index, 25, index - 1);
  }

  // ---- the filters only delete ----

  /** The result holds no more hypotheses than `t`, and each scenario is the filter of one of `t`. */
  ghost predicate OnlyDeletes(t: Tracker, keep: PathState -> bool, r: Tracker) {
    && Count(r.scs) <= Count(t.scs)
    && forall i :: 0 <= i < |r.scs| ==> exists i' :: 0 <= i' < |t.scs| && r.scs[i] == Filter(t.scs[i'], keep)
  }

  /** `PathResolver`'s coordinate and torpedo filters only delete hypotheses. */
  lemma {:induction false} ResolverFiltersOnlyDelete(g: Grid, t: Tracker, ps: seq<Coordinate>, x: Option<int>, y: Option<int>)
    ensures OnlyDeletes(t, InCells(Looked(g, ps)), ResolverKeepOnly(g, t, ps))
    ensures OnlyDeletes(t, OutsideCells(Looked(g, ps)), ResolverExclude(g, t, ps))
    ensures OnlyDeletes(t, NearTorpedo(x, y), ResolverNearTorpedo(t, x, y))
  {
    FilterThenUpdateDeletes(t, InCells(Looked(g, ps)));
    FilterThenUpdateDeletes(t, OutsideCells(Looked(g, ps)));
    FilterThenUpdateDeletes(t, NearTorpedo(x, y));
  }

  /** A filter followed by the opponent's clean-up only deletes, or restarts when nothing passed. */
  lemma {:induction false} SettledFilter(g: Grid, t: Tracker, keep: PathState -> bool)
    requires Keyed(t.starts, t.scs)
    ensures var f := Tracker(t.starts, KeepWhere(t.scs, keep));
      || OnlyDeletes(t, keep, Settle(g, f))
      || (Update(f).scs == [] && Settle(g, f) == Reseed(AvailableCells(g)))
  {
    var f := Tracker(t.starts, KeepWhere(t.scs, keep));
    KeepWhereKeyed(t.starts, t.scs, keep);
    SettleRestartsOnlyWhenEmpty(g, f);
    FilterThenUpdateDeletes(t, keep);
  }

  /**
   * `OpponentSubmarine`'s coordinate and torpedo filters only delete
   * hypotheses, unless none passes, when the tracker restarts from every
   * sea cell.
   */
  lemma {:induction false} OpponentFiltersDeleteOrRestart(g: Grid, t: Tracker, ps: seq<Coordinate>, x: Option<int>, y: Option<int>)
    requires Keyed(t.starts, t.scs)
    ensures OnlyDeletes(t, InCells(Looked(g, ps)), OpponentKeepOnly(g, t, ps))
      || (NonEmpty(KeepWhere(t.scs, InCells(Looked(g, ps)))) == [] && OpponentKeepOnly(g, t, ps) == Reseed(AvailableCells(g)))
    ensures OnlyDeletes(t, OutsideCells(Looked(g, ps)), OpponentExclude(g, t, ps))
      || (NonEmpty(KeepWhere(t.scs, OutsideCells(Looked(g, ps)))) == [] && OpponentExclude(g, t, ps) == Reseed(AvailableCells(g)))
    ensures OnlyDeletes(t, NearTorpedo(x, y), OpponentNearTorpedo(g, t, x, y))
      || (NonEmpty(KeepWhere(t.scs, NearTorpedo(x, y))) == [] && OpponentNearTorpedo(g, t, x, y) == Reseed(AvailableCells(g)))
  {
    SettledFilter(g, t, InCells(Looked(g, ps)));
    SettledFilter(g, t, OutsideCells(Looked(g, ps)));
    SettledFilter(g, t, NearTorpedo(x, y));
  }

  /** Keeping the looked-up cells and excluding them split every scenario's hypotheses between the two results. */
  lemma {:induction false} LookedSplit(g: Grid, t: Tracker, ps: seq<Coordinate>, i: int)
    requires 0 <= i < |t.scs|
    ensures var cells := Looked(g, ps);
      multiset(KeepWhere(t.scs, InCells(cells))[i])
      + multiset(KeepWhere(t.scs, OutsideCells(cells))[i]) == multiset(t.scs[i])
  {
    MoveScenarios.KeepAndExcludeSplit(t.scs[i], Looked(g, ps), 0);
  }

  // ======== the classes ========

  /** The `forEach(ms => addMoveStrategy(ms, strategy))` of MOVE, one scenario after the other. */
  method MoveEach(g: Grid, rules: StepRules, d: Direction, t: Tracker) returns (r: seq<Scenario>)
    ensures r == Moved(g, rules, d, t)
  {
    r := t.scs;
    var i := 0;
    while i < |r|
      invariant 0 <= i <= |r| == |t.scs|
      invariant forall k :: 0 <= k < i ==> r[k] == AddPosition(g, rules, d, t.starts, t.scs[k])
      invariant forall k :: i <= k < |r| ==> r[k] == t.scs[k]
    {
      var next := AdvanceScenario(g, rules, d, t.starts, r[i]);
      r := r[i := next];
      i := i + 1;
    }
  }

  /** The per-scenario delete loop every filter runs. */
  method FilterEach(scs: seq<Scenario>, keep: PathState -> bool) returns (r: seq<Scenario>)
    requires AllUniqueKeys(scs)
    ensures r == KeepWhere(scs, keep)
  {
    r := scs;
    var i := 0;
    while i < |r|
      invariant 0 <= i <= |r| == |scs|
      invariant forall k :: 0 <= k < i ==> r[k] == Filter(scs[k], keep)
      invariant forall k :: i <= k < |r| ==> r[k] == scs[k]
    {
      var kept := MoveScenarios.DeleteUnless(r[i], keep);
      r := r[i := kept];
      i := i + 1;
    }
  }

  /** `PathResolver` (src/app/path-resolver.class.ts). */
  class PathResolver {
    const grid: Grid
    /** `_startPositions`. */
    var starts: seq<Cell>
    /** `_moveScenarios`, each one the entries of its `paths` Map in key order. */
    var scenarios: seq<Scenario>

    function State(): Tracker
      reads this
    {
      Tracker(starts, scenarios)
    }

    ghost predicate Valid()
      reads this
    {
      Keyed(starts, scenarios)
    }

    /** Every sea cell is a possible start, and no scenario exists yet. */
    constructor (g: Grid)
      ensures Valid() && grid == g && State() == Tracker(AvailableCells(g), [])
    {
      grid := g;
      starts := AvailableCells(g);
      scenarios := [];
    }

    /** `updateMoveStrategies`: afterwards no scenario is empty and every start is used. */
    method UpdateMoveStrategies()
      requires Valid()
      modifies this
      ensures Valid() && State() == Update(old(State()))
      ensures Consistent(starts, scenarios)
    {
      UpdateRestoresInvariant(starts, scenarios);
      var kept := DropEmpty(scenarios);
      var used := KeepUsedStarts(starts, kept);
      scenarios := kept;
      starts := used;
    }

    /** `getPossiblePositions()`; nothing changes. */
    method GetPossiblePositions() returns (r: seq<Cell>)
      ensures r == PathResolvers.PossibleCells(State())
    {
      var cells := PathResolvers.CurrentCellsOf(scenarios);
      r := Cells.RemoveDuplicate(cells);
    }

    /** `_startPositions = cells; _moveScenarios = [createMoveScenario()]`. */
    method ReseedFrom(cells: seq<Cell>)
      modifies this
      ensures Valid() && State() == Reseed(cells)
    {
      var ms := new MoveScenarios.MoveScenario(cells);
      starts := cells;
      scenarios := [ms.paths];
      ReseedKeyed(cells);
    }

    /** The filter loop, then the clean-up. */
    method FilterAndUpdate(keep: PathState -> bool)
      requires Valid()
      modifies this
      ensures Valid() && State() == Update(Tracker(old(starts), KeepWhere(old(scenarios), keep)))
    {
      KeepWhereKeyed(starts, scenarios, keep);
      scenarios := FilterEach(scenarios, keep);
      UpdateMoveStrategies();
    }

    /** MOVE in `applyMoveOrders`; `ok` is false when the source throws, and then nothing has changed. */
    method Move(word: Option<string>) returns (ok: bool)
      requires Valid()
      modifies this
      ensures Valid()
      ensures ok <==> ResolverMove(grid, old(State()), word).Some?
      ensures ok ==> State() == ResolverMove(grid, old(State()), word).value
      ensures !ok ==> State() == old(State())
    {
      var d := if word.Some? then ParseDirection(word.value) else None;
      if d.None? {
        var used := AnyStartInUse(State());
        if used {
          return false;
        }
        UpdateMoveStrategies();
        return true;
      }
      MovedKeyed(grid, ResolverRules, d.value, State());
      scenarios := MoveEach(grid, ResolverRules, d.value, State());
      UpdateMoveStrategies();
      ok := true;
    }

    /** SILENCE in `applyMoveOrders`: seventeen children per scenario, then the clean-up. */
    method SilenceMove()
      requires Valid()
      modifies this
      ensures Valid() && State() == ResolverSilence(grid, old(State()))
    {
      SilenceKeyed(grid, ResolverRules, MoveStrategies, starts, scenarios, true);
      scenarios := SilenceAll(grid, ResolverRules, MoveStrategies, starts, scenarios, true);
      UpdateMoveStrategies();
    }

    /** SURFACE in `applyMoveOrders`: restart from the possible positions. */
    method SurfaceMove()
      requires Valid()
      modifies this
      ensures Valid() && State() == ResolverSurface(old(State()))
    {
      var positions := GetPossiblePositions();
      ReseedFrom(positions);
      UpdateMoveStrategies();
    }

    /**
     * `applyMoveOrders(orders)`; `ok` is false when the MOVE throws, which
     * leaves the seeded state.
     */
    method ApplyMoveOrders(os: Orders.OrderSet) returns (ok: bool)
      requires Valid()
      modifies this
      ensures Valid()
      ensures (State(), ok) == ResolverOrders(grid, old(State()), os)
    {
      if |scenarios| == 0 {
        ReseedFrom(starts);
      }
      if os.move.Some? {
        ok := Move(MoveWord(os.move));
        if !ok {
          return;
        }
      } else if os.silence.Some? {
        SilenceMove();
      }
      if os.surface.Some? {
        SurfaceMove();
      }
      ok := true;
    }

    /** `keepOnlyPositions(coordinates)`. */
    method KeepOnlyPositions(ps: seq<Coordinate>)
      requires Valid()
      modifies this
      ensures Valid() && State() == ResolverKeepOnly(grid, old(State()), ps)
    {
      FilterAndUpdate(InCells(Looked(grid, ps)));
    }

    /** `excludePositions(coordinates)`. */
    method ExcludePositions(ps: seq<Coordinate>)
      requires Valid()
      modifies this
      ensures Valid() && State() == ResolverExclude(grid, old(State()), ps)
    {
      FilterAndUpdate(OutsideCells(Looked(grid, ps)));
    }

    /**
     * `keepOnlyPositionsInSurface(index)`, reseeding from the region
     * numbered `index`; `ok` is false when the source throws, and then
     * nothing has changed.
     */
    method KeepOnlyPositionsInSurface(index: int) returns (ok: bool)
      requires Valid()
      modifies this
      ensures Valid()
      ensures ok <==> ResolverInSurface(grid, old(State()), index).Some?
      ensures ok ==> State() == ResolverInSurface(grid, old(State()), index).value
      ensures !ok ==> State() == old(State())
    {
      if |scenarios| > 300 || |scenarios| == 0 {
        var slot := SurfaceAt(grid, index - 1);
        if slot.None? {
          return false;
        }
        ReseedFrom(Surfaces.SurfaceAvailableCells(slot.value));
        UpdateMoveStrategies();
      } else {
        FilterAndUpdate(InRegion(index));
      }
      ok := true;
    }

    /** `excludePositionsInSurface(index)`; `ok` is false when the source throws, and then nothing has changed. */
    method ExcludePositionsInSurface(index: int) returns (ok: bool)
      requires Valid()
      modifies this
      ensures Valid()
      ensures ok <==> ResolverOutsideSurface(grid, old(State()), index).Some?
      ensures ok ==> State() == ResolverOutsideSurface(grid, old(State()), index).value
      ensures !ok ==> State() == old(State())
    {
      if |scenarios| > 0 {
        FilterAndUpdate(OutsideRegion(index));
      } else {
        if HasHole(grid) {
          return false;
        }
        ReseedFrom(OtherRegionCells(grid.surfaces, index));
        UpdateMoveStrategies();
      }
      ok := true;
    }

    /** `keepOnlyPositionsNearTorpedo(coordinate)`. */
    method KeepOnlyPositionsNearTorpedo(x: Option<int>, y: Option<int>)
      requires Valid()
      modifies this
      ensures Valid() && State() == ResolverNearTorpedo(old(State()), x, y)
    {
      FilterAndUpdate(NearTorpedo(x, y));
    }
  }

  /** The tracking half of `OpponentSubmarine` (src/app/opponent-submarine.class.ts). */
  class OpponentSubmarine {
    const grid: Grid
    /** `_startPositions`. */
    var starts: seq<Cell>
    /** `_moveScenarios`, each one the entries of its `paths` Map in key order. */
    var scenarios: seq<Scenario>
    /** `_orders`, the last parsed orders. */
    var orders: Orders.OrderSet

    function State(): Tracker
      reads this
    {
      Tracker(starts, scenarios)
    }

    ghost predicate Valid()
      reads this
    {
      Keyed(starts, scenarios)
    }

    /** Every sea cell is a possible start, and no scenario exists yet. */
    constructor (g: Grid)
      ensures Valid() && grid == g && State() == Tracker(AvailableCells(g), [])
    {
      grid := g;
      starts := AvailableCells(g);
      scenarios := [];
      orders := Orders.ParseObject([]);
    }

    /**
     * `updateMoveStrategies`: clean up, and restart from every sea cell when
     * no start is left; on a board with sea, a start and a scenario remain.
     */
    method UpdateMoveStrategies()
      requires Valid()
      modifies this
      ensures Valid() && State() == Settle(grid, old(State())) && orders == old(orders)
      ensures AvailableCells(grid) != [] ==> starts != [] && scenarios != [] && Consistent(starts, scenarios)
    {
      ghost var before := State();
      SettleKeyed(grid, before);
      if AvailableCells(grid) != [] {
        SettleNeverEmpty(grid, before);
      }
      UpdateRestoresInvariant(starts, scenarios);
      var kept := DropEmpty(scenarios);
      var used := KeepUsedStarts(starts, kept);
      scenarios := kept;
      starts := used;
      if |starts| == 0 {
        ReseedFrom(AvailableCells(grid));
      }
    }

    /** `getPossiblePositions()`; nothing changes. */
    method GetPossiblePositions() returns (r: seq<Cell>)
      ensures r == PathResolvers.PossibleCells(State())
    {
      var cells := PathResolvers.CurrentCellsOf(scenarios);
      r := Cells.RemoveDuplicate(cells);
    }

    /** `_startPositions = cells; _moveScenarios = [createMoveScenario()]`. */
    method ReseedFrom(cells: seq<Cell>)
      modifies this
      ensures Valid() && State() == Reseed(cells) && orders == old(orders)
    {
      var ms := new MoveScenarios.MoveScenario(cells);
      starts := cells;
      scenarios := [ms.paths];
      ReseedKeyed(cells);
    }

    /** The filter loop, then the clean-up. */
    method FilterAndUpdate(keep: PathState -> bool)
      requires Valid()
      modifies this
      ensures Valid() && State() == Settle(grid, Tracker(old(starts), KeepWhere(old(scenarios), keep)))
      ensures orders == old(orders)
    {
      KeepWhereKeyed(starts, scenarios, keep);
      scenarios := FilterEach(scenarios, keep);
      UpdateMoveStrategies();
    }

    /** MOVE in `applyMoveOrders`; `ok` is false when the source throws, and then nothing has changed. */
    method Move(word: Option<string>) returns (ok: bool)
      requires Valid()
      modifies this
      ensures Valid() && orders == old(orders)
      ensures ok <==> OpponentMove(grid, old(State()), word).Some?
      ensures ok ==> State() == OpponentMove(grid, old(State()), word).value
      ensures !ok ==> State() == old(State())
    {
      var d := if word.Some? then ParseDirection(word.value) else None;
      if d.None? {
        var used := AnyStartInUse(State());
        if used {
          return false;
        }
        UpdateMoveStrategies();
        return true;
      }
      MovedKeyed(grid, OpponentRules, d.value, State());
      scenarios := MoveEach(grid, OpponentRules, d.value, State());
      UpdateMoveStrategies();
      ok := true;
    }

    /**
     * SILENCE in `applyMoveOrders`: above 30 scenarios restart from the
     * possible positions, then sixteen children per scenario, then the
     * clean-up.
     */
    method SilenceMove()
      requires Valid()
      modifies this
      ensures Valid() && State() == OpponentSilence(grid, old(State())) && orders == old(orders)
    {
      var positions := GetPossiblePositions();
      if |scenarios| > 30 {
        ReseedFrom(positions);
      }
      SilenceKeyed(grid, OpponentRules, MoveStrategies, starts, scenarios, false);
      scenarios := SilenceAll(grid, OpponentRules, MoveStrategies, starts, scenarios, false);
      UpdateMoveStrategies();
    }

    /**
     * SURFACE in `applyMoveOrders`: restart from the sea cells of
     * `surfaces[index - 1]`; `ok` is false when that slot is undefined,
     * and then nothing has changed.
     */
    method SurfaceMove(index: Option<int>) returns (ok: bool)
      requires Valid()
      modifies this
      ensures Valid() && orders == old(orders)
      ensures ok <==> OpponentSurface(grid, old(State()), index).Some?
      ensures ok ==> State() == OpponentSurface(grid, old(State()), index).value
      ensures !ok ==> State() == old(State())
    {
      var slot := if index.Some? then SurfaceAt(grid, index.value - 1) else None;
      if slot.None? {
        return false;
      }
      ReseedFrom(Surfaces.SurfaceAvailableCells(slot.value));
      UpdateMoveStrategies();
      ok := true;
    }

    /** `keepOnlyPositionsNearTorpedo(coordinate)`. */
    method KeepOnlyPositionsNearTorpedo(x: Option<int>, y: Option<int>)
      requires Valid()
      modifies this
      ensures Valid() && State() == OpponentNearTorpedo(grid, old(State()), x, y) && orders == old(orders)
    {
      FilterAndUpdate(NearTorpedo(x, y));
    }

    /**
     * `setOrders(orders)`: keep the parsed orders, then `applyMoveOrders`
     * and `applyOtherOrders`; `ok` is false when an order throws, which
     * leaves the state the earlier steps produced.
     */
    method SetOrders(tokens: seq<string>) returns (ok: bool)
      requires Valid()
      modifies this
      ensures Valid() && orders == Orders.ParseObject(tokens)
      ensures (State(), ok) == OpponentOrders(grid, old(State()), orders)
    {
      orders := Orders.ParseObject(tokens);
      if |scenarios| == 0 {
        ReseedFrom(starts);
      }
      if orders.move.Some? {
        ok := Move(MoveWord(orders.move));
        if !ok {
          return;
        }
      } else if orders.silence.Some? {
        SilenceMove();
      }
      if orders.surface.Some? {
        ok := SurfaceMove(SurfaceNumber(orders.surface));
        if !ok {
          return;
        }
      }
      if orders.torpedo.Some? {
        var target := TorpedoTarget(orders.torpedo);
        KeepOnlyPositionsNearTorpedo(target.0, target.1);
      }
      ok := true;
    }

    /** `keepOnlyPositions(coordinates)`. */
    method KeepOnlyPositions(ps: seq<Coordinate>)
      requires Valid()
      modifies this
      ensures Valid() && State() == OpponentKeepOnly(grid, old(State()), ps) && orders == old(orders)
    {
      FilterAndUpdate(InCells(Looked(grid, ps)));
    }

    /** `excludePositions(coordinates)`. */
    method ExcludePositions(ps: seq<Coordinate>)
      requires Valid()
      modifies this
      ensures Valid() && State() == OpponentExclude(grid, old(State()), ps) && orders == old(orders)
    {
      FilterAndUpdate(OutsideCells(Looked(grid, ps)));
    }

    /**
     * `keepOnlyPositionsInSurface(index)`, reseeding from the region
     * numbered `index`; `ok` is false when the source throws, and then
     * nothing has changed.
     */
    method KeepOnlyPositionsInSurface(index: int) returns (ok: bool)
      requires Valid()
      modifies this
      ensures Valid() && orders == old(orders)
      ensures ok <==> OpponentInSurface(grid, old(State()), index).Some?
      ensures ok ==> State() == OpponentInSurface(grid, old(State()), index).value
      ensures !ok ==> State() == old(State())
    {
      if |scenarios| > 25 || |scenarios| == 0 {
        var slot := SurfaceAt(grid, index - 1);
        if slot.None? {
          return false;
        }
        ReseedFrom(Surfaces.SurfaceAvailableCells(slot.value));
        UpdateMoveStrategies();
      } else {
        FilterAndUpdate(InRegion(index));
      }
      ok := true;
    }

    /** `excludePositionsInSurface(index)`; `ok` is false when the source throws, and then nothing has changed. */
    method ExcludePositionsInSurface(index: int) returns (ok: bool)
      requires Valid()
      modifies this
      ensures Valid() && orders == old(orders)
      ensures ok <==> OpponentOutsideSurface(grid, old(State()), index).Some?
      ensures ok ==> State() == OpponentOutsideSurface(grid, old(State()), index).value
      ensures !ok ==> State() == old(State())
    {
      if |scenarios| > 0 {
        FilterAndUpdate(OutsideRegion(index));
      } else {
        if HasHole(grid) {
          return false;
        }
        ReseedFrom(OtherRegionCells(grid.surfaces, index));
        UpdateMoveStrategies();
      }
      ok := true;
    }
  }
}
