// The earlier `OurSubmarine` of src/app: our own submarine, which plans a
// longest path with the unguarded index lookup, follows it with MOVE and
// SILENCE orders, surfaces when it is stuck, and passes sonar answers on
// to the opponent tracker of src/app.
module EarlySubmarines {
  import opened Sequences
  import opened Positions
  import opened Directions
  import opened Cells
  import opened Grids
  import opened Hypotheses
  import opened Tracking
  import opened TrackResolvers
  import opened Strategies
  import opened PathFinders
  import opened EarlyTrackers
  import Surfaces
  import PathResolvers
  import OurSubmarines
  import OceanTracking

  type Cooldown = OurSubmarines.Cooldown
  type Command = OurSubmarines.Command

  // ---- searchLongestPath ----

  /**
   * The cells a search from `cell` may enter: the sea cells that are not
   * visited and do not sit at `cell`'s coordinate.
   */
  function Pool(g: Grid, visited: map<int, Cell>, cell: Cell): set<Cell> {
    set c | c in AvailableCells(g) && c.index !in visited && c.coordinate != cell.coordinate
  }

  /** `r` is a walk from `cell` through the pool, with the unguarded lookup, that cannot be extended. */
  ghost predicate AppSearched(g: Grid, visited: map<int, Cell>, cell: Cell, r: seq<PathNode>) {
    && IsWalk(g, false, cell, Pool(g, visited, cell), r)
    && Stuck(g, false, Pool(g, visited, cell), CellsOf(r), r[|r| - 1].cell.coordinate)
  }

  /** Appending a path searched from the next candidate keeps every recorded path searched from its own candidate. */
  lemma AppSearchedAppend(g: Grid, visited: map<int, Cell>, cs: seq<Cell>, paths: seq<seq<PathNode>>, p: seq<PathNode>)
    requires |paths| < |cs| && AppSearched(g, visited, cs[|paths|], p)
    requires forall j :: 0 <= j < |paths| ==> AppSearched(g, visited, cs[j], paths[j])
    ensures forall j :: 0 <= j <= |paths| ==> AppSearched(g, visited, cs[j], (paths + [p])[j])
  {
  }

  /**
   * The unguarded lookup lets a search step east off the last column onto
   * the first cell of the next row, a move the guarded lookup refuses.
   */
  lemma {:induction false} AppSearchCrossesRows(g: Grid, i: int)
    requires WellFormed(g) && |g.cells| == g.width * g.height
    requires 0 <= i && i + 1 < |g.cells| && g.cells[i].coordinate.x == g.width - 1
    ensures g.cells[i + 1].coordinate == Coordinate(0, g.cells[i].coordinate.y + 1)
    ensures Target(g, false, g.cells[i].coordinate, East) == Some(g.cells[i + 1])
    ensures Target(g, true, g.cells[i].coordinate, East) == None
  {
    var w := g.width;
    var y := g.cells[i].coordinate.y;
    assert y == i / w && w - 1 == i % w;
    DivModSplit(i, w);
    MultiplySucc(y, w);
    CellContainers.DivModUnique(i + 1, w, y + 1, 0);
    var q := Add(g.cells[i].coordinate, Vector(East));
    assert q == Coordinate(w, y);
    assert CellContainers.GetIndexAsWritten(Frame(g), q) == i + 1;
  }

  // ---- the SILENCE run of getMoveActions ----

  /**
   * The SILENCE `getMoveActions` emits for a path with a first move: that
   * move's direction, and how many leading nodes take it, at most four.
   */
  function AppSilence(p: seq<PathNode>): (r: (Direction, nat))
    requires OurSubmarines.HasMove(p)
    ensures r.0 == p[0].direction.value && 1 <= r.1 <= 4 && r.1 <= |p|
    ensures forall i :: 0 <= i < r.1 ==> p[i].direction == Some(r.0)
    ensures r.1 < 4 && r.1 < |p| ==> p[r.1].direction != Some(r.0)
  {
    var d := p[0].direction.value;
    (d, 1 + OurSubmarines.LeadingRun(p[1..], d, 3))
  }

  /**
   * The services version agrees on paths of more than four nodes; on a
   * shorter path it emits a zero-length SILENCE while this one still runs
   * at least one node.
   */
  lemma {:induction false} AppSilenceAgainstServices(p: seq<PathNode>)
    requires OurSubmarines.HasMove(p)
    ensures |p| > 4 ==> AppSilence(p) == OurSubmarines.SilenceOf(p)
    ensures |p| <= 4 ==> OurSubmarines.SilenceOf(p).1 == 0 < AppSilence(p).1
  {
  }

  /** `addVisitedCell` on every node of `p`, first to last. */
  function MarkNodes(m: map<int, Cell>, p: seq<PathNode>): (r: map<int, Cell>)
    ensures forall k :: k in r <==> k in m || exists i :: 0 <= i < |p| && p[i].cell.index == k
    ensures forall k :: k in m && (forall i :: 0 <= i < |p| ==> p[i].cell.index != k) ==> r[k] == m[k]
    ensures p != [] ==> r[p[|p| - 1].cell.index] == p[|p| - 1].cell
  {
    if p == [] then m
    else
      var init := p[..|p| - 1];
      assert forall i :: 0 <= i < |init| ==> init[i] == p[i];
      MarkNodes(m, init)[p[|p| - 1].cell.index := p[|p| - 1].cell]
  }

  // ---- the sonar answer, for the region that is never set ----

  /** The filter that keeps no hypothesis: no cell's region equals an undefined one. */
  const Nowhere: PathState -> bool := (e: PathState) => false

  /** The filter that keeps every hypothesis: every cell's region differs from an undefined one. */
  const Anywhere: PathState -> bool := (e: PathState) => true

  /** The sea cells of every region, region after region. */
  function RegionCells(ss: seq<Option<Surfaces.Surface>>): (r: seq<Cell>)
    ensures forall c :: c in r <==>
      exists k :: 0 <= k < |ss| && ss[k].Some? && c in Surfaces.SurfaceAvailableCells(ss[k].value)
  {
    if ss == [] then []
    else
      var rest := RegionCells(ss[1..]);
      assert forall c :: c in rest <==>
        exists k :: 1 <= k < |ss| && ss[k].Some? && c in Surfaces.SurfaceAvailableCells(ss[k].value) by {
        forall c | c in rest
          ensures exists k :: 1 <= k < |ss| && ss[k].Some? && c in Surfaces.SurfaceAvailableCells(ss[k].value)
        {
          var k :| 0 <= k < |ss[1..]| && ss[1..][k].Some? && c in Surfaces.SurfaceAvailableCells(ss[1..][k].value);
          assert ss[k + 1] == ss[1..][k];
        }
        forall c, k | 1 <= k < |ss| && ss[k].Some? && c in Surfaces.SurfaceAvailableCells(ss[k].value)
          ensures c in rest
        {
          assert ss[1..][k - 1] == ss[k];
        }
      }
      (match ss[0] case None => [] case Some(s) => Surfaces.SurfaceAvailableCells(s)) + rest
  }

  /**
   * `keepOnlyPositionsInSurface(undefined)`: above 25 scenarios or with
   * none, `surfaces[undefined]` throws; otherwise every hypothesis is
   * dropped, then the clean-up.
   */
  function SonarYes(g: Grid, t: Tracker): Option<Tracker> {
    if |t.scs| > 25 || |t.scs| == 0 then None
    else Some(Settle(g, Tracker(t.starts, KeepWhere(t.scs, Nowhere))))
  }

  /**
   * `excludePositionsInSurface(undefined)`: with scenarios nothing is
   * dropped; with none, restart from the sea cells of every region (the
   * filter callback throws on an undefined slot), then the clean-up.
   */
  function SonarNo(g: Grid, t: Tracker): Option<Tracker> {
    if |t.scs| > 0 then Some(Settle(g, Tracker(t.starts, KeepWhere(t.scs, Anywhere))))
    else if HasHole(g) then None
    else Some(Settle(g, Reseed(RegionCells(g.surfaces))))
  }

  /** The `sonarResult` setter's effect on the opponent tracker; other answers change nothing. */
  function SonarAnswer(g: Grid, t: Tracker, value: string): Option<Tracker> {
    if value == "Y" then SonarYes(g, t)
    else if value == "N" then SonarNo(g, t)
    else Some(t)
  }

  lemma {:induction false} FilterDropsAll(sc: Scenario)
    ensures Filter(sc, Nowhere) == []
  {
    if sc != [] {
      FilterDropsAll(sc[1..]);
    }
  }

  lemma {:induction false} NonEmptyKeepsAll(scs: seq<Scenario>)
    requires forall i :: 0 <= i < |scs| ==> scs[i] != []
    ensures NonEmpty(scs) == scs
  {
    if scs != [] {
      NonEmptyKeepsAll(scs[1..]);
    }
  }

  lemma {:induction false} CellsWhereKeepsAll(cells: seq<Cell>, keep: Cell -> bool)
    requires forall i :: 0 <= i < |cells| ==> keep(cells[i])
    ensures CellsWhere(cells, keep) == cells
  {
    if cells != [] {
      CellsWhereKeepsAll(cells[1..], keep);
    }
  }

  lemma {:induction false} NothingUsedWithoutScenarios(starts: seq<Cell>)
    ensures UsedStarts(starts, []) == []
  {
    if starts != [] {
      assert !IsUsed([], starts[0].index);
      NothingUsedWithoutScenarios(starts[1..]);
    }
  }

  /**
   * A "Y" answer for the undefined region either throws (above 25
   * scenarios or none) or empties every scenario, so the opponent restarts
   * from every sea cell.
   */
  lemma {:induction false} SonarYesRestarts(g: Grid, t: Tracker)
    ensures SonarYes(g, t).Some? <==> 0 < |t.scs| <= 25
    ensures SonarYes(g, t).Some? ==> SonarYes(g, t).value == Reseed(AvailableCells(g))
  {
    if 0 < |t.scs| <= 25 {
      var kept := KeepWhere(t.scs, Nowhere);
      forall i | 0 <= i < |kept| ensures kept[i] == [] {
        FilterDropsAll(t.scs[i]);
      }
      PathResolvers.NonEmptyOfEmpties(kept);
      NothingUsedWithoutScenarios(t.starts);
    }
  }

  /**
   * An "N" answer for the undefined region leaves a consistent tracker with
   * scenarios exactly as it was: no hypothesis is ever excluded.
   */
  lemma {:induction false} SonarNoKeeps(g: Grid, t: Tracker)
    requires Consistent(t.starts, t.scs) && t.scs != []
    ensures SonarNo(g, t) == Some(t)
  {
    var kept := KeepWhere(t.scs, Anywhere);
    forall i | 0 <= i < |t.scs| ensures kept[i] == t.scs[i] {
      FilterKeepsAll(t.scs[i], Anywhere);
    }
    assert kept == t.scs;
    NonEmptyKeepsAll(t.scs);
    CellsWhereKeepsAll(t.starts, (c: Cell) => IsUsed(t.scs, c.index));
    KeysOfNonEmpty(t.scs[0]);
    assert Key(t.scs[0][0]) in StartKeys(t.starts);
    assert t.starts != [];
  }

  // ---- the submarine ----

  /** The src/app `OurSubmarine`, updated in place turn after turn. */
  class OurSubmarine {
    const grid: Grid
    /** The opponent tracker it passes sonar answers to. */
    const opponent: EarlyTrackers.OpponentSubmarine
    /** `_path`: undefined until a start cell has been searched. */
    var path: Option<seq<PathNode>>
    /** `_turnCounter`. */
    var turn: nat
    /** `_sonar`: its region is never assigned. */
    var sonar: OurSubmarines.Sonar
    var cooldown: Cooldown
    /** `_position`: undefined until set, and after a lookup off the cell list. */
    var position: Option<Cell>
    /** `_visitedCells`, keyed by cell index. */
    var visited: map<int, Cell>

    /** The opponent tracker runs on the same grid, and no sonar region is ever set. */
    ghost predicate Valid()
      reads this, opponent
    {
      && opponent.grid == grid
      && opponent.Valid()
      && sonar.region.None?
    }

    /** A new submarine facing the given opponent: nothing planned, visited or set yet. */
    constructor (g: Grid, opponent: EarlyTrackers.OpponentSubmarine)
      requires opponent.grid == g && opponent.Valid()
      ensures Valid() && grid == g && this.opponent == opponent
      ensures path.None? && turn == 0 && sonar == OurSubmarines.Sonar(None, "NA")
      ensures cooldown == OurSubmarines.Unset && position.None? && visited == map[]
    {
      grid := g;
      this.opponent := opponent;
      path := None;
      turn := 0;
      sonar := OurSubmarines.Sonar(None, "NA");
      cooldown := OurSubmarines.Unset;
      position := None;
      visited := map[];
    }

    /**
     * The `sonarResult` setter: the answer is recorded, then "Y" keeps and
     * "N" excludes the hypotheses of the (undefined) region; `ok` is false
     * where the source throws, and then the tracker has not changed.
     */
    method SetSonarResult(value: string) returns (ok: bool)
      requires Valid()
      modifies this, opponent
      ensures Valid() && sonar == OurSubmarines.Sonar(None, value)
      ensures ok <==> SonarAnswer(grid, old(opponent.State()), value).Some?
      ensures ok ==> opponent.State() == SonarAnswer(grid, old(opponent.State()), value).value
      ensures !ok ==> opponent.State() == old(opponent.State())
      ensures opponent.orders == old(opponent.orders)
      ensures path == old(path) && turn == old(turn) && cooldown == old(cooldown)
      ensures position == old(position) && visited == old(visited)
    {
      sonar := OurSubmarines.Sonar(sonar.region, value);
      if value == "Y" {
        if |opponent.scenarios| > 25 || |opponent.scenarios| == 0 {
          return false;
        }
        opponent.FilterAndUpdate(Nowhere);
      } else if value == "N" {
        if |opponent.scenarios| > 0 {
          opponent.FilterAndUpdate(Anywhere);
        } else if HasHole(grid) {
          return false;
        } else {
          opponent.ReseedFrom(RegionCells(grid.surfaces));
          opponent.UpdateMoveStrategies();
        }
      }
      ok := true;
    }

    /**
     * `setPosition(x, y)`: the cell the unguarded lookup finds becomes the
     * position; when there is one it is marked visited and the turn counter
     * goes up, and when there is none the source throws (`ok` is false).
     */
    method SetPosition(x: int, y: int) returns (ok: bool)
      requires Valid()
      modifies this
      ensures Valid()
      ensures position == LookUp(grid, Coordinate(x, y))
      ensures ok <==> position.Some?
      ensures ok ==> visited == old(visited)[position.value.index := position.value] && turn == old(turn) + 1
      ensures !ok ==> visited == old(visited) && turn == old(turn)
      ensures path == old(path) && sonar == old(sonar) && cooldown == old(cooldown)
    {
      position := LookUp(grid, Coordinate(x, y));
      if position.None? {
        return false;
      }
      AddVisitedCell(position.value);
      turn := turn + 1;
      ok := true;
    }

    /** `addVisitedCell(cell)`: the cell is recorded under its index. */
    method AddVisitedCell(c: Cell)
      modifies this
      ensures visited == old(visited)[c.index := c]
      ensures path == old(path) && turn == old(turn) && sonar == old(sonar)
      ensures cooldown == old(cooldown) && position == old(position)
    {
      visited := visited[c.index := c];
    }

    /** `clearVisitedCell()`: every visited cell is forgotten. */
    method ClearVisitedCell()
      modifies this
      ensures visited == map[]
      ensures path == old(path) && turn == old(turn) && sonar == old(sonar)
      ensures cooldown == old(cooldown) && position == old(position)
    {
      visited := map[];
    }

    /** `setCooldown`. */
    method SetCooldown(torpedo: int, sonar: int, mine: int, silence: int)
      modifies this
      ensures cooldown == OurSubmarines.Cooldown(torpedo, sonar, mine, silence)
      ensures path == old(path) && turn == old(turn) && this.sonar == old(this.sonar)
      ensures position == old(position) && visited == old(visited)
    {
      cooldown := OurSubmarines.Cooldown(torpedo, sonar, mine, silence);
    }

    /**
     * `searchLongestPath(cell)`: nothing from a cell that is not sea;
     * otherwise, with the unguarded lookup and the moves in their fixed
     * order, a walk from `cell` through the pool that cannot be extended.
     * Nothing changes.
     */
    method SearchLongestPath(cell: Cell) returns (r: seq<PathNode>)
      ensures !IsAvailable(cell) ==> r == []
      ensures IsAvailable(cell) ==> AppSearched(grid, visited, cell, r)
    {
      var pool := Pool(grid, visited, cell);
      assert North in MoveStrategies && East in MoveStrategies && South in MoveStrategies && West in MoveStrategies;
      var table;
      r, table := LongestPath(grid, false, false, MoveStrategies, cell, pool, |pool| / 2, 4 * |pool|);
    }

    /**
     * The choice `searchStartCell` makes: the longest path from each
     * available start cell in index order, and the first of those with the
     * most nodes, as a stable sort by decreasing length puts first; nothing
     * when there is no candidate. `paths` records the path searched from
     * each candidate. Nothing changes.
     */
    method BestStart() returns (r: Option<Start>, ghost paths: seq<seq<PathNode>>, ghost best: nat)
      ensures |paths| == |StartCandidates(grid.cells, grid)|
      ensures forall j :: 0 <= j < |paths| ==> AppSearched(grid, visited, StartCandidates(grid.cells, grid)[j], paths[j])
      ensures r.None? <==> StartCandidates(grid.cells, grid) == []
      ensures r.Some? ==> best < |paths| && StartCandidates(grid.cells, grid)[best] == r.value.position
      ensures r.Some? ==> paths[best] == r.value.path
      ensures r.Some? ==> forall j :: 0 <= j < best ==> |paths[j]| < |paths[best]|
      ensures r.Some? ==> forall j :: 0 <= j < |paths| ==> |paths[j]| <= |paths[best]|
    {
      var candidates := StartCandidates(grid.cells, grid);
      r := None;
      paths := [];
      best := 0;
      var k := 0;
      while k < |candidates|
        invariant 0 <= k <= |candidates| && |paths| == k
        invariant forall j :: 0 <= j < k ==> AppSearched(grid, visited, candidates[j], paths[j])
        invariant r.None? <==> k == 0
        invariant r.Some? ==> 0 <= best < k && candidates[best] == r.value.position && paths[best] == r.value.path
        invariant r.Some? ==> (forall j :: 0 <= j < best ==> |paths[j]| < |paths[best]|)
        invariant r.Some? ==> (forall j :: 0 <= j < k ==> |paths[j]| <= |paths[best]|)
      {
        var position := candidates[k];
        var found := SearchLongestPath(position);
        AppSearchedAppend(grid, visited, candidates, paths, found);
        paths := paths + [found];
        if r.None? || |found| > |r.value.path| {
          r := Some(Start(position, found));
          best := k;
        }
        k := k + 1;
      }
    }

    /**
     * `searchStartCell`: the chosen start's path becomes the planned path;
     * nothing changes when there is no candidate, where the source throws.
     */
    method SearchStartCell() returns (r: Option<Start>)
      requires Valid()
      modifies this
      ensures Valid()
      ensures r.None? <==> StartCandidates(grid.cells, grid) == []
      ensures r.None? ==> path == old(path)
      ensures r.Some? ==> r.value.position in StartCandidates(grid.cells, grid) && path == Some(r.value.path)
      ensures r.Some? ==> AppSearched(grid, visited, r.value.position, r.value.path)
      ensures visited == old(visited) && turn == old(turn) && sonar == old(sonar)
      ensures cooldown == old(cooldown) && position == old(position)
    {
      ghost var paths, best;
      r, paths, best := BestStart();
      if r.Some? {
        path := Some(r.value.path);
      }
    }

    /**
     * The path `getMoveActions` follows: the planned one when its first
     * node has a move, else a new longest path from the position; `ok` is
     * false, with nothing changed, when there is no position to search from.
     */
    method RefreshPath() returns (ok: bool)
      requires Valid() && path.Some?
      modifies this
      ensures Valid() && path.Some?
      ensures OurSubmarines.HasMove(old(path.value)) ==> ok && path == old(path)
      ensures !OurSubmarines.HasMove(old(path.value)) ==> (ok <==> position.Some?)
      ensures !ok ==> path == old(path)
      ensures ok && !OurSubmarines.HasMove(old(path.value)) && !IsAvailable(position.value) ==> path.value == []
      ensures ok && !OurSubmarines.HasMove(old(path.value)) && IsAvailable(position.value) ==>
        AppSearched(grid, visited, position.value, path.value)
      ensures visited == old(visited) && turn == old(turn) && sonar == old(sonar)
      ensures cooldown == old(cooldown) && position == old(position)
    {
      ok := true;
      if !OurSubmarines.HasMove(path.value) {
        if position.None? {
          return false;
        }
        var found := SearchLongestPath(position.value);
        path := Some(found);
      }
    }

    /**
     * The SILENCE branch: take the first node, then every following node
     * that moves the same way, up to four in all, marking each but the
     * first visited.
     */
    method SilenceStep() returns (c: Command)
      requires Valid() && path.Some? && OurSubmarines.HasMove(path.value)
      modifies this
      ensures Valid()
      ensures var s := AppSilence(old(path.value));
        && c == OurSubmarines.SilenceCommand(s.0, s.1)
        && path == Some(old(path.value)[s.1..])
        && visited == MarkNodes(old(visited), old(path.value)[1..s.1])
      ensures turn == old(turn) && sonar == old(sonar) && cooldown == old(cooldown) && position == old(position)
    {
      var whole := path.value;
      var direction := whole[0].direction.value;
      var length := 1;
      var rest := whole[1..];
      while |rest| > 0 && rest[0].direction == Some(direction) && length < 4
        invariant 1 <= length <= 4 && length <= |whole| && rest == whole[length..]
        invariant OurSubmarines.LeadingRun(whole[1..], direction, 3)
                  == length - 1 + OurSubmarines.LeadingRun(rest, direction, 4 - length)
        invariant visited == MarkNodes(old(visited), whole[1..length])
        invariant path == old(path)
        invariant turn == old(turn) && sonar == old(sonar) && cooldown == old(cooldown) && position == old(position)
        decreases 4 - length
      {
        assert rest[1..] == whole[length + 1..];
        assert whole[1..length + 1][..length - 1] == whole[1..length];
        AddVisitedCell(rest[0].cell);
        rest := rest[1..];
        length := length + 1;
      }
      path := Some(rest);
      c := OurSubmarines.SilenceCommand(direction, length);
    }

    /**
     * `getMoveActions`: along the planned path (searched again from the
     * position when it has no first move), SURFACE and forget the visited
     * cells when no move is left; SILENCE along the leading run while its
     * cooldown is 0, marking the cells it passes; otherwise MOVE one node
     * charging the next power. `planned` is the path the choice was made
     * on; `ok` is false where the source throws: no path yet, or no
     * position to search from.
     */
    method GetMoveActions() returns (ok: bool, actions: seq<Command>, ghost planned: seq<PathNode>)
      requires Valid()
      modifies this
      ensures Valid()
      ensures ok <==> old(path).Some? && (OurSubmarines.HasMove(old(path).value) || position.Some?)
      ensures !ok ==> path == old(path) && visited == old(visited) && actions == []
      ensures ok && OurSubmarines.HasMove(old(path).value) ==> planned == old(path).value
      ensures ok && !OurSubmarines.HasMove(old(path).value) && !IsAvailable(position.value) ==> planned == []
      ensures ok && !OurSubmarines.HasMove(old(path).value) && IsAvailable(position.value) ==>
        AppSearched(grid, old(visited), position.value, planned)
      ensures ok && !OurSubmarines.HasMove(planned) ==>
        actions == [OurSubmarines.SurfaceCommand] && visited == map[] && path == Some(planned)
      ensures ok && OurSubmarines.HasMove(planned) && cooldown.silence == 0 ==>
        var s := AppSilence(planned);
        && actions == [OurSubmarines.SilenceCommand(s.0, s.1)]
        && path == Some(planned[s.1..])
        && visited == MarkNodes(old(visited), planned[1..s.1])
      ensures ok && OurSubmarines.HasMove(planned) && cooldown.silence != 0 ==>
        && actions == [OurSubmarines.MoveCommand(planned[0].direction.value, OceanTracking.GetPower(turn, cooldown))]
        && path == Some(planned[1..])
        && visited == old(visited)
      ensures turn == old(turn) && sonar == old(sonar) && cooldown == old(cooldown) && position == old(position)
    {
      actions := [];
      planned := [];
      if path.None? {
        return false, actions, planned;
      }
      ok := RefreshPath();
      if !ok {
        return;
      }
      var whole := path.value;
      planned := whole;
      if !OurSubmarines.HasMove(whole) {
        ClearVisitedCell();
        actions := [OurSubmarines.SurfaceCommand];
      } else if cooldown.silence == 0 {
        var c := SilenceStep();
        actions := [c];
      } else {
        path := Some(whole[1..]);
        actions := [OurSubmarines.MoveCommand(whole[0].direction.value, OceanTracking.GetPower(turn, cooldown))];
      }
    }

    /** `getActions()`: the move actions; `getOtherActions` only logs and adds none. */
    method GetActions() returns (ok: bool, actions: seq<Command>, ghost planned: seq<PathNode>)
      requires Valid()
      modifies this
      ensures Valid()
      ensures ok <==> old(path).Some? && (OurSubmarines.HasMove(old(path).value) || position.Some?)
      ensures !ok ==> path == old(path) && visited == old(visited) && actions == []
      ensures ok && OurSubmarines.HasMove(old(path).value) ==> planned == old(path).value
      ensures ok && !OurSubmarines.HasMove(old(path).value) && !IsAvailable(position.value) ==> planned == []
      ensures ok && !OurSubmarines.HasMove(old(path).value) && IsAvailable(position.value) ==>
        AppSearched(grid, old(visited), position.value, planned)
      ensures ok && !OurSubmarines.HasMove(planned) ==>
        actions == [OurSubmarines.SurfaceCommand] && visited == map[] && path == Some(planned)
      ensures ok && OurSubmarines.HasMove(planned) && cooldown.silence == 0 ==>
        var s := AppSilence(planned);
        && actions == [OurSubmarines.SilenceCommand(s.0, s.1)]
        && path == Some(planned[s.1..])
        && visited == MarkNodes(old(visited), planned[1..s.1])
      ensures ok && OurSubmarines.HasMove(planned) && cooldown.silence != 0 ==>
        && actions == [OurSubmarines.MoveCommand(planned[0].direction.value, OceanTracking.GetPower(turn, cooldown))]
        && path == Some(planned[1..])
        && visited == old(visited)
      ensures turn == old(turn) && sonar == old(sonar) && cooldown == old(cooldown) && position == old(position)
    {
      var moves;
      ok, moves, planned := GetMoveActions();
      actions := moves + [];
    }
  }
}
