// The services `PathFinder`: the cells our submarine has visited, the
// direction table it tries moves in, and the depth-first searches over an
// explicit stack of path nodes (the longest path from a cell, the shortest
// path and the torpedo path to a cell), plus the choice of a start cell.
// The longest-path search is written once, parametrised by how a
// generation looks up a neighbour and orders its moves, because the
// earlier `OurSubmarine` of src/app (module EarlySubmarines) runs the same
// loop with the unguarded lookup and a fixed move order.
module PathFinders {
  import opened Sequences
  import opened Positions
  import opened Directions
  import opened CellContainers
  import opened Cells
  import opened Grids
  import opened Strategies
  import opened Hypotheses

  /** `IPath`: a neighbour cell and the move that reaches it. */
  datatype Step = Step(cell: Cell, direction: Direction)

  /** `IPathNode` as a search returns it: a cell and the move taken from it, none on the last node. */
  datatype PathNode = PathNode(cell: Cell, direction: Option<Direction>)

  /**
   * `IPathNode` on the search stack: also the moves not tried yet, `paths`,
   * undefined until the node is expanded.
   */
  datatype StackNode = StackNode(cell: Cell, paths: Option<seq<Step>>, direction: Option<Direction>)

  // ---- neighbours and direction tables ----

  /** `getMoveStrategies(cell)`: the moves of `table` whose target cell exists, in table order. */
  function Moves(g: Grid, guarded: bool, table: seq<Direction>, from: Coordinate): (r: seq<Step>)
    ensures |r| <= |table|
    ensures forall i :: 0 <= i < |r| ==>
      r[i].direction in table && Target(g, guarded, from, r[i].direction) == Some(r[i].cell)
    decreases |table|
  {
    if table == [] then []
    else
      var t := Target(g, guarded, from, table[0]);
      if t.Some? then [Step(t.value, table[0])] + Moves(g, guarded, table[1..], from)
      else Moves(g, guarded, table[1..], from)
  }

  /** Every move of the table that has a target cell is offered. */
  lemma {:induction false} MovesComplete(g: Grid, guarded: bool, table: seq<Direction>, from: Coordinate, d: Direction)
    requires d in table && Target(g, guarded, from, d).Some?
    ensures Step(Target(g, guarded, from, d).value, d) in Moves(g, guarded, table, from)
    decreases |table|
  {
    if table[0] != d {
      MovesComplete(g, guarded, table[1..], from, d);
    }
  }

  /** `getAvailablePaths`: the moves whose target cell is still available, order kept. */
  function Within(steps: seq<Step>, available: set<Cell>): (r: seq<Step>)
    ensures |r| <= |steps|
    ensures forall i :: 0 <= i < |r| ==> r[i] in steps && r[i].cell in available
    ensures forall q :: q in steps && q.cell in available ==> q in r
    decreases |steps|
  {
    if steps == [] then []
    else if steps[0].cell in available then [steps[0]] + Within(steps[1..], available)
    else Within(steps[1..], available)
  }

  /**
   * No available path means that no move of the table reaches an available
   * cell: each one leaves the grid or lands outside `available`.
   */
  lemma {:induction false} NoPathsStuck(g: Grid, guarded: bool, table: seq<Direction>, from: Coordinate, available: set<Cell>)
    requires Within(Moves(g, guarded, table, from), available) == []
    ensures forall d :: d in table ==>
      Target(g, guarded, from, d).None? || Target(g, guarded, from, d).value !in available
  {
    forall d | d in table && Target(g, guarded, from, d).Some?
      ensures Target(g, guarded, from, d).value !in available
    {
      MovesComplete(g, guarded, table, from, d);
    }
  }

  /** `defineStrategiesOrder(cell)`: the table of the quadrant the cell lies in, halves taken in real division. */
  function StrategiesFor(g: Grid, c: Cell): seq<Direction> {
    var west := 2 * c.coordinate.x < g.width;
    var north := 2 * c.coordinate.y < g.height;
    if west && north then NorthWest
    else if !west && north then NorthEast
    else if west && !north then SouthWest
    else SouthEast
  }

  /**
   * Every quadrant table lists each of the four moves once, and the one a
   * stack pops first runs the board anticlockwise: south in the north-west
   * quadrant, east in the south-west, north in the south-east, west in the
   * north-east.
   */
  lemma {:induction false} QuadrantTables(g: Grid, c: Cell)
    ensures var r := StrategiesFor(g, c);
      && |r| == 4 && Distinct(r) && Covers(r)
      && (2 * c.coordinate.x < g.width && 2 * c.coordinate.y < g.height ==> r[3] == South)
      && (2 * c.coordinate.x < g.width && 2 * c.coordinate.y >= g.height ==> r[3] == East)
      && (2 * c.coordinate.x >= g.width && 2 * c.coordinate.y >= g.height ==> r[3] == North)
      && (2 * c.coordinate.x >= g.width && 2 * c.coordinate.y < g.height ==> r[3] == West)
  {
    var west := 2 * c.coordinate.x < g.width;
    var north := 2 * c.coordinate.y < g.height;
    var r := StrategiesFor(g, c);
    if west && north {
      TableNorthWest();
      FourMoves(r, West, North, East, South);
    } else if !west && north {
      TableNorthEast();
      FourMoves(r, North, East, South, West);
    } else if west && !north {
      TableSouthWest();
      FourMoves(r, South, West, North, East);
    } else {
      TableSouthEast();
      FourMoves(r, East, South, West, North);
    }
  }

  /** Four different directions are all of them. */
  lemma {:induction false} FourMoves(r: seq<Direction>, a: Direction, b: Direction, c: Direction, d: Direction)
    requires r == [a, b, c, d]
    requires a != b && a != c && a != d && b != c && b != d && c != d
    ensures |r| == 4 && Distinct(r) && Covers(r) && r[3] == d
  {
    forall i, j | 0 <= i < j < 4 ensures r[i] != r[j] { }
  }

  /** The table the search expands a node with: the quadrant's when it reorders, the fixed one otherwise. */
  function TableAt(g: Grid, reorder: bool, table: seq<Direction>, c: Cell): seq<Direction> {
    if reorder then StrategiesFor(g, c) else table
  }

  /** `isAvailableStartCell`: a sea cell in a corner of the board, or on its middle. */
  predicate IsAvailableStartCell(g: Grid, c: Cell) {
    && IsAvailable(c)
    && (|| ((c.coordinate.x == 0 || c.coordinate.x == g.width - 1) && (c.coordinate.y == 0 || c.coordinate.y == g.height - 1))
        || c.coordinate == Middle(Frame(g)))
  }

  /** The grid's cells that are available start cells, in index order. */
  function StartCandidates(cells: seq<Cell>, g: Grid): (r: seq<Cell>)
    ensures forall i :: 0 <= i < |r| ==> r[i] in cells && IsAvailableStartCell(g, r[i])
    ensures forall i :: 0 <= i < |cells| && IsAvailableStartCell(g, cells[i]) ==> cells[i] in r
    decreases |cells|
  {
    if cells == [] then []
    else if IsAvailableStartCell(g, cells[0]) then [cells[0]] + StartCandidates(cells[1..], g)
    else StartCandidates(cells[1..], g)
  }

  // ---- what a search returns ----

  /** The cells of a result, in order. */
  function CellsOf(r: seq<PathNode>): (cs: seq<Cell>)
    ensures |cs| == |r| && forall i :: 0 <= i < |r| ==> cs[i] == r[i].cell
  {
    seq(|r|, i requires 0 <= i < |r| => r[i].cell)
  }

  /**
   * A walk from `start`: each node's move reaches the next node's cell, the
   * last node has no move, every later cell is drawn from `pool`, and no
   * cell repeats.
   */
  ghost predicate IsWalk(g: Grid, guarded: bool, start: Cell, pool: set<Cell>, r: seq<PathNode>) {
    && |r| > 0 && r[0].cell == start
    && r[|r| - 1].direction.None?
    && (forall k :: 0 <= k < |r| - 1 ==>
          r[k].direction.Some? && Target(g, guarded, r[k].cell.coordinate, r[k].direction.value) == Some(r[k + 1].cell))
    && (forall k :: 1 <= k < |r| ==> r[k].cell in pool)
    && Distinct(CellsOf(r))
  }

  /** No move from `from` reaches a cell of `pool` that is not in `used`. */
  ghost predicate Stuck(g: Grid, guarded: bool, pool: set<Cell>, used: seq<Cell>, from: Coordinate) {
    forall d: Direction :: Blocked(g, guarded, pool, used, from, d)
  }

  /** The move `d` from `from` leaves the grid, or reaches a cell outside `pool` or already in `used`. */
  predicate Blocked(g: Grid, guarded: bool, pool: set<Cell>, used: seq<Cell>, from: Coordinate, d: Direction) {
    var t := Target(g, guarded, from, d);
    t.None? || t.value !in pool || t.value in used
  }

  /** A walk uses each cell of its pool at most once, so it is at most one longer than the pool. */
  lemma {:induction false} WalkBounded(g: Grid, guarded: bool, start: Cell, pool: set<Cell>, r: seq<PathNode>)
    requires IsWalk(g, guarded, start, pool, r)
    ensures |r| <= |pool| + 1
  {
    var cs := CellsOf(r)[1..];
    assert forall i, j :: 0 <= i < j < |cs| ==> cs[i] == CellsOf(r)[i + 1] && cs[j] == CellsOf(r)[j + 1];
    assert Distinct(cs);
    assert forall y :: y in cs ==> y in pool;
    DistinctBounded(cs, pool);
  }

  /**
   * On a built grid a guarded walk moves one unit per step, so a walk
   * from `a` that ends on `b` has at least `pathLength(a, b) + 1` nodes.
   */
  lemma {:induction false} WalkAtLeastPathLength(g: Grid, start: Cell, pool: set<Cell>, r: seq<PathNode>)
    requires WellFormed(g) && IsWalk(g, true, start, pool, r)
    ensures |r| >= PathLength(start.coordinate, r[|r| - 1].cell.coordinate) + 1
  {
    var last := r[|r| - 1].cell.coordinate;
    var k := |r| - 1;
    while k > 0
      invariant 0 <= k <= |r| - 1
      invariant PathLength(r[k].cell.coordinate, last) <= |r| - 1 - k
      decreases k
    {
      var d := r[k - 1].direction.value;
      CellFromCoordinateFinds(g, Add(r[k - 1].cell.coordinate, Vector(d)));
      StepChangesPathLengthByOne(r[k - 1].cell.coordinate, d, last);
      k := k - 1;
    }
  }

  /** The result a search copies from its stack: each node's cell and move. */
  function Snapshot(stack: seq<StackNode>): (r: seq<PathNode>)
    ensures |r| == |stack|
    ensures forall i :: 0 <= i < |stack| ==> r[i] == PathNode(stack[i].cell, stack[i].direction)
  {
    seq(|stack|, i requires 0 <= i < |stack| => PathNode(stack[i].cell, stack[i].direction))
  }

  // ---- the search stack ----

  /** The cells on the stack above its bottom node. */
  function Taken(stack: seq<StackNode>): set<Cell> {
    set k | 1 <= k < |stack| :: stack[k].cell
  }

  /** `n` has moved on, and its move reaches `c`. */
  predicate Leads(g: Grid, guarded: bool, n: StackNode, c: Cell) {
    n.direction.Some? && Target(g, guarded, n.cell.coordinate, n.direction.value) == Some(c)
  }

  /** The moves node `k` still has reach cells of `initial` that are not on the stack up to `k`. */
  ghost predicate PathsFresh(g: Grid, guarded: bool, initial: set<Cell>, stack: seq<StackNode>, k: int)
    requires 0 <= k < |stack|
  {
    stack[k].paths.Some? ==>
      forall q :: q in stack[k].paths.value ==>
        && Target(g, guarded, stack[k].cell.coordinate, q.direction) == Some(q.cell)
        && q.cell in initial
        && (forall j :: 1 <= j <= k ==> stack[j].cell != q.cell)
  }

  /**
   * The stack while a search runs: a chain of moves from `start` through
   * cells of `initial`, no cell twice, every untried move fresh, and
   * `available` is exactly what the stack has not taken from `initial`.
   */
  ghost predicate OnStack(g: Grid, guarded: bool, start: Cell, initial: set<Cell>, stack: seq<StackNode>, available: set<Cell>) {
    && |stack| > 0 && stack[0].cell == start
    && (forall k :: 0 <= k < |stack| - 1 ==> Leads(g, guarded, stack[k], stack[k + 1].cell))
    && (forall k :: 1 <= k < |stack| ==> stack[k].cell in initial)
    && (forall i, j :: 0 <= i < j < |stack| ==> stack[i].cell != stack[j].cell)
    && available == initial - Taken(stack)
    && (forall k :: 0 <= k < |stack| ==> PathsFresh(g, guarded, initial, stack, k))
  }

  lemma {:induction false} TakenPush(stack: seq<StackNode>, n: StackNode)
    requires |stack| > 0
    ensures Taken(stack + [n]) == Taken(stack) + {n.cell}
  {
    var s := stack + [n];
    assert s[|stack|] == n;
    forall c | c in Taken(s) ensures c in Taken(stack) + {n.cell} {
      var k :| 1 <= k < |s| && s[k].cell == c;
      if k < |stack| { assert stack[k] == s[k]; }
    }
    forall c | c in Taken(stack) ensures c in Taken(s) {
      var k :| 1 <= k < |stack| && stack[k].cell == c;
      assert s[k] == stack[k];
    }
  }

  lemma {:induction false} TakenSameCells(a: seq<StackNode>, b: seq<StackNode>)
    requires |a| == |b| && forall k :: 0 <= k < |a| ==> a[k].cell == b[k].cell
    ensures Taken(a) == Taken(b)
  {
    forall c | c in Taken(a) ensures c in Taken(b) {
      var k :| 1 <= k < |a| && a[k].cell == c;
      assert b[k].cell == c;
    }
    forall c | c in Taken(b) ensures c in Taken(a) {
      var k :| 1 <= k < |b| && b[k].cell == c;
      assert a[k].cell == c;
    }
  }

  /** The search starts with its start node alone on the stack and all of `initial` available. */
  lemma {:induction false} OnStackStart(g: Grid, guarded: bool, start: Cell, initial: set<Cell>)
    ensures OnStack(g, guarded, start, initial, [StackNode(start, None, None)], initial)
  {
    assert Taken([StackNode(start, None, None)]) == {};
  }

  /** Expanding the top node with some of the available moves of a table keeps the stack invariant. */
  lemma {:induction false} ExpandKeeps(g: Grid, guarded: bool, start: Cell, initial: set<Cell>, stack: seq<StackNode>,
                                       available: set<Cell>, table: seq<Direction>, paths: seq<Step>)
    requires OnStack(g, guarded, start, initial, stack, available)
    requires forall q :: q in paths ==> q in Within(Moves(g, guarded, table, stack[|stack| - 1].cell.coordinate), available)
    ensures OnStack(g, guarded, start, initial, stack[..|stack| - 1] + [stack[|stack| - 1].(paths := Some(paths))], available)
  {
    var m := |stack| - 1;
    var top := stack[m];
    var s := stack[..m] + [top.(paths := Some(paths))];
    assert forall k :: 0 <= k < m ==> s[k] == stack[k];
    assert s[m].cell == top.cell;
    TakenSameCells(stack, s);
    forall k | 0 <= k < |s| ensures PathsFresh(g, guarded, initial, s, k) {
      if k < m {
        assert PathsFresh(g, guarded, initial, stack, k);
      } else {
        forall q | q in paths
          ensures Target(g, guarded, s[k].cell.coordinate, q.direction) == Some(q.cell)
          ensures q.cell in initial && forall j :: 1 <= j <= k ==> s[j].cell != q.cell
        {
          var w := Within(Moves(g, guarded, table, top.cell.coordinate), available);
          var i :| 0 <= i < |w| && w[i] == q;
          forall j | 1 <= j <= k ensures s[j].cell != q.cell {
            assert stack[j].cell in Taken(stack);
          }
        }
      }
    }
  }

  /**
   * Taking the last untried move `q` of the top node and pushing its cell
   * keeps the stack invariant, provided the cell is not the start cell.
   */
  lemma {:induction false} PushKeeps(g: Grid, guarded: bool, start: Cell, initial: set<Cell>, stack: seq<StackNode>,
                                     available: set<Cell>)
    requires OnStack(g, guarded, start, initial, stack, available)
    requires var top := stack[|stack| - 1]; top.paths.Some? && |top.paths.value| > 0
    requires var top := stack[|stack| - 1]; top.paths.value[|top.paths.value| - 1].cell != start
    ensures var top := stack[|stack| - 1];
      var ps := top.paths.value;
      var q := ps[|ps| - 1];
      && q.cell in available
      && OnStack(g, guarded, start, initial,
                 stack[..|stack| - 1] + [top.(paths := Some(ps[..|ps| - 1]), direction := Some(q.direction))] + [StackNode(q.cell, None, None)],
                 available - {q.cell})
  {
    var m := |stack| - 1;
    var top := stack[m];
    var ps := top.paths.value;
    var q := ps[|ps| - 1];
    assert PathsFresh(g, guarded, initial, stack, m);
    assert q in ps;
    assert forall k :: 1 <= k < |stack| ==> stack[k].cell != q.cell;
    assert q.cell !in Taken(stack);
    var top' := top.(paths := Some(ps[..|ps| - 1]), direction := Some(q.direction));
    var mid := stack[..m] + [top'];
    var s := mid + [StackNode(q.cell, None, None)];
    assert forall k :: 0 <= k < m ==> s[k] == stack[k];
    assert s[m] == top' && s[m + 1] == StackNode(q.cell, None, None);
    TakenSameCells(stack, mid);
    TakenPush(mid, StackNode(q.cell, None, None));
    forall k | 0 <= k < |s| ensures PathsFresh(g, guarded, initial, s, k) {
      if k < m {
        assert PathsFresh(g, guarded, initial, stack, k);
      } else if k == m {
        forall r | r in ps[..|ps| - 1] ensures r in ps { }
      }
    }
    forall i, j | 0 <= i < j < |s| ensures s[i].cell != s[j].cell {
      if j == m + 1 && i > 0 {
        assert stack[i].cell in Taken(stack);
      }
    }
  }

  /** Popping the top node gives its cell back, and keeps the stack invariant when a node is left. */
  lemma {:induction false} PopKeeps(g: Grid, guarded: bool, start: Cell, initial: set<Cell>, stack: seq<StackNode>,
                                    available: set<Cell>)
    requires OnStack(g, guarded, start, initial, stack, available)
    requires |stack| > 1
    ensures stack[|stack| - 1].cell !in available
    ensures OnStack(g, guarded, start, initial, stack[..|stack| - 1], available + {stack[|stack| - 1].cell})
  {
    var m := |stack| - 1;
    var s := stack[..m];
    assert stack == s + [stack[m]];
    TakenPush(s, stack[m]);
    assert forall k :: 1 <= k < |s| ==> s[k].cell != stack[m].cell;
    assert stack[m].cell !in Taken(s);
    forall k | 0 <= k < |s| ensures PathsFresh(g, guarded, initial, s, k) {
      assert PathsFresh(g, guarded, initial, stack, k);
    }
  }

  /** A copy of a stack whose top node has no move left is a walk from the start. */
  lemma {:induction false} SnapshotIsWalk(g: Grid, guarded: bool, start: Cell, initial: set<Cell>, stack: seq<StackNode>,
                                          available: set<Cell>)
    requires OnStack(g, guarded, start, initial, stack, available)
    requires stack[|stack| - 1].direction.None?
    ensures IsWalk(g, guarded, start, initial, Snapshot(stack))
  {
    var r := Snapshot(stack);
    forall k | 0 <= k < |r| - 1
      ensures r[k].direction.Some? && Target(g, guarded, r[k].cell.coordinate, r[k].direction.value) == Some(r[k + 1].cell)
    {
      assert Leads(g, guarded, stack[k], stack[k + 1].cell);
    }
    assert forall i, j :: 0 <= i < j < |r| ==> CellsOf(r)[i] == stack[i].cell && CellsOf(r)[j] == stack[j].cell;
  }

  /** Every cell the stack has taken is a cell of its copy. */
  lemma {:induction false} TakenInSnapshot(stack: seq<StackNode>)
    ensures forall c :: c in Taken(stack) ==> c in CellsOf(Snapshot(stack))
  {
    forall c | c in Taken(stack) ensures c in CellsOf(Snapshot(stack)) {
      var k :| 1 <= k < |stack| && stack[k].cell == c;
      assert CellsOf(Snapshot(stack))[k] == c;
    }
  }

  // ---- the longest path ----

  /** What the top node of a search stack that has not moved on was offered when it was expanded. */
  ghost predicate TopOffered(g: Grid, guarded: bool, reorder: bool, table0: seq<Direction>, stack: seq<StackNode>, available: set<Cell>)
    requires |stack| > 0
  {
    var top := stack[|stack| - 1];
    top.direction.None? && top.paths.Some? ==>
      top.paths.value == Within(Moves(g, guarded, TableAt(g, reorder, table0, top.cell), top.cell.coordinate), available)
  }

  /**
   * What holds between two rounds of the longest-path search: the stack
   * invariant, the top node's offer, a top node that has moved on has
   * already been copied with a longer stack, and the best copy is a walk
   * from `start` that cannot be extended.
   */
  ghost predicate LongestState(g: Grid, guarded: bool, reorder: bool, table0: seq<Direction>, start: Cell, initial: set<Cell>,
                               stack: seq<StackNode>, available: set<Cell>, r: seq<PathNode>, table: seq<Direction>)
  {
    && (|stack| > 0 ==> OnStack(g, guarded, start, initial, stack, available))
    && (|stack| > 0 ==> TopOffered(g, guarded, reorder, table0, stack, available))
    && (|stack| > 0 && stack[|stack| - 1].direction.Some? ==> |r| >= |stack| + 1)
    && (!reorder ==> table == table0)
    && (Covers(table0) ==> Covers(table))
    && (!reorder ==> Covers(table0))
    && (r != [] ==> IsWalk(g, guarded, start, initial, r))
    && (r != [] ==> Stuck(g, guarded, initial, CellsOf(r), r[|r| - 1].cell.coordinate))
  }

  /**
   * The longest-path search of both generations from `cell`, through the
   * cells of `initial`. A non-sea start gives no path. Otherwise the result
   * is a walk from `cell` that never repeats a cell and ends where no move
   * reaches an unused cell of `initial`: the search copies its stack only
   * when the top node was offered no move at all and the stack is longer
   * than the best copy so far. The search stops once the best copy is
   * longer than `minLength`, after `maxIteration` rounds, or when the
   * stack empties; since a first copy is made within `|initial| + 1`
   * rounds, a sea start always gets a path. With `reorder` each expansion
   * first sets the table to the quadrant's, and the last table set is
   * returned, as the finder keeps it.
   */
  method LongestPath(g: Grid, guarded: bool, reorder: bool, table0: seq<Direction>, cell: Cell, initial: set<Cell>,
                     minLength: int, maxIteration: int) returns (r: seq<PathNode>, table: seq<Direction>)
    requires cell !in initial && (!reorder ==> Covers(table0))
    requires minLength >= 0 && maxIteration >= |initial|
    ensures !IsAvailable(cell) ==> r == [] && table == table0
    ensures IsAvailable(cell) ==> IsWalk(g, guarded, cell, initial, r)
    ensures IsAvailable(cell) ==> Stuck(g, guarded, initial, CellsOf(r), r[|r| - 1].cell.coordinate)
    ensures !reorder ==> table == table0
    ensures Covers(table0) ==> Covers(table)
  {
    r := [];
    table := table0;
    if !IsAvailable(cell) {
      return;
    }
    var stack := [StackNode(cell, None, None)];
    var available := initial;
    OnStackStart(g, guarded, cell, initial);
    var iteration := 0;
    while |stack| > 0 && |r| <= minLength && iteration <= maxIteration
      invariant LongestState(g, guarded, reorder, table0, cell, initial, stack, available, r, table)
      invariant r == [] ==> |stack| > 0 && iteration == |stack| - 1 && |available| + |stack| - 1 == |initial|
      invariant 0 <= iteration <= maxIteration + 1
      decreases maxIteration - iteration
    {
      stack, table := ExpandTop(g, guarded, reorder, table0, cell, initial, stack, available, r, table);
      stack, available, r := PushOrPop(g, guarded, reorder, table0, cell, initial, stack, available, r, table);
      iteration := iteration + 1;
    }
  }

  /**
   * The first half of a round of the longest-path search: a top node with
   * no offer yet is offered the available moves of its table, the
   * quadrant's when the search reorders.
   */
  method ExpandTop(g: Grid, guarded: bool, reorder: bool, table0: seq<Direction>, start: Cell, initial: set<Cell>,
                   stack: seq<StackNode>, available: set<Cell>, r: seq<PathNode>, table: seq<Direction>)
    returns (stack': seq<StackNode>, table': seq<Direction>)
    requires |stack| > 0
    requires LongestState(g, guarded, reorder, table0, start, initial, stack, available, r, table)
    ensures LongestState(g, guarded, reorder, table0, start, initial, stack', available, r, table')
    ensures |stack'| == |stack| && stack'[|stack'| - 1].paths.Some?
  {
    stack', table' := stack, table;
    var top := stack[|stack| - 1];
    if top.paths.None? {
      if reorder {
        table' := StrategiesFor(g, top.cell);
      }
      ExpandState(g, guarded, reorder, table0, start, initial, stack, available, r, table, table');
      stack' := stack[..|stack| - 1] + [top.(paths := Some(Within(Moves(g, guarded, table', top.cell.coordinate), available)))];
    }
  }

  /**
   * The second half of a round: push the top node's last untried move, or,
   * when none is left, copy the stack if it is longer than the best copy
   * and pop it.
   */
  method PushOrPop(g: Grid, guarded: bool, reorder: bool, table0: seq<Direction>, start: Cell, initial: set<Cell>,
                   stack: seq<StackNode>, available: set<Cell>, r: seq<PathNode>, table: seq<Direction>)
    returns (stack': seq<StackNode>, available': set<Cell>, r': seq<PathNode>)
    requires |stack| > 0 && stack[|stack| - 1].paths.Some? && start !in initial
    requires LongestState(g, guarded, reorder, table0, start, initial, stack, available, r, table)
    ensures LongestState(g, guarded, reorder, table0, start, initial, stack', available', r', table)
    ensures r != [] ==> r' != []
    ensures r' == [] && |available| + |stack| - 1 == |initial| ==>
      |stack'| == |stack| + 1 && |available'| + |stack'| - 1 == |initial|
  {
    var top := stack[|stack| - 1];
    var ps := top.paths.value;
    if |ps| > 0 {
      var q := ps[|ps| - 1];
      PushState(g, guarded, reorder, table0, start, initial, stack, available, r, table);
      assert available == (available - {q.cell}) + {q.cell};
      available' := available - {q.cell};
      stack' := stack[..|stack| - 1] + [top.(paths := Some(ps[..|ps| - 1]), direction := Some(q.direction))]
        + [StackNode(q.cell, None, None)];
      r' := r;
    } else {
      r' := if |stack| > |r| then Snapshot(stack) else r;
      PopState(g, guarded, reorder, table0, start, initial, stack, available, r, table, r');
      available' := available + {top.cell};
      stack' := stack[..|stack| - 1];
    }
  }

  /** Expanding the top node with the table the round uses keeps the state of the search. */
  lemma {:induction false} ExpandState(g: Grid, guarded: bool, reorder: bool, table0: seq<Direction>, start: Cell, initial: set<Cell>,
                                       stack: seq<StackNode>, available: set<Cell>, r: seq<PathNode>, table: seq<Direction>,
                                       table': seq<Direction>)
    requires |stack| > 0 && stack[|stack| - 1].paths.None?
    requires LongestState(g, guarded, reorder, table0, start, initial, stack, available, r, table)
    requires table' == if reorder then StrategiesFor(g, stack[|stack| - 1].cell) else table
    ensures var top := stack[|stack| - 1];
      var s := stack[..|stack| - 1] + [top.(paths := Some(Within(Moves(g, guarded, table', top.cell.coordinate), available)))];
      LongestState(g, guarded, reorder, table0, start, initial, s, available, r, table')
  {
    var top := stack[|stack| - 1];
    if reorder {
      QuadrantTables(g, top.cell);
    }
    ExpandKeeps(g, guarded, start, initial, stack, available, table', Within(Moves(g, guarded, table', top.cell.coordinate), available));
    var s := stack[..|stack| - 1] + [top.(paths := Some(Within(Moves(g, guarded, table', top.cell.coordinate), available)))];
    assert s[|s| - 1].cell == top.cell && s[|s| - 1].direction == top.direction;
  }

  /** Pushing the top node's last untried move keeps the state of the search. */
  lemma {:induction false} PushState(g: Grid, guarded: bool, reorder: bool, table0: seq<Direction>, start: Cell, initial: set<Cell>,
                                     stack: seq<StackNode>, available: set<Cell>, r: seq<PathNode>, table: seq<Direction>)
    requires start !in initial
    requires |stack| > 0 && LongestState(g, guarded, reorder, table0, start, initial, stack, available, r, table)
    requires var top := stack[|stack| - 1]; top.paths.Some? && |top.paths.value| > 0
    ensures var top := stack[|stack| - 1];
      var ps := top.paths.value;
      var q := ps[|ps| - 1];
      var s := stack[..|stack| - 1] + [top.(paths := Some(ps[..|ps| - 1]), direction := Some(q.direction))] + [StackNode(q.cell, None, None)];
      q.cell in available && LongestState(g, guarded, reorder, table0, start, initial, s, available - {q.cell}, r, table)
  {
    var top := stack[|stack| - 1];
    var ps := top.paths.value;
    var q := ps[|ps| - 1];
    assert PathsFresh(g, guarded, initial, stack, |stack| - 1);
    assert q in ps;
    PushKeeps(g, guarded, start, initial, stack, available);
  }

  /**
   * Popping a top node that has no untried move left keeps the state of
   * the search, with `copy` as the best copy: the stack itself when it is
   * longer than the best copy so far, otherwise that copy.
   */
  lemma {:induction false} PopState(g: Grid, guarded: bool, reorder: bool, table0: seq<Direction>, start: Cell, initial: set<Cell>,
                                    stack: seq<StackNode>, available: set<Cell>, r: seq<PathNode>, table: seq<Direction>,
                                    copy: seq<PathNode>)
    requires |stack| > 0 && LongestState(g, guarded, reorder, table0, start, initial, stack, available, r, table)
    requires stack[|stack| - 1].paths == Some([])
    requires copy == if |stack| > |r| then Snapshot(stack) else r
    ensures copy != []
    ensures LongestState(g, guarded, reorder, table0, start, initial, stack[..|stack| - 1], available + {stack[|stack| - 1].cell}, copy, table)
  {
    var m := |stack| - 1;
    if |stack| > |r| {
      SnapshotStuck(g, guarded, reorder, table0, start, initial, stack, available);
    }
    if m > 0 {
      PopKeeps(g, guarded, start, initial, stack, available);
      PoppedTopMovedOn(g, guarded, start, initial, stack, available);
    }
  }

  /** Below the top, every stack node has moved on. */
  lemma {:induction false} PoppedTopMovedOn(g: Grid, guarded: bool, start: Cell, initial: set<Cell>, stack: seq<StackNode>, available: set<Cell>)
    requires OnStack(g, guarded, start, initial, stack, available) && |stack| > 1
    ensures stack[..|stack| - 1][|stack| - 2].direction.Some?
  {
    assert Leads(g, guarded, stack[|stack| - 2], stack[|stack| - 1].cell);
  }

  /** A stack whose top node was offered no move copies to a walk that cannot be extended. */
  lemma {:induction false} SnapshotStuck(g: Grid, guarded: bool, reorder: bool, table0: seq<Direction>, start: Cell,
                                         initial: set<Cell>, stack: seq<StackNode>, available: set<Cell>)
    requires OnStack(g, guarded, start, initial, stack, available)
    requires TopOffered(g, guarded, reorder, table0, stack, available)
    requires !reorder ==> Covers(table0)
    requires var top := stack[|stack| - 1]; top.direction.None? && top.paths == Some([])
    ensures IsWalk(g, guarded, start, initial, Snapshot(stack))
    ensures Stuck(g, guarded, initial, CellsOf(Snapshot(stack)), stack[|stack| - 1].cell.coordinate)
  {
    SnapshotIsWalk(g, guarded, start, initial, stack, available);
    var top := stack[|stack| - 1];
    var t := TableAt(g, reorder, table0, top.cell);
    if reorder {
      QuadrantTables(g, top.cell);
    }
    NoPathsStuck(g, guarded, t, top.cell.coordinate, available);
    TakenInSnapshot(stack);
    forall d: Direction ensures Blocked(g, guarded, initial, CellsOf(Snapshot(stack)), top.cell.coordinate, d) {
      InOrder(t, d);
    }
  }

  // ---- the searches towards a cell ----

  /** `paths.filter(p => p.cell.pathLength(endCell) <= pathLength)`. */
  function Nearer(steps: seq<Step>, target: Coordinate, limit: int): (r: seq<Step>)
    ensures |r| <= |steps|
    ensures forall q :: q in r ==> q in steps && PathLength(q.cell.coordinate, target) <= limit
    decreases |steps|
  {
    if steps == [] then []
    else if PathLength(steps[0].cell.coordinate, target) <= limit then [steps[0]] + Nearer(steps[1..], target, limit)
    else Nearer(steps[1..], target, limit)
  }

  /** Node `n` has at most `width` untried moves, none of them further from `target` than `n`. */
  ghost predicate Closer(n: StackNode, target: Coordinate, width: nat) {
    n.paths.Some? ==>
      && |n.paths.value| <= width
      && forall q :: q in n.paths.value ==> PathLength(q.cell.coordinate, target) <= PathLength(n.cell.coordinate, target)
  }

  /**
   * What holds between two rounds of a search towards `end`: the stack
   * invariant; node `k` lies `k` steps closer to `end` than `start`; a node
   * that has moved on is not on `end`; untried moves never lead away; and
   * the best copy is a walk from `start` to `end` of
   * `pathLength(start, end) + 1` nodes.
   */
  ghost predicate TowardsState(g: Grid, start: Cell, end: Cell, initial: set<Cell>, width: nat,
                               stack: seq<StackNode>, available: set<Cell>, r: seq<PathNode>)
  {
    var depth := PathLength(start.coordinate, end.coordinate);
    && (|stack| > 0 ==> OnStack(g, true, start, initial, stack, available))
    && (forall k :: 0 <= k < |stack| ==> PathLength(stack[k].cell.coordinate, end.coordinate) + k == depth)
    && (forall k :: 0 <= k < |stack| && stack[k].direction.Some? ==> PathLength(stack[k].cell.coordinate, end.coordinate) >= 1)
    && (forall k :: 0 <= k < |stack| ==> Closer(stack[k], end.coordinate, width))
    && (r != [] ==> IsWalk(g, true, start, initial, r) && r[|r| - 1].cell == end && |r| == depth + 1)
  }

  /** Untried moves of a node, or one more than a table's width before it is expanded. */
  function Slots(n: StackNode, unexpanded: nat): nat {
    if n.paths.None? then unexpanded else |n.paths.value|
  }

  function Pow(b: nat, e: nat): nat
    decreases e
  {
    if e == 0 then 1 else b * Pow(b, e - 1)
  }

  /**
   * The termination measure of the search towards a cell: node `k` counts
   * its slots plus one in base `unexpanded + 2` at place `depth - k`, so that
   * trying a move outweighs everything pushed above the node.
   */
  function Weight(stack: seq<StackNode>, unexpanded: nat, depth: nat): nat
    decreases |stack|
  {
    if stack == [] then 0
    else
      var k := |stack| - 1;
      Weight(stack[..k], unexpanded, depth) + (Slots(stack[k], unexpanded) + 1) * Pow(unexpanded + 2, if k <= depth then depth - k else 0)
  }

  lemma {:induction false} PowPositive(b: nat, e: nat)
    requires b > 0
    ensures Pow(b, e) > 0
    decreases e
  {
    if e > 0 {
      PowPositive(b, e - 1);
    }
  }

  /** Popping the top node lowers the weight. */
  lemma {:induction false} WeightPop(stack: seq<StackNode>, unexpanded: nat, depth: nat)
    requires |stack| > 0
    ensures Weight(stack[..|stack| - 1], unexpanded, depth) < Weight(stack, unexpanded, depth)
  {
    var k := |stack| - 1;
    PowPositive(unexpanded + 2, if k <= depth then depth - k else 0);
  }

  /**
   * Trying one move of the top node and pushing a fresh node lowers the
   * weight, provided the new node's place is still inside `depth`.
   */
  lemma {:induction false} WeightPush(prefix: seq<StackNode>, top: StackNode, top': StackNode, child: StackNode, unexpanded: nat, depth: nat)
    requires |prefix| + 1 <= depth
    requires Slots(top', unexpanded) < Slots(top, unexpanded) && Slots(child, unexpanded) <= unexpanded
    ensures Weight(prefix + [top'] + [child], unexpanded, depth) < Weight(prefix + [top], unexpanded, depth)
  {
    var m := |prefix|;
    var e := depth - m;
    var b := unexpanded + 2;
    var lower := Pow(b, e - 1);
    PowPositive(b, e - 1);
    assert Pow(b, e) == b * lower;
    var s1 := prefix + [top'] + [child];
    assert s1[..m + 1] == prefix + [top'] && s1[m + 1] == child;
    assert (prefix + [top'])[..m] == prefix && (prefix + [top'])[m] == top';
    assert (prefix + [top])[..m] == prefix && (prefix + [top])[m] == top;
    assert Weight(s1, unexpanded, depth) == Weight(prefix, unexpanded, depth) + (Slots(top', unexpanded) + 1) * (b * lower) + (Slots(child, unexpanded) + 1) * lower;
    assert Weight(prefix + [top], unexpanded, depth) == Weight(prefix, unexpanded, depth) + (Slots(top, unexpanded) + 1) * (b * lower);
    var big := b * lower;
    MulMono(Slots(top', unexpanded) + 1, Slots(top, unexpanded), big);
    MulMono(Slots(child, unexpanded) + 1, b - 1, lower);
    Distribute(Slots(top, unexpanded), big);
    Distribute(b - 1, lower);
  }

  lemma {:induction false} Distribute(a: nat, c: nat)
    ensures (a + 1) * c == a * c + c
  {
  }

  lemma {:induction false} MulMono(a: nat, b: nat, c: nat)
    requires a <= b
    ensures a * c <= b * c
  {
  }

  /**
   * The depth-first search from `start` towards `end` shared by
   * `searchShortestPath` and `searchTorpedoPath`: it only ever tries moves
   * that do not lead away from `end`, copies the stack when its top reaches
   * `end` and the copy is no longer than the best one, and stops when the
   * stack empties or, with a `cap`, after that many rounds. Every move
   * brings it one step closer, so it ends even without a cap, and any
   * result is a walk from `start` to `end` through `initial` with
   * `pathLength(start, end) + 1` nodes, the fewest possible.
   */
  method Towards(g: Grid, table: seq<Direction>, start: Cell, end: Cell, initial: set<Cell>, cap: Option<nat>)
    returns (r: seq<PathNode>)
    requires WellFormed(g)
    ensures r != [] ==> IsWalk(g, true, start, initial, r)
    ensures r != [] ==> r[|r| - 1].cell == end && |r| == PathLength(start.coordinate, end.coordinate) + 1
  {
    r := [];
    var depth := PathLength(start.coordinate, end.coordinate);
    var stack := [StackNode(start, None, None)];
    var available := initial;
    OnStackStart(g, true, start, initial);
    var iteration := 0;
    while |stack| > 0 && (cap.None? || iteration <= cap.value)
      invariant TowardsState(g, start, end, initial, |table|, stack, available, r)
      decreases Weight(stack, |table| + 1, depth)
    {
      stack, available, r := TowardsRound(g, table, start, end, initial, stack, available, r);
      iteration := iteration + 1;
    }
  }

  /**
   * One round of the search towards `end`: on `end`, copy the stack when
   * no copy is shorter and pop; otherwise expand the top node with the
   * available moves that do not lead away (none when it already sits on
   * `end`'s coordinate), then push its last untried move or pop it.
   */
  method TowardsRound(g: Grid, table: seq<Direction>, start: Cell, end: Cell, initial: set<Cell>,
                      stack: seq<StackNode>, available: set<Cell>, r: seq<PathNode>)
    returns (stack': seq<StackNode>, available': set<Cell>, r': seq<PathNode>)
    requires WellFormed(g) && |stack| > 0
    requires TowardsState(g, start, end, initial, |table|, stack, available, r)
    ensures TowardsState(g, start, end, initial, |table|, stack', available', r')
    ensures Weight(stack', |table| + 1, PathLength(start.coordinate, end.coordinate))
      < Weight(stack, |table| + 1, PathLength(start.coordinate, end.coordinate))
  {
    var top := stack[|stack| - 1];
    if top.cell == end {
      r' := if r == [] || |stack| <= |r| then Snapshot(stack) else r;
      TowardsPop(g, start, end, initial, |table|, stack, available, r, r');
      available' := available + {top.cell};
      stack' := stack[..|stack| - 1];
      WeightPop(stack, |table| + 1, PathLength(start.coordinate, end.coordinate));
    } else {
      var expanded := TowardsExpand(g, table, start, end, initial, stack, available, r);
      stack', available', r' := TowardsMove(g, table, start, end, initial, stack, expanded, available, r);
    }
  }

  /** Reaching `end` with the top node: the copy, if made, is a shortest walk to `end`, and popping keeps the state. */
  lemma {:induction false} TowardsPop(g: Grid, start: Cell, end: Cell, initial: set<Cell>, width: nat,
                                      stack: seq<StackNode>, available: set<Cell>, r: seq<PathNode>, r': seq<PathNode>)
    requires |stack| > 0 && stack[|stack| - 1].cell == end
    requires TowardsState(g, start, end, initial, width, stack, available, r)
    requires r' == if r == [] || |stack| <= |r| then Snapshot(stack) else r
    ensures TowardsState(g, start, end, initial, width, stack[..|stack| - 1], available + {end}, r')
  {
    var m := |stack| - 1;
    assert PathLength(stack[m].cell.coordinate, end.coordinate) == 0;
    if r' != r {
      SnapshotIsWalk(g, true, start, initial, stack, available);
    }
    TowardsDrop(g, start, end, initial, width, stack, available, r');
  }

  /** Popping the top node keeps the state of the search towards `end`, whatever the best copy. */
  lemma {:induction false} TowardsDrop(g: Grid, start: Cell, end: Cell, initial: set<Cell>, width: nat,
                                       stack: seq<StackNode>, available: set<Cell>, r: seq<PathNode>)
    requires |stack| > 0
    requires TowardsState(g, start, end, initial, width, stack, available, [])
    requires r != [] ==> IsWalk(g, true, start, initial, r)
    requires r != [] ==> r[|r| - 1].cell == end && |r| == PathLength(start.coordinate, end.coordinate) + 1
    ensures TowardsState(g, start, end, initial, width, stack[..|stack| - 1], available + {stack[|stack| - 1].cell}, r)
  {
    var m := |stack| - 1;
    if m > 0 {
      PopKeeps(g, true, start, initial, stack, available);
    }
    assert forall k :: 0 <= k < m ==> stack[..m][k] == stack[k];
  }

  /**
   * Expanding the top node, when it is not on `end`: a node with no offer
   * yet is offered its available moves that do not lead away from `end`; a
   * node already expanded that sits on `end`'s coordinate is left with
   * none. The rest of the stack is untouched and the top node's slots do
   * not grow.
   */
  method TowardsExpand(g: Grid, table: seq<Direction>, start: Cell, end: Cell, initial: set<Cell>,
                       stack: seq<StackNode>, available: set<Cell>, r: seq<PathNode>)
    returns (expanded: seq<StackNode>)
    requires |stack| > 0
    requires TowardsState(g, start, end, initial, |table|, stack, available, r)
    ensures TowardsState(g, start, end, initial, |table|, expanded, available, r)
    ensures |expanded| == |stack| && expanded[..|stack| - 1] == stack[..|stack| - 1]
    ensures expanded[|stack| - 1].cell == stack[|stack| - 1].cell && expanded[|stack| - 1].paths.Some?
    ensures Slots(expanded[|stack| - 1], |table| + 1) <= Slots(stack[|stack| - 1], |table| + 1)
  {
    var m := |stack| - 1;
    var top := stack[m];
    if top.paths.None? || top.cell.coordinate == end.coordinate {
      var paths := if top.paths.Some? then [] else
        Nearer(Within(Moves(g, true, table, top.cell.coordinate), available), end.coordinate,
               PathLength(top.cell.coordinate, end.coordinate));
      TowardsOffer(g, table, start, end, initial, stack, available, r, paths);
      expanded := stack[..m] + [top.(paths := Some(paths))];
    } else {
      expanded := stack;
    }
  }

  /**
   * Offering the top node some of its available moves, none leading away
   * from `end`, keeps the state of the search towards `end`; an unexpanded
   * node's slots shrink, an expanded one left with no move has none.
   */
  lemma {:induction false} TowardsOffer(g: Grid, table: seq<Direction>, start: Cell, end: Cell, initial: set<Cell>,
                                        stack: seq<StackNode>, available: set<Cell>, r: seq<PathNode>, paths: seq<Step>)
    requires |stack| > 0
    requires TowardsState(g, start, end, initial, |table|, stack, available, r)
    requires var top := stack[|stack| - 1];
      if top.paths.Some? then paths == []
      else paths == Nearer(Within(Moves(g, true, table, top.cell.coordinate), available), end.coordinate,
                           PathLength(top.cell.coordinate, end.coordinate))
    ensures var top := stack[|stack| - 1];
      var s := stack[..|stack| - 1] + [top.(paths := Some(paths))];
      && TowardsState(g, start, end, initial, |table|, s, available, r)
      && |s| == |stack| && s[..|stack| - 1] == stack[..|stack| - 1]
      && s[|stack| - 1].cell == top.cell && s[|stack| - 1].paths.Some?
      && Slots(s[|stack| - 1], |table| + 1) <= Slots(top, |table| + 1)
  {
    var m := |stack| - 1;
    var top := stack[m];
    ExpandKeeps(g, true, start, initial, stack, available, table, paths);
    var s := stack[..m] + [top.(paths := Some(paths))];
    assert forall k :: 0 <= k < m ==> s[k] == stack[k];
    assert s[..m] == stack[..m];
    assert s[m] == top.(paths := Some(paths));
    assert Closer(s[m], end.coordinate, |table|);
  }

  /**
   * After the expansion, push the top node's last untried move, which is
   * one step closer to `end`, or pop the node when none is left; either way
   * the weight drops below that of the stack the round started with.
   */
  method TowardsMove(g: Grid, table: seq<Direction>, start: Cell, end: Cell, initial: set<Cell>,
                     stack: seq<StackNode>, expanded: seq<StackNode>, available: set<Cell>, r: seq<PathNode>)
    returns (stack': seq<StackNode>, available': set<Cell>, r': seq<PathNode>)
    requires WellFormed(g) && |stack| > 0
    requires TowardsState(g, start, end, initial, |table|, expanded, available, r)
    requires |expanded| == |stack| && expanded[..|stack| - 1] == stack[..|stack| - 1]
    requires expanded[|stack| - 1].paths.Some?
    requires Slots(expanded[|stack| - 1], |table| + 1) <= Slots(stack[|stack| - 1], |table| + 1)
    ensures TowardsState(g, start, end, initial, |table|, stack', available', r')
    ensures Weight(stack', |table| + 1, PathLength(start.coordinate, end.coordinate))
      < Weight(stack, |table| + 1, PathLength(start.coordinate, end.coordinate))
  {
    var m := |stack| - 1;
    var top := expanded[m];
    var ps := top.paths.value;
    r' := r;
    if |ps| > 0 {
      var q := ps[|ps| - 1];
      TowardsPushMove(g, table, start, end, initial, stack, expanded, available, r);
      available' := available - {q.cell};
      stack' := expanded[..m] + [top.(paths := Some(ps[..|ps| - 1]), direction := Some(q.direction))]
        + [StackNode(q.cell, None, None)];
    } else {
      TowardsPopMove(g, table, start, end, initial, stack, expanded, available, r);
      available' := available + {top.cell};
      stack' := expanded[..m];
    }
  }

  /** Pushing the top node's last untried move keeps the state and lowers the weight. */
  lemma {:induction false} TowardsPushMove(g: Grid, table: seq<Direction>, start: Cell, end: Cell, initial: set<Cell>,
                                           stack: seq<StackNode>, expanded: seq<StackNode>, available: set<Cell>, r: seq<PathNode>)
    requires WellFormed(g) && |stack| > 0
    requires TowardsState(g, start, end, initial, |table|, expanded, available, r)
    requires |expanded| == |stack| && expanded[..|stack| - 1] == stack[..|stack| - 1]
    requires expanded[|stack| - 1].paths.Some? && |expanded[|stack| - 1].paths.value| > 0
    requires Slots(expanded[|stack| - 1], |table| + 1) <= Slots(stack[|stack| - 1], |table| + 1)
    ensures var top := expanded[|stack| - 1];
      var ps := top.paths.value;
      var q := ps[|ps| - 1];
      var s := expanded[..|stack| - 1] + [top.(paths := Some(ps[..|ps| - 1]), direction := Some(q.direction))]
        + [StackNode(q.cell, None, None)];
      && TowardsState(g, start, end, initial, |table|, s, available - {q.cell}, r)
      && Weight(s, |table| + 1, PathLength(start.coordinate, end.coordinate))
         < Weight(stack, |table| + 1, PathLength(start.coordinate, end.coordinate))
  {
    var depth := PathLength(start.coordinate, end.coordinate);
    var m := |stack| - 1;
    var top := expanded[m];
    var ps := top.paths.value;
    var q := ps[|ps| - 1];
    TowardsPushState(g, start, end, initial, |table|, expanded, available, r);
    var top' := top.(paths := Some(ps[..|ps| - 1]), direction := Some(q.direction));
    var child := StackNode(q.cell, None, None);
    assert stack[..m] + [stack[m]] == stack;
    WeightPush(stack[..m], stack[m], top', child, |table| + 1, depth);
  }

  /** Popping a top node with no untried move left keeps the state and lowers the weight. */
  lemma {:induction false} TowardsPopMove(g: Grid, table: seq<Direction>, start: Cell, end: Cell, initial: set<Cell>,
                                          stack: seq<StackNode>, expanded: seq<StackNode>, available: set<Cell>, r: seq<PathNode>)
    requires |stack| > 0
    requires TowardsState(g, start, end, initial, |table|, expanded, available, r)
    requires |expanded| == |stack| && expanded[..|stack| - 1] == stack[..|stack| - 1]
    ensures TowardsState(g, start, end, initial, |table|, expanded[..|stack| - 1], available + {expanded[|stack| - 1].cell}, r)
    ensures Weight(expanded[..|stack| - 1], |table| + 1, PathLength(start.coordinate, end.coordinate))
      < Weight(stack, |table| + 1, PathLength(start.coordinate, end.coordinate))
  {
    assert TowardsState(g, start, end, initial, |table|, expanded, available, []);
    TowardsDrop(g, start, end, initial, |table|, expanded, available, r);
    WeightPop(stack, |table| + 1, PathLength(start.coordinate, end.coordinate));
  }

  /** The last untried move of the top node is one step closer to `end`, so it is not the start. */
  lemma {:induction false} CloserStep(g: Grid, start: Cell, end: Cell, initial: set<Cell>, width: nat,
                                      stack: seq<StackNode>, available: set<Cell>, r: seq<PathNode>)
    requires WellFormed(g) && |stack| > 0
    requires TowardsState(g, start, end, initial, width, stack, available, r)
    requires var top := stack[|stack| - 1]; top.paths.Some? && |top.paths.value| > 0
    ensures var top := stack[|stack| - 1];
      var q := top.paths.value[|top.paths.value| - 1];
      && PathLength(q.cell.coordinate, end.coordinate) + 1 == PathLength(top.cell.coordinate, end.coordinate)
      && q.cell != start
      && |stack| <= PathLength(start.coordinate, end.coordinate)
  {
    var m := |stack| - 1;
    var top := stack[m];
    var q := top.paths.value[|top.paths.value| - 1];
    assert q in top.paths.value;
    assert PathsFresh(g, true, initial, stack, m);
    assert Closer(stack[m], end.coordinate, width);
    CellFromCoordinateFinds(g, Add(top.cell.coordinate, Vector(q.direction)));
    StepChangesPathLengthByOne(top.cell.coordinate, q.direction, end.coordinate);
    assert PathLength(stack[0].cell.coordinate, end.coordinate) + 0 == PathLength(start.coordinate, end.coordinate);
  }

  /** Pushing the top node's last untried move keeps the state of the search towards `end`. */
  lemma {:induction false} TowardsPushState(g: Grid, start: Cell, end: Cell, initial: set<Cell>, width: nat,
                                            stack: seq<StackNode>, available: set<Cell>, r: seq<PathNode>)
    requires WellFormed(g) && |stack| > 0
    requires TowardsState(g, start, end, initial, width, stack, available, r)
    requires var top := stack[|stack| - 1]; top.paths.Some? && |top.paths.value| > 0
    ensures var top := stack[|stack| - 1];
      var ps := top.paths.value;
      var q := ps[|ps| - 1];
      var s := stack[..|stack| - 1] + [top.(paths := Some(ps[..|ps| - 1]), direction := Some(q.direction))] + [StackNode(q.cell, None, None)];
      && TowardsState(g, start, end, initial, width, s, available - {q.cell}, r)
      && |stack| <= PathLength(start.coordinate, end.coordinate)
  {
    var m := |stack| - 1;
    var top := stack[m];
    var ps := top.paths.value;
    var q := ps[|ps| - 1];
    CloserStep(g, start, end, initial, width, stack, available, r);
    PushKeeps(g, true, start, initial, stack, available);
    var top' := top.(paths := Some(ps[..|ps| - 1]), direction := Some(q.direction));
    var s := stack[..m] + [top'] + [StackNode(q.cell, None, None)];
    assert forall k :: 0 <= k < m ==> s[k] == stack[k];
    assert s[m] == top' && s[m + 1] == StackNode(q.cell, None, None);
    assert Closer(stack[m], end.coordinate, width);
    forall x | x in ps[..|ps| - 1] ensures x in ps { }
    assert Closer(top', end.coordinate, width);
  }

  // ---- the finder ----

  /** `searchStartCell`'s result: a start cell and the longest path found from it. */
  datatype Start = Start(position: Cell, path: seq<PathNode>)

  /** The sea cells a search from `cell` may use: not visited, and not `cell` itself. */
  function Unvisited(g: Grid, visited: set<Cell>, cell: Cell): set<Cell> {
    set c | c in AvailableCells(g) && c !in visited && c != cell
  }

  /** `r` is a walk from `cell` through the sea cells not yet visited that cannot be extended. */
  ghost predicate Searched(g: Grid, visited: set<Cell>, cell: Cell, r: seq<PathNode>) {
    && IsWalk(g, true, cell, Unvisited(g, visited, cell), r)
    && Stuck(g, true, Unvisited(g, visited, cell), CellsOf(r), r[|r| - 1].cell.coordinate)
  }

  /** Appending a path searched from the next candidate keeps every recorded path searched from its own candidate. */
  lemma SearchedAppend(g: Grid, visited: set<Cell>, cs: seq<Cell>, paths: seq<seq<PathNode>>, p: seq<PathNode>)
    requires |paths| < |cs| && Searched(g, visited, cs[|paths|], p)
    requires forall j :: 0 <= j < |paths| ==> Searched(g, visited, cs[j], paths[j])
    ensures forall j :: 0 <= j <= |paths| ==> Searched(g, visited, cs[j], (paths + [p])[j])
  {
  }

  /** The sea cells, as the set `getAvailableCells()` fills. */
  function SeaSet(g: Grid): set<Cell> {
    set c | c in AvailableCells(g)
  }

  /** `Math.floor(n - n / 10)`: the longest-path search stops once a path is longer than this. */
  function SettleLength(n: nat): (m: nat)
    ensures 10 * m <= 9 * n < 10 * m + 10
  {
    (9 * n) / 10
  }

  /** On a built grid `getMoveStrategies(cell)` offers exactly the moves of the table that stay on the board. */
  lemma {:induction false} MovesStayOnBoard(g: Grid, table: seq<Direction>, from: Coordinate)
    requires WellFormed(g)
    ensures forall q :: q in Moves(g, true, table, from) ==> q.cell.coordinate == Add(from, Vector(q.direction))
    ensures |g.cells| == g.width * g.height ==>
      forall d :: d in table && AreCoordinatesValid(Frame(g), Add(from, Vector(d))) ==>
        exists q :: q in Moves(g, true, table, from) && q.direction == d
  {
    var r := Moves(g, true, table, from);
    forall q | q in r ensures q.cell.coordinate == Add(from, Vector(q.direction)) {
      CellFromCoordinateFinds(g, Add(from, Vector(q.direction)));
    }
    if |g.cells| == g.width * g.height {
      forall d | d in table && AreCoordinatesValid(Frame(g), Add(from, Vector(d)))
        ensures exists q :: q in r && q.direction == d
      {
        CellFromCoordinateFinds(g, Add(from, Vector(d)));
        MovesComplete(g, true, table, from, d);
        assert Step(Target(g, true, from, d).value, d) in r;
      }
    }
  }

  /**
   * `PathFinder`: the grid, the direction table it tries moves in (the
   * north-east table at first) and the set of cells our submarine has
   * visited.
   */
  class PathFinder {
    const grid: Grid
    var strategies: seq<Direction>
    var visited: set<Cell>

    constructor(grid: Grid)
      ensures this.grid == grid && strategies == NorthEast && visited == {}
    {
      this.grid := grid;
      strategies := NorthEast;
      visited := {};
    }

    /** `addVisitedCell`. */
    method AddVisitedCell(c: Cell)
      modifies this
      ensures visited == old(visited) + {c} && strategies == old(strategies)
    {
      visited := visited + {c};
    }

    /** `clearVisitedCell`. */
    method ClearVisitedCell()
      modifies this
      ensures visited == {} && strategies == old(strategies)
    {
      visited := {};
    }

    /** `isVisitedCell`. */
    predicate IsVisitedCell(c: Cell)
      reads this
    {
      c in visited
    }

    /** `defineStrategiesOrder`. */
    method DefineStrategiesOrder(c: Cell)
      modifies this
      ensures strategies == StrategiesFor(grid, c) && visited == old(visited)
    {
      strategies := StrategiesFor(grid, c);
    }

    /** `getMoveStrategies`. */
    function GetMoveStrategies(c: Cell): seq<Step>
      reads this
    {
      Moves(grid, true, strategies, c.coordinate)
    }

    /**
     * `searchShortestPath`: nothing unless both ends are sea and the end has
     * not been visited; otherwise a walk through unvisited sea cells from
     * `start` to `end` that takes the fewest possible moves, or nothing when
     * the search gives up after four rounds per usable cell.
     */
    method SearchShortestPath(start: Cell, end: Cell) returns (r: seq<PathNode>)
      requires WellFormed(grid)
      ensures !(IsAvailable(start) && end !in visited && IsAvailable(end)) ==> r == []
      ensures r != [] ==> IsWalk(grid, true, start, Unvisited(grid, visited, start), r)
      ensures r != [] ==> r[|r| - 1].cell == end && |r| == PathLength(start.coordinate, end.coordinate) + 1
    {
      r := [];
      if IsAvailable(start) && end !in visited && IsAvailable(end) {
        var initial := Unvisited(grid, visited, start);
        r := Towards(grid, strategies, start, end, initial, Some(4 * |initial|));
      }
    }

    /**
     * `searchTorpedoPath`: the same search through every sea cell, visited
     * or not, with no guard on the ends and no round limit.
     */
    method SearchTorpedoPath(start: Cell, end: Cell) returns (r: seq<PathNode>)
      requires WellFormed(grid)
      ensures r != [] ==> IsWalk(grid, true, start, SeaSet(grid), r)
      ensures r != [] ==> r[|r| - 1].cell == end && |r| == PathLength(start.coordinate, end.coordinate) + 1
    {
      r := Towards(grid, strategies, start, end, SeaSet(grid), None);
    }

    /**
     * `searchLongestPath`: nothing from a non-sea cell; otherwise a walk
     * through unvisited sea cells that cannot be extended, found by the
     * search that reorders its moves by quadrant and settles for a path
     * longer than nine tenths of the usable cells or after 32 rounds per
     * usable cell.
     */
    method SearchLongestPath(cell: Cell) returns (r: seq<PathNode>)
      modifies this
      ensures visited == old(visited)
      ensures !IsAvailable(cell) ==> r == [] && strategies == old(strategies)
      ensures IsAvailable(cell) ==> IsWalk(grid, true, cell, Unvisited(grid, visited, cell), r)
      ensures IsAvailable(cell) ==> Stuck(grid, true, Unvisited(grid, visited, cell), CellsOf(r), r[|r| - 1].cell.coordinate)
    {
      var initial := Unvisited(grid, visited, cell);
      r, strategies := LongestPath(grid, true, true, strategies, cell, initial, SettleLength(|initial|), 32 * |initial|);
    }

    /**
     * `searchStartCell`: the longest path from each available start cell in
     * index order, and the first of those with the most nodes, as a stable
     * sort by decreasing length puts first; nothing when there is no
     * available start cell. `paths` records the path searched from each
     * candidate: a walk through the unvisited sea cells that cannot be
     * extended.
     */
    method SearchStartCell() returns (r: Option<Start>, ghost paths: seq<seq<PathNode>>, ghost best: nat)
      modifies this
      ensures visited == old(visited)
      ensures |paths| == |StartCandidates(grid.cells, grid)|
      ensures forall j :: 0 <= j < |paths| ==> Searched(grid, visited, StartCandidates(grid.cells, grid)[j], paths[j])
      ensures r.None? <==> StartCandidates(grid.cells, grid) == []
      ensures r.Some? ==> best < |paths| && StartCandidates(grid.cells, grid)[best] == r.value.position && paths[best] == r.value.path
      ensures r.Some? ==> forall j :: 0 <= j < best ==> |paths[j]| < |paths[best]|
      ensures r.Some? ==> forall j :: 0 <= j < |paths| ==> |paths[j]| <= |paths[best]|
    {
      var candidates := StartCandidates(grid.cells, grid);
      r := None;
      paths := [];
      best := 0;
      var k := 0;
      while k < |candidates|
        invariant 0 <= k <= |candidates| && |paths| == k && visited == old(visited)
        invariant forall j :: 0 <= j < k ==> Searched(grid, visited, candidates[j], paths[j])
        invariant r.None? <==> k == 0
        invariant r.Some? ==> 0 <= best < k && candidates[best] == r.value.position && paths[best] == r.value.path
        invariant r.Some? ==> (forall j :: 0 <= j < best ==> |paths[j]| < |paths[best]|)
        invariant r.Some? ==> (forall j :: 0 <= j < k ==> |paths[j]| <= |paths[best]|)
      {
        var position := candidates[k];
        var path := SearchLongestPath(position);
        assert Searched(grid, visited, position, path);
        SearchedAppend(grid, visited, candidates, paths, path);
        paths := paths + [path];
        if r.None? || |path| > |r.value.path| {
          r := Some(Start(position, path));
          best := k;
        }
        k := k + 1;
      }
    }
  }
}
