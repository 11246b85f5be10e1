// The earliest `Grid` (src/app/grid.ts) and its copy inlined in
// src/ocean-of-code.ts (lines 60-206): a board of terrain characters read
// row by row, the list of visited cell numbers, and the lookups built on
// the unguarded row-major number. The statics they share with later
// versions (`sumCells`, `multiply`, `areCellsEquals`, `getDistance`,
// `getSurface`, `getSurfacePositionCenter`) are `Add`, `Multiply`, `==`,
// `PathLength`, `SurfaceIndex` and `SurfaceCenter`.
module EarlyGrids {
  import opened Sequences
  import opened Positions
  import opened CellContainers
  import opened Directions
  import opened Cells
  import opened Grids
  import opened Strategies
  import opened Hypotheses
  import opened PathFinders

  /** `CellTypeEnum.SEA`. */
  const SeaChar := '.'

  /** The constructor's arguments: the size and the terrain, one character per cell, row by row. */
  datatype Board = Board(width: int, height: int, terrain: seq<char>)

  function BoardFrame(b: Board): Container {
    Container(b.width, b.height)
  }

  /** `getGridIndex(p)`: y·width + x, with no bounds check. */
  function GridIndex(b: Board, p: Coordinate): int {
    GetIndexAsWritten(BoardFrame(b), p)
  }

  /** `getPosition(i)`: `i % width` and `Math.floor(i / width)`. */
  function PositionOf(b: Board, i: int): Coordinate
    requires b.width > 0
  {
    GetCoordinates(BoardFrame(b), i)
  }

  /** `isValidCellFromIndex(i)`: `i` numbers an entry of the terrain list. */
  predicate IsValidCellFromIndex(b: Board, i: int) {
    0 <= i < |b.terrain|
  }

  /** `grid[i] === SEA`; past the end of the list JavaScript reads `undefined`, which is not sea. */
  predicate SeaAt(b: Board, i: int) {
    IsValidCellFromIndex(b, i) && b.terrain[i] == SeaChar
  }

  /** `isSeaCell(p)`: false off the board, otherwise the terrain at the point's number. */
  predicate IsSeaCell(b: Board, p: Coordinate) {
    AreCoordinatesValid(BoardFrame(b), p) && SeaAt(b, GridIndex(b, p))
  }

  /** On the board, the row-major number and `getPosition` undo each other. */
  lemma {:induction false} GridIndexRoundTrip(b: Board, p: Coordinate, i: int)
    requires b.width > 0
    ensures AreCoordinatesValid(BoardFrame(b), p) ==> PositionOf(b, GridIndex(b, p)) == p
    ensures 0 <= i < b.width * b.height ==>
      AreCoordinatesValid(BoardFrame(b), PositionOf(b, i)) && GridIndex(b, PositionOf(b, i)) == i
  {
    if AreCoordinatesValid(BoardFrame(b), p) {
      AsWrittenAgreesInside(BoardFrame(b), p);
      IndexRoundTrip(BoardFrame(b), p);
    }
    if 0 <= i < b.width * b.height {
      CoordinatesRoundTrip(BoardFrame(b), i);
      AsWrittenAgreesInside(BoardFrame(b), PositionOf(b, i));
    }
  }

  /** `searchStartPosition`: the position of cell number 0. */
  function SearchStartPosition(b: Board): (p: Coordinate)
    requires b.width > 0
    ensures p == Origin
  {
    PositionOf(b, 0)
  }

  /** `runAway(p)`: the distances of the point to the far edges. */
  function RunAway(b: Board, p: Coordinate): Coordinate {
    Coordinate(Abs(p.x - b.width), Abs(p.y - b.height))
  }

  /**
   * For a point of the board (or on its far edges), `runAway` reflects it
   * through the centre of the (width + 1) × (height + 1) square, so doing
   * it twice gives the point back; the origin is sent off the board, to
   * (width, height).
   */
  lemma {:induction false} RunAwayReflects(b: Board, p: Coordinate)
    requires 0 <= p.x <= b.width && 0 <= p.y <= b.height
    ensures RunAway(b, p) == Coordinate(b.width - p.x, b.height - p.y)
    ensures RunAway(b, RunAway(b, p)) == p
    ensures RunAway(b, Origin) == Coordinate(b.width, b.height)
    ensures !AreCoordinatesValid(BoardFrame(b), RunAway(b, Origin))
  {
  }

  // ---- getSeaCells ----

  /** The positions of the cells numbered below `n` that are sea, in number order. */
  function SeaCellsBelow(b: Board, n: nat): seq<Coordinate>
    requires b.width > 0
  {
    if n == 0 then []
    else
      var p := PositionOf(b, n - 1);
      SeaCellsBelow(b, n - 1) + (if IsSeaCell(b, p) then [p] else [])
  }

  /** `getSeaCells()`: the position of every entry of the terrain list, kept when it is a sea cell. */
  function SeaCells(b: Board): seq<Coordinate>
    requires b.width > 0
  {
    SeaCellsBelow(b, |b.terrain|)
  }

  /** Every listed position below `n` is a sea cell whose number is below `n`, and no position repeats. */
  lemma {:induction false} SeaCellsBelowSound(b: Board, n: nat)
    requires b.width > 0
    ensures forall p :: p in SeaCellsBelow(b, n) ==> IsSeaCell(b, p) && GridIndex(b, p) < n
    ensures Distinct(SeaCellsBelow(b, n))
  {
    if n > 0 {
      SeaCellsBelowSound(b, n - 1);
      var p := PositionOf(b, n - 1);
      if IsSeaCell(b, p) {
        GridIndexRoundTrip(b, p, 0);
        assert GridIndex(b, p) == n - 1;
        var s := SeaCellsBelow(b, n - 1);
        assert p !in s;
        assert SeaCellsBelow(b, n) == s + [p];
        forall i, j | 0 <= i < j < |s + [p]| ensures (s + [p])[i] != (s + [p])[j] {
          if j == |s| {
            assert (s + [p])[i] == s[i] && s[i] in s;
          } else {
            assert (s + [p])[i] == s[i] && (s + [p])[j] == s[j];
          }
        }
      }
    }
  }

  /** Every sea cell whose number is below `n` is listed. */
  lemma {:induction false} SeaCellsBelowComplete(b: Board, n: nat, p: Coordinate)
    requires b.width > 0 && IsSeaCell(b, p) && GridIndex(b, p) < n
    ensures p in SeaCellsBelow(b, n)
  {
    GridIndexRoundTrip(b, p, 0);
    if GridIndex(b, p) == n - 1 {
      assert PositionOf(b, n - 1) == p;
    } else {
      SeaCellsBelowComplete(b, n - 1, p);
    }
  }

  /** `getSeaCells` lists exactly the sea cells of the board, each once. */
  lemma {:induction false} SeaCellsExactly(b: Board, p: Coordinate)
    requires b.width > 0
    ensures p in SeaCells(b) <==> IsSeaCell(b, p)
    ensures Distinct(SeaCells(b))
  {
    SeaCellsBelowSound(b, |b.terrain|);
    if IsSeaCell(b, p) {
      SeaCellsBelowComplete(b, |b.terrain|, p);
    }
  }

  // ---- removeDuplicate of src/ocean-of-code.ts ----

  /**
   * De-duplication from the end: keep the last coordinate, drop its copies
   * from the rest, carry on with what is left.
   */
  function LastDedup(s: seq<Coordinate>): (r: seq<Coordinate>)
    ensures |r| <= |s|
    decreases |s|
  {
    if s == [] then []
    else
      var last := s[|s| - 1];
      [last] + LastDedup(Drop(s[..|s| - 1], {last}))
  }

  /**
   * `removeDuplicate`: pop the last remaining coordinate, push it to the
   * result, and filter its copies out of what is left.
   */
  method RemoveDuplicateFromEnd(positions: seq<Coordinate>) returns (result: seq<Coordinate>)
    ensures result == LastDedup(positions)
  {
    result := [];
    var tmp := positions;
    while |tmp| > 0
      invariant result + LastDedup(tmp) == LastDedup(positions)
      decreases |tmp|
    {
      var current := tmp[|tmp| - 1];
      var rest := Drop(tmp[..|tmp| - 1], {current});
      assert LastDedup(tmp) == [current] + LastDedup(rest);
      assert result + LastDedup(tmp) == (result + [current]) + LastDedup(rest);
      result := result + [current];
      tmp := rest;
    }
    assert result + [] == result;
  }

  /** Filtering a reversed list is reversing the filtered list. */
  lemma {:induction false} DropReverse(s: seq<Coordinate>, banned: set<Coordinate>)
    ensures Drop(Reverse(s), banned) == Reverse(Drop(s, banned))
    decreases |s|
  {
    if s != [] {
      var last := s[|s| - 1];
      var init := s[..|s| - 1];
      var ri := Reverse(init);
      var d := Drop(init, banned);
      assert Reverse(s) == [last] + ri;
      DropCons(last, ri, banned);
      DropReverse(init, banned);
      assert s == init + [last];
      DropSnoc(init, last, banned);
      if last in banned {
        assert Drop(s, banned) == d + [];
        assert d + [] == d;
        assert Drop(Reverse(s), banned) == [] + Drop(ri, banned);
        assert [] + Drop(ri, banned) == Drop(ri, banned);
      } else {
        assert Drop(s, banned) == d + [last];
        assert Drop(Reverse(s), banned) == [last] + Reverse(d);
        ReverseSnoc(d, last);
      }
    }
  }

  /** Filtering a list with one more element at the front. */
  lemma {:induction false} DropCons(x: Coordinate, t: seq<Coordinate>, banned: set<Coordinate>)
    ensures Drop([x] + t, banned) == (if x in banned then [] else [x]) + Drop(t, banned)
  {
    assert ([x] + t)[0] == x && ([x] + t)[1..] == t;
  }

  /** Reversing a list with one more element at the end. */
  lemma {:induction false} ReverseSnoc(d: seq<Coordinate>, x: Coordinate)
    ensures Reverse(d + [x]) == [x] + Reverse(d)
  {
    assert (d + [x])[..|d|] == d;
  }

  /** Filtering a list with one more element at the end. */
  lemma {:induction false} DropSnoc(s: seq<Coordinate>, x: Coordinate, banned: set<Coordinate>)
    ensures Drop(s + [x], banned) == Drop(s, banned) + (if x in banned then [] else [x])
    decreases |s|
  {
    if s == [] {
      assert [] + [x] == [x];
      assert [x][1..] == [];
    } else {
      assert (s + [x])[0] == s[0] && (s + [x])[1..] == s[1..] + [x];
      DropSnoc(s[1..], x, banned);
    }
  }

  /**
   * De-duplicating from the end is the first-occurrence de-duplication of
   * the reversed list: each coordinate is kept once, at its last
   * occurrence, and the result lists them from the back.
   */
  lemma {:induction false} LastDedupIsReversedDedup(s: seq<Coordinate>)
    ensures LastDedup(s) == Dedup(Reverse(s))
    decreases |s|
  {
    if s != [] {
      var last := s[|s| - 1];
      var init := s[..|s| - 1];
      var rs := Reverse(s);
      assert rs == [last] + Reverse(init);
      assert rs[0] == last && rs[1..] == Reverse(init);
      DropReverse(init, {last});
      LastDedupIsReversedDedup(Drop(init, {last}));
    }
  }

  /** The coordinates `removeDuplicate` returns are exactly those of its input, each once. */
  lemma {:induction false} LastDedupSpec(s: seq<Coordinate>)
    ensures forall p :: p in LastDedup(s) <==> p in s
    ensures Distinct(LastDedup(s))
  {
    LastDedupIsReversedDedup(s);
    DedupSpec(Reverse(s));
    ReverseElements(s);
  }

  /** Reversing keeps the elements. */
  lemma {:induction false} ReverseElements(s: seq<Coordinate>)
    ensures forall p :: p in Reverse(s) <==> p in s
    decreases |s|
  {
    if s != [] {
      var init := s[..|s| - 1];
      assert Reverse(s) == [s[|s| - 1]] + Reverse(init);
      ReverseElements(init);
      assert s == init + [s[|s| - 1]];
    }
  }

  // ---- searchLongestWay ----

  /** `isAvailableCell(p)` on a visited list: on the board, sea, and its number not visited. */
  predicate AvailableIn(b: Board, visited: seq<int>, p: Coordinate) {
    && AreCoordinatesValid(BoardFrame(b), p)
    && SeaAt(b, GridIndex(b, p))
    && GridIndex(b, p) !in visited
  }

  /**
   * The board read as a table of cells, one per terrain entry, numbered and
   * placed as the later grids number and place them; the search works on it.
   */
  function BoardGrid(b: Board): (g: Grid)
    requires b.width > 0
    ensures |g.cells| == |b.terrain| && Frame(g) == BoardFrame(b)
  {
    var cells := MakeCells(b.width, b.height, b.terrain, |b.terrain|);
    Grid(b.width, b.height, cells, SurfacesOf(cells))
  }

  /** Cell `i` of the board's table: number `i`, at `getPosition(i)`, sea exactly when the terrain says so. */
  lemma {:induction false} BoardCellAt(b: Board, i: int)
    requires b.width > 0 && 0 <= i < |b.terrain|
    ensures BoardGrid(b).cells[i].index == i
    ensures BoardGrid(b).cells[i].coordinate == PositionOf(b, i)
    ensures IsAvailable(BoardGrid(b).cells[i]) <==> SeaAt(b, i)
  {
    MakeCellsAt(b.width, b.height, b.terrain, |b.terrain|, i);
  }

  /**
   * Looking a point up in the board's table finds a cell exactly when the
   * point is on the board and numbers a terrain entry; the cell found sits
   * at the point and carries its number.
   */
  lemma {:induction false} BoardLookup(b: Board, q: Coordinate)
    requires b.width > 0
    ensures CellFromCoordinate(BoardGrid(b), q).Some? <==>
      AreCoordinatesValid(BoardFrame(b), q) && IsValidCellFromIndex(b, GridIndex(b, q))
    ensures CellFromCoordinate(BoardGrid(b), q).Some? ==>
      && CellFromCoordinate(BoardGrid(b), q).value.index == GridIndex(b, q)
      && CellFromCoordinate(BoardGrid(b), q).value.coordinate == q
      && (IsAvailable(CellFromCoordinate(BoardGrid(b), q).value) <==> SeaAt(b, GridIndex(b, q)))
  {
    if AreCoordinatesValid(BoardFrame(b), q) {
      AsWrittenAgreesInside(BoardFrame(b), q);
      IndexRoundTrip(BoardFrame(b), q);
      if IsValidCellFromIndex(b, GridIndex(b, q)) {
        BoardCellAt(b, GridIndex(b, q));
      }
    }
  }

  /** `availablePositions`: the sea cells whose numbers are not visited, the start among them when it is unvisited sea. */
  function AvailablePositions(b: Board, visited: seq<int>): set<Cell>
    requires b.width > 0
  {
    set c | c in AvailableCells(BoardGrid(b)) && c.index !in visited
  }

  /**
   * The cells the search may enter: `availablePositions` less the start
   * `index`. The two are the same set once the start is visited, which the
   * game loop does before every search; from an unvisited start the source
   * could walk back into it, and the model does not.
   */
  function WayPool(b: Board, visited: seq<int>, index: int): set<Cell>
    requires b.width > 0
  {
    set c | c in AvailableCells(BoardGrid(b)) && c.index !in visited && c.index != index
  }

  /** A cell of the table is in the pool exactly when its point is available and it is not the start. */
  lemma {:induction false} WayPoolMember(b: Board, visited: seq<int>, index: int, q: Coordinate)
    requires b.width > 0
    requires CellFromCoordinate(BoardGrid(b), q).Some?
    ensures CellFromCoordinate(BoardGrid(b), q).value in WayPool(b, visited, index) <==>
      AvailableIn(b, visited, q) && GridIndex(b, q) != index
    ensures index in visited ==>
      (CellFromCoordinate(BoardGrid(b), q).value in WayPool(b, visited, index) <==> AvailableIn(b, visited, q))
  {
    BoardLookup(b, q);
    var c := CellFromCoordinate(BoardGrid(b), q).value;
    var g := BoardGrid(b);
    assert c == g.cells[GridIndex(b, q)];
    if AvailableIn(b, visited, q) {
      assert c in AvailableCells(g);
    }
  }

  /**
   * The pool against `availablePositions`: never larger, equal when the start
   * is visited, and short of exactly the start cell when that is unvisited sea.
   */
  lemma {:induction false} WayPoolAgainstAvailablePositions(b: Board, visited: seq<int>, index: int)
    requires b.width > 0 && 0 <= index < |b.terrain|
    ensures WayPool(b, visited, index) <= AvailablePositions(b, visited)
    ensures index in visited ==> WayPool(b, visited, index) == AvailablePositions(b, visited)
    ensures index !in visited && SeaAt(b, index) ==>
      AvailablePositions(b, visited) == WayPool(b, visited, index) + {BoardGrid(b).cells[index]}
  {
    var g := BoardGrid(b);
    BoardCellAt(b, index);
    var start := g.cells[index];
    forall c | c in AvailablePositions(b, visited) && c.index == index
      ensures c == start
    {
      AvailableCellsAreSea(g, c);
      var j :| 0 <= j < |g.cells| && g.cells[j] == c;
      BoardCellAt(b, j);
    }
    if index !in visited && SeaAt(b, index) {
      AvailableCellsAreSea(g, start);
      assert start in AvailablePositions(b, visited);
    }
  }

  /** An available neighbour of the start is a cell of the pool other than the start. */
  lemma {:induction false} NeighbourInPool(b: Board, visited: seq<int>, index: int, d: Direction)
    requires b.width > 0 && 0 <= index < |b.terrain|
    ensures var t := Target(BoardGrid(b), true, PositionOf(b, index), d);
      AvailableIn(b, visited, Add(PositionOf(b, index), Vector(d))) ==>
        t.Some? && t.value in WayPool(b, visited, index) && t.value != BoardGrid(b).cells[index]
  {
    var p := PositionOf(b, index);
    var q := Add(p, Vector(d));
    BoardCellAt(b, index);
    BoardLookup(b, q);
    if AvailableIn(b, visited, q) {
      var c := CellFromCoordinate(BoardGrid(b), q).value;
      assert c.coordinate != BoardGrid(b).cells[index].coordinate;
      WayPoolMember(b, visited, index, q);
    }
  }

  /** `path.length === 0 || !path[0].direction`: the game loop surfaces instead of moving. */
  predicate MustSurface(path: seq<PathNode>) {
    |path| == 0 || path[0].direction.None?
  }

  /**
   * A walk from a sea cell through the pool that cannot be extended at its
   * end has no first move exactly when no neighbour of the start is
   * available: the loop surfaces only when it is boxed in.
   */
  lemma {:induction false} SurfaceIffBoxedIn(b: Board, visited: seq<int>, index: int, r: seq<PathNode>)
    requires b.width > 0 && SeaAt(b, index)
    requires IsWalk(BoardGrid(b), true, BoardGrid(b).cells[index], WayPool(b, visited, index), r)
    requires Stuck(BoardGrid(b), true, WayPool(b, visited, index), CellsOf(r), r[|r| - 1].cell.coordinate)
    ensures MustSurface(r) <==> forall d: Direction :: !AvailableIn(b, visited, Add(PositionOf(b, index), Vector(d)))
  {
    var g := BoardGrid(b);
    var pool := WayPool(b, visited, index);
    var p := PositionOf(b, index);
    BoardCellAt(b, index);
    GridIndexRoundTrip(b, Origin, index);
    if r[0].direction.None? {
      assert |r| == 1;
      assert CellsOf(r) == [g.cells[index]];
      forall d: Direction ensures !AvailableIn(b, visited, Add(p, Vector(d))) {
        assert Blocked(g, true, pool, CellsOf(r), p, d);
        NeighbourInPool(b, visited, index, d);
      }
    } else {
      var d := r[0].direction.value;
      var q := Add(p, Vector(d));
      assert Target(g, true, p, d) == Some(r[1].cell);
      assert r[1].cell in pool;
      BoardLookup(b, q);
      WayPoolMember(b, visited, index, q);
    }
  }

  /** The first move of a walk through the pool goes to an available neighbour of the start. */
  lemma {:induction false} FirstMoveAvailable(b: Board, visited: seq<int>, index: int, r: seq<PathNode>, d: Direction)
    requires b.width > 0 && SeaAt(b, index)
    requires IsWalk(BoardGrid(b), true, BoardGrid(b).cells[index], WayPool(b, visited, index), r)
    requires r[0].direction == Some(d)
    ensures AvailableIn(b, visited, Add(PositionOf(b, index), Vector(d)))
  {
    var q := Add(PositionOf(b, index), Vector(d));
    BoardCellAt(b, index);
    assert Target(BoardGrid(b), true, PositionOf(b, index), d) == Some(r[1].cell);
    assert r[1].cell in WayPool(b, visited, index);
    WayPoolMember(b, visited, index, q);
  }

  // ---- the visited list ----

  /** The earliest grid: the board and the numbers of the cells visited so far, in visiting order. */
  class EarlyGrid {
    const board: Board
    var visitedCells: seq<int>

    constructor(board: Board)
      ensures this.board == board && visitedCells == []
    {
      this.board := board;
      visitedCells := [];
    }

    /** The `currentCell` setter: append the point's row-major number to the visited list. */
    method SetCurrentCell(p: Coordinate)
      modifies this
      ensures visitedCells == old(visitedCells) + [GridIndex(board, p)]
      ensures !IsAvailableCell(GridIndex(board, p)) && !IsAvailableAt(p)
    {
      visitedCells := visitedCells + [GridIndex(board, p)];
    }

    /** `clearVisitedCells`. */
    method ClearVisitedCells()
      modifies this
      ensures visitedCells == []
      ensures forall i :: IsAvailableCell(i) <==> SeaAt(board, i)
    {
      visitedCells := [];
    }

    /**
     * `searchLongestWay(index)`: from sea cell `index`, a walk through the
     * sea cells not visited that cannot be extended at its end, found by
     * the depth-first search trying moves in `MOVE_STRATEGIES` order and
     * stopping once the best walk has 25 nodes; `cap` bounds the rounds
     * beyond the size of the pool.
     */
    method SearchLongestWay(index: int, cap: nat) returns (path: seq<PathNode>)
      requires board.width > 0 && SeaAt(board, index)
      ensures IsWalk(BoardGrid(board), true, BoardGrid(board).cells[index], WayPool(board, visitedCells, index), path)
      ensures Stuck(BoardGrid(board), true, WayPool(board, visitedCells, index), CellsOf(path), path[|path| - 1].cell.coordinate)
    {
      var g := BoardGrid(board);
      BoardCellAt(board, index);
      var start := g.cells[index];
      var pool := WayPool(board, visitedCells, index);
      var table;
      path, table := LongestPath(g, true, false, MoveStrategies, start, pool, 24, |pool| + cap);
    }

    /** `isAvailableCell(index)` of src/app/grid.ts: a number of the list, sea, and not visited. */
    predicate IsAvailableCell(index: int)
      reads this
    {
      IsValidCellFromIndex(board, index) && board.terrain[index] == SeaChar && index !in visitedCells
    }

    /** `isAvailableCell(position)` of src/ocean-of-code.ts: on the board, sea, and its number not visited. */
    predicate IsAvailableAt(p: Coordinate)
      reads this
    {
      AvailableIn(board, visitedCells, p)
    }
  }
}
