// The services `Grid`: the table of cells built from the terrain, the
// region buckets, the guarded cell lookups and the area queries the
// trackers rely on.
module Grids {
  import opened Sequences
  import opened Positions
  import opened CellContainers
  import opened Cells
  import opened Surfaces

  /**
   * A built grid: its size, its cells in index order, and `surfaces`, the
   * region buckets by region number − 1, `None` where the sparse array the
   * constructor fills has a hole.
   */
  datatype Grid = Grid(width: int, height: int, cells: seq<Cell>, surfaces: seq<Option<Surface>>)

  function Frame(g: Grid): Container {
    Container(g.width, g.height)
  }

  /** The cell the constructor makes for entry `index` of the terrain. */
  function MakeCell(width: int, height: int, terrain: seq<char>, index: nat): (c: Cell)
    requires width > 0 && index < |terrain|
    ensures c.index == index && c.surface >= 1
  {
    var p := GetCoordinates(Container(width, height), index);
    CoordinatesNonNegative(Container(width, height), index);
    SurfaceIndexPositive(p);
    Cell(p, index, ParseCellType(terrain[index]), SurfaceIndex(p))
  }

  /** The cells whose region is `s`, in index order. */
  function CellsOfSurface(cells: seq<Cell>, s: int): seq<Cell>
    decreases |cells|
  {
    if cells == [] then []
    else CellsOfSurface(cells[..|cells| - 1], s) + (if cells[|cells| - 1].surface == s then [cells[|cells| - 1]] else [])
  }

  /** A bucket holds exactly the cells of its region. */
  lemma {:induction false} CellsOfSurfaceMember(cells: seq<Cell>, s: int, c: Cell)
    ensures c in CellsOfSurface(cells, s) <==> c in cells && c.surface == s
    decreases |cells|
  {
    if cells != [] {
      var init := cells[..|cells| - 1];
      assert cells == init + [cells[|cells| - 1]];
      CellsOfSurfaceMember(init, s, c);
    }
  }

  /** The largest region number among the cells, 0 for no cells. */
  function MaxSurface(cells: seq<Cell>): (m: int)
    ensures m >= 0
    ensures forall i :: 0 <= i < |cells| ==> cells[i].surface <= m
    decreases |cells|
  {
    if cells == [] then 0
    else
      var init := cells[..|cells| - 1];
      assert forall i :: 0 <= i < |init| ==> init[i] == cells[i];
      Max(MaxSurface(init), cells[|cells| - 1].surface)
  }

  /** The bucket list the constructor produces from its cells. */
  function SurfacesOf(cells: seq<Cell>): seq<Option<Surface>> {
    seq(MaxSurface(cells), k =>
      if CellsOfSurface(cells, k + 1) == [] then None else Some(NewSurface(k + 1, CellsOfSurface(cells, k + 1))))
  }

  /**
   * A grid as the constructor leaves it: entry `i` of `cells` has index `i`,
   * the coordinate `getCoordinates(i)` and the region of that coordinate,
   * and `surfaces` holds the buckets of those cells.
   */
  ghost predicate WellFormed(g: Grid) {
    && g.width > 0
    && (forall i :: 0 <= i < |g.cells| ==>
          && g.cells[i].index == i
          && g.cells[i].coordinate == GetCoordinates(Frame(g), i)
          && g.cells[i].surface == SurfaceIndex(g.cells[i].coordinate))
    && g.surfaces == SurfacesOf(g.cells)
  }

  /**
   * The constructor: one cell per terrain entry, each pushed into the bucket
   * of its region, then one Surface per bucket.
   */
  method Build(width: int, height: int, terrain: seq<char>) returns (g: Grid)
    requires width > 0
    ensures g.width == width && g.height == height && |g.cells| == |terrain|
    ensures g.cells == MakeCells(width, height, terrain, |terrain|)
    ensures WellFormed(g)
  {
    var cells: seq<Cell> := [];
    var buckets: seq<seq<Cell>> := [];
    var i := 0;
    while i < |terrain|
      invariant 0 <= i <= |terrain| && |cells| == i
      invariant cells == MakeCells(width, height, terrain, i)
      invariant Bucketed(cells, buckets)
    {
      var c := MakeCell(width, height, terrain, i);
      BucketsGrow(cells, c, buckets);
      buckets := PushCell(buckets, c);
      cells := cells + [c];
      i := i + 1;
    }
    g := Grid(width, height, cells, SurfacesOfBuckets(buckets));
    BuiltWellFormed(width, height, terrain, cells, buckets);
  }

  /** The first `n` cells the constructor makes, in index order. */
  function MakeCells(width: int, height: int, terrain: seq<char>, n: nat): (r: seq<Cell>)
    requires width > 0 && n <= |terrain|
    ensures |r| == n
  {
    if n == 0 then [] else MakeCells(width, height, terrain, n - 1) + [MakeCell(width, height, terrain, n - 1)]
  }

  /** Entry `j` of the made cells is the cell made for terrain entry `j`. */
  lemma {:induction false} MakeCellsAt(width: int, height: int, terrain: seq<char>, n: nat, j: nat)
    requires width > 0 && j < n <= |terrain|
    ensures MakeCells(width, height, terrain, n)[j] == MakeCell(width, height, terrain, j)
  {
    if j < n - 1 {
      MakeCellsAt(width, height, terrain, n - 1, j);
    }
  }

  /** Bucket k holds the cells of region k + 1, one bucket per region up to the largest. */
  ghost predicate Bucketed(cells: seq<Cell>, buckets: seq<seq<Cell>>) {
    && |buckets| == MaxSurface(cells)
    && forall k :: 0 <= k < |buckets| ==> buckets[k] == CellsOfSurface(cells, k + 1)
  }

  /** `surfaces[c.surface - 1].push(c)`, growing the sparse array with empty buckets first. */
  function PushCell(buckets: seq<seq<Cell>>, c: Cell): (r: seq<seq<Cell>>)
    requires c.surface >= 1
    ensures |r| == Max(|buckets|, c.surface)
    ensures forall k :: 0 <= k < |r| && k != c.surface - 1 ==> r[k] == if k < |buckets| then buckets[k] else []
    ensures r[c.surface - 1] == (if c.surface - 1 < |buckets| then buckets[c.surface - 1] else []) + [c]
  {
    var grown := if |buckets| < c.surface then buckets + seq(c.surface - |buckets|, _ => []) else buckets;
    grown[c.surface - 1 := grown[c.surface - 1] + [c]]
  }

  /** One Surface per non-empty bucket, a hole for an empty one. */
  function SurfacesOfBuckets(buckets: seq<seq<Cell>>): seq<Option<Surface>> {
    seq(|buckets|, k requires 0 <= k < |buckets| =>
      if buckets[k] == [] then None else Some(NewSurface(k + 1, buckets[k])))
  }

  lemma {:induction false} BuiltWellFormed(width: int, height: int, terrain: seq<char>, cells: seq<Cell>, buckets: seq<seq<Cell>>)
    requires width > 0 && cells == MakeCells(width, height, terrain, |terrain|)
    requires Bucketed(cells, buckets)
    ensures WellFormed(Grid(width, height, cells, SurfacesOfBuckets(buckets)))
  {
    BucketsAreSurfaces(cells, buckets);
    forall i | 0 <= i < |cells|
      ensures && cells[i].index == i
              && cells[i].coordinate == GetCoordinates(Container(width, height), i)
              && cells[i].surface == SurfaceIndex(cells[i].coordinate)
    {
      MakeCellsAt(width, height, terrain, |terrain|, i);
    }
  }

  lemma {:induction false} BucketsAreSurfaces(cells: seq<Cell>, buckets: seq<seq<Cell>>)
    requires Bucketed(cells, buckets)
    ensures SurfacesOfBuckets(buckets) == SurfacesOf(cells)
  {
  }

  /** One push into the buckets keeps every bucket equal to its filter. */
  lemma {:induction false} BucketsGrow(cells: seq<Cell>, c: Cell, before: seq<seq<Cell>>)
    requires c.surface >= 1
    requires Bucketed(cells, before)
    ensures Bucketed(cells + [c], PushCell(before, c))
  {
    var after := PushCell(before, c);
    MaxSurfaceSnoc(cells, c);
    forall k | 0 <= k < |after| ensures after[k] == CellsOfSurface(cells + [c], k + 1) {
      BucketGrowsAt(cells, c, before, k);
    }
  }

  lemma {:induction false} MaxSurfaceSnoc(cells: seq<Cell>, c: Cell)
    ensures MaxSurface(cells + [c]) == Max(MaxSurface(cells), c.surface)
  {
    assert (cells + [c])[..|cells|] == cells;
  }

  lemma {:induction false} BucketGrowsAt(cells: seq<Cell>, c: Cell, before: seq<seq<Cell>>, k: int)
    requires c.surface >= 1
    requires |before| == MaxSurface(cells)
    requires 0 <= k < |before| ==> before[k] == CellsOfSurface(cells, k + 1)
    requires 0 <= k < |PushCell(before, c)|
    ensures PushCell(before, c)[k] == CellsOfSurface(cells + [c], k + 1)
  {
    var was: seq<Cell> := if k < |before| then before[k] else [];
    if k >= |before| {
      NoCellsAbove(cells, k + 1);
    }
    assert was == CellsOfSurface(cells, k + 1);
    var now := PushCell(before, c)[k];
    if k == c.surface - 1 {
      assert now == was + [c];
    } else {
      assert now == was;
    }
    BucketAt(cells, c, k + 1, was, now);
  }

  lemma {:induction false} BucketAt(cells: seq<Cell>, c: Cell, s: int, was: seq<Cell>, now: seq<Cell>)
    requires was == CellsOfSurface(cells, s)
    requires now == was + (if c.surface == s then [c] else [])
    ensures now == CellsOfSurface(cells + [c], s)
  {
    CellsOfSurfaceSnoc(cells, c, s);
  }

  lemma {:induction false} CellsOfSurfaceSnoc(cells: seq<Cell>, c: Cell, s: int)
    ensures CellsOfSurface(cells + [c], s) == CellsOfSurface(cells, s) + (if c.surface == s then [c] else [])
  {
    assert (cells + [c])[..|cells|] == cells;
  }

  /** No cell lies in a region above the largest one. */
  lemma {:induction false} NoCellsAbove(cells: seq<Cell>, s: int)
    requires s > MaxSurface(cells)
    ensures CellsOfSurface(cells, s) == []
    decreases |cells|
  {
    if cells != [] {
      NoCellsAbove(cells[..|cells| - 1], s);
    }
  }

  /** `getCell(index)`: the stored cell for a valid index, otherwise none. */
  function GetCell(g: Grid, index: int): (r: Option<Cell>)
    ensures r.Some? <==> IsIndexValid(Frame(g), index) && index < |g.cells|
    ensures r.Some? ==> r.value == g.cells[index]
  {
    if IsIndexValid(Frame(g), index) && index < |g.cells| then Some(g.cells[index]) else None
  }

  /** `getCellFromCoordinate(p)`: the cell at `p`, none off the grid. */
  function CellFromCoordinate(g: Grid, p: Coordinate): Option<Cell> {
    GetCell(g, GetIndex(Frame(g), p))
  }

  /** `isAvailableCell(cell)`. */
  predicate IsAvailableCell(c: Cell) {
    IsAvailable(c)
  }

  /** `getAvailableCells()`: the sea cells, in index order. */
  function AvailableCells(g: Grid): seq<Cell> {
    SeaCells(g.cells)
  }

  /** `surfaces[k]`: undefined for a hole or an index out of range. */
  function SurfaceAt(g: Grid, k: int): Option<Surface> {
    if 0 <= k < |g.surfaces| then g.surfaces[k] else None
  }

  /** The cells of `cells` that satisfy `keep`, in order. */
  function CellsWhere(cells: seq<Cell>, keep: Cell -> bool): (r: seq<Cell>)
    ensures forall i :: 0 <= i < |r| ==> r[i] in cells && keep(r[i])
    ensures forall i :: 0 <= i < |cells| && keep(cells[i]) ==> cells[i] in r
  {
    if cells == [] then []
    else (if keep(cells[0]) then [cells[0]] else []) + CellsWhere(cells[1..], keep)
  }

  /** `getTorpedoArea(p)`: sea cells within Manhattan distance 4 of `p`. */
  function TorpedoArea(g: Grid, p: Coordinate): (r: seq<Cell>)
    ensures forall i :: 0 <= i < |r| ==> IsAvailable(r[i]) && PathLength(r[i].coordinate, p) <= 4
  {
    CellsWhere(g.cells, (c: Cell) => IsAvailable(c) && PathLength(c.coordinate, p) <= 4)
  }

  /** `getDangerArea(p)`: sea cells within Chebyshev distance 1 of `p`. */
  function DangerArea(g: Grid, p: Coordinate): (r: seq<Cell>)
    ensures forall i :: 0 <= i < |r| ==> IsAvailable(r[i]) && Distance(r[i].coordinate, p) <= 1
  {
    CellsWhere(g.cells, (c: Cell) => IsAvailable(c) && Distance(c.coordinate, p) <= 1)
  }

  /** `getTorpedoAreaWithoutDangerArea(p)`: the torpedo area minus the danger area. */
  function TorpedoAreaWithoutDangerArea(g: Grid, p: Coordinate): (r: seq<Cell>)
    ensures forall i :: 0 <= i < |r| ==>
      IsAvailable(r[i]) && PathLength(r[i].coordinate, p) <= 4 && Distance(r[i].coordinate, p) > 1
  {
    CellsWhere(g.cells, (c: Cell) => IsAvailable(c) && PathLength(c.coordinate, p) <= 4 && Distance(c.coordinate, p) > 1)
  }

  /** `getCellNext(p)`: the cells around `p` (Chebyshev distance exactly 1). */
  function CellNext(g: Grid, p: Coordinate): (r: seq<Cell>)
    ensures forall i :: 0 <= i < |r| ==> Distance(r[i].coordinate, p) == 1
  {
    CellsWhere(g.cells, (c: Cell) => Distance(c.coordinate, p) == 1)
  }

  // ---- properties of a built grid ----

  /**
   * A lookup by coordinate finds the cell at that coordinate, and on a full
   * grid every inside coordinate finds one; off the grid it finds none.
   */
  lemma {:induction false} CellFromCoordinateFinds(g: Grid, p: Coordinate)
    requires WellFormed(g)
    ensures CellFromCoordinate(g, p).Some? ==> CellFromCoordinate(g, p).value.coordinate == p
    ensures !AreCoordinatesValid(Frame(g), p) ==> CellFromCoordinate(g, p).None?
    ensures AreCoordinatesValid(Frame(g), p) && |g.cells| == g.width * g.height ==>
      CellFromCoordinate(g, p).Some?
  {
    if AreCoordinatesValid(Frame(g), p) {
      IndexRoundTrip(Frame(g), p);
    }
  }

  /** In a full built grid every cell is what a lookup of its own coordinate finds. */
  lemma {:induction false} CellAtOwnCoordinate(g: Grid, i: int)
    requires WellFormed(g) && |g.cells| == g.width * g.height && 0 <= i < |g.cells|
    ensures CellFromCoordinate(g, g.cells[i].coordinate) == Some(g.cells[i])
  {
    CoordinatesRoundTrip(Frame(g), i);
  }

  /** In a built grid cells are equal exactly when their indices are. */
  lemma {:induction false} CellsDistinct(g: Grid, i: int, j: int)
    requires WellFormed(g) && 0 <= i < |g.cells| && 0 <= j < |g.cells|
    ensures g.cells[i] == g.cells[j] <==> i == j
  {
  }

  /**
   * The bucket Surface of region k + 1 carries that number, and each of its
   * cells lies in that region.
   */
  lemma {:induction false} SurfaceBucketRegion(g: Grid, k: int)
    requires WellFormed(g) && 0 <= k < |g.surfaces| && g.surfaces[k].Some?
    ensures g.surfaces[k].value.index == k + 1
    ensures forall j :: 0 <= j < |g.surfaces[k].value.cells| ==>
      g.surfaces[k].value.cells[j].surface == k + 1 && g.surfaces[k].value.cells[j] in g.cells
  {
    BucketSurface(g, k);
    var bucket := CellsOfSurface(g.cells, k + 1);
    forall j | 0 <= j < |bucket| ensures bucket[j].surface == k + 1 && bucket[j] in g.cells {
      CellsOfSurfaceMember(g.cells, k + 1, bucket[j]);
    }
  }

  /** Every cell of a built grid is in the bucket Surface of its own region. */
  lemma {:induction false} CellInItsSurface(g: Grid, i: int)
    requires WellFormed(g) && 0 <= i < |g.cells|
    ensures SurfaceAt(g, g.cells[i].surface - 1).Some?
    ensures g.cells[i] in SurfaceAt(g, g.cells[i].surface - 1).value.cells
  {
    CellSurfacePositive(g, i);
    CellInBucket(g.cells, i);
    BucketSurface(g, g.cells[i].surface - 1);
  }

  lemma {:induction false} CellSurfacePositive(g: Grid, i: int)
    requires WellFormed(g) && 0 <= i < |g.cells|
    ensures g.cells[i].surface >= 1 && |g.surfaces| == MaxSurface(g.cells)
  {
    CoordinatesNonNegative(Frame(g), i);
    SurfaceIndexPositive(g.cells[i].coordinate);
  }

  lemma {:induction false} CellInBucket(cells: seq<Cell>, i: int)
    requires 0 <= i < |cells|
    ensures cells[i] in CellsOfSurface(cells, cells[i].surface)
    ensures cells[i].surface <= MaxSurface(cells)
  {
    CellsOfSurfaceMember(cells, cells[i].surface, cells[i]);
  }

  /** Entry k of a built grid's surfaces is the region k + 1 bucket, kept as it is. */
  lemma {:induction false} BucketSurface(g: Grid, k: int)
    requires WellFormed(g) && 0 <= k < |g.surfaces|
    ensures var bucket := CellsOfSurface(g.cells, k + 1);
      g.surfaces[k] == if bucket == [] then None else Some(Surface(k + 1, bucket))
  {
    var bucket := CellsOfSurface(g.cells, k + 1);
    assert g.surfaces[k] == if bucket == [] then None else Some(NewSurface(k + 1, bucket));
    BucketDistinct(g, k + 1);
    NewSurfaceOfDistinct(k + 1, bucket);
  }

  /** A bucket of a built grid has pairwise different cell indices. */
  lemma {:induction false} BucketDistinct(g: Grid, s: int)
    requires WellFormed(g)
    ensures DistinctIndices(CellsOfSurface(g.cells, s))
  {
    BucketOrdered(g.cells, s);
  }

  /** A bucket keeps the cells' relative order, so in a built grid its indices increase. */
  lemma {:induction false} BucketOrdered(cells: seq<Cell>, s: int)
    requires forall i :: 0 <= i < |cells| ==> cells[i].index == i
    ensures forall i, j :: 0 <= i < j < |CellsOfSurface(cells, s)| ==>
      CellsOfSurface(cells, s)[i].index < CellsOfSurface(cells, s)[j].index
    ensures forall i :: 0 <= i < |CellsOfSurface(cells, s)| ==> 0 <= CellsOfSurface(cells, s)[i].index < |cells|
    decreases |cells|
  {
    if cells != [] {
      var init := cells[..|cells| - 1];
      BucketOrdered(init, s);
    }
  }

  /** `getAvailableCells` is the sea subset of the cells in index order. */
  lemma {:induction false} AvailableCellsAreSea(g: Grid, c: Cell)
    ensures c in AvailableCells(g) <==> c in g.cells && IsAvailableCell(c)
  {
    if c in g.cells && IsAvailableCell(c) {
      var i :| 0 <= i < |g.cells| && g.cells[i] == c;
    }
    if c in AvailableCells(g) {
      var i :| 0 <= i < |AvailableCells(g)| && AvailableCells(g)[i] == c;
    }
  }

  /** The danger area lies inside the torpedo area, and the two areas split it. */
  lemma {:induction false} AreasSplit(g: Grid, p: Coordinate, c: Cell)
    ensures c in DangerArea(g, p) ==> c in TorpedoArea(g, p)
    ensures c in TorpedoArea(g, p) <==> c in DangerArea(g, p) || c in TorpedoAreaWithoutDangerArea(g, p)
    ensures !(c in DangerArea(g, p) && c in TorpedoAreaWithoutDangerArea(g, p))
  {
    var t := (c: Cell) => IsAvailable(c) && PathLength(c.coordinate, p) <= 4;
    var d := (c: Cell) => IsAvailable(c) && Distance(c.coordinate, p) <= 1;
    var w := (c: Cell) => IsAvailable(c) && PathLength(c.coordinate, p) <= 4 && Distance(c.coordinate, p) > 1;
    CellsWhereMember(g.cells, t, c);
    CellsWhereMember(g.cells, d, c);
    CellsWhereMember(g.cells, w, c);
    PathLengthBounds(c.coordinate, p);
  }

  lemma {:induction false} CellsWhereMember(cells: seq<Cell>, keep: Cell -> bool, c: Cell)
    ensures c in CellsWhere(cells, keep) <==> c in cells && keep(c)
  {
    if c in cells && keep(c) {
      var i :| 0 <= i < |cells| && cells[i] == c;
    }
    if c in CellsWhere(cells, keep) {
      var i :| 0 <= i < |CellsWhere(cells, keep)| && CellsWhere(cells, keep)[i] == c;
    }
  }
}
