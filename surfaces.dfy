// Regions ("surfaces"): fixed 5×5 blocks numbered row by row from 1 in a
// layout hard-wired to three columns, the region centres of the earliest
// versions (src/app/bench.ts, src/app/grid.ts, src/ocean-of-code.ts), and
// the `Surface` record whose cells are keyed by cell index.
module Surfaces {
  import opened Sequences
  import opened Positions
  import opened CellContainers
  import opened Cells

  /** `Surface.WIDTH`. */
  const Width := 5
  /** `Surface.GRID_WIDTH`: the number of region columns, whatever the board width. */
  const GridWidth := 3

  /** A Surface is a 5×5 `CellContainer`. */
  const Block := Container(Width, Width)

  /** `getSurfaceIndex(p)` = ⌊x/5⌋ + 3·⌊y/5⌋ + 1 (`Math.floor` is Dafny's `/` here). */
  function SurfaceIndex(p: Coordinate): int {
    p.x / Width + (p.y / Width) * GridWidth + 1
  }

  /** `Math.ceil(a / b)` for a positive `b`. */
  function CeilDiv(a: int, b: int): (r: int)
    requires b > 0
    ensures (r - 1) * b < a <= r * b
  {
    -((-a) / b)
  }

  /** `getSurfacePositionCenter(s)` = (2 + 5·((s−1) % 3), 2 + 5·(⌈s/3⌉ − 1)). */
  function SurfaceCenter(s: int): Coordinate {
    Coordinate(2 + 5 * TruncRem(s - 1, 3), 2 + 5 * (CeilDiv(s, 3) - 1))
  }

  /** A point with non-negative coordinates lies in a region numbered from 1. */
  lemma {:induction false} SurfaceIndexPositive(p: Coordinate)
    requires p.x >= 0 && p.y >= 0
    ensures SurfaceIndex(p) >= 1
  {
  }

  /** On a 15×15 board every cell lies in one of the regions 1..9. */
  lemma {:induction false} SurfaceIndexOnBoard(p: Coordinate)
    requires 0 <= p.x < 15 && 0 <= p.y < 15
    ensures 1 <= SurfaceIndex(p) <= 9
  {
  }

  /**
   * The layout has three columns whatever the board is: five rows down and
   * fifteen columns right land in the same region number.
   */
  lemma {:induction false} ThreeColumnLayout(p: Coordinate)
    ensures SurfaceIndex(Coordinate(p.x + 15, p.y)) == SurfaceIndex(Coordinate(p.x, p.y + 5))
  {
    assert (p.x + 15) / 5 == p.x / 5 + 3;
    assert (p.y + 5) / 5 == p.y / 5 + 1;
  }

  /** The centre of every positive region number lies in that region. */
  lemma {:induction false} CenterRoundTrip(s: int)
    requires s >= 1
    ensures SurfaceIndex(SurfaceCenter(s)) == s
  {
    var q, r := (s - 1) / 3, (s - 1) % 3;
    assert s - 1 == 3 * q + r;
    assert CeilDiv(s, 3) == q + 1;
    var c := SurfaceCenter(s);
    assert c == Coordinate(2 + 5 * r, 2 + 5 * q);
    assert c.x / 5 == r;
    assert c.y / 5 == q;
  }

  /**
   * Conversely, the centre of a point's region sits at offset (2, 2) inside
   * that point's 5×5 block (board columns 0..14).
   */
  lemma {:induction false} CenterOfBlock(p: Coordinate)
    requires 0 <= p.x < 15 && 0 <= p.y
    ensures SurfaceCenter(SurfaceIndex(p)) == Coordinate(5 * (p.x / 5) + 2, 5 * (p.y / 5) + 2)
  {
    var bx, bY := p.x / 5, p.y / 5;
    var s := SurfaceIndex(p);
    assert s - 1 == 3 * bY + bx;
    assert TruncRem(s - 1, 3) == bx;
    assert CeilDiv(s, 3) == bY + 1;
  }

  // ---- the Surface record ----

  /**
   * A Surface: its number and the values of its Map from cell index to
   * cell, in key insertion order. The keys are the cells' own indices, so
   * the Map is the list of values with pairwise different indices.
   */
  datatype Surface = Surface(index: int, cells: seq<Cell>)

  /** Where the key `index` sits among the stored cells, or `|cells|`. */
  function KeyPosition(cells: seq<Cell>, index: int): (k: nat)
    ensures k <= |cells|
    ensures k < |cells| ==> cells[k].index == index
    ensures forall i :: 0 <= i < k ==> cells[i].index != index
  {
    if cells == [] then 0
    else if cells[0].index == index then 0
    else 1 + KeyPosition(cells[1..], index)
  }

  /** The keys of the Map: the indices of the stored cells. */
  function Keys(cells: seq<Cell>): set<int> {
    set i | 0 <= i < |cells| :: cells[i].index
  }

  /** `acc.set(cur.index, cur)`: a known key keeps its place, a new key goes last. */
  function Insert(cells: seq<Cell>, c: Cell): (r: seq<Cell>)
    ensures DistinctIndices(cells) ==> DistinctIndices(r)
    ensures c in r
    ensures forall i :: 0 <= i < |r| ==> r[i] == c || r[i] in cells
    ensures Keys(r) == Keys(cells) + {c.index}
  {
    var k := KeyPosition(cells, c.index);
    if k < |cells| then
      var r := cells[k := c];
      assert r[k] == c;
      assert Keys(r) == Keys(cells) by {
        forall key | key in Keys(cells) ensures key in Keys(r) {
          var i :| 0 <= i < |cells| && cells[i].index == key;
          assert r[i].index == key;
        }
      }
      r
    else
      var r := cells + [c];
      assert r[|cells|] == c;
      assert forall i :: 0 <= i < |cells| ==> r[i] == cells[i];
      assert Keys(r) == Keys(cells) + {c.index} by {
        forall key | key in Keys(cells) ensures key in Keys(r) {
          var i :| 0 <= i < |cells| && cells[i].index == key;
          assert r[i].index == key;
        }
      }
      r
  }

  /** The reduce: insert the given cells one after the other. */
  function InsertAll(stored: seq<Cell>, cells: seq<Cell>): seq<Cell>
    decreases |cells|
  {
    if cells == [] then stored else InsertAll(Insert(stored, cells[0]), cells[1..])
  }

  /**
   * The keyed storage never holds two cells with one index, its keys are
   * the old keys plus the indices of the inserted cells, and it holds only
   * cells that were stored already or inserted.
   */
  lemma {:induction false} InsertAllKeyed(stored: seq<Cell>, cells: seq<Cell>)
    requires DistinctIndices(stored)
    ensures DistinctIndices(InsertAll(stored, cells))
    ensures Keys(InsertAll(stored, cells)) == Keys(stored) + Keys(cells)
    ensures forall j :: 0 <= j < |InsertAll(stored, cells)| ==>
      InsertAll(stored, cells)[j] in stored || InsertAll(stored, cells)[j] in cells
    decreases |cells|
  {
    if cells != [] {
      var next := Insert(stored, cells[0]);
      InsertAllKeyed(next, cells[1..]);
      var r := InsertAll(next, cells[1..]);
      assert Keys(cells) == {cells[0].index} + Keys(cells[1..]) by {
        forall key | key in Keys(cells) ensures key in {cells[0].index} + Keys(cells[1..]) {
          var i :| 0 <= i < |cells| && cells[i].index == key;
          if i > 0 {
            assert cells[1..][i - 1].index == key;
          }
        }
      }
      forall j | 0 <= j < |r| ensures r[j] in stored || r[j] in cells {
        if r[j] !in next {
          assert r[j] in cells[1..];
        }
      }
    }
  }

  /** Cells with fresh, pairwise different indices are appended as given. */
  lemma {:induction false} InsertAllFresh(stored: seq<Cell>, cells: seq<Cell>)
    requires DistinctIndices(stored + cells)
    ensures InsertAll(stored, cells) == stored + cells
    decreases |cells|
  {
    if cells != [] {
      assert (stored + cells)[|stored|] == cells[0];
      var k := KeyPosition(stored, cells[0].index);
      assert forall i :: 0 <= i < |stored| ==> (stored + cells)[i] == stored[i];
      assert k == |stored|;
      assert Insert(stored, cells[0]) == stored + [cells[0]];
      assert stored + [cells[0]] + cells[1..] == stored + cells;
      InsertAllFresh(stored + [cells[0]], cells[1..]);
    }
  }

  /** The Surface constructor: the reduce into a Map keyed by cell index. */
  function NewSurface(index: int, cells: seq<Cell>): (s: Surface)
    ensures s.index == index && DistinctIndices(s.cells)
    ensures Keys(s.cells) == Keys(cells)
    ensures forall j :: 0 <= j < |s.cells| ==> s.cells[j] in cells
  {
    InsertAllKeyed([], cells);
    Surface(index, InsertAll([], cells))
  }

  /** `getAvailableCells`: the sea cells of `cells`, in stored order. */
  function SurfaceAvailableCells(s: Surface): (r: seq<Cell>)
    ensures forall i :: 0 <= i < |r| ==> r[i] in s.cells && IsAvailable(r[i])
  {
    SeaCells(s.cells)
  }

  /**
   * Cells with distinct indices are stored as given, so the `cells`
   * getter returns the constructor's argument, and `getAvailableCells` is
   * exactly its sea subset in the same order.
   */
  lemma {:induction false} NewSurfaceOfDistinct(index: int, cells: seq<Cell>)
    requires DistinctIndices(cells)
    ensures NewSurface(index, cells).cells == cells
    ensures SurfaceAvailableCells(NewSurface(index, cells)) == SeaCells(cells)
  {
    assert [] + cells == cells;
    InsertAllFresh([], cells);
  }
}
