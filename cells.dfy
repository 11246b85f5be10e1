// `Cell`: a board position together with its index, its terrain and the
// number of the 5×5 region ("surface") it belongs to. A Cell is a
// Position, so every metric on cells is the metric on `coordinate`.
module Cells {
  import opened Sequences
  import opened Positions

  /** `CellTypeEnum`: '.' is sea, 'X' is island. */
  datatype CellType = Sea | Island

  /**
   * The terrain character cast to `CellTypeEnum`. Every test of the type
   * in the bot compares with SEA, so any character other than '.' acts as
   * an island.
   */
  function ParseCellType(ch: char): (t: CellType)
    ensures t == Sea <==> ch == '.'
  {
    if ch == '.' then Sea else Island
  }

  /** The constructor stores its four arguments unchanged; the getters read them. */
  datatype Cell = Cell(coordinate: Coordinate, index: int, kind: CellType, surface: int)

  /** `isAvailableCell(cell)`: the cell is sea. */
  predicate IsAvailable(c: Cell) {
    c.kind == Sea
  }

  /** `cells.filter(isAvailableCell)`: the sea cells, in the given order. */
  function SeaCells(cells: seq<Cell>): (r: seq<Cell>)
    ensures |r| <= |cells|
    ensures forall i :: 0 <= i < |r| ==> r[i] in cells && IsAvailable(r[i])
    ensures forall i :: 0 <= i < |cells| && IsAvailable(cells[i]) ==> cells[i] in r
  {
    if cells == [] then []
    else if IsAvailable(cells[0]) then [cells[0]] + SeaCells(cells[1..])
    else SeaCells(cells[1..])
  }

  /** Filtering keeps the relative order: the sea cells of a concatenation. */
  lemma {:induction false} SeaCellsAppend(a: seq<Cell>, b: seq<Cell>)
    ensures SeaCells(a + b) == SeaCells(a) + SeaCells(b)
  {
    if a != [] {
      assert (a + b)[0] == a[0];
      assert (a + b)[1..] == a[1..] + b;
      SeaCellsAppend(a[1..], b);
    } else {
      assert a + b == b;
    }
  }

  /** Cells whose indices are pairwise different. */
  predicate DistinctIndices(cells: seq<Cell>) {
    forall i, j :: 0 <= i < j < |cells| ==> cells[i].index != cells[j].index
  }

  /**
   * `Cell.removeDuplicate`: the keys, in insertion order, of the Map filled
   * by the reduce. This is first-occurrence de-duplication: each distinct
   * cell once, where it first appeared.
   */
  function RemoveDuplicate(cells: seq<Cell>): (r: seq<Cell>)
    ensures r == Dedup(cells)
  {
    InsertionOrderKeysFromEmpty(cells);
    InsertionOrderKeys([], cells)
  }

  /**
   * The output has no repeats, holds exactly the input's cells, is no
   * longer than the input, and leaves a repeat-free list unchanged.
   */
  lemma {:induction false} RemoveDuplicateProperties(cells: seq<Cell>)
    ensures Distinct(RemoveDuplicate(cells))
    ensures forall c :: c in RemoveDuplicate(cells) <==> c in cells
    ensures |RemoveDuplicate(cells)| <= |cells|
    ensures Distinct(cells) ==> RemoveDuplicate(cells) == cells
  {
    var r := RemoveDuplicate(cells);
    DedupSpec(cells);
    forall c | c in cells ensures c in r {
      var i :| 0 <= i < |cells| && cells[i] == c;
    }
    if Distinct(cells) {
      DedupOfDistinct(cells);
    }
  }
}
