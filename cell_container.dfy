// `CellContainer`: a width × height rectangle of cells numbered row by
// row, with the conversions between a cell number and its coordinate.
module CellContainers {
  import opened Positions

  datatype Container = Container(width: int, height: int)

  /** `middle`: the floor of half the width and half the height. */
  function Middle(c: Container): (m: Coordinate)
    ensures 2 * m.x <= c.width < 2 * m.x + 2 && 2 * m.y <= c.height < 2 * m.y + 2
  {
    Coordinate(c.width / 2, c.height / 2)
  }

  /** JavaScript's `%`: the remainder carries the sign of the dividend. */
  function TruncRem(a: int, b: int): (r: int)
    requires b > 0
    ensures -b < r < b
    ensures a >= 0 ==> r == a % b
  {
    if a >= 0 then a % b else -((-a) % b)
  }

  /** `getCoordinates(index)`: `index % width` and `Math.floor(index / width)`. */
  function GetCoordinates(c: Container, index: int): Coordinate
    requires c.width > 0
  {
    Coordinate(TruncRem(index, c.width), index / c.width)
  }

  /** A non-negative index has a non-negative coordinate. */
  lemma {:induction false} CoordinatesNonNegative(c: Container, index: int)
    requires c.width > 0 && index >= 0
    ensures GetCoordinates(c, index).x >= 0 && GetCoordinates(c, index).y >= 0
  {
  }

  /** `getIndex` as written in src/app/cell-container.class.ts: no bounds check. */
  function GetIndexAsWritten(c: Container, p: Coordinate): int {
    p.y * c.width + p.x
  }

  /** `isIndexValid(index)`. */
  predicate IsIndexValid(c: Container, index: int) {
    0 <= index < c.width * c.height
  }

  /** `areCoordinatesValid(p)`: the point lies inside the rectangle. */
  predicate AreCoordinatesValid(c: Container, p: Coordinate) {
    0 <= p.x < c.width && 0 <= p.y < c.height
  }

  /**
   * `getIndex` with the off-grid sentinel −1 that the grid tests expect:
   * the row-major number of an inside point, −1 for any other point.
   */
  function GetIndex(c: Container, p: Coordinate): (r: int)
    ensures AreCoordinatesValid(c, p) ==> IsIndexValid(c, r)
    ensures !AreCoordinatesValid(c, p) ==> r == -1 && !IsIndexValid(c, r)
  {
    if AreCoordinatesValid(c, p) then
      RowMajorInside(c, p);
      p.y * c.width + p.x
    else -1
  }

  lemma {:induction false} RowMajorInside(c: Container, p: Coordinate)
    requires AreCoordinatesValid(c, p)
    ensures 0 <= p.y * c.width + p.x < c.width * c.height
  {
    assert p.y * c.width <= (c.height - 1) * c.width;
  }

  lemma {:induction false} DivModUnique(a: int, w: int, q: int, r: int)
    requires w > 0 && 0 <= r < w && a == q * w + r
    ensures a / w == q && a % w == r
  {
    var k := a / w - q;
    assert k * w == r - a % w;
    if k > 0 {
      MultiplyAtLeast(k, w);
    } else if k < 0 {
      MultiplyAtLeast(-k, w);
    }
  }

  lemma {:induction false} MultiplyAtLeast(k: int, w: int)
    requires k >= 1 && w > 0
    ensures k * w >= w
  {
  }

  /** Every valid index names an inside point, and `getIndex` gives it back. */
  lemma {:induction false} CoordinatesRoundTrip(c: Container, index: int)
    requires c.width > 0 && IsIndexValid(c, index)
    ensures AreCoordinatesValid(c, GetCoordinates(c, index))
    ensures GetIndex(c, GetCoordinates(c, index)) == index
  {
    var q, r := index / c.width, index % c.width;
    assert index == q * c.width + r;
    if q >= c.height {
      assert q * c.width >= c.height * c.width;
    }
  }

  /** Every inside point has a valid index, and `getCoordinates` gives it back. */
  lemma {:induction false} IndexRoundTrip(c: Container, p: Coordinate)
    requires c.width > 0 && AreCoordinatesValid(c, p)
    ensures IsIndexValid(c, GetIndex(c, p))
    ensures GetCoordinates(c, GetIndex(c, p)) == p
  {
    DivModUnique(p.y * c.width + p.x, c.width, p.y, p.x);
  }

  /** Index 0 is the top-left corner and width·height − 1 the bottom-right one. */
  lemma {:induction false} Corners(c: Container)
    requires c.width > 0 && c.height > 0
    ensures GetCoordinates(c, 0) == Coordinate(0, 0)
    ensures GetCoordinates(c, c.width * c.height - 1) == Coordinate(c.width - 1, c.height - 1)
  {
    DivModUnique(c.width * c.height - 1, c.width, c.height - 1, c.width - 1);
  }

  /** The middle of a non-empty container lies inside it. */
  lemma {:induction false} MiddleInside(c: Container)
    requires c.width > 0 && c.height > 0
    ensures AreCoordinatesValid(c, Middle(c))
  {
  }

  /**
   * The unguarded `getIndex` sends the point just past the right edge of row 0
   * to the first cell of row 1: an off-grid point aliases a real cell.
   */
  lemma {:induction false} AsWrittenIndexAliasesNextRow(c: Container)
    requires c.width > 0 && c.height >= 2
    ensures !AreCoordinatesValid(c, Coordinate(c.width, 0))
    ensures GetIndexAsWritten(c, Coordinate(c.width, 0)) == GetIndex(c, Coordinate(0, 1))
    ensures IsIndexValid(c, GetIndexAsWritten(c, Coordinate(c.width, 0)))
    ensures GetIndex(c, Coordinate(c.width, 0)) == -1
  {
    assert c.width < c.width * c.height by {
      assert c.width * c.height >= c.width * 2;
    }
  }

  /** On inside points the two versions of `getIndex` agree. */
  lemma {:induction false} AsWrittenAgreesInside(c: Container, p: Coordinate)
    requires AreCoordinatesValid(c, p)
    ensures GetIndexAsWritten(c, p) == GetIndex(c, p)
  {
  }
}
