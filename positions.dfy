// Integer coordinates on the game board and the statics of `Position`:
// vector sum and scale, equality of a list, de-duplication, and the two
// metrics (Chebyshev `distance`, Manhattan `pathLength`). The earlier
// `src/app/position.class.ts` has the same statics, line for line.
module Positions {
  import opened Sequences

  datatype Coordinate = Coordinate(x: int, y: int)

  const Origin := Coordinate(0, 0)

  function Abs(n: int): nat {
    if n < 0 then -n else n
  }

  function Max(a: int, b: int): int {
    if a < b then b else a
  }

  /** Component-wise sum of two vectors (one step of the `sum` reduce). */
  function Add(a: Coordinate, b: Coordinate): Coordinate {
    Coordinate(a.x + b.x, a.y + b.y)
  }

  /** `sum(...list)`: a left fold of `Add` starting at the origin. */
  function Sum(list: seq<Coordinate>): Coordinate
    decreases |list|
  {
    if list == [] then Origin else Add(Sum(list[..|list| - 1]), list[|list| - 1])
  }

  /** `equals(...list)`: every element equals the first one. */
  predicate EqualsAll(list: seq<Coordinate>) {
    forall i :: 0 <= i < |list| ==> list[i] == list[0]
  }

  /** `multiply(c, f)`: both components scaled by `f`. */
  function Multiply(c: Coordinate, factor: int): Coordinate {
    Coordinate(c.x * factor, c.y * factor)
  }

  /** Chebyshev distance: the larger of the two component gaps. */
  function Distance(a: Coordinate, b: Coordinate): nat {
    Max(Abs(a.x - b.x), Abs(a.y - b.y))
  }

  /** Manhattan distance: the number of unit moves between two cells. */
  function PathLength(a: Coordinate, b: Coordinate): nat {
    Abs(a.x - b.x) + Abs(a.y - b.y)
  }

  /**
   * `removeDuplicate`: take the first remaining coordinate, keep it, and
   * filter every copy of it out of what is left.
   */
  method RemoveDuplicate(list: seq<Coordinate>) returns (result: seq<Coordinate>)
    ensures result == Dedup(list)
  {
    result := [];
    var remaining := list;
    while |remaining| > 0
      invariant result + Dedup(remaining) == Dedup(list)
      decreases |remaining|
    {
      var current := remaining[0];
      var next := Drop(remaining, {current});
      DedupUnfold(remaining);
      assert result + Dedup(remaining) == (result + [current]) + Dedup(next);
      result := result + [current];
      remaining := next;
    }
    assert remaining == [];
    assert result + [] == result;
  }

  lemma {:induction false} DedupUnfold(s: seq<Coordinate>)
    requires s != []
    ensures Dedup(s) == [s[0]] + Dedup(Drop(s, {s[0]}))
    ensures |Drop(s, {s[0]})| < |s|
  {
    assert Drop(s, {s[0]}) == Drop(s[1..], {s[0]});
  }

  // ---- properties of the statics ----

  /** The fold of an appended list is the sum of the two folds. */
  lemma {:induction false} SumAppend(a: seq<Coordinate>, b: seq<Coordinate>)
    ensures Sum(a + b) == Add(Sum(a), Sum(b))
    decreases |b|
  {
    if b == [] {
      assert a + b == a;
    } else {
      var ab := a + b;
      assert ab[..|ab| - 1] == a + b[..|b| - 1];
      SumAppend(a, b[..|b| - 1]);
    }
  }

  /** `sum()` is the origin, and a vector plus its negation is the origin. */
  lemma {:induction false} SumOfNothingAndOfOpposites(a: Coordinate)
    ensures Sum([]) == Origin
    ensures Sum([a, Multiply(a, -1)]) == Origin
  {
    assert [a, Multiply(a, -1)][..1] == [a];
    assert [a][..0] == [];
  }

  /** The instance `p.sum(c)` is `sum(p, c)`, the plain vector sum. */
  lemma {:induction false} InstanceSum(p: Coordinate, list: seq<Coordinate>)
    ensures Sum([p] + list) == Add(p, Sum(list))
  {
    SumAppend([p], list);
    assert [p][..0] == [];
  }

  /** Reordering the arguments of `sum` does not change the result. */
  lemma {:induction false} SumReversed(list: seq<Coordinate>)
    ensures Sum(Reverse(list)) == Sum(list)
    decreases |list|
  {
    if list != [] {
      var last := list[|list| - 1];
      var init := list[..|list| - 1];
      assert Reverse(list) == [last] + Reverse(init);
      SumReversed(init);
      SumAppend([last], Reverse(init));
      assert [last][..0] == [];
    }
  }

  function Reverse<T>(s: seq<T>): seq<T>
    decreases |s|
  {
    if s == [] then [] else [s[|s| - 1]] + Reverse(s[..|s| - 1])
  }

  /** Scaling is component-wise; a negative factor flips both signs. */
  lemma {:induction false} MultiplyScales(c: Coordinate, f: int)
    ensures Multiply(c, f).x == c.x * f && Multiply(c, f).y == c.y * f
    ensures Multiply(c, -f) == Multiply(Multiply(c, f), -1)
    ensures Add(Multiply(c, f), Multiply(c, -f)) == Origin
  {
  }

  /**
   * `equals(...list)` holds exactly when the list holds at most one distinct
   * coordinate; in particular it holds of zero or one argument.
   */
  lemma {:induction false} EqualsAllIffOneValue(list: seq<Coordinate>)
    ensures EqualsAll(list) <==> |Dedup(list)| <= 1
  {
    if list != [] {
      var rest := Drop(list[1..], {list[0]});
      if EqualsAll(list) {
        assert Dedup(list) == [list[0]];
      } else {
        var i :| 0 <= i < |list| && list[i] != list[0];
        DedupSpec(list);
        assert list[i] in Dedup(list) && list[0] in Dedup(list);
      }
    }
  }

  /** Both metrics are symmetric and vanish exactly on equal points. */
  lemma {:induction false} MetricsSymmetricAndSeparating(a: Coordinate, b: Coordinate)
    ensures Distance(a, b) == Distance(b, a)
    ensures PathLength(a, b) == PathLength(b, a)
    ensures Distance(a, b) == 0 <==> a == b
    ensures PathLength(a, b) == 0 <==> a == b
  {
  }

  /** Manhattan length never undercuts the Chebyshev distance, and is at most twice it. */
  lemma {:induction false} PathLengthBounds(a: Coordinate, b: Coordinate)
    ensures Distance(a, b) <= PathLength(a, b) <= 2 * Distance(a, b)
  {
  }

  /** The triangle inequality for the Manhattan metric. */
  lemma {:induction false} PathLengthTriangle(a: Coordinate, b: Coordinate, c: Coordinate)
    ensures PathLength(a, c) <= PathLength(a, b) + PathLength(b, c)
  {
  }
}
