// The direction-priority tables of the path finder and the trackers:
// `createMoveAntiClockwiseStrategies(order)` sorts `MOVE_STRATEGIES` by the
// position of each direction in `order`, last first, so that the search,
// which pops its candidates from a stack, tries `order[0]` first.
module Strategies {
  import opened Sequences
  import opened Directions

  /** `orderMap.get(d)`: the index at which `d` was last set while reducing over `order`. */
  function Rank(order: seq<Direction>, d: Direction): (r: int)
    ensures -1 <= r < |order|
    ensures r >= 0 ==> order[r] == d
    ensures r >= 0 <==> d in order
    ensures forall j :: r < j < |order| ==> order[j] != d
    decreases |order|
  {
    if order == [] then -1
    else if order[|order| - 1] == d then |order| - 1
    else
      var init := order[..|order| - 1];
      assert forall j :: 0 <= j < |init| ==> init[j] == order[j];
      Rank(init, d)
  }

  /** Every direction has a rank. */
  predicate Covers(order: seq<Direction>) {
    North in order && East in order && South in order && West in order
  }

  /** Higher ranks first. */
  predicate SortedDown(s: seq<Direction>, order: seq<Direction>) {
    forall i, j :: 0 <= i < j < |s| ==> Rank(order, s[i]) >= Rank(order, s[j])
  }

  /** One insertion step of a stable sort with comparator `rank(b) - rank(a)`. */
  function InsertDown(x: Direction, s: seq<Direction>, order: seq<Direction>): seq<Direction> {
    if s == [] then [x]
    else if Rank(order, s[0]) > Rank(order, x) then [s[0]] + InsertDown(x, s[1..], order)
    else [x] + s
  }

  /** The stable sort of `s` by descending rank. */
  function SortDown(s: seq<Direction>, order: seq<Direction>): seq<Direction> {
    if s == [] then [] else InsertDown(s[0], SortDown(s[1..], order), order)
  }

  /** `createMoveAntiClockwiseStrategies(order)`. */
  function AntiClockwise(order: seq<Direction>): seq<Direction>
    requires Covers(order)
  {
    SortDown(MoveStrategies, order)
  }

  const NorthWest: seq<Direction> := AntiClockwise([South, East, North, West])
  const NorthEast: seq<Direction> := AntiClockwise([West, South, East, North])
  const SouthWest: seq<Direction> := AntiClockwise([East, North, West, South])
  const SouthEast: seq<Direction> := AntiClockwise([North, West, South, East])

  lemma {:induction false} InsertDownKeeps(x: Direction, s: seq<Direction>, order: seq<Direction>)
    ensures multiset(InsertDown(x, s, order)) == multiset(s) + multiset{x}
  {
    if s != [] && Rank(order, s[0]) > Rank(order, x) {
      InsertDownKeeps(x, s[1..], order);
      assert s == [s[0]] + s[1..];
    }
  }

  lemma {:induction false} InsertDownSorted(x: Direction, s: seq<Direction>, order: seq<Direction>)
    requires SortedDown(s, order)
    ensures SortedDown(InsertDown(x, s, order), order)
  {
    if s != [] && Rank(order, s[0]) > Rank(order, x) {
      var tail := s[1..];
      assert SortedDown(tail, order) by {
        forall i, j | 0 <= i < j < |tail| ensures Rank(order, tail[i]) >= Rank(order, tail[j]) {
          assert tail[i] == s[i + 1] && tail[j] == s[j + 1];
        }
      }
      InsertDownSorted(x, tail, order);
      InsertDownKeeps(x, tail, order);
      var r := InsertDown(x, tail, order);
      forall j | 0 <= j < |r| ensures Rank(order, s[0]) >= Rank(order, r[j]) {
        HeadAbove(s, x, r[j], order);
      }
      assert InsertDown(x, s, order) == [s[0]] + r;
    }
  }

  /** The head of a sorted list ranks above everything in its tail, and above `x` when it goes first. */
  lemma {:induction false} HeadAbove(s: seq<Direction>, x: Direction, y: Direction, order: seq<Direction>)
    requires SortedDown(s, order) && s != [] && Rank(order, s[0]) > Rank(order, x)
    requires y in multiset(s[1..]) + multiset{x}
    ensures Rank(order, s[0]) >= Rank(order, y)
  {
    if y != x {
      assert y in s[1..];
      var t :| 0 <= t < |s[1..]| && s[1..][t] == y;
      assert s[t + 1] == y;
    }
  }

  /** The sort orders by descending rank and keeps every entry. */
  lemma {:induction false} SortDownSorted(s: seq<Direction>, order: seq<Direction>)
    ensures SortedDown(SortDown(s, order), order)
    ensures multiset(SortDown(s, order)) == multiset(s)
  {
    if s != [] {
      SortDownSorted(s[1..], order);
      InsertDownSorted(s[0], SortDown(s[1..], order), order);
      InsertDownKeeps(s[0], SortDown(s[1..], order), order);
      assert s == [s[0]] + s[1..];
    }
  }

  /**
   * A table is a permutation of the four moves sorted by descending rank;
   * when `order` lists each direction once its last entry, the one a stack
   * pops first, is `order[0]`.
   */
  lemma {:induction false} AntiClockwiseSpec(order: seq<Direction>)
    requires Covers(order)
    ensures multiset(AntiClockwise(order)) == multiset(MoveStrategies)
    ensures SortedDown(AntiClockwise(order), order)
    ensures |AntiClockwise(order)| == 4
    ensures Distinct(order) ==> AntiClockwise(order)[3] == order[0]
  {
    var r := AntiClockwise(order);
    SortDownSorted(MoveStrategies, order);
    assert |r| == |multiset(r)| == |multiset(MoveStrategies)| == 4;
    if Distinct(order) {
      LastIsFirst(order, r);
    }
  }

  lemma {:induction false} LastIsFirst(order: seq<Direction>, r: seq<Direction>)
    requires Covers(order) && Distinct(order) && |r| == 4 && SortedDown(r, order)
    requires multiset(r) == multiset(MoveStrategies)
    ensures r[3] == order[0]
  {
    var first := order[0];
    assert first in multiset(MoveStrategies) by {
      match first
      case North => case East => case South => case West =>
    }
    assert first in r;
    var p :| 0 <= p < |r| && r[p] == first;
    var last := r[3];
    assert last in order by {
      match last
      case North => case East => case South => case West =>
    }
    assert Rank(order, first) == 0;
    assert Rank(order, last) >= 0;
    assert Rank(order, first) >= Rank(order, last) by {
      if p < 3 {
        assert 0 <= p < 3 < |r|;
      }
    }
  }

  /**
   * For an order listing each direction once, the table is that order
   * reversed: the stack of candidates pops `order[0]` first, then
   * `order[1]`, and so on.
   */
  lemma {:induction false} AntiClockwiseReverses(order: seq<Direction>)
    requires |order| == 4 && Covers(order) && Distinct(order)
    ensures AntiClockwise(order) == [order[3], order[2], order[1], order[0]]
  {
    var r := AntiClockwise(order);
    AntiClockwiseSpec(order);
    PermutationDistinct(r);
    SortedIsReversed(order, r);
  }

  /** Four different directions sorted by descending rank in a four-entry order are that order reversed. */
  lemma {:induction false} SortedIsReversed(order: seq<Direction>, r: seq<Direction>)
    requires |order| == 4 && Covers(order) && |r| == 4 && Distinct(r) && SortedDown(r, order)
    ensures r == [order[3], order[2], order[1], order[0]]
  {
    InOrder(order, r[0]);
    InOrder(order, r[1]);
    InOrder(order, r[2]);
    InOrder(order, r[3]);
    var k0, k1, k2, k3 := Rank(order, r[0]), Rank(order, r[1]), Rank(order, r[2]), Rank(order, r[3]);
    assert k0 >= k1 >= k2 >= k3;
    RanksApart(order, r[0], r[1]);
    RanksApart(order, r[1], r[2]);
    RanksApart(order, r[2], r[3]);
    assert k0 == 3 && k1 == 2 && k2 == 1 && k3 == 0;
  }

  /** Different directions have different ranks in an order that holds both. */
  lemma {:induction false} RanksApart(order: seq<Direction>, d: Direction, e: Direction)
    requires d in order && e in order && d != e
    ensures Rank(order, d) != Rank(order, e)
  {
  }

  /** A covering order ranks every direction. */
  lemma {:induction false} InOrder(order: seq<Direction>, d: Direction)
    requires Covers(order)
    ensures d in order
  {
    match d
    case North => case East => case South => case West =>
  }

  /** A permutation of the four moves lists each of them once. */
  lemma {:induction false} PermutationDistinct(r: seq<Direction>)
    requires multiset(r) == multiset(MoveStrategies)
    ensures Distinct(r)
  {
    MoveStrategiesComplete(North);
    forall i, j | 0 <= i < j < |r| ensures r[i] != r[j] {
      CountPair(r, i, j);
      DistinctCount(MoveStrategies, r[i]);
    }
  }

  /** Two positions holding the same value count twice. */
  lemma {:induction false} CountPair(r: seq<Direction>, i: int, j: int)
    requires 0 <= i < j < |r|
    ensures multiset(r)[r[i]] >= 1 + (if r[j] == r[i] then 1 else 0)
  {
    var x := r[i];
    assert r == r[..i] + [x] + r[i + 1..j] + [r[j]] + r[j + 1..];
    assert multiset(r) == multiset(r[..i]) + multiset([x]) + multiset(r[i + 1..j]) + multiset([r[j]]) + multiset(r[j + 1..]);
  }

  /** In a list without repeats every value occurs at most once. */
  lemma {:induction false} DistinctCount(s: seq<Direction>, x: Direction)
    requires Distinct(s)
    ensures multiset(s)[x] <= 1
    decreases |s|
  {
    if s != [] {
      var t := s[1..];
      assert Distinct(t) by {
        forall i, j | 0 <= i < j < |t| ensures t[i] != t[j] {
          assert t[i] == s[i + 1] && t[j] == s[j + 1];
        }
      }
      DistinctCount(t, x);
      assert s == [s[0]] + t;
      assert multiset(s) == multiset([s[0]]) + multiset(t);
      if s[0] == x {
        assert x !in t by {
          forall k | 0 <= k < |t| ensures t[k] != x {
            assert t[k] == s[k + 1];
          }
        }
      }
    }
  }

  lemma {:induction false} TableNorthWest()
    ensures NorthWest == [West, North, East, South]
  {
    AntiClockwiseReverses([South, East, North, West]);
  }

  lemma {:induction false} TableNorthEast()
    ensures NorthEast == [North, East, South, West]
  {
    AntiClockwiseReverses([West, South, East, North]);
  }

  lemma {:induction false} TableSouthWest()
    ensures SouthWest == [South, West, North, East]
  {
    AntiClockwiseReverses([East, North, West, South]);
  }

  lemma {:induction false} TableSouthEast()
    ensures SouthEast == [East, South, West, North]
  {
    AntiClockwiseReverses([North, West, South, East]);
  }
}
