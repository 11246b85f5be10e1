// The two JavaScript Map shapes the statistics build with a `forEach`:
// a counter (`map.set(x, (map.get(x) ?? 0) + 1)`) and a grouping
// (`map.set(k, [...(map.get(k) ?? []), x])`), both kept as their entries
// in key insertion order.
module Tallies {
  import opened Sequences

  /** The keys of a Map's entries, in insertion order. */
  function Firsts<K, V>(m: seq<(K, V)>): (r: seq<K>)
    ensures |r| == |m|
    ensures forall i :: 0 <= i < |m| ==> r[i] == m[i].0
  {
    seq(|m|, i requires 0 <= i < |m| => m[i].0)
  }

  // ---- counters ----

  /** One `set(x, get(x) + 1)`: an existing key keeps its place, a new key goes last with count 1. */
  function Bump<T(==)>(m: seq<(T, nat)>, x: T): seq<(T, nat)> {
    if m == [] then [(x, 1)]
    else if m[0].0 == x then [(x, m[0].1 + 1)] + m[1..]
    else [m[0]] + Bump(m[1..], x)
  }

  /** The counter after counting every element of `s` into `m`, in order. */
  function CountFrom<T(==)>(m: seq<(T, nat)>, s: seq<T>): seq<(T, nat)>
    decreases |s|
  {
    if s == [] then m else CountFrom(Bump(m, s[0]), s[1..])
  }

  /** `get(y) ?? 0`: the count of the first entry of key `y`. */
  function CountOf<T(==)>(m: seq<(T, nat)>, y: T): nat {
    if m == [] then 0 else if m[0].0 == y then m[0].1 else CountOf(m[1..], y)
  }

  /** The sum of all counts. */
  function Total<T>(m: seq<(T, nat)>): nat {
    if m == [] then 0 else m[0].1 + Total(m[1..])
  }

  lemma {:induction false} BumpKeys<T>(m: seq<(T, nat)>, x: T)
    ensures Firsts(Bump(m, x)) == if x in Firsts(m) then Firsts(m) else Firsts(m) + [x]
  {
    if m != [] {
      BumpKeys(m[1..], x);
      assert Firsts(m) == [m[0].0] + Firsts(m[1..]);
      if m[0].0 == x {
        var r := [(x, m[0].1 + 1)] + m[1..];
        assert r[1..] == m[1..];
        assert Firsts(r) == [x] + Firsts(m[1..]);
      } else {
        var r := [m[0]] + Bump(m[1..], x);
        assert r[1..] == Bump(m[1..], x);
        assert Firsts(r) == [m[0].0] + Firsts(Bump(m[1..], x));
      }
    }
  }

  lemma {:induction false} BumpCount<T>(m: seq<(T, nat)>, x: T, y: T)
    ensures CountOf(Bump(m, x), y) == CountOf(m, y) + (if y == x then 1 else 0)
    ensures Total(Bump(m, x)) == Total(m) + 1
  {
    if m != [] && m[0].0 != x {
      BumpCount(m[1..], x, y);
      assert ([m[0]] + Bump(m[1..], x))[1..] == Bump(m[1..], x);
    }
  }

  /** Counting `s` into `m` grows the keys in first-occurrence order. */
  lemma {:induction false} CountFromKeys<T>(m: seq<(T, nat)>, s: seq<T>)
    ensures Firsts(CountFrom(m, s)) == InsertionOrderKeys(Firsts(m), s)
    decreases |s|
  {
    if s != [] {
      BumpKeys(m, s[0]);
      CountFromKeys(Bump(m, s[0]), s[1..]);
    }
  }

  /** Counting `s` into `m` adds to each key its occurrences in `s`, and `|s|` to the total. */
  lemma {:induction false} CountFromCount<T>(m: seq<(T, nat)>, s: seq<T>, y: T)
    ensures CountOf(CountFrom(m, s), y) == CountOf(m, y) + multiset(s)[y]
    ensures Total(CountFrom(m, s)) == Total(m) + |s|
    decreases |s|
  {
    if s != [] {
      BumpCount(m, s[0], y);
      CountFromCount(Bump(m, s[0]), s[1..], y);
      assert s == [s[0]] + s[1..];
      assert multiset(s) == multiset{s[0]} + multiset(s[1..]);
    }
  }

  /**
   * Counting `s` into `m`: the keys grow in first-occurrence order, each
   * key's count grows by its number of occurrences in `s`, and the total
   * grows by `|s|`.
   */
  lemma {:induction false} CountFromSpec<T>(m: seq<(T, nat)>, s: seq<T>)
    ensures Firsts(CountFrom(m, s)) == InsertionOrderKeys(Firsts(m), s)
    ensures forall y :: CountOf(CountFrom(m, s), y) == CountOf(m, y) + multiset(s)[y]
    ensures Total(CountFrom(m, s)) == Total(m) + |s|
  {
    CountFromKeys(m, s);
    forall y ensures CountOf(CountFrom(m, s), y) == CountOf(m, y) + multiset(s)[y] {
      CountFromCount(m, s, y);
    }
    if s != [] {
      CountFromCount(m, s, s[0]);
    } else {
      assert CountFrom(m, s) == m;
    }
  }

  /** Counting one more element at the end is one more `Bump`. */
  lemma {:induction false} CountFromSnoc<T>(m: seq<(T, nat)>, s: seq<T>, x: T)
    ensures CountFrom(m, s + [x]) == Bump(CountFrom(m, s), x)
    decreases |s|
  {
    if s == [] {
      assert [] + [x] == [x];
      assert [x][1..] == [];
    } else {
      assert (s + [x])[1..] == s[1..] + [x];
      CountFromSnoc(Bump(m, s[0]), s[1..], x);
    }
  }

  /**
   * A counter filled from empty: its keys are the distinct elements of `s`
   * in first-occurrence order, the count of each is its number of
   * occurrences, and the counts add up to `|s|`.
   */
  lemma {:induction false} TallySpec<T>(s: seq<T>)
    ensures Firsts(CountFrom([], s)) == Dedup(s)
    ensures Distinct(Firsts(CountFrom([], s)))
    ensures forall y :: CountOf(CountFrom([], s), y) == multiset(s)[y]
    ensures Total(CountFrom([], s)) == |s|
  {
    CountFromSpec([], s);
    assert Firsts<T, nat>([]) == [];
    InsertionOrderKeysFromEmpty(s);
    DedupSpec(s);
  }

  // ---- groupings ----

  /** One `set(k, [...get(k), x])`: an existing key keeps its place, a new key goes last. */
  function Append<T>(m: seq<(int, seq<T>)>, k: int, x: T): seq<(int, seq<T>)> {
    if m == [] then [(k, [x])]
    else if m[0].0 == k then [(k, m[0].1 + [x])] + m[1..]
    else [m[0]] + Append(m[1..], k, x)
  }

  /** The grouping after appending every element of `s` under its key, in order. */
  function GroupFrom<T>(m: seq<(int, seq<T>)>, s: seq<T>, key: T -> int): seq<(int, seq<T>)>
    decreases |s|
  {
    if s == [] then m else GroupFrom(Append(m, key(s[0]), s[0]), s[1..], key)
  }

  /** `get(k) ?? []`: the list of the first entry of key `k`. */
  function GroupOf<T>(m: seq<(int, seq<T>)>, k: int): seq<T> {
    if m == [] then [] else if m[0].0 == k then m[0].1 else GroupOf(m[1..], k)
  }

  /** The elements of `s` whose key is `k`, in order. */
  function Where<T>(s: seq<T>, key: T -> int, k: int): (r: seq<T>)
    ensures |r| <= |s|
  {
    if s == [] then [] else (if key(s[0]) == k then [s[0]] else []) + Where(s[1..], key, k)
  }

  /** The keys of `s`, in order. */
  function KeysOf<T>(s: seq<T>, key: T -> int): (r: seq<int>)
    ensures |r| == |s|
  {
    if s == [] then [] else [key(s[0])] + KeysOf(s[1..], key)
  }

  lemma {:induction false} AppendKeys<T>(m: seq<(int, seq<T>)>, k: int, x: T)
    ensures Firsts(Append(m, k, x)) == if k in Firsts(m) then Firsts(m) else Firsts(m) + [k]
  {
    if m != [] {
      AppendKeys(m[1..], k, x);
      assert Firsts(m) == [m[0].0] + Firsts(m[1..]);
      if m[0].0 == k {
        var r := [(k, m[0].1 + [x])] + m[1..];
        assert r[1..] == m[1..];
        assert Firsts(r) == [k] + Firsts(m[1..]);
      } else {
        var r := [m[0]] + Append(m[1..], k, x);
        assert r[1..] == Append(m[1..], k, x);
        assert Firsts(r) == [m[0].0] + Firsts(Append(m[1..], k, x));
      }
    }
  }

  lemma {:induction false} AppendGroup<T>(m: seq<(int, seq<T>)>, k: int, x: T, j: int)
    ensures GroupOf(Append(m, k, x), j) == GroupOf(m, j) + (if j == k then [x] else [])
  {
    if m != [] && m[0].0 != k {
      AppendGroup(m[1..], k, x, j);
      assert ([m[0]] + Append(m[1..], k, x))[1..] == Append(m[1..], k, x);
    }
  }

  /** Grouping `s` into `m` grows the keys in first-occurrence order of the elements' keys. */
  lemma {:induction false} GroupFromKeys<T>(m: seq<(int, seq<T>)>, s: seq<T>, key: T -> int)
    ensures Firsts(GroupFrom(m, s, key)) == InsertionOrderKeys(Firsts(m), KeysOf(s, key))
    decreases |s|
  {
    if s != [] {
      AppendKeys(m, key(s[0]), s[0]);
      GroupFromKeys(Append(m, key(s[0]), s[0]), s[1..], key);
      assert KeysOf(s, key)[1..] == KeysOf(s[1..], key);
    }
  }

  /** Grouping `s` into `m` appends to each key's list the elements of `s` with that key, in order. */
  lemma {:induction false} GroupFromGroup<T>(m: seq<(int, seq<T>)>, s: seq<T>, key: T -> int, j: int)
    ensures GroupOf(GroupFrom(m, s, key), j) == GroupOf(m, j) + Where(s, key, j)
    decreases |s|
  {
    if s != [] {
      AppendGroup(m, key(s[0]), s[0], j);
      GroupFromGroup(Append(m, key(s[0]), s[0]), s[1..], key, j);
    }
  }

  /**
   * Grouping `s` into `m`: the keys grow in first-occurrence order of the
   * elements' keys, and each key's list grows by exactly the elements of
   * `s` with that key, in order.
   */
  lemma {:induction false} GroupFromSpec<T>(m: seq<(int, seq<T>)>, s: seq<T>, key: T -> int)
    ensures Firsts(GroupFrom(m, s, key)) == InsertionOrderKeys(Firsts(m), KeysOf(s, key))
    ensures forall j :: GroupOf(GroupFrom(m, s, key), j) == GroupOf(m, j) + Where(s, key, j)
  {
    GroupFromKeys(m, s, key);
    forall j ensures GroupOf(GroupFrom(m, s, key), j) == GroupOf(m, j) + Where(s, key, j) {
      GroupFromGroup(m, s, key, j);
    }
  }

  /**
   * A grouping filled from empty: its keys are the distinct keys of `s` in
   * first-occurrence order, and each key holds exactly the elements of
   * that key, in order.
   */
  lemma {:induction false} GroupSpec<T>(s: seq<T>, key: T -> int)
    ensures Firsts(GroupFrom([], s, key)) == Dedup(KeysOf(s, key))
    ensures forall j :: GroupOf(GroupFrom([], s, key), j) == Where(s, key, j)
  {
    GroupFromSpec([], s, key);
    assert Firsts<int, seq<T>>([]) == [];
    InsertionOrderKeysFromEmpty(KeysOf(s, key));
  }
}
