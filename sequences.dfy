// Sequence helpers shared by the whole model: distinctness, the
// `filter` that drops a set of values, and first-occurrence
// de-duplication, which is what every `removeDuplicate` of the game bot
// promises in one form or another.
module Sequences {

  datatype Option<T> = None | Some(value: T)

  /** No value occurs twice. */
  predicate Distinct<T(==)>(s: seq<T>) {
    forall i, j :: 0 <= i < j < |s| ==> s[i] != s[j]
  }

  /** The values of `s` as a set. */
  function Elements<T>(s: seq<T>): set<T> {
    set x | x in s
  }

  /** `s.filter(v => !banned.has(v))`, order kept. */
  function Drop<T(==)>(s: seq<T>, banned: set<T>): (r: seq<T>)
    ensures |r| <= |s|
    ensures forall i :: 0 <= i < |r| ==> r[i] in s && r[i] !in banned
    ensures forall i :: 0 <= i < |s| && s[i] !in banned ==> s[i] in r
  {
    if s == [] then []
    else if s[0] in banned then Drop(s[1..], banned)
    else [s[0]] + Drop(s[1..], banned)
  }

  /**
   * First-occurrence de-duplication: keep the head, drop its later
   * copies, carry on with the rest.
   */
  function Dedup<T(==)>(s: seq<T>): (r: seq<T>)
    ensures |r| <= |s|
    decreases |s|
  {
    if s == [] then [] else [s[0]] + Dedup(Drop(s[1..], {s[0]}))
  }

  /**
   * De-duplication keeps exactly the values of its input, each once:
   * every output value is an input value, every input value appears in
   * the output, and no output value repeats.
   */
  lemma {:induction false} DedupSpec<T>(s: seq<T>)
    ensures forall i :: 0 <= i < |Dedup(s)| ==> Dedup(s)[i] in s
    ensures forall i :: 0 <= i < |s| ==> s[i] in Dedup(s)
    ensures Distinct(Dedup(s))
    decreases |s|
  {
    if s != [] {
      var rest := Drop(s[1..], {s[0]});
      DedupSpec(rest);
      var tail := Dedup(rest);
      assert s[0] !in tail;
      assert Dedup(s) == [s[0]] + tail;
      forall i | 0 <= i < |s| ensures s[i] in Dedup(s) {
        if s[i] != s[0] {
          assert s[i] == s[1..][i - 1];
        }
      }
    }
  }

  lemma {:induction false} DropNothing<T>(s: seq<T>)
    ensures Drop(s, {}) == s
  {
    if s != [] {
      DropNothing(s[1..]);
    }
  }

  lemma {:induction false} DropTwice<T>(s: seq<T>, a: set<T>, b: set<T>)
    ensures Drop(Drop(s, a), b) == Drop(s, a + b)
  {
    if s != [] {
      DropTwice(s[1..], a, b);
    }
  }

  lemma {:induction false} DropDisjoint<T>(s: seq<T>, banned: set<T>)
    requires forall y :: y in s ==> y !in banned
    ensures Drop(s, banned) == s
  {
    if s != [] {
      DropDisjoint(s[1..], banned);
    }
  }

  /** A list with no repeats is its own de-duplication. */
  lemma {:induction false} DedupOfDistinct<T>(s: seq<T>)
    requires Distinct(s)
    ensures Dedup(s) == s
  {
    if s != [] {
      DistinctTail(s);
      DropDisjoint(s[1..], {s[0]});
      DedupOfDistinct(s[1..]);
    }
  }

  /** The rest of a list with no repeats has none, and lacks the first element. */
  lemma {:induction false} DistinctTail<T>(s: seq<T>)
    requires Distinct(s) && s != []
    ensures Distinct(s[1..]) && forall y :: y in s[1..] ==> y !in {s[0]}
  {
    forall y | y in s[1..] ensures y != s[0] {
      var j :| 0 <= j < |s[1..]| && s[1..][j] == y;
      assert s[j + 1] == y;
    }
    forall i, j | 0 <= i < j < |s[1..]| ensures s[1..][i] != s[1..][j] {
      assert s[1..][i] == s[i + 1] && s[1..][j] == s[j + 1];
    }
  }

  /**
   * The keys, in insertion order, of a JavaScript Map filled by a reduce
   * over `s` that sets every element as a key: an element already present
   * keeps its place.
   */
  function InsertionOrderKeys<T(==)>(keys: seq<T>, s: seq<T>): seq<T>
    decreases |s|
  {
    if s == [] then keys
    else InsertionOrderKeys(if s[0] in keys then keys else keys + [s[0]], s[1..])
  }

  /** Map-key insertion order is first-occurrence de-duplication. */
  lemma {:induction false} InsertionOrderKeysIsDedup<T>(keys: seq<T>, s: seq<T>)
    ensures InsertionOrderKeys(keys, s) == keys + Dedup(Drop(s, Elements(keys)))
    decreases |s|
  {
    if s == [] {
    } else if s[0] in keys {
      InsertionOrderKeysIsDedup(keys, s[1..]);
    } else {
      InsertionOrderKeysIsDedup(keys + [s[0]], s[1..]);
      NewKeyStep(keys, s);
    }
  }

  /** The step of `InsertionOrderKeysIsDedup` for an element not yet among the keys. */
  lemma {:induction false} NewKeyStep<T>(keys: seq<T>, s: seq<T>)
    requires s != [] && s[0] !in Elements(keys)
    ensures (keys + [s[0]]) + Dedup(Drop(s[1..], Elements(keys + [s[0]]))) == keys + Dedup(Drop(s, Elements(keys)))
  {
    var x := s[0];
    var rest := Drop(s[1..], Elements(keys));
    var tail := Dedup(Drop(rest, {x}));
    ElementsSnoc(keys, x);
    DropTwice(s[1..], Elements(keys), {x});
    assert Dedup(Drop(s[1..], Elements(keys + [x]))) == tail;
    DropKeepsHead(s, Elements(keys));
    DedupCons(x, rest);
    assert Dedup(Drop(s, Elements(keys))) == [x] + tail;
    ConcatAssoc(keys, [x], tail);
  }

  lemma {:induction false} ConcatAssoc<T>(a: seq<T>, b: seq<T>, c: seq<T>)
    ensures (a + b) + c == a + (b + c)
  {
  }

  lemma {:induction false} ElementsSnoc<T>(s: seq<T>, x: T)
    ensures Elements(s + [x]) == Elements(s) + {x}
  {
    forall y | y in Elements(s + [x]) ensures y in Elements(s) + {x} {
      assert y in s + [x];
    }
    forall y | y in Elements(s) + {x} ensures y in Elements(s + [x]) {
      assert y in s + [x];
    }
  }

  lemma {:induction false} DropKeepsHead<T>(s: seq<T>, banned: set<T>)
    requires s != [] && s[0] !in banned
    ensures Drop(s, banned) == [s[0]] + Drop(s[1..], banned)
  {
  }

  /** De-duplication keeps the first element and drops its later copies. */
  lemma {:induction false} DedupCons<T>(x: T, rest: seq<T>)
    ensures Dedup([x] + rest) == [x] + Dedup(Drop(rest, {x}))
  {
    assert ([x] + rest)[1..] == rest;
  }

  lemma {:induction false} InsertionOrderKeysFromEmpty<T>(s: seq<T>)
    ensures InsertionOrderKeys([], s) == Dedup(s)
  {
    InsertionOrderKeysIsDedup([], s);
    assert Elements<T>([]) == {};
    DropNothing(s);
  }

  /** A distinct list of values drawn from a set is no longer than the set. */
  lemma {:induction false} DistinctBounded<T>(s: seq<T>, pool: set<T>)
    requires Distinct(s)
    requires forall y :: y in s ==> y in pool
    ensures |s| <= |pool|
  {
    if s != [] {
      assert forall y :: y in s[1..] ==> y in pool - {s[0]};
      DistinctBounded(s[1..], pool - {s[0]});
    }
  }
}
