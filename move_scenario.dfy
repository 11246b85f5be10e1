// `MoveScenario`: a Map from start cell to hypothesis, updated in place by
// `add`, `delete` and the keep/exclude filters, which walk a snapshot of the
// keys and delete entries one by one.
module MoveScenarios {
  import opened Sequences
  import opened Cells
  import opened Hypotheses

  /**
   * The filter loop every keep/exclude operation runs: for each key of a
   * snapshot of the Map, look the entry up and delete it unless `keep`
   * holds for it. The result is the entries satisfying `keep`, in order.
   */
  method DeleteUnless(sc: Scenario, keep: PathState -> bool) returns (r: Scenario)
    requires UniqueKeys(sc)
    ensures r == Filter(sc, keep)
  {
    r := sc;
    var i := 0;
    while i < |sc|
      invariant 0 <= i <= |sc|
      invariant r == Filter(sc[..i], keep) + sc[i..]
    {
      var k := Key(sc[i]);
      SnapshotStep(sc, keep, i);
      var e := Entry(r, k);
      if !keep(e.value) {
        r := Remove(r, k);
      }
      i := i + 1;
    }
    assert sc[..|sc|] == sc;
  }

  /**
   * One turn of the filter loop: the snapshot's next key is found just
   * after the entries already kept, and deleting it (or not) extends the
   * kept prefix by one element of the snapshot.
   */
  lemma {:induction false} SnapshotStep(sc: Scenario, keep: PathState -> bool, i: int)
    requires UniqueKeys(sc) && 0 <= i < |sc|
    ensures Entry(Filter(sc[..i], keep) + sc[i..], Key(sc[i])) == Some(sc[i])
    ensures !keep(sc[i]) ==>
      Remove(Filter(sc[..i], keep) + sc[i..], Key(sc[i])) == Filter(sc[..i + 1], keep) + sc[i + 1..]
    ensures keep(sc[i]) ==>
      Filter(sc[..i], keep) + sc[i..] == Filter(sc[..i + 1], keep) + sc[i + 1..]
  {
    var f := Filter(sc[..i], keep);
    SnapshotFound(sc, keep, i);
    KeptPrefixGrows(sc, keep, i);
    if keep(sc[i]) {
      ConcatAssoc(f, [sc[i]], sc[i + 1..]);
    }
  }

  /** The snapshot's next key is found just after the kept prefix. */
  lemma {:induction false} SnapshotFound(sc: Scenario, keep: PathState -> bool, i: int)
    requires UniqueKeys(sc) && 0 <= i < |sc|
    ensures sc[i..] == [sc[i]] + sc[i + 1..]
    ensures Entry(Filter(sc[..i], keep) + sc[i..], Key(sc[i])) == Some(sc[i])
    ensures Remove(Filter(sc[..i], keep) + sc[i..], Key(sc[i])) == Filter(sc[..i], keep) + sc[i + 1..]
  {
    var f, t, k := Filter(sc[..i], keep), sc[i..], Key(sc[i]);
    assert t == [sc[i]] + sc[i + 1..];
    KeyAbsentFromKept(sc, keep, i);
    FindPastHead(f, t, k);
    Splice(f, t, k);
  }

  /** The kept prefix grows by the snapshot's next entry exactly when it is kept. */
  lemma {:induction false} KeptPrefixGrows(sc: Scenario, keep: PathState -> bool, i: int)
    requires 0 <= i < |sc|
    ensures Filter(sc[..i + 1], keep) == Filter(sc[..i], keep) + (if keep(sc[i]) then [sc[i]] else [])
  {
    assert sc[..i + 1] == sc[..i] + [sc[i]];
    FilterSnoc(sc[..i], sc[i], keep);
  }

  /** A key found at the head of `t` is found in `f + t` just past `f`, and deleting it drops that entry. */
  lemma {:induction false} Splice(f: Scenario, t: Scenario, k: int)
    requires t != [] && Find(f + t, k) == |f| && Key(t[0]) == k
    ensures Entry(f + t, k) == Some(t[0])
    ensures Remove(f + t, k) == f + t[1..]
  {
    FoundAt(f + t, |f|, k);
    assert (f + t)[..|f|] == f;
    assert (f + t)[|f| + 1..] == t[1..];
  }

  /** The entries kept so far come from the snapshot before `i`, so none has the key of entry `i`. */
  lemma {:induction false} KeyAbsentFromKept(sc: Scenario, keep: PathState -> bool, i: int)
    requires UniqueKeys(sc) && 0 <= i < |sc|
    ensures forall j :: 0 <= j < |Filter(sc[..i], keep)| ==> Key(Filter(sc[..i], keep)[j]) != Key(sc[i])
  {
    var f := Filter(sc[..i], keep);
    forall j | 0 <= j < |f| ensures Key(f[j]) != Key(sc[i]) {
      FilterMember(sc[..i], keep, f[j]);
      var t :| 0 <= t < |sc[..i]| && sc[..i][t] == f[j];
      assert sc[t] == f[j];
    }
  }

  /** Looking up and deleting a key found at position `i`. */
  lemma {:induction false} FoundAt(m: Scenario, i: int, k: int)
    requires 0 <= i < |m| && Find(m, k) == i
    ensures Entry(m, k) == Some(m[i])
    ensures Remove(m, k) == m[..i] + m[i + 1..]
  {
  }

  class MoveScenario {
    /** The entries of `_paths`, in key insertion order. */
    var paths: Scenario

    ghost predicate Valid()
      reads this
    {
      UniqueKeys(paths)
    }

    /** One fresh hypothesis per start position, set in order. */
    constructor (starts: seq<Cell>)
      ensures Valid() && paths == FromStarts(starts)
    {
      var m: Scenario := [];
      var i := 0;
      while i < |starts|
        invariant 0 <= i <= |starts|
        invariant m == FromStarts(starts[..i]) && UniqueKeys(m)
      {
        assert starts[..i + 1][..i] == starts[..i];
        PutKeys(m, Fresh(starts[i]));
        m := Put(m, Fresh(starts[i]));
        i := i + 1;
      }
      assert starts[..|starts|] == starts;
      paths := m;
    }

    /** `size`: the number of entries. */
    method Size() returns (n: nat)
      requires Valid()
      ensures n == |paths| && n == |Keys(paths)|
    {
      n := |paths|;
      UniqueKeysCount(paths);
    }

    /** `values()`. */
    method Values() returns (r: seq<PathState>)
      ensures r == paths
    {
      r := paths;
    }

    /** `startPositions()`: the keys, in insertion order. */
    method StartPositions() returns (r: seq<Cell>)
      ensures |r| == |paths| && forall i :: 0 <= i < |r| ==> r[i] == paths[i].start
    {
      r := seq(|paths|, i requires 0 <= i < |paths| reads this => paths[i].start);
    }

    /** `add(path)`: set the path under its start, replacing any entry there. */
    method Add(path: PathState)
      requires Valid()
      modifies this
      ensures Valid() && paths == Put(old(paths), path)
    {
      PutKeys(paths, path);
      paths := Put(paths, path);
    }

    /** `has(start)`. */
    method Has(s: Cell) returns (b: bool)
      ensures b <==> s.index in Keys(paths)
    {
      b := Entry(paths, s.index).Some?;
    }

    /** `get(start)`. */
    method Get(s: Cell) returns (r: Option<PathState>)
      ensures r == Entry(paths, s.index)
    {
      r := Entry(paths, s.index);
    }

    /** `delete(start)`. */
    method Delete(s: Cell)
      requires Valid()
      modifies this
      ensures Valid() && paths == Remove(old(paths), s.index)
    {
      RemoveIsFilter(paths, s.index, (e: PathState) => Key(e) != s.index);
      FilterKeys(paths, (e: PathState) => Key(e) != s.index);
      paths := Remove(paths, s.index);
    }

    /** `clone()`: a new Map holding the same hypotheses in the same order. */
    method Clone() returns (c: MoveScenario)
      requires Valid()
      ensures fresh(c) && c.Valid() && c.paths == paths
    {
      c := new MoveScenario([]);
      var i := 0;
      while i < |paths|
        invariant 0 <= i <= |paths|
        invariant c.paths == paths[..i]
        modifies c
      {
        forall j | 0 <= j < i ensures Key(paths[..i][j]) != Key(paths[i]) {
        }
        FindPastHead(paths[..i], [], Key(paths[i]));
        assert paths[..i] + [] == paths[..i];
        c.Add(paths[i]);
        assert paths[..i + 1] == paths[..i] + [paths[i]];
        i := i + 1;
      }
      assert paths[..|paths|] == paths;
    }

    /** `keepOnlyPosition(cell)`: an undefined cell matches no position, so it deletes everything. */
    method KeepOnlyPosition(cell: Option<Cell>)
      requires Valid()
      modifies this
      ensures Valid() && paths == Filter(old(paths), (e: PathState) => Some(e.position) == cell)
    {
      FilterKeys(paths, (e: PathState) => Some(e.position) == cell);
      paths := DeleteUnless(paths, (e: PathState) => Some(e.position) == cell);
    }

    /** `keepOnlyPositions(cells)`. */
    method KeepOnlyPositions(cells: seq<Cell>)
      requires Valid()
      modifies this
      ensures Valid() && paths == Filter(old(paths), (e: PathState) => e.position in cells)
    {
      FilterKeys(paths, (e: PathState) => e.position in cells);
      paths := DeleteUnless(paths, (e: PathState) => e.position in cells);
    }

    /** `excludePosition(cell)`: an undefined cell matches no position, so it deletes nothing. */
    method ExcludePosition(cell: Option<Cell>)
      requires Valid()
      modifies this
      ensures Valid() && paths == Filter(old(paths), (e: PathState) => Some(e.position) != cell)
    {
      FilterKeys(paths, (e: PathState) => Some(e.position) != cell);
      paths := DeleteUnless(paths, (e: PathState) => Some(e.position) != cell);
    }

    /** `excludePositions(cells)`. */
    method ExcludePositions(cells: seq<Cell>)
      requires Valid()
      modifies this
      ensures Valid() && paths == Filter(old(paths), (e: PathState) => e.position !in cells)
    {
      FilterKeys(paths, (e: PathState) => e.position !in cells);
      paths := DeleteUnless(paths, (e: PathState) => e.position !in cells);
    }

    /** `keepOnlyInSurface(surfaceIndex)`. */
    method KeepOnlyInSurface(surfaceIndex: int)
      requires Valid()
      modifies this
      ensures Valid() && paths == Filter(old(paths), (e: PathState) => e.position.surface == surfaceIndex)
    {
      FilterKeys(paths, (e: PathState) => e.position.surface == surfaceIndex);
      paths := DeleteUnless(paths, (e: PathState) => e.position.surface == surfaceIndex);
    }

    /** `excludeInSurface(surfaceIndex)`. */
    method ExcludeInSurface(surfaceIndex: int)
      requires Valid()
      modifies this
      ensures Valid() && paths == Filter(old(paths), (e: PathState) => e.position.surface != surfaceIndex)
    {
      FilterKeys(paths, (e: PathState) => e.position.surface != surfaceIndex);
      paths := DeleteUnless(paths, (e: PathState) => e.position.surface != surfaceIndex);
    }
  }

  /** With unique keys there are as many keys as entries. */
  lemma {:induction false} UniqueKeysCount(sc: Scenario)
    requires UniqueKeys(sc)
    ensures |Keys(sc)| == |sc|
  {
    if sc != [] {
      UniqueKeysCount(sc[1..]);
      assert Keys(sc) == {Key(sc[0])} + Keys(sc[1..]) by {
        forall k | k in Keys(sc) ensures k in {Key(sc[0])} + Keys(sc[1..]) {
          var i :| 0 <= i < |sc| && Key(sc[i]) == k;
          if i > 0 { assert sc[1..][i - 1] == sc[i]; }
        }
        forall k | k in Keys(sc[1..]) ensures k in Keys(sc) {
          var i :| 0 <= i < |sc[1..]| && Key(sc[1..][i]) == k;
          assert sc[i + 1] == sc[1..][i];
        }
      }
      assert Key(sc[0]) !in Keys(sc[1..]) by {
        forall i | 0 <= i < |sc[1..]| ensures Key(sc[1..][i]) != Key(sc[0]) {
          assert sc[1..][i] == sc[i + 1];
        }
      }
    }
  }

  /**
   * Keeping the entries on a set of cells and excluding them split a
   * scenario: every entry lands in exactly one of the two results, and the
   * same holds for the surface filters.
   */
  lemma {:induction false} KeepAndExcludeSplit(sc: Scenario, cells: seq<Cell>, surfaceIndex: int)
    ensures multiset(Filter(sc, (e: PathState) => e.position in cells))
          + multiset(Filter(sc, (e: PathState) => e.position !in cells)) == multiset(sc)
    ensures multiset(Filter(sc, (e: PathState) => e.position.surface == surfaceIndex))
          + multiset(Filter(sc, (e: PathState) => e.position.surface != surfaceIndex)) == multiset(sc)
  {
    FilterSplits(sc, (e: PathState) => e.position in cells, (e: PathState) => e.position !in cells);
    FilterSplits(sc, (e: PathState) => e.position.surface == surfaceIndex, (e: PathState) => e.position.surface != surfaceIndex);
  }
}
