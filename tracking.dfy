// What the trackers do to a list of scenarios, stated on values: the
// pruning of longer histories (`reduceMoveStrategies`), the clean-up
// (`updateMoveStrategies`) and the SILENCE fan-out.
module Tracking {
  import opened Sequences
  import opened Positions
  import opened Directions
  import opened Cells
  import opened Grids
  import opened Hypotheses

  // ---- reduceMoveStrategies ----

  /** The visited count of the hypothesis of key `k`, when it sits on `p`. */
  function SizeAt(sc: Scenario, k: int, p: Cell): Option<int> {
    match Entry(sc, k)
    case None => None
    case Some(e) => if e.position == p then Some(|e.visited|) else None
  }

  /**
   * `minLength` for the pair (k, p): the least visited count of a
   * hypothesis of key `k` on `p` over all scenarios, or `max` when none is
   * smaller.
   */
  function MinSize(scs: seq<Scenario>, k: int, p: Cell, max: int): (m: int)
    ensures m <= max
    decreases |scs|
  {
    if scs == [] then max
    else
      var m := MinSize(scs[..|scs| - 1], k, p, max);
      match SizeAt(scs[|scs| - 1], k, p)
      case None => m
      case Some(z) => if z < m then z else m
  }

  /** The minimum is a lower bound of every size for (k, p), and it is one of them unless it is `max`. */
  lemma {:induction false} MinSizeBounds(scs: seq<Scenario>, k: int, p: Cell, max: int)
    ensures var m := MinSize(scs, k, p, max);
      && (forall i :: 0 <= i < |scs| && SizeAt(scs[i], k, p).Some? ==> m <= SizeAt(scs[i], k, p).value)
      && (m == max || exists i :: 0 <= i < |scs| && SizeAt(scs[i], k, p) == Some(m))
    decreases |scs|
  {
    if scs != [] {
      var init := scs[..|scs| - 1];
      MinSizeBounds(init, k, p, max);
      assert forall i :: 0 <= i < |init| ==> init[i] == scs[i];
    }
  }

  /** `MinSizeBounds` at one scenario: the minimum is at most the size it records. */
  lemma {:induction false} MinSizeAtMost(scs: seq<Scenario>, k: int, p: Cell, max: int, i: int)
    requires 0 <= i < |scs|
    ensures SizeAt(scs[i], k, p).Some? ==> MinSize(scs, k, p, max) <= SizeAt(scs[i], k, p).value
  {
    MinSizeBounds(scs, k, p, max);
  }

  /** `MinSizeBounds`, the witness: a minimum below `max` is the size recorded by scenario t. */
  lemma {:induction false} MinSizeAttained(scs: seq<Scenario>, k: int, p: Cell, max: int) returns (t: int)
    ensures var m := MinSize(scs, k, p, max);
      m == max || (0 <= t < |scs| && SizeAt(scs[t], k, p) == Some(m))
  {
    MinSizeBounds(scs, k, p, max);
    var m := MinSize(scs, k, p, max);
    t := 0;
    if m != max {
      t :| 0 <= t < |scs| && SizeAt(scs[t], k, p) == Some(m);
    }
  }

  /** The minimum over one more scenario of the list. */
  lemma {:induction false} MinSizePrefixStep(scs: seq<Scenario>, k: int, p: Cell, max: int, i: int)
    requires 0 <= i < |scs|
    ensures var m := MinSize(scs[..i], k, p, max);
      MinSize(scs[..i + 1], k, p, max) ==
        match SizeAt(scs[i], k, p) case None => m case Some(z) => if z < m then z else m
  {
    assert scs[..i + 1][..i] == scs[..i];
    assert scs[..i + 1][i] == scs[i];
  }

  /** Whether a hypothesis outlives the pruning of the pairs in `pairs`, measured against `scs`. */
  predicate Survives(e: PathState, pairs: set<(int, Cell)>, scs: seq<Scenario>, max: int) {
    (Key(e), e.position) !in pairs || |e.visited| <= MinSize(scs, Key(e), e.position, max)
  }

  /** One scenario after pruning the pairs in `pairs`. */
  function PruneScenario(sc: Scenario, pairs: set<(int, Cell)>, scs: seq<Scenario>, max: int): Scenario {
    Filter(sc, Surviving(pairs, scs, max))
  }

  /** `Survives` as the filter's predicate. */
  function Surviving(pairs: set<(int, Cell)>, scs: seq<Scenario>, max: int): PathState -> bool {
    e => Survives(e, pairs, scs, max)
  }

  /** Pruning a scenario keeps exactly its surviving hypotheses. */
  lemma {:induction false} PrunedMember(sc: Scenario, pairs: set<(int, Cell)>, scs: seq<Scenario>, max: int, x: PathState)
    ensures x in PruneScenario(sc, pairs, scs, max) <==> x in sc && Survives(x, pairs, scs, max)
  {
    FilterMember(sc, Surviving(pairs, scs, max), x);
  }

  /** Every scenario of `scs` after pruning the pairs in `pairs`. */
  function PruneAll(scs: seq<Scenario>, pairs: set<(int, Cell)>, max: int): (r: seq<Scenario>)
    ensures |r| == |scs|
  {
    seq(|scs|, i requires 0 <= i < |scs| => PruneScenario(scs[i], pairs, scs, max))
  }

  /** `filter(ms => ms.size > 0)`. */
  function NonEmpty(scs: seq<Scenario>): (r: seq<Scenario>)
    ensures |r| <= |scs|
    ensures forall i :: 0 <= i < |r| ==> r[i] != [] && r[i] in scs
    ensures forall i :: 0 <= i < |scs| && scs[i] != [] ==> scs[i] in r
  {
    if scs == [] then []
    else (if scs[0] != [] then [scs[0]] else []) + NonEmpty(scs[1..])
  }

  /** Every (start index, position) pair the reduce loops visit. */
  function Pairs(starts: seq<Cell>, positions: seq<Cell>): set<(int, Cell)> {
    set i, j | 0 <= i < |starts| && 0 <= j < |positions| :: (starts[i].index, positions[j])
  }

  lemma {:induction false} PairsMember(starts: seq<Cell>, positions: seq<Cell>, k: int, p: Cell)
    ensures (k, p) in Pairs(starts, positions) <==> k in StartKeys(starts) && p in positions
  {
    if k in StartKeys(starts) && p in positions {
      var i :| 0 <= i < |starts| && starts[i].index == k;
      var j :| 0 <= j < |positions| && positions[j] == p;
      assert (starts[i].index, positions[j]) in Pairs(starts, positions);
    }
  }

  /**
   * `reduceMoveStrategies`: a hypothesis whose (start, position) pair is
   * among the tracked starts and `positions` is deleted when it has visited
   * more cells than the fewest any scenario needs for that pair; then empty
   * scenarios are dropped.
   */
  function Reduce(g: Grid, starts: seq<Cell>, positions: seq<Cell>, scs: seq<Scenario>): seq<Scenario> {
    NonEmpty(PruneAll(scs, Pairs(starts, positions), g.width * g.height))
  }

  /** The deletion the inner `forEach` applies to one scenario for the pair (k, p) with bound m. */
  function DeleteLonger(sc: Scenario, k: int, p: Cell, m: int): Scenario {
    match Entry(sc, k)
    case None => sc
    case Some(e) => if e.position == p && |e.visited| > m then Remove(sc, k) else sc
  }

  predicate AllUniqueKeys(scs: seq<Scenario>) {
    forall i :: 0 <= i < |scs| ==> UniqueKeys(scs[i])
  }

  /** With unique keys the per-pair deletion is a filter. */
  lemma {:induction false} DeleteLongerIsFilter(sc: Scenario, k: int, p: Cell, m: int, keep: PathState -> bool)
    requires UniqueKeys(sc)
    requires forall e :: keep(e) == !(Key(e) == k && e.position == p && |e.visited| > m)
    ensures DeleteLonger(sc, k, p, m) == Filter(sc, keep)
  {
    match Entry(sc, k)
    case None =>
      forall i | 0 <= i < |sc| ensures keep(sc[i]) {
        assert Key(sc[i]) in Keys(sc);
      }
      FilterKeepsAll(sc, keep);
    case Some(e) =>
      var keyOther := (x: PathState) => Key(x) != k;
      if e.position == p && |e.visited| > m {
        RemoveIsFilter(sc, k, keyOther);
        forall i | 0 <= i < |sc| ensures keyOther(sc[i]) == keep(sc[i]) {
          if Key(sc[i]) == k {
            assert sc[i] == e by { assert Find(sc, k) <= i; }
          }
        }
        FilterExtensional(sc, keyOther, keep);
      } else {
        forall i | 0 <= i < |sc| ensures keep(sc[i]) {
          if Key(sc[i]) == k {
            assert sc[i] == e by { assert Find(sc, k) <= i; }
          }
        }
        FilterKeepsAll(sc, keep);
      }
  }

  /** How pruning changes the size the reduce sees for (k, p) in one scenario. */
  lemma {:induction false} SizeAtPruned(sc: Scenario, pairs: set<(int, Cell)>, scs: seq<Scenario>, max: int, k: int, p: Cell)
    requires UniqueKeys(sc)
    ensures var m := MinSize(scs, k, p, max);
      SizeAt(PruneScenario(sc, pairs, scs, max), k, p) ==
        match SizeAt(sc, k, p)
        case None => None
        case Some(z) => if (k, p) !in pairs || z <= m then Some(z) else None
  {
    EntryOfFilter(sc, Surviving(pairs, scs, max), k);
  }

  /**
   * Over the first n scenarios, the minimum after pruning (k, p) against the
   * full list is the minimum before it when that does not exceed the final
   * minimum, and `max` otherwise; pairs that are not pruned see no change.
   */
  lemma {:induction false} MinSizePrunedPrefix(scs: seq<Scenario>, pairs: set<(int, Cell)>, max: int, k: int, p: Cell, n: nat)
    requires AllUniqueKeys(scs) && n <= |scs|
    ensures var pruned := PruneAll(scs, pairs, max);
      var before := MinSize(scs[..n], k, p, max);
      var after := MinSize(pruned[..n], k, p, max);
      var m := MinSize(scs, k, p, max);
      if (k, p) in pairs then after == (if before <= m then before else max) else after == before
  {
    var pruned := PruneAll(scs, pairs, max);
    if n > 0 {
      MinSizePrunedPrefix(scs, pairs, max, k, p, n - 1);
      MinSizePrunedStep(scs, pairs, max, k, p, n);
    } else {
      assert scs[..0] == [] && pruned[..0] == [];
    }
  }

  /** The step of `MinSizePrunedPrefix`, from the first n − 1 scenarios to the first n. */
  lemma {:induction false} MinSizePrunedStep(scs: seq<Scenario>, pairs: set<(int, Cell)>, max: int, k: int, p: Cell, n: nat)
    requires AllUniqueKeys(scs) && 0 < n <= |scs|
    requires var pruned := PruneAll(scs, pairs, max);
      var before := MinSize(scs[..n - 1], k, p, max);
      var after := MinSize(pruned[..n - 1], k, p, max);
      var m := MinSize(scs, k, p, max);
      if (k, p) in pairs then after == (if before <= m then before else max) else after == before
    ensures var pruned := PruneAll(scs, pairs, max);
      var before := MinSize(scs[..n], k, p, max);
      var after := MinSize(pruned[..n], k, p, max);
      var m := MinSize(scs, k, p, max);
      if (k, p) in pairs then after == (if before <= m then before else max) else after == before
  {
    var pruned := PruneAll(scs, pairs, max);
    var m := MinSize(scs, k, p, max);
    MinSizePrefixStep(scs, k, p, max, n - 1);
    MinSizePrefixStep(pruned, k, p, max, n - 1);
    assert pruned[n - 1] == PruneScenario(scs[n - 1], pairs, scs, max);
    SizeAtPruned(scs[n - 1], pairs, scs, max, k, p);
    MinSizeBelowPrefix(scs, k, p, max, n - 1);
    MinSizeAtMost(scs, k, p, max, n - 1);
    PrunedMinStep(MinSize(scs[..n - 1], k, p, max), MinSize(pruned[..n - 1], k, p, max), m, max,
      SizeAt(scs[n - 1], k, p), SizeAt(pruned[n - 1], k, p), (k, p) in pairs);
  }

  /** The minimum over the whole list is at most the minimum over a prefix. */
  lemma {:induction false} MinSizeBelowPrefix(scs: seq<Scenario>, k: int, p: Cell, max: int, n: nat)
    requires n <= |scs|
    ensures MinSize(scs, k, p, max) <= MinSize(scs[..n], k, p, max)
  {
    var b := MinSize(scs[..n], k, p, max);
    var i := MinSizeAttained(scs[..n], k, p, max);
    if b != max {
      assert scs[..n][i] == scs[i];
      MinSizeAtMost(scs, k, p, max, i);
    }
  }

  /** The arithmetic of one step of `MinSizePrunedPrefix`. */
  lemma {:induction false} PrunedMinStep(before: int, after: int, m: int, max: int, sz: Option<int>, szPruned: Option<int>, pruned: bool)
    requires m <= before && m <= max && (sz.Some? ==> m <= sz.value)
    requires szPruned == match sz case None => None case Some(z) => if !pruned || z <= m then Some(z) else None
    requires if pruned then after == (if before <= m then before else max) else after == before
    ensures var before' := match sz case None => before case Some(z) => if z < before then z else before;
      var after' := match szPruned case None => after case Some(z) => if z < after then z else after;
      if pruned then after' == (if before' <= m then before' else max) else after' == before'
  {
  }

  /** Pruning a pair never changes the minimum the reduce computes for any pair. */
  lemma {:induction false} MinSizeAfterPruning(scs: seq<Scenario>, pairs: set<(int, Cell)>, max: int, k: int, p: Cell)
    requires AllUniqueKeys(scs)
    ensures MinSize(PruneAll(scs, pairs, max), k, p, max) == MinSize(scs, k, p, max)
  {
    MinSizePrunedPrefix(scs, pairs, max, k, p, |scs|);
    assert scs[..|scs|] == scs;
    var pruned := PruneAll(scs, pairs, max);
    assert pruned[..|pruned|] == pruned;
  }

  /**
   * One round of the reduce loops, for the pair (k, p): deleting, in every
   * scenario already pruned for `pairs`, the hypothesis of key k on p that is
   * longer than the minimum prunes for one more pair.
   */
  lemma {:induction false} PruneOnePair(scs: seq<Scenario>, pairs: set<(int, Cell)>, max: int, k: int, p: Cell)
    requires AllUniqueKeys(scs)
    ensures var cur := PruneAll(scs, pairs, max);
      var m := MinSize(cur, k, p, max);
      && m == MinSize(scs, k, p, max)
      && seq(|cur|, i requires 0 <= i < |cur| => DeleteLonger(cur[i], k, p, m)) == PruneAll(scs, pairs + {(k, p)}, max)
  {
    var cur := PruneAll(scs, pairs, max);
    MinSizeAfterPruning(scs, pairs, max, k, p);
    var m := MinSize(scs, k, p, max);
    var next := PruneAll(scs, pairs + {(k, p)}, max);
    forall i | 0 <= i < |cur|
      ensures DeleteLonger(cur[i], k, p, m) == next[i]
    {
      PruneOnePairAt(scs, pairs, max, k, p, m, i);
    }
  }

  /** `PruneOnePair` for the scenario at index i. */
  lemma {:induction false} PruneOnePairAt(scs: seq<Scenario>, pairs: set<(int, Cell)>, max: int, k: int, p: Cell, m: int, i: int)
    requires AllUniqueKeys(scs) && 0 <= i < |scs| && m == MinSize(scs, k, p, max)
    ensures DeleteLonger(PruneAll(scs, pairs, max)[i], k, p, m) == PruneAll(scs, pairs + {(k, p)}, max)[i]
  {
    var sD := Surviving(pairs, scs, max);
    var sNext := Surviving(pairs + {(k, p)}, scs, max);
    var notLonger := (e: PathState) => !(Key(e) == k && e.position == p && |e.visited| > m);
    var both := (e: PathState) => sD(e) && notLonger(e);
    var cur := PruneAll(scs, pairs, max)[i];
    assert cur == Filter(scs[i], sD);
    FilterKeys(scs[i], sD);
    DeleteLongerIsFilter(cur, k, p, m, notLonger);
    FilterTwice(scs[i], sD, notLonger, both);
    FilterExtensional(scs[i], both, sNext);
  }

  // ---- what the reduce promises ----

  /** `getPossiblePositions` before de-duplication: every current cell, scenario by scenario. */
  function PossiblePositions(scs: seq<Scenario>): (r: seq<Cell>)
    ensures forall c :: c in r <==> exists i, j :: 0 <= i < |scs| && 0 <= j < |scs[i]| && scs[i][j].position == c
  {
    if scs == [] then []
    else
      var rest := PossiblePositions(scs[1..]);
      assert forall c :: c in rest <==> exists i, j :: 1 <= i < |scs| && 0 <= j < |scs[i]| && scs[i][j].position == c by {
        forall c | c in rest ensures exists i, j :: 1 <= i < |scs| && 0 <= j < |scs[i]| && scs[i][j].position == c {
          var i, j :| 0 <= i < |scs[1..]| && 0 <= j < |scs[1..][i]| && scs[1..][i][j].position == c;
          assert scs[i + 1] == scs[1..][i];
        }
        forall c | (exists i, j :: 1 <= i < |scs| && 0 <= j < |scs[i]| && scs[i][j].position == c) ensures c in rest {
          var i, j :| 1 <= i < |scs| && 0 <= j < |scs[i]| && scs[i][j].position == c;
          assert scs[1..][i - 1] == scs[i];
        }
      }
      CurrentCells(scs[0]) + rest
  }

  /** Every hypothesis the reduce keeps was already there, and no scenario it keeps is empty. */
  lemma {:induction false} ReduceOnlyDeletes(g: Grid, starts: seq<Cell>, positions: seq<Cell>, scs: seq<Scenario>, i: int, j: int)
    requires 0 <= i < |Reduce(g, starts, positions, scs)| && 0 <= j < |Reduce(g, starts, positions, scs)[i]|
    ensures Reduce(g, starts, positions, scs)[i] != []
    ensures exists i', j' :: 0 <= i' < |scs| && 0 <= j' < |scs[i']| && scs[i'][j'] == Reduce(g, starts, positions, scs)[i][j]
  {
    var pruned := PruneAll(scs, Pairs(starts, positions), g.width * g.height);
    var x := Reduce(g, starts, positions, scs)[i];
    var i' :| 0 <= i' < |pruned| && pruned[i'] == x;
    var e := x[j];
    PrunedMember(scs[i'], Pairs(starts, positions), scs, g.width * g.height, e);
    var j' :| 0 <= j' < |scs[i']| && scs[i'][j'] == e;
  }

  /**
   * The reduce deletes a hypothesis only when it has a shorter rival: its
   * pair is among those visited and it has visited more cells than the
   * minimum for that pair. So a hypothesis of minimum length is never
   * deleted.
   */
  lemma {:induction false} ReduceDeletesOnlyLonger(g: Grid, starts: seq<Cell>, positions: seq<Cell>, scs: seq<Scenario>, i: int, j: int)
    requires 0 <= i < |scs| && 0 <= j < |scs[i]|
    ensures var e := scs[i][j];
      var r := Reduce(g, starts, positions, scs);
      !(Key(e) in StartKeys(starts) && e.position in positions
        && |e.visited| > MinSize(scs, Key(e), e.position, g.width * g.height)) ==>
      exists i' :: 0 <= i' < |r| && e in r[i']
  {
    var e := scs[i][j];
    var pairs := Pairs(starts, positions);
    var max := g.width * g.height;
    assert Reduce(g, starts, positions, scs) == NonEmpty(PruneAll(scs, pairs, max));
    PairsMember(starts, positions, Key(e), e.position);
    if Survives(e, pairs, scs, max) {
      SurvivorKept(scs, pairs, max, i, j);
    }
  }

  lemma {:induction false} SurvivorKept(scs: seq<Scenario>, pairs: set<(int, Cell)>, max: int, i: int, j: int)
    requires 0 <= i < |scs| && 0 <= j < |scs[i]| && Survives(scs[i][j], pairs, scs, max)
    ensures exists i' :: 0 <= i' < |NonEmpty(PruneAll(scs, pairs, max))| && scs[i][j] in NonEmpty(PruneAll(scs, pairs, max))[i']
  {
    var pruned := PruneAll(scs, pairs, max);
    var r := NonEmpty(pruned);
    PrunedMember(scs[i], pairs, scs, max, scs[i][j]);
    assert scs[i][j] in pruned[i];
    assert pruned[i] in r;
    var i' :| 0 <= i' < |r| && r[i'] == pruned[i];
    assert scs[i][j] in r[i'];
  }

  /**
   * When no hypothesis has visited more than width × height cells (always
   * so on a built grid, see `VisitedBound`), the reduce loses no candidate:
   * for every hypothesis before it there is one afterwards with the same
   * start and the same current cell.
   */
  lemma {:induction false} ReduceKeepsEveryPair(g: Grid, starts: seq<Cell>, positions: seq<Cell>, scs: seq<Scenario>, i: int, j: int)
    requires AllUniqueKeys(scs)
    requires 0 <= i < |scs| && 0 <= j < |scs[i]| && |scs[i][j].visited| <= g.width * g.height
    ensures var r := Reduce(g, starts, positions, scs);
      exists i', j' :: 0 <= i' < |r| && 0 <= j' < |r[i']| &&
        Key(r[i'][j']) == Key(scs[i][j]) && r[i'][j'].position == scs[i][j].position
  {
    var pairs := Pairs(starts, positions);
    var max := g.width * g.height;
    var pruned := PruneAll(scs, pairs, max);
    var r := Reduce(g, starts, positions, scs);
    var t, x := RivalSurvives(scs, pairs, max, i, j);
    PrunedMember(scs[t], pairs, scs, max, x);
    assert x in pruned[t];
    var j0 :| 0 <= j0 < |pruned[t]| && pruned[t][j0] == x;
    assert pruned[t] in r;
    var i' :| 0 <= i' < |r| && r[i'] == pruned[t];
    assert r[i'][j0] == x;
  }

  /**
   * A hypothesis of at most `max` cells, or else a rival of minimum length
   * with the same start and current cell, survives the pruning.
   */
  lemma {:induction false} RivalSurvives(scs: seq<Scenario>, pairs: set<(int, Cell)>, max: int, i: int, j: int) returns (t: int, x: PathState)
    requires AllUniqueKeys(scs)
    requires 0 <= i < |scs| && 0 <= j < |scs[i]| && |scs[i][j].visited| <= max
    ensures 0 <= t < |scs| && x in scs[t] && Survives(x, pairs, scs, max)
    ensures Key(x) == Key(scs[i][j]) && x.position == scs[i][j].position
  {
    var e := scs[i][j];
    var k, p := Key(e), e.position;
    var m := MinSize(scs, k, p, max);
    if Survives(e, pairs, scs, max) {
      t, x := i, e;
    } else {
      assert m != max;
      t := MinSizeAttained(scs, k, p, max);
      x := Entry(scs[t], k).value;
    }
  }

  /** A hypothesis with distinct visited cells, all on a full grid, has visited at most width × height of them. */
  lemma {:induction false} VisitedBound(g: Grid, e: PathState)
    requires |g.cells| == g.width * g.height && Distinct(e.visited)
    requires forall i :: 0 <= i < |e.visited| ==> e.visited[i] in g.cells
    ensures |e.visited| <= g.width * g.height
  {
    DistinctBounded(e.visited, Elements(g.cells));
    ElementsBounded(g.cells);
  }

  lemma {:induction false} ElementsBounded(s: seq<Cell>)
    ensures |Elements(s)| <= |s|
  {
    if s != [] {
      ElementsBounded(s[1..]);
      assert Elements(s) == {s[0]} + Elements(s[1..]) by {
        forall x | x in Elements(s) ensures x in {s[0]} + Elements(s[1..]) {
          var i :| 0 <= i < |s| && s[i] == x;
          if i > 0 { assert s[1..][i - 1] == x; }
        }
      }
    }
  }

  // ---- updateMoveStrategies ----

  /** Some scenario has a hypothesis of key `k` (`some(ms => ms.has(start))`). */
  predicate IsUsed(scs: seq<Scenario>, k: int) {
    exists i :: 0 <= i < |scs| && Has(scs[i], k)
  }

  /** The start cells some scenario still uses, in order. */
  function UsedStarts(starts: seq<Cell>, scs: seq<Scenario>): seq<Cell> {
    CellsWhere(starts, (c: Cell) => IsUsed(scs, c.index))
  }

  /**
   * The tracker's structural invariant: every scenario is non-empty and has
   * unique keys, every key is the index of a start cell, and every start
   * cell is in use.
   */
  ghost predicate Consistent(starts: seq<Cell>, scs: seq<Scenario>) {
    && AllUniqueKeys(scs)
    && (forall i :: 0 <= i < |scs| ==> scs[i] != [] && Keys(scs[i]) <= StartKeys(starts))
    && (forall j :: 0 <= j < |starts| ==> IsUsed(scs, starts[j].index))
  }

  /** The weaker invariant every tracker operation keeps between updates. */
  ghost predicate Keyed(starts: seq<Cell>, scs: seq<Scenario>) {
    && AllUniqueKeys(scs)
    && (forall i :: 0 <= i < |scs| ==> Keys(scs[i]) <= StartKeys(starts))
  }

  lemma {:induction false} HasIsKey(sc: Scenario, k: int)
    ensures Has(sc, k) <==> k in Keys(sc)
  {
    assert Has(sc, k) <==> Entry(sc, k).Some?;
  }

  /**
   * `updateMoveStrategies` restores the structural invariant from the weaker
   * one: it drops exactly the empty scenarios and exactly the unused starts,
   * keeping the order of both.
   */
  lemma {:induction false} UpdateRestoresInvariant(starts: seq<Cell>, scs: seq<Scenario>)
    requires Keyed(starts, scs)
    ensures Consistent(UsedStarts(starts, NonEmpty(scs)), NonEmpty(scs))
    ensures forall c :: c in UsedStarts(starts, NonEmpty(scs)) <==> c in starts && IsUsed(scs, c.index)
  {
    var scs' := NonEmpty(scs);
    var starts' := UsedStarts(starts, scs');
    NonEmptySameUse(scs);
    UsedStartsMember(starts, scs', scs);
    forall i | 0 <= i < |scs'| ensures Keys(scs'[i]) <= StartKeys(starts') {
      var t :| 0 <= t < |scs| && scs[t] == scs'[i];
      UsedKeysAreStarts(starts, scs', scs'[i]);
    }
    forall j | 0 <= j < |starts'| ensures IsUsed(scs', starts'[j].index) {
      assert starts'[j] in starts';
    }
  }

  /** Dropping the empty scenarios changes no key's use. */
  lemma {:induction false} NonEmptySameUse(scs: seq<Scenario>)
    ensures forall k :: IsUsed(NonEmpty(scs), k) <==> IsUsed(scs, k)
  {
    forall k ensures IsUsed(NonEmpty(scs), k) <==> IsUsed(scs, k) {
      if IsUsed(scs, k) {
        var i :| 0 <= i < |scs| && Has(scs[i], k);
        assert scs[i] in NonEmpty(scs);
      }
    }
  }

  /** The starts kept are the starts some scenario uses. */
  lemma {:induction false} UsedStartsMember(starts: seq<Cell>, scs: seq<Scenario>, before: seq<Scenario>)
    requires forall k :: IsUsed(scs, k) <==> IsUsed(before, k)
    ensures forall c :: c in UsedStarts(starts, scs) <==> c in starts && IsUsed(before, c.index)
  {
    forall c ensures c in UsedStarts(starts, scs) <==> c in starts && IsUsed(before, c.index) {
      CellsWhereMember(starts, (c: Cell) => IsUsed(scs, c.index), c);
    }
  }

  /** A key of a scenario of the list that is a start's index is the index of a kept start. */
  lemma {:induction false} UsedKeysAreStarts(starts: seq<Cell>, scs: seq<Scenario>, sc: Scenario)
    requires sc in scs && Keys(sc) <= StartKeys(starts)
    ensures Keys(sc) <= StartKeys(UsedStarts(starts, scs))
  {
    var kept := UsedStarts(starts, scs);
    forall k | k in Keys(sc) ensures k in StartKeys(kept) {
      var j :| 0 <= j < |starts| && starts[j].index == k;
      HasIsKey(sc, k);
      assert IsUsed(scs, k);
      assert starts[j] in kept;
      var j' :| 0 <= j' < |kept| && kept[j'] == starts[j];
    }
  }

  // ---- the MOVE step over a whole scenario ----

  /** `x` is the step of some entry of `sc`. */
  predicate StepOf(g: Grid, rules: StepRules, d: Direction, sc: Scenario, x: PathState) {
    exists j :: 0 <= j < |sc| && Step(g, rules, sc[j], d) == Some(x)
  }

  lemma {:induction false} StepOfTail(g: Grid, rules: StepRules, d: Direction, sc: Scenario, x: PathState)
    requires sc != [] && StepOf(g, rules, d, sc[1..], x)
    ensures StepOf(g, rules, d, sc, x)
  {
    var j :| 0 <= j < |sc[1..]| && Step(g, rules, sc[1..][j], d) == Some(x);
    assert sc[1..][j] == sc[j + 1];
  }

  /** Each survivor of one step is the step of an entry. */
  lemma {:induction false} StepAllFrom(g: Grid, rules: StepRules, d: Direction, sc: Scenario)
    ensures forall x :: x in StepAll(g, rules, d, sc) ==> StepOf(g, rules, d, sc, x)
  {
    if sc != [] {
      StepAllFrom(g, rules, d, sc[1..]);
      var rest := StepAll(g, rules, d, sc[1..]);
      var h := Step(g, rules, sc[0], d);
      if h.None? {
        assert StepAll(g, rules, d, sc) == rest;
        forall x | x in rest ensures StepOf(g, rules, d, sc, x) {
          StepOfTail(g, rules, d, sc, x);
        }
      } else {
        var r := [h.value] + rest;
        assert StepAll(g, rules, d, sc) == r;
        forall x | x in r ensures StepOf(g, rules, d, sc, x) {
          if x == h.value {
            assert Step(g, rules, sc[0], d) == Some(x);
          } else {
            assert x in rest;
            StepOfTail(g, rules, d, sc, x);
          }
        }
      }
    }
  }

  /** The survivors of one step keep unique keys, lose keys only, and each is the step of an entry. */
  lemma {:induction false} StepAllShape(g: Grid, rules: StepRules, d: Direction, sc: Scenario)
    requires UniqueKeys(sc)
    ensures var r := StepAll(g, rules, d, sc);
      && UniqueKeys(r) && Keys(r) <= Keys(sc)
      && forall x :: x in r ==> StepOf(g, rules, d, sc, x)
  {
    StepAllFrom(g, rules, d, sc);
    StepAllKeys(g, rules, d, sc);
    StepAllUnique(g, rules, d, sc);
  }

  /** The survivors of one step carry keys of the scenario only. */
  lemma {:induction false} StepAllKeys(g: Grid, rules: StepRules, d: Direction, sc: Scenario)
    ensures Keys(StepAll(g, rules, d, sc)) <= Keys(sc)
  {
    var r := StepAll(g, rules, d, sc);
    StepAllFrom(g, rules, d, sc);
    forall k | k in Keys(r) ensures k in Keys(sc) {
      var i :| 0 <= i < |r| && Key(r[i]) == k;
      assert r[i] in r;
      var j :| 0 <= j < |sc| && Step(g, rules, sc[j], d) == Some(r[i]);
      StepKeepsStart(g, rules, sc[j], d);
      assert Key(sc[j]) == k;
    }
  }

  /** The survivors of one step keep unique keys. */
  lemma {:induction false} StepAllUnique(g: Grid, rules: StepRules, d: Direction, sc: Scenario)
    requires UniqueKeys(sc)
    ensures UniqueKeys(StepAll(g, rules, d, sc))
  {
    if sc != [] {
      UniqueKeysTail(sc);
      StepAllUnique(g, rules, d, sc[1..]);
      StepAllKeys(g, rules, d, sc[1..]);
      var rest := StepAll(g, rules, d, sc[1..]);
      var h := Step(g, rules, sc[0], d);
      if h.Some? {
        StepKeepsStart(g, rules, sc[0], d);
        HeadKeyFresh(sc);
        assert Entry(rest, Key(h.value)).None?;
        ConsUniqueKeys(h.value, rest);
        assert StepAll(g, rules, d, sc) == [h.value] + rest;
      } else {
        assert StepAll(g, rules, d, sc) == rest;
      }
    }
  }

  // ---- SILENCE ----

  /** `addPosition` applied `n` times: the clone advanced `n` straight steps. */
  function Advanced(g: Grid, rules: StepRules, d: Direction, starts: seq<Cell>, sc: Scenario, n: nat): Scenario {
    if n == 0 then sc else AddPosition(g, rules, d, starts, Advanced(g, rules, d, starts, sc, n - 1))
  }

  /** The four chained clones of one direction, advanced 1, 2, 3 and 4 steps. */
  function Run(g: Grid, rules: StepRules, d: Direction, starts: seq<Cell>, sc: Scenario): seq<Scenario> {
    [Advanced(g, rules, d, starts, sc, 1), Advanced(g, rules, d, starts, sc, 2),
     Advanced(g, rules, d, starts, sc, 3), Advanced(g, rules, d, starts, sc, 4)]
  }

  /** The children of one scenario: itself when the zero-length silence is kept, then the runs in table order. */
  function FanOut(g: Grid, rules: StepRules, dirs: seq<Direction>, starts: seq<Cell>, sc: Scenario, withZero: bool): (r: seq<Scenario>)
    ensures |r| == 4 * |dirs| + (if withZero then 1 else 0)
  {
    if dirs == [] then (if withZero then [sc] else [])
    else FanOut(g, rules, dirs[..|dirs| - 1], starts, sc, withZero) + Run(g, rules, dirs[|dirs| - 1], starts, sc)
  }

  /** SILENCE after the reduce: every scenario replaced by its children, in order. */
  function Silence(g: Grid, rules: StepRules, dirs: seq<Direction>, starts: seq<Cell>, scs: seq<Scenario>, withZero: bool): (r: seq<Scenario>)
    ensures |r| == |scs| * (4 * |dirs| + (if withZero then 1 else 0))
  {
    if scs == [] then []
    else
      var n := 4 * |dirs| + (if withZero then 1 else 0);
      assert |scs| * n == n + (|scs| - 1) * n;
      FanOut(g, rules, dirs, starts, scs[0], withZero) + Silence(g, rules, dirs, starts, scs[1..], withZero)
  }

  /** `x` sits exactly n unit vectors of `d` away from the hypothesis of the same start in `sc`. */
  predicate ComesFrom(x: PathState, sc: Scenario, d: Direction, n: int) {
    exists j :: 0 <= j < |sc| && Key(sc[j]) == Key(x) &&
      x.position.coordinate == Add(sc[j].position.coordinate, Multiply(Vector(d), n))
  }

  /** `r` has unique keys, all taken from `sc`, and each of its hypotheses comes from `sc` n steps back. */
  ghost predicate Straight(r: Scenario, sc: Scenario, d: Direction, n: int) {
    && UniqueKeys(r) && Keys(r) <= Keys(sc)
    && forall i :: 0 <= i < |r| ==> ComesFrom(r[i], sc, d, n)
  }

  /**
   * On a built grid with the bounds-checked lookup, when the start cells
   * have pairwise different indices and cover the keys, every hypothesis of
   * the clone advanced n steps comes from a hypothesis of the same start
   * that sat exactly n unit vectors back.
   */
  lemma {:induction false} AdvancedIsStraight(g: Grid, d: Direction, starts: seq<Cell>, sc: Scenario, n: nat)
    requires WellFormed(g) && UniqueKeys(sc) && DistinctIndices(starts) && Keys(sc) <= StartKeys(starts)
    ensures Straight(Advanced(g, StepRules(true, false), d, starts, sc, n), sc, d, n)
  {
    var rules := StepRules(true, false);
    if n == 0 {
      StartComesFrom(d, sc);
    } else {
      var prev := Advanced(g, rules, d, starts, sc, n - 1);
      AdvancedIsStraight(g, d, starts, sc, n - 1);
      StraightOneMore(g, d, starts, sc, prev, n);
    }
  }

  /** The inductive step of `AdvancedIsStraight`: one more `addPosition` in the same direction. */
  lemma {:induction false} StraightOneMore(g: Grid, d: Direction, starts: seq<Cell>, sc: Scenario, prev: Scenario, n: int)
    requires WellFormed(g) && DistinctIndices(starts)
    requires Straight(prev, sc, d, n - 1) && Keys(sc) <= StartKeys(starts)
    ensures Straight(AddPosition(g, StepRules(true, false), d, starts, prev), sc, d, n)
  {
    var rules := StepRules(true, false);
    AddPositionMovesEachOnce(g, rules, d, starts, prev);
    StepAllKeys(g, rules, d, prev);
    StepAllUnique(g, rules, d, prev);
    StepAllComesFrom(g, d, prev, sc, n);
  }

  /** Every hypothesis comes from itself, zero steps back. */
  lemma {:induction false} StartComesFrom(d: Direction, sc: Scenario)
    ensures forall i :: 0 <= i < |sc| ==> ComesFrom(sc[i], sc, d, 0)
  {
    forall i | 0 <= i < |sc| ensures ComesFrom(sc[i], sc, d, 0) {
      assert sc[i].position.coordinate == Add(sc[i].position.coordinate, Multiply(Vector(d), 0));
    }
  }

  /** One straight step of a whole scenario carries `ComesFrom` from n − 1 to n. */
  lemma {:induction false} StepAllComesFrom(g: Grid, d: Direction, prev: Scenario, sc: Scenario, n: int)
    requires WellFormed(g)
    requires forall i :: 0 <= i < |prev| ==> ComesFrom(prev[i], sc, d, n - 1)
    ensures var r := StepAll(g, StepRules(true, false), d, prev);
      forall i :: 0 <= i < |r| ==> ComesFrom(r[i], sc, d, n)
  {
    var rules := StepRules(true, false);
    var r := StepAll(g, rules, d, prev);
    StepAllFrom(g, rules, d, prev);
    forall i | 0 <= i < |r| ensures ComesFrom(r[i], sc, d, n) {
      assert r[i] in r;
      var t :| 0 <= t < |prev| && Step(g, rules, prev[t], d) == Some(r[i]);
      StepComesFrom(g, d, prev[t], r[i], sc, n);
    }
  }

  /** One more step in the same direction carries `ComesFrom` from n − 1 to n. */
  lemma {:induction false} StepComesFrom(g: Grid, d: Direction, e: PathState, x: PathState, sc: Scenario, n: int)
    requires WellFormed(g) && Step(g, StepRules(true, false), e, d) == Some(x) && ComesFrom(e, sc, d, n - 1)
    ensures ComesFrom(x, sc, d, n)
  {
    StepMovesOneUnit(g, e, d);
    var j :| 0 <= j < |sc| && Key(sc[j]) == Key(e) &&
      e.position.coordinate == Add(sc[j].position.coordinate, Multiply(Vector(d), n - 1));
    StraightStep(sc[j].position.coordinate, d, n);
  }

  lemma {:induction false} StraightStep(p: Coordinate, d: Direction, n: int)
    ensures Add(Add(p, Multiply(Vector(d), n - 1)), Vector(d)) == Add(p, Multiply(Vector(d), n))
  {
  }
}
