// The opponent tracker's hypotheses, as values: a path hypothesis (start
// cell, visited cells, current cell), a scenario (the Map from start index
// to hypothesis, in key insertion order), the filters, the MOVE step and
// its fold over the start positions.
module Hypotheses {
  import opened Sequences
  import opened Positions
  import opened Directions
  import opened CellContainers
  import opened Cells
  import opened Grids

  /** A path hypothesis: where the opponent started, where it has been, where it is. */
  datatype PathState = PathState(start: Cell, visited: seq<Cell>, position: Cell)

  /** The Map key of a hypothesis: the index of its start cell. */
  function Key(e: PathState): int {
    e.start.index
  }

  /** A hypothesis that has not moved yet: it has visited its start and sits there. */
  function Fresh(start: Cell): PathState {
    PathState(start, [start], start)
  }

  /**
   * A hypothesis as every tracker keeps it: it starts at its start cell, its
   * visited cells are pairwise different, and it sits on the last of them.
   */
  ghost predicate Tracked(e: PathState) {
    && |e.visited| > 0
    && e.visited[0] == e.start
    && e.position == e.visited[|e.visited| - 1]
    && Distinct(e.visited)
  }

  // ---- scenarios: insertion-ordered Maps keyed by start index ----

  /** A scenario: the entries of a Map from start index to hypothesis. */
  type Scenario = seq<PathState>

  predicate UniqueKeys(sc: Scenario) {
    forall i, j :: 0 <= i < j < |sc| ==> Key(sc[i]) != Key(sc[j])
  }

  /** The set of keys of a scenario. */
  function Keys(sc: Scenario): set<int> {
    set i | 0 <= i < |sc| :: Key(sc[i])
  }

  /** Where the entry with key `k` sits, or `|sc|` when there is none. */
  function Find(sc: Scenario, k: int): (i: nat)
    ensures i <= |sc|
    ensures i < |sc| ==> Key(sc[i]) == k
    ensures forall j :: 0 <= j < i ==> Key(sc[j]) != k
  {
    if sc == [] then 0
    else if Key(sc[0]) == k then 0
    else 1 + Find(sc[1..], k)
  }

  /** `has(k)`. */
  predicate Has(sc: Scenario, k: int) {
    Find(sc, k) < |sc|
  }

  /** `set(key(e), e)`: a known key keeps its place, a new key goes last. */
  function Put(sc: Scenario, e: PathState): Scenario {
    var i := Find(sc, Key(e));
    if i < |sc| then sc[i := e] else sc + [e]
  }

  /** The constructor's reduce: one fresh hypothesis per start position. */
  function FromStarts(starts: seq<Cell>): Scenario
    decreases |starts|
  {
    if starts == [] then [] else Put(FromStarts(starts[..|starts| - 1]), Fresh(starts[|starts| - 1]))
  }

  /** The entries that satisfy `keep`, in order: what deleting every other entry leaves. */
  function Filter(sc: Scenario, keep: PathState -> bool): (r: Scenario)
    ensures |r| <= |sc|
  {
    if sc == [] then []
    else (if keep(sc[0]) then [sc[0]] else []) + Filter(sc[1..], keep)
  }

  /** A filter holds exactly the entries that satisfy its predicate. */
  lemma {:induction false} FilterMember(sc: Scenario, keep: PathState -> bool, x: PathState)
    ensures x in Filter(sc, keep) <==> x in sc && keep(x)
  {
    if sc != [] {
      FilterMember(sc[1..], keep, x);
      assert sc == [sc[0]] + sc[1..];
    }
  }

  /** The current cells of a scenario's hypotheses, in entry order. */
  function CurrentCells(sc: Scenario): (r: seq<Cell>)
    ensures |r| == |sc|
    ensures forall i :: 0 <= i < |sc| ==> r[i] == sc[i].position
  {
    seq(|sc|, i requires 0 <= i < |sc| => sc[i].position)
  }

  // ---- the MOVE step ----

  /**
   * How a tracker generation looks up the target and detects a revisit:
   * `guarded` uses the bounds-checked index, otherwise the unguarded
   * row-major index; `byCoordinate` compares visited coordinates with the
   * raw target coordinate, otherwise visited cells with the cell found.
   */
  datatype StepRules = StepRules(guarded: bool, byCoordinate: bool)

  /** The cell one move away, as the tracker looks it up. */
  function Target(g: Grid, guarded: bool, p: Coordinate, d: Direction): Option<Cell> {
    var q := Add(p, Vector(d));
    if guarded then CellFromCoordinate(g, q) else GetCell(g, GetIndexAsWritten(Frame(g), q))
  }

  /** Whether the tracker sees the target as already visited. */
  predicate Revisits(rules: StepRules, e: PathState, t: Cell, q: Coordinate) {
    if rules.byCoordinate then exists i :: 0 <= i < |e.visited| && e.visited[i].coordinate == q
    else t in e.visited
  }

  /**
   * One move of one hypothesis: it survives when the target cell exists, is
   * sea and is not a revisit, and then moves there and records it.
   */
  function Step(g: Grid, rules: StepRules, e: PathState, d: Direction): Option<PathState> {
    var q := Add(e.position.coordinate, Vector(d));
    var t := Target(g, rules.guarded, e.position.coordinate, d);
    if t.Some? && IsAvailable(t.value) && !Revisits(rules, e, t.value, q) then
      Some(PathState(e.start, e.visited + [t.value], t.value))
    else None
  }

  /** `addPosition` for one start: move its hypothesis, or delete it when the move fails. */
  function Advance(g: Grid, rules: StepRules, d: Direction, sc: Scenario, s: Cell): Scenario {
    var i := Find(sc, s.index);
    if i == |sc| then sc
    else match Step(g, rules, sc[i], d)
      case None => sc[..i] + sc[i + 1..]
      case Some(e) => sc[i := e]
  }

  /** `addPosition`: `Advance` for each start position in turn. */
  function AddPosition(g: Grid, rules: StepRules, d: Direction, starts: seq<Cell>, sc: Scenario): Scenario
    decreases |starts|
  {
    if starts == [] then sc else AddPosition(g, rules, d, starts[1..], Advance(g, rules, d, sc, starts[0]))
  }

  /** The survivors of one move, each moved once, in entry order. */
  function StepAll(g: Grid, rules: StepRules, d: Direction, sc: Scenario): Scenario {
    if sc == [] then []
    else
      (match Step(g, rules, sc[0], d) case None => [] case Some(e) => [e]) + StepAll(g, rules, d, sc[1..])
  }

  /** The scenario with only the entries whose key is in `done` moved. */
  function StepOnly(g: Grid, rules: StepRules, d: Direction, sc: Scenario, done: set<int>): Scenario {
    if sc == [] then []
    else
      (if Key(sc[0]) !in done then [sc[0]]
       else match Step(g, rules, sc[0], d) case None => [] case Some(e) => [e])
      + StepOnly(g, rules, d, sc[1..], done)
  }

  // ---- PathScenario.add and the map operations ----

  /** `add(cell)`: the hypothesis moves to `cell`, which joins the visited set. */
  function Visit(e: PathState, c: Cell): (r: PathState)
    ensures r.start == e.start && r.position == c && c in r.visited
    ensures forall x :: x in r.visited <==> x in e.visited || x == c
    ensures |r.visited| == if c in e.visited then |e.visited| else |e.visited| + 1
  {
    PathState(e.start, if c in e.visited then e.visited else e.visited + [c], c)
  }

  /** The hypothesis stored under key `k`, if any (`get(k)`). */
  function Entry(sc: Scenario, k: int): (r: Option<PathState>)
    ensures r.Some? <==> k in Keys(sc)
    ensures r.Some? ==> r.value in sc && Key(r.value) == k
  {
    var i := Find(sc, k);
    if i < |sc| then Some(sc[i]) else None
  }

  /** `delete(k)`. */
  function Remove(sc: Scenario, k: int): Scenario {
    var i := Find(sc, k);
    if i < |sc| then sc[..i] + sc[i + 1..] else sc
  }

  // ---- filters ----

  lemma {:induction false} FilterKeepsAll(sc: Scenario, keep: PathState -> bool)
    requires forall i :: 0 <= i < |sc| ==> keep(sc[i])
    ensures Filter(sc, keep) == sc
  {
    if sc != [] {
      FilterKeepsAll(sc[1..], keep);
    }
  }

  /** A filter depends only on the values of its predicate on the entries. */
  lemma {:induction false} FilterExtensional(sc: Scenario, p: PathState -> bool, q: PathState -> bool)
    requires forall i :: 0 <= i < |sc| ==> p(sc[i]) == q(sc[i])
    ensures Filter(sc, p) == Filter(sc, q)
  {
    if sc != [] {
      FilterExtensional(sc[1..], p, q);
    }
  }

  /** Filtering twice is filtering once with both predicates. */
  lemma {:induction false} FilterTwice(sc: Scenario, p: PathState -> bool, q: PathState -> bool, both: PathState -> bool)
    requires forall e :: both(e) == (p(e) && q(e))
    ensures Filter(Filter(sc, p), q) == Filter(sc, both)
  {
    if sc != [] {
      FilterTwice(sc[1..], p, q, both);
      var fp := Filter(sc, p);
      if p(sc[0]) {
        assert fp == [sc[0]] + Filter(sc[1..], p);
        assert fp[0] == sc[0] && fp[1..] == Filter(sc[1..], p);
        assert Filter(fp, q) == (if q(sc[0]) then [sc[0]] else []) + Filter(fp[1..], q);
      } else {
        assert fp == Filter(sc[1..], p);
      }
    }
  }

  /**
   * Keep and exclude with complementary predicates split a scenario: the two
   * results together hold every entry exactly once.
   */
  lemma {:induction false} FilterSplits(sc: Scenario, keep: PathState -> bool, drop: PathState -> bool)
    requires forall e :: drop(e) == !keep(e)
    ensures multiset(Filter(sc, keep)) + multiset(Filter(sc, drop)) == multiset(sc)
    ensures |Filter(sc, keep)| + |Filter(sc, drop)| == |sc|
  {
    if sc != [] {
      FilterSplits(sc[1..], keep, drop);
      var k1, d1 := Filter(sc[1..], keep), Filter(sc[1..], drop);
      assert sc == [sc[0]] + sc[1..];
      assert multiset(sc) == multiset([sc[0]]) + multiset(sc[1..]);
      if keep(sc[0]) {
        assert Filter(sc, keep) == [sc[0]] + k1 && Filter(sc, drop) == d1;
        assert multiset([sc[0]] + k1) == multiset([sc[0]]) + multiset(k1);
      } else {
        assert Filter(sc, keep) == k1 && Filter(sc, drop) == [sc[0]] + d1;
        assert multiset([sc[0]] + d1) == multiset([sc[0]]) + multiset(d1);
      }
    }
  }

  /** The rest of a scenario with unique keys has unique keys. */
  lemma {:induction false} UniqueKeysTail(sc: Scenario)
    requires UniqueKeys(sc) && sc != []
    ensures UniqueKeys(sc[1..])
  {
    forall i, j | 0 <= i < j < |sc[1..]| ensures Key(sc[1..][i]) != Key(sc[1..][j]) {
      assert sc[1..][i] == sc[i + 1] && sc[1..][j] == sc[j + 1];
    }
  }

  /** A filter keeps the relative order, so it keeps keys unique and only loses keys. */
  lemma {:induction false} FilterKeys(sc: Scenario, keep: PathState -> bool)
    requires UniqueKeys(sc)
    ensures UniqueKeys(Filter(sc, keep))
    ensures Keys(Filter(sc, keep)) <= Keys(sc)
  {
    if sc != [] {
      UniqueKeysTail(sc);
      FilterKeys(sc[1..], keep);
      var tail := Filter(sc[1..], keep);
      KeyNotInFilteredTail(sc, keep);
      if keep(sc[0]) {
        ConsUniqueKeys(sc[0], tail);
        assert Filter(sc, keep) == [sc[0]] + tail;
      } else {
        assert Filter(sc, keep) == tail;
      }
      FilterKeysSubset(sc, keep);
    }
  }

  /** Putting an entry whose key the rest lacks in front keeps keys unique. */
  lemma {:induction false} ConsUniqueKeys(e: PathState, sc: Scenario)
    requires UniqueKeys(sc) && Find(sc, Key(e)) == |sc|
    ensures UniqueKeys([e] + sc)
  {
    var r := [e] + sc;
    forall i, j | 0 <= i < j < |r| ensures Key(r[i]) != Key(r[j]) {
      assert r[j] == sc[j - 1];
      if i > 0 {
        assert r[i] == sc[i - 1];
      }
    }
  }

  /** With unique keys, the first key is not a key of the rest. */
  lemma {:induction false} HeadKeyFresh(sc: Scenario)
    requires UniqueKeys(sc) && sc != []
    ensures Key(sc[0]) !in Keys(sc[1..])
  {
    forall j | 0 <= j < |sc[1..]| ensures Key(sc[1..][j]) != Key(sc[0]) {
      assert sc[1..][j] == sc[j + 1];
    }
  }

  /** The keys of a non-empty scenario are its first key and the keys of the rest. */
  lemma {:induction false} KeysCons(sc: Scenario)
    requires sc != []
    ensures Keys(sc) == {Key(sc[0])} + Keys(sc[1..])
  {
    forall k | k in Keys(sc) ensures k in {Key(sc[0])} + Keys(sc[1..]) {
      var j :| 0 <= j < |sc| && Key(sc[j]) == k;
      if j > 0 { assert sc[1..][j - 1] == sc[j]; }
    }
    forall k | k in Keys(sc[1..]) ensures k in Keys(sc) {
      var j :| 0 <= j < |sc[1..]| && Key(sc[1..][j]) == k;
      assert sc[1..][j] == sc[j + 1];
    }
  }

  /** The keys of a filter are keys of the scenario. */
  lemma {:induction false} FilterKeysSubset(sc: Scenario, keep: PathState -> bool)
    ensures Keys(Filter(sc, keep)) <= Keys(sc)
  {
    forall k | k in Keys(Filter(sc, keep))
      ensures k in Keys(sc)
    {
      var i :| 0 <= i < |Filter(sc, keep)| && Key(Filter(sc, keep)[i]) == k;
      FilterMember(sc, keep, Filter(sc, keep)[i]);
      var j :| 0 <= j < |sc| && sc[j] == Filter(sc, keep)[i];
    }
  }

  /** With unique keys, a filter keeps the entry under key `k` exactly when the predicate holds for it. */
  lemma {:induction false} EntryOfFilter(sc: Scenario, keep: PathState -> bool, k: int)
    requires UniqueKeys(sc)
    ensures Entry(Filter(sc, keep), k) ==
      if Entry(sc, k).Some? && keep(Entry(sc, k).value) then Entry(sc, k) else None
  {
    if sc != [] {
      FilterCons(sc, keep);
      FindCons(sc, k);
      if Key(sc[0]) == k {
        KeyNotInFilteredTail(sc, keep);
        if keep(sc[0]) {
          FindCons(Filter(sc, keep), k);
        }
      } else {
        EntryOfFilter(sc[1..], keep, k);
        if keep(sc[0]) {
          FindCons(Filter(sc, keep), k);
        }
      }
    }
  }

  /** A filter of a non-empty scenario, one entry at a time. */
  lemma {:induction false} FilterCons(sc: Scenario, keep: PathState -> bool)
    requires sc != []
    ensures Filter(sc, keep) == (if keep(sc[0]) then [sc[0]] + Filter(sc[1..], keep) else Filter(sc[1..], keep))
  {
  }

  /** `Find` in a non-empty scenario, one entry at a time. */
  lemma {:induction false} FindCons(sc: Scenario, k: int)
    requires sc != []
    ensures Find(sc, k) == if Key(sc[0]) == k then 0 else 1 + Find(sc[1..], k)
  {
  }

  /** The key of the first entry occurs nowhere in a filter of the rest. */
  lemma {:induction false} KeyNotInFilteredTail(sc: Scenario, keep: PathState -> bool)
    requires UniqueKeys(sc) && sc != []
    ensures Find(Filter(sc[1..], keep), Key(sc[0])) == |Filter(sc[1..], keep)|
  {
    var tail := Filter(sc[1..], keep);
    forall i | 0 <= i < |tail|
      ensures Key(tail[i]) != Key(sc[0])
    {
      FilterMember(sc[1..], keep, tail[i]);
      var j :| 0 <= j < |sc[1..]| && sc[1..][j] == tail[i];
      assert sc[j + 1] == tail[i];
    }
  }

  /** With unique keys, `delete(k)` is the filter that drops key `k`. */
  lemma {:induction false} RemoveIsFilter(sc: Scenario, k: int, keep: PathState -> bool)
    requires UniqueKeys(sc)
    requires forall e :: keep(e) == (Key(e) != k)
    ensures Remove(sc, k) == Filter(sc, keep)
  {
    if sc != [] {
      if Key(sc[0]) == k {
        assert Remove(sc, k) == sc[1..];
        forall i | 0 <= i < |sc[1..]| ensures keep(sc[1..][i]) {
          assert sc[1..][i] == sc[i + 1];
        }
        FilterKeepsAll(sc[1..], keep);
      } else {
        UniqueKeysTail(sc);
        RemoveIsFilter(sc[1..], k, keep);
        RemoveCons(sc, k);
        assert Filter(sc, keep) == [sc[0]] + Filter(sc[1..], keep);
      }
    }
  }

  /** Deleting a key other than the first entry's keeps the first entry in front. */
  lemma {:induction false} RemoveCons(sc: Scenario, k: int)
    requires sc != [] && Key(sc[0]) != k
    ensures Remove(sc, k) == [sc[0]] + Remove(sc[1..], k)
  {
    var i := Find(sc[1..], k);
    assert Find(sc, k) == i + 1;
    if i < |sc[1..]| {
      assert sc[..i + 1] + sc[i + 2..] == [sc[0]] + (sc[1..][..i] + sc[1..][i + 1..]);
    }
  }

  // ---- seeding ----

  /** The indices of a list of start cells. */
  function StartKeys(starts: seq<Cell>): set<int> {
    set i | 0 <= i < |starts| :: starts[i].index
  }

  /** `set` keeps keys unique and adds the key of the new entry. */
  lemma {:induction false} PutKeys(sc: Scenario, e: PathState)
    requires UniqueKeys(sc)
    ensures UniqueKeys(Put(sc, e)) && Keys(Put(sc, e)) == Keys(sc) + {Key(e)}
    ensures forall i :: 0 <= i < |Put(sc, e)| ==> Put(sc, e)[i] == e || Put(sc, e)[i] in sc
  {
    var i := Find(sc, Key(e));
    if i < |sc| {
      assert Keys(Put(sc, e)) == Keys(sc) by {
        forall k | k in Keys(sc) ensures k in Keys(Put(sc, e)) {
          var j :| 0 <= j < |sc| && Key(sc[j]) == k;
          assert Key(Put(sc, e)[j]) == k;
        }
      }
    } else {
      assert Put(sc, e) == sc + [e];
      assert Keys(Put(sc, e)) == Keys(sc) + {Key(e)} by {
        forall k | k in Keys(sc) ensures k in Keys(Put(sc, e)) {
          var j :| 0 <= j < |sc| && Key(sc[j]) == k;
          assert Key(Put(sc, e)[j]) == k;
        }
        assert Key(Put(sc, e)[|sc|]) == Key(e);
      }
    }
  }

  /**
   * The seeded scenario has one fresh hypothesis per distinct start index,
   * keyed uniquely, and nothing else.
   */
  lemma {:induction false} FromStartsShape(starts: seq<Cell>)
    ensures UniqueKeys(FromStarts(starts))
    ensures Keys(FromStarts(starts)) == StartKeys(starts)
    ensures forall i :: 0 <= i < |FromStarts(starts)| ==>
      exists j :: 0 <= j < |starts| && FromStarts(starts)[i] == Fresh(starts[j])
  {
    FromStartsKeys(starts);
    FromStartsOrigin(starts);
  }

  lemma {:induction false} FromStartsKeys(starts: seq<Cell>)
    ensures UniqueKeys(FromStarts(starts)) && Keys(FromStarts(starts)) == StartKeys(starts)
    decreases |starts|
  {
    if starts != [] {
      var init := starts[..|starts| - 1];
      FromStartsKeys(init);
      PutKeys(FromStarts(init), Fresh(starts[|starts| - 1]));
      StartKeysSnoc(starts);
    }
  }

  lemma {:induction false} StartKeysSnoc(starts: seq<Cell>)
    requires starts != []
    ensures StartKeys(starts) == StartKeys(starts[..|starts| - 1]) + {starts[|starts| - 1].index}
  {
    var init := starts[..|starts| - 1];
    forall k | k in StartKeys(starts) ensures k in StartKeys(init) + {starts[|starts| - 1].index} {
      var j :| 0 <= j < |starts| && starts[j].index == k;
      if j < |init| { assert init[j] == starts[j]; }
    }
    forall k | k in StartKeys(init) ensures k in StartKeys(starts) {
      var j :| 0 <= j < |init| && init[j].index == k;
      assert starts[j] == init[j];
    }
  }

  lemma {:induction false} FromStartsOrigin(starts: seq<Cell>)
    ensures forall i :: 0 <= i < |FromStarts(starts)| ==>
      exists j :: 0 <= j < |starts| && FromStarts(starts)[i] == Fresh(starts[j])
    decreases |starts|
  {
    if starts != [] {
      var init := starts[..|starts| - 1];
      var last := starts[|starts| - 1];
      FromStartsOrigin(init);
      FromStartsKeys(init);
      PutKeys(FromStarts(init), Fresh(last));
      forall i | 0 <= i < |FromStarts(starts)|
        ensures exists j :: 0 <= j < |starts| && FromStarts(starts)[i] == Fresh(starts[j])
      {
        var x := FromStarts(starts)[i];
        if x == Fresh(last) {
          assert x == Fresh(starts[|starts| - 1]);
        } else {
          assert x in FromStarts(init);
          var i' :| 0 <= i' < |FromStarts(init)| && FromStarts(init)[i'] == x;
          var j :| 0 <= j < |init| && x == Fresh(init[j]);
          assert starts[j] == init[j];
        }
      }
    } else {
      assert FromStarts(starts) == [];
    }
  }

  /** With pairwise different start indices, seeding keeps the starts' order, one entry each. */
  lemma {:induction false} FromDistinctStarts(starts: seq<Cell>)
    requires DistinctIndices(starts)
    ensures |FromStarts(starts)| == |starts|
    ensures forall i :: 0 <= i < |starts| ==> FromStarts(starts)[i] == Fresh(starts[i])
    decreases |starts|
  {
    if starts != [] {
      var init := starts[..|starts| - 1];
      var last := starts[|starts| - 1];
      assert DistinctIndices(init) by {
        forall i, j | 0 <= i < j < |init| ensures init[i].index != init[j].index {
          assert init[i] == starts[i] && init[j] == starts[j];
        }
      }
      FromDistinctStarts(init);
      FromStartsShape(init);
      assert last.index !in StartKeys(init) by {
        forall j | 0 <= j < |init| ensures init[j].index != last.index {
          assert init[j] == starts[j];
        }
      }
      assert Find(FromStarts(init), last.index) == |FromStarts(init)|;
    }
  }

  // ---- properties of the MOVE step ----

  /** A step keeps the start, so it keeps the Map key. */
  lemma {:induction false} StepKeepsStart(g: Grid, rules: StepRules, e: PathState, d: Direction)
    ensures Step(g, rules, e, d).Some? ==> Step(g, rules, e, d).value.start == e.start
  {
  }

  /**
   * With the bounds-checked lookup on a built grid, a survivor has moved by
   * exactly the unit vector of the direction onto a sea cell of the grid it
   * had not visited, and that cell is appended to its visited cells.
   */
  lemma {:induction false} StepMovesOneUnit(g: Grid, e: PathState, d: Direction)
    requires WellFormed(g)
    ensures var r := Step(g, StepRules(true, false), e, d);
      r.Some? ==>
        && r.value.start == e.start
        && r.value.position.coordinate == Add(e.position.coordinate, Vector(d))
        && r.value.position in g.cells
        && IsAvailable(r.value.position)
        && r.value.position !in e.visited
        && r.value.visited == e.visited + [r.value.position]
  {
    CellFromCoordinateFinds(g, Add(e.position.coordinate, Vector(d)));
  }

  /**
   * On a full built grid, for a hypothesis whose visited cells are cells of
   * the grid, MOVE keeps it exactly when the target coordinate is on the
   * grid, its cell is sea, and no visited cell sits there.
   */
  lemma {:induction false} StepSurvivesIff(g: Grid, e: PathState, d: Direction)
    requires WellFormed(g) && |g.cells| == g.width * g.height
    requires forall i :: 0 <= i < |e.visited| ==> e.visited[i] in g.cells
    ensures var q := Add(e.position.coordinate, Vector(d));
      Step(g, StepRules(true, false), e, d).Some? <==>
        && AreCoordinatesValid(Frame(g), q)
        && IsAvailable(CellFromCoordinate(g, q).value)
        && (forall i :: 0 <= i < |e.visited| ==> e.visited[i].coordinate != q)
  {
    var q := Add(e.position.coordinate, Vector(d));
    CellFromCoordinateFinds(g, q);
    var t := CellFromCoordinate(g, q);
    if t.Some? {
      forall i | 0 <= i < |e.visited|
        ensures e.visited[i].coordinate == q <==> e.visited[i] == t.value
      {
        var j :| 0 <= j < |g.cells| && g.cells[j] == e.visited[i];
        CellAtOwnCoordinate(g, j);
      }
    }
  }

  /** A step keeps a hypothesis well tracked. */
  lemma {:induction false} StepKeepsTracked(g: Grid, rules: StepRules, e: PathState, d: Direction)
    requires Tracked(e) && (rules.guarded || !rules.byCoordinate)
    requires rules.guarded ==> WellFormed(g)
    ensures Step(g, rules, e, d).Some? ==> Tracked(Step(g, rules, e, d).value)
  {
    var q := Add(e.position.coordinate, Vector(d));
    if rules.guarded {
      CellFromCoordinateFinds(g, q);
    }
  }

  /** Advancing a start that is not the head's key leaves the head alone. */
  lemma {:induction false} AdvancePastHead(g: Grid, rules: StepRules, d: Direction, head: Scenario, tail: Scenario, s: Cell)
    requires forall i :: 0 <= i < |head| ==> Key(head[i]) != s.index
    ensures Advance(g, rules, d, head + tail, s) == head + Advance(g, rules, d, tail, s)
  {
    FindPastHead(head, tail, s.index);
    var i := Find(tail, s.index);
    if i < |tail| {
      assert (head + tail)[|head| + i] == tail[i];
      match Step(g, rules, tail[i], d)
      case None =>
        DeletePastHead(head, tail, i);
      case Some(e) =>
        UpdatePastHead(head, tail, i, e);
    }
  }

  lemma {:induction false} DeletePastHead(head: Scenario, tail: Scenario, i: int)
    requires 0 <= i < |tail|
    ensures (head + tail)[..|head| + i] + (head + tail)[|head| + i + 1..] == head + (tail[..i] + tail[i + 1..])
  {
    assert (head + tail)[..|head| + i] == head + tail[..i];
    assert (head + tail)[|head| + i + 1..] == tail[i + 1..];
  }

  lemma {:induction false} UpdatePastHead(head: Scenario, tail: Scenario, i: int, e: PathState)
    requires 0 <= i < |tail|
    ensures (head + tail)[|head| + i := e] == head + tail[i := e]
  {
  }

  lemma {:induction false} FindPastHead(head: Scenario, tail: Scenario, k: int)
    requires forall i :: 0 <= i < |head| ==> Key(head[i]) != k
    ensures Find(head + tail, k) == |head| + Find(tail, k)
    decreases |head|
  {
    if head != [] {
      assert (head + tail)[0] == head[0] && Key(head[0]) != k;
      assert (head + tail)[1..] == head[1..] + tail;
      FindPastHead(head[1..], tail, k);
    } else {
      assert head + tail == tail;
    }
  }

  /** Moving the entries of more keys: a key that occurs nowhere changes nothing. */
  lemma {:induction false} StepOnlyIgnoresAbsentKey(g: Grid, rules: StepRules, d: Direction, sc: Scenario, done: set<int>, k: int)
    requires k !in Keys(sc)
    ensures StepOnly(g, rules, d, sc, done + {k}) == StepOnly(g, rules, d, sc, done)
  {
    if sc != [] {
      KeysCons(sc);
      StepOnlyIgnoresAbsentKey(g, rules, d, sc[1..], done, k);
    }
  }

  /** One `Advance` moves the entry of one more key. */
  lemma {:induction false} AdvanceStepOnly(g: Grid, rules: StepRules, d: Direction, sc: Scenario, done: set<int>, s: Cell)
    requires UniqueKeys(sc) && s.index !in done
    ensures Advance(g, rules, d, StepOnly(g, rules, d, sc, done), s) == StepOnly(g, rules, d, sc, done + {s.index})
  {
    if sc != [] {
      var x := sc[0];
      var rest := StepOnly(g, rules, d, sc[1..], done);
      assert UniqueKeys(sc[1..]);
      if Key(x) == s.index {
        AdvanceStepOnlyHere(g, rules, d, sc, done, s);
      } else {
        var head := if Key(x) !in done then [x]
          else match Step(g, rules, x, d) case None => [] case Some(e) => [e];
        StepKeepsStart(g, rules, x, d);
        assert StepOnly(g, rules, d, sc, done) == head + rest;
        assert StepOnly(g, rules, d, sc, done + {s.index}) == head + StepOnly(g, rules, d, sc[1..], done + {s.index});
        AdvancePastHead(g, rules, d, head, rest, s);
        AdvanceStepOnly(g, rules, d, sc[1..], done, s);
      }
    }
  }

  /** `AdvanceStepOnly` when the first entry is the one the start cell names. */
  lemma {:induction false} AdvanceStepOnlyHere(g: Grid, rules: StepRules, d: Direction, sc: Scenario, done: set<int>, s: Cell)
    requires UniqueKeys(sc) && s.index !in done && sc != [] && Key(sc[0]) == s.index
    ensures Advance(g, rules, d, StepOnly(g, rules, d, sc, done), s) == StepOnly(g, rules, d, sc, done + {s.index})
  {
    var rest := StepOnly(g, rules, d, sc[1..], done);
    assert StepOnly(g, rules, d, sc, done) == [sc[0]] + rest;
    AdvanceHead(g, rules, d, sc[0], rest, s);
    HeadKeyFresh(sc);
    StepOnlyIgnoresAbsentKey(g, rules, d, sc[1..], done, s.index);
  }

  /** Advancing the start of the first entry moves that entry, or deletes it when the move is refused. */
  lemma {:induction false} AdvanceHead(g: Grid, rules: StepRules, d: Direction, x: PathState, rest: Scenario, s: Cell)
    requires Key(x) == s.index
    ensures Advance(g, rules, d, [x] + rest, s) ==
      (match Step(g, rules, x, d) case None => [] case Some(e) => [e]) + rest
  {
    FindCons([x] + rest, s.index);
    assert ([x] + rest)[1..] == rest;
    match Step(g, rules, x, d)
    case None =>
      assert ([x] + rest)[..0] == [];
    case Some(e) =>
      assert ([x] + rest)[0 := e] == [e] + rest;
  }

  lemma {:induction false} StepOnlyNothing(g: Grid, rules: StepRules, d: Direction, sc: Scenario)
    ensures StepOnly(g, rules, d, sc, {}) == sc
  {
    if sc != [] {
      StepOnlyNothing(g, rules, d, sc[1..]);
    }
  }

  lemma {:induction false} StepOnlyEverything(g: Grid, rules: StepRules, d: Direction, sc: Scenario, done: set<int>)
    requires Keys(sc) <= done
    ensures StepOnly(g, rules, d, sc, done) == StepAll(g, rules, d, sc)
  {
    if sc != [] {
      KeysCons(sc);
      StepOnlyEverything(g, rules, d, sc[1..], done);
    }
  }

  /** Folding `Advance` over start cells with pairwise different indices moves each of their entries once. */
  lemma {:induction false} AddPositionStepOnly(g: Grid, rules: StepRules, d: Direction, starts: seq<Cell>, sc: Scenario, done: set<int>)
    requires UniqueKeys(sc) && DistinctIndices(starts)
    requires StartKeys(starts) !! done
    ensures AddPosition(g, rules, d, starts, StepOnly(g, rules, d, sc, done)) == StepOnly(g, rules, d, sc, done + StartKeys(starts))
    decreases |starts|
  {
    if starts == [] {
      assert done + StartKeys(starts) == done;
    } else {
      var s := starts[0];
      assert s.index in StartKeys(starts);
      AdvanceStepOnly(g, rules, d, sc, done, s);
      assert DistinctIndices(starts[1..]) by {
        forall i, j | 0 <= i < j < |starts[1..]| ensures starts[1..][i].index != starts[1..][j].index {
          assert starts[1..][i] == starts[i + 1] && starts[1..][j] == starts[j + 1];
        }
      }
      assert StartKeys(starts) == {s.index} + StartKeys(starts[1..]) by {
        forall k | k in StartKeys(starts) ensures k in {s.index} + StartKeys(starts[1..]) {
          var j :| 0 <= j < |starts| && starts[j].index == k;
          if j > 0 { assert starts[1..][j - 1] == starts[j]; }
        }
        forall k | k in StartKeys(starts[1..]) ensures k in StartKeys(starts) {
          var j :| 0 <= j < |starts[1..]| && starts[1..][j].index == k;
          assert starts[j + 1] == starts[1..][j];
        }
      }
      assert StartKeys(starts[1..]) !! done + {s.index} by {
        forall j | 0 <= j < |starts[1..]| ensures starts[1..][j].index != s.index {
          assert starts[1..][j] == starts[j + 1];
        }
      }
      AddPositionStepOnly(g, rules, d, starts[1..], sc, done + {s.index});
      assert done + {s.index} + StartKeys(starts[1..]) == done + StartKeys(starts);
    }
  }

  /**
   * `addPosition` over start cells with pairwise different indices that
   * cover the scenario's keys moves every hypothesis exactly once: the
   * survivors of one step, in entry order.
   */
  lemma {:induction false} AddPositionMovesEachOnce(g: Grid, rules: StepRules, d: Direction, starts: seq<Cell>, sc: Scenario)
    requires UniqueKeys(sc) && DistinctIndices(starts) && Keys(sc) <= StartKeys(starts)
    ensures AddPosition(g, rules, d, starts, sc) == StepAll(g, rules, d, sc)
  {
    StepOnlyNothing(g, rules, d, sc);
    AddPositionStepOnly(g, rules, d, starts, sc, {});
    assert {} + StartKeys(starts) == StartKeys(starts);
    StepOnlyEverything(g, rules, d, sc, StartKeys(starts));
  }

  /** Filtering a list extended by one entry. */
  lemma {:induction false} FilterSnoc(sc: Scenario, x: PathState, keep: PathState -> bool)
    ensures Filter(sc + [x], keep) == Filter(sc, keep) + (if keep(x) then [x] else [])
  {
    if sc == [] {
      assert [x][1..] == [];
    } else {
      assert (sc + [x])[1..] == sc[1..] + [x];
      FilterSnoc(sc[1..], x, keep);
    }
  }

  /** A surviving step is `add` of the new cell: the cell was not visited yet. */
  lemma {:induction false} StepIsVisit(g: Grid, guarded: bool, e: PathState, d: Direction)
    ensures var r := Step(g, StepRules(guarded, false), e, d);
      r.Some? ==> r.value.position !in e.visited && r.value == Visit(e, r.value.position)
  {
  }

  /** `add` of a cell not yet visited keeps a hypothesis well tracked. */
  lemma {:induction false} VisitKeepsTracked(e: PathState, c: Cell)
    requires Tracked(e) && c !in e.visited
    ensures Tracked(Visit(e, c)) && |Visit(e, c).visited| == |e.visited| + 1
  {
  }
}
