// The game loop of src/ocean-of-code.ts, the earliest bot. It tracks the
// opponent without cells: a list of possible start positions and a list
// of offsets the opponent may have moved by since its start, narrowed by
// the sonar answers and the opponent's orders. The current candidates are
// the sea points start + offset; from them the loop guesses the opponent's
// position or picks a region to ask the sonar about, and then plans our
// own turn on the earliest grid. The list transforms are functions here,
// the loop's variables are the fields of `OceanBot`.
module OceanTracking {
  import opened Sequences
  import opened Positions
  import opened CellContainers
  import opened Directions
  import opened Surfaces
  import opened Tallies
  import opened EarlyGrids
  import opened PathFinders
  import Orders
  import OurSubmarines
  import Cells

  /** `ICooldown`: turns left before each power is ready. */
  type Cooldown = OurSubmarines.Cooldown

  /** The power a MOVE charges. */
  type Power = OurSubmarines.Power

  // ---- getPower ----

  /**
   * `getPower(turn, cooldown)`: TORPEDO while it charges; otherwise SONAR
   * on turns that are not multiples of three while it charges, SILENCE on
   * multiples of three while it charges, and MINE when neither applies.
   */
  function GetPower(turn: nat, cd: Cooldown): (p: Power)
    ensures p == OurSubmarines.TorpedoPower <==> cd.torpedo > 0
    ensures p == OurSubmarines.SonarPower <==> cd.torpedo <= 0 && cd.sonar > 0 && turn % 3 != 0
    ensures p == OurSubmarines.SilencePower <==> cd.torpedo <= 0 && cd.silence > 0 && turn % 3 == 0
    ensures p == OurSubmarines.MinePower <==>
      cd.torpedo <= 0 && (turn % 3 == 0 ==> cd.silence <= 0) && (turn % 3 != 0 ==> cd.sonar <= 0)
  {
    if cd.torpedo > 0 then OurSubmarines.TorpedoPower
    else if cd.sonar > 0 && turn % 3 > 0 then OurSubmarines.SonarPower
    else if cd.silence > 0 && turn % 3 == 0 then OurSubmarines.SilencePower
    else OurSubmarines.MinePower
  }

  /**
   * The later `nextPower` keeps this priority where it can: both charge
   * the torpedo first, both charge SILENCE on multiples of three, and a
   * SONAR of the later rule is a SONAR here; on turns 2 modulo 3 only
   * this rule still charges the sonar.
   */
  lemma {:induction false} GetPowerAgainstNextPower(turn: nat, cd: Cooldown, opponent: Option<Cells.Cell>,
                                                    position: Option<Cells.Cell>)
    ensures GetPower(turn, cd) == OurSubmarines.TorpedoPower <==>
      OurSubmarines.NextPower(cd, turn, opponent, position) == Some(OurSubmarines.TorpedoPower)
    ensures GetPower(turn, cd) == OurSubmarines.SilencePower ==>
      OurSubmarines.NextPower(cd, turn, opponent, position) == Some(OurSubmarines.SilencePower)
    ensures OurSubmarines.NextPower(cd, turn, opponent, position) == Some(OurSubmarines.SonarPower) ==>
      GetPower(turn, cd) == OurSubmarines.SonarPower
    ensures turn % 3 == 2 && cd.torpedo <= 0 && cd.sonar > 0 ==>
      GetPower(turn, cd) == OurSubmarines.SonarPower
      && OurSubmarines.NextPower(cd, turn, opponent, position) != Some(OurSubmarines.SonarPower)
  {
  }

  // ---- the sonar answer ----

  /** What a sonar answer pins for this turn: the region the opponent is in, or the one it is not in. */
  datatype Regions = Regions(inside: Option<int>, outside: Option<int>)

  /** A region number as JavaScript tests it: defined and not zero. */
  predicate Truthy(r: Option<int>) {
    r.Some? && r.value != 0
  }

  /**
   * The bookkeeping at the top of the loop: with a region asked about and
   * an answer other than NA, "Y" pins the region as inside, "N" as
   * outside, anything else pins nothing, and the question is withdrawn;
   * otherwise nothing is pinned and the question stays. Gives the new
   * question and the pinned regions.
   */
  function ReadSonar(check: Option<int>, result: string): (r: (Option<int>, Regions))
    ensures r.1.inside.Some? <==> Truthy(check) && result == "Y"
    ensures r.1.outside.Some? <==> Truthy(check) && result == "N"
    ensures r.1.inside.Some? ==> r.1.inside == check
    ensures r.1.outside.Some? ==> r.1.outside == check
    ensures r.0 == check <==> !Truthy(check) || result == "NA"
    ensures r.0 != check ==> r.0.None?
  {
    if Truthy(check) && result != "NA" then
      if result == "Y" then (None, Regions(check, None))
      else if result == "N" then (None, Regions(None, check))
      else (None, Regions(None, None))
    else (check, Regions(None, None))
  }

  // ---- list filters ----

  /** `s.filter(f)`. */
  function Kept(s: seq<Coordinate>, f: Coordinate -> bool): (r: seq<Coordinate>)
    ensures |r| <= |s|
    ensures forall x :: x in r <==> x in s && f(x)
    decreases |s|
  {
    if s == [] then [] else (if f(s[0]) then [s[0]] else []) + Kept(s[1..], f)
  }

  /** A filter and its complement share the list out between them. */
  lemma {:induction false} KeptSplits(s: seq<Coordinate>, f: Coordinate -> bool, g: Coordinate -> bool)
    requires forall x :: g(x) == !f(x)
    ensures multiset(Kept(s, f)) + multiset(Kept(s, g)) == multiset(s)
    decreases |s|
  {
    if s != [] {
      var t := s[1..];
      KeptSplits(t, f, g);
      assert s == [s[0]] + t;
      if f(s[0]) {
        assert Kept(s, f) == [s[0]] + Kept(t, f);
        assert Kept(s, g) == Kept(t, g);
      } else {
        assert Kept(s, f) == Kept(t, f);
        assert Kept(s, g) == [s[0]] + Kept(t, g);
      }
    }
  }

  /** Whether `p` lies in region `r`; a NaN region (`None`) holds nothing. */
  predicate InRegion(r: Option<int>, p: Coordinate) {
    r.Some? && r.value == SurfaceIndex(p)
  }

  /** The start and offset lists of the tracker. */
  datatype Offsets = Offsets(starts: seq<Coordinate>, moves: seq<Coordinate>)

  /** Some offset takes start `s` to a point `keep` accepts. */
  predicate Reaches(moves: seq<Coordinate>, s: Coordinate, keep: Coordinate -> bool) {
    exists m :: m in moves && keep(Add(m, s))
  }

  /** Every start, offset `m` takes it to a point `keep` accepts. */
  predicate TakesAll(starts: seq<Coordinate>, m: Coordinate, keep: Coordinate -> bool) {
    forall s :: s in starts ==> keep(Add(m, s))
  }

  /**
   * The region filter: keep the starts some offset takes to a point
   * `keep` accepts, then the offsets that take every kept start there.
   */
  function Narrow(o: Offsets, keep: Coordinate -> bool): Offsets {
    var starts := Kept(o.starts, s => Reaches(o.moves, s, keep));
    Offsets(starts, Kept(o.moves, m => TakesAll(starts, m, keep)))
  }

  /**
   * The region filter only deletes; a start stays exactly when some offset
   * takes it to an accepted point, an offset stays exactly when it takes
   * every remaining start to one, and so every remaining pair lands on an
   * accepted point.
   */
  lemma {:induction false} NarrowMeaning(o: Offsets, keep: Coordinate -> bool)
    ensures |Narrow(o, keep).starts| <= |o.starts| && |Narrow(o, keep).moves| <= |o.moves|
    ensures forall s :: s in Narrow(o, keep).starts <==> s in o.starts && exists m :: m in o.moves && keep(Add(m, s))
    ensures forall m :: m in Narrow(o, keep).moves <==>
      m in o.moves && forall s :: s in Narrow(o, keep).starts ==> keep(Add(m, s))
    ensures forall s, m :: s in Narrow(o, keep).starts && m in Narrow(o, keep).moves ==> keep(Add(m, s))
  {
  }

  /**
   * A SURFACE whose region does not parse keeps no start at all, and then
   * every offset: NaN equals no region number.
   */
  lemma {:induction false} NarrowToNaN(o: Offsets)
    ensures Narrow(o, p => InRegion(None, p)) == Offsets([], o.moves)
  {
    var keep := p => InRegion(None, p);
    var reach := s => Reaches(o.moves, s, keep);
    KeptNone(o.starts, reach);
    var starts := Kept(o.starts, reach);
    KeptAll(o.moves, m => TakesAll(starts, m, keep));
  }

  /** Filtering with a test no element passes leaves nothing. */
  lemma {:induction false} KeptNone(s: seq<Coordinate>, f: Coordinate -> bool)
    requires forall x :: x in s ==> !f(x)
    ensures Kept(s, f) == []
    decreases |s|
  {
    if s != [] {
      KeptNone(s[1..], f);
    }
  }

  /** Filtering with a test every element passes changes nothing. */
  lemma {:induction false} KeptAll(s: seq<Coordinate>, f: Coordinate -> bool)
    requires forall x :: x in s ==> f(x)
    ensures Kept(s, f) == s
    decreases |s|
  {
    if s != [] {
      KeptAll(s[1..], f);
      assert s == [s[0]] + s[1..];
    }
  }

  /** The region filter a sonar answer triggers: inside before outside, each only for a truthy region. */
  function NarrowBySonar(o: Offsets, r: Regions): Offsets {
    if Truthy(r.inside) then Narrow(o, p => InRegion(r.inside, p))
    else if Truthy(r.outside) then Narrow(o, p => !InRegion(r.outside, p))
    else o
  }

  // ---- MOVE ----

  /** Every offset moved by `v`. */
  function Shifted(moves: seq<Coordinate>, v: Coordinate): (r: seq<Coordinate>)
    ensures |r| == |moves| && forall i :: 0 <= i < |moves| ==> r[i] == Add(v, moves[i])
  {
    seq(|moves|, i requires 0 <= i < |moves| => Add(v, moves[i]))
  }

  /** The filter of MOVE: the offset, taken component by component in absolute value, is a point of the board. */
  predicate OffsetFits(b: Board, m: Coordinate) {
    AreCoordinatesValid(BoardFrame(b), Coordinate(Abs(m.x), Abs(m.y)))
  }

  /**
   * MOVE: every offset moved one unit in the order's direction, kept when
   * it still fits the board. An unknown direction leaves no strategy, and
   * reading its vector throws as soon as there is an offset to move.
   */
  function MoveOffsets(b: Board, word: Option<string>, moves: seq<Coordinate>): Option<seq<Coordinate>> {
    var d := if word.Some? then ParseDirection(word.value) else None;
    if d.None? then (if moves == [] then Some([]) else None)
    else Some(Kept(Shifted(moves, Vector(d.value)), m => OffsetFits(b, m)))
  }

  /**
   * MOVE fails exactly for an unknown direction with offsets to move; each
   * new offset is an old one moved by the direction's unit vector, and an
   * offset whose move is the difference of two points of the board is
   * never dropped.
   */
  lemma {:induction false} MoveOffsetsMeaning(b: Board, word: string, moves: seq<Coordinate>, d: Direction)
    requires ParseDirection(word) == Some(d)
    ensures MoveOffsets(b, Some(word), moves).Some?
    ensures forall m :: m in MoveOffsets(b, Some(word), moves).value ==>
      exists i :: 0 <= i < |moves| && m == Add(Vector(d), moves[i])
    ensures forall i, s :: (0 <= i < |moves| && AreCoordinatesValid(BoardFrame(b), s)
      && AreCoordinatesValid(BoardFrame(b), Add(s, Add(Vector(d), moves[i])))) ==>
      Add(Vector(d), moves[i]) in MoveOffsets(b, Some(word), moves).value
  {
    var shifted := Shifted(moves, Vector(d));
    forall m | m in MoveOffsets(b, Some(word), moves).value
      ensures exists i :: 0 <= i < |moves| && m == Add(Vector(d), moves[i])
    {
      var i :| 0 <= i < |shifted| && shifted[i] == m;
    }
    forall i, s | 0 <= i < |moves| && AreCoordinatesValid(BoardFrame(b), s)
      && AreCoordinatesValid(BoardFrame(b), Add(s, Add(Vector(d), moves[i])))
      ensures Add(Vector(d), moves[i]) in MoveOffsets(b, Some(word), moves).value
    {
      assert shifted[i] in shifted;
    }
  }

  /** An unknown direction with offsets to move is where the loop throws. */
  lemma {:induction false} MoveUnknownDirection(b: Board, word: Option<string>, moves: seq<Coordinate>)
    requires word.None? || ParseDirection(word.value).None?
    ensures MoveOffsets(b, word, moves).None? <==> moves != []
  {
  }

  // ---- SILENCE ----

  /** The four points one to four units of `d` away from `m`. */
  function Stretch(m: Coordinate, d: Direction): (r: seq<Coordinate>)
    ensures |r| == 4 && forall k :: 1 <= k <= 4 ==> r[k - 1] == Add(m, Multiply(Vector(d), k))
  {
    [Add(m, Multiply(Vector(d), 1)), Add(m, Multiply(Vector(d), 2)),
     Add(m, Multiply(Vector(d), 3)), Add(m, Multiply(Vector(d), 4))]
  }

  /** The offsets a silence can add to `m`, direction by direction of `dirs`, one to four units each. */
  function Shifts(m: Coordinate, dirs: seq<Direction>): (r: seq<Coordinate>)
    ensures |r| == 4 * |dirs|
    decreases |dirs|
  {
    if dirs == [] then [] else Stretch(m, dirs[0]) + Shifts(m, dirs[1..])
  }

  /** `m + k·v(d)` for a direction of the table and 1 ≤ k ≤ 4. */
  predicate SilenceOf(m: Coordinate, dirs: seq<Direction>, p: Coordinate) {
    exists d, k :: d in dirs && 1 <= k <= 4 && p == Add(m, Multiply(Vector(d), k))
  }

  /** The shifts are exactly the points one to four units away from `m` in a direction of the table. */
  lemma {:induction false} ShiftsMember(m: Coordinate, dirs: seq<Direction>, p: Coordinate)
    ensures p in Shifts(m, dirs) <==> SilenceOf(m, dirs, p)
    decreases |dirs|
  {
    if dirs != [] {
      ShiftsMember(m, dirs[1..], p);
      var st := Stretch(m, dirs[0]);
      if p in st {
        var k :| 0 <= k < 4 && st[k] == p;
        assert p == Add(m, Multiply(Vector(dirs[0]), k + 1));
      }
      if SilenceOf(m, dirs, p) {
        var d, k :| d in dirs && 1 <= k <= 4 && p == Add(m, Multiply(Vector(d), k));
        if d == dirs[0] {
          assert st[k - 1] == p;
        } else {
          assert d in dirs[1..];
        }
      }
    }
  }

  /** The sixteen shifts of every offset, concatenated in offset order. */
  function AllShifts(moves: seq<Coordinate>): (r: seq<Coordinate>)
    ensures |r| == 16 * |moves|
    decreases |moves|
  {
    if moves == [] then [] else Shifts(moves[0], MoveStrategies) + AllShifts(moves[1..])
  }

  lemma {:induction false} AllShiftsMember(moves: seq<Coordinate>, p: Coordinate)
    ensures p in AllShifts(moves) <==> exists m :: m in moves && SilenceOf(m, MoveStrategies, p)
    decreases |moves|
  {
    if moves != [] {
      AllShiftsMember(moves[1..], p);
      ShiftsMember(moves[0], MoveStrategies, p);
    }
  }

  /** Some start takes `p` to a sea cell. */
  predicate SomeStartAtSea(b: Board, starts: seq<Coordinate>, p: Coordinate) {
    exists s :: s in starts && IsSeaCell(b, Add(p, s))
  }

  /**
   * SILENCE: every offset replaced by its sixteen shifts, kept when some
   * start takes the shift to a sea cell, then de-duplicated from the end.
   * A silence of length 0 is not among them.
   */
  function SilenceOffsets(b: Board, starts: seq<Coordinate>, moves: seq<Coordinate>): seq<Coordinate> {
    LastDedup(Kept(AllShifts(moves), p => SomeStartAtSea(b, starts, p)))
  }

  /**
   * After SILENCE the offsets are, each once, exactly the points one to
   * four units from an old offset in one direction that some start takes
   * to a sea cell.
   */
  lemma {:induction false} SilenceOffsetsMeaning(b: Board, starts: seq<Coordinate>, moves: seq<Coordinate>, p: Coordinate)
    ensures p in SilenceOffsets(b, starts, moves) <==>
      (exists m :: m in moves && SilenceOf(m, MoveStrategies, p)) && SomeStartAtSea(b, starts, p)
    ensures Distinct(SilenceOffsets(b, starts, moves))
  {
    var kept := Kept(AllShifts(moves), q => SomeStartAtSea(b, starts, q));
    LastDedupSpec(kept);
    AllShiftsMember(moves, p);
  }

  // ---- the current candidates ----

  /** The starts no offset takes to a sea cell are dropped, unless there is only one start. */
  function PruneStarts(b: Board, o: Offsets): Offsets {
    if |o.starts| > 1 then o.(starts := Kept(o.starts, s => Lands(b, o.moves, s)))
    else o
  }

  /** Some offset takes start `s` to a sea cell. */
  predicate Lands(b: Board, moves: seq<Coordinate>, s: Coordinate) {
    exists m :: m in moves && IsSeaCell(b, Add(s, m))
  }

  /** Every start moved by every offset, start by start. */
  function Products(starts: seq<Coordinate>, moves: seq<Coordinate>): seq<Coordinate>
    decreases |starts|
  {
    if starts == [] then [] else Shifted(moves, starts[0]) + Products(starts[1..], moves)
  }

  lemma {:induction false} ProductsMember(starts: seq<Coordinate>, moves: seq<Coordinate>, p: Coordinate)
    ensures p in Products(starts, moves) <==> exists s, m :: s in starts && m in moves && p == Add(m, s)
    decreases |starts|
  {
    if starts != [] {
      ProductsMember(starts[1..], moves, p);
      var sh := Shifted(moves, starts[0]);
      if p in sh {
        var i :| 0 <= i < |sh| && sh[i] == p;
        assert p == Add(moves[i], starts[0]);
      }
      if exists s, m :: s in starts && m in moves && p == Add(m, s) {
        var s, m :| s in starts && m in moves && p == Add(m, s);
        if s == starts[0] {
          var i :| 0 <= i < |moves| && moves[i] == m;
          assert sh[i] == p;
        } else {
          assert s in starts[1..];
        }
      }
    }
  }

  /** The current candidates: start + offset for every pair, de-duplicated from the end, kept on sea cells. */
  function CurrentPositions(b: Board, o: Offsets): seq<Coordinate> {
    Kept(LastDedup(Products(o.starts, o.moves)), p => IsSeaCell(b, p))
  }

  /** The candidates are, each once, exactly the sea points some start reaches by some offset. */
  lemma {:induction false} CurrentPositionsMeaning(b: Board, o: Offsets, p: Coordinate)
    ensures p in CurrentPositions(b, o) <==>
      IsSeaCell(b, p) && exists s, m :: s in o.starts && m in o.moves && p == Add(m, s)
    ensures Distinct(CurrentPositions(b, o))
  {
    var all := LastDedup(Products(o.starts, o.moves));
    LastDedupSpec(Products(o.starts, o.moves));
    ProductsMember(o.starts, o.moves, p);
    KeptDistinct(all, q => IsSeaCell(b, q));
  }

  /** Filtering keeps a list free of repeats. */
  lemma {:induction false} KeptDistinct(s: seq<Coordinate>, f: Coordinate -> bool)
    requires Distinct(s)
    ensures Distinct(Kept(s, f))
    decreases |s|
  {
    if s != [] {
      assert Distinct(s[1..]) by {
        forall i, j | 0 <= i < j < |s| - 1 ensures s[1..][i] != s[1..][j] {
          assert s[i + 1] != s[j + 1];
        }
      }
      KeptDistinct(s[1..], f);
      assert s[0] !in s[1..] by {
        forall i | 0 <= i < |s| - 1 ensures s[1..][i] != s[0] {
          assert s[i + 1] != s[0];
        }
      }
      var rest := Kept(s[1..], f);
      if f(s[0]) {
        forall i, j | 0 <= i < j < |[s[0]] + rest| ensures ([s[0]] + rest)[i] != ([s[0]] + rest)[j] {
          if i == 0 {
            assert ([s[0]] + rest)[j] in rest;
          }
        }
      }
    }
  }

  // ---- TORPEDO ----

  /** The candidates within four moves of the impact point, or none when a coordinate is NaN. */
  function WithinTorpedo(cps: seq<Coordinate>, x: Option<int>, y: Option<int>): seq<Coordinate> {
    if x.None? || y.None? then []
    else Kept(cps, p => PathLength(p, Coordinate(x.value, y.value)) <= 4)
  }

  /** `parseInt(order[i])`: one character of the order string; past its end, NaN. */
  function CharInt(order: string, i: nat): Option<int> {
    if i < |order| then Orders.ParseInt(Some([order[i]])) else None
  }

  /** The torpedo filter as written: it reads the coordinates from characters 1 and 2 of the order. */
  function TorpedoAsWritten(order: string, cps: seq<Coordinate>): seq<Coordinate> {
    WithinTorpedo(cps, CharInt(order, 1), CharInt(order, 2))
  }

  /** The torpedo filter reading the coordinates from words 1 and 2 of the split order. */
  function TorpedoFilter(order: string, cps: seq<Coordinate>): seq<Coordinate> {
    WithinTorpedo(cps, Orders.ParseInt(Orders.Word(order, 1)), Orders.ParseInt(Orders.Word(order, 2)))
  }

  /** As written, a TORPEDO order removes every candidate: "O" and "R" are not numbers. */
  lemma {:induction false} TorpedoAsWrittenEmpties(order: string, cps: seq<Coordinate>)
    requires |order| >= 7 && order[..7] == "TORPEDO"
    ensures TorpedoAsWritten(order, cps) == []
  {
    assert order[1] == 'O';
    assert Orders.TrimStart([order[1]]) == [order[1]];
  }

  /**
   * Read by words, the order "TORPEDO x y" keeps exactly the candidates
   * within four moves of (x, y).
   */
  lemma {:induction false} TorpedoFilterMeaning(x: int, y: int, cps: seq<Coordinate>)
    ensures var order := Orders.Join(["TORPEDO", Orders.Show(x), Orders.Show(y)]);
      forall p :: p in TorpedoFilter(order, cps) <==> p in cps && PathLength(p, Coordinate(x, y)) <= 4
  {
    var words := ["TORPEDO", Orders.Show(x), Orders.Show(y)];
    Orders.ShowNoSpace(x);
    Orders.ShowNoSpace(y);
    assert Orders.NoSpace("TORPEDO");
    Orders.JoinSplit(words);
    Orders.ParseIntShow(x);
    Orders.ParseIntShow(y);
  }

  /** "TORPEDO 3 5" as written drops the candidate (3, 5) that the impact point itself is. */
  lemma TorpedoAsWrittenDropsImpact()
    ensures TorpedoAsWritten("TORPEDO 3 5", [Coordinate(3, 5)]) == []
  {
    TorpedoAsWrittenEmpties("TORPEDO 3 5", [Coordinate(3, 5)]);
  }

  // ---- the opponent's orders ----

  /** `order.includes(word)`. */
  predicate Includes(order: string, word: string) {
    exists i :: 0 <= i <= |order| && IncludesAt(order, word, i)
  }

  /** `word` occurs in `order` at position `i`. */
  predicate IncludesAt(order: string, word: string, i: int) {
    0 <= i && i + |word| <= |order| && order[i..i + |word|] == word
  }

  /** The position of the first order that includes `word`, or the number of orders when none does. */
  function FirstIncludingAt(orders: seq<string>, word: string): (j: nat)
    ensures j <= |orders|
    ensures j < |orders| ==> Includes(orders[j], word)
    ensures forall k :: 0 <= k < j ==> !Includes(orders[k], word)
    decreases |orders|
  {
    if orders == [] then 0
    else if Includes(orders[0], word) then 0
    else 1 + FirstIncludingAt(orders[1..], word)
  }

  /** `orders.find(order => order.includes(word))`. */
  function FirstIncluding(orders: seq<string>, word: string): Option<string> {
    var j := FirstIncludingAt(orders, word);
    if j < |orders| then Some(orders[j]) else None
  }

  /**
   * The orders a turn reports, first match of each kind: a MOVE moves the
   * offsets and may throw; otherwise a SURFACE narrows both lists to its
   * region; otherwise a SILENCE spreads the offsets; a SONAR changes
   * nothing the tracker keeps.
   */
  function ApplyOrders(b: Board, o: Offsets, orders: seq<string>): (r: Option<Offsets>)
    ensures r.None? <==> (FirstIncluding(orders, "MOVE").Some?
      && MoveOffsets(b, Orders.Word(FirstIncluding(orders, "MOVE").value, 1), o.moves).None?)
    ensures r.Some? ==> |r.value.starts| <= |o.starts| && forall s :: s in r.value.starts ==> s in o.starts
    ensures r.Some? && FirstIncluding(orders, "SURFACE").None? ==> r.value.starts == o.starts
  {
    var move := FirstIncluding(orders, "MOVE");
    if move.Some? then
      match MoveOffsets(b, Orders.Word(move.value, 1), o.moves)
      case None => None
      case Some(moves) => Some(o.(moves := moves))
    else
      var surface := FirstIncluding(orders, "SURFACE");
      if surface.Some? then
        var region := Orders.ParseInt(Orders.Word(surface.value, 1));
        Some(Narrow(o, p => InRegion(region, p)))
      else if FirstIncluding(orders, "SILENCE").Some? then
        Some(o.(moves := SilenceOffsets(b, o.starts, o.moves)))
      else Some(o)
  }

  /**
   * The tracking half of a turn, up to the candidate list: the sonar
   * answer, its region filter, the opponent's orders and the pruning of
   * the starts. Gives the new lists and the region still to ask about, or
   * `None` where the loop throws.
   */
  function Observed(b: Board, o: Offsets, check: Option<int>, sonarResult: string, orders: seq<string>)
    : Option<(Offsets, Option<int>)>
  {
    var (check', regions) := ReadSonar(check, sonarResult);
    match ApplyOrders(b, NarrowBySonar(o, regions), orders)
    case None => None
    case Some(o') => Some((PruneStarts(b, o'), check'))
  }

  /** Dropping the starts no offset takes to a sea cell never changes the candidates. */
  lemma {:induction false} PruneKeepsCandidates(b: Board, o: Offsets, p: Coordinate)
    ensures p in CurrentPositions(b, PruneStarts(b, o)) <==> p in CurrentPositions(b, o)
    ensures forall s :: s in PruneStarts(b, o).starts ==> s in o.starts
  {
    var o' := PruneStarts(b, o);
    CurrentPositionsMeaning(b, o, p);
    CurrentPositionsMeaning(b, o', p);
    assert o'.moves == o.moves;
    if p in CurrentPositions(b, o) {
      var s, m :| s in o.starts && m in o.moves && p == Add(m, s);
      assert s in o'.starts by {
        if |o.starts| > 1 {
          assert Add(s, m) == p;
          assert Lands(b, o.moves, s);
        }
      }
    }
  }

  /** The candidates of the turn: the current positions, narrowed by the opponent's torpedo order when there is one. */
  function Candidates(b: Board, o: Offsets, orders: seq<string>): seq<Coordinate> {
    var cps := CurrentPositions(b, o);
    match FirstIncluding(orders, "TORPEDO")
    case None => cps
    case Some(order) => TorpedoFilter(order, cps)
  }

  // ---- the opponent-position estimate ----

  /** The opponent's estimated position and the region to ask the sonar about next. */
  datatype Sighting = Sighting(opponent: Option<Coordinate>, check: Option<int>)

  /** The floor midpoint of a box less than four cells wide and tall. */
  function OceanCentre(lo: Coordinate, hi: Coordinate): Option<Coordinate> {
    if hi.x - lo.x < 4 && hi.y - lo.y < 4 then Some(Coordinate((lo.x + hi.x) / 2, (lo.y + hi.y) / 2))
    else None
  }

  /** The region of each point. */
  function RegionsOfPoints(ps: seq<Coordinate>): (r: seq<int>)
    ensures |r| == |ps| && forall i :: 0 <= i < |ps| ==> r[i] == SurfaceIndex(ps[i])
  {
    seq(|ps|, i requires 0 <= i < |ps| => SurfaceIndex(ps[i]))
  }

  /** The region the candidates fall in most often, first seen first, when they span more than one. */
  function SonarChoice(cps: seq<Coordinate>): Option<int> {
    OurSubmarines.MostFrequent(RegionsOfPoints(cps))
  }

  /** The estimate from several candidates, given the box their reduce computed. */
  function LocateBy(cps: seq<Coordinate>, box: (Coordinate, Coordinate), sonar: int, prev: Sighting): Sighting {
    match OceanCentre(box.0, box.1)
    case Some(c) => prev.(opponent := Some(c))
    case None => if sonar == 0 then Sighting(None, SonarChoice(cps)) else prev
  }

  /** The estimate as written, with the `{min, max}` reduce whose maximum ends as the last candidate. */
  function LocateAsWritten(cps: seq<Coordinate>, sonar: int, prev: Sighting): Sighting {
    if |cps| > 1 then LocateBy(cps, OurSubmarines.BoxAsWritten(cps), sonar, prev)
    else if |cps| == 1 then prev.(opponent := Some(cps[0]))
    else prev
  }

  /** The estimate with the true bounding box of the candidates. */
  function Locate(cps: seq<Coordinate>, sonar: int, prev: Sighting): Sighting {
    if |cps| > 1 then LocateBy(cps, OurSubmarines.Box(cps), sonar, prev)
    else if |cps| == 1 then prev.(opponent := Some(cps[0]))
    else prev
  }

  /** All candidates fit in a box less than four cells wide and tall. */
  predicate Compact(cps: seq<Coordinate>) {
    forall i, j :: 0 <= i < |cps| && 0 <= j < |cps| ==> cps[j].x - cps[i].x < 4 && cps[j].y - cps[i].y < 4
  }

  /**
   * With the true box, one candidate is the opponent; several that fit a
   * 4 × 4 box give a position within two cells, on both axes, of each of
   * them; several that do not leave the estimate alone unless the sonar is
   * ready, in which case the estimate is dropped and the most frequent
   * region is asked about; none change nothing.
   */
  lemma {:induction false} LocateMeaning(cps: seq<Coordinate>, sonar: int, prev: Sighting)
    ensures |cps| == 0 ==> Locate(cps, sonar, prev) == prev
    ensures |cps| == 1 ==> Locate(cps, sonar, prev) == Sighting(Some(cps[0]), prev.check)
    ensures |cps| > 1 && Compact(cps) ==>
      && Locate(cps, sonar, prev).check == prev.check
      && Locate(cps, sonar, prev).opponent.Some?
      && forall i :: 0 <= i < |cps| ==> Distance(cps[i], Locate(cps, sonar, prev).opponent.value) <= 2
    ensures |cps| > 1 && !Compact(cps) ==>
      Locate(cps, sonar, prev) == if sonar == 0 then Sighting(None, SonarChoice(cps)) else prev
  {
    if |cps| > 1 {
      var b := OurSubmarines.Box(cps);
      var ix :| 0 <= ix < |cps| && cps[ix].x == b.0.x;
      var jx :| 0 <= jx < |cps| && cps[jx].x == b.1.x;
      var iy :| 0 <= iy < |cps| && cps[iy].y == b.0.y;
      var jy :| 0 <= jy < |cps| && cps[jy].y == b.1.y;
      if Compact(cps) {
        var c := OceanCentre(b.0, b.1).value;
        forall i | 0 <= i < |cps| ensures Distance(cps[i], c) <= 2 {
          assert Abs(cps[i].x - c.x) <= 2;
          assert Abs(cps[i].y - c.y) <= 2;
        }
      } else {
        assert !(cps[jx].x - cps[ix].x < 4 && cps[jy].y - cps[iy].y < 4);
      }
    }
  }

  /**
   * As written, the candidates (0,0), (5,0), (1,0) are taken to fit a
   * small box and the opponent is placed at (0,0), five columns from the
   * candidate (5,0); with the true box they span six columns and, the
   * sonar not being ready, nothing changes.
   */
  lemma LocateAsWrittenMisplaces()
    ensures var ps := [Coordinate(0, 0), Coordinate(5, 0), Coordinate(1, 0)];
      && LocateAsWritten(ps, 1, Sighting(None, None)) == Sighting(Some(Coordinate(0, 0)), None)
      && Distance(ps[1], Coordinate(0, 0)) == 5
      && Locate(ps, 1, Sighting(None, None)) == Sighting(None, None)
  {
    var ps := [Coordinate(0, 0), Coordinate(5, 0), Coordinate(1, 0)];
    assert ps[..2] == [Coordinate(0, 0), Coordinate(5, 0)];
    assert ps[..2][..1] == [Coordinate(0, 0)];
    assert OurSubmarines.BoxAsWritten(ps[..2]) == (Coordinate(0, 0), Coordinate(5, 0));
    assert OurSubmarines.Box(ps[..2]) == (Coordinate(0, 0), Coordinate(5, 0));
  }

  // ---- the mines ----

  /** A mine is fired when the opponent is within two moves of it and we are not. */
  predicate Fires(opponent: Coordinate, me: Coordinate, m: Coordinate) {
    PathLength(m, opponent) <= 2 && PathLength(m, me) > 2
  }

  /** The mines the turn triggers, in laying order; none while the opponent is not placed. */
  function Triggered(mines: seq<Coordinate>, opponent: Option<Coordinate>, me: Coordinate): seq<Coordinate> {
    if opponent.None? then [] else Kept(mines, m => Fires(opponent.value, me, m))
  }

  /** The mine list after the triggers as written: the filter keeps the mines it fires. */
  function MinesAsWritten(mines: seq<Coordinate>, opponent: Option<Coordinate>, me: Coordinate): seq<Coordinate> {
    if opponent.None? then mines else Triggered(mines, opponent, me)
  }

  /** The mine list after the triggers with the fired mines removed. */
  function MinesLeft(mines: seq<Coordinate>, opponent: Option<Coordinate>, me: Coordinate): seq<Coordinate> {
    if opponent.None? then mines else Kept(mines, m => !Fires(opponent.value, me, m))
  }

  /**
   * The fired mines and the mines left share out the mines laid: each
   * mine is fired exactly when the opponent is placed within two moves of
   * it and we are not, and is otherwise kept.
   */
  lemma {:induction false} MinesLeftMeaning(mines: seq<Coordinate>, opponent: Option<Coordinate>, me: Coordinate)
    ensures multiset(Triggered(mines, opponent, me)) + multiset(MinesLeft(mines, opponent, me)) == multiset(mines)
    ensures forall m :: m in Triggered(mines, opponent, me) <==> m in mines && opponent.Some? && Fires(opponent.value, me, m)
    ensures forall m :: m in MinesLeft(mines, opponent, me) <==> m in mines && !(opponent.Some? && Fires(opponent.value, me, m))
  {
    if opponent.Some? {
      KeptSplits(mines, m => Fires(opponent.value, me, m), m => !Fires(opponent.value, me, m));
    }
  }

  /**
   * With mines at (0,0) and (9,9), the opponent at (1,0) and us at (5,5),
   * the mine at (0,0) fires; as written it is the one kept and (9,9) is
   * forgotten, where the corrected list keeps (9,9).
   */
  lemma MinesAsWrittenForgets()
    ensures var mines := [Coordinate(0, 0), Coordinate(9, 9)];
      && Triggered(mines, Some(Coordinate(1, 0)), Coordinate(5, 5)) == [Coordinate(0, 0)]
      && MinesAsWritten(mines, Some(Coordinate(1, 0)), Coordinate(5, 5)) == [Coordinate(0, 0)]
      && MinesLeft(mines, Some(Coordinate(1, 0)), Coordinate(5, 5)) == [Coordinate(9, 9)]
  {
    var mines := [Coordinate(0, 0), Coordinate(9, 9)];
    assert mines[1..] == [Coordinate(9, 9)];
    assert mines[1..][1..] == [];
  }

  // ---- the SILENCE run ----

  /**
   * The points a SILENCE in direction `d` passes from `q` on: while the
   * point is available and there is room, it is taken and its number
   * marked visited.
   */
  function RunFrom(b: Board, visited: seq<int>, q: Coordinate, d: Direction, room: nat): seq<Coordinate>
    decreases room
  {
    if room > 0 && AvailableIn(b, visited, q) then
      [q] + RunFrom(b, visited + [GridIndex(b, q)], Add(q, Vector(d)), d, room - 1)
    else []
  }

  /**
   * One more step of the SILENCE loop keeps its invariant: the points
   * taken and the run still ahead make up the whole run, and the visited
   * list grows by the numbers of the points taken.
   */
  lemma RunOneMore(b: Board, start: seq<int>, visited: seq<int>, taken: seq<Coordinate>, q: Coordinate,
                   d: Direction, whole: seq<Coordinate>)
    requires |taken| < 4 && AvailableIn(b, visited, q)
    requires visited == start + Numbers(b, taken)
    requires taken + RunFrom(b, visited, q, d, 4 - |taken|) == whole
    ensures visited + [GridIndex(b, q)] == start + Numbers(b, taken + [q])
    ensures (taken + [q]) + RunFrom(b, visited + [GridIndex(b, q)], Add(q, Vector(d)), d, 4 - (|taken| + 1)) == whole
  {
    NumbersSnoc(b, taken, q);
    var rest := RunFrom(b, visited + [GridIndex(b, q)], Add(q, Vector(d)), d, 4 - (|taken| + 1));
    RunFromStep(b, visited, q, d, 4 - |taken|);
    MoveOneAcross(taken, q, rest, whole);
  }

  /** An available point with room left starts the run, and the rest runs on with it visited. */
  lemma RunFromStep(b: Board, visited: seq<int>, q: Coordinate, d: Direction, room: nat)
    requires room > 0 && AvailableIn(b, visited, q)
    ensures RunFrom(b, visited, q, d, room) == [q] + RunFrom(b, visited + [GridIndex(b, q)], Add(q, Vector(d)), d, room - 1)
  {
  }

  /** A run with no room, or starting at a point not available, is empty. */
  lemma RunFromEnd(b: Board, visited: seq<int>, q: Coordinate, d: Direction, room: nat)
    requires room == 0 || !AvailableIn(b, visited, q)
    ensures RunFrom(b, visited, q, d, room) == []
  {
  }

  /** Moving the head of the second part to the end of the first keeps the whole. */
  lemma MoveOneAcross(taken: seq<Coordinate>, q: Coordinate, rest: seq<Coordinate>, whole: seq<Coordinate>)
    requires taken + ([q] + rest) == whole
    ensures (taken + [q]) + rest == whole
  {
  }

  /** The numbers of a list with one more point. */
  lemma NumbersSnoc(b: Board, ps: seq<Coordinate>, p: Coordinate)
    ensures Numbers(b, ps + [p]) == Numbers(b, ps) + [GridIndex(b, p)]
  {
    var ns := Numbers(b, ps + [p]);
    forall i | 0 <= i < |ns| ensures ns[i] == (Numbers(b, ps) + [GridIndex(b, p)])[i] {
      if i < |ps| {
        assert (ps + [p])[i] == ps[i];
      }
    }
  }

  /** The row-major numbers of a list of points. */
  function Numbers(b: Board, ps: seq<Coordinate>): (r: seq<int>)
    ensures |r| == |ps| && forall i :: 0 <= i < |ps| ==> r[i] == GridIndex(b, ps[i])
  {
    seq(|ps|, i requires 0 <= i < |ps| => GridIndex(b, ps[i]))
  }

  /** Two points of the board with the same number are the same point. */
  lemma {:induction false} GridIndexInjective(b: Board, p: Coordinate, q: Coordinate)
    requires b.width > 0
    ensures (AreCoordinatesValid(BoardFrame(b), p) && AreCoordinatesValid(BoardFrame(b), q)
      && GridIndex(b, p) == GridIndex(b, q)) ==> p == q
  {
    GridIndexRoundTrip(b, p, 0);
    GridIndexRoundTrip(b, q, 0);
  }

  /** `n` unit steps from a point, with `n` not zero, lead elsewhere. */
  lemma StepsLeave(q: Coordinate, d: Direction, n: int)
    requires n != 0
    ensures Add(q, Multiply(Vector(d), n)) != q
  {
  }

  /** One step then `k` more is `k + 1` steps. */
  lemma StepAhead(q: Coordinate, d: Direction, k: int)
    ensures Add(Add(q, Vector(d)), Multiply(Vector(d), k)) == Add(q, Multiply(Vector(d), k + 1))
  {
  }

  /**
   * Marking point `q` visited leaves every other point as available as it
   * was: points of the board have different numbers.
   */
  lemma {:induction false} VisitKeepsOthers(b: Board, visited: seq<int>, q: Coordinate, p: Coordinate)
    requires b.width > 0
    ensures AvailableIn(b, visited + [GridIndex(b, q)], p) ==> AvailableIn(b, visited, p)
    ensures p != q && AvailableIn(b, visited, p) && AvailableIn(b, visited, q) ==>
      AvailableIn(b, visited + [GridIndex(b, q)], p)
  {
    GridIndexInjective(b, p, q);
  }

  /**
   * The run is a straight line: its `k`-th point is `k` steps from `q`,
   * every point was available before the run began, and a run shorter than
   * its room stops at the first point that was not.
   */
  lemma {:induction false} RunFromMeaning(b: Board, visited: seq<int>, q: Coordinate, d: Direction, room: nat)
    requires b.width > 0
    ensures var r := RunFrom(b, visited, q, d, room);
      && |r| <= room
      && (forall k :: 0 <= k < |r| ==> r[k] == Add(q, Multiply(Vector(d), k)) && AvailableIn(b, visited, r[k]))
      && (|r| < room ==> !AvailableIn(b, visited, Add(q, Multiply(Vector(d), |r|))))
  {
    RunFromPoints(b, visited, q, d, room);
    RunFromStops(b, visited, q, d, room);
  }

  lemma {:induction false} RunFromPoints(b: Board, visited: seq<int>, q: Coordinate, d: Direction, room: nat)
    requires b.width > 0
    ensures var r := RunFrom(b, visited, q, d, room);
      && |r| <= room
      && forall k :: 0 <= k < |r| ==> r[k] == Add(q, Multiply(Vector(d), k)) && AvailableIn(b, visited, r[k])
    decreases room
  {
    var r := RunFrom(b, visited, q, d, room);
    if room > 0 && AvailableIn(b, visited, q) {
      var visited' := visited + [GridIndex(b, q)];
      var q' := Add(q, Vector(d));
      RunFromStep(b, visited, q, d, room);
      RunFromPoints(b, visited', q', d, room - 1);
      var rest := RunFrom(b, visited', q', d, room - 1);
      forall k | 0 <= k < |r| ensures r[k] == Add(q, Multiply(Vector(d), k)) && AvailableIn(b, visited, r[k]) {
        if k > 0 {
          assert r[k] == rest[k - 1];
          StepAhead(q, d, k - 1);
          VisitKeepsOthers(b, visited, q, r[k]);
        } else {
          assert Multiply(Vector(d), 0) == Origin;
        }
      }
    } else {
      RunFromEnd(b, visited, q, d, room);
    }
  }

  lemma {:induction false} RunFromStops(b: Board, visited: seq<int>, q: Coordinate, d: Direction, room: nat)
    requires b.width > 0
    ensures var r := RunFrom(b, visited, q, d, room);
      |r| < room ==> !AvailableIn(b, visited, Add(q, Multiply(Vector(d), |r|)))
    decreases room
  {
    var r := RunFrom(b, visited, q, d, room);
    if room > 0 && AvailableIn(b, visited, q) {
      var visited' := visited + [GridIndex(b, q)];
      var q' := Add(q, Vector(d));
      RunFromStep(b, visited, q, d, room);
      RunFromStops(b, visited', q', d, room - 1);
      var rest := RunFrom(b, visited', q', d, room - 1);
      if |r| < room {
        var stop := Add(q, Multiply(Vector(d), |r|));
        StepAhead(q, d, |rest|);
        StepsLeave(q, d, |r|);
        VisitKeepsOthers(b, visited, q, stop);
      }
    } else {
      RunFromEnd(b, visited, q, d, room);
      assert Multiply(Vector(d), 0) == Origin;
    }
  }

  // ---- the turn's orders ----

  /** The orders the loop prints. */
  datatype Command =
    | SurfaceCommand
    | TorpedoCommand(at: Coordinate)
    | MineCommand(direction: Direction)
    | SilenceCommand(direction: Direction, length: nat)
    | MoveCommand(direction: Direction, power: Power)
    | SonarCommand(region: int)
    | TriggerCommand(at: Coordinate)

  /** One TRIGGER per fired mine, in laying order. */
  function Triggers(fired: seq<Coordinate>): (r: seq<Command>)
    ensures |r| == |fired| && forall i :: 0 <= i < |fired| ==> r[i] == TriggerCommand(fired[i])
  {
    seq(|fired|, i requires 0 <= i < |fired| => TriggerCommand(fired[i]))
  }

  /**
   * The orders of a turn with a first move `d`: a torpedo at the estimate
   * when it is three or four moves away and the torpedo is ready, a mine
   * when it is ready, then a SILENCE of `length` when it is ready or else
   * a MOVE charging `getPower`'s choice, and a SONAR when a region is to
   * be asked about.
   */
  function Plan(me: Coordinate, opponent: Option<Coordinate>, cd: Cooldown, check: Option<int>, turn: nat,
                d: Direction, length: nat): (r: seq<Command>)
    ensures MoveCommand(d, GetPower(turn, cd)) in r <==> cd.silence != 0
    ensures SilenceCommand(d, length) in r <==> cd.silence == 0
    ensures MineCommand(d) in r <==> cd.mine == 0
    ensures forall c :: c in r ==> !c.SurfaceCommand? && !c.TriggerCommand?
    ensures forall c :: c in r && (c.MoveCommand? || c.SilenceCommand? || c.MineCommand?) ==> c.direction == d
    ensures forall p :: TorpedoCommand(p) in r <==>
      opponent == Some(p) && 2 < PathLength(me, p) <= 4 && cd.torpedo == 0
    ensures forall k :: SonarCommand(k) in r <==> Truthy(check) && check == Some(k)
  {
    var torpedo :=
      if opponent.Some? && 2 < PathLength(me, opponent.value) <= 4 && cd.torpedo == 0
      then [TorpedoCommand(opponent.value)] else [];
    var mine := if cd.mine == 0 then [MineCommand(d)] else [];
    var step := if cd.silence == 0 then [SilenceCommand(d, length)] else [MoveCommand(d, GetPower(turn, cd))];
    var sonar := if Truthy(check) then [SonarCommand(check.value)] else [];
    torpedo + mine + step + sonar
  }

  // ---- the game loop ----

  /**
   * The variables the game loop keeps from turn to turn: the earliest
   * grid with its visited list, the turn number, the mines laid, the
   * opponent's estimated position, the tracker's lists and the region to
   * ask the sonar about.
   */
  class OceanBot {
    const grid: EarlyGrid
    var turn: nat
    var mines: seq<Coordinate>
    var opponent: Option<Coordinate>
    var tracker: Offsets
    var check: Option<int>

    /** The setup before the loop: every sea cell may be the opponent's start, and it has not moved. */
    constructor (b: Board)
      requires b.width > 0
      ensures fresh(grid) && grid.board == b && grid.visitedCells == []
      ensures turn == 0 && mines == [] && opponent.None? && check.None?
      ensures tracker == Offsets(SeaCells(b), [Origin])
    {
      grid := new EarlyGrid(b);
      turn := 0;
      mines := [];
      opponent := None;
      check := None;
      tracker := Offsets(SeaCells(b), [Origin]);
    }

    /**
     * The first half of a turn: mark our position visited, read the sonar
     * answer and the opponent's orders into the tracker, and estimate the
     * opponent's position from the candidates. `ok` is false where the
     * loop throws; the tracker and the estimate are then as they were.
     */
    method Observe(me: Coordinate, cd: Cooldown, sonarResult: string, orders: seq<string>) returns (ok: bool)
      modifies this, grid
      ensures grid.visitedCells == old(grid.visitedCells) + [GridIndex(grid.board, me)]
      ensures ok <==> Observed(grid.board, old(tracker), old(check), sonarResult, orders).Some?
      ensures ok ==>
        var (o, c) := Observed(grid.board, old(tracker), old(check), sonarResult, orders).value;
        && tracker == o
        && Sighting(opponent, check) == Locate(Candidates(grid.board, o, orders), cd.sonar, Sighting(old(opponent), c))
      ensures !ok ==> tracker == old(tracker) && check == old(check) && opponent == old(opponent)
      ensures turn == old(turn) && mines == old(mines)
    {
      grid.SetCurrentCell(me);
      var observed := Observed(grid.board, tracker, check, sonarResult, orders);
      if observed.None? {
        return false;
      }
      var (o, c) := observed.value;
      tracker := o;
      var sighting := Locate(Candidates(grid.board, o, orders), cd.sonar, Sighting(opponent, c));
      opponent := sighting.opponent;
      check := sighting.check;
      ok := true;
    }

    /**
     * The SILENCE loop: from `from`, step in direction `d` while the next
     * point is available and fewer than four steps were taken, marking
     * each point visited. The length is that of the run.
     */
    method SilenceRun(from: Coordinate, d: Direction) returns (length: nat)
      modifies grid
      ensures length == |RunFrom(grid.board, old(grid.visitedCells), Add(from, Vector(d)), d, 4)|
      ensures grid.visitedCells ==
        old(grid.visitedCells) + Numbers(grid.board, RunFrom(grid.board, old(grid.visitedCells), Add(from, Vector(d)), d, 4))
    {
      length := 0;
      var point := Add(from, Vector(d));
      ghost var taken: seq<Coordinate> := [];
      ghost var whole := RunFrom(grid.board, grid.visitedCells, point, d, 4);
      while grid.IsAvailableAt(point) && length < 4
        invariant length == |taken| <= 4
        invariant grid.visitedCells == old(grid.visitedCells) + Numbers(grid.board, taken)
        invariant taken + RunFrom(grid.board, grid.visitedCells, point, d, 4 - length) == whole
        decreases 4 - length
      {
        RunOneMore(grid.board, old(grid.visitedCells), grid.visitedCells, taken, point, d, whole);
        grid.SetCurrentCell(point);
        taken := taken + [point];
        length := length + 1;
        point := Add(point, Vector(d));
      }
      RunFromEnd(grid.board, grid.visitedCells, point, d, 4 - length);
    }

    /**
     * The second half of a turn: search the longest walk from our position
     * through the cells not visited, fire the mines the estimate allows,
     * then surface and forget the visited cells when the walk has no first
     * move, or else follow its first move as `Plan` lays out, running a
     * SILENCE as far as the visited list allows.
     */
    method Act(me: Coordinate, cd: Cooldown) returns (actions: seq<Command>, path: seq<PathNode>)
      requires grid.board.width > 0 && IsSeaCell(grid.board, me)
      modifies this, grid
      ensures IsWalk(BoardGrid(grid.board), true, BoardGrid(grid.board).cells[GridIndex(grid.board, me)],
                     WayPool(grid.board, old(grid.visitedCells), GridIndex(grid.board, me)), path)
      ensures Stuck(BoardGrid(grid.board), true, WayPool(grid.board, old(grid.visitedCells), GridIndex(grid.board, me)),
                    CellsOf(path), path[|path| - 1].cell.coordinate)
      ensures MustSurface(path) ==>
        && actions == Triggers(Triggered(old(mines), opponent, me)) + [SurfaceCommand]
        && grid.visitedCells == []
        && mines == MinesLeft(old(mines), opponent, me)
      ensures !MustSurface(path) ==>
        var d := path[0].direction.value;
        var run := RunFrom(grid.board, old(grid.visitedCells), Add(me, Vector(d)), d, 4);
        && 1 <= |run| <= 4
        && actions == Triggers(Triggered(old(mines), opponent, me))
             + Plan(me, opponent, cd, check, old(turn), d, if cd.silence == 0 then |run| else 0)
        && grid.visitedCells == old(grid.visitedCells) + (if cd.silence == 0 then Numbers(grid.board, run) else [])
        && mines == MinesLeft(old(mines), opponent, me) + (if cd.mine == 0 then [me] else [])
      ensures turn == old(turn) + 1
      ensures tracker == old(tracker) && check == old(check) && opponent == old(opponent)
    {
      var b := grid.board;
      var index := GridIndex(b, me);
      ghost var visited := grid.visitedCells;
      path := grid.SearchLongestWay(index, |b.terrain|);
      var fired := Triggered(mines, opponent, me);
      mines := MinesLeft(mines, opponent, me);
      actions := Triggers(fired);
      if |path| == 0 || path[0].direction.None? {
        actions := actions + [SurfaceCommand];
        grid.ClearVisitedCells();
      } else {
        var d := path[0].direction.value;
        GridIndexRoundTrip(b, me, 0);
        FirstMoveAvailable(b, visited, index, path, d);
        RunFromMeaning(b, visited, Add(me, Vector(d)), d, 4);
        if cd.mine == 0 {
          mines := mines + [me];
        }
        var length := 0;
        if cd.silence == 0 {
          length := SilenceRun(me, d);
        }
        actions := actions + Plan(me, opponent, cd, check, turn, d, length);
      }
      turn := turn + 1;
    }
  }
}
