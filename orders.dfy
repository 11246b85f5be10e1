// The opponent's order tokens: the JavaScript `split(' ')` and `parseInt`
// they are read with, the list-shaped parser of the services generation
// (`ORDER_PARSER_STRATEGIES` and `OpponentSubmarine.parse`) and the
// object-shaped parser of the earlier generation.
module Orders {
  import opened Sequences

  // ---- split(' ') ----

  /** Where the first space of `s` is, or `|s|`. */
  function SpaceAt(s: string): (i: nat)
    ensures i <= |s| && (i < |s| ==> s[i] == ' ')
    ensures forall j :: 0 <= j < i ==> s[j] != ' '
  {
    if s == [] then 0 else if s[0] == ' ' then 0 else 1 + SpaceAt(s[1..])
  }

  /** `s.split(' ')`: the fields between spaces, empty fields included. */
  function Split(s: string): (r: seq<string>)
    ensures |r| >= 1
    decreases |s|
  {
    var i := SpaceAt(s);
    if i == |s| then [s] else [s[..i]] + Split(s[i + 1..])
  }

  /** `words.join(' ')`. */
  function Join(words: seq<string>): string
    requires |words| >= 1
  {
    if |words| == 1 then words[0] else words[0] + " " + Join(words[1..])
  }

  predicate NoSpace(w: string) {
    forall j :: 0 <= j < |w| ==> w[j] != ' '
  }

  /** Splitting and joining again gives the string back, and no field holds a space. */
  lemma {:induction false} SplitJoin(s: string)
    ensures Join(Split(s)) == s
    ensures forall i :: 0 <= i < |Split(s)| ==> NoSpace(Split(s)[i])
    decreases |s|
  {
    SplitJoinBack(s);
    SplitNoSpace(s);
  }

  lemma {:induction false} SplitJoinBack(s: string)
    ensures Join(Split(s)) == s
    decreases |s|
  {
    var i := SpaceAt(s);
    if i < |s| {
      var rest := s[i + 1..];
      SplitJoinBack(rest);
      var w := [s[..i]] + Split(rest);
      assert Split(s) == w && w[1..] == Split(rest);
      assert Join(w) == s[..i] + " " + Join(Split(rest));
      assert s == s[..i] + " " + rest;
    }
  }

  lemma {:induction false} SplitNoSpace(s: string)
    ensures forall i :: 0 <= i < |Split(s)| ==> NoSpace(Split(s)[i])
    decreases |s|
  {
    var i := SpaceAt(s);
    if i < |s| {
      var rest := s[i + 1..];
      SplitNoSpace(rest);
      var w := [s[..i]] + Split(rest);
      assert Split(s) == w;
      forall j | 0 <= j < |w| ensures NoSpace(w[j]) {
        if j > 0 {
          assert w[j] == Split(rest)[j - 1];
        }
      }
    }
  }

  /** Joining space-free words and splitting again gives the words back. */
  lemma {:induction false} JoinSplit(words: seq<string>)
    requires |words| >= 1 && forall i :: 0 <= i < |words| ==> NoSpace(words[i])
    ensures Split(Join(words)) == words
  {
    var w := words[0];
    if |words| == 1 {
      FirstSpace(w, "");
      assert w + "" == w;
    } else {
      var tail := Join(words[1..]);
      var s := w + " " + tail;
      assert Join(words) == s;
      FirstSpace(w, " " + tail);
      assert w + (" " + tail) == s;
      JoinSplit(words[1..]);
      assert s[|w| + 1..] == tail;
      assert s[..|w|] == w;
      assert Split(s) == [w] + Split(tail);
      assert words == [w] + words[1..];
    }
  }

  lemma {:induction false} FirstSpace(w: string, rest: string)
    requires NoSpace(w) && (rest == [] || rest[0] == ' ')
    ensures SpaceAt(w + rest) == |w|
  {
    var s := w + rest;
    assert forall j :: 0 <= j < |w| ==> s[j] == w[j];
    if rest != [] {
      assert s[|w|] == ' ';
    }
  }

  /** `s.split(' ')[i]`: undefined past the last field. */
  function Word(s: string, i: nat): Option<string> {
    var words := Split(s);
    if i < |words| then Some(words[i]) else None
  }

  // ---- parseInt ----

  /** The characters `parseInt` skips before the number (the Unicode space separators beyond U+00A0 are not listed). */
  predicate IsWhiteSpace(c: char) {
    c in {' ', '\t', '\n', '\r', '\U{000B}', '\U{000C}', '\U{00A0}', '\U{FEFF}', '\U{2028}', '\U{2029}'}
  }

  function TrimStart(s: string): (r: string)
    ensures |r| <= |s| && (r != [] ==> !IsWhiteSpace(r[0]))
  {
    if s != [] && IsWhiteSpace(s[0]) then TrimStart(s[1..]) else s
  }

  /** The value of a digit in base `radix` (10 or 16), if it is one. */
  function DigitValue(c: char, radix: int): Option<int> {
    if '0' <= c <= '9' then Some(c as int - '0' as int)
    else if radix == 16 && 'a' <= c <= 'f' then Some(c as int - 'a' as int + 10)
    else if radix == 16 && 'A' <= c <= 'F' then Some(c as int - 'A' as int + 10)
    else None
  }

  /** The length of the longest prefix of `s` made of digits. */
  function DigitRun(s: string, radix: int): (n: nat)
    ensures n <= |s|
    ensures forall j :: 0 <= j < n ==> DigitValue(s[j], radix).Some?
    ensures n < |s| ==> DigitValue(s[n], radix).None?
  {
    if s == [] || DigitValue(s[0], radix).None? then 0 else 1 + DigitRun(s[1..], radix)
  }

  /** The number a run of digits denotes, most significant first. */
  function DigitsValue(s: string, radix: int): int
    requires forall j :: 0 <= j < |s| ==> DigitValue(s[j], radix).Some?
    decreases |s|
  {
    if s == [] then 0
    else DigitsValue(s[..|s| - 1], radix) * radix + DigitValue(s[|s| - 1], radix).value
  }

  /** The unsigned part: an optional `0x`/`0X` prefix selects base 16, then at least one digit. */
  function ParseMagnitude(s: string): Option<int> {
    var hex := |s| >= 2 && s[0] == '0' && (s[1] == 'x' || s[1] == 'X');
    var radix := if hex then 16 else 10;
    var body := if hex then s[2..] else s;
    var n := DigitRun(body, radix);
    if n == 0 then None else Some(DigitsValue(body[..n], radix))
  }

  /**
   * `parseInt(word)` with no radix: skip leading white space, read an
   * optional sign, then the longest digit prefix; `None` is NaN, which is
   * also what `parseInt(undefined)` gives.
   */
  function ParseInt(word: Option<string>): Option<int> {
    match word
    case None => None
    case Some(w) =>
      var t := TrimStart(w);
      if t != [] && (t[0] == '-' || t[0] == '+') then
        match ParseMagnitude(t[1..])
        case None => None
        case Some(m) => Some(if t[0] == '-' then -m else m)
      else ParseMagnitude(t)
  }

  /** The decimal rendering of a natural number, without leading zeros. */
  function ShowNat(n: nat): (s: string)
    ensures |s| >= 1 && (|s| > 1 ==> s[0] != '0')
    ensures forall j :: 0 <= j < |s| ==> '0' <= s[j] <= '9'
  {
    if n < 10 then [('0' as int + n) as char]
    else ShowNat(n / 10) + [('0' as int + n % 10) as char]
  }

  /** The decimal rendering of an integer, as the game prints coordinates and region numbers. */
  function Show(n: int): string {
    if n < 0 then "-" + ShowNat(-n) else ShowNat(n)
  }

  lemma {:induction false} ShowNatValue(n: nat)
    ensures DigitRun(ShowNat(n), 10) == |ShowNat(n)|
    ensures DigitsValue(ShowNat(n), 10) == n
  {
    var s := ShowNat(n);
    AllDigitsRun(s);
    if n >= 10 {
      ShowNatValue(n / 10);
      assert s[..|s| - 1] == ShowNat(n / 10);
    }
  }

  lemma {:induction false} AllDigitsRun(s: string)
    requires forall j :: 0 <= j < |s| ==> '0' <= s[j] <= '9'
    ensures DigitRun(s, 10) == |s|
  {
    if s != [] {
      AllDigitsRun(s[1..]);
    }
  }

  /** The unsigned part of `parseInt` reads back every natural number the game prints. */
  lemma {:induction false} ParseMagnitudeShow(m: nat)
    ensures ParseMagnitude(ShowNat(m)) == Some(m)
  {
    ShowNatValue(m);
    var s := ShowNat(m);
    assert !(|s| >= 2 && s[0] == '0');
    assert s[..|s|] == s;
  }

  /** `parseInt` reads back every integer the game prints. */
  lemma {:induction false} ParseIntShow(n: int)
    ensures ParseInt(Some(Show(n))) == Some(n)
  {
    var m := if n < 0 then -n else n;
    ParseMagnitudeShow(m);
    var s := ShowNat(m);
    assert '0' <= s[0] <= '9';
    if n < 0 {
      ParseIntSigned(s, m);
    } else {
      ParseIntUnsigned(s, m);
    }
  }

  lemma {:induction false} ParseIntUnsigned(s: string, m: int)
    requires s != [] && '0' <= s[0] <= '9' && ParseMagnitude(s) == Some(m)
    ensures ParseInt(Some(s)) == Some(m)
  {
    assert TrimStart(s) == s;
  }

  lemma {:induction false} ParseIntSigned(s: string, m: int)
    requires s != [] && '0' <= s[0] <= '9' && ParseMagnitude(s) == Some(m)
    ensures ParseInt(Some("-" + s)) == Some(-m)
  {
    var t := "-" + s;
    assert TrimStart(t) == t;
    assert t[1..] == s;
  }

  // ---- the orders ----

  /** The order names of `OrderEnum` the parsers look for, in strategy order. */
  datatype Kind = MoveKind | SurfaceKind | TorpedoKind | SonarKind | SilenceKind | MineKind | TriggerKind

  const Strategies: seq<Kind> := [MoveKind, SurfaceKind, TorpedoKind, SonarKind, SilenceKind, MineKind, TriggerKind]

  function Name(k: Kind): string {
    match k
    case MoveKind => "MOVE"
    case SurfaceKind => "SURFACE"
    case TorpedoKind => "TORPEDO"
    case SonarKind => "SONAR"
    case SilenceKind => "SILENCE"
    case MineKind => "MINE"
    case TriggerKind => "TRIGGER"
  }

  /** An order with its payload as the parser reads it: a missing word is `None`, a NaN number is `None`. */
  datatype Order =
    | Move(direction: Option<string>)
    | Surface(index: Option<int>)
    | Torpedo(x: Option<int>, y: Option<int>)
    | Sonar(index: Option<int>)
    | Silence
    | Mine
    | Trigger(x: Option<int>, y: Option<int>)

  function KindOf(o: Order): Kind {
    match o
    case Move(_) => MoveKind
    case Surface(_) => SurfaceKind
    case Torpedo(_, _) => TorpedoKind
    case Sonar(_) => SonarKind
    case Silence => SilenceKind
    case Mine => MineKind
    case Trigger(_, _) => TriggerKind
  }

  /** The `parse` of one strategy, applied to a token. */
  function ParseAs(k: Kind, token: string): (o: Order)
    ensures KindOf(o) == k
  {
    match k
    case MoveKind => Move(Word(token, 1))
    case SurfaceKind => Surface(ParseInt(Word(token, 1)))
    case TorpedoKind => Torpedo(ParseInt(Word(token, 1)), ParseInt(Word(token, 2)))
    case SonarKind => Sonar(ParseInt(Word(token, 1)))
    case SilenceKind => Silence
    case MineKind => Mine
    case TriggerKind => Trigger(ParseInt(Word(token, 1)), ParseInt(Word(token, 2)))
  }

  predicate StartsWith(s: string, prefix: string) {
    |prefix| <= |s| && s[..|prefix|] == prefix
  }

  /** The first strategy, from position `from`, whose name starts the token. */
  function Match(token: string, from: nat): (r: Option<Kind>)
    requires from <= |Strategies|
    ensures r.Some? ==> StartsWith(token, Name(r.value))
    ensures r.None? ==> forall j :: from <= j < |Strategies| ==> !StartsWith(token, Name(Strategies[j]))
    decreases |Strategies| - from
  {
    if from == |Strategies| then None
    else if StartsWith(token, Name(Strategies[from])) then Some(Strategies[from])
    else Match(token, from + 1)
  }

  /** `ORDER_PARSER_STRATEGIES.find(s => token.startsWith(s.order))`, then its `parse`. */
  function ParseOrder(token: string): Option<Order> {
    match Match(token, 0)
    case None => None
    case Some(k) => Some(ParseAs(k, token))
  }

  /**
   * `OpponentSubmarine.parse` (services): the recognised tokens, parsed, in
   * input order; a token no strategy recognises is dropped.
   */
  function Parse(tokens: seq<string>): (r: seq<Order>)
    ensures |r| <= |tokens|
  {
    if tokens == [] then []
    else
      (match ParseOrder(tokens[0]) case None => [] case Some(o) => [o]) + Parse(tokens[1..])
  }

  /** `o` is the parse of one of the tokens, which starts with the name of `o`'s kind. */
  predicate FromToken(o: Order, tokens: seq<string>) {
    exists j :: 0 <= j < |tokens| && ParseOrder(tokens[j]) == Some(o) && StartsWith(tokens[j], Name(KindOf(o)))
  }

  /** Every parsed order is the parse of a token whose name it carries, and recognised tokens are never lost. */
  lemma {:induction false} ParseKeepsRecognised(tokens: seq<string>)
    ensures forall i :: 0 <= i < |Parse(tokens)| ==> FromToken(Parse(tokens)[i], tokens)
    ensures |Parse(tokens)| == |tokens| <==> forall j :: 0 <= j < |tokens| ==> ParseOrder(tokens[j]).Some?
  {
    if tokens != [] {
      ParseKeepsRecognised(tokens[1..]);
      var head := match ParseOrder(tokens[0]) case None => [] case Some(o) => [o];
      var rest := Parse(tokens[1..]);
      assert Parse(tokens) == head + rest;
      forall i | 0 <= i < |Parse(tokens)| ensures FromToken(Parse(tokens)[i], tokens) {
        if i < |head| {
          ParsedName(tokens[0]);
        } else {
          FromTokenTail(rest[i - |head|], tokens);
        }
      }
      if forall j :: 0 <= j < |tokens| ==> ParseOrder(tokens[j]).Some? {
        assert forall j :: 0 <= j < |tokens[1..]| ==> ParseOrder(tokens[1..][j]).Some? by {
          forall j | 0 <= j < |tokens[1..]| ensures ParseOrder(tokens[1..][j]).Some? {
            assert tokens[1..][j] == tokens[j + 1];
          }
        }
      }
      if |Parse(tokens)| == |tokens| {
        assert |rest| <= |tokens| - 1;
        forall j | 0 <= j < |tokens| ensures ParseOrder(tokens[j]).Some? {
          if j > 0 { assert tokens[1..][j - 1] == tokens[j]; }
        }
      }
    }
  }

  lemma {:induction false} FromTokenTail(o: Order, tokens: seq<string>)
    requires tokens != [] && FromToken(o, tokens[1..])
    ensures FromToken(o, tokens)
  {
    var j :| 0 <= j < |tokens[1..]| && ParseOrder(tokens[1..][j]) == Some(o) && StartsWith(tokens[1..][j], Name(KindOf(o)));
    assert tokens[j + 1] == tokens[1..][j];
  }

  lemma {:induction false} ParsedName(token: string)
    requires ParseOrder(token).Some?
    ensures StartsWith(token, Name(KindOf(ParseOrder(token).value)))
  {
  }

  // ---- rendering: the tokens the game sends ----

  /** The orders the game can send: every word present and every number a number. */
  predicate Renderable(o: Order) {
    match o
    case Move(d) => d.Some? && NoSpace(d.value)
    case Surface(i) => i.Some?
    case Torpedo(x, y) => x.Some? && y.Some?
    case Sonar(i) => i.Some?
    case Silence => true
    case Mine => true
    case Trigger(x, y) => x.Some? && y.Some?
  }

  /** The token the game prints for an order. */
  function Render(o: Order): (words: seq<string>)
    requires Renderable(o)
    ensures |words| >= 1 && words[0] == Name(KindOf(o))
  {
    match o
    case Move(d) => [Name(MoveKind), d.value]
    case Surface(i) => [Name(SurfaceKind), Show(i.value)]
    case Torpedo(x, y) => [Name(TorpedoKind), Show(x.value), Show(y.value)]
    case Sonar(i) => [Name(SonarKind), Show(i.value)]
    case Silence => [Name(SilenceKind)]
    case Mine => [Name(MineKind)]
    case Trigger(x, y) => [Name(TriggerKind), Show(x.value), Show(y.value)]
  }

  lemma {:induction false} ShowNoSpace(n: int)
    ensures NoSpace(Show(n))
  {
    var s := ShowNat(if n < 0 then -n else n);
    assert NoSpace(s);
  }

  /** The strategy a token is matched to is the one its first word names. */
  lemma {:induction false} MatchFirstWord(k: Kind, rest: string)
    ensures Match(Name(k) + rest, 0) == Some(k)
  {
    var t := Name(k) + rest;
    assert t[..|Name(k)|] == Name(k);
    match k
    case MoveKind =>
    case SurfaceKind => assert t[0] == 'S' && t[1] == 'U';
    case TorpedoKind => assert t[0] == 'T' && t[1] == 'O';
    case SonarKind => assert t[0] == 'S' && t[1] == 'O';
    case SilenceKind => assert t[0] == 'S' && t[1] == 'I';
    case MineKind => assert t[0] == 'M' && t[1] == 'I';
    case TriggerKind => assert t[0] == 'T' && t[1] == 'R';
  }

  /** The words of a rendered order hold no space. */
  lemma {:induction false} RenderNoSpace(o: Order)
    requires Renderable(o)
    ensures forall i :: 0 <= i < |Render(o)| ==> NoSpace(Render(o)[i])
  {
    match o
    case Surface(n) => ShowNoSpace(n.value);
    case Sonar(n) => ShowNoSpace(n.value);
    case Torpedo(x, y) => ShowNoSpace(x.value); ShowNoSpace(y.value);
    case Trigger(x, y) => ShowNoSpace(x.value); ShowNoSpace(y.value);
    case _ =>
  }

  /** A joined token starts with its first word, then a space before any other word. */
  lemma {:induction false} JoinHead(words: seq<string>)
    requires |words| >= 1
    ensures Join(words) == words[0] + (if |words| == 1 then "" else " " + Join(words[1..]))
  {
    if |words| > 1 {
      assert words[0] + " " + Join(words[1..]) == words[0] + (" " + Join(words[1..]));
    }
  }

  /** A rendered token splits back into its words and is matched to its own kind. */
  lemma {:induction false} RenderedToken(o: Order)
    requires Renderable(o)
    ensures Split(Join(Render(o))) == Render(o)
    ensures Match(Join(Render(o)), 0) == Some(KindOf(o))
  {
    var words := Render(o);
    RenderNoSpace(o);
    JoinSplit(words);
    JoinHead(words);
    MatchFirstWord(KindOf(o), if |words| == 1 then "" else " " + Join(words[1..]));
  }

  /** Parsing the token the game prints for an order gives that order back. */
  lemma {:induction false} ParseRender(o: Order)
    requires Renderable(o)
    ensures ParseOrder(Join(Render(o))) == Some(o)
  {
    RenderedToken(o);
    match o
    case Surface(n) => ParseIntShow(n.value);
    case Sonar(n) => ParseIntShow(n.value);
    case Torpedo(x, y) => ParseIntShow(x.value); ParseIntShow(y.value);
    case Trigger(x, y) => ParseIntShow(x.value); ParseIntShow(y.value);
    case _ =>
  }

  // ---- the object-shaped parser of the earlier generation ----

  /** `IOrders`: at most one order per kind. */
  datatype OrderSet = OrderSet(
    move: Option<Order>, surface: Option<Order>, torpedo: Option<Order>, sonar: Option<Order>,
    silence: Option<Order>, mine: Option<Order>, trigger: Option<Order>)

  /** Token `j` is the first that starts with `prefix`. */
  predicate FirstAt(tokens: seq<string>, prefix: string, j: int) {
    && 0 <= j < |tokens| && StartsWith(tokens[j], prefix)
    && forall i :: 0 <= i < j ==> !StartsWith(tokens[i], prefix)
  }

  /** `tokens.find(t => t.startsWith(prefix))`. */
  function FirstWith(tokens: seq<string>, prefix: string): (r: Option<string>)
    ensures r.None? <==> forall j :: 0 <= j < |tokens| ==> !StartsWith(tokens[j], prefix)
    ensures r.Some? ==> exists j :: 0 <= j < |tokens| && tokens[j] == r.value && FirstAt(tokens, prefix, j)
  {
    if tokens == [] then None
    else if StartsWith(tokens[0], prefix) then Some(tokens[0])
    else
      var r := FirstWith(tokens[1..], prefix);
      assert forall j :: 1 <= j < |tokens| ==> tokens[j] == tokens[1..][j - 1];
      r
  }

  /** The order of kind `k` the object parser keeps: the parse of the first token that starts with its name. */
  function FirstOrder(tokens: seq<string>, k: Kind): Option<Order> {
    match FirstWith(tokens, Name(k))
    case None => None
    case Some(t) => Some(ParseAs(k, t))
  }

  /** `OpponentSubmarine.parse` (earlier generation): the strategies folded into one object. */
  function ParseObject(tokens: seq<string>): OrderSet {
    OrderSet(FirstOrder(tokens, MoveKind), FirstOrder(tokens, SurfaceKind), FirstOrder(tokens, TorpedoKind),
      FirstOrder(tokens, SonarKind), FirstOrder(tokens, SilenceKind), FirstOrder(tokens, MineKind),
      FirstOrder(tokens, TriggerKind))
  }

  /**
   * In the object parser a kind is present exactly when some token starts
   * with its name, and then it holds the order of the first such token:
   * later tokens of the same kind are ignored.
   */
  lemma {:induction false} ParseObjectFirstWins(tokens: seq<string>, j: int)
    requires 0 <= j < |tokens| && Match(tokens[j], 0).Some?
    requires forall i :: 0 <= i < j ==> !StartsWith(tokens[i], Name(Match(tokens[j], 0).value))
    ensures var k := Match(tokens[j], 0).value;
      FirstOrder(tokens, k) == ParseOrder(tokens[j])
  {
    var k := Match(tokens[j], 0).value;
    var r := FirstWith(tokens, Name(k));
    var t :| 0 <= t < |tokens| && tokens[t] == r.value && FirstAt(tokens, Name(k), t);
    assert t == j;
  }
}
