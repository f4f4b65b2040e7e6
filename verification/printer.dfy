/**
 * A printer for tokens and expressions, the inverse of the grammar: every
 * printable expression is read back by `Tokenize` exactly as it was printed.
 */
module TokenPrinter {
  import opened Outcomes
  import opened Chars
  import opened Tokenizer

  // --------------------------------------------------------------- arguments

  /** The text an argument is written as between quotes. */
  function ArgText(a: Arg): string {
    match a
    case Null => ""
    case Bool(b) => if b then "true" else "false"
    case Int(i) => ShowInt(i)
    case Dec(t) => t
    case Str(s) => s
  }

  /** Text that reads back without quotes: a non-empty run of `character` tokens. */
  predicate Bare(t: string) {
    |t| > 0 && IsRun(t)
  }

  /** An argument as written in a pattern: null as an empty slot, a run of characters bare, anything else quoted. */
  function ShowArg(a: Arg): string {
    if a.Null? then "" else if Bare(ArgText(a)) then ArgText(a) else "\"" + ArgText(a) + "\""
  }

  /** Arguments that reading back reproduces: a string only when casting leaves it a string. */
  predicate Printable(a: Arg) {
    match a
    case Null => true
    case Bool(_) => true
    case Int(_) => true
    case Dec(t) => IsDecText(t)
    case Str(s) => Plain(s) && Cast(s) == Str(s)
  }

  /** An argument list that reads back: `()` reads as no arguments, so a lone null cannot be written. */
  predicate PrintableParams(ps: seq<Arg>) {
    ps != [Null] && forall i :: 0 <= i < |ps| ==> Printable(ps[i])
  }

  lemma SignedDigitsArePlain(s: string)
    requires forall i :: 0 <= i < |s| ==> IsDigit(s[i]) || s[i] == '-' || s[i] == '.'
    ensures Plain(s)
  {
  }

  lemma DecTextIsPlain(t: string)
    requires IsDecText(t)
    ensures Plain(t)
  {
    var d := Unsigned(t);
    var k := Span(d, IsDigit);
    forall i | 0 <= i < |d|
      ensures IsDigit(d[i]) || d[i] == '.'
    {
      if i > k {
        assert d[i] == d[k + 1..][i - k - 1];
      }
    }
    if |t| > 0 && t[0] == '-' {
      forall i | 0 < i < |t|
        ensures IsDigit(t[i]) || t[i] == '.'
      {
        assert t[i] == d[i - 1];
      }
    }
    SignedDigitsArePlain(t);
  }

  lemma ShowIntIsPlain(i: int)
    ensures Plain(ShowInt(i))
  {
    var s := ShowInt(i);
    if i < 0 {
      var n := ShowNat(-i);
      assert forall j :: 0 < j < |s| ==> s[j] == n[j - 1];
    }
    SignedDigitsArePlain(s);
  }

  /** Every printable non-null argument is written as plain text that casts back to it. */
  lemma ArgTextReadsBack(a: Arg)
    requires Printable(a) && !a.Null?
    ensures Plain(ArgText(a)) && Cast(ArgText(a)) == a
  {
    match a
    case Bool(b) =>
    case Int(i) =>
      ShowIntIsPlain(i);
      CastShowInt(i);
    case Dec(t) =>
      DecTextIsPlain(t);
    case Str(s) =>
  }

  /** An empty slot reads as null and consumes nothing before a delimiter. */
  lemma NullReadsBack(x: string)
    requires |x| > 0 && (x[0] == ',' || x[0] == ')')
    ensures ParseValue(x) == Parsed(Null, x)
  {
    assert CharWidth(x) == 0;
    assert ParseLiteral(x).Err?;
    assert RunLength(x) == 0;
    assert x[..0] == "";
  }

  /** A printable non-null argument reads back from its quoted form, whatever follows. */
  lemma QuotedReadsBack(a: Arg, y: string)
    requires Printable(a) && !a.Null?
    ensures ParseValue("\"" + ArgText(a) + "\"" + y) == Parsed(a, y)
  {
    ArgTextReadsBack(a);
    LiteralRoundTrip(ArgText(a), y);
  }

  /** A printable argument written bare reads back when no `character` token follows it. */
  lemma BareReadsBack(a: Arg, y: string)
    requires Printable(a) && !a.Null? && Bare(ArgText(a))
    requires CharWidth(y) == 0
    ensures ParseValue(ArgText(a) + y) == Parsed(a, y)
  {
    ArgTextReadsBack(a);
    QuotedCastsLikeBare(ArgText(a), y, y);
  }

  /** Whitespace and then a delimiter: no `character` token starts there. */
  lemma NoCharacterAfterPad(w: string, x: string)
    requires AllSpace(w) && |x| > 0 && (x[0] == ',' || x[0] == ')')
    ensures CharWidth(w + x) == 0
  {
    if |w| == 0 {
      assert w + x == x;
    } else {
      assert (w + x)[0] == w[0];
    }
  }

  lemma AllSpaceConcat(u: string, w: string)
    requires AllSpace(u) && AllSpace(w)
    ensures AllSpace(u + w)
  {
  }

  /** The whitespace `pre`, a value, the whitespace `post`: reading lands on `x`, the delimiter after them. */
  lemma ValueStep(a: Arg, pre: string, post: string, x: string)
    requires Printable(a) && AllSpace(pre) && AllSpace(post)
    requires |x| > 0 && (x[0] == ',' || x[0] == ')')
    ensures var v := ParseValue(SkipSpace(pre + ShowArg(a) + post + x));
            v.result == a && SkipSpace(v.rest) == x
  {
    if a.Null? {
      NullStep(pre, post, x);
    } else if Bare(ArgText(a)) {
      BareStep(a, pre, post, x);
    } else {
      QuotedStep(a, pre, post, x);
    }
  }

  lemma NullStep(pre: string, post: string, x: string)
    requires AllSpace(pre) && AllSpace(post)
    requires |x| > 0 && (x[0] == ',' || x[0] == ')')
    ensures var v := ParseValue(SkipSpace(pre + ShowArg(Null) + post + x));
            v.result == Null && SkipSpace(v.rest) == x
  {
    assert pre + ShowArg(Null) + post + x == (pre + post) + x;
    AllSpaceConcat(pre, post);
    SkipSpaceOver(pre + post, x);
    NullReadsBack(x);
    SkipSpaceOver("", x);
    assert "" + x == x;
  }

  lemma BareStep(a: Arg, pre: string, post: string, x: string)
    requires Printable(a) && !a.Null? && Bare(ArgText(a)) && AllSpace(pre) && AllSpace(post)
    requires |x| > 0 && (x[0] == ',' || x[0] == ')')
    ensures var v := ParseValue(SkipSpace(pre + ShowArg(a) + post + x));
            v.result == a && SkipSpace(v.rest) == x
  {
    BareSkip(a, pre, post + x);
    assert pre + ShowArg(a) + post + x == pre + ShowArg(a) + (post + x);
    BareRead(a, post, x);
    ReadFrom(pre + ShowArg(a) + post + x, ArgText(a) + (post + x), a, post + x, x);
  }

  /** Leading whitespace skipped, a bare value is next. */
  lemma BareSkip(a: Arg, pre: string, y: string)
    requires !a.Null? && Bare(ArgText(a)) && AllSpace(pre)
    ensures SkipSpace(pre + ShowArg(a) + y) == ArgText(a) + y
  {
    var t := ArgText(a);
    assert pre + ShowArg(a) + y == pre + (t + y);
    RunChars(t);
    assert (t + y)[0] == t[0];
    SkipSpaceOver(pre, t + y);
  }

  /** A bare value read, then the whitespace after it skipped up to the delimiter. */
  lemma BareRead(a: Arg, post: string, x: string)
    requires Printable(a) && !a.Null? && Bare(ArgText(a)) && AllSpace(post)
    requires |x| > 0 && (x[0] == ',' || x[0] == ')')
    ensures ParseValue(ArgText(a) + (post + x)) == Parsed(a, post + x)
    ensures SkipSpace(post + x) == x
  {
    NoCharacterAfterPad(post, x);
    BareReadsBack(a, post + x);
    SkipSpaceOver(post, x);
  }

  lemma QuotedStep(a: Arg, pre: string, post: string, x: string)
    requires Printable(a) && !a.Null? && !Bare(ArgText(a)) && AllSpace(pre) && AllSpace(post)
    requires |x| > 0 && (x[0] == ',' || x[0] == ')')
    ensures var v := ParseValue(SkipSpace(pre + ShowArg(a) + post + x));
            v.result == a && SkipSpace(v.rest) == x
  {
    var q := "\"" + ArgText(a) + "\"";
    QuotedSkip(a, pre, post + x);
    assert pre + ShowArg(a) + post + x == pre + ShowArg(a) + (post + x);
    QuotedRead(a, post, x);
    ReadFrom(pre + ShowArg(a) + post + x, q + (post + x), a, post + x, x);
  }

  /** Skipping whitespace reaches `w`, reading `w` gives `a` and leaves `y`, and skipping whitespace in `y` reaches `x`. */
  lemma ReadFrom(s: string, w: string, a: Arg, y: string, x: string)
    requires SkipSpace(s) == w && ParseValue(w) == Parsed(a, y) && SkipSpace(y) == x
    ensures var v := ParseValue(SkipSpace(s)); v.result == a && SkipSpace(v.rest) == x
  {
  }

  /** A quoted value read, then the whitespace after it skipped up to the delimiter. */
  lemma QuotedRead(a: Arg, post: string, x: string)
    requires Printable(a) && !a.Null? && AllSpace(post)
    requires |x| > 0 && (x[0] == ',' || x[0] == ')')
    ensures ParseValue("\"" + ArgText(a) + "\"" + (post + x)) == Parsed(a, post + x)
    ensures SkipSpace(post + x) == x
  {
    QuotedReadsBack(a, post + x);
    SkipSpaceOver(post, x);
  }

  /** Leading whitespace skipped, a quoted value is next. */
  lemma QuotedSkip(a: Arg, pre: string, y: string)
    requires !a.Null? && !Bare(ArgText(a)) && AllSpace(pre)
    ensures SkipSpace(pre + ShowArg(a) + y) == "\"" + ArgText(a) + "\"" + y
  {
    var q := "\"" + ArgText(a) + "\"";
    assert pre + ShowArg(a) + y == pre + (q + y);
    assert (q + y)[0] == '"';
    SkipSpaceOver(pre, q + y);
  }

  // ----------------------------------------------------------- argument lists

  /** The whitespace at position `i` of a layout; positions past its end are empty. */
  function Pad(pads: seq<string>, i: nat): string {
    if i < |pads| then pads[i] else ""
  }

  /** A layout of whitespace only. */
  predicate AllPads(pads: seq<string>) {
    forall i :: 0 <= i < |pads| ==> AllSpace(pads[i])
  }

  /**
   * The comma-led slots from slot `k` on: slot `k` has `Pad(pads, 2 * k)` between
   * its comma and its value and `Pad(pads, 2 * k + 1)` after the value.
   */
  function ShowSlots(qs: seq<Arg>, pads: seq<string>, k: nat): string
    decreases |qs|
  {
    if qs == [] then ""
    else "," + Pad(pads, 2 * k) + ShowArg(qs[0]) + Pad(pads, 2 * k + 1) + ShowSlots(qs[1..], pads, k + 1)
  }

  /** An argument list laid out with its own whitespace before and after every value. */
  function ShowArgs(ps: seq<Arg>, pads: seq<string>): string {
    if ps == [] then "(" + Pad(pads, 0) + Pad(pads, 1) + ")"
    else "(" + Pad(pads, 0) + ShowArg(ps[0]) + Pad(pads, 1) + (ShowSlots(ps[1..], pads, 1) + ")")
  }

  /** The printed slots start with a comma, or are empty and leave the closing delimiter. */
  lemma SlotsStart(qs: seq<Arg>, pads: seq<string>, k: nat, y: string)
    requires |y| > 0 && y[0] == ')'
    ensures |ShowSlots(qs, pads, k) + y| > 0
    ensures (ShowSlots(qs, pads, k) + y)[0] in {',', ')'}
  {
    if qs != [] {
      SlotsUnfold(qs, pads, k, y);
    }
  }

  /** One comma-led slot: the first value read after the comma, then the remaining slots. */
  lemma GroupsStep(s: string, x: string, qs: seq<Arg>, rest: string)
    requires |s| > 0 && s[0] == ',' && qs != []
    requires var v := ParseValue(SkipSpace(s[1..])); v.result == qs[0] && SkipSpace(v.rest) == x
    requires ArgGroups(x) == Parsed(qs[1..], rest)
    ensures ArgGroups(s) == Parsed(qs, rest)
  {
    SlotThen(s, x, qs[0], qs[1..], rest);
    ConsSplit(qs);
  }

  lemma SlotThen(s: string, x: string, a: Arg, more: seq<Arg>, rest: string)
    requires |s| > 0 && s[0] == ','
    requires var v := ParseValue(SkipSpace(s[1..])); v.result == a && SkipSpace(v.rest) == x
    requires ArgGroups(x) == Parsed(more, rest)
    ensures ArgGroups(s) == Parsed([a] + more, rest)
  {
  }

  /** Dropping a one-character head from a chain of concatenations. */
  lemma DropHead(c: string, a: string, b: string, d: string, e: string, x: string)
    requires |c| == 1
    ensures var s := c + a + b + d + e + x;
            |s| > 0 && s[0] == c[0] && s[1..] == a + b + d + (e + x)
  {
    var s := c + a + b + d + e + x;
    assert s == c + (a + b + d + (e + x));
  }

  lemma Regroup(a: string, b: string, c: string)
    ensures (a + b) + c == a + (b + c)
  {
  }

  lemma SlotsUnfold(qs: seq<Arg>, pads: seq<string>, k: nat, x: string)
    requires qs != []
    ensures var s := ShowSlots(qs, pads, k) + x;
            && |s| > 0 && s[0] == ','
            && s[1..] == Pad(pads, 2 * k) + ShowArg(qs[0]) + Pad(pads, 2 * k + 1) + (ShowSlots(qs[1..], pads, k + 1) + x)
  {
    var v := ShowArg(qs[0]);
    var t := ShowSlots(qs[1..], pads, k + 1);
    assert ShowSlots(qs, pads, k) == "," + Pad(pads, 2 * k) + v + Pad(pads, 2 * k + 1) + t;
    DropHead(",", Pad(pads, 2 * k), v, Pad(pads, 2 * k + 1), t, x);
  }

  lemma {:induction false} SlotsRoundTrip(qs: seq<Arg>, pads: seq<string>, k: nat, y: string)
    requires AllPads(pads) && |y| > 0 && y[0] == ')'
    requires forall i :: 0 <= i < |qs| ==> Printable(qs[i])
    ensures ArgGroups(ShowSlots(qs, pads, k) + y) == Parsed(qs, y)
    decreases |qs|
  {
    if qs == [] {
      assert ShowSlots(qs, pads, k) + y == y;
    } else {
      var x := ShowSlots(qs[1..], pads, k + 1) + y;
      var pre := Pad(pads, 2 * k);
      var post := Pad(pads, 2 * k + 1);
      SlotsUnfold(qs, pads, k, y);
      SlotsStart(qs[1..], pads, k + 1, y);
      ValueStep(qs[0], pre, post, x);
      SlotsRoundTrip(qs[1..], pads, k + 1, y);
      var s := ShowSlots(qs, pads, k) + y;
      assert s[1..] == pre + ShowArg(qs[0]) + post + x;
      GroupsStep(s, x, qs, y);
    }
  }

  /** `ParseArgs` once the first slot and the remaining slots are read. */
  lemma ArgsStep(s: string, x: string, a: Arg, tail: seq<Arg>, rest: string)
    requires |s| > 0 && s[0] == '('
    requires var v := ParseValue(SkipSpace(s[1..])); v.result == a && SkipSpace(v.rest) == x
    requires ArgGroups(x) == Parsed(tail, ")" + rest)
    ensures ParseArgs(s) == Ok(Parsed(if a == Null && tail == [] then [] else [a] + tail, rest))
  {
    assert (")" + rest)[1..] == rest;
  }

  /** A list other than a lone null is rebuilt from its head and tail as `ParseArgs` does. */
  lemma ArgsShape(ps: seq<Arg>)
    requires ps != [] && ps != [Null]
    ensures (if ps[0] == Null && ps[1..] == [] then [] else [ps[0]] + ps[1..]) == ps
  {
    assert [ps[0]] + ps[1..] == ps;
  }

  lemma ArgsUnfold(ps: seq<Arg>, pads: seq<string>, rest: string)
    requires ps != []
    ensures var s := ShowArgs(ps, pads) + rest;
            && |s| > 0 && s[0] == '('
            && s[1..] == Pad(pads, 0) + ShowArg(ps[0]) + Pad(pads, 1) + (ShowSlots(ps[1..], pads, 1) + (")" + rest))
  {
    var t := ShowSlots(ps[1..], pads, 1);
    DropHead("(", Pad(pads, 0), ShowArg(ps[0]), Pad(pads, 1), t + ")", rest);
    Regroup(t, ")", rest);
  }

  lemma EmptyArgsUnfold(pads: seq<string>, rest: string)
    ensures var s := ShowArgs([], pads) + rest;
            |s| > 0 && s[0] == '(' && s[1..] == Pad(pads, 0) + ShowArg(Null) + Pad(pads, 1) + (")" + rest)
  {
    DropHead("(", Pad(pads, 0), "", Pad(pads, 1), ")", rest);
  }

  /**
   * Whitespace around values and commas is insignificant, and so are the quotes
   * around a run of characters: an argument list laid out with any whitespace
   * before and after each value reads back as the arguments it was written from.
   */
  lemma ArgsRoundTrip(ps: seq<Arg>, pads: seq<string>, rest: string)
    requires PrintableParams(ps) && AllPads(pads)
    ensures ParseArgs(ShowArgs(ps, pads) + rest) == Ok(Parsed(ps, rest))
  {
    var s := ShowArgs(ps, pads) + rest;
    var y := ")" + rest;
    if ps == [] {
      EmptyArgsUnfold(pads, rest);
      ValueStep(Null, Pad(pads, 0), Pad(pads, 1), y);
      SlotsRoundTrip([], pads, 1, y);
      ArgsStep(s, y, Null, [], rest);
    } else {
      var x := ShowSlots(ps[1..], pads, 1) + y;
      ArgsUnfold(ps, pads, rest);
      SlotsStart(ps[1..], pads, 1, y);
      ValueStep(ps[0], Pad(pads, 0), Pad(pads, 1), x);
      SlotsRoundTrip(ps[1..], pads, 1, y);
      ArgsStep(s, x, ps[0], ps[1..], rest);
      ArgsShape(ps);
    }
  }

  /** Uneven padding and bare numbers: `(    1    , 2)` reads as the integers 1 and 2. */
  lemma PaddedNumbers()
    ensures ParseArgs("(    1    , 2)") == Ok(Parsed([Int(1), Int(2)], ""))
  {
    var pads := ["    ", "    ", " ", ""];
    assert ShowInt(1) == "1" && ShowInt(2) == "2";
    assert RunLength("1") == 1 && RunLength("2") == 1;
    assert ShowArg(Int(1)) == "1" && ShowArg(Int(2)) == "2";
    assert [Int(1), Int(2)][1..] == [Int(2)];
    assert ShowSlots([Int(2)], pads, 1) == ", 2";
    assert ShowArgs([Int(1), Int(2)], pads) + "" == "(    1    , 2)";
    ArgsRoundTrip([Int(1), Int(2)], pads, "");
  }

  // ------------------------------------------------------------------ tokens

  function ShowParams(params: Params): string {
    if params.Some? then ShowArgs(params.value, []) else ""
  }

  function ShowAlias(alias: Option<string>): string {
    if alias.Some? then ":" + alias.value else ""
  }

  /** A token as a `func`: name, argument list, `:alias`, `*`, with nothing between them. */
  function ShowToken(t: Token): string {
    t.name + ShowParams(t.params) + ShowAlias(t.alias) + (if t.quantifier then "*" else "")
  }

  predicate PrintableToken(t: Token) {
    && IsKey(t.name)
    && (t.params.Some? ==> PrintableParams(t.params.value))
    && (t.alias.Some? ==> IsKey(t.alias.value))
  }

  /** What may follow a func for it to end there: nothing, or whitespace. */
  predicate Stops(rest: string) {
    |rest| == 0 || IsSpace(rest[0])
  }

  lemma StopsHasNoCharacter(rest: string)
    requires Stops(rest)
    ensures CharWidth(rest) == 0
    ensures |rest| == 0 || (rest[0] != '(' && rest[0] != ':' && rest[0] != '*')
  {
  }

  /** `ParseFunc` assembled from its four parts, each read where the previous one stopped. */
  lemma FuncStep(s: string, t: Token, x1: string, x2: string, x3: string, rest: string)
    requires ParseKey(s) == Ok(Parsed(t.name, x1))
    requires if t.params.Some? then ParseArgs(x1) == Ok(Parsed(t.params.value, x2)) else ParseArgs(x1).Err? && x1 == x2
    requires if t.alias.Some? then |x2| > 0 && x2[0] == ':' && ParseKey(x2[1..]) == Ok(Parsed(t.alias.value, x3))
             else (|x2| == 0 || x2[0] != ':') && x2 == x3
    requires if t.quantifier then |x3| > 0 && x3[0] == '*' && x3[1..] == rest else (|x3| == 0 || x3[0] != '*') && x3 == rest
    ensures ParseFunc(s) == Ok(Parsed(t, rest))
  {
  }

  /** The optional `*`: read back, and nothing before it can be mistaken for a key character, alias or list. */
  lemma QuantifierPart(quantifier: bool, rest: string)
    requires Stops(rest)
    ensures var x3 := (if quantifier then "*" else "") + rest;
            && (if quantifier then |x3| > 0 && x3[0] == '*' && x3[1..] == rest else (|x3| == 0 || x3[0] != '*') && x3 == rest)
            && CharWidth(x3) == 0 && (|x3| == 0 || (x3[0] != '(' && x3[0] != ':'))
  {
    StopsHasNoCharacter(rest);
    if !quantifier {
      assert "" + rest == rest;
    }
  }

  /** The optional `:alias`, read back as a key that stops where `x3` begins. */
  lemma AliasPart(alias: Option<string>, x3: string)
    requires alias.Some? ==> IsKey(alias.value)
    requires CharWidth(x3) == 0 && (|x3| == 0 || (x3[0] != '(' && x3[0] != ':'))
    ensures var x2 := ShowAlias(alias) + x3;
            && (if alias.Some? then |x2| > 0 && x2[0] == ':' && ParseKey(x2[1..]) == Ok(Parsed(alias.value, x3))
                else (|x2| == 0 || x2[0] != ':') && x2 == x3)
            && CharWidth(x2) == 0 && (|x2| == 0 || x2[0] != '(')
  {
    var x2 := ShowAlias(alias) + x3;
    if alias.Some? {
      assert x2[1..] == alias.value + x3;
      KeyRoundTrip(alias.value, x3);
    } else {
      assert x2 == x3;
    }
  }

  /** The optional argument list, read back as the same arguments; a missing list is left unread. */
  lemma ParamsPart(params: Params, x2: string)
    requires params.Some? ==> PrintableParams(params.value)
    requires CharWidth(x2) == 0 && (|x2| == 0 || x2[0] != '(')
    ensures var x1 := ShowParams(params) + x2;
            && (if params.Some? then ParseArgs(x1) == Ok(Parsed(params.value, x2)) else ParseArgs(x1).Err? && x1 == x2)
            && CharWidth(x1) == 0
  {
    var x1 := ShowParams(params) + x2;
    if params.Some? {
      AllSpaceEmpty();
      ArgsRoundTrip(params.value, [], x2);
      assert x1[0] == '(';
    } else {
      assert x1 == x2;
    }
  }

  lemma AllSpaceEmpty()
    ensures AllSpace("")
  {
  }

  /**
   * A printable token followed by whitespace or nothing reads back as itself. In
   * particular a name followed by whitespace has no arguments, no alias and no
   * quantifier, whatever comes after the whitespace.
   */
  lemma FuncRoundTrip(t: Token, rest: string)
    requires PrintableToken(t) && Stops(rest)
    ensures ParseFunc(ShowToken(t) + rest) == Ok(Parsed(t, rest))
  {
    var x3 := (if t.quantifier then "*" else "") + rest;
    var x2 := ShowAlias(t.alias) + x3;
    var x1 := ShowParams(t.params) + x2;
    QuantifierPart(t.quantifier, rest);
    AliasPart(t.alias, x3);
    ParamsPart(t.params, x2);
    KeyRoundTrip(t.name, x1);
    TokenText(t, rest);
    FuncStep(ShowToken(t) + rest, t, x1, x2, x3, rest);
  }

  lemma TokenText(t: Token, rest: string)
    ensures ShowToken(t) + rest
         == t.name + (ShowParams(t.params) + (ShowAlias(t.alias) + ((if t.quantifier then "*" else "") + rest)))
  {
  }

  // ----------------------------------------------------------- rules, groups

  /** The funcs after the first, each preceded by one space. */
  function ShowRest(ts: seq<Token>): string {
    if ts == [] then "" else " " + ShowToken(ts[0]) + ShowRest(ts[1..])
  }

  function ShowRules(ts: seq<Token>): string
    requires |ts| >= 1
  {
    ShowToken(ts[0]) + ShowRest(ts[1..])
  }

  predicate AllPrintable(ts: seq<Token>) {
    forall i :: 0 <= i < |ts| ==> PrintableToken(ts[i])
  }

  /** What may follow a rules segment for it to end there: no further func after the whitespace. */
  predicate RulesEnd(rest: string) {
    Stops(rest) && var t := SkipSpace(rest); |t| == 0 || !IsLetter(t[0])
  }

  lemma RestStops(ts: seq<Token>, rest: string)
    requires Stops(rest)
    ensures Stops(ShowRest(ts) + rest)
  {
    if ts != [] {
      assert (ShowRest(ts) + rest)[0] == ' ';
    } else {
      assert ShowRest(ts) + rest == rest;
    }
  }

  /** One `space func` step of `RulesTail`. */
  lemma RulesTailStep(s: string, after: string, ts: seq<Token>, rest: string)
    requires ts != []
    requires ParseFunc(SkipSpace(s)) == Ok(Parsed(ts[0], after))
    requires RulesTail(after) == Parsed(ts[1..], rest)
    ensures RulesTail(s) == Parsed(ts, rest)
  {
    FuncThen(s, ts[0], after, ts[1..], rest);
    ConsSplit(ts);
  }

  lemma FuncThen(s: string, t: Token, after: string, more: seq<Token>, rest: string)
    requires ParseFunc(SkipSpace(s)) == Ok(Parsed(t, after))
    requires RulesTail(after) == Parsed(more, rest)
    ensures RulesTail(s) == Parsed([t] + more, rest)
  {
  }

  lemma RulesTailEnd(rest: string)
    requires RulesEnd(rest)
    ensures RulesTail(rest) == Parsed([], rest)
  {
  }

  lemma TokenStart(t: Token, x: string)
    requires IsKey(t.name)
    ensures |ShowToken(t) + x| > 0 && !IsSpace((ShowToken(t) + x)[0])
  {
    assert (ShowToken(t) + x)[0] == t.name[0];
  }

  lemma SkipOneSpace(c: string, body: string)
    requires c == " " && |body| > 0 && !IsSpace(body[0])
    ensures SkipSpace(c + body) == body
  {
    SkipSpaceOver(c, body);
  }

  lemma Regroup3(c: string, a: string, b: string, x: string)
    ensures c + a + b + x == c + (a + (b + x))
  {
  }

  /** The first of the remaining funcs, after its one space. */
  lemma RestUnfold(ts: seq<Token>, rest: string)
    requires ts != [] && IsKey(ts[0].name)
    ensures SkipSpace(ShowRest(ts) + rest) == ShowToken(ts[0]) + (ShowRest(ts[1..]) + rest)
  {
    var tok := ShowToken(ts[0]);
    var more := ShowRest(ts[1..]);
    assert ShowRest(ts) == " " + tok + more;
    Regroup3(" ", tok, more, rest);
    TokenStart(ts[0], more + rest);
    SkipOneSpace(" ", tok + (more + rest));
  }

  lemma {:induction false} RestRoundTrip(ts: seq<Token>, rest: string)
    requires AllPrintable(ts) && RulesEnd(rest)
    ensures RulesTail(ShowRest(ts) + rest) == Parsed(ts, rest)
    decreases |ts|
  {
    if ts == [] {
      assert ShowRest(ts) + rest == rest;
      RulesTailEnd(rest);
    } else {
      var after := ShowRest(ts[1..]) + rest;
      RestUnfold(ts, rest);
      RestStops(ts[1..], rest);
      FuncRoundTrip(ts[0], after);
      RestRoundTrip(ts[1..], rest);
      RulesTailStep(ShowRest(ts) + rest, after, ts, rest);
    }
  }

  /** Space-separated funcs read back as the same tokens, in source order. */
  lemma RulesRoundTrip(ts: seq<Token>, rest: string)
    requires |ts| >= 1 && AllPrintable(ts) && RulesEnd(rest)
    ensures ParseRules(ShowRules(ts) + rest) == Ok(Parsed(ts, rest))
  {
    var after := ShowRest(ts[1..]) + rest;
    assert ShowRules(ts) + rest == ShowToken(ts[0]) + after;
    RestStops(ts[1..], rest);
    FuncRoundTrip(ts[0], after);
    RestRoundTrip(ts[1..], rest);
    RulesThen(ShowRules(ts) + rest, ts[0], after, ts[1..], rest);
    ConsSplit(ts);
  }

  lemma RulesThen(s: string, t: Token, after: string, more: seq<Token>, rest: string)
    requires ParseFunc(s) == Ok(Parsed(t, after))
    requires RulesTail(after) == Parsed(more, rest)
    ensures ParseRules(s) == Ok(Parsed([t] + more, rest))
  {
  }

  predicate PrintableGroups(gs: seq<seq<Token>>) {
    forall g :: 0 <= g < |gs| ==> |gs[g]| >= 1 && AllPrintable(gs[g])
  }

  /** The modifier groups, each preceded by ` | `. */
  function ShowGroups(gs: seq<seq<Token>>): string
    requires PrintableGroups(gs)
  {
    if gs == [] then "" else " | " + ShowRules(gs[0]) + ShowGroups(gs[1..])
  }

  /** The text of a first group, with its ` | ` separated into a space, a bar and a space. */
  lemma GroupsUnfold(gs: seq<seq<Token>>)
    requires gs != [] && PrintableGroups(gs)
    ensures ShowGroups(gs) == " " + ("|" + (" " + (ShowRules(gs[0]) + ShowGroups(gs[1..]))))
  {
    var r := ShowRules(gs[0]);
    var more := ShowGroups(gs[1..]);
    assert ShowGroups(gs) == " | " + r + more;
    SplitBar(r, more);
  }

  lemma SplitBar(r: string, more: string)
    ensures " | " + r + more == " " + ("|" + (" " + (r + more)))
  {
    assert " | " == " " + "|" + " ";
  }

  lemma RulesStart(ts: seq<Token>, x: string)
    requires |ts| >= 1 && AllPrintable(ts)
    ensures |ShowRules(ts) + x| > 0 && !IsSpace((ShowRules(ts) + x)[0])
  {
    assert PrintableToken(ts[0]);
    TokenStart(ts[0], ShowRest(ts[1..]) + x);
    Regroup(ShowToken(ts[0]), ShowRest(ts[1..]), x);
  }

  lemma BarStart(x: string)
    ensures |"|" + x| > 0 && !IsSpace(("|" + x)[0]) && ("|" + x)[0] == '|' && ("|" + x)[1..] == x
  {
  }

  /** Printed groups end a rules segment: what follows is empty or ` | `, never another func. */
  lemma GroupsEnd(gs: seq<seq<Token>>)
    requires PrintableGroups(gs)
    ensures RulesEnd(ShowGroups(gs))
  {
    if gs != [] {
      GroupsUnfold(gs);
      var t := "|" + (" " + (ShowRules(gs[0]) + ShowGroups(gs[1..])));
      BarStart(" " + (ShowRules(gs[0]) + ShowGroups(gs[1..])));
      SkipOneSpace(" ", t);
    }
  }

  /** One ` | rules` step of `GroupsTail`. */
  lemma GroupsTailStep(s: string, after: string, g: seq<Token>, gs: seq<seq<Token>>, rest: string)
    requires var t := SkipSpace(s); |t| > 0 && t[0] == '|' && ParseRules(SkipSpace(t[1..])) == Ok(Parsed(g, after))
    requires GroupsTail(after) == Parsed(gs, rest)
    ensures GroupsTail(s) == Parsed([g] + gs, rest)
  {
  }

  lemma ConsSplit<T>(xs: seq<T>)
    requires xs != []
    ensures [xs[0]] + xs[1..] == xs
  {
  }

  lemma {:induction false} GroupsRoundTrip(gs: seq<seq<Token>>)
    requires PrintableGroups(gs)
    ensures GroupsTail(ShowGroups(gs)) == Parsed(gs, "")
    decreases |gs|
  {
    if gs != [] {
      var after := ShowGroups(gs[1..]);
      var body := ShowRules(gs[0]) + after;
      var t := "|" + (" " + body);
      GroupsUnfold(gs);
      BarStart(" " + body);
      SkipOneSpace(" ", t);
      RulesStart(gs[0], after);
      SkipOneSpace(" ", body);
      GroupsEnd(gs[1..]);
      RulesRoundTrip(gs[0], after);
      GroupsRoundTrip(gs[1..]);
      GroupsTailStep(ShowGroups(gs), after, gs[0], gs[1..], "");
      ConsSplit(gs);
    } else {
      assert SkipSpace("") == "";
    }
  }

  // -------------------------------------------------------------- expression

  predicate PrintableExpression(e: Expression) {
    |e.instructions| >= 1 && AllPrintable(e.instructions) && PrintableGroups(e.modifiers)
  }

  /** The instruction rules, then every modifier group after ` | `. */
  function ShowExpression(e: Expression): string
    requires PrintableExpression(e)
  {
    ShowRules(e.instructions) + ShowGroups(e.modifiers)
  }

  /**
   * Tokenizing a printed expression gives the expression back: the first segment
   * becomes the instructions and each ` | ` segment exactly one modifier group, in order.
   */
  lemma ExpressionRoundTrip(e: Expression)
    requires PrintableExpression(e)
    ensures Tokenize(ShowExpression(e)) == Ok(e)
  {
    GroupsEnd(e.modifiers);
    RulesRoundTrip(e.instructions, ShowGroups(e.modifiers));
    GroupsRoundTrip(e.modifiers);
    TokenizeFrom(ShowExpression(e), e.instructions, ShowGroups(e.modifiers), e.modifiers);
  }

  /** `Tokenize` once the instruction rules and the modifier groups are read. */
  lemma TokenizeFrom(s: string, ins: seq<Token>, after: string, gs: seq<seq<Token>>)
    requires ParseRules(s) == Ok(Parsed(ins, after))
    requires GroupsTail(after) == Parsed(gs, "")
    ensures Tokenize(s) == Ok(Expression(ins, gs))
  {
  }
}
