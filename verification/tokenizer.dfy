/**
 * The pattern grammar: a hand-written prefix parser for
 *   expression := rules (space '|' space rules)*
 *   rules      := func (space func)*
 *   func       := key args? (':' key)? '*'?
 *   args       := '(' space value? space (',' space value space)* ')'
 *   key        := letter character*
 *   value      := literal | character*
 * where `space` is optional whitespace and `character` is a letter, an optionally
 * negated digit or `.`. Every parser returns what it read and the unread rest;
 * the combinators never require the whole input to be consumed.
 */
module Tokenizer {
  import opened Outcomes
  import opened Chars

  /** A cast argument value: `null | boolean | number | string`; a decimal keeps its source text. */
  datatype Arg = Null | Bool(b: bool) | Int(i: int) | Dec(text: string) | Str(s: string)

  /** The argument list of a token, None when no `(...)` follows its name. */
  type Params = Option<seq<Arg>>

  /** One parsed `func`, shared by instructions and modifiers. */
  datatype Token = Token(name: string, params: Params, alias: Option<string>, quantifier: bool)

  /** The first `rules` segment and one modifier group per later `|` segment. */
  datatype Expression = Expression(instructions: seq<Token>, modifiers: seq<seq<Token>>)

  /** A successful prefix parse: what was read and the input left over. */
  datatype Parsed<+T> = Parsed(result: T, rest: string)

  // ---------------------------------------------------------------- casting

  function Unsigned(s: string): string {
    if |s| > 0 && s[0] == '-' then s[1..] else s
  }

  /** `^-?\d+$` */
  predicate IsIntText(s: string) {
    var d := Unsigned(s);
    |d| > 0 && AllDigits(d)
  }

  /** `^-?\d*\.\d+$` */
  predicate IsDecText(s: string) {
    var d := Unsigned(s);
    var k := Span(d, IsDigit);
    k + 1 < |d| && d[k] == '.' && AllDigits(d[k + 1..])
  }

  /** `parseInt` of a text matching `^-?\d+$`. */
  function IntValue(s: string): int
    requires IsIntText(s)
  {
    if s[0] == '-' then -(DigitsValue(s[1..]) as int) else DigitsValue(s)
  }

  lemma IntTextIsNotDecText(s: string)
    ensures IsIntText(s) ==> !IsDecText(s)
  {
  }

  /**
   * The classifier applied to every parsed value: the empty text is null, `true`
   * and `false` are booleans, integer and decimal texts are numbers, anything else
   * stays a string.
   */
  function Cast(s: string): Arg {
    if s == "" then Null
    else if s == "true" then Bool(true)
    else if s == "false" then Bool(false)
    else if IsIntText(s) then Int(IntValue(s))
    else if IsDecText(s) then Dec(s)
    else Str(s)
  }

  /** Each kind of argument comes from exactly one kind of text; decimals and strings keep their text. */
  lemma CastClassifies(s: string)
    ensures Cast(s).Null? <==> s == ""
    ensures Cast(s).Bool? <==> s == "true" || s == "false"
    ensures Cast(s).Bool? ==> (Cast(s).b <==> s == "true")
    ensures Cast(s).Int? <==> IsIntText(s)
    ensures Cast(s).Dec? <==> IsDecText(s)
    ensures Cast(s).Dec? ==> Cast(s).text == s
    ensures Cast(s).Str? ==> Cast(s).s == s
  {
    IntTextIsNotDecText(s);
    assert !IsDecText("") && !IsDecText("true") && !IsDecText("false") by {
      assert Span("true", IsDigit) == 0;
      assert Span("false", IsDigit) == 0;
    }
  }

  /** The decimal text of every integer casts back to that integer. */
  lemma CastShowInt(i: int)
    ensures Cast(ShowInt(i)) == Int(i)
  {
    var s := ShowInt(i);
    if i < 0 {
      assert s[1..] == ShowNat(-i);
    }
    assert IsIntText(s);
  }

  // ------------------------------------------------------------- characters

  /** Width of the `character` token (letter, optionally negated digit, or `.`) heading `s`; 0 when none does. */
  function CharWidth(s: string): (n: nat)
    ensures n <= 2 && n <= |s|
  {
    if |s| == 0 then 0
    else if IsLetter(s[0]) || IsDigit(s[0]) || s[0] == '.' then 1
    else if s[0] == '-' && |s| >= 2 && IsDigit(s[1]) then 2
    else 0
  }

  /** Length of the longest run of `character` tokens heading `s`; no token starts where it stops. */
  function RunLength(s: string): (n: nat)
    ensures n <= |s|
    ensures CharWidth(s[n..]) == 0
    decreases |s|
  {
    var k := CharWidth(s);
    if k == 0 then 0
    else
      var m := RunLength(s[k..]);
      assert s[k..][m..] == s[k + m..];
      k + m
  }

  /** `t` is exactly a run of `character` tokens. */
  predicate IsRun(t: string) {
    RunLength(t) == |t|
  }

  /** `k` is what the `key` rule reads: a letter followed by a run of characters. */
  predicate IsKey(k: string) {
    |k| > 0 && IsLetter(k[0]) && IsRun(k[1..])
  }

  /** Cutting `s` after its first token leaves that token's width unchanged. */
  lemma CharWidthPrefix(s: string, n: nat)
    requires CharWidth(s) > 0 && CharWidth(s) <= n <= |s|
    ensures CharWidth(s[..n]) == CharWidth(s)
  {
    assert s[..n][0] == s[0];
    if CharWidth(s) == 2 {
      assert s[..n][1] == s[1];
    }
  }

  lemma {:induction false} RunLengthPrefix(s: string)
    ensures IsRun(s[..RunLength(s)])
    decreases |s|
  {
    var k := CharWidth(s);
    if k != 0 {
      var n := RunLength(s);
      var m := RunLength(s[k..]);
      assert n == k + m;
      RunLengthPrefix(s[k..]);
      var p := s[..n];
      CharWidthPrefix(s, n);
      assert p[k..] == s[k..][..m];
      assert RunLength(p) == k + RunLength(p[k..]);
    }
  }

  lemma {:induction false} RunLengthAppend(a: string, b: string)
    requires IsRun(a)
    ensures RunLength(a + b) == |a| + RunLength(b)
    decreases |a|
  {
    if |a| == 0 {
      assert a + b == b;
    } else {
      var k := CharWidth(a);
      assert k != 0;
      assert CharWidth(a + b) == k;
      assert (a + b)[k..] == a[k..] + b;
      RunLengthAppend(a[k..], b);
    }
  }

  // ------------------------------------------------------------------- key

  lemma SplitAfterHead(s: string, m: nat)
    requires m < |s|
    ensures s[..m + 1][1..] == s[1..][..m]
    ensures s[1..][m..] == s[m + 1..]
    ensures s == s[..m + 1] + s[m + 1..]
  {
  }

  /** `key`: a letter followed by as many characters as possible. */
  function ParseKey(s: string): (r: Result<Parsed<string>>)
    ensures r.Ok? <==> |s| > 0 && IsLetter(s[0])
    ensures r.Ok? ==> s == r.value.result + r.value.rest
    ensures r.Ok? ==> IsKey(r.value.result) && CharWidth(r.value.rest) == 0
  {
    if |s| > 0 && IsLetter(s[0]) then
      var m := RunLength(s[1..]);
      RunLengthPrefix(s[1..]);
      SplitAfterHead(s, m);
      Ok(Parsed(s[..m + 1], s[m + 1..]))
    else
      Err(Grammar("key"))
  }

  /** A key followed by text no character token starts is read back exactly. */
  lemma KeyRoundTrip(k: string, rest: string)
    requires IsKey(k) && CharWidth(rest) == 0
    ensures ParseKey(k + rest) == Ok(Parsed(k, rest))
  {
    var s := k + rest;
    assert s[1..] == k[1..] + rest;
    RunLengthAppend(k[1..], rest);
    assert RunLength(rest) == 0;
    assert s[..|k|] == k;
    assert s[|k|..] == rest;
  }

  // --------------------------------------------------------------- literal

  /** Text a quoted literal can hold: no `"` and no line terminator. */
  predicate Plain(t: string) {
    forall i :: 0 <= i < |t| ==> t[i] != '"' && !IsLineTerminator(t[i])
  }

  /** Index of the `"` that closes a literal whose body starts `s`: the first `"`, provided no line terminator precedes it. */
  function CloseQuote(s: string): (r: Option<nat>)
    ensures r.Some? ==> r.value < |s| && s[r.value] == '"' && Plain(s[..r.value])
    ensures r.None? ==> forall i :: 0 <= i < |s| && Plain(s[..i]) ==> s[i] != '"'
    decreases |s|
  {
    if |s| == 0 then None
    else if s[0] == '"' then Some(0)
    else if IsLineTerminator(s[0]) then
      NoCloseAfterBreak(s);
      None
    else
      match CloseQuote(s[1..])
      case Some(j) =>
        assert s[..j + 1] == [s[0]] + s[1..][..j];
        Some(j + 1)
      case None =>
        NoCloseInTail(s);
        None
  }

  lemma NoCloseAfterBreak(s: string)
    requires |s| > 0 && IsLineTerminator(s[0])
    ensures forall i :: 0 <= i < |s| && Plain(s[..i]) ==> s[i] != '"'
  {
    forall i | 0 < i < |s|
      ensures !Plain(s[..i])
    {
      assert s[..i][0] == s[0];
    }
  }

  lemma NoCloseInTail(s: string)
    requires |s| > 0 && s[0] != '"'
    requires forall i :: 0 <= i < |s| - 1 && Plain(s[1..][..i]) ==> s[1..][i] != '"'
    ensures forall i :: 0 <= i < |s| && Plain(s[..i]) ==> s[i] != '"'
  {
    forall i | 0 < i < |s| && Plain(s[..i])
      ensures s[i] != '"'
    {
      var t := s[1..][..i - 1];
      assert forall j :: 0 <= j < |t| ==> t[j] == s[..i][j + 1];
      assert Plain(t);
      assert s[i] == s[1..][i - 1];
    }
  }

  lemma {:induction false} CloseQuoteAfterPlain(t: string, rest: string)
    requires Plain(t)
    ensures CloseQuote(t + "\"" + rest) == Some(|t|)
    decreases |t|
  {
    if |t| > 0 {
      assert (t + "\"" + rest)[1..] == t[1..] + "\"" + rest;
      CloseQuoteAfterPlain(t[1..], rest);
    }
  }

  /** `literal`: the text between a leading `"` and the next `"`, quotes removed. */
  function ParseLiteral(s: string): (r: Result<Parsed<string>>)
    ensures r.Ok? <==> |s| > 0 && s[0] == '"' && CloseQuote(s[1..]).Some?
    ensures r.Ok? ==> Plain(r.value.result) && s == "\"" + r.value.result + "\"" + r.value.rest
  {
    if |s| > 0 && s[0] == '"' then
      match CloseQuote(s[1..])
      case Some(j) =>
        assert s[1..][..j] == s[1..j + 1];
        assert s == "\"" + s[1..j + 1] + "\"" + s[j + 2..];
        Ok(Parsed(s[1..j + 1], s[j + 2..]))
      case None => Err(Grammar("literal"))
    else
      Err(Grammar("literal"))
  }

  /** A plain text between quotes is read back exactly, whatever follows. */
  lemma LiteralRoundTrip(t: string, rest: string)
    requires Plain(t)
    ensures ParseLiteral("\"" + t + "\"" + rest) == Ok(Parsed(t, rest))
  {
    var s := "\"" + t + "\"" + rest;
    assert s[1..] == t + "\"" + rest;
    CloseQuoteAfterPlain(t, rest);
    assert s[1..|t| + 1] == t;
    assert s[|t| + 2..] == rest;
  }

  // ----------------------------------------------------------------- value

  /** `value`: a quoted literal, else a (possibly empty) run of characters; either way cast. Never fails. */
  function ParseValue(s: string): (r: Parsed<Arg>)
    ensures |r.rest| <= |s|
    ensures r.result.Null? && (|s| == 0 || s[0] != '"') ==> r.rest == s
  {
    match ParseLiteral(s)
    case Ok(p) => Parsed(Cast(p.result), p.rest)
    case Err(_) =>
      var n := RunLength(s);
      Parsed(Cast(s[..n]), s[n..])
  }

  /**
   * What `value` reads: a quoted literal, cast; otherwise the longest run of
   * `character` tokens, cast, so that text starting with no such token (`!@#`)
   * reads as null and is left in place.
   */
  lemma ValueReads(s: string)
    ensures |s| > 0 && s[0] == '"' && CloseQuote(s[1..]).Some? ==> var j := CloseQuote(s[1..]).value;
              j + 2 <= |s| && ParseValue(s) == Parsed(Cast(s[1..j + 1]), s[j + 2..])
    ensures ParseLiteral(s).Err? ==> var r := ParseValue(s); var n := |s| - |r.rest|;
            && r.rest == s[n..] && IsRun(s[..n]) && CharWidth(r.rest) == 0 && r.result == Cast(s[..n])
    ensures ParseLiteral(s).Err? && CharWidth(s) == 0 ==> ParseValue(s) == Parsed(Null, s)
  {
    if ParseLiteral(s).Err? {
      var n := RunLength(s);
      RunLengthPrefix(s);
      assert n == 0 ==> s[..n] == "" && s[n..] == s;
    }
  }

  /**
   * Quoting does not protect a value from casting: a run of characters reads as the
   * same argument bare or between quotes.
   */
  lemma QuotedCastsLikeBare(t: string, rest: string, rest': string)
    requires |t| > 0 && IsRun(t)
    requires CharWidth(rest) == 0
    ensures ParseValue(t + rest) == Parsed(Cast(t), rest)
    ensures ParseValue("\"" + t + "\"" + rest') == Parsed(Cast(t), rest')
  {
    assert CharWidth(t) > 0;
    assert t[0] != '"';
    assert (t + rest)[0] == t[0];
    RunLengthAppend(t, rest);
    assert RunLength(rest) == 0;
    assert (t + rest)[..|t|] == t;
    assert (t + rest)[|t|..] == rest;
    RunOnlyPlain(t);
    LiteralRoundTrip(t, rest');
  }

  /** The characters a run of `character` tokens is made of. */
  predicate IsRunChar(c: char) {
    IsLetter(c) || IsDigit(c) || c == '.' || c == '-'
  }

  lemma {:induction false} RunChars(t: string)
    requires IsRun(t)
    ensures forall i :: 0 <= i < |t| ==> IsRunChar(t[i])
    decreases |t|
  {
    if |t| > 0 {
      var k := CharWidth(t);
      assert RunLength(t) == k + RunLength(t[k..]);
      WidthChars(t);
      RunChars(t[k..]);
      forall i | 0 <= i < |t|
        ensures IsRunChar(t[i])
      {
        if i >= k {
          assert t[i] == t[k..][i - k];
        }
      }
    }
  }

  /** The characters of one `character` token. */
  lemma WidthChars(t: string)
    ensures forall i :: 0 <= i < CharWidth(t) ==> IsRunChar(t[i])
  {
  }

  lemma RunOnlyPlain(t: string)
    requires IsRun(t)
    ensures Plain(t)
  {
    RunChars(t);
  }

  // ------------------------------------------------------------------ args

  /** The `(',' space value space)*` part of an argument list. */
  function ArgGroups(s: string): (r: Parsed<seq<Arg>>)
    ensures |r.rest| <= |s|
    ensures |r.rest| > 0 ==> r.rest[0] != ','
    decreases |s|
  {
    if |s| > 0 && s[0] == ',' then
      var v := ParseValue(SkipSpace(s[1..]));
      var next := ArgGroups(SkipSpace(v.rest));
      Parsed([v.result] + next.result, next.rest)
    else
      Parsed([], s)
  }

  /**
   * `args`: a parenthesised, comma-separated list of values. A list with no comma
   * whose only slot is empty, `()`, yields no arguments; otherwise every slot,
   * empty ones included, yields one argument.
   */
  function ParseArgs(s: string): (r: Result<Parsed<seq<Arg>>>)
    ensures r.Ok? ==> |s| > 0 && s[0] == '(' && |r.value.rest| < |s|
  {
    if |s| > 0 && s[0] == '(' then
      var first := ParseValue(SkipSpace(s[1..]));
      var more := ArgGroups(SkipSpace(first.rest));
      if |more.rest| > 0 && more.rest[0] == ')' then
        var args := if first.result == Null && more.result == [] then [] else [first.result] + more.result;
        Ok(Parsed(args, more.rest[1..]))
      else
        Err(Grammar("args"))
    else
      Err(Grammar("args"))
  }

  // ------------------------------------------------------------------ func

  /** `func`: a key, then optionally an argument list, `:alias` and `*`, each directly adjacent. */
  function ParseFunc(s: string): (r: Result<Parsed<Token>>)
    ensures r.Ok? <==> |s| > 0 && IsLetter(s[0])
    ensures r.Ok? ==> |r.value.rest| < |s|
    ensures r.Ok? ==> IsKey(r.value.result.name)
    ensures r.Ok? && r.value.result.alias.Some? ==> IsKey(r.value.result.alias.value)
  {
    var key :- ParseKey(s);
    var args := ParseArgs(key.rest);
    var params := if args.Ok? then Some(args.value.result) else None;
    var afterArgs := if args.Ok? then args.value.rest else key.rest;
    var aliasKey := if |afterArgs| > 0 && afterArgs[0] == ':' then ParseKey(afterArgs[1..]) else Err(Grammar("alias"));
    var alias := if aliasKey.Ok? then Some(aliasKey.value.result) else None;
    var afterAlias := if aliasKey.Ok? then aliasKey.value.rest else afterArgs;
    var quantifier := |afterAlias| > 0 && afterAlias[0] == '*';
    var rest := if quantifier then afterAlias[1..] else afterAlias;
    Ok(Parsed(Token(key.result, params, alias, quantifier), rest))
  }

  // ----------------------------------------------------- rules, expression

  /** The `(space func)*` part of `rules`. */
  function RulesTail(s: string): (r: Parsed<seq<Token>>)
    ensures |r.rest| <= |s|
    decreases |s|
  {
    var t := SkipSpace(s);
    var f := ParseFunc(t);
    if f.Ok? then
      var tail := RulesTail(f.value.rest);
      Parsed([f.value.result] + tail.result, tail.rest)
    else
      Parsed([], s)
  }

  /** `rules`: one or more funcs, in source order. */
  function ParseRules(s: string): (r: Result<Parsed<seq<Token>>>)
    ensures r.Ok? <==> |s| > 0 && IsLetter(s[0])
    ensures r.Ok? ==> |r.value.result| >= 1 && |r.value.rest| < |s|
  {
    var first :- ParseFunc(s);
    var tail := RulesTail(first.rest);
    Ok(Parsed([first.result] + tail.result, tail.rest))
  }

  lemma NonEmptyGroups(g: seq<Token>, gs: seq<seq<Token>>)
    requires |g| >= 1 && forall i :: 0 <= i < |gs| ==> |gs[i]| >= 1
    ensures forall i :: 0 <= i < |[g] + gs| ==> |([g] + gs)[i]| >= 1
  {
  }

  /** The `(space '|' space rules)*` part of `expression`: one group per segment. */
  function GroupsTail(s: string): (r: Parsed<seq<seq<Token>>>)
    ensures |r.rest| <= |s|
    ensures forall g :: 0 <= g < |r.result| ==> |r.result[g]| >= 1
    decreases |s|
  {
    var t := SkipSpace(s);
    if |t| > 0 && t[0] == '|' then
      var group := ParseRules(SkipSpace(t[1..]));
      if group.Ok? then
        var tail := GroupsTail(group.value.rest);
        NonEmptyGroups(group.value.result, tail.result);
        Parsed([group.value.result] + tail.result, tail.rest)
      else
        Parsed([], s)
    else
      Parsed([], s)
  }

  /** `expression`: the instruction rules followed by the modifier groups. */
  function ParseExpression(s: string): (r: Result<Parsed<Expression>>)
    ensures r.Ok? <==> |s| > 0 && IsLetter(s[0])
    ensures r.Ok? ==> |r.value.result.instructions| >= 1
    ensures r.Ok? ==> forall g :: 0 <= g < |r.value.result.modifiers| ==> |r.value.result.modifiers[g]| >= 1
  {
    var instructions :- ParseRules(s);
    var groups := GroupsTail(instructions.rest);
    Ok(Parsed(Expression(instructions.result, groups.result), groups.rest))
  }

  /** `tokenize`: the expression at the head of a pattern; whatever follows it is ignored. */
  function Tokenize(pattern: string): (r: Result<Expression>)
    ensures r.Ok? <==> |pattern| > 0 && IsLetter(pattern[0])
    ensures r.Err? ==> r.error == Grammar("key")
    ensures r.Ok? ==> |r.value.instructions| >= 1
  {
    var e :- ParseExpression(pattern);
    Ok(e.result)
  }
}
