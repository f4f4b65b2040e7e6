/**
 * The built-in consumers: functions from the current subject to a remainder and
 * a value. Each is the regular expression it runs, stated over character classes.
 * The subject is first converted to a string as JavaScript does, so a subject
 * that is already `undefined` is read as the text "undefined".
 */
module Consumers {
  import opened Outcomes
  import opened Chars
  import opened Tokenizer
  import opened Containers

  /** What a consumer returns: the remainder (absent when the match ran to the end) and the value. */
  datatype Step = Step(rest: Option<string>, value: Datum)

  /**
   * A consumer as the composer resolves it: one of the built-in splitters, or a
   * function supplied by the caller (the clock-dependent `datetime` is one of those).
   * A consumer that throws yields `Err`.
   */
  datatype Consumer =
    | StringConsumer
    | SkipConsumer
    | TupleConsumer
    | CallerConsumer(run: (Option<string>, Params) -> Result<Step>)

  /** `String(subject)`: the text a regular expression is run against. */
  function ToStr(subject: Option<string>): (s: string)
    ensures subject.Some? ==> s == subject.value
    ensures subject.None? ==> s == "undefined"
  {
    if subject.Some? then subject.value else "undefined"
  }

  predicate NotSpace(c: char) {
    !IsSpace(c)
  }

  predicate NotQuote(c: char) {
    c != '"'
  }

  predicate AllWord(w: string) {
    forall i :: 0 <= i < |w| ==> IsWord(w[i])
  }

  predicate NoLineTerminator(w: string) {
    forall i :: 0 <= i < |w| ==> !IsLineTerminator(w[i])
  }

  /** `(.*)` from `from`: the rest of the current line. */
  function LineFrom(s: string, from: nat): (line: string)
    requires from <= |s|
    ensures NoLineTerminator(line) && from + |line| <= |s| && s[from..from + |line|] == line
    ensures from + |line| < |s| ==> IsLineTerminator(s[from + |line|])
  {
    s[from..LineEnd(s, from)]
  }

  // --------------------------------------------------------------------- skip

  /**
   * `skip`, `/^(\w+)(.*)/`: the leading run of word characters is the value and
   * the rest of the line, trimmed, is the remainder. No leading word character
   * makes the destructuring of the failed match throw.
   */
  function ConsumeSkip(subject: Option<string>): (r: Result<Step>)
    ensures var s := ToStr(subject);
            r.Ok? <==> |s| > 0 && IsWord(s[0])
    ensures r.Ok? ==> var s := ToStr(subject);
            && r.value.value.Text?
            && var w := r.value.value.s;
            && 0 < |w| <= |s| && AllWord(w) && s[..|w|] == w
            && (|w| < |s| ==> !IsWord(s[|w|]))
            && r.value.rest == Some(Trim(LineFrom(s, |w|)))
  {
    var s := ToStr(subject);
    var n := Span(s, IsWord);
    if n == 0 then Err(Thrown("skip"))
    else Ok(Step(Some(Trim(LineFrom(s, n))), Text(s[..n])))
  }

  /** A word followed by anything that does not continue it splits off exactly that word. */
  lemma SkipSplits(w: string, x: string)
    requires |w| > 0 && AllWord(w)
    requires |x| == 0 || !IsWord(x[0])
    ensures ConsumeSkip(Some(w + x)) == Ok(Step(Some(Trim(LineFrom(x, 0))), Text(w)))
  {
    var s := w + x;
    assert s[..|w|] == w;
    assert Span(s, IsWord) == |w|;
    assert s[|w|..] == x;
    LineFromShift(w, x);
  }

  /** The rest of the line after a prefix is the rest of the line of what follows it. */
  lemma LineFromShift(w: string, x: string)
    ensures LineFrom(w + x, |w|) == LineFrom(x, 0)
  {
    var s := w + x;
    assert forall i :: 0 <= i < |x| ==> s[|w| + i] == x[i];
    assert s[|w|..] == x;
  }

  // ------------------------------------------------------------------- string

  /** `ToIntegerOrInfinity` of a decimal text: the integer part, truncated toward zero. */
  function DecTrunc(t: string): int {
    var d := Unsigned(t);
    var k := Span(d, IsDigit);
    var whole := DigitsValue(d[..k]);
    if |t| > 0 && t[0] == '-' then -(whole as int) else whole
  }

  /** The argument as a JavaScript number, when it is one; its integer part is what `slice` uses. */
  function NumberArg(a: Arg): (r: Option<int>)
    ensures r.Some? <==> a.Int? || a.Dec?
    ensures a.Int? ==> r == Some(a.i)
  {
    match a
    case Int(i) => Some(i)
    case Dec(t) => Some(DecTrunc(t))
    case _ => None
  }

  predicate AllNumbers(args: seq<Arg>) {
    forall i :: 0 <= i < |args| ==> NumberArg(args[i]).Some?
  }

  /** A `slice` bound: negative counts from the end; both are clamped to the string. */
  function RelIndex(i: int, len: nat): (r: nat)
    ensures r <= len
    ensures 0 <= i <= len ==> r == i
    ensures -(len as int) <= i < 0 ==> r as int == len as int + i
  {
    if i < 0 then (if len + i < 0 then 0 else len + i)
    else if i > len then len
    else i
  }

  /** `String.prototype.slice(...args)`: only the first two arguments count. */
  function Slice(s: string, args: seq<int>): (r: string)
    ensures |r| <= |s|
    ensures var from := if |args| >= 1 then RelIndex(args[0], |s|) else 0;
            from + |r| <= |s| && r == s[from..from + |r|]
    ensures var from := if |args| >= 1 then RelIndex(args[0], |s|) else 0;
            var to := if |args| >= 2 then RelIndex(args[1], |s|) else |s|;
            |r| == if from < to then to - from else 0
  {
    var from := if |args| >= 1 then RelIndex(args[0], |s|) else 0;
    var to := if |args| >= 2 then RelIndex(args[1], |s|) else |s|;
    if from < to then s[from..to] else ""
  }

  function Numbers(args: seq<Arg>): (ns: seq<int>)
    requires AllNumbers(args)
    ensures |ns| == |args|
    ensures forall i :: 0 <= i < |args| ==> Some(ns[i]) == NumberArg(args[i])
  {
    seq(|args|, i requires 0 <= i < |args| && AllNumbers(args) => NumberArg(args[i]).value)
  }

  /** No arguments slice nothing off; a split point cuts a token into two slices that rebuild it. */
  lemma SliceParts(s: string, k: nat)
    requires k <= |s|
    ensures Slice(s, []) == s
    ensures Slice(s, [0, k]) + Slice(s, [k]) == s
    ensures k < |s| ==> Slice(s, [-(|s| - k)]) == s[k..]
  {
    assert s[0..|s|] == s;
    if k == |s| {
      assert Slice(s, [k]) == "";
      assert s[0..k] == s;
    } else if k == 0 {
      assert Slice(s, [0, k]) == "";
    } else {
      assert s[0..k] + s[k..|s|] == s;
    }
  }

  /** The token, sliced by the arguments when there are some and every one is a number. */
  function SliceToken(token: string, params: Params): (r: string)
    ensures params.None? ==> r == token
    ensures params.Some? && !AllNumbers(params.value) ==> r == token
    ensures params == Some([]) ==> r == token
    ensures |r| <= |token|
  {
    if params.Some? && AllNumbers(params.value) then Slice(token, Numbers(params.value)) else token
  }

  /**
   * `string`, `/^(.*?)\s(.*)/`: the text before the first whitespace character
   * is the token and the rest of that line, trimmed, the remainder. No whitespace
   * at all makes the destructuring of the failed match throw.
   */
  function ConsumeString(subject: Option<string>, params: Params): (r: Result<Step>)
    ensures var s := ToStr(subject);
            r.Ok? <==> exists i :: 0 <= i < |s| && IsSpace(s[i])
    ensures r.Ok? ==> var s := ToStr(subject); var i := Span(s, NotSpace);
            && i < |s| && IsSpace(s[i])
            && (forall j :: 0 <= j < i ==> !IsSpace(s[j]))
            && r.value == Step(Some(Trim(LineFrom(s, i + 1))), Text(SliceToken(s[..i], params)))
  {
    var s := ToStr(subject);
    var i := Span(s, NotSpace);
    if i == |s| then Err(Thrown("string"))
    else Ok(Step(Some(Trim(LineFrom(s, i + 1))), Text(SliceToken(s[..i], params))))
  }

  /** A token, one whitespace character, then a line: the token and the trimmed line. */
  lemma StringSplits(w: string, c: char, x: string)
    requires forall i :: 0 <= i < |w| ==> !IsSpace(w[i])
    requires IsSpace(c)
    ensures ConsumeString(Some(w + [c] + x), None) == Ok(Step(Some(Trim(LineFrom(x, 0))), Text(w)))
  {
    var s := w + [c] + x;
    assert s[|w|] == c;
    assert s[..|w|] == w;
    assert s == (w + [c]) + x;
    LineFromShift(w + [c], x);
    StringAt(s, w, LineFrom(x, 0));
  }

  /** `StringSplits` over a text whose first whitespace follows `w`, with the line after it given. */
  lemma StringAt(s: string, w: string, line: string)
    requires |w| < |s| && s[..|w|] == w && IsSpace(s[|w|])
    requires forall i :: 0 <= i < |w| ==> !IsSpace(w[i])
    requires LineFrom(s, |w| + 1) == line
    ensures ConsumeString(Some(s), None) == Ok(Step(Some(Trim(line)), Text(w)))
  {
    assert forall i :: 0 <= i < |w| ==> NotSpace(s[i]) by {
      forall i | 0 <= i < |w| ensures NotSpace(s[i]) {
        assert s[i] == s[..|w|][i];
      }
    }
    assert Span(s, NotSpace) == |w|;
  }

  // -------------------------------------------------------------------- tuple

  /**
   * `(?:, (.*)|$)` at position `t`: `, ` followed by the rest of the line, or the
   * end of the input (no remainder). Anything else does not match.
   */
  function TailAt(s: string, t: nat): (r: Option<Option<string>>)
    requires t <= |s|
    ensures r.Some? <==> t == |s| || (t + 2 <= |s| && s[t] == ',' && s[t + 1] == ' ')
    ensures r == Some(None) <==> t == |s|
  {
    if t + 2 <= |s| && s[t] == ',' && s[t + 1] == ' ' then Some(Some(LineFrom(s, t + 2)))
    else if t == |s| then Some(None)
    else None
  }

  /** The lazy `.*?` from `k`: the first end on the current line at which the tail matches. */
  function LazyEnd(s: string, k: nat): (r: Option<nat>)
    requires k <= |s|
    ensures r.Some? ==> k <= r.value <= |s| && TailAt(s, r.value).Some? && NoLineTerminator(s[k..r.value])
    ensures r.Some? ==> forall j :: k <= j < r.value ==> TailAt(s, j).None?
    ensures r.None? ==> forall j :: k <= j <= |s| && NoLineTerminator(s[k..j]) ==> TailAt(s, j).None?
    decreases |s| - k
  {
    if TailAt(s, k).Some? then Some(k)
    else if k < |s| && !IsLineTerminator(s[k]) then
      var r := LazyEnd(s, k + 1);
      NoLineTerminatorStep(s, k);
      r
    else
      assert forall j :: k < j <= |s| ==> s[k..j][0] == s[k];
      None
  }

  lemma NoLineTerminatorStep(s: string, k: nat)
    requires k < |s| && !IsLineTerminator(s[k])
    ensures forall j :: k < j <= |s| ==> (NoLineTerminator(s[k..j]) <==> NoLineTerminator(s[k + 1..j]))
  {
    forall j | k < j <= |s|
      ensures NoLineTerminator(s[k..j]) <==> NoLineTerminator(s[k + 1..j])
    {
      assert s[k..j] == [s[k]] + s[k + 1..j];
    }
  }

  /** `"[^"]*"` at `p`: the end just after the first closing quote, if the text opens one and closes it. */
  function QuotedEnd(s: string, p: nat): (r: Option<nat>)
    requires p <= |s|
    ensures r.Some? ==> p + 2 <= r.value <= |s| && s[p] == '"' && s[r.value - 1] == '"'
                        && forall i :: p < i < r.value - 1 ==> s[i] != '"'
    ensures r.None? ==> p == |s| || s[p] != '"' || forall i :: p < i < |s| ==> s[i] != '"'
  {
    if p < |s| && s[p] == '"' then
      var q := p + 1 + Span(s[p + 1..], NotQuote);
      if q < |s| then Some(q + 1) else None
    else
      None
  }

  /** The quoted alternative matches at `p` and the tail matches right after it. */
  predicate QuotedWins(s: string, p: nat)
    requires p <= |s|
  {
    var quoted := QuotedEnd(s, p);
    quoted.Some? && TailAt(s, quoted.value).Some?
  }

  /**
   * Where the value of a `key=value` pair starting at `p` ends: after the quoted
   * string when the tail matches there; otherwise the first end on the line at
   * which the tail matches.
   */
  function ValueEnd(s: string, p: nat): (r: Option<nat>)
    requires p <= |s|
    ensures r.Some? ==> p <= r.value <= |s| && TailAt(s, r.value).Some?
  {
    if QuotedWins(s, p) then QuotedEnd(s, p) else LazyEnd(s, p)
  }

  /**
   * The end the tuple regex picks: the quoted string when the tail matches after
   * it; otherwise no shorter end on the line lets the tail match; and no end at
   * all only when no end on the line does.
   */
  lemma ValueEndPicks(s: string, p: nat)
    requires p <= |s|
    ensures QuotedWins(s, p) ==> ValueEnd(s, p) == QuotedEnd(s, p)
    ensures !QuotedWins(s, p) && ValueEnd(s, p).Some? ==> var e := ValueEnd(s, p).value;
              NoLineTerminator(s[p..e]) && forall j :: p <= j < e ==> TailAt(s, j).None?
    ensures ValueEnd(s, p).None? ==> forall j :: p <= j <= |s| && NoLineTerminator(s[p..j]) ==> TailAt(s, j).None?
  {
    if !QuotedWins(s, p) {
      assert ValueEnd(s, p) == LazyEnd(s, p);
    } else {
      assert ValueEnd(s, p).Some?;
    }
  }

  /** The length of a leading `key=`: a maximal run of word characters followed by `=`. */
  function KeyEnd(s: string): (n: nat)
    ensures n <= |s|
    ensures n > 0 ==> n < |s| && s[n] == '=' && AllWord(s[..n])
  {
    var n := Span(s, IsWord);
    if n < |s| && s[n] == '=' then n else 0
  }

  /**
   * `s` reads as `key=val` followed by the end of input (no remainder) or by `, `
   * and a line whose trimmed text is the remainder.
   */
  predicate IsPairOf(s: string, key: string, val: string, rest: Option<string>) {
    var n := |key|; var e := n + 1 + |val|;
    && 0 < n && e <= |s| && AllWord(key) && s[..n] == key && s[n] == '='
    && s[n + 1..e] == val
    && (rest.None? <==> e == |s|)
    && (rest.Some? ==> e + 2 <= |s| && s[e] == ',' && s[e + 1] == ' ' && rest.value == Trim(LineFrom(s, e + 2)))
  }

  /** No `, ` inside the text: a lazy value scan passes over all of it. */
  predicate NoSeparator(v: string) {
    forall i :: 0 <= i < |v| - 1 ==> v[i] != ',' || v[i + 1] != ' '
  }

  /** The pair a match produces: the key before `=`, the value up to `e`, the tail after it. */
  function PairAt(s: string, n: nat, e: nat): (r: Step)
    requires 0 < n && n + 1 <= e <= |s| && TailAt(s, e).Some? && s[n] == '=' && AllWord(s[..n])
    ensures r.value == Pair(s[..n], s[n + 1..e])
    ensures |r.value.key| == n && n + 1 + |r.value.val| == e
    ensures IsPairOf(s, r.value.key, r.value.val, r.rest)
  {
    var tail := TailAt(s, e).value;
    Step(if tail.Some? then Some(Trim(tail.value)) else None, Pair(s[..n], s[n + 1..e]))
  }

  /**
   * `tuple`, `/^(\w+)=((?:"[^"]*")?|.*?)(?:, (.*)|$)/`: a `key=value` pair whose
   * value is a double-quoted string (quotes kept) or the shortest text on the line
   * that is followed by `, ` or the end of input. Without a match the subject is
   * returned unchanged with a null value.
   */
  function ConsumeTuple(subject: Option<string>): (r: Step)
    ensures r.value.Nil? || r.value.Pair?
    ensures r.value.Nil? ==> r.rest == subject
    ensures r.value.Pair? ==> IsPairOf(ToStr(subject), r.value.key, r.value.val, r.rest)
    ensures KeyEnd(ToStr(subject)) == 0 ==> r.value.Nil?
  {
    var s := ToStr(subject);
    var n := KeyEnd(s);
    if n == 0 then Step(subject, Nil)
    else
      var e := ValueEnd(s, n + 1);
      if e.None? then Step(subject, Nil)
      else
        PairAt(s, n, e.value)
  }

  /**
   * The match is the one the regex picks: there is none exactly when the text has
   * no leading `key=` or its value has no end; otherwise the key is the whole
   * leading word run and the value runs from after `=` to the end `ValueEnd`
   * picks (see `ValueEndPicks`).
   */
  lemma TuplePicksEnd(subject: Option<string>)
    ensures var s := ToStr(subject); var n := KeyEnd(s);
            ConsumeTuple(subject).value.Nil? <==> n == 0 || ValueEnd(s, n + 1).None?
    ensures var s := ToStr(subject); var n := KeyEnd(s); var r := ConsumeTuple(subject);
            r.value.Pair? ==> ValueEnd(s, n + 1).Some? && r.value == Pair(s[..n], s[n + 1..ValueEnd(s, n + 1).value])
  {
  }

  /**
   * An unquoted value without line breaks or `, ` inside, followed by `, `: the
   * pair and the trimmed rest of the line.
   */
  lemma TupleSplits(k: string, v: string, x: string)
    requires |k| > 0 && AllWord(k)
    requires |v| == 0 || v[0] != '"'
    requires NoLineTerminator(v)
    requires NoSeparator(v)
    ensures ConsumeTuple(Some(k + "=" + v + ", " + x)) == Step(Some(Trim(LineFrom(x, 0))), Pair(k, v))
  {
    var pre := k + "=" + v + ", ";
    TupleText(k, v, x);
    LineFromShift(pre, x);
    SplitAt(pre + x, k, v, LineFrom(x, 0));
  }

  /**
   * A quoted string followed by more text before `, `: the quoted alternative
   * fails, so the lazy one takes the quotes and the text after them as the value.
   */
  lemma TupleQuoteThenText(k: string, q: string, w: string, x: string)
    requires |k| > 0 && AllWord(k)
    requires forall i :: 0 <= i < |q| ==> q[i] != '"'
    requires |w| > 0
    requires NoLineTerminator("\"" + q + "\"" + w) && NoSeparator("\"" + q + "\"" + w)
    ensures var v := "\"" + q + "\"" + w;
            ConsumeTuple(Some(k + "=" + v + ", " + x)) == Step(Some(Trim(LineFrom(x, 0))), Pair(k, v))
  {
    var v := "\"" + q + "\"" + w;
    var pre := k + "=" + v + ", ";
    TupleLayout(k, v, x);
    QuoteThenTextLayout(q, w);
    LineFromShift(pre, x);
    QuoteThenTextAt(pre + x, k, v, |q|, LineFrom(x, 0));
  }

  /** Where the quotes sit in `"q"w`, and that no tail starts right after the closing one. */
  lemma QuoteThenTextLayout(q: string, w: string)
    requires forall i :: 0 <= i < |q| ==> q[i] != '"'
    requires |w| > 0 && NoSeparator("\"" + q + "\"" + w)
    ensures var v := "\"" + q + "\"" + w; var c := |q| + 2;
            && c < |v| && v[0] == '"' && v[c - 1] == '"' && (forall i :: 0 < i < c - 1 ==> v[i] != '"')
            && (c + 1 < |v| ==> v[c] != ',' || v[c + 1] != ' ')
  {
    var v := "\"" + q + "\"" + w;
    assert forall i :: 0 <= i < |q| ==> v[i + 1] == q[i];
  }

  /** `TupleQuoteThenText` over a text whose value `v` opens with a quoted string of length `m + 2`. */
  lemma QuoteThenTextAt(s: string, k: string, v: string, m: nat, line: string)
    requires |k| > 0 && AllWord(k)
    requires var p := |k| + 1; var e := p + |v|;
             && e + 2 <= |s| && s[..|k|] == k && s[|k|] == '=' && s[p..e] == v
             && (forall i :: 0 <= i < |v| ==> s[p + i] == v[i])
             && s[e] == ',' && s[e + 1] == ' '
             && (forall i :: p <= i < e ==> TailAt(s, i).None? && !IsLineTerminator(s[i]))
             && LineFrom(s, e + 2) == line
    requires var c := m + 2;
             && c < |v| && v[0] == '"' && v[c - 1] == '"' && (forall i :: 0 < i < c - 1 ==> v[i] != '"')
             && (c + 1 < |v| ==> v[c] != ',' || v[c + 1] != ' ')
    ensures ConsumeTuple(Some(s)) == Step(Some(Trim(line)), Pair(k, v))
  {
    var p := |k| + 1;
    var c := p + m + 2;
    assert s[p] == v[0] && s[c - 1] == v[m + 1];
    assert forall i :: p < i < c - 1 ==> s[i] == v[i - p];
    QuotedAt(s, p, c);
    assert s[c] == v[m + 2];
    assert m + 3 < |v| ==> s[c + 1] == v[m + 3];
    QuotedLoses(s, p, c);
    SplitAt(s, k, v, line);
  }

  /** The quoted alternative loses when no tail follows the closing quote. */
  lemma QuotedLoses(s: string, p: nat, c: nat)
    requires p <= |s| && QuotedEnd(s, p) == Some(c) && c + 1 < |s|
    requires s[c] != ',' || s[c + 1] != ' '
    ensures !QuotedWins(s, p)
  {
  }

  /** `TupleSplits` over the text laid out by `TupleText`, with the line after `, ` given. */
  lemma SplitAt(s: string, k: string, v: string, line: string)
    requires |k| > 0 && AllWord(k)
    requires var p := |k| + 1; var e := p + |v|;
             && e + 2 <= |s| && s[..|k|] == k && s[|k|] == '=' && s[p..e] == v
             && s[e] == ',' && s[e + 1] == ' ' && !QuotedWins(s, p)
             && (forall i :: p <= i < e ==> TailAt(s, i).None? && !IsLineTerminator(s[i]))
             && LineFrom(s, e + 2) == line
    ensures ConsumeTuple(Some(s)) == Step(Some(Trim(line)), Pair(k, v))
  {
    var n := |k|;
    var p := n + 1;
    var e := p + |v|;
    KeyEndAt(s, n);
    LazyScan(s, p, e);
    TupleUnfold(s, n, e, k, v, line);
  }

  /** A match with a key of length `n` and a value ending at `e`, before `, `. */
  lemma TupleUnfold(s: string, n: nat, e: nat, k: string, v: string, line: string)
    requires 0 < n && n + 1 <= e && e + 2 <= |s| && s[e] == ',' && s[e + 1] == ' '
    requires KeyEnd(s) == n && ValueEnd(s, n + 1) == Some(e)
    requires s[..n] == k && s[n + 1..e] == v && LineFrom(s, e + 2) == line
    ensures ConsumeTuple(Some(s)) == Step(Some(Trim(line)), Pair(k, v))
  {
  }

  /** Conversely, a leading run of word characters followed by `=` is the key. */
  lemma KeyEndAt(s: string, n: nat)
    requires 0 < n < |s| && AllWord(s[..n]) && s[n] == '='
    ensures KeyEnd(s) == n
  {
    assert forall i :: 0 <= i < n ==> IsWord(s[..n][i]);
  }

  /** Where the parts of `key=value, rest` sit in the text. */
  lemma TupleLayout(k: string, v: string, x: string)
    requires |k| > 0 && AllWord(k)
    requires NoLineTerminator(v)
    requires NoSeparator(v)
    ensures var s := k + "=" + v + ", " + x; var p := |k| + 1; var e := p + |v|;
            && s == (k + "=" + v + ", ") + x && |k + "=" + v + ", "| == e + 2
            && e + 2 <= |s| && s[..|k|] == k && s[|k|] == '=' && s[p..e] == v
            && s[e] == ',' && s[e + 1] == ' ' && (|v| > 0 ==> s[p] == v[0])
            && (forall i :: 0 <= i < |v| ==> s[p + i] == v[i])
            && forall i :: p <= i < e ==> TailAt(s, i).None? && !IsLineTerminator(s[i])
  {
    var s := k + "=" + v + ", " + x;
    var p := |k| + 1;
    assert forall i :: 0 <= i < |v| ==> s[p + i] == v[i];
  }

  /** `TupleLayout` for a value that does not open with a quote. */
  lemma TupleText(k: string, v: string, x: string)
    requires |k| > 0 && AllWord(k)
    requires |v| == 0 || v[0] != '"'
    requires NoLineTerminator(v)
    requires NoSeparator(v)
    ensures var s := k + "=" + v + ", " + x; var p := |k| + 1; var e := p + |v|;
            && s == (k + "=" + v + ", ") + x && |k + "=" + v + ", "| == e + 2
            && e + 2 <= |s| && s[..|k|] == k && s[|k|] == '=' && s[p..e] == v
            && s[e] == ',' && s[e + 1] == ' ' && s[p] != '"'
            && forall i :: p <= i < e ==> TailAt(s, i).None? && !IsLineTerminator(s[i])
  {
    TupleLayout(k, v, x);
  }

  /** The lazy scan passes over a stretch in which the tail never matches and no line ends. */
  lemma LazyScan(s: string, p: nat, e: nat)
    requires p <= e < |s| && !QuotedWins(s, p)
    requires forall i :: p <= i < e ==> TailAt(s, i).None? && !IsLineTerminator(s[i])
    requires s[e] == ',' && e + 1 < |s| && s[e + 1] == ' '
    ensures ValueEnd(s, p) == Some(e)
  {
    LazyFrom(s, p, e);
  }

  lemma {:induction false} LazyFrom(s: string, k: nat, e: nat)
    requires k <= e <= |s|
    requires forall i :: k <= i < e ==> TailAt(s, i).None? && !IsLineTerminator(s[i])
    requires TailAt(s, e).Some?
    ensures LazyEnd(s, k) == Some(e)
    decreases e - k
  {
    if k < e {
      LazyFrom(s, k + 1, e);
    }
  }

  /**
   * The match fails only when it must: after a leading `key=`, any end on the
   * same line that is followed by `, ` or the end of input yields a pair.
   */
  lemma TupleFindsPair(s: string, e: nat)
    requires KeyEnd(s) > 0 && KeyEnd(s) + 1 <= e <= |s|
    requires NoLineTerminator(s[KeyEnd(s) + 1..e]) && TailAt(s, e).Some?
    ensures ConsumeTuple(Some(s)).value.Pair?
  {
  }

  /** An unquoted value running to the end of the input: the pair, and no remainder. */
  lemma TupleAtEnd(k: string, v: string)
    requires |k| > 0 && AllWord(k)
    requires |v| == 0 || v[0] != '"'
    requires NoLineTerminator(v)
    requires NoSeparator(v)
    ensures ConsumeTuple(Some(k + "=" + v)) == Step(None, Pair(k, v))
  {
    var s := k + "=" + v;
    var p := |k| + 1;
    assert forall i :: 0 <= i < |v| ==> s[p + i] == v[i];
    assert s[..|k|] == k && s[p..] == v;
    AtEndAt(s, k, v);
  }

  /** `TupleAtEnd` over the text `k=v`. */
  lemma AtEndAt(s: string, k: string, v: string)
    requires |k| > 0 && AllWord(k) && |s| == |k| + 1 + |v|
    requires s[..|k|] == k && s[|k|] == '=' && s[|k| + 1..] == v
    requires |v| == 0 || s[|k| + 1] != '"'
    requires forall i :: |k| + 1 <= i < |s| ==> TailAt(s, i).None? && !IsLineTerminator(s[i])
    ensures ConsumeTuple(Some(s)) == Step(None, Pair(k, v))
  {
    var p := |k| + 1;
    KeyEndAt(s, |k|);
    LazyFrom(s, p, |s|);
    if p < |s| {
      assert QuotedEnd(s, p).None?;
    }
    PairFrom(s, |k|, |s|, k, v);
  }

  /**
   * A quoted value wins over any shorter unquoted reading: the pair keeps the
   * quotes, even when the quoted text itself contains `, `.
   */
  lemma TupleQuoted(k: string, q: string, x: string)
    requires |k| > 0 && AllWord(k)
    requires forall i :: 0 <= i < |q| ==> q[i] != '"'
    requires x == "" || (|x| >= 2 && x[0] == ',' && x[1] == ' ')
    ensures ConsumeTuple(Some(k + "=" + ("\"" + q + "\"") + x)).value == Pair(k, "\"" + q + "\"")
  {
    var v := "\"" + q + "\"";
    QuotedText(k, q, x);
    QuotedPairAt(k + "=" + v + x, k, v, |k| + 1 + |v|);
  }

  /** Where the parts of `key="quoted"rest` sit in the text. */
  lemma QuotedText(k: string, q: string, x: string)
    requires forall i :: 0 <= i < |q| ==> q[i] != '"'
    requires x == "" || (|x| >= 2 && x[0] == ',' && x[1] == ' ')
    ensures var v := "\"" + q + "\""; var s := k + "=" + v + x; var e := |k| + 1 + |v|;
            && |k| + 3 <= e <= |s| && s[..|k|] == k && s[|k|] == '=' && s[|k| + 1..e] == v
            && s[|k| + 1] == '"' && s[e - 1] == '"' && (forall i :: |k| + 1 < i < e - 1 ==> s[i] != '"')
            && (e == |s| || (e + 2 <= |s| && s[e] == ',' && s[e + 1] == ' '))
  {
    var v := "\"" + q + "\"";
    var s := k + "=" + v + x;
    var p := |k| + 1;
    var e := p + |v|;
    assert forall i :: 0 <= i < |v| ==> s[p + i] == v[i];
    assert forall i :: 0 <= i < |x| ==> s[e + i] == x[i];
    assert forall i :: 0 <= i < |q| ==> v[i + 1] == q[i];
  }

  /** `TupleQuoted` over a text whose quoted value ends at `e`. */
  lemma QuotedPairAt(s: string, k: string, v: string, e: nat)
    requires |k| > 0 && AllWord(k) && |k| + 3 <= e <= |s|
    requires s[..|k|] == k && s[|k|] == '=' && s[|k| + 1..e] == v
    requires s[|k| + 1] == '"' && s[e - 1] == '"' && forall i :: |k| + 1 < i < e - 1 ==> s[i] != '"'
    requires e == |s| || (e + 2 <= |s| && s[e] == ',' && s[e + 1] == ' ')
    ensures ConsumeTuple(Some(s)).value == Pair(k, v)
  {
    KeyEndAt(s, |k|);
    QuotedAt(s, |k| + 1, e);
    assert ValueEnd(s, |k| + 1) == Some(e);
    PairFrom(s, |k|, e, k, v);
  }

  /** A match whose key ends at `n` and whose value ends at `e` yields that key and value. */
  lemma PairFrom(s: string, n: nat, e: nat, k: string, v: string)
    requires 0 < n && n + 1 <= e <= |s|
    requires KeyEnd(s) == n && ValueEnd(s, n + 1) == Some(e)
    requires s[..n] == k && s[n + 1..e] == v
    ensures ConsumeTuple(Some(s)).value == Pair(k, v)
    ensures e == |s| ==> ConsumeTuple(Some(s)).rest.None?
  {
  }

  lemma QuotedAt(s: string, p: nat, e: nat)
    requires p + 2 <= e <= |s| && s[p] == '"' && s[e - 1] == '"'
    requires forall i :: p < i < e - 1 ==> s[i] != '"'
    ensures QuotedEnd(s, p) == Some(e)
  {
    var t := s[p + 1..];
    assert forall i :: 0 <= i < e - 2 - p ==> t[i] == s[p + 1 + i];
    assert t[e - 2 - p] == '"';
  }

  // ----------------------------------------------------------------- dispatch

  /** Runs a consumer on the subject with the token's arguments. */
  function Run(c: Consumer, subject: Option<string>, params: Params): Result<Step> {
    match c
    case StringConsumer => ConsumeString(subject, params)
    case SkipConsumer => ConsumeSkip(subject)
    case TupleConsumer => Ok(ConsumeTuple(subject))
    case CallerConsumer(run) => run(subject, params)
  }

  /** The built-in consumer table; `datetime` is supplied by the caller. */
  function Builtins(datetime: Consumer): (m: map<string, Consumer>)
    ensures m.Keys == {"datetime", "string", "tuple", "skip"}
    ensures m["string"] == StringConsumer && m["skip"] == SkipConsumer && m["tuple"] == TupleConsumer
    ensures m["datetime"] == datetime
  {
    map["datetime" := datetime, "string" := StringConsumer, "tuple" := TupleConsumer, "skip" := SkipConsumer]
  }

  // ---------------------------------------------------------------- shrinking

  /** A successful step with a truthy value leaves no remainder or a strictly shorter one. */
  predicate ShrinkStep(r: Result<Step>, s: string) {
    r.Ok? && Truthy(r.value.value) ==> r.value.rest.None? || |r.value.rest.value| < |s|
  }

  /** What a quantified loop needs of its consumer: every committed step shortens a non-empty subject. */
  ghost predicate Shrinks(c: Consumer, params: Params) {
    forall s: string :: s != "" ==> ShrinkStep(Run(c, Some(s), params), s)
  }

  /** The built-in splitters always shorten the subject when they produce a value. */
  lemma BuiltinShrinks(c: Consumer, params: Params, s: string)
    requires !c.CallerConsumer? && s != ""
    ensures ShrinkStep(Run(c, Some(s), params), s)
  {
    var r := Run(c, Some(s), params);
    if r.Ok? && Truthy(r.value.value) && r.value.rest.Some? {
      match c
      case StringConsumer =>
        var i := Span(s, NotSpace);
        assert |LineFrom(s, i + 1)| <= |s| - i - 1;
      case SkipConsumer =>
        var n := Span(s, IsWord);
        assert |LineFrom(s, n)| <= |s| - n;
      case TupleConsumer =>
        var t := ConsumeTuple(Some(s));
        var e := |t.value.key| + 1 + |t.value.val|;
        assert |LineFrom(s, e + 2)| <= |s| - e - 2;
    }
  }

  lemma BuiltinsShrink(c: Consumer, params: Params)
    requires !c.CallerConsumer?
    ensures Shrinks(c, params)
  {
    forall s: string | s != ""
      ensures ShrinkStep(Run(c, Some(s), params), s)
    {
      BuiltinShrinks(c, params, s);
    }
  }
}
