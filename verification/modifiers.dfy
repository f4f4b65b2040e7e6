/**
 * The built-in modifiers: container transformers run after the instructions.
 * A JavaScript modifier may change the container it is given and may return a
 * different one; `Applied` records which, so that the digester can tell what
 * happened to the container it passed in.
 */
module Modifiers {
  import opened Outcomes
  import opened Chars
  import opened Tokenizer
  import opened Containers

  /**
   * The outcome of a modifier: the container it was given, changed in place and
   * returned, or the receiver's state afterwards together with a new container
   * that is returned instead.
   */
  datatype Applied =
    | InPlace(container: Container)
    | Replaced(receiver: Container, replacement: Container)

  /** The container the modifier returns, which the next modifier receives. */
  function Returned(a: Applied): Container {
    if a.InPlace? then a.container else a.replacement
  }

  /** A modifier as the composer resolves it; one that throws yields `Err`. */
  datatype Modifier =
    | JoinModifier
    | ValuesModifier
    | CallerModifier(run: (Container, Params) -> Result<Applied>)

  // --------------------------------------------------------------------- join

  /** How `Array.prototype.join` writes one element: `undefined` and `null` as nothing, a pair as `key,value`. */
  function Stringify(d: Datum): string {
    match d
    case Undefined => ""
    case Nil => ""
    case Flag(b) => if b then "true" else "false"
    case Num(n) => ShowInt(n)
    case Text(s) => s
    case Pair(k, v) => k + "," + v
  }

  /** `Array.prototype.join`: the elements' texts with the separator between neighbours. */
  function JoinWith(ds: seq<Datum>, sep: string): string {
    if |ds| == 0 then ""
    else if |ds| == 1 then Stringify(ds[0])
    else Stringify(ds[0]) + sep + JoinWith(ds[1..], sep)
  }

  /** Joining two non-empty runs is joining each and putting one separator between them. */
  lemma {:induction false} JoinAppend(a: seq<Datum>, b: seq<Datum>, sep: string)
    requires |a| > 0 && |b| > 0
    ensures JoinWith(a + b, sep) == JoinWith(a, sep) + sep + JoinWith(b, sep)
    decreases |a|
  {
    var ab := a + b;
    assert ab[0] == a[0];
    if |a| == 1 {
      assert ab[1..] == b;
    } else {
      assert ab[1..] == a[1..] + b;
      JoinAppend(a[1..], b, sep);
    }
  }

  /** The join is as long as all the element texts plus one separator between each pair of neighbours. */
  lemma {:induction false} JoinLength(ds: seq<Datum>, sep: string)
    requires |ds| > 0
    ensures |JoinWith(ds, sep)| == TextLength(ds) + (|ds| - 1) * |sep|
    decreases |ds|
  {
    if |ds| > 1 {
      JoinLength(ds[1..], sep);
    }
  }

  function TextLength(ds: seq<Datum>): nat {
    if ds == [] then 0 else |Stringify(ds[0])| + TextLength(ds[1..])
  }

  /** `String(args[0])`, or the default `,` when there is no first argument. */
  function Separator(args: seq<Arg>): (sep: string)
    ensures |args| == 0 ==> sep == ","
    ensures |args| > 0 && args[0].Str? ==> sep == args[0].s
    ensures |args| > 0 && args[0].Null? ==> sep == "null"
    ensures |args| > 0 && args[0].Bool? ==> sep == (if args[0].b then "true" else "false")
    ensures |args| > 0 && args[0].Int? ==> sep == ShowInt(args[0].i)
    ensures |args| > 0 && args[0].Dec? ==> sep == args[0].text
  {
    if |args| == 0 then ","
    else
      match args[0]
      case Null => "null"
      case Bool(b) => if b then "true" else "false"
      case Int(i) => ShowInt(i)
      case Dec(t) => t
      case Str(s) => s
  }

  /**
   * `join(d)`: all values, flattened in push order and joined with `d`, become the
   * single value of a single item named "string"; the same container is returned.
   * Without an argument list, reading `args[0]` throws.
   */
  function Join(c: Container, params: Params): (r: Result<Applied>)
    ensures r.Err? <==> params.None?
    ensures r.Ok? ==> r.value.InPlace?
    ensures r.Ok? ==> var d := r.value.container;
            && d.subject == c.subject && d.status == c.status
            && d.items == [Item("string", Some([Text(JoinWith(Unpack(c), Separator(params.value)))]))]
  {
    if params.None? then Err(Thrown("join"))
    else Ok(InPlace(Pack(c, "string", Some([Text(JoinWith(Unpack(c), Separator(params.value)))]))))
  }

  /** Joining twice keeps one value: the second join sees exactly the first one's text. */
  lemma JoinTwice(c: Container, params: Params)
    requires params.Some?
    ensures var once := Join(c, params).value.container;
            Join(once, params).value.container == once
  {
    var once := Join(c, params).value.container;
    var text := JoinWith(Unpack(c), Separator(params.value));
    UnpackPack(c, "string", Some([Text(text)]));
    assert Unpack(once) == [Text(text)];
  }

  /** The values of all items are joined across item boundaries: `[a]` then `[b, c]` joins to `a,b,c`. */
  lemma JoinAcrossItems(subject: Option<string>, a: string, b: string, c: string)
    ensures var box := Push(Push(Fresh(subject), "x", [Text(a)]), "y", [Text(b), Text(c)]);
            Join(box, Some([])).value.container.items == [Item("string", Some([Text(a + "," + b + "," + c)]))]
  {
    var box0 := Fresh(subject);
    var box1 := Push(box0, "x", [Text(a)]);
    var box := Push(box1, "y", [Text(b), Text(c)]);
    UnpackPush(box0, "x", [Text(a)]);
    UnpackPush(box1, "y", [Text(b), Text(c)]);
    assert Unpack(box0) == [];
    assert Unpack(box) == [Text(a), Text(b), Text(c)];
    assert [Text(a), Text(b), Text(c)][1..] == [Text(b), Text(c)];
    assert [Text(b), Text(c)][1..] == [Text(c)];
    assert JoinWith([Text(b), Text(c)], ",") == b + "," + c;
    assert Separator([]) == ",";
    assert JoinWith(Unpack(box), ",") == a + "," + (b + "," + c);
    assert a + "," + (b + "," + c) == a + "," + b + "," + c;
  }

  // ------------------------------------------------------------------- values

  /** The name `values(n)` looks up: only a string argument can equal an item name. */
  function LookupName(args: seq<Arg>): Option<string> {
    if |args| > 0 && args[0].Str? then Some(args[0].s) else None
  }

  /**
   * `values(n)`: a new container over the same subject whose only item, "values",
   * holds what `find(n)` returns; the container passed in is left as it was.
   * Without an argument list, reading `args[0]` throws.
   */
  function Values(c: Container, params: Params): (r: Result<Applied>)
    ensures r.Err? <==> params.None?
    ensures r.Ok? ==> r.value.Replaced? && r.value.receiver == c
    ensures r.Ok? ==> var f := r.value.replacement; var name := LookupName(params.value);
            && f.subject == c.subject && f.status == Pending && |f.items| == 1
            && f.items[0].name == "values"
            && (name.Some? ==> f.items[0].values == Find(c, name.value))
            && (name.None? || !HasName(c.items, name.value) ==> f.items[0].values.None?)
  {
    if params.None? then Err(Thrown("values"))
    else
      var name := LookupName(params.value);
      var found := if name.Some? then Find(c, name.value) else None;
      Ok(Replaced(c, Pack(Detach(c), "values", found)))
  }

  /** After `values(n)`, finding "values" in the new container is finding `n` in the old one. */
  lemma ValuesThenFind(c: Container, n: string)
    ensures var f := Values(c, Some([Str(n)])).value.replacement;
            Find(f, "values") == Find(c, n)
  {
  }

  // ----------------------------------------------------------------- dispatch

  function Apply(m: Modifier, c: Container, params: Params): Result<Applied> {
    match m
    case JoinModifier => Join(c, params)
    case ValuesModifier => Values(c, params)
    case CallerModifier(run) => run(c, params)
  }

  /** The built-in modifier table. */
  function Builtins(): (m: map<string, Modifier>)
    ensures m.Keys == {"join", "values"}
    ensures m["join"] == JoinModifier && m["values"] == ValuesModifier
  {
    map["join" := JoinModifier, "values" := ValuesModifier]
  }
}
