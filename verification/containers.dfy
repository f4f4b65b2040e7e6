/**
 * The container: the subject still to be consumed plus the ordered list of
 * named value lists an extraction has produced so far. Every operation is a pure
 * function returning the updated container.
 */
module Containers {
  import opened Outcomes

  /**
   * The values a container holds. JavaScript code stores any value; these are the
   * kinds the engine produces: `undefined` from a missing lookup, `null`, booleans,
   * integers, strings from the string splitters and `[key, value]` pairs from `tuple`.
   */
  datatype Datum =
    | Undefined
    | Nil
    | Flag(b: bool)
    | Num(n: int)
    | Text(s: string)
    | Pair(key: string, val: string)

  /** JavaScript truthiness of a value: only `undefined`, `null`, `false`, `0` and `""` are falsy. */
  predicate Truthy(d: Datum) {
    match d
    case Undefined => false
    case Nil => false
    case Flag(b) => b
    case Num(n) => n != 0
    case Text(s) => s != ""
    case Pair(_, _) => true
  }

  datatype Status = Pending | Success | Failure

  /** A named value list; its values are `undefined` when it was packed from a failed lookup. */
  datatype Item = Item(name: string, values: Option<seq<Datum>>)

  /** The subject is `undefined` once a consumer has returned no remainder. */
  datatype Container = Container(subject: Option<string>, items: seq<Item>, status: Status)

  /** A new container: the given subject, no items, pending. */
  function Fresh(subject: Option<string>): (c: Container)
    ensures c.subject == subject && c.items == [] && c.status == Pending
  {
    Container(subject, [], Pending)
  }

  /** Position of the first item with this name, or -1. */
  function IndexOf(items: seq<Item>, name: string): (i: int)
    ensures -1 <= i < |items|
    ensures i >= 0 ==> items[i].name == name
    ensures forall j :: 0 <= j < |items| && (i == -1 || j < i) ==> items[j].name != name
  {
    if |items| == 0 then -1
    else if items[0].name == name then 0
    else
      var k := IndexOf(items[1..], name);
      if k == -1 then -1 else k + 1
  }

  predicate HasName(items: seq<Item>, name: string) {
    exists j :: 0 <= j < |items| && items[j].name == name
  }

  /** `push`: one new item at the end, never merged with an earlier item of the same name. */
  function Push(c: Container, name: string, values: seq<Datum>): (r: Container)
    ensures |r.items| == |c.items| + 1
    ensures r.items[..|c.items|] == c.items && r.items[|c.items|] == Item(name, Some(values))
    ensures r.subject == c.subject && r.status == c.status
  {
    c.(items := c.items + [Item(name, Some(values))])
  }

  /**
   * `find`: the values of the first item with this name. A missing item and an
   * item holding `undefined` both give `undefined`.
   */
  function Find(c: Container, name: string): (r: Option<seq<Datum>>)
    ensures !HasName(c.items, name) ==> r.None?
    ensures forall i :: 0 <= i < |c.items| && c.items[i].name == name && !HasName(c.items[..i], name)
                    ==> r == c.items[i].values
  {
    var i := IndexOf(c.items, name);
    if i == -1 then None else c.items[i].values
  }

  /** `replace`: the first item with this name gets the new values; nothing happens without one. */
  function Replace(c: Container, name: string, values: Option<seq<Datum>>): (r: Container)
    ensures r.subject == c.subject && r.status == c.status
    ensures |r.items| == |c.items|
    ensures forall i :: 0 <= i < |c.items| ==> r.items[i].name == c.items[i].name
    ensures !HasName(c.items, name) ==> r == c
    ensures forall i :: 0 <= i < |c.items| && c.items[i].name == name && !HasName(c.items[..i], name)
                    ==> r.items[i].values == values
                        && forall j :: 0 <= j < |c.items| && j != i ==> r.items[j] == c.items[j]
  {
    var i := IndexOf(c.items, name);
    if i == -1 then c else c.(items := c.items[i := Item(name, values)])
  }

  /** `values()`: the per-item value lists, in push order. */
  function ValueLists(c: Container): (r: seq<Option<seq<Datum>>>)
    ensures |r| == |c.items|
    ensures forall i :: 0 <= i < |r| ==> r[i] == c.items[i].values
  {
    seq(|c.items|, i requires 0 <= i < |c.items| => c.items[i].values)
  }

  /**
   * One level of `Array.prototype.flat`: lists are spliced in, an `undefined`
   * in place of a list stays as a single `undefined` element.
   */
  function Flatten(lists: seq<Option<seq<Datum>>>): seq<Datum> {
    if lists == [] then []
    else (if lists[0].Some? then lists[0].value else [Undefined]) + Flatten(lists[1..])
  }

  /** `unpack`: every item's values, concatenated in push order. */
  function Unpack(c: Container): seq<Datum> {
    Flatten(ValueLists(c))
  }

  /** `pack`: all items are replaced by the one given. */
  function Pack(c: Container, name: string, values: Option<seq<Datum>>): (r: Container)
    ensures r.items == [Item(name, values)]
    ensures r.subject == c.subject && r.status == c.status
  {
    c.(items := [Item(name, values)])
  }

  /** `detach`: a new container over the same subject, with no items. */
  function Detach(c: Container): (r: Container)
    ensures r.subject == c.subject && r.items == [] && r.status == Pending
  {
    Fresh(c.subject)
  }

  /** `attach`: takes over the other container's subject; items and status are untouched. */
  function Attach(c: Container, other: Container): (r: Container)
    ensures r.subject == other.subject && r.items == c.items && r.status == c.status
  {
    c.(subject := other.subject)
  }

  // ------------------------------------------------------------------ lemmas

  lemma {:induction false} IndexOfAppend(items: seq<Item>, x: Item, name: string)
    ensures IndexOf(items + [x], name)
         == if IndexOf(items, name) != -1 then IndexOf(items, name)
            else if x.name == name then |items| else -1
  {
    if |items| > 0 {
      assert (items + [x])[1..] == items[1..] + [x];
      IndexOfAppend(items[1..], x, name);
    } else {
      assert items + [x] == [x];
    }
  }

  /**
   * Pushing never shadows: a name already present is still found with its first
   * values, and a new name is found with the pushed values.
   */
  lemma FindAfterPush(c: Container, name: string, values: seq<Datum>, key: string)
    ensures Find(Push(c, name, values), key)
         == if HasName(c.items, key) then Find(c, key)
            else if key == name then Some(values) else None
  {
    IndexOfAppend(c.items, Item(name, Some(values)), key);
  }

  /** Items added after the first with a name do not change what `find` returns for it. */
  lemma FindIgnoresLaterItems(c: Container, more: seq<Item>, key: string)
    requires HasName(c.items, key)
    ensures Find(c.(items := c.items + more), key) == Find(c, key)
  {
    var i := IndexOf(c.items, key);
    var all := c.items + more;
    assert all[..i] == c.items[..i];
    assert all[i] == c.items[i];
  }

  lemma {:induction false} FlattenAppend(a: seq<Option<seq<Datum>>>, b: seq<Option<seq<Datum>>>)
    ensures Flatten(a + b) == Flatten(a) + Flatten(b)
  {
    if a == [] {
      assert a + b == b;
    } else {
      assert (a + b)[1..] == a[1..] + b;
      FlattenAppend(a[1..], b);
    }
  }

  /** A push adds its values at the end of the unpacked values, and nothing else. */
  lemma UnpackPush(c: Container, name: string, values: seq<Datum>)
    ensures Unpack(Push(c, name, values)) == Unpack(c) + values
  {
    var r := Push(c, name, values);
    assert ValueLists(r) == ValueLists(c) + [Some(values)];
    FlattenAppend(ValueLists(c), [Some(values)]);
    assert Flatten([Some(values)]) == values + Flatten([]);
  }

  /** The length of the unpacked values: one per value, one per `undefined` list. */
  function FlatSize(lists: seq<Option<seq<Datum>>>): nat {
    if lists == [] then 0 else (if lists[0].Some? then |lists[0].value| else 1) + FlatSize(lists[1..])
  }

  lemma {:induction false} FlattenSize(lists: seq<Option<seq<Datum>>>)
    ensures |Flatten(lists)| == FlatSize(lists)
  {
    if lists != [] {
      FlattenSize(lists[1..]);
    }
  }

  /** After `pack` the container holds exactly the packed item: finding its name gives the packed values. */
  lemma FindPack(c: Container, name: string, values: Option<seq<Datum>>, key: string)
    ensures Find(Pack(c, name, values), key) == if key == name then values else None
  {
  }

  /** Unpacking a packed container gives the packed values, or a lone `undefined`. */
  lemma UnpackPack(c: Container, name: string, values: Option<seq<Datum>>)
    ensures Unpack(Pack(c, name, values)) == if values.Some? then values.value else [Undefined]
  {
    var r := Pack(c, name, values);
    assert ValueLists(r) == [values];
    assert Flatten([values]) == (if values.Some? then values.value else [Undefined]) + Flatten([]);
  }

  /** Detaching and attaching straight back changes nothing. */
  lemma DetachAttach(c: Container)
    ensures Attach(c, Detach(c)) == c
  {
  }

  /** Attaching a detached child that has since moved on transfers only the child's subject. */
  lemma AttachOnlySubject(c: Container, child: Container)
    ensures forall key :: Find(Attach(c, child), key) == Find(c, key)
    ensures Unpack(Attach(c, child)) == Unpack(c)
  {
    assert ValueLists(Attach(c, child)) == ValueLists(c);
  }
}
