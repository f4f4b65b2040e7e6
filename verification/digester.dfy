/**
 * The digester: runs a composed pattern over one line. The instructions consume
 * the subject and push one item each; the modifier groups then transform the
 * container; finally the status records whether the whole subject was consumed.
 *
 * JavaScript containers are mutable objects shared by reference. Here every step
 * returns the updated container, and where the source keeps using an object after
 * passing it on (the detached child of an alias, the receiver of a modifier that
 * returns another container) the model returns that object's state as well.
 */
module Digester {
  import opened Outcomes
  import opened Tokenizer
  import opened Containers
  import Consumers
  import Modifiers
  import opened Composer
  import Chars

  /** JavaScript truthiness of a subject: present and not the empty string. */
  predicate Filled(subject: Option<string>) {
    subject.Some? && subject.value != ""
  }

  /** `token.alias || token.name`: an empty alias counts as none. */
  function ItemName(tok: Token): (name: string)
    ensures tok.alias.Some? && tok.alias.value != "" ==> name == tok.alias.value
    ensures tok.alias.None? || tok.alias == Some("") ==> name == tok.name
  {
    if tok.alias.Some? && tok.alias.value != "" then tok.alias.value else tok.name
  }

  // ------------------------------------------------------------- the do-while

  /** What the consumer loop of one instruction leaves: the subject, the values recorded, the consumer calls made. */
  datatype Consumed = Consumed(subject: Option<string>, values: seq<Datum>, calls: nat)

  /**
   * The `do { … } while (token.quantifier && subject)` loop: call the consumer on
   * the subject; a falsy value stops the loop and leaves the subject alone; a
   * truthy one commits, replacing the subject by the remainder and recording the
   * value. Only a quantified instruction goes round again, and only while the
   * subject is non-empty. A consumer that throws aborts the whole line.
   *
   * The loop terminates because each commit shortens a non-empty subject: the
   * built-in splitters always do, and `Shrinks` demands it of a caller's consumer
   * on a quantified instruction.
   */
  function ConsumeLoop(c: Consumers.Consumer, params: Params, quantified: bool, subject: Option<string>): (r: Result<Consumed>)
    requires quantified && c.CallerConsumer? ==> Consumers.Shrinks(c, params)
    ensures var first := Consumers.Run(c, subject, params);
            && (first.Err? ==> r == Err(first.error))
            && (first.Ok? && !Truthy(first.value.value) ==> r == Ok(Consumed(subject, [], 1)))
            && ((first.Ok? && Truthy(first.value.value) && !(quantified && Filled(first.value.rest)))
                  ==> r == Ok(Consumed(first.value.rest, [first.value.value], 1)))
            && (r.Ok? && |r.value.values| > 0 ==> first.Ok? && r.value.values[0] == first.value.value)
    ensures r.Ok? ==> 1 <= r.value.calls && (!quantified ==> r.value.calls == 1 && |r.value.values| <= 1)
    ensures r.Ok? ==> forall i :: 0 <= i < |r.value.values| ==> Truthy(r.value.values[i])
    // every call but possibly the last one committed a value
    ensures r.Ok? ==> |r.value.values| == r.value.calls || |r.value.values| + 1 == r.value.calls
    // the loop stopped on a falsy value: calling again on what is left gives that value again
    ensures r.Ok? && |r.value.values| < r.value.calls
            ==> var again := Consumers.Run(c, r.value.subject, params); again.Ok? && !Truthy(again.value.value)
    // the loop stopped because the condition failed: nothing left to consume, or no quantifier
    ensures r.Ok? && |r.value.values| == r.value.calls && quantified ==> !Filled(r.value.subject)
    decreases if Filled(subject) then 0 else 1, if subject.Some? then |subject.value| else 0
  {
    var step :- Consumers.Run(c, subject, params);
    if !Truthy(step.value) then Ok(Consumed(subject, [], 1))
    else if quantified && Filled(step.rest) then
      CommitShrinks(c, params, subject);
      var more :- ConsumeLoop(c, params, quantified, step.rest);
      Ok(Consumed(more.subject, [step.value] + more.values, more.calls + 1))
    else Ok(Consumed(step.rest, [step.value], 1))
  }

  /**
   * A commit that leaves a non-empty subject sends a quantified loop round again:
   * the loop's values are the committed one followed by those of the loop on the
   * remainder.
   */
  lemma LoopContinues(c: Consumers.Consumer, params: Params, s: string, s1: string, v: Datum, more: Consumed)
    requires c.CallerConsumer? ==> Consumers.Shrinks(c, params)
    requires s1 != "" && Truthy(v)
    requires Consumers.Run(c, Some(s), params) == Ok(Consumers.Step(Some(s1), v))
    requires ConsumeLoop(c, params, true, Some(s1)) == Ok(more)
    ensures var r := ConsumeLoop(c, params, true, Some(s));
            && r.Ok? && r.value.subject == more.subject && r.value.values == [v] + more.values
            && r.value.calls == more.calls + 1
  {
  }

  /** A commit on a non-empty subject shortens it: always for a built-in splitter, by demand for a caller's consumer. */
  lemma CommitShrinks(c: Consumers.Consumer, params: Params, subject: Option<string>)
    requires c.CallerConsumer? ==> Consumers.Shrinks(c, params)
    ensures Filled(subject) ==> Consumers.ShrinkStep(Consumers.Run(c, subject, params), subject.value)
  {
    if Filled(subject) && !c.CallerConsumer? {
      Consumers.BuiltinShrinks(c, params, subject.value);
    }
  }

  // ------------------------------------------------------------ termination

  /**
   * Every quantified instruction, at every depth of alias nesting, whose consumer
   * the caller supplied has one that shortens the subject whenever it records a value.
   */
  ghost predicate Halts(composed: Composed)
    decreases composed
  {
    forall i :: 0 <= i < |composed.instructions| ==>
      var ins := composed.instructions[i];
      && ((ins.target.Consume? && ins.token.quantifier && ins.target.consumer.CallerConsumer?)
            ==> Consumers.Shrinks(ins.target.consumer, ins.token.params))
      && (ins.target.Nested? ==> Halts(ins.target.tokens))
  }

  // ------------------------------------------------------------ instructions

  /** The state of the container an alias instruction detached, and the container its digest returned. */
  datatype Outcome = Outcome(own: Container, result: Container)

  /**
   * One instruction of `digestInstructions`. A consumer instruction runs its loop
   * on the subject. An alias instruction digests the alias pattern on a detached
   * child over the same subject, records everything the child then holds and
   * takes over the child's subject; the container the child's digest returned is
   * dropped. Either way exactly one item, named `alias || name`, is pushed.
   */
  function DigestInstruction(box: Container, composed: Composed, i: nat): (r: Result<Container>)
    requires i < |composed.instructions| && Halts(composed)
    ensures r.Ok? ==> var tok := composed.instructions[i].token;
            && r.value.status == box.status
            && |r.value.items| == |box.items| + 1
            && r.value.items[..|box.items|] == box.items
            && r.value.items[|box.items|].name == ItemName(tok)
            && r.value.items[|box.items|].values.Some?
    ensures var ins := composed.instructions[i]; ins.target.Consume? ==>
            var run := ConsumeLoop(ins.target.consumer, ins.token.params, ins.token.quantifier, box.subject);
            && (r.Ok? <==> run.Ok?)
            && (r.Ok? ==> r.value.subject == run.value.subject && r.value.items[|box.items|].values == Some(run.value.values))
    ensures var ins := composed.instructions[i]; ins.target.Nested? ==>
            var child := Digest(Detach(box), ins.target.tokens);
            && (r.Ok? <==> child.Ok?)
            && (r.Ok? ==> r.value.subject == child.value.own.subject
                          && r.value.items[|box.items|].values == Some(Unpack(child.value.own)))
    decreases composed, 0, 0
  {
    var ins := composed.instructions[i];
    match ins.target
    case Consume(consumer) =>
      var run :- ConsumeLoop(consumer, ins.token.params, ins.token.quantifier, box.subject);
      Ok(Push(box.(subject := run.subject), ItemName(ins.token), run.values))
    case Nested(tokens) =>
      var child :- Digest(Detach(box), tokens);
      Ok(Push(Attach(box, child.own), ItemName(ins.token), Unpack(child.own)))
  }

  /**
   * The items from position `base` on are one per instruction from `from` on,
   * named `alias || name`, in instruction order.
   */
  predicate PushedInOrder(items: seq<Item>, base: nat, composed: Composed, from: nat)
    requires from <= |composed.instructions|
  {
    && |items| == base + |composed.instructions| - from
    && forall j :: base <= j < |items| ==> items[j].name == ItemName(composed.instructions[from + j - base].token)
  }

  lemma PushedInOrderStep(box: seq<Item>, next: seq<Item>, items: seq<Item>, composed: Composed, from: nat)
    requires from < |composed.instructions|
    requires |next| == |box| + 1 && next[..|box|] == box && next[|box|].name == ItemName(composed.instructions[from].token)
    requires |items| >= |next| && items[..|next|] == next && PushedInOrder(items, |next|, composed, from + 1)
    ensures items[..|box|] == box && PushedInOrder(items, |box|, composed, from)
  {
    assert items[..|box|] == items[..|next|][..|box|];
    assert items[|box|] == next[|box|];
  }

  /**
   * `digestInstructions` from instruction `from` on: one item pushed per
   * instruction, in instruction order, after the items already there.
   */
  function DigestInstructions(box: Container, composed: Composed, from: nat): (r: Result<Container>)
    requires from <= |composed.instructions| && Halts(composed)
    ensures r.Ok? ==> && r.value.status == box.status
                      && |r.value.items| >= |box.items|
                      && r.value.items[..|box.items|] == box.items
                      && PushedInOrder(r.value.items, |box.items|, composed, from)
    ensures from == |composed.instructions| ==> r == Ok(box)
    decreases composed, 0, |composed.instructions| - from
  {
    if from == |composed.instructions| then Ok(box)
    else
      var next :- DigestInstruction(box, composed, from);
      var r := DigestInstructions(next, composed, from + 1);
      if r.Err? then r
      else
        PushedInOrderStep(box.items, next.items, r.value.items, composed, from);
        r
  }

  // --------------------------------------------------------------- modifiers

  /**
   * Where a modifier run stands: the state of the container the instructions
   * filled, and the container last returned when that is a different one.
   */
  datatype View = View(own: Container, current: Option<Container>)

  /** The container the next modifier is called on. */
  function Receiver(v: View): Container {
    if v.current.Some? then v.current.value else v.own
  }

  /**
   * `container = modifier(container)`: the next modifier receives what this one
   * returned. The container the instructions filled changes only while it is the
   * one being passed along.
   */
  function Take(v: View, a: Modifiers.Applied): (w: View)
    ensures Receiver(w) == Modifiers.Returned(a)
    ensures v.current.Some? ==> w.own == v.own
    ensures v.current.None? ==> w.own == if a.InPlace? then a.container else a.receiver
    ensures w.current.None? <==> v.current.None? && a.InPlace?
  {
    if v.current.None? then
      match a
      case InPlace(c) => View(c, None)
      case Replaced(receiver, replacement) => View(receiver, Some(replacement))
    else View(v.own, Some(Modifiers.Returned(a)))
  }

  /** `digestModifiers`: the tokens of one group, in order, each receiving what the previous one returned. */
  function DigestModifiers(v: View, toks: seq<ModifierToken>): (r: Result<View>)
    ensures toks == [] ==> r == Ok(v)
    ensures r.Ok? && v.current.Some? ==> r.value.own == v.own && r.value.current.Some?
    decreases |toks|
  {
    if toks == [] then Ok(v)
    else
      var a :- Modifiers.Apply(toks[0].modifier, Receiver(v), toks[0].token.params);
      DigestModifiers(Take(v, a), toks[1..])
  }

  /** The loop of `digest` over the modifier groups. */
  function DigestGroups(v: View, groups: seq<seq<ModifierToken>>): (r: Result<View>)
    ensures groups == [] ==> r == Ok(v)
    ensures r.Ok? && v.current.Some? ==> r.value.own == v.own && r.value.current.Some?
    decreases |groups|
  {
    if groups == [] then Ok(v)
    else
      var w :- DigestModifiers(v, groups[0]);
      DigestGroups(w, groups[1..])
  }

  /** All groups, one after another. */
  function Concat(groups: seq<seq<ModifierToken>>): (toks: seq<ModifierToken>)
    ensures groups == [] ==> toks == []
  {
    if groups == [] then [] else groups[0] + Concat(groups[1..])
  }

  /** Running two token lists one after the other is running them joined. */
  lemma {:induction false} ModifiersAppend(v: View, a: seq<ModifierToken>, b: seq<ModifierToken>)
    ensures DigestModifiers(v, a + b)
         == match DigestModifiers(v, a) case Err(e) => Err(e) case Ok(w) => DigestModifiers(w, b)
    decreases |a|
  {
    if a == [] {
      assert a + b == b;
    } else {
      assert (a + b)[0] == a[0];
      assert (a + b)[1..] == a[1..] + b;
      var r := Modifiers.Apply(a[0].modifier, Receiver(v), a[0].token.params);
      if r.Ok? {
        ModifiersAppend(Take(v, r.value), a[1..], b);
      }
    }
  }

  /**
   * The group boundaries carry no meaning of their own: the groups run as one
   * list of modifiers, in group order and token order.
   */
  lemma {:induction false} GroupsAreOneRun(v: View, groups: seq<seq<ModifierToken>>)
    ensures DigestGroups(v, groups) == DigestModifiers(v, Concat(groups))
    decreases |groups|
  {
    if groups != [] {
      ModifiersAppend(v, groups[0], Concat(groups[1..]));
      var w := DigestModifiers(v, groups[0]);
      if w.Ok? {
        GroupsAreOneRun(w.value, groups[1..]);
      }
    }
  }

  /** The built-in modifiers never change the subject, of either container. */
  predicate BuiltinModifiers(toks: seq<ModifierToken>) {
    forall i :: 0 <= i < |toks| ==> !toks[i].modifier.CallerModifier?
  }

  lemma {:induction false} BuiltinModifiersKeepSubject(v: View, toks: seq<ModifierToken>)
    requires BuiltinModifiers(toks) && (v.current.Some? ==> v.current.value.subject == v.own.subject)
    ensures var r := DigestModifiers(v, toks);
            r.Ok? ==> r.value.own.subject == v.own.subject && Receiver(r.value).subject == v.own.subject
    decreases |toks|
  {
    if toks != [] {
      var a := Modifiers.Apply(toks[0].modifier, Receiver(v), toks[0].token.params);
      if a.Ok? {
        BuiltinModifiersKeepSubject(Take(v, a.value), toks[1..]);
      }
    }
  }

  // ------------------------------------------------------------------ digest

  /** The final status: success exactly when the subject is `undefined`, so an empty string fails. */
  function Settle(c: Container): (r: Container)
    ensures r.subject == c.subject && r.items == c.items
    ensures r.status == Success <==> c.subject.None?
    ensures r.status == Failure <==> c.subject.Some?
  {
    c.(status := if c.subject.None? then Success else Failure)
  }

  /**
   * `digest`: the instructions, then the modifier groups, then the status, which is
   * set on the container the last modifier returned.
   */
  function Digest(box: Container, composed: Composed): (r: Result<Outcome>)
    requires Halts(composed)
    ensures r.Ok? ==> r.value.result.status != Pending
    ensures r.Ok? ==> (r.value.result.status == Success <==> r.value.result.subject.None?)
    ensures r.Ok? && composed.modifiers == [] ==>
            && r.value.own == r.value.result
            && |r.value.own.items| >= |box.items|
            && r.value.own.items[..|box.items|] == box.items
            && PushedInOrder(r.value.own.items, |box.items|, composed, 0)
    decreases composed, 1
  {
    var filled :- DigestInstructions(box, composed, 0);
    var v :- DigestGroups(View(filled, None), composed.modifiers);
    if v.current.None? then
      var settled := Settle(v.own);
      Ok(Outcome(settled, settled))
    else
      Ok(Outcome(v.own, Settle(v.current.value)))
  }

  /** The function returned by the digester closure: a new container over the line, digested. */
  function DigestLine(composed: Composed, line: string): (r: Result<Container>)
    requires Halts(composed)
    ensures r.Ok? ==> (r.value.status == Success <==> r.value.subject.None?)
    ensures r.Ok? && composed.modifiers == [] ==>
            |r.value.items| == |composed.instructions|
            && forall j :: 0 <= j < |r.value.items| ==> r.value.items[j].name == ItemName(composed.instructions[j].token)
  {
    var out :- Digest(Fresh(Some(line)), composed);
    Ok(out.result)
  }

  /**
   * With no instructions and only built-in modifiers nothing consumes the line,
   * so it fails, the empty line included.
   */
  lemma NothingConsumedFails(modifiers: seq<seq<ModifierToken>>, line: string)
    requires forall g :: 0 <= g < |modifiers| ==> BuiltinModifiers(modifiers[g])
    ensures var r := DigestLine(Composed([], modifiers), line);
            r.Ok? ==> r.value.status == Failure && r.value.subject == Some(line)
  {
    var composed := Composed([], modifiers);
    var v := View(Fresh(Some(line)), None);
    GroupsAreOneRun(v, modifiers);
    ConcatBuiltin(modifiers);
    BuiltinModifiersKeepSubject(v, Concat(modifiers));
  }

  lemma {:induction false} ConcatBuiltin(groups: seq<seq<ModifierToken>>)
    requires forall g :: 0 <= g < |groups| ==> BuiltinModifiers(groups[g])
    ensures BuiltinModifiers(Concat(groups))
    decreases |groups|
  {
    if groups != [] {
      ConcatBuiltin(groups[1..]);
      assert BuiltinModifiers(groups[0]);
    }
  }

  // ---------------------------------------------------------------- examples

  /**
   * `skip*` on two words: both are recorded, and the subject ends as the empty
   * string rather than `undefined`.
   */
  lemma SkipTwoWords(w1: string, w2: string, params: Params)
    requires |w1| > 0 && Consumers.AllWord(w1) && |w2| > 0 && Consumers.AllWord(w2)
    ensures ConsumeLoop(Consumers.SkipConsumer, params, true, Some(w1 + " " + w2))
         == Ok(Consumed(Some(""), [Text(w1), Text(w2)], 2))
  {
    FirstSkip(w1, w2);
    LastSkip(w2);
    TwoCommits(params, w1 + " " + w2, w2, Text(w1), Text(w2));
  }

  /** `skip` on `w1 w2` takes `w1` and leaves `w2`. */
  lemma FirstSkip(w1: string, w2: string)
    requires |w1| > 0 && Consumers.AllWord(w1) && |w2| > 0 && Consumers.AllWord(w2)
    ensures Consumers.ConsumeSkip(Some(w1 + " " + w2)) == Ok(Consumers.Step(Some(w2), Text(w1)))
  {
    Consumers.SkipSplits(w1, " " + w2);
    assert w1 + " " + w2 == w1 + (" " + w2);
    SpaceThenWord(w2);
  }

  /** `skip` on a lone word takes it and leaves the empty string. */
  lemma LastSkip(w: string)
    requires |w| > 0 && Consumers.AllWord(w)
    ensures Consumers.ConsumeSkip(Some(w)) == Ok(Consumers.Step(Some(""), Text(w)))
  {
    Consumers.SkipSplits(w, "");
    assert w + "" == w;
  }

  lemma SpaceThenWord(w: string)
    requires |w| > 0 && Consumers.AllWord(w)
    ensures Chars.Trim(Consumers.LineFrom(" " + w, 0)) == w
  {
    var s := " " + w;
    assert s[1..] == w;
    assert forall i :: 0 <= i < |s| ==> !Chars.IsLineTerminator(s[i]);
    assert Chars.LineEnd(s, 0) == |s|;
    assert Consumers.LineFrom(s, 0) == s;
    assert Chars.Span(w, Chars.IsSpace) == 0;
    assert Chars.Span(s, Chars.IsSpace) == 1;
    assert Chars.SpanBack(w, Chars.IsSpace) == 0;
    assert w[..|w|] == w;
  }

  /** Two commits by `skip`, the second leaving the empty string, end a quantified loop. */
  lemma TwoCommits(params: Params, s: string, s1: string, v1: Datum, v2: Datum)
    requires s != "" && s1 != "" && Truthy(v1) && Truthy(v2)
    requires Consumers.ConsumeSkip(Some(s)) == Ok(Consumers.Step(Some(s1), v1))
    requires Consumers.ConsumeSkip(Some(s1)) == Ok(Consumers.Step(Some(""), v2))
    ensures ConsumeLoop(Consumers.SkipConsumer, params, true, Some(s)) == Ok(Consumed(Some(""), [v1, v2], 2))
  {
    assert Consumers.Run(Consumers.SkipConsumer, Some(s), params) == Ok(Consumers.Step(Some(s1), v1));
    assert Consumers.Run(Consumers.SkipConsumer, Some(s1), params) == Ok(Consumers.Step(Some(""), v2));
    CommitsThenEmpty(Consumers.SkipConsumer, params, s, s1, v1, v2);
  }

  /** Two commits by any consumer, the second leaving the empty string, end a quantified loop. */
  lemma CommitsThenEmpty(c: Consumers.Consumer, params: Params, s: string, s1: string, v1: Datum, v2: Datum)
    requires c.CallerConsumer? ==> Consumers.Shrinks(c, params)
    requires s1 != "" && Truthy(v1) && Truthy(v2)
    requires Consumers.Run(c, Some(s), params) == Ok(Consumers.Step(Some(s1), v1))
    requires Consumers.Run(c, Some(s1), params) == Ok(Consumers.Step(Some(""), v2))
    ensures ConsumeLoop(c, params, true, Some(s)) == Ok(Consumed(Some(""), [v1, v2], 2))
  {
    LastCommit(c, params, s1, v2);
    LoopContinues(c, params, s, s1, v1, Consumed(Some(""), [v2], 1));
    assert [v1] + [v2] == [v1, v2];
  }

  /** A commit that leaves the empty string ends a quantified loop after one call. */
  lemma LastCommit(c: Consumers.Consumer, params: Params, s1: string, v2: Datum)
    requires c.CallerConsumer? ==> Consumers.Shrinks(c, params)
    requires Truthy(v2)
    requires Consumers.Run(c, Some(s1), params) == Ok(Consumers.Step(Some(""), v2))
    ensures ConsumeLoop(c, params, true, Some(s1)) == Ok(Consumed(Some(""), [v2], 1))
  {
  }

  /** The one-instruction pattern `skip*`. */
  function SkipAll(): Composed {
    Composed([Instruction(Token("skip", None, None, true), Consume(Consumers.SkipConsumer))], [])
  }

  /**
   * `skip*` over two words records both under "skip", yet the line fails: the
   * remainder after the last word is the empty string, not `undefined`.
   */
  lemma SkipLineFails(w1: string, w2: string)
    requires |w1| > 0 && Consumers.AllWord(w1) && |w2| > 0 && Consumers.AllWord(w2)
    ensures DigestLine(SkipAll(), w1 + " " + w2)
         == Ok(Container(Some(""), [Item("skip", Some([Text(w1), Text(w2)]))], Failure))
  {
    SkipTwoWords(w1, w2, None);
  }

  /** The pattern `tuple`, and an instruction `kv:pair` whose alias pattern is it. */
  function TupleOnly(): Composed {
    Composed([Instruction(Token("tuple", None, None, false), Consume(Consumers.TupleConsumer))], [])
  }

  function PairViaAlias(): Composed {
    Composed([Instruction(Token("kv", None, Some("pair"), false), Nested(TupleOnly()))], [])
  }

  /**
   * An alias instruction records what its child recorded, under its own name:
   * the child's "tuple" item does not appear in the parent, and the parent takes
   * over the child's `undefined` subject, so the line succeeds.
   */
  lemma AliasLineSucceeds(k: string, v: string)
    requires |k| > 0 && Consumers.AllWord(k)
    requires |v| == 0 || v[0] != '"'
    requires Consumers.NoLineTerminator(v)
    requires forall i :: 0 <= i < |v| ==> v[i] != ','
    ensures DigestLine(PairViaAlias(), k + "=" + v)
         == Ok(Container(None, [Item("pair", Some([Pair(k, v)]))], Success))
  {
    Consumers.TupleAtEnd(k, v);
    var inner := DigestLine(TupleOnly(), k + "=" + v);
    assert inner == Ok(Container(None, [Item("tuple", Some([Pair(k, v)]))], Success));
    UnpackPack(inner.value, "tuple", Some([Pair(k, v)]));
    assert Pack(inner.value, "tuple", Some([Pair(k, v)])) == inner.value;
  }

  /**
   * A lone `values(n)` modifier hands a new container on: the status is set on
   * that one, which holds only the "values" item, while the container the
   * instructions filled keeps its items and its pending status.
   */
  lemma ValuesHandsOver(box: Container, instructions: seq<Instruction>, tok: Token, n: string)
    requires tok.params == Some([Str(n)])
    requires Halts(Composed(instructions, [[ModifierToken(tok, Modifiers.ValuesModifier)]]))
    ensures var composed := Composed(instructions, [[ModifierToken(tok, Modifiers.ValuesModifier)]]);
            var r := Digest(box, composed);
            var filled := DigestInstructions(box, composed, 0);
            r.Ok? ==> && r.value.own == filled.value
                      && r.value.own.status == box.status
                      && r.value.result.items == [Item("values", Find(filled.value, n))]
                      && r.value.result.subject == filled.value.subject
                      && (r.value.result.status == Success <==> filled.value.subject.None?)
  {
  }
}
