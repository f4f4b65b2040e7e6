/**
 * The composer: tokenizes a pattern and resolves every instruction name to a
 * consumer or, failing that, to an alias pattern composed in turn, and every
 * modifier name to a modifier.
 */
module Composer {
  import opened Outcomes
  import opened Tokenizer
  import Consumers
  import Modifiers

  /** What an instruction runs: a consumer, or the composed pattern of an alias. */
  datatype Target = Consume(consumer: Consumers.Consumer) | Nested(tokens: Composed)

  datatype Instruction = Instruction(token: Token, target: Target)

  datatype ModifierToken = ModifierToken(token: Token, modifier: Modifiers.Modifier)

  datatype Composed = Composed(instructions: seq<Instruction>, modifiers: seq<seq<ModifierToken>>)

  /** What the caller supplies: alias patterns and extra consumers and modifiers. */
  datatype Options = Options(
    aliases: map<string, string>,
    consumers: map<string, Consumers.Consumer>,
    modifiers: map<string, Modifiers.Modifier>)

  /** The lookup tables the composer resolves names in. */
  datatype Tables = Tables(
    aliases: map<string, string>,
    consumers: map<string, Consumers.Consumer>,
    modifiers: map<string, Modifiers.Modifier>)

  /**
   * `consumerSet` and `modifierSet`: the caller's entries spread first and the
   * built-ins after them, so on a clash the built-in one is kept.
   */
  function Merge(options: Options, datetime: Consumers.Consumer): (t: Tables)
    ensures t.aliases == options.aliases
    ensures t.consumers.Keys == options.consumers.Keys + Consumers.Builtins(datetime).Keys
    ensures t.modifiers.Keys == options.modifiers.Keys + Modifiers.Builtins().Keys
  {
    Tables(options.aliases, options.consumers + Consumers.Builtins(datetime), options.modifiers + Modifiers.Builtins())
  }

  /** Built-ins win a name clash; any other name keeps the caller's entry. */
  lemma BuiltinsWin(options: Options, datetime: Consumers.Consumer, name: string)
    ensures var t := Merge(options, datetime); var b := Consumers.Builtins(datetime);
            && (name in b ==> t.consumers[name] == b[name])
            && (name !in b && name in options.consumers ==> t.consumers[name] == options.consumers[name])
    ensures var t := Merge(options, datetime); var b := Modifiers.Builtins();
            && (name in b ==> t.modifiers[name] == b[name])
            && (name !in b && name in options.modifiers ==> t.modifiers[name] == options.modifiers[name])
  {
  }

  /** A name has an alias when the alias table maps it to a non-empty pattern. */
  predicate HasAlias(t: Tables, name: string) {
    name in t.aliases && t.aliases[name] != ""
  }

  /**
   * `mapInstruction`: a consumer of that name, even if an alias of the same name
   * exists; otherwise the alias pattern, composed; otherwise an error naming the
   * token. Alias expansion is bounded by `fuel` (the source recurses without bound).
   */
  function MapInstruction(tok: Token, t: Tables, fuel: nat): (r: Result<Instruction>)
    ensures r.Ok? ==> r.value.token == tok
    ensures tok.name in t.consumers ==> r == Ok(Instruction(tok, Consume(t.consumers[tok.name])))
    ensures tok.name !in t.consumers && !HasAlias(t, tok.name) ==> r == Err(NoConsumer(tok.name))
    ensures r.Ok? && r.value.target.Nested? ==> tok.name !in t.consumers && HasAlias(t, tok.name)
    ensures tok.name !in t.consumers && HasAlias(t, tok.name) && fuel == 0 ==> r == Err(StackOverflow(tok.name))
    decreases fuel, 0
  {
    if tok.name in t.consumers then Ok(Instruction(tok, Consume(t.consumers[tok.name])))
    else if HasAlias(t, tok.name) then
      if fuel == 0 then Err(StackOverflow(tok.name))
      else
        var tokens :- Compose(t.aliases[tok.name], t, fuel - 1);
        Ok(Instruction(tok, Nested(tokens)))
    else
      Err(NoConsumer(tok.name))
  }

  /**
   * The alias branch of `mapInstruction`: a name that no consumer claims and that
   * has an alias resolves to the alias pattern composed in turn, with the same
   * tables and one step less of fuel; the nested instructions are the tokens of
   * that pattern. A failure inside the alias is the failure of the instruction.
   */
  lemma AliasComposes(tok: Token, t: Tables, fuel: nat)
    requires tok.name !in t.consumers && HasAlias(t, tok.name) && fuel > 0
    ensures var r := MapInstruction(tok, t, fuel); var nested := Compose(t.aliases[tok.name], t, fuel - 1);
            && (r.Ok? <==> nested.Ok?)
            && (r.Ok? ==> r.value == Instruction(tok, Nested(nested.value)))
            && (r.Err? ==> r.error == nested.error)
    ensures var r := MapInstruction(tok, t, fuel);
            r.Ok? ==> && r.value.target.Nested? && Tokenize(t.aliases[tok.name]).Ok?
                      && Shape(r.value.target.tokens) == Tokenize(t.aliases[tok.name]).value
  {
  }

  /**
   * `xs.map(f)` where `f` may throw: every result in order when no element fails,
   * otherwise the failure of the first element that fails.
   */
  function MapAll<A, B>(xs: seq<A>, f: A -> Result<B>): (r: Result<seq<B>>)
    ensures r.Ok? <==> forall i :: 0 <= i < |xs| ==> f(xs[i]).Ok?
    ensures r.Ok? ==> |r.value| == |xs| && forall i :: 0 <= i < |xs| ==> Ok(r.value[i]) == f(xs[i])
    ensures r.Err? ==> exists i :: && 0 <= i < |xs| && f(xs[i]) == Err(r.error)
                                   && forall j :: 0 <= j < i ==> f(xs[j]).Ok?
  {
    if xs == [] then Ok([])
    else
      var first :- f(xs[0]);
      var rest := MapAll(xs[1..], f);
      if rest.Err? then
        var i :| && 0 <= i < |xs[1..]| && f(xs[1..][i]) == Err(rest.error)
                 && forall j :: 0 <= j < i ==> f(xs[1..][j]).Ok?;
        assert forall j :: 1 <= j < |xs| ==> xs[j] == xs[1..][j - 1];
        assert f(xs[i + 1]) == Err(rest.error);
        Err(rest.error)
      else
        assert forall i :: 1 <= i < |xs| ==> xs[i] == xs[1..][i - 1];
        Ok([first] + rest.value)
  }

  /** `instructions.map(mapInstruction)`: one instruction per token, in order; the first failure wins. */
  function MapInstructions(toks: seq<Token>, t: Tables, fuel: nat): (r: Result<seq<Instruction>>)
    ensures r.Ok? ==> |r.value| == |toks| && forall i :: 0 <= i < |toks| ==> r.value[i].token == toks[i]
    ensures r.Ok? <==> forall i :: 0 <= i < |toks| ==> MapInstruction(toks[i], t, fuel).Ok?
    ensures r.Ok? ==> forall i :: 0 <= i < |toks| ==> Ok(r.value[i]) == MapInstruction(toks[i], t, fuel)
    ensures r.Err? ==> exists i :: && 0 <= i < |toks| && MapInstruction(toks[i], t, fuel) == Err(r.error)
                                   && forall j :: 0 <= j < i ==> MapInstruction(toks[j], t, fuel).Ok?
    decreases fuel, 1
  {
    MapAll(toks, tok => MapInstruction(tok, t, fuel))
  }

  /** `mapModifiers`: the modifier of that name, or an error naming the token. */
  function MapModifier(tok: Token, t: Tables): (r: Result<ModifierToken>)
    ensures r.Ok? <==> tok.name in t.modifiers
    ensures r.Ok? ==> r.value == ModifierToken(tok, t.modifiers[tok.name])
    ensures r.Err? ==> r.error == NoModifier(tok.name)
  {
    if tok.name in t.modifiers then Ok(ModifierToken(tok, t.modifiers[tok.name]))
    else Err(NoModifier(tok.name))
  }

  /** One modifier group, token by token; the first unknown name is the one reported. */
  function MapGroup(toks: seq<Token>, t: Tables): (r: Result<seq<ModifierToken>>)
    ensures r.Ok? <==> forall i :: 0 <= i < |toks| ==> toks[i].name in t.modifiers
    ensures r.Ok? ==> |r.value| == |toks|
    ensures r.Ok? ==> forall i :: 0 <= i < |toks| ==> r.value[i] == ModifierToken(toks[i], t.modifiers[toks[i].name])
    ensures r.Err? ==> exists i :: && 0 <= i < |toks| && toks[i].name !in t.modifiers && r.error == NoModifier(toks[i].name)
                                   && forall j :: 0 <= j < i ==> toks[j].name in t.modifiers
  {
    MapAll(toks, tok => MapModifier(tok, t))
  }

  /** Every modifier group maps one-to-one, in order; the first failing group is the one reported. */
  function MapGroups(groups: seq<seq<Token>>, t: Tables): (r: Result<seq<seq<ModifierToken>>>)
    ensures r.Ok? <==> forall g :: 0 <= g < |groups| ==> MapGroup(groups[g], t).Ok?
    ensures r.Ok? ==> |r.value| == |groups| && forall g :: 0 <= g < |groups| ==> Ok(r.value[g]) == MapGroup(groups[g], t)
    ensures r.Err? ==> exists g :: && 0 <= g < |groups| && MapGroup(groups[g], t) == Err(r.error)
                                   && forall h :: 0 <= h < g ==> MapGroup(groups[h], t).Ok?
  {
    MapAll(groups, g => MapGroup(g, t))
  }

  /** The tokens a composed pattern was built from, with the resolved targets forgotten. */
  function Shape(c: Composed): Expression {
    Expression(
      seq(|c.instructions|, i requires 0 <= i < |c.instructions| => c.instructions[i].token),
      seq(|c.modifiers|, g requires 0 <= g < |c.modifiers| =>
        seq(|c.modifiers[g]|, j requires 0 <= j < |c.modifiers[g]| => c.modifiers[g][j].token)))
  }

  /**
   * The mapping half of `compose`: every name of a tokenized pattern resolved.
   * It keeps the structure: forgetting what each name resolved to gives back the tokens.
   */
  function ComposeExpression(e: Expression, t: Tables, fuel: nat): (r: Result<Composed>)
    ensures r.Ok? ==> Shape(r.value) == e
    ensures r.Ok? <==> MapInstructions(e.instructions, t, fuel).Ok? && MapGroups(e.modifiers, t).Ok?
    ensures r.Ok? ==> && (forall i :: 0 <= i < |e.instructions| ==>
                           Ok(r.value.instructions[i]) == MapInstruction(e.instructions[i], t, fuel))
                      && (forall g :: 0 <= g < |e.modifiers| ==> Ok(r.value.modifiers[g]) == MapGroup(e.modifiers[g], t))
    ensures MapInstructions(e.instructions, t, fuel).Err? ==> r == Err(MapInstructions(e.instructions, t, fuel).error)
    ensures MapInstructions(e.instructions, t, fuel).Ok? && MapGroups(e.modifiers, t).Err? ==>
              r == Err(MapGroups(e.modifiers, t).error)
    decreases fuel, 2
  {
    var instructions :- MapInstructions(e.instructions, t, fuel);
    var modifiers :- MapGroups(e.modifiers, t);
    var c := Composed(instructions, modifiers);
    assert Shape(c).instructions == e.instructions;
    assert Shape(c).modifiers == e.modifiers by {
      forall g | 0 <= g < |e.modifiers|
        ensures Shape(c).modifiers[g] == e.modifiers[g]
      {
        assert Ok(modifiers[g]) == MapGroup(e.modifiers[g], t);
      }
    }
    Ok(c)
  }

  /**
   * `compose`: tokenize the pattern, then resolve the instructions and the
   * modifier groups, in that order, so the first failure is the one reported.
   */
  function Compose(query: string, t: Tables, fuel: nat): (r: Result<Composed>)
    ensures r.Ok? ==> Tokenize(query).Ok? && Shape(r.value) == Tokenize(query).value
    ensures Tokenize(query).Err? ==> r == Err(Grammar("key"))
    decreases fuel, 3
  {
    var e :- Tokenize(query);
    ComposeExpression(e, t, fuel)
  }
}
