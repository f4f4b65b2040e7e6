# blck extraction engine, modelled in Dafny

blck extracts structured values from log lines with grok-style patterns such as
`date string:machine tuple* | join(",")`. A pattern has two parts:

- Instructions: the part before the first `|`. Each one is a consumer name with
  optional arguments, an optional `:alias` and an optional `*` quantifier.
- Modifier groups: the parts after each `|`.

Processing a line has four stages:

1. The **tokenizer** parses the pattern into tokens.
2. The **composer** resolves each instruction to a consumer. Failing that, it
   resolves the instruction to an alias pattern, which it composes in turn. It
   resolves each modifier to a modifier function.
3. The **digester** runs the composed pattern over one line. Each instruction's
   consumer splits values off the front of the subject, and the instruction
   pushes one named item into a **container**. The modifiers then transform the
   container.
4. The status records whether the subject was used up.

The model covers:

- The tokenizer: `cast`, the grammar from `key` to `expression`, and
  `packFunction`/`packExpression`.
- A printer that is the inverse of the tokenizer's grammar: every printable
  expression reads back exactly as it was printed.
- The container operations.
- The built-in consumers `string`, `skip` and `tuple`.
- The built-in modifiers `join` and `values`.
- The composer.
- The digester, including the `do … while` consumer loop, alias nesting and
  modifier threading.

The model is written as pure functions over immutable datatypes. JavaScript
mutates containers in place, and sometimes keeps using an object after passing
it on. Where it does, the model returns that object's state alongside the
result:

- the detached child of an alias instruction;
- the receiver of a modifier that returns a different container.

| file | module | models |
|---|---|---|
| outcomes.dfy | Outcomes | `Option`, `Result` and the error kinds: grammar, missing consumer or modifier, thrown exception |
| chars.dfy | Chars | regex character classes, `trim`, decimal text of integers |
| tokenizer.dfy | Tokenizer | `src/tokenizer.ts` |
| printer.dfy | TokenPrinter | a printer for tokens, and the round trips through the grammar |
| containers.dfy | Containers | `src/container.ts` |
| consumers.dfy | Consumers | `src/consumers.ts` (`string`, `skip`, `tuple`) |
| modifiers.dfy | Modifiers | `src/modifiers.ts` |
| composer.dfy | Composer | `src/composer.ts` |
| digester.dfy | Digester | `src/digester.ts` |

The model follows the code. Some behaviours of the code a reader may not expect:

- Quoted argument values are cast like bare ones, so `"12"` is the number 12 and
  `"true"` is the boolean true.
- Built-in consumers and modifiers override caller-supplied ones of the same
  name, because the spread puts the built-ins last.
- Whitespace between funcs and around `|` is optional, because the `space` rule
  is `optional`.
- An unmatched parenthesis does not fail a pattern. The parser stops before the
  `(` and the rest of the pattern is ignored.
- `skip` splits off a run of word characters, not a whitespace-delimited token.
- An empty-string remainder counts as failure, because the check is
  `subject == undefined`. So `skip*` over a whole line still fails: it leaves
  `""` behind (`Digester.SkipLineFails`).
- Each `|` segment forms exactly one modifier group, holding all the funcs of that
  segment in order.

## Model

| member | source | states |
|---|---|---|
| Tokenizer.CastClassifies | src/tokenizer.ts:46-69 | `''` gives null; exactly `true`/`false` give booleans; exactly the `^-?\d+$` texts give integers and the `^-?\d*\.\d+$` texts decimals; every other text stays the same string |
| Tokenizer.CastShowInt | src/tokenizer.ts:59-61 | the decimal text of every integer casts back to that integer |
| Tokenizer.ParseKey | src/tokenizer.ts:81-111 | `key` succeeds iff the input starts with a letter; it splits the input into key and rest, and takes as many characters as possible |
| Tokenizer.KeyRoundTrip | src/tokenizer.ts:99-111 | a key followed by text that starts no character token is read back exactly |
| Tokenizer.ParseLiteral | src/tokenizer.ts:112-116 | `literal` succeeds iff the input starts with `"` and a closing quote follows on the same line; the result is the text between the quotes |
| Tokenizer.LiteralRoundTrip | src/tokenizer.ts:112-116 | quote-free single-line text between quotes reads back without its quotes, whatever follows |
| Tokenizer.ParseValue | src/tokenizer.ts:117-136 | `value` always yields an argument and never grows the input; an unquoted value that reads as null consumes nothing |
| Tokenizer.ValueReads | src/tokenizer.ts:117-136 | `value` reads a literal closed on its line as the text between the quotes, cast, and resumes after the closing quote; otherwise it reads the longest run of `character` tokens and casts it, leaving a rest that starts no such token; text that starts with none (`!@#`) reads as null and stays in place |
| Tokenizer.QuotedCastsLikeBare | src/tokenizer.ts:117-136 | a run of characters reads as the same cast argument bare or between quotes |
| Tokenizer.ParseArgs | src/tokenizer.ts:137-169 | `args` succeeds only on input starting with `(`, so whitespace before the parenthesis fails; it consumes at least that parenthesis |
| Tokenizer.ParseFunc | src/tokenizer.ts:170-188 | `func` succeeds iff the input starts with a letter; the name and any alias are keys; it consumes input |
| Tokenizer.ParseRules | src/tokenizer.ts:189-209 | `rules` succeeds iff the input starts with a letter and yields at least one func |
| Tokenizer.GroupsTail | src/tokenizer.ts:213-228 | every `\|` segment yields a non-empty group |
| Tokenizer.ParseExpression | src/tokenizer.ts:210-232 | `expression` succeeds iff the input starts with a letter; at least one instruction; every modifier group non-empty |
| Tokenizer.Tokenize | src/tokenizer.ts:234-236 | a pattern tokenizes iff it starts with a letter; otherwise the error is the `key` rule |
| TokenPrinter.SlotsRoundTrip | src/tokenizer.ts:143-158 | comma-led slots padded with any whitespace read back as their arguments, empty slots as null |
| TokenPrinter.QuotedReadsBack | src/tokenizer.ts:112-136 | every printable non-null argument reads back from its quoted text, whatever follows |
| TokenPrinter.BareReadsBack | src/tokenizer.ts:117-136 | an argument whose text is a run of characters reads back written bare, when no character token follows |
| TokenPrinter.ArgsRoundTrip | src/tokenizer.ts:137-169 | an argument list with any whitespace of its own before and after every value, different in every slot, reads back as its arguments; runs of characters may be bare, other values quoted; `()` reads as no arguments; an empty first slot followed by a comma reads as null |
| TokenPrinter.PaddedNumbers | test/tokenizer.test.ts:122 | `(    1    , 2)` reads as the integers 1 and 2 |
| TokenPrinter.FuncRoundTrip | src/tokenizer.ts:170-188 | a func written as name, optional argument list, optional `:alias` and optional `*`, followed by whitespace or the end, reads back as the same token: same name, params, alias and quantifier |
| TokenPrinter.RestRoundTrip | src/tokenizer.ts:192-205 | whitespace-led funcs read back as the same tokens in order, stopping before `\|` or the end |
| TokenPrinter.RulesRoundTrip | src/tokenizer.ts:189-209 | space-separated funcs read back as the same tokens, in source order |
| TokenPrinter.GroupsRoundTrip | src/tokenizer.ts:213-228 | each ` \| ` segment reads back as exactly one modifier group, in order |
| TokenPrinter.ExpressionRoundTrip | src/tokenizer.ts:210-232 | tokenizing a printed expression gives it back: the first segment becomes the instructions and each later segment one modifier group |
| Containers.Fresh | src/container.ts:3-11 | a new container holds the given subject, no items and pending status |
| Containers.Push | src/container.ts:34-39 | exactly one new item is appended at the end; earlier items, subject and status are unchanged |
| Containers.Find | src/container.ts:21-23 | the values of the first item with that name; undefined when no item has it |
| Containers.Replace | src/container.ts:25-32 | only the first item with that name gets the new values; no-op when the name is absent; count, names and order are unchanged |
| Containers.ValueLists | src/container.ts:17-19 | one value list per item, in push order |
| Containers.Pack | src/container.ts:46-53 | afterwards there is exactly the one given item; subject and status are unchanged |
| Containers.Detach | src/container.ts:55-57 | a new pending container over the same subject, with no items |
| Containers.Attach | src/container.ts:59-63 | only the subject is taken over; items and status are untouched |
| Containers.FindAfterPush | src/container.ts:21-39 | a push never shadows: a name already present is found with its first values, a new name with the pushed ones |
| Containers.FindIgnoresLaterItems | src/container.ts:21-23 | items added after the first one of a name do not change what `find` returns for it |
| Containers.FlattenAppend | src/container.ts:41-44 | flattening distributes over concatenation of the per-item lists |
| Containers.UnpackPush | src/container.ts:34-44 | a push adds its values at the end of the unpacked values, and nothing else |
| Containers.FlattenSize | src/container.ts:41-44 | the unpacked length is the sum of the list lengths, an undefined list counting one |
| Containers.FindPack | src/container.ts:46-53 | after `pack` only the packed name is found, with the packed values |
| Containers.UnpackPack | src/container.ts:41-53 | unpacking a packed container gives the packed values, or a lone undefined |
| Containers.DetachAttach | src/container.ts:55-63 | detaching and attaching straight back changes nothing |
| Containers.AttachOnlySubject | src/container.ts:59-63 | attaching any child changes neither what `find` returns for any name nor what `unpack` returns |
| Consumers.ConsumeSkip | src/consumers.ts:46-53 | succeeds iff the input starts with a word character; the value is the maximal word run, the remainder the rest of that line, trimmed |
| Consumers.SkipSplits | src/consumers.ts:46-53 | a word followed by a non-word character splits off exactly that word |
| Consumers.Slice | src/consumers.ts:24-26 | the `slice` of the token is the contiguous piece from the clamped, end-relative first bound to the clamped, end-relative second bound (the end of the token when absent), empty when the end is not after the start |
| Consumers.SliceParts | src/consumers.ts:24-26 | no arguments slice nothing; `[0,k]` and `[k]` rebuild the token; a negative bound counts from the end |
| Consumers.SliceToken | src/consumers.ts:23-26 | the token is sliced only when params exist and all are numbers; `[]` and no params keep it whole |
| Consumers.ConsumeString | src/consumers.ts:19-31 | succeeds iff the input holds whitespace; the value is the text before the first whitespace, sliced when every argument is a number; the remainder is the rest of that line, trimmed |
| Consumers.StringSplits | src/consumers.ts:19-31 | a whitespace-free token, one whitespace character and a line split into the token and the trimmed line |
| Consumers.KeyEnd | src/consumers.ts:34 | the leading `key=` is a maximal run of word characters followed by `=` |
| Consumers.KeyEndAt | src/consumers.ts:34 | conversely, a text that starts with a non-empty run of word characters followed by `=` has exactly that run as its key |
| Consumers.ConsumeTuple | src/consumers.ts:33-45 | the value is null, with the input unchanged, or a `[key, value]` pair that the regex matches at the start; no `key=` gives null |
| Consumers.ValueEndPicks | src/consumers.ts:34 | the value ends where the regex ends it: after the quoted string when `, ` or the end of input follows it; otherwise at the first position on the line where one of them follows; no end only when no position on the line has one |
| Consumers.TuplePicksEnd | src/consumers.ts:34-44 | the result is null exactly when there is no `key=` or no end for its value; a pair is the whole leading word run and the text from after `=` up to that end |
| Consumers.TupleFindsPair | src/consumers.ts:34-37 | whenever a `key=` is followed on its line by an end at which `, ` or the end of input matches, the result is a pair |
| Consumers.TupleSplits | src/consumers.ts:34-44 | `k=v, x` gives the pair `[k, v]` and the remainder `x` trimmed |
| Consumers.TupleAtEnd | src/consumers.ts:39-44 | a pair running to the end of input leaves no remainder |
| Consumers.TupleQuoted | src/consumers.ts:34 | a quoted value is taken with its quotes and wins even when it contains `, ` |
| Consumers.TupleQuoteThenText | src/consumers.ts:34-44 | a quoted string followed by more text before `, ` is not taken alone: the value runs lazily, quotes included, to the first `, ` |
| Consumers.Builtins | src/consumers.ts:6-54 | the built-in table holds exactly `datetime`, `string`, `tuple` and `skip` |
| Consumers.BuiltinShrinks | src/consumers.ts:19-53 | whenever `string`, `skip` or `tuple` return a truthy value, the remainder is shorter than the input, or absent |
| Consumers.BuiltinsShrink | src/consumers.ts:19-53 | the built-in splitters shorten every non-empty subject they record a value from |
| Modifiers.Separator | src/modifiers.ts:6-9 | the delimiter is `String` of the first argument: a string itself, null as `null`, a boolean as `true`/`false`, an integer as its decimal text, a decimal as written; `,` when there is none |
| Modifiers.Join | src/modifiers.ts:4-12 | throws iff there is no argument list; otherwise the same container, subject unchanged, left with the one item `string` holding the join of all values in push order |
| Modifiers.JoinAppend | src/modifiers.ts:8-9 | joining two runs is joining each, with one delimiter between |
| Modifiers.JoinLength | src/modifiers.ts:8-9 | the join's length is the value texts plus one delimiter between each pair of neighbours |
| Modifiers.JoinTwice | src/modifiers.ts:4-12 | joining again changes nothing |
| Modifiers.JoinAcrossItems | src/modifiers.ts:8-9 | values are joined across item boundaries: `[a]` then `[b, c]` gives `a,b,c` |
| Modifiers.Values | src/modifiers.ts:13-20 | throws iff there is no argument list; otherwise the input container is left as it was, and a new pending container over the same subject is returned; its only item `values` holds `find(n)`, undefined for an absent name |
| Modifiers.ValuesThenFind | src/modifiers.ts:13-20 | finding `values` in the returned container is finding `n` in the input |
| Modifiers.Builtins | src/modifiers.ts:3-22 | the built-in table holds exactly `join` and `values` |
| Composer.Merge | src/composer.ts:36-44 | the lookup tables are the caller's names plus the built-in names |
| Composer.BuiltinsWin | src/composer.ts:36-44 | on a name clash the built-in consumer or modifier is kept; any other name keeps the caller's entry |
| Composer.MapInstruction | src/composer.ts:58-76 | a consumer of that name wins even over an alias and resolves to that consumer; a name with neither fails naming the token; an alias with no fuel left overflows; a nested target only ever comes from an alias; the token is kept |
| Composer.AliasComposes | src/composer.ts:66-73 | an alias instruction resolves to its alias pattern composed in turn with the same tables: it succeeds iff that composition does, its target is the composed pattern, whose tokens are the pattern's tokenization, and its error is that composition's error |
| Composer.MapAll | src/composer.ts:82-83 | `map` with a callback that may throw: every result in order when no element fails, otherwise the failure of the first element that fails |
| Composer.MapInstructions | src/composer.ts:82 | one instruction per token, in order, each the resolution of its token; succeeds iff every token maps; otherwise the error of the first token that fails |
| Composer.MapModifier | src/composer.ts:46-56 | the modifier of that name, with the token kept, or an error naming the token |
| Composer.MapGroup | src/composer.ts:83 | a group maps token by token, in order, iff every name is a modifier, each token paired with the modifier of its name; otherwise the error names the first missing one |
| Composer.MapGroups | src/composer.ts:83 | each modifier group maps one-to-one, in order, each to its group's mapping; otherwise the error of the first group that fails |
| Composer.ComposeExpression | src/composer.ts:81-84 | composition keeps the structure: with the resolved targets forgotten, the tokens come back unchanged; it succeeds iff every instruction and every modifier maps; each instruction and group is its own mapping; an instruction failure is reported before a modifier failure |
| Composer.Compose | src/composer.ts:78-85 | a composed pattern has the shape of its tokenization; a pattern that does not tokenize fails with the grammar error |
| Digester.ItemName | src/digester.ts:43-46 | an item is named by the alias when it is non-empty, otherwise by the func name |
| Digester.ConsumeLoop | src/digester.ts:31-40 | a consumer error aborts; a falsy first value gives no value and leaves the subject alone; a truthy one commits the remainder and the value; without a quantifier there is exactly one call and at most one value; all recorded values are truthy; the loop stops on a falsy value (calling again gives it again) or when the subject is no longer a non-empty string |
| Digester.LoopContinues | src/digester.ts:38-40 | a commit that leaves a non-empty subject sends a quantified loop round again: the committed value, then the loop's values on the remainder |
| Digester.CommitShrinks | src/digester.ts:40 | each commit shortens a non-empty subject, which is why the quantified loop ends |
| Digester.DigestInstruction | src/digester.ts:19-47 | exactly one item, named `alias \|\| name`, is appended. A consumer instruction records the loop's values and subject. An alias instruction records the unpack of the detached child after its digest and takes over the child's subject; no other child item reaches the parent |
| Digester.DigestInstructions | src/digester.ts:18-50 | one item per instruction, named `alias \|\| name`, in instruction order, after the items already there; status unchanged |
| Digester.Take | src/digester.ts:11-12 | the next modifier receives what this one returned; the container the instructions filled changes only while it is the one passed along |
| Digester.DigestModifiers | src/digester.ts:9-16 | no tokens change nothing; once a modifier has returned another container, the filled one is no longer touched |
| Digester.DigestGroups | src/digester.ts:53-56 | the groups run in order, each on what the previous returned |
| Digester.ModifiersAppend | src/digester.ts:9-16 | running two token lists one after the other is running them joined |
| Digester.GroupsAreOneRun | src/digester.ts:53-56 | the groups run as one list of modifiers, in group order and token order |
| Digester.BuiltinModifiersKeepSubject | src/modifiers.ts:4-21 | `join` and `values` never change the subject of either container |
| Digester.Settle | src/digester.ts:58-63 | status is success iff the subject is undefined, otherwise failure, so an empty string fails |
| Digester.Digest | src/digester.ts:52-66 | the status of the returned container is success iff its subject is undefined; without modifiers the returned container is the filled one, with one item per instruction in order |
| Digester.DigestLine | src/digester.ts:68-72 | a new container over the line is digested; success iff the final subject is undefined; without modifiers one item per instruction in order |
| Digester.NothingConsumedFails | src/digester.ts:59-63 | with no instruction and only built-in modifiers the line, empty or not, fails with its subject untouched |
| Digester.SkipTwoWords | src/digester.ts:31-40 | `skip*` over two words records both and leaves the empty string |
| Digester.TwoCommits | src/digester.ts:31-40 | two truthy `skip` steps, the second leaving `""`, give exactly two values, two calls and the subject `""` |
| Digester.SkipLineFails | src/digester.ts:59-63 | a line fully split by `skip*` still fails, because the remainder is `""` rather than undefined |
| Digester.AliasLineSucceeds | src/digester.ts:23-27 | an alias of `tuple` records the child's pair under the alias name, drops the child's `tuple` item and takes over its undefined subject, so the line succeeds |
| Digester.ValuesHandsOver | src/digester.ts:53-63 | after a lone `values(n)` the status is set on the new container, which holds only `values`; the filled container keeps its items and pending status |

## Left out

- `src/index.ts`, the event-emitter wiring and error forwarding: this is I/O glue.
- `src/utils/performance.ts`: wall-clock timing.
- The `datetime` consumer (src/consumers.ts:7-18). It depends on the system clock and on JavaScript `Date` parsing, so it enters the model only as a caller-supplied consumer value.
- The `digits` parser (src/tokenizer.ts:72-80). The grammar does not use it.
- The error messages of the parser-combinator library and of the composer. Every grammar failure is `Grammar(rule)` and every lookup failure names the token.
- Floating point. A decimal argument keeps its source text (`Dec`).
  - `slice` truncates a decimal bound toward zero from that text.
  - `join` writes a decimal delimiter as that text.
  - JavaScript would print the parsed number instead.
- Tokenizer.CastClassifies: integer texts are read as exact integers. JavaScript's `parseInt` gives a double, so beyond 2^53 the source rounds (`9007199254740993` casts to 9007199254740992) and the model does not.
- Modifiers.Separator: an integer delimiter is written as its exact decimal text. JavaScript's `String` writes numbers of magnitude 1e21 or more in exponent form and rounded ones beyond 2^53 as the rounded value; the model does not.
- Consumers.Slice: slice bounds and the token's length count characters (Unicode scalar values), where JavaScript's `String.prototype.slice` counts UTF-16 code units. A bound that falls inside or is counted across an astral character (one outside the Basic Multilingual Plane, such as an emoji) therefore differs: `string(0, 1)` on `😀ab c` gives a lone surrogate in the source and `😀` here. `Consumers.SliceToken` and `Consumers.ConsumeString` inherit this. The regular-expression splits are unaffected, because a surrogate is never whitespace, a word character or a line terminator.
- Values other than those the engine produces are not modelled: `Datum` covers undefined, null, booleans, integers, strings and `tuple` pairs.
- Composer.MapInstruction: alias expansion is bounded by a fuel argument and reports `StackOverflow` when the bound runs out. The source recurses without bound and overflows its stack only on a cyclic alias. That more fuel never changes a successful composition is not proved.
- The consumer call at src/digester.ts:33 builds `{args: token.params, context}`, where `context` is an identifier that no file of the core declares. Where no global `context` exists (mocha's BDD interface defines one; plain Node does not), evaluating it throws a ReferenceError before the consumer runs, so every consumer instruction fails. The model assumes the identifier resolves and passes nothing, since no built-in consumer reads it.
- The container's `input` field and `map` method (src/container.ts:13-15). The core never calls them.
- Caller-supplied consumers and modifiers are arbitrary function values; a quantified caller consumer must shorten the subject whenever it records a value (`Digester.Halts`), where the source would loop forever.
- A caller modifier that returns a container it received earlier, or any object other than the one it was given or a new one, is not modelled: the model tracks only the filled container and the one last returned.
- Object-key lookups through the JavaScript prototype chain (a pattern name such as `constructor`) are not modelled; the tables are plain maps.
