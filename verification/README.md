# GitWire verification model

A Dafny model of GitWire's configuration resolver, rule expression language, validation protocol, patch
application, shutdown orchestrator and comment ownership, with proofs of what they promise. Code that works step
by step is modelled as methods and classes and proved against functions; the theorems are about those functions.
`dafny verify dfyconfig.toml` checks everything.

**Layered configuration** (`JsonPointer`, `ConfigTree`, `ConfigResolve`, `EffectiveLaws`, `ConfigLegacy`,
`Sorting`, `Collections`, `CanonicalJson`, `JsonText`, `DangerousKeys`). Sparse layers are merged onto defaults
while a map from JSON pointers (RFC 6901, sections 3 and 4) to supplying layers is kept in step. The provenance
map is proved to be a function of the final tree and the layers, through subtree replacement, the default-gate
strip and the metadata strip; when the default gate is in the result is read off the documents. The older
`parseConfig` is an independent second form; the exact condition under which the two agree is proved. Canonical
serialization is injective and order-blind, its text is JSON for the value by an independent reading of RFC
8259, and the search for prototype-polluting keys is exact on any object graph.

**Expression language** (`TextFacts`, `ExprSyntax`, `ExprParser`, `ExprGrammar`, `ExprHeader`, `ExprPrecedence`,
`ExprLexer`, `LexerLaws`, `ExprRoundTrip`, `ExprEvaluator`, `EvaluatorLaws`, `Glob`). The mutable-cursor parser
returns exactly the trees of its grammar, and accepts exactly what its header generates with every `not` in
place; printing, lexing and parsing is the identity on exactly the trees that can be parsed; what each token
class, operator, name, pipe and call means is proved of every text, host and tree; tracing changes no result
unless a condition of `some` or `all` is itself a pipe; the glob compiler preserves meaning.

**Validation protocol** (`CommandDescriptors`, `PlanAdapter`, `PlanContents`, `PlanConformance`,
`ConformanceLaws`, `ValidatorRunner`, `PlanExecution`, `DispatchLaws`, `ReceiptGate`, `GateLaws`). Requirements
are compiled to numbered steps, dispatched, echoed through a map keyed by command id, compared, judged eligible,
put in a receipt and checked again. A compiled plan holds exactly the steps its requirements ask for; a plan
that ran is found exact if and only if its commands are pairwise distinct and every step ran as planned; the
conditions of a pass are proved from the requirements to the verdict; the gate accepts every such receipt and
nothing that does not recompute to exact.

**Patch application** (`ArtifactApplier`, `PatchText`, `ArtifactAcceptance`, `LineAccounting`). Splicing
disjoint edits from the back is simultaneous substitution: the text keeps every line outside the ranges and
takes the new contents verbatim. For any edits, overlapping or not, exactly when they are accepted and exactly
when the reported line counts bound the real ones is proved.

**Small state machines** (`GracefulShutdown`, `CommentMarkers`, `MarkerOwnership`), over every interleaving of
events and every run of posts.

## Where code and documentation differ

The model follows the code.

- The grammar in the parser's header allows `not` in unary position, as in `-not x` or `a + not b`; the parser
  does not accept it (`packages/rules/src/expr/parser.js:12`, `118-124`; `ExprHeader.UnaryNotDiffers`). It
  accepts exactly the token lists the header generates in which every `not` is first or follows `not`, `and`,
  `or`, `(` or `,` (`ExprHeader.AcceptedExactly`).
- An empty argument list after a name is parsed as the variable of that name, not as a call
  (`packages/rules/src/expr/parser.js:159-165`).
- The comment on `**` says it matches any path; the compiled dot stops at a line terminator
  (`packages/rules/src/helpers.js:91-96`), so the documented meaning holds exactly on strings without one
  (`Glob.DocumentedExactly`).
- Canonicalization of descriptors is documented to fail closed when two descriptors claim one command id. The
  compiler files descriptors by that id before canonicalizing, so the throw cannot be reached from it
  (`PlanAdapter.FiledNeverConflict`) and a later descriptor replaces an earlier one
  (`PlanAdapter.LaterDescriptorReplaces`). All evidence survives exactly when no two requirements file
  different artifacts under one id (`PlanAdapter.EvidenceSurvivesExactly`).
- The resolver's gate strip is described as that of `parseConfig`. With the shipped defaults, the only ones
  `parseConfig` merges onto, the two always agree (`ConfigLegacy.ResolversAgreeOnShippedGate`). The resolver
  also takes other defaults; the same merge and strip on those agree with it exactly when the defaults' gate
  is not dropped or has a recorded leaf (`ConfigLegacy.ResolversAgreeExactly`).
- A whole-file replacement by the line-number sentinel can change more lines than are reported
  (`LineAccounting.SentinelExceedsBound`; exactly when, `LineAccounting.BoundedExactly`).
- Application is documented to fail closed when a range is out of bounds, but overlapping edits are checked
  against the length left by earlier ones (`packages/web/src/lib/artifactApplier.js:111-132`). An edit past the
  end of the file is let through exactly when the file has the lines needed but not the last line named, and
  edits within it are refused exactly the other way round (`ArtifactAcceptance.AgreesExactly`; inputs for both,
  `ArtifactAcceptance.OverlapEscapesRangeCheck` and `ArtifactAcceptance.OverlapRefusesFittingEdit`).
- The traced evaluator has no case for piped conditions of `some` and `all`: one piped from a literal or a
  variable changes results on some host unless it is piped from `false` (`ExprEvaluator.PipedConditionExactly`).
- A marker is documented to identify its comment uniquely. A visible body that shows another marker breaks
  this, and nothing else does for readable kinds and ids (`MarkerOwnership.MarkersExact`,
  `MarkerOwnership.EveryRunOwnsExactly`).

## Model

| member | source | states |
|---|---|---|
| `ExprParser.Parser.Advance` | `packages/rules/src/expr/parser.js:35-43` | returns the current token and moves the cursor by one |
| `ExprParser.Parser.Parse` | `packages/rules/src/expr/parser.js:55-62` | on any token list with one closing EOF it stops in bounds and returns the tree of the whole list, or an error if tokens remain |
| `ExprParser.Parser.OrExpression` | `packages/rules/src/expr/parser.js:64-71` | `or` chains, left-associative: tree and cursor as the specification proved equal to the grammar says; never past EOF, always ending |
| `ExprParser.Parser.AndExpression` | `packages/rules/src/expr/parser.js:73-80` | `and` chains, left-associative: tree and cursor as the specification proved equal to the grammar says; never past EOF, always ending |
| `ExprParser.Parser.NotExpression` | `packages/rules/src/expr/parser.js:82-88` | prefix `not`: tree and cursor as the specification proved equal to the grammar says; never past EOF, always ending |
| `ExprParser.Parser.ComparisonExpression` | `packages/rules/src/expr/parser.js:90-98` | at most one comparison: tree and cursor as the specification proved equal to the grammar says; never past EOF, always ending |
| `ExprParser.Parser.AdditiveExpression` | `packages/rules/src/expr/parser.js:100-107` | `+` and `-` chains, left-associative: tree and cursor as the specification proved equal to the grammar says; never past EOF, always ending |
| `ExprParser.Parser.MultiplicativeExpression` | `packages/rules/src/expr/parser.js:109-116` | `*` and `/` chains, left-associative: tree and cursor as the specification proved equal to the grammar says; never past EOF, always ending |
| `ExprParser.Parser.UnaryExpression` | `packages/rules/src/expr/parser.js:118-124` | prefix minus only: tree and cursor as the specification proved equal to the grammar says; never past EOF, always ending |
| `ExprParser.Parser.PipeExpression` | `packages/rules/src/expr/parser.js:126-138` | pipe chains with optional argument lists: tree and cursor as the specification proved equal to the grammar says; never past EOF, always ending |
| `ExprParser.Parser.PrimaryExpression` | `packages/rules/src/expr/parser.js:140-177` | constants, names, calls and parentheses; an empty call is a variable: tree and cursor as the specification proved equal to the grammar says; never past EOF, always ending |
| `ExprParser.Parser.CallArguments` | `packages/rules/src/expr/parser.js:179-191` | a possibly empty, comma-separated list in parentheses: tree and cursor as the specification proved equal to the grammar says; never past EOF, always ending |
| `ExprGrammar.Sound` | `packages/rules/src/expr/parser.js:64-191` | whatever a nonterminal of the parser returns, the header grammar derives from exactly the tokens it consumed |
| `ExprGrammar.Starts` | `packages/rules/src/expr/parser.js:4-15` | which tokens can begin each nonterminal, and that none is empty |
| `ExprGrammar.Complete` | `packages/rules/src/expr/parser.js:64-191` | every derivable tree is returned, loops going on exactly as far as the next token allows |
| `ExprGrammar.ParserIsExact` | `packages/rules/src/expr/parser.js:4-15` | main result: the parser returns a tree if and only if the grammar (without `not` in unary position) derives that tree from all tokens |
| `ExprGrammar.GrammarIsUnambiguous` | `packages/rules/src/expr/parser.js:4-15` | no token list has two derivations |
| `ExprHeader.DerivedGenerated` | `packages/rules/src/expr/parser.js:4-15` | whatever the parser's grammar derives the header generates, every `not` standing first or after `not`, `and`, `or`, `(` or `,` |
| `ExprHeader.GeneratedDerived` | `packages/rules/src/expr/parser.js:4-15` | what the header generates with every `not` so placed, the parser's grammar derives |
| `ExprHeader.AcceptedExactly` | `packages/rules/src/expr/parser.js:4-15` | main result: the parser accepts exactly the token lists the header generates in which every `not` is so placed |
| `ExprHeader.MisplacedNotRejected` | `packages/rules/src/expr/parser.js:82-124` | any other `not` makes the parser fail, whatever stands around it |
| `ExprHeader.UnaryNotDiffers` | `packages/rules/src/expr/parser.js:12` | an input: the header generates `- not x`, the parser rejects it |
| `ExprPrecedence.TwoOperators` | `packages/rules/src/expr/parser.js:64-116` | main result, on token lists with any operands: of two operators the stronger takes the middle operand, of equals the left one, and comparisons do not chain |
| `ExprPrecedence.NotReaches` | `packages/rules/src/expr/parser.js:82-88` | `not` takes in comparisons, sums and products, but neither `and` nor `or` |
| `ExprPrecedence.MinusReaches` | `packages/rules/src/expr/parser.js:118-124` | minus takes in no operator |
| `ExprPrecedence.MinusTakesFilter` | `packages/rules/src/expr/parser.js:118-138` | and minus takes in a filter |
| `ExprPrecedence.FilterBindsTightest` | `packages/rules/src/expr/parser.js:126-138` | a filter applies to the last operand alone, whatever the operator before |
| `ExprLexer.ReadToken` | `packages/rules/src/expr/lexer.js:82-161` | one token at a non-space position, for every character class, against the functional lexer |
| `ExprLexer.ScanString` | `packages/rules/src/expr/lexer.js:109-129` | string scanning with backslash escapes, unterminated strings being errors |
| `ExprLexer.ScanRun` | `packages/rules/src/expr/lexer.js:131-158` | a maximal run of number or word characters |
| `ExprLexer.Tokenize` | `packages/rules/src/expr/lexer.js:76-165` | all tokens in order, exactly one EOF, at the end, or an error |
| `LexerLaws.BlanksAreSpace` | `packages/rules/src/expr/lexer.js:82` | the characters skipped are exactly the white space and line terminators of ECMAScript, listed |
| `LexerLaws.SpelledLexes` | `packages/rules/src/expr/lexer.js:76-165` | main result: tokens spelled in order, with any white space after each, lex to exactly these tokens and EOF |
| `LexerLaws.QuotedIsString` | `packages/rules/src/expr/lexer.js:109-129` | any text, its quotes and backslashes escaped, in single or double quotes is the string of that text |
| `LexerLaws.BackslashIsLiteral` | `packages/rules/src/expr/lexer.js:115-117` | a backslash stands for whatever character follows it |
| `LexerLaws.UnclosedIsError` | `packages/rules/src/expr/lexer.js:123-125` | a string that never closes is an error |
| `LexerLaws.DecimalIsNumber` | `packages/rules/src/expr/lexer.js:131-140` | digits, a dot and digits are the decimal number they spell; what follows a second dot is read and ignored |
| `LexerLaws.WordIsToken` | `packages/rules/src/expr/lexer.js:142-158` | letters, digits, underscores and dots from a letter or underscore on are one word, an identifier unless it is a keyword or an inherited name |
| `LexerLaws.LongestOperator` | `packages/rules/src/expr/lexer.js:89-103` | `>`, `<`, `=` and `!` take a following `=` with them, and the last two need it |
| `LexerLaws.StrayCharacter` | `packages/rules/src/expr/lexer.js:160` | a character that starts no token is an error |
| `ExprRoundTrip.EscapedReadsBack` | `packages/rules/src/expr/lexer.js:109-129` | escaped string content reads back as the content |
| `ExprRoundTrip.SpellLexes` | `packages/rules/src/expr/lexer.js:76-165` | spelled tokens, each followed by a space, lex to the same tokens |
| `ExprRoundTrip.PrintedDerives` | `packages/rules/src/expr/parser.js:4-15` | the fully parenthesised tokens of a printable tree derive that tree, at any place in a longer list |
| `ExprRoundTrip.RoundTrip` | `packages/rules/src/expr/parser.js:194-198` | main result: print, tokenize, parse is the identity on every printable tree |
| `ExprRoundTrip.TokenSpellable` | `packages/rules/src/expr/lexer.js:76-165` | every token the lexer produces can be written, inherited words apart |
| `ExprRoundTrip.DerivedPrintable` | `packages/rules/src/expr/parser.js:64-191` | every tree derived from lexed tokens is printable |
| `ExprRoundTrip.ParsedExactlyPrintable` | `packages/rules/src/expr/parser.js:194-198` | some text parses to a tree if and only if the tree is printable |
| `ExprRoundTrip.NaturalsAreNumbers` | `packages/rules/src/expr/lexer.js:131-140` | every natural number is a printable literal |
| `ExprEvaluator.FilterEachMeaning` | `packages/rules/src/expr/evaluator.js:183-212` | one result per element in order, or the error of the first element that fails |
| `ExprEvaluator.ElementWiseMeaning` | `packages/rules/src/expr/evaluator.js:178-216` | `some` is at least one element and `all` every element; an element that fails makes the whole fail with the first such error |
| `ExprEvaluator.SimpleAgrees` | `packages/rules/src/expr/evaluator.js:155-172` | on trees without calls and pipes the reduced evaluator used for call arguments agrees with the full one |
| `ExprEvaluator.CallArgumentsAgree` | `packages/rules/src/expr/evaluator.js:141-150` | so a call whose arguments are calls or such trees receives the values of its arguments |
| `ExprEvaluator.RunTraced` | `packages/rules/src/expr/evaluator.js:77-120` | the traced evaluator returns the specified outcome and pushes exactly the specified entries, for every tree |
| `ExprEvaluator.RunTracedPipe` | `packages/rules/src/expr/evaluator.js:89-101` | a traced pipe: input first, then `some`/`all` or the filter |
| `ExprEvaluator.RunTracedFilter` | `packages/rules/src/expr/evaluator.js:95-101` | arguments, lookup, call and one entry; an error leaves no entry of its own |
| `ExprEvaluator.RunTracedBinary` | `packages/rules/src/expr/evaluator.js:108-114` | both operands are evaluated, left first, then one entry |
| `ExprEvaluator.RunTracedAll` | `packages/rules/src/expr/evaluator.js:95` | arguments are traced in order |
| `ExprEvaluator.RunTracedArrayFilter` | `packages/rules/src/expr/evaluator.js:221-253` | one entry with the number of elements and of matches, and none after an error |
| `ExprEvaluator.EvaluateWithTrace` | `packages/rules/src/expr/evaluator.js:71-75` | value and whole trace, or the error |
| `ExprEvaluator.ReduceSame` | `packages/rules/src/expr/evaluator.js:178-253` | without piped conditions the two copies reduce an element alike |
| `ExprEvaluator.FilterEachSame` | `packages/rules/src/expr/evaluator.js:178-253` | without piped conditions the two copies give the same results or the same first error |
| `ExprEvaluator.TracingKeepsResult` | `packages/rules/src/expr/evaluator.js:25-120` | main result: without a piped condition of a traced `some` or `all`, tracing changes neither value nor error |
| `ExprEvaluator.WitnessDiffers` | `packages/rules/src/expr/evaluator.js:199-208` | for any condition piped from a literal or variable that is not the literal false, a host where plain evaluation gives false and tracing gives true |
| `ExprEvaluator.PipedFalseNeverDiffers` | `packages/rules/src/expr/evaluator.js:199-208` | a condition piped from the literal false never makes the two differ, on any host |
| `ExprEvaluator.PipedConditionExactly` | `packages/rules/src/expr/evaluator.js:178-253` | main result: over all hosts, such a condition leaves tracing without effect if and only if it is piped from the literal false |
| `EvaluatorLaws.FalsyExactly` | `packages/rules/src/expr/evaluator.js:53` | undefined, null, false, zero and the empty text are falsy, and nothing else is |
| `EvaluatorLaws.NotNegates` | `packages/rules/src/expr/evaluator.js:53-54` | for every host and tree, in all three evaluators: `not e` is true exactly when the value of `e` is one of the five falsy ones, and fails as `e` does |
| `EvaluatorLaws.MinusNegates` | `packages/rules/src/expr/evaluator.js:54` | minus of a number is its negative, in all three evaluators |
| `EvaluatorLaws.DottedNameReaches` | `packages/rules/src/expr/evaluator.js:128-136` | main result: a dotted name is the value reached from the context by its parts through nested objects, in all three evaluators |
| `EvaluatorLaws.MissingPartUndefined` | `packages/rules/src/expr/evaluator.js:128-136` | a part that is missing makes the whole name undefined, whatever follows |
| `EvaluatorLaws.ArrayParts` | `packages/rules/src/expr/evaluator.js:133` | the parts of an array are its items by decimal index and its length |
| `EvaluatorLaws.ArgumentsInOrder` | `packages/rules/src/expr/evaluator.js:44` | one value per argument in order, or the error of the first that fails |
| `EvaluatorLaws.PipeAppliesFilter` | `packages/rules/src/expr/evaluator.js:38-50` | the filter receives the input followed by the values of its arguments, in order |
| `EvaluatorLaws.PipeFailsFirst` | `packages/rules/src/expr/evaluator.js:38-50` | a failing input, or else the first failing argument, decides the error |
| `EvaluatorLaws.CallAppliesFunction` | `packages/rules/src/expr/evaluator.js:141-153` | the function receives the values of its arguments, in order |
| `EvaluatorLaws.OperatorApplies` | `packages/rules/src/expr/evaluator.js:57-61` | both operands are evaluated, left first, and errors come in this order |
| `EvaluatorLaws.AndOrDecide` | `packages/rules/src/expr/evaluator.js:260-261` | `and` and `or` hold as in logic and give back the operand that decides |
| `EvaluatorLaws.DeMorgan` | `packages/rules/src/expr/evaluator.js:53-60` | De Morgan's laws hold for whole evaluations, errors included, plain and traced |
| `EvaluatorLaws.NumbersCompute` | `packages/rules/src/expr/evaluator.js:268-271` | on numbers the arithmetic is that of the reals, and division by zero gives zero |
| `EvaluatorLaws.NumbersCompare` | `packages/rules/src/expr/evaluator.js:262-267` | exactly one of `<`, `==`, `>` holds of two numbers; the other comparisons are their negations |
| `EvaluatorLaws.OthersAreZero` | `packages/rules/src/expr/evaluator.js:268-269` | in sums and differences what is no number counts as zero |
| `EvaluatorLaws.EqualsExactly` | `packages/rules/src/expr/evaluator.js:266-267` | equality of texts, flags, null and undefined, the cases without conversion |
| `EvaluatorLaws.NoArrayNoElements` | `packages/rules/src/expr/evaluator.js:179-181` | on what is no array `some` is false and `all` true |
| `EvaluatorLaws.BareElementsCount` | `packages/rules/src/expr/evaluator.js:187` | without a condition an element counts by itself |
| `EvaluatorLaws.ConditionCallsFilter` | `packages/rules/src/expr/evaluator.js:191-197` | a condition that is a call is that filter on the element and the argument values |
| `EvaluatorLaws.ConditionsFold` | `packages/rules/src/expr/evaluator.js:190-211` | several conditions apply from left to right, each to the result of the last |
| `EvaluatorLaws.PipedConditionKeeps` | `packages/rules/src/expr/evaluator.js:198-208` | a piped condition hands on the element if the inner one holds, else false |
| `EvaluatorLaws.TraceHappened` | `packages/rules/src/expr/evaluator.js:77-120` | main result: every entry reports a step whose result is what the filter or operator gives on the operands reported |
| `EvaluatorLaws.TraceCounts` | `packages/rules/src/expr/evaluator.js:77-120` | an evaluation that succeeds leaves one entry per pipe and operator outside calls (trees without `some` and `all`) |
| `JsonPointer.EscapeRoundTrip` | `packages/rules/src/resolve.js:96-98` | token escaping can be undone and leaves no slash |
| `JsonPointer.PointerInjective` | `packages/rules/src/resolve.js:96-98` | pointers of different paths differ |
| `JsonPointer.PointerAppend` | `packages/rules/src/resolve.js:131-135` | path plus slash plus escaped key is the pointer of the longer path |
| `JsonPointer.BelowExact` | `packages/rules/src/resolve.js:105-111` | starting with a pointer and a slash means lying strictly below that node |
| `JsonPointer.AtOrBelowExact` | `packages/rules/src/resolve.js:105-111` | the string test of the clearing loop holds exactly for nodes at or below the prefix |
| `ConfigTree.EffectMeaning` | `packages/rules/src/resolve.js:131-155` | what a merge does to each path: claimed nodes are supplied, cleared ones gone, kept ones as before |
| `ConfigResolve.Resolution.constructor` | `packages/rules/src/resolve.js:202-206` | starts from the defaults and an empty provenance |
| `ConfigResolve.Resolution.MarkDefaults` | `packages/rules/src/resolve.js:208-214` | after recording the leaves the provenance is exact for the defaults |
| `ConfigResolve.Resolution.LeafPointers` | `packages/rules/src/resolve.js:161-170` | lists exactly the pointers of leaves outside metadata-named keys |
| `ConfigResolve.Resolution.ClearProvenanceBelow` | `packages/rules/src/resolve.js:105-111` | removes exactly the entries at or below the prefix |
| `ConfigResolve.Resolution.MergeKey` | `packages/rules/src/resolve.js:132-154` | one key: recursion, fresh object or replacement, with the provenance of every path accounted for |
| `ConfigResolve.Resolution.MergeSparse` | `packages/rules/src/resolve.js:131-155` | the merged tree, and the effect on the provenance entry of every path, whatever the key order |
| `ConfigResolve.Resolution.MergeLayer` | `packages/rules/src/resolve.js:216-225` | one more layer keeps provenance exact |
| `ConfigResolve.Resolution.MergeLayers` | `packages/rules/src/resolve.js:208-225` | defaults, org, repo and governed in order: tree, exactness and explicit keys |
| `ConfigResolve.Resolution.StripDefaultGate` | `packages/rules/src/resolve.js:234-254` | drops the default gate exactly when it is the defaults' own, keeping provenance exact |
| `ConfigResolve.Resolution.DropIfBuiltIn` | `packages/rules/src/resolve.js:239-252` | the same for any two-step node |
| `ConfigResolve.Resolution.DropNode` | `packages/rules/src/resolve.js:247-251` | deletes node and entries together |
| `ConfigResolve.Resolution.StripKey` | `packages/rules/src/resolve.js:262-267` | removes a top-level key and its entries |
| `ConfigResolve.Resolution.StripMetadataKeys` | `packages/rules/src/resolve.js:256-267` | no metadata key is left, provenance still exact |
| `ConfigResolve.Resolution.Resolve` | `packages/rules/src/resolve.js:202-267` | main result: the effective tree, provenance exact for it, and the explicit keys of org and repo, for any layers |
| `ConfigResolve.MergeExact` | `packages/rules/src/resolve.js:131-155` | merging a layer preserves exactness |
| `ConfigResolve.PruneExact` | `packages/rules/src/resolve.js:247-251` | removing a subtree with its entries preserves exactness |
| `ConfigResolve.OwnershipTestExact` | `packages/rules/src/resolve.js:238-246` | the test on provenance strings holds if and only if no layer above the defaults supplies the node and a leaf of it was recorded |
| `ConfigResolve.DefaultsExact` | `packages/rules/src/resolve.js:208-214` | entries for the listed leaves are exact for the defaults |
| `ConfigResolve.ProvenanceIsExact` | `packages/rules/src/resolve.js:114-130` | what exactness means: each pointer names an existing node and the highest layer supplying it with that value, and each leaf has an entry (the defaults' leaves under metadata names apart) |
| `EffectiveLaws.PrecedenceOrder` | `packages/rules/src/resolve.js:216-225` | at every path governed wins over repo, repo over org, org over the defaults |
| `EffectiveLaws.MergedNodes` | `packages/rules/src/resolve.js:131-155` | where no document puts a scalar or array above it, a node is there exactly when some document supplies it |
| `EffectiveLaws.GateAbsentExactly` | `packages/rules/src/resolve.js:234-254` | main result, any layers: the default gate is missing if and only if the merge left none, or org or repo names `quality_gates`, no document names the default gate, and a leaf of it was recorded |
| `EffectiveLaws.ElsewhereAsMerged` | `packages/rules/src/resolve.js:227-267` | every path outside the gate and the metadata keys is as merged, and no metadata key is left |
| `EffectiveLaws.PollutingKeysNeverRead` | `packages/rules/src/resolve.js:132-133` | both merges pass over exactly the three polluting keys |
| `ConfigLegacy.MergeDeep` | `packages/rules/src/parse.js:57-86` | the assignment-based merge, against its function |
| `ConfigLegacy.DeepNode` | `packages/rules/src/parse.js:68-79` | an object meeting an object recurses, anything else is assigned |
| `ConfigLegacy.ParseConfig` | `packages/rules/src/parse.js:30-44` | merge, explicit keys, removal of the default gate |
| `ConfigLegacy.MergesAgree` | `packages/rules/src/parse.js:57-86` | on trees without dangerous keys the two merges are equal |
| `ConfigLegacy.GateUntouched` | `packages/rules/src/parse.js:36-41` | a document that does not name the gate leaves everything at and below it alone |
| `ConfigLegacy.GateDecision` | `packages/rules/src/resolve.js:234-254` | when the resolver drops the gate, in terms of defaults and document only |
| `ConfigLegacy.ResolversAgreeExactly` | `packages/rules/src/parse.js:30-44` | main result: both resolvers give the same configuration if and only if not (the gate is dropped and the defaults' gate has no recorded leaf) |
| `ConfigLegacy.ResolversAgreeOnShippedGate` | `packages/rules/src/schema.js:153-162` | with the shipped gate they always agree |
| `EffectiveLaws.OrgAgreesExactly` | `packages/rules/src/resolve.js:234-254` | the agreement holds for a document in the org layer too, under the same condition |
| `Sorting.SortSorts` | `packages/rules/src/resolve.js:45` | key sorting yields a sorted list |
| `Sorting.SortExact` | `packages/rules/src/resolve.js:45` | two lists sort to the same list if and only if they are permutations of each other |
| `Sorting.LeIsLexicographic` | `packages/rules/src/resolve.js:45` | the order of keys is the lexicographic one: a prefix, or smaller at the first difference |
| `CanonicalJson.OrderBlind` | `packages/rules/src/resolve.js:38-47` | equal JSON values serialize equally, whatever their key order |
| `CanonicalJson.EscapeTextSplit` | `packages/rules/src/resolve.js:40` | escaped text up to the closing quote determines the text and what follows |
| `CanonicalJson.NumberSplit` | `packages/rules/src/resolve.js:40` | a number text is delimited by what follows it |
| `CanonicalJson.Split` | `packages/rules/src/resolve.js:38-47` | equal serializations followed by delimited texts: equal values and equal rests |
| `CanonicalJson.CanonicalExact` | `packages/rules/src/resolve.js:38-47` | main result: same text if and only if same JSON value |
| `CanonicalJson.HashExact` | `packages/rules/src/resolve.js:50-52` | with a collision-free hash, same hash if and only if same value |
| `JsonText.CanonicalTextDenotes` | `packages/rules/src/resolve.js:38-47` | main result: read by an independent definition of JSON texts (RFC 8259), the canonical text denotes the value, keys sorted, without white space |
| `JsonText.EscapedTextDecodes` | `packages/rules/src/resolve.js:40` | the escaped text of any string decodes to that string (section 7 of RFC 8259) |
| `JsonText.ControlsInLowerCase` | `packages/rules/src/resolve.js:40` | control characters without a short escape are written with lower-case hexadecimal digits |
| `DangerousKeys.ContainsDangerousKey` | `packages/rules/src/schema.js:188-209` | main result: true if and only if an object reachable from the root owns a denied key; ends on cycles; expands each object at most once |
| `DangerousKeys.DangerousKeyExactly` | `packages/rules/src/schema.js:175-206` | the denied keys are `__proto__`, `constructor` and `prototype` |
| `DangerousKeys.ReadObject` | `packages/rules/src/schema.js:196-206` | one object's keys and children |
| `DangerousKeys.ClosedSetHoldsReachable` | `packages/rules/src/schema.js:190-195` | a visited set closed under children holds everything reachable |
| `Glob.CompileGlob` | `packages/rules/src/helpers.js:84-109` | the scanning loop builds the text of all pattern elements in order |
| `Glob.CompiledReads` | `packages/rules/src/helpers.js:84-116` | the compiled text is read as the regular expression of the pattern: nothing escaped is misread |
| `Glob.PatternMeaning` | `packages/rules/src/helpers.js:84-112` | that expression accepts exactly the strings the pattern stands for |
| `Glob.MatchGlobExact` | `packages/rules/src/helpers.js:84-116` | main result, for every pattern and every string: compiled acceptance is the direct glob meaning |
| `Glob.OneLineMeaning` | `packages/rules/src/helpers.js:89-96` | on strings without line terminators that meaning is the documented one |
| `Glob.MatchGlobOnPaths` | `packages/rules/src/helpers.js:84-112` | so for every path without line terminators matching means what the comments say |
| `Glob.DocumentedExactly` | `packages/rules/src/helpers.js:84-112` | main result: compiled acceptance has its documented meaning for all patterns on a string if and only if the string has no line terminator |
| `PlanConformance.FindDuplicates` | `packages/web/src/lib/planExecutionConformance.js:269-277` | holds exactly the repeated values, and is empty exactly for distinct ones |
| `PlanConformance.IndexById` | `packages/web/src/lib/planExecutionConformance.js:165-166` | a map filled in order answers with the last entry |
| `PlanConformance.CompareArgv` | `packages/web/src/lib/planExecutionConformance.js:184-197` | the first difference of two argument lists |
| `PlanConformance.CompareStep` | `packages/web/src/lib/planExecutionConformance.js:169-235` | the first reason a planned step does not match, in the source's order of checks |
| `PlanConformance.DerivePlanExecutionRelation` | `packages/web/src/lib/planExecutionConformance.js:117-247` | the whole comparison with its reason codes |
| `PlanConformance.ArgvExact` | `packages/web/src/lib/planExecutionConformance.js:184-197` | no reason exactly for equal argument lists |
| `PlanConformance.PathsExact` | `packages/web/src/lib/planExecutionConformance.js:201-209` | paths compare equal exactly as multisets without trailing slashes |
| `PlanConformance.PairExact` | `packages/web/src/lib/planExecutionConformance.js:176-235` | no reason exactly when source, arguments, paths, position, status and start all match |
| `PlanConformance.StepExact` | `packages/web/src/lib/planExecutionConformance.js:169-235` | the lookup by id finds a match exactly when some executed step matches |
| `PlanConformance.UnknownNeverFires` | `packages/web/src/lib/planExecutionConformance.js:237-242` | the final loop can never find a stranger |
| `PlanConformance.ExactMeansMatched` | `packages/web/src/lib/planExecutionConformance.js:117-247` | exact if and only if evidence is complete, lists are non-empty, equally long and without repeated ids, and every planned step is matched at its position |
| `PlanConformance.ExactIsPointwise` | `packages/web/src/lib/planExecutionConformance.js:117-247` | main result: for plans numbered in order, exact is a position-by-position comparison |
| `ConformanceLaws.TrimCutsSlashes` | `packages/web/src/lib/planExecutionConformance.js:256-261` | normalizing a path cuts the slashes at its end, all of them and nothing else |
| `ConformanceLaws.SlashesIrrelevant` | `packages/web/src/lib/planExecutionConformance.js:256-261` | a path with slashes appended compares like the path |
| `ConformanceLaws.ExactRanOnPlannedPaths` | `packages/web/src/lib/planExecutionConformance.js:200-210` | main result, on raw paths: if none ends in a slash, an exact relation means each step with target paths ran on exactly those, as multisets |
| `ConformanceLaws.OtherPathDiverges` | `packages/web/src/lib/planExecutionConformance.js:200-210` | a run on another path is never exact, whatever else agrees |
| `ConformanceLaws.RelationExactly` | `packages/web/src/lib/planExecutionConformance.js:73-164` | unverifiable exactly for incomplete evidence, none exactly for complete evidence without steps, exact exactly for matched steps |
| `ConformanceLaws.FirstMismatchReported` | `packages/web/src/lib/planExecutionConformance.js:171-236` | the reason given is that of the first planned step that does not match |
| `ConformanceLaws.ReasonIsTrue` | `packages/web/src/lib/planExecutionConformance.js:177-232` | each reason names the step and is true of it; for arguments it names the first that differs |
| `CommandDescriptors.ValidateDescriptorShape` | `packages/core/src/commandDescriptor.js:42-65` | the reasons in order, none exactly for a well-shaped descriptor |
| `CommandDescriptors.EnforceDescriptorPolicy` | `packages/executor-service/src/commandDescriptorPolicy.js:85-162` | all reasons in order; no reason if and only if the whole policy holds |
| `CommandDescriptors.PolicyReasonsExact` | `packages/executor-service/src/commandDescriptorPolicy.js:85-162` | every broken rule is reported and nothing else |
| `CommandDescriptors.CanonicalizePlan` | `packages/core/src/commandDescriptor.js:125-154` | files every descriptor under its id in canonical form and throws exactly on conflicting entries |
| `CommandDescriptors.AcceptedExactly` | `packages/executor-service/src/commandDescriptorPolicy.js:85-162` | main result: the policy spelled out on words and characters, in both directions |
| `CommandDescriptors.AcceptedPathsStayInside` | `packages/executor-service/src/commandDescriptorPolicy.js:141-158` | accepted paths are relative and have no segment leading upwards |
| `CommandDescriptors.CanonicalKeeps` | `packages/core/src/commandDescriptor.js:81-110` | canonicalization is idempotent and changes neither identity nor what the policy decides |
| `PlanAdapter.PushStep` | `packages/web/src/lib/validationPlanAdapter.js:192-203` | one step: running number in the id, position as sequence |
| `PlanAdapter.PushLegacy` | `packages/web/src/lib/validationPlanAdapter.js:285-299` | the template steps of a requirement, in order |
| `PlanAdapter.CompileWithDescriptor` | `packages/web/src/lib/validationPlanAdapter.js:141-266` | a requirement with a frozen descriptor: rejected, ill-shaped or valid, in both activation modes |
| `PlanAdapter.CompileRequirement` | `packages/web/src/lib/validationPlanAdapter.js:134-327` | one requirement: descriptor, mapping, pass-through or unmapped |
| `PlanAdapter.CompileValidationPlan` | `packages/web/src/lib/validationPlanAdapter.js:114-363` | the whole returned plan: sorted commands, joined acceptance policy, tagged steps, descriptors and features; the throw of canonicalization never happens |
| `PlanAdapter.CompileAllRecords` | `packages/web/src/lib/validationPlanAdapter.js:141-263` | the recorded descriptors are those of the requirements, filed one after the other |
| `PlanAdapter.CompiledByOwnId` | `packages/web/src/lib/validationPlanAdapter.js:165-263` | every descriptor is recorded under its own id |
| `PlanAdapter.EvidenceSurvivesExactly` | `packages/web/src/lib/validationPlanAdapter.js:141-263` | main result: every descriptor found for a requirement is still in the plan if and only if no two requirements file different artifacts under one id |
| `PlanAdapter.LaterDescriptorReplaces` | `packages/web/src/lib/validationPlanAdapter.js:200-212` | two valid descriptors with one id and different arguments: the first is gone and nothing is refused |
| `PlanAdapter.FiledNeverConflict` | `packages/web/src/lib/validationPlanAdapter.js:344-350` | so no two entries can conflict |
| `PlanAdapter.CompiledPlanShape` | `packages/web/src/lib/validationPlanAdapter.js:114-363` | every compiled plan is numbered in order, of the two known kinds of step, and lists their commands once each; in observed mode it holds template steps only |
| `PlanAdapter.AcceptanceOrderBlind` | `packages/web/src/lib/validationPlanAdapter.js:329-342` | the acceptance policy does not depend on the order of requirements |
| `PlanAdapter.NumberedIdsDistinct` | `packages/web/src/lib/validationPlanAdapter.js:192-203` | step ids never repeat |
| `PlanContents.PlanHoldsExactlyTheAsked` | `packages/web/src/lib/validationPlanAdapter.js:134-330` | main result, any requirements, evidence and mode: the steps are, in order and numbered by position, what each requirement asks for: its descriptor in selected mode, else every command of its mapping, else itself |
| `PlanContents.TestAndBuildAreAsked` | `packages/web/src/lib/validationPlanAdapter.js:49-53` | a plan for `test_or_build_result` runs test and then build with their npm scripts |
| `PlanContents.KnownRequirements` | `packages/web/src/lib/validationPlanAdapter.js:48-70` | which requirements are known, which name a policy and which ask for a command |
| `PlanContents.FirstReferenceFound` | `packages/web/src/lib/validationPlanAdapter.js:80-89` | the descriptor of a requirement is that of the first CI workflow reference naming it |
| `PlanContents.UnusableIsVisible` | `packages/web/src/lib/validationPlanAdapter.js:141-200` | a recorded descriptor that cannot run says so with a reason and carries nothing to run |
| `PlanContents.PlanRestExactly` | `packages/web/src/lib/validationPlanAdapter.js:332-363` | acceptance policies, unmapped requirements, commands and features of the plan, read off the requirements |
| `PlanContents.AcceptanceNames` | `packages/web/src/lib/validationPlanAdapter.js:332-342` | the acceptance policy joins all policies in sorted order |
| `ValidatorRunner.BuildStepMeta` | `packages/executor-service/src/validatorRunner.js:298-305` | the metadata map keeps the last step of each command |
| `ValidatorRunner.RunEchoing` | `packages/executor-service/src/validatorRunner.js:307-311` | a command runs under the id the map holds for it |
| `ValidatorRunner.RunOne` | `packages/executor-service/src/validatorRunner.js:307-431` | one command: shape-invalid, policy-rejected, descriptor, template or unknown |
| `ValidatorRunner.RunCommands` | `packages/executor-service/src/validatorRunner.js:291-507` | results in dispatch order, aggregate, verdict and the executed-steps projection |
| `ValidatorRunner.AggregateIs` | `packages/executor-service/src/validatorRunner.js:434-435` | aggregate: null if any status is, else the first non-zero status, else zero |
| `ValidatorRunner.VerdictIs` | `packages/executor-service/src/validatorRunner.js:441-454` | verdict: fail if any rejected, else inconclusive if any status is null, else pass exactly when all are zero |
| `ValidatorRunner.RunInDocker` | `packages/web/src/lib/dockerExecutorBackend.js:408-449` | one command in the Docker backend: echoed id and source, template or rejection |
| `ValidatorRunner.RunDockerCommands` | `packages/web/src/lib/dockerExecutorBackend.js:395-502` | the Docker loop: results, aggregate where the last failure wins, verdict and executed-steps projection |
| `ValidatorRunner.BackendsAgree` | `packages/web/src/lib/dockerExecutorBackend.js:454-484` | without descriptors and with a production image both backends reach the same verdict on every run |
| `PlanExecution.DispatchIsPlanOrder` | `packages/web/src/lib/sandboxRunner.js:109-115` | a numbered plan is dispatched command by command in plan order |
| `PlanExecution.CompiledDispatches` | `packages/web/src/lib/sandboxRunner.js:63-115` | every compiled plan, in either mode, is such a plan |
| `PlanExecution.ReportedMatches` | `packages/executor-service/src/validatorRunner.js:307-507` | apart from the id, the report matches the step exactly when it ran as planned |
| `PlanExecution.EchoIsLastSharer` | `packages/executor-service/src/validatorRunner.js:298-311` | the id echoed for a command is that of the last step sharing it |
| `PlanExecution.EchoesDistinct` | `packages/executor-service/src/validatorRunner.js:298-311` | every step gets its own id back if and only if no two steps share a command |
| `PlanExecution.DispatchedExactly` | `packages/web/src/lib/planExecutionConformance.js:117-247` | main result: a numbered plan run through the executor is exact if and only if it is non-empty, its commands are distinct and every step ran as planned |
| `PlanExecution.ObservedPlanExact` | `packages/web/src/lib/validationPlanAdapter.js:114-363` | main result: in observed mode, all commands started and no descriptor under a dispatched id, a compiled plan is exact if and only if it is non-empty and its commands are distinct |
| `PlanExecution.LintTwiceDiverges` | `packages/web/src/lib/validationPlanAdapter.js:279-321` | asking for a requirement and for its command by name can never be exact |
| `DispatchLaws.DispatchSorts` | `packages/web/src/lib/sandboxRunner.js:109-115` | any plan, numbered or not: steps are tried by ascending sequence, none lost or repeated |
| `DispatchLaws.DispatchIsStable` | `packages/web/src/lib/sandboxRunner.js:109-115` | steps with the same number keep their order |
| `DispatchLaws.OnlyEmptyDropped` | `packages/web/src/lib/sandboxRunner.js:115` | only empty command ids are left out |
| `DispatchLaws.DockerAggregateIs` | `packages/web/src/lib/dockerExecutorBackend.js:450-454` | Docker's aggregate: null if any status is, else the last failure, else zero |
| `DispatchLaws.DockerVerdictIs` | `packages/web/src/lib/dockerExecutorBackend.js:465-484` | Docker's verdict: inconclusive on a null status, fail on a failure, pass on a production image only |
| `DispatchLaws.DockerReportedMatches` | `packages/web/src/lib/dockerExecutorBackend.js:430-448` | what Docker reports matches a template step exactly when it started with the planned arguments |
| `DispatchLaws.OutcomesReported` | `packages/executor-service/src/validatorRunner.js:307-431` | what ran is reported as it ended, by either backend, and anything else as not having ended |
| `DispatchLaws.RejectedDescriptorFails` | `packages/executor-service/src/validatorRunner.js:307-454` | whatever the containers report, a run that dispatches an unacceptable descriptor fails |
| `ReceiptGate.PushMissingFeatures` | `packages/web/src/lib/resultEligibility.js:66-72` | one code per missing feature, in order |
| `ReceiptGate.DeriveResultEligibility` | `packages/web/src/lib/resultEligibility.js:41-105` | all reason codes in order; eligible exactly when there is none |
| `ReceiptGate.EligibleExactly` | `packages/web/src/lib/resultEligibility.js:41-105` | eligible if and only if all eight conditions hold |
| `ReceiptGate.RunSandboxVerification` | `packages/web/src/lib/sandboxRunner.js:440-825` | verdict and receipt from apply result, backend result and storage; for an unapplied patch the whole inconclusive receipt with no execution on record |
| `ReceiptGate.PassExactly` | `packages/web/src/lib/sandboxRunner.js:591-825` | main result: the runner passes if and only if the backend passed without timeouts, the relation is exact, features suffice, the backend is pass-capable and reachable, image identity, evidence and schema are complete, and any report was stored |
| `ReceiptGate.PassReportStored` | `packages/web/src/lib/sandboxRunner.js:706-746` | a passing receipt names a report only if it was stored |
| `ReceiptGate.ExactNeedsSteps` | `packages/web/src/lib/planExecutionConformance.js:73-104` | an exact relation needs steps, and only they matter |
| `ReceiptGate.GateAcceptsPassExactly` | `packages/web/src/lib/validatorReceiptGate.js:42-191` | main result: given the same plan, the gate accepts a passing receipt if and only if an executor-service receipt carries report hash and reference |
| `ReceiptGate.GateAcceptsOnlyExact` | `packages/web/src/lib/validatorReceiptGate.js:42-191` | main result: whatever the gate accepts with a plan recomputes to exact, whoever wrote it, and passes the separate conformance check |
| `ReceiptGate.SharedCommandNeverPasses` | `packages/web/src/lib/sandboxRunner.js:591-620` | a plan whose steps share a command never passes |
| `ReceiptGate.CleanRun` | `packages/executor-service/src/validatorRunner.js:441-454` | for steps that ran as planned, a pass without timeouts means each returned zero in time |
| `ReceiptGate.CompiledPlanPassesExactly` | `packages/web/src/lib/sandboxRunner.js:355-825` | main result, end to end: requirements compiled in either mode, dispatched and run pass if and only if there is a step, commands are distinct, every step ran as planned with status 0 in time, and backend, image and storage are fit |
| `GateLaws.VerdictExactly` | `packages/web/src/lib/sandboxRunner.js:588-826` | main result: the verdict is the backend's own if timeouts, relation, features, backend and image allow to believe it, and inconclusive otherwise or when a passing report was not stored |
| `GateLaws.ReceiptRecords` | `packages/web/src/lib/sandboxRunner.js:629-804` | what the receipt records: verdict, relation, steps, backend, image and report |
| `GateLaws.ReasonsExactly` | `packages/web/src/lib/resultEligibility.js:58-104` | each reason code is given exactly when what it says is so |
| `GateLaws.GateWithoutPlan` | `packages/web/src/lib/validatorReceiptGate.js:42-151` | without a plan the gate accepts exactly a well-bound receipt with no relation or the exact one |
| `GateLaws.GateWithPlan` | `packages/web/src/lib/validatorReceiptGate.js:42-191` | main result: with a plan it accepts exactly when the exact relation is recorded and recomputed from evidence and the required features are recorded |
| `GateLaws.ConformanceIs` | `packages/web/src/lib/validatorReceiptGate.js:205-230` | the separate conformance check looks at the recomputed and the recorded relation alone |
| `ArtifactApplier.JoinSplit` | `packages/web/src/lib/artifactApplier.js:88` | joining the lines of a text gives the text |
| `ArtifactApplier.SplitJoin` | `packages/web/src/lib/artifactApplier.js:135` | splitting joined lines gives the lines |
| `ArtifactApplier.SortEditsSorts` | `packages/web/src/lib/artifactApplier.js:90-91` | the edits are tried by descending start line |
| `ArtifactApplier.SortEditsKeeps` | `packages/web/src/lib/artifactApplier.js:90-91` | and none is lost or repeated |
| `ArtifactApplier.SpliceEdits` | `packages/web/src/lib/artifactApplier.js:93-133` | the splicing loop, with range check, clamp and errors against the current length |
| `ArtifactApplier.ApplyArtifact` | `packages/web/src/lib/artifactApplier.js:58-138` | all entries, each from the original content, or the first failure and no files |
| `ArtifactApplier.InTurnIsSubstitution` | `packages/web/src/lib/artifactApplier.js:90-133` | splicing from the back is substitution of all ranges |
| `ArtifactApplier.SimultaneousSubstitution` | `packages/web/src/lib/artifactApplier.js:90-133` | main result: disjoint edits apply if and only if each fits the original lines (or starts at line one and is clamped), and replace all ranges at once |
| `ArtifactApplier.ListingOrderIrrelevant` | `packages/web/src/lib/artifactApplier.js:90-91` | the order in which disjoint edits are listed does not matter |
| `ArtifactApplier.EntryExact` | `packages/web/src/lib/artifactApplier.js:68-135` | one entry applies exactly when its file exists, it has edits and they fit |
| `ArtifactApplier.LastEntryDecides` | `packages/web/src/lib/artifactApplier.js:63-135` | for any edits, the last entry for a path decides, starting from the original |
| `ArtifactApplier.ArtifactExact` | `packages/web/src/lib/artifactApplier.js:58-138` | main result: an artifact of disjoint edits applies if and only if it has entries and all fit; then every file is listed with its ranges replaced |
| `PatchText.NewLinesAreContent` | `packages/web/src/lib/artifactApplier.js:131` | the replacement lines joined are the new content |
| `PatchText.OneEditText` | `packages/web/src/lib/artifactApplier.js:90-135` | main result: one edit that fits leaves the lines before, the new content verbatim and the lines after, joined by line breaks |
| `PatchText.DisjointEditsText` | `packages/web/src/lib/artifactApplier.js:90-135` | main result: disjoint edits that fit leave the text with every range replaced by its new content verbatim |
| `PatchText.TiesKeepOrder` | `packages/web/src/lib/artifactApplier.js:91` | edits that start at one line are applied in the order in which they are listed |
| `PatchText.FirstFailureReported` | `packages/web/src/lib/artifactApplier.js:93-128` | a failure is that of the first edit, in order of application, that cannot be applied to what is there |
| `PatchText.LastContentCounts` | `packages/web/src/lib/artifactApplier.js:64` | a path listed twice among the sources has its last content |
| `PatchText.OnlyListedPaths` | `packages/web/src/lib/artifactApplier.js:64-66` | and is listed once |
| `PatchText.FirstPlacesOrdered` | `packages/web/src/lib/artifactApplier.js:138` | at its first place |
| `ArtifactApplier.CountEdits` | `packages/web/src/lib/patchArtifactStore.js:150-168` | validates ranges and sums the changed lines |
| `ArtifactApplier.ReadEntry` | `packages/web/src/lib/patchArtifactStore.js:138-174` | one entry's checks and summary |
| `ArtifactApplier.ParseArtifact` | `packages/web/src/lib/patchArtifactStore.js:124-187` | all entries in order, their total, and every error |
| `PatchText.CountOfEdit` | `packages/web/src/lib/patchArtifactStore.js:157-167` | what is counted for an edit, in line breaks of its content and lines named |
| `PatchText.SummaryExactly` | `packages/web/src/lib/patchArtifactStore.js:124-187` | one summary per entry in order, with path, count and change type, or the error of the first bad entry |
| `ArtifactAcceptance.AcceptedExactly` | `packages/web/src/lib/artifactApplier.js:90-133` | main result, any edits: they are accepted if and only if every range is valid and each edit not starting at line one ends within the file as the edits applied before it left it; the same as one number of lines needed |
| `ArtifactAcceptance.NeededExactly` | `packages/web/src/lib/artifactApplier.js:111-132` | the lines needed, spelled out edit by edit with the lines gained before each |
| `ArtifactAcceptance.AgreesExactly` | `packages/web/src/lib/artifactApplier.js:111-132` | main result, any edits: the check agrees with the original file's length unless that lies between the lines needed and the last line named; which way it then errs |
| `ArtifactAcceptance.DisjointAgrees` | `packages/web/src/lib/artifactApplier.js:111-132` | for disjoint edits the file's length never lies between the two |
| `ArtifactAcceptance.OverlapEscapesRangeCheck` | `packages/web/src/lib/artifactApplier.js:111-132` | an input: an edit past the end of the file is applied to lines an overlapping edit added |
| `ArtifactAcceptance.OverlapRefusesFittingEdit` | `packages/web/src/lib/artifactApplier.js:111-132` | an input: an edit within the file is refused after an overlapping edit removed its lines |
| `ArtifactAcceptance.ArtifactAccepted` | `packages/web/src/lib/artifactApplier.js:58-138` | main result, any artifact: it is applied if and only if it has entries, each naming a file and valid edits, and no file has fewer lines than needed |
| `ArtifactAcceptance.ReadArtifactAccepted` | `packages/web/src/lib/patchArtifactStore.js:124-187` | once an artifact was read, only a missing or too short file makes it fail |
| `LineAccounting.LineCountExactly` | `packages/web/src/lib/artifactApplier.js:128-135` | any edits that apply: the lines of a file become those there, less those taken, plus those brought, but never none |
| `LineAccounting.BoundedExactly` | `packages/web/src/lib/patchArtifactStore.js:157-167` | main result, any edits that apply: the line count changes by at most `lines_changed` if and only if what is taken is made up by the lines reported and brought, an erased file keeping one empty line |
| `LineAccounting.LineCountBounded` | `packages/web/src/lib/patchArtifactStore.js:157-167` | without the sentinel the line count of a file changes by at most `lines_changed`, for any edits that apply |
| `LineAccounting.CoveredExactly` | `packages/web/src/lib/patchArtifactStore.js:159-166` | for disjoint edits that fit a file shorter than the sentinel, if and only if a sentinel edit, should there be one, brings at least half the lines it replaces or meets a one-line file |
| `LineAccounting.SentinelExceedsBound` | `packages/web/src/lib/patchArtifactStore.js:159-166` | an input: with the sentinel it can change by more |
| `LineAccounting.UncountedExactly` | `packages/web/src/lib/patchArtifactStore.js:177-179` | nothing is counted exactly when every edit erases to the sentinel |
| `LineAccounting.ChangeIsAccounted` | `packages/web/src/lib/patchArtifactStore.js:149-187` | main result, any artifact read and applied: files no entry names are unchanged, and each other changes by at most what the summary reports for its last entry if and only if that entry's edits are accounted for |
| `GracefulShutdown.Orchestrator.constructor` | `packages/web/src/lib/gracefulShutdown.js:46-50` | nothing started |
| `GracefulShutdown.Orchestrator.CloseEachWorker` | `packages/web/src/lib/gracefulShutdown.js:93` | workers are closed in turn up to the first that throws |
| `GracefulShutdown.Orchestrator.BeginStep` | `packages/web/src/lib/gracefulShutdown.js:54-66` | a step starts inside the wrapper that logs its failure |
| `GracefulShutdown.Orchestrator.Shutdown` | `packages/web/src/lib/gracefulShutdown.js:106-123` | the first trigger starts the body and the timer, later ones change nothing |
| `GracefulShutdown.Orchestrator.Settle` | `packages/web/src/lib/gracefulShutdown.js:79-103` | a settled step starts the next or exits |
| `GracefulShutdown.Orchestrator.Deadline` | `packages/web/src/lib/gracefulShutdown.js:71-76` | the timer exits with 1 |
| `GracefulShutdown.UnderwayExits` | `packages/web/src/lib/gracefulShutdown.js:68-104` | the exit code of a shutdown under way, for every further sequence of events |
| `GracefulShutdown.ExitExactly` | `packages/web/src/lib/gracefulShutdown.js:46-124` | main result, every interleaving: exit 0 if and only if the first trigger was no crash and four steps settled before the deadline; 1 if it was a crash and they settled, or the deadline came first; none otherwise |
| `GracefulShutdown.CleanupOnce` | `packages/web/src/lib/gracefulShutdown.js:106-123` | main result: the body runs once if triggered, its calls are the steps' in order, and no resource is closed twice |
| `GracefulShutdown.FailuresContained` | `packages/web/src/lib/gracefulShutdown.js:54-66` | runs that differ only in failing steps make the same calls and end the same way |
| `GracefulShutdown.LogIsFailures` | `packages/web/src/lib/gracefulShutdown.js:54-66` | before the deadline the log is exactly the failures |
| `GracefulShutdown.CleanupCalls` | `packages/web/src/lib/gracefulShutdown.js:90-103` | main result: the calls made are always a beginning of server, workers, database, Redis, and all of it once the body completed |
| `CommentMarkers.ScanPage` | `packages/web/src/lib/commentMarkers.js:75-80` | the matches of one page, in order |
| `CommentMarkers.FindCommentByMarker` | `packages/web/src/lib/commentMarkers.js:56-102` | the paginated loop with its early exit |
| `CommentMarkers.SearchIsFullScan` | `packages/web/src/lib/commentMarkers.js:56-102` | main result: for any length the search agrees with a full scan: none, the one, or ambiguous |
| `CommentMarkers.Issue.PostMarkedComment` | `packages/web/src/lib/commentMarkers.js:121-160` | create, update or refuse, and the new list of comments |
| `MarkerOwnership.AmbiguityBlocks` | `packages/web/src/lib/commentMarkers.js:127-133` | refused exactly when two or more comments match, changing nothing |
| `MarkerOwnership.MarkerIsHidden` | `packages/web/src/lib/commentMarkers.js:23-25` | for kinds and ids without `>` a marker is one hidden HTML comment, closed at its end and nowhere before |
| `MarkerOwnership.PostKeepsNumbering` | `packages/web/src/lib/commentMarkers.js:135-158` | comment numbers stay distinct |
| `MarkerOwnership.OwnershipOverRuns` | `packages/web/src/lib/commentMarkers.js:121-160` | main result: from at most one marked comment, every run of posts for the marker, and for others that keep apart, leaves at most one, holding the latest body |
| `MarkerOwnership.MarkersExact` | `packages/web/src/lib/commentMarkers.js:23-36` | for kinds without colon and `<`, ids without space and any bodies: a text includes a marker if and only if it is its own or stands in the visible body |
| `MarkerOwnership.RunsOwn` | `packages/web/src/lib/commentMarkers.js:121-160` | main result: on a fresh issue posts of such kinds and ids, whose bodies show none of the other markers, leave one comment per marker, holding its latest text |
| `MarkerOwnership.QuotingLosesOwnership` | `packages/web/src/lib/commentMarkers.js:121-160` | the condition on bodies is exact: of two posts the first keeps its comment if and only if neither body shows the other's marker |
| `MarkerOwnership.EveryRunOwnsExactly` | `packages/web/src/lib/commentMarkers.js:121-160` | main result: for any set of posts of such kinds and ids, every run over them leaves each of their markers owned with its latest text if and only if no body shows the marker of another |

## Left out

- Error texts and token positions: errors are kept as constructors with their identifying parts.
- JavaScript strings are sequences of UTF-16 units; here they are sequences of `char`, ordered by code.
- Floating point: number literals are reals without rounding; NaN, infinities and negative zero are not modelled.
- YAML loading, `undefined`, dates, functions and other non-JSON values in configurations.
- Lookups of `Object.prototype` members other than in the keyword table (filters, context variables, mappings).
- `validateConfig` beyond the dangerous-key search; what it guarantees is the precondition of the agreement with `parseConfig`.
- In-place update of nested configuration trees: targets are passed and returned as values, provenance is a field. Aliasing is not captured; the source clones the defaults and copies objects, but shares arrays with the layers.
- The cycle guard of `mergeDeep`: trees are finite, so the guard never fires on them.
- Version vector and source revisions of the resolver, which are read off the inputs; its explicit keys are a set, not a sorted list.
- SHA-256 is a parameter that is injective where a theorem needs it.
- ExprEvaluator: what operators do with operands that JavaScript converts first (comparing, multiplying or equating values of different types, negating what is no number), and the JSON text of a tree, are parameters, as are ordering two texts and equating two objects; filters are total functions that may return an error. A call or pipe below an operator in a call argument is looked up under its JSON text, as the source does. Trace texts are kept as structured entries, so formatting is not modelled.
- Receipt fields that no decision reads (output references, limits, runtime versions), plan and input hashes, and the base-commit check.
- Image-reference parsing, backend probing and feature lists are inputs of the runner; storage is a flag that says whether persisting worked.
- Container runs are records of exit code, start and timeout; output capture and redaction are not modelled.
- ApplyArtifact: line numbers are integers by type, so the integer check is not modelled; a missing list counts as an empty one.
- The shutdown model stops at the first exit; a re-entry after it, which the source calls a no-op, is not modelled.
- ExitExactly: time is an event, so how long ten seconds are is not modelled.
- Comment posts do not overlap; failing or concurrent API calls and deletion of comments are not modelled.
- Routes, bots, dashboards, database, quality gates, risk scores, severities, redaction and release scripts, which would add easy members only.
