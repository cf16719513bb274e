# Expressions, engine sessions and layer contracts

A Dafny model of three parts of the workflow linter, and proofs about them.

**The expression language** (`internal/expression`). A lexer and a recursive-descent parser that work step by step,
the syntax tree with its spans, a limit on nesting, and the static analyses over the tree: constant folding, unsound
ternaries, secrets in scripts, values that are safe in scripts, guards on the triggering event, and untrusted inputs.
The stateful parts are classes with loops (`Lexing.Lexer`, `Parsing.Parser`, `GuardCheck.Checker`,
`SecretFlow.SecretScan`, `UntrustedChecker.UntrustedInputChecker`), each proved equal to a recursive specification;
`GuardCheck.Checker` drives the callbacks of `UntrustedInputChecker` as the program does. The
specifications are then related to things defined without them: a grammar of derivations (`Grammar`), a printer
(`RoundTrip`), and an evaluator of expressions in a run (`Semantics`), in which operators return operand values,
`&&`, `||` and `case` evaluate only the operands they need, and library functions and dereferences are parameters.

**The WebAssembly engine session** (`internal/analyzerhost/script_engines.go`). A bounded single-flight cache. Each
critical section is a method on the shared object (`EngineSession`) that refines an atomic step; `EngineRuns` lets any
number of calls interleave their steps, with cancellation, loader results and failures of `Close` methods left open;
`EngineSafety` keeps an invariant through every step, `EngineGuarantees` draws the promises from it, and `EngineErrors`
says which error every call returns.

**The layer contract** (`analyzers/architecture/contract.go`). Validation, a depth-first resolution of the graph of
layers, and the two queries on the result, related to chains of uses.

| files | content |
|---|---|
| `Text`, `Syntax`, `Numbers` | characters, tokens, trees, number literals |
| `Lexing`, `Relexing`, `Parsing`, `Depth` | the lexer, what a token depends on, the parser, the nesting limit |
| `Grammar`, `RoundTrip`, `Spans`, `AcceptedTexts`, `LiteralValue` | what the lexer and parser accept and build, and what spans mean |
| `Semantics`, `ConstantFolding`, `FoldingCompleteness`, `LibraryCalls`, `FormatScanners` | evaluation, and exactly what folds |
| `Ternary`, `SecretFlow`, `ScriptSafety`, `ScriptAcceptance` | analyses of truth, secrets and script texts, sound for evaluation |
| `EventTypes`, `References`, `EventGuards`, `GuardDecisions`, `Typos` | event payloads, what guards say about events, suggestions |
| `GuardCheck`, `GuardReach`, `GuardNarrowing` | the checker's walk, and under which events it checks which nodes |
| `UntrustedInputs`, `UntrustedMatches`, `UntrustedSelections` | untrusted inputs: following accesses, and which paths of the search tree they match |
| `UntrustedChecker`, `UntrustedWalks` | the machine, and what a series of callbacks does |
| `UntrustedStories`, `UntrustedDisturbance`, `UntrustedTargets` | which reports are due, and exactly when they are the ones made |
| `UntrustedVisits`, `UntrustedSerialized`, `UntrustedReach`, `UntrustedAgreement` | the machine driven by a visit and by the checker, what is serialized, and where the two agree |
| `EngineSession`, `EngineRuns`, `EngineSafety`, `EngineGuarantees`, `EngineErrors` | the engine session |
| `LayerGraph`, `PackagePaths`, `LayerContract`, `ContractQueries` | the layer contract |

`dafny verify dfyconfig.toml` checks the project.

## Model

| member | source | states |
|---|---|---|
| Lexing.ScanSteps | internal/expression/expr_lexer.go:468-521 | Reading always ends: every token but the end marker consumes text, and reading the tokens one after the other from any of them gives the same tokens |
| Lexing.Lexer.LexNum | internal/expression/expr_lexer.go:283-355 | The step-by-step reader of numbers (sign, hex, no leading zero, fraction, exponent, what may follow) reads the token, or stops at the error, that the number grammar gives |
| Lexing.Lexer.LexString | internal/expression/expr_lexer.go:385-397 | A string ends at the first quote that is not doubled; without one it is an error at the end of input |
| Lexing.Lexer.LexToken | internal/expression/expr_lexer.go:399-521 | Each kind of token is read as its shape says, in particular the two-character operators |
| Lexing.Lexer.Next | internal/expression/expr_lexer.go:468-521 | Whitespace is skipped, one token is read, and only the first error is kept |
| Lexing.LexExpression | internal/expression/expr_lexer.go:535-548 | All tokens through the end marker and the offset behind it, or the first error and where the lexer stood |
| Relexing.ShapeLocal | internal/expression/expr_lexer.go:283-397 | A token depends on its own characters and on a next character that cannot extend it, wherever the text stands |
| Relexing.ShapeStops | internal/expression/expr_lexer.go:273-281 | What follows a token that was read can never extend it |
| Parsing.Parser.Next | internal/expression/expr_parser.go:64-74 | Consuming a token moves exactly one token on, and remembers the consumed one for spans |
| Parsing.Parser.ParseIdentExpr | internal/expression/expr_parser.go:85-136 | Words, literals and calls: the node, the tokens consumed and the error position are those of the specification |
| Parsing.Parser.ParsePrimaryExpr | internal/expression/expr_parser.go:138-215 | Literals out of range, unclosed parentheses and unexpected tokens fail where the specification says |
| Parsing.Parser.ParsePostfixOp | internal/expression/expr_parser.go:217-259 | The loop over dereferences builds the same left-nested tree as the recursive specification |
| Parsing.Parser.ParsePrefixOp | internal/expression/expr_parser.go:261-274 | Negations nest to the right, with the span from the first mark |
| Parsing.Parser.ParseCompareBinOp | internal/expression/expr_parser.go:276-308 | Comparisons nest to the right |
| Parsing.Parser.ParseLogicalAnd | internal/expression/expr_parser.go:310-325 | Conjunctions nest to the right and bind tighter than disjunctions |
| Parsing.Parser.ParseLogicalOr | internal/expression/expr_parser.go:327-342 | Disjunctions nest to the right |
| Parsing.Parser.Parse | internal/expression/expr_parser.go:353-389 | Lexing errors come before syntax errors, then leftover tokens, then the nesting limit; a success leaves the lexer just behind the end marker |
| Grammar.Complete | internal/expression/expr_parser.go:85-342 | The parser accepts every derivation of the grammar at its level and builds the tree of that derivation |
| Grammar.Sound | internal/expression/expr_parser.go:85-342 | Whatever the parser accepts has a derivation over exactly the tokens consumed, and the tree is the derivation's |
| RoundTrip.Recognised | internal/expression/expr_parser.go:353-389 | Every derivation, with redundant parentheses and any whitespace and any text after the end marker, parses to its tree, or is refused for its nesting |
| RoundTrip.QuotedValue | internal/expression/expr_parser.go:182-188 | Doubling the quotes of a text and quoting it gives a literal with that value |
| RoundTrip.RoundTrip | internal/expression/expr_parser.go:353-389 | Printing any expression with names, tokens and nesting in order, with the parentheses it needs, any whitespace and any following text, and parsing it gives the expression back up to spans |
| RoundTrip.StripDepth | internal/expression/expr_parser.go:391-435 | The nesting counted does not depend on spans |
| AcceptedTexts.ParsedIsLaid | internal/expression/expr_parser.go:353-389 | Any text that parses is a derivation's tokens with whitespace that keeps them apart, an end marker, and the text behind the offset returned; the tree is the derivation's |
| AcceptedTexts.AcceptedExactly | internal/expression/expr_parser.go:353-389 | Lexer and parser together accept exactly the texts that lay out some derivation whose tree is not nested too deeply |
| AcceptedTexts.ParsedNames | internal/expression/expr_lexer.go:273-281 | In every parsed tree the names of variables, properties and functions consist of letters, digits, underscores and hyphens |
| AcceptedTexts.ParsedNameCharacters | internal/expression/expr_lexer.go:273-281 | Every character of a name anywhere in a parsed tree is a letter, a digit, an underscore or a hyphen |
| AcceptedTexts.IdentifierParses | internal/expression/expr_lexer.go:273-281 | Every text of such characters that starts with no digit and no hyphen and is no keyword parses, with an end marker, to the variable of that name |
| LiteralValue.QuotedLiteral | internal/expression/expr_parser.go:461-474 | An interpolation that is one quoted text evaluates to that text, whatever the whitespace, and to nothing when text follows it |
| LiteralValue.LiteralExactly | internal/expression/expr_parser.go:461-474 | A text has a literal value exactly when it is the interpolation mark followed, to its last character, by a layout of one string literal in any number of parentheses, and the value is that literal's |
| Depth.ExpressionExceedingDepth | internal/expression/expr_parser.go:391-435 | The search with an explicit stack ends, finds the node the recursive search finds, and finds none exactly when the flattened depth is at most 50 |
| Depth.ExceedingIsDepth | internal/expression/expr_parser.go:391-435 | From any starting depth, the search finds nothing exactly when the flattened depth fits into what is left |
| Depth.ChainDepth | internal/expression/expr_parser.go:391-435 | A chain of one logical operator over leaves passes at any length |
| Spans.TokensTile | internal/expression/expr_lexer.go:204-241 | Tokens tile the source: between one and the next there is only whitespace, and each holds the text of its range |
| Spans.TokensInOrder | internal/expression/expr_lexer.go:204-241 | Tokens never overlap and keep their order |
| Spans.SpansNest | internal/expression/expr_parser.go:64-79 | The span of every node lies within the span of its parent and within the source |
| Spans.SpanReparses | internal/expression/expr_parser.go:138-154 | The text of any node's span with an end marker parses to exactly that node, moved to the front |
| ConstantFolding.ConstantConditionFormat | internal/expression/condition_constant.go:267-297 | The loop over a format builds the text of the recursive specification, and fails exactly when it does |
| ConstantFolding.FoldSound | internal/expression/condition_constant.go:30-187 | A folded value is what the expression evaluates to in every run; with `FoldingCompleteness.FoldsExactly`, exactly the portable expressions fold |
| ConstantFolding.FoldCaseSound | internal/expression/condition_constant.go:30-187 | A folded case call selects the branch that every run selects |
| ConstantFolding.FoldApplySound | internal/expression/condition_constant.go:30-187 | A folded call of a library function has the value the function returns |
| ConstantFolding.ContainsSound | internal/expression/condition_constant.go:207-228 | A search in a list is decided only when every run decides it so, though some comparisons are unknown |
| ConstantFolding.FoldFormatSound | internal/expression/condition_constant.go:267-297 | A format that folds gives the text every run gives |
| FoldingCompleteness.FoldsExactly | internal/expression/condition_constant.go:30-187 | An expression folds exactly when it evaluates and every part that a run evaluates is a literal, an operator or a foldable call, no comparison meeting two composite values; it then folds to its value |
| FoldingCompleteness.FoldApplyExactly | internal/expression/condition_constant.go:86-187 | For each library function, the exact condition on known arguments under which a call folds, and that it folds to what the function returns |
| FoldingCompleteness.ContainsExactly | internal/expression/condition_constant.go:151-163 | A search in a list is decided exactly when it need not compare two composite values |
| FoldingCompleteness.FoldFormatExactly | internal/expression/condition_constant.go:267-297 | A format folds exactly when its fields parse and every index, signed or not, selects an argument that prints alike everywhere |
| FoldingCompleteness.OperatorsFold | internal/expression/condition_constant.go:30-85 | Literals under negation, logical operators, comparisons and case fold to what they evaluate to, and to nothing exactly when evaluation fails |
| FoldingCompleteness.LeftDecides | internal/expression/condition_constant.go:48-56 | A portable left operand that decides folds the whole, whatever stands on the right |
| FoldingCompleteness.NumbersCompare | internal/expression/condition_constant.go:207-265 | Comparing literals other than texts folds to the order of the numbers they count as, minus zero being zero, null and false 0 and true 1 |
| FoldingCompleteness.TextsCompare | internal/expression/condition_constant.go:207-212 | Comparing two texts folds to the order of their case-folded UTF-16 code units, first difference first |
| FoldingCompleteness.FalsyLiterals | internal/expression/condition_constant.go:12-25 | A negated literal folds to true exactly when it is null, false, a zero or the empty text |
| LibraryCalls.PredicatesLocate | internal/expression/condition_constant.go:151-177 | contains, startsWith and endsWith of two texts fold to whether the second, case folded, stands somewhere in the first, at its start or at its end |
| LibraryCalls.FormatCopies | internal/expression/condition_constant.go:267-276 | Text without braces in front of a format stands for itself |
| LibraryCalls.FormatUnescapes | internal/expression/condition_constant.go:277-281 | A doubled brace stands for one |
| LibraryCalls.FormatSubstitutes | internal/expression/condition_constant.go:282-297 | A field with a decimal index stands for the text of that argument, and there is no value when there is no such argument |
| LibraryCalls.JoinContinues | internal/expression/condition_constant.go:109-143 | Joining two lists one after the other puts the separator between them too |
| ConstantFolding.ConstantIsIndependent | internal/expression/expr_sema.go:1431-1462 | A constant expression evaluates alike in any two runs whose constant functions agree |
| FormatScanners.ParseFormatFuncSpecifiers | internal/expression/expr_sema.go:37-103 | The loop with its two marks finds the indices the recursive scanner finds |
| FormatScanners.SpecifiersAreUnsigned | internal/expression/expr_sema.go:37-103 | In a format whose fields parse, the scanner finds exactly the indices written without a sign |
| FormatScanners.ScannersAgree | internal/expression/condition_constant.go:267-297 | For every format that succeeds, the scanner finds all substituted indices exactly when each signed index also occurs unsigned |
| FormatScanners.SignsDisagree | internal/expression/expr_sema.go:37-103 | A signed field is substituted though the scanner misses it |
| Ternary.TernaryOperandTruthy | internal/expression/expr_ternary.go:33-56 | The truth the analysis knows of an operand is that of the recursive specification |
| Ternary.TernaryCaseTruthy | internal/expression/expr_ternary.go:58-87 | The loop over branches knows a truth exactly when the branches that may be selected agree on it |
| Ternary.OperandTruthySound | internal/expression/expr_ternary.go:33-56 | A known truth is the truth of the value in every run |
| Ternary.CaseTruthySound | internal/expression/expr_ternary.go:58-87 | A known truth of a case call is that of the branch any run selects |
| Ternary.FoldedIsKnown | internal/expression/expr_ternary.go:33-87 | Whatever folds to a constant is known, with the truth of the constant |
| Ternary.KnownExactly | internal/expression/expr_ternary.go:33-87 | The truth of an operand is known exactly when reading each part that does not fold as either truth excludes the other truth, for instance of x && '' by its right operand alone |
| Ternary.CheckUnsoundTernaries | internal/expression/expr_ternary.go:7-31 | The findings are the middles of the unsound ternaries, in the order of a visit |
| Ternary.FindingsExactly | internal/expression/expr_ternary.go:7-31 | A middle operand is reported exactly when an unsound ternary with that middle stands somewhere in the expression |
| Ternary.UnsoundSelectsFallback | internal/expression/expr_ternary.go:7-31 | A reported `a && b \|\| c` has the value of `c` in every run |
| SecretFlow.SecretScan.Visit | internal/expression/secret_interpolation.go:8-65 | The recursive scan reports the accesses of the specification, in order, following only values that can be selected |
| SecretFlow.CheckSecretInterpolations | internal/expression/secret_interpolation.go:8-65 | The findings of a whole expression |
| SecretFlow.SecretExactly | internal/expression/secret_interpolation.go:67-90 | An access counts as a secret exactly when it starts at the secrets context, or at the github context with a first key that is known to be token |
| SecretFlow.FindingsFeed | internal/expression/secret_interpolation.go:8-65 | Every finding is an access to a secret that the value can be made of: none in a comparison, a negation, a predicate, a hash, an index, the condition of a case call or on the left of && |
| SecretFlow.OnlyEscapesAreMissed | internal/expression/secret_interpolation.go:8-90 | Without findings, the value of a run carries a secret exactly when that run selects it from a computed key of the github context that names the token, or from the github context as a whole |
| SecretFlow.EscapesAreUnseen | internal/expression/secret_interpolation.go:8-90 | A scan for computed keys of github and for github as a whole, in the places the findings look at, passes every place a secret can escape through |
| SecretFlow.NoFindingsNoSecret | internal/expression/secret_interpolation.go:8-90 | When the findings and that scan are both empty, no run's value carries a secret |
| SecretFlow.FoldedIsClean | internal/expression/secret_interpolation.go:67-90 | Constants carry no secret |
| SecretFlow.ComputedTokenMissed | internal/expression/secret_interpolation.go:67-90 | Every computed key of the github context goes unreported, and the value carries the token exactly in the runs that compute its name |
| SecretFlow.WholeContextMissed | internal/expression/secret_interpolation.go:8-65 | A function of the whole github context, such as toJSON(github), goes unreported, and its value carries the token whenever the context does |
| SecretFlow.ComputedTokenLeaks | internal/expression/secret_interpolation.go:67-90 | In a run whose matrix.k is 'token', github[matrix.k] is the token, and has no finding |
| SecretFlow.WholeContextLeaks | internal/expression/secret_interpolation.go:8-65 | In the same run toJSON(github) carries the token, and has no finding |
| ScriptSafety.SafeExpressionSound | internal/expression/script_interpolation.go:151-228 | In every run in which the accepted references that an accepted expression consists of hold safe values, and the functions return what they are documented to, its value is safe in the sense that `SafeTextExactly` makes exact |
| ScriptSafety.SafeTextExactly | internal/expression/script_interpolation.go:68-79 | A text is a safe literal exactly when it holds no character that shells treat specially, listed one by one, no control character and nothing beyond ASCII |
| ScriptSafety.QuotedExactly | internal/expression/script_interpolation.go:68-106 | A quoted text is accepted as a data argument exactly when it holds no such character, and as a word exactly when it is moreover nonempty, not all digits and no keyword |
| ScriptSafety.InterpolatedText | internal/expression/script_interpolation.go:151-228 | What an accepted expression interpolates in such a run holds no such character, fractions and large numbers apart; in a word position it is a nonempty text, not all digits and no keyword |
| ScriptAcceptance.MadeOfSafeAccepted | internal/expression/script_interpolation.go:151-273 | Whatever logical operators and case calls select among safe texts, accepted references and, for data arguments, scalars, predicates, hashes and status functions is accepted |
| ScriptSafety.SafeTruthySound | internal/expression/script_interpolation.go:230-248 | Accepted for its truthy results, an expression that is truthy in such a run has a safe value |
| ScriptSafety.SafeFalsySound | internal/expression/script_interpolation.go:250-273 | Accepted for its falsy results, an expression that is falsy in such a run has a safe value |
| ScriptSafety.SafeCaseSound | internal/expression/script_interpolation.go:151-228 | An accepted case call selects a safe value |
| ScriptSafety.ListedExactly | internal/expression/script_interpolation.go:151-228 | A reference accepted from the lists is safe in every run in which the listed members of the contexts are, exactly when its key is looked up as it is read |
| ScriptSafety.OrdinalReadsSafely | internal/expression/script_interpolation.go:151-228 | In such a run all listed references of an expression are safe when none has another key |
| ScriptSafety.FoldedReferenceMisleads | internal/expression/script_interpolation.go:151-228 | In a word position a key that folds into repository is accepted, and is null in some such run, which is no safe word |
| EventTypes.NewEventType | internal/expression/event_variants.go:18-31 | The loop over variants merges their payloads in order |
| EventTypes.CombineResolves | internal/expression/event_variants.go:33-60 | For all payload types, a path of one of two payloads is lost in their merge exactly when a member that one lists and the other only maps hides it; and the merge gains a path exactly where the types conflict |
| EventTypes.MergeIsWider | internal/expression/expr_type.go:41-182 | Merging two types that are not both objects or both arrays gives the one that can stand for both, numbers and booleans standing for strings, and anything when neither can |
| EventTypes.CombineAt | internal/expression/event_variants.go:33-60 | At a path that both payloads list, their merge has the merge of what they have there |
| EventTypes.ProjectionLoses | internal/expression/event_variants.go:18-60 | For any number and order of variants, a path of some variant is lost in the merge exactly when a step of the merge hides it and no later variant has it |
| EventTypes.ProjectionResolves | internal/expression/event_variants.go:18-60 | A path that no step hides resolves in the merge when it resolves in some variant |
| EventTypes.ClosedProjectionResolves | internal/expression/event_variants.go:18-60 | In particular when no payload has open members, in any order |
| EventTypes.MappedMembersAreLost | internal/expression/event_variants.go:33-60 | An example of a path that is lost: a listed member of one event hides the open members of another |
| EventTypes.OrderMatters | internal/expression/event_variants.go:18-60 | A member that is a number, a boolean and a string in three events is merged to a string in one order of the events and to anything in another |
| References.ReferenceIsPath | internal/expression/event.go:94-118 | A reference without dots in its keys that reads like a path is an access along it exactly when its literal keys are looked up as they are read |
| References.PathReads | internal/expression/event.go:94-118 | Every access along a path of nonempty components reads as that path, letter case aside |
| EventGuards.ActionReference | internal/expression/event.go:94-118 | A reference that reads as the action of the event is an access to it exactly when it is neither the github context indexed with a key that holds a dot, nor the event indexed with a key whose letters fold into ASCII only when they are read |
| EventGuards.VariantValueSound | internal/expression/event_variants.go:95-153 | What a variant says about any other reference is what it evaluates to in every run the variant describes; what it says is stated exactly by `GuardDecisions.ComparisonDecided` |
| EventGuards.GuardValueSound | internal/expression/event_variants.go:95-153 | A guard that is decided for a variant without the comparisons of those accesses has that truth in every run the variant describes; `GuardDecisions.DecidedExactlyBy` says which guards are decided |
| EventGuards.MisreadFails | internal/expression/event_variants.go:95-153 | Whenever a comparison of one of those accesses is decided for a variant, some run the variant describes evaluates it the other way |
| EventGuards.DecidedExactly | internal/expression/event_variants.go:95-153 | A decided comparison has the decided truth in every run the variant describes exactly when it does not compare one of those accesses |
| GuardDecisions.ComparisonDecided | internal/expression/event_variants.go:115-152 | An equality, in either order, of the event name or the action with something that folds to a text is decided whenever the variant has an event, a named action, or a payload that lists its members without an action, which counts as null; its truth is that of comparing the two values |
| GuardDecisions.GuardDecided | internal/expression/event_variants.go:95-153 | A guard that such comparisons make true, or false, by the truth tables of negation, conjunction and disjunction is known to be so |
| GuardDecisions.DecidedExactlyBy | internal/expression/event_variants.go:95-153 | Without misreading comparisons, nothing else is known |
| GuardDecisions.DecidedIsDropped | internal/expression/event_variants.go:62-83 | A variant that makes a guard have the other truth is dropped |
| GuardDecisions.GuardDropsExactly | internal/expression/event_variants.go:62-83 | A guard that stays decided without misreading drops exactly the variants that make it have the other truth, keeps the order of the others, and leaves a branch unchecked exactly when it drops them all |
| EventGuards.DottedKeyMisleads | internal/expression/event_variants.go:95-153 | For the action 'opened', the guard github['event.action'] == 'opened' is decided true, and is false in some run the variant describes |
| EventGuards.FoldedKeyMisleads | internal/expression/event_variants.go:95-153 | The same for the guard github.event['act\U{0130}on'] == 'opened', whose key holds a capital I with a dot |
| GuardCheck.Checker.EnterGuard | internal/expression/event_variants.go:62-93 | The loop keeps, in order, the variants the guard does not exclude, and refuses a branch that none reaches |
| GuardCheck.Checker.CheckNode | internal/expression/expr_sema.go:1361-1396 | The checks made are those of the specification, each under its variants; the variants are restored, and the callbacks of the untrusted-input checker are called in that order, before and after what is checked inside each node |
| GuardCheck.Checker.CheckLogicalOp | internal/expression/expr_sema.go:1338-1359 | Both operands are walked, the right one under the guard that the left one makes |
| GuardCheck.Checker.CheckWithNarrowing | internal/expression/expr_sema.go:1313-1336 | Narrowing passes through negations and logical operators to their operands, and neither enters nor leaves them |
| GuardCheck.Checker.CheckCaseBranches | internal/expression/expr_sema.go:1140-1166 | Each branch is checked under its predicate, and the later ones under its negation |
| GuardReach.ReachedIsChecked | internal/expression/event_variants.go:62-93 | For every variant and every run it describes, each node that evaluation reaches is checked with the variant still possible, if every guard decided for the variant stays decided without the comparisons that misread; a maximal access is also entered from no safe call and selected from by nothing |
| GuardReach.PossibleIsChecked | internal/expression/expr_sema.go:1313-1359 | Every node that is no negation and no logical operator, below known functions, is checked with each event among the possible ones that no guard along the path to it is decided against |
| GuardNarrowing.CheckedIsNarrowed | internal/expression/expr_sema.go:1140-1166 | Every check, at any depth, is made for exactly the events, in order, that no guard along the path of its node is decided against: the left operands before right ones, and the conditions before and at branches of case calls; there is at least one such event unless nothing is known of the events |
| Typos.AdjacentTypo | internal/expression/event.go:47-72 | True exactly when the texts are one insertion, deletion, substitution or swap of neighbours apart |
| Typos.EditSymmetric | internal/expression/event.go:47-72 | Being one edit apart is symmetric |
| Typos.CloseName | internal/expression/event.go:74-86 | Over nonempty candidates, suggests a close candidate exactly when all close candidates are one name, letter case aside |
| Typos.OrderDoesNotMatter | internal/expression/event.go:74-86 | Permuting the candidates changes the suggestion at most in letter case |
| UntrustedInputs.FoundInTree | internal/expression/expr_insecure.go:422-452 | Every input an access finds is a path of the search tree |
| UntrustedInputs.InputsInTree | internal/expression/expr_insecure.go:343-375 | Every input reported for an access is the path of a node of the search tree, a leaf of it unless the access is serialized |
| UntrustedMatches.FollowedReaches | internal/expression/expr_insecure.go:258-337 | Following an access reaches exactly the paths of the search tree that its steps match: a name its own key or else "**", an index "*" or else "**" and nothing after a filter, a filter "*" or else every child |
| UntrustedMatches.InputsExactly | internal/expression/expr_insecure.go:343-355 | The inputs of an access are exactly the matched paths that end at a leaf, or all of them when it is serialized |
| UntrustedMatches.AccessReported | internal/expression/expr_insecure.go:343-375 | An access that is looked up has one report, at itself and with exactly those inputs, when there are any |
| UntrustedSelections.SelectionReported | internal/expression/expr_insecure.go:379-420 | When a run selects an access as the value of a serialized expression, the containers its steps match are reported at that access |
| UntrustedSelections.ReportedMayBeSelected | internal/expression/expr_insecure.go:379-420 | Whatever is reported for a serialized expression is an access that it may select, with exactly the containers its steps match |
| UntrustedChecker.UntrustedInputChecker.Compact | internal/expression/expr_insecure.go:244-256 | The in-place loop keeps the present entries, in order, and nothing else |
| UntrustedChecker.UntrustedInputChecker.OnPropAccess | internal/expression/expr_insecure.go:267-281 | The cursors move to the named child or to the one for any name, and those without one are dropped |
| UntrustedChecker.UntrustedInputChecker.OnIndexAccess | internal/expression/expr_insecure.go:283-305 | An index after an object filter only clears the filter; otherwise the cursors move to elements, as `UntrustedMatches.FollowedReaches` says path by path |
| UntrustedChecker.UntrustedInputChecker.OnObjectFilter | internal/expression/expr_insecure.go:307-337 | Whatever the order of iteration, the cursors become the elements or all the children, and leaves are dropped |
| UntrustedChecker.UntrustedInputChecker.EndInput | internal/expression/expr_insecure.go:343-375 | What the access found is reported once, and the state is that of a fresh search |
| UntrustedChecker.UntrustedInputChecker.FollowAccess | internal/expression/expr_insecure.go:422-452 | Succeeds exactly on accesses that start at a variable, with the cursors of the recursive specification |
| UntrustedChecker.UntrustedInputChecker.SerializedContainers | internal/expression/expr_insecure.go:379-420 | Reports the containers of the values that serializing can select |
| UntrustedChecker.UntrustedInputChecker.OnVisitNodeEnter | internal/expression/expr_insecure.go:454-479 | The node is put on the stack, and counted when only its truth is used or when it is a safe call |
| UntrustedChecker.UntrustedInputChecker.OnVisitNodeLeave | internal/expression/expr_insecure.go:482-538 | The node leaves the stack and the counts; inside safe calls nothing else changes |
| UntrustedStories.FindingsExactly | internal/expression/expr_insecure.go:482-545 | For any order of callbacks that visits accesses and serializations whole, the reports made are those due, in order, exactly when no due report was dropped at a selection from a safe call and none was made for an access that starts at one |
| UntrustedStories.StoryIsDue | internal/expression/expr_insecure.go:482-545 | Every report that is due, what each maximal access outside safe calls finds in the search tree, is either made or dropped at a selection from a safe call, in order |
| UntrustedDisturbance.AlwaysDueExactly | internal/expression/expr_insecure.go:482-545 | The reports are those due whatever the search tree, exactly when nothing is selected from a safe call while an access from a variable is being followed |
| UntrustedTargets.MaximalIsFound | internal/expression/expr_insecure.go:482-545 | Every access entered outside safe calls that is not itself selected from is looked up |
| UntrustedTargets.FoundIsMaximal | internal/expression/expr_insecure.go:482-545 | Nothing else is looked up |
| UntrustedVisits.VisitNode | internal/expression/expr_ast.go:307-332 | A visit of any expression restores the stack and both counts and leaves the log that leaving its nodes in turn makes, a selection from a safe call going on with the access visited before it |
| UntrustedVisits.VisitExpression | internal/expression/expr_ast.go:307-332 | A fresh checker driven by a visit reports exactly what is due, or a due report was dropped or another made where a safe call was selected from |
| UntrustedVisits.VisitFindsMaximal | internal/expression/expr_ast.go:307-332 | The accesses a visit looks up are exactly the maximal ones outside safe calls |
| UntrustedSerialized.SerializedIsEmitted | internal/expression/expr_insecure.go:482-538 | In any order of callbacks, the argument of toJSON is looked up whole exactly when the call is entered from no safe call and from nothing that uses only the truth of a node on the way |
| UntrustedSerialized.VisitSerializes | internal/expression/expr_insecure.go:454-538 | A visit looks up an argument whole exactly when a call of toJSON on it stands below no comparison, negation or safe call, on the left of no && and in no condition of a case call |
| UntrustedReach.CheckExpression | internal/expression/expr_sema.go:1398-1428 | Checking an expression, with narrowing by operators and events, reports exactly what is due for the nodes it enters, on the same condition |
| UntrustedReach.ReachedIsLookedUp | internal/expression/expr_sema.go:676-686 | A maximal access that some run of a possible event evaluates is looked up by the check |
| UntrustedReach.ReachedIsReported | internal/expression/expr_sema.go:1398-1428 | A leaf of the search tree that the steps of such an access match is reported as an input at that access, if nothing is selected from a safe call while an access is being followed |
| UntrustedReach.ParsedIsProper | internal/expression/expr_lexer.go:273-281 | What these two ask of the names in an expression holds of every expression that was parsed |
| UntrustedReach.SafeReceiverMisleads | internal/expression/expr_insecure.go:482-522 | For format('{0}{1}', github.event.issue, contains('a', 'b').title) the title of the issue is reported, though nothing reads it and no report is due |
| UntrustedAgreement.AgreesExactly | internal/expression/expr_sema.go:1313-1336 | With no known events, the check looks up exactly what a visit does unless a call of toJSON stands where a visit takes only its truth to be used and the check, having stepped through what asks for it, does not |
| UntrustedAgreement.NothingForgotten | internal/expression/expr_sema.go:1313-1336 | Without calls of toJSON there is no such place |
| UntrustedAgreement.SteppedNegationDiffers | internal/expression/expr_sema.go:1313-1336 | For !toJSON(github.event) \|\| 'x' the check looks up the serialized event and a visit only the event itself |
| EngineSession.ScriptEngines.constructor | internal/analyzerhost/script_engines.go:34-39 | A session starts open and empty |
| EngineSession.ScriptEngines.EnterLoad | internal/analyzerhost/script_engines.go:43-74 | The first critical section answers, joins a load in progress, refuses a fifth path, or begins a load; `EngineErrors.EnterByHistory` says which by the loads so far |
| EngineSession.ScriptEngines.Collect | internal/analyzerhost/script_engines.go:82-99 | A woken call sees a closed session first, then its own cancellation, then the result |
| EngineSession.ScriptEngines.Finish | internal/analyzerhost/script_engines.go:101-142 | The section after the loader stores the outcome and releases those waiting, or leaves with an engine to close |
| EngineSession.ScriptEngines.Rejoin | internal/analyzerhost/script_engines.go:116-141 | After closing the engine of a failed load without the lock, a close in between is noticed |
| EngineSession.ScriptEngines.Mark | internal/analyzerhost/script_engines.go:103-114 | A load that found the session closed still releases those waiting |
| EngineSession.ScriptEngines.BeginClose | internal/analyzerhost/script_engines.go:145-162 | The first close hands over all loaded engines and empties the session; a second gets nothing |
| EngineSafety.StepKeeps | internal/analyzerhost/script_engines.go:43-170 | Every atomic step of every call keeps the invariant |
| EngineSafety.BeginKeeps | internal/analyzerhost/script_engines.go:68-74 | Starting a load keeps it: the path is new and the limit holds |
| EngineSafety.SettleKeeps | internal/analyzerhost/script_engines.go:132-141 | Storing an outcome keeps it: the path changes lists, and the engine changes hands |
| EngineSafety.DropKeeps | internal/analyzerhost/script_engines.go:106-121 | Closing an engine that is not kept accounts for it once |
| EngineSafety.ShutOneKeeps | internal/analyzerhost/script_engines.go:163-168 | Each engine that a close visits is accounted for once |
| EngineSafety.RunKeeps | internal/analyzerhost/script_engines.go:43-170 | Every run of any length keeps the invariant |
| EngineGuarantees.LoaderIsBounded | internal/analyzerhost/script_engines.go:22-31 | In every reachable state the loader ran at most once per path and four times in all, and the three maps are disjoint with at most four paths |
| EngineGuarantees.ClosedAtMostOnce | internal/analyzerhost/script_engines.go:101-170 | No engine is closed twice, and only engines that a loader made are |
| EngineGuarantees.NoEngineLeaks | internal/analyzerhost/script_engines.go:101-170 | Once the session is closed and all calls have returned, every closable engine a loader made, with or without an error, was closed exactly once |
| EngineGuarantees.ReleasedOnce | internal/analyzerhost/script_engines.go:101-142 | The channel of a load is closed at most once, and has been exactly when the call that loads has returned |
| EngineGuarantees.GuardsHold | internal/analyzerhost/script_engines.go:43-170 | No call is ever blocked outside its select, whatever loaders and Close methods return |
| EngineGuarantees.NoneStranded | internal/analyzerhost/script_engines.go:82-99 | A waiting call can be woken, or the call it waits for can go on |
| EngineGuarantees.NeverStuck | internal/analyzerhost/script_engines.go:43-170 | Until every call has returned, some call can take a step |
| EngineGuarantees.RunsAreBounded | internal/analyzerhost/script_engines.go:43-170 | The calls of any run take at most seven steps each, so all of them return |
| EngineGuarantees.SameEngine | internal/analyzerhost/script_engines.go:41-80 | All calls that got an engine for a path got the same one, which the loader made for that path |
| EngineGuarantees.EngineOrError | internal/analyzerhost/script_engines.go:41-142 | A load returns an engine or an error, never both and never neither |
| EngineErrors.ReachableErr | internal/analyzerhost/script_engines.go:41-170 | Every reachable state keeps the account of errors: which fault each load has met, what closing its engine reported, and what the session remembers of it |
| EngineErrors.ErrorHasReason | internal/analyzerhost/script_engines.go:41-142 | A load that fails while the session is open fails because there is no loader, because it was cancelled, because four other paths are loaded, or with what the one load of its path left: the error of the loader or the missing engine, joined with what closing the engine reported |
| EngineErrors.FailureRetained | internal/analyzerhost/script_engines.go:60-67 | Two calls of one path that fail, uncancelled and while the session is open, fail with the same error: the one the load of the path left, or the limit when the path was never loaded |
| EngineErrors.LimitNeedsFour | internal/analyzerhost/script_engines.go:68-71 | The limit is reported only when four other paths were loaded |
| EngineErrors.CancelledWasCancelled | internal/analyzerhost/script_engines.go:50-53 | A cancellation is reported only by a call that was cancelled |
| EngineErrors.EnterByHistory | internal/analyzerhost/script_engines.go:41-80 | In an open session with a loader, an uncancelled first step begins a load when the path was never loaded and fewer than four were, is refused when four were, waits while the load of the path runs, and otherwise answers as that load did |
| EngineErrors.EnterRefused | internal/analyzerhost/script_engines.go:41-53 | Without a loader, after the close, or when cancelled, in this order, the first step refuses the call and changes nothing else |
| EngineErrors.CollectByHistory | internal/analyzerhost/script_engines.go:82-99 | A woken call answers as the load it waited for, unless the session is closed by then or the call is cancelled |
| EngineErrors.CloseReportsFailures | internal/analyzerhost/script_engines.go:144-170 | A close reports an error exactly when it is the first and closing some engine failed, and reports every such failure |
| EngineGuarantees.NothingAfterClose | internal/analyzerhost/script_engines.go:144-162 | A load whose last critical section follows the close returns no engine, and an error that says the session is closed |
| EngineGuarantees.HandedOutOpen | internal/analyzerhost/script_engines.go:82-142 | When a load returns an engine, the session is open, lists it under the path, and has not closed it |
| LayerGraph.OrderedIsAcyclic | analyzers/architecture/contract.go:94-134 | A list in which each layer follows all it uses leaves no cycle |
| LayerGraph.ReachesFirst | analyzers/architecture/contract.go:108-127 | A layer reaches itself and what its uses reach, and nothing else |
| PackagePaths.ValidPathIff | analyzers/architecture/contract.go:149-151 | A path is valid exactly when it is a lone dot or all its parts are plain, without forbidden characters |
| LayerContract.Resolver.Visit | analyzers/architecture/contract.go:94-129 | The memoised search ends, resolves a layer to exactly the layers it reaches, and otherwise reports a fault that is there |
| LayerContract.Builder.AddRoots | analyzers/architecture/contract.go:82-93 | The roots of a layer are added when all are valid and new; otherwise the reported fault is there |
| LayerContract.FaultRefuses | analyzers/architecture/contract.go:65-134 | A definition with any reported fault is not acceptable |
| LayerContract.Parse | analyzers/architecture/contract.go:55-147 | Succeeds exactly on acceptable definitions: names and roots valid and declared once, uses known and not repeated, no cycle, no production layer using a test-only one; the allowed layers are then exactly those reached |
| LayerContract.RootsAreSorted | analyzers/architecture/contract.go:135-140 | Sorting keeps the roots and puts longer ones first |
| ContractQueries.FindLayer | analyzers/architecture/contract.go:161-179 | The search through the sorted roots finds the layer of the specification |
| ContractQueries.LongestRootOwns | analyzers/architecture/contract.go:161-179 | The layer found is the one with the root that has most parts among those whose parts, after the parts of the module, are the first parts of the package; the root "." covers the module package; there is no layer exactly when no root covers the package |
| ContractQueries.DotOwnsModuleOnly | analyzers/architecture/contract.go:31-32 | The root "." owns the module package and the path of the module with a lone dot, and nothing else |
| ContractQueries.AllowsIsReach | analyzers/architecture/contract.go:181-189 | An import is allowed exactly when both packages are classified and a chain of uses leads from one layer to the other |
| ContractQueries.AllowsReflexive | analyzers/architecture/contract.go:181-189 | A package may import itself exactly when it is classified |
| ContractQueries.AllowsTransitive | analyzers/architecture/contract.go:181-189 | Permissions chain |
| ContractQueries.AllowsAntisymmetric | analyzers/architecture/contract.go:181-189 | Packages that may import each other are in one layer |
| ContractQueries.ProductionAvoidsTests | analyzers/architecture/contract.go:116-118 | No chain of permissions leads a production package to a test-only one |

## Where the code and its descriptions differ

- Secrets in scripts: a computed key of the github context is never reported, and neither is the context as a whole, so an
  expression without findings can carry the token. `SecretFlow.OnlyEscapesAreMissed` says exactly when it does;
  `ComputedTokenMissed` and `WholeContextMissed` are the two families, `ComputedTokenLeaks` and `WholeContextLeaks` runs for
  them, and `NoFindingsNoSecret` the check that excludes them.
- Event payloads with open members: a path of one variant can be lost in the merge. `EventTypes.CombineResolves` and
  `ProjectionLoses` say exactly when, and `MappedMembersAreLost` is an example.
- Event payloads of several types: a number and a boolean meet as anything, so the type of a member can depend on the order
  of the events (`EventTypes.OrderMatters`).
- Literal keys: the guard analysis joins keys with dots and lower-cases them, while keys are looked up whole and only their
  ASCII letters are folded. So `github['event.action']` and `github.event['act\U{0130}on']` read like the action of the event.
  `EventGuards.DecidedExactly` says that exactly the comparisons of these two kinds of access are wrong; `DottedKeyMisleads`
  and `FoldedKeyMisleads` are the examples. The lists of references that are safe in scripts are matched in the same way:
  `ScriptSafety.ListedExactly` says exactly which matches are safe, and `FoldedReferenceMisleads` is an example.
- Selecting directly from `contains`, `startsWith` or `endsWith` continues the access before it.
  `UntrustedDisturbance.AlwaysDueExactly` and `UntrustedStories.FindingsExactly` say exactly when this matters, and
  `UntrustedReach.SafeReceiverMisleads` is an example.
- Whether only the truth of a serialization is used is decided by the nodes that are entered. A visit enters negations and
  nested operators and the checker steps through them, so the checker reports more: `UntrustedAgreement.AgreesExactly` says
  exactly when, and `SteppedNegationDiffers` is an example.
- The root "." is described as matching only the module package; it also matches the module path followed by a lone dot
  (`ContractQueries.DotOwnsModuleOnly`).
- Signed format fields are substituted but not seen by the other scanner (`FormatScanners.SignsDisagree`).

## Left out

- Lines and columns of tokens, byte offsets of non-ASCII characters, byte order marks and invalid UTF-8: offsets count characters.
- Numbers.ParseFloat64: decimal literals are exact real numbers, because rounding is not the point of any property here.
- Letter case: folding covers ASCII and the three other characters that fold into it; names in expressions are ASCII.
- Parsing.Parser.Parse: nodes are values, so rewriting the span of a node in place becomes building a new node, and sharing of nodes is not modelled.
- Error wording, expected-token lists, documentation links and suggestions in messages; kinds and positions are kept.
- GuardReach.PossibleIsChecked: says nothing about negations and logical operators themselves, through which the checker steps without checking them as nodes.
- UntrustedAgreement.AgreesExactly: compares the two drivers where no events are known and every called function is; under known events the checker also skips operands that no event reaches.
- UntrustedChecker.UntrustedInputChecker.OnVisitNodeEnter: nodes are values here, so a node's place among the children of the node it was entered from is passed along where the program compares identities; 1 stands for a place that asks for nothing.
- ScriptSafety.OrdinalReadsSafely: status references and references that a caller declares safe are assumed to hold safe values.
- ScriptAcceptance.MadeOfSafeAccepted: one direction; an expression outside this class may be accepted too, when it folds or when an operand is never its result.
- UntrustedSerialized.VisitSerializes: for a visit; where the checker serializes something else is said by UntrustedAgreement.AgreesExactly.
- EngineErrors.LimitNeedsFour: a loader that itself returns this error is excluded here and covered by EngineErrors.ErrorHasReason.
- EventGuards.GuardValueSound: a guard that is decided only through comparisons that misread may still be right, as when it does not depend on them.
- GuardCheck.Checker.constructor: a checker that looks for untrusted inputs; without one the callbacks are not made.
- UntrustedChecker.UntrustedInputChecker.AddReport: the inputs of a report are a set of paths; their order and quoting in the message are not modelled.
- Types: the lattice of types, assignability and the types the checker returns; the payload types carry only what paths need.
- The functions of a run, dereferences and the contexts are parameters of the evaluator, and so are JSON decoding, number text and Unicode tables.
- EngineSession.ScriptEngines.EnterLoad: a nil session is not modelled apart from a session without a loader.
- EngineRuns.Enabled: mutexes, channels and contexts are atomic steps and a cancellation flag; a loader is assumed never to hand out one engine twice, and loaders and Close methods to return.
- Scope.Register and Scope.Finish of `internal/analyzerhost/scope.go`: a smaller protocol of the same kind.
- LayerContract.Parse: decoding of JSON, its refusal of unknown fields and trailing input, and the fingerprint; the sort by length and text comes from the library and is modelled as an insertion sort.
- Tables of built-in contexts, functions, untrusted inputs and rules are parameters; YAML, configuration, files, processes, the plugin runtime, rendering and the command line are not part of this model.
