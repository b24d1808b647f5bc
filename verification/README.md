# A verified model of TypeRunner's front-end core

TypeRunner ports the TypeScript front end to C++. This project models its self-contained
algorithms in Dafny and proves what they promise. Every statement is about all inputs; where the
code does not meet a promise, the project keeps the code's behaviour, shows an input that fails
and proves exactly when the promise holds.

* **Expressions** (`Operators`, `Expressions`, `ExpressionTokens`, `ExpressionParser`,
  `ExpressionRoundTrip`, `ExpressionMeaning`, `ExpressionTargets`, `ExpressionSource`):
  `createBinaryExpression` with the binary half of the parenthesizer on one side, the parser's
  precedence climbing on the other, and what a tree means before and after printing and reading it.
* **The trial for type arguments** (`TypeArguments`, `TypeArgumentText`, `TypeArgumentTrial`,
  `TypeArgumentConverse`, `TypeArgumentLists`, `OperatorSpelling`): what the parser tries to read
  at every `<` behind a primary expression, with its error recovery, and the grammar of the texts
  that it passes, well formed and malformed.
* **Types** (`TypeNodes`, `TypeParser`, `TypeGuards`, `TypeLookAhead`, `TypeRoundTrip`,
  `TypeConverse`, `TypeFactory`, `TypeHeads`, `TypeUnique`, `TypeSource`): the type half of the parenthesizer,
  the factory constructors that call it, the descent from `parseType` to `parseNonArrayType` with
  its look-aheads and its context for conditional types, and what the text of a type tells of it.
* **Node lists** (`NodeList`): `sameMap` on the heap, where one list is relinked while it is walked.
* **Pool** (`PoolRuns`, `PoolBand`): the bump allocator as a state machine, and the class with its
  doubly linked blocks proved against it.
* **Hash** (`Xxh64`, `Xxh64Spec`, `Xxh64Vectors`, `Xxh64Injective`): the recursive XXH64, the loops
  of the public algorithm description, known values, and the inputs that cannot collide.
* **Scanner** (`ScannerText`, `ScannerSpec`, `ScannerGrammar`, `ScannerStreams`,
  `ScannerPunctuators`, `ScannerRuns`, `ScannerObject`): one call of `scan` as a function, the lexical
  grammar that it follows, the streams of its two modes, the trivia skipper outside the scanner, and
  the scanner object with its loops and its speculation.
* **Literals and text** (`Numerals`, `Utf8`, `StringLiterals`, `Identifiers`): values of integer
  literals, the UTF-8 codec, string literals on bytes, and identifier tables.
* **Paths** (`Paths`): reduction of path components as a normal form, and components to path and
  back.

Where the code and its own comments or names disagree, the model follows the code:

* The comment directive patterns are searched in the constant `"//@ts-ignore"`, not in the comment
  (src/scanner.cpp:749-756). So every comment is recorded as a directive; the model records all.
* The token table lists `},` where `,` is meant and `==` twice instead of `===`
  (src/scanner.h:127, src/scanner.h:134). `IsPunctuator` lists the two intended entries, which are
  the ones that `scan` returns.
* A legacy octal literal is read in base ten (src/scanner.cpp:1665-1671); see `LegacyOctalIff`.
* `join` writes its delimiter behind the last element too, and the test that should drop an empty
  last path component asks only whether there is a last one (src/core.cpp:65-69,
  src/path.cpp:195). So `getPathFromPathComponents` ends in a separator and `getPathComponents`
  keeps an empty last piece, unlike their comments.
* The parenthesizer's rule for `*` is wrong for a right operand such as `(c % d) * b`
  (src/parenthesizer.h:107-113); see `ReparseKeepsMeaningIff` and `SplitProductExample`.
* The parenthesizer does not know that the parser tries to read type arguments at every `<` behind
  a primary expression (src/parser2.h:3557-3625). The comparison `(a < b) >= c`, printed bare,
  becomes the assignment `a<b> = c`; see `ExpressionTargets.ReadsBackIff` and the four examples
  there. Errors inside the trial do not count against it, so the model of it recovers from errors
  as the parser does; where the trial meets `*`, `*=` or `??` as a type, the parser throws.
* `scanEscapeSequence` decodes a whole character behind a backslash but steps over its first byte
  only (src/scanner.cpp:172-206), so the other bytes of an escaped character are copied twice; see
  `EscapedCharRepeatsTails`.
* Function types behind `extends` hand the ban on conditional types down to their parameters in the
  parser but not in the factory, and a constrained `infer` is never parenthesized as a constituent;
  see `TypeSource.SurvivesIff` and the two examples behind it.

`dafny verify dfyconfig.toml` checks the whole project.

## Model

| member | source | states |
|---|---|---|
| Operators.LevelsAreUniform | src/utilities.cpp:466-555 | Operators on one precedence level have one associativity and one level in the parser's own table; assignments, comma and `**` share a level with nothing else |
| Operators.CompareValuesIsNumericOrderIff | src/utilities.cpp:668-690 | `compareValues` gives the numeric order exactly when no negative value meets a zero, which its test of optionals against `false` would misjudge |
| Operators.LevelsFollowGrammar | src/utilities.h:103-293 | The levels rise with the productions of the grammar beside the enum, from comma to `**`, one level for each production |
| OperatorSpelling.OperatorIsDelivered | src/scanner.h:120-184 | Of every operator, spelled as in the token table, the scanner delivers the tokens that the trial for type arguments is given for it, `>` by `>` and `<<` in its two halves |
| Expressions.CreateBinaryIsBuilt | src/factory.cpp:2148-2153 | What the factory returns is a fixed point of the factory: calling it again on the finished operands adds nothing |
| Expressions.LiteralKindIff | src/parenthesizer.h:160-191 | An operand of `+` has a literal kind exactly when all leaves under `+` and partially emitted wrappers are literals of that kind and there is nothing else |
| Expressions.LeftHandSideIff | src/utilities.cpp:411-459 | The test for assignment targets accepts exactly the operands on the left-hand-side level of the grammar or above |
| Expressions.CreateBinaryOnlyAddsParens | src/factory.cpp:2148-2153 | The factory inserts parentheses and changes nothing else of the tree |
| Expressions.RebuildKeepsTree | src/factory.cpp:2148-2153 | A whole tree rebuilt bottom-up by the factory is the same tree up to parentheses and partially emitted wrappers |
| ExpressionRoundTrip.LeftStaysBareIff | src/parenthesizer.cpp:22-38 | A left operand stays as it is exactly when it binds tighter than the operator, or as tight on a level that groups to the left; otherwise it is put in parentheses |
| ExpressionRoundTrip.RightStaysBareIff | src/parenthesizer.h:45-139 | A right operand stays as it is exactly when it binds tighter, or as tight where the level groups to the right or the operands may be regrouped (same operator out of `*`, bitwise and, or and xor, or `+` between operands made of literals of one kind); otherwise it is put in parentheses |
| ExpressionRoundTrip.MayRegroupIff | src/parenthesizer.h:93-135 | The cases in which the parenthesizer leaves an operand on its level to the right are the four operators it takes for associative and `+` between literals of one kind |
| ExpressionRoundTrip.OperandsStayBareIff | src/factory.cpp:2148-2153 | The factory adds no parentheses exactly when the parser would group the two operands the same way or may regroup them |
| ExpressionRoundTrip.LevelsCompare | src/parenthesizer.h:72-135 | On expression levels the comparison is the numeric one, and an operand on an operator's level is a binary node of the same associativity |
| ExpressionRoundTrip.FittingOperandsStayBare | src/parser2.h:6309-6312 | On operands that fit their level the factory inserts nothing, so the calls that the parser makes itself add no parentheses |
| ExpressionRoundTrip.UnaryIsAbsorbed | src/parser2.h:5656-5696 | The early `**` loop of the unary parser makes no difference: the binary loop behind it would have read the same |
| ExpressionRoundTrip.RestStops | src/parser2.h:5462-5523 | Wherever the precedence-climbing loop stops, the operator ahead is one it may not take on that level |
| ExpressionRoundTrip.ParseBinaryOnto | src/parser2.h:5455-5523 | Where all assignment targets are legal and no `<` opens type arguments, reading a printed factory tree in front of any tokens that do not take its last operand gives its left-grouped form and leaves those tokens |
| ExpressionRoundTrip.ParseAssignmentOnto | src/parser2.h:6778-6841 | Under the same guards anything above the comma level is read back in left-grouped form, assignments grouping to the right |
| ExpressionRoundTrip.PrintThenParse | src/parser2.h:6314-6339 | Every factory tree with legal assignment targets and no `<` that opens type arguments, printed and parsed, gives its left-grouped form with all tokens read |
| ExpressionMeaning.ReparseKeepsMeaningIff | src/parenthesizer.h:45-191 | A factory tree is printed and re-read in full with its value kept under every meaning (into a domain that counts leaves and weighs divisions) with associative `*`, bitwise and, or and xor, and literal `+`, if and only if it assigns to left-hand-side expressions only, no `<` in its text opens type arguments (see `TypeArgumentConverse.DivertsIff`), and no `*` has a bare `*` on its right whose left spine divides |
| ExpressionMeaning.RebuildPrintParse | src/factory.cpp:2148-2153 | Any tree rebuilt by the factory, printed and re-read evaluates as the original, in any value domain, where the rebuilt tree meets those three conditions |
| ExpressionMeaning.StripKeepsMeaning | src/utilities.cpp:406-409 | Parentheses and partially emitted wrappers do not change what a tree evaluates to |
| ExpressionMeaning.CanonKeepsMeaning | src/parenthesizer.h:141-191 | Grouping to the left keeps every associative meaning of a guarded factory tree |
| ExpressionMeaning.SplitProductExample | src/parenthesizer.h:107-113 | `x * ((c % d) * b)` is built bare and comes back as `((x * c) % d) * b`: the guard is needed |
| ExpressionTargets.ReadsBackIff | src/parser2.h:6790-6841 | A printed factory tree is read back in full, in left-grouped form, if and only if it assigns to left-hand-side expressions only and no `<` in its text opens type arguments, in the sense that `TypeArgumentConverse.DivertsIff` and `TypeArgumentLists.SpelledListOpensIff` give; otherwise the parser goes for type arguments or is stuck in front of the `=` |
| ExpressionTargets.ComparisonChainExample | src/parser2.h:3545-3625 | `(a < b) >= c` is built bare and the parser goes for the type arguments `<b>` in it, with `=` behind them |
| ExpressionTargets.ParenthesizedOperandExample | src/parser2.h:3545-3625 | `(a < b) > (c)` is built bare and the parser goes for the type arguments `<b>` of a call |
| ExpressionTargets.UnionExample | src/parser2.h:6185-6197 | `(a < b) BAR (c > (d))`, with the bitwise or for BAR, is built bare and the parser goes for the union of `b` and `c` as type arguments of a call |
| ExpressionTargets.ListOperandExample | src/parser2.h:6043-6055 | `a < (b, c) * d` and `(a < (b, c)) ?? d` are built bare and the parser throws on them: it takes the parentheses for parameters and the operator for a JSDoc type |
| ExpressionSource.ParsesIff | src/parser2.h:5455-5523 | A token text is read as a whole, as a given tree, if and only if it is the text of that tree and the tree is a factory tree, grouped to the left, with legal assignment targets and no `<` that opens type arguments |
| TypeArguments.GuardIff | src/parser2.h:3581-3625 | The guard on type arguments asks at every leaf and closing parenthesis of the text, and nowhere else, that the tokens behind open none |
| TypeArguments.NameDivertsIff | src/parser2.h:3545-3579 | A lone name between `<` and `>` is taken for a type argument exactly when the next token may follow one: the end, an opening parenthesis, a template, or what starts no expression |
| TypeArguments.NothingToTry | src/parser2.h:3581-3625 | A tree without `<` and `<<`, in front of tokens that begin with neither, meets the guard on type arguments |
| TypeArgumentConverse.ArgumentsReadIff | src/parser2.h:2974-3033 | The list of type arguments is read up to given tokens exactly when the tokens before them are the text of a list of the grammar in `TypeArgumentText`, malformed forms listed one by one, that ends in front of them |
| TypeArgumentConverse.ThrowsIff | src/parser2.h:6028-6104 | The trial throws exactly on tokens that begin with no such text |
| TypeArgumentConverse.DivertsIff | src/parser2.h:3557-3579 | The parser goes for type arguments exactly when the list text that the tokens begin with is followed by `>` and then by a token that may follow type arguments, or there is no such text and it throws; where a list text ends is determined |
| TypeArgumentTrial.ItemsPassed | src/parser2.h:6028-6230 | Every list of type arguments of the grammar is passed as a whole, down to unions, references with arguments, function headers and their recoveries |
| TypeArgumentTrial.OpensTypeIff | src/parser2.h:1964-2019 | A type is recognised exactly behind any number of `(` by a token that begins one, or behind at least one by `)` or `in` |
| TypeArgumentTrial.ParametersPassed | src/parser2.h:3746-3801 | Every parameter list text, with modifiers, initializers and missing names and commas, is passed as a whole |
| TypeArgumentConverse.ItemsHaveText | src/parser2.h:6028-6230 | Whatever the trial passes without throwing is the text of a list of the grammar |
| TypeArgumentLists.ListDivertsIff | src/parser2.h:3557-3579 | In front of `>`, every well-formed list of names, `this`, literals, negative numbers, unions, intersections, parentheses and references with arguments is taken for type arguments exactly when the tokens behind `>` may follow them |
| TypeArgumentLists.SpelledListOpensIff | src/parser2.h:3581-3625 | Expression trees of names, literals, bitwise or and and, and parentheses, however grouped, with a comma between each two, open type arguments between `<` and `>` exactly when the tokens behind may follow them |
| TypeArgumentLists.CanFollowIff | src/parser2.h:3545-3555 | Type arguments may be followed by the end, a parenthesis, a template, a comma or an assignment, but by no other leaf, no binary operator, and not by `/=`, `>>=` or `>>>=` |
| TypeArgumentTrial.ThrowsBehindParameters | src/parser2.h:6043-6055 | Two names in parentheses in front of `*`, `*=` or `??` make the trial throw |
| TypeRoundTrip.RulesFollowLevels | src/parenthesizer.cpp:89-119 | Each type rule leaves a type as it is exactly at the grammar level its position reads, apart from three kinds, and otherwise puts it in parentheses; the leading type argument and the optional element have their own lemmas in `TypeHeads` |
| TypeHeads.LeadingArgumentIff | src/parenthesizer.cpp:81-83 | The leading type argument is put in parentheses exactly when its text begins with `<`, or with `new` or `abstract new` and then `<`; otherwise it stays as it is |
| TypeHeads.OtherArgumentsStay | src/parenthesizer.h:409-413 | Type arguments behind the first are never touched |
| TypeHeads.BuiltNeverJoins | src/parenthesizer.cpp:54-60 | The text of a factory type never has a `<` directly behind a `<`, so the scanner joins none to `<<` |
| TypeHeads.PostfixQuestionIff | src/parenthesizer.cpp:62-65 | The test for a JSDoc question mark holds exactly when the text of the type ends in `?` |
| TypeHeads.OptionalStaysBareIff | src/parenthesizer.cpp:62-65 | An optional element type is put in parentheses when its text ends in `?`, and otherwise treated as the operand of a postfix type |
| TypeFactory.UnionCallKeepsBuilt | src/factory.cpp:1278-1286 | `createUnionTypeNode` is a fixed point of itself and only adds parentheses |
| TypeFactory.IntersectionCallKeepsBuilt | src/factory.cpp:1288-1296 | `createIntersectionTypeNode` is a fixed point of itself and only adds parentheses |
| TypeFactory.ArgumentCallsKeepBuilt | src/factory.cpp:1042-1048 | Type references (and `typeof` queries) with arguments are fixed points of their constructors, which only add parentheses; `TypeHeads.LeadingArgumentIff` says which |
| TypeFactory.PostfixCallsKeepBuilt | src/factory.cpp:1191-1196 | Array and indexed-access types are fixed points of their constructors, which only add parentheses |
| TypeFactory.OperatorCallKeepsBuilt | src/factory.cpp:1452-1460 | Type operators, with the separate rule for `readonly`, are fixed points that only add parentheses |
| TypeFactory.OptionalCallKeepsBuilt | src/factory.h:1159-1164 | Optional tuple elements are fixed points that only add parentheses |
| TypeFactory.ConditionalCallKeepsBuilt | src/factory.cpp:1298-1306 | Conditional types are fixed points of their constructor, which only adds parentheses |
| TypeFactory.RebuildIsBuilt | src/parenthesizer.h:267-360 | A whole type tree rebuilt bottom-up consists of factory results and is the same tree up to parentheses |
| TypeLookAhead.StartsFunctionIff | src/parser2.h:3990-4051 | In front of any tokens but `=>`, the look-ahead for a function type answers yes on a printed factory type that meets the guards of `Good` exactly when that type is a function or constructor type |
| TypeLookAhead.NotNamed | src/parser2.h:5932-5937 | No printed factory type that meets the guards of `Good` is taken for the name of a tuple member, unless a colon or a question mark and a colon follow it |
| TypeLookAhead.TypeStarts | src/parser2.h:1969-2014 | Every printed factory type that meets the guards of `Good` is recognised as the start of a type |
| TypeLookAhead.Balanced | src/parser2.h:3990-4006 | Skipping brackets over a printed type comes out behind it at the depth it went in |
| TypeRoundTrip.PostfixOnto | src/parser2.h:6106-6141 | Array, indexed-access and optional suffixes are read onto exactly the type they were printed behind |
| TypeRoundTrip.OperatorOnto | src/parser2.h:6143-6154 | Type operators and `infer` are read back whole in either context for conditional types |
| TypeRoundTrip.ElementOnto | src/parser2.h:5932-5977 | Named, rest, optional and plain tuple elements are told apart and read back |
| TypeRoundTrip.FunctionOnto | src/parser2.h:5733-5746 | Function and constructor types are read back with their type parameters, parameters and return type |
| TypeRoundTrip.TypeOnto | src/parser2.h:6209-6230 | A guarded factory type in front of tokens that may follow it is read back exactly, in either context for conditional types |
| TypeRoundTrip.PrintThenParse | src/parser2.h:6028-6230 | Every guarded factory type, printed and parsed, is the same tree node for node, parentheses included |
| TypeConverse.TypeRead | src/parser2.h:6209-6230 | Whatever the parser returns satisfies the guards, in front of what it left unread |
| TypeConverse.ReadsBackIff | src/parser2.h:6028-6230 | A factory type is read back to itself if and only if it meets the guards: unions and intersections of two members or more, no conditional type in a parameter of a function type behind `extends`, no `infer` swallowing what follows it |
| TypeFactory.RebuildOnlyAddsParens | src/parenthesizer.h:267-360 | Rebuilding changes nothing but parentheses, on any tree |
| TypeFactory.BuiltStays | src/parenthesizer.h:267-360 | On a tree made by the factory the factory adds nothing: rebuilding it gives the tree itself |
| TypeUnique.SameText | src/parser2.h:5979-5985 | Two trees that differ in parentheses at most and have the same text, whatever follows it, are the same tree, when their unions and intersections have two members or more: the text tells where the parentheses stand |
| TypeUnique.FirstGroup | src/parser2.h:5979-5985 | The first parenthesis of a printed type encloses all tokens of the type exactly when the type stands in parentheses, under the same condition |
| TypeUnique.InsidePrinted | src/parser2.h:5979-5985 | A printed type adds its own tokens to those inside an open parenthesis and does not close it |
| TypeSource.TypeSource | src/parser2.h:6209-6230 | Whatever the parser returns is what the factory makes of a tree whose text is exactly the tokens read, but for commas in front of closing tokens |
| TypeSource.SurvivesIff | src/parser2.h:6028-6230 | A factory type is read back whole and the same up to parentheses if and only if it meets the guards |
| TypeSource.RebuildSurvivesIff | src/parenthesizer.cpp:225-270 | Any type tree rebuilt by the factory, printed and parsed is the original up to parentheses if and only if the rebuilt tree meets the guards |
| TypeSource.ConditionalParameterExample | src/parser2.h:3162-3168 | A function type behind `extends` with a conditional parameter type is built without parentheses and does not come back, not even up to parentheses |
| TypeSource.ConstraintInUnionExample | src/parenthesizer.cpp:259-266 | A constrained `infer` before the last member of a union is built without parentheses and does not come back, not even up to parentheses |
| NodeList.NodeArray.Push | src/types.cpp:24-33 | Pushing a node that is not in the list appends it, links it from the old last node and leaves the node's own `next` alone |
| NodeList.PushMapped | src/parenthesizer.cpp:15-17 | One turn of the loop appends the mapped node; the links the walk still needs are untouched |
| NodeList.PushAllMapped | src/parenthesizer.cpp:14-18 | The loop ends although it relinks the list it walks, visits every original node once and in order, and leaves the wrapped ones' links as they were |
| NodeList.SameMap | src/parenthesizer.cpp:10-20 | The result is a well-formed list of exactly the mapped nodes; the source's head now reads as its longest wrapped prefix followed by the mapped rest, and the source is still well formed exactly when its last node is bare or none is |
| NodeList.SourceReads | src/types.cpp:35-40 | Following `next` from the source's head after the walk visits the wrapped prefix, then the mapped tail |
| NodeList.ItemIsNew | src/parenthesizer.cpp:16-16 | A mapped node is never already in the result, so no push closes a cycle |
| PoolRuns.EveryRunIsSafe | src/pool_band.h:37-66 | Over every run of allocations and clears, what was handed out since the last clear is pairwise disjoint, lies behind the bump pointer and is counted by `active` |
| PoolRuns.NeighboursAdjoin | src/pool_band.h:37-48 | Each live allocation stands right behind the one before it if both fit the block, and at the start of the next block if they do not; the first one after a clear stands at the start of the first block if that can hold it, and of the first or second if not |
| PoolRuns.InsidePayloadIff | src/pool_band.h:37-48 | An allocation ends inside its block if and only if it asks for no more than a block holds |
| PoolRuns.SamePlaceSameAddresses | src/pool_band.h:73-96 | From two states at the same block and slot, equal sizes get equal addresses whatever the chains' lengths, and the longer chain grows only when the shorter one would outgrow it |
| PoolRuns.ClearForgetsHistory | src/pool_band.h:63-66 | After a clear the addresses depend on the sizes alone |
| PoolRuns.BlocksOnlyGrow | src/pool_band.h:73-84 | Allocation never loses a block |
| PoolRuns.ReplayIff | src/pool_band.h:37-96 | From a fresh pool, replaying sizes after a clear returns the same addresses and makes no block if and only if the first size fits a block |
| PoolBand.Pool.constructor | src/pool_band.h:23-23 | A new pool has no block, no current slot and counts nothing |
| PoolBand.Pool.InitializeBlock | src/pool_band.h:92-96 | The given block becomes current, with its whole payload free |
| PoolBand.Pool.SetNextBlock | src/pool_band.h:86-90 | A new block is linked behind the last one, both ways, and becomes current |
| PoolBand.Pool.AllocateBlock | src/pool_band.h:74-84 | The next block of the chain is reused when there is one; otherwise exactly one block is added at the end |
| PoolBand.Pool.Allocate | src/pool_band.h:37-48 | The heap operation is the step of the state machine whose addresses `PoolRuns.NeighboursAdjoin` gives: same block, same offset, chain only extended by fresh blocks, links consistent |
| PoolBand.Pool.Clear | src/pool_band.h:63-66 | Clearing keeps the chain and starts over in its first block |
| PoolBand.Pool.Destroy | src/pool_band.h:25-32 | The destructor frees the current block and all before it, each once, hence every block if and only if the current one is the last |
| PoolBand.BackwardsHolds | src/pool_band.h:25-32 | Walking back through `prev` meets each block of a prefix once, in reverse order, and none behind it |
| Xxh64Spec.Compute | src/hash.h:11-13 | The recursive hash equals the published algorithm, with stripes, convergence, length, tail and avalanche in loops, for every input and seed |
| Xxh64Spec.Stripes | src/hash.h:73-79 | Recursion over 32-byte blocks is the four-accumulator loop |
| Xxh64Spec.Tail | src/hash.h:67-72 | Recursion over 8-, 4- and 1-byte units is the published tail, then the avalanche |
| Xxh64Spec.RoundIsMix | src/hash.h:27-29 | `mix2` is one round of an accumulator |
| Xxh64Spec.MergeIsMix | src/hash.h:30-32 | `mix3` is the merge of an accumulator |
| Xxh64Vectors.Foo188 | src/tests/test_hash.cpp:16-21 | The hash of `foo188` is the value in the repository's own test |
| Xxh64Vectors.Ishmael | src/hash.h:11-72 | A text of 63 bytes, with a stripe and every kind of tail unit, has the XXH64 value that is published for it |
| Xxh64.HashReads | src/hash.h:11-13 | The hash depends on its first `len` bytes alone |
| Xxh64.FinalizeReads | src/hash.h:67-72 | The tail reads its own bytes alone |
| Xxh64.OverloadsAgree | src/hash.h:98-108 | The pointer overload hashes the text before the first NUL, which is the whole text exactly when it holds no NUL |
| Xxh64.FirstNul | src/hash.h:86-88 | `length` stops at the first NUL |
| Xxh64Injective.FinalizeInjective | src/hash.h:67-72 | For a fixed tail the final value determines the running hash before it |
| Xxh64Injective.StepsKeepApart | src/hash.h:67-72 | Each tail step keeps different running hashes apart when the chunk is the same |
| Xxh64Injective.AvalancheInjective | src/hash.h:24-26 | The three final mixes lose nothing |
| Xxh64Injective.TailDiffers | src/hash.h:58-72 | Tails that differ inside exactly one unit give different final values |
| Xxh64Injective.OneChunkNeverCollides | src/hash.h:11-72 | Inputs of one length that differ inside exactly one tail unit never collide, for any seed and any length |
| Xxh64Injective.ShortStringsNeverCollide | src/hash.h:98-100 | Strings of 1, 4 or 8 bytes have equal runtime hashes if and only if they are equal |
| ScannerSpec.Scan | src/scanner.cpp:1184-1659 | Every call keeps `startPos <= tokenPos <= pos <= size`, moves on unless it returns the end of the file, returns that only at the end, and in skipping mode returns no trivia |
| ScannerSpec.Stream | src/scanner.cpp:1184-1659 | From every position, in both modes, calling `scan` again and again reaches the end of the file |
| ScannerGrammar.ScanIff | src/scanner.cpp:1184-1659 | One call of `scan` that keeps trivia returns a lexeme exactly when the lexical grammar, stated over positions and characters, describes it: kind, end, flags and directives, for every kind of token and trivia |
| ScannerGrammar.LongestDecimalIff | src/scanner.cpp:897-930 | The digits, point and exponent of a number are the longest slice of the form: run, optional point and run, optional exponent |
| ScannerGrammar.NumberIff | src/scanner.cpp:897-950 | A number token is that slice with an `n` suffix where one is taken, flagged by `_` and exponent |
| ScannerGrammar.PrefixedIff | src/scanner.cpp:1422-1466 | A number with a prefix takes the whole run of digits of its base and `_`, and the suffix |
| ScannerGrammar.StringIff | src/scanner.cpp:27-61 | A string ends at the first unescaped matching quote or line break |
| ScannerGrammar.TemplateIff | src/scanner.cpp:286-352 | A template part ends at the first unescaped backtick or `${` |
| ScannerStreams.StreamCoversText | src/scanner.cpp:1184-1659 | The slices from `startPos` to `pos` of successive tokens put together are the text, in both modes |
| ScannerStreams.SkippingStreamIsMergedStream | src/scanner.cpp:1190-1413 | The tokens scanned with trivia skipped are those scanned without, minus trivia, whose start, flags and comment directives pass to the next token |
| ScannerStreams.PrecedingLineBreakIff | src/scanner.cpp:1213-1413 | In skipping mode the line-break flag is set exactly when a line break lies between `startPos` and `tokenPos` |
| ScannerStreams.SkipIsTriviaThenSkip | src/scanner.cpp:1213-1413 | Skipping from a trivia token is passing that token whole and skipping on behind it |
| ScannerStreams.SkipTrivia | src/scanner.cpp:553-647 | The skipper outside the scanner stops where `scan` in skipping mode puts `tokenPos`, from every position |
| ScannerPunctuators.PunctuatorIsLongestIff | src/scanner.cpp:1260-1600 | The operator case of `scan` returns an entry of the token table exactly when it is the longest one open to `scan` that the text spells there |
| ScannerPunctuators.GreaterIsLongestIff | src/scanner.cpp:1678-1700 | Re-scanning at `>` returns exactly the longest entry of the table that begins with `>` and is spelled there |
| ScannerSpec.PunctuatorIsSpelled | src/scanner.cpp:1260-1600 | An operator token covers the characters it is spelled with |
| ScannerObject.Scanner.constructor | src/scanner.h:418-459 | A new scanner has an empty text, no token and no directives |
| ScannerObject.Scanner.SetText | src/scanner.h:469-487 | A new text resets the six token fields and keeps the recorded directives |
| ScannerObject.Scanner.ScanString | src/scanner.cpp:27-61 | The loop ends behind the matching quote, or unterminated at a line break or the end |
| ScannerObject.Scanner.ScanTemplate | src/scanner.cpp:286-352 | The loop ends behind the backtick or `${`, or unterminated at the end |
| ScannerObject.Scanner.ScanDigits | src/scanner.cpp:354-389 | The digit loops pass the longest run of digits and `_`, and flag a `_` |
| ScannerObject.Scanner.ScanNumber | src/scanner.cpp:897-950 | Kind, end and flags of a number literal as `ScannerGrammar.NumberIff` describes them, where `stoi` does not throw |
| ScannerObject.Scanner.ScanZero | src/scanner.cpp:1422-1478 | Kind, end and flags behind a leading zero, for all four prefixes and plain numbers |
| ScannerObject.Scanner.ScanIdentifier | src/scanner.cpp:1169-1182 | A name takes the longest run of identifier parts |
| ScannerObject.Scanner.ScanMultiLineComment | src/scanner.cpp:1372-1413 | A comment ends at its first closer; JSDoc and line-break flags and the directive's range are those of what it spans |
| ScannerObject.Scanner.ScanTrivia | src/scanner.cpp:1213-1413 | In skipping mode one piece of trivia is passed with its flags; otherwise a trivia token is made |
| ScannerObject.Scanner.ScanToken | src/scanner.cpp:1260-1656 | The token cases leave the state that the specification gives, and set `tokenValue` in exactly the kinds that have one |
| ScannerObject.Scanner.Scan | src/scanner.cpp:1184-1659 | One call of the object's `scan` is the specified step on all six fields, whose lexeme `ScannerGrammar.ScanIff` describes, and records the directives of the comments it passes and no others |
| ScannerObject.Scanner.ReScanGreaterToken | src/scanner.cpp:1678-1700 | `>` becomes the longest operator that starts there; any other token and position stay |
| ScannerObject.Scanner.SpeculationHelper | src/scanner.h:539-561 | A look-ahead or failed try leaves all six fields as they were; a successful try leaves what its committed scans leave; the recorded directives stay either way |
| ScannerObject.Scanner.Execute | src/scanner.h:527-561 | Any nesting of scans, look-aheads and tries leaves the fields that the plain scans left over once look-aheads and failed tries are deleted would leave |
| ScannerRuns.ScansFollowStream | src/scanner.h:527-561 | The fields after `n` plain scans are those of the `n`-th token of the stream |
| ScannerRuns.ScansStayAtEnd | src/scanner.cpp:1195-1197 | At the end of the text every further scan gives the end-of-file token there, without flags, and keeps `tokenValue` |
| ScannerRuns.ValueIsKeptIff | src/scanner.cpp:1184-1659 | `tokenValue` keeps the value of an earlier token on the end of the file, trivia, operators and unknown characters, and is read anew on every other token |
| ScannerRuns.RunRecords | src/scanner.h:539-561 | A run records as many directives as its committed scans alone would, and on top those of the comments that undone scans met |
| ScannerRuns.DirectivesSurviveIff | src/scanner.h:539-561 | `commentDirectives` is what the committed scans alone would make it if and only if no undone scan met a comment |
| Numerals.ScanNumberFragment | src/scanner.cpp:354-389 | The stretches copied between separators are the digits of the run, wherever and however often `_` stands |
| Numerals.ScanBinaryOrOctalDigits | src/scanner.cpp:952-988 | The collected value is the digits of the run below the base |
| Numerals.IntegerTokenIff | src/scanner.cpp:726-747 | An integer literal gets a value exactly when it is at most 2^31-1, and the value is the canonical decimal numeral of its digits in its base |
| Numerals.SameTokenIff | src/scanner.cpp:726-747 | Literals of any two bases get the same `tokenValue` exactly when they denote the same number |
| Numerals.LegacyOctalIff | src/scanner.cpp:1665-1671 | A legacy octal literal gets the numeral of its octal value if and only if that value is a single digit, because its digits are read in base ten |
| Numerals.CanonicalIsDecimal | src/scanner.cpp:744-745 | A canonical numeral is the one decimal rendering of its value |
| Utf8.DecodeEncoded | src/utf.cpp:7-54 | `charCodeAt` reads back what `fromCharCode` wrote, with its length, wherever it stands |
| Utf8.ReencodesIff | src/utf.cpp:7-54 | Decoding and encoding undo each other at a position if and only if a well-formed character other than NUL stands there |
| Utf8.DecodeCodePoint | src/utf.cpp:7-35 | A well-formed character is decoded to the code point and length that RFC 3629 assigns |
| Utf8.EncodeCodePoint | src/utf.cpp:37-54 | The code point of a well-formed character other than NUL encodes to that character |
| Utf8.EncodedIsUtf8 | src/utf.cpp:37-54 | Every scalar value other than 0 encodes to a well-formed character |
| Utf8.DecodeEncodeAll | src/utf.cpp:7-54 | Decoding the concatenated encodings character by character recovers the scalar values, 0 excepted |
| Utf8.EncodeDecodeAll | src/utf.cpp:7-54 | Encoding what a well-formed text without NUL decodes to is the identity |
| StringLiterals.ScanString | src/scanner.cpp:27-61 | The loop that copies unescaped stretches returns the cooked value, the end and whether it was terminated |
| StringLiterals.ReadsBackIff | src/scanner.cpp:27-61 | A well-formed UTF-8 text quoted with backslash, quote and the six named control characters escaped is read back, up to just behind the closing quote, if and only if it holds neither U+2028 nor U+2029 |
| StringLiterals.PassChar | src/scanner.cpp:33-58 | Stepping byte by byte through a multi-byte character copies it whole, unless it is a line separator, which ends the literal in front of it |
| StringLiterals.PassQuotedByte | src/scanner.cpp:172-206 | The eight escapes used in quoting are undone |
| StringLiterals.PassNeedlessEscape | src/scanner.cpp:172-206 | A backslash in front of any other ASCII character is dropped, and with `0` both are |
| StringLiterals.PassContinuation | src/scanner.cpp:172-206 | A backslash in front of a line end joins two lines, CR and LF being one end |
| StringLiterals.EscapedCharRepeatsTails | src/scanner.cpp:172-206 | An escaped character of several bytes is taken whole and then all its bytes but the first once more |
| StringLiterals.AsciiStringEnds | src/scanner.cpp:27-61 | On ASCII the string loop of the scanner object ends where this one does |
| Identifiers.LookupInUnicodeMap | src/scanner.h:353-380 | The binary search over interval ends answers whether some interval of the table holds the code (the copy in scanner.cpp:468-500 is the same text) |
| Identifiers.IsIdentifierText | src/scanner.cpp:519-532 | The loop answers whether the text is one start character followed by part characters to its end |
| Identifiers.ScanIdentifier | src/scanner.cpp:1169-1182 | The loop stops behind the run of identifier parts, or does not move at a character that starts no identifier |
| Identifiers.LongestIdentifier | src/scanner.cpp:519-532 | On well-formed UTF-8 the scanner takes exactly the longest stretch that `isIdentifierText` accepts, cuts inside a character included |
| Identifiers.CodeInSlice | src/utf.cpp:7-35 | A character decodes in a slice as in the text, unless the slice cuts it, and then it fails |
| Identifiers.AsciiIdentifierEnds | src/scanner.cpp:1169-1182 | On ASCII the identifiers of the scanner model begin and end where these do, whatever the tables are |
| Paths.ReducePathComponents | src/path.cpp:254-274 | The loop is the fold of its step over the components |
| Paths.SameReductionIff | src/path.cpp:254-274 | Two lists reduce alike if and only if they have equal roots and lead to the same directory |
| Paths.ReduceIsDirect | src/path.cpp:254-274 | The reduced list is the most direct name of the directory the components lead to: root, then `..` (none below a root), then names |
| Paths.ReduceKeepsWalk | src/path.cpp:254-274 | Reduction does not change where the components lead |
| Paths.ReducePrefix | src/path.cpp:254-274 | Reduction is idempotent, and may be applied to any nonempty prefix first |
| Paths.DirectIsInjective | src/path.cpp:254-274 | Different directories have different reduced lists |
| Paths.Split | src/core.cpp:70-80 | The loop returns the list that `Paths.SplitIff` determines |
| Paths.SplitIff | src/core.cpp:70-80 | A list is what splitting gives if and only if none of its pieces holds a separator and the pieces with one separator between each two are the text |
| Paths.SplitJoin | src/core.cpp:65-80 | Splitting joined components gives them back with an empty piece behind, since `join` writes a delimiter behind the last one too |
| Paths.ComponentsOfPathIff | src/path.cpp:174-252 | Components under `/` or `x:/` survive being written as a path and parsed, with an empty piece behind, exactly when the path does not begin with two separators |
| Paths.ComponentsOfWrittenIff | src/path.cpp:174-198 | A local root and names behind it with one separator between each two are parsed into exactly root and names, unless the path begins with two separators |
| Paths.LocalRootLength | src/path.cpp:55-77 | The root of such a path is found exactly when no second separator follows `/` |
| Paths.OtherRootLengths | src/path.cpp:55-77 | A server root ends behind the separator of its name and is none without one; a bare volume is all root |
| Paths.RelativeHasNoRoot | src/path.cpp:55-77 | A path without leading separator, volume or scheme has no root |
| Paths.ReducedReadsBack | src/path.cpp:174-274 | Reduced components under a local root survive writing, parsing and reducing |

## Left out

Expressions:

- Operands: unary, conditional, arrow, yield, `as` and `satisfies` expressions; an operand is a leaf, a parenthesized or partially emitted expression, or a binary one.
- Calls and property accesses stand as `f()` and `a.b`; elements of other primary expressions, private names on the left of `in`, and names spelled like contextual keywords (`keyof`, `asserts`, `async` and so on), which the trial for type arguments reads as those keywords.
- ExpressionParser.ParseExpression: says of a trial for type arguments only that the parser goes for them (or throws), not what tree it builds then. The file is TypeScript and not JavaScript, `in` is allowed, and the text has blanks between its tokens.
- TypeArguments.AfterInitializer: a parameter's initializer, met only where a `(` behind `<` looks like a parameter list, is taken to end at the next comma or parenthesis outside its own; where the parser would read it otherwise, it would read the tree itself otherwise.
- Error recovery: where the parser would report an error and go on, the model returns no tree. This parser lets `??` mix with `||` and `&&`, and so does the model.
- Positions, transform flags and the remaining fields of nodes.

Types:

- A leading `&` or bar, for which the parser pushes a null node: no tree in the model.
- Parameters with binding patterns (the look-ahead skips them as if they were free of errors), modifiers, decorators and initializers; constraints and defaults of type parameters; type predicates; the empty `<>`; JSDoc `!` and prefix `?`.
- Literal, template, import, mapped and object types stand as single tokens without structure. A name token is an identifier, `this` or a keyword such as `string`; names spelled like a contextual keyword of types, such as `asserts` in front of `extends`, are left out.
- Line breaks, which the parser consults in front of `[` and `!`.

Node lists and pool:

- NodeList.SameMap: the callback is reduced to the decision whether to wrap a node, taken from its index and its `kind`, a label that stands for whatever a rule reads of the node.
- Flags and positions that `createNodeArray` computes.
- PoolBand.Pool.Allocate: models a slot as an offset into its block, so alignment, failure of `operator new` and overflow of the counters are not modelled; sizes are at least 1, as `sizeof` gives.
- PoolBand.Pool.Destroy: returns the blocks it frees instead of freeing them.
- `construct` and `destruct`, which add constructor calls to `allocate`.

Hash:

- The big-endian build option, the compile-time variants, and inputs of 2^64 bytes or more other than through the length modulo 2^64.

Scanner:

- ScannerSpec.Scan: covers ASCII texts scanned to their end in the Standard variant outside JSDoc types, without merge-conflict markers (the method for them calls itself without end, src/scanner.cpp:463-466) and without `\u` or `\x` behind a backslash, whose hexadecimal digits are cut with a length in place of an end index (src/scanner.cpp:106). The object's `Valid` holds these conditions.
- ScannerObject.Scanner.Scan: models `tokenValue` by the token it was read from; values are treated in Numerals, StringLiterals and Identifiers. The exceptions of `stoi` and the number that the code adds to a pointer for fractions (src/scanner.cpp:940-943) are not part of the token stream.
- ScannerObject.Scanner.ScanNumber: models the token that the code means to return. `stoi` throws when the digits before a fraction or exponent exceed 2147483647 and when there are none, as in `.5` (src/scanner.cpp:940-943), and for larger integers (src/scanner.cpp:738-743); `scan` does not return there.
- ScannerObject.Scanner.constructor: models the token before the first scan as Unknown; the source leaves it uninitialised.
- ScannerObject.Scanner.ScanDigits: joins three loops that differ in the digits they accept; the value of hexadecimal digits is left out. For a literal that begins with a point at position 0 the source also reads the byte before the text, without using it.
- Keyword kinds: a word token carries its spelling; the table from spelling to keyword is looked up by the hash alone.
- ScannerRuns: a run records the calls and results of callbacks, not how they were decided; since any terminating callback has such a run, nothing is lost.
- ScannerStreams.SkipTrivia: models the call with its three optional arguments left out.
- JSX scanning, re-scanning of slashes, templates and identifiers, shebangs (a stub that is always false) and error messages.

Text, literals and paths:

- StringLiterals.ScanString: stops where an escape by hexadecimal digits begins; the flags of the scanner are not repeated there. Tagged templates and JSX attribute strings are left out.
- Identifiers.ScanIdentifier: covers identifiers without escapes, the Standard variant, and tables given as parameters.
- Numerals.IntegerTokenIff: covers literals without the suffix `n` and without fraction or exponent.
- Paths.ComponentsOfPathIff: covers the roots `/` and `x:/` and no current directory; URL roots are named and not parsed, and relative roots, which `getPathFromPathComponents` turns into absolute ones, are left out.
- `normalizePath`, the other path helpers, and everything above the parser: the binder, type checker, compiler and VM.
