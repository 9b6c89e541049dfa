# Token-run normalizer of flowr's R AST builder

flowr turns the XML parse tree that R produces into its own normalized AST. This project models
the step that turns a run of sibling raw tokens into AST nodes, and proves properties of that model.
The step has three parts:

- **Classifier**: splits off the comment tokens, cuts the remaining tokens into statement
  segments, and recognises one enclosing brace or paren pair.
  - Segments are cut at each semicolon.
  - Two adjacent expression-kind tokens are also cut apart.
- **Recursive assembler** (`normalizeExpressions`): normalizes each segment by re-entering itself.
  It then does one of the following:
  - wraps the results in an expression list bound to the grouping pair;
  - hoists the comments onto the first result;
  - returns the comments alone.
- **Dispatcher** (`normalizeMappedWithoutSemicolonBasedOnType`): tries the fixed-arity construct
  recognisers by the run's length, in a fixed order. When none matches, it normalizes every token
  on its own.
  - The while-loop recogniser `tryNormalizeWhile` is modelled in full.
  - It answers "no match" when the first token is not `while`.
  - It fails when a committed `while ( _ ) _` shape is malformed.

Modules:

- `Wrappers`: `Option` and `Result`.
- `RawTokens`: token kinds, locations and tokens.
- `Ast`: nodes, their `Info` metadata, the normalization context and the failure reasons.
- `Classifier`: splitComments, splitExprs and handleExpressionList.
- `WhileLoops`: tryNormalizeWhile.
- `Expressions`: the dispatcher, parseNodesWithUnknownType, processBraces and normalizeExpressions.
- `Scenarios`: concrete runs through all of them.

How the model is built:

- **Failures.** A `guard` failure is the `Err(Guard(..))` outcome and a thrown `XmlParseError` is
  `Err(XmlParse(..))`. Each carries the token or nodes its message names. `Ok(None)` stands for a
  recogniser's `undefined`.
- **Collaborators.** `normalizeSingleNode`, `normalizeComment` and the seven other recognisers are
  fields of a `Collaborators` value passed to every operation. Every property holds whatever they
  do, with two exceptions:
  - the comment normalizer is assumed to return a comment leaf with nothing attached to it
    (`Ast.CommentNode`);
  - the comment accounting (`Expressions.NormalizeCountsComments`) assumes that they add no
    comments of their own.
- **Loops as methods.** The source's loops are methods proved equal to a specification function:
  - `SplitComments` against `Comments` and `Others`;
  - `SplitExprs` against `Segments`;
  - `ParseNodesWithUnknownType` against `NormalizeEach`;
  - `NormalizeExpressions` with its `flatMap` loop `FlatMapSegments` against `Normalize`.
  `NormalizeExpressions` keeps the reassignment of the working run and the update of the first
  result's `additionalTokens`.
- **Properties.** The properties are stated and proved about those functions.

Two behaviours of the code are modelled as written:

- `if(parsedComments)` tests an array, which is always truthy. So when a run is split and not
  grouped, the first result always receives `additionalTokens`: `Some([])` when the run has no
  comments.
- A run of comments only leaves no segments, although a comment in normalizeExpressions calls this
  impossible. The one-segment path then dispatches the empty run, which yields nothing, so the
  result is the normalized comments.

## Model

| member | source | states |
|---|---|---|
| Classifier.SplitComments | src/r-bridge/lang-4.x/ast/parser/xml/internal/structure/normalize-expressions.ts:58-69 | the loop leaves in `comments` the Comment-kind tokens and in `others` the rest, each as the filter `Comments`/`Others` of the input |
| Classifier.CommentsSplitAt | src/r-bridge/lang-4.x/ast/parser/xml/internal/structure/normalize-expressions.ts:58-69 | both lists keep relative order: splitting a concatenation is the concatenation of the splits |
| Classifier.SplitKinds | src/r-bridge/lang-4.x/ast/parser/xml/internal/structure/normalize-expressions.ts:61-67 | every token in `comments` is Comment-kind and none in `others` is |
| Classifier.SplitCounts | src/r-bridge/lang-4.x/ast/parser/xml/internal/structure/normalize-expressions.ts:61-67 | each token lands in exactly one list: the lengths sum to the input's and the multisets add up to the input's |
| Classifier.SplitCommentsPartition | src/r-bridge/lang-4.x/ast/parser/xml/internal/structure/normalize-expressions.ts:58-69 | the split is a partition: every comment is Comment-kind, no other is, the lengths sum to the input's and the two multisets add up to the input's |
| Classifier.CommentFreeHasNoComments | src/r-bridge/lang-4.x/ast/parser/xml/internal/structure/normalize-expressions.ts:58-69 | a run without comment tokens splits into no comments and itself |
| Classifier.SplitExprs | src/r-bridge/lang-4.x/ast/parser/xml/internal/structure/normalize-expressions.ts:72-98 | the loop over `last`, `i` and `lastExpr` returns `Segments(tokens)`, the flushed fold of one step per token |
| Classifier.RunClean | src/r-bridge/lang-4.x/ast/parser/xml/internal/structure/normalize-expressions.ts:76-93 | at every point of the loop, no pushed segment and no pending slice holds a semicolon, and each is drawn from the input |
| Classifier.RunCovers | src/r-bridge/lang-4.x/ast/parser/xml/internal/structure/normalize-expressions.ts:76-93 | at every point of the loop, the pushed segments followed by the pending slice are the input so far with its semicolons removed |
| Classifier.RunCuts | src/r-bridge/lang-4.x/ast/parser/xml/internal/structure/normalize-expressions.ts:77-80 | an empty pushed segment needs a semicolon, and every semicolon pushes a segment |
| Classifier.SegmentsFree | src/r-bridge/lang-4.x/ast/parser/xml/internal/structure/normalize-expressions.ts:72-98 | no segment holds a semicolon, and concatenating the segments gives the input with every semicolon removed, in order |
| Classifier.EmptySegmentNeedsSemicolon | src/r-bridge/lang-4.x/ast/parser/xml/internal/structure/normalize-expressions.ts:77-96 | an empty segment only arises from a semicolon; the trailing segment is pushed only when non-empty, so a run that does not end in a semicolon ends with a non-empty segment |
| Classifier.SegmentCount | src/r-bridge/lang-4.x/ast/parser/xml/internal/structure/normalize-expressions.ts:77-80 | there are at least as many segments as semicolons: each closes one, even an empty one |
| Classifier.SemicolonAfterCut | src/r-bridge/lang-4.x/ast/parser/xml/internal/structure/normalize-expressions.ts:77-80 | a semicolon at the start or right after another one emits an empty segment |
| Classifier.SemicolonCut | src/r-bridge/lang-4.x/ast/parser/xml/internal/structure/normalize-expressions.ts:77-80 | a semicolon splits the problem: the segments of the run are those up to and including it followed by those after it |
| Classifier.RunStaysWhole | src/r-bridge/lang-4.x/ast/parser/xml/internal/structure/normalize-expressions.ts:76-96 | conversely, a run with no semicolon and no two adjacent boundary-kind tokens is never cut and comes back as its one segment |
| Classifier.StepPrefix | src/r-bridge/lang-4.x/ast/parser/xml/internal/structure/normalize-expressions.ts:76-93 | a loop step only appends to the segments already pushed, whatever they are |
| Classifier.RunAfterReset | src/r-bridge/lang-4.x/ast/parser/xml/internal/structure/normalize-expressions.ts:77-80 | after a cut with nothing pending, the rest of the run is segmented as if it started afresh |
| Classifier.ClosedGrows | src/r-bridge/lang-4.x/ast/parser/xml/internal/structure/normalize-expressions.ts:75-93 | pushed segments are never revised: the segments pushed by a prefix begin those pushed by the whole run |
| Classifier.LastExprFlag | src/r-bridge/lang-4.x/ast/parser/xml/internal/structure/normalize-expressions.ts:79-90 | after a non-semicolon token, `lastExpr` says whether it was of a boundary kind |
| Classifier.ExprAdjacency | src/r-bridge/lang-4.x/ast/parser/xml/internal/structure/normalize-expressions.ts:82-90 | a boundary-kind token right after another one is emitted as its own one-token segment, after the segments of everything before it |
| Classifier.SegmentsShorter | src/r-bridge/lang-4.x/ast/parser/xml/internal/structure/normalize-expressions.ts:72-98 | when a run is cut into several segments each is strictly shorter than the run |
| Classifier.HandleExpressionList | src/r-bridge/lang-4.x/ast/parser/xml/internal/structure/normalize-expressions.ts:104-129 | the comments returned are exactly the run's comment tokens, and a recognised pair comes with exactly one segment |
| Classifier.HandleGrouping | src/r-bridge/lang-4.x/ast/parser/xml/internal/structure/normalize-expressions.ts:109-125 | a leading brace (paren) is accepted exactly when the last non-comment token closes it, else the guard fails naming that token; on success the pair is the first and last non-comment tokens and the interior is the one segment |
| Classifier.HandleSplit | src/r-bridge/lang-4.x/ast/parser/xml/internal/structure/normalize-expressions.ts:126-128 | without a leading brace or paren the classifier never fails, finds no pair and splits the non-comment tokens by splitExprs |
| Classifier.HandleSegments | src/r-bridge/lang-4.x/ast/parser/xml/internal/structure/normalize-expressions.ts:104-129 | segments are comment-free, and when the run is split or grouped each is strictly shorter than it (the recursion's measure) |
| Ast.EnsureExpressionList | src/r-bridge/lang-4.x/ast/parser/xml/internal/loops/normalize-while.ts:53 | the result is an expression list; a list is kept as it is and any other node becomes the only child of an ungrouped list with its info |
| WhileLoops.TryNormalizeWhile | src/r-bridge/lang-4.x/ast/parser/xml/internal/loops/normalize-while.ts:10-62 | no match exactly when the first token is not `while`; then the left paren, then the right paren is checked, each with its own error; the condition's error before the body's; a delimiter part is an under-sided loop; success exactly when all checks pass, with condition, listed body, the while token's lexeme and location, empty `additionalTokens` and `fullRange`/`fullLexeme` taken from the context |
| Expressions.NormalizeEach | src/r-bridge/lang-4.x/ast/parser/xml/internal/structure/normalize-expressions.ts:195-203 | succeeds exactly when every token normalizes; then one node per token, in order; otherwise the error of the first token that fails |
| Expressions.ParseNodesWithUnknownType | src/r-bridge/lang-4.x/ast/parser/xml/internal/structure/normalize-expressions.ts:195-203 | the loop that pushes each token's normalization returns `NormalizeEach` of the run |
| Expressions.EachStopsAtError | src/r-bridge/lang-4.x/ast/parser/xml/internal/structure/normalize-expressions.ts:198-201 | a failure in a prefix is the failure of the whole loop |
| Expressions.NormalizeBasedOnType | src/r-bridge/lang-4.x/ast/parser/xml/internal/structure/normalize-expressions.ts:24-50 | length 1 is single-token normalization, its node or its error; 2 tries unary then repeat, 3 binary then for then symbol, 5 if-then then while, 7 if-then-else; the first match is the one result, an error stops the search, and a total miss or any other length normalizes every token on its own |
| Expressions.NormalizeComments | src/r-bridge/lang-4.x/ast/parser/xml/internal/structure/normalize-expressions.ts:166 | succeeds exactly when every comment normalizes, then one comment node per token in order; otherwise the error of the first comment that fails |
| Expressions.ProcessBraces | src/r-bridge/lang-4.x/ast/parser/xml/internal/structure/normalize-expressions.ts:132-145 | succeeds exactly when both pair tokens normalize as symbols; an error of the symbol recogniser on the opening, then on the closing token is the result; when both only miss, the guard fails naming the pair; the list has the segment results as children, the two symbols as grouping, no lexeme or location and the comments as `additionalTokens` |
| Expressions.AttachComments | src/r-bridge/lang-4.x/ast/parser/xml/internal/structure/normalize-expressions.ts:174-177 | only the node's `additionalTokens` change: the old ones (or none) followed by the comments |
| Expressions.Hoist | src/r-bridge/lang-4.x/ast/parser/xml/internal/structure/normalize-expressions.ts:173-178 | the first result receives the comments, the other results are unchanged |
| Expressions.Assemble | src/r-bridge/lang-4.x/ast/parser/xml/internal/structure/normalize-expressions.ts:169-181 | a delimiter among the results fails the guard and none is ever returned; with a pair, success and error are those of processBraces, and the result is one list of the results grouped by the pair's two symbols and carrying the comments; otherwise the hoisted results, or the comments when there are none |
| Expressions.Normalize | src/r-bridge/lang-4.x/ast/parser/xml/internal/structure/normalize-expressions.ts:147-193 | the empty run gives no nodes and no error; a one-token run is the dispatcher's result; a classifier failure is the result |
| Expressions.NormalizePaths | src/r-bridge/lang-4.x/ast/parser/xml/internal/structure/normalize-expressions.ts:162-192 | for a longer run the classifier accepts: a comment failure is the result; a split or grouped run (whose segments are strictly shorter) fails with its `flatMap`'s error or is the assembly of its results with the comments; a one-segment run fails with the dispatcher's error or is the comments followed by the dispatched nodes |
| Expressions.NormalizeSegments | src/r-bridge/lang-4.x/ast/parser/xml/internal/structure/normalize-expressions.ts:169 | no segments give no nodes |
| Expressions.CollectSucceeds | src/r-bridge/lang-4.x/ast/parser/xml/internal/structure/normalize-expressions.ts:169 | collecting outcomes succeeds exactly when each does, and otherwise fails with the first error |
| Expressions.CollectValues | src/r-bridge/lang-4.x/ast/parser/xml/internal/structure/normalize-expressions.ts:169 | a successful collection is the outcomes' results concatenated in order |
| Expressions.SegmentsStep | src/r-bridge/lang-4.x/ast/parser/xml/internal/structure/normalize-expressions.ts:169 | proof step of `SegmentsCollect`, unfolding `NormalizeSegments` once: the `flatMap` of all but the last segment, then the last segment's results, each failure stopping it |
| Expressions.SegmentsCollect | src/r-bridge/lang-4.x/ast/parser/xml/internal/structure/normalize-expressions.ts:169 | the `flatMap` is the collection of the segments' own normalizations, in segment order |
| Expressions.SegmentsEach | src/r-bridge/lang-4.x/ast/parser/xml/internal/structure/normalize-expressions.ts:169 | the `flatMap` succeeds exactly when every segment normalizes, then yields each segment's nodes concatenated in segment order; otherwise the error of the first segment that fails |
| Expressions.SegmentsStopAtError | src/r-bridge/lang-4.x/ast/parser/xml/internal/structure/normalize-expressions.ts:169 | a failure in a prefix of the segments is the failure of the whole `flatMap` |
| Expressions.NormalizeExpressions | src/r-bridge/lang-4.x/ast/parser/xml/internal/structure/normalize-expressions.ts:147-193 | the method, with its reassigned working run and in-place hoisting, returns `Normalize` of the run |
| Expressions.FlatMapSegments | src/r-bridge/lang-4.x/ast/parser/xml/internal/structure/normalize-expressions.ts:169 | the loop re-entering normalizeExpressions on each segment returns `NormalizeSegments` |
| Expressions.AssembleCountsComments | src/r-bridge/lang-4.x/ast/parser/xml/internal/structure/normalize-expressions.ts:168-181 | wrapping, hoisting or returning the comments neither drops nor duplicates one |
| Expressions.EachSilent | src/r-bridge/lang-4.x/ast/parser/xml/internal/structure/normalize-expressions.ts:195-203 | per-token normalization of a comment-free run adds no comments when single-token normalization adds none to a non-comment token |
| Expressions.DispatchSilent | src/r-bridge/lang-4.x/ast/parser/xml/internal/structure/normalize-expressions.ts:24-50 | the dispatcher adds no comments to a comment-free run when its collaborators add none; the while loop it may build carries none |
| Expressions.NormalizeCountsComments | src/r-bridge/lang-4.x/ast/parser/xml/internal/structure/normalize-expressions.ts:160-192 | no comment is dropped or duplicated: the comment nodes in the result are exactly as many as the run's comment tokens, a lone comment token included |
| Expressions.SegmentsSilent | src/r-bridge/lang-4.x/ast/parser/xml/internal/structure/normalize-expressions.ts:169 | comment-free segments contribute no comment nodes |
| Scenarios.SingleStatement | src/r-bridge/lang-4.x/ast/parser/xml/internal/structure/normalize-expressions.ts:27-28 | a lone token is normalized on its own |
| Scenarios.AdjacentExpressionsSplit | src/r-bridge/lang-4.x/ast/parser/xml/internal/structure/normalize-expressions.ts:82-90 | two adjacent expressions without a semicolon are two segments |
| Scenarios.ThreeSegments | src/r-bridge/lang-4.x/ast/parser/xml/internal/structure/normalize-expressions.ts:76-96 | `a ; b ; c` is cut into `[a]`, `[b]`, `[c]` |
| Scenarios.ThreeSymbols | src/r-bridge/lang-4.x/ast/parser/xml/internal/structure/normalize-expressions.ts:169 | the `flatMap` over three one-token segments keeps their order |
| Scenarios.ThreeHandled | src/r-bridge/lang-4.x/ast/parser/xml/internal/structure/normalize-expressions.ts:126-127 | the classifier splits `a ; b ; c` into its three statements and finds no pair |
| Scenarios.ThreeAssemble | src/r-bridge/lang-4.x/ast/parser/xml/internal/structure/normalize-expressions.ts:173-178 | without a pair the (empty) comments are hoisted onto the first of three results |
| Scenarios.ThreeStatements | src/r-bridge/lang-4.x/ast/parser/xml/internal/structure/normalize-expressions.ts:168-178 | `a ; b ; c` gives three statements, the first with the (empty) hoisted comments |
| Scenarios.BracePairKept | src/r-bridge/lang-4.x/ast/parser/xml/internal/structure/normalize-expressions.ts:110-117 | a comment-free run between a brace pair is kept whole as the one segment, bound to the pair |
| Scenarios.BracedHandled | src/r-bridge/lang-4.x/ast/parser/xml/internal/structure/normalize-expressions.ts:110-117 | `{ a ; b ; c }` is one interior segment bound to the brace pair |
| Scenarios.BracedAssemble | src/r-bridge/lang-4.x/ast/parser/xml/internal/structure/normalize-expressions.ts:171-172 | the pair becomes the grouping symbols of one list holding the three statements |
| Scenarios.BracedBlock | src/r-bridge/lang-4.x/ast/parser/xml/internal/structure/normalize-expressions.ts:168-172 | `{ a ; b ; c }` gives one grouped list of the three statements |
| Scenarios.UnclosedBraceRejected | src/r-bridge/lang-4.x/ast/parser/xml/internal/structure/normalize-expressions.ts:110-112 | `{ a ; b )` fails the guard naming the `)` |
| Scenarios.WhileDispatch | src/r-bridge/lang-4.x/ast/parser/xml/internal/structure/normalize-expressions.ts:39-41 | with if-then missing, a five-token `while ( c ) b` becomes a while loop |
| Scenarios.WhileSegments | src/r-bridge/lang-4.x/ast/parser/xml/internal/structure/normalize-expressions.ts:72-98 | splitExprs keeps `while ( c ) b` whole |
| Scenarios.WhileHandled | src/r-bridge/lang-4.x/ast/parser/xml/internal/structure/normalize-expressions.ts:126-127 | the classifier leaves `while ( c ) b` as its run's only segment |
| Scenarios.WhileRun | src/r-bridge/lang-4.x/ast/parser/xml/internal/structure/normalize-expressions.ts:184-192 | the one-segment path dispatches `while ( c ) b` to the while loop |
| Scenarios.CommentHandled | src/r-bridge/lang-4.x/ast/parser/xml/internal/structure/normalize-expressions.ts:104-128 | the classifier takes the comment out of `x ; y #c` and splits the rest into `[x]` and `[y]` |
| Scenarios.CommentHoisted | src/r-bridge/lang-4.x/ast/parser/xml/internal/structure/normalize-expressions.ts:166-178 | `x ; y #c` gives two statements, the first carrying the normalized comment in its `additionalTokens` |
| Scenarios.CommentGroupHandled | src/r-bridge/lang-4.x/ast/parser/xml/internal/structure/normalize-expressions.ts:108-117 | the classifier takes the comment out of `{ x #c }` and binds `[x]` to the brace pair |
| Scenarios.CommentOnGroupedList | src/r-bridge/lang-4.x/ast/parser/xml/internal/structure/normalize-expressions.ts:166-172 | `{ x #c }` gives one grouped list whose `additionalTokens` hold the normalized comment |
| Scenarios.OnlyComments | src/r-bridge/lang-4.x/ast/parser/xml/internal/structure/normalize-expressions.ts:179-181 | a run of comments only gives the normalized comments |

## Left out

- Logging and tracing (`parseLog`, `expensiveTrace`) and the text of error messages: a failure is a tagged outcome naming the tokens or nodes involved.
- Tokens without a name, which the source first runs through `getWithTokenType`: the model takes named tokens only (normalize-meta.ts is not part of this model).
- `normalizeSingleNode`, `normalizeComment` and the recognisers for unary, repeat, binary, for, symbol, if-then and if-then-else are not modelled: they are parameters, and exceptions they throw are their `Err` outcomes.
- `ensureExpressionList` and `retrieveMetaStructure` live in normalize-meta.ts, which is not part of this model. `EnsureExpressionList` is a stand-in with the shape described above. The while token's lexeme and location are read straight from the token.
- The XML input format, and the internals of source ranges and lexemes: these are opaque values.
- The update of `processed[0].info.additionalTokens` is in place in the source. The model updates a sequence of values, so aliasing of that node with other references is not captured.
- `normalizeComment` receives the token rather than its XML `content`.
- Expressions.NormalizeCountsComments: proved only for collaborators that attach no comments themselves and that normalize a lone comment token into exactly one comment. What the unseen collaborators do with comments is outside this model.
- The comment normalizer's result: `normalizeComment` is assumed to return a comment leaf with no `additionalTokens` of its own. normalize-comment.ts is not part of this model, so this is a type on the collaborator's result rather than a proved fact.
- src/cli/summarizer-app.ts: command-line and file-system plumbing.
