# discover, modelled in Dafny

`discover` trims a Go program down to the code that actually ran. It has two
halves, and this project models the core of both.

- **Instrumenting.** Build-time rewriters insert a coverage counter at the head of every basic
  block and record each block's span (build/cover.go). They also make every function body look up a trace ID and
  wrap each `go` call so that its arguments are evaluated eagerly (build/trace.go,
  build/rewrite.go).
- **Trimming.** A coverage profile is correlated with the original syntax tree (parse.go). The
  tree is then cut down to the functions and statements that ran (trim.go).

The model is one module per concern:

| module | file | what it models |
|---|---|---|
| `Ast` | ast.dfy | the syntax tree. The statement and expression kinds the code switches on, with positions as `nat` (0 is `token.NoPos`) and a `NodeId` handle where Go compares pointers. Also the size measures and well-formedness. |
| `Extents` | extents.dfy | `funcVisitor.Visit`: the pre-order list of function and statement extents. |
| `ExtentOrder` | extent_order.dfy | the source-order layout of a parsed file, and why it makes the extent lists sorted and nested. |
| `Correlate` | correlate.dfy | the two sweeps of `ParseProfile`, and `ParseProfile` over a list of files. |
| `Trim` | trim.dfy | `trimVisitor.Visit`, `replaceStmt`, `visited` and `findCall`. |
| `TrimProps` | trim_props.dfy | a reference listing of calls for `findCall`, the per-case promises of `replaceStmt`, and idempotence of trimming. |
| `Cover` | cover.dfy | `hasFuncLiteral`/`funcLitFinder`, `statementBoundary`, `endsBasicSourceBlock`, `newCounter`/`index` and `addCounters`. |
| `Boundary` | boundary.dfy | where `statementBoundary` falls inside a laid-out statement. |
| `CoverWalk` | cover_walk.dfy | `fileCover.Visit`: clause bodies, the `else` block, and empty switches. |
| `CoverCount` | cover_count.dfy | the file-level statement that every recorded block has exactly one counter. |
| `CoverSpans` | cover_spans.dfy | why every block the walk records over a laid-out file ends after it starts, so that the self-check is exact there. |
| `CoverVars` | covervars.dfy | what `addVariables` computes: the overlap self-check, the position table with packed columns, and the clamped statement counts. |
| `Trace` | trace.dfy | `addIDLookup`, `addGoFunc`, the `addCounters` stub, and the tracer and rewriter walks as one walk with a `Pass` switch. |
| `TraceProps` | trace_props.dfy | the trace and rewrite round trips: removing the lookups and unwrapping the go calls gives back the original, for the rewriter in the shape it leaves `if`s and empty switches. |
| `RewriteProps` | rewrite_props.dfy | what the rewriter walk does: the tracer walk on statements without `if` or empty switches, the `if` case, and the exact round trip on such files. |
| `Rewrite` | rewrite.dfy | `addImport` and the tree steps of `rewriteFile`. |
| `Comments` | comments.dfy | `trimComments` and `initialComments`. |
| `Env` | env.dfy | `getGoEnv`. |
| `Strings` | strings.dfy | `HasPrefix`, the only string helper shared between modules. |

The file set's position lookup is the parameter `at: Pos -> LineCol`. The
`filepath.Base` function is the parameter `base`.

Four places where the code does not do what it evidently intends, and what the model does there:

- **trim.go:80.** The second `case *ast.RangeStmt` reads `Init`, `Cond` and `Post`, which only a for
  statement has. As written it is a duplicate case that Go rejects. It is modelled as the
  for-statement case.
- **trim.go:99-124.** For an `if` whose body and else both ran, the code falls through all three
  branches and returns an empty list, so the `if` is removed although both of its branches
  ran. The model does the same (`TrimProps.BothBranchesReachedDropsIf`).
- **parse.go:45-64, 67-86.** If no block decides the current extent, the inner loop ends without
  `break`. The outer loop then repeats forever. `Correlate.Sweep` returns `None` for that case. The
  lemmas name the precondition that rules it out: extents sorted by start and not reversed, blocks
  non-empty, and a deciding block for every extent.
- **build/rewrite.go:182-187.** The rewriter dereferences the body of every function declaration.
  A declaration without a body (an external function) would panic. `Trace.WalkDecls` returns `None`
  for that case.

## Model

| member | source | states |
|---|---|---|
| Extents.OfStmt | parse.go:156-166 | a statement's own extent comes first in its list, before those of the statements inside it (pre-order) |
| Extents.OfBlock | parse.go:156-166 | a block is recorded as a statement before the statements it holds |
| Extents.FuncExtentsExact | parse.go:144-155 | one function extent per function declaration, in declaration order, keyed by that declaration, spanning from its `func` keyword to its end |
| Extents.FuncExtentsSorted | parse.go:144-155 | with function declarations in source order and an order-preserving position map, the function extents are sorted by start, as the sweep needs |
| Extents.FuncBodiesIndexed | parse.go:156-166 | the body of every function with a body appears among the statement extents |
| ExtentOrder.NestedWithinParent | parse.go:156-166 | in a laid-out statement and with an order-preserving position map, the statement's own extent comes first, the list is sorted by start, and every later extent lies within the first |
| ExtentOrder.StmtExtentsOrdered | parse.go:144-166 | the statement extents of a laid-out file are sorted by start and none ends before it starts |
| ExtentOrder.FuncExtentsOrdered | parse.go:144-155 | the function extents of a laid-out file are sorted by start and none ends before it starts |
| ExtentOrder.FuncsLaidInOrder | parse.go:144-155 | in a laid-out file the function keywords come in declaration order, and each function ends no earlier than it starts |
| Correlate.ExtentsInOrder | parse.go:45-86 | both extent lists of a laid-out file meet the order the two sweeps need, so the layout alone discharges that part of correlatability |
| Correlate.Sweep | parse.go:45-64 | a finished sweep keeps every key it started with and adds only keys of the extents it was given |
| Correlate.FirstDecider | parse.go:47-63 | the index where the inner loop breaks: the first block that starts at or after the extent's end, or does not end at or before its start; every earlier block is skipped; `None` when none decides |
| Correlate.SweepIsMarked | parse.go:45-64 | for sorted, non-reversed extents and non-empty blocks, the shared-cursor sweep gives the accumulated keys plus exactly the extents whose first deciding block overlaps them and has a positive count; it never ends exactly when some extent has no deciding block |
| Correlate.SweepFrom | parse.go:48-52 | blocks dropped by advancing the cursor end before every remaining extent starts, so dropping them changes no later decision |
| Correlate.CursorStaysBehind | parse.go:48-52 | a block that ends before the current extent starts also ends before every later extent starts, when extents are sorted by start |
| Correlate.BehindDecidesNothing | parse.go:54-57 | blocks that end before an extent starts never decide it |
| Correlate.HangsIffAllBlocksBefore | parse.go:47-63 | no block decides an extent exactly when every block ends at or before the extent's start (including when there are no blocks) |
| Correlate.MarkedOverlaps | parse.go:58-60 | a marked extent overlaps a block with a positive count |
| Correlate.SweepGrows | parse.go:58-59 | a sweep only adds keys to the reached set and never removes one |
| Correlate.ParseFromStep | parse.go:32-86 | one profile adds its file to the file list and marks statements and functions, each sweep starting from the full block list |
| Correlate.ParseProfileMarks | parse.go:25-90 | when every profile is correlatable (a laid-out file, non-empty blocks, a deciding block for every extent), the profile holds exactly the reached statements and functions of all files, and one file per profile in profile order |
| Correlate.ParseHangs | parse.go:67-86 | a statement sweep that never ends makes the whole parse never end |
| Trim.TrimFile | trim.go:9-53 | the trimmed file holds only function declarations that were reached, no more declarations than before, and the same imports and comments |
| Trim.ReplaceStmt | trim.go:60-125 | the replacement of a statement is never larger than the statement |
| Trim.FlatReplace | trim.go:44-51 | the replaced list is never larger than the list |
| Trim.TrimStmt | trim.go:24-53 | trimming inside a statement keeps the statement's identity |
| Trim.FindCallExpr | trim.go:135-153 | a call found inside an expression is strictly smaller than it |
| TrimProps.FindCallExprFirst | trim.go:135-153 | `findCall` on an expression is the first call in the pre-order listing of its calls |
| TrimProps.FindCallStmtFirst | trim.go:135-153 | `findCall` on a statement is the first call in the pre-order listing of its calls |
| TrimProps.FindCallExprIffCalls | trim.go:135-153 | `findCall` finds nothing exactly when the expression holds no call, and whatever it finds is one of its calls |
| TrimProps.FindCallStmtIffCalls | trim.go:128-153 | an absent statement has no call, and `findCall` finds nothing exactly when the statement holds no call |
| TrimProps.UnreachedRangeKeepsCall | trim.go:69-78 | a range statement whose body did not run becomes the first call of its collection expression as a statement, or nothing |
| TrimProps.UnreachedForKeepsCalls | trim.go:80-97 | a for statement whose body did not run becomes the first calls of init, condition and post, in that order, each only if present, so at most three |
| TrimProps.UnreachedIfKeepsCalls | trim.go:104-115 | an `if` with neither branch reached becomes the first call of its init, then of its condition, each only if present |
| TrimProps.OneBranchReached | trim.go:116-123 | with only the else reached the `if` becomes the else's own replacement; with only the body reached it is kept with the else cleared |
| TrimProps.BothBranchesReachedDropsIf | trim.go:99-124 | an `if` with both branches reached is removed, as the code is written |
| TrimProps.OtherStmtKept | trim.go:65-67 | every statement other than range, for and if is kept unchanged |
| TrimProps.KeptDeclsExact | trim.go:27-35 | the file keeps exactly its function declarations that were reached, in order, and every other declaration is removed |
| TrimProps.ReplaceIsFixed | trim.go:60-125 | every statement `replaceStmt` produces is one it would leave as it is |
| TrimProps.FixedShape | trim.go:60-125 | a kept range or for statement has a reached body, and a kept `if` has a reached body and no else |
| TrimProps.IdemStmt | trim.go:24-53 | trimming a statement a second time with the same profile changes nothing |
| TrimProps.TrimFileIdempotent | trim.go:9-53 | trimming a file a second time with the same profile changes nothing |
| Cover.LitStmtFirst | build/cover.go:395-409 | `funcLitFinder` yields the body brace of the first function literal in pre-order, found in the listing of outermost literals |
| Cover.HasFuncLitIff | build/cover.go:273-280 | `hasFuncLiteral` holds exactly when some outermost function literal has a body brace |
| Cover.EndsBasicSourceBlock | build/cover.go:355-389 | a statement that does not end a basic block holds no function literal and has its boundary at its own end |
| Boundary.StatementBoundaryWithin | build/cover.go:284-350 | in a laid-out statement the boundary lies between the statement's start and its end |
| Cover.EndsBasicSourceBlockCases | build/cover.go:355-389 | control statements end a block; a label defers to what it labels; a one-argument `panic` call or a statement holding a function literal ends one, and otherwise a simple statement does not |
| Cover.CounterRoundTrip | build/cover.go:233-266 | the counter statement for slot k is recognised as the counter of slot k |
| Cover.NewCounter | build/cover.go:251-266 | the new counter increments slot `len(blocks)`, and exactly its block is appended |
| Cover.ChunkLen | build/cover.go:194-201 | a basic block runs up to and including the first statement that ends one, or to the end of the list |
| Cover.Chunks | build/cover.go:188-215 | earlier blocks are kept, and each new block has a non-empty span and between one and all of the statements |
| Cover.AddCounters | build/cover.go:180-216 | earlier blocks are kept; deleting the counters gives back the statements; one counter statement is inserted per block recorded; an empty list always records a block |
| Cover.AddCountersSpec | build/cover.go:180-216 | deleting the counters gives back the input in order; earlier blocks are kept; the k-th counter inserted increments slot k, one per recorded block; each new block spans a non-empty range |
| Cover.AddCountersEmpty | build/cover.go:183-185 | an empty list gets exactly one counter, spanning (pos, blockEnd) with zero statements |
| Cover.AddCountersOneBlock | build/cover.go:193-207 | a list where nothing ends a block is one block, ending at `blockEnd` when extending to the closing brace and at the last statement's boundary otherwise; no counter when its span is empty |
| Cover.AddCountersBreaks | build/cover.go:188-215 | when statement j is the first that ends a block, the first block runs up to its boundary over j+1 statements, gets a counter when its span is non-empty, and the rest of the list is counted as a fresh call that starts at the next statement with extension off |
| CoverWalk.CovStmt | build/cover.go:34-103 | a walked statement keeps its identity, the recorded blocks only grow, and an empty switch, type switch or select is left as it is with nothing recorded |
| CoverWalk.CovBlock | build/cover.go:36-54 | a walked block keeps its identity and braces, and the recorded blocks only grow |
| CoverWalk.ClauseCounters | build/cover.go:38-52 | each clause body gets counters whose removal gives back the body |
| CoverWalk.ElseBlockFacts | build/cover.go:71-83 | the block that replaces an else is well formed and no larger than the else plus its braces |
| CoverWalk.CoverFile | build/cover.go:34-103 | the covered file keeps its number of declarations, its imports and its comments |
| CoverCount.AddCountersCount | build/cover.go:180-216 | `addCounters` adds one counter to each slot it records and to no other slot |
| CoverCount.CounterInert | build/cover.go:34-103 | walking an inserted counter leaves it and the recorded blocks unchanged |
| CoverCount.CountIf | build/cover.go:55-85 | walking an `if` and its wrapped else adds one counter per block it records |
| CoverCount.CountSwitch | build/cover.go:86-100 | walking a non-empty switch, type switch or select adds one counter per block it records (an empty one is skipped by `CoverWalk.CovStmt`) |
| CoverCount.CoverFileCounters | build/cover.go:34-103 | covering a file adds one counter to each recorded slot and none to any other |
| CoverCount.OneCounterPerBlock | build/cover.go:34-266 | in a covered file that had no counters, every recorded block has exactly one counter, and no other slot has any |
| CoverVars.SelfCheck | build/cover.go:437-446 | the self-check reports exactly the adjacent pairs, in sorted order, where the earlier block ends after the later one starts |
| CoverVars.SelfCheckSilentIff | build/cover.go:431-446 | for blocks that end after they start, and any start-sorted order, the self-check is silent exactly when the blocks are pairwise disjoint |
| CoverSpans.AddCountersNonEmpty | build/cover.go:180-216 | over a list laid out from `pos` and ending by `blockEnd`, every block `addCounters` records ends after it starts |
| CoverSpans.CovBlockNonEmpty | build/cover.go:36-54 | over a laid-out block, every block the walk records ends after it starts |
| CoverSpans.CovIfNonEmpty | build/cover.go:55-85 | over a laid-out `if`, the body and the block that replaces the else record only blocks that end after they start |
| CoverSpans.CoverFileNonEmpty | build/cover.go:34-103 | every block recorded over a laid-out file ends after it starts |
| CoverSpans.CoverFileSelfCheck | build/cover.go:431-446 | over the blocks recorded for a laid-out file, in any start-sorted order, the self-check is silent exactly when no two blocks overlap |
| CoverVars.PackColumns | build/cover.go:465 | the packed column word fits in 32 bits |
| CoverVars.PackRoundTrip | build/cover.go:465 | unpacking the word gives both columns modulo 2^16, and both columns exactly when they fit in 16 bits |
| CoverVars.PosTableDecodes | build/cover.go:462-466 | entry i of the position table holds block i's start line, end line and packed columns |
| CoverVars.ClampNumStmt | build/cover.go:477-482 | a statement count is at most 65535, and unchanged exactly when it already fits |
| CoverVars.ClampMonotone | build/cover.go:477-482 | clamping keeps counts in order and never raises one |
| CoverVars.NumStmtTable | build/cover.go:472-483 | one clamped count per block, in block order |
| CoverVars.Tables | build/cover.go:449-452 | the count array has one slot per block, the position table three words per block, and the statement table one count per block |
| Trace.AddIDLookup | build/trace.go:34-61 | an empty body is unchanged; otherwise two statements are prepended and the original statements follow untouched |
| Trace.IDLookupRoundTrip | build/trace.go:34-61 | dropping the lookup gives back the body, and a body carries the lookup after `addIDLookup` exactly when it was non-empty |
| Trace.AddGoFunc | build/trace.go:63-125 | the rewritten go call calls the generated one-parameter literal with exactly one argument and no spread |
| Trace.GoFuncRoundTrip | build/trace.go:76-124 | unwrapping the rewritten call gives back the function, the arguments in order, and whether the call spread its last argument (which chose `MakeVariadicFunc` over `MakeFunc`) |
| Trace.GoFuncLitHasNoLookup | build/trace.go:22-29 | the generated literal's body does not start with a trace-ID lookup |
| Trace.AddCountersStub | build/rewrite.go:277-280 | the rewriter's `addCounters` returns its list unchanged |
| Trace.StubClauses | build/rewrite.go:190-204 | clause bodies pass through the stub unchanged |
| Trace.WalkStmt | build/rewrite.go:182-262 | a walked statement keeps its identity, and the rewriter leaves an empty switch, type switch or select unchanged |
| Trace.WalkBlock | build/rewrite.go:188-206 | a walked block keeps its identity, its braces and its number of statements |
| Trace.WalkIf | build/rewrite.go:207-237 | a walked `if` keeps its identity and whether it has an else; the rewriter keeps init and condition, and turns the else into a block that opens at the end of the body |
| Trace.WalkDecls | build/trace.go:16-32 | the walk succeeds exactly when every function has a body; it keeps the declarations and their kinds, and a function body carries the lookup exactly when it was non-empty |
| Trace.WalkFile | build/rewrite.go:182-262 | the walked file keeps its number of declarations, its imports and its comments (what the walk does to statements is in `RewriteProps`) |
| TraceProps.Respread | build/trace.go:76-79 | a rebuilt call spreads its last argument exactly when asked to |
| TraceProps.RoundTripStmt | build/trace.go:16-32 | for either walk, untracing a walked statement gives back the statement in the shape that walk leaves it, up to go-call positions |
| TraceProps.RoundTripBody | build/trace.go:18-21 | untracing a traced function body, lookup included, gives back the body |
| TraceProps.TraceRoundTrip | build/trace.go:16-125 | tracing a file succeeds exactly when every function has a body, and untracing the result gives back the file up to go-call positions |
| TraceProps.WalkLookupInert | build/trace.go:40-59 | walking the inserted lookup statements changes nothing |
| TraceProps.WalkListAppend | build/trace.go:16-32 | walking a concatenation walks each part |
| TraceProps.LookupThenWalk | build/trace.go:18-21 | inserting the lookup and then walking the body gives the same block as walking and then inserting |
| RewriteProps.RewriterIsTracer | build/rewrite.go:182-262 | on a file with no `if` and no empty switch, type switch or select, the rewriter walk is the tracer walk |
| TraceProps.RewriteRoundTrip | build/rewrite.go:182-262 | for every file, the rewriter walk succeeds exactly when every function has a body, and untracing its result gives back the file with each `if` header unwalked, each else as the block it is walked in, and empty switches, type switches and selects untouched, up to go-call positions |
| TraceProps.RoundTripIf | build/rewrite.go:207-237 | untracing a rewritten `if` gives back its init and condition unchanged, its body, and its else as the block the rewriter wraps it in |
| RewriteProps.PlainRoundTrip | build/rewrite.go:182-262 | on a file with no `if` and no empty switch, type switch or select, the rewriter walk succeeds exactly when every function has a body, and untracing its result gives back the file itself up to go-call positions |
| RewriteProps.RewriterSkipsEmpty | build/rewrite.go:238-252 | the rewriter leaves an empty switch, type switch or select untouched, where the tracer still walks its header |
| RewriteProps.RewriterIf | build/rewrite.go:207-237 | the rewriter keeps an `if`'s init and condition, walks its body, and turns its else into a block opening at the end of the body that holds the walked else-if, or the walked else block's statements |
| Rewrite.FirstImport | build/rewrite.go:123-130 | the first import of the path, and no earlier one; `None` when the path is not imported |
| Rewrite.AddImport | build/rewrite.go:121-171 | an existing import is reused under its explicit name or the path's last element, and the file is unchanged; otherwise the import becomes declaration 0, the original declarations follow in order, the reference `var _ = name.var` comes last, the import list grows by the new import, and the default name is returned |
| Rewrite.AddImportImports | build/rewrite.go:121-171 | afterwards the path is imported, under the returned name |
| Rewrite.AddImportIdempotent | build/rewrite.go:121-171 | a second `addImport` of the same path changes nothing and returns the same name |
| Rewrite.AddImportWF | build/rewrite.go:138-169 | the added declarations are well formed, and every function still has a body exactly when it had one before |
| Rewrite.RewriteTree | build/rewrite.go:85-92 | rewriting succeeds exactly when every function has a body; the comments are the trimmed directives, and the runtime helper is imported |
| Comments.DirectivesMembers | build/comments.go:18-22 | a comment is kept exactly when it starts with `//go:` at column 1 |
| Comments.TrimGroups | build/comments.go:23-25 | no kept group is empty, and there are no more groups than before |
| Comments.TrimGroupsFlatten | build/comments.go:14-28 | the kept comments, read group by group, are the directives of all comments in their original order |
| Comments.KeepDirectives | build/comments.go:17-22 | the inner loop keeps the directives of a group, in order |
| Comments.TrimComments | build/comments.go:14-28 | the loop computes the kept groups: the directives in order, with empty groups dropped |
| Comments.TrimLeft | build/comments.go:47 | trimming on the left removes exactly the leading white space |
| Comments.TrimRight | build/comments.go:47 | trimming on the right removes exactly the trailing white space |
| Comments.TrimSpaceCommentIff | build/comments.go:47-52 | a trimmed line starts with `//` exactly when the line does after its leading white space |
| Comments.IndexByte | build/comments.go:42 | the first index of the byte, or -1 when it does not occur |
| Comments.IndexIsLineEnd | build/comments.go:42-46 | the newline search ends the line where the line scan says it ends, and the rest starts at the next line |
| Comments.SplitLine | build/comments.go:41-46 | one step splits off the current line and moves to the next line start |
| Comments.ScanHeaderOnly | build/comments.go:47-54 | every line inside the region is blank or a `//` comment |
| Comments.ScanEndsAfterBlank | build/comments.go:48-51 | the region is empty or ends just after a blank line |
| Comments.ScanMaximal | build/comments.go:40-55 | every blank line reached through blank and comment lines alone lies inside the region |
| Comments.ScanFindsRegion | build/comments.go:36-57 | the scan finds the longest prefix of whole blank or comment lines that ends after a blank line |
| Comments.InitialRegionUnique | build/comments.go:36-57 | only one prefix has that description, so it fixes the result |
| Comments.InitialComments | build/comments.go:36-57 | the result is a prefix of the content, is that region, and is empty for empty content |
| Env.FirstGoPath | build/env.go:59-60 | the first `GOPATH=` entry, and no earlier one; `None` when there is none |
| Env.GetGoEnv | build/env.go:56-67 | the first `GOPATH=` entry gets the new path prepended and no other entry changes, later `GOPATH=` entries included; with none, `GOPATH=<path>` is appended; either way that entry starts with `GOPATH=<path>` |
| Env.PrependedKeepsOld | build/env.go:61 | the new entry starts with `GOPATH=<path>` and keeps the old value after the `:` |

## Left out

- Concurrency: the goroutines, channels and first-error collection of `Rewrite`/`rewritePkg`, and `stdoutLock`.
- I/O: reading and writing the source, `os.MkdirAll`/`Create`, and `printer.Fprint`. Only the numbers of `addVariables` are modelled, not its text, and the self-check's messages are modelled as the pairs they name.
- Parsing and loading: `parser.ParseFile`, `findFile`/`build.Import` and `cover.ParseProfiles`. Trees and block lists are inputs, and their error returns from `ParseProfile` are not modelled.
- `token.FileSet.Position` and `offset`: these become the parameter `at`. Line and column numbers are not truncated to 32 bits in the position table.
- `strconv.Unquote` and its `log.Fatalf` path: import paths are kept unquoted.
- `filepath.Base`: it becomes the parameter `base`.
- The `ast.CommentMap` filtering of `Profile.Trim` (trim.go:9-17): trimming a file leaves its comments as they are.
- A nil statement in `replaceStmt` (trim.go:62-63): statement lists hold no nil statements, and the else is only replaced when it was reached, so the case is never taken.
- Comments.TrimLeft, Comments.TrimRight, Comments.TrimSpace, Comments.TrimSpaceCommentIff, Comments.InitialComments: white space is ASCII only (tab, newline, vertical tab, form feed, carriage return, space); `bytes.TrimSpace` also trims Unicode white space.
- Type checking: `panic` is recognised by name, as the source does.
- `sort.Sort`: the self-check takes any start-sorted permutation as a parameter, because the sort is not stable.
- TraceProps.TraceRoundTrip, TraceProps.RewriteRoundTrip, RewriteProps.PlainRoundTrip: positions of the rewritten `go` call are not recoverable, so each round trip gives the original up to those positions.
- The second copies of `addImport` and `unquote` (build/cover.go:107) and of `traceIDName` (build/rewrite.go:18): one copy of each is modelled.
- The build/trace.go copies of `addIDLookup` and `addGoFunc`: the tracer and the rewriter share one walk, so each is modelled once (build/rewrite.go:282-373).
- NodeId: distinct nodes are taken to carry distinct ids, as Go's pointer comparison gives; well-formedness does not state it.
- Panics on malformed trees (a non-clause in a clause list, an else that is neither `if` nor block): these are excluded by the well-formedness predicates, which the parser guarantees.
- cmd/discover, runtimeutil, api.go and example/: these are the driver, the runtime support and the public API, outside the core.
- `CreateEnv`/`Destroy` in build/env.go: these are file-system setup.
