# Operation provenance: a verified model

A recorder attached to an MLIR pass manager writes what each pass saw and did
into a trace. A server reads the trace back, parses the printed IR, and answers
three kinds of question about a function: what happened to an operation through
the pipeline, how two snapshots differ, and what the data flow looks like. This
project models that engine in Dafny and proves what its parts promise to one
another, so that the results compose from the recorder's callbacks up to the
answer of a cached lookup.

| file | what it models |
|---|---|
| `Model.dfy`, `Timeline.dfy`, `Sorting.dfy` | parsed operations and scopes; normalised stages, snapshots, events; the stable sort by key |
| `Recorder.dfy`, `Nesting.dfy`, `Replay.dfy`, `IndexLaws.dfy` | the recorder's callbacks under one mutex, the story well-nested callbacks tell, the invariants of every run |
| `RowLaws.dfy`, `IndexRows.dfy` | what every pass row and index row says, told from the callbacks |
| `Reader.dfy` | rebuilding the pass forest from the pass table |
| `Parser.dfy` | statements, brace counting, region stack, scopes, single-line bodies |
| `StatementLaws.dfy`, `BraceLaws.dfy`, `RegionLaws.dfy`, `ScopeLaws.dfy` | which lines make a statement, which braces count, how regions are numbered, and what each statement gives the parsed module |
| `Snapshot.dfy`, `SnapshotLaws.dfy`, `RecordedTokens.dfy` | line offsets, index rows to operations, tokens, the order of executed passes; what rows and tokens mean; the tokens of a recorded index |
| `Matcher.dfy`, `Diff.dfy`, `DiffLaws.dfy` | the two-phase greedy matcher, the structural diff and what each change says |
| `Collapse.dfy`, `Quotient.dfy`, `Dataflow.dfy`, `GraphLaws.dfy` | budgeted graphs, what collapsing means, def-use and ghost edges, what each node shows |
| `UnionFinds.dfy`, `Uid.dfy`, `UidLaws.dfy` | path-compressing union-find; operation UIDs and what their characters are |
| `Nodes.dfy`, `Relations.dfy`, `Links.dfy`, `Histories.dfy`, `Resolve.dfy` | `resolve_function`: occurrences, the relations of a stage, seams between stages, components, histories |
| `StageLaws.dfy`, `Inference.dfy`, `RunLaws.dfy`, `StepLaws.dfy`, `SeamLaws.dfy`, `HistoryLaws.dfy` | what those relations always satisfy; what each step, each seam link and each history says |
| `TokenOrder.dfy`, `Ambiguity.dfy`, `TokenWitness.dfy` | when hash-map order cannot matter, that otherwise it shows, and a trace where it does |
| `Cache.dfy`, `Lookup.dfy` | the two LRU caches; concurrent lookups over caches and memo tables |
| `Paging.dfy` | paging through a snapshot by octet offsets |

Code that updates state in place is modelled in place (`UnionFind`,
`TraceRecorder`, `TimelineCache`, `HistoryCache`, the matcher's flag array) or
by loops over local state, each tied by its contract to a specification
function; the theorems are about those functions.

## How the results fit together

1. `Replay.RunKeepsInv` holds for every sequence of callbacks, well nested or
   not, whatever the storage refuses. So `Replay.RecordedRunsReadBack` and
   `Replay.ReadTrace`: the reader always rebuilds one tree from a recorded
   table. `Nesting.WellNestedRunsTellTheStory` adds what the tree and its events
   say when the callbacks are well nested.
2. `Lookup.RecordedTracesServe` turns this into the premise of
   `Snapshot.TimelinesAreOk` (pass ids distinct across stages, tokens inside
   the scope, scope lists strictly increasing). `Resolve.ResolveFunction` itself
   asks for less: repeated pass ids and stray tokens are allowed, only a token
   that both sides of a stage know must lie in both scopes.
   `Parser.ParsedModulesAreWellFormed` supplies the rest for every text.
3. `Histories.SameUidIffConnected` and `Histories.AnchorIsLeast` say what a UID
   is; `Resolve.ResolveFunction` yields a result with an entry for every
   occurrence and no other. With distinct pass ids each component keeps its own
   history (`Resolve.EveryHistoryKept`).
4. The before tokens of a stage are walked in the order of a hash map. A stage
   is ambiguous when two tokens continue one operation that the events left
   unclaimed into two different operations. `Ambiguity.OneResultIffUnambiguous`:
   the whole result is the same for all orders exactly when no stage is
   ambiguous. `TokenWitness.AmbiguousTrace` gives a readable trace whose one
   stage is ambiguous. The recorder never writes such a trace: no before
   snapshot numbers two operations alike (`IndexLaws.RunKeepsIndex`), so no
   operation before a pass has two tokens
   (`RecordedTokens.RecordedTimelinesAreUnambiguous`), and all answers about a
   function agree (`Lookup.RecordedAnswersAgree`).
5. `Lookup.EveryAnswerIsRecomputed`: over every interleaving of requests, with
   any hits, misses and evictions, every answer equals recomputation from the
   trace.

6. Each stage is also pinned field by field, in terms of what came into it:
   rows by the callbacks (`RowLaws.RecordedRowsTell`,
   `IndexRows.RecordedIndexTells`), operations and scopes by the statements
   (`ScopeLaws.ParseTells`), tokens by the rows
   (`SnapshotLaws.SnapshotTokensTell`), steps by events, tokens and the two
   operations (`StepLaws.StageSays`, `StepLaws.EventsLeaveSteps`), histories by
   relations and parsed operations (`HistoryLaws.ResolutionTells`), diffs by the
   pairs (`DiffLaws.DiffTells`) and graphs by the operations
   (`GraphLaws.GraphTells`, `GraphLaws.DiffGraphTells`).

## Premises

- The trace does not change while it is served, and reading one blob, index or
  event list always succeeds or always fails.
- `RunLaws.OnlyEventsRename` assumes that equal blob ids mean equal modules;
  `Snapshot.BlobsMeanModules` proves it for timelines built from a trace.
- Operation text is abstracted: `Parser.Lexer` says of a line whether it begins
  an operation, which symbol a statement names first after an `@` (of any
  statement, so that any such one can open a scope, not only a `func.func`), and
  which fields an operation has. All theorems hold for every such lexer.
- Region paths are unique exactly when no region is numbered after the counter
  stack was emptied (`Parser.RegionPathsUniqueIff`). One closing brace too many
  empties it: for every line that opens one region, that line, two closing
  braces and the line again (`Parser.ExtraBraceRepeatsPath`); for instance a
  module closed twice (`Parser.ModuleClosedTwice`).

Three places where a natural reading promises more than the code does. Parsing a
UID and writing it again is not the identity, because leading zeros and plus
signs are accepted (`Uid.ReencodeIffCanonical`, `Uid.LeadingZeroIsLost`).
Following `next_offset` does not end for every accepted limit, because a page
smaller than the character it starts at stays empty
(`Paging.PagingEndsIffCharactersFit`, `Paging.OneOctetPagesNeverEnd`). And two
lookups of one function in one trace may differ, though never in a recorded one
(`Lookup.AmbiguousAnswersDiffer`, `Lookup.RecordedAnswersAgree`).

## Model

| member | source | states |
|---|---|---|
| UnionFinds.UnionFind.constructor | crates/engine/src/provenance.rs:249-253 | every element starts as its own root |
| UnionFinds.UnionFind.Find | crates/engine/src/provenance.rs:255-260 | path compression ends, answers the root and moves nobody's root |
| UnionFinds.UnionFind.Union | crates/engine/src/provenance.rs:262-268 | everything under the right root is now under the left root, nothing else moves, the parent array stays a forest |
| UnionFinds.CompressionKeepsRoots | crates/engine/src/provenance.rs:255-260 | pointing a node at its root keeps the forest and every root |
| UnionFinds.LinkMergesRoots | crates/engine/src/provenance.rs:262-268 | hanging one root under another merges exactly the two trees |
| UnionFinds.ConnectedExtended | crates/engine/src/provenance.rs:764-769 | one more link joins exactly the pairs it bridges |
| UnionFinds.MergeLinks | crates/engine/src/provenance.rs:764-769 | after folding all links, equal roots is exactly the reflexive, symmetric, transitive closure |
| Matcher.FingerprintScore | crates/engine/src/diff.rs:44-62 | there is a score exactly for equal names, and it lies between 50 and 100 |
| Matcher.ScoreWeighs | crates/engine/src/diff.rs:44-62 | the score is 50, and 25, 15 and 10 more for equal types, as many operands and one known location |
| Matcher.ExactPairsTwins | crates/engine/src/diff.rs:83-95 | the exact phase pairs the k-th with the k-th occurrence of a fingerprint, and nothing else |
| Matcher.GreedySound | crates/engine/src/diff.rs:64-138 | the result is one-to-one, keeps names, extends the exact phase and leaves no matchable pair |
| Matcher.GreedyMaximal | crates/engine/src/diff.rs:64-138 | per operation name the number of pairs is the smaller of the two counts |
| Matcher.GreedyMaximum | crates/engine/src/diff.rs:64-138 | no one-to-one, name-respecting pairing has more pairs |
| Matcher.GreedyChoosesBest | crates/engine/src/diff.rs:97-129 | an inferred pair has the best score, earliest on ties, among targets not taken before |
| Matcher.MatchOps | crates/engine/src/diff.rs:64-138 | the loop over taken flags returns exactly the specified pairs |
| Matcher.MatchConserves | crates/engine/src/diff.rs:64-138 | every before and every after operation appears exactly once |
| Matcher.MatchKeepsNames | crates/engine/src/diff.rs:64-138 | a full pair joins operations of the two lists that share a name |
| Matcher.MatchLeavesNoNamesakes | crates/engine/src/diff.rs:64-138 | of two operations with one name at least one is paired |
| Matcher.MatchWithItself | crates/engine/src/diff.rs:64-138 | a list matched against itself pairs each operation with itself, in order |
| Diff.DiffFunction | crates/engine/src/diff.rs:165-260 | draining the map and the removed queue computes the specified diff |
| Diff.DiffOrderLaw | crates/engine/src/diff.rs:178-260 | after operations ascend, removed ones ascend, and each removed one stands just ahead of the first change whose before index exceeds it |
| Diff.DiffConserves | crates/engine/src/diff.rs:165-260 | each operation of either scope is in exactly one change, and each change is one pair's |
| Diff.MonotoneDiffAscends | crates/engine/src/diff.rs:178-260 | with a monotone matching the before indices of the whole diff ascend |
| Diff.SpliceInterleaves | crates/engine/src/diff.rs:234-254 | splicing keeps both streams whole and in order |
| Diff.ShortcutRefinesDiff | crates/server/src/api.rs:409-436 | the identical-blob answer is the diff of the module with itself, in the same order |
| DiffLaws.DiffTells | crates/engine/src/diff.rs:139-232 | each change has the lines of its two operations, its class, and every difference between them once, in order, with what each has |
| DiffLaws.RemovedAreSorted | crates/engine/src/diff.rs:234 | removed operations are put in ascending order of their before index, and none is lost |
| Collapse.CollapseCluster | crates/engine/src/graph.rs:143-215 | one collapse computes the specified graph |
| Collapse.CollapseToBudget | crates/engine/src/graph.rs:110-141 | the loop collapses the candidates needed and then truncates |
| Collapse.NeededIsFirst | crates/engine/src/graph.rs:110-141 | collapsing stops at the first graph within budget, or when the candidates run out |
| Collapse.MaybeTruncate | crates/engine/src/graph.rs:217-241 | truncation in place computes the specified graph |
| Quotient.HiddenIsRegion | crates/engine/src/graph.rs:143-160 | deepest first: a step hides precisely the nodes whose region path equals its path |
| Quotient.CollapseStep | crates/engine/src/graph.rs:143-215 | one collapse of a quotient is the quotient with one more region folded |
| Quotient.FoldedIsQuotient | crates/engine/src/graph.rs:110-215 | before truncation the budgeted graph is the quotient: classes are joined exactly when an original edge of the same kind joined members |
| Quotient.FoldedConservesNodes | crates/engine/src/graph.rs:110-215 | survivors and hidden counts sum to the original node count |
| Quotient.FoldedClosed | crates/engine/src/graph.rs:110-215 | every original node is in one remaining node, every remaining node stands for an original one, no edge dangles |
| Quotient.BudgetedGraphIsSound | crates/engine/src/graph.rs:110-241 | at most budget nodes for a positive budget, no dangling edge, no self-loop, summaries cut last, the flag tells |
| Dataflow.DataflowEdges | crates/engine/src/graph.rs:79-108 | the loops compute the specified edge list |
| Dataflow.EdgesAreDefUse | crates/engine/src/graph.rs:79-108 | an edge is there exactly when the use reads a name whose last definition is the other operation |
| Dataflow.EdgesDistinct | crates/engine/src/graph.rs:79-108 | no edge is listed twice |
| Dataflow.ExtractDataflow | crates/engine/src/graph.rs:243-268 | the graph handed out is the truncated, folded full graph |
| Dataflow.ExtractDataflowDiff | crates/engine/src/graph.rs:270-389 | the diff graph handed out is the truncated, folded diff graph |
| Dataflow.GhostEdgesMeaning | crates/engine/src/graph.rs:333-378 | ghost edges are exactly the removed def-use pairs, drawn between where their ends are shown |
| Dataflow.EndpointIsShown | crates/engine/src/graph.rs:270-389 | every before operation is shown, as what it became or as a ghost |
| Dataflow.DiffGraphIsSound | crates/engine/src/graph.rs:270-389 | through ghosts, collapse and truncation no edge dangles, none is a loop, and the budget holds |
| Dataflow.GraphIsSound | crates/engine/src/graph.rs:243-268 | the same for the graph of one module |
| GraphLaws.GraphTells | crates/engine/src/graph.rs:52-77 | one node to an operation of the scope, in order, with its name, lines, region, index and caption; then folded and cut |
| GraphLaws.DiffGraphTells | crates/engine/src/graph.rs:270-389 | after operations classified by their change, then a ghost to each removal in diff order, each showing its operation; then folded and cut |
| GraphLaws.FoldingTells | crates/engine/src/graph.rs:110-215 | the folded regions are those of nested operations, deepest first, no more than the budget asks and no fewer while there are any; each has a summary counting its operations |
| Reader.Passes | crates/trace-format/src/reader.rs:172-232 | the reverse drain returns the forest exactly when every parent sorts first, else the error |
| Reader.SmallerParentsSortFirst | crates/trace-format/src/reader.rs:176-200 | parents with smaller ids sort ahead of their children in the query |
| Reader.ForestHoldsEachRowOnce | crates/trace-format/src/reader.rs:201-231 | every row is in exactly one node and no node is invented |
| Reader.SiblingsInOrder | crates/trace-format/src/reader.rs:172-232 | siblings, roots included, come out in sequence order under the right parent |
| Recorder.TraceRecorder.BeforePipeline | capture/lib/TraceRecorder.cpp:222-233 | the whole new state after the callback |
| Recorder.TraceRecorder.AfterPipeline | capture/lib/TraceRecorder.cpp:234-243 | the whole new state after the callback |
| Recorder.TraceRecorder.BeforePass | capture/lib/TraceRecorder.cpp:342-393 | the whole new state on every path, storage failures and re-entry included |
| Recorder.TraceRecorder.AfterPass | capture/lib/TraceRecorder.cpp:395-445 | the whole new state on every path |
| Recorder.TraceRecorder.RecordIdentity | capture/lib/TraceRecorder.cpp:306-340 | the event is stamped with the innermost pass of its thread and numbered, or nothing happens |
| Recorder.TraceRecorder.WriteOpIndex | capture/lib/TraceRecorder.cpp:258-274 | index rows in walk order up to the first one refused |
| Recorder.TraceRecorder.FinishTrace | capture/lib/TraceRecorder.cpp:175-211 | reports the first error and closes the recorder |
| Replay.RunKeepsInv | capture/lib/TraceRecorder.cpp:222-445 | every run keeps ids increasing, parents below children, siblings numbered 0 to n-1 in begin order, events numbered per pass |
| Replay.TableIsReadable | capture/lib/TraceStorage.cpp:255-310 | a recorded table satisfies what the reader relies on |
| Replay.SameForest | crates/trace-format/src/reader.rs:172-232 | the query order and the begin order give the same forest |
| Replay.RecordedRunsReadBack | crates/trace-format/src/reader.rs:172-232 | reading back any run yields its pass tree, under one root |
| Replay.ReadTrace | crates/trace-format/src/reader.rs:172-232 | the reader succeeds on every recorded table and returns that tree |
| Nesting.StepRefines | capture/lib/TraceRecorder.cpp:222-445 | each fitting callback keeps the recorder's maps projections of one stack per thread |
| Nesting.WellNestedRunsTellTheStory | capture/lib/TraceRecorder.cpp:222-445 | on every well-nested interleaving, up to and including the end, rows hang under the owner of the innermost pipeline, and events carry the innermost pass, the innermost pattern or else action, and whether an action was open |
| Nesting.ClosedRunsLeaveNothingOpen | capture/lib/TraceRecorder.cpp:276-445 | a thread that left nothing open has no entry in any of the five maps |
| Nesting.FinishSeals | capture/lib/TraceRecorder.cpp:175-211 | after the end no callback, nested or not, adds to the trace |
| RowLaws.RecordedRowsTell | capture/lib/TraceRecorder.cpp:342-445 | on every well-nested run each pass row has the name, start and snapshot of its begin callback and the end, snapshot and changed flag of its end callback, and the root row those of the first begin and the last child end |
| RowLaws.EndStep | capture/lib/TraceRecorder.cpp:395-445 | an end callback rewrites its own row, the root row for a direct child, and no other |
| IndexRows.RecordedIndexTells | capture/lib/TraceRecorder.cpp:258-274 | at full fidelity every operation of every walk has its row with token, place and name, and there are no more rows |
| IndexRows.OnlyFullRecordsOps | capture/lib/TraceRecorder.cpp:258-310 | below full fidelity no run writes index rows or events |
| IndexLaws.RunKeepsIndex | capture/lib/TraceRecorder.cpp:258-274 | over every run, of the rows written before one pass no two have the same ordinal |
| Cache.TimelineCache.Timeline | crates/server/src/cache.rs:88-95 | a hit answers the stored value and counts as a use, a miss changes nothing |
| Cache.TimelineCache.Put | crates/server/src/cache.rs:97-109 | afterwards exactly the most recently used keys up to capacity are stored, the new one among them; eviction ends |
| Cache.HistoryCache.Resolved | crates/server/src/cache.rs:111-118 | a hit moves the key to the recent end, a miss changes nothing |
| Cache.HistoryCache.Put | crates/server/src/cache.rs:120-138 | oldest entries go until the rest fits or one is left; the counter is the true total |
| Cache.HitHoldsRecent | crates/server/src/cache.rs:28-31 | touching keeps the queue the recent end of the use log |
| Cache.PutStartsTrimming | crates/server/src/cache.rs:97-109 | inserting and touching leaves a queue whose newest keys are the most recently used ones |
| Cache.WeightAfterPut | crates/server/src/cache.rs:125-128 | the total changes by exactly the replaced and the new entry |
| Cache.FittingIsTight | crates/server/src/cache.rs:130-137 | what stays fits or is alone, and keeping one more would not fit |
| Uid.AnchorRoundTrip | crates/engine/src/provenance.rs:53-96 | parsing an encoded anchor gives the anchor back, for every name, pass id, side and ordinal |
| Uid.UidsAreInjective | crates/engine/src/provenance.rs:53-61 | different anchors never share a UID |
| Uid.ReencodeIffCanonical | crates/engine/src/provenance.rs:69-96 | a UID that parses re-encodes to itself exactly when both numbers are canonical |
| Uid.LeadingZeroIsLost | crates/engine/src/provenance.rs:69-96 | a leading zero is accepted and lost |
| Uid.DecodeEncoded | crates/engine/src/provenance.rs:54-78 | base64url without padding round-trips every octet sequence |
| Uid.EncodeDecoded | crates/engine/src/provenance.rs:54-78 | only the canonical text decodes to given octets |
| UidLaws.SymbolsAreTheAlphabet | crates/engine/src/provenance.rs:54-78 | the symbols are the URL-safe alphabet in order |
| UidLaws.EncodedTells | crates/engine/src/provenance.rs:53-61 | group by group the encoded text and the octets are one number |
| UidLaws.UidReads | crates/engine/src/provenance.rs:53-61 | five fields between dots, `b` for before and `a` for after, numbers in decimal |
| Paging.IrPage | crates/server/src/api.rs:268-280 | the two boundary loops compute the specified page |
| Paging.PageIsSound | crates/server/src/api.rs:268-290 | a page is at most the limit, cut on character boundaries |
| Paging.FollowedPagesConcatenate | crates/server/src/api.rs:268-290 | the pages met by following next_offset concatenate to the text |
| Paging.PagingEndsIffCharactersFit | crates/server/src/api.rs:268-290 | following from zero ends exactly when every character fits a page |
| Paging.OneOctetPagesNeverEnd | crates/server/src/api.rs:268-290 | one letter of two octets is never read through pages of one octet |
| Paging.PagesCoverSnapshot | crates/server/src/api.rs:268-290 | with at least four octets to a page every snapshot is read whole |
| Parser.AssembleStatements | crates/engine/src/parser.rs:31-53 | grouping lines into statements computes the specified list |
| StatementLaws.AssembledTells | crates/engine/src/parser.rs:16-53 | statements go from a line that begins one to the last non-blank line before the next, their text is those lines joined by spaces, and only blank lines lie between |
| StatementLaws.TrimmedTells | crates/engine/src/parser.rs:31-53 | trimming takes the space off both ends and nothing else |
| StatementLaws.LinesTell | crates/engine/src/parser.rs:31-53 | lines are the text between line feeds |
| Parser.BraceDelta | crates/engine/src/parser.rs:200-223 | braces outside string literals, opening minus closing |
| BraceLaws.DeltaIsNesting | crates/engine/src/parser.rs:200-223 | the scan counts exactly the braces outside literals, read literal by literal |
| Parser.ParseModule | crates/engine/src/parser.rs:234-398 | the loop over regions and scopes computes the specified module |
| ScopeLaws.ParseTells | crates/engine/src/parser.rs:234-398 | each statement gives its operation under the open regions and on its lines; a scope lists exactly the operations met while it is open, a single-line body its own, and without functions one scope lists all |
| ScopeLaws.ScopeIsOpenWhile | crates/engine/src/parser.rs:254-290 | a scope is open from the statement that names it until the regions are no deeper than there |
| ScopeLaws.BodiesAre | crates/engine/src/parser.rs:320-352 | a single-line body lies between the first opening and the last closing brace of a named, balanced statement |
| Parser.StatementsFit | crates/engine/src/parser.rs:31-53 | no statement is longer than the text, so recursion on single-line bodies ends |
| Parser.ParseIsWellFormed | crates/engine/src/parser.rs:234-398 | index i at place i, depth equals path length, lines inside the text, scopes strictly increasing and disjoint |
| Parser.RunKeepsState | crates/engine/src/parser.rs:234-386 | at every statement the same holds so far, and the scope being filled exists and is never deeper than the region stack |
| Parser.ParsedModulesAreWellFormed | crates/engine/src/parser.rs:234-398 | every text parses to a module the matcher, diff and graph can use |
| Parser.RecordFollowsParser | crates/engine/src/parser.rs:234-385 | the recorded region paths are those of the parser's own stack |
| Parser.RegionPathsUniqueIff | crates/engine/src/parser.rs:372-385 | no two regions of a call share a path exactly when none was numbered on an emptied counter stack |
| RegionLaws.RegionsCountSiblings | crates/engine/src/parser.rs:372-385 | a region is numbered by how many its parent had before it |
| RegionLaws.StackFollowsBraces | crates/engine/src/parser.rs:254-385 | the region stack goes out by surplus closing braces, in by surplus opening ones, and otherwise stays |
| Parser.BalancedTextHasUniquePaths | crates/engine/src/parser.rs:372-385 | while closes never outnumber opens, region paths are unique |
| Parser.ExtraBraceRepeatsPath | crates/engine/src/parser.rs:372-385 | for every line that opens one region: that line, two closing braces and the line again give two regions with the path [0] |
| Parser.ModuleClosedTwice | crates/engine/src/parser.rs:372-385 | a module closed twice and opened again has two regions with one path |
| Snapshot.LineStarts | crates/server/src/provenance.rs:30-38 | the loop computes the specified offsets |
| Snapshot.LineStartsAgreeWithParser | crates/server/src/provenance.rs:30-38 | the server's offsets are those of the parser's lines |
| Snapshot.OffsetsHoldLines | crates/server/src/provenance.rs:30-38 | each offset is where that line's text stands |
| Snapshot.Narrowest | crates/server/src/provenance.rs:62-76 | the narrowest covering statement, the lowest index on ties, and none exactly when no statement covers |
| Snapshot.SpansMeanNarrowest | crates/server/src/provenance.rs:40-76 | a span means the narrowest covering statement of the scope, the lowest index on ties |
| Snapshot.ParsedOpsHaveExtents | crates/server/src/provenance.rs:40-76 | every parsed operation has a known extent inside the text |
| Snapshot.TokensAreUnambiguous | crates/server/src/provenance.rs:109-127 | a token is kept exactly when one and only one of its rows means an operation, and as that operation |
| SnapshotLaws.RowsMean | crates/server/src/provenance.rs:40-76 | a row is an ordinal of the scope or the narrowest statement of it that holds the span, and means nothing otherwise |
| SnapshotLaws.SnapshotTokensTell | crates/server/src/provenance.rs:109-127 | a token names an operation exactly when one row of its side, and no other, does |
| Snapshot.BuildSnapshot | crates/server/src/provenance.rs:78-135 | the snapshot, or none, or the read error, as specified |
| Snapshot.SnapshotsAreOk | crates/server/src/provenance.rs:78-135 | tokens stay in the scope and ordinals are places in it |
| Snapshot.CollectLeaves | crates/server/src/provenance.rs:14-28 | the recursion numbers passes in walk order and keeps the childless ones |
| Snapshot.LeavesInTimeOrder | crates/server/src/provenance.rs:158-175 | executed passes are sorted by start and walk order, each kept as often as it is a leaf |
| SnapshotLaws.TimelineTells | crates/server/src/provenance.rs:158-206 | a timeline has one stage for each pass with a snapshot of the function, in start order, with its two snapshots and its events |
| SnapshotLaws.PassesComeInOrder | crates/server/src/provenance.rs:158-175 | passes come by start and then by walk order, and none is lost |
| Snapshot.BuildTimeline | crates/server/src/provenance.rs:158-206 | the stages of the passes that mention the function, or the first read error |
| Snapshot.TimelinesAreOk | crates/server/src/provenance.rs:158-206 | a forest that holds each pass once gives everything the resolver assumes |
| Snapshot.BlobsMeanModules | crates/server/src/provenance.rs:78-135 | equal blob ids mean equal modules |
| RecordedTokens.RecordedTimelinesAreUnambiguous | crates/server/src/provenance.rs:109-127 | in a recorded trace no operation before a pass has two tokens, so no stage is ambiguous |
| Nodes.CollectNodes | crates/engine/src/provenance.rs:321-351 | one node per operation of the function in each snapshot, and the index over them |
| Nodes.NodesAscend | crates/engine/src/provenance.rs:321-351 | nodes ascend strictly by stage, side and ordinal and stand for their operations |
| Nodes.NodesAreNumbered | crates/engine/src/provenance.rs:549-570 | index and nodes are inverse, and no occurrence is missing |
| Nodes.TokensFindNodes | crates/engine/src/provenance.rs:353-368 | a token finds a node exactly when the snapshot maps it to an operation of the scope, and that operation's node |
| Relations.PushRelation | crates/engine/src/provenance.rs:304-319 | a recorded step joins the first equal step, else goes last |
| Relations.HandleEvent | crates/engine/src/provenance.rs:581-698 | each event kind has the specified effect on relations and used sets |
| Relations.HandleToken | crates/engine/src/provenance.rs:702-736 | a shared token links its operations under the stated guards |
| Relations.HandleFallback | crates/engine/src/provenance.rs:377-461 | the unclaimed operations are matched and linked as specified; the score always exists |
| Relations.HandleStage | crates/engine/src/provenance.rs:573-751 | events, tokens in some order, fallback: the whole stage |
| StageLaws.StageHasThreeParts | crates/engine/src/provenance.rs:573-751 | event steps, then appended token steps, then appended inferred steps; every step is in order |
| StageLaws.FallbackIsFresh | crates/engine/src/provenance.rs:377-461 | the fallback sees only unclaimed operations and pairs each at most once |
| Inference.StageInfersAlone | crates/engine/src/provenance.rs:377-461 | an inferred step shares neither end with any other step of its stage |
| Inference.FirstReplacementDecides | crates/engine/src/provenance.rs:574-625 | the mappable replacement of least sequence number decides what an operation became |
| Inference.EventStepsAreEvents | crates/engine/src/provenance.rs:581-698 | every mappable insertion, erasure and modification leaves its step, and every event step has such an event |
| Inference.NoNamesakesLeft | crates/engine/src/provenance.rs:377-461 | after a stage no two unclaimed operations, one on each side, share a name |
| Inference.PushKeepsEvidence | crates/engine/src/provenance.rs:304-319 | merging loses no evidence and keeps it in sequence order |
| StepLaws.StageSays | crates/engine/src/provenance.rs:283-461 | every step of a stage is what its events, a shared token or the fingerprints say, with the change and score the two operations give |
| StepLaws.EventsLeaveSteps | crates/engine/src/provenance.rs:581-698 | every event about known operations, of replacements the first, leaves its step with its sequence, pattern and source as evidence |
| StepLaws.TokensLead | crates/engine/src/provenance.rs:701-736 | a shared token leads its operation on unless an event or another token does or the target was inserted |
| StepLaws.TokensKeepOff | crates/engine/src/provenance.rs:701-736 | a token leads nobody whom another exact step leads, and to nobody inserted |
| StepLaws.NamesakesMeet | crates/engine/src/provenance.rs:377-461 | after a stage of two namesakes one was led away or reached |
| StepLaws.StageTellsOnce | crates/engine/src/provenance.rs:304-319 | no step is told twice, and its evidence is in order |
| Links.BridgeStages | crates/engine/src/provenance.rs:463-544 | the seam's links are appended as specified |
| Links.CollectRelations | crates/engine/src/provenance.rs:572-762 | all relations of the timeline, for the order the token maps had |
| RunLaws.StageAppends | crates/engine/src/provenance.rs:304-319 | a stage never touches steps of another stage |
| RunLaws.RunInfersAlone | crates/engine/src/provenance.rs:572-751 | inferred steps stand alone in their stage throughout the run |
| RunLaws.SeamIsOneToOne | crates/engine/src/provenance.rs:463-544 | across a seam every operation has at most one continuation and one origin |
| RunLaws.SeamLinksFit | crates/engine/src/provenance.rs:463-544 | seam links lead from an after to a before occurrence of one name |
| SeamLaws.SeamLinksSay | crates/engine/src/provenance.rs:513-541 | a seam link says unchanged, exact for a shared snapshot, else by the score of the two operations |
| SeamLaws.SharedSeamsLead | crates/engine/src/provenance.rs:485-493 | across a shared snapshot every operation is linked to itself |
| SeamLaws.OtherSeamsLead | crates/engine/src/provenance.rs:493-512 | across any other seam of two namesakes one is linked |
| RunLaws.OnlyEventsRename | crates/engine/src/provenance.rs:377-762 | a history without a link that a replaced or modified event left keeps one operation name throughout |
| Histories.AnchorIsLeast | crates/engine/src/provenance.rs:779-790 | the anchor is connected to the operation and precedes every other connected one |
| Histories.SameUidIffConnected | crates/engine/src/provenance.rs:764-790 | two occurrences share a UID exactly when a chain of relations joins them |
| Histories.HistoryTellsItsSteps | crates/engine/src/provenance.rs:806-842 | a history has exactly the recorded steps of its operations, by stage and ordinal |
| Histories.BookFixesResult | crates/engine/src/provenance.rs:779-858 | where each UID has one record, the result is determined entry by entry |
| Histories.FindComponents | crates/engine/src/provenance.rs:764-773 | the components are the classes of connected occurrences, each in ascending order |
| Resolve.ComponentShares | crates/engine/src/provenance.rs:779-858 | whatever the pass ids, the operations of a component share one UID and one history |
| Resolve.EveryHistoryKept | crates/engine/src/provenance.rs:779-858 | with distinct pass ids every operation's UID leads to the history of its own component |
| Resolve.ResolveComponents | crates/engine/src/provenance.rs:774-858 | in whatever order components are met, every operation gets its entry and every UID a history of an operation that has it |
| Resolve.ResolveFunction | crates/engine/src/provenance.rs:546-859 | every occurrence is selectable under its UID, every UID has a history of an operation that has it, and there is nothing else |
| HistoryLaws.ResolutionTells | crates/engine/src/provenance.rs:774-858 | every selectable entry has the index, name and lines of its operation; every history the names of its first and last operation and its recorded steps in order, each with its pass, its two operations, change, evidence and confidence |
| TokenOrder.OrderIndependentIffUnambiguous | crates/engine/src/provenance.rs:701-736 | a stage takes the same steps for every order of its token map exactly when it is unambiguous |
| Ambiguity.OneResultIffUnambiguous | crates/engine/src/provenance.rs:546-859 | the whole result is the same for all orders of all token maps exactly when no stage is ambiguous |
| TokenWitness.AmbiguousTrace | crates/server/src/provenance.rs:78-206 | a trace the server reads, with two spans in one statement, has more than one result |
| TokenOrder.InjectiveIsUnambiguous | crates/engine/src/provenance.rs:701-736 | injective before tokens are unambiguous |
| TokenOrder.AnyOrderResolvesAlike | crates/engine/src/provenance.rs:546-859 | an unambiguous timeline has one resolution, whatever the hash maps do |
| Lookup.StepKeepsOk | crates/server/src/provenance.rs:208-231 | no critical section of any request puts a wrong entry into a cache or memo table |
| Lookup.EveryAnswerIsRecomputed | crates/server/src/cache.rs:63-138 | over every interleaving, hit, miss and eviction, each answer is the recomputed one |
| Lookup.AnswersAgree | crates/server/src/provenance.rs:208-231 | where no token is ambiguous all answers about a function are the same |
| Lookup.AmbiguousAnswersDiffer | crates/server/src/provenance.rs:208-231 | where some stage is ambiguous, recomputing may give two different answers |
| Lookup.Recompute | crates/server/src/provenance.rs:208-231 | the path with nothing cached gives such an answer |
| Lookup.RecordedTracesServe | crates/trace-format/src/reader.rs:172-232 | a recorded trace, read back, is one the server can serve |
| Lookup.RecordedAnswersAgree | crates/trace-format/src/reader.rs:84-110 | about a recorded trace all answers about a function are the same |
| Lookup.ServedTimelinesAreOk | crates/server/src/provenance.rs:158-206 | every timeline served meets the resolver's premises |

## Left out

- SQLite statements, write-ahead logging, file handling, compression and hashing: storage is an append-only table with increasing ids, and blob ids are content ids; a refused write is an input of the step.
- MLIR printing, operation walking and the clock: printed text, walked operations and times are inputs of the recorder's steps.
- The exact text of operation names, attributes, types and locations: `Parser.Lexer` supplies them, and only equality matters.
- Unicode: text is a string of octets, trimming knows ASCII space only, and a function name is taken as octets without checking that it is UTF-8.
- The wording of diff details: `Diff.Detail` keeps what differs, not how it is phrased.
- The text form of graph node ids: they are values of a datatype, so that different nodes have different ids by construction; labels and attributes of nodes are not modelled.
- The 32-bit width of the brace count: `Parser.Delta` is unbounded, so a text with more than two thousand million unclosed braces is not covered.
- The upper bound of the page size: `Paging.PageAt` accepts any positive limit, of which the accepted ones are a part.
- HTTP routing, status mapping, MessagePack, asset serving, the command line and the user interface: plumbing and presentation.
- `attach` and the listener adapters of the recorder: each callback they forward is a step of the model.
- `normalize_event`: events enter the timeline already normalised.
- The addition of UIDs to graph nodes in the graph endpoint.
- Lookup.EveryAnswerIsRecomputed: each critical section is one atomic step and the two LRU caches appear as maps of which a put may drop any entries; that the real caches drop only what they should is `Cache`'s part.
- Resolve.ResolveFunction: requires that a token both sides of a stage know lies in both scopes, without which the code would panic, and that ordinals, where given, are places in the scope; `Snapshot.TimelinesAreOk` provides both. With repeated pass ids a UID keeps the history of one of its components, and the contract does not say of which.
- Recorder.TraceRecorder.BeforePass: snapshots are answered by the storage as a whole blob id, so a failure inside printing is not told apart from a refused write.
