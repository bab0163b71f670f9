# TerseContext: models of its algorithmic kernels

TerseContext indexes source code into a graph, enriches that graph with what traced runs show, and answers queries by
expanding subgraphs. Most of its services move messages; a few hold algorithms whose guarantees span many calls. This
project models those kernels in Dafny and proves the guarantees for all inputs and all runs.

Loops that update variables are methods with loops, objects with fields are classes; each method is tied by its
`ensures` to a function of its inputs or old state, and the lemmas are about that function. Map iteration order, sort
ties, the order of store answers and every fault of an awaited call are arbitrary.

| files | what they model |
|---|---|
| `Scoring`, `Walks`, `Bfs`, `CutOff`, `Budget`, `Expander` | subgraph expansion: in-place best-score relaxation, what the hop limit does to it, pruning under a token budget, and their composition |
| `MiniGo`, `Instrumenter`, `Preservation`, `CallTrace` | a Go core with panics, defers and recover after "Defer statements" and "Handling panics" of The Go Programming Language Specification; the source rewriting; that it preserves meaning; what it logs |
| `Tracert`, `Pipeline`, `Normalizer`, `TraceConsumers`, `Frequencies` | the event buffer and emission, assembly, call-tree reconstruction on any event list, two other readers of the same events, aggregation over runs |
| `RateLimit` | the per-key token bucket |
| `IncrementalIndex` | commit diffing, event filtering and the incremental index against a parse from scratch |
| `PendingRefs`, `Provenance`, `StreamConsumer` | the bounded retry queue, the edge-provenance machine of two services, the stream consumer with its dead-letter queue and batch buffers |
| `RankFusion`, `Trend` | reciprocal rank fusion and the least-squares trend |
| `Options`, `Sorting` | optional values; the sort both rankings use |

What the proofs brought out, where the code and the obvious expectation differ:

- The hop limit bounds scores from below only. Some traversal scores exactly the best walks within the limit
  (`CutOff.CutOffIsAttained`), but a parent's score may rise within a round, so a node can score along a longer walk.
  The order of the store's answers is immaterial exactly when no traversal exceeds that bound (`CutOff.OrderMattersIff`);
  a graph on which no longer walk beats the best one within the limit is enough (`CutOff.LimitHidesNothing`).
- The runtime sends a boundary function's arguments as a list, the normalizer wants a string there and validates a trace
  as a whole. A trace is therefore rejected if and only if it holds a call of a boundary function that has a named
  parameter (`Pipeline.EndToEnd`, `Pipeline.OverflowNeverMispairs`); `Pipeline.BoundaryArgumentIsRejected` is a program.
- The watcher parses Python only. An event about a Go file lists no nodes, so modifications and deletions of Go files
  have no effect, and the index is right exactly when each such file still has the nodes and hashes it had when it was
  last added (`IncrementalIndex.IncrementalIsFromScratchIff`).
- What is stored as a function's runs counts its occurrences. The derived run number is right exactly when some
  function has kept pace with the runs and none has overtaken them (`Frequencies.DerivedIffKeepsPace`). The emitted
  frequency divides by that number; `Frequencies.EmittedIsFractionIff` says exactly when it is the fraction of runs, and
  for functions that never repeat within a run that is exactly when some function kept pace.
- Returns of the Go runtime carry no name, so the performance aggregator, which pairs by name, measures no duration on
  any Go trace (`TraceConsumers.GoRunsAreNotMeasured`).
- A comment in `services/shared/consumer.py:93-94` says that a message left unacknowledged will be redelivered; the loop reads
  only new messages, so each message is handed out at most once (`StreamConsumer.EnricherConsumer.Turn`).
- A conflict is lifted by re-indexing the call or deleting the edge and by nothing else; observing the call does not
  lift it (`Provenance.ConflictEndsOnlyStatically`).

## Model

| member | source | states |
|---|---|---|
| Scoring.ScoreShrinks | services/subgraph-expander/internal/expander/scoring.go:3-32 | with a proper decay, crossing any edge strictly lowers a positive score and never makes it negative |
| Scoring.ScoreIsShare | services/subgraph-expander/internal/expander/scoring.go:3-32 | an edge passes on the decayed share of its type (1, 0.8, 0.7, 0.6, 0.5, or 0) and provenance (1, 0.9, 0.8, 0.6; anything else 0.8), in numbers |
| Scoring.CrossesIffKnown | services/subgraph-expander/internal/expander/bfs.go:74-81 | a positive score survives an edge if and only if the edge type is one of the five weighted ones; otherwise the node is dropped |
| Walks.ShortWalkSuffices | services/subgraph-expander/internal/expander/scoring.go:30-32 | any walk has a rival with the same ends, fewer edges than there are nodes, and no smaller score |
| Walks.WalkScoreIsProduct | services/subgraph-expander/internal/expander/scoring.go:30-32 | a walk scores its start times one decay an edge times the shares of its edges |
| Bfs.CollectAtHop | services/subgraph-expander/internal/expander/bfs.go:56-62 | exactly the nodes whose hop is the current one |
| Bfs.FetchNeighbors | services/subgraph-expander/internal/expander/bfs.go:34-39 | the store answers with exactly the edges leaving the given nodes, in any order, or fails |
| Bfs.Visit | services/subgraph-expander/internal/expander/bfs.go:72-91 | one neighbour relaxes the visited map: scored by the parent's present score, kept only when positive and better |
| Bfs.RunBFS | services/subgraph-expander/internal/expander/bfs.go:43-95 | the outcome is the fold of legal answers, stopping only at the hop limit, an outage or an empty frontier; with a proper decay every score is that of some walk from a seed, at least the best over walks within the limit, and the best over all walks when no node is left at the limit |
| Bfs.LastSeedWins | services/subgraph-expander/internal/expander/bfs.go:43-49 | a seed named repeatedly counts as it is named last |
| Bfs.RelaxKeepsTraced | services/subgraph-expander/internal/expander/bfs.go:72-91 | after any relaxation a non-seed still has a visited parent that accounts for its score, although parents change mid-round |
| Bfs.RoundStep | services/subgraph-expander/internal/expander/bfs.go:55-92 | one round, in any row order, extends the score guarantee to walks one edge longer and keeps traceability and hops |
| Bfs.EmptyFrontierIsBest | services/subgraph-expander/internal/expander/bfs.go:63-65 | when no node waits at the current hop, every recorded score is the best over all walks of any length |
| Bfs.DeepEnoughIsBest | services/subgraph-expander/internal/expander/bfs.go:50-55 | with at least as many hops as there are other nodes, the limit hides nothing |
| Bfs.OrderDoesNotMatter | services/subgraph-expander/internal/expander/bfs.go:58-91 | two complete traversals find the same nodes with the same scores, whatever the map and answer orders |
| CutOff.AscendingAddsOneEdge | services/subgraph-expander/internal/expander/bfs.go:72-91 | a round whose rows come in ascending order of their parents' scores lets no score reach beyond walks one edge longer |
| CutOff.CutOffIsAttained | services/subgraph-expander/internal/expander/bfs.go:55-92 | for every graph and limit some traversal gives every node exactly the best score over walks within the limit |
| CutOff.OrderMattersIff | services/subgraph-expander/internal/expander/bfs.go:55-92 | all traversals within a limit agree on nodes and scores if and only if none scores above the best walk within the limit |
| CutOff.LimitHidesNothing | services/subgraph-expander/internal/expander/bfs.go:50-55 | if no longer walk beats the best one within the limit, every order gives the same scores and they are the best over all walks |
| CutOff.DeepEnoughHasNoLongWalk | services/subgraph-expander/internal/expander/bfs.go:50-55 | as many hops as other nodes meet that condition on every graph |
| CutOff.CutOffDependsOnOrder | services/subgraph-expander/internal/expander/bfs.go:72-91 | two whole traversals of two hops from one seed give a node the scores 0.486 and 0.729, the latter along three edges |
| Sorting.SortDescending | services/subgraph-expander/internal/expander/budget.go:25-29 | a permutation by falling score, ties in any order |
| Budget.Prune | services/subgraph-expander/internal/expander/budget.go:24-42 | the greedy pass over some sorted listing; `used` is 60 for each surviving seed with a spec, 120 for one without and 20 for every other survivor |
| Budget.GreedyDecides | services/subgraph-expander/internal/expander/budget.go:31-40 | each node in turn is kept if and only if it is a seed or 20 more than the price of what is kept still fits; the pass never ends early |
| Budget.PriceSplits | services/subgraph-expander/internal/expander/budget.go:5-20 | a selection's price is its seeds' price plus 20 for each other node |
| Budget.ExchangeBound | services/subgraph-expander/internal/expander/budget.go:31-40 | a selection at least as large that wins wherever two differ has at least the total score |
| Budget.PrunedIsBest | services/subgraph-expander/internal/expander/budget.go:24-42 | on traversal output: all seeds plus a score prefix, `used` is exactly the survivors' price (60, 120, 20) within max(budget, seed price), and no rival selection within that bound scores more in total |
| Expander.VisitedToSlice | services/subgraph-expander/internal/expander/bfs.go:98-104 | every visited state exactly once |
| Expander.ChainEndsAtSeed | services/subgraph-expander/internal/expander/bfs.go:72-91 | following parents from any visited node ends at a seed |
| Expander.ChainIsAcyclic | services/subgraph-expander/internal/expander/bfs.go:72-91 | scores rise strictly along a parent chain, so it visits no node twice |
| Expander.ChainSurvives | services/subgraph-expander/internal/expander/budget.go:31-40 | if a node survives pruning, so does its whole parent chain |
| Expander.SeedsKeepTopScore | services/subgraph-expander/internal/expander/expander.go:62-88 | seeds keep score 1 and hop 0; everything found scores strictly between 0 and 1 |
| Expander.PrunedTraversal | services/subgraph-expander/internal/expander/expander.go:99-110 | pruning any sorted listing of any traversal outcome gives the best selection with whole parent chains and all seeds |
| Expander.BuildNodes | services/subgraph-expander/internal/expander/expander.go:126-149 | each survivor in order with its spec text, or none |
| Expander.Expand | services/subgraph-expander/internal/expander/expander.go:42-158 | the error cases in order; otherwise each requested seed starts at score 1 and hop 0 under its hydrated or given name, the answer is the pruned traversal in order, optimal and with whole parent chains for a proper decay, with spec texts, joined edges, warnings, and a budget of 60, 120 or 20 a survivor plus 15 a conflict edge |
| Instrumenter.FuncNode.BuildEnterCall | services/go-instrumenter/internal/rewriter/passes/entry.go:29-49 | a boundary function passes exactly all names of all parameter fields, each once, name j of field i after the names of the fields before; any other passes none |
| Instrumenter.JoinedIsAllNames | services/go-instrumenter/internal/rewriter/passes/entry.go:34-40 | joining the fields lists every name of every field at its own position and nothing else |
| Instrumenter.FuncNode.InjectEntry | services/go-instrumenter/internal/rewriter/passes/entry.go:12-25 | the body becomes the Enter call with exactly those names, the deferred closure, then the old body |
| Preservation.TracerIsTransparent | services/go-instrumenter/internal/rewriter/passes/entry.go:51-118 | recovering and panicking again leaves any panic as it was and logs exactly one closing event with the frame's span |
| Preservation.TracerRunsLast | services/go-instrumenter/internal/rewriter/passes/entry.go:16-24 | deferred first, the closure runs after all user defers, on whatever panic they left |
| Preservation.SimInvoke | services/go-instrumenter/internal/rewriter/passes/entry.go:12-118 | a call of an instrumented function ends, prints, assigns and recovers exactly as the original, also when called from a deferred context with a running panic |
| Preservation.MoreFuelSameRun | services/go-instrumenter/internal/rewriter/passes/entry.go:12-25 | a finished run shows the same with any more fuel, so the fuel bound of the interpreter is immaterial |
| Preservation.BehaviourIsUnique | services/go-instrumenter/internal/rewriter/passes/entry.go:12-25 | a program has at most one behaviour |
| Preservation.InstrumentationPreservesMeaning | services/go-instrumenter/internal/rewriter/passes/entry.go:9-25 | the instrumented program has a behaviour if and only if the original has the same one: outcome, output, variables and activations |
| CallTrace.ActivationLogged | services/tracert/tracert.go:79-139 | one activation contributes its call event, its children's events, and one return or panic event with the same span |
| CallTrace.TraceIsCallTree | services/go-instrumenter/internal/rewriter/passes/entry.go:12-118 | the whole trace of a finished run is the original's activation tree written out in order, spans numbered from 1 in calling order |
| CallTrace.ActivationEvents | services/tracert/tracert.go:79-139 | an activation's own two events field by field: a named call with its arguments when it is a boundary function, and a nameless return or a panic with its value |
| Tracert.RingBuffer.constructor | services/tracert/buffer.go:15-20 | an empty buffer of the given size |
| Tracert.RingBuffer.Write | services/tracert/buffer.go:22-30 | appends to the history; a full buffer forgets its oldest event |
| Tracert.RingBuffer.Drain | services/tracert/buffer.go:33-49 | exactly the last min(n, size) writes since the previous drain, in order; then empty |
| Tracert.NotCongruent | services/tracert/buffer.go:24-28 | the slots of events less than a buffer length apart differ, so a write spoils no newer event |
| Tracert.Tracer.Enter | services/tracert/tracert.go:79-95 | hands out the next span and records a call event, given field by field |
| Tracert.Tracer.Exit | services/tracert/tracert.go:98-112 | records a nameless return event, given field by field |
| Tracert.Tracer.ExitPanic | services/tracert/tracert.go:127-139 | records a nameless panic event with the panic value, given field by field |
| Pipeline.Assemble | services/go-trace-runner/internal/assembler/assembler.go:28-57 | every event in order with all its fields unchanged but for the types ret and panic, which become return and exception; the identity of the trace; the duration is the latest timestamp or 0 |
| Pipeline.DecodeIs | services/trace-normalizer/app/models.py:6-23 | any trace is read if and only if all its types are among the five known ones and no event carries a list; then each event keeps its type, function, file and time |
| Pipeline.DecodeKnown | services/trace-normalizer/app/models.py:6-23 | a trace of known event types is accepted, and then whole, if and only if no event carries arguments or return values, which travel as lists |
| Pipeline.ForestComesBack | services/trace-normalizer/app/normalizer.py:54-77 | a written-out activation forest is accepted exactly when no activation shows arguments, and reconstructs to the forest in post-order, with depths as hops |
| Pipeline.EndToEnd | services/trace-normalizer/app/normalizer.py:14-77 | instrument, run, drain without overflow, assemble, decode: accepted if and only if the original program calls no boundary function with a named parameter; then the reconstruction is its call tree, names taken from calls although closing events have none |
| Pipeline.OverflowNeverMispairs | services/tracert/buffer.go:22-49 | after an overflow the drained trace is accepted if and only if no surviving call is of such a function; then the result is exactly the activations whose call and close both survive, with true names and durations |
| Pipeline.BoundaryArgumentIsRejected | services/tracert/tracert.go:79-95 | a program whose main calls a boundary handler with one argument: it runs, and its complete trace is rejected |
| Pipeline.SpanIsOneActivation | services/tracert/tracert.go:79-139 | each span labels exactly the two events of one activation |
| Normalizer.ReconstructSync | services/trace-normalizer/app/normalizer.py:54-77 | the stack loop with its separate depth counter computes the fold `Nodes` on any event list |
| Normalizer.NodesAreMatches | services/trace-normalizer/app/normalizer.py:60-75 | on every event list, well nested or not: exactly one node a matched call and close, in closing order, with the call's name and depth and the pair's duration |
| Normalizer.MatchIsUnique | services/trace-normalizer/app/normalizer.py:64-75 | a close ends at most one call and a call is ended at most once |
| Normalizer.HopCountsEnclosing | services/trace-normalizer/app/normalizer.py:58-66 | the hop of a call is the number of calls open when it happens |
| Normalizer.WindowReconstruction | services/trace-normalizer/app/normalizer.py:54-77 | reconstructing any contiguous window emits exactly the activations that lie wholly in it, with true durations |
| Normalizer.ReconstructCallTree | services/trace-normalizer/app/normalizer.py:14-51 | without task ids the matched pairs of the whole list; otherwise a list of segments, task 0's matched pairs first, then those of the task of each async call in turn, each in closing order with names and times from its own events, and nothing else |
| Normalizer.TreeIsSegments | services/trace-normalizer/app/normalizer.py:28-51 | the tree of a trace with task ids is exactly that list of segments |
| Normalizer.InterleavingDoesNotMatter | services/trace-normalizer/app/normalizer.py:28-51 | traces that agree on each task's own events and on the order of async calls give the same result |
| Normalizer.TaskZeroIsSync | services/trace-normalizer/app/normalizer.py:23-47 | a trace confined to task 0 without async events gives the synchronous result |
| TraceConsumers.ClassifySideEffects | services/trace-normalizer/app/classifier.py:22-58 | the classified effects of first occurrences, each with the depth of the call |
| TraceConsumers.EffectsAreFirstCalls | services/trace-normalizer/app/classifier.py:39-43 | every function with a side effect is reported once, for its first call, in order |
| TraceConsumers.EffectsAre | services/trace-normalizer/app/classifier.py:22-58 | each effect has its function's kind, the detail `fn:` and its name, and as depth the number of calls open before it; exactly the first calls of functions that have a kind are reported |
| TraceConsumers.EffectsCarryHops | services/trace-normalizer/app/classifier.py:27-43 | on any events an effect's depth is the hop of its call in their reconstruction, which is the call tree when the trace has no task ids or only task 0 |
| TraceConsumers.CollectDurations | services/perf-tracker/app/aggregator.py:20-35 | durations and counts per file and function, pairing a return with the topmost call of its name |
| TraceConsumers.ReturnTakesNamesake | services/perf-tracker/app/aggregator.py:29-35 | a return removes the topmost open call of its name, wherever it stands, and records the time since under its own key; without one, nothing changes |
| TraceConsumers.OthersChangeNothing | services/perf-tracker/app/aggregator.py:24-35 | no other event than a call and a return whose name is open changes anything |
| TraceConsumers.CountsAreOfOneFunction | services/perf-tracker/app/aggregator.py:24-28 | functions of one name in two files are counted apart, provided that no file name holds a colon |
| TraceConsumers.KeyNamesFunction | services/perf-tracker/app/aggregator.py:25 | file, colon, name: keys of file names without colons agree if and only if file and name do |
| TraceConsumers.CountsAreCalls | services/perf-tracker/app/aggregator.py:26-28 | each function's count is the number of its calls, whether or not they return |
| TraceConsumers.SearchHitsTop | services/perf-tracker/app/aggregator.py:29-31 | when returns repeat their calls' names and nothing raises, the search always stops at the top of the stack |
| TraceConsumers.DurationsAreNormalized | services/perf-tracker/app/aggregator.py:20-35 | on such traces with rising timestamps the durations are the normalizer's, function by function and in order |
| TraceConsumers.GoRunsAreNotMeasured | services/perf-tracker/app/aggregator.py:29-35 | on the trace of any instrumented Go run the name search never succeeds and no duration is measured, while the normalizer, if it accepts the trace, finds the whole tree |
| TraceConsumers.ColonsConfuseKeys | services/perf-tracker/app/aggregator.py:25 | function c of file a:b and function b:c of file a share a key |
| Frequencies.AggregateFrequencies | services/trace-normalizer/app/normalizer.py:80-119 | merges a run; below five runs the nodes come back as they were, afterwards with the stored mean time and the stored runs over the total, at most 1 |
| Frequencies.DeriveRun | services/trace-normalizer/app/consumer.py:48-52 | one more than the highest stored figure, 1 when nothing is stored |
| Frequencies.AggregateIsTotals | services/trace-normalizer/app/normalizer.py:96-103 | over any runs the stored count and runs are both the total of occurrences, and the time is their sum |
| Frequencies.DerivedIffKeepsPace | services/trace-normalizer/app/consumer.py:48-54 | the derived run number is right if and only if some function occurred as often as there were runs and none more often |
| Frequencies.TwiceInOneRunMiscounts | services/trace-normalizer/app/consumer.py:48-54 | after one run that calls a function twice the next run is numbered 3 |
| Frequencies.EmittedIsFractionIff | services/trace-normalizer/app/normalizer.py:105-119 | the exact condition, in occurrences, runs with the function, all runs and the run number used, for an emitted frequency to be the fraction of runs |
| Frequencies.EmittedIsExactIffKeepsPace | services/trace-normalizer/app/consumer.py:48-54 | without repeats in a run, from the fifth run on, it is the fraction if and only if some function has kept pace with the runs |
| Frequencies.LateFunctionIsOverstated | services/trace-normalizer/app/consumer.py:48-54 | m runs of one function, then m of another, m at least 4: the next run is numbered m + 1 and the second function goes out with frequency 1 instead of (m + 1)/(2m + 1) |
| Frequencies.FrequenciesAreExact | services/trace-normalizer/app/normalizer.py:92-119 | with one occurrence a run and some function in all: run numbers are true and from the fifth run on ratios and means are exact |
| RateLimit.Bucket.Take | services/api-gateway/internal/ratelimit/bucket.go:48-62 | refill for the elapsed time, cap at ten, then take a whole token or refuse |
| RateLimit.Limiter.Allow | services/api-gateway/internal/ratelimit/bucket.go:43-63 | decides by the key's own bucket, a new key's being full; all other buckets are unchanged |
| RateLimit.TokensAreLeastSlack | services/api-gateway/internal/ratelimit/bucket.go:51-61 | the tokens a call finds are the least slack over all windows ending there, and some window attains it |
| RateLimit.RefusedIffOverAllowance | services/api-gateway/internal/ratelimit/bucket.go:58-62 | a call is refused if and only if admitting it would exceed the allowance of some window ending there, 10 plus a sixth of a token a second |
| RateLimit.SlidingWindowBound | services/api-gateway/internal/ratelimit/bucket.go:42-63 | calls i to j admit at most 10 plus a sixth of a token a second between them, for a monotone clock |
| RateLimit.AdmitsTheMost | services/api-gateway/internal/ratelimit/bucket.go:42-63 | no policy that keeps every window within its allowance has ever admitted more calls |
| RateLimit.KeysAreIndependent | services/api-gateway/internal/ratelimit/bucket.go:43-46 | in any run over many keys a decision is that of a run with the key's own calls alone |
| IncrementalIndex.Watcher.RescanAll | services/repo-watcher/app/watcher.py:47-68 | one full-rescan event a supported file, with all its nodes as added, up to the first emission that raises |
| IncrementalIndex.Watcher.EmitDiff | services/repo-watcher/app/watcher.py:70-123 | one event a supported diff line, by its status, in diff order, up to the first emission that raises |
| IncrementalIndex.Watcher.ProcessCommit | services/repo-watcher/app/watcher.py:33-123 | rescans on the first run, emits the difference afterwards; returns the numbers of events and files, which agree, or raises with exactly the events so far on the stream |
| IncrementalIndex.EventsFollowLines | services/repo-watcher/app/watcher.py:71-77 | one event for each diff line about a supported file, in line order |
| IncrementalIndex.RescansFollowFiles | services/repo-watcher/app/watcher.py:49-53 | one rescan event for each supported file, in file order |
| IncrementalIndex.EventLists | services/repo-watcher/app/watcher.py:79-118 | an event has its line's path and type and the new commit, and lists exactly the ids that only the new text defines, only the old one, or both with different hashes, as its type wants |
| IncrementalIndex.RescanLists | services/repo-watcher/app/watcher.py:54-65 | a rescan event lists everything the file defines as added and nothing as changed or deleted |
| IncrementalIndex.LastDefinitionWins | services/repo-watcher/app/differ.py:115-116 | the hash of an id is that of the last node of its name in the file |
| IncrementalIndex.ExpectedIs | services/parser/app/extractor.py:30-50 | a parse from scratch knows an id if and only if its file is Python or Go, is in the commit, parses, and defines it, with its last definition's hash |
| IncrementalIndex.KeepHashes | services/parser/app/extractor.py:42-47 | filtering by ids keeps exactly the hashes of those ids |
| IncrementalIndex.EventMovesFile | services/repo-watcher/app/differ.py:98-122 | a file at the old or already at the new commit is at the new one after its event |
| IncrementalIndex.CommitReachesCurrent | services/repo-watcher/app/watcher.py:70-123 | replaying a commit's events gives exactly the index of that commit, even when some of them had been applied before |
| IncrementalIndex.PrefixStaysBetween | services/repo-watcher/app/watcher.py:40-42 | after any prefix of the events every file is at the old or the new commit |
| IncrementalIndex.RetryRepairs | services/repo-watcher/app/watcher.py:39-43 | a commit whose emission raised anywhere, processed again from the start, ends at the index of that commit |
| IncrementalIndex.IncrementalIsFromScratch | services/repo-watcher/app/watcher.py:33-123 | over any history without renames, with parsable Python and no other supported language, the incremental index equals a parse of the current commit from scratch |
| IncrementalIndex.ReemittingIsIdempotent | services/repo-watcher/app/watcher.py:70-123 | emitting a finished commit again changes nothing |
| IncrementalIndex.BlindEventIsRightIff | services/repo-watcher/app/differ.py:82-95 | after an event about a file the watcher does not parse, the index is right if and only if the file was added or both versions have the same nodes and hashes |
| IncrementalIndex.IncrementalIndexIs | services/repo-watcher/app/differ.py:82-95 | over any history with all languages, Python files are as a parse of the current commit has them and others as they were last added |
| IncrementalIndex.IncrementalIsFromScratchIff | services/repo-watcher/app/differ.py:82-95 | the index equals a parse from scratch if and only if every other file still has the nodes and hashes it had when last added |
| PendingRefs.PushedIsSweptLast | services/symbol-resolver/app/pending.py:16-90 | a pushed reference adds to what the next sweep leaves and changes nothing else: last, untouched after an exception, one attempt further when unresolved, gone when resolved or expired |
| PendingRefs.Store.RequeueRest | services/symbol-resolver/app/pending.py:78-80 | appends the remaining raw entries unchanged |
| PendingRefs.Store.RetryPending | services/symbol-resolver/app/pending.py:27-90 | empties the list, pushes back the unresolved live entries up to the first exception, then everything from there on |
| PendingRefs.RetrySweepsOneList | services/symbol-resolver/app/pending.py:42-90 | a sweep changes its own repository's list only |
| PendingRefs.RequeuesAreExact | services/symbol-resolver/app/pending.py:54-90 | what is pushed back is, in order, each unresolved live entry exactly once with one more attempt; nothing else is kept |
| PendingRefs.SweptIs | services/symbol-resolver/app/pending.py:21-90 | in numbers: pushed back is exactly each unresolved reference with at most 5 attempts behind it, the last at most 24 hours ago, unchanged but for one attempt more and the new time |
| PendingRefs.StopsAtFirstRaise | services/symbol-resolver/app/pending.py:54-81 | a sweep stops at the first such reference whose resolution raises; expired ones are never resolved |
| PendingRefs.ExceptionKeepsSuffix | services/symbol-resolver/app/pending.py:76-81 | an exception at entry i leaves the retried part of the prefix, then the untouched suffix from i |
| PendingRefs.SweepKeepsBound | services/symbol-resolver/app/pending.py:21-24 | no reference's attempt count ever exceeds six |
| PendingRefs.SevenSweepsEmpty | services/symbol-resolver/app/pending.py:27-90 | seven sweeps without exceptions or new references empty any list |
| PendingRefs.SixSweepsMayNotSuffice | services/symbol-resolver/app/pending.py:21-24 | six do not: a fresh reference retried in time without success is still there |
| Provenance.RunKeepsInv | services/graph-enricher/app/enricher.py:6-52 | after any interleaving of both services' steps: confirmed edges have a time and a count, dynamic ones a count, conflicts a traced caller, counts are positive |
| Provenance.StepKeepsInv | services/graph-writer/app/writer.py:9-34 | each single step of either service, and any deletion of edges, keeps that invariant |
| Provenance.ConflictEndsOnlyStatically | services/graph-writer/app/writer.py:29-34 | a conflict ends only by re-indexing that very call or deleting the edge |
| Provenance.DoubtfulAfterBatchIsFreshlyStale | services/graph-enricher/app/consumer.py:76-87 | after a completed batch the static, never observed edges of traced callers are exactly those this batch just downgraded |
| Provenance.ObservedIsNotDisputed | services/graph-enricher/app/enricher.py:31-45 | an edge whose two ends a batch observed is not turned into a conflict by that batch |
| Provenance.NoStaleConfirmationLeft | services/graph-enricher/app/enricher.py:47-52 | after any batch no confirmed edge has a caller indexed after its confirmation |
| Provenance.FreshConfirmationStands | services/graph-enricher/app/enricher.py:31-52 | a static edge a batch observes is confirmed after it, at the batch's time, unless its caller was indexed later than that |
| Provenance.ReindexingUndoesConfirmation | services/graph-enricher/app/enricher.py:47-52 | once its caller is indexed after the confirmation, an edge is plainly static after the next batch, observed in it or not |
| Provenance.DowngradedEdges | services/graph-enricher/app/enricher.py:47-52 | the downgrade takes time and count from exactly the confirmed edges whose caller has a later index time, and changes nothing else |
| Provenance.ConfirmedEdges | services/graph-enricher/app/enricher.py:31-38 | exactly the static edges with both ends observed are confirmed, one more sighting for each occurrence of the caller |
| Provenance.DisputedEdges | services/graph-enricher/app/enricher.py:40-45 | exactly the static edges without a sighting whose caller was traced become conflicts |
| Provenance.SeenEdge | services/graph-enricher/app/enricher.py:15-26 | sightings add up on edges between existing nodes; an edge first seen this way is dynamic, others keep source and time |
| Provenance.TracedNodes | services/graph-enricher/app/enricher.py:6-13 | a traced node that exists gains one call for each time it is listed and the time; nothing else changes |
| Provenance.IndexedNodes | services/graph-writer/app/writer.py:9-27 | indexing creates missing nodes and stamps the listed ones; what traces wrote stays |
| Provenance.IndexedEdges | services/graph-writer/app/writer.py:29-34 | indexing makes listed calls between existing nodes static, new or not, and touches nothing else |
| Provenance.GraphStore.UpsertNodeRecords | services/graph-writer/app/writer.py:9-27 | creates or restamps each node, keeping trace data |
| Provenance.GraphStore.UpsertStaticEdges | services/graph-writer/app/writer.py:29-34 | makes each edge between existing nodes static, keeping its other properties |
| Provenance.GraphStore.UpdateNodeProps | services/graph-enricher/app/enricher.py:6-13 | row by row: each traced node that exists gains one call for every occurrence of its id and the time |
| Provenance.GraphStore.UpsertDynamicEdges | services/graph-enricher/app/enricher.py:15-26 | counts sightings; a new edge is dynamic, an existing source is kept |
| Provenance.GraphStore.ConfirmStaticEdges | services/graph-enricher/app/enricher.py:31-38 | rows matched first, written afterwards: exactly the static edges whose two ends were observed are confirmed, counted once for every occurrence of the caller |
| Provenance.GraphStore.RunConflictDetector | services/graph-enricher/app/enricher.py:40-45 | edge by edge in any order: exactly the static, never observed edges of traced callers become conflicts |
| Provenance.GraphStore.RunStalenessDowngrade | services/graph-enricher/app/enricher.py:47-52 | edge by edge in any order: exactly the confirmed edges of later re-indexed callers become static and forget their observations |
| StreamConsumer.EnricherConsumer.Handle | services/graph-enricher/app/consumer.py:57-70 | raises and leaves the buffers, or adds for each call in order a record of its id, mean time and ratio and its id as observed, for an entrypoint that is no call a record with the median and coverage 1 and its id in front, and one sighting for each dynamic edge |
| StreamConsumer.ExtractedIsTelling | services/graph-enricher/app/consumer.py:17-44 | after any event some id is observed, so an empty observed list means all three buffers are empty |
| StreamConsumer.UnflushedShows | services/graph-enricher/app/consumer.py:67-70 | a batch observes exactly the entrypoints and calls of the messages handled since the last flush attempt |
| StreamConsumer.HandledPathIsConfirmed | services/graph-enricher/app/consumer.py:72-87 | a completed flush disputes no call between two functions of one handled path, and confirms it if it was static and its caller not indexed later |
| StreamConsumer.MessageFate | services/shared/consumer.py:74-94 | every event of one message and where control goes, case by case of how handling, acknowledging and dead-lettering end |
| StreamConsumer.TurnFlushes | services/shared/consumer.py:64-102 | a turn that reads some message and is not cut short leaves nothing unflushed; one that cannot read changes nothing |
| StreamConsumer.BatchHandsOut | services/shared/consumer.py:73-76 | a batch hands its messages out in order, each once, up to the one that ends it |
| StreamConsumer.TheLoopGoesOn | services/shared/consumer.py:63-102 | unless cancelled, the loop goes on whatever fails: enough successful reads reach the end of the stream; when no answer is lost and the dead-letter stream works, every message on the way is handed out, in order, once |
| StreamConsumer.EnricherConsumer.DeadLetter | services/shared/consumer.py:79-89 | writes a bad message to the dead-letter stream, and only if that returned acknowledges it |
| StreamConsumer.EnricherConsumer.ConsumeOne | services/shared/consumer.py:74-94 | hands a message out once and acknowledges it only when handled or dead-lettered, for every way each call may fail |
| StreamConsumer.EnricherConsumer.RunQueries | services/graph-enricher/app/consumer.py:76-87 | the effects of the first queries of a batch, in order |
| StreamConsumer.EnricherConsumer.PostBatch | services/graph-enricher/app/consumer.py:72-93 | does nothing without observed ids; otherwise the first queries of the batch take effect, all five or up to the failing one, which counts when it took effect all the same; always empties the buffers |
| StreamConsumer.EndedStaysEnded | services/shared/consumer.py:73-94 | once a message ends its batch, no later message of the batch has any effect |
| StreamConsumer.EnricherConsumer.Turn | services/shared/consumer.py:64-102 | one read that moves on by the least of 50, the count asked for and what is left, also when only its answer is lost; the events of its messages and the flush, exactly, under any faults; buffers stay the records handled since the last flush attempt |
| StreamConsumer.EnricherConsumer.Run | services/shared/consumer.py:63-105 | over any turns: acknowledgement safety, at most one hand-out a message, buffers equal to unflushed records, the graph's invariant, and the exact history |
| RankFusion.Tally | services/dual-retriever/internal/retriever/rrf.go:29-45 | an entry for exactly the listed ids, with the exact fused score, all sources and the first name and type |
| RankFusion.Ranked | services/dual-retriever/internal/retriever/rrf.go:47-68 | each entry once, by falling score |
| RankFusion.RRF | services/dual-retriever/internal/retriever/rrf.go:21-74 | a panic exactly for a negative limit, an infinite score exactly when a place divides by zero; otherwise each id at most once, sorted, first labels, exact scores and retrieval method, and no omitted id scores more than a returned one |
| RankFusion.ListScoreIs | services/dual-retriever/internal/retriever/rrf.go:31-43 | a list adds the sum of 1/(k + rank + 1) over all ranks where the node stands |
| RankFusion.FusionAdds | services/dual-retriever/internal/retriever/rrf.go:31-45 | fusing one more list adds that list's score |
| RankFusion.DominanceIsRespected | services/dual-retriever/internal/retriever/rrf.go:31-45 | a node ranked better in every list where another appears scores strictly higher |
| RankFusion.BothBeatsOne | services/dual-retriever/internal/retriever/rrf.go:42-43 | in two duplicate-free lists of length at most k + 1, any node in both outscores any node in one |
| RankFusion.BothBeatsOneIsTight | services/dual-retriever/internal/retriever/rrf.go:42-43 | with one more place it fails: two places k + 2 only equal one first place |
| Trend.ComputeTrendSlope | services/perf-tracker/app/analyzer.py:135-158 | slope and direction, increasing above 0.01 and decreasing below -0.01; 0 and stable below two points, and the guard against a zero denominator is never taken |
| Trend.DenominatorIsPositive | services/perf-tracker/app/analyzer.py:144-147 | the denominator is n(n² − 1)/12 and positive |
| Trend.SlopeIsLeastSquares | services/perf-tracker/app/analyzer.py:139-149 | with its intercept the slope minimises the sum of squared errors over all lines |

## Left out

- Floating-point rounding: scores, tokens, times and averages are exact reals.
- Integer widths: 64-bit span ids and counters and the 32-bit cast of the budget total are unbounded integers.
- In-place sorting of slices: sorted listings are built as new sequences; ties come out arbitrarily, as they may.
- Expander.Expand: the score, optimality and chain clauses are stated for a decay strictly between 0 and 1 (the service's default is 0.7); hydration, specs, edges, conflicts and warnings are given answers; a node's descriptive columns are one string, an edge or warning too; cancellation is an outage.
- Bfs.RunBFS: without a proper decay only the exact fold of answers is stated, since scores may then grow along cycles.
- Bfs.FetchNeighbors: the three Cypher queries are one arbitrary finite set of edges per request, so a graph that changes during a traversal is not covered.
- The instrumented language: goroutines and the rewriting of `go` statements (it moves the evaluation of arguments), named results, assignment to parameters, capture by reference, blank and receiver parameters, `runtime.Goexit`, `os.Exit`, `panic(nil)` and the text a crash prints; calls of undeclared functions have no effects.
- Transport of events: the socket, JSON encoding beyond its treatment of lists, and flushing to a closed connection; all events carry the one goroutine's id, which the normalizer ignores.
- Concurrency inside one process: ring buffer and bucket calls happen one at a time under their locks; a bucket's clock is read by the caller before the lock is taken, so two calls may reach it with times out of order, which only `RateLimit.TokensAreLeastSlack`, `RateLimit.RefusedIffOverAllowance` and `RateLimit.AdmitsTheMost` cover.
- CPython's tracer emitting an exception and a return for one raising frame; here each activation closes once where nesting is assumed.
- TraceConsumers.ClassifySideEffects: the patterns over function names are an arbitrary function of the name.
- The metrics derived from collected durations, the percentiles, and the anomaly detectors: plain arithmetic on results modelled here.
- Expiry of stored aggregates and of Redis keys, except the pending queue's own age test.
- IncrementalIndex.IncrementalIndexIs: renames (only the new path is reported, so nodes of the old path stay) and Python files that fail to parse; edges; the embedder's skip of known hashes and the writer's caches; events are replayed in order with the working tree at the commit they were emitted for; id lists are sets; a commit interrupted and then overtaken by another one.
- Tombstone edge deletion: any set of edges may disappear at any step, which covers what the query does and does not delete.
- PendingRefs.Store.RetryPending: failures of the Redis pushes themselves and pushes by other processes during a sweep; the two clock readings of an entry are given.
- Provenance.GraphStore.ConfirmStaticEdges: with repeated ids the exact count follows the row order of an eager evaluation.
- Provenance.GraphStore.UpsertNodeRecords: properties other than trace and index times; other edge types.
- StreamConsumer.EnricherConsumer.Run: a message whose handling failed otherwise is not handed out again, as the loop reads only new messages. A failure of the handler midway through extending its lists is not modelled, nor that a cancelled query's thread may find its list already cleared: a query takes effect wholly or not at all.
- RankFusion.RRF: when a negative fusion constant makes a place divide by zero, only that a score is infinite is stated, not the order of the infinite scores.
- HTTP and gRPC handlers, storage clients, user interfaces, renderers, query understanding: no property beyond plumbing.
