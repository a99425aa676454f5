# Verified model of Argentor's planning, task, batching and resilience logic

Argentor is an agent framework written in Rust. This project models the parts of it that
carry real state or graph reasoning, and proves what they promise:

- **Plans** (`PlanGraph`, `Kahn`, `PlanBuilders`): implementation plans are graphs of
  numbered steps. Validation and wave scheduling are two different versions of Kahn's
  algorithm over hash maps. Both are proved against one independent notion, dependency
  chains: a step is *grounded* when everything it depends on, at any distance, exists and
  lies on no cycle. Every result holds for whatever order the hash maps yield their keys
  in, with duplicate step numbers, repeated dependencies and missing steps allowed. The
  four plan builders are loops under a step limit, proved equal to a truncated unlimited plan.
- **Task server** (`TaskServer`): requests clone a task under a read lock, store it as
  Working, run a handler, and store the result, while cancels and other requests run in
  between. Every lock section is one step of a state machine; theorems quantify over all
  interleavings. The class `A2AServer` holds the handlers run without interruption.
- **Batch processing** (`StableSort`, `Batching`, `BatchSystem`): a stably sorted and
  drained queue is shown to be a priority queue that is first come, first served within a
  priority, and any number of concurrent processing calls conserve requests. A request is
  identified by its ticket, its position among all requests ever enqueued.
- **Adaptive memory** (`Memory`): an inverted keyword index agrees with a vector that is
  appended to, sorted, drained and re-indexed; recall and pruning are top-k selections.
- **Circuit breaker** (`CircuitBreaking`): counters summarise the history of every run, the
  recovery timeout bounds rejection exactly, and providers in the registry are independent.
- **Token cost** (`CostSim`): the closed form, the compaction recurrence and the
  turn-by-turn loop agree; compaction has an exact effect and a bound.
- **Code graph and checkpoints** (`CodeGraphs`, `Checkpoints`): two-hop impact with a risk
  level that never falls as the graph grows, greedy packing, and a map with an insertion
  order that behaves as a bounded queue.

`Wrappers` and `Sequences` hold what several of these share: optional values, sequences
without repetition, counting and summing.

Three promises do not hold of the code as they stand, and are replaced by exact conditions:

- *A terminal task stays terminal.* A handler that finishes after a cancel stores its own
  result: the canceled task is Working again, or becomes Completed
  (`TaskServer.CancelCanBeOverwritten`). A terminal task is certain to stay terminal exactly
  when no operation on it is in flight (`TaskServer.StaysTerminalIffIdle`), and then it is
  not changed at all (`TaskServer.FrozenIffIdle`).
- *The checkpoint list shows each checkpoint once.* Reusing a stored id lists it twice
  (`Checkpoints.ReuseListsTwice`). While the store holds what a bounded queue holds, a
  creation keeps map and order in agreement, and the list free of repeated ids, exactly when
  its id is not that of a queued checkpoint which the limit lets stay
  (`Checkpoints.CreateHoldsIffFresh`). Over a whole run the list stays so exactly when every
  creation meets that condition (`Checkpoints.AlwaysDistinctIffFresh`).
- *A cycle error means a cycle.* Two independent steps that share a number are reported as
  cyclic (`Kahn.DuplicateReportedAsCycle`). Among plans with clean references the error is
  right about every plan with distinct numbers, and an acyclic plan gets it exactly when its
  numbers repeat (`Kahn.CycleErrorExactly`).

The comment on the half-open state in the circuit breaker speaks of one request allowed
through; the code admits every request in that state, and the model follows the code.

Time, the handler, the batch processor closure (a function of the request), effective
importance, relevance scores, compression and the path heuristics of the planner are
parameters. Check everything with `dafny verify dfyconfig.toml`.

## Model

| member | source | states |
|---|---|---|
| Kahn.BuildGraph | crates/argentor-agent/src/code_planner.rs:717-727 | in-degrees count the dependency edges with repetition, adjacency lists hold the dependents in order, for any plan |
| Kahn.CheckReferences | crates/argentor-agent/src/code_planner.rs:702-714 | passes exactly when every dependency exists and no step lists itself; otherwise names the first offence in step order |
| Kahn.VisitAll | crates/argentor-agent/src/code_planner.rs:729-749 | whatever order nodes are popped in, the visited count is the number of grounded steps, each visited after its dependencies |
| Kahn.ValidatePlan | crates/argentor-agent/src/code_planner.rs:698-756 | valid exactly when step numbers are distinct, dependencies exist and no chain closes into a cycle; says exactly when the cycle error is given |
| Kahn.CycleErrorExactly | crates/argentor-agent/src/code_planner.rs:729-753 | with clean references, a plan with distinct numbers gets the cycle error if and only if it has a cycle, and an acyclic plan if and only if its numbers repeat |
| Kahn.DuplicateReportedAsCycle | crates/argentor-agent/src/code_planner.rs:716-753 | a concrete acyclic plan, two independent steps with one number, that validation reports as cyclic |
| Kahn.ParallelizableSteps | crates/argentor-agent/src/code_planner.rs:762-805 | terminates on every plan; wave k holds only grounded steps whose longest dependency chain has k+1 steps, every grounded step is in some wave, waves are nonempty and strictly ascending |
| Kahn.WaveIsDepth | crates/argentor-agent/src/code_planner.rs:762-805 | the waves are fully determined: a step is in wave k if and only if it is grounded and its longest chain has k+1 steps |
| Kahn.WavesRespectDependencies | crates/argentor-agent/src/code_planner.rs:758-762 | every dependency of a scheduled step sits in an earlier wave |
| Kahn.FewestWaves | crates/argentor-agent/src/code_planner.rs:758-805 | no schedule that respects dependencies and runs the same steps uses fewer waves |
| Kahn.VariantsAgree | crates/argentor-agent/src/code_planner.rs:716-805 | the two Kahn variants agree: a plan validates if and only if step numbers are distinct and the waves cover all steps |
| PlanGraph.RankedIffGrounded | crates/argentor-agent/src/code_planner.rs:716-749 | any ranking that cannot be extended covers exactly the grounded steps, whatever order it was built in |
| PlanGraph.AllGroundedIffAcyclic | crates/argentor-agent/src/code_planner.rs:693-697 | all steps are grounded if and only if dependencies exist and form no cycle |
| PlanGraph.TightRankIsDepth | crates/argentor-agent/src/code_planner.rs:777-802 | a ranking that is never higher than needed is the longest-chain depth |
| PlanBuilders.Build | crates/argentor-agent/src/code_planner.rs:334-422 | the loop with its limit checks yields exactly the unlimited plan cut to the limit |
| PlanBuilders.PlanFeature | crates/argentor-agent/src/code_planner.rs:328-423 | numbered from one, within the limit, of exact length, valid; the design first, every file after it, the tests after all of these, and a review that depends on all other steps unless cut off |
| PlanBuilders.PlanBugfix | crates/argentor-agent/src/code_planner.rs:429-522 | the same with the investigation first and the test depending on the fixes only |
| PlanBuilders.PlanRefactor | crates/argentor-agent/src/code_planner.rs:528-631 | the same with the scope first, and API breakage marked exactly on the changes of the target file |
| PlanBuilders.PlanTests | crates/argentor-agent/src/code_planner.rs:636-687 | the same with independent test files, closed by the step that runs them all |
| PlanBuilders.WellNumberedIsValid | crates/argentor-agent/src/code_planner.rs:698-756 | a plan numbered from one whose steps depend on lower numbers passes validation |
| PlanBuilders.TruncatedPlan | crates/argentor-agent/src/code_planner.rs:1366-1374 | every builder's plan, cut to any limit, has the exact length, is numbered from one, and is valid |
| PlanBuilders.LastStepRunsAlone | crates/argentor-agent/src/code_planner.rs:403-420 | a closing step that depends on all others is alone in the last wave |
| TaskServer.A2AServer.HandleSendTask | crates/argentor-a2a/src/server.rs:549-606 | one uninterrupted send: unknown and ended tasks are refused with their codes; otherwise the handler gets the stored task with the message and a Working event added, or a new task with only the message and the session, and its result, or that task failed with the error, is stored and returned |
| TaskServer.A2AServer.HandleCancelTask | crates/argentor-a2a/src/server.rs:651-669 | cancels exactly the known tasks that have not ended, adding one Canceled event and changing nothing else; the other tasks are refused with their codes |
| TaskServer.SendIsSerialRun | crates/argentor-a2a/src/server.rs:549-606 | an uninterrupted send is the lookup, store and finish steps of the state machine run on their own |
| TaskServer.ContinuedTaskHasMessage | crates/argentor-a2a/src/server.rs:549-584 | whatever runs in between, the clone a request stores and hands to its handler is the task it found with its message and one Working event added |
| TaskServer.OpenedTaskHasMessage | crates/argentor-a2a/src/server.rs:568-584 | the same for a new task, which has the given session and the message only |
| TaskServer.FinishStoresOutcome | crates/argentor-a2a/src/server.rs:588-606 | a finishing request stores its handler's result, or its clone failed with the error and a message to the client, and changes no other task |
| TaskServer.RefusedIffUnknownOrEnded | crates/argentor-a2a/src/server.rs:549-669 | as steps among others, lookups are refused and cancels ignored exactly for unknown and ended tasks; a cancel adds one Canceled event |
| TaskServer.ReachableLifecycles | crates/argentor-a2a/src/protocol.rs:118-144 | under every interleaving each stored task's history starts with Submitted, ends with its status, and is terminal at its end only |
| TaskServer.FrozenIffIdle | crates/argentor-a2a/src/server.rs:549-669 | a terminal task is unchanged in every continuation if and only if no operation on its id is in flight |
| TaskServer.StaysTerminalIffIdle | crates/argentor-a2a/src/server.rs:549-669 | a terminal task stays terminal in every continuation if and only if no operation on its id is in flight |
| TaskServer.CancelCanBeOverwritten | crates/argentor-a2a/src/server.rs:584-588 | a concrete run after which a canceled task can be made Working by one late handler and Completed by another |
| TaskServer.SerialRunsAbsorb | crates/argentor-a2a/src/server.rs:286-381 | if operations on each id are serialised, terminal is absorbing, and messages, artifacts and history only grow |
| Batching.TakeIsNextBatch | crates/argentor-agent/src/batch_processor.rs:253-269 | sorting and draining yields the first requests by priority and arrival, as many as the limit allows |
| Batching.OnlyOneNextBatch | crates/argentor-agent/src/batch_processor.rs:253-269 | that batch is the only one a priority queue could hand out |
| Batching.ProcessRequests | crates/argentor-agent/src/batch_processor.rs:298-344 | the loop computes the report of this processor over this batch: per request the id, success, output, error and tokens, and exact counts and token total |
| Batching.ReportIsPrefix | crates/argentor-agent/src/batch_processor.rs:298-344 | a report covers the whole batch or ends with its first error; each result repeats what the processor answered, successes and failures are counted exactly, tokens are summed, and the counts add up to the batch |
| Batching.BatchProcessor.Enqueue | crates/argentor-agent/src/batch_processor.rs:235-242 | appends the request with the next ticket |
| Batching.BatchProcessor.TakeBatch | crates/argentor-agent/src/batch_processor.rs:255-269 | the in-place sort and drain hands out the priority queue's next batch and leaves the rest |
| Batching.BatchProcessor.RecordBatch | crates/argentor-agent/src/batch_processor.rs:272-280 | adds the batch and its counts to the totals |
| Batching.BatchProcessor.ProcessBatch | crates/argentor-agent/src/batch_processor.rs:284-348 | takes the next batch, numbers it, and records and returns a report that says per request what the processor answered, with exact counts |
| BatchSystem.RequestsAreConserved | crates/argentor-agent/src/batch_processor.rs:284-348 | with any number of concurrent calls, total requests equal pending plus in flight plus succeeded, failed and skipped of recorded batches |
| BatchSystem.ServedAtMostOnce | crates/argentor-agent/src/batch_processor.rs:255-348 | every request stands exactly once among the served and the waiting |
| BatchSystem.FirstComeFirstServed | crates/argentor-agent/src/batch_processor.rs:253-269 | equal priorities are served in arrival order across all batches of a run |
| BatchSystem.EveryBatchIsNext | crates/argentor-agent/src/batch_processor.rs:255-269 | in every reachable state the next batch is the priority queue's |
| BatchSystem.ResultsAreHonest | crates/argentor-agent/src/batch_processor.rs:289-346 | with any number of concurrent calls, batch numbers are unique, and each recorded result is the report of its own call's processor over its own call's batch |
| BatchSystem.CompletedMapsPrefix | crates/argentor-agent/src/batch_processor.rs:298-344 | every completed result of a run says, for a prefix of one call's batch, what that call's processor answered, with exact counts and token total |
| BatchSystem.UninterruptedCallIsRun | crates/argentor-agent/src/batch_processor.rs:284-348 | an uninterrupted call is the take, number and record steps of the state machine, with exactly the effect the method of the shared object states |
| Memory.PositionsCountCarriers | crates/argentor-agent/src/adaptive_memory.rs:163-164 | the indexed positions of a keyword are those of its carriers, with multiplicity |
| Memory.PositionsAscend | crates/argentor-agent/src/adaptive_memory.rs:326-334 | the positions of a keyword are in ascending order |
| Memory.AdaptiveMemory.Store | crates/argentor-agent/src/adaptive_memory.rs:186-193 | the index stays exact and free of empty lists, and the store holds what pruning keeps |
| Memory.AdaptiveMemory.Prune | crates/argentor-agent/src/adaptive_memory.rs:295-309 | the same after sorting and draining |
| Memory.AdaptiveMemory.RebuildKeywordIndex | crates/argentor-agent/src/adaptive_memory.rs:326-334 | the rebuilt index is exact for whatever the entries are |
| Memory.AdaptiveMemory.Recall | crates/argentor-agent/src/adaptive_memory.rs:234-270 | returns the entries that score best by seven parts keyword share and three parts importance, as many as allowed, none below the threshold, ties by position; counts one access for exactly these, keeps the index exact |
| Memory.PruneKeepsBest | crates/argentor-agent/src/adaptive_memory.rs:290-309 | keeps as many as allowed, loses and invents nothing else, drops nothing more important than what it keeps, and touches nothing while all fit |
| Memory.PruneIsStable | crates/argentor-agent/src/adaptive_memory.rs:295-306 | dropped and kept entries together are in order of importance, ties in their previous order |
| Memory.HitsAreTop | crates/argentor-agent/src/adaptive_memory.rs:237-251 | hits are relevant, ranked by score and position, as many as allowed, and above every relevant entry left out |
| Memory.ScoreIsExact | crates/argentor-agent/src/adaptive_memory.rs:240-246 | the score is the one number that weighs the share of query positions the entry carries by 7/10 and its importance by 3/10, with no share when either keyword list is empty |
| Memory.OverlapIsFraction | crates/argentor-agent/src/adaptive_memory.rs:340-349 | the overlap lies between zero and one, and is one exactly when all query keywords are carried |
| CircuitBreaking.CircuitBreaker.AllowRequest | crates/argentor-agent/src/circuit_breaker.rs:124-141 | admits exactly when not open or timed out; the fields remain the outcome of all events so far, the request among them |
| CircuitBreaking.CircuitBreaker.RecordSuccess | crates/argentor-agent/src/circuit_breaker.rs:144-162 | the fields remain the outcome of all events so far, a success among them, so every theorem about runs holds of the object |
| CircuitBreaking.CircuitBreaker.RecordFailure | crates/argentor-agent/src/circuit_breaker.rs:165-185 | the same for a failure |
| CircuitBreaking.CircuitBreaker.ForceState | crates/argentor-agent/src/circuit_breaker.rs:205-213 | the same for a forced transition |
| CircuitBreaking.CircuitBreaker.ResetBreaker | crates/argentor-agent/src/circuit_breaker.rs:216-225 | the same for a reset |
| CircuitBreaking.FailuresSummarised | crates/argentor-agent/src/circuit_breaker.rs:124-225 | in every run the failure counter is the number of failures since the last success, reset or forced close; closed implies below threshold; open implies an opening time |
| CircuitBreaking.SuccessesSummarised | crates/argentor-agent/src/circuit_breaker.rs:124-225 | in every run the success counter is the number of successes since the last failure, reset or admitted probe |
| CircuitBreaking.TotalsSummarised | crates/argentor-agent/src/circuit_breaker.rs:144-225 | the totals count the outcomes since the last reset |
| CircuitBreaking.RejectionsSummarised | crates/argentor-agent/src/circuit_breaker.rs:124-141 | in every run the rejections count the requests since the last reset that met an open breaker before its timeout |
| CircuitBreaking.LastFailureTimeSummarised | crates/argentor-agent/src/circuit_breaker.rs:165-225 | in every run the last failure time is that of the last failure since the last reset |
| CircuitBreaking.ResetIsNew | crates/argentor-agent/src/circuit_breaker.rs:216-225 | a reset leads back to the closed breaker every run starts from |
| CircuitBreaking.SuccessNeverOpens | crates/argentor-agent/src/circuit_breaker.rs:144-162 | a success keeps a closed breaker closed, turns an open one half-open, and opens none |
| CircuitBreaking.RequestChangesOnlyOpen | crates/argentor-agent/src/circuit_breaker.rs:124-141 | a breaker that is not open admits every request and is not changed by it |
| CircuitBreaking.ForcedState | crates/argentor-agent/src/circuit_breaker.rs:205-213 | a forced state is the state; opening is dated, closing forgets the date and the run of failures, nothing else changes |
| CircuitBreaking.OpensExactlyAtThreshold | crates/argentor-agent/src/circuit_breaker.rs:171-177 | a closed breaker opens if and only if the trailing failures reach the threshold, which they never pass |
| CircuitBreaking.FailureOpensExactly | crates/argentor-agent/src/circuit_breaker.rs:165-185 | a failure leaves the breaker open if and only if it was not closed or the trailing failures reach the threshold; it dates the opening unless the breaker was open already |
| CircuitBreaking.FailedProbeReopens | crates/argentor-agent/src/circuit_breaker.rs:178-182 | a failure of a half-open breaker reopens it at that time, and requests are rejected and counted until the timeout has passed since |
| CircuitBreaking.OpenIffOpened | crates/argentor-agent/src/circuit_breaker.rs:124-225 | in every run the breaker is open if and only if some event opened it and only failures and early requests followed |
| CircuitBreaking.ClosesExactlyAtThreshold | crates/argentor-agent/src/circuit_breaker.rs:149-155 | a success closes a half-open breaker if and only if the successes since the last failure, reset or admitted probe reach the threshold |
| CircuitBreaking.ProbesCloseExactly | crates/argentor-agent/src/circuit_breaker.rs:128-155 | after an admitted probe, successes close the breaker if and only if there are enough of them and at least one |
| CircuitBreaking.OpenUntilTimeout | crates/argentor-agent/src/circuit_breaker.rs:127-138 | an open breaker rejects and counts every request before the timeout, late failures notwithstanding, and admits the first one after it |
| CircuitBreaking.OpeningStartsWindow | crates/argentor-agent/src/circuit_breaker.rs:124-185 | in every run a failure that opens the breaker starts exactly such a window |
| CircuitBreaking.CircuitBreakerRegistry.RegisterProvider | crates/argentor-agent/src/circuit_breaker.rs:274-279 | the stored breakers remain the outcome of all calls so far; registration restarts that provider's |
| CircuitBreaking.CircuitBreakerRegistry.AllowRequest | crates/argentor-agent/src/circuit_breaker.rs:282-291 | the same for a request, which creates a missing breaker with the default configuration and answers as that breaker does |
| CircuitBreaking.CircuitBreakerRegistry.RecordSuccess | crates/argentor-agent/src/circuit_breaker.rs:294-302 | the same for a success, ignored for an unknown provider |
| CircuitBreaking.CircuitBreakerRegistry.RecordFailure | crates/argentor-agent/src/circuit_breaker.rs:305-314 | the same for a failure, which creates a missing breaker with the default configuration |
| CircuitBreaking.ProvidersAreIndependent | crates/argentor-agent/src/circuit_breaker.rs:274-314 | in every run each provider's breaker equals a lone breaker fed that provider's events only |
| CostSim.CompactHistorySum | benchmarks/src/cost_sim.rs:241-263 | the loop sums the history sent in each turn of the compaction recurrence |
| CostSim.NaiveSumIsGrowingSum | benchmarks/src/cost_sim.rs:186-193 | the closed form sums a history growing by one pair per turn, and its division is exact |
| CostSim.SimulateIsBill | benchmarks/src/cost_sim.rs:157-263 | every breakdown item is what is sent over the turns: a quarter of the sizes rounded up, the framework's scaffold, fifty tokens per tool with at most five under intelligence, and a history that grows by a pair and is compressed past 30000 |
| CostSim.HistoryIsBounded | benchmarks/src/cost_sim.rs:247-261 | if compression keeps to a ratio a/b on the histories that can occur, every turn's history is at most the larger of 30000 and a/(b-a) of a pair |
| CostSim.CompactIsLinear | benchmarks/src/cost_sim.rs:237-263 | under the same condition the compacted total is at most that bound times the turns after the first |
| CostSim.CompactAtMostNaive | benchmarks/src/cost_sim.rs:192-198 | compaction never costs more than the closed form, and equals it exactly while the last history sent stays within the trigger |
| CostSim.IntelligenceNeverCostsMore | benchmarks/src/cost_sim.rs:170-235 | on equal workloads intelligence sends at most as many prompt tokens as any framework, and equally many in exactly the stated cases |
| CostSim.RunLongHorizon | benchmarks/src/runners/argentor.rs:312-342 | the turn-by-turn loop computes the simulated prompt, tool and history totals without context, with intelligence on and off |
| CodeGraphs.CallerNames | crates/argentor-agent/src/code_graph.rs:355-356 | a caller written as file and name yields its name |
| CodeGraphs.FunctionNameIsLastSegment | crates/argentor-agent/src/code_graph.rs:355-356 | for any caller the function part is what follows the last "::", or all of it |
| CodeGraphs.TransitiveCallers | crates/argentor-agent/src/code_graph.rs:351-366 | the nested loops collect once each the callers of direct callers that are not direct themselves, and for each the file of the first call by which it reaches one |
| CodeGraphs.Impact | crates/argentor-agent/src/code_graph.rs:335-403 | direct and transitive callers together are exactly those within two hops, disjoint, the direct ones once per call, the transitive ones once; the risk thresholds in their number and the symbol's visibility; the affected files are exactly those of the references, the importers, and each transitive caller's first reaching call; the test symbols in them |
| CodeGraphs.AffectedGrows | crates/argentor-agent/src/code_graph.rs:378-379 | added calls never lower the number of affected callers, even when a transitive caller becomes direct |
| CodeGraphs.RiskNeverFalls | crates/argentor-agent/src/code_graph.rs:378-393 | added calls or symbols never lower the risk level |
| CodeGraphs.RelevantContext | crates/argentor-agent/src/code_graph.rs:409-483 | the estimate is ten tokens per symbol, five per dependency, three per import and a quarter of each signature, once more for a snippet, and within budget; the symbols are a maximal affordable prefix of the score order; snippets and dependencies are taken greedily in order, and none left out still fits |
| CodeGraphs.ScoredByFallingScore | crates/argentor-agent/src/code_graph.rs:412-426 | the selection order is by falling score over exactly the symbols that score above zero, each as often as the graph has it |
| CodeGraphs.TiesKeepSourceOrder | crates/argentor-agent/src/code_graph.rs:412-426 | symbols of equal score keep the order of the graph |
| Checkpoints.CheckpointManager.CreateWithLabel | crates/argentor-agent/src/checkpoint.rs:208-238 | the eviction loop terminates and leaves the evicted store with the new checkpoint |
| Checkpoints.CheckpointManager.DeleteCheckpoint | crates/argentor-agent/src/checkpoint.rs:327-334 | removes the checkpoint and every mention of its id, or reports that there is none |
| Checkpoints.CheckpointManager.List | crates/argentor-agent/src/checkpoint.rs:251-256 | stored checkpoints in insertion order, skipping ids without one |
| Checkpoints.EveryRunIsBounded | crates/argentor-agent/src/checkpoint.rs:208-256 | for any use of ids, stored ids stay within the order and the size within the limit, which is at least one |
| Checkpoints.EvictKeepsNewest | crates/argentor-agent/src/checkpoint.rs:215-223 | eviction keeps the newest checkpoints with one place to spare |
| Checkpoints.CreateHoldsIffFresh | crates/argentor-agent/src/checkpoint.rs:208-238 | for a store that holds a queue, map and order stay in agreement, and the list free of repeated ids, if and only if none of the newest checkpoints that stay has the new id |
| Checkpoints.AlwaysDistinctIffFresh | crates/argentor-agent/src/checkpoint.rs:208-334 | the list is free of repeated ids throughout a run if and only if every creation uses an id that the bounded queue does not keep |
| Checkpoints.FreshRunIsFifo | crates/argentor-agent/src/checkpoint.rs:208-334 | with fresh ids any run lists exactly what a bounded first-in first-out queue holds |
| Checkpoints.RestorableIffQueued | crates/argentor-agent/src/checkpoint.rs:240-243 | a checkpoint can be restored exactly while that queue holds it, with the state it was created with |
| Checkpoints.ReuseListsTwice | crates/argentor-agent/src/checkpoint.rs:234-256 | a concrete reuse of an id after which one checkpoint is listed twice |

## Left out

- PlanBuilders.Build: the four builders share this one loop, as their bodies differ only in the steps they push; titles, descriptions, instructions, effort and the path heuristics are not modelled.
- Plan risk, effort, rollback text, test strategy and Markdown: string building and keyword tables.
- TaskServer.HandlerKeepsLifecycle: the handler contract is an assumption about user code; a handler that rewrites history or changes the id is outside the interleaving theorems.
- Task metadata and timestamps, JSON-RPC envelopes, event framing and the `get`, `list` and agent card endpoints.
- The public helper for streaming handlers in server.rs, which the router never calls.
- Calls to the public batch methods outside `process_batch`: the conservation theorems cover enqueues and concurrent `process_batch` calls.
- Memory.HitsAreTop: scores are reals and effective importance is a parameter fixed per call; 32-bit float rounding, logarithms and recency decay are not modelled.
- Keyword extraction, fact extraction and the formatting of recalled context.
- CostSim.HistoryIsBounded: 32-bit float rounding is a parameter, held to a ratio up to a size. The rounded product with 0.3 keeps to 3/10, which gives three sevenths of a pair, on histories from 30001 to 3495262 tokens and breaks it at 3495263; by the relative error of single precision it keeps to 3000001/10000000 at every size. The comparisons between frameworks assume only that compression shortens what passes the trigger.
- Batching.ProcessRequests: the processor is a function of the request, so a closure that keeps state between requests is not modelled; nor are durations, and the model and metadata fields of requests.
- Machine widths: counters, tokens and sizes are unbounded, so overflow and saturation at 64 bits are not modelled.
- The unused sliding-window size of the breaker configuration, lock poisoning, and the status snapshots.
- CodeGraphs.Impact: starts from parsed symbols, dependencies and calls; the regular-expression parsers are not modelled.
- CodeGraphs.RelevantContext: the score and the relevance of a dependency are parameters; a snippet stands for the symbol whose signature it shows.
- Checkpoint timestamps, metadata, serialisation, differences between checkpoints, and the automatic checkpoint interval.
- Dashboards, SDKs, network clients, model backends and the benchmark reports.
