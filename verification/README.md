# Verified model of Project Lumina's planner, ledger, staging and algebra tools

This project models, in Dafny 4.11, five parts of the repository and proves what they are for.

**Coding-agent orchestration.** A plan is a list of nodes with dependencies. It is validated, sorted (Kahn's
algorithm with a sorted ready list), cut into slices and run slice by slice under a turn budget, with retries,
permanent failures and a checkpoint after each dispatch; the next turn resumes from the latest checkpoint.
`DagValidator`, `ReadyScheduler`, `TierDispatcher`, `TurnBudget`, `ExecutionStateStore`, `OrchestrationLoop` and
`RuntimeAdapter` follow the source files of those names; the budget, the store and the execution context are
mutable classes. The loop is a method that refines the recursive run `RunLoop`, and the theorems about whole
turns and sessions (`RunTheory`, `SessionTheory`, `Liveness`, `HaltTheory`, `ResumeTransparency`, `BudgetTheory`,
`ClockTheory`) are about that run; `OneNodePlan` holds the small inputs at which a promise is seen to fail. What the tools, the
local model, the provider policy and the clock answer is an arbitrary input at every step.

**Slicing.** `Tier2Decomposer`, `QueueOrder`, `DependentCount` and `SliceAssignment`: the queue-based sort and the
order it yields, the greedy packing into the fewest groups, the count of dependents, and the slices.

**Algebra.** `AlgebraParser`, `AlgebraTheory`, `LinearEquations` and `ProblemGenerator`: the character-level
parser of linear equations, its laws, the judging of a student's steps, and the generated problems. Numbers are
exact reals.

**System log.** `Ledger`: the hash-chained log, what its verifier reports after any single replacement, removal
or insertion, and the commands that extend it.

**Context staging.** `Words` and `ContextStaging`: overlapping chunks and the budgeted selection.

## Where the code and its promises part

Each of these is a theorem: the condition under which the code does keep the promise, or what it keeps instead.

- The context update ignores a node whose id is the empty string. The measure of remaining work falls on a dispatch
  exactly when it is not blocked and its node's id is not empty (`RunTheory.StepMeasure`); a run of successes can
  complete a valid plan exactly when no id is empty (`Liveness.CompletionIff`), and otherwise dispatches that node
  again and again (`Liveness.SuccessesStall`, with an input in `Liveness.EmptyIdPlan`).
- The readiness gate checks the dependencies listed in the slice, not those of the node
  (`ReadyScheduler.GateSoundIff`). The loop and the per-node slices never run into it.
- Two turns do what one longer turn does exactly unless the first halted for a retry or a permanent failure and left
  a slice ready (`ResumeTransparency.TurnsComposeIff`); a retry always leaves one
  (`ResumeTransparency.RetryDoesNotCompose` is an input). A permanent failure that leaves nothing ready composes.
- A budget halt can report `budget_available`, but only under a clock with a check that reads later than all checks
  before it and later than the reading that follows it, and under each such clock some turn does
  (`ClockTheory.BudgetHaltHasCauseIff`; `ClockTheory.SetBackIff` says it of one iteration).
- A turn whose save fails is forgotten although its dispatches were made. The bound on the work therefore grows by
  the number of nodes with each such turn (`SessionTheory.SessionIsBounded`), one-node plans reach that, and a node
  that failed in such a turn is dispatched again (`SessionTheory.LostTurnsRepeat`). When no save fails the bound is
  nodes times (retries + 1) (`SessionTheory.SavedSessionIsBounded`).
- A retention limit of zero keeps everything and a negative one nothing (`ExecutionStateStore.StoreRefinesHistory`);
  restoring from a payload changes such a limit (`ExecutionStateStore.DictTripIsIdentityIff`).
- A negative base delay, which a payload may carry, makes the backoff shrink (`RetryPolicy.BackoffNeverShrinksIff`).
- A negative overlap makes chunks skip words, unless one chunk holds them all (`ContextStaging.ChunksUndoneIff`).
- "- -3" parses as minus three, because the lone sign reads as an empty term; the subtracting generator would
  print that for a negative draw, which its ranges rule out (`ProblemGenerator.Tier3RoundTrip`).
- The last record of a ledger can be altered in content, or removed, without the verifier noticing, and only the
  last one (`Ledger.ReplacementReported`, `Ledger.RemovalReported`).

## Model

| member | source | states |
|---|---|---|
| PlanGraph.SortableIffAcyclic | model-packs/coding-agent/domain-lib/dag_validator.py:47-76 | cycle completeness: taking least available ids covers the plan exactly when no closed walk of in-plan dependencies exists, and then the result is a topological order |
| PlanGraph.DryMeansSortedOrCyclic | model-packs/coding-agent/domain-lib/dag_validator.py:65-75 | when a Kahn worklist of any order runs dry, the list is complete exactly when the plan is acyclic |
| PlanGraph.StableOrderIsLeast | model-packs/coding-agent/domain-lib/dag_validator.py:48-52 | the stable order is a topological order, lexicographically at most every other one, and the only such |
| PlanGraph.StableOrderIgnoresListing | model-packs/coding-agent/domain-lib/dag_validator.py:48-52 | permuting the node list, or any dependency list, changes neither the order nor whether there is one |
| StringOrder.LessIff | model-packs/coding-agent/domain-lib/dag_validator.py:63-72 | the order that sorting ids follows: a proper beginning first, otherwise by the smaller character at the first place where they differ |
| KahnWorklist.BuildGraph | model-packs/coding-agent/domain-lib/dag_validator.py:53-61 | in-degrees and adjacency lists hold exactly the in-plan dependencies, with multiplicity |
| KahnWorklist.ReleaseChildren | model-packs/coding-agent/domain-lib/dag_validator.py:68-71 | each child loses as many pending dependencies as it is listed, and exactly those that reach zero join the ready list, once |
| KahnWorklist.WorklistStep | model-packs/coding-agent/domain-lib/dag_validator.py:66-72 | after a pop, in-degrees again count unfinished dependencies and the ready list again holds each available id once |
| DagValidator.StableTopologicalSort | model-packs/coding-agent/domain-lib/dag_validator.py:47-76 | raises exactly on a cycle; otherwise returns, along the stable order, the last node written for each id |
| DagValidator.ValidateDag | model-packs/coding-agent/domain-lib/dag_validator.py:23-44 | reports duplicates, then dangling dependencies, then a cycle; silent exactly on plans with unique ids, no dangling dependency and no cycle |
| DagValidator.FindDuplicates | model-packs/coding-agent/domain-lib/dag_validator.py:26-31 | one report for each node whose id came before; none exactly when ids are unique |
| DagValidator.DuplicateReports | model-packs/coding-agent/domain-lib/dag_validator.py:26-31 | an id is reported exactly when two nodes have it, and there are as many reports as nodes beyond the first of their id |
| DagValidator.FindDangling | model-packs/coding-agent/domain-lib/dag_validator.py:33-37 | one report for each listed dependency outside the plan; none exactly when there is no such dependency |
| DagValidator.DanglingReports | model-packs/coding-agent/domain-lib/dag_validator.py:33-37 | a node and a dependency are reported exactly when the node lists it and no node has that id |
| DagValidator.ReadyNodeIds | model-packs/coding-agent/domain-lib/dag_validator.py:79-89 | raises on a cycle; otherwise lists, in stable order, exactly the uncompleted ids all of whose dependencies are completed |
| DagValidator.ReadyAmongFilters | model-packs/coding-agent/domain-lib/dag_validator.py:82-88 | the ready ids keep the stable order: they are that order with the unready ids left out |
| TierContracts.LastNodeIsLast | model-packs/coding-agent/domain-lib/dag_validator.py:48 | of several nodes with one id the last listed one counts |
| ReadyScheduler.IsNodeReady | model-packs/coding-agent/domain-lib/tier3_ready_scheduler.py:33-36 | raises on a cycle; otherwise says whether the node is a plan node, uncompleted, with completed dependencies |
| ReadyScheduler.NextReadySlices | model-packs/coding-agent/domain-lib/tier3_ready_scheduler.py:62-82 | raises on a cycle; otherwise the last slice of each ready, unfailed node in stable order |
| ReadyScheduler.NextReadyHead | model-packs/coding-agent/domain-lib/tier3_ready_scheduler.py:71-82 | the list is empty exactly when no plan node is dispatchable, and its head is the slice of a dispatchable node |
| ReadyScheduler.ReadyAlongIds | model-packs/coding-agent/domain-lib/tier3_ready_scheduler.py:71-82 | the list runs through exactly the dispatchable ids in the order given, each with the slice that counts for it |
| ReadyScheduler.SliceForIsLast | model-packs/coding-agent/domain-lib/tier3_ready_scheduler.py:69-70 | of several slices for one node the last listed one counts |
| ReadyScheduler.ValidateSliceReady | model-packs/coding-agent/domain-lib/tier3_ready_scheduler.py:39-59 | the gate reports an unknown, completed or failed node, and for an unready node the uncompleted dependencies of the slice |
| ReadyScheduler.GateReports | model-packs/coding-agent/domain-lib/tier3_ready_scheduler.py:39-59 | for each kind of entry exactly when the report of the gate holds it, dependency by dependency |
| ReadyScheduler.GateMeaning | model-packs/coding-agent/domain-lib/tier3_ready_scheduler.py:39-59 | the gate passes a slice exactly when its node is known, neither completed nor failed, and either the node is ready or the slice has no uncompleted dependency of its own |
| ReadyScheduler.GateSoundIff | model-packs/coding-agent/domain-lib/tier3_ready_scheduler.py:53-57 | the gate passes only ready nodes, in every context, exactly when the slice lists all dependencies of its node (or the node itself) |
| RetryPolicy.RetriedIff | model-packs/coding-agent/domain-lib/retry_policy.py:6-25 | a failure is retried exactly below the limit and for an empty text or one that holds, in any case, timeout, temporar, connection, rate limit or 429 |
| RetryPolicy.ClassMeaning | model-packs/coding-agent/domain-lib/retry_policy.py:6-19 | the class of a failure is that of the first group of words of which its text holds one in any case, unknown for an empty text and tool_error otherwise |
| RetryPolicy.FirstBackoff | model-packs/coding-agent/domain-lib/retry_policy.py:33-35 | the first delay is the base, or the cap if that is less |
| RetryPolicy.BackoffGrowsToCap | model-packs/coding-agent/domain-lib/retry_policy.py:28-35 | the delay never passes the cap, and doubles for as long as it stays below it |
| RetryPolicy.BackoffNeverShrinksIff | model-packs/coding-agent/domain-lib/retry_policy.py:33-35 | the delay never shrinks from one attempt to the next exactly when its base is not negative |
| TierDispatcher.DispatchToTier3 | model-packs/coding-agent/controllers/tier_dispatcher.py:277-549 | the tier-3 path: gate, local model, provider policy, tools in turn, retry or failure; FailureOutcome, ToolPathOutcome and SettledOutcome say what that comes to |
| TierDispatcher.ResultShape | model-packs/coding-agent/controllers/tier_dispatcher.py:492-526 | a retry is scheduled only below the retry limit; the retryable flag marks exactly scheduled retries, the dispatched flag exactly successes |
| TierDispatcher.FirstFailureMeaning | model-packs/coding-agent/controllers/tier_dispatcher.py:454-481 | the kept failure is the first error text any call reports, and there is none exactly when no call reports one |
| TierDispatcher.ToolPathOutcome | model-packs/coding-agent/controllers/tier_dispatcher.py:423-451 | on the tool path a slice succeeds exactly when it names a registered tool and no call of those reports an error; it is blocked exactly when it names none |
| TierDispatcher.ToolLists | model-packs/coding-agent/controllers/tier_dispatcher.py:419-427 | on the tool path the result lists exactly the registered tools as allowed and all others as denied, and loses none |
| TierDispatcher.FailureOutcome | model-packs/coding-agent/controllers/tier_dispatcher.py:348-378 | a failing slice, by the local model or by a tool call, is scheduled for a retry exactly below the retry limit and for a text that may pass, after the delay of the policy, and fails for good otherwise |
| TierDispatcher.SettledOutcome | model-packs/coding-agent/controllers/tier_dispatcher.py:324-417 | an answer of the local model is a success, and a provider that is not allowed is a failure for good |
| TierDispatcher.UpdateMeaning | model-packs/coding-agent/controllers/tier_dispatcher.py:47-79 | field by field what the context update does for each status |
| TierDispatcher.ExecutionContext.UpdateForResult | model-packs/coding-agent/controllers/tier_dispatcher.py:47-79 | the in-place context update for every status; an empty node id or any other status changes nothing |
| TierDispatcher.DispatchWithState | model-packs/coding-agent/controllers/tier_dispatcher.py:82-101 | the dispatch result together with the context updated for it |
| TurnBudget.TurnBudget.FromDict | model-packs/coding-agent/domain-lib/turn_budget.py:43-52 | restoring clamps each field to its least legal value |
| TurnBudget.TurnBudget.FromParams | model-packs/coding-agent/domain-lib/turn_budget.py:17-30 | a fresh budget: each limit is the nested one, or else the outer one, or else its default, clamped; nothing is spent |
| TurnBudget.TurnBudget.TimeRemaining | model-packs/coding-agent/domain-lib/turn_budget.py:54-59 | no limit, or the time left, which is zero exactly when the time check refuses |
| TurnBudget.TurnBudget.CanExecuteSlice | model-packs/coding-agent/domain-lib/turn_budget.py:61-72 | slices, spent tokens, projected tokens and time are all within their limits; DispatchIff says so of the run in plain terms |
| TurnBudget.TurnBudget.RecordSlice | model-packs/coding-agent/domain-lib/turn_budget.py:74-76 | one more slice, and its tokens, are charged |
| TurnBudget.RefusalHasReason | model-packs/coding-agent/domain-lib/turn_budget.py:61-98 | at one instant the reason is budget_available exactly when the slice may run, and a refusal keeps a reason when the clock is read again later |
| OrchestrationLoop.ExecuteDagUntil | model-packs/coding-agent/controllers/orchestration_loop.py:184-320 | the loop over the mutable budget and store computes the specified run: dispatches, final context, budget and halt reason; the store gains one checkpoint for each dispatch whose save worked |
| OrchestrationLoop.Iterate | model-packs/coding-agent/controllers/orchestration_loop.py:184-311 | one iteration unrolls the run by one dispatch, or ends it before or after one |
| OrchestrationLoop.DispatchOne | model-packs/coding-agent/controllers/orchestration_loop.py:208-311 | one dispatch: new context, checkpoint, charge (usage, or else the estimate), and whether the turn ends |
| OrchestrationLoop.CheckBefore | model-packs/coding-agent/controllers/orchestration_loop.py:185-206 | the checks before a dispatch: budget, ready list, budget again with the estimate of the head slice |
| RunTheory.RunLoopIsChain | model-packs/coding-agent/controllers/orchestration_loop.py:184-311 | every run is a chain of legal dispatches, each of the head of the ready list, each from the context the one before left |
| RunTheory.GateNeverFires | model-packs/coding-agent/controllers/tier_dispatcher.py:280-308 | every slice the loop picks passes the readiness gate, so the gate never changes what a dispatch does |
| RunTheory.RunIsSafe | model-packs/coding-agent/controllers/orchestration_loop.py:189-217 | run safety: every reachable context keeps completed duplicate-free and dependency-closed and disjoint from failed; completed only grows at its end; each added node follows its dependencies; failed nodes stay failed |
| RunTheory.FailureIsContained | model-packs/coding-agent/domain-lib/tier3_ready_scheduler.py:71-80 | a failed node is never dispatched again, and no direct or transitive dependent of it is ever completed |
| RunTheory.StepMeasure | model-packs/coding-agent/controllers/tier_dispatcher.py:64-78 | the sum over open nodes of retries left plus one falls on exactly the unblocked dispatches of non-empty ids; every other dispatch leaves the context alone |
| RunTheory.WorkIsBounded | model-packs/coding-agent/domain-lib/retry_policy.py:22-25 | over any chain, whatever the dispatcher answers, effective dispatches number at most nodes times (retries + 1), and no retry count passes the limit |
| SessionTheory.SessionIsSafe | model-packs/coding-agent/controllers/runtime_adapters.py:266-294 | over any number of turns with any slices, budgets and dispatchers the context stays sound and completed grows in dependency order; no turn, kept or forgotten, dispatches a node that had failed before the session |
| SessionTheory.SessionIsBounded | model-packs/coding-agent/controllers/runtime_adapters.py:284-294 | the effective dispatches really made over any number of turns are at most nodes times (retries + 1), plus the number of nodes for each turn that failed to save and was forgotten |
| SessionTheory.SavedSessionIsBounded | model-packs/coding-agent/domain-lib/retry_policy.py:22-25 | when no save fails, the effective dispatches of all turns are at most nodes times (retries + 1) |
| SessionTheory.LostTurnsRepeat | model-packs/coding-agent/controllers/runtime_adapters.py:284-289 | n turns whose saves fail dispatch a node that failed for good n times: the addition for lost turns is reached |
| Liveness.NoDeadlock | model-packs/coding-agent/domain-lib/tier3_ready_scheduler.py:62-82 | a valid plan with a slice for each node and no failed node has a ready slice exactly when it is not complete |
| Liveness.NeverStarved | model-packs/coding-agent/controllers/orchestration_loop.py:190-200 | on a valid non-empty plan with a slice for each node no turn halts with no_ready_slices |
| Liveness.SuccessesFollowOrder | model-packs/coding-agent/controllers/orchestration_loop.py:184-317 | when every dispatch succeeds, m more slices complete exactly the next m nodes of the stable order; the turn ends all_completed exactly when m reaches the end, and at the slice limit otherwise |
| Liveness.CompletionIff | model-packs/coding-agent/controllers/tier_dispatcher.py:52-54 | an always-successful fresh run can end all_completed exactly when no node has the empty id, which the context update ignores |
| Liveness.SuccessesStall | model-packs/coding-agent/controllers/tier_dispatcher.py:52-54 | a run of successes over a plan with an empty id completes the nodes before it in the stable order and then dispatches it again and again until the slices run out |
| Liveness.EmptyIdPlan | model-packs/coding-agent/controllers/tier_dispatcher.py:52-54 | a valid plan of one node whose dispatches all succeed and whose saves all work, and that no number of slices completes |
| Liveness.CompletedHaltMeansDone | model-packs/coding-agent/controllers/orchestration_loop.py:313-317 | a turn that reports all_completed has completed every plan node |
| HaltTheory.RunStopsRight | model-packs/coding-agent/controllers/orchestration_loop.py:208-311 | a run goes on after each dispatch that is neither failed nor to be retried and whose save works, ends at the first other one with the reason and the node that one gives, and otherwise ends for its budget, for a cycle, or because nothing is ready |
| HaltTheory.TurnReports | model-packs/coding-agent/controllers/orchestration_loop.py:313-320 | a turn reports all_completed when it completed the plan and ended for its budget or for want of work, and otherwise how its loop ended |
| AllowanceMachine.DriveSplits | model-packs/coding-agent/controllers/orchestration_loop.py:184-311 | a machine that steps under an allowance of a + n does what it does under a and then, from there, under n, unless a step ended the first part |
| ResumeTransparency.LoopIsMachine | model-packs/coding-agent/controllers/orchestration_loop.py:184-311 | with a steady dispatcher and no token or time limit the loop is such a machine: only the slices left matter |
| ResumeTransparency.TurnsComposeIff | model-packs/coding-agent/controllers/orchestration_loop.py:184-320 | resume transparency: a turn of m slices and then one of n from its final context give the dispatches, context and halt reason of one turn of m + n, exactly unless the first halted for a retry or a permanent failure and left a slice ready; then the longer turn stops where the first did |
| ResumeTransparency.RetryDoesNotCompose | model-packs/coding-agent/controllers/orchestration_loop.py:307-311 | a retry in the first of two turns of one slice: the second dispatches the slice again, one turn of two slices does not |
| ResumeTransparency.LimitExitComposes | model-packs/coding-agent/controllers/orchestration_loop.py:185-187 | a turn whose loop exits at the slice-limit check is continued by the next as by a longer turn |
| BudgetTheory.TurnStaysInBudget | model-packs/coding-agent/controllers/orchestration_loop.py:202-206 | dispatches never exceed the slices left; charges add up exactly; with a token limit respected at the start the excess is at most what the last slice was charged above its estimate |
| BudgetTheory.DispatchIff | model-packs/coding-agent/controllers/orchestration_loop.py:185-208 | whenever a slice is ready the run dispatches the head of the list exactly if slices are left, the tokens spent and those the head allows itself fit the limit, and the deadline is ahead at both checks |
| BudgetTheory.HaltNamesLimit | model-packs/coding-agent/domain-lib/turn_budget.py:79-98 | a run halts at the slice limit exactly when the slices are spent, for the tokens only when they are spent or the head of the ready list does not fit, and for the time only when tokens are left and the deadline has passed |
| ClockTheory.BudgetHaltHasCauseIff | model-packs/coding-agent/controllers/orchestration_loop.py:185-206 | exactly under which clocks no turn halts with budget_available: those with no check that reads later than all checks before it and later than the reading that follows it |
| ClockTheory.SetBackIff | model-packs/coding-agent/controllers/orchestration_loop.py:185-206 | some budget stops an iteration without naming a limit exactly when the clock is set back within its first pair of readings, or within its second with a slice ready and the first check earlier than the second |
| ClockTheory.BudgetHaltHasCause | model-packs/coding-agent/controllers/orchestration_loop.py:185-206 | under a non-decreasing clock no turn halts with budget_available |
| ClockTheory.ClockSetBack | model-packs/coding-agent/domain-lib/turn_budget.py:54-59 | a failing input: a clock set back after the first check |
| ExecutionStateStore.ExecutionStateStore.SaveCheckpoint | model-packs/coding-agent/domain-lib/execution_state_store.py:43-53 | appends a checkpoint with a new id under the normalised plan id and prunes that plan |
| ExecutionStateStore.ExecutionStateStore.LoadLatestCheckpoint | model-packs/coding-agent/domain-lib/execution_state_store.py:55-60 | the last checkpoint held for the plan, if any |
| ExecutionStateStore.ExecutionStateStore.ListCheckpoints | model-packs/coding-agent/domain-lib/execution_state_store.py:62-68 | all checkpoints, or those of one plan, in order |
| ExecutionStateStore.ExecutionStateStore.FromDict | model-packs/coding-agent/domain-lib/execution_state_store.py:76-86 | the limit clamped to one, and every plan cut to its retained tail whatever order the plans are visited in |
| ExecutionStateStore.PruneListing | model-packs/coding-agent/domain-lib/execution_state_store.py:88-95 | pruning leaves a plan its retained tail and does not touch any other plan |
| ExecutionStateStore.StoreRefinesHistory | model-packs/coding-agent/domain-lib/execution_state_store.py:43-53 | after any interleaving of saves a plan lists exactly the tail of its own history that the limit retains: the last so many for a positive limit, all for zero, none for a negative one |
| ExecutionStateStore.ListingAfterSaves | model-packs/coding-agent/domain-lib/execution_state_store.py:88-95 | of the checkpoints saved for a plan exactly the last are listed: as many as the limit for a positive one, all for zero and none for a negative one |
| ExecutionStateStore.ListingAfterTrip | model-packs/coding-agent/domain-lib/execution_state_store.py:76-95 | restoring any payload leaves each plan the last of its checkpoints, as many as the limit and at least one; those under the empty id stay |
| ExecutionStateStore.LatestIsLastSaved | model-packs/coding-agent/domain-lib/execution_state_store.py:55-60 | the latest checkpoint is the last one saved exactly when the limit is not negative |
| ExecutionStateStore.DictTripIsIdentityIff | model-packs/coding-agent/domain-lib/execution_state_store.py:70-86 | the limit and checkpoints of a store that saving produced survive a to_dict/from_dict trip unchanged exactly when the limit is positive |
| ExecutionStateStore.PruneOnePlan | model-packs/coding-agent/domain-lib/execution_state_store.py:84-85 | pruning one more plan of a partly pruned payload gives the payload pruned for both, so the order does not matter |
| RuntimeAdapter.DomainStep | model-packs/coding-agent/controllers/runtime_adapters.py:245-296 | one orchestrated call: restore, run one turn, store; a failed save leaves the session state as it was |
| RuntimeAdapter.TurnListing | model-packs/coding-agent/controllers/runtime_adapters.py:277-294 | after a turn the checkpoints of its plan are the old ones followed by those of the turn, within the limit; every other plan is untouched |
| RuntimeAdapter.NextTurnResumes | model-packs/coding-agent/controllers/runtime_adapters.py:266-294 | the next turn starts exactly where this one ended, or where this one started if its save failed; other plans are not affected |
| RuntimeAdapter.StoreSeparatesPlans | model-packs/coding-agent/controllers/runtime_adapters.py:245-294 | any interleaving of calls for any plans through the serialised store leaves each plan the context that its own calls alone would leave it |
| RuntimeAdapter.StoreCarriesSession | model-packs/coding-agent/controllers/runtime_adapters.py:266-294 | for a plan that has a checkpoint, any interleaving of calls runs the same session as handing its context from turn to turn, whatever the calls supply |
| RuntimeAdapter.FirstSaverDecides | model-packs/coding-agent/controllers/runtime_adapters.py:267-274 | for a plan without a checkpoint the calls before the first that saves leave nothing, and from that one on the session runs from the context it supplied |
| RuntimeAdapter.NewSessionIsCarried | model-packs/coding-agent/controllers/runtime_adapters.py:246-274 | in a session that starts without a store each plan is left what its own calls alone would leave it |
| Tier2Decomposer.TopologicalSort | model-packs/coding-agent/domain-lib/tier2_decomposer.py:65-91 | raises exactly on a cycle (so exactly when the stable sort does); otherwise the nodes in the order in which their dependencies are complete, ties in listing order |
| QueueOrder.QueuedStep | model-packs/coding-agent/domain-lib/tier2_decomposer.py:80-86 | one pop and the release of its children keep the ids taken and queued in that order |
| Tier2Decomposer.QueueOrderIsUnique | model-packs/coding-agent/domain-lib/tier2_decomposer.py:65-91 | without repeated ids there is exactly one such order, so the sort is determined |
| Tier2Decomposer.GroupNodesIntoSlices | model-packs/coding-agent/domain-lib/tier2_decomposer.py:143-180 | raises exactly on a cycle; otherwise a split of the queue order into the fewest contiguous groups, each a single node or within the budget, none able to take the first node of the next |
| Tier2Decomposer.MaximalIsFewest | model-packs/coding-agent/domain-lib/tier2_decomposer.py:161-175 | groups that could not take one more node are at most as many as those of any fitting split |
| DependentCount.CountDependents | model-packs/coding-agent/domain-lib/tier2_decomposer.py:183-209 | terminates on every plan, cyclic ones included, and maps each id to the number of ids reachable over one or more dependents |
| DependentCount.CollectDownstream | model-packs/coding-agent/domain-lib/tier2_decomposer.py:198-207 | the stack-and-seen search collects exactly the reachable ids |
| DependentCount.SelfDownstreamIff | model-packs/coding-agent/domain-lib/tier2_decomposer.py:198-208 | a node counts itself exactly when it lies on a cycle of the plan as the dictionary keeps it, which without repeated ids is the plan |
| SliceAssignment.AssignPerNode | model-packs/coding-agent/domain-lib/tier2_decomposer.py:264-280 | one slice per node with that node's id, description, dependencies and parent; a tool is in it exactly when it is allowed and listed for the node; llm for an empty class map |
| SliceAssignment.NodeSliceFields | model-packs/coding-agent/domain-lib/tier2_decomposer.py:264-280 | field by field the slice of a node: the listed tools that are allowed in listing order, 1024 tokens, and llm for an empty class map |
| SliceAssignment.PerNodeGateIsExact | model-packs/coding-agent/domain-lib/tier3_ready_scheduler.py:39-59 | for these slices the gate passes exactly the ready, unfailed nodes |
| SliceAssignment.AssignGrouped | model-packs/coding-agent/domain-lib/tier2_decomposer.py:226-262 | one slice per group of the optimal packing; each in-plan dependency it lists belongs to an earlier group |
| SliceAssignment.OuterDepIsEarlier | model-packs/coding-agent/domain-lib/tier2_decomposer.py:258 | an in-plan dependency from outside a group lies in an earlier group |
| SliceAssignment.UnionTools | model-packs/coding-agent/domain-lib/tier2_decomposer.py:230-234 | the allowed tools of the group in the order in which they are first listed |
| SliceAssignment.UnionMeaning | model-packs/coding-agent/domain-lib/tier2_decomposer.py:229-234 | that list holds exactly the allowed tools of the group, each once, earlier ones those listed earlier |
| SliceAssignment.GroupClass | model-packs/coding-agent/domain-lib/tier2_decomposer.py:242-248 | "slm" when a node asks for it, otherwise the least class named in the group |
| SliceAssignment.DescriptionParts | model-packs/coding-agent/domain-lib/tier2_decomposer.py:236-240 | the description of a group joins those of its nodes, and is marked exactly when a node alone exceeds the budget |
| SliceAssignment.AssignTaskSlices | model-packs/coding-agent/domain-lib/tier2_decomposer.py:212-280 | a budget other than zero gives the grouped slices, and then raises exactly on a cycle; otherwise the slices are those of the nodes, field by field; no slice ever holds a tool that is not allowed |
| AlgebraParser.EvalSideLoop | model-packs/education/controllers/algebra_tools.py:41-96 | the position-by-position parser computes the sum of the terms, or the failure of the first bad term |
| AlgebraParser.ScanTermLoop | model-packs/education/controllers/algebra_tools.py:60-87 | one term is scanned up to the next sign, with its digits, variable and fraction |
| AlgebraTheory.EvalConcat | model-packs/education/controllers/algebra_tools.py:51-96 | evaluating two signed texts in a row adds their results; the first failure wins |
| AlgebraTheory.SidesAdd | model-packs/education/controllers/algebra_tools.py:45-96 | a side followed by a signed side evaluates to the sum of both |
| AlgebraTheory.SpaceAround | model-packs/education/controllers/algebra_tools.py:46-87 | white space around a side makes no difference |
| AlgebraTheory.ParsePrinted | model-packs/education/controllers/algebra_tools.py:89 | reading a printed decimal gives back its value |
| AlgebraTheory.PrintedSideParses | model-packs/education/controllers/algebra_tools.py:41-96 | any spacing of a printed list of signed terms, fractions included, evaluates to exactly the sum of the variable coefficients and the sum of the constants |
| AlgebraTheory.ForeignIsRejected | model-packs/education/controllers/algebra_tools.py:60-87 | a side that holds any character other than the variable, digits, dots, slashes, signs and white space has no value |
| AlgebraTheory.SlashCases | model-packs/education/controllers/algebra_tools.py:68-82 | a slash without a number, or with one that is practically zero, rejects the side; one with an unreadable number raises; otherwise the number divides the term |
| AlgebraTheory.NumberIff | model-packs/education/controllers/algebra_tools.py:89 | a text of digits and dots reads as a number exactly when it has at most one dot and is more than a dot |
| LinearEquations.EquationOfSides | model-packs/education/controllers/algebra_tools.py:99-118 | an equation parses to the net of its two sides unless one is blank |
| LinearEquations.EquationByCases | model-packs/education/controllers/algebra_tools.py:99-118 | what a text with one equals sign parses to, case by case of its sides |
| LinearEquations.OneEqualsSign | model-packs/education/controllers/algebra_tools.py:103-105 | a text parses only with exactly one equals sign |
| LinearEquations.TrimKeepsValue | model-packs/education/controllers/algebra_tools.py:106-110 | stripping a side does not change its value |
| LinearEquations.AddingToBothSides | model-packs/education/controllers/algebra_tools.py:114-118 | adding the same signed term to both sides of an equation that parses keeps its normal form |
| LinearEquations.SolutionSatisfies | model-packs/education/controllers/algebra_tools.py:121-135 | a computed solution passes the substitution check, and another value passes exactly when it is near enough to it |
| LinearEquations.RootIff | model-packs/education/controllers/algebra_tools.py:121-125 | the computed solution is the only value that makes the normal form zero, when its coefficient is not practically zero |
| LinearEquations.CheckMeans | model-packs/education/controllers/algebra_tools.py:128-135 | the substitution check passes exactly the values that leave the normal form near zero, and raises exactly on a malformed number |
| LinearEquations.OwnSolutionPasses | model-packs/education/controllers/algebra_tools.py:573-575 | the substitution check made on the equation itself passes whenever there is a solution to compare with |
| LinearEquations.ParseSteps | model-packs/education/controllers/algebra_tools.py:525-565 | when both have roots a step is valid exactly when they are near, a step without one is invalid, and any other step is valid; equivalence holds when all steps are valid and is None when no step could be compared; it raises exactly on a malformed number |
| LinearEquations.BalancingKeepsVerdict | model-packs/education/controllers/algebra_tools.py:545-557 | a step obtained by adding the same signed term to both sides is judged as the step it came from |
| ProblemGenerator.SelectTier | model-packs/education/domain-lib/problem_generator.py:20-35 | the first tier whose half-open range holds the difficulty, otherwise the last; raises on no tiers |
| ProblemGenerator.GenerateProblem | model-packs/education/domain-lib/problem_generator.py:134-145 | the problem of the kind of the first tier whose range holds the difficulty, or else of the last; with positive draws it parses, solves to its answer and passes the substitution check |
| ProblemGenerator.PrintedForms | model-packs/education/domain-lib/problem_generator.py:40-100 | what the printed equation of each type says: the value of its left side in the variable and of its right side |
| ProblemGenerator.Tier1RoundTrip | model-packs/education/domain-lib/problem_generator.py:40-55 | every tier 1 equation parses and solves to its answer, whatever the draws |
| ProblemGenerator.Tier2RoundTrip | model-packs/education/domain-lib/problem_generator.py:58-73 | a tier 2 equation solves to its answer exactly when its coefficient is not zero |
| ProblemGenerator.Tier3RoundTrip | model-packs/education/domain-lib/problem_generator.py:76-100 | a tier 3 equation solves to its answer exactly when its coefficient is not zero and, when subtracting, the subtracted number is not negative |
| ProblemGenerator.GeneratedSolvesIff | model-packs/education/domain-lib/problem_generator.py:103-107 | the same for whichever generator the equation type names |
| ProblemGenerator.StatedAnswerIsKept | model-packs/education/domain-lib/problem_generator.py:53 | handing in the stated answer as a step is judged equivalent to the equation |
| Ledger.VerifyChain | model-packs/system/controllers/system_log_validator.py:131-180 | intact exactly when every record carries the link of the ledger before it; otherwise the index and id of the first that does not, and how many were checked |
| Ledger.LinkedIff | model-packs/system/controllers/system_log_validator.py:146-163 | a record is linked exactly when it carries the hash of the record before it, or genesis at the start |
| Ledger.ReportIsUnique | model-packs/system/controllers/system_log_validator.py:131-180 | there is exactly one right report |
| Ledger.SharedRecordSharesHistory | model-packs/system/controllers/system_log_validator.py:157-162 | a record two intact ledgers share stands at the same place in both, after the same history |
| Ledger.LastRecordCommits | model-packs/system/controllers/system_log_validator.py:157-162 | two intact ledgers with the same last record are identical |
| Ledger.NoRecordTwice | model-packs/system/controllers/system_log_validator.py:157-162 | no record occurs twice in an intact ledger |
| Ledger.ReplacementReported | model-packs/system/controllers/system_log_validator.py:146-172 | replacing a record is reported at that record if its link changed, otherwise at exactly the next one, and not at all when it was the last |
| Ledger.RemovalReported | model-packs/system/controllers/system_log_validator.py:146-172 | removing a record is reported at exactly its place, and not at all when it was the last |
| Ledger.InsertionReported | model-packs/system/controllers/system_log_validator.py:146-172 | inserting a record before another is reported at it, or at exactly the next one when it carries the right link |
| Ledger.AppendKeepsVerdict | model-packs/system/controllers/system_log_validator.py:273-289 | appending with the hash of the last record, or genesis, changes neither the verdict nor the first broken record |
| Ledger.LedgerFile.CommitArtifact | model-packs/system/controllers/system_log_validator.py:264-294 | appends one record with the right link and type, or refuses a missing file |
| Ledger.LedgerFile.RollbackArtifact | model-packs/system/controllers/system_log_validator.py:297-367 | appends one rollback record that refers to the latest activation; refuses without a file or the confirmation; fails on a prior record without an id |
| Ledger.CommandEffect | model-packs/system/controllers/system_log_validator.py:264-367 | a command adds one record, with the fields of its request and the link of the ledger, or leaves the ledger alone: a rollback adds exactly with the exact confirmation and no prior record that lacks an id |
| Ledger.AddedType | model-packs/system/controllers/system_log_validator.py:273-362 | a commit is of the type given, by default an activation; a rollback is of the rollback type |
| Ledger.PriorActivation | model-packs/system/controllers/system_log_validator.py:315-321 | the latest activation record of the subject, none exactly when there is none |
| Ledger.PriorIsLatest | model-packs/system/controllers/system_log_validator.py:315-321 | the last commitment record of activation type for the subject is the one found |
| Ledger.CommandsKeepVerdict | model-packs/system/controllers/system_log_validator.py:264-367 | no sequence of commands changes the verdict, the first broken record or any record already there |
| Ledger.BuiltIsIntact | model-packs/system/controllers/system_log_validator.py:264-367 | a ledger that commands built from nothing is intact |
| Ledger.RollbackNamesLastCommit | model-packs/system/controllers/system_log_validator.py:297-362 | a confirmed rollback refers to the latest activation committed for its subject, however many other commands came between |
| Words.CleanTextJoins | model-packs/coding-agent/domain-lib/context_staging.py:21-27 | cleaning a text is joining its words with single spaces |
| Words.CleanTextTwice | model-packs/coding-agent/domain-lib/context_staging.py:14-27 | cleaning twice is cleaning once, and a clean text has as many tokens as words |
| Words.SplitOfJoin | model-packs/coding-agent/domain-lib/context_staging.py:47 | joining words with spaces and splitting again gives the words back |
| Words.RoughTokensAreWords | model-packs/coding-agent/domain-lib/context_staging.py:14-18 | the rough token count of a text is the number of its words |
| ContextStaging.SplitWords | model-packs/coding-agent/domain-lib/context_staging.py:30-50 | raises exactly for text with a word and a size below one; otherwise the joined chunks, none for text without a word |
| ContextStaging.ChunkCount | model-packs/coding-agent/domain-lib/context_staging.py:41-49 | the number of chunks in closed form, also for a negative overlap |
| ContextStaging.ChunkAt | model-packs/coding-agent/domain-lib/context_staging.py:43-44 | chunk k is the words from k steps on, up to the chunk size |
| ContextStaging.ChunksUndoneIff | model-packs/coding-agent/domain-lib/context_staging.py:41-50 | dropping the repeated words and concatenating gives the words back exactly when the overlap is not negative or one chunk holds them all |
| ContextStaging.LaterChunkIsNew | model-packs/coding-agent/domain-lib/context_staging.py:43-49 | each later chunk starts with the end of the one before and brings at least one new word |
| ContextStaging.TextFromChunks | model-packs/coding-agent/domain-lib/context_staging.py:35-50 | the clean text comes back from the chunk texts and the two sizes |
| ContextStaging.StageContext | model-packs/coding-agent/domain-lib/context_staging.py:63-108 | the loops compute the specified greedy selection over the ranked clean chunks |
| ContextStaging.OrderDoesNotMatter | model-packs/coding-agent/domain-lib/context_staging.py:85-86 | the selection is the same for every permutation of the input |
| ContextStaging.SelectionIsAdmissible | model-packs/coding-agent/domain-lib/context_staging.py:92-102 | the selection comes from the input, in rank order, within top_k, the token budget and the per-path cap, each chunk admissible after those before it |
| ContextStaging.LeftOutIsBlocked | model-packs/coding-agent/domain-lib/context_staging.py:92-102 | maximal and greedy: a chunk left out would break a limit, and already does beside selected chunks that rank no later |
| ContextStaging.ScoresNeverRise | model-packs/coding-agent/domain-lib/context_staging.py:85-86 | scores never rise along the selection; of equal scores the smaller path comes first, and on one path the smaller text |
| ContextStaging.LeftOutIsNoBetter | model-packs/coding-agent/domain-lib/context_staging.py:92-102 | a chunk left out is kept out by selected chunks that all score at least as high: they are top_k many, leave it too few tokens, or use up its path |
| ContextStaging.FirstIsBest | model-packs/coding-agent/domain-lib/context_staging.py:85-102 | with room for a chunk at all, the first one selected scores highest among those that fit the token budget |

## Left out

- Tier2Decomposer.GroupNodesIntoSlices: takes any cost of a node as a number, since the logarithm in the source's
  estimate is a float formula; the packing is optimal for every such cost.
- TierDispatcher.DispatchToTier3: what a tool, the local model or the provider policy does is an arbitrary answer;
  the backings, their arguments, the trace they leave and tiers 1 and 2 are not modelled.
- OrchestrationLoop.ExecuteDagUntil: telemetry, evidence packets, teardown, the timeline texts and the compatibility
  name of the halt reason are left out; they do not steer the loop.
- ExecutionStateStore.ExecutionStateStore.SaveCheckpoint: timestamps are left out and a uuid is a number not used before.
- RuntimeAdapter.DomainStep: only the orchestration branch, after the plan and the slices were found in the request.
- Ledger.VerifyChain: the hash is an uninterpreted function; where needed it is assumed injective and never equal to
  "genesis", which stands for SHA-256 (section 6.2 of FIPS 180-4) over canonical JSON. The error texts are left out.
- Ledger.LedgerFile.RollbackArtifact: files, the prompt and the printed lines are inputs or left out.
- AlgebraParser.EvalSideLoop: digits and white space are the ASCII ones, and float rounding is not modelled.
- LinearEquations.ParseSteps: takes the step texts as given; splitting the student's text, naming the operations and
  the checks that use SymPy or regular expressions are left out, and so are the step count and the method name.
- ProblemGenerator.GenerateProblem: the random draws are parameters; the descriptive fields are left out.
- ContextStaging.StageContext: the score is an arbitrary natural number that depends on the clean text, so counting
  query terms, lower-casing and the recall hints are left out; white space is the ASCII one.
- The lineage checks of micro plans and slices: simple look-ups.
- Slices whose id is the first node of a group are modelled, but liveness is about one slice per node, which is what
  the dispatcher builds by default.
- The evidence and teardown transaction, the monitors, the governance and dashboard handlers, the persona engine and
  the web interface: counters, clamps, input and output.
