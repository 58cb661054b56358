# Verified models of the training and agent code

This project models four parts of the repository in Dafny and proves what they promise, for all inputs and,
where the code is a state machine, over all runs. `dafny verify dfyconfig.toml` checks everything.

**Balancing sequence lengths** (`verl/utils/seqlen_balancing.py`). The k-way differencing partitioner with its
mutable `Set` and `State` objects and its priority queue, the greedy partitioner, micro-batch formation and index
reversal. `Differencing`, `Reduction` and `Balanced` hold the algorithm on values and its theory, `KarmarkarKarp`
the objects and loops proved equal to it, `SeqlenBalancing`, `Greedy` and `MicroBatches` the callers. The heap is
"pop a least state under `State.__lt__`", which has the largest spread (`Reduction.LargestSpreadFirst`);
`Reduction.LeastIsUnique` shows that it is unique, so any correct heap pops the same states, and `Balanced.AnyOrderBalanced` shows that the balance does not depend on the
order of the pops at all. Lengths are non-negative; `k` is any integer, and the inputs that Python rejects give the
corresponding error. The docstring at line 225 suggests that micro-batches stay below `max_token_len`; they do not
(`MicroBatches.TokenLimitNotKept`). What does hold is `TokenBound`, `TokenLimitKept` when the total leaves room, and
`EqualRowsKeepLimit` for rows of one length.

**The agent controller** (`SkyRL-OpenHands/openhands/controller/agent_controller.py`). `ControllerModel` is the
controller with its chain of delegates and the shared event stream as a function of one input: an event that is
delivered, or a direct change of the agent state. What the model does not compute (cost, stuck detection, what the
agent or the replay answers, whether the delegate posts a system message or truncates its history) comes with each
input and is arbitrary. `AgentController` is the class with the same methods, updating its fields, proved against
it. `ControllerSteps` says what each change of state and each step does, with the events they emit, and
`ControllerEvents` what each event does, to the history and the delegates too; `ControllerSafety` is what holds of
every run, and `ControllerLimits` says when a controller keeps to its own limit. Two counters are kept for the proofs only: the throttled resumes, and the largest iteration limit any
controller of the chain ever had. Names: traffic control `Lifted` is the code's `PAUSED`. `DelegateHistory` and `ConversationWindow` are the two list algorithms.

Where code and comments differ the model follows the code: a pending recall is also answered with an error on reset,
although the comment at line 579 says it need not be, because every event has the attribute that line 558 tests
(`ControllerSafety.HaltAnswersRecall`); the history after nested delegates still contains the inner ones
(`DelegateHistory.NestedDelegatesStay`); events reach a delegate but not a delegate of that delegate (lines 388-390).

**Distributed data layout** (`verl/utils/ulysses.py`, `verl/utils/torch_functional.py`, `verl/protocol.py`). The
world is the sequence of all ranks' tensors, and a collective is a function on it. Tensors are sequences of rows
with opaque entries; logits, log-probabilities and per-row computations are arbitrary functions. In `Ulysses` rows
are sequence positions and columns are heads.

**Weight layout** (`verl/utils/memory_buffer.py`, `verl/utils/model.py`, `scripts/model_merger.py`). The typed
parameter buffers (`MemoryLayout` is the arithmetic, `MemoryBuffer` the arrays, views and loops), the renumbering of
layers over pipeline and virtual pipeline stages (`Layers`), merging tensor-parallel shards (`TensorParallel` is the
merge, `Sharding` what it inverts) and the checkpoint merger that combines them (`ModelMerger`).

`MemoryBuffer` keeps an oddity of line 110 of the source: `build_memory_reference_from_module` computes the padding
with the element type left over from the loop at line 104. With one element type nothing goes wrong. With several,
views never overlap, but the range check can fail (`MemoryLayout.NarrowLeftoverRunsOut`) and a view can start off a
128-bit boundary (`MemoryLayout.WideLeftoverMisaligns`); `MemoryBuffer.BuildReferenceFromModule` says exactly when it
succeeds and when the views are aligned.

`Sequences`, `Arithmetic`, `Blocks`, `Sorting` and `Events` are the shared vocabulary.

## Model

| member | source | states |
|---|---|---|
| KarmarkarKarp.Set.Add | verl/utils/seqlen_balancing.py:33-35 | the object's value gains the item and its length |
| KarmarkarKarp.Set.Merge | verl/utils/seqlen_balancing.py:37-40 | the loop leaves the value of the one-step union of both sets |
| KarmarkarKarp.State.constructor | verl/utils/seqlen_balancing.py:51-58 | the sets are the given items one each, padded with empty sets, in descending order |
| KarmarkarKarp.State.Merge | verl/utils/seqlen_balancing.py:72-75 | updating the sets in place and sorting gives the opposed merge of both state values |
| KarmarkarKarp.State.GetPartitions | verl/utils/seqlen_balancing.py:63-70 | the index lists of the sets, in order |
| Differencing.SortIsDescending | verl/utils/seqlen_balancing.py:58-75 | sorting a state leaves no set smaller than a later one: the sums fall, at equal sums the item counts, at equal counts the first indices |
| Differencing.MergeWellFormed | verl/utils/seqlen_balancing.py:72-75 | a merge keeps sets sorted, sums right, exactly min(k, items) sets non-empty, and the items of both states |
| Differencing.FilledIsPrefix | verl/utils/seqlen_balancing.py:42-58 | in a sorted state the non-empty sets come first |
| Differencing.MergeSpread | verl/utils/seqlen_balancing.py:72-79 | the merged spread is at most the larger of the two spreads |
| Differencing.MergeEven | verl/utils/seqlen_balancing.py:72-75 | states whose sets all hold m and n items merge to one whose sets all hold m + n |
| Differencing.NoTies | verl/utils/seqlen_balancing.py:81-87 | two states that share no item are never equal in the heap order |
| Differencing.StateTransitive | verl/utils/seqlen_balancing.py:81-87 | not-less is transitive on states, so a least state exists |
| Reduction.InitialHeapOk | verl/utils/seqlen_balancing.py:103-115 | the initial states meet the invariant with the promised spread and hold every item once |
| Reduction.RoundKeeps | verl/utils/seqlen_balancing.py:117-122 | replacing any two states by their merge keeps the invariant and all items |
| Reduction.RunSafe | verl/utils/seqlen_balancing.py:103-122 | the invariant holds in every heap of every run, whatever is popped |
| Reduction.LeastIsUnique | verl/utils/seqlen_balancing.py:81-87 | every other state of the heap is strictly greater than the popped one |
| Reduction.LargestSpreadFirst | verl/utils/seqlen_balancing.py:81-87 | the popped state has the largest difference of first and last sum; at equal differences no state has a larger first set |
| Reduction.SortShortAscending | verl/utils/seqlen_balancing.py:103 | the items are sorted by length, then by index |
| Reduction.RoundOfLargest | verl/utils/seqlen_balancing.py:117-122 | the round replaces two states, of the largest and of the next largest spread, by their merge |
| Reduction.WidestIsAttained | verl/utils/seqlen_balancing.py:104-111 | the bound of the equal-size mode is the gap inside one of the blocks of k consecutive lengths |
| Balanced.PopsAreDetermined | verl/utils/seqlen_balancing.py:81-122 | in every heap of every run the next pop is determined by the order on states, and has the largest spread |
| Balanced.AnyOrderBalanced | verl/utils/seqlen_balancing.py:103-130 | any order of pops ends in an exact partition into non-empty parts within the initial spread, the heaviest first, of equal sizes in that mode |
| Balanced.DifferencedBalanced | verl/utils/seqlen_balancing.py:103-130 | the same for the least-first order: spread at most the longest sequence, or the widest block of k consecutive sorted lengths |
| Balanced.SortPartsKeeps | verl/utils/seqlen_balancing.py:178-180 | sorting inside the parts keeps exactness, loads, their order and sizes |
| KarmarkarKarp.FindLeast | verl/utils/seqlen_balancing.py:118-119 | the position of the least state of the heap: the largest spread, at equal spreads the largest first set by sum, count and first index |
| KarmarkarKarp.MergeLeast | verl/utils/seqlen_balancing.py:117-122 | one round on the objects is one round on their values, and merges the two states of largest spread |
| KarmarkarKarp.ReduceHeap | verl/utils/seqlen_balancing.py:117-124 | the loop on objects ends with the value of the least-first reduction |
| KarmarkarKarp.Partition | verl/utils/seqlen_balancing.py:25-130 | the whole partitioner, with the error for each refused input; the equal-size assertion never fires |
| SeqlenBalancing.CheckAndSort | verl/utils/seqlen_balancing.py:170-180 | accepts exactly k non-empty parts whose index set is complete, and sorts each |
| SeqlenBalancing.BalancedResultIsBalanced | verl/utils/seqlen_balancing.py:152-183 | an answer exists iff 1 <= k <= n (and k divides n if asked), and is then an exact, non-empty, increasing, balanced partition, heaviest part first |
| SeqlenBalancing.RefusedWith | verl/utils/seqlen_balancing.py:88-183 | which error each refused input gives |
| SeqlenBalancing.GetBalancedPartitions | verl/utils/seqlen_balancing.py:152-183 | equals that result: the three assertions on the partition never fire |
| Greedy.FillingExact | verl/utils/seqlen_balancing.py:133-143 | the greedy parts hold every index exactly once |
| Greedy.GoesToFirstLightest | verl/utils/seqlen_balancing.py:137-143 | each item is appended to the first of the lightest parts so far, and nothing else changes |
| Greedy.FillingClose | verl/utils/seqlen_balancing.py:133-143 | the running sums never differ by more than the largest biased length |
| Greedy.FillingLevel | verl/utils/seqlen_balancing.py:134-143 | with the bias, item counts of two parts never differ by more than one |
| Greedy.GreedyEqualSizes | verl/utils/seqlen_balancing.py:144-148 | all parts have equal size iff k divides n |
| Greedy.GreedyBalanced | verl/utils/seqlen_balancing.py:133-143 | without the bias no two loads differ by more than the longest sequence |
| Greedy.GreedyPartition | verl/utils/seqlen_balancing.py:133-149 | the loops compute that filling, with the error for each refused input |
| MicroBatches.CeilDivIsCeiling | verl/utils/seqlen_balancing.py:220-221 | ceildiv is the true ceiling, for divisors of both signs |
| MicroBatches.RearrangeMicroBatches | verl/utils/seqlen_balancing.py:224-256 | the micro-batches are the rows of each part in order; every error of the checks |
| MicroBatches.PartsAgree | verl/utils/seqlen_balancing.py:239-242 | the number of parts is at least the rounded-up share of tokens and every other rank's count, and is one of them |
| MicroBatches.TokenBound | verl/utils/seqlen_balancing.py:229-251 | k times the heaviest micro-batch is at most total + (k-1) * longest; each holds fewer than limit + longest and fewer than twice the limit |
| MicroBatches.TokenLimitKept | verl/utils/seqlen_balancing.py:225-251 | when total + (k-1) * longest < k * (limit + 1), no micro-batch exceeds the limit |
| MicroBatches.TokenBoundIsTight | verl/utils/seqlen_balancing.py:229-251 | k + 1 rows of one length attain the bound |
| MicroBatches.EqualRowsKeepLimit | verl/utils/seqlen_balancing.py:225-251 | for rows of one length no micro-batch exceeds the limit iff the rounded-up share of rows does not |
| MicroBatches.NoPartsKeepFive | verl/utils/seqlen_balancing.py:225-251 | lengths 3, 3, 4 and limit 5 ask for two parts, and no two parts keep to the limit |
| MicroBatches.TokenLimitNotKept | verl/utils/seqlen_balancing.py:225-251 | a batch with those masks is split, and the first of the micro-batches that are chosen exceeds the limit |
| MicroBatches.SplitsAlone | verl/utils/seqlen_balancing.py:229-244 | without a process group a batch is split iff the limit is positive, covers the row width, and there is a token |
| MicroBatches.GetReverseIdx | verl/utils/seqlen_balancing.py:259-265 | the slots written in place, or the index error of a list that is no arrangement |
| MicroBatches.ReverseInverts | verl/utils/seqlen_balancing.py:259-265 | on a permutation the result is its inverse, on both sides |
| MicroBatches.DynamicBatchingTransparent | verl/workers/fsdp_workers.py:1219-1234 | for every exact partition, map per micro-batch, concatenate and index by the reversed list: the map over the batch, in order |
| MicroBatches.MicroBatchesTransparent | verl/workers/fsdp_workers.py:1219-1234 | the same for the partition that rearrange_micro_batches chose |
| AgentController.EventStream.Add | SkyRL-OpenHands/openhands/events/stream.py:158-167 | the event gets the next id and is appended |
| AgentController.Controller.Reset | SkyRL-OpenHands/openhands/controller/agent_controller.py:552-583 | the loop answers the pending action unless the history already does |
| AgentController.Controller.SetAgentStateTo | SkyRL-OpenHands/openhands/controller/agent_controller.py:585-652 | side effects by target state, then the state and its announcement |
| ControllerSteps.SetHaltingState | SkyRL-OpenHands/openhands/controller/agent_controller.py:552-600 | stopping or failing emits an error with the pending action's id and tool call unless the history has an observation of that tool call, then the announcement; nothing stays pending |
| ControllerSteps.ResumeThrottled | SkyRL-OpenHands/openhands/controller/agent_controller.py:601-629 | resuming a throttled task lifts traffic control; limits that are used up grow by their initial amounts, the iteration limit only outside headless mode |
| ControllerSteps.DecisionReissues | SkyRL-OpenHands/openhands/controller/agent_controller.py:630-652 | confirming or rejecting a pending command emits exactly two events: the command under a new id marked CONFIRMED or REJECTED, with its cause and tool call, which is pending then, and the announcement |
| ControllerSteps.DecisionRound | SkyRL-OpenHands/openhands/controller/agent_controller.py:480-642 | the observation of the marked command sets the controller running, or back to waiting for the user, with nothing pending; one of the unmarked command does nothing |
| AgentController.Controller.HandleTrafficControl | SkyRL-OpenHands/openhands/controller/agent_controller.py:903-943 | a lifted limit lets one step pass; otherwise throttle, fail and stop |
| ControllerSteps.LimitsDecide | SkyRL-OpenHands/openhands/controller/agent_controller.py:791-826 | a due step over the iteration limit or the budget throttles and fails with the count unchanged, whatever the agent would answer; with lifted limits it goes on if only one is exceeded, and the lifting is spent; otherwise a stuck agent fails and any other is asked |
| ControllerSteps.AskPublishes | SkyRL-OpenHands/openhands/controller/agent_controller.py:828-893 | the chosen action is counted and published, and pending if the runtime executes it; a command that needs confirmation is published as awaiting it, after that state |
| ControllerSteps.AskFails | SkyRL-OpenHands/openhands/controller/agent_controller.py:842-874 | an unreadable answer is reported as an error observation and the controller stays running; other failures end in the error or rate-limit state |
| ControllerSteps.AskCondenses | SkyRL-OpenHands/openhands/controller/agent_controller.py:1158-1195 | an exceeded context emits the forgotten range, or fails when truncation is off or no window exists |
| ControllerSteps.CondensationMatchesWindow | SkyRL-OpenHands/openhands/controller/agent_controller.py:1158-1195 | the emitted condensation covers every forgotten event and is bounded by forgotten ones; exactly when it covers no kept event, and exactly when the view without it is the window |
| AgentController.Controller.TakeStep | SkyRL-OpenHands/openhands/controller/agent_controller.py:771-894 | the guards, both limit checks in order, the stuck check and the question to the agent |
| AgentController.Controller.ReceiveObservation | SkyRL-OpenHands/openhands/controller/agent_controller.py:459-493 | an observation of the pending action clears it and leaves the confirmation states |
| ControllerEvents.AnswerClears | SkyRL-OpenHands/openhands/controller/agent_controller.py:480-493 | an answer clears the pending action except while the user has yet to decide, and ends a decision |
| AgentController.Controller.ReceiveMessage | SkyRL-OpenHands/openhands/controller/agent_controller.py:495-550 | a user message extends the limit, makes a recall pending and starts the agent |
| ControllerEvents.UserMessageStarts | SkyRL-OpenHands/openhands/controller/agent_controller.py:505-546 | the whole effect of a user message: recall pending and emitted, running, and outside headless mode the initial number of iterations again and traffic control over |
| ControllerEvents.AgentMessageWaits | SkyRL-OpenHands/openhands/controller/agent_controller.py:547-550 | the agent's message waits for the user iff it asks for a response |
| AgentController.Controller.StartDelegate | SkyRL-OpenHands/openhands/controller/agent_controller.py:439-449 | the delegate starts at the parent's count and limit, and gets its task |
| ControllerEvents.DelegationStarts | SkyRL-OpenHands/openhands/controller/agent_controller.py:439-449 | every field of the new delegate, the emitted events, and that the task is the delegate's first user message however the stream goes on |
| AgentController.Controller.EndDelegation | SkyRL-OpenHands/openhands/controller/agent_controller.py:714-769 | the parent takes over the count, stops the delegate and publishes its result |
| ControllerEvents.DelegationEnds | SkyRL-OpenHands/openhands/controller/agent_controller.py:714-769 | the next event ends a finished, rejected or failed delegate: the parent takes its count, and the result answers the tool call of the latest delegation |
| ControllerEvents.DelegateWorks | SkyRL-OpenHands/openhands/controller/agent_controller.py:373-398 | while a delegate works it handles the event, remembers it, and leaves the parent's own state alone |
| ControllerSafety.CountsWhen | SkyRL-OpenHands/openhands/controller/agent_controller.py:334-430 | handling an event counts exactly one iteration or none: one iff the event is visible and is a condensation, a message not from the user, or an observation other than an announced state or an unanswering null one, no delegate works, and after it the controller is running with nothing pending, not stuck and not stopped by the iteration limit or the budget; so neither a user message nor a delegation makes it count |
| AgentController.Controller.HandleEvent | SkyRL-OpenHands/openhands/controller/agent_controller.py:400-423 | record, dispatch, step: the new state of controller and stream |
| ControllerEvents.HandleRemembers | SkyRL-OpenHands/openhands/controller/agent_controller.py:400-415 | an event enters the history iff it is visible and not a null action, null observation, change of state or announced state |
| ControllerEvents.HistoryIsDelivered | SkyRL-OpenHands/openhands/controller/agent_controller.py:400-415 | after every run without delegation the history is exactly those delivered events, in order |
| AgentController.Controller.ReceiveEvent | SkyRL-OpenHands/openhands/controller/agent_controller.py:373-398 | forward to a working delegate, end a finished one, else handle |
| AgentController.Serve | SkyRL-OpenHands/openhands/controller/agent_controller.py:373-398 | a whole session on the objects is the run of the model, so the theorems below hold of it |
| ControllerSafety.NextEvolves | SkyRL-OpenHands/openhands/controller/agent_controller.py:373-943 | every input keeps tidiness and the iteration ledger of the whole chain, and only extends the stream |
| ControllerSafety.PendingSafety | SkyRL-OpenHands/openhands/controller/agent_controller.py:480-642 | after every run, STOPPED or ERROR implies nothing pending, for the controller and all delegates, and a pending action is the stream's event with its id |
| ControllerSafety.HeadlessOverrun | SkyRL-OpenHands/openhands/controller/agent_controller.py:604-943 | headless, with nested delegates: iterations, plus the lifted tokens along the chain, never exceed the limit plus the throttled resumes, and the limit never moves |
| ControllerSafety.Overrun | SkyRL-OpenHands/openhands/controller/agent_controller.py:512-943 | in any mode the same against the largest limit ever granted |
| ControllerSafety.SoloOverrun | SkyRL-OpenHands/openhands/controller/agent_controller.py:512-943 | in any mode, without delegation, the same against the current limit |
| ControllerLimits.OwnLimitIffHeadless | SkyRL-OpenHands/openhands/controller/agent_controller.py:512-725 | a new controller stays within its own current limit plus the throttled resumes in every run iff it is headless |
| ControllerLimits.DelegateOverruns | SkyRL-OpenHands/openhands/controller/agent_controller.py:512-725 | the run that breaks it for every other controller, whatever its budget and count: the delegate is extended by user messages while the parent's limit stays |
| ControllerSafety.StepAsksOnlyWhenIdle | SkyRL-OpenHands/openhands/controller/agent_controller.py:771-789 | unless running with nothing pending a step changes nothing; the agent's answer matters only in a step that counts exactly one iteration |
| ControllerSafety.IterationStopStands | SkyRL-OpenHands/openhands/controller/agent_controller.py:791-818 | a stop for the iteration limit stands whatever the budget check then decides |
| ControllerSafety.HaltAnswersPending | SkyRL-OpenHands/openhands/controller/agent_controller.py:552-600 | on a stop or failure, an error with the pending action's id and metadata is emitted iff no observation in the history has that metadata |
| ControllerSafety.HaltAnswersRecall | SkyRL-OpenHands/openhands/controller/agent_controller.py:556-579 | a pending recall without tool call is answered too |
| ControllerSafety.FirstUserStays | SkyRL-OpenHands/openhands/controller/agent_controller.py:1429-1453 | the first user message never changes as the stream grows, so caching it is invisible |
| ControllerSteps.FirstUserIsFirst | SkyRL-OpenHands/openhands/controller/agent_controller.py:1440-1452 | the first user message is the first one on the stream from the controller's own start on, if there is one |
| DelegateHistory.DelegateSpans | SkyRL-OpenHands/openhands/controller/agent_controller.py:1105-1125 | the stack loop finds the spans of the matching |
| DelegateHistory.SpansAreLaminar | SkyRL-OpenHands/openhands/controller/agent_controller.py:1105-1125 | delegate spans are pairwise apart or nested |
| DelegateHistory.InitHistory | SkyRL-OpenHands/openhands/controller/agent_controller.py:1105-1153 | the filtering loop computes the rebuilt history |
| DelegateHistory.RebuiltIsOutside | SkyRL-OpenHands/openhands/controller/agent_controller.py:1127-1153 | the rebuilt history is exactly the events not strictly inside a span, in order, iff no span lies inside another |
| DelegateHistory.NestedDelegatesStay | SkyRL-OpenHands/openhands/controller/agent_controller.py:1127-1153 | a concrete nested history: the inner delegation is not left out, and the outer observation comes twice |
| ConversationWindow.ApplyConversationWindow | SkyRL-OpenHands/openhands/controller/agent_controller.py:1197-1322 | the loops compute the window, with both refusals |
| ConversationWindow.WindowExists | SkyRL-OpenHands/openhands/controller/agent_controller.py:1205-1275 | there is a window unless the first system message does not open the history or there is no user message |
| ConversationWindow.EssentialWhen | SkyRL-OpenHands/openhands/controller/agent_controller.py:1216-1273 | the essential events are the first system message, the first user message, the first recall after it for its content, and the first observation after that which answers it |
| ConversationWindow.KeptWhen | SkyRL-OpenHands/openhands/controller/agent_controller.py:1216-1320 | an event of the history is kept iff it is essential, or is among the last max(1, m / 2) events, m counting the others, and not one of the observations that these start with |
| ConversationWindow.LatestKept | SkyRL-OpenHands/openhands/controller/agent_controller.py:1283-1320 | when those last events do not start with an observation the window is the essentials and all of them |
| ConversationWindow.WindowShape | SkyRL-OpenHands/openhands/controller/agent_controller.py:1275-1320 | for every history: the essentials come first, the recent part does not start with an observation, and of two or more other events at least half, rounded up, are forgotten |
| ConversationWindow.RangeClear | SkyRL-OpenHands/openhands/controller/agent_controller.py:1158-1195 | when something is forgotten, the emitted id range contains no kept event iff no essential event stands between two others before the kept recent events |
| ConversationWindow.RangeMatchesWindow | SkyRL-OpenHands/openhands/controller/agent_controller.py:1158-1195 | dropping the range from the history leaves exactly the window iff in addition the first user message is in the history and no essential event is among the recent ones |
| ConversationWindow.EssentialsFirst | SkyRL-OpenHands/openhands/controller/agent_controller.py:1216-1320 | both hold when the essential events are the first of the history |
| ConversationWindow.RangeSwallowsEssential | SkyRL-OpenHands/openhands/controller/agent_controller.py:1158-1195 | when the recall is answered late the range contains an essential event |
| Ulysses.AllToAll | verl/utils/ulysses.py:140-144 | every rank's output buffers hold what the ranks put into their input lists for it, in sender order |
| Ulysses.ScatterColumns | verl/utils/ulysses.py:132-151 | split along the heads, exchange, concatenate along the sequence: every rank's column blocks stacked |
| Ulysses.ScatterRows | verl/utils/ulysses.py:132-151 | split along the sequence, exchange, concatenate along the heads |
| Ulysses.HeadsToRowsGlobal | verl/utils/ulysses.py:132-151 | seen globally the exchange gives every rank its columns of the whole |
| Ulysses.RowsToHeadsGlobal | verl/utils/ulysses.py:132-151 | and the exchange back gives every rank its rows of the whole |
| Ulysses.AllToAllRoundTrip | verl/utils/ulysses.py:61-100 | scattering the heads and gathering them again returns every rank's tensor |
| Ulysses.AllToAllPaddedRoundTrip | verl/utils/ulysses.py:61-113 | with an unpadded length real positions are unchanged and padding positions are zero |
| Ulysses.PaddingFills | verl/utils/ulysses.py:93-96 | the pad makes the length divisible, and what it is |
| Ulysses.PaddingMinimal | verl/utils/ulysses.py:269-270 | no smaller pad makes the length divisible |
| Ulysses.SlicesCover | verl/utils/ulysses.py:116-129 | the slices of all ranks concatenate to the padded ids and positions |
| Ulysses.SlicesAligned | verl/utils/ulysses.py:252-288 | on every rank each token stands beside its own position id, padding counting from zero |
| Ulysses.GatherRowsTransparent | verl/utils/ulysses.py:197-249 | computing per token on slices, gathering and unpadding is computing on the unsharded input |
| Ulysses.GatherColumnsTransparent | verl/utils/ulysses.py:197-249 | the same when gathering along the second dimension |
| LogProbs.IndexAtRank | verl/utils/torch_functional.py:568-571 | the index list holds a valid position at the number of valid positions before it |
| LogProbs.CumulativeLengthsMatch | verl/utils/torch_functional.py:568-577 | cu_seqlens counts the valid tokens before each row of the flattened mask |
| LogProbs.TokensOfRow | verl/utils/torch_functional.py:568-577 | the indices between two entries of cu_seqlens all lie in that row |
| LogProbs.PaddedRowDefined | verl/utils/torch_functional.py:367-380 | the padded form is defined iff the response is non-empty and leaves a token before it |
| LogProbs.PaddingFreeEntry | verl/utils/torch_functional.py:383-408 | each entry is zero at padding, else the score against the next valid token, even across rows |
| LogProbs.PaddingFreeRefinesPadded | verl/utils/torch_functional.py:367-408 | with logits that agree on valid tokens both forms agree wherever a position and its successor are valid |
| Protocol.SliceRows | verl/protocol.py:447-491 | slicing, negative bounds included, slices the rows: tensor and array halves stay together |
| Protocol.ConcatRows | verl/protocol.py:641-664 | concatenating protos concatenates their rows |
| Protocol.ChunkRows | verl/protocol.py:609-639 | chunk i holds block i of the rows |
| Protocol.PadToDivisor | verl/protocol.py:41-64 | the padding loop ends and builds the padded proto |
| Protocol.PadRows | verl/protocol.py:41-64 | the padded size is the next multiple, pad < divisor, and row i is row i mod n |
| Protocol.UnpadRows | verl/protocol.py:67-70 | unpadding cuts off exactly the padding rows |
| Protocol.PaddedChunksExist | verl/protocol.py:41-64 | after padding the equal-chunk assertion cannot fail |
| Protocol.DispatchTransparent | verl/protocol.py:41-70 | pad, chunk, compute row by row on the workers, concat, unpad: the computation on the original rows |
| Protocol.LazyEqualsEager | verl/protocol.py:722-766 | for every future: chunking it and getting chunk j later equals getting it and chunking now iff it selects everything, or is the only chunk, or nothing was collected, or the rows cannot be cut into that many chunks (then both fail) |
| Protocol.ChunksSelect | verl/protocol.py:743-758 | a chunk of a future selects by the last chunking alone |
| Protocol.ChunkOfChunkForgets | verl/protocol.py:743-766 | four rows, half of a half: lazily the first two rows, eagerly the third |
| Protocol.ChunksCover | verl/protocol.py:609-639 | the chunks, in order, make up all the rows |
| Protocol.RepeatRows | verl/protocol.py:674-716 | size * times rows, and every row is one original row in both halves: i / times interleaved, i mod n stacked |
| MemoryLayout.Padded | verl/utils/memory_buffer.py:54-58 | a multiple of the alignment that holds the parameter, by less than one unit |
| MemoryLayout.PaddedIsLeast | verl/utils/memory_buffer.py:54-58 | the smallest such multiple |
| MemoryLayout.ViewsInRange | verl/utils/memory_buffer.py:116-140 | every view lies in the buffer sized for the parameters: the range assertion never fires |
| MemoryLayout.ViewsDisjoint | verl/utils/memory_buffer.py:100-140 | no two views of one type overlap, whichever type pads them |
| MemoryLayout.AlignedExactly | verl/utils/memory_buffer.py:100-140 | every parameter starts on a 128-bit boundary iff every one that another of its type follows takes a whole number of units with the padding used |
| MemoryLayout.NarrowLeftoverAligns | verl/utils/memory_buffer.py:100-140 | which is so when the padding type is at most as wide as every type in use, or is the parameter's own |
| MemoryLayout.WidestLeftoverFits | verl/utils/memory_buffer.py:100-113 | when the left-over type is the widest in use, everything fits |
| MemoryLayout.OneTypeIsSafe | verl/utils/memory_buffer.py:100-113 | with one type the left-over type is that type, everything fits and is aligned |
| MemoryLayout.NarrowLeftoverRunsOut | verl/utils/memory_buffer.py:104-110 | three 32-bit parameters before a 16-bit one: the third view ends at 17 of 12 |
| MemoryLayout.WideLeftoverMisaligns | verl/utils/memory_buffer.py:104-110 | two 16-bit parameters before a 32-bit one: the second starts at bit 64 |
| MemoryBuffer.Buffer.Get | verl/utils/memory_buffer.py:43-51 | the view, or the failed range assertion |
| MemoryBuffer.BuildMemoryBuffer | verl/utils/memory_buffer.py:71-97 | one fresh buffer of zeros for each type, in order of first use, of exactly the padded total |
| MemoryBuffer.BuildMemoryReference | verl/utils/memory_buffer.py:116-140 | succeeds iff every view fits, and then gives every parameter its view, on a 128-bit boundary |
| MemoryBuffer.BuildReferenceFromModule | verl/utils/memory_buffer.py:100-113 | succeeds iff every view fits with the left-over padding, and is then aligned iff the steps are whole; parameters re-bound so far read their original values, or leave the buffers as they were if values are not maintained, and the others are untouched |
| MemoryBuffer.WrapModule | verl/utils/memory_buffer.py:149-154 | allocate and re-bind: on success every parameter reads its original values, aligned iff the steps are whole; with one type it always succeeds, aligned |
| Layers.OffsetClosedForm | verl/utils/model.py:219-229 | the offset is the chunk number v * pp + p times the layers of a chunk |
| Layers.GlobalOfPlace | verl/utils/model.py:219-242 | every (stage, chunk, layer) gets a layer in range from which it can be read off |
| Layers.PlaceOfGlobal | verl/utils/model.py:219-242 | every layer in range has such a place, so the numbering is a bijection |
| Layers.NormalizePpVppParams | verl/utils/model.py:209-248 | the nested loops fill the dictionary with the renumbered entries, later ones winning |
| Layers.NothingOverwritten | verl/utils/model.py:240-248 | every layer parameter, and every other one that only one chunk names, is in the dictionary with its own value |
| Layers.RunningCountIsOffset | scripts/model_merger.py:299-332 | the merger's running count is that offset at every chunk iff every chunk but the last ends with its last layer |
| TensorParallel.EvenChunk | scripts/model_merger.py:253-281 | rows that divide evenly are chunked into equal blocks |
| TensorParallel.MergeAcrossTp | scripts/model_merger.py:247-297 | the append loops compute the merge of the key's kind, with every error |
| Sharding.GateUpMerges | scripts/model_merger.py:248-258 | merging the halves gives gate and up in order |
| Sharding.GateUpShards | scripts/model_merger.py:248-258 | and sharding them again gives the shards |
| Sharding.QkvMerges | scripts/model_merger.py:259-286 | for every number of ranks that divides the key-value heads, merging contiguous-by-group shards gives q, k and v with heads in global group order |
| Sharding.QkvShards | scripts/model_merger.py:259-286 | and sharding them again gives the shards: every row is placed exactly once |
| Sharding.TooManyRanks | scripts/model_merger.py:272-274 | with more ranks than key-value heads the merge fails |
| Sharding.ColumnsMerge | scripts/model_merger.py:290-294 | column shards join to the tensor |
| Sharding.MergeInvertsShard | scripts/model_merger.py:247-297 | for every kind of key, merging what was sharded gives it back |
| Sharding.TextDecidesKind | scripts/model_merger.py:247-297 | a tensor that is sharded as the text of its key says is merged by the kind that inverts it: the gate-up projection by halves, fused query-key-value by group, norms (and the value head) replicated, the second projection and the attention output by columns, all else by rows |
| ModelMerger.ConvertChunk | scripts/model_merger.py:302-331 | the key loop stores the merged tensors and finds the highest layer |
| ModelMerger.HandledWhen | scripts/model_merger.py:302-331 | the count taken over from a chunk is the highest layer among its keys that are not left out |
| ModelMerger.Convert | scripts/model_merger.py:299-332 | the loops over chunks and stages compute the conversion or its first error |
| ModelMerger.ConvertedRestores | scripts/model_merger.py:299-332 | at every chunk the state holds only the model's tensors, and all those of the chunks before |
| ModelMerger.ConvertRestores | scripts/model_merger.py:299-332 | a model split over stages, chunks and ranks, each tensor as the text of its key says, is restored: the conversion succeeds, stores only its tensors and none that are left out, has all tensors of every chunk, and every layer of every key that each chunk names for all its layers |

## Left out

- Balancing: negative lengths (lengths are token counts), and `log_seqlen_unbalance`.
- Balancing: heapq's array layout; the heap is a list from which a least state is popped.
- Micro-batches: the process group is the list of the other ranks' counts; the maximum is taken over it.
- Controller: `close`'s own history rewrite, metrics, cost display, replay internals, logging and status callbacks.
- Controller: exceptions raised by handlers outside the step, and events that arrive while another is being handled; each input is one atomic step.
- Controller: `local_iteration`, the recall type and observation contents, which no modelled branch reads.
- DelegateHistory.InitHistory: does not model fetching and filtering events from the stream, nor `state.start_id` afterwards, whose name the loop at line 1132 reuses.
- ConversationWindow.RangeMatchesWindow: says nothing about the range (0, 0) that is emitted when nothing is forgotten.
- ControllerSafety.PendingSafety: does not say that every tool call is answered; a user message replaces the pending action (line 540).
- ControllerLimits.OwnLimitIffHeadless: does not cover a session restored with a limit below one that differs from the one it was constructed with.
- MicroBatches.TokenLimitKept: one way only for rows of different lengths, where keeping the limit depends on the parts that differencing finds.
- Ulysses: gradients, asynchronous transfer, the buffers of all_gather, and the module-global group; without a group the functions return their input.
- Ulysses.AllToAllPaddedRoundTrip: rows and columns stand for the sequence and head dimensions; batch and head-size dimensions are inside the entries.
- LogProbs: numerics of the log-softmax; flash-attention's pad and unpad have their documented meaning.
- Protocol: `meta_info`, union, pop, reorder, rename, serialisation, and slices with a step.
- Protocol.PadToDivisor: the divisor is at least one; Python raises on zero.
- MemoryBuffer: integer element types, on which `torch.finfo` raises; a shape is its number of elements, and sorting by name is taken as done; `MegatronMemoryBufferForRollout`.
- Layers.NormalizePpVppParams: parameter names come parsed; splitting and joining the name strings is not modelled.
- Layers.NothingOverwritten: needs layer numbers below num_layers // pp // vpp, as the even split gives them.
- ModelMerger: loading and saving checkpoints, `_replace_name`, the comparison with a reference model, and the FSDP branch.
