# Verified models of the platform's protocols, limiters and transformations

Five groups of Dafny models, each with theorems about every input, run or interleaving.

1. **Message delivery** (`Broker`, `Delivery`, `Drain`, `Outcomes`, `Client`). The RabbitMQ queues of one routing key as a
   state machine over stored copies. `process_message` advances one `await` at a time; any number of deliveries
   are in flight; every publish, ack, reject, check, handler and mark may raise, and one that raises may still
   have taken effect. `Client` writes the consumer's methods as the source does and proves that each of them
   moves the queues along runs of the state machine, with arbitrary steps of everybody else at every `await`.
2. **The agent graph** (`Graph`, `GraphRuns`, `Reviews`, `PolicyGate`, `Repayments`, `Resends`, `SpendAccounts`, `AgentRun`). Planner, Memory,
   Simulator, Executor and Critic over one step relation in two variants: `Service` (an exception aborts the run)
   and `Wrapped` (`contracts/`, an exception becomes FAILED and the fixed edges are still followed). The language
   model, policy engine, tool router and chain answer arbitrarily. `AgentRun` is the same in place, field by field.
3. **Circuit breaker and retries** (`CircuitBreakers`, `RetryLoops`). The breaker's three fields against the
   history of everything it was told; the two loops around it against each other.
4. **Limiters** (`SlidingLog`, `SortedSetWindow`, `SpendLimits`). Each keeps a compact structure (deque, sorted
   set, counter) that is proved to agree with the whole history; the limits hold over all intervals and
   interleavings.
5. **Transformations** (`Optimizer`, `Merging`, `OnePass`, `PlanOptimizer`, `KnowledgeChunks`, `EmbeddingChunks`, `Decimal`, `Base64`,
   `StorageString`, `Fees`). The plan optimizer on values and on objects changed in place, the two text
   chunkers, the storage string of encrypted payloads with key rotation, and the gas estimate under EIP-1559.

`Common` holds the small datatypes. `dafny verify dfyconfig.toml` checks everything.

Where the code does something other than its documentation says, the model follows the code and a lemma states
exactly when the two agree:

- `contracts/execution_review.py:40` guards dispatch by a simulation result that may belong to an earlier subtask;
  a comment there says that a failed simulation never reaches the executor, but the fixed edges lead on to it
  (`PolicyGate.GatedExactlyWhen`, `PolicyGate.StaleVerdictDispatches`).
- Both graphs can send a transaction again that the chain has accepted: when a step after the receipt raises a
  transient error, the critic retries, and a new plan that begins with an equal subtask sends it once more, as often as
  there are retries (`Resends.RetrySendsAgainExactlyWhen`, `Resends.EveryRetryPaysAgain`). In `contracts/` even the old
  plan is sent again if the replan raises (`Repayments.RetryPaysAgainExactlyWhen`, `Repayments.FailedReplanPaysAgain`).
- The optimizer's docstring drops a tool that failed "every single time in recent history"; the query behind it
  counts failures only, so five failures ever drop the tool for good (`PlanOptimizer.DropsAsDocumentedExactlyWhen`).
- One optimizer pass can leave duplicate neighbours that its own reordering creates
  (`OnePass.OnePassIsEnoughExactlyWhen`).
- The contract client's retries stop early when its own failures trip the breaker (`RetryLoops.FailingCall`).
- The character chunker never returns for a text longer than one chunk with a positive overlap, the default among
  them (`EmbeddingChunks.ReturnsExactlyWhen`).
- The doubled base fee is not enough for five blocks when the base fee is under five wei (`Fees.HeadroomExactlyWhen`).

## Model

| member | source | states |
|---|---|---|
| Delivery.NoEventIsLost | infra/docker/RabbitMQ/rabbitMQ.py:210-322 | In every reachable state, under any interleaving and failures, each stored event has a copy in a queue or in flight, or its handler returned, or its id was marked processed and a handler returned for that id. |
| Delivery.NoUniqueEventIsLost | infra/docker/RabbitMQ/rabbitMQ.py:171-204 | With ids no two messages share, as uuid4 gives, the handler returned for this very message unless a copy is left. |
| Delivery.FollowReplacements | infra/docker/RabbitMQ/rabbitMQ.py:225-271 | The chain of replacement copies of a removed copy ends at one that is still there or at a handled event. |
| Delivery.StepKeepsInv | infra/docker/RabbitMQ/rabbitMQ.py:283-322 | Each step keeps that a removed copy was replaced, handled or a duplicate, and that a delivery about to ack is entitled to. |
| Delivery.HandledOnlyByDeliveriesPastCheck | infra/docker/RabbitMQ/rabbitMQ.py:288-307 | After an id is marked, however the run goes on, the handler starts for it at most once per delivery already past its check. |
| Delivery.RetriesAreBounded | infra/docker/RabbitMQ/rabbitMQ.py:235-271 | No live copy shows more than MAX_RETRIES retries, an exhausted one in the DLQ exactly one more, and at least that many attempts failed. |
| Delivery.OnlyJsonIsHandled | infra/docker/RabbitMQ/rabbitMQ.py:295-304 | In every reachable state handlers completed only for JSON bodies, and only malformed JSON was dead-lettered as poison. |
| Drain.DeliveredAtMost | infra/docker/RabbitMQ/rabbitMQ.py:235-271 | With a broker that works, each message is delivered at most MAX_RETRIES + 1 times. |
| Drain.StepLowersWeight | infra/docker/RabbitMQ/rabbitMQ.py:147-158 | With a broker that works, every step but a new publish lowers a weighted sum over the live copies. |
| Drain.QueuesDrain | infra/docker/RabbitMQ/rabbitMQ.py:147-322 | The queues drain within that many steps, and then each message was handled, was a duplicate, or is in the DLQ. |
| Outcomes.JsonIsHandled | infra/docker/RabbitMQ/rabbitMQ.py:283-310 | An undisturbed delivery of a JSON message that is not marked runs the handler, marks the id if there is one and a marker, and acks; nothing else changes. |
| Outcomes.DuplicateIsAcknowledged | infra/docker/RabbitMQ/rabbitMQ.py:288-292 | A marked message is acked without its handler being run. |
| Outcomes.PoisonIsDeadLettered | infra/docker/RabbitMQ/rabbitMQ.py:210-232 | A malformed message is dead-lettered as poison at once, however many retries are left, and its copy acked. |
| Outcomes.FailureIsRetried | infra/docker/RabbitMQ/rabbitMQ.py:235-266 | A delivery whose check, decoding, handler or mark failed replaces its copy by one with one retry more, in the retry queue up to MAX_RETRIES and in the DLQ beyond, and acks it. |
| Outcomes.UnreplacedIsRequeued | infra/docker/RabbitMQ/rabbitMQ.py:268-271 | When the replacement cannot be published the copy goes back to the main queue as it was. |
| Outcomes.FailsExactlyWhen | infra/docker/RabbitMQ/rabbitMQ.py:283-322 | A delivery turns to its failure handler exactly when its operation raised in the outer try, undecodable bytes included. |
| Outcomes.RetriesNeedFailures | infra/docker/RabbitMQ/rabbitMQ.py:235-271 | In every run a copy shows no more retries than operations of its message failed, counted from the events, and an exhausted one has seen at least MAX_RETRIES + 1 fail. |
| Outcomes.StartsAfterMark | infra/docker/RabbitMQ/rabbitMQ.py:288-307 | Counted from the events: after a mark any rest of a run starts the handler for the id at most once per delivery past its check. |
| Outcomes.DeliveriesAreBounded | infra/docker/RabbitMQ/rabbitMQ.py:235-271 | Counted from the events: with a working broker a message is delivered at most MAX_RETRIES + 1 times. |
| Client.RabbitMQClient.Publish | infra/docker/RabbitMQ/rabbitMQ.py:183-204 | A confirmed publish appended exactly one fresh copy to the main queue; an unconfirmed one did that or nothing. |
| Client.RabbitMQClient.RouteToDlqExplicitly | infra/docker/RabbitMQ/rabbitMQ.py:210-232 | Ends its delivery, or raises into the caller's failure handler, along runs of the model whatever others do meanwhile. |
| Client.RabbitMQClient.PublishCopy | infra/docker/RabbitMQ/rabbitMQ.py:253-261 | The copy published is the retry or dead-letter copy the protocol demands, and is stored if the publish did not raise. |
| Client.RabbitMQClient.HandleFailure | infra/docker/RabbitMQ/rabbitMQ.py:235-271 | Acks only after the replacement was published, otherwise rejects; always ends the delivery along a run of the model. |
| Client.RabbitMQClient.ProcessMessage | infra/docker/RabbitMQ/rabbitMQ.py:283-322 | Refines the state machine under interference, so when it ends no event is lost. |
| Client.RabbitMQClient.TryProcess | infra/docker/RabbitMQ/rabbitMQ.py:288-310 | The try block ends the delivery without raising only for a message handled in this delivery, marked, or malformed, and else raises into the failure handler. |
| GraphRuns.EveryRunEnds | contracts/agent_graph.py:83-121 | Every run ends for all plans and answers: wrapped runs DONE or FAILED, service runs that or aborted by an exception. |
| GraphRuns.StepLowersRank | services/agent-orchestrator/src/graph/langgraph_flow.py:15-56 | Each step lowers (retries left, planner next, subtasks left, node) lexicographically, in both variants. |
| GraphRuns.ProgressIsSound | services/agent-orchestrator/src/agents/critic.py:29-40 | Executor passes increase in (retry_count, index), confirmations in (plan, index), and a done run confirmed every subtask of its final plan. |
| GraphRuns.StepKeepsProgress | contracts/execution_review.py:107-129 | Each step keeps it, also when a replan fails and the old plan goes on. |
| GraphRuns.RetriesAreBounded | contracts/execution_review.py:119-126 | Over any run at most max_retries retries, and at most one plan more than that, whatever happens. |
| AgentRun.Run.Plan | contracts/planning_pipeline.py:94-118 | The planner adopts a plan of known tools and resets the index, or raises leaving the whole state untouched. |
| AgentRun.Run.Simulate | contracts/planning_pipeline.py:210-247 | A raise leaves the whole state untouched, except that the wrapped variant raises on a rejection after recording it. |
| AgentRun.Run.Execute | services/agent-orchestrator/src/agents/executor.py:21-67 | Dispatches nothing without a passing simulation, and otherwise only the current subtask of the current plan; confirmed means a confirmation of it is on record. |
| AgentRun.Run.Dispatch | services/agent-orchestrator/src/agents/executor.py:37-67 | Confirmed if and only if the receipt succeeded and neither recording nor, in the service, logging raised; what it does to the outside for each point at which it may raise. |
| AgentRun.Run.Criticize | services/agent-orchestrator/src/agents/critic.py:20-62 | The index moves only for a confirmed execution with subtasks left, the retry count only for a transient failure and within max_retries. |
| AgentRun.Run.Advance | contracts/agent_graph.py:37-80 | One node, its exception aborting the run or becoming FAILED, and the edge that follows; the run's rank falls. |
| AgentRun.Run.Invoke | contracts/agent_graph.py:83-143 | The compiled graph's loop terminates, ends done, failed or aborted, done means the whole final plan was confirmed, and in the service every dispatch was gated. |
| Reviews.PassReports | services/agent-orchestrator/src/agents/executor.py:37-67 | A pass that was let through leaves exactly the text that was raised, at whatever point, "Transaction reverted" for a failed receipt, and no error for a confirmed one. |
| Reviews.FailedPassRetriesExactlyWhen | services/agent-orchestrator/src/agents/critic.py:29-62 | A failed pass goes back to the planner if and only if its text contains one of the transient texts and a retry is left; otherwise the run ends failed and no retry is used up. |
| Reviews.RevertedIsRetried | services/agent-orchestrator/src/agents/critic.py:36-38 | A failed receipt is retried whenever a retry is left. |
| Reviews.ConfirmedPassMovesOn | services/agent-orchestrator/src/agents/critic.py:31-35 | A confirmed pass moves on to the next subtask, or ends the run as done after the last. |
| Reviews.PlannerAdoptsExactlyWhen | contracts/planning_pipeline.py:94-150 | A reply is adopted if and only if it is a plan of known tools, in contracts/ also not empty, with actions and within capabilities; otherwise the service aborts and contracts/ goes on with the old plan. |
| Reviews.SimulatorRecords | services/agent-orchestrator/src/agents/simulator.py:22-48 | The verdict recorded is the policy engine's about the current subtask, or stays what it was when something before raised. |
| PolicyGate.EveryDispatchIsGated | services/agent-orchestrator/src/agents/executor.py:21-45 | In every service run each dispatch directly follows, in its own pass, a passed check of the same plan and index. |
| PolicyGate.GatedExactlyWhen | contracts/execution_review.py:35-60 | In a whole run of either graph every dispatch is so gated if and only if in no pass the simulator of contracts/ raised over a stale passing verdict and the executor dispatched. |
| PolicyGate.PolicyRejectionEndsTheRun | services/agent-orchestrator/src/agents/critic.py:29-62 | A rejection is followed by no dispatch and no retry; the run ends as failed in both variants, or aborted if the service's critic cannot write its log. |
| PolicyGate.OnlyKnownToolsAreDispatched | services/agent-orchestrator/src/agents/planner.py:53-64 | No tool outside the catalog is dispatched, whatever the language model plans. |
| PolicyGate.PassGatedExactlyWhen | contracts/execution_review.py:35-60 | A pass dispatches unchecked if and only if it runs in contracts/, its simulator raised before a verdict, an earlier passing verdict is still there, and dispatch is reached. |
| PolicyGate.StaleVerdictDispatches | contracts/planning_pipeline.py:217-221 | Such a run exists: a second subtask whose call cannot be resolved is dispatched on the first one's verdict. |
| Repayments.ServiceNeverPaysAgain | services/agent-orchestrator/src/agents/executor.py:37-67 | In every service run no position of a plan, told by plan number and index, is dispatched again after its receipt succeeded, even if recording the spend or writing the log raised. |
| Repayments.PaidAgainExactlyWhen | contracts/agent_graph.py:44-80 | In a whole run of either graph a position of a plan is dispatched again after its receipt if and only if some dispatch happens after a receipt that was not confirmed and before a new plan is adopted. |
| Repayments.RetryPaysAgainExactlyWhen | contracts/execution_review.py:56-89 | In contracts/ the retry after a successful receipt dispatches the same position of the same plan if and only if recording raised a transient error with a retry left, the replan raised, the simulator did not reject, and dispatch is reached. |
| Repayments.FailedReplanPaysAgain | contracts/planning_pipeline.py:94-118 | Such runs exist for any transient error: recording raises it, the replan fails, and the same transaction is dispatched a second time. |
| Resends.RetrySendsAgainExactlyWhen | services/agent-orchestrator/src/agents/critic.py:29-62 | In either variant, after a pass whose receipt succeeded, the retry's pass dispatches an equal subtask if and only if the pass ended in an unconfirmed transient failure with a retry left, the new plan begins with that subtask or in contracts/ the replan raised, and memory, simulator and executor let the pass through to dispatch. |
| Resends.EveryRetryPaysAgain | services/agent-orchestrator/src/agents/executor.py:37-67 | For any acceptable subtask, any transient error and any retry limit there is a run of either variant that has the transaction accepted once for the first plan and once more for every retry, each replan listing the subtask once. |
| Resends.PaymentsAreBounded | services/agent-orchestrator/src/graph/langgraph_flow.py:15-56 | In every run of either variant in which no plan lists a subtask more than c times, at most c * (max_retries + 1) transactions are accepted for it, whatever raises. |
| SpendAccounts.SpendIsAccountedFor | services/agent-orchestrator/src/agents/executor.py:37-67 | Over any run with non-negative amounts, confirmed total ≤ recorded total ≤ receipts total (twice that in contracts/, whose recording is retried). |
| SpendAccounts.RecordedAsOftenAsRetried | contracts/execution_review.py:73-79 | The factors are attained: recording that takes effect at every try of its retry loop puts a receipt on record once in the service and twice in contracts/. |
| SpendAccounts.TotalOfAttempt | contracts/execution_review.py:48-100 | What one attempt adds to receipts, records and confirmations, also when recording or logging raises. |
| CircuitBreakers.CircuitBreaker.Allow | blockchain/smart_contract_integration/blockchain_client.py:225-233 | Refuses exactly when the history has enough failures since the last success, no probe since the last failure and no timeout; keeps fields equal to what the history says. |
| CircuitBreakers.CircuitBreaker.RecordSuccess | blockchain/smart_contract_integration/blockchain_client.py:235-237 | Keeps fields and history in agreement. |
| CircuitBreakers.CircuitBreaker.RecordFailure | blockchain/smart_contract_integration/blockchain_client.py:239-243 | Keeps fields and history in agreement, including the time of the last failure. |
| CircuitBreakers.LetThroughAfterTimeout | contracts/resilience.py:48-56 | After a tripping failure a caller is let through exactly when it or an earlier caller asked once the timeout had passed. |
| CircuitBreakers.Extend | contracts/resilience.py:58-65 | How one event changes failure count, last failure time and probe state of the history. |
| RetryLoops.ContractClient.Call | blockchain/smart_contract_integration/blockchain_client.py:350-384 | Result, number of RPCs, breaker history and clock are those of the specification for every environment. |
| RetryLoops.FailingCall | blockchain/smart_contract_integration/blockchain_client.py:350-384 | With failing RPCs and a breaker in any state: the exact number of RPCs and the exact error, for every backoff and timeout. |
| RetryLoops.CallSucceedsExactlyWhen | blockchain/smart_contract_integration/blockchain_client.py:350-384 | In every environment `call` returns a value if and only if the breaker lets it in, some attempt returns it after failures only, and the breaker is not open by then or the sleep after the failure that opened it outlasts its timeout. |
| RetryLoops.CallRevertsExactlyWhen | blockchain/smart_contract_integration/blockchain_client.py:365-371 | The same for a call that raises the contract's own refusal. |
| RetryLoops.CallTellsBreaker | blockchain/smart_contract_integration/blockchain_client.py:326-384 | After a call the breaker's count is zero for a success, one more per failed RPC, unchanged by a refusal of the contract, and one more for a missing provider. |
| RetryLoops.WithRetry | contracts/resilience.py:68-91 | Consults the breaker once, then reports every call to it: a success leaves it closed with count zero, otherwise the count grew by the calls; calls, sleeps and result are those of the specification. |
| RetryLoops.RetryTellsBreaker | contracts/resilience.py:75-90 | The loop tells one failure per failed call and, if it returns, one success at the end; it ends after its calls' durations and its sleeps. |
| RetryLoops.RetriesUntilSuccess | contracts/resilience.py:68-91 | Calls until the first success or max_retries calls, with total backoff base * (2^(calls-1) - 1). |
| RetryLoops.BackoffsArePowers | contracts/resilience.py:84-88 | The n-th backoff is base * 2^(n-1), the first n together base * (2^n - 1). |
| RetryLoops.OnlyCallStopsEarly | contracts/resilience.py:72-91 | On failing calls `with_retry` always makes all attempts, `call` fewer exactly when the breaker trips and outlasts the sleep. |
| SlidingLog.DequeIsFilteredHistory | shared/api/rate_limit.py:16-33 | A client's deque is its accepted history filtered to the window of its last request. |
| SlidingLog.RejectedExactlyWhenFull | shared/api/rate_limit.py:21-30 | A request is rejected if and only if the window ending with it holds `limit` accepted ones. |
| SlidingLog.LimitHoldsEverywhere | shared/api/rate_limit.py:16-34 | Every closed interval of the window's length holds at most `limit` accepted requests per client. |
| SlidingLog.InMemoryRateLimiter.Dispatch | shared/api/rate_limit.py:16-34 | The popping loop computes that decision and leaves that deque, and the limit holds after every request. |
| SortedSetWindow.LimitHoldsInEveryWindow | services/guardrail-service/src/abuse_detection.py:31-46 | Any window_seconds consecutive seconds hold at most max_requests accepted ones, and a request is rejected exactly when its window is full. |
| SortedSetWindow.AddKeepsCounting | services/guardrail-service/src/abuse_detection.py:44 | The member made from second and count is new, and the set goes on counting what went through. |
| SortedSetWindow.MemberNamesDiffer | services/guardrail-service/src/abuse_detection.py:44 | Members with equal names "now:count" have equal second and count. |
| SortedSetWindow.ExpiryDropsNothing | services/guardrail-service/src/abuse_detection.py:45 | Key expiry never removes an entry that would still count. |
| SortedSetWindow.RejectedExactlyWhenFull | services/guardrail-service/src/abuse_detection.py:37-42 | What ZCARD counts after trimming decides exactly by what went through in the window. |
| SortedSetWindow.AbuseDetectionService.CheckRateLimit | services/guardrail-service/src/abuse_detection.py:31-46 | The four Redis commands are one step of the model. |
| SpendLimits.SpendLimitsService.Check | services/wallet-service/src/spend_limits.py:28-49 | Allowed if and only if configured, within the transaction limit and within what is left today; the reason and remainder given. |
| SpendLimits.SpendLimitsService.RecordSpend | services/wallet-service/src/spend_limits.py:51-59 | What the agent has spent today grows by the amount and its counter's expiry is renewed; every other counter, and what any other agent has spent, stays. |
| SpendLimits.CountsUntilMidnight | services/wallet-service/src/spend_limits.py:55-71 | A recorded spend counts until the end of its UTC day of 86400 seconds and not after, whenever it is recorded. |
| SpendLimits.DailyBudgetHolds | services/wallet-service/src/spend_limits.py:28-71 | With at most k open approvals, spent today plus outstanding ≤ daily + (k-1) per-transaction (or daily, if lower) limits under any interleaving and midnights; the counter equals the day's recorded sum. |
| SpendLimits.StepKeepsCounters | services/wallet-service/src/spend_limits.py:58 | The 86400-second expiry never drops a counter inside its own UTC day. |
| SpendLimits.BudgetIsReachedExactlyWhen | services/wallet-service/src/spend_limits.py:28-59 | For limits that are not negative some run attains the bound, for every k, if and only if the transaction limit is positive or the daily limit is zero. |
| Optimizer.TwoPassesReachNormalForm | services/ai_reasoning/planning_optimizer.py:14-18 | Two passes (with the drop step, whatever tools fail) equal drop, reorder, merge once; the result is a fixed point. |
| OnePass.OnePassIsEnoughExactlyWhen | services/ai_reasoning/planning_optimizer.py:14-18 | One pass reaches the normal form if and only if the plan has no two mergeable subtasks whose tool survives the drop step and between which there are others, all of them dropped or on the other side of the reordering. |
| OnePass.DuplicatesExactlyAtGaps | services/ai_reasoning/planning_optimizer.py:20-55 | For any selection by tool, what it selects from a merged plan has mergeable neighbours exactly when the plan has two mergeable selected subtasks separated by unselected ones only. |
| Optimizer.OnePassIsNotEnough | services/ai_reasoning/planning_optimizer.py:46-55 | A price check between two equal swaps leaves them unmerged after one pass and merged after two. |
| Optimizer.MergeOfParts | services/ai_reasoning/planning_optimizer.py:20-36 | Merging merged parts gives the merge of the whole; merging is idempotent. |
| Optimizer.MergeChangesOnlyDuplicates | services/ai_reasoning/planning_optimizer.py:20-44 | The result has no two mergeable neighbours, and only plans with some are changed. |
| Optimizer.MergeKeepMerge | services/ai_reasoning/planning_optimizer.py:46-55 | Merging before selecting by tool makes no difference after the next merge. |
| Merging.MergeableExactlyWhen | services/ai_reasoning/planning_optimizer.py:38-44 | Two subtasks are mergeable if and only if tool and action are equal and they agree on asset, token_in, token_out and protocol, each given with the same value in both or in neither. |
| Merging.MergeIsRunByRun | services/ai_reasoning/planning_optimizer.py:20-36 | A run of neighbours of one kind becomes its first subtask with the run's amounts added up, a missing one counting 0; a run of one stays as it is. |
| Merging.MergeChangesOnlyNeighboursAlike | services/ai_reasoning/planning_optimizer.py:20-44 | A merged plan has no neighbours of one kind, and only a plan that has some is changed. |
| Merging.ReorderPutsReadsFirst | services/ai_reasoning/planning_optimizer.py:46-55 | Reordering keeps the subtasks, puts price_feed_tool and oracle_tool first, and keeps the order on both sides. |
| Merging.AmountsAreConserved | services/ai_reasoning/planning_optimizer.py:33 | One pass keeps the amount_usd total of each kind of subtask, unless it drops that tool while another one is left. |
| PlanOptimizer.MergeDuplicateActions | services/ai_reasoning/planning_optimizer.py:20-36 | The loop over the plan's objects, updating the previous one in place, leaves the objects holding the merged plan. |
| PlanOptimizer.DropKnownFailures | services/ai_reasoning/planning_optimizer.py:57-77 | The loop keeps exactly the tasks of tools without five recorded failures, or the whole plan when none is left. |
| PlanOptimizer.OptimizePlan | services/ai_reasoning/planning_optimizer.py:14-18 | The three phases leave the plan's objects holding the optimized plan; none is new. |
| PlanOptimizer.KnownFailureIsForever | services/ai_reasoning/long_term.py:76-92 | A tool counts as failing exactly when five failures are on record, and then for ever. |
| PlanOptimizer.DropsAsDocumentedExactlyWhen | services/ai_reasoning/planning_optimizer.py:57-71 | Dropping matches "the last five attempts all failed" if and only if there are fewer than five failures or none of the last five attempts succeeded. |
| PlanOptimizer.SuccessDoesNotUndrop | services/ai_reasoning/planning_optimizer.py:64-70 | A dropped tool stays dropped after a success. |
| KnowledgeChunks.ChunkText | services/ai_reasoning/kanowledge_base.py:70-77 | The loop returns a chunk of up to 1500 characters at every multiple of 1300 inside the text, and no other. |
| KnowledgeChunks.NumberOfChunks | services/ai_reasoning/kanowledge_base.py:70-77 | There are ceil(length / 1300) chunks. |
| KnowledgeChunks.ChunksJoinToText | services/ai_reasoning/kanowledge_base.py:70-77 | Without their overlaps the chunks are the text. |
| KnowledgeChunks.PassageInOneChunkExactlyWhen | services/ai_reasoning/kanowledge_base.py:74-76 | A passage lies inside some chunk if and only if its offset in its stride plus its length is at most 1500. |
| KnowledgeChunks.ShortPassagesAreNotCut | services/ai_reasoning/kanowledge_base.py:74-76 | Every passage of up to 201 characters appears whole in a chunk. |
| KnowledgeChunks.LongerPassagesCanBeCut | services/ai_reasoning/kanowledge_base.py:74-76 | 201 is sharp for every text longer than one chunk. |
| KnowledgeChunks.LastChunkRepeatsExactlyWhen | services/ai_reasoning/kanowledge_base.py:73-76 | The last chunk adds nothing to the one before exactly when it is no longer than the overlap. |
| EmbeddingChunks.ChunkTokens | services/ai_reasoning/embedding.py:218-235 | A short text is returned whole; otherwise the chunks are the decoded parts of a partition of its tokens, all parts of 8191 tokens less the overlap (8191 for an overlap as large) but the last. |
| EmbeddingChunks.ChunksJoinExactlyWhen | services/ai_reasoning/embedding.py:228-235 | The chunks stay the decoded text of the tokens so far, at every border, if and only if decoding splits at every border. |
| EmbeddingChunks.TokenChunksJoinToText | services/ai_reasoning/embedding.py:228-235 | With a tokenizer that reads back what it wrote, and borders at which decoding splits, the chunks concatenate to the text. |
| EmbeddingChunks.WithinLimitExactlyWhen | services/ai_reasoning/embedding.py:219-226 | All chunks respect the 8191 limit if and only if the overlap is not negative or the text is short. |
| EmbeddingChunks.ReturnsExactlyWhen | services/ai_reasoning/embedding.py:202-216 | The character fallback returns if and only if the text fits (or is empty), or the overlap is at most 0 and less than the chunk size. |
| EmbeddingChunks.DefaultsNeverReturnForLongTexts | services/ai_reasoning/embedding.py:74-75 | With the default settings it returns exactly for texts of up to 80000 characters. |
| EmbeddingChunks.ChunkCharacters | services/ai_reasoning/embedding.py:202-216 | For all texts and settings: the chunks are the slices at the loop's successive starts, up to the first past the end; still running after some turns exactly when no start so far is past the end. |
| EmbeddingChunks.SplitJoinsToText | services/ai_reasoning/embedding.py:208-216 | With overlap 0 the chunks concatenate to the text and fit. |
| EmbeddingChunks.NegativeOverlapSkips | services/ai_reasoning/embedding.py:213 | With a negative overlap that many characters are skipped between chunks. |
| Decimal.PrintedParses | services/wallet-service/src/encryption.py:28-36 | int() reads back every printed whole number, negative ones included. |
| Decimal.OtherSpellings | services/wallet-service/src/encryption.py:36 | Signs and single underscores between digits are read, two underscores in a row are not. |
| Base64.RoundTrip | services/wallet-service/src/encryption.py:28-35 | Section 4 of RFC 4648: decoding undoes encoding for all bytes; the encoding has no colon and four letters per three bytes begun. |
| Base64.OthersAreSkipped | services/wallet-service/src/encryption.py:34-35 | The non-validating decoder's answer depends only on the alphabet and padding characters of its input. |
| Base64.TestVectors | services/wallet-service/src/encryption.py:28 | Bit order and padding agree with test vectors of section 10 of RFC 4648, and with the last two letters. |
| Base64.Alphabet | services/wallet-service/src/encryption.py:28 | The letters are those of Table 1 of RFC 4648 in its order. |
| StorageString.StoredIsReadBack | services/wallet-service/src/encryption.py:26-37 | from_storage_string undoes to_storage_string for every version, nonce and ciphertext. |
| StorageString.PartsOfStored | services/wallet-service/src/encryption.py:28 | The stored parts are, in this order, the version in decimal, the nonce and the ciphertext in base64. |
| StorageString.ReadsParts | services/wallet-service/src/encryption.py:31-37 | Any string with two colons is read part by part in that order, and refused exactly when a part cannot be read. |
| StorageString.RefusesFewerParts | services/wallet-service/src/encryption.py:32 | A string with fewer than two colons is refused. |
| StorageString.OneStringPerPayload | services/wallet-service/src/encryption.py:26-28 | Different payloads are stored as different strings. |
| StorageString.ReadIsStoredAgain | services/wallet-service/src/encryption.py:26-37 | Whatever is read from a string, however it is spelt, is read back after being stored again. |
| StorageString.OldKeysStay | services/wallet-service/src/encryption.py:53-62 | Rotations that do not reuse a version leave its key, or the error for it, as it was. |
| StorageString.KeyUsableExactlyWhen | services/wallet-service/src/encryption.py:53-62 | A version's key is usable if and only if DEK_V with that version is set to base64 of exactly 32 bytes. |
| StorageString.EncryptsWithCurrentKey | services/wallet-service/src/encryption.py:69-91 | An encrypted text carries the current version and the nonce, sealed with the current key; there is none exactly without that key or for a text that cannot be encoded. |
| StorageString.DecryptsExactlyWhen | services/wallet-service/src/encryption.py:79-95 | Decryption gives a text exactly when the string is read, the key of its version is usable and opens it with the same associated data, and the result is that text. |
| StorageString.DecryptsWithTheKeyOfItsVersion | services/wallet-service/src/encryption.py:69-95 | Decryption gives the text if the key of the encrypting version is unchanged, and that key's own error if it is missing or malformed. |
| StorageString.ReadableAfterRotations | services/wallet-service/src/encryption.py:69-95 | decrypt_string undoes encrypt_string after any number of rotations that keep the old key. |
| Fees.MedianLiesWithMajority | services/risk-policy-engine/src/gas_optimizer.py:52-57 | The median lies in every range that holds a strict majority of the values. |
| Fees.MedianIsMiddle | services/risk-policy-engine/src/gas_optimizer.py:52-57 | However the values are put in order, the median is the middle one of an odd number, and half the sum of the two middle ones, rounded down, of an even number. |
| Fees.MedianReflects | services/risk-policy-engine/src/gas_optimizer.py:52-57 | The median of the negated values is the negated median, but for rounding. |
| Fees.SortSorts | services/risk-policy-engine/src/gas_optimizer.py:53 | Sorting gives the same values in ascending order. |
| Fees.EmptyBlockLowers | services/risk-policy-engine/src/gas_optimizer.py:33-35 | By the same update an empty block lowers the base fee by an eighth and a block filled to its target leaves it. |
| Fees.FiveBlocksAtMostDouble | services/risk-policy-engine/src/gas_optimizer.py:33-35 | By the base-fee update of EIP-1559, five blocks of any fill at most double a base fee of at least 5 wei. |
| Fees.HeadroomExactlyWhen | services/risk-policy-engine/src/gas_optimizer.py:22-47 | The estimate pays its full priority fee through any five further blocks if and only if the next base fee is at least 5 wei. |
| Fees.EstimateSays | services/risk-policy-engine/src/gas_optimizer.py:25-47 | The priority fee is the middle of the blocks' first rewards or 1.5 gwei without any, the maximum fee exceeds it by exactly twice the next base fee, and the cost is the maximum fee times the gas limit. |
| Fees.SixBlocksCanExceed | services/risk-policy-engine/src/gas_optimizer.py:35 | Six full blocks more than double some, arbitrarily large base fees. |
| Fees.PriorityFollowsMajority | services/risk-policy-engine/src/gas_optimizer.py:30-31 | The priority fee lies in every range where more than half of the sampled blocks paid. |

## Left out

- Message headers written by other publishers: a retry_count that is not an integer or is negative.
- The prefetch limit, channel reconnects, and unroutable publishes; one queue per routing key, no topic fan-out.
- Metrics and logging calls: they never raise in these models, except the two log writes the executor and critic await.
- A decode error that is neither malformed JSON nor invalid UTF-8 is not told apart from the latter.
- The contents of context, gas, slippage and risk scores, retrieval and embeddings: the graph's control flow does not read them.
- LangGraph's recursion limit, the service layer around a run, and what `dispatch` does inside the tool router.
- The catalog of tools a capability check would read in `contracts/`: whether a plan is within an agent's capabilities is an arbitrary answer.
- Amounts, limits, times and backoffs are exact; floating-point rounding is not modelled, nor are NaN and infinities.
- A breaker shared by calls that run at the same time: events reach it one after another, each loop alone with it.
- RetryLoops.ContractClient.Call: exceptions in logging and metrics after a successful RPC, which the source would count as failures.
- RetryLoops.WithRetry: the wrapped function's arguments and the text of the last error.
- The four Redis commands of one request of the sorted-set limiter are one step; the theorems are about requests handled one at a time.
- SpendLimits.SpendLimitsService.RecordSpend: the key's day and the time of the increment are read from one clock reading.
- Eviction and failure of Redis, and clock readings before 1970.
- PlanOptimizer.MergeDuplicateActions: one task object listed twice in a plan; the source would merge it into itself.
- PlanOptimizer.OptimizePlan: likewise, one task object listed twice in a plan; plans parsed from JSON share none.
- PlanOptimizer.DropKnownFailures: the record does not change between its queries, and subtasks without a tool or params key, which raise in the source.
- EmbeddingChunks.ChunkCharacters: is given a number of turns, because the source's loop does not end for all settings; None stands for still running. The whitespace check before chunking is left to callers.
- Tokenizers, byte-level ones among them, are any pair of functions; which tokens end inside a character is not modelled.
- A subtask's parameters other than amount_usd: subtasks of the agent graph are equal when tool, action and amount are.
- Decimal.PrintedParses: int() also reads non-ASCII digits and spaces and refuses very long texts.
- AES-GCM and UTF-8 are any functions that satisfy the two laws of `Lawful`; an error of the cipher for a malformed nonce is not told apart from a failed authentication.
- Fees.HeadroomExactlyWhen: assumes gas limits of at least 5000, the protocol's minimum; the estimate in dollars and the percentile per urgency are left out.
- HTTP gateways, user interfaces, deployment, notification channels, the bridge contracts, human approvals, session keys and the wallet transaction queue.
