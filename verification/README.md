# LinkSense: a verified model

LinkSense monitors networks with agents that measure, aggregate per minute and forward to a
central server. This project models the parts of it that are protocols or non-trivial loops and
proves what they keep, over every run where a run is what matters.

| file | part of the system |
|---|---|
| `Wrappers.dfy` | `Option` and `Result` |
| `AgentTables.dfy`, `AgentDatabase.dfy` | the agent's aggregate tables and send queue: what each SQL statement does, and the database object that executes them |
| `ServerStore.dfy` | the server's tables, the all-or-nothing batch and the metrics handler |
| `Delivery.dfy`, `DeliveryTheorems.dfy`, `DeliveryFaults.dfy`, `DeliveryRounds.dfy` | store-and-forward delivery as a state machine of agent, network and server, its invariant, and what follows for every run; exactly which faults spoil a batch, and for which entries; a round of the machine beside the call of the database object |
| `RateLimiter.dfy` | the sliding-window rate limiter |
| `BandwidthSlot.dfy`, `BandwidthTask.dfy` | the bandwidth-test coordinator and the agent's retry loop against it |
| `Scheduler.dfy`, `Aggregation.dfy`, `RawRows.dfy` | overrun guard, metrics buffer and flushes; aggregation windows and the ping aggregate; which raw rows end up in an aggregate |
| `HttpReader.dfy`, `HttpFraming.dfy` | the header loop, the body framing and the chunked-body loop of the HTTP timing probe; the framing of RFC 9112 on the field lines beside it |
| `SqlJson.dfy` | row collection and JSON truncation of the SQL probe |
| `ConfigCache.dfy` | the server's read-through configuration cache with file-change events |
| `Health.dfy` | the health check's period, its received and its expected counts |

Where the source updates an object in place, the model is a class whose methods are proved
against specification functions; the state machines use the same functions, so what is proved
about runs is about what the methods do. A contract also says entry by entry what a call does,
without those functions, and a lemma gives the laws of every function that a contract rests on:
what it is for one element and how it adds up. Clock readings, the answers of the network and the
contents of files are parameters or events. Integer arithmetic that can overflow is that of a release
build, which wraps around; `usize` has 64 bits.

How the delivery machine is cut into steps: every SQL statement, every transaction and every
message is one atomic step, and a crash may come between any two, so also between storing an
aggregate row and enqueueing it. An error in an aggregation or a flush ends the agent's main loop
(`agent/src/main.rs:261-265`), which is the same as a crash. The network may deliver a request
after the agent gave up on it or restarted, at most once; an answer reaches the agent only while
it waits for it. Theorems are about one arbitrary agent, the others are an environment that
commits anything under its own id. `History` is a record no step reads.

## Where code and documentation disagree

- `README_BANDWIDTH_IMPLEMENTATION.md` (lines 11 and 50) promises a first-in-first-out queue whose
  first agent starts when a test completes or times out. In the code a timeout gives the slot to
  whoever asks next (`BandwidthSlot.TimeoutServesRequester`), and an agent that asks again while it
  waits goes to the tail (`BandwidthSlot.AskingAgainMovesToTail`).
- Line 10 of the same file promises that only one agent performs a test at a time. The slot is free
  again before the data is streamed, so two agents can stream at once
  (`BandwidthSlot.TwoAgentsStream`; the exact condition is `BandwidthSlot.OneStreamIff`).
- The same file (line 24) gives the download the full task timeout; the code gives it what the
  retry loop left over (`BandwidthTask.AcquireSlot`).
- The delay formula of that file holds only while truncation to `u32` is harmless
  (`BandwidthSlot.DelayIsDocumented`). With the default settings a queued agent never waits: the
  first delay it is told reaches its timeout, so it gives up (`BandwidthTask.DefaultsNeverRetry`).
- The reader departs from section 6.3 of RFC 9112 in several ways: a positive Content-Length
  overrides a chunked coding, a Content-Length of zero counts as none, a list of equal lengths is
  not understood, invalid or conflicting lengths are no error, the words of a chunked coding count
  in any line and at any place (`HttpFraming.WordsInAnotherField`), and a coding on a folded line
  is not seen (`HttpFraming.FoldedCodingEscapes`). The exact conditions are
  `HttpFraming.FramingIsStandardIff` and, for sections without folded lines,
  `HttpFraming.UnfoldedFramingIsStandardIff`.
- The scheduler's comment at `agent/src/scheduler.rs:458-470` expects a failed flush to leave
  metrics in the buffer; the buffer was already taken, so the rest of it is lost
  (`Scheduler.FailedWriteDropsRest`).
- The comment at `agent/src/scheduler.rs:596-598` says that all raw metrics of the previous minute
  are aggregated. A result that is still on its way when its minute is aggregated is stored later and
  never counted (`RawRows.RowsAreCountedIffInTime`).
- The health check compares with a count that a task which is always on time reaches only if the
  check interval is as good as its whole minutes (`Health.SlowTaskMeetsExpectationIff`).
- The comment at `agent/src/main.rs:317` reads as if marking entries as sending prevented double
  delivery. A lost answer still makes every later batch with such an entry fail, for as long as
  the server keeps the row (`DeliveryTheorems.LostResponsePoisons`, `PoisonedForever`).

## Model

| member | source | states |
|---|---|---|
| AgentTables.EnqueueAfterStore | agent/src/database/db_queue.rs:189-206 | a row that was just stored has an id no queue entry has, so INSERT OR IGNORE always inserts, and inserts exactly one pending entry |
| AgentTables.StoreAndEnqueueKeepsTables | agent/src/database.rs:364-417 | storing and enqueueing keeps the table invariant: unique keys, ids below the counters, no entry that resolves to a row of another task or period |
| AgentTables.ResolveComplete | agent/src/database/db_queue.rs:482-508 | every fetched entry whose row exists is in the batch, with that row |
| AgentTables.BatchKeysDistinct | agent/src/database/db_queue.rs:482-508 | the metrics of a fetched batch have pairwise distinct server keys, so a batch cannot conflict with itself |
| AgentTables.BackoffIsCappedPower | agent/src/database/db_queue.rs:340-348 | the backoff is min(2^n, 60) minutes if and only if n is at most 30; beyond that i32 overflow makes it non-positive |
| AgentTables.BackoffNeverShrinks | agent/src/database/db_queue.rs:340-348 | up to n = 30 the backoff is between 1 and 60 minutes and never shrinks |
| AgentTables.BackoffSafeForConfig | agent/src/database/db_queue.rs:305-367 | every backoff a configuration can ask for is the intended one if and only if max_retries is at most 31 |
| AgentDatabase.Database.StoreAndEnqueue | agent/src/database.rs:364-417 | a supported metric replaces exactly the row with its key by a fresh one and gets exactly one pending entry; any other is refused without a change |
| AgentDatabase.Database.StoreAggregatedMetric | agent/src/database/db_ping.rs:181-208 | INSERT OR REPLACE with an AUTOINCREMENT id; answers that id |
| AgentDatabase.Database.EnqueueMetricForSend | agent/src/database/db_queue.rs:167-215 | an unknown type is refused; a row that has an entry keeps it, any other gets one new entry that is due at once; no entry is touched |
| AgentDatabase.Database.GetPendingQueueEntries | agent/src/database/db_queue.rs:217-249 | at most `limit` distinct pending entries that are due, oldest first, and none left out is older than one listed |
| AgentDatabase.Database.GetQueuedMetrics | agent/src/database/db_queue.rs:482-508 | the batch is the listed entries whose row exists, each once, with that row and oldest first; exactly the others leave the queue and nothing else changes; a type this build cannot load fails the fetch after the entries before the first such entry were handled |
| AgentDatabase.Database.MarkAsSending | agent/src/database/db_queue.rs:252-275 | each listed entry becomes sending with the time and nothing else of it changes, no other entry changes, and no fetch at any time finds a listed one |
| AgentDatabase.Database.MarkAsSent | agent/src/database/db_queue.rs:278-302 | each listed entry becomes sent with the time and nothing else of it changes, no other entry changes, no fetch finds a listed one again, and retention may take its row |
| AgentDatabase.Database.MarkAsFailed | agent/src/database/db_queue.rs:305-367 | one more retry at the given time: failed once the count reaches max_retries, otherwise pending until the end of its backoff; no other entry changes; an unknown id is an error |
| AgentDatabase.Database.RecordFailures | agent/src/main.rs:344-356 | the failure branch: one more failure for each entry of the batch, at its own reading, and for no other |
| AgentDatabase.Database.RecoverSendingEntries | agent/src/database/db_queue.rs:148-164 | nothing is left in sending: what was is due at once with one more retry, and every other entry, waiting ones included, is untouched |
| AgentDatabase.Database.CleanupOldData | agent/src/database.rs:230-250 | a row goes if and only if its period ended before the cutoff and every entry that points to it is sent; the others do not change |
| AgentDatabase.Database.CleanupSentQueueEntries | agent/src/database/db_queue.rs:379-404 | an entry goes if and only if it is sent and older than the cutoff; what can be fetched and what retention must keep do not change |
| AgentDatabase.Database.CleanupFailedQueueEntries | agent/src/database/db_queue.rs:407-425 | an entry goes if and only if it is failed and older than the cutoff; what can be fetched does not change, and only rows of such entries lose the queue's protection |
| AgentDatabase.Database.SendQueuedMetrics | agent/src/main.rs:288-361 | one round of the send loop: sent if and only if a non-empty batch was accepted; then every entry of it is sent, otherwise every entry of it failed once more at its own clock reading, for good or with its backoff; exactly the orphans leave, no listed entry stays in sending, all other entries are untouched; a fetch that fails sends nothing |
| ServerStore.CommittedBatch | server/src/database.rs:222-275 | a committed batch keeps every row and the UNIQUE key, and adds a row for each known metric and nothing else |
| ServerStore.CommitsIffNoClash | server/src/database.rs:222-275 | a batch commits if and only if none of its keys is on the server and no two of its metrics share a key |
| ServerStore.Database.StoreMetrics | server/src/database.rs:222-275 | the loop inside the transaction: all of the batch or nothing, by that condition |
| ServerStore.Database.UpsertAgent | server/src/database.rs:179-219 | the agent's record is updated and counted, or created with a count of one; no other record changes |
| ServerStore.Database.HandleMetrics | server/src/api.rs:378-463 | success is answered exactly if the batch had no clash, and then every known metric is on the server; the new rows are metrics of the batch and no row is lost; an error leaves the tables as they were; the record of the agent is updated and counted either way, and no other |
| ServerStore.Database.CleanupOldData | server/src/database.rs:379-425 | exactly the rows whose period ended before the cutoff go, and exactly the agents not seen since it |
| Delivery.StoreKeepsFate | agent/src/database/db_ping.rs:181-208 | replacing a row keeps the fate of every entry decided: what lost its row has a newer row for its key |
| Delivery.StoreSupersedesItsKey | agent/src/database/db_ping.rs:181-208 | of the entries that were alive, exactly those of the replaced row lose it, and they are superseded |
| Delivery.EnqueueNeverIgnores | agent/src/database/db_queue.rs:189-206 | in every reachable state the enqueue after a store inserts |
| Delivery.FetchKeepsLocal | agent/src/database/db_queue.rs:482-508 | a fetch drops an unsettled entry only if a newer row replaced its own |
| Delivery.RetentionKeepsLocal | agent/src/database/db_ping.rs:251-270 | retention never deletes a row that an unsettled entry points to |
| Delivery.StepKeepsInv | agent/src/main.rs:218-361 | every step of agent, network, server, crash and clean-up keeps the delivery invariant |
| Delivery.RunKeepsInv | agent/src/main.rs:218-361 | so does every run |
| DeliveryTheorems.Conservation | agent/src/database/db_queue.rs:148-508 | in every run each enqueued aggregate is exactly one of: unsent with its entry and row alive, sent, permanently failed, superseded by a newer row for its key |
| DeliveryTheorems.RunExtendsHistory | agent/src/database/db_queue.rs:278-367 | what was enqueued is never forgotten, and sent or failed is for ever |
| DeliveryTheorems.SentWasCommitted | agent/src/main.rs:326-334 | an entry is marked sent only if the server committed a row with its exact key and content |
| DeliveryTheorems.SentIsOnServer | server/src/database/db_ping.rs:31 | until server retention, each sent aggregate is on the server with its exact content, in one row only |
| DeliveryTheorems.ServerKeysAreUnique | server/src/database/db_ping.rs:31 | in every run, whatever is lost, retried or cleaned up, the server never holds two rows for one agent, task and period in a table |
| DeliveryTheorems.FetchedBatchIsFaithful | agent/src/database/db_queue.rs:482-508 | in every run a fetched metric is exactly what its entry once enqueued, and the batch has no repeated key |
| DeliveryTheorems.FetchDropsOnlySuperseded | agent/src/database/db_queue.rs:482-508 | in every run an entry that a fetch removes was superseded |
| DeliveryTheorems.RetryAccounting | agent/src/database/db_queue.rs:305-367 | on every run retry_count is failed sends plus crash recoveries, failed sends never exceed max(1, max_retries), and an entry that reached it is settled |
| DeliveryTheorems.FailureStartsBackoff | agent/src/database/db_queue.rs:305-367 | after a failed send an entry is dead or rests until the end of its backoff |
| DeliveryTheorems.NoRetryBeforeBackoff | agent/src/database/db_queue.rs:217-249 | a resting entry is not fetched before next_retry_at, in any run, restarts included |
| DeliveryTheorems.CleanRunsCommitInFull | agent/src/main.rs:288-361 | in every run without crash, reload or a lost answer, a batch that reaches the server commits in full |
| DeliveryTheorems.DeliveryCannotClash | server/src/database.rs:222-275 | in such a run the batch in transit shares no key with the server and none with itself |
| DeliveryTheorems.PoisonedBatchIsRefused | server/src/database.rs:230-271 | one entry whose key the server already has makes it refuse the whole batch |
| DeliveryTheorems.PoisonedForever | server/src/database.rs:230-271 | while the server keeps its rows such an entry is never marked sent, in any run |
| DeliveryTheorems.LostResponsePoisons | agent/src/main.rs:340-358 | giving up on, or crashing before, the answer to a committed batch puts all its entries into that state |
| DeliveryTheorems.AnswerCanBeOnItsWay | agent/src/main.rs:288-361 | a concrete run that reaches a committed batch with its answer under way, for any aggregate of the first window |
| DeliveryTheorems.RepeatedWindowPoisons | agent/src/scheduler.rs:602-637 | in every run, until server retention, re-aggregating a window whose row was sent enqueues an entry that is in that state from the start |
| DeliveryTheorems.WindowCanBeRepeated | agent/src/main.rs:700-722 | a concrete run in which that happens, after a reload as well as after a restart |
| DeliveryTheorems.RequestCommitsIff | server/src/database.rs:222-275 | in every run, with any crashes, reloads and losses, a request that arrives and is not turned away, awaited or long given up, commits if and only if the server has none of its keys |
| DeliveryTheorems.BatchCommitsIffNoPoison | server/src/database.rs:222-275 | for the batch the agent waits for: if and only if none of its entries is in that state |
| DeliveryFaults.PoisonedIff | agent/src/main.rs:326-358 | in every run, until server retention, an entry is in that state if and only if an answer under way was forgotten by giving up or crashing, the entry was made for a key the server had, or the server committed its key in a request the agent no longer awaited for it |
| DeliveryFaults.StepPoisonsIff | agent/src/main.rs:326-358 | the same for one step |
| DeliveryFaults.HealthyEntriesFailToo | agent/src/main.rs:340-358 | when a batch with one such entry arrives, every entry of it, healthy ones included, counts one more failed send, and fails for good if that was its last retry; nothing else changes |
| DeliveryRounds.UnansweredRoundIsRefusedCall | agent/src/main.rs:288-361 | the events of a round that gets no answer, run one after the other, do to the queue what the refused call of SendQueuedMetrics does |
| DeliveryRounds.AnsweredRoundIsOneCall | agent/src/main.rs:288-361 | the events of an answered round do what the accepted call does if the batch has no clash, and it is committed; with a clash the server stays as it was and the queue is that of the refused call |
| DeliveryTheorems.CrashBeforeEnqueueLosesRow | agent/src/database.rs:411-416 | a crash between store and enqueue leaves a row that no later run enqueues |
| DeliveryTheorems.RowIsOrphanedIff | agent/src/database.rs:364-417 | in every run a stored row is left without an entry if and only if a crash hit the agent between storing and enqueueing that very row |
| RateLimiter.AgentRateLimiter.CheckRateLimit | server/src/api.rs:76-97 | accepted if and only if fewer than the limit of remembered requests are younger than the window; the list keeps exactly those, and the accepted one at its end; no other list changes |
| RateLimiter.AgentRateLimiter.CleanupStaleEntries | server/src/api.rs:101-121 | an agent stays if and only if it has a request younger than the window, and keeps exactly such requests |
| RateLimiter.MapRemembersHistory | server/src/api.rs:76-121 | in every run the map forgets no acceptance that can still matter |
| RateLimiter.AcceptedIffBelowLimit | server/src/api.rs:76-97 | in every run, with other agents racing, a request is accepted if and only if fewer than max_requests of that agent were accepted in the last window |
| RateLimiter.AcceptedIffWindowPassed | server/src/api.rs:76-97 | by plain subtraction: in every run a request is accepted if and only if the limit is positive and the agent has fewer than max_requests acceptances, or the max_requests-th last of them is at least the window ago |
| RateLimiter.AcceptancesAreSpread | server/src/api.rs:76-97 | any max_requests + 1 consecutive acceptances of an agent span at least the window |
| RateLimiter.CleanupsChangeNothing | server/src/api.rs:101-121 | interleaving clean-ups anywhere changes no decision |
| RateLimiter.OnlyCleanupsGo | server/src/api.rs:101-121 | the run without clean-ups keeps every check in its place |
| RateLimiter.OutOfOrderReadingOverruns | server/src/api.rs:77-78 | readings out of lock order matter: a request that read the clock before a clean-up took the lock is accepted once too often |
| RateLimiter.MapHoldsSurvivors | server/src/api.rs:76-121 | for readings in any order, the map holds exactly the accepted requests that no later reading found outside the window |
| RateLimiter.DecisionIsRightIff | server/src/api.rs:76-121 | for readings in any order, a decision is the right one if and only if the accepted requests of the last window are below the limit, or those that survived the readings so far already reach it |
| BandwidthSlot.BandwidthTestManager.RequestTest | server/src/bandwidth_state.rs:60-114 | one request under the lock: a holder in time keeps the slot, a free or overdue one goes to the asker, and Proceed exactly to the resulting holder; another agent that waits stays if and only if the maximum delay has not passed since it asked; an agent that has to wait goes last and is told the documented delay where truncation is harmless; the queue invariant is kept |
| BandwidthSlot.BandwidthTestManager.CompleteTest | server/src/bandwidth_state.rs:117-136 | the holder hands the slot to the first in the queue or leaves it free; from anybody else nothing changes; the queue invariant is kept |
| BandwidthSlot.BandwidthTestManager.CleanupExpiredTests | server/src/bandwidth_state.rs:153-175 | the holder goes if and only if its age exceeds the test timeout, a waiting agent if and only if the maximum delay has passed since it asked; in a queue in time order those are a prefix |
| BandwidthSlot.ExpiryDropsPrefix | server/src/bandwidth_state.rs:165-167 | since requests are in time order, expiry drops exactly a prefix of the queue |
| BandwidthSlot.RequestKeepsSlot | server/src/bandwidth_state.rs:60-114 | waiting agents are distinct and exclude the holder, times are ordered, a non-empty queue implies a holder: kept by every request, which leaves a holder |
| BandwidthSlot.CompleteKeepsSlot | server/src/bandwidth_state.rs:117-136 | kept by every completion |
| BandwidthSlot.RunKeepsSlot | server/src/bandwidth_state.rs:60-136 | so kept in every interleaving of requests, completions and downloads |
| BandwidthSlot.RequestGrants | server/src/bandwidth_state.rs:60-114 | Proceed is answered if and only if the slot was free, timed out or the asker's own, and exactly to the agent that holds it afterwards |
| BandwidthSlot.TimeoutServesRequester | server/src/bandwidth_state.rs:87-88 | after a timeout the requester gets the slot; the first waiting agent does if and only if it is the requester |
| BandwidthSlot.QueueJumpAfterTimeout | server/src/bandwidth_state.rs:87-88 | a concrete state in which a newcomer overtakes a waiting agent |
| BandwidthSlot.CompletionHandsOver | server/src/bandwidth_state.rs:117-136 | the holder's completion hands the slot to the longest-waiting agent; anybody else's changes nothing |
| BandwidthSlot.SlotIsExclusive | server/src/api.rs:489-554 | in every interleaving, with a download's check and completion under separate locks, a holder keeps the slot until it completes or its time is up when somebody asks |
| BandwidthSlot.LostSlotWasReleased | server/src/bandwidth_state.rs:60-136 | a holder that lost the slot lost it by one of those two events |
| BandwidthSlot.OneStreamIff | server/src/api.rs:489-570 | in every interleaving, at most one agent streams if and only if no download completes during another one's stream |
| BandwidthSlot.TwoAgentsStream | server/src/api.rs:549-570 | a run in which two agents, each granted the slot, stream at once |
| BandwidthSlot.WaitingOrderIsKept | server/src/bandwidth_state.rs:60-175 | two waiting agents keep their order in every run in which the first does not ask again |
| BandwidthSlot.AskingAgainMovesToTail | server/src/bandwidth_state.rs:83-100 | an agent that asks again while waiting goes behind all others |
| BandwidthSlot.DelayIsTruncatedSum | server/src/bandwidth_state.rs:181-197 | all u32 truncations together are one truncation of the documented sum |
| BandwidthSlot.DelayIsDocumented | server/src/bandwidth_state.rs:181-197 | the delay never exceeds the maximum, never uses the base delay, and is the documented formula if and only if truncation is harmless |
| BandwidthSlot.DelayIsMonotone | server/src/bandwidth_state.rs:181-197 | while the sum fits u32, a longer queue never gets a shorter delay |
| BandwidthSlot.IdealDelayIsMonotone | server/src/bandwidth_state.rs:181-197 | the documented delay grows with the queue up to the maximum |
| BandwidthSlot.WrappedDelayShrinks | server/src/bandwidth_state.rs:190-193 | settings for which a longer queue gets a shorter delay |
| BandwidthTask.AcquireSlot | agent/src/task_bandwidth.rs:38-137 | against any answers the loop ends, sends at most max_retries requests and sleeps less in all than the timeout; every answer before the last was a Delay that ended in time, each outcome has its exact cause, and the download gets the rest of the timeout |
| BandwidthTask.SleepAddsUp | agent/src/task_bandwidth.rs:95-115 | the time slept is the sum over the rounds, a round sleeping as long as its Delay says |
| BandwidthTask.OutcomeIsDetermined | agent/src/task_bandwidth.rs:38-137 | that contract leaves the loop no choice: answers and clock determine outcome and number of requests |
| BandwidthTask.UnnumberedDelayIsAMinute | agent/src/task_bandwidth.rs:95-110 | a Delay without a number counts as sixty seconds |
| BandwidthTask.QueuedAgentGivesUp | agent/src/task_bandwidth.rs:97-110 | coordinator and loop together: a queued agent gives up after one request, without sleeping, if and only if the server's delay reaches its timeout |
| BandwidthTask.DefaultsNeverRetry | agent/src/task_bandwidth.rs:97-110 | with the default settings that is every queued agent, while the delay's sum fits u32 |
| BandwidthTask.StreamIsComplete | server/src/api.rs:524-547 | the streamed chunks are non-empty and add up to the announced size |
| BandwidthTask.CountBytes | agent/src/task_bandwidth.rs:163-170 | the agent's counter is the length of the pieces it received |
| BandwidthTask.CountedIsSent | agent/src/task_bandwidth.rs:163-170 | wherever the network cuts the stream into pieces, the agent counts the announced size |
| Scheduler.TaskScheduler.Start | agent/src/scheduler.rs:240-303 | every configured task gets a handle that is not executing |
| Scheduler.TaskScheduler.ExecuteSingleTask | agent/src/scheduler.rs:398-427 | a task is spawned if and only if it has a handle and is not executing |
| Scheduler.TaskScheduler.FlushMetricsNow | agent/src/scheduler.rs:569-592 | exactly the metrics before the first failing write are stored, in order, and the rest is lost; it answers Ok if and only if no write failed |
| Scheduler.SuccessesStopAtFailure | agent/src/scheduler.rs:577-584 | the writes before the first failing one succeed, and that one fails |
| Scheduler.TaskScheduler.FlushMetricsIfNeeded | agent/src/scheduler.rs:538-560 | the same, exactly when the interval is over and there is something to flush |
| Scheduler.TaskScheduler.HandleTaskResult | agent/src/scheduler.rs:439-472 | the task is free again; a metric is appended below the limit, and at the limit the whole buffer is flushed; the buffer is below its limit after every result, so the emergency drain never removes anything |
| Scheduler.TaskScheduler.Stop | agent/src/scheduler.rs:315-388 | shutdown handles exactly what arrives up to the first tick after which nothing is in flight, or the tick of the deadline, and flushes what is left |
| Scheduler.StopConserves | agent/src/scheduler.rs:315-388 | a shutdown loses no metric but those a failed write drops: what was buffered and what arrived while it waited is stored or lost, and in order if nothing is lost |
| Scheduler.StartedTasksNeverOverrun | agent/src/scheduler.rs:398-445 | in every run, executions of a task plus its results on their way are one while it is marked running and none otherwise |
| Scheduler.TickStartsExactlyIdle | agent/src/scheduler.rs:398-445 | in every reachable state a tick starts an execution if and only if the task is configured, does not execute and has no result on its way, and of no other task |
| Scheduler.NeverOverruns | agent/src/tasks.rs:132-200 | the same as an invariant from any state, as each execution sends exactly one result |
| Scheduler.FlushAddsPrefix | agent/src/scheduler.rs:569-592 | a flush adds exactly a prefix of the buffer in order, the whole of it if and only if it succeeds, and loses exactly the rest |
| Scheduler.MetricsAreConserved | agent/src/scheduler.rs:439-592 | in every run each metric is buffered, stored or lost by a failed flush, and none twice; the buffer stays below its limit |
| Scheduler.WithoutFailuresNothingIsLost | agent/src/scheduler.rs:439-592 | without write failures, database followed by buffer is the arrival sequence at every moment |
| Scheduler.FailedWriteDropsRest | agent/src/scheduler.rs:455-470 | one failed write loses the rest of the buffer |
| Aggregation.Aggregator.CheckAndPerform | agent/src/scheduler.rs:602-637 | a window is cut if and only if a whole minute has passed since the last aggregation; it is the minute before the current one and overlaps nothing aggregated before |
| Aggregation.WindowsAreAlignedMinutes | agent/src/scheduler.rs:602-637 | for every sequence of clock readings the windows are whole minutes and strictly increase |
| Aggregation.WindowIsCutIff | agent/src/scheduler.rs:602-637 | exactly the wake-ups whose minute is later than all before cut a window, the minute before their own |
| Aggregation.WindowsAreDisjoint | agent/src/scheduler.rs:602-637 | no instant is in two windows, even if the clock steps back |
| Aggregation.TilesIffAwake | agent/src/scheduler.rs:602-637 | the windows tile time without gaps if and only if the loop wakes in every minute |
| Aggregation.GenerateAggregated | agent/src/database/db_ping.rs:103-178 | nothing comes back if and only if no row of the task is in the window; otherwise the aggregate counts exactly the raw rows of its window, and average, minimum and maximum are those of the successful timed rows and are ordered |
| Aggregation.AverageIsBetween | agent/src/database/db_ping.rs:113-116 | an average lies between the bounds of its samples |
| Aggregation.TotalsAddUp | agent/src/database/db_ping.rs:110-130 | successes and latencies of two stretches of rows add up |
| Aggregation.SumsAddUp | agent/src/database/db_ping.rs:113-116 | so do sums |
| Aggregation.RowIsInPeriod | agent/src/database/db_ping.rs:131-132 | a raw row is aggregated, as often as it is in the table, if and only if it is of the task and in the half-open window |
| Aggregation.RowIsAggregatedOnce | agent/src/database/db_ping.rs:103-178 | over a whole run of one scheduler no raw row is aggregated twice |
| RawRows.RowsAreCountedIffInTime | agent/src/scheduler.rs:439-637 | buffer, flushes and windows together: in every run of one scheduler a row handled before the pass of its minute is aggregated exactly once, and one handled later never |
| RawRows.PassIsFirstWake | agent/src/scheduler.rs:602-637 | the pass of a minute is the wake-up in the minute after it, if all earlier ones were before its end |
| RawRows.LateRowIsNeverCounted | agent/src/scheduler.rs:602-637 | a concrete run with a late result |
| HttpReader.FromStrRadix | agent/src/task_http.rs:266-274 | digit by digit with overflow checks is the same as comparing the whole value with the maximum |
| HttpReader.NumeralIsRead | agent/src/task_http.rs:266-274 | every number is read back from its digits in any radix up to 16, in any case |
| HttpReader.BufReader.ReadLine | agent/src/task_http.rs:150-153 | one line up to and including its line feed, refused if it is not UTF-8 |
| HttpReader.Utf8Iff | agent/src/task_http.rs:147-153 | a line passes the UTF-8 test if and only if it encodes some sequence of Unicode scalar values |
| HttpReader.BufReader.ReadExactly | agent/src/task_http.rs:246-253 | reads of at most 8192 bytes consume exactly n bytes, or fail at the end of the stream |
| HttpReader.BufReader.ReadHeaders | agent/src/task_http.rs:131-171 | the header loop is the specification `Head`, in text and in what is left of the stream |
| HttpReader.FirstByteIsEncoded | agent/src/task_http.rs:122-131 | the first byte stands in the text as the UTF-8 form of its value |
| HttpReader.HeadEndsAtEmptyLine | agent/src/task_http.rs:131-171 | for all header lines that fit, exactly they and the empty line are consumed |
| HttpReader.HeadEndsAtTwoBytes | agent/src/task_http.rs:131-171 | any line of two bytes ends the header: for all other lines before it that fit, exactly they and it are consumed |
| HttpReader.HeadEndsWithStream | agent/src/task_http.rs:167-170 | a stream that ends after its header lines counts as a header |
| HttpReader.HeadRefusesInvalidLine | agent/src/task_http.rs:147-153 | a line that is not UTF-8 is an error, after any lines that fit |
| HttpReader.HeadTooLarge | agent/src/task_http.rs:131-171 | header lines that do not fit are refused, wherever in them that happens and whatever follows |
| HttpReader.HeadIsBounded | agent/src/task_http.rs:131-171 | on any stream an accepted header text is at most 64 KB |
| HttpReader.ParseHeaders | agent/src/task_http.rs:178-203 | the loop over the lines computes `Parsed` |
| HttpReader.FirstIsFirst | agent/src/task_http.rs:178-197 | status and length are those of the first line that parses, or absent if none does |
| HttpReader.LengthLineIsRead | agent/src/task_http.rs:190-196 | a Content-Length field in any case, with any spaces and tabs around it, is read as its number |
| HttpReader.StatusLineIsRead | agent/src/task_http.rs:181-188 | a status line is read as its code, whatever the version and the reason phrase |
| HttpReader.LinesOfText | agent/src/task_http.rs:178 | splitting a header section into lines gives back exactly its lines |
| HttpFraming.FramingIsStandardIff | agent/src/task_http.rs:175-312 | for every header section, folded lines included: the framing is that of section 6.3 of RFC 9112, taken from the field lines, exactly under a stated condition on the length and the words the reader found |
| HttpFraming.UnfoldedFramingIsStandardIff | agent/src/task_http.rs:175-312 | without folded lines the condition is one on the lines themselves, case by case of the fields they hold |
| HttpFraming.ValidLengthIsRead | agent/src/task_http.rs:190-196 | of valid lengths the reader finds the number if and only if it fits usize and some line states it alone |
| HttpFraming.FinalCodingIsSeen | agent/src/task_http.rs:198-202 | without folded lines, a chunked coding that is the final one never escapes the reader |
| HttpFraming.FoldedCodingEscapes | agent/src/task_http.rs:198-202 | on a folded line it does: the standard says chunked and the reader reads until close |
| HttpFraming.WordsInAnotherField | agent/src/task_http.rs:198-202 | a field such as X-Transfer-Encoding makes the reader look for chunks where the standard reads until close |
| HttpReader.BufReader.ReadChunked | agent/src/task_http.rs:256-312 | the chunk loop is the specification `Dechunk`: outcome, rest of the stream and number of rounds |
| HttpReader.DechunksEncoding | agent/src/task_http.rs:256-312 | for every body and every split into non-empty chunks within the limit, exactly the encoding of section 7.1 of RFC 9112 is consumed and exactly the body is counted |
| HttpReader.LimitCheckIsExact | agent/src/task_http.rs:282-292 | the size check means what it says if and only if the sum does not wrap |
| HttpReader.ChunkLoopIsBounded | agent/src/task_http.rs:256-312 | when no sum can wrap, an accepted body keeps the limit and the loop ends within MAX_BODY_SIZE + 1 rounds |
| HttpReader.BufReader.ReadUntilClose | agent/src/task_http.rs:313-341 | whatever sizes the reads have, the body is accepted if and only if it is within the limit |
| HttpReader.BufReader.ReadBody | agent/src/task_http.rs:232-341 | by framing: a fixed length is read if and only if that many bytes follow, and just those; up to the close if and only if that is within the limit; a length above the limit reads nothing |
| HttpReader.BufReader.Download | agent/src/task_http.rs:122-349 | the whole response after its first byte is the specification `Respond`, which the next rows give for every header section |
| HttpReader.FixedMessageIsRead | agent/src/task_http.rs:232-254 | from the header lines: with a positive length within the limit, success if and only if that many bytes follow, with the status and the length, and exactly they are consumed; a shorter stream is an error; a length above the limit is one whatever follows |
| HttpReader.UnframedMessageIsRead | agent/src/task_http.rs:313-341 | from the header lines: without a length, or with zero, and not chunked, success with everything up to the close if and only if that is within the limit |
| HttpReader.MessageNeedsStatus | agent/src/task_http.rs:205-230 | without a status line that parses the response is an error |
| HttpReader.ChunkedResponseIsRead | agent/src/task_http.rs:122-349 | a chunked response is consumed from first to last byte, and what follows it stays in the stream |
| HttpReader.ChunkedMessageIsRead | agent/src/task_http.rs:122-349 | the same from the header lines themselves: a status line, a chunked encoding, and no length or zero |
| HttpReader.CutChunkedMessageFails | agent/src/task_http.rs:256-312 | a chunked response that ends inside the data of a chunk is an error, and so is one whose next chunk would pass the limit |
| HttpReader.TypicalResponse | agent/src/task_http.rs:122-349 | a concrete response with a length of five |
| SqlJson.TruncateJsonResult | agent/src/task_sql.rs:331-356 | the binary search ends with the longest row prefix whose array fits, or with an empty array; the flag says whether rows are missing, and is set for no rows at all |
| SqlJson.LongestFitIsUnique | agent/src/task_sql.rs:331-356 | there is only one such prefix |
| SqlJson.JoinedOfTwo | agent/src/task_sql.rs:241-253 | the rows of an array follow one another with a comma between them |
| SqlJson.ExecuteJsonMode | agent/src/task_sql.rs:200-253 | the rows up to max_rows, cut to the longest prefix that fits if they are too long; all rows are counted |
| SqlJson.AnswerFits | agent/src/task_sql.rs:241-253 | the answer keeps the size limit if and only if the limit has room for an empty array |
| SqlJson.UnflaggedIsComplete | agent/src/task_sql.rs:214-253 | an unflagged answer holds all rows if and only if max_rows cut nothing or the size flagged it anyway |
| SqlJson.FlagMeansTooLong | agent/src/task_sql.rs:241-253 | the truncated flag is set if and only if the kept rows do not fit; so it is true whenever truncation is called |
| ConfigCache.AgreesIff | server/src/config.rs:343-372 | an answer is that of a direct read unless an old text hides an unreadable file |
| ConfigCache.ConfigManager.GetAgentConfig | server/src/config.rs:343-372 | an answer is the cached text, or else the file's, which is then cached; a hit and an error leave the cache as it was, and no other entry changes |
| ConfigCache.FillIsGet | server/src/config.rs:343-372 | the three events of a cache miss, one after the other, give the answer and the cache of `GetAgentConfig`, also when the file cannot be read |
| ConfigCache.ConfigManager.LoadAllAgentConfigs | server/src/config.rs:299-339 | exactly the readable files of the listing are loaded, every other entry stays |
| ConfigCache.CountIsNumberLoaded | server/src/config.rs:315-338 | the count is the number of texts loaded |
| ConfigCache.ConfigManager.ReloadAgentConfig | server/src/config.rs:382-400 | the entry follows its file; an unreadable file is an error and leaves it as it is |
| ConfigCache.UpdateIsReload | server/src/config.rs:382-400 | the events with which the updater deals with one change, one after the other, give the cache of `ReloadAgentConfig` |
| ConfigCache.ConfigManager.UpdateFromEvents | server/src/config.rs:602-631 | whatever the order and repetition of events, every named file agrees afterwards and no other entry changes |
| ConfigCache.StepKeepsSync | server/src/config.rs:343-631 | what every step of writers, updater and requests keeps for a file |
| ConfigCache.CacheAgreesWithDisk | server/src/config.rs:343-631 | in every state a safe run reaches, for each file without a pending event, an answer is that of a direct read if and only if no old text hides an unreadable file |
| ConfigCache.NeverWrongIffSafe | server/src/config.rs:343-631 | a run never shows a settled file with a wrong cached text if and only if it has neither of two steps: a change of a cached file before the watcher runs, and a fill that stores an old text after the event of the change was handled |
| ConfigCache.OverlappingFillGoesStale | server/src/config.rs:363-369 | a change between the two halves of a cache fill is lost |
| ConfigCache.UnwatchedWriteGoesStale | server/src/main.rs:200-221 | a change between the initial load and the start of the watcher is lost |
| ConfigCache.UnreadableKeepsOldText | server/src/config.rs:610-622 | a file that becomes unreadable is answered with its old text after its event |
| Health.PeriodHoldsWholeMinutes | server/src/health_monitor.rs:93-97 | for every check interval the half-open period holds exactly interval/60 minute starts |
| Health.PeriodEndsAMinuteAgo | server/src/health_monitor.rs:93-97 | the period ends on a minute and leaves out one whole minute and the current one |
| Health.ReceivedIsCapped | server/src/health_monitor.rs:368-458 | with aligned windows the UNIQUE key caps one task's rows in one table at that number |
| Health.TasksAreCapped | server/src/health_monitor.rs:368-458 | and the rows of any set of tasks at that number for each |
| Health.CountsAddUp | server/src/health_monitor.rs:384-443 | the nine counts add up to the rows of all known types, none twice |
| Health.HealthNeverOvercounts | server/src/health_monitor.rs:368-458 | in every run of the delivery protocol the received count of a task stays within its cap |
| Health.CalculateExpectedEntries | server/src/health_monitor.rs:322-365 | the loop sums what each task is expected to yield |
| Health.ExpectationsAddUp | server/src/health_monitor.rs:322-365 | what a list of tasks is expected to yield is the sum over any split of it |
| Health.OneExpectation | server/src/health_monitor.rs:336-353 | a task is expected once a minute or once per schedule, whichever is rarer, and never without a schedule |
| Health.ExpectedIsCapped | server/src/health_monitor.rs:322-365 | no more than interval/60 rows are expected of a task |
| Health.FastTaskMeetsExpectation | server/src/health_monitor.rs:343-346 | a task faster than a minute that is on time yields exactly what is expected |
| Health.SlowTaskMeetsExpectationIff | server/src/health_monitor.rs:347-350 | a slower task that is on time always reaches its expectation if and only if the seconds beyond the last whole minute do not change the quotient |
| Health.NinetySecondsMislead | server/src/health_monitor.rs:347-350 | with 90 seconds for both, a task that is on time can look silent |

## Left out

- Network probes (ping, TCP, TLS, DNS, SNMP, SQL drivers): foreign calls; their results are arbitrary inputs here.
- SQLite, WAL, VACUUM, indexes and migrations: table semantics (UNIQUE, AUTOINCREMENT, REPLACE, IGNORE, rollback) are taken as given.
- The other agent and server tables have the shape of the ping tables; one map indexed by metric type stands for all of them, and everything outside a key is one opaque column.
- A failing queue statement inside the send loop is only logged by the source; local statements succeed in the model, except the flushes of `Scheduler.dfy`.
- max_retries and the set of compiled-in metric types are constants of a run, also across restarts.
- Conversions of counters and timestamps between u64, i64 and u32 are not modelled, other than the backoff, the bandwidth delay and the sums of the chunk reader.
- The cutoff subtraction of the queue clean-ups, and of the health period for a clock near zero, could wrap in the source; the model subtracts integers.
- Delivery in the end is not claimed: the theorems on poisoned entries say why.
- Server retention is an event that the theorems about rows on the server exclude; the agents table is outside the run-level state machine.
- Which domain and target id a ping aggregate carries, and rounding of floating-point averages.
- Raw-metric retention and the conversion of SQL values to JSON values.
- Responses without a body by their status (section 6.3 of RFC 9112, rules 1 and 2), and HTTP/1.0: the reader looks at neither, and `HttpFraming` compares framings of responses that may have a body.
- The draining read after an invalid status line, and I/O errors of a stream before its end.
- The clock readings of an agent's own checks and of the clean-ups are non-decreasing in lock order in `RateLimiter`, those of other agents need not be; `OutOfOrderReadingOverruns` shows why this is needed, `DecisionIsRightIff` needs no order.
- The config hash, verify and upload exchange, BLAKE3, gzip and base64; TOML parsing and field validation; the stagger delays of ticker tasks.
- Health ratios, version comparison, report files, `reconfigure.rs`, the command line and logging.
- Health.SlowTaskMeetsExpectationIff: a task that is on time runs exactly at its schedule; drift of a ticker is not modelled.
- BandwidthTask.AcquireSlot: the ten-second limit of a permission request and transport errors are one kind of failed request.
