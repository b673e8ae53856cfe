# Reliable delivery: a verified model

This project models the parts of the backend that promise that work is neither lost nor done twice, and
the sequential algorithms beside them, and proves what they promise. `dafny verify dfyconfig.toml`
checks it.

Concurrent parts are step systems: every Redis command, SQL statement, and stretch of JavaScript between
two awaits is one atomic step, and a run is any interleaving of any number of clients, clock ticks and
expiries. Their theorems are about every run. Code that updates fields or loops over local variables is a
class or a method, proved against the function the theorems are about.

| file | models |
|---|---|
| RetryQueue.dfy, RetryQueueClass.dfy, RetryQueueRefinement.dfy, TierKey.dfy, RangeReply.dfy | the delayed retry queue over its Redis payloads and sorted-set index; the queue object; that the object's dispatch and drain are runs of the step system; the key text; the reading of a range reply |
| Outbox.dfy, OutboxOperator.dfy, OutboxBackoff.dfy, OutboxDispatch.dfy, OutboxTick.dfy | the transactional outbox: ticks and operator commands interleaved; what the commands achieve; the pace of retries; how often a row is dispatched and when a dispatch repeats a delivery; one tick, its task runner and its counters |
| CircuitBreaker.dfy | the circuit breaker, serial and with overlapping calls, and its Redis wrapper |
| AdvisoryLock.dfy | advisory locks and the scheduler helper |
| StampedeCache.dfy, StampedeFetch.dfy | the stampede-protected cache; how often a cold entry is fetched |
| DeadLetterList.dfy | the bounded dead-letter list and its drain |
| RateLimiter.dfy | the fixed-window GraphQL limiter |
| Calendar.dfy, Streak.dfy | day arithmetic on YYYY-MM-DD text (section 21.4.1 of ECMA-262), streaks, and the backfill |
| Worklist.dfy | the graph searches of the soft-delete lint rule |
| BatchUpdate.dfy | the batched UPDATE and the loop it replaces |
| Slug.dfy | slugs and two seed helpers |

## Where the code differs from what is said of it

The model follows the code; each difference is a lemma with a run or an input that shows it, and where a
claim fails, the exact condition under which it holds.

- Half-open admits any number of calls at once; the comment speaks of one probe
  (`HalfOpenAdmitsAnyNumber`). The number of probes is limited only by the number of calls the callers have
  in flight (`ProbeLimitIff`).
- A call that succeeds after the breaker opened clears `openedAt` but leaves it open; with nothing in
  flight it never recovers (`StuckIffLateSuccess`, `StuckForeverIff`).
- Two retries of the same attempt number due in the same millisecond share a key, and the later one erases
  the earlier (`OverwrittenIff`, `OverwrittenSharesMillisecond`, `SameMillisecondOverwrites`).
- The outbox tick is said to run inside a transaction when auth calls it. No caller opens one: all six
  pass the plain database handle. Claims are exclusive exactly inside transactions
  (`ClaimsDisjointIffTransactional`), so both modes are modelled; with the plain handle the backoff and the
  dispatch budget need ticks that do not deal with the same row at once (`BackoffBound`, `DispatchBound`,
  `OverlapExceedsBudget`).
- A row can be dispatched more often than its budget of maxRetries + 1. `EveryDispatchIsAccounted` says why:
  a dying tick forgets a failure it has not recorded, or a delivery it has not marked or, in a transaction,
  not committed; and an operator's retry forgets the failures of the row. Nothing else adds a dispatch
  (`DispatchBound`), and the bound that counts them is reached (`BudgetIsReached`).
- A delivery is repeated exactly if an earlier one was lost in that way, or was taken for a failure because
  markProcessed failed after it, or, with overlapping ticks on a plain handle, is another tick's
  (`RepeatsIff`, `DoubleDispatch`).
- The single-row commands refuse a processed row only at the moment they look (`RetryLandsOnProcessedIff`).
- `discard` is said to act on dead letters; a live row it does not stop (`DiscardStopsIff`). `retry --all`
  revives discarded rows too, and its UPDATE is not bounded by the ceiling of 500 that its SELECT has
  (`RetryAllRevivesEverything`).
- "Only one caller executes the fetcher while others wait" does not hold of the stampede cache
  (`NoSecondRead`, `UncheckedRelease`). `SecondFetchIff` says exactly when a second caller fetches in runs
  without errors, expiry and overrun; `ExclusiveIffWithinTtl` when lock holders overlap.
- The dead-letter push is a pipeline, not a transaction, so the list can pass its limit for a moment
  (`LimitIsOvershot`).
- `lastStreakDay` is documented as null only for users without attempts; it is null whenever today is not
  among the days (`ComputeBackfillTrio`).
- `utcDaySubtract` does not pad the year, so it leaves the YYYY-MM-DD format below the year 1000
  (`SubtractLowersByN`).
- The batched UPDATE is offered in place of a per-row loop; with a repeated key that is in the table it is
  not the same (`SameAsLoopIff`), and with the key column among the columns it fails.

## Model

| member | source | states |
|---|---|---|
| RetryQueues.IndexAgreement | src/common/events/retry-queue.ts:119-170 | in every reachable state of any interleaving, if an indexed key has a payload, then score, time in the key and nextRetryAt are equal and the attempt is in 1..maxRetries; so a drainer meets no member scored after its clock and never puts a claimed item back |
| RetryQueues.EachRetryIsInOnePlace | src/common/events/retry-queue.ts:113-166 | conservation: a scheduled retry is in exactly one of pending write, stored under its own key, pending dead-letter push, or one of the five ends; it is somewhere exactly while it has not ended |
| RetryQueues.FateIsFinal | src/common/events/retry-queue.ts:225-270 | delivered, expired, overwritten, dead-lettered and lost are final, so no retry is handed to the handlers twice |
| RetryQueues.RetryBudget | src/common/events/retry-queue.ts:113-127 | one failed handler call causes at most maxRetries redeliveries, and a dead letter for it carries attempt maxRetries + 1 and comes only after all of them |
| RetryQueues.OverwrittenIff | src/common/events/retry-queue.ts:147-170 | a retry is overwritten exactly when another transaction lands on its key while its payload is stored |
| RetryQueues.OverwrittenSharesMillisecond | src/common/events/retry-queue.ts:147-170 | an overwritten retry was scheduled in the same millisecond as another retry with its attempt number; so retries with distinct (attempt, scheduling millisecond) are never overwritten |
| RetryQueues.SameMillisecondOverwrites | src/common/events/retry-queue.ts:168-170 | for every configuration with a retry, two handlers failing in the same millisecond give a run in which the first retry is erased |
| RetryQueues.ItemsAreMade | src/common/events/retry-queue.ts:124-127 | every item in a pending write or in the store was made in an earlier step, and its nextRetryAt is that step's clock plus exactly retryDelaysMs[attempt - 1] |
| RetryQueues.PayloadsHaveLanded | src/common/events/retry-queue.ts:147-155 | every stored payload was put there by its own transaction in an earlier step and expires exactly its delay and five minutes after that step |
| RetryQueues.IndexedUntilClaimed | src/common/events/retry-queue.ts:147-157 | once its transaction has run, a retry is on the index under its due time until some drainer takes its key off |
| RetryQueues.ClaimedOnce | src/common/events/retry-queue.ts:240-244 | in every run a retry is claimed in one step only, whatever the number of drainers and whatever lands on its key |
| RetryQueues.CleanRunOverwritesNothing | src/common/events/retry-queue.ts:147-170 | if no transaction lands on a key in use, nothing is overwritten |
| RetryQueues.HeldPayloadWaits | src/common/events/retry-queue.ts:240-244 | between a drainer's ZREM and its GETDEL the payload stays, until five minutes after the due time, if no transaction has landed on that key while it was in use |
| RetryQueues.TimelyClaimIsDelivered | src/common/events/retry-queue.ts:237-270 | under that condition on its own key an item whose ZREM and GETDEL both run before due time + 5 minutes is delivered, and if a handler throws, its next attempt (with the next delay) or its dead letter is issued in the same step |
| TierKeys.SeparatesIff | src/common/events/retry-queue.ts:168-170 | the key text identifies (attempt, millisecond) exactly if the separator has a character that is not a digit |
| TierKeys.KeyTextIsTheKey | src/common/events/retry-queue.ts:168-170 | with the default separator two items share a key text exactly if they share attempt and millisecond |
| RangeReplies.ZRangeByScore | src/core/redis/redis.service.ts:456-487 | rejects a limit that is not positive; an error is passed on; an open circuit gives no members; else the pairs of the flat reply in order, or every member with score 0 |
| RangeReplies.ReplyRoundTrip | src/core/redis/redis.service.ts:478-485 | reading the flat reply of any range gives the range back, and a cut-off reply loses only the cut member |
| RetryQueueObjects.RetryQueue.Subscribe | src/common/events/retry-queue.ts:92-93 | appends the handler |
| RetryQueueObjects.RetryQueue.Unsubscribe | src/common/events/retry-queue.ts:94-99 | removes the first occurrence of the handler, if there is one, and nothing else |
| RetryQueueObjects.RetryQueue.ScheduleRetry | src/common/events/retry-queue.ts:113-166 | queues the item due retryDelaysMs[attempt - 1] after the clock, or gives it up if the attempts are spent |
| RetryQueueObjects.RetryQueue.Dispatch | src/common/events/retry-queue.ts:102-111 | every handler runs; one new write for each handler that throws, in handler order, with attempt 1, a root of its own, due retryDelaysMs[0] after that handler's clock reading, or without retries one dead letter each; nothing else is added |
| RetryQueueObjects.RetryQueue.RunHandlers | src/common/events/retry-queue.ts:259-267 | handlers run from the first one until one throws; exactly those ran |
| RetryQueueObjects.RetryQueue.DrainMember | src/common/events/retry-queue.ts:237-269 | on every queue, member and behaviour of the handlers the method has the result and the effect of MemberStep, whose meaning the next row states |
| RetryQueueObjects.MemberKeepsItsWord | src/common/events/retry-queue.ts:237-269 | delivery, stop, store and index in each case (not due, not on the index, no payload, payload not due); a delivery in which a handler throws adds one write with attempt + 1 due retryDelaysMs[attempt] after its clock, or one dead letter with attempt + 1 if there is no such delay; no other case adds anything |
| RetryQueueObjects.RetryQueue.DrainOnce | src/common/events/retry-queue.ts:225-270 | the loop is the composition of the member steps up to the first that stops it, whose meaning the next row states |
| RetryQueueObjects.DrainKeepsItsWord | src/common/events/retry-queue.ts:225-270 | for every store: one write or dead letter for each delivery that throws, in order, as in MemberKeepsItsWord, and nothing else; with an agreeing store every due member's payload is delivered, its key is off store and index, all other keys stay, and the store still agrees |
| RetryQueueObjects.NothingDueIsLeft | src/common/events/retry-queue.ts:228-235 | after a drain whose batch was not full no key on the index is due |
| RetryQueueRefinements.DrainIsARun | src/common/events/retry-queue.ts:225-270 | an undisturbed drain of the object, from any state that represents a state of the step system, is a run BeginDrain, Claim, Take, ..., Stop of a drainer of its own with the clock going on; the end states represent each other, other drainers are untouched, and what the object delivered is Delivered there; so every theorem about runs holds of the object |
| RetryQueueRefinements.DispatchIsARun | src/common/events/retry-queue.ts:102-111 | a dispatch of the object is a run in which the clock goes on and HandlerFails happens for each handler that throws, with fresh roots; the end states represent each other |
| RetryQueueObjects.DrainDeliversAll | src/common/events/retry-queue.ts:225-270 | with an agreeing store no early exit is taken at any member: the drain takes all due keys and delivers their payloads |
| RetryQueueObjects.UndisturbedDrain | src/common/events/retry-queue.ts:225-270 | such a drain keeps index, keys and payloads in agreement |
| RetryQueueObjects.StoppedStays | src/common/events/retry-queue.ts:253-256 | once a member has stopped the drain, nothing further changes |
| Outboxes.InvariantHolds | src/common/outbox/base-outbox-processor.ts:324-361 | over every interleaving of ticks and operators, with or without transactions: a row with failedAt has a reason, a row without has attemptCount <= maxRetries, and the same of what ticks hold |
| Outboxes.LocksHoldAlways | src/common/outbox/base-outbox-processor.ts:134-166 | inside transactions a claimed row is one tick's alone and unchanged until it commits |
| Outboxes.ProcessedAtIsWriteOnce | src/common/outbox/base-outbox-processor.ts:314-322 | processedAt is written once and never changed, in either mode, whatever operators do |
| Outboxes.ProcessedAtIsTheTicksTime | src/common/outbox/base-outbox-processor.ts:314-322 | in every run of either mode a row's processedAt is the start time of a tick that marked this very row |
| Outboxes.ProcessedIsNeverClaimed | src/common/outbox/base-outbox-processor.ts:93-103 | a processed row is never claimed again |
| Outboxes.DeadLettersHaveReasons | src/common/outbox/base-outbox-processor.ts:333-345 | in every reachable state failedAt implies dlqReason, live rows have retries left, and lastError and lastAttemptAt are those of the last recorded failure |
| Outboxes.DeadLetterNeedsOperator | src/commands/outbox.ts:283-307 | a dead-lettered row is claimed again only after an operator's retry of it |
| Outboxes.ClaimsDisjointIffTransactional | src/common/outbox/base-outbox-processor.ts:149-166 | concurrent ticks never hold the same row exactly if they run inside transactions |
| Outboxes.SharedRow | src/common/outbox/base-outbox-processor.ts:140-166 | with a plain handle a reachable state has one row in two ticks |
| Outboxes.DoubleDispatch | src/common/outbox/base-outbox-processor.ts:174-178 | and then both dispatch it with success: the side effect happens twice |
| OutboxOperators.DiscardStopsIff | src/commands/outbox.ts:376-385 | after a single-row discard no continuation of the run claims the row short of an operator's retry exactly if it was dead-lettered or processed already |
| OutboxOperators.DiscardedButLive | src/commands/outbox.ts:380-385 | a reachable row carries the discard reason and can still be claimed |
| OutboxOperators.RetryLandsOnProcessedIff | src/commands/outbox.ts:350-368 | a retry checked in one step and written in another lands on a processed row exactly if a tick wrote processedAt of that row in between |
| OutboxOperators.RetryCanHitProcessedRow | src/commands/outbox.ts:340-368 | and such a run exists: processedAt stays, the attempt record is lost |
| OutboxOperators.StatusesPartition | src/commands/outbox.ts:177-195 | in every reachable state each row has exactly one of the four statuses; dlq is what the bulk commands act on, live is what a tick may claim |
| OutboxOperators.CommandsDo | src/commands/outbox.ts:283-385 | what retry, discard and their --all forms leave of a row of a reachable table, column by column, and which rows they leave alone |
| OutboxBackoff.PacedHolds | src/common/outbox/base-outbox-processor.ts:324-361 | over every run, inside transactions or as long as no two ticks deal with the row at once, the columns of a row summarise its failures since it was inserted or retried by hand: attemptCount is their number, nextAttemptAt follows from the last, and a dead letter ended with a deterministic or the (maxRetries + 1)th failure |
| OutboxBackoff.DelayDoubles | src/common/outbox/base-outbox-processor.ts:330-345 | after a failure that is not final, nextAttemptAt is exactly f.at + 1000 * baseDelaySeconds if the claimed count was 0, and the delay for the next count is exactly twice as long |
| OutboxBackoff.WaitIsExact | src/common/outbox/base-outbox-processor.ts:377-387 | over all runs that meet the condition of BackoffBound: a live row that has failed once waits exactly the base delay, and one with a failure more than another, in whatever run, exactly twice as long |
| OutboxBackoff.BackoffBound | src/common/outbox/base-outbox-processor.ts:377-387 | inside transactions, and with a plain handle as long as no two ticks deal with the row at once: consecutive failures are at least base * 2^(k-1) seconds apart, attemptCount counts them, a dead letter carries time, kind and error of its last failure, and a row exhausted by other than deterministic failures spent at least base * (2^maxRetries - 1) seconds failing |
| OutboxDispatches.EveryDispatchIsAccounted | src/common/outbox/base-outbox-processor.ts:174-207 | under the same condition every dispatch of a row, whatever its outcome, is recorded in its columns, about to be recorded by the one tick that has it, written off (a failure that a dying tick or an operator's retry forgets) or lost (a delivery whose tick dies before marking the row or before committing the mark); a delivery whose mark failed counts as a failure |
| OutboxDispatches.SettledAccount | src/common/outbox/base-outbox-processor.ts:174-207 | hence, while no tick has the row: dispatches = failures in its columns + 1 if it is processed + written off + lost, and deliveries = 1 if it is processed + misrecorded + lost |
| OutboxDispatches.DispatchBound | src/common/outbox/base-outbox-processor.ts:330-345 | under the same condition all ticks together dispatch a row at most maxRetries + 1 times plus the failures written off and the deliveries lost, exactly attemptCount plus those for a dead letter; and deliveries are the lost and misrecorded ones and at most one more |
| OutboxDispatches.BudgetWithoutLosses | src/common/outbox/base-outbox-processor.ts:330-345 | with nothing written off and nothing lost a row is dispatched at most maxRetries + 1 times |
| OutboxDispatches.BudgetIsReached | src/common/outbox/base-outbox-processor.ts:134-138 | in either mode, for every configuration and every k and l, some run without overlap dispatches a row maxRetries + 1 + k + l times, with k failures written off and l deliveries lost |
| OutboxDispatches.OverlapExceedsBudget | src/common/outbox/base-outbox-processor.ts:140-166 | without the condition there is no bound: n overlapping ticks with a plain handle dispatch one row n times, all of them failing or all of them delivering, with nothing written off or lost |
| OutboxDispatches.DeliveriesAreKeptIff | src/common/outbox/base-outbox-processor.ts:174-186 | in every run of either mode: a row has been delivered exactly if it is processed, or some tick has delivered it and not committed that, or a delivery has escaped (lost or misrecorded) |
| OutboxDispatches.RepeatsIff | src/common/outbox/base-outbox-processor.ts:174-186 | so a dispatch comes after an earlier delivery exactly if a delivery has escaped, or the row is processed or delivered by another tick at that moment; inside transactions, and without overlap, exactly if a delivery has escaped |
| ConcurrentTasks.StartAll | src/common/outbox/base-outbox-processor.ts:20 | every task of a chunk starts, in order |
| ConcurrentTasks.FinishAll | src/common/outbox/base-outbox-processor.ts:20 | they all finish, in whatever order, and nothing else starts meanwhile |
| ConcurrentTasks.StoreChunk | src/common/outbox/base-outbox-processor.ts:21-23 | the chunk's results are stored at their own indices and earlier results are kept |
| ConcurrentTasks.RunWithConcurrency | src/common/outbox/base-outbox-processor.ts:10-26 | results[i] is fn(items[i]); each task starts once in order and finishes once; never more than limit are in flight; the shared state is the tasks' effects folded in finishing order |
| OutboxTicks.FoldMarks | src/common/outbox/base-outbox-processor.ts:174-186 | the tasks' updates commute: any finishing order leaves the same table |
| OutboxTicks.OutboxProcessor.HandleFailureOf | src/common/outbox/base-outbox-processor.ts:324-361 | a processed row is left alone; else every column after the failure: count, times, error, and for a dead letter (exactly if deterministic or the claimed count had reached maxRetries) failedAt and the reason with its kind; the first retry is due after exactly the base delay |
| OutboxTicks.OutboxProcessor.RecordResult | src/common/outbox/base-outbox-processor.ts:188-201 | counts one result and writes its failure |
| OutboxTicks.OutboxProcessor.RecordResults | src/common/outbox/base-outbox-processor.ts:188-203 | after the loop every claimed row is settled by its own outcome |
| OutboxTicks.OutboxProcessor.RunProcessPendingEvents | src/common/outbox/base-outbox-processor.ts:140-220 | each claimed row is settled, with its columns, and no other changes; scanned = processed + failed, failed = retried + movedToDlq, and every counter is the number of rows that moved that way or conflicted |
| OutboxTicks.TalliedIsExact | src/common/outbox/base-outbox-processor.ts:188-220 | the running counts are sizes of sets of moved rows, because no row is claimed twice |
| OutboxTicks.UninterruptedTick | src/common/outbox/base-outbox-processor.ts:140-220 | refinement: in the step system a tick nobody interrupts leaves that same table, for every order of its statements, with or without a transaction |
| CircuitBreakers.CircuitBreaker.Create | src/common/resilience/circuit-breaker.ts:119-129 | rejects a non-positive threshold, then a non-positive timeout, each with its message; otherwise a fresh closed breaker |
| CircuitBreakers.CircuitBreaker.Transition | src/common/resilience/circuit-breaker.ts:219-223 | moves to the target unless from equals to |
| CircuitBreakers.CircuitBreaker.Begin | src/common/resilience/circuit-breaker.ts:172-182 | turns the call away exactly while open and inside the cool-down (or without an opening time) |
| CircuitBreakers.CircuitBreaker.OnSuccess | src/common/resilience/circuit-breaker.ts:194-200 | the whole new state, including that an open breaker stays open but loses openedAt |
| CircuitBreakers.CircuitBreaker.OnFailure | src/common/resilience/circuit-breaker.ts:202-217 | the whole new state in the half-open and the threshold case |
| CircuitBreakers.CircuitBreaker.Exec | src/common/resilience/circuit-breaker.ts:172-192 | the reply and the new state of a call with nothing else in flight |
| CircuitBreakers.RedisCircuitBreaker.Create | src/core/redis/redis-circuit-breaker.ts:26-47 | rejects the same options with its own messages; otherwise wraps a fresh breaker, count 0 |
| CircuitBreakers.RedisCircuitBreaker.Exec | src/core/redis/redis-circuit-breaker.ts:75-90 | an admitted task's value is returned; a call turned away, or a task throwing the circuit-open error, yields the fallback and is counted; other errors pass and nothing else is counted |
| CircuitBreakers.SerialRefinesHistory | src/common/resilience/circuit-breaker.ts:172-217 | between serial calls the counter is the length of the failing suffix of executed tasks and the breaker is closed exactly while that is below the threshold |
| CircuitBreakers.OutageBound | src/common/resilience/circuit-breaker.ts:172-217 | in an outage lasting d ms after opening at most failureThreshold + floor(d / resetTimeoutMs) tasks run |
| CircuitBreakers.ProbesAreSpaced | src/common/resilience/circuit-breaker.ts:202-212 | each probe of an outage is a cool-down later than the one before |
| CircuitBreakers.NoStartDuringCoolDown | src/common/resilience/circuit-breaker.ts:172-182 | with calls overlapping in any way, no task starts within resetTimeoutMs of any opening |
| CircuitBreakers.OpenRemembersItsOpening | src/common/resilience/circuit-breaker.ts:194-217 | an open breaker holds the time of its last opening exactly if no task has succeeded since |
| CircuitBreakers.CallStartsIff | src/common/resilience/circuit-breaker.ts:172-200 | a call after the opening starts a task exactly if the breaker is no longer open, or the cool-down is over and no task succeeded late |
| CircuitBreakers.StuckIffLateSuccess | src/common/resilience/circuit-breaker.ts:194-200 | open without an opening time is exactly: a task succeeded while open and the breaker has not opened again since |
| CircuitBreakers.StuckStays | src/common/resilience/circuit-breaker.ts:173-180 | such a breaker turns every call away until enough tasks in flight fail |
| CircuitBreakers.StuckForeverIff | src/common/resilience/circuit-breaker.ts:172-217 | it is never left exactly if the tasks in flight cannot reach the threshold; with none in flight, never |
| CircuitBreakers.StuckIsReachable | src/common/resilience/circuit-breaker.ts:194-200 | for every configuration some run ends there with nothing in flight |
| CircuitBreakers.HalfOpenAdmitsAnyNumber | src/common/resilience/circuit-breaker.ts:163-182 | for every m some run has m calls in flight in the half-open state, against the comment |
| CircuitBreakers.ProbeLimitIff | src/common/resilience/circuit-breaker.ts:163-182 | with at most n calls in flight there are never more than m probes at once exactly if n <= m; so one probe takes callers that make one call at a time |
| CircuitBreakers.WrapperAccounting | src/core/redis/redis-circuit-breaker.ts:75-90 | however calls overlap: calls = successes + rethrown errors + counted short circuits + calls in flight |
| AdvisoryLocks.RedisLocks.AcquireAdvisoryLock | src/core/redis/redis.service.ts:520-526 | takes a free key with the drawn token, else returns null; null when short-circuited; an error is passed on, whether or not the command took effect |
| AdvisoryLocks.RedisLocks.ReleaseAdvisoryLock | src/core/redis/redis.service.ts:539-551 | if the command takes effect and the token is its holder's the key is free and all others keep their leases, else nothing changes; the reply says which; false when short-circuited; an error is passed on |
| AdvisoryLocks.RedisLocks.RenewAdvisoryLock | src/core/redis/redis.service.ts:553-565 | the holder's lease then ends exactly ttlMs from now, for any other token nothing changes; false when short-circuited; an error is passed on |
| AdvisoryLocks.SchedulerMetrics.AcquireSchedulerLockOrRecordSkip | src/core/redis/scheduler-lock.helper.ts:35-55 | the lock, the reason or the error, and one more skip exactly if the lock was not taken and the circuit is open |
| AdvisoryLocks.LeaseInvariantHolds | src/core/redis/redis.service.ts:520-565 | over every run of any number of replicas, lost replies and crashes included, a section inside its deadline owns the lease of its key at least to that deadline |
| AdvisoryLocks.SectionsNeverOverlap | src/common/events/retry-queue-drain.scheduler.ts:77-86 | two sections of one key are never both inside their deadlines |
| AdvisoryLocks.OverrunKeepsSuccessor | src/core/redis/redis.service.ts:528-565 | releasing or renewing with a stale token keeps every live lease |
| AdvisoryLocks.FinishHandsOver | src/core/redis/redis.service.ts:539-551 | after a live section has finished, the next acquire of its key starts a section for its whole ttl at once; other keys are untouched |
| AdvisoryLocks.OverrunOverlaps | src/core/redis/redis.service.ts:520-526 | without the deadline the claim fails, for every ttl |
| StampedeCaches.ComputedEntry.GetOrSet | src/core/redis/redis.service.ts:316-381 | reply, fetches, polls, entry and lock in the hit, winner, waiter and give-up cases, and when GET, SET NX, SET or DEL fails or is skipped; a fetched value is the reply unless a command broke, and is cached exactly if the SET ran |
| StampedeCaches.ComputedEntry.FetchAndSet | src/core/redis/redis.service.ts:344-346 | the value is stored and returned, returned without being stored if the circuit is open, and not returned if the SET fails |
| StampedeCaches.Misses | src/core/redis/redis.service.ts:354-369 | the number of polls before the first that finds an entry or fails |
| StampedeCaches.CacheIsTransparent | src/core/redis/redis.service.ts:316-381 | for any number of callers the cache holds only fetched values and every call returns one, its own if it fetched, after at most one fetch and at most maxRetries polls |
| StampedeCaches.CallsAreBounded | src/core/redis/redis.service.ts:316-381 | a call takes at most maxRetries + 6 steps |
| StampedeCaches.CallsNeverBlock | src/core/redis/redis.service.ts:316-381 | a call can always take its next step, without waiting for another caller |
| StampedeCaches.ThrowsIff | src/core/redis/redis.service.ts:316-381 | in every run a call throws exactly if its fetch or one of its own commands has failed |
| StampedeCaches.HitEndsTheCall | src/core/redis/redis.service.ts:322-335 | a read or a poll that finds an entry ends the call for good with that entry's value, without a fetch |
| StampedeCaches.EntryIsTheLastStore | src/core/redis/redis.service.ts:344-346 | the entry is the value of the last store and expires exactly ttlMs after it, until then, or an invalidation |
| StampedeCaches.GoneUntilStored | src/core/redis/redis.service.ts:344-346 | after an expiry or invalidation there is no entry before the next store |
| StampedeCaches.HolderOwnsLock | src/core/redis/redis.service.ts:337-351 | if every holder stays within d < lockTtlMs, its lease is the lock |
| StampedeCaches.ExclusiveIffWithinTtl | src/core/redis/redis.service.ts:337-351 | holders that need at most d ms never overlap exactly if d < lockTtlMs |
| StampedeCaches.Overrun | src/core/redis/redis.service.ts:339 | a holder that needs longer overlaps with the next |
| StampedeCaches.UncheckedRelease | src/core/redis/redis.service.ts:347-350 | the release has no ownership check: an overrun holder deletes its successor's lock, and a third caller computes too |
| StampedeCaches.NoSecondRead | src/core/redis/redis.service.ts:337-346 | two callers that missed before the first store both fetch, though nothing timed out |
| StampedeFetches.SecondFetchIff | src/core/redis/redis.service.ts:308-315 | without errors, expiry, invalidation or overrun, two callers run the fetcher exactly if some caller exhausts its polls, or some caller that read before the store goes for the lock after its release |
| StampedeFetches.ReadersAfterStoreNeverFetch | src/core/redis/redis.service.ts:324-335 | a caller that reads after the first store never fetches |
| StampedeFetches.OneFetcher | src/core/redis/redis.service.ts:337-351 | while nobody gives up and nobody tries the lock after a release, at most one caller has fetched |
| DeadLetterLists.DeadLetterQueue.Push | src/core/redis/redis.service.ts:619-632 | appends and keeps the last maxLength |
| DeadLetterLists.DeadLetterQueue.LPopJson | src/core/redis/redis.service.ts:391-406 | takes the oldest; an open circuit takes nothing, an unreadable element is taken and lost, and both read as an empty list; an error is passed on, whether or not Redis popped |
| DeadLetterLists.DeadLetterQueue.DrainTier | src/common/events/retry-queue-drain.scheduler.ts:130-156 | drains, oldest first, the elements before the first pop that gives none (empty list, open circuit, unreadable element, error), at most 100; the list, the rows and the reply in each of these cases; failed inserts are dropped but counted |
| DeadLetterLists.KeptIs | src/common/events/retry-queue-drain.scheduler.ts:136-147 | the rows persisted are exactly the drained items whose insert works, in order and as often as they come |
| DeadLetterLists.Trimmed | src/core/redis/redis.service.ts:628 | the last min(limit, length) items |
| DeadLetterLists.ListIsTheTailOfHistory | src/core/redis/redis.service.ts:619-632 | with pushes and drains interleaved command by command the list is the block of the push history that has not left, items leave in push order, and the list exceeds 1000 by at most the unfinished pushes |
| DeadLetterLists.EnvelopesAreConserved | src/common/events/retry-queue-drain.scheduler.ts:130-156 | pushed = drained + lost as unreadable + trimmed + expired + present |
| DeadLetterLists.LimitIsOvershot | src/core/redis/redis.service.ts:626-630 | 1001 envelopes are reachable between the RPUSH and the LTRIM |
| RateLimiters.RateLimiter.DidResolveOperation | src/core/graphql/graphql-rate-limit.plugin.ts:88-109 | admission, and the new window of the key; other keys keep theirs |
| RateLimiters.WindowInvariantHolds | src/core/graphql/graphql-rate-limit.plugin.ts:94-108 | the current window of a key has counted exactly the operations it admitted since it began |
| RateLimiters.WindowsFollow | src/core/graphql/graphql-rate-limit.plugin.ts:94-97 | a key keeps its window or goes on to one that starts after it |
| RateLimiters.WindowBound | src/core/graphql/graphql-rate-limit.plugin.ts:94-108 | every window a key ever had admits at most max(1, limit) operations |
| RateLimiters.IntervalBound | src/core/graphql/graphql-rate-limit.plugin.ts:94-108 | with a monotone clock every half-open interval of length ttlMs admits at most 2 * max(1, limit) - 1 operations of a key |
| RateLimiters.IntervalBoundIsTight | src/core/graphql/graphql-rate-limit.plugin.ts:94-108 | and that number is reached, for every ttlMs > 1 |
| RateLimiters.KeysAreIndependent | src/core/graphql/graphql-rate-limit.plugin.ts:90-95 | other keys' traffic changes neither a decision nor a window |
| Calendar.DateOf | scripts/backfill/user-streak.algorithm.ts:80-84 | the year, month and day of a day number are a valid date with that number |
| Calendar.DateRoundTrip | scripts/backfill/user-streak.algorithm.ts:80-84 | and every valid date is the one its number gives |
| Calendar.DayNumberOrder | scripts/backfill/user-streak.algorithm.ts:79-80 | day numbers order dates as the calendar does and are unique |
| Calendar.FormatIsDayIff | scripts/backfill/user-streak.algorithm.ts:82-85 | the formatted text is read back as the same date exactly for years 1000-9999 |
| Calendar.SubtractLowersByN | scripts/backfill/user-streak.algorithm.ts:74-86 | the result is a YYYY-MM-DD day exactly if the target lies in years 1000-9999, and is then exactly n days earlier |
| Calendar.SubtractComposes | scripts/backfill/user-streak.algorithm.ts:74-86 | two subtractions are one subtraction of the sum, if the day between is in that range |
| Calendar.SubtractInvertsIff | scripts/backfill/user-streak.algorithm.ts:74-86 | subtracting n and -n gives the day back exactly if the day itself is not before 1000-01-01 |
| Calendar.YearBelow1000 | scripts/backfill/user-streak.algorithm.ts:82-85 | the day before 1000-01-01 is written 999-12-31 |
| Calendar.TextOrderIsDayOrder | scripts/backfill/user-streak.ts:185-198 | comparing day strings as text compares the days, so ORDER BY day DESC on text gives falling days |
| Streaks.ComputeCurrentStreak | scripts/backfill/user-streak.algorithm.ts:153-162 | the run of present days ending today, as far as the cursor can be written; terminates because each accepted day is new |
| Streaks.NextRun | scripts/backfill/user-streak.algorithm.ts:192-197 | the run goes on if the day is the one before, else a new run starts |
| Streaks.ComputeLongestStreak | scripts/backfill/user-streak.algorithm.ts:188-202 | on strictly descending days the longest run, as far as predecessors can be written |
| Streaks.ScanStep | scripts/backfill/user-streak.algorithm.ts:192-200 | one step of the scan keeps the current run maximal and the longest right |
| Streaks.NewEarliestDay | scripts/backfill/user-streak.algorithm.ts:192-200 | a new earliest day creates one new run; the longest is that or the old one |
| Streaks.LongestIsExactIff | scripts/backfill/user-streak.algorithm.ts:164-202 | the result is the greatest n such that n consecutive days are all present exactly if n <= 1 or some such run starts on or after 1000-01-01 |
| Streaks.CurrentIsExactIff | scripts/backfill/user-streak.algorithm.ts:137-162 | the result is the run ending today exactly if that run has at most one day or starts on or after 1000-01-01 |
| Streaks.CurrentAtMostLongest | scripts/backfill/user-streak.algorithm.ts:227-232 | current <= longest |
| Streaks.TomorrowAddsOne | scripts/backfill/user-streak.algorithm.ts:153-162 | answering tomorrow too makes the current streak one longer |
| Streaks.StreakAcrossYear1000 | scripts/backfill/user-streak.algorithm.ts:82-85 | two days in a row across the year 1000 are counted as one |
| Streaks.ComputeBackfillTrio | scripts/backfill/user-streak.algorithm.ts:227-233 | the trio; lastStreakDay is today exactly if today is among the days |
| Streaks.Backfill.WriteStreakCache | scripts/backfill/user-streak.ts:204-223 | writes and reports an update exactly if the user is live and the trio differs |
| Streaks.Backfill.BackfillOneUser | scripts/backfill/user-streak.ts:238-250 | one user recomputed, or nothing in a dry run or on a query error |
| Streaks.Backfill.Run | scripts/backfill/user-streak.ts:307-342 | evaluated = updated + unchanged + errors; errors is the number of positions whose query fails, updated the number of users whose row changed, maxStreakSeen the greatest streak of a user whose query works; every listed live user is recomputed |
| Streaks.Backfill.RunTwice | scripts/backfill/user-streak.ts:204-223 | a second run with nothing new updates nobody |
| Worklists.PushesAreHeld | tools/eslint-plugins/no-soft-delete-leak.js:59-68 | the nodes pushed for a node are exactly those its non-parent properties hold, directly or in an array |
| Worklists.PushItems | tools/eslint-plugins/no-soft-delete-leak.js:63-64 | pushes an array's items in order |
| Worklists.PushChildren | tools/eslint-plugins/no-soft-delete-leak.js:81-90 | the two loops push exactly that |
| Worklists.Visited | tools/eslint-plugins/no-soft-delete-leak.js:73-91 | visiting a node and pushing its children keeps the search invariant |
| Worklists.Exhausted | tools/eslint-plugins/no-soft-delete-leak.js:73-93 | with the stack empty, visited is exactly what is reachable |
| Worklists.HasNotDeletedGuard | tools/eslint-plugins/no-soft-delete-leak.js:53-94 | on every finite graph, cyclic ones included, it ends and answers yes exactly if a notDeleted/isNull call is reachable through non-parent edges |
| Worklists.FirstDefinitionMeans | tools/eslint-plugins/no-soft-delete-leak.js:341-375 | the definition the search comes to first is a reachable definition of the name, and there is one exactly if any is reachable |
| Worklists.FirstIsDepthFirst | tools/eslint-plugins/no-soft-delete-leak.js:341-375 | on every finite graph the explicit stack comes first to the same definition as a recursive depth-first walk that takes what it pushes from the last to the first |
| Worklists.StaticPredicateCallsNotDeleted | tools/eslint-plugins/no-soft-delete-leak.js:341-375 | yes exactly if there is a first definition and a guard is reachable from its value |
| Worklists.WhereReferencesSafePredicate | tools/eslint-plugins/no-soft-delete-leak.js:387-419 | yes exactly if the clause reaches a ...PREDICATE member whose name is answered yes |
| BatchUpdates.QuotingRoundTrip | src/common/database/batch-update.ts:64 | every identifier, quotes included, is read back from its quoted form and what follows is untouched |
| BatchUpdates.ChecksAreExact | src/common/database/batch-update.ts:89-102 | equal count plus a scalar under each of row 0's names is: the same column set and scalars only |
| BatchUpdates.Validate | src/common/database/batch-update.ts:89-102 | the nested loops accept exactly the rows that pass those checks |
| BatchUpdates.Database.UpdateFromValues | src/common/database/batch-update.ts:125-133 | UPDATE ... FROM VALUES: each record with a matching tuple takes some matching tuple, others stay; the count is the number of records with a listed key |
| BatchUpdates.Database.BatchUpdateWithValues | src/common/database/batch-update.ts:72-134 | an error exactly if row 0 has no column, a row has another column set or a value that is no scalar, or the key column is among the columns; then nothing changes; else the statement's result on the tuples of the rows |
| BatchUpdates.TupleSetsColumns | src/common/database/batch-update.ts:114-122 | assigning a row's tuple is setting that row's own columns, in whatever order the object lists them |
| BatchUpdates.LoopCounts | src/common/database/batch-update.ts:4-18 | the loop of single-row updates counts at least what the statement counts, and the same exactly if no repeated key is in the table |
| BatchUpdates.StatementIsTheLoop | src/common/database/batch-update.ts:4-18 | with distinct stringified keys the statement has one possible result, the table and count of the per-row loop in any order |
| BatchUpdates.SameAsLoopIff | src/common/database/batch-update.ts:114-133 | for any keys the statement agrees with the loop exactly if no repeated key is in the table |
| BatchUpdates.StatementWrites | src/common/database/batch-update.ts:66-133 | in terms of the input rows: a record whose key no row names stays; one that a single row names has that row's values, as SQL values of the same kind, in its columns, and its other columns stay |
| BatchUpdates.CollidingKeysDiffer | src/common/database/batch-update.ts:116 | the number 1 and the text "1" are one key: a table on which the statement differs from the loop |
| Slugs.SlugIsItsWords | src/common/utils/slug.util.ts:3-10 | buildSlug is the words of the trimmed, lower-cased, filtered text joined by single dashes |
| Slugs.KeptIs | src/common/utils/slug.util.ts:7 | the filter keeps every letter a-z, digit, dash and white space, in order and as often as it comes, and leaves nothing in place of the others |
| Slugs.StripIs | src/common/utils/slug.util.ts:5-10 | trim and the dash strip cut the longest such stretches off both ends and nothing else |
| Slugs.SlugIsNormal | src/common/utils/slug.util.ts:1-10 | for every string the result is empty or in the slug pattern, and empty exactly if no letter or digit is left |
| Slugs.PatternTestIff | src/common/utils/slug.util.ts:1 | the character test agrees with the regular language on every string |
| Slugs.SlugFixesPattern | src/common/utils/slug.util.ts:3-10 | whatever is in the pattern is a fixed point |
| Slugs.BuildSlugIdempotent | src/common/utils/slug.util.ts:3-10 | buildSlug is idempotent |
| Slugs.AcceptedIsBuilt | src/common/utils/slug.util.ts:12-36 | normalizeSlugOrThrow accepts exactly the inputs whose trimmed lower-case form is in the pattern, and says whether the rest are empty or invalid; buildSlug gives the same for the input and fixes the result |
| Slugs.SecondThrowIsUnreachable | src/commands/seed/infrastructure/utils.ts:9-26 | the seed's normalizeSlug fails exactly on inputs without letters and digits, and only with the first error |
| Slugs.AssertUniqueBy | src/commands/seed/infrastructure/utils.ts:28-41 | fails, naming the first key seen twice, exactly if two items have the same key |

## Left out

- Real Redis, Postgres, timers, pub/sub, logging, tracing and metrics calls: replaced by atomic steps, a clock and parameters. JSON round trips, UUID freshness, valid dates and row locking (`FOR UPDATE SKIP LOCKED`, held to commit only inside a transaction) are assumed.
- One clock for all processes: differences between the clocks of hosts are not modelled, except that a drain may use an older reading of it.
- Why a Redis command of the retry queue failed: it is skipped, takes effect, or takes effect without its reply arriving; short circuits, errors and crashes are not told apart beyond that.
- Unparsable payloads in the retry queue, correlation ids, and handlers that subscribe or unsubscribe while a dispatch is running.
- Negative or fractional delays, thresholds, limits and times to live.
- `getOrSet` with a breaker nested in a breaker, hash, list and scan commands of the Redis service, and the health check.
- Subclasses of the outbox processor that override the pending clause or the failure rule, the aggregate filter, the order by creation time, and the clean-up of old rows: they narrow or replace what is modelled.
- Database errors inside a tick other than one that brings the tick down and a markProcessed that fails after a successful dispatch. A tick whose promise rejects while other tasks of its chunk still run is one that ends when those have settled.
- OutboxDispatches.DispatchBound: does not bound overlapping ticks with a plain handle that deal with one row at once; OverlapExceedsBudget shows that there is no bound.
- OutboxBackoff.BackoffBound: does not speak of overlapping ticks with a plain handle that deal with one row at once, because each of them computes from a copy the other has outdated.
- OutboxBackoff.WaitIsExact: does not speak of such ticks either.
- RetryQueueRefinements.DrainIsARun: does not cover a clock that runs backwards during the drain, nor a drain that others disturb; those are runs of the step system only.
- RetryQueueRefinements.DispatchIsARun: does not cover a clock that runs backwards during the dispatch.
- StampedeFetches.SecondFetchIff: does not count fetches in runs with errors, expiry, invalidation or overrunning holders, each of which allows a further fetch by itself.
- ConcurrentTasks.RunWithConcurrency: does not model a limit of zero or less with items to run, on which the source loops for ever, nor a task that rejects, as a tick's task does if markProcessed fails after an idempotency conflict; in the step model that is a tick that dies.
- OutboxTicks.OutboxProcessor.RunProcessPendingEvents: does not count under interference, because then the source reports rows that another tick or operator moved first.
- RateLimiters.IntervalBound: does not model a clock that runs backwards.
- Streaks.ComputeLongestStreak: does not model unsorted or repeated days, because the query returns distinct days in descending order.
- Worklists.WhereReferencesSafePredicate: does not model a member expression without an object or property, on which the source throws and which the parser never produces.
- BatchUpdates.Database.UpdateFromValues: does not model column types: casts between the text key and the key column, and the type the VALUES list gives its columns. A missing column and other schema errors are not modelled either.
- Parsing of malformed dates, `toUtcDayString`, flag parsing, e-mail and username normalising, password hashing: single branches or library calls.
- toLowerCase beyond leaving a-z, 0-9 and dashes alone, and patterns other than the default one.
- The import and table collection of the lint rule, and the names it exempts.
- The domain modules (coins, ranking, instances, tournaments, authentication), controllers, guards and configuration.
