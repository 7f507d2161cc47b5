# Verification of rs-broker

This project models the parts of rs-broker where several actors share state, and
proves what they keep. `dafny verify dfyconfig.toml` checks it with Dafny 4.11.

The core is the outbox drain. Any number of publishers share one table. Each
claims a batch, sends the rows one by one to a sink that may accept, push back or
fail, and writes the results back in separate statements. A run is a sequence of
such steps in any interleaving. Publishers may crash at any step, any statement
may be lost, and a publisher may go on after its lease has run out. Some results
hold in all these runs, others while leases are honoured, which means that each
publisher finishes or dies within 60 seconds of its claim, or that there is only one
publisher.

| file | what it holds |
|---|---|
| `OutboxTable.dfy`, `RetryPolicy.dfy` | rows, statuses, one function for each SQL statement, the retry ladder |
| `DrainProtocol.dfy` | publishers, events, runs, and what is counted in a run |
| `DrainSafety.dfy`, `DrainLadder.dfy`, `DrainDelivery.dfy` | what holds in every run |
| `DrainLease.dfy` | what holds while leases are honoured |
| `LeaseLimits.dfy` | how long a claim may be held before these results fail, exactly |
| `DrainTick.dfy`, `Progress.dfy` | one undisturbed drain call, and how long a row can wait |
| `Publisher.dfy` | the store, the sink and `publish_pending` as classes and methods, proved to take only protocol steps |
| `TopicMatcher.dfy`, `TopicSpec.dfy`, `TopicLaws.dfy` | the byte matcher, its positional specification, and the laws of patterns |
| `CircuitBreaker.dfy`, `BreakerHistory.dfy`, `EndpointMap.dfy` | the breaker, the history it stands for, and the map that refreshes rewrite |
| `BoundedFifo.dfy`, `Dedup.dfy`, `SubscriberCache.dfy` | the bounded memories of the consuming side |
| `ConsumerLoop.dfy`, `DlqReprocess.dfy` | inbox batching and re-enqueueing of dead letters |

Units and widths: the database clock and the breaker's durations count
microseconds. `retry_count` is a 32-bit column, and an increment at its maximum
fails as the database makes it fail. The breaker's counters are 32-bit and wrap
around, as in a release build; `BreakerRefines` shows that this never matters.

## Where the code and its comments differ

The model follows the code in each case.

- `mark_published_batch` is commented as not marking rows that another publisher
  re-claimed (crates/rs-broker-db/src/outbox/repository.rs:218-219). It tests only
  the status. With two publishers it can mark such a row exactly if a claim may be
  held for longer than the lease (`MarkTakesOnlyOwnExactly`). That a short count
  means a lost lease is true: it is possible under exactly the same conditions
  (`MarkIsCompleteExactly`).
- `increment_retry` and `update_status` test nothing. A late `increment_retry` takes
  a published row back into the queue (`TerminalUndoneAfterLease`), and nothing else
  unsettles a row (`SettledUnlessIncremented`) or, but for a late `update_status`,
  changes a settled one (`TerminalUnlessLateWrite`). Whether either can happen is
  again decided by how long claims are held (`TerminalIsFinalExactly`,
  `StaysSettledExactly`).
- A release after backpressure is commented as keeping the status
  (crates/rs-broker-core/src/features/publishing/publisher.rs:124-125). It sets
  `pending`, so the status is kept exactly if it was `pending` before the claim:
  `ReleaseKeepsPendingOnly`.
- Retries do not wait for their backoff, which is only logged, and `dlq` status
  only means that the dead-letter topic was offered the message, not that it took it
  (`DlqRowsWereOffered`).
- `#` is documented as valid only in last place
  (crates/rs-broker-core/src/shared/topic.rs:8-10). Anywhere in a pattern it accepts
  the rest. An inline `*` segment that differs from the topic's segment decides the
  match and the rest of the pattern is not looked at. One trailing separator is
  ignored. So replacing a segment by `+` can lose topics; `PlusReplacementExact`
  gives the exact patterns in which it cannot.
- `reprocess` is documented as idempotent for each entry
  (crates/rs-broker-core/src/features/dead_letter/handler.rs:80-82). An entry can be
  selected again exactly when its delete did not take effect (`SelectableAgain`), and
  a second call can add a second row for it exactly when, besides, the first call's
  insert did (`RepeatableExactly`). The reported count is the number of
  new rows unless an insert took effect and was answered with an error
  (`ReportedAdditions`).
- The breaker's `record_success` while open is commented as "should not happen"
  (crates/rs-broker-core/src/features/delivery/dispatcher.rs:112-113). It ends the
  rest period at once. It can happen exactly when two calls may be in flight and the
  open duration is not zero (`LateSuccessNeedsOverlap`); with one call an open breaker
  is left only by waiting (`OpenLeftOnlyByWaiting`), also in the map, where a refresh
  can make a report arrive at a breaker that did not admit the call
  (`StrayReportExactly`, `OpenEndpointLeft`).

## Model

| member | source | states |
|---|---|---|
| DrainSafety.SendsBounded | crates/rs-broker-core/src/features/publishing/publisher.rs:83-250 | In every run, with crashes, lost statements, lost answers and publishers past their lease, the sink accepts a row, on its own topic and as its dead-letter copy together, at most once more than the row was re-claimed on lease expiry. |
| DrainSafety.SendBudget | crates/rs-broker-db/src/outbox/repository.rs:175-286 | The inductive account behind it: acceptances so far, sends that open claims and owed statements still allow, and one for a waiting row, together stay within one plus the reclaims. |
| DrainSafety.SendsBoundReached | crates/rs-broker-db/src/outbox/repository.rs:180-203 | The bound is tight: for every configuration that claims anything and every number of reclaims, some run uses all of it. |
| DrainSafety.AlwaysInv | crates/rs-broker-core/src/features/publishing/publisher.rs:95-225 | In every run what a publisher holds is a true copy of a stored row, with a retry count no larger than the row's, and it owes a terminal status only for a row with no retries left. |
| DrainSafety.WritesAreStamped | crates/rs-broker-db/src/outbox/repository.rs:189-286 | Whatever a statement changes in a row it stamps with the database clock, and it leaves the creation time. |
| DrainLadder.RetryCountIsIncrements | crates/rs-broker-db/src/outbox/repository.rs:263-286 | In every run `retry_count` is exactly the number of effective `increment_retry` statements; backpressure, faults and crashes never add one. |
| DrainLadder.DeadRowsAreExhausted | crates/rs-broker-core/src/features/publishing/domain.rs:87-100 | In every run a `dlq` or `failed` row has had at least `max_retries` increments, and which of the two it is depends only on whether the dead-letter queue is enabled. |
| DrainLadder.DeadRowsWereRefused | crates/rs-broker-core/src/features/publishing/publisher.rs:141-222 | In every run a `dlq` or `failed` row was refused by the sink, with an error other than backpressure, at least `max_retries + 1` times. |
| DrainLadder.RetryCountBounded | crates/rs-broker-core/src/features/publishing/publisher.rs:141-162 | In every run `retry_count` exceeds `max_retries` by at most the number of reclaims of the row. |
| DrainLadder.RetryCountWithinPublishers | crates/rs-broker-core/src/features/publishing/publisher.rs:141-162 | In every run `retry_count` exceeds `max_retries` by less than the number of publishers; with one publisher it never does, whatever fails. |
| DrainLadder.TerminalUnlessLateWrite | crates/rs-broker-db/src/outbox/repository.rs:213-286 | In every run a `published`, `failed` or `dlq` row keeps its exact value until an `increment_retry` or `update_status` of a late publisher hits it; claims, releases and batch marks never touch it. |
| DrainLadder.SettledUnlessIncremented | crates/rs-broker-db/src/outbox/repository.rs:245-286 | Over any stretch of any run a settled row is settled at every point if and only if no `increment_retry` of it takes effect in the stretch. |
| DrainDelivery.RowsStay | crates/rs-broker-db/src/outbox/repository.rs:189-276 | Over any stretch of any run no row disappears, no content changes and no retry count goes down. |
| DrainDelivery.PublishedWasSent | crates/rs-broker-core/src/features/publishing/publisher.rs:114-115 | In every run a `published` row was accepted by the sink at least once. |
| DrainDelivery.DlqRowsWereOffered | crates/rs-broker-core/src/features/publishing/publisher.rs:172-199 | In every run the dead-letter copy of a `dlq` row was offered to the sink at least once. |
| DrainDelivery.OffersFaithful | crates/rs-broker-core/src/features/publishing/publisher.rs:96-103 | In every run each message offered to the sink, accepted or not, carries the stored key and payload of its row, on the row's topic, or on the dead-letter topic once its retries are used up. |
| DrainDelivery.AcceptancesAreOffers | crates/rs-broker-core/src/features/publishing/publisher.rs:114-115 | The counts that the send budget bounds are the numbers of accepted offers of the row in the sink's log, without and with its dead-letter copies. |
| DrainLease.OneHolder | crates/rs-broker-db/src/outbox/repository.rs:180-188 | While leases are honoured a claimed row has one holder, and until it is settled, also while a statement is owed for it or it awaits the mark, it is exactly as its holder's claim left it: `publishing`, with the claim's time stamp and the retry count the holder saw. |
| DrainLease.MarkIsComplete | crates/rs-broker-core/src/features/publishing/publisher.rs:231-241 | While leases are honoured the batch mark affects exactly as many rows as it is given. |
| DrainLease.MarkTakesOnlyOwn | crates/rs-broker-db/src/outbox/repository.rs:213-229 | While leases are honoured a batch mark leaves every row that another publisher holds as it is; `LeaseLimits.MarkTakesOnlyOwnExactly` has the other direction. |
| DrainLease.RetriesWithinLimit | crates/rs-broker-core/src/features/publishing/domain.rs:87-100 | While leases are honoured `retry_count` never exceeds `max_retries`. |
| DrainLease.TerminalIsFinal | crates/rs-broker-core/src/features/publishing/domain.rs:12-20 | While leases are honoured `published`, `failed` and `dlq` rows are never written again. |
| DrainLease.SendsAccounted | crates/rs-broker-core/src/features/publishing/publisher.rs:227-249 | While leases are honoured the number of accepted sends of a row equals the times news of one was lost, by a crash or a lost mark, plus one if the row is published or awaits its mark. |
| DrainLease.SentOnceUnlessLost | crates/rs-broker-core/src/features/publishing/publisher.rs:231-247 | While leases are honoured a row is sent at most once more than news of it was lost, and a published row of which no news was lost was sent exactly once. |
| DrainLease.AlwaysLeaseInv | crates/rs-broker-db/src/outbox/repository.rs:175-243 | Every step of a lease-honouring run keeps exclusive holding and the holders' view of their rows. |
| LeaseLimits.MarkTakesOnlyOwnExactly | crates/rs-broker-db/src/outbox/repository.rs:213-229 | For every configuration, number of publishers and bound on how long a claim is held: a run within the bound can reach a batch mark that changes a row another publisher holds if and only if the bound exceeds the lease, there are two publishers and the batch size is not zero. |
| LeaseLimits.MarkTakesReclaimedRow | crates/rs-broker-db/src/outbox/repository.rs:218-222 | The witness: a late mark takes a row that another publisher has re-claimed and holds. |
| LeaseLimits.MarkIsCompleteExactly | crates/rs-broker-core/src/features/publishing/publisher.rs:231-241 | A batch mark can affect fewer rows than it is given under exactly these conditions. |
| LeaseLimits.OneHolderExactly | crates/rs-broker-db/src/outbox/repository.rs:180-188 | Two publishers can hold one row under exactly these conditions. |
| LeaseLimits.TerminalIsFinalExactly | crates/rs-broker-db/src/outbox/repository.rs:245-286 | A settled row can be changed under exactly these conditions. |
| LeaseLimits.StaysSettledExactly | crates/rs-broker-db/src/outbox/repository.rs:263-286 | A settled row can become unsettled under exactly these conditions and if there are retries. |
| LeaseLimits.TerminalUndoneAfterLease | crates/rs-broker-db/src/outbox/repository.rs:268-277 | The witness: a late statement changes a row that another publisher has published, and takes it back into the queue if there are retries. |
| DrainTick.FaultlessTickSorts | crates/rs-broker-core/src/features/publishing/publisher.rs:114-224 | After a drain call without faults no claimed row is left `publishing`; a row is published exactly if accepted, pending exactly after backpressure, retrying exactly after a failure with retries left, dead otherwise, and the retry count grows only for retrying rows. |
| DrainTick.ReleaseKeepsPendingOnly | crates/rs-broker-core/src/features/publishing/publisher.rs:124-131 | A release that takes effect gives a row the status it had before the claim if and only if that was `pending`. |
| DrainTick.BatchSize | crates/rs-broker-db/src/outbox/repository.rs:194-199 | An undisturbed claim takes the smaller of the limit and the number of claimable rows. |
| Progress.ClaimedInTime | crates/rs-broker-db/src/outbox/repository.rs:194-199 | With one publisher, no faults and no backpressure, a claimable row with `r` unfinished rows at least as old is claimed within `r * (max_retries + 1) / limit + 1` ticks, however ties in age are broken and however many younger rows arrive. |
| Progress.EverythingSettles | crates/rs-broker-core/src/features/publishing/publisher.rs:59-80 | On a fixed table whose unfinished rows can all be claimed, among them rows that a dead publisher left `publishing`, as many such ticks as there are attempts left finish every row. |
| Progress.ClaimUsesAttempt | crates/rs-broker-core/src/features/publishing/retry.rs:53-55 | Each undisturbed claim uses up one of the row's remaining attempts, and leaves finished rows alone. |
| Publisher.OutboxPublisher.PublishPending | crates/rs-broker-core/src/features/publishing/publisher.rs:83-250 | The drain call is exactly the script of its record: claim, each message sent once and settled by at most one statement, one mark; or a failed claim, which changes nothing; or a claim that took effect and was answered with an error, which leaves the oldest batch `publishing` and unsent. The store's journal and the sink's log are those of the run, so no call is skipped or made up. A call that goes through claims the oldest batch, settles each row as the sink answered unless its statement was lost, and leaves all other rows unchanged. |
| Publisher.OutboxPublisher.RunTicks | crates/rs-broker-core/src/features/publishing/publisher.rs:51-81 | Any number of ticks is the run of their scripts, one call after another. Ticks without faults or backpressure form a run of the progress results, and if every unfinished row can be claimed when they start, enough of them leave every row finished. |
| Publisher.OutboxPublisher.Process | crates/rs-broker-core/src/features/publishing/publisher.rs:95-224 | One turn of the loop sends one message and settles only that row. Its events are the send, the dead-letter copy if the ladder asks for one, and one statement unless the message was accepted. |
| Publisher.OutboxPublisher.DrainClaimed | crates/rs-broker-core/src/features/publishing/publisher.rs:93-225 | The loop goes through the claimed messages in order, each exactly once, and collects exactly the accepted ids. |
| Publisher.OutboxPublisher.Settle | crates/rs-broker-core/src/features/publishing/publisher.rs:116-223 | A refused message is released, retried, dead-lettered or failed by the retry ladder, and keeps its claim if the statement is lost. |
| Publisher.OutboxPublisher.SendCopy | crates/rs-broker-core/src/features/publishing/publisher.rs:172-199 | The dead-letter copy carries the row's key and payload on the dead-letter topic, and whatever the answer, what is owed next is the status `dlq`. |
| Publisher.OutboxPublisher.Conclude | crates/rs-broker-core/src/features/publishing/publisher.rs:227-249 | The one mark at the end, left out when nothing was accepted, completes the call: accepted rows are published, or all stay claimed if the mark is lost. |
| Publisher.OutboxStore.ClaimPending | crates/rs-broker-db/src/outbox/repository.rs:175-211 | A claim that takes effect stamps the oldest claimable rows `publishing` and hands out their stored values, or answers with an error all the same; one that does not changes nothing. A negative limit fails. |
| OutboxTable.ClaimableExactly | crates/rs-broker-db/src/outbox/repository.rs:180-197 | A claim may take a row exactly if it is pending or retrying, or has been `publishing` for more than 60 seconds. |
| Publisher.OutboxStore.MarkPublishedBatch | crates/rs-broker-db/src/outbox/repository.rs:213-229 | Marks exactly the given rows that are still `publishing`, or nothing. |
| Publisher.OutboxStore.ReleaseClaim | crates/rs-broker-db/src/outbox/repository.rs:231-243 | Returns the row to `pending` if it is still `publishing`, without touching the retry count. |
| Publisher.OutboxStore.IncrementRetry | crates/rs-broker-db/src/outbox/repository.rs:263-286 | Adds one to the retry count and sets `retrying` whatever the status was, or fails at the column's maximum. |
| OutboxTable.IncrementableExactly | crates/rs-broker-db/src/outbox/repository.rs:263-286 | The increment of a stored row fails only at 2,147,483,647. |
| Publisher.OutboxStore.UpdateStatus | crates/rs-broker-db/src/outbox/repository.rs:245-261 | Sets the status whatever it was. |
| RetryPolicy.AttemptsAreFailures | crates/rs-broker-core/src/features/publishing/retry.rs:53-55 | The measure of progress is exact: a message whose every further send fails is retried one time less often than its measure says, and then leaves the ladder. |
| RetryPolicy.LadderExactly | crates/rs-broker-core/src/features/publishing/domain.rs:87-100 | A failed message is retried exactly while its count, taken as zero if negative, is below the maximum; otherwise it goes to the dead-letter topic if that is enabled, and fails if not. |
| TopicMatcher.NextSegment | crates/rs-broker-core/src/shared/topic.rs:83-95 | There is a next segment exactly when input is left; its bytes are those up to the first separator, or all, and taking it consumes them and the separator. |
| TopicSpec.SpecialCharacters | crates/rs-broker-core/src/shared/topic.rs:45-66 | The separator is `.` and the wildcards are `#`, `+` and `*`. |
| TopicSpec.MatcherCorrect | crates/rs-broker-core/src/shared/topic.rs:24-76 | For every non-empty topic and every pattern the byte matcher agrees with the positional specification on segments. |
| TopicSpec.EmptyTopic | crates/rs-broker-core/src/shared/topic.rs:25-30 | The empty topic matches only the empty pattern and `#`. |
| TopicSpec.PrefixStaysInSegment | crates/rs-broker-core/src/shared/topic.rs:63-74 | The prefix test of an inline `*`, made on the whole rest of the topic, looks at its first segment only. |
| TopicSpec.SplitJoins | crates/rs-broker-core/src/shared/topic.rs:83-95 | Joining the pieces with the separator gives the bytes back, and no piece contains a separator. |
| TopicSpec.SegmentsStep | crates/rs-broker-core/src/shared/topic.rs:83-95 | The walk of the matcher visits exactly the segments of the specification, one trailing empty piece excepted. |
| TopicLaws.SelfMatch | crates/rs-broker-core/src/shared/topic.rs:24-76 | Every topic matches itself as a pattern. |
| TopicLaws.LiteralPatternIsEquality | crates/rs-broker-core/src/shared/topic.rs:60-62 | A pattern without wildcards matches exactly the topics with its segments. |
| TopicLaws.TrailingDotIgnored | crates/rs-broker-core/src/shared/topic.rs:83-95 | One separator at the end of a topic or pattern makes no difference to its segments. |
| TopicLaws.HashTailWidens | crates/rs-broker-core/src/shared/topic.rs:45-47 | Cutting a pattern's tail and ending it with `#` only adds topics. |
| TopicLaws.HashAcceptsRest | crates/rs-broker-core/src/shared/topic.rs:45-47 | What follows a `#` segment makes no difference. |
| TopicLaws.PlusReplacementExact | crates/rs-broker-core/src/shared/topic.rs:57-75 | Replacing a segment by `+` keeps every matched topic if and only if the segment is unreachable, literal or already a one-segment wildcard, or is followed by `#` and is an inline glob or comes first. |
| CircuitBreaker.CircuitBreaker.CanExecute | crates/rs-broker-core/src/features/delivery/dispatcher.rs:76-95 | Asking the live breaker answers and changes it as the value model says. |
| CircuitBreaker.CircuitBreaker.RecordSuccess | crates/rs-broker-core/src/features/delivery/dispatcher.rs:98-118 | Reporting a success changes the live breaker as the value model says, with wrapping counters. |
| CircuitBreaker.CircuitBreaker.RecordFailure | crates/rs-broker-core/src/features/delivery/dispatcher.rs:121-142 | Reporting a failure changes the live breaker as the value model says, with wrapping counters. |
| BreakerHistory.BreakerRefines | crates/rs-broker-core/src/features/delivery/dispatcher.rs:63-142 | Over every sequence of calls and for all thresholds the breaker is a function of the history: closed with the failure run since the last success below its threshold, half-open with the successes since entry below theirs, and a time kept exactly when not closed, namely that of the latest failure. |
| BreakerHistory.FailuresAreTallied | crates/rs-broker-core/src/features/delivery/dispatcher.rs:98-142 | In every state the failure counter is the number of failures since it was last cleared, modulo 2^32. |
| BreakerHistory.AdmissionExact | crates/rs-broker-core/src/features/delivery/dispatcher.rs:76-95 | A call goes through exactly when the breaker is not open, or the time is at least the latest failure's plus the open duration, or that duration is zero; the branch for an open breaker without a time is never taken. |
| BreakerHistory.DefaultBreaker | crates/rs-broker-core/src/features/delivery/dispatcher.rs:53-61 | With the default configuration the fifth failure in a row opens the breaker, it admits again 30 seconds after the latest failure, and the second success closes it. |
| BreakerHistory.OpenUntilRested | crates/rs-broker-core/src/features/delivery/dispatcher.rs:79-92 | After an opening, while no success is recorded, the next admission comes exactly when the duration has passed since the latest failure. |
| BreakerHistory.OpenLeftOnlyByWaiting | crates/rs-broker-core/src/features/delivery/dispatcher.rs:76-142 | With one call in flight nothing is reported to an open breaker, and it is left only after the duration. |
| BreakerHistory.LateSuccessNeedsOverlap | crates/rs-broker-core/src/features/delivery/dispatcher.rs:76-118 | For every configuration, a success of a call that was let through can end the rest of an open breaker if and only if two calls may be in flight at once and the open duration is not zero. |
| EndpointMap.SubscriberDispatcher.MergeSubscribers | crates/rs-broker-core/src/features/delivery/dispatcher.rs:256-277 | A refresh leaves exactly the snapshot's ids, keeps the breakers of known ids, gives new ids a fresh one, and takes the subscriber data from the snapshot. |
| EndpointMap.SubscriberDispatcher.BeginDispatch | crates/rs-broker-core/src/features/delivery/dispatcher.rs:296-317 | The first critical section enters a missing endpoint, asks its breaker, and yields the address exactly when admitted. |
| EndpointMap.SubscriberDispatcher.EndDispatch | crates/rs-broker-core/src/features/delivery/dispatcher.rs:331-349 | The second critical section reports to the endpoint's breaker, and changes nothing when the endpoint has vanished. |
| EndpointMap.MapFollowsHistory | crates/rs-broker-core/src/features/delivery/dispatcher.rs:256-352 | Over any interleaving of refreshes and the two halves of deliveries an endpoint is present exactly while the events say so, its breaker has heard of every admission and report since the id was last put in and of nothing else, and its subscriber data is the latest. |
| EndpointMap.EveryBreakerRefines | crates/rs-broker-core/src/features/delivery/dispatcher.rs:256-352 | Every breaker in the map obeys the history specification for that history. |
| EndpointMap.StrayReportExactly | crates/rs-broker-core/src/features/delivery/dispatcher.rs:319-349 | The report of a delivery finds an endpoint whose breaker did not admit it if and only if a refresh in between dropped the id and the id is back. |
| EndpointMap.StrayReportHappens | crates/rs-broker-core/src/features/delivery/dispatcher.rs:256-349 | That happens with one delivery in flight. |
| EndpointMap.OpenEndpointLeft | crates/rs-broker-core/src/features/delivery/dispatcher.rs:291-352 | With one delivery in flight for each id no report reaches an open endpoint; it is left if and only if a refresh drops it or a delivery asks at least 30 seconds after its latest failure. |
| Dedup.Deduplicator.CheckAndMark | crates/rs-broker-core/src/features/consuming/dedup.rs:48-64 | New exactly if not remembered; a new key joins the memory, the oldest leaves when it is full, and the memory stays duplicate-free and in step with the set. |
| Dedup.Deduplicator.MarkSeen | crates/rs-broker-core/src/features/consuming/dedup.rs:67-82 | Makes room first, even for a known key, and leaves the key remembered. |
| Dedup.Deduplicator.Evict | crates/rs-broker-core/src/features/consuming/dedup.rs:53-60 | The eviction loop ends and keeps exactly the newest keys that leave room for one more. |
| Dedup.Deduplicator.IsDuplicate | crates/rs-broker-core/src/features/consuming/dedup.rs:35-38 | True exactly for remembered keys. |
| Dedup.RemembersLastAccepted | crates/rs-broker-core/src/features/consuming/dedup.rs:48-64 | After any sequence of `check_and_mark` the memory is the last `max(1, max_size)` accepted keys, in order. |
| Dedup.MemoryFilled | crates/rs-broker-core/src/features/consuming/dedup.rs:48-64 | It holds as many keys as were accepted, up to `max_size`, or up to one if that is zero. |
| Dedup.AcceptancesSpaced | crates/rs-broker-core/src/features/consuming/dedup.rs:48-64 | Two acceptances of one key have at least `max(1, max_size)` acceptances between them. |
| Dedup.MarkedExactly | crates/rs-broker-core/src/features/consuming/dedup.rs:67-82 | `mark_seen` forgets the oldest key when the memory is full and nothing else, keeps the order, and adds the key last unless it is still there. |
| Dedup.AnyMixBounded | crates/rs-broker-core/src/features/consuming/dedup.rs:48-89 | After any mix of calls the memory is duplicate-free, within its size, and holds the key marked last. |
| SubscriberCache.FifoCache.Insert | crates/rs-broker-core/src/features/consuming/dispatcher.rs:42-60 | Replaces a known topic in place; a new topic takes the place of the oldest one when the cache is full. |
| SubscriberCache.Dispatcher.GetSubscribers | crates/rs-broker-core/src/features/consuming/dispatcher.rs:101-124 | A lookup is a hit from the cache, or the filter over the repository's answer, which is stored; a failed fetch changes nothing. |
| SubscriberCache.AnswersAreCurrent | crates/rs-broker-core/src/features/consuming/dispatcher.rs:101-124 | While the repository does not change, after any sequence of lookups, evictions and failed fetches, a lookup answers the active subscribers with a pattern that matches the topic, all of them, in order and as often as they are listed; it fails only on a miss while the repository cannot be asked. |
| SubscriberCache.HoldsLastFetched | crates/rs-broker-core/src/features/consuming/dispatcher.rs:42-60 | After any sequence of lookups the cache holds exactly the topics fetched last, as many as its capacity, or one if that is zero. |
| SubscriberCache.AnswerIsRemembered | crates/rs-broker-core/src/features/consuming/dispatcher.rs:117-123 | What a lookup has answered the cache holds afterwards. |
| SubscriberCache.EntriesAreFilters | crates/rs-broker-core/src/features/consuming/dispatcher.rs:101-124 | Over any interleaving of fetches, stores and repository changes the cache keeps its bound and order, and every entry is exactly the subscribers with a matching pattern of some state the repository was in. |
| SubscriberCache.HitIsCurrent | crates/rs-broker-core/src/features/consuming/dispatcher.rs:101-124 | While the repository does not change a hit answers exactly the active subscribers with a matching pattern. |
| SubscriberCache.MatchingIsFilter | crates/rs-broker-core/src/features/consuming/dispatcher.rs:112-115 | The filter keeps a subscriber exactly if one of its patterns matches the topic, and keeps the order and multiplicity of the list. |
| SubscriberCache.MissIsFetchThenStore | crates/rs-broker-core/src/features/consuming/dispatcher.rs:111-123 | An undisturbed miss is one fetch and one store of the interleaved model. |
| ConsumerLoop.Run | crates/rs-broker-server/src/app.rs:389-475 | Each storable message is dispatched and broadcast once, in order, with its payload as it arrived. The inbox is called exactly once for each batch of `AllBatches`, in order, and gains exactly the batches whose insert took effect. |
| ConsumerLoop.NothingLostInBuffer | crates/rs-broker-server/src/app.rs:391-468 | After every receipt the batches sent and the buffer are the storable messages so far, in order, and fewer than 100 are buffered. |
| ConsumerLoop.SentExactlyWhen | crates/rs-broker-server/src/app.rs:460-467 | A receipt sends a batch if and only if its payload parses or it is a stream error, something waits, and the channel is empty or 100 messages wait; the batch is then all that waits, and otherwise nothing is sent. |
| ConsumerLoop.IdleLeavesNothing | crates/rs-broker-server/src/app.rs:460-467 | When the channel is empty after such a receipt nothing is left waiting. |
| ConsumerLoop.BatchesAreTheStream | crates/rs-broker-server/src/app.rs:374-475 | The batches of a stream hold 1 to 100 messages each and together are all its storable messages, in order. |
| ConsumerLoop.OneCallEach | crates/rs-broker-server/src/app.rs:419-460 | The dispatched and the broadcast sequence have one element for each stored message, with its topic, partition and offset and the same payload. |
| ConsumerLoop.HandedOnAsReceived | crates/rs-broker-server/src/app.rs:391-458 | Each message that parses is stored, dispatched and broadcast in its place, with its topic, partition and offset, and the latter two with its payload as it arrived. |
| DlqReprocess.Reprocess | crates/rs-broker-core/src/features/dead_letter/handler.rs:83-152 | The call runs exactly one insert for each selected entry, and one delete for each insert that was answered with success, as its journal shows, and the tables are as those statements leave them. After each of them no selected entry is lost. The counts add up to the selection, the outbox grew by the inserts that took effect and the dead-letter table shrank by at most the re-enqueued count. |
| DlqReprocess.NoEntryLost | crates/rs-broker-core/src/features/dead_letter/handler.rs:125-148 | Whatever fails and wherever the call stops, a selected entry is still dead-lettered, or a new row is pending with no retries, on the entry's original topic, with its payload and headers and the original message's id. |
| DlqReprocess.SafeThroughout | crates/rs-broker-core/src/features/dead_letter/handler.rs:125-136 | Nor is one lost between an insert and the delete that follows it. |
| DlqReprocess.RowsOnlyJoin | crates/rs-broker-core/src/features/dead_letter/handler.rs:125-137 | The call adds one outbox row for each insert that takes effect and changes no other, and removes at most as many entries as it re-enqueued. |
| DlqReprocess.ReportedAdditions | crates/rs-broker-core/src/features/dead_letter/handler.rs:125-146 | The reported count is the number of rows added if and only if no insert took effect while its answer was an error; otherwise it is smaller. |
| DlqReprocess.SelectableAgain | crates/rs-broker-core/src/features/dead_letter/handler.rs:127-136 | After the call an entry can be selected again if and only if its delete did not take effect. |
| DlqReprocess.InBothTables | crates/rs-broker-core/src/features/dead_letter/handler.rs:125-148 | An entry is still dead-lettered beside the row that its turn added to the outbox if and only if its insert took effect and its delete did not. |
| DlqReprocess.KeptEntryIsDuplicated | crates/rs-broker-core/src/features/dead_letter/handler.rs:127-136 | A later call that puts the same entry in, while its first row still waits, leaves two distinct new rows that carry it. |
| DlqReprocess.RepeatableExactly | crates/rs-broker-core/src/features/dead_letter/handler.rs:83-152 | There is a second call, on a selection from the tables the first one left, that ends with a second new row for an entry beside the first call's, if and only if the first call's insert took effect and its delete did not. |
| DlqReprocess.Store.Select | crates/rs-broker-core/src/features/dead_letter/handler.rs:88-103 | Selects the one entry asked for, or the newest 10,000 of a topic or of all. |
| DlqReprocess.SelectionIsNewest | crates/rs-broker-core/src/features/dead_letter/handler.rs:93-102 | A listing selector yields entries of its topic, or of any, at most 10,000, and leaves one out only if it yields 10,000 that are no older. |

## Left out

- Ports answer as they like: which statements fail, which answers get lost, what the
  sink says and how much time passes is left open. Each port keeps a journal of its
  calls, which the program does not have; the contracts use it to say which calls
  were made.
- Several publishers inside `PublishPending`: the method has the table to itself;
  interleavings are the protocol's, whose steps the method is proved to take.
- Partly visible statements: each SQL statement is one atomic step that reads the
  clock once. A claim of the protocol may take any claimable rows up to the limit,
  which covers what `SKIP LOCKED` can miss. A statement that takes effect while its
  answer is an error is part of the model: only a claim and the insert of
  `reprocess` act on their answer, and they have a case for it.
- The order of `RETURNING *`: no contract promises one.
- Deletion of rows: cancelling a message and the clean-up function of the schema.
- The MySQL adapter, whose claim is a read, and the unguarded `mark_published`,
  which the drain does not call.
- `error_message` and `published_at`, which no step reads.
- `calculate_delay`, whose result is only logged.
- JSON: payloads are opaque; whether a received payload parses is an input.
- `dispatch_to_all` and `outcome_to_delivery_result`: a fan-out is one Begin and
  one End event for each matching subscriber, in any order, which the
  interleavings cover; the result record is field copying.
- `apply_batch`, registration, transports, configuration, metrics.
- Two `reprocess` calls at once, and entries deleted by others meanwhile.
- The breaker in the endpoint map is a value inside its entry, as in the source;
  the class of the same component is proved equal to that value, step by step.
- `AttemptsLeft` and the progress results say nothing about backpressure, under
  which a row can be put back for ever.
