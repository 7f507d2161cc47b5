/** One call of the drain by a publisher that has the table to itself: which rows
    it claims, and what it leaves behind for each sink answer. */
module DrainTick {
  import opened Common
  import opened OutboxTable
  import opened RetryPolicy
  import opened DrainProtocol

  /** `ids`, in any order, are the oldest claimable rows, as many as the limit
      allows. Rows of equal age may be taken in any order. */
  ghost predicate OldestBatch(table: Table, now: int, limit: int, ids: seq<Uuid>) {
    && NoDuplicates(ids)
    && (forall id :: id in ids ==> id in table && Claimable(table[id], now))
    && |ids| <= limit
    && (|ids| < limit ==> forall id :: id in table && Claimable(table[id], now) ==> id in ids)
    && (forall x, y :: x in ids && y in table && y !in ids && Claimable(table[y], now) ==>
                         table[x].createdAt <= table[y].createdAt)
  }

  function SettledStatus(retryCount: int, outcome: SendOutcome, policy: Policy): MessageStatus {
    match outcome
    case Accepted => Published
    case Backpressure => Pending
    case TransportError =>
      match EvaluatePublishFailure(retryCount, policy)
      case Retry => Retrying
      case DeadLetter(_) => Dlq
      case Fail => Failed
  }

  function SettledRetries(retryCount: int, outcome: SendOutcome, policy: Policy): int {
    if SettledStatus(retryCount, outcome, policy).Retrying? then retryCount + 1 else retryCount
  }

  /** A row before the call and after it. When the statement that was to settle
      it is lost, the row stays `publishing` until its lease runs out. */
  predicate Settles(before: Row, after: Row, outcome: SendOutcome, kept: bool, policy: Policy) {
    && after.content == before.content && after.createdAt == before.createdAt
    && after.status == (if kept then SettledStatus(before.retryCount, outcome, policy) else Publishing)
    && after.retryCount == (if kept then SettledRetries(before.retryCount, outcome, policy) else before.retryCount)
  }

  /** What one call did: when it claimed, which rows, what the sink answered for
      each, and whether the row's last statement reached the table. */
  datatype Tick = Tick(now: int, ids: seq<Uuid>, outcomes: seq<SendOutcome>, kept: seq<bool>)

  ghost predicate TickStep(before: Table, tick: Tick, after: Table, limit: int, policy: Policy) {
    && |tick.ids| == |tick.outcomes| == |tick.kept|
    && OldestBatch(before, tick.now, limit, tick.ids)
    && (forall id :: id in before ==> id in after)
    && (forall i :: 0 <= i < |tick.ids| ==>
          Settles(before[tick.ids[i]], after[tick.ids[i]], tick.outcomes[i], tick.kept[i], policy))
    && (forall id :: id in before && id !in tick.ids ==> after[id] == before[id])
  }

  predicate Faultless(tick: Tick) {
    forall kept :: kept in tick.kept ==> kept
  }

  predicate Unhindered(tick: Tick) {
    Faultless(tick) && Backpressure !in tick.outcomes
  }

  function Eligible(table: Table, now: int): set<Uuid> {
    set id | id in table && Claimable(table[id], now)
  }

  /** A batch holds the limit, or everything there is to claim. */
  lemma BatchSize(table: Table, now: int, limit: nat, ids: seq<Uuid>)
    requires OldestBatch(table, now, limit, ids)
    ensures |ids| == if |Eligible(table, now)| < limit then |Eligible(table, now)| else limit
  {
    var eligible := Eligible(table, now);
    DistinctCardinality(ids);
    assert Elements(ids) <= eligible;
    SubsetCardinality(Elements(ids), eligible);
    if |ids| < limit {
      forall id | id in eligible ensures id in Elements(ids) { }
      assert Elements(ids) == eligible;
    }
  }

  /** Main result for one call without faults: it sorts the claimed rows into
      published, released, retried and dead, by what the sink answered; nothing
      stays claimed. */
  lemma FaultlessTickSorts(before: Table, tick: Tick, after: Table, limit: int, policy: Policy, i: nat)
    requires TickStep(before, tick, after, limit, policy) && Faultless(tick) && i < |tick.ids|
    ensures var row, was := after[tick.ids[i]], before[tick.ids[i]];
            && !row.status.Publishing?
            && (row.status.Published? <==> tick.outcomes[i].Accepted?)
            && (row.status.Pending? <==> tick.outcomes[i].Backpressure?)
            && (row.status.Retrying?
                <==> tick.outcomes[i].TransportError? && AttemptsSoFar(was.retryCount) < policy.maxRetries)
            && (row.status.Dlq? || row.status.Failed?
                <==> tick.outcomes[i].TransportError? && AttemptsSoFar(was.retryCount) >= policy.maxRetries)
            && (row.status.Dlq? ==> policy.enableDlq) && (row.status.Failed? ==> !policy.enableDlq)
            && row.retryCount == was.retryCount + One(row.status.Retrying?)
  {
    assert tick.kept[i] in tick.kept;
    assert Settles(before[tick.ids[i]], after[tick.ids[i]], tick.outcomes[i], tick.kept[i], policy);
  }

  /** A release gives a row the status it had before the claim exactly if that was
      `pending`. */
  lemma ReleaseKeepsPendingOnly(before: Table, tick: Tick, after: Table, limit: int, policy: Policy, i: nat)
    requires TickStep(before, tick, after, limit, policy) && i < |tick.ids|
    requires tick.outcomes[i].Backpressure? && tick.kept[i]
    ensures after[tick.ids[i]].status == before[tick.ids[i]].status <==> before[tick.ids[i]].status.Pending?
  {
    assert Settles(before[tick.ids[i]], after[tick.ids[i]], tick.outcomes[i], tick.kept[i], policy);
  }
}
