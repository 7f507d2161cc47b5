/** Any number of publishers draining one outbox table, as a step system.

    A publisher claims a batch in one statement, then sends the claimed messages
    one by one, and marks the accepted ones in one last statement. A send and the
    statement that follows it are two steps, so that other publishers can act in
    between. A publisher can crash at any step, any statement can be lost, and
    nothing stops a publisher from acting after its lease has run out. */
module DrainProtocol {
  import opened Common
  import opened OutboxTable
  import opened RetryPolicy

  datatype SendOutcome = Accepted | Backpressure | TransportError

  datatype OutboundMessage = OutboundMessage(topic: string, key: Option<string>, payload: string)

  /** A row as `RETURNING *` handed it to the claiming publisher. */
  datatype Claim = Claim(id: Uuid, retryCount: int, content: Content)

  /** The statement a publisher still owes the table after a failed send. */
  datatype Debt =
    | NoDebt
    | Release(id: Uuid)
    | Increment(id: Uuid)
    | DeadLetterSend(claim: Claim)
    | SetStatus(id: Uuid, status: MessageStatus)

  datatype Publisher =
    | Resting
    | Draining(claimedAt: int, todo: seq<Claim>, debt: Debt, published: seq<Uuid>)

  datatype Config = Config(policy: Policy, batchSize: nat)

  datatype State = State(config: Config, clock: int, table: Table, publishers: seq<Publisher>)

  datatype Event =
    | Accept(id: Uuid, content: Content, createdAt: int, updatedAt: int)
    | Advance(elapsed: nat)
    | LoseClaim(p: nat)
    | ClaimBatch(p: nat, ids: seq<Uuid>)
    | ClaimUnheard(p: nat, ids: seq<Uuid>)
    | Send(p: nat, outcome: SendOutcome)
    | SendDeadLetter(p: nat, outcome: SendOutcome)
    | Write(p: nat)
    | LoseWrite(p: nat)
    | MarkBatch(p: nat)
    | LoseMark(p: nat)
    | Finish(p: nat)
    | Crash(p: nat)

  function Outbound(content: Content): OutboundMessage {
    OutboundMessage(content.topic, content.partitionKey, content.payload)
  }

  function Claims(table: Table, ids: seq<Uuid>): seq<Claim>
    requires forall id :: id in ids ==> id in table
  {
    seq(|ids|, i requires 0 <= i < |ids| => Claim(ids[i], table[ids[i]].retryCount, table[ids[i]].content))
  }

  /** What the publisher does next, once the sink has answered for `claim`. */
  function DebtAfter(claim: Claim, outcome: SendOutcome, policy: Policy): Debt {
    match outcome
    case Accepted => NoDebt
    case Backpressure => Release(claim.id)
    case TransportError =>
      match EvaluatePublishFailure(claim.retryCount, policy)
      case Retry => Increment(claim.id)
      case DeadLetter(_) => DeadLetterSend(claim)
      case Fail => SetStatus(claim.id, Failed)
  }

  function AfterSend(d: Publisher, outcome: SendOutcome, policy: Policy): Publisher
    requires d.Draining? && d.todo != []
  {
    var claim := d.todo[0];
    d.(todo := d.todo[1..],
       debt := DebtAfter(claim, outcome, policy),
       published := if outcome.Accepted? then d.published + [claim.id] else d.published)
  }

  predicate CanPay(table: Table, debt: Debt) {
    match debt
    case Release(_) => true
    case Increment(id) => CanIncrement(table, id)
    case SetStatus(_, _) => true
    case _ => false
  }

  function Paid(table: Table, debt: Debt, now: int): Table
    requires CanPay(table, debt)
  {
    match debt
    case Release(id) => Released(table, id, now)
    case Increment(id) => Incremented(table, id, now)
    case SetStatus(id, status) => Updated(table, id, status, now)
  }

  predicate Busy(s: State, p: nat) {
    p < |s.publishers| && s.publishers[p].Draining?
  }

  /** Rows a claim may take, by a publisher that is free to. */
  predicate CanClaim(s: State, p: nat, ids: seq<Uuid>) {
    && p < |s.publishers| && s.publishers[p].Resting?
    && |ids| <= s.config.batchSize && NoDuplicates(ids)
    && forall id :: id in ids ==> id in s.table && Claimable(s.table[id], s.clock)
  }

  /** A claim may take any claimable rows up to the batch size. `SKIP LOCKED`
      lets it miss rows that another statement holds, so "the oldest ones" is
      promised only when nobody else is at work (see module Publisher). A claim
      that takes effect while its answer is lost gives the rows to nobody. */
  predicate Enabled(s: State, e: Event) {
    match e
    case Accept(id, _, _, _) => id !in s.table
    case Advance(_) => true
    case LoseClaim(p) => p < |s.publishers| && s.publishers[p].Resting?
    case ClaimBatch(p, ids) => CanClaim(s, p, ids)
    case ClaimUnheard(p, ids) => CanClaim(s, p, ids)
    case Send(p, _) => Busy(s, p) && s.publishers[p].debt.NoDebt? && s.publishers[p].todo != []
    case SendDeadLetter(p, _) => Busy(s, p) && s.publishers[p].debt.DeadLetterSend?
    case Write(p) => Busy(s, p) && CanPay(s.table, s.publishers[p].debt)
    case LoseWrite(p) =>
      Busy(s, p) && !s.publishers[p].debt.NoDebt? && !s.publishers[p].debt.DeadLetterSend?
    case MarkBatch(p) => Done(s, p) && s.publishers[p].published != []
    case LoseMark(p) => Done(s, p) && s.publishers[p].published != []
    case Finish(p) => Done(s, p) && s.publishers[p].published == []
    case Crash(p) => Busy(s, p)
  }

  predicate Done(s: State, p: nat) {
    Busy(s, p) && s.publishers[p].todo == [] && s.publishers[p].debt.NoDebt?
  }

  function Apply(s: State, e: Event): State
    requires Enabled(s, e)
  {
    match e
    case Accept(id, content, createdAt, updatedAt) =>
      s.(table := s.table[id := Row(content, Pending, 0, createdAt, updatedAt)])
    case Advance(elapsed) =>
      s.(clock := s.clock + elapsed)
    case LoseClaim(_) => s
    case ClaimBatch(p, ids) =>
      s.(table := Claimed(s.table, Elements(ids), s.clock),
         publishers := s.publishers[p := Draining(s.clock, Claims(s.table, ids), NoDebt, [])])
    case ClaimUnheard(_, ids) =>
      s.(table := Claimed(s.table, Elements(ids), s.clock))
    case Send(p, outcome) =>
      s.(publishers := s.publishers[p := AfterSend(s.publishers[p], outcome, s.config.policy)])
    case SendDeadLetter(p, _) =>
      var d := s.publishers[p];
      s.(publishers := s.publishers[p := d.(debt := SetStatus(d.debt.claim.id, Dlq))])
    case Write(p) =>
      var d := s.publishers[p];
      s.(table := Paid(s.table, d.debt, s.clock),
         publishers := s.publishers[p := d.(debt := NoDebt)])
    case LoseWrite(p) =>
      s.(publishers := s.publishers[p := s.publishers[p].(debt := NoDebt)])
    case MarkBatch(p) =>
      s.(table := Marked(s.table, s.publishers[p].published, s.clock),
         publishers := s.publishers[p := Resting])
    case LoseMark(p) =>
      s.(publishers := s.publishers[p := Resting])
    case Finish(p) =>
      s.(publishers := s.publishers[p := Resting])
    case Crash(p) =>
      s.(publishers := s.publishers[p := Resting])
  }

  function AllResting(n: nat): seq<Publisher> {
    seq(n, _ => Resting)
  }

  /** A finite run: where it began and every event since. */
  datatype Trace =
    | Begin(config: Config, publisherCount: nat, clock: int)
    | Extend(prev: Trace, event: Event)

  predicate Feasible(tr: Trace)
    decreases tr, 0
  {
    match tr
    case Begin(_, _, _) => true
    case Extend(prev, e) => Feasible(prev) && Enabled(After(prev), e)
  }

  function After(tr: Trace): State
    requires Feasible(tr)
    decreases tr, 1
  {
    match tr
    case Begin(config, n, clock) => State(config, clock, map[], AllResting(n))
    case Extend(prev, e) => Apply(After(prev), e)
  }

  /** `tr` is how the run `later` began. */
  predicate Within(tr: Trace, later: Trace) {
    tr == later || (later.Extend? && Within(tr, later.prev))
  }

  // What an event contributes to the history of one row

  predicate OwnSend(s: State, e: Event, id: Uuid)
    requires Enabled(s, e)
  {
    e.Send? && e.outcome.Accepted? && s.publishers[e.p].todo[0].id == id
  }

  predicate Reclaim(s: State, e: Event, id: Uuid)
    requires Enabled(s, e)
  {
    (e.ClaimBatch? || e.ClaimUnheard?) && id in e.ids && s.table[id].status.Publishing?
  }

  /** The sink took the message or its dead-letter copy. */
  predicate Acceptance(s: State, e: Event, id: Uuid)
    requires Enabled(s, e)
  {
    OwnSend(s, e, id) || (e.SendDeadLetter? && e.outcome.Accepted? && s.publishers[e.p].debt.claim.id == id)
  }

  /** The sink refused the message with an error, not for want of room. */
  predicate Refusal(s: State, e: Event, id: Uuid)
    requires Enabled(s, e)
  {
    e.Send? && e.outcome.TransportError? && s.publishers[e.p].todo[0].id == id
  }

  predicate EffectiveIncrement(s: State, e: Event, id: Uuid)
    requires Enabled(s, e)
  {
    e.Write? && s.publishers[e.p].debt == Increment(id)
  }

  /** The sink took the message, but the publisher that knew it is gone, or its
      final statement was lost. */
  predicate LostMark(s: State, e: Event, id: Uuid)
    requires Enabled(s, e)
  {
    (e.Crash? || e.LoseMark?) && id in s.publishers[e.p].published
  }

  function OwnSends(tr: Trace, id: Uuid): nat
    requires Feasible(tr)
  {
    match tr
    case Begin(_, _, _) => 0
    case Extend(prev, e) => OwnSends(prev, id) + One(OwnSend(After(prev), e, id))
  }

  function Acceptances(tr: Trace, id: Uuid): nat
    requires Feasible(tr)
  {
    match tr
    case Begin(_, _, _) => 0
    case Extend(prev, e) => Acceptances(prev, id) + One(Acceptance(After(prev), e, id))
  }

  function Refusals(tr: Trace, id: Uuid): nat
    requires Feasible(tr)
  {
    match tr
    case Begin(_, _, _) => 0
    case Extend(prev, e) => Refusals(prev, id) + One(Refusal(After(prev), e, id))
  }

  function Reclaims(tr: Trace, id: Uuid): nat
    requires Feasible(tr)
  {
    match tr
    case Begin(_, _, _) => 0
    case Extend(prev, e) => Reclaims(prev, id) + One(Reclaim(After(prev), e, id))
  }

  function Increments(tr: Trace, id: Uuid): nat
    requires Feasible(tr)
  {
    match tr
    case Begin(_, _, _) => 0
    case Extend(prev, e) => Increments(prev, id) + One(EffectiveIncrement(After(prev), e, id))
  }

  function LostMarks(tr: Trace, id: Uuid): nat
    requires Feasible(tr)
  {
    match tr
    case Begin(_, _, _) => 0
    case Extend(prev, e) => LostMarks(prev, id) + One(LostMark(After(prev), e, id))
  }

  // What the sink and the store see of a run

  /** A message the sink was offered, its answer, and the row it came from. */
  datatype Offer = Offer(id: Uuid, deadLetter: bool, message: OutboundMessage, outcome: SendOutcome)

  function Offers(tr: Trace): seq<Offer>
    requires Feasible(tr)
  {
    match tr
    case Begin(_, _, _) => []
    case Extend(prev, e) => Offers(prev) + Offered(After(prev), e)
  }

  function Offered(s: State, e: Event): seq<Offer>
    requires Enabled(s, e)
  {
    match e
    case Send(p, outcome) =>
      var claim := s.publishers[p].todo[0];
      [Offer(claim.id, false, Outbound(claim.content), outcome)]
    case SendDeadLetter(p, outcome) =>
      var claim := s.publishers[p].debt.claim;
      [Offer(claim.id, true, Outbound(claim.content).(topic := s.config.policy.dlqTopic), outcome)]
    case _ => []
  }

  datatype Statement = Claiming(heard: bool) | Paying(debt: Debt) | Marking(ids: seq<Uuid>)

  /** A statement the store was asked to run, and whether it took effect. For a
      claim, whose answer matters, the statement says if the answer was heard. */
  datatype Entry = Entry(statement: Statement, done: bool)

  function Journal(tr: Trace): seq<Entry>
    requires Feasible(tr)
  {
    match tr
    case Begin(_, _, _) => []
    case Extend(prev, e) => Journal(prev) + Entries(After(prev), e)
  }

  function Entries(s: State, e: Event): seq<Entry>
    requires Enabled(s, e)
  {
    match e
    case LoseClaim(_) => [Entry(Claiming(false), false)]
    case ClaimBatch(_, _) => [Entry(Claiming(true), true)]
    case ClaimUnheard(_, _) => [Entry(Claiming(false), true)]
    case Write(p) => [Entry(Paying(s.publishers[p].debt), true)]
    case LoseWrite(p) => [Entry(Paying(s.publishers[p].debt), false)]
    case MarkBatch(p) => [Entry(Marking(s.publishers[p].published), true)]
    case LoseMark(p) => [Entry(Marking(s.publishers[p].published), false)]
    case _ => []
  }

  /** The events of a run without the passing of time. */
  function Steps(tr: Trace): seq<Event> {
    match tr
    case Begin(_, _, _) => []
    case Extend(prev, Advance(_)) => Steps(prev)
    case Extend(prev, e) => Steps(prev) + [e]
  }
}
