/** What holds in every run of the drain: crashes, lost statements and
    publishers that act after their lease are all allowed. */
module DrainSafety {
  import opened Common
  import opened OutboxTable
  import opened RetryPolicy
  import opened DrainProtocol

  // ---------- The inductive invariant ----------

  predicate ClaimOk(table: Table, c: Claim) {
    c.id in table && table[c.id].content == c.content && 0 <= c.retryCount <= table[c.id].retryCount
  }

  /** A publisher only ever owes a terminal status for a row whose retries are
      used up, and which terminal status is a matter of configuration. */
  predicate Exhausted(table: Table, id: Uuid, policy: Policy) {
    id in table && table[id].retryCount >= policy.maxRetries
  }

  predicate LadderEnd(status: MessageStatus, policy: Policy) {
    status == if policy.enableDlq then Dlq else Failed
  }

  predicate DebtOk(table: Table, debt: Debt, policy: Policy) {
    match debt
    case NoDebt => true
    case Release(id) => id in table
    case Increment(id) => id in table
    case DeadLetterSend(c) => ClaimOk(table, c) && Exhausted(table, c.id, policy) && policy.enableDlq
    case SetStatus(id, status) => Exhausted(table, id, policy) && LadderEnd(status, policy)
  }

  predicate PublisherOk(table: Table, d: Publisher, policy: Policy) {
    d.Draining? ==>
      && (forall c :: c in d.todo ==> ClaimOk(table, c))
      && DebtOk(table, d.debt, policy)
      && (forall id :: id in d.published ==> id in table)
  }

  predicate RowOk(row: Row, policy: Policy) {
    && row.retryCount >= 0
    && (row.status.Dlq? || row.status.Failed? ==>
          row.retryCount >= policy.maxRetries && LadderEnd(row.status, policy))
  }

  ghost predicate Inv(s: State) {
    && (forall p :: 0 <= p < |s.publishers| ==> PublisherOk(s.table, s.publishers[p], s.config.policy))
    && (forall id :: id in s.table ==> RowOk(s.table[id], s.config.policy))
  }

  /** Rows stay, their content stays, and their retry count never goes down. */
  ghost predicate Grows(t: Table, t': Table) {
    forall id :: id in t ==>
      id in t' && t'[id].content == t[id].content && t[id].retryCount <= t'[id].retryCount
  }

  lemma StepGrows(s: State, e: Event)
    requires Enabled(s, e)
    ensures Grows(s.table, Apply(s, e).table)
    ensures Apply(s, e).config == s.config && |Apply(s, e).publishers| == |s.publishers|
  {
  }

  /** Whatever a statement changes it stamps with the clock. */
  lemma WritesAreStamped(s: State, e: Event, id: Uuid)
    requires Enabled(s, e) && id in s.table && Apply(s, e).table[id] != s.table[id]
    ensures Apply(s, e).table[id].updatedAt == s.clock && Apply(s, e).table[id].createdAt == s.table[id].createdAt
  {
  }

  /** A row enters the table waiting, with its message and no retries. */
  lemma NewRowsWait(s: State, e: Event, id: Uuid)
    requires Enabled(s, e) && id !in s.table && id in Apply(s, e).table
    ensures e.Accept? && e.id == id
    ensures var row := Apply(s, e).table[id];
            && row.status.Pending? && row.retryCount == 0
            && row.content == e.content && row.createdAt == e.createdAt && row.updatedAt == e.updatedAt
  {
  }

  lemma StepKeepsRows(s: State, e: Event)
    requires Enabled(s, e) && Inv(s)
    ensures forall id :: id in Apply(s, e).table ==> RowOk(Apply(s, e).table[id], s.config.policy)
  {
    if e.Write? {
      assert PublisherOk(s.table, s.publishers[e.p], s.config.policy);
    }
  }

  /** The publisher an event moves, if any. */
  predicate Moves(e: Event, p: nat) {
    !e.Accept? && !e.Advance? && e.p == p
  }

  lemma StepKeepsOwnPublisher(s: State, e: Event, p: nat)
    requires Enabled(s, e) && Inv(s) && Moves(e, p)
    ensures PublisherOk(Apply(s, e).table, Apply(s, e).publishers[p], s.config.policy)
  {
    StepGrows(s, e);
    var d := s.publishers[p];
    assert PublisherOk(s.table, d, s.config.policy);
    if e.Send? {
      assert ClaimOk(s.table, d.todo[0]);
    }
  }

  lemma StepKeepsInv(s: State, e: Event)
    requires Enabled(s, e) && Inv(s)
    ensures Inv(Apply(s, e))
  {
    var s' := Apply(s, e);
    StepGrows(s, e);
    StepKeepsRows(s, e);
    forall p | 0 <= p < |s'.publishers|
      ensures PublisherOk(s'.table, s'.publishers[p], s'.config.policy)
    {
      if Moves(e, p) {
        StepKeepsOwnPublisher(s, e, p);
      } else {
        assert s'.publishers[p] == s.publishers[p];
        assert PublisherOk(s.table, s.publishers[p], s.config.policy);
      }
    }
  }

  lemma {:induction false} AlwaysInv(tr: Trace)
    requires Feasible(tr)
    ensures Inv(After(tr))
  {
    if tr.Extend? {
      AlwaysInv(tr.prev);
      StepKeepsInv(After(tr.prev), tr.event);
    }
  }

  // ---------- The send budget ----------

  /** How many sends of `id` the claims in this list still allow. */
  function Count(todo: seq<Claim>, id: Uuid): nat {
    if todo == [] then 0 else One(todo[0].id == id) + Count(todo[1..], id)
  }

  /** A debt that still allows a send, now of the dead-letter copy or later. */
  function OwesSend(debt: Debt, id: Uuid): nat {
    match debt
    case Release(x) => One(x == id)
    case Increment(x) => One(x == id)
    case DeadLetterSend(c) => One(c.id == id)
    case _ => 0
  }

  function Outstanding(d: Publisher, id: Uuid): nat {
    if d.Resting? then 0 else Count(d.todo, id) + OwesSend(d.debt, id)
  }

  function OutstandingAll(ps: seq<Publisher>, id: Uuid): nat {
    if ps == [] then 0 else Outstanding(ps[0], id) + OutstandingAll(ps[1..], id)
  }

  lemma {:induction false} OutstandingUpdate(ps: seq<Publisher>, p: nat, d: Publisher, id: Uuid)
    requires p < |ps|
    ensures OutstandingAll(ps[p := d], id) + Outstanding(ps[p], id) == OutstandingAll(ps, id) + Outstanding(d, id)
  {
    if p == 0 {
      assert ps[p := d][1..] == ps[1..];
    } else {
      assert ps[p := d][1..] == ps[1..][p - 1 := d];
      OutstandingUpdate(ps[1..], p - 1, d, id);
    }
  }

  lemma {:induction false} ClaimedOnce(table: Table, ids: seq<Uuid>, id: Uuid)
    requires NoDuplicates(ids) && forall x :: x in ids ==> x in table
    ensures Count(Claims(table, ids), id) == One(id in ids)
  {
    if ids != [] {
      assert Claims(table, ids)[1..] == Claims(table, ids[1..]);
      assert NoDuplicates(ids[1..]) by {
        forall i, j | 0 <= i < j < |ids[1..]| ensures ids[1..][i] != ids[1..][j] {
          assert ids[i + 1] != ids[j + 1];
        }
      }
      ClaimedOnce(table, ids[1..], id);
      assert ids == [ids[0]] + ids[1..];
    }
  }

  /** A row in a waiting status allows one more send. */
  function Available(table: Table, id: Uuid): nat {
    One(id in table && table[id].status.Waiting())
  }

  function Budget(s: State, id: Uuid): nat {
    OutstandingAll(s.publishers, id) + Available(s.table, id)
  }

  /** What the acting publisher and the row do to the budget. */
  lemma OwnSpending(s: State, e: Event, id: Uuid)
    requires Enabled(s, e) && Inv(s) && !e.Accept? && !e.Advance?
    ensures Outstanding(Apply(s, e).publishers[e.p], id) + Available(Apply(s, e).table, id) + One(Acceptance(s, e, id))
            <= Outstanding(s.publishers[e.p], id) + Available(s.table, id) + One(Reclaim(s, e, id))
  {
    match e
    case ClaimBatch(_, ids) => ClaimedOnce(s.table, ids, id);
    case Send(p, _) => assert Count(s.publishers[p].todo, id)
                           == One(s.publishers[p].todo[0].id == id) + Count(s.publishers[p].todo[1..], id);
    case Write(p) => assert PublisherOk(s.table, s.publishers[p], s.config.policy);
    case _ =>
  }

  lemma StepSpendsBudget(s: State, e: Event, id: Uuid)
    requires Enabled(s, e) && Inv(s)
    ensures Budget(Apply(s, e), id) + One(Acceptance(s, e, id))
            <= Budget(s, id) + One(Reclaim(s, e, id)) + One(e.Accept? && e.id == id)
  {
    if !e.Accept? && !e.Advance? {
      OwnSpending(s, e, id);
      OutstandingUpdate(s.publishers, e.p, Apply(s, e).publishers[e.p], id);
      assert Apply(s, e).publishers == s.publishers[e.p := Apply(s, e).publishers[e.p]];
    }
  }

  lemma {:induction false} NothingOutstandingAtStart(n: nat, id: Uuid)
    ensures OutstandingAll(AllResting(n), id) == 0
  {
    if n > 0 {
      assert AllResting(n)[1..] == AllResting(n - 1);
      NothingOutstandingAtStart(n - 1, id);
    }
  }

  lemma {:induction false} SendBudget(tr: Trace, id: Uuid)
    requires Feasible(tr)
    ensures Acceptances(tr, id) + Budget(After(tr), id) <= One(id in After(tr).table) + Reclaims(tr, id)
  {
    match tr
    case Begin(_, n, _) => NothingOutstandingAtStart(n, id);
    case Extend(prev, e) =>
      SendBudget(prev, id);
      AlwaysInv(prev);
      StepSpendsBudget(After(prev), e, id);
      StepGrows(After(prev), e);
  }

  lemma {:induction false} OwnSendsWithin(tr: Trace, id: Uuid)
    requires Feasible(tr)
    ensures OwnSends(tr, id) <= Acceptances(tr, id)
  {
    if tr.Extend? {
      OwnSendsWithin(tr.prev, id);
    }
  }

  /** Main result: a row is accepted by the sink, as itself or as its dead-letter
      copy, at most once more than it was taken back from a publisher whose lease
      had run out. */
  lemma SendsBounded(tr: Trace, id: Uuid)
    requires Feasible(tr)
    ensures OwnSends(tr, id) <= Acceptances(tr, id) <= 1 + Reclaims(tr, id)
  {
    SendBudget(tr, id);
    OwnSendsWithin(tr, id);
  }

  // ---------- The budget is tight ----------

  /** A publisher claims the one row, sends it, and dies before the mark; the
      clock then passes the lease. */
  ghost function DieAfterSend(tr: Trace, id: Uuid): Trace {
    Extend(Extend(Extend(Extend(tr,
      ClaimBatch(0, [id])), Send(0, Accepted)), Crash(0)), Advance(CLAIM_LEASE + 1))
  }

  ghost function Worst(config: Config, row: Row, id: Uuid, n: nat): Trace {
    if n == 0
    then Extend(Begin(config, 1, row.createdAt), Accept(id, row.content, row.createdAt, row.updatedAt))
    else DieAfterSend(Worst(config, row, id, n - 1), id)
  }

  lemma ClaimedAlone(tr: Trace, id: Uuid, row: Row)
    requires Feasible(tr) && After(tr).config.batchSize >= 1
    requires After(tr).table == map[id := row] && After(tr).publishers == [Resting]
    requires Claimable(row, After(tr).clock)
    ensures var claimed := Extend(tr, ClaimBatch(0, [id]));
            && Feasible(claimed) && OwnSends(claimed, id) == OwnSends(tr, id)
            && Reclaims(claimed, id) == Reclaims(tr, id) + One(row.status.Publishing?)
            && After(claimed) == State(After(tr).config, After(tr).clock,
                                       map[id := row.(status := Publishing, updatedAt := After(tr).clock)],
                                       [Draining(After(tr).clock, [Claim(id, row.retryCount, row.content)],
                                                 NoDebt, [])])
  {
    var s := After(tr);
    assert Enabled(s, ClaimBatch(0, [id]));
    assert Claims(s.table, [id]) == [Claim(id, row.retryCount, row.content)];
    assert Claimed(s.table, Elements([id]), s.clock) == map[id := row.(status := Publishing, updatedAt := s.clock)];
    assert [Resting][0 := Draining(s.clock, Claims(s.table, [id]), NoDebt, [])]
        == [Draining(s.clock, [Claim(id, row.retryCount, row.content)], NoDebt, [])];
  }

  lemma DieAfterSendState(tr: Trace, id: Uuid, row: Row)
    requires Feasible(tr) && After(tr).config.batchSize >= 1
    requires After(tr).table == map[id := row] && After(tr).publishers == [Resting]
    requires Claimable(row, After(tr).clock)
    ensures Feasible(DieAfterSend(tr, id))
    ensures var s := After(DieAfterSend(tr, id));
            && s.config == After(tr).config && s.publishers == [Resting]
            && s.table == map[id := row.(status := Publishing, updatedAt := After(tr).clock)]
            && s.clock == After(tr).clock + CLAIM_LEASE + 1
    ensures OwnSends(DieAfterSend(tr, id), id) == OwnSends(tr, id) + 1
    ensures Reclaims(DieAfterSend(tr, id), id) == Reclaims(tr, id) + One(row.status.Publishing?)
  {
    ClaimedAlone(tr, id, row);
    var claimed := Extend(tr, ClaimBatch(0, [id]));
    var sent := Extend(claimed, Send(0, Accepted));
    assert Feasible(sent) && OwnSends(sent, id) == OwnSends(claimed, id) + 1;
    assert Reclaims(sent, id) == Reclaims(claimed, id);
    var dead := Extend(sent, Crash(0));
    assert |After(sent).publishers| == 1 && Feasible(dead);
    assert After(dead).publishers == [Resting];
    assert OwnSends(dead, id) == OwnSends(sent, id) && Reclaims(dead, id) == Reclaims(sent, id);
  }

  lemma {:induction false} WorstState(config: Config, row: Row, id: Uuid, n: nat)
    requires config.batchSize >= 1
    ensures Feasible(Worst(config, row, id, n))
    ensures var s := After(Worst(config, row, id, n));
            && s.config == config && s.publishers == [Resting] && s.table.Keys == {id}
            && Claimable(s.table[id], s.clock)
            && (n > 0 ==> s.table[id].status.Publishing?) && (n == 0 ==> s.table[id].status.Pending?)
    ensures OwnSends(Worst(config, row, id, n), id) == n
    ensures Reclaims(Worst(config, row, id, n), id) == if n == 0 then 0 else n - 1
  {
    if n > 0 {
      WorstState(config, row, id, n - 1);
      var tr := Worst(config, row, id, n - 1);
      assert After(tr).table == map[id := After(tr).table[id]];
      DieAfterSendState(tr, id, After(tr).table[id]);
    }
  }

  /** For every number of reclaims there is a run that uses the whole budget. */
  lemma SendsBoundReached(config: Config, row: Row, id: Uuid, n: nat)
    requires config.batchSize >= 1
    ensures exists tr :: Feasible(tr) && Reclaims(tr, id) == n && OwnSends(tr, id) == 1 + Reclaims(tr, id)
  {
    WorstState(config, row, id, n + 1);
  }
}
