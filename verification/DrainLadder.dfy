/** The retry count and the end of the retry ladder, in every run. */
module DrainLadder {
  import opened Common
  import opened OutboxTable
  import opened RetryPolicy
  import opened DrainProtocol
  import opened DrainSafety

  /** The retry count counts the effective `increment_retry` statements and
      nothing else: backpressure, crashes and lost statements never add one. */
  lemma {:induction false} RetryCountIsIncrements(tr: Trace, id: Uuid)
    requires Feasible(tr)
    ensures id in After(tr).table ==> After(tr).table[id].retryCount == Increments(tr, id)
    ensures id !in After(tr).table ==> Increments(tr, id) == 0
  {
    if tr.Extend? {
      RetryCountIsIncrements(tr.prev, id);
    }
  }

  /** A dead-lettered or failed row has used up its retries, and which of the
      two it became is the configuration's choice. */
  lemma {:induction false} DeadRowsAreExhausted(tr: Trace, id: Uuid)
    requires Feasible(tr) && id in After(tr).table
    requires After(tr).table[id].status.Dlq? || After(tr).table[id].status.Failed?
    ensures Increments(tr, id) >= After(tr).config.policy.maxRetries
    ensures After(tr).table[id].status.Dlq? <==> After(tr).config.policy.enableDlq
  {
    AlwaysInv(tr);
    RetryCountIsIncrements(tr, id);
  }

  // ---------- Dead rows and the sink ----------

  /** A settling statement that a refusal of `id` still has to its credit. */
  function OwesLadder(d: Publisher, id: Uuid): nat {
    if d.Resting? then 0 else
    match d.debt
    case Increment(x) => One(x == id)
    case DeadLetterSend(c) => One(c.id == id)
    case SetStatus(x, _) => One(x == id)
    case _ => 0
  }

  function OwesLadderAll(ps: seq<Publisher>, id: Uuid): nat {
    if ps == [] then 0 else OwesLadder(ps[0], id) + OwesLadderAll(ps[1..], id)
  }

  lemma {:induction false} OwesLadderUpdate(ps: seq<Publisher>, p: nat, d: Publisher, id: Uuid)
    requires p < |ps|
    ensures OwesLadderAll(ps[p := d], id) + OwesLadder(ps[p], id) == OwesLadderAll(ps, id) + OwesLadder(d, id)
  {
    if p == 0 {
      assert ps[p := d][1..] == ps[1..];
    } else {
      assert ps[p := d][1..] == ps[1..][p - 1 := d];
      OwesLadderUpdate(ps[1..], p - 1, d, id);
    }
  }

  lemma {:induction false} NothingOwedAtStart(n: nat, id: Uuid)
    ensures OwesLadderAll(AllResting(n), id) == 0
  {
    if n > 0 {
      assert AllResting(n)[1..] == AllResting(n - 1);
      NothingOwedAtStart(n - 1, id);
    }
  }

  function Dead(table: Table, id: Uuid): nat {
    One(id in table && (table[id].status.Dlq? || table[id].status.Failed?))
  }

  lemma StepLadder(s: State, e: Event, id: Uuid)
    requires Enabled(s, e)
    ensures OwesLadderAll(Apply(s, e).publishers, id) + Dead(Apply(s, e).table, id) + One(EffectiveIncrement(s, e, id))
            <= OwesLadderAll(s.publishers, id) + Dead(s.table, id) + One(Refusal(s, e, id))
  {
    if !e.Accept? && !e.Advance? {
      OwesLadderUpdate(s.publishers, e.p, Apply(s, e).publishers[e.p], id);
      assert Apply(s, e).publishers == s.publishers[e.p := Apply(s, e).publishers[e.p]];
    }
  }

  /** Each refusal pays for one step of the ladder. */
  lemma {:induction false} RefusalsPay(tr: Trace, id: Uuid)
    requires Feasible(tr)
    ensures Increments(tr, id) + OwesLadderAll(After(tr).publishers, id) + Dead(After(tr).table, id) <= Refusals(tr, id)
  {
    match tr
    case Begin(_, n, _) => NothingOwedAtStart(n, id);
    case Extend(prev, e) =>
      RefusalsPay(prev, id);
      StepLadder(After(prev), e, id);
  }

  /** Main result: whatever else went wrong, a row is only given up after the sink
      has refused it more often than there are retries. */
  lemma DeadRowsWereRefused(tr: Trace, id: Uuid)
    requires Feasible(tr) && id in After(tr).table
    requires After(tr).table[id].status.Dlq? || After(tr).table[id].status.Failed?
    ensures Refusals(tr, id) >= After(tr).config.policy.maxRetries + 1
  {
    DeadRowsAreExhausted(tr, id);
    RefusalsPay(tr, id);
  }

  // ---------- How far past the limit stale publishers can push it ----------

  /** Claims of `id` that can still end in an increment. */
  function Spendable(todo: seq<Claim>, id: Uuid, max: nat): nat {
    if todo == [] then 0
    else One(todo[0].id == id && AttemptsSoFar(todo[0].retryCount) < max) + Spendable(todo[1..], id, max)
  }

  function Spending(d: Publisher, id: Uuid, max: nat): nat {
    if d.Resting? then 0 else Spendable(d.todo, id, max) + One(d.debt == Increment(id))
  }

  function SpendingAll(ps: seq<Publisher>, id: Uuid, max: nat): nat {
    if ps == [] then 0 else Spending(ps[0], id, max) + SpendingAll(ps[1..], id, max)
  }

  lemma {:induction false} SpendingUpdate(ps: seq<Publisher>, p: nat, d: Publisher, id: Uuid, max: nat)
    requires p < |ps|
    ensures SpendingAll(ps[p := d], id, max) + Spending(ps[p], id, max)
            == SpendingAll(ps, id, max) + Spending(d, id, max)
  {
    if p == 0 {
      assert ps[p := d][1..] == ps[1..];
    } else {
      assert ps[p := d][1..] == ps[1..][p - 1 := d];
      SpendingUpdate(ps[1..], p - 1, d, id, max);
    }
  }

  lemma {:induction false} SpendableWithinCount(todo: seq<Claim>, id: Uuid, max: nat)
    ensures Spendable(todo, id, max) <= Count(todo, id)
  {
    if todo != [] {
      SpendableWithinCount(todo[1..], id, max);
    }
  }

  lemma {:induction false} SpendingWithinOutstanding(ps: seq<Publisher>, id: Uuid, max: nat)
    ensures SpendingAll(ps, id, max) <= OutstandingAll(ps, id)
  {
    if ps != [] {
      SpendingWithinOutstanding(ps[1..], id, max);
      if ps[0].Draining? {
        SpendableWithinCount(ps[0].todo, id, max);
      }
    }
  }

  /** Fresh claims of a row that has no retries left cannot be spent. */
  lemma {:induction false} ExhaustedClaims(table: Table, ids: seq<Uuid>, id: Uuid, max: nat)
    requires forall x :: x in ids ==> x in table
    requires id in table ==> table[id].retryCount >= max
    ensures Spendable(Claims(table, ids), id, max) == 0
  {
    if ids != [] {
      assert Claims(table, ids)[1..] == Claims(table, ids[1..]);
      ExhaustedClaims(table, ids[1..], id, max);
    }
  }

  lemma StepSpending(s: State, e: Event, id: Uuid)
    requires Enabled(s, e) && Inv(s)
    requires id in s.table ==> s.table[id].retryCount >= s.config.policy.maxRetries
    ensures SpendingAll(Apply(s, e).publishers, id, s.config.policy.maxRetries) + One(EffectiveIncrement(s, e, id))
            <= SpendingAll(s.publishers, id, s.config.policy.maxRetries)
  {
    var max := s.config.policy.maxRetries;
    if !e.Accept? && !e.Advance? {
      SpendingUpdate(s.publishers, e.p, Apply(s, e).publishers[e.p], id, max);
      assert Apply(s, e).publishers == s.publishers[e.p := Apply(s, e).publishers[e.p]];
      match e
      case ClaimBatch(_, ids) => ExhaustedClaims(s.table, ids, id, max);
      case Send(p, _) => assert Spendable(s.publishers[p].todo, id, max)
                             == One(s.publishers[p].todo[0].id == id
                                    && AttemptsSoFar(s.publishers[p].todo[0].retryCount) < max)
                                + Spendable(s.publishers[p].todo[1..], id, max);
      case _ =>
    }
  }

  ghost predicate WithinReclaims(tr: Trace, id: Uuid)
    requires Feasible(tr)
  {
    var max := After(tr).config.policy.maxRetries;
    id in After(tr).table && After(tr).table[id].retryCount >= max ==>
      After(tr).table[id].retryCount + SpendingAll(After(tr).publishers, id, max) <= max + Reclaims(tr, id)
  }

  /** A row that has just reached the limit waits, so its open claims are all due to
      reclaims. */
  lemma {:induction false} LimitJustReached(tr: Trace, id: Uuid)
    requires Feasible(tr) && tr.Extend?
    requires id in After(tr.prev).table ==>
               After(tr.prev).table[id].retryCount < After(tr).config.policy.maxRetries
    ensures WithinReclaims(tr, id)
  {
    SendBudget(tr, id);
    SpendingWithinOutstanding(After(tr).publishers, id, After(tr).config.policy.maxRetries);
  }

  /** Past the limit, every further increment spends a claim taken before. */
  lemma {:induction false} OverrunBudget(tr: Trace, id: Uuid)
    requires Feasible(tr)
    ensures WithinReclaims(tr, id)
  {
    if tr.Extend? {
      var s, e := After(tr.prev), tr.event;
      StepGrows(s, e);
      if id in s.table && s.table[id].retryCount >= s.config.policy.maxRetries {
        AlwaysInv(tr.prev);
        OverrunBudget(tr.prev, id);
        StepSpending(s, e, id);
      } else {
        LimitJustReached(tr, id);
      }
    }
  }

  /** Main result: however publishers overlap, a row's retry count exceeds the
      configured maximum by at most the number of times it was reclaimed. */
  lemma {:induction false} RetryCountBounded(tr: Trace, id: Uuid)
    requires Feasible(tr) && id in After(tr).table
    ensures After(tr).table[id].retryCount <= After(tr).config.policy.maxRetries + Reclaims(tr, id)
  {
    OverrunBudget(tr, id);
  }

  /** A publisher holds a row at most once. */
  ghost predicate HeldOnce(ps: seq<Publisher>, id: Uuid) {
    forall p :: 0 <= p < |ps| ==> Outstanding(ps[p], id) <= 1
  }

  lemma StepHeldOnce(s: State, e: Event, id: Uuid)
    requires Enabled(s, e) && HeldOnce(s.publishers, id)
    ensures HeldOnce(Apply(s, e).publishers, id)
  {
    if e.ClaimBatch? {
      ClaimedOnce(s.table, e.ids, id);
    }
  }

  lemma {:induction false} AlwaysHeldOnce(tr: Trace, id: Uuid)
    requires Feasible(tr)
    ensures HeldOnce(After(tr).publishers, id)
  {
    if tr.Extend? {
      AlwaysHeldOnce(tr.prev, id);
      StepHeldOnce(After(tr.prev), tr.event, id);
    }
  }

  lemma SpendingWithin(d: Publisher, id: Uuid, max: nat)
    ensures Spending(d, id, max) <= Outstanding(d, id)
  {
    if d.Draining? {
      SpendableWithinCount(d.todo, id, max);
    }
  }

  lemma {:induction false} OneSpendableEach(ps: seq<Publisher>, id: Uuid, max: nat)
    requires HeldOnce(ps, id)
    ensures SpendingAll(ps, id, max) <= |ps|
  {
    if ps != [] {
      SpendingWithin(ps[0], id, max);
      OneSpendableEach(ps[1..], id, max);
    }
  }

  /** Nobody holds a row that is not there. */
  lemma {:induction false} NoneSpendable(table: Table, ps: seq<Publisher>, id: Uuid, policy: Policy)
    requires forall p :: 0 <= p < |ps| ==> PublisherOk(table, ps[p], policy)
    requires id !in table
    ensures SpendingAll(ps, id, policy.maxRetries) == 0
  {
    if ps != [] {
      NoneSpendable(table, ps[1..], id, policy);
      if ps[0].Draining? {
        NoneSpendableIn(table, ps[0].todo, id, policy.maxRetries);
      }
    }
  }

  lemma {:induction false} NoneSpendableIn(table: Table, todo: seq<Claim>, id: Uuid, max: nat)
    requires (forall c :: c in todo ==> ClaimOk(table, c)) && id !in table
    ensures Spendable(todo, id, max) == 0
  {
    if todo != [] {
      assert ClaimOk(table, todo[0]);
      NoneSpendableIn(table, todo[1..], id, max);
    }
  }

  /** How far increments can still take a row that is past the limit: each publisher
      but the one that reached it may have one more. */
  ghost predicate WithinOverrun(s: State, id: Uuid) {
    var max := s.config.policy.maxRetries;
    id in s.table && s.table[id].retryCount >= max ==>
      var reach := s.table[id].retryCount + SpendingAll(s.publishers, id, max);
      reach <= max || reach < max + |s.publishers|
  }

  /** The increment that reaches the limit uses up its publisher's claim. */
  lemma LimitReached(s: State, p: nat, id: Uuid)
    requires Enabled(s, Write(p)) && s.publishers[p].debt == Increment(id) && HeldOnce(s.publishers, id)
    ensures SpendingAll(Apply(s, Write(p)).publishers, id, s.config.policy.maxRetries) < |s.publishers|
  {
    var max, d := s.config.policy.maxRetries, s.publishers[p];
    SpendingUpdate(s.publishers, p, d.(debt := NoDebt), id, max);
    OneSpendableEach(s.publishers, id, max);
  }

  lemma StepWithinOverrun(s: State, e: Event, id: Uuid)
    requires Enabled(s, e) && Inv(s) && HeldOnce(s.publishers, id) && WithinOverrun(s, id)
    ensures WithinOverrun(Apply(s, e), id)
  {
    var max := s.config.policy.maxRetries;
    StepGrows(s, e);
    if id !in s.table {
      NoneSpendable(s.table, s.publishers, id, s.config.policy);
    } else if s.table[id].retryCount >= max {
      StepSpending(s, e, id);
    } else if EffectiveIncrement(s, e, id) {
      LimitReached(s, e.p, id);
    }
  }

  lemma {:induction false} AlwaysWithinOverrun(tr: Trace, id: Uuid)
    requires Feasible(tr)
    ensures WithinOverrun(After(tr), id)
  {
    if tr.Extend? {
      AlwaysInv(tr.prev);
      AlwaysHeldOnce(tr.prev, id);
      AlwaysWithinOverrun(tr.prev, id);
      StepWithinOverrun(After(tr.prev), tr.event, id);
    }
  }

  /** Main result: however publishers overlap, a row's retry count exceeds the
      configured maximum by less than the number of publishers. */
  lemma {:induction false} RetryCountWithinPublishers(tr: Trace, id: Uuid)
    requires Feasible(tr) && id in After(tr).table
    ensures var count, max := After(tr).table[id].retryCount, After(tr).config.policy.maxRetries;
            count <= max || count < max + |After(tr).publishers|
  {
    AlwaysWithinOverrun(tr, id);
  }

  // ---------- What can undo the end of the ladder ----------

  /** `increment_retry` and `update_status` test nothing, so a publisher that is
      late can write over a row that has already been settled. */
  predicate LateWrite(s: State, e: Event, id: Uuid)
    requires Enabled(s, e)
  {
    && e.Write? && id in s.table && s.table[id].status.Terminal()
    && (s.publishers[e.p].debt == Increment(id)
        || (s.publishers[e.p].debt.SetStatus? && s.publishers[e.p].debt.id == id))
  }

  function LateWrites(tr: Trace, id: Uuid): nat
    requires Feasible(tr)
  {
    match tr
    case Begin(_, _, _) => 0
    case Extend(prev, e) => LateWrites(prev, id) + One(LateWrite(After(prev), e, id))
  }

  predicate SettledIn(tr: Trace, id: Uuid)
    requires Feasible(tr)
  {
    id in After(tr).table && After(tr).table[id].status.Terminal()
  }

  lemma OnlyLateWrites(s: State, e: Event, id: Uuid)
    requires Enabled(s, e)
    ensures id in s.table && s.table[id].status.Terminal() && !LateWrite(s, e, id) ==>
              id in Apply(s, e).table && Apply(s, e).table[id] == s.table[id]
  {
  }

  /** Main result: in every run, nothing but such a late write ever changes a
      `published`, `failed` or `dlq` row: no claim, release or batch mark does. */
  lemma {:induction false} TerminalUnlessLateWrite(tr: Trace, later: Trace, id: Uuid)
    requires Feasible(later) && Within(tr, later)
    ensures Feasible(tr) && LateWrites(tr, id) <= LateWrites(later, id)
    ensures SettledIn(tr, id) && LateWrites(tr, id) == LateWrites(later, id) ==>
              id in After(later).table && After(later).table[id] == After(tr).table[id]
  {
    if tr != later {
      TerminalUnlessLateWrite(tr, later.prev, id);
      OnlyLateWrites(After(later.prev), later.event, id);
    }
  }

  lemma {:induction false} IncrementsGrow(tr: Trace, later: Trace, id: Uuid)
    requires Feasible(later) && Within(tr, later)
    ensures Feasible(tr) && Increments(tr, id) <= Increments(later, id)
  {
    if tr != later {
      IncrementsGrow(tr, later.prev, id);
    }
  }

  /** From `tr` to `later` the row was never in a status that is not final. */
  predicate SettledThroughout(tr: Trace, later: Trace, id: Uuid)
    requires Feasible(later) && Within(tr, later)
  {
    SettledIn(later, id) && (tr == later || SettledThroughout(tr, later.prev, id))
  }

  lemma StepKeepsSettled(s: State, e: Event, id: Uuid)
    requires Enabled(s, e) && Inv(s) && id in s.table && s.table[id].status.Terminal()
    ensures var t := Apply(s, e).table;
            id in t && (t[id].status.Terminal() <==> !EffectiveIncrement(s, e, id))
  {
    if e.Write? {
      assert PublisherOk(s.table, s.publishers[e.p], s.config.policy);
    }
  }

  /** Main result: a settled row stays settled over a stretch of a run exactly
      when no `increment_retry` reaches it there. */
  lemma {:induction false} SettledUnlessIncremented(tr: Trace, later: Trace, id: Uuid)
    requires Feasible(later) && Within(tr, later) && Feasible(tr) && SettledIn(tr, id)
    ensures SettledThroughout(tr, later, id) <==> Increments(later, id) == Increments(tr, id)
  {
    if tr != later {
      SettledUnlessIncremented(tr, later.prev, id);
      IncrementsGrow(tr, later.prev, id);
      if SettledThroughout(tr, later.prev, id) {
        AlwaysInv(later.prev);
        StepKeepsSettled(After(later.prev), later.event, id);
      }
    }
  }
}
