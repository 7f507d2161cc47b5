/** What the lease is worth: which bounds on holding a claim keep late publishers
    from doing harm. */
module LeaseLimits {
  import opened Common
  import opened OutboxTable
  import opened RetryPolicy
  import opened DrainProtocol
  import opened DrainSafety
  import opened DrainLadder
  import opened DrainLease

  /** In no state of the run has a publisher held a claim for longer than `b`. */
  predicate KeepsTo(tr: Trace, b: int)
    requires Feasible(tr)
  {
    WithinBound(After(tr), b) && (tr.Extend? ==> KeepsTo(tr.prev, b))
  }

  lemma {:induction false} KeepsToMore(tr: Trace, b: int, c: int)
    requires Feasible(tr) && KeepsTo(tr, b) && b <= c
    ensures KeepsTo(tr, c)
  {
    if tr.Extend? {
      KeepsToMore(tr.prev, b, c);
    }
  }

  lemma {:induction false} SafeRunsHonour(tr: Trace, b: int)
    requires Feasible(tr) && KeepsTo(tr, b) && (b <= CLAIM_LEASE || |After(tr).publishers| <= 1)
    ensures LeaseHonouring(tr)
  {
    if tr.Extend? {
      StepGrows(After(tr.prev), tr.event);
      SafeRunsHonour(tr.prev, b);
    }
  }

  /** A run of this configuration with `n` publishers, none of which holds a claim for
      longer than `b`. */
  ghost predicate RunOf(tr: Trace, config: Config, n: nat, b: int) {
    Feasible(tr) && KeepsTo(tr, b) && After(tr).config == config && |After(tr).publishers| == n
  }

  // ---------- Nothing is claimed, nothing is retried ----------

  ghost predicate Idle(s: State) {
    forall p :: 0 <= p < |s.publishers| && s.publishers[p].Draining? ==>
                  s.publishers[p].todo == [] && s.publishers[p].published == [] && s.publishers[p].debt.NoDebt?
  }

  /** A batch size of zero claims nothing. */
  lemma {:induction false} EmptyBatches(tr: Trace)
    requires Feasible(tr) && After(tr).config.batchSize == 0
    ensures Idle(After(tr))
  {
    if tr.Extend? {
      StepGrows(After(tr.prev), tr.event);
      EmptyBatches(tr.prev);
    }
  }

  ghost predicate NoIncrements(s: State) {
    forall p :: 0 <= p < |s.publishers| && s.publishers[p].Draining? ==> !s.publishers[p].debt.Increment?
  }

  /** Without retries nobody ever owes an increment. */
  lemma {:induction false} NothingToRetry(tr: Trace)
    requires Feasible(tr) && After(tr).config.policy.maxRetries == 0
    ensures NoIncrements(After(tr))
  {
    if tr.Extend? {
      StepGrows(After(tr.prev), tr.event);
      NothingToRetry(tr.prev);
    }
  }

  // ---------- Two late publishers ----------

  lemma SetTwice(ps: seq<Publisher>, p: nat, d: Publisher, e: Publisher)
    requires p < |ps|
    ensures ps[p := d][p := e] == ps[p := e]
  {
  }

  /** Sending the only claim. */
  lemma OnlySend(now: int, claim: Claim, outcome: SendOutcome, policy: Policy)
    ensures AfterSend(Draining(now, [claim], NoDebt, []), outcome, policy)
         == Draining(now, [], DebtAfter(claim, outcome, policy), if outcome.Accepted? then [claim.id] else [])
  {
  }

  /** A run whose publisher 0 has claimed the one row, has told the sink and the lease
      clock still stands at its claim. */
  lemma LateSend(config: Config, row: Row, id: Uuid, n: nat, outcome: SendOutcome) returns (tr: Trace)
    requires n >= 2 && config.batchSize >= 1
    requires row == Row(row.content, Publishing, 0, row.createdAt, row.createdAt)
    ensures Feasible(tr) && KeepsTo(tr, 0)
    ensures var claim, now := Claim(id, 0, row.content), row.createdAt;
            After(tr) == State(config, now, map[id := row],
                               AllResting(n)[0 := Draining(now, [], DebtAfter(claim, outcome, config.policy),
                                                           if outcome.Accepted? then [id] else [])])
  {
    var now, claim := row.createdAt, Claim(id, 0, row.content);
    var begin := Begin(config, n, now);
    assert Feasible(begin) && KeepsTo(begin, 0);
    var accepted := Extend(begin, Accept(id, row.content, now, now));
    assert Feasible(accepted) && KeepsTo(accepted, 0);
    var claimed := Extend(accepted, ClaimBatch(0, [id]));
    assert Feasible(claimed);
    assert Claims(After(accepted).table, [id]) == [claim];
    assert After(claimed) == State(config, now, map[id := row],
                                   AllResting(n)[0 := Draining(now, [claim], NoDebt, [])]);
    assert KeepsTo(claimed, 0);
    tr := Extend(claimed, Send(0, outcome));
    assert Feasible(tr);
    OnlySend(now, claim, outcome, config.policy);
    SetTwice(AllResting(n), 0, After(claimed).publishers[0], After(tr).publishers[0]);
  }

  function FirstRow(): Row {
    Row(Content("", "", "", "", None, "", None), Publishing, 0, 0, 0)
  }

  /** What publisher 0 then owes when the sink refuses. */
  function LateStatement(id: Uuid, policy: Policy): Debt {
    if policy.maxRetries >= 1 then Increment(id)
    else SetStatus(id, if policy.enableDlq then Dlq else Failed)
  }

  lemma LateDebt(config: Config, row: Row, id: Uuid, n: nat) returns (tr: Trace)
    requires n >= 2 && config.batchSize >= 1
    requires row == Row(row.content, Publishing, 0, row.createdAt, row.createdAt)
    ensures Feasible(tr) && KeepsTo(tr, 0)
    ensures var now := row.createdAt;
            After(tr) == State(config, now, map[id := row],
                               AllResting(n)[0 := Draining(now, [], LateStatement(id, config.policy), [])])
  {
    tr := LateSend(config, row, id, n, TransportError);
    var now := row.createdAt;
    SetTwice(AllResting(n), 0, Draining(now, [], DeadLetterSend(Claim(id, 0, row.content)), []),
             Draining(now, [], LateStatement(id, config.policy), []));
    if config.policy.maxRetries == 0 && config.policy.enableDlq {
      tr := Extend(tr, SendDeadLetter(0, Accepted));
      assert Feasible(tr);
      assert After(tr).publishers[0] == Draining(row.createdAt, [], LateStatement(id, config.policy), []);
    }
  }

  /** The lease of the row runs out and publisher 1 takes it over. */
  lemma TakenOver(late: Trace, id: Uuid) returns (tr: Trace)
    requires Feasible(late) && KeepsTo(late, 0) && After(late).config.batchSize >= 1
    requires id in After(late).table && After(late).table[id].status.Publishing?
    requires After(late).table[id].updatedAt <= After(late).clock
    requires |After(late).publishers| >= 2 && After(late).publishers[1] == Resting
    ensures Feasible(tr) && KeepsTo(tr, CLAIM_LEASE + 1)
    ensures var s, row, now := After(late), After(late).table[id], After(late).clock + CLAIM_LEASE + 1;
            After(tr) == State(s.config, now, s.table[id := row.(updatedAt := now)],
                               s.publishers[1 := Draining(now, [Claim(id, row.retryCount, row.content)], NoDebt, [])])
  {
    KeepsToMore(late, 0, CLAIM_LEASE + 1);
    var expired := Extend(late, Advance(CLAIM_LEASE + 1));
    assert Feasible(expired) && KeepsTo(expired, CLAIM_LEASE + 1);
    var s := After(expired);
    tr := Extend(expired, ClaimBatch(1, [id]));
    assert Feasible(tr);
    assert Claims(s.table, [id]) == [Claim(id, s.table[id].retryCount, s.table[id].content)];
    assert Claimed(s.table, Elements([id]), s.clock) == s.table[id := s.table[id].(updatedAt := s.clock)];
  }

  /** It sends the row and marks it. */
  lemma MarkedByAnother(late: Trace, id: Uuid) returns (tr: Trace)
    requires Feasible(late) && KeepsTo(late, 0) && After(late).config.batchSize >= 1
    requires id in After(late).table && After(late).table[id].status.Publishing?
    requires After(late).table[id].updatedAt <= After(late).clock
    requires |After(late).publishers| >= 2 && After(late).publishers[1] == Resting
    ensures Feasible(tr) && KeepsTo(tr, CLAIM_LEASE + 1)
    ensures After(tr).config == After(late).config && After(tr).publishers == After(late).publishers
    ensures id in After(tr).table
    ensures After(tr).table[id] == After(late).table[id].(status := Published, updatedAt := After(tr).clock)
  {
    var reclaimed := TakenOver(late, id);
    var s, now := After(late), After(reclaimed).clock;
    var sent := Extend(reclaimed, Send(1, Accepted));
    assert Feasible(sent);
    OnlySend(now, Claim(id, s.table[id].retryCount, s.table[id].content), Accepted, s.config.policy);
    SetTwice(s.publishers, 1, After(reclaimed).publishers[1], After(sent).publishers[1]);
    assert After(sent).publishers == s.publishers[1 := Draining(now, [], NoDebt, [id])];
    assert KeepsTo(sent, CLAIM_LEASE + 1);
    tr := Extend(sent, MarkBatch(1));
    assert Feasible(tr);
    SetTwice(s.publishers, 1, After(sent).publishers[1], Resting);
    assert After(tr).publishers == s.publishers;
  }

  // ---------- How long a claim may be held ----------

  /** The batch mark of `p`, made now, changes a row that another publisher holds. */
  ghost predicate TakesAnothers(s: State, p: nat, q: nat, id: Uuid) {
    && Enabled(s, MarkBatch(p)) && p != q && Holds(s, q, id)
    && id in s.table && Apply(s, MarkBatch(p)).table[id] != s.table[id]
  }

  /** Main result: the batch mark tests the status and not the owner. It leaves the
      rows of others alone in every run that keeps to a bound exactly if that bound is
      within the lease, or only one publisher runs, or nothing is claimed at all. */
  lemma MarkTakesOnlyOwnExactly(config: Config, n: nat, b: int)
    ensures (exists tr, p: nat, q: nat, id :: RunOf(tr, config, n, b) && TakesAnothers(After(tr), p, q, id))
       <==> b > 60_000_000 && n >= 2 && config.batchSize >= 1
  {
    if b > 60_000_000 && n >= 2 && config.batchSize >= 1 {
      MarkTakesReclaimedRow(config, n, b);
    } else {
      forall tr, p: nat, q: nat, id | RunOf(tr, config, n, b)
        ensures !TakesAnothers(After(tr), p, q, id)
      {
        if TakesAnothers(After(tr), p, q, id) {
          if config.batchSize == 0 {
            EmptyBatches(tr);
          } else {
            SafeRunsHonour(tr, b);
            MarkTakesOnlyOwn(tr, p, q, id);
          }
        }
      }
    }
  }

  /** The witness: publisher 0 has sent its one claim and not marked it, and publisher
      1 has re-claimed the row meanwhile. */
  lemma MarkTakesReclaimedRow(config: Config, n: nat, b: int)
    requires b > 60_000_000 && n >= 2 && config.batchSize >= 1
    ensures exists tr, p: nat, q: nat, id :: RunOf(tr, config, n, b) && TakesAnothers(After(tr), p, q, id)
  {
    var late := LateSend(config, FirstRow(), 0, n, Accepted);
    var tr := TakenOver(late, 0);
    var now := After(tr).clock;
    KeepsToMore(tr, CLAIM_LEASE + 1, b);
    assert After(tr).publishers[0] == Draining(0, [], NoDebt, [0]);
    assert Held(After(tr).publishers[1]) == [0];
    assert TakesAnothers(After(tr), 0, 1, 0);
  }

  ghost predicate TwoHolders(s: State, p: nat, q: nat, id: Uuid) {
    p != q && Holds(s, p, id) && Holds(s, q, id)
  }

  /** A claimed row has only one holder exactly under the same bounds. */
  lemma OneHolderExactly(config: Config, n: nat, b: int)
    ensures (exists tr, p: nat, q: nat, id :: RunOf(tr, config, n, b) && TwoHolders(After(tr), p, q, id))
       <==> b > 60_000_000 && n >= 2 && config.batchSize >= 1
  {
    if b > 60_000_000 && n >= 2 && config.batchSize >= 1 {
      var late := LateSend(config, FirstRow(), 0, n, Accepted);
      var tr := TakenOver(late, 0);
      KeepsToMore(tr, CLAIM_LEASE + 1, b);
      assert After(tr).publishers[0] == Draining(0, [], NoDebt, [0]);
      assert Held(After(tr).publishers[1]) == [0];
      assert TwoHolders(After(tr), 0, 1, 0);
    } else {
      forall tr, p: nat, q: nat, id | RunOf(tr, config, n, b)
        ensures !TwoHolders(After(tr), p, q, id)
      {
        if TwoHolders(After(tr), p, q, id) {
          if config.batchSize == 0 {
            EmptyBatches(tr);
          } else {
            SafeRunsHonour(tr, b);
            OneHolder(tr, p, id);
          }
        }
      }
    }
  }

  /** The mark of `p`, made now, affects fewer rows than it is given. */
  ghost predicate MarksTooFew(s: State, p: nat) {
    && Enabled(s, MarkBatch(p))
    && |Markable(s.table, s.publishers[p].published)| != |s.publishers[p].published|
  }

  /** A short count is possible exactly when a lease can run out, so that is what it
      tells. */
  lemma MarkIsCompleteExactly(config: Config, n: nat, b: int)
    ensures (exists tr, p: nat :: RunOf(tr, config, n, b) && MarksTooFew(After(tr), p))
       <==> b > 60_000_000 && n >= 2 && config.batchSize >= 1
  {
    if b > 60_000_000 && n >= 2 && config.batchSize >= 1 {
      var late := LateSend(config, FirstRow(), 0, n, Accepted);
      var tr := MarkedByAnother(late, 0);
      KeepsToMore(tr, CLAIM_LEASE + 1, b);
      assert After(tr).publishers[0] == Draining(0, [], NoDebt, [0]);
      assert Markable(After(tr).table, [0]) == {};
      assert MarksTooFew(After(tr), 0);
    } else {
      forall tr, p: nat | RunOf(tr, config, n, b)
        ensures !MarksTooFew(After(tr), p)
      {
        if MarksTooFew(After(tr), p) {
          if config.batchSize == 0 {
            EmptyBatches(tr);
          } else {
            SafeRunsHonour(tr, b);
            MarkIsComplete(tr, p);
          }
        }
      }
    }
  }

  /** The last event changed a row that was settled. */
  ghost predicate ChangesSettled(tr: Trace, id: Uuid)
    requires Feasible(tr)
  {
    tr.Extend? && SettledIn(tr.prev, id) && (id !in After(tr).table || After(tr).table[id] != After(tr.prev).table[id])
  }

  ghost predicate Unsettles(tr: Trace, id: Uuid)
    requires Feasible(tr)
  {
    tr.Extend? && SettledIn(tr.prev, id) && !SettledIn(tr, id)
  }

  /** A publisher whose statement is late. */
  lemma TerminalUndoneAfterLease(config: Config, n: nat, b: int) returns (tr: Trace, id: Uuid)
    requires b > 60_000_000 && n >= 2 && config.batchSize >= 1
    ensures RunOf(tr, config, n, b) && ChangesSettled(tr, id)
    ensures config.policy.maxRetries >= 1 ==> Unsettles(tr, id)
  {
    id := 0;
    var late := LateDebt(config, FirstRow(), id, n);
    var marked := MarkedByAnother(late, id);
    KeepsToMore(marked, CLAIM_LEASE + 1, b);
    assert After(marked).publishers[0] == Draining(0, [], LateStatement(id, config.policy), []);
    tr := Extend(marked, Write(0));
    assert Feasible(tr);
  }

  /** Main result: a settled row is never written again in any run that keeps to a
      bound exactly if that bound is within the lease, or only one publisher runs, or
      nothing is claimed at all. */
  lemma TerminalIsFinalExactly(config: Config, n: nat, b: int)
    ensures (exists tr, id :: RunOf(tr, config, n, b) && ChangesSettled(tr, id))
       <==> b > 60_000_000 && n >= 2 && config.batchSize >= 1
  {
    if b > 60_000_000 && n >= 2 && config.batchSize >= 1 {
      var tr, id := TerminalUndoneAfterLease(config, n, b);
    } else {
      forall tr, id | RunOf(tr, config, n, b)
        ensures !ChangesSettled(tr, id)
      {
        if ChangesSettled(tr, id) {
          NotChanged(tr, id, b);
        }
      }
    }
  }

  lemma {:induction false} NotChanged(tr: Trace, id: Uuid, b: int)
    requires Feasible(tr) && KeepsTo(tr, b)
    requires b <= CLAIM_LEASE || |After(tr).publishers| <= 1 || After(tr).config.batchSize == 0
    ensures !ChangesSettled(tr, id)
  {
    if tr.Extend? {
      if After(tr).config.batchSize == 0 {
        StepGrows(After(tr.prev), tr.event);
        EmptyBatches(tr.prev);
      } else {
        SafeRunsHonour(tr, b);
        assert Within(tr.prev, tr);
        TerminalIsFinal(tr.prev, tr, id);
      }
    }
  }

  /** And it stays settled exactly under the same bounds, or if there are no retries:
      this is what a caller can check before the run. */
  lemma StaysSettledExactly(config: Config, n: nat, b: int)
    ensures (exists tr, id :: RunOf(tr, config, n, b) && Unsettles(tr, id))
       <==> b > 60_000_000 && n >= 2 && config.batchSize >= 1 && config.policy.maxRetries >= 1
  {
    if b > 60_000_000 && n >= 2 && config.batchSize >= 1 && config.policy.maxRetries >= 1 {
      var tr, id := TerminalUndoneAfterLease(config, n, b);
    } else {
      forall tr, id | RunOf(tr, config, n, b)
        ensures !Unsettles(tr, id)
      {
        if Unsettles(tr, id) {
          var s := After(tr.prev);
          if config.policy.maxRetries == 0 {
            StepGrows(s, tr.event);
            NothingToRetry(tr.prev);
            AlwaysInv(tr.prev);
            StepKeepsSettled(s, tr.event, id);
          } else {
            NotChanged(tr, id, b);
          }
        }
      }
    }
  }
}
