/** How long one publisher, without faults or backpressure, leaves a row waiting. */
module Progress {
  import opened Common
  import opened OutboxTable
  import opened RetryPolicy
  import opened DrainTick

  // ---------- The measure: sends that can still fail ----------

  function Remaining(row: Row, policy: Policy): nat {
    if row.status.Terminal() then 0 else AttemptsLeft(row.retryCount, policy)
  }

  ghost function Pick(ids: set<Uuid>): (id: Uuid)
    requires ids != {}
    ensures id in ids
  {
    var id :| id in ids;
    id
  }

  ghost function Total(table: Table, ids: set<Uuid>, policy: Policy): nat
    requires ids <= table.Keys
    decreases |ids|
  {
    if ids == {} then 0
    else Remaining(table[Pick(ids)], policy) + Total(table, ids - {Pick(ids)}, policy)
  }

  lemma {:induction false} TotalDrops(t: Table, t': Table, ids: set<Uuid>, claimed: set<Uuid>, policy: Policy)
    requires ids <= t.Keys && ids <= t'.Keys
    requires forall id :: id in ids ==>
               Remaining(t'[id], policy) + One(id in claimed) <= Remaining(t[id], policy)
    ensures Total(t', ids, policy) + |ids * claimed| <= Total(t, ids, policy)
    decreases |ids|
  {
    if ids != {} {
      var x := Pick(ids);
      TotalDrops(t, t', ids - {x}, claimed, policy);
      var rest := (ids - {x}) * claimed;
      if x in claimed {
        assert ids * claimed == rest + {x};
      } else {
        assert ids * claimed == rest;
      }
    } else {
      assert ids * claimed == {};
    }
  }

  lemma OneMore(n: int, m: int)
    ensures (n + 1) * m == n * m + m
  {
  }

  lemma {:induction false} TotalAtMost(table: Table, ids: set<Uuid>, policy: Policy)
    requires ids <= table.Keys
    ensures Total(table, ids, policy) <= |ids| * (policy.maxRetries + 1)
    decreases |ids|
  {
    if ids != {} {
      var x := Pick(ids);
      TotalAtMost(table, ids - {x}, policy);
      OneMore(|ids - {x}|, policy.maxRetries + 1);
      assert |ids| == |ids - {x}| + 1;
    }
  }

  /** Every unhindered claim uses up an attempt. */
  lemma ClaimUsesAttempt(before: Table, tick: Tick, after: Table, limit: int, policy: Policy, id: Uuid)
    requires TickStep(before, tick, after, limit, policy) && Unhindered(tick)
    requires id in before && before[id].retryCount >= 0
    ensures id in after && after[id].retryCount >= 0 && after[id].createdAt == before[id].createdAt
    ensures Remaining(after[id], policy) + One(id in tick.ids) <= Remaining(before[id], policy)
    ensures before[id].status.Terminal() ==> after[id] == before[id] && id !in tick.ids
    ensures id in tick.ids ==> !after[id].status.Publishing?
  {
    if id in tick.ids {
      var i :| 0 <= i < |tick.ids| && tick.ids[i] == id;
      assert tick.kept[i] in tick.kept && tick.outcomes[i] in tick.outcomes;
      assert Settles(before[id], after[id], tick.outcomes[i], tick.kept[i], policy);
    }
  }

  // ---------- Runs of ticks ----------

  ghost predicate StepAt(tables: seq<Table>, ticks: seq<Tick>, limit: nat, policy: Policy, k: int)
    requires |tables| == |ticks| + 1 && 0 <= k < |ticks|
  {
    TickStep(tables[k], ticks[k], tables[k + 1], limit, policy) && Unhindered(ticks[k])
  }

  /** Ticks one after another, on a clock that does not run backwards. Rows may
      be added between two ticks. */
  ghost predicate Run(tables: seq<Table>, ticks: seq<Tick>, limit: nat, policy: Policy) {
    && |tables| == |ticks| + 1
    && (forall k :: 0 <= k < |ticks| ==> StepAt(tables, ticks, limit, policy, k))
    && (forall i, j :: 0 <= i <= j < |ticks| ==> ticks[i].now <= ticks[j].now)
    && (forall id :: id in tables[0] ==> tables[0][id].retryCount >= 0)
  }

  /** Whatever is added during the run is younger than `x`. */
  ghost predicate LaterArrivals(tables: seq<Table>, x: Uuid) {
    forall k, id :: 0 <= k < |tables| && id in tables[k] && id !in tables[0] && x in tables[0] ==>
                      tables[k][id].createdAt > tables[0][x].createdAt
  }

  /** The other unfinished rows that are not younger than `x`. */
  function Older(table: Table, x: Uuid): set<Uuid>
    requires x in table
  {
    set id | id in table && id != x && !table[id].status.Terminal() && table[id].createdAt <= table[x].createdAt
  }

  lemma {:induction false} RowsLast(tables: seq<Table>, ticks: seq<Tick>, limit: nat, policy: Policy, k: nat, id: Uuid)
    requires Run(tables, ticks, limit, policy) && k < |tables| && id in tables[0]
    ensures id in tables[k] && tables[k][id].createdAt == tables[0][id].createdAt && tables[k][id].retryCount >= 0
    ensures tables[0][id].status.Terminal() ==> tables[k][id].status.Terminal()
  {
    if k > 0 {
      RowsLast(tables, ticks, limit, policy, k - 1, id);
      assert StepAt(tables, ticks, limit, policy, k - 1);
      ClaimUsesAttempt(tables[k - 1], ticks[k - 1], tables[k], limit, policy, id);
    }
  }

  /** A tick that leaves `x` out spends a full batch on rows not younger than `x`. */
  lemma PassedOver(tables: seq<Table>, ticks: seq<Tick>, limit: nat, policy: Policy, x: Uuid, k: nat)
    requires Run(tables, ticks, limit, policy) && LaterArrivals(tables, x) && k < |ticks|
    requires x in tables[0] && x in tables[k] && tables[k][x] == tables[0][x]
    requires Claimable(tables[0][x], ticks[0].now) && x !in ticks[k].ids
    ensures |ticks[k].ids| == limit && Elements(ticks[k].ids) <= Older(tables[0], x)
  {
    assert Claimable(tables[k][x], ticks[k].now);
    assert StepAt(tables, ticks, limit, policy, k);
    assert OldestBatch(tables[k], ticks[k].now, limit, ticks[k].ids);
    forall id | id in ticks[k].ids ensures id in Older(tables[0], x) {
      assert id in tables[k] && tables[k][id].createdAt <= tables[k][x].createdAt;
      assert id in tables[0];
      RowsLast(tables, ticks, limit, policy, k, id);
    }
  }

  lemma {:induction false} NotYetClaimed(tables: seq<Table>, ticks: seq<Tick>, limit: nat, policy: Policy,
                                         x: Uuid, k: nat)
    requires Run(tables, ticks, limit, policy) && LaterArrivals(tables, x) && k < |tables| && |ticks| > 0
    requires x in tables[0] && Claimable(tables[0][x], ticks[0].now)
    requires forall j :: 0 <= j < k ==> x !in ticks[j].ids
    ensures x in tables[k] && tables[k][x] == tables[0][x] && Older(tables[0], x) <= tables[k].Keys
    ensures Total(tables[k], Older(tables[0], x), policy) + k * limit
            <= Total(tables[0], Older(tables[0], x), policy)
  {
    if k > 0 {
      NotYetClaimed(tables, ticks, limit, policy, x, k - 1);
      PassedOver(tables, ticks, limit, policy, x, k - 1);
      FullBatchUsed(tables, ticks, limit, policy, Older(tables[0], x), k - 1);
      OneMore(k - 1, limit);
      assert StepAt(tables, ticks, limit, policy, k - 1);
    }
  }

  lemma FullBatchUsed(tables: seq<Table>, ticks: seq<Tick>, limit: nat, policy: Policy, ids: set<Uuid>, k: nat)
    requires Run(tables, ticks, limit, policy) && k < |ticks|
    requires ids <= tables[0].Keys && ids <= tables[k].Keys
    requires |ticks[k].ids| == limit && Elements(ticks[k].ids) <= ids
    ensures ids <= tables[k + 1].Keys
    ensures Total(tables[k + 1], ids, policy) + limit <= Total(tables[k], ids, policy)
  {
    var claimed := Elements(ticks[k].ids);
    assert StepAt(tables, ticks, limit, policy, k);
    forall id | id in ids
      ensures id in tables[k + 1]
      ensures Remaining(tables[k + 1][id], policy) + One(id in claimed) <= Remaining(tables[k][id], policy)
    {
      RowsLast(tables, ticks, limit, policy, k, id);
      ClaimUsesAttempt(tables[k], ticks[k], tables[k + 1], limit, policy, id);
    }
    TotalDrops(tables[k], tables[k + 1], ids, claimed, policy);
    DistinctCardinality(ticks[k].ids);
    assert ids * claimed == claimed;
  }

  lemma BeyondDivision(work: nat, limit: nat)
    requires limit >= 1
    ensures work < (work / limit + 1) * limit
  {
    OneMore(work / limit, limit);
    assert work == work / limit * limit + work % limit;
  }

  /** Main result: with `r` unfinished rows at least as old, a claimable row is
      claimed by tick `r * (maxRetries + 1) / limit + 1`, whatever the sink
      refuses and however many younger rows arrive. */
  lemma ClaimedInTime(tables: seq<Table>, ticks: seq<Tick>, limit: nat, policy: Policy, x: Uuid)
    requires Run(tables, ticks, limit, policy) && LaterArrivals(tables, x) && limit >= 1
    requires x in tables[0] && |ticks| > |Older(tables[0], x)| * (policy.maxRetries + 1) / limit
    requires Claimable(tables[0][x], ticks[0].now)
    ensures exists k :: 0 <= k <= |Older(tables[0], x)| * (policy.maxRetries + 1) / limit && x in ticks[k].ids
  {
    var work := |Older(tables[0], x)| * (policy.maxRetries + 1);
    var n := work / limit;
    if forall k :: 0 <= k <= n ==> x !in ticks[k].ids {
      NotYetClaimed(tables, ticks, limit, policy, x, n + 1);
      TotalAtMost(tables[0], Older(tables[0], x), policy);
      BeyondDivision(work, limit);
    }
  }

  lemma RunExtends(tables: seq<Table>, ticks: seq<Tick>, tick: Tick, after: Table, limit: nat, policy: Policy)
    requires Run(tables, ticks, limit, policy)
    requires TickStep(tables[|ticks|], tick, after, limit, policy) && Unhindered(tick)
    requires forall k :: 0 <= k < |ticks| ==> ticks[k].now <= tick.now
    ensures Run(tables + [after], ticks + [tick], limit, policy)
  {
    forall k | 0 <= k < |ticks + [tick]|
      ensures StepAt(tables + [after], ticks + [tick], limit, policy, k)
    {
      if k < |ticks| {
        assert StepAt(tables, ticks, limit, policy, k);
      }
    }
  }

  // ---------- Draining a fixed table ----------

  ghost predicate NoArrivals(tables: seq<Table>) {
    forall k :: 0 <= k < |tables| ==> tables[k].Keys == tables[0].Keys
  }

  /** Every unfinished row can be claimed: nobody holds one, or its lease is over. */
  ghost predicate AllClaimable(table: Table, now: int) {
    forall id :: id in table && !table[id].status.Terminal() ==> Claimable(table[id], now)
  }

  ghost predicate AllTerminal(table: Table) {
    forall id :: id in table ==> table[id].status.Terminal()
  }

  lemma TickDrains(before: Table, tick: Tick, after: Table, limit: nat, policy: Policy)
    requires TickStep(before, tick, after, limit, policy) && Unhindered(tick) && limit >= 1
    requires before.Keys == after.Keys && AllClaimable(before, tick.now)
    requires forall id :: id in before ==> before[id].retryCount >= 0
    ensures AllClaimable(after, tick.now) && forall id :: id in after ==> after[id].retryCount >= 0
    ensures Total(after, after.Keys, policy) + |tick.ids| <= Total(before, before.Keys, policy)
    ensures AllTerminal(before) || |tick.ids| >= 1
    ensures AllTerminal(before) ==> AllTerminal(after)
  {
    forall id | id in before
      ensures Remaining(after[id], policy) + One(id in Elements(tick.ids)) <= Remaining(before[id], policy)
      ensures after[id].retryCount >= 0 && (after[id].status.Terminal() || Claimable(after[id], tick.now))
      ensures before[id].status.Terminal() ==> after[id].status.Terminal()
    {
      ClaimUsesAttempt(before, tick, after, limit, policy, id);
    }
    TotalDrops(before, after, before.Keys, Elements(tick.ids), policy);
    DistinctCardinality(tick.ids);
    assert before.Keys * Elements(tick.ids) == Elements(tick.ids);
  }

  lemma {:induction false} TicksDrain(tables: seq<Table>, ticks: seq<Tick>, limit: nat, policy: Policy, k: nat)
    requires Run(tables, ticks, limit, policy) && NoArrivals(tables) && limit >= 1 && k < |tables|
    requires |ticks| > 0 ==> AllClaimable(tables[0], ticks[0].now)
    ensures k < |ticks| ==> AllClaimable(tables[k], ticks[k].now)
    ensures forall id :: id in tables[k] ==> tables[k][id].retryCount >= 0
    ensures AllTerminal(tables[k])
         || Total(tables[k], tables[k].Keys, policy) + k <= Total(tables[0], tables[0].Keys, policy)
  {
    if k > 0 {
      TicksDrain(tables, ticks, limit, policy, k - 1);
      assert StepAt(tables, ticks, limit, policy, k - 1);
      TickDrains(tables[k - 1], ticks[k - 1], tables[k], limit, policy);
      assert k < |ticks| ==> ticks[k - 1].now <= ticks[k].now;
    }
  }

  lemma {:induction false} WorkLeft(table: Table, ids: set<Uuid>, policy: Policy, id: Uuid)
    requires ids <= table.Keys && id in ids
    ensures Remaining(table[id], policy) <= Total(table, ids, policy)
    decreases |ids|
  {
    if Pick(ids) != id {
      WorkLeft(table, ids - {Pick(ids)}, policy, id);
    }
  }

  /** Main result: as many ticks as there are attempts left finish every row, also
      those that a dead publisher left claimed. */
  lemma EverythingSettles(tables: seq<Table>, ticks: seq<Tick>, limit: nat, policy: Policy)
    requires Run(tables, ticks, limit, policy) && NoArrivals(tables) && limit >= 1
    requires |ticks| > 0 ==> AllClaimable(tables[0], ticks[0].now)
    requires |ticks| >= Total(tables[0], tables[0].Keys, policy)
    ensures AllTerminal(tables[|ticks|])
  {
    var last := tables[|ticks|];
    TicksDrain(tables, ticks, limit, policy, |ticks|);
    if !AllTerminal(last) {
      var id :| id in last && !last[id].status.Terminal();
      WorkLeft(last, last.Keys, policy, id);
    }
  }
}
