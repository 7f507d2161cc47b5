/** What holds when every publisher resolves or abandons its claim before the
    lease runs out, or when there is only one publisher. Crashes and lost
    statements are still allowed. */
module DrainLease {
  import opened Common
  import opened OutboxTable
  import opened RetryPolicy
  import opened DrainProtocol
  import opened DrainSafety

  /** No publisher has held its claim for longer than `b`. */
  predicate WithinBound(s: State, b: int) {
    forall p :: 0 <= p < |s.publishers| && s.publishers[p].Draining? ==>
                  s.clock <= s.publishers[p].claimedAt + b
  }

  /** A publisher that has the table to itself cannot be late. */
  predicate OnTime(s: State) {
    |s.publishers| <= 1 || WithinBound(s, CLAIM_LEASE)
  }

  /** Checkable as the run goes: only the passing of time can break it. */
  predicate LeaseHonouring(tr: Trace)
    requires Feasible(tr)
  {
    OnTime(After(tr)) && (tr.Extend? ==> LeaseHonouring(tr.prev))
  }

  function DebtIds(debt: Debt): seq<Uuid> {
    match debt
    case NoDebt => []
    case Release(id) => [id]
    case Increment(id) => [id]
    case DeadLetterSend(c) => [c.id]
    case SetStatus(id, _) => [id]
  }

  function ClaimIds(todo: seq<Claim>): seq<Uuid> {
    seq(|todo|, i requires 0 <= i < |todo| => todo[i].id)
  }

  /** The rows a publisher has claimed and not yet resolved in the table. In this
      order, a send only moves the border between the three parts. */
  function Held(d: Publisher): seq<Uuid> {
    if d.Resting? then [] else d.published + DebtIds(d.debt) + ClaimIds(d.todo)
  }

  predicate Holds(s: State, p: nat, id: Uuid) {
    p < |s.publishers| && id in Held(s.publishers[p])
  }

  /** The claimed row is exactly as the claim left it. */
  predicate HeldRow(table: Table, id: Uuid, claimedAt: int) {
    id in table && table[id].status.Publishing? && table[id].updatedAt == claimedAt
  }

  predicate Snapshot(table: Table, c: Claim) {
    c.id in table && c.retryCount == table[c.id].retryCount
  }

  ghost predicate HolderOk(s: State, p: nat)
    requires p < |s.publishers|
  {
    var d := s.publishers[p];
    d.Draining? ==>
      && NoDuplicates(Held(d))
      && (forall id :: id in Held(d) ==> HeldRow(s.table, id, d.claimedAt))
      && (forall c :: c in d.todo ==> Snapshot(s.table, c))
      && (d.debt.DeadLetterSend? ==> Snapshot(s.table, d.debt.claim))
      && (d.debt.Increment? ==> d.debt.id in s.table && s.table[d.debt.id].retryCount < s.config.policy.maxRetries)
  }

  /** At most one publisher holds a row. */
  ghost predicate Exclusive(s: State) {
    forall p: nat, q: nat, id :: Holds(s, p, id) && Holds(s, q, id) ==> p == q
  }

  ghost predicate LeaseInv(s: State) {
    && Inv(s)
    && (forall p: nat :: p < |s.publishers| ==> HolderOk(s, p))
    && Exclusive(s)
    && (forall id :: id in s.table ==> s.table[id].retryCount <= s.config.policy.maxRetries)
  }

  // ---------- One step ----------

  lemma HeldAfterSend(d: Publisher, outcome: SendOutcome, policy: Policy)
    requires d.Draining? && d.todo != [] && d.debt.NoDebt?
    ensures Held(AfterSend(d, outcome, policy)) == Held(d)
  {
    assert ClaimIds(d.todo) == [d.todo[0].id] + ClaimIds(d.todo[1..]);
  }

  lemma HeldAfterDebt(d: Publisher)
    requires d.Draining? && NoDuplicates(Held(d)) && DebtIds(d.debt) != []
    ensures NoDuplicates(Held(d.(debt := NoDebt)))
    ensures forall id :: id in Held(d.(debt := NoDebt)) <==> id in Held(d) && id !in DebtIds(d.debt)
  {
    var n := |d.published|;
    RemoveKeepsDistinct(Held(d), n);
    assert Held(d)[n] == DebtIds(d.debt)[0];
    assert Held(d.(debt := NoDebt)) == Held(d)[..n] + Held(d)[n + 1..];
  }

  lemma HeldAfterClaim(table: Table, ids: seq<Uuid>, now: int)
    requires forall x :: x in ids ==> x in table
    ensures Held(Draining(now, Claims(table, ids), NoDebt, [])) == ids
  {
  }

  /** No row a publisher holds can be claimed by another. */
  lemma HeldIsNotClaimable(s: State, p: nat, id: Uuid, q: nat)
    requires LeaseInv(s) && OnTime(s) && Holds(s, p, id) && q < |s.publishers| && q != p
    ensures id in s.table && !Claimable(s.table[id], s.clock)
  {
    assert HolderOk(s, p);
  }

  /** The rows an event writes. */
  function Touched(s: State, e: Event): seq<Uuid>
    requires Enabled(s, e)
  {
    match e
    case Accept(id, _, _, _) => [id]
    case ClaimBatch(_, ids) => ids
    case ClaimUnheard(_, ids) => ids
    case Write(p) => DebtIds(s.publishers[p].debt)
    case MarkBatch(p) => s.publishers[p].published
    case _ => []
  }

  lemma OthersUntouched(s: State, e: Event, id: Uuid)
    requires Enabled(s, e) && id in s.table && id !in Touched(s, e)
    ensures id in Apply(s, e).table && Apply(s, e).table[id] == s.table[id]
  {
  }

  /** An event writes no row that a publisher other than its own holds. */
  lemma TouchesOnlyOwn(s: State, e: Event, p: nat, id: Uuid)
    requires Enabled(s, e) && LeaseInv(s) && OnTime(s)
    requires Holds(s, p, id) && id in Touched(s, e)
    ensures Moves(e, p) && !e.ClaimBatch?
  {
    assert HolderOk(s, p);
    if e.ClaimBatch? || e.ClaimUnheard? {
      HeldIsNotClaimable(s, p, id, e.p);
    } else if !e.Accept? {
      assert Holds(s, e.p, id);
    }
  }

  lemma StepKeepsOthers(s: State, e: Event, p: nat)
    requires Enabled(s, e) && LeaseInv(s) && OnTime(s) && p < |s.publishers| && !Moves(e, p)
    ensures Apply(s, e).publishers[p] == s.publishers[p] && HolderOk(Apply(s, e), p)
  {
    assert HolderOk(s, p);
    forall id | id in Held(s.publishers[p])
      ensures id in Apply(s, e).table && Apply(s, e).table[id] == s.table[id]
    {
      assert Holds(s, p, id);
      if id in Touched(s, e) {
        TouchesOnlyOwn(s, e, p, id);
      }
      OthersUntouched(s, e, id);
    }
    if s.publishers[p].Draining? {
      TodoIsHeld(s.publishers[p]);
    }
  }

  lemma TodoIsHeld(d: Publisher)
    requires d.Draining?
    ensures forall c :: c in d.todo ==> c.id in Held(d)
    ensures forall id :: id in DebtIds(d.debt) ==> id in Held(d)
  {
    forall c | c in d.todo ensures c.id in Held(d) {
      var i :| 0 <= i < |d.todo| && d.todo[i] == c;
      assert ClaimIds(d.todo)[i] == c.id;
    }
  }

  lemma SendKeepsOwn(s: State, p: nat, outcome: SendOutcome)
    requires Enabled(s, Send(p, outcome)) && LeaseInv(s)
    ensures HolderOk(Apply(s, Send(p, outcome)), p)
    ensures Held(Apply(s, Send(p, outcome)).publishers[p]) == Held(s.publishers[p])
  {
    var d := s.publishers[p];
    assert HolderOk(s, p) && PublisherOk(s.table, d, s.config.policy);
    HeldAfterSend(d, outcome, s.config.policy);
    assert Snapshot(s.table, d.todo[0]) && ClaimOk(s.table, d.todo[0]);
  }

  lemma PayKeepsOwn(s: State, e: Event, p: nat)
    requires Enabled(s, e) && LeaseInv(s) && (e.Write? || e.LoseWrite?) && e.p == p
    ensures HolderOk(Apply(s, e), p)
    ensures forall id :: id in Held(Apply(s, e).publishers[p]) ==> id in Held(s.publishers[p])
  {
    var d := s.publishers[p];
    var rest := d.(debt := NoDebt);
    assert HolderOk(s, p);
    HeldAfterDebt(d);
    TodoIsHeld(rest);
    assert Apply(s, e).publishers[p] == rest;
    forall id | id in Held(rest) ensures id in Apply(s, e).table && Apply(s, e).table[id] == s.table[id] {
      OthersUntouched(s, e, id);
    }
  }

  lemma StepKeepsOwn(s: State, e: Event, p: nat)
    requires Enabled(s, e) && LeaseInv(s) && OnTime(s) && p < |s.publishers| && Moves(e, p)
    ensures HolderOk(Apply(s, e), p)
    ensures forall id :: Holds(Apply(s, e), p, id) ==> Holds(s, p, id) || e.ClaimBatch?
  {
    match e
    case ClaimBatch(_, ids) => HeldAfterClaim(s.table, ids, s.clock);
    case Send(_, outcome) => SendKeepsOwn(s, p, outcome);
    case SendDeadLetter(_, _) =>
      assert HolderOk(s, p);
      assert Held(Apply(s, e).publishers[p]) == Held(s.publishers[p]);
    case Write(_) => PayKeepsOwn(s, e, p);
    case LoseWrite(_) => PayKeepsOwn(s, e, p);
    case _ =>
  }

  lemma HeldSinceOrClaimed(s: State, e: Event, p: nat, id: Uuid)
    requires Enabled(s, e) && LeaseInv(s) && OnTime(s) && Holds(Apply(s, e), p, id)
    ensures Holds(s, p, id) || (e.ClaimBatch? && e.p == p && Claimable(s.table[id], s.clock))
  {
    if Moves(e, p) {
      StepKeepsOwn(s, e, p);
      if e.ClaimBatch? {
        HeldAfterClaim(s.table, e.ids, s.clock);
      }
    } else {
      StepKeepsOthers(s, e, p);
    }
  }

  lemma StepKeepsExclusive(s: State, e: Event)
    requires Enabled(s, e) && LeaseInv(s) && OnTime(s)
    ensures Exclusive(Apply(s, e))
  {
    var s' := Apply(s, e);
    forall p: nat, q: nat, id | Holds(s', p, id) && Holds(s', q, id)
      ensures p == q
    {
      HeldSinceOrClaimed(s, e, p, id);
      HeldSinceOrClaimed(s, e, q, id);
      if Holds(s, p, id) && !Holds(s, q, id) {
        HeldIsNotClaimable(s, p, id, q);
      }
      if Holds(s, q, id) && !Holds(s, p, id) {
        HeldIsNotClaimable(s, q, id, p);
      }
    }
  }

  lemma StepKeepsLeaseInv(s: State, e: Event)
    requires Enabled(s, e) && LeaseInv(s) && OnTime(s)
    ensures LeaseInv(Apply(s, e))
  {
    StepKeepsInv(s, e);
    StepKeepsExclusive(s, e);
    forall p: nat | p < |s.publishers|
      ensures HolderOk(Apply(s, e), p)
    {
      if Moves(e, p) {
        StepKeepsOwn(s, e, p);
      } else {
        StepKeepsOthers(s, e, p);
      }
    }
    if e.Write? {
      assert HolderOk(s, e.p);
    }
  }

  lemma {:induction false} AlwaysLeaseInv(tr: Trace)
    requires Feasible(tr) && LeaseHonouring(tr)
    ensures LeaseInv(After(tr))
  {
    if tr.Extend? {
      AlwaysLeaseInv(tr.prev);
      StepKeepsLeaseInv(After(tr.prev), tr.event);
    }
  }

  // ---------- Main results ----------

  /** The last event of `tr` is a claim of `id` by `p`. */
  predicate EndsInClaim(tr: Trace, p: nat, id: Uuid) {
    tr.Extend? && tr.event.ClaimBatch? && tr.event.p == p && id in tr.event.ids
  }

  /** The row is as that claim left it. */
  ghost predicate AsClaimed(tr: Trace, claim: Trace, p: nat, id: Uuid)
    requires Feasible(tr) && id in After(tr).table
  {
    && Within(claim, tr) && EndsInClaim(claim, p, id)
    && Feasible(claim) && id in After(claim).table && After(tr).table[id] == After(claim).table[id]
  }

  lemma StillHeldUntouched(s: State, e: Event, p: nat, id: Uuid)
    requires Enabled(s, e) && LeaseInv(s) && OnTime(s) && Holds(s, p, id) && Holds(Apply(s, e), p, id)
    ensures id in s.table && id in Apply(s, e).table && Apply(s, e).table[id] == s.table[id]
  {
    assert HolderOk(s, p);
    if id in Touched(s, e) {
      TouchesOnlyOwn(s, e, p, id);
      if e.Write? {
        HeldAfterDebt(s.publishers[p]);
      }
    }
    OthersUntouched(s, e, id);
  }

  lemma {:induction false} HeldAsClaimed(tr: Trace, p: nat, id: Uuid) returns (claim: Trace)
    requires Feasible(tr) && LeaseHonouring(tr) && Holds(After(tr), p, id)
    ensures id in After(tr).table && AsClaimed(tr, claim, p, id)
  {
    var s, e := After(tr.prev), tr.event;
    AlwaysLeaseInv(tr.prev);
    HeldSinceOrClaimed(s, e, p, id);
    if Holds(s, p, id) {
      claim := HeldAsClaimed(tr.prev, p, id);
      StillHeldUntouched(s, e, p, id);
    } else {
      claim := tr;
    }
  }

  /** Main result: a claimed row has one holder, and until it is settled nothing in
      the row changes. */
  lemma {:induction false} OneHolder(tr: Trace, p: nat, id: Uuid)
    requires Feasible(tr) && LeaseHonouring(tr) && Holds(After(tr), p, id)
    ensures forall q: nat :: Holds(After(tr), q, id) ==> q == p
    ensures HeldRow(After(tr).table, id, After(tr).publishers[p].claimedAt)
    ensures exists claim :: AsClaimed(tr, claim, p, id)
    ensures forall c :: c in After(tr).publishers[p].todo && c.id == id ==> Snapshot(After(tr).table, c)
  {
    AlwaysLeaseInv(tr);
    var s := After(tr);
    assert HolderOk(s, p);
    forall q: nat | Holds(s, q, id) ensures q == p {
      assert Exclusive(s);
    }
    var claim := HeldAsClaimed(tr, p, id);
  }

  /** The last statement of a drain marks every id it is given, so a short count
      can only mean that a lease ran out. */
  lemma MarkIsComplete(tr: Trace, p: nat)
    requires Feasible(tr) && LeaseHonouring(tr) && Enabled(After(tr), MarkBatch(p))
    ensures |Markable(After(tr).table, After(tr).publishers[p].published)| == |After(tr).publishers[p].published|
  {
    AlwaysLeaseInv(tr);
    var s := After(tr);
    var published := s.publishers[p].published;
    assert HolderOk(s, p);
    assert Held(s.publishers[p]) == published;
    assert Markable(s.table, published) == Elements(published);
    DistinctCardinality(published);
  }

  /** While leases are honoured, a batch mark takes no row that another publisher
      holds. */
  lemma {:induction false} MarkTakesOnlyOwn(tr: Trace, p: nat, q: nat, id: Uuid)
    requires Feasible(tr) && LeaseHonouring(tr) && Enabled(After(tr), MarkBatch(p))
    requires Holds(After(tr), q, id) && q != p
    ensures id in After(tr).table && Apply(After(tr), MarkBatch(p)).table[id] == After(tr).table[id]
    ensures Holds(Apply(After(tr), MarkBatch(p)), q, id)
  {
    AlwaysLeaseInv(tr);
    var s := After(tr);
    assert HolderOk(s, q);
    if id in s.publishers[p].published {
      TouchesOnlyOwn(s, MarkBatch(p), q, id);
    }
    OthersUntouched(s, MarkBatch(p), id);
  }

  lemma RetriesWithinLimit(tr: Trace, id: Uuid)
    requires Feasible(tr) && LeaseHonouring(tr) && id in After(tr).table
    ensures After(tr).table[id].retryCount <= After(tr).config.policy.maxRetries
  {
    AlwaysLeaseInv(tr);
  }

  lemma TouchedIsLive(s: State, e: Event, id: Uuid)
    requires Enabled(s, e) && LeaseInv(s) && OnTime(s) && id in s.table && id in Touched(s, e)
    ensures !s.table[id].status.Terminal()
  {
    if e.Write? || e.MarkBatch? {
      TodoIsHeld(s.publishers[e.p]);
      assert Holds(s, e.p, id) && HolderOk(s, e.p);
    }
  }

  /** Main result: `published`, `failed` and `dlq` rows are never written again. */
  lemma {:induction false} TerminalIsFinal(tr: Trace, later: Trace, id: Uuid)
    requires Feasible(later) && LeaseHonouring(later) && Within(tr, later)
    ensures Feasible(tr) && LeaseHonouring(tr)
    ensures id in After(tr).table && After(tr).table[id].status.Terminal() ==>
              id in After(later).table && After(later).table[id] == After(tr).table[id]
  {
    if tr != later {
      TerminalIsFinal(tr, later.prev, id);
      var s, e := After(later.prev), later.event;
      AlwaysLeaseInv(later.prev);
      if id in s.table {
        if id in Touched(s, e) {
          TouchedIsLive(s, e, id);
        } else {
          OthersUntouched(s, e, id);
        }
      }
    }
  }

  // ---------- Exact accounting of sends ----------

  function UnmarkedBy(d: Publisher, id: Uuid): nat {
    One(d.Draining? && id in d.published)
  }

  function UnmarkedAll(ps: seq<Publisher>, id: Uuid): nat {
    if ps == [] then 0 else UnmarkedBy(ps[0], id) + UnmarkedAll(ps[1..], id)
  }

  lemma {:induction false} UnmarkedUpdate(ps: seq<Publisher>, p: nat, d: Publisher, id: Uuid)
    requires p < |ps|
    ensures UnmarkedAll(ps[p := d], id) + UnmarkedBy(ps[p], id) == UnmarkedAll(ps, id) + UnmarkedBy(d, id)
  {
    if p == 0 {
      assert ps[p := d][1..] == ps[1..];
    } else {
      assert ps[p := d][1..] == ps[1..][p - 1 := d];
      UnmarkedUpdate(ps[1..], p - 1, d, id);
    }
  }

  lemma {:induction false} NothingUnmarkedAtStart(n: nat, id: Uuid)
    ensures UnmarkedAll(AllResting(n), id) == 0
  {
    if n > 0 {
      assert AllResting(n)[1..] == AllResting(n - 1);
      NothingUnmarkedAtStart(n - 1, id);
    }
  }

  function PublishedIn(table: Table, id: Uuid): nat {
    One(id in table && table[id].status.Published?)
  }

  function Settled(s: State, id: Uuid): nat {
    PublishedIn(s.table, id) + UnmarkedAll(s.publishers, id)
  }

  /** A settling statement never touches a `published` row nor makes one. */
  lemma WriteKeepsPublished(s: State, p: nat, id: Uuid)
    requires Enabled(s, Write(p)) && LeaseInv(s) && id in s.table
    ensures var t := Apply(s, Write(p)).table;
            id in t && (t[id].status.Published? <==> s.table[id].status.Published?)
  {
    var d := s.publishers[p];
    assert HolderOk(s, p) && PublisherOk(s.table, d, s.config.policy);
    TodoIsHeld(d);
    if id in Touched(s, Write(p)) {
      assert HeldRow(s.table, id, d.claimedAt);
    } else {
      OthersUntouched(s, Write(p), id);
    }
  }

  lemma MarkAccounts(s: State, p: nat, id: Uuid)
    requires Enabled(s, MarkBatch(p)) && LeaseInv(s)
    ensures var t := Apply(s, MarkBatch(p)).table;
            One(id in t && t[id].status.Published?)
            == One(id in s.table && s.table[id].status.Published?) + UnmarkedBy(s.publishers[p], id)
  {
    var d := s.publishers[p];
    assert HolderOk(s, p) && Held(d) == d.published;
    if id in d.published {
      assert HeldRow(s.table, id, d.claimedAt);
    }
  }

  /** What the acting publisher and the row do to the account. */
  lemma OwnAccount(s: State, e: Event, id: Uuid)
    requires Enabled(s, e) && LeaseInv(s) && !e.Accept? && !e.Advance?
    ensures var s' := Apply(s, e);
            UnmarkedBy(s'.publishers[e.p], id) + PublishedIn(s'.table, id) + One(LostMark(s, e, id))
            == UnmarkedBy(s.publishers[e.p], id) + PublishedIn(s.table, id) + One(OwnSend(s, e, id))
  {
    match e
    case Send(p, outcome) =>
      assert HolderOk(s, p);
      SentOnce(s.publishers[p]);
    case Write(p) =>
      if id in s.table {
        WriteKeepsPublished(s, p, id);
      }
    case MarkBatch(p) => MarkAccounts(s, p, id);
    case _ =>
  }

  lemma StepAccounts(s: State, e: Event, id: Uuid)
    requires Enabled(s, e) && LeaseInv(s)
    ensures Settled(Apply(s, e), id) + One(LostMark(s, e, id)) == Settled(s, id) + One(OwnSend(s, e, id))
  {
    if !e.Accept? && !e.Advance? {
      var s' := Apply(s, e);
      OwnAccount(s, e, id);
      UnmarkedUpdate(s.publishers, e.p, s'.publishers[e.p], id);
      assert s'.publishers == s.publishers[e.p := s'.publishers[e.p]];
    }
  }

  lemma SentOnce(d: Publisher)
    requires d.Draining? && d.todo != [] && d.debt.NoDebt? && NoDuplicates(Held(d))
    ensures d.todo[0].id !in d.published
  {
    var n := |d.published|;
    assert Held(d)[n] == d.todo[0].id;
    forall i | 0 <= i < n ensures d.published[i] != d.todo[0].id {
      assert Held(d)[i] == d.published[i];
    }
  }

  /** Main result: while leases are honoured, the sink accepts a row once, plus
      once for every time the news of an earlier acceptance was lost. */
  lemma {:induction false} SendsAccounted(tr: Trace, id: Uuid)
    requires Feasible(tr) && LeaseHonouring(tr)
    ensures OwnSends(tr, id) == LostMarks(tr, id) + Settled(After(tr), id)
  {
    match tr
    case Begin(_, n, _) => NothingUnmarkedAtStart(n, id);
    case Extend(prev, e) =>
      SendsAccounted(prev, id);
      AlwaysLeaseInv(prev);
      StepAccounts(After(prev), e, id);
  }

  /** The row is either marked or awaits one mark, never both and never twice;
      so a run that loses no news sends each row at most once. */
  lemma {:induction false} SentOnceUnlessLost(tr: Trace, id: Uuid)
    requires Feasible(tr) && LeaseHonouring(tr)
    ensures Settled(After(tr), id) <= 1
    ensures OwnSends(tr, id) <= 1 + LostMarks(tr, id)
    ensures LostMarks(tr, id) == 0 && id in After(tr).table && After(tr).table[id].status.Published? ==>
              OwnSends(tr, id) == 1
  {
    AlwaysLeaseInv(tr);
    SendsAccounted(tr, id);
    var s := After(tr);
    OneUnmarked(s, 0, id);
    assert s.publishers[0..] == s.publishers;
  }

  lemma {:induction false} OneUnmarked(s: State, from: nat, id: Uuid)
    requires LeaseInv(s) && from <= |s.publishers|
    ensures UnmarkedAll(s.publishers[from..], id) + One(id in s.table && s.table[id].status.Published?) <= 1
    decreases |s.publishers| - from
  {
    if from < |s.publishers| {
      OneUnmarked(s, from + 1, id);
      assert s.publishers[from..][1..] == s.publishers[from + 1..];
      if UnmarkedBy(s.publishers[from], id) == 1 {
        assert Holds(s, from, id) && HolderOk(s, from);
        NoneAfter(s, from + 1, id);
      }
    }
  }

  lemma {:induction false} NoneAfter(s: State, from: nat, id: Uuid)
    requires from <= |s.publishers|
    requires forall q: nat :: from <= q < |s.publishers| ==> !Holds(s, q, id)
    ensures UnmarkedAll(s.publishers[from..], id) == 0
    decreases |s.publishers| - from
  {
    if from < |s.publishers| {
      NoneAfter(s, from + 1, id);
      assert s.publishers[from..][1..] == s.publishers[from + 1..];
      assert !Holds(s, from, id);
    }
  }
}
