/** The drain as the program runs it: a store and a sink that change in place,
    and the `publish_pending` loop over them. The loop is proved to take only
    steps of the protocol, so every theorem about runs applies to it. */
module Publisher {
  import opened Common
  import opened OutboxTable
  import opened RetryPolicy
  import P = DrainProtocol
  import opened DrainProtocol
  import opened DrainTick
  import Safety = DrainSafety
  import opened Progress

  /** The table behind the repository port. A statement may fail, in which case it
      changes nothing; and when it has taken effect its answer may still be lost,
      which the program cannot tell from a failure. The journal keeps what was
      asked and what was done. Time may pass before a statement runs. */
  class OutboxStore {
    var rows: Table
    var clock: int
    var journal: seq<Entry>

    constructor (rows: Table, clock: int)
      ensures this.rows == rows && this.clock == clock && journal == []
    {
      this.rows, this.clock, this.journal := rows, clock, [];
    }

    /** The fate of the next statement. */
    method Attempt(possible: bool) returns (heard: bool, done: bool)
      modifies this`clock
      ensures clock >= old(clock) && (heard ==> done) && (done ==> possible)
    {
      var elapsed: int :| elapsed >= 0;
      clock := clock + elapsed;
      done := *;
      done := done && possible;
      heard := *;
      heard := heard && done;
    }

    method ClaimPending(limit: int) returns (claimed: Option<seq<Claim>>, ghost done: bool)
      modifies this
      ensures clock >= old(clock) && (claimed.Some? ==> done)
      ensures journal == old(journal) + [Entry(Claiming(claimed.Some?), done)]
      ensures !done ==> rows == old(rows)
      ensures limit < 0 ==> !done
      ensures done ==>
                exists ids :: && OldestBatch(old(rows), clock, limit, ids)
                              && rows == Claimed(old(rows), Elements(ids), clock)
                              && (claimed.Some? ==> claimed.value == Claims(old(rows), ids))
    {
      var heard, did := Attempt(limit >= 0);
      done := did;
      journal := journal + [Entry(Claiming(heard), did)];
      if !did {
        return None, false;
      }
      var ids := OldestRows(limit);
      claimed := if heard then Some(Claims(rows, ids)) else None;
      rows := Claimed(rows, Elements(ids), clock);
    }

    /** The inner `SELECT` of the claim. */
    method OldestRows(limit: nat) returns (ids: seq<Uuid>)
      ensures OldestBatch(rows, clock, limit, ids)
    {
      ids := [];
      var rest := Eligible(rows, clock);
      while |ids| < limit && rest != {}
        invariant |ids| <= limit
        invariant NoDuplicates(ids) && Elements(ids) + rest == Eligible(rows, clock)
        invariant Elements(ids) <= rows.Keys && rest <= rows.Keys
        invariant forall x, y :: x in Elements(ids) && y in rest ==> rows[x].createdAt <= rows[y].createdAt && x != y
        decreases rest
      {
        var oldest := Oldest(rows, rest);
        ids, rest := ids + [oldest], rest - {oldest};
      }
      assert forall id :: id in ids ==> id in Elements(ids);
      assert forall id :: id in rows && Claimable(rows[id], clock) ==> id in Eligible(rows, clock);
    }

    method MarkPublishedBatch(ids: seq<Uuid>) returns (heard: bool, ghost done: bool)
      modifies this
      ensures clock >= old(clock) && journal == old(journal) + [Entry(Marking(ids), done)] && (heard ==> done)
      ensures rows == if done then Marked(old(rows), ids, clock) else old(rows)
    {
      var did;
      heard, did := Attempt(true);
      done := did;
      journal := journal + [Entry(Marking(ids), did)];
      if did {
        rows := Marked(rows, ids, clock);
      }
    }

    method ReleaseClaim(id: Uuid) returns (heard: bool, ghost done: bool)
      modifies this
      ensures clock >= old(clock) && journal == old(journal) + [Entry(Paying(Release(id)), done)] && (heard ==> done)
      ensures rows == if done then Released(old(rows), id, clock) else old(rows)
    {
      var did;
      heard, did := Attempt(true);
      done := did;
      journal := journal + [Entry(Paying(Release(id)), did)];
      if did {
        rows := Released(rows, id, clock);
      }
    }

    method IncrementRetry(id: Uuid) returns (heard: bool, ghost done: bool)
      modifies this
      ensures clock >= old(clock) && journal == old(journal) + [Entry(Paying(Increment(id)), done)] && (heard ==> done)
      ensures done ==> CanIncrement(old(rows), id) && rows == Incremented(old(rows), id, clock)
      ensures !done ==> rows == old(rows)
    {
      var did;
      heard, did := Attempt(CanIncrement(rows, id));
      done := did;
      journal := journal + [Entry(Paying(Increment(id)), did)];
      if did {
        rows := Incremented(rows, id, clock);
      }
    }

    method UpdateStatus(id: Uuid, status: MessageStatus) returns (heard: bool, ghost done: bool)
      modifies this
      ensures clock >= old(clock) && (heard ==> done)
      ensures journal == old(journal) + [Entry(Paying(SetStatus(id, status)), done)]
      ensures rows == if done then Updated(old(rows), id, status, clock) else old(rows)
    {
      var did;
      heard, did := Attempt(true);
      done := did;
      journal := journal + [Entry(Paying(SetStatus(id, status)), did)];
      if did {
        rows := Updated(rows, id, status, clock);
      }
    }
  }

  method Oldest(rows: Table, ids: set<Uuid>) returns (oldest: Uuid)
    requires ids != {} && ids <= rows.Keys
    ensures oldest in ids && forall id :: id in ids ==> rows[oldest].createdAt <= rows[id].createdAt
  {
    oldest :| oldest in ids;
    var rest := ids - {oldest};
    while rest != {}
      invariant rest <= ids && oldest in ids
      invariant forall id :: id in ids - rest ==> rows[oldest].createdAt <= rows[id].createdAt
      decreases rest
    {
      var id :| id in rest;
      if rows[id].createdAt < rows[oldest].createdAt {
        oldest := id;
      }
      rest := rest - {id};
    }
  }

  /** A message as the sink sees it, and its answer. */
  datatype Exchange = Exchange(message: OutboundMessage, outcome: SendOutcome)

  /** The outbound transport; it answers as it likes and keeps a log. */
  class MessageSink {
    var log: seq<Exchange>

    constructor ()
      ensures log == []
    {
      log := [];
    }

    method Send(message: OutboundMessage) returns (outcome: SendOutcome)
      modifies this
      ensures log == old(log) + [Exchange(message, outcome)]
    {
      outcome := *;
      log := log + [Exchange(message, outcome)];
    }
  }

  // ---------- The program and its run ----------

  function Exchanges(os: seq<Offer>): seq<Exchange> {
    seq(|os|, i requires 0 <= i < |os| => Exchange(os[i].message, os[i].outcome))
  }

  /** What the two ports remember of a program. */
  datatype Ports = Ports(log: seq<Exchange>, journal: seq<Entry>)

  ghost function PortsOf(tr: Trace): Ports
    requires Feasible(tr)
  {
    Ports(Exchanges(Offers(tr)), Journal(tr))
  }

  /** The run `tr` leads to the state `s`, and its calls are those the ports saw. */
  ghost predicate Reaches(tr: Trace, s: State, ports: Ports) {
    Feasible(tr) && After(tr) == s && PortsOf(tr) == ports
  }

  lemma ExchangesAppend(os: seq<Offer>, more: seq<Offer>)
    ensures Exchanges(os + more) == Exchanges(os) + Exchanges(more)
  {
  }

  /** One event with no time passing. */
  lemma Immediately(tr: Trace, s: State, ports: Ports, e: Event)
    requires Reaches(tr, s, ports) && Enabled(s, e) && !e.Advance?
    ensures Steps(Extend(tr, e)) == Steps(tr) + [e] && Within(tr, Extend(tr, e))
    ensures Reaches(Extend(tr, e), Apply(s, e),
                    Ports(ports.log + Exchanges(Offered(s, e)), ports.journal + Entries(s, e)))
  {
    ExchangesAppend(Offers(tr), Offered(s, e));
  }

  /** Time passes, then one event happens. */
  ghost function Later(tr: Trace, clock: int, e: Event): Trace
    requires Feasible(tr) && After(tr).clock <= clock
  {
    Extend(Extend(tr, Advance(clock - After(tr).clock)), e)
  }

  lemma Eventually(tr: Trace, s: State, ports: Ports, clock: int, e: Event)
    requires Reaches(tr, s, ports) && s.clock <= clock && Enabled(s.(clock := clock), e) && !e.Advance?
    ensures Steps(Later(tr, clock, e)) == Steps(tr) + [e] && Within(tr, Later(tr, clock, e))
    ensures Reaches(Later(tr, clock, e), Apply(s.(clock := clock), e),
                    Ports(ports.log + Exchanges(Offered(s.(clock := clock), e)),
                          ports.journal + Entries(s.(clock := clock), e)))
  {
    var waited := Extend(tr, Advance(clock - s.clock));
    assert Feasible(waited) && After(waited) == s.(clock := clock);
    assert Offers(waited) == Offers(tr) && Journal(waited) == Journal(tr);
    Immediately(waited, s.(clock := clock), ports, e);
  }

  lemma {:induction false} WithinTrans(a: Trace, b: Trace, c: Trace)
    requires Within(a, b) && Within(b, c)
    ensures Within(a, c)
  {
    if b != c {
      WithinTrans(a, b, c.prev);
    }
  }

  // ---------- What a drain call does, as a script of events ----------

  /** How one message fared: the sink's answer, its answer for the dead-letter
      copy if there was one, and whether the settling statement was carried out. */
  datatype Turn = Turn(outcome: SendOutcome, deadLetter: SendOutcome, kept: bool)

  function TurnScript(p: nat, claim: Claim, turn: Turn, policy: Policy): seq<Event> {
    var settle := if turn.kept then Write(p) else LoseWrite(p);
    match DebtAfter(claim, turn.outcome, policy)
    case NoDebt => [Send(p, turn.outcome)]
    case DeadLetterSend(_) => [Send(p, turn.outcome), SendDeadLetter(p, turn.deadLetter), settle]
    case _ => [Send(p, turn.outcome), settle]
  }

  function LoopScript(p: nat, claims: seq<Claim>, turns: seq<Turn>, policy: Policy): seq<Event>
    requires |turns| <= |claims|
  {
    if turns == [] then []
    else
      var n := |turns| - 1;
      LoopScript(p, claims, turns[..n], policy) + TurnScript(p, claims[n], turns[n], policy)
  }

  /** At the end of the list the publisher marks what was accepted, if anything. */
  function LastEvent(p: nat, published: seq<Uuid>, marked: bool): Event {
    if published == [] then Finish(p) else if marked then MarkBatch(p) else LoseMark(p)
  }

  /** A whole call: when and what it claimed, how each message fared, and whether
      the batch mark was carried out. */
  datatype Call = Call(now: int, claims: seq<Claim>, turns: seq<Turn>, marked: bool)

  function Script(p: nat, call: Call, policy: Policy): seq<Event>
    requires |call.turns| == |call.claims|
  {
    var ids := ClaimedIds(call.claims);
    [ClaimBatch(p, ids)]
    + LoopScript(p, call.claims, call.turns, policy)
    + [LastEvent(p, AcceptedIds(ids, Outcomes(call.turns)), call.marked)]
  }

  function ClaimedIds(claims: seq<Claim>): seq<Uuid> {
    seq(|claims|, i requires 0 <= i < |claims| => claims[i].id)
  }

  function Outcomes(turns: seq<Turn>): seq<SendOutcome> {
    seq(|turns|, i requires 0 <= i < |turns| => turns[i].outcome)
  }

  function KeptFlags(turns: seq<Turn>): seq<bool> {
    seq(|turns|, i requires 0 <= i < |turns| => turns[i].kept)
  }

  /** The call as the progress results see it. */
  function TickOf(call: Call): Tick {
    Tick(call.now, ClaimedIds(call.claims), Outcomes(call.turns),
         WithMark(Outcomes(call.turns), KeptFlags(call.turns), call.marked))
  }

  /** What settling claim `c` has done so far: an accepted message stays
      `publishing` until the batch mark at the end. */
  predicate SettledSoFar(before: Row, after: Row, outcome: SendOutcome, kept: bool, policy: Policy) {
    Settles(before, after, outcome, kept && !outcome.Accepted?, policy)
  }

  function AcceptedIds(ids: seq<Uuid>, outcomes: seq<SendOutcome>): seq<Uuid>
    requires |outcomes| <= |ids|
  {
    if outcomes == [] then []
    else
      var n := |outcomes| - 1;
      AcceptedIds(ids, outcomes[..n]) + (if outcomes[n].Accepted? then [ids[n]] else [])
  }

  /** The first `|outcomes|` claimed rows are settled, the rest are as claimed. */
  ghost predicate Underway(claimed: Table, rows: Table, ids: seq<Uuid>, outcomes: seq<SendOutcome>,
                           kept: seq<bool>, policy: Policy)
  {
    && |outcomes| == |kept| <= |ids| && rows.Keys == claimed.Keys
    && (forall id :: id in ids ==> id in rows)
    && (forall j :: 0 <= j < |outcomes| ==> SettledAt(claimed, rows, ids, outcomes, kept, policy, j))
    && (forall id :: id in rows && id !in ids[..|outcomes|] ==> rows[id] == claimed[id])
  }

  predicate SettledAt(claimed: Table, rows: Table, ids: seq<Uuid>, outcomes: seq<SendOutcome>,
                      kept: seq<bool>, policy: Policy, j: nat)
  {
    && j < |outcomes| && j < |kept| && j < |ids| && ids[j] in claimed && ids[j] in rows
    && SettledSoFar(claimed[ids[j]], rows[ids[j]], outcomes[j], kept[j], policy)
  }

  lemma NotYetTouched(claimed: Table, rows: Table, ids: seq<Uuid>, outcomes: seq<SendOutcome>,
                      kept: seq<bool>, policy: Policy)
    requires Underway(claimed, rows, ids, outcomes, kept, policy) && |outcomes| < |ids| && NoDuplicates(ids)
    ensures rows[ids[|outcomes|]] == claimed[ids[|outcomes|]]
  {
    assert ids[|outcomes|] !in ids[..|outcomes|];
  }

  lemma UnderwayStep(claimed: Table, rows: Table, rows': Table, ids: seq<Uuid>, outcomes: seq<SendOutcome>,
                     kept: seq<bool>, outcome: SendOutcome, k: bool, policy: Policy)
    requires Underway(claimed, rows, ids, outcomes, kept, policy) && |outcomes| < |ids| && NoDuplicates(ids)
    requires rows'.Keys == rows.Keys
    requires var id := ids[|outcomes|]; SettledSoFar(rows[id], rows'[id], outcome, k, policy)
    requires forall id :: id in rows' && id != ids[|outcomes|] ==> rows'[id] == rows[id]
    ensures Underway(claimed, rows', ids, outcomes + [outcome], kept + [k], policy)
  {
    var n := |outcomes|;
    NotYetTouched(claimed, rows, ids, outcomes, kept, policy);
    assert ids[..n + 1] == ids[..n] + [ids[n]];
    forall j | 0 <= j <= n
      ensures SettledAt(claimed, rows', ids, outcomes + [outcome], kept + [k], policy, j)
    {
      if j < n {
        assert ids[j] != ids[n] && SettledAt(claimed, rows, ids, outcomes, kept, policy, j);
      }
    }
  }

  /** Whether each row's last statement took effect, given that of the mark. */
  function WithMark(outcomes: seq<SendOutcome>, kept: seq<bool>, marked: bool): seq<bool>
    requires |outcomes| == |kept|
  {
    seq(|kept|, i requires 0 <= i < |kept| => if outcomes[i].Accepted? then marked else kept[i])
  }

  lemma {:induction false} InAccepted(ids: seq<Uuid>, outcomes: seq<SendOutcome>, id: Uuid)
    requires |outcomes| <= |ids|
    ensures id in AcceptedIds(ids, outcomes)
       <==> exists i :: 0 <= i < |outcomes| && ids[i] == id && outcomes[i].Accepted?
  {
    if outcomes != [] {
      InAccepted(ids, outcomes[..|outcomes| - 1], id);
    }
  }

  lemma MarkCompletes(before: Table, claimed: Table, drained: Table, after: Table, report: Tick,
                      kept: seq<bool>, marked: bool, clock: int, limit: int, policy: Policy)
    requires OldestBatch(before, report.now, limit, report.ids)
    requires claimed == Claimed(before, Elements(report.ids), report.now)
    requires |report.outcomes| == |report.ids| && Underway(claimed, drained, report.ids, report.outcomes, kept, policy)
    requires report.kept == WithMark(report.outcomes, kept, marked)
    requires var published := AcceptedIds(report.ids, report.outcomes);
             after == if published != [] && marked then Marked(drained, published, clock) else drained
    ensures TickStep(before, report, after, limit, policy)
  {
    var ids, outcomes := report.ids, report.outcomes;
    var published := AcceptedIds(ids, outcomes);
    assert ids[..|ids|] == ids;
    forall i | 0 <= i < |ids|
      ensures Settles(before[ids[i]], after[ids[i]], outcomes[i], report.kept[i], policy)
    {
      InAccepted(ids, outcomes, ids[i]);
      assert SettledAt(claimed, drained, ids, outcomes, kept, policy, i);
    }
    forall id | id in before && id !in ids ensures after[id] == before[id] {
      InAccepted(ids, outcomes, id);
    }
  }

  // ---------- Where a drain call stands ----------

  /** A claimed batch: the run up to the call, the state and the ports it found,
      and the claim. */
  datatype Batch = Batch(start: Trace, found: State, p: nat, now: int, limit: int, ids: seq<Uuid>)

  ghost predicate BatchOk(b: Batch) {
    && b.p < |b.found.publishers| && b.found.publishers[b.p].Resting?
    && OldestBatch(b.found.table, b.now, b.limit, b.ids) && b.limit <= b.found.config.batchSize
  }

  ghost function ClaimedRows(b: Batch): Table {
    Claimed(b.found.table, Elements(b.ids), b.now)
  }

  ghost function ClaimsOf(b: Batch): seq<Claim>
    requires BatchOk(b)
  {
    Claims(b.found.table, b.ids)
  }

  ghost function AcceptedSoFar(b: Batch, turns: seq<Turn>): seq<Uuid>
    requires |turns| <= |b.ids|
  {
    AcceptedIds(b.ids, Outcomes(turns))
  }

  /** The state when `p` has gone through as many messages as there are turns. */
  ghost function StateAt(b: Batch, turns: seq<Turn>, clock: int, rows: Table): State
    requires BatchOk(b) && |turns| <= |b.ids|
  {
    var d := Draining(b.now, ClaimsOf(b)[|turns|..], NoDebt, AcceptedSoFar(b, turns));
    State(b.found.config, clock, rows, b.found.publishers[b.p := d])
  }

  ghost predicate Midway(b: Batch, tr: Trace, turns: seq<Turn>, clock: int, rows: Table, ports: Ports) {
    && BatchOk(b) && |turns| <= |b.ids| && Within(b.start, tr) && b.now <= clock
    && Reaches(tr, StateAt(b, turns, clock, rows), ports)
    && Steps(tr) == Steps(b.start) + [ClaimBatch(b.p, b.ids)]
                    + LoopScript(b.p, ClaimsOf(b), turns, b.found.config.policy)
    && Underway(ClaimedRows(b), rows, b.ids, Outcomes(turns), KeptFlags(turns), b.found.config.policy)
  }

  lemma MidwayStart(b: Batch, ports: Ports)
    requires BatchOk(b) && Reaches(b.start, b.found, ports) && b.found.clock <= b.now
    ensures Midway(b, Later(b.start, b.now, ClaimBatch(b.p, b.ids)), [], b.now, ClaimedRows(b),
                   ports.(journal := ports.journal + [Entry(Claiming(true), true)]))
  {
    var e := ClaimBatch(b.p, b.ids);
    Eventually(b.start, b.found, ports, b.now, e);
    assert ports.log + [] == ports.log;
    assert ClaimsOf(b)[0..] == ClaimsOf(b);
    assert Steps(b.start) + [e] + [] == Steps(b.start) + [e];
  }

  /** The publisher once the message at the head of its list is settled. */
  ghost function AfterTurn(d: P.Publisher, outcome: SendOutcome): P.Publisher {
    if d.Resting? || d.todo == [] then d
    else d.(todo := d.todo[1..],
            published := if outcome.Accepted? then d.published + [d.todo[0].id] else d.published)
  }

  lemma AcceptedStep(b: Batch, turns: seq<Turn>, turn: Turn)
    requires |turns| < |b.ids|
    ensures AcceptedSoFar(b, turns + [turn])
         == if turn.outcome.Accepted? then AcceptedSoFar(b, turns) + [b.ids[|turns|]] else AcceptedSoFar(b, turns)
    ensures Outcomes(turns + [turn]) == Outcomes(turns) + [turn.outcome]
    ensures KeptFlags(turns + [turn]) == KeptFlags(turns) + [turn.kept]
  {
    assert Outcomes(turns + [turn]) == Outcomes(turns) + [turn.outcome];
    assert (Outcomes(turns) + [turn.outcome])[..|turns|] == Outcomes(turns);
  }

  lemma StateStep(b: Batch, turns: seq<Turn>, turn: Turn, clock: int, clock': int, rows: Table, rows': Table)
    requires BatchOk(b) && |turns| < |b.ids|
    ensures var s := StateAt(b, turns, clock, rows);
            State(s.config, clock', rows', s.publishers[b.p := AfterTurn(s.publishers[b.p], turn.outcome)])
            == StateAt(b, turns + [turn], clock', rows')
  {
    AcceptedStep(b, turns, turn);
    assert ClaimsOf(b)[|turns|..][1..] == ClaimsOf(b)[|turns| + 1..];
  }

  lemma ScriptStep(p: nat, claims: seq<Claim>, turns: seq<Turn>, turn: Turn, policy: Policy, before: seq<Event>)
    requires |turns| < |claims|
    ensures before + LoopScript(p, claims, turns + [turn], policy)
         == before + LoopScript(p, claims, turns, policy) + TurnScript(p, claims[|turns|], turn, policy)
  {
    assert (turns + [turn])[..|turns|] == turns;
  }

  /** The table after the mark. */
  ghost function LastRows(b: Batch, turns: seq<Turn>, marked: bool, clock: int, rows: Table): Table
    requires |turns| <= |b.ids|
  {
    var published := AcceptedSoFar(b, turns);
    if published != [] && marked then Marked(rows, published, clock) else rows
  }

  lemma LastEffect(b: Batch, turns: seq<Turn>, marked: bool, clock: int, rows: Table)
    requires BatchOk(b) && |turns| == |b.ids|
    ensures var published := AcceptedSoFar(b, turns);
            var s, e := StateAt(b, turns, clock, rows), LastEvent(b.p, published, marked);
            && Enabled(s, e) && Offered(s, e) == []
            && Entries(s, e) == (if published == [] then [] else [Entry(Marking(published), marked)])
            && Apply(s, e) == State(b.found.config, clock, LastRows(b, turns, marked, clock, rows), b.found.publishers)
  {
    assert StateAt(b, turns, clock, rows).publishers[b.p := Resting] == b.found.publishers;
  }

  lemma LastStep(b: Batch, tr: Trace, turns: seq<Turn>, marked: bool, clock: int, clock': int,
                 rows: Table, rows': Table, ports: Ports)
    requires Midway(b, tr, turns, clock, rows, ports) && |turns| == |b.ids| && clock <= clock'
    requires rows' == LastRows(b, turns, marked, clock', rows)
    ensures var published := AcceptedSoFar(b, turns);
            var tr' := Later(tr, clock', LastEvent(b.p, published, marked));
            && Within(b.start, tr')
            && Steps(tr') == Steps(tr) + [LastEvent(b.p, published, marked)]
            && Reaches(tr', State(b.found.config, clock', rows', b.found.publishers),
                       if published == [] then ports
                       else ports.(journal := ports.journal + [Entry(Marking(published), marked)]))
  {
    var e := LastEvent(b.p, AcceptedSoFar(b, turns), marked);
    Eventually(tr, StateAt(b, turns, clock, rows), ports, clock', e);
    LastEffect(b, turns, marked, clock', rows);
    WithinTrans(b.start, tr, Later(tr, clock', e));
    assert ports.log + [] == ports.log && ports.journal + [] == ports.journal;
  }

  /** What the record of a call that claimed `b` says of the table. */
  ghost predicate Effected(b: Batch, call: Call, rows: Table) {
    && |call.turns| == |call.claims| && call.now == b.now
    && ClaimedIds(call.claims) == b.ids
    && (forall id :: id in b.ids ==> id in b.found.table) && call.claims == Claims(b.found.table, b.ids)
    && TickStep(b.found.table, TickOf(call), rows, b.limit, b.found.config.policy)
    && rows.Keys == b.found.table.Keys
  }

  /** The record of the finished call tells what happened to the table, */
  lemma EffectRecorded(b: Batch, turns: seq<Turn>, marked: bool, clock: int, rows: Table, rows': Table)
    requires BatchOk(b) && |turns| == |b.ids|
    requires Underway(ClaimedRows(b), rows, b.ids, Outcomes(turns), KeptFlags(turns), b.found.config.policy)
    requires rows' == LastRows(b, turns, marked, clock, rows)
    ensures Effected(b, Call(b.now, ClaimsOf(b), turns, marked), rows')
  {
    var call := Call(b.now, ClaimsOf(b), turns, marked);
    assert ClaimedIds(call.claims) == b.ids;
    MarkCompletes(b.found.table, ClaimedRows(b), rows, rows', TickOf(call), KeptFlags(turns), marked,
                  clock, b.limit, b.found.config.policy);
  }

  /** and which events it consisted of. */
  lemma ScriptRecorded(b: Batch, turns: seq<Turn>, marked: bool, before: seq<Event>)
    requires BatchOk(b) && |turns| == |b.ids|
    ensures var call := Call(b.now, ClaimsOf(b), turns, marked);
            before + [ClaimBatch(b.p, b.ids)] + LoopScript(b.p, ClaimsOf(b), turns, b.found.config.policy)
            + [LastEvent(b.p, AcceptedSoFar(b, turns), marked)]
            == before + Script(b.p, call, b.found.config.policy)
  {
    var script := LoopScript(b.p, ClaimsOf(b), turns, b.found.config.policy);
    var last := LastEvent(b.p, AcceptedSoFar(b, turns), marked);
    assert ClaimedIds(ClaimsOf(b)) == b.ids;
    Regroup(before, [ClaimBatch(b.p, b.ids)], script, [last]);
  }

  lemma Regroup(a: seq<Event>, b: seq<Event>, c: seq<Event>, d: seq<Event>)
    ensures a + b + c + d == a + (b + c + d)
  {
  }

  /** The record of a call that claimed `b` tells its run and its effect. */
  ghost predicate Finished(b: Batch, call: Call, tr: Trace, rows: Table) {
    Effected(b, call, rows) && Steps(tr) == Steps(b.start) + Script(b.p, call, b.found.config.policy)
  }

  class OutboxPublisher {
    const store: OutboxStore
    const sink: MessageSink
    const policy: Policy

    constructor (store: OutboxStore, sink: MessageSink, policy: Policy)
      ensures this.store == store && this.sink == sink && this.policy == policy
    {
      this.store, this.sink, this.policy := store, sink, policy;
    }

    ghost function Seen(): Ports
      reads store, sink
    {
      Ports(sink.log, store.journal)
    }

    /** One turn of the drain loop: send the message, then settle it. */
    method Process(claim: Claim, ghost tr: Trace, ghost s: State, ghost p: nat)
      returns (outcome: SendOutcome, ghost turn: Turn, ghost tr': Trace)
      requires Reaches(tr, s, Seen()) && s.clock == store.clock && s.table == store.rows
      requires s.config.policy == policy && p < |s.publishers| && s.publishers[p].Draining?
      requires s.publishers[p].debt.NoDebt? && s.publishers[p].todo != [] && s.publishers[p].todo[0] == claim
      requires claim.id in store.rows && claim.retryCount == store.rows[claim.id].retryCount
      requires store.rows[claim.id].status.Publishing?
      modifies store, sink
      ensures store.clock >= old(store.clock) && outcome == turn.outcome
      ensures Reaches(tr', State(s.config, store.clock, store.rows,
                                 s.publishers[p := AfterTurn(s.publishers[p], outcome)]), Seen())
      ensures Within(tr, tr') && Steps(tr') == Steps(tr) + TurnScript(p, claim, turn, policy)
      ensures store.rows.Keys == old(store.rows.Keys)
      ensures SettledSoFar(old(store.rows)[claim.id], store.rows[claim.id], outcome, turn.kept, policy)
      ensures forall id :: id in store.rows && id != claim.id ==> store.rows[id] == old(store.rows)[id]
    {
      ghost var ports := Seen();
      outcome := sink.Send(Outbound(claim.content));
      turn := Turn(outcome, Accepted, true);
      ghost var e := P.Send(p, outcome);
      Immediately(tr, s, ports, e);
      ghost var start := Extend(tr, e);
      tr' := start;
      assert Seen().journal == ports.journal + [];
      assert Reaches(start, Apply(s, e), Seen());
      if !outcome.Accepted? {
        ghost var kept, copy;
        kept, copy, tr' := Settle(claim, outcome, start, Apply(s, e), p);
        turn := Turn(outcome, copy, kept);
        WithinTrans(tr, start, tr');
        assert TurnScript(p, claim, turn, policy) == [e] + SettleScript(p, claim, turn, policy);
      }
    }

    /** The copy for the dead-letter topic; its answer decides nothing. */
    method SendCopy(claim: Claim, topic: string, ghost tr: Trace, ghost s: State, ghost p: nat)
      returns (ghost answer: SendOutcome, ghost tr': Trace, ghost s': State)
      requires Reaches(tr, s, Seen()) && p < |s.publishers| && s.publishers[p].Draining?
      requires s.publishers[p].debt == DeadLetterSend(claim) && topic == s.config.policy.dlqTopic
      modifies sink
      ensures Within(tr, tr') && Steps(tr') == Steps(tr) + [SendDeadLetter(p, answer)]
      ensures s' == s.(publishers := s.publishers[p := s.publishers[p].(debt := SetStatus(claim.id, Dlq))])
      ensures Reaches(tr', s', Seen())
    {
      ghost var ports := Seen();
      var outcome := sink.Send(Outbound(claim.content).(topic := topic));
      answer := outcome;
      ghost var e := SendDeadLetter(p, answer);
      Immediately(tr, s, ports, e);
      assert ports.journal + [] == ports.journal;
      tr', s' := Extend(tr, e), Apply(s, e);
    }

    /** What a refused message costs: a release, a retry, or the end of the ladder. */
    method Settle(claim: Claim, outcome: SendOutcome, ghost tr: Trace, ghost s: State, ghost p: nat)
      returns (ghost kept: bool, ghost copy: SendOutcome, ghost tr': Trace)
      requires Reaches(tr, s, Seen()) && s.clock == store.clock && s.table == store.rows
      requires s.config.policy == policy && p < |s.publishers| && s.publishers[p].Draining?
      requires !outcome.Accepted? && s.publishers[p].debt == DebtAfter(claim, outcome, policy)
      requires claim.id in store.rows && claim.retryCount == store.rows[claim.id].retryCount
      requires store.rows[claim.id].status.Publishing?
      modifies store, sink
      ensures store.clock >= old(store.clock)
      ensures Reaches(tr', State(s.config, store.clock, store.rows,
                                 s.publishers[p := s.publishers[p].(debt := NoDebt)]), Seen())
      ensures Within(tr, tr') && Steps(tr') == Steps(tr) + SettleScript(p, claim, Turn(outcome, copy, kept), policy)
      ensures store.rows.Keys == old(store.rows.Keys)
      ensures Settles(old(store.rows)[claim.id], store.rows[claim.id], outcome, kept, policy)
      ensures forall id :: id in store.rows && id != claim.id ==> store.rows[id] == old(store.rows)[id]
    {
      ghost var t, last, ports := s, tr, Seen();
      copy := Accepted;
      var heard;
      match outcome {
        case Backpressure =>
          heard, kept := store.ReleaseClaim(claim.id);
        case TransportError =>
          match EvaluatePublishFailure(claim.retryCount, policy) {
            case Retry =>
              heard, kept := store.IncrementRetry(claim.id);
            case DeadLetter(topic) =>
              copy, last, t := SendCopy(claim, topic, tr, s, p);
              ports := Seen();
              heard, kept := store.UpdateStatus(claim.id, Dlq);
            case Fail =>
              heard, kept := store.UpdateStatus(claim.id, Failed);
          }
      }
      ghost var owed := StatementFor(claim, outcome, policy);
      assert t.publishers[p].debt == owed;
      PaidSettles(s.table, store.rows, claim, outcome, kept, store.clock, policy);
      PayStep(last, t, ports, p, kept, store.clock);
      tr' := Later(last, store.clock, if kept then Write(p) else LoseWrite(p));
      WithinTrans(tr, last, tr');
      SettleSteps(p, claim, Turn(outcome, copy, kept), policy, Steps(tr), if kept then Write(p) else LoseWrite(p));
    }

    /** The turn seen from the batch. */
    method ProcessNext(message: Claim, ghost b: Batch, ghost tr: Trace, ghost turns: seq<Turn>)
      returns (outcome: SendOutcome, ghost turn: Turn, ghost tr': Trace)
      requires |turns| < |b.ids| && Midway(b, tr, turns, store.clock, store.rows, Seen())
      requires b.found.config.policy == policy && message == ClaimsOf(b)[|turns|]
      modifies store, sink
      ensures outcome == turn.outcome
      ensures Midway(b, tr', turns + [turn], store.clock, store.rows, Seen())
    {
      ghost var s, rows := StateAt(b, turns, store.clock, store.rows), store.rows;
      NotYetTouched(ClaimedRows(b), rows, b.ids, Outcomes(turns), KeptFlags(turns), policy);
      outcome, turn, tr' := Process(message, tr, s, b.p);
      WithinTrans(b.start, tr, tr');
      StateStep(b, turns, turn, s.clock, store.clock, rows, store.rows);
      AcceptedStep(b, turns, turn);
      ScriptStep(b.p, ClaimsOf(b), turns, turn, policy, Steps(b.start) + [ClaimBatch(b.p, b.ids)]);
      UnderwayStep(ClaimedRows(b), rows, store.rows, b.ids, Outcomes(turns), KeptFlags(turns),
                   outcome, turn.kept, policy);
    }

    /** The loop over the claimed messages. */
    method DrainClaimed(pending: seq<Claim>, ghost b: Batch, ghost tr: Trace)
      returns (published: seq<Uuid>, ghost turns: seq<Turn>, ghost tr': Trace)
      requires Midway(b, tr, [], store.clock, store.rows, Seen())
      requires b.found.config.policy == policy && pending == ClaimsOf(b)
      modifies store, sink
      ensures |turns| == |b.ids| && Midway(b, tr', turns, store.clock, store.rows, Seen())
      ensures published == AcceptedSoFar(b, turns)
    {
      published, turns, tr' := [], [], tr;
      for i := 0 to |pending|
        invariant |turns| == i && Midway(b, tr', turns, store.clock, store.rows, Seen())
        invariant published == AcceptedSoFar(b, turns)
      {
        var outcome;
        ghost var turn;
        outcome, turn, tr' := ProcessNext(pending[i], b, tr', turns);
        AcceptedStep(b, turns, turn);
        turns := turns + [turn];
        if outcome.Accepted? {
          published := published + [pending[i].id];
        }
      }
    }

    /** One statement marks everything the sink accepted. */
    method Conclude(published: seq<Uuid>, ghost b: Batch, ghost tr: Trace, ghost turns: seq<Turn>)
      returns (ghost call: Call, ghost tr': Trace)
      requires Midway(b, tr, turns, store.clock, store.rows, Seen()) && |turns| == |b.ids|
      requires published == AcceptedSoFar(b, turns)
      modifies store
      ensures store.clock >= old(store.clock) && Within(b.start, tr')
      ensures Reaches(tr', b.found.(clock := store.clock, table := store.rows), Seen())
      ensures Finished(b, call, tr', store.rows)
    {
      ghost var rows, clock, ports := store.rows, store.clock, Seen();
      ghost var marked := true;
      if published != [] {
        var heard;
        heard, marked := store.MarkPublishedBatch(published);
      }
      call := Call(b.now, ClaimsOf(b), turns, marked);
      tr' := Later(tr, store.clock, LastEvent(b.p, published, marked));
      LastStep(b, tr, turns, marked, clock, store.clock, rows, store.rows, ports);
      EffectRecorded(b, turns, marked, store.clock, rows, store.rows);
      ScriptRecorded(b, turns, marked, Steps(b.start));
    }

    /** The whole drain call. It is exactly the script of its record, and leaves the
        table as that record says. */
    method PublishPending(batchSize: int, ghost tr: Trace, ghost s: State, ghost p: nat)
      returns (ok: bool, ghost record: Record, ghost tr': Trace)
      requires Reaches(tr, s, Seen()) && s.clock == store.clock && s.table == store.rows
      requires s.config == Config(policy, if batchSize < 0 then 0 else batchSize)
      requires p < |s.publishers| && s.publishers[p].Resting?
      modifies store, sink
      ensures Reaches(tr', s.(clock := store.clock, table := store.rows), Seen()) && Within(tr, tr')
      ensures ok == record.Drained? && Steps(tr') == Steps(tr) + RecordScript(p, record, policy)
      ensures Recorded(old(store.rows), record, store.rows, batchSize, policy)
      ensures record.NoClaim? || old(store.clock) <= record.Now() <= store.clock
      ensures old(store.clock) <= store.clock && store.rows.Keys == old(store.rows.Keys)
    {
      ghost var ports := Seen();
      ghost var done, call;
      var claimed;
      claimed, done := store.ClaimPending(batchSize);
      ok, record := claimed.Some?, NoClaim;
      if !ok {
        if done {
          var ids :| && OldestBatch(s.table, store.clock, batchSize, ids)
                     && store.rows == Claimed(s.table, Elements(ids), store.clock);
          record := ClaimLost(store.clock, ids);
          tr' := Unheard(tr, s, ports, p, store.clock, ids);
        } else {
          tr' := Unclaimed(tr, s, ports, p, store.clock);
        }
        return;
      }
      ghost var ids :| && OldestBatch(s.table, store.clock, batchSize, ids)
                       && store.rows == Claimed(s.table, Elements(ids), store.clock)
                       && claimed.value == Claims(s.table, ids);
      ghost var b := Batch(tr, s, p, store.clock, batchSize, ids);
      MidwayStart(b, ports);
      tr' := Later(tr, b.now, ClaimBatch(p, ids));
      var published;
      ghost var turns;
      published, turns, tr' := DrainClaimed(claimed.value, b, tr');
      call, tr' := Conclude(published, b, tr', turns);
      record := Drained(call);
    }

    /** The tick loop of `start`, stopped after `n` ticks. With no fault and no
        backpressure its ticks form a run, and enough of them finish every row. */
    method RunTicks(batchSize: nat, n: nat, ghost tr: Trace, ghost s: State, ghost p: nat)
      returns (ghost records: seq<Record>, ghost tables: seq<Table>, ghost tr': Trace)
      requires Reaches(tr, s, Seen()) && s.clock == store.clock && s.table == store.rows
      requires s.config == Config(policy, batchSize) && p < |s.publishers| && s.publishers[p].Resting?
      modifies store, sink
      ensures Within(tr, tr') && Reaches(tr', s.(clock := store.clock, table := store.rows), Seen())
      ensures |records| == n && Steps(tr') == Steps(tr) + Scripts(p, records, policy)
      ensures Ticked(records, tables, old(store.clock), store.clock, store.rows, batchSize, policy)
      ensures tables[0] == old(store.rows)
      ensures Smooth(records) && batchSize >= 1 && AllClaimable(old(store.rows), old(store.clock)) ==>
                n >= Total(old(store.rows), old(store.rows).Keys, policy) ==> AllTerminal(store.rows)
    {
      ghost var since := store.clock;
      tables, records, tr' := [store.rows], [], tr;
      Safety.AlwaysInv(tr);
      assert Steps(tr) + [] == Steps(tr);
      for i := 0 to n
        invariant Within(tr, tr') && Reaches(tr', s.(clock := store.clock, table := store.rows), Seen())
        invariant |records| == i && Steps(tr') == Steps(tr) + Scripts(p, records, policy)
        invariant Ticked(records, tables, since, store.clock, store.rows, batchSize, policy)
        invariant tables[0] == old(store.rows) && since <= store.clock
      {
        ghost var mid, before, clock := tr', store.rows, store.clock;
        ghost var record;
        var ok;
        ok, record, tr' := PublishPending(batchSize, tr', s.(clock := store.clock, table := store.rows), p);
        WithinTrans(tr, mid, tr');
        TickedStep(records, tables, record, since, clock, store.clock, before, store.rows, batchSize, policy);
        ScriptsStep(p, records, record, policy, Steps(tr));
        records, tables := records + [record], tables + [store.rows];
      }
      SmoothSettles(records, tables, since, store.clock, store.rows, batchSize, policy);
    }
  }

  /** The one event of a call whose claim fails, */
  lemma Unclaimed(tr: Trace, s: State, ports: Ports, p: nat, clock: int) returns (tr': Trace)
    requires Reaches(tr, s, ports) && s.clock <= clock && p < |s.publishers| && s.publishers[p].Resting?
    ensures Within(tr, tr') && Steps(tr') == Steps(tr) + [LoseClaim(p)]
    ensures Reaches(tr', s.(clock := clock), ports.(journal := ports.journal + [Entry(Claiming(false), false)]))
  {
    Eventually(tr, s, ports, clock, LoseClaim(p));
    tr' := Later(tr, clock, LoseClaim(p));
    assert ports.log + [] == ports.log;
  }

  /** and of one whose claim takes effect without an answer. */
  lemma Unheard(tr: Trace, s: State, ports: Ports, p: nat, clock: int, ids: seq<Uuid>) returns (tr': Trace)
    requires Reaches(tr, s, ports) && s.clock <= clock && CanClaim(s.(clock := clock), p, ids)
    ensures Within(tr, tr') && Steps(tr') == Steps(tr) + [ClaimUnheard(p, ids)]
    ensures Reaches(tr', s.(clock := clock, table := Claimed(s.table, Elements(ids), clock)),
                    ports.(journal := ports.journal + [Entry(Claiming(false), true)]))
  {
    var e := ClaimUnheard(p, ids);
    assert Enabled(s.(clock := clock), e);
    Eventually(tr, s, ports, clock, e);
    tr' := Later(tr, clock, e);
    assert ports.log + [] == ports.log;
  }

  // ---------- The record of a call ----------

  /** What became of a drain call: it went through, its claim failed, or its claim
      took effect and the answer was lost. */
  datatype Record = Drained(call: Call) | NoClaim | ClaimLost(now: int, ids: seq<Uuid>) {
    function Now(): int
      requires !NoClaim?
    {
      if Drained? then call.now else now
    }
  }

  function RecordScript(p: nat, record: Record, policy: Policy): seq<Event> {
    match record
    case Drained(call) => if |call.turns| == |call.claims| then Script(p, call, policy) else []
    case NoClaim => [LoseClaim(p)]
    case ClaimLost(_, ids) => [ClaimUnheard(p, ids)]
  }

  /** The table before and after. */
  ghost predicate Recorded(before: Table, record: Record, after: Table, limit: int, policy: Policy) {
    match record
    case Drained(call) =>
      && |call.turns| == |call.claims| && TickStep(before, TickOf(call), after, limit, policy)
      && call.claims == Claims(before, ClaimedIds(call.claims))
    case NoClaim => after == before
    case ClaimLost(now, ids) => OldestBatch(before, now, limit, ids) && after == Claimed(before, Elements(ids), now)
  }

  // ---------- Several calls in a row ----------

  /** Every claim worked, no statement was lost, the sink never pushed back. */
  ghost predicate Smooth(records: seq<Record>) {
    forall i :: 0 <= i < |records| ==> records[i].Drained? && Unhindered(TickOf(records[i].call))
  }

  ghost function TicksOf(records: seq<Record>): seq<Tick>
    requires Smooth(records)
  {
    seq(|records|, i requires 0 <= i < |records| => TickOf(records[i].call))
  }

  /** `tables` are the tables between the calls; calls without faults form a run. */
  ghost predicate Ticked(records: seq<Record>, tables: seq<Table>, since: int, clock: int,
                         rows: Table, limit: nat, policy: Policy)
  {
    && |tables| == |records| + 1 && tables[|records|] == rows
    && (Smooth(records) ==>
          && Run(tables, TicksOf(records), limit, policy) && NoArrivals(tables)
          && forall k :: 0 <= k < |records| ==> since <= TicksOf(records)[k].now <= clock)
  }

  lemma SmoothSettles(records: seq<Record>, tables: seq<Table>, since: int, clock: int,
                      rows: Table, limit: nat, policy: Policy)
    requires Ticked(records, tables, since, clock, rows, limit, policy)
    ensures Smooth(records) && limit >= 1 && AllClaimable(tables[0], since) ==>
              |records| >= Total(tables[0], tables[0].Keys, policy) ==> AllTerminal(rows)
  {
    if && Smooth(records) && limit >= 1 && AllClaimable(tables[0], since)
       && |records| >= Total(tables[0], tables[0].Keys, policy)
    {
      assert |records| > 0 ==> since <= TicksOf(records)[0].now;
      EverythingSettles(tables, TicksOf(records), limit, policy);
    }
  }

  lemma TickedStep(records: seq<Record>, tables: seq<Table>, next: Record, since: int, clock: int, clock': int,
                   rows: Table, rows': Table, limit: nat, policy: Policy)
    requires Ticked(records, tables, since, clock, rows, limit, policy) && since <= clock <= clock'
    requires Recorded(rows, next, rows', limit, policy) && rows'.Keys == rows.Keys
    requires next.NoClaim? || clock <= next.Now() <= clock'
    ensures Ticked(records + [next], tables + [rows'], since, clock', rows', limit, policy)
  {
    SmoothStep(records, next);
    if Smooth(records + [next]) {
      RunExtends(tables, TicksOf(records), TickOf(next.call), rows', limit, policy);
    }
  }

  function Scripts(p: nat, records: seq<Record>, policy: Policy): seq<Event> {
    if records == [] then []
    else Scripts(p, records[..|records| - 1], policy) + RecordScript(p, records[|records| - 1], policy)
  }

  lemma ScriptsStep(p: nat, records: seq<Record>, next: Record, policy: Policy, before: seq<Event>)
    ensures before + Scripts(p, records + [next], policy)
         == before + Scripts(p, records, policy) + RecordScript(p, next, policy)
  {
    assert (records + [next])[..|records|] == records;
  }

  lemma SmoothStep(records: seq<Record>, next: Record)
    ensures Smooth(records + [next]) <==> Smooth(records) && next.Drained? && Unhindered(TickOf(next.call))
    ensures Smooth(records + [next]) ==> TicksOf(records + [next]) == TicksOf(records) + [TickOf(next.call)]
  {
    if Smooth(records + [next]) {
      forall i | 0 <= i < |records| ensures records[i].Drained? && Unhindered(TickOf(records[i].call)) {
        assert (records + [next])[i] == records[i];
      }
      assert (records + [next])[|records|] == next;
    }
  }

  /** The part of a turn that follows its send. */
  function SettleScript(p: nat, claim: Claim, turn: Turn, policy: Policy): seq<Event> {
    TurnScript(p, claim, turn, policy)[1..]
  }

  /** The statement that settles a refused message. */
  function StatementFor(claim: Claim, outcome: SendOutcome, policy: Policy): Debt {
    match DebtAfter(claim, outcome, policy)
    case DeadLetterSend(c) => SetStatus(c.id, Dlq)
    case debt => debt
  }

  lemma PaidSettles(rows: Table, rows': Table, claim: Claim, outcome: SendOutcome, kept: bool, clock: int,
                    policy: Policy)
    requires !outcome.Accepted? && claim.id in rows && claim.retryCount == rows[claim.id].retryCount
    requires rows[claim.id].status.Publishing?
    requires kept ==> CanPay(rows, StatementFor(claim, outcome, policy))
    requires rows' == if kept then Paid(rows, StatementFor(claim, outcome, policy), clock) else rows
    ensures rows'.Keys == rows.Keys && Settles(rows[claim.id], rows'[claim.id], outcome, kept, policy)
    ensures forall id :: id in rows && id != claim.id ==> rows'[id] == rows[id]
  {
  }

  lemma SettleSteps(p: nat, claim: Claim, turn: Turn, policy: Policy, before: seq<Event>, settle: Event)
    requires !turn.outcome.Accepted? && settle == if turn.kept then Write(p) else LoseWrite(p)
    ensures before + SettleScript(p, claim, turn, policy)
         == if DebtAfter(claim, turn.outcome, policy).DeadLetterSend?
            then before + [SendDeadLetter(p, turn.deadLetter)] + [settle]
            else before + [settle]
  {
  }

  /** The protocol's side of a settling statement. */
  lemma PayStep(tr: Trace, s: State, ports: Ports, p: nat, ok: bool, clock: int)
    requires Reaches(tr, s, ports) && p < |s.publishers| && s.publishers[p].Draining?
    requires !s.publishers[p].debt.NoDebt? && !s.publishers[p].debt.DeadLetterSend?
    requires s.clock <= clock && (ok ==> CanPay(s.table, s.publishers[p].debt))
    ensures var debt := s.publishers[p].debt;
            var e := if ok then Write(p) else LoseWrite(p);
            var tr' := Later(tr, clock, e);
            && Within(tr, tr') && Steps(tr') == Steps(tr) + [e]
            && Reaches(tr', State(s.config, clock, if ok then Paid(s.table, debt, clock) else s.table,
                                  s.publishers[p := s.publishers[p].(debt := NoDebt)]),
                       ports.(journal := ports.journal + [Entry(Paying(debt), ok)]))
  {
    var e := if ok then Write(p) else LoseWrite(p);
    Eventually(tr, s, ports, clock, e);
    assert ports.log + [] == ports.log;
  }
}
