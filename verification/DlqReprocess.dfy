/** Re-enqueueing of dead-lettered messages: one insert and one delete for each
    entry, in two statements. */
module DlqReprocess {
  import opened Common
  import opened OutboxTable

  const REPROCESS_BATCH_LIMIT: nat := 10_000

  datatype DlqMessage = DlqMessage(id: Uuid, originalMessageId: string, originalTopic: string,
                                   payload: string, headers: Option<string>, createdAt: int)

  type DlqTable = map<Uuid, DlqMessage>

  datatype Selector = ById(id: Uuid) | ByTopic(topic: string) | All

  datatype ReprocessResult = ReprocessResult(reprocessedCount: nat, failureCount: nat, errors: seq<string>)

  ghost predicate Keyed(dlq: DlqTable) {
    forall id :: id in dlq ==> dlq[id].id == id
  }

  predicate OnTopic(m: DlqMessage, topic: Option<string>) {
    topic.None? || m.originalTopic == topic.value
  }

  /** The newest entries of a topic, or of all, as many as the limit allows. */
  ghost predicate NewestBatch(dlq: DlqTable, topic: Option<string>, limit: nat, messages: seq<DlqMessage>) {
    && NoDuplicates(messages) && |messages| <= limit
    && (forall m :: m in messages ==> m.id in dlq && dlq[m.id] == m && OnTopic(m, topic))
    && (|messages| < limit ==> forall id :: id in dlq && OnTopic(dlq[id], topic) ==> dlq[id] in messages)
    && (forall m, id :: m in messages && id in dlq && OnTopic(dlq[id], topic) && dlq[id] !in messages ==>
                          m.createdAt >= dlq[id].createdAt)
  }

  ghost predicate Selected(dlq: DlqTable, selector: Selector, messages: seq<DlqMessage>) {
    match selector
    case ById(id) => id in dlq && messages == [dlq[id]]
    case ByTopic(topic) => NewestBatch(dlq, Some(topic), REPROCESS_BATCH_LIMIT, messages)
    case All => NewestBatch(dlq, None, REPROCESS_BATCH_LIMIT, messages)
  }

  function Requeued(m: DlqMessage, now: int): Row {
    Row(Content("reprocess", m.originalMessageId, "reprocessed", m.payload, m.headers, m.originalTopic, None),
        Pending, 0, now, now)
  }

  /** A fresh row that will send the entry again, where it first came from. */
  predicate Carries(row: Row, m: DlqMessage) {
    && row.status.Pending? && row.retryCount == 0 && row.updatedAt == row.createdAt
    && row.content.topic == m.originalTopic
    && row.content.payload == m.payload
    && row.content.headers == m.headers
    && row.content.partitionKey.None?
    && row.content.aggregateId == m.originalMessageId
    && row.content.aggregateType == "reprocess" && row.content.eventType == "reprocessed"
  }

  datatype Statement = Fetch(selector: Selector) | Insert(id: Uuid, row: Row, heard: bool) | Remove(id: Uuid)

  /** A statement the handler ran, and whether it took effect. For an insert, whose
      answer matters, the statement says if the answer was heard. */
  datatype Ran = Ran(statement: Statement, done: bool)

  /** The tables at one moment: what a crash would leave behind. */
  datatype Moment = Moment(dlq: DlqTable, rows: Table)

  /** The two tables the handler works on, and a journal of its statements. A
      statement may fail, in which case it changes nothing; and when it has taken
      effect its answer may still be lost. */
  class Store {
    var dlq: DlqTable
    var rows: Table
    var journal: seq<Ran>

    constructor (dlq: DlqTable, rows: Table)
      ensures this.dlq == dlq && this.rows == rows && journal == []
    {
      this.dlq, this.rows, journal := dlq, rows, [];
    }

    ghost function Now(): Moment
      reads this
    {
      Moment(dlq, rows)
    }

    /** The entries asked for: the one with the identifier, or the newest ones.
        An unknown identifier is a failure. */
    method Select(selector: Selector) returns (messages: Option<seq<DlqMessage>>)
      requires Keyed(dlq)
      modifies this`journal
      ensures journal == old(journal) + [Ran(Fetch(selector), messages.Some?)]
      ensures messages.Some? ==> Selected(dlq, selector, messages.value)
    {
      var ok: bool := *;
      messages := None;
      if ok {
        match selector {
          case ById(id) =>
            messages := if id in dlq then Some([dlq[id]]) else None;
          case ByTopic(topic) =>
            var found := GetAll(Some(topic), REPROCESS_BATCH_LIMIT);
            messages := Some(found);
          case All =>
            var found := GetAll(None, REPROCESS_BATCH_LIMIT);
            messages := Some(found);
        }
      }
      journal := journal + [Ran(Fetch(selector), messages.Some?)];
    }

    /** An insert also fails when the identifier is taken. */
    method Create(id: Uuid, row: Row) returns (heard: bool, ghost done: bool)
      modifies this`rows, this`journal
      ensures heard ==> done
      ensures journal == old(journal) + [Ran(Insert(id, row, heard), done)]
      ensures done ==> id !in old(rows) && rows == old(rows)[id := row]
      ensures !done ==> rows == old(rows)
    {
      var did: bool := *;
      did, heard := did && id !in rows, *;
      heard, done := heard && did, did;
      journal := journal + [Ran(Insert(id, row, heard), did)];
      if did {
        rows := rows[id := row];
      }
    }

    method Delete(id: Uuid) returns (heard: bool, ghost done: bool)
      modifies this`dlq, this`journal
      ensures heard ==> done
      ensures journal == old(journal) + [Ran(Remove(id), done)]
      ensures dlq == if done then old(dlq) - {id} else old(dlq)
    {
      var did: bool := *;
      heard := *;
      heard, done := heard && did, did;
      journal := journal + [Ran(Remove(id), did)];
      if did {
        dlq := dlq - {id};
      }
    }

    method GetAll(topic: Option<string>, limit: nat) returns (messages: seq<DlqMessage>)
      requires Keyed(dlq)
      ensures NewestBatch(dlq, topic, limit, messages)
    {
      messages := [];
      var rest := set id | id in dlq && OnTopic(dlq[id], topic);
      while |messages| < limit && rest != {}
        invariant |messages| <= limit && NoDuplicates(messages)
        invariant forall id :: id in rest ==> id in dlq && OnTopic(dlq[id], topic)
        invariant forall m :: m in messages ==> m.id in dlq && dlq[m.id] == m && OnTopic(m, topic) && m.id !in rest
        invariant forall id :: id in dlq && OnTopic(dlq[id], topic) ==> id in rest || dlq[id] in messages
        invariant forall m, id :: m in messages && id in rest ==> m.createdAt >= dlq[id].createdAt
        decreases rest
      {
        var newest := Newest(rest);
        messages, rest := messages + [dlq[newest]], rest - {newest};
      }
    }

    method Newest(ids: set<Uuid>) returns (newest: Uuid)
      requires ids != {} && ids <= dlq.Keys
      ensures newest in ids && forall id :: id in ids ==> dlq[newest].createdAt >= dlq[id].createdAt
    {
      newest :| newest in ids;
      var rest := ids - {newest};
      while rest != {}
        invariant rest <= ids && newest in ids
        invariant forall id :: id in ids - rest ==> dlq[newest].createdAt >= dlq[id].createdAt
        decreases rest
      {
        var id :| id in rest;
        if dlq[id].createdAt > dlq[newest].createdAt {
          newest := id;
        }
        rest := rest - {id};
      }
    }
  }

  // ---------- What a call has done so far ----------

  /** How one entry fared. Its insert drew a new id and a time. It was answered with
      an error, whether or not the row went in; or it succeeded, and the delete that
      followed took effect or not. */
  datatype Outcome =
    | Refused(row: Uuid, now: int, inserted: bool)
    | Requeue(row: Uuid, now: int, deleted: bool)
  {
    predicate PutIn() {
      Requeue? || inserted
    }

    predicate TakenOut() {
      Requeue? && deleted
    }
  }

  /** The statements the call runs for these entries. */
  function Statements(messages: seq<DlqMessage>, outcomes: seq<Outcome>): seq<Ran>
    requires |outcomes| <= |messages|
  {
    if outcomes == [] then []
    else
      var n := |outcomes| - 1;
      Statements(messages, outcomes[..n]) + StatementsFor(messages[n], outcomes[n])
  }

  function StatementsFor(m: DlqMessage, outcome: Outcome): seq<Ran> {
    var insert := Ran(Insert(outcome.row, Requeued(m, outcome.now), outcome.Requeue?), outcome.PutIn());
    if outcome.Requeue? then [insert, Ran(Remove(m.id), outcome.deleted)] else [insert]
  }

  /** The tables once an entry is gone through. */
  function AfterOne(was: Moment, m: DlqMessage, outcome: Outcome): Moment {
    Moment(if outcome.TakenOut() then was.dlq - {m.id} else was.dlq,
           if outcome.PutIn() then was.rows[outcome.row := Requeued(m, outcome.now)] else was.rows)
  }

  function At(start: Moment, messages: seq<DlqMessage>, outcomes: seq<Outcome>): Moment
    requires |outcomes| <= |messages|
  {
    if outcomes == [] then start
    else
      var n := |outcomes| - 1;
      AfterOne(At(start, messages, outcomes[..n]), messages[n], outcomes[n])
  }

  /** Every insert found its id free. */
  predicate FreshIds(start: Moment, messages: seq<DlqMessage>, outcomes: seq<Outcome>)
    requires |outcomes| <= |messages|
  {
    outcomes == [] ||
    (var n := |outcomes| - 1;
     FreshIds(start, messages, outcomes[..n]) && FreshId(At(start, messages, outcomes[..n]), outcomes[n]))
  }

  predicate FreshId(was: Moment, outcome: Outcome) {
    outcome.PutIn() ==> outcome.row !in was.rows
  }

  function Successes(outcomes: seq<Outcome>): nat {
    if outcomes == [] then 0
    else Successes(outcomes[..|outcomes| - 1]) + One(outcomes[|outcomes| - 1].Requeue?)
  }

  function Additions(outcomes: seq<Outcome>): nat {
    if outcomes == [] then 0
    else Additions(outcomes[..|outcomes| - 1]) + One(outcomes[|outcomes| - 1].PutIn())
  }

  /** The call reports as many successes as rows it added exactly when no insert
      took effect without an answer. */
  lemma {:induction false} ReportedAdditions(outcomes: seq<Outcome>)
    ensures Additions(outcomes) >= Successes(outcomes)
    ensures Additions(outcomes) == Successes(outcomes)
       <==> forall i :: 0 <= i < |outcomes| && outcomes[i].Refused? ==> !outcomes[i].inserted
  {
    if outcomes != [] {
      var n := |outcomes| - 1;
      ReportedAdditions(outcomes[..n]);
      assert outcomes == outcomes[..n] + [outcomes[n]];
    }
  }

  /** The tables between the two statements of an entry are those of a delete that
      fails. */
  function CutShort(outcome: Outcome): Outcome {
    if outcome.Requeue? then outcome.(deleted := false) else outcome
  }

  /** The tables after each insert and after each entry. */
  function Moments(start: Moment, messages: seq<DlqMessage>, outcomes: seq<Outcome>): seq<Moment>
    requires |outcomes| <= |messages|
  {
    if outcomes == [] then []
    else
      var n := |outcomes| - 1;
      Moments(start, messages, outcomes[..n])
      + [AfterOne(At(start, messages, outcomes[..n]), messages[n], CutShort(outcomes[n])),
         At(start, messages, outcomes)]
  }

  ghost predicate NewRow(start: Moment, at: Moment, m: DlqMessage) {
    exists id :: id in at.rows && id !in start.rows && Carries(at.rows[id], m)
  }

  /** The entry is still dead-lettered, or a row this call added carries it. */
  ghost predicate Safe(start: Moment, at: Moment, m: DlqMessage) {
    (m.id in at.dlq && at.dlq[m.id] == m) || NewRow(start, at, m)
  }

  ghost predicate AllSafe(start: Moment, at: Moment, messages: seq<DlqMessage>) {
    forall m :: m in messages ==> Safe(start, at, m)
  }

  /** Distinct entries of the table, as a selection returns them. */
  ghost predicate Entries(dlq: DlqTable, messages: seq<DlqMessage>) {
    && (forall i, j :: 0 <= i < j < |messages| ==> messages[i].id != messages[j].id)
    && (forall m :: m in messages ==> m.id in dlq && dlq[m.id] == m)
  }

  lemma SelectionIsEntries(dlq: DlqTable, selector: Selector, messages: seq<DlqMessage>)
    requires Keyed(dlq) && Selected(dlq, selector, messages)
    ensures Entries(dlq, messages)
  {
    forall i, j | 0 <= i < j < |messages| ensures messages[i].id != messages[j].id {
      assert messages[i] in messages && messages[j] in messages;
    }
  }

  /** Rows only join the outbox and stay as they were written; only entries that
      have joined it leave the dead-letter table. */
  ghost predicate Joins(was: Moment, now: Moment, additions: nat, successes: nat) {
    && (forall id :: id in was.rows ==> id in now.rows && now.rows[id] == was.rows[id])
    && |now.rows| == |was.rows| + additions
    && (forall id :: id in now.dlq ==> id in was.dlq && now.dlq[id] == was.dlq[id])
    && |now.dlq| + successes >= |was.dlq|
  }

  lemma OneJoins(was: Moment, m: DlqMessage, outcome: Outcome)
    requires FreshId(was, outcome)
    ensures Joins(was, AfterOne(was, m, outcome), One(outcome.PutIn()), One(outcome.Requeue?))
  {
    assert (was.dlq - {m.id}).Keys == was.dlq.Keys - {m.id};
  }

  lemma {:induction false} RowsOnlyJoin(start: Moment, messages: seq<DlqMessage>, outcomes: seq<Outcome>)
    requires |outcomes| <= |messages| && FreshIds(start, messages, outcomes)
    ensures Joins(start, At(start, messages, outcomes), Additions(outcomes), Successes(outcomes))
  {
    if outcomes != [] {
      var n := |outcomes| - 1;
      RowsOnlyJoin(start, messages, outcomes[..n]);
      OneJoins(At(start, messages, outcomes[..n]), messages[n], outcomes[n]);
    }
  }

  /** One more entry gone through loses none of them. */
  lemma {:induction false} StaysSafe(start: Moment, messages: seq<DlqMessage>, outcomes: seq<Outcome>, m: DlqMessage)
    requires Entries(start.dlq, messages) && m in messages
    requires 0 < |outcomes| <= |messages| && FreshIds(start, messages, outcomes)
    requires Safe(start, At(start, messages, outcomes[..|outcomes| - 1]), m)
    ensures Safe(start, At(start, messages, outcomes), m)
  {
    var n := |outcomes| - 1;
    RowsOnlyJoin(start, messages, outcomes[..n]);
    var before, at := At(start, messages, outcomes[..n]), At(start, messages, outcomes);
    if NewRow(start, before, m) {
      var id :| id in before.rows && id !in start.rows && Carries(before.rows[id], m);
      assert id in at.rows && at.rows[id] == before.rows[id];
    } else if m.id == messages[n].id && outcomes[n].PutIn() {
      assert messages[n] in messages && messages[n] == m;
      assert at.rows[outcomes[n].row] == Requeued(m, outcomes[n].now);
    }
  }

  /** Main result: whatever fails, and wherever the call stops, no selected entry
      is lost. */
  lemma {:induction false} NoEntryLost(start: Moment, messages: seq<DlqMessage>, outcomes: seq<Outcome>)
    requires Entries(start.dlq, messages)
    requires |outcomes| <= |messages| && FreshIds(start, messages, outcomes)
    ensures AllSafe(start, At(start, messages, outcomes), messages)
  {
    if outcomes != [] {
      NoEntryLost(start, messages, outcomes[..|outcomes| - 1]);
      forall m | m in messages ensures Safe(start, At(start, messages, outcomes), m) {
        StaysSafe(start, messages, outcomes, m);
      }
    }
  }

  lemma {:induction false} DlqKeeps(start: Moment, messages: seq<DlqMessage>, outcomes: seq<Outcome>, m: DlqMessage)
    requires |outcomes| <= |messages|
    ensures m.id in At(start, messages, outcomes).dlq
       <==> m.id in start.dlq
            && forall i :: 0 <= i < |outcomes| && messages[i].id == m.id ==> !outcomes[i].TakenOut()
  {
    if outcomes != [] {
      DlqKeeps(start, messages, outcomes[..|outcomes| - 1], m);
    }
  }

  /** A row this call added for the entry. */
  ghost predicate OwnRow(start: Moment, at: Moment, m: DlqMessage, id: Uuid) {
    id in at.rows && id !in start.rows && Carries(at.rows[id], m)
  }

  lemma {:induction false} PutInStays(start: Moment, messages: seq<DlqMessage>, outcomes: seq<Outcome>, i: nat)
    requires i < |outcomes| <= |messages| && FreshIds(start, messages, outcomes) && outcomes[i].PutIn()
    ensures OwnRow(start, At(start, messages, outcomes), messages[i], outcomes[i].row)
    ensures At(start, messages, outcomes).rows[outcomes[i].row].createdAt == outcomes[i].now
  {
    var n := |outcomes| - 1;
    RowsOnlyJoin(start, messages, outcomes[..n]);
    if i < n {
      PutInStays(start, messages, outcomes[..n], i);
    }
  }

  /** What the two listing selectors are for: entries of the topic asked for, or of any,
      10,000 of them or all there are, and none left out that is newer. */
  lemma SelectionIsNewest(dlq: DlqTable, selector: Selector, messages: seq<DlqMessage>, id: Uuid)
    requires Keyed(dlq) && Selected(dlq, selector, messages) && !selector.ById?
    ensures |messages| <= 10_000
    ensures id in dlq && dlq[id] in messages ==> selector.All? || dlq[id].originalTopic == selector.topic
    ensures id in dlq && (selector.All? || dlq[id].originalTopic == selector.topic) && dlq[id] !in messages ==>
              |messages| == 10_000 && forall m :: m in messages ==> m.createdAt >= dlq[id].createdAt
  {
  }

  lemma SelectsById(dlq: DlqTable, m: DlqMessage)
    requires m.id in dlq ==> dlq[m.id] == m
    ensures Selected(dlq, ById(m.id), [m]) <==> m.id in dlq
  {
  }

  /** An entry can be selected again exactly unless its delete took effect, */
  lemma {:induction false} SelectableAgain(start: Moment, messages: seq<DlqMessage>, outcomes: seq<Outcome>, i: nat)
    requires Entries(start.dlq, messages) && i < |outcomes| <= |messages|
    requires FreshIds(start, messages, outcomes)
    ensures var m, dlq := messages[i], At(start, messages, outcomes).dlq;
            && (m.id in dlq <==> !outcomes[i].TakenOut())
            && (Selected(dlq, ById(m.id), [m]) <==> !outcomes[i].TakenOut())
  {
    var m := messages[i];
    assert m in messages;
    RowsOnlyJoin(start, messages, outcomes);
    DlqKeeps(start, messages, outcomes, m);
    SelectsById(At(start, messages, outcomes).dlq, m);
  }

  /** The turn of entry `i` added its row to the outbox, created at the time it drew. */
  ghost predicate Added(start: Moment, messages: seq<DlqMessage>, outcomes: seq<Outcome>, i: nat)
    requires i < |outcomes| <= |messages|
  {
    var was, now := At(start, messages, outcomes[..i]).rows, At(start, messages, outcomes[..i + 1]).rows;
    && outcomes[i].row !in was && outcomes[i].row in now
    && Carries(now[outcomes[i].row], messages[i]) && now[outcomes[i].row].createdAt == outcomes[i].now
  }

  lemma {:induction false} AddedIfPutIn(start: Moment, messages: seq<DlqMessage>, outcomes: seq<Outcome>, i: nat)
    requires i < |outcomes| <= |messages| && FreshIds(start, messages, outcomes)
    ensures Added(start, messages, outcomes, i) <==> outcomes[i].PutIn()
  {
    FreshPrefix(start, messages, outcomes, i + 1);
    assert outcomes[..i + 1][..i] == outcomes[..i];
  }

  lemma {:induction false} FreshPrefix(start: Moment, messages: seq<DlqMessage>, outcomes: seq<Outcome>, n: nat)
    requires n <= |outcomes| <= |messages| && FreshIds(start, messages, outcomes)
    ensures FreshIds(start, messages, outcomes[..n])
  {
    if n < |outcomes| {
      FreshPrefix(start, messages, outcomes[..|outcomes| - 1], n);
      assert outcomes[..|outcomes| - 1][..n] == outcomes[..n];
    } else {
      assert outcomes[..n] == outcomes;
    }
  }

  /** The entry is still dead-lettered although the row its turn added is there. */
  ghost predicate InBoth(start: Moment, messages: seq<DlqMessage>, outcomes: seq<Outcome>, i: nat)
    requires i < |outcomes| <= |messages|
  {
    var at := At(start, messages, outcomes);
    && messages[i].id in at.dlq
    && Added(start, messages, outcomes, i) && OwnRow(start, at, messages[i], outcomes[i].row)
  }

  /** and it is in both tables exactly if it was put in and not taken out. */
  lemma {:induction false} InBothTables(start: Moment, messages: seq<DlqMessage>, outcomes: seq<Outcome>, i: nat)
    requires Entries(start.dlq, messages) && i < |outcomes| <= |messages|
    requires FreshIds(start, messages, outcomes)
    ensures InBoth(start, messages, outcomes, i) <==> outcomes[i].PutIn() && !outcomes[i].TakenOut()
  {
    SelectableAgain(start, messages, outcomes, i);
    AddedIfPutIn(start, messages, outcomes, i);
    if outcomes[i].PutIn() {
      PutInStays(start, messages, outcomes, i);
    }
  }

  /** A later call that puts the same entry in, while its row still waits, leaves two
      rows that carry it. */
  lemma {:induction false} KeptEntryIsDuplicated(
      start: Moment, messages: seq<DlqMessage>, outcomes: seq<Outcome>, i: nat,
      resumed: Moment, messages': seq<DlqMessage>, outcomes': seq<Outcome>, j: nat)
    requires Entries(start.dlq, messages) && i < |outcomes| <= |messages|
    requires FreshIds(start, messages, outcomes) && outcomes[i].PutIn()
    requires var at := At(start, messages, outcomes);
             && (forall id :: id in at.rows ==> id in resumed.rows)
             && outcomes[i].row in at.rows && resumed.rows[outcomes[i].row] == at.rows[outcomes[i].row]
    requires j < |outcomes'| <= |messages'| && FreshIds(resumed, messages', outcomes')
    requires messages'[j] == messages[i] && outcomes'[j].PutIn()
    ensures var end := At(resumed, messages', outcomes');
            && outcomes'[j].row != outcomes[i].row
            && OwnRow(start, end, messages[i], outcomes[i].row) && OwnRow(start, end, messages[i], outcomes'[j].row)
  {
    PutInStays(start, messages, outcomes, i);
    RowsOnlyJoin(start, messages, outcomes);
    PutInStays(resumed, messages', outcomes', j);
    RowsOnlyJoin(resumed, messages', outcomes');
  }

  /** A second call, on what it selects from the tables the first one left, adds
      another row for entry `i` beside the one the first call added. */
  ghost predicate AddsAgain(start: Moment, messages: seq<DlqMessage>, outcomes: seq<Outcome>, i: nat,
                            selector: Selector, messages': seq<DlqMessage>, outcomes': seq<Outcome>, j: nat)
    requires i < |outcomes| <= |messages|
  {
    var at := At(start, messages, outcomes);
    && Selected(at.dlq, selector, messages') && j < |outcomes'| == |messages'| && messages'[j] == messages[i]
    && FreshIds(at, messages', outcomes')
    && Added(start, messages, outcomes, i) && Added(at, messages', outcomes', j)
    && BothCarry(start, At(at, messages', outcomes'), messages[i], outcomes[i].row, outcomes'[j].row)
  }

  ghost predicate BothCarry(start: Moment, end: Moment, m: DlqMessage, first: Uuid, second: Uuid) {
    first != second && OwnRow(start, end, m, first) && OwnRow(start, end, m, second)
  }

  lemma {:induction false} UnusedId(ids: set<Uuid>) returns (id: Uuid)
    ensures forall x :: x in ids ==> x < id
  {
    if ids == {} {
      id := 0;
    } else {
      var x :| x in ids;
      var above := UnusedId(ids - {x});
      id := if x < above then above else x + 1;
      forall y | y in ids ensures y < id {
        assert y == x || y in ids - {x};
      }
    }
  }

  lemma SelectedIsStored(dlq: DlqTable, selector: Selector, messages: seq<DlqMessage>, j: nat)
    requires Keyed(dlq) && Selected(dlq, selector, messages) && j < |messages|
    ensures messages[j].id in dlq
  {
    SelectionIsEntries(dlq, selector, messages);
    assert messages[j] in messages;
  }

  /** Main result: repeating `reprocess` can add a second row for an entry exactly if
      the first call put the entry in and its delete did not take effect. */
  lemma {:induction false} RepeatableExactly(start: Moment, messages: seq<DlqMessage>, outcomes: seq<Outcome>, i: nat)
    requires Keyed(start.dlq) && Entries(start.dlq, messages) && i < |outcomes| <= |messages|
    requires FreshIds(start, messages, outcomes)
    ensures (exists selector, messages', outcomes', j: nat ::
               AddsAgain(start, messages, outcomes, i, selector, messages', outcomes', j))
       <==> outcomes[i].PutIn() && !outcomes[i].TakenOut()
  {
    SelectableAgain(start, messages, outcomes, i);
    AddedIfPutIn(start, messages, outcomes, i);
    if outcomes[i].PutIn() && !outcomes[i].TakenOut() {
      AddsAgainById(start, messages, outcomes, i);
    } else {
      forall selector, messages', outcomes', j: nat
        ensures !AddsAgain(start, messages, outcomes, i, selector, messages', outcomes', j)
      {
        if AddsAgain(start, messages, outcomes, i, selector, messages', outcomes', j) {
          RowsOnlyJoin(start, messages, outcomes);
          SelectedIsStored(At(start, messages, outcomes).dlq, selector, messages', j);
        }
      }
    }
  }

  lemma {:induction false} AddsAgainById(start: Moment, messages: seq<DlqMessage>, outcomes: seq<Outcome>, i: nat)
    requires Entries(start.dlq, messages) && i < |outcomes| <= |messages|
    requires FreshIds(start, messages, outcomes) && outcomes[i].PutIn() && !outcomes[i].TakenOut()
    ensures exists selector, messages', outcomes', j: nat ::
              AddsAgain(start, messages, outcomes, i, selector, messages', outcomes', j)
  {
    var at, m := At(start, messages, outcomes), messages[i];
    var id := UnusedId(at.rows.Keys);
    var again := [Requeue(id, 0, true)];
    assert again[..0] == [];
    SelectableAgain(start, messages, outcomes, i);
    AddedIfPutIn(start, messages, outcomes, i);
    AddedIfPutIn(at, [m], again, 0);
    PutInStays(start, messages, outcomes, i);
    KeptEntryIsDuplicated(start, messages, outcomes, i, at, [m], again, 0);
    assert AddsAgain(start, messages, outcomes, i, ById(m.id), [m], again, 0);
  }

  lemma OneMore(start: Moment, messages: seq<DlqMessage>, outcomes: seq<Outcome>, next: Outcome)
    requires |outcomes| < |messages|
    ensures At(start, messages, outcomes + [next])
         == AfterOne(At(start, messages, outcomes), messages[|outcomes|], next)
    ensures FreshIds(start, messages, outcomes + [next])
       <==> FreshIds(start, messages, outcomes) && FreshId(At(start, messages, outcomes), next)
    ensures Successes(outcomes + [next]) == Successes(outcomes) + One(next.Requeue?)
    ensures Statements(messages, outcomes + [next])
         == Statements(messages, outcomes) + StatementsFor(messages[|outcomes|], next)
  {
    assert (outcomes + [next])[..|outcomes|] == outcomes;
  }

  /** Main result: nor is it between any two statements. */
  lemma {:induction false} SafeThroughout(start: Moment, messages: seq<DlqMessage>, outcomes: seq<Outcome>)
    requires Entries(start.dlq, messages)
    requires |outcomes| <= |messages| && FreshIds(start, messages, outcomes)
    ensures AllMomentsSafe(start, messages, Moments(start, messages, outcomes))
  {
    if outcomes != [] {
      var n := |outcomes| - 1;
      SafeThroughout(start, messages, outcomes[..n]);
      OneMore(start, messages, outcomes[..n], CutShort(outcomes[n]));
      NoEntryLost(start, messages, outcomes[..n] + [CutShort(outcomes[n])]);
      NoEntryLost(start, messages, outcomes);
    }
  }

  // ---------- The handler ----------

  /** What a call has to show for itself: how the tables and the journal were when
      it had its selection, and the fate of the entries it has gone through. */
  datatype Account = Account(start: Moment, journal: seq<Ran>, messages: seq<DlqMessage>,
                               outcomes: seq<Outcome>, moments: seq<Moment>)

  ghost predicate Standing(now: Moment, journal: seq<Ran>, g: Account) {
    && Entries(g.start.dlq, g.messages) && |g.outcomes| <= |g.messages|
    && FreshIds(g.start, g.messages, g.outcomes)
    && now == At(g.start, g.messages, g.outcomes)
    && journal == g.journal + Statements(g.messages, g.outcomes)
    && g.moments == Moments(g.start, g.messages, g.outcomes)
  }

  ghost function Advanced(g: Account, outcome: Outcome, between: Moment, after: Moment): Account {
    g.(outcomes := g.outcomes + [outcome], moments := g.moments + [between, after])
  }

  lemma TurnRecorded(g: Account, now: Moment, journal: seq<Ran>, outcome: Outcome)
    requires Standing(now, journal, g) && |g.outcomes| < |g.messages| && FreshId(now, outcome)
    ensures var m := g.messages[|g.outcomes|];
            var after := AfterOne(now, m, outcome);
            Standing(after, journal + StatementsFor(m, outcome),
                     Advanced(g, outcome, AfterOne(now, m, CutShort(outcome)), after))
    ensures Successes(g.outcomes + [outcome]) == Successes(g.outcomes) + One(outcome.Requeue?)
  {
    OneMore(g.start, g.messages, g.outcomes, outcome);
    assert (g.outcomes + [outcome])[..|g.outcomes|] == g.outcomes;
  }

  /** One turn of the loop: insert, then delete if the insert succeeded. */
  method ReprocessOne(store: Store, entry: DlqMessage, id: Uuid, now: int)
    returns (created: bool, ghost outcome: Outcome, ghost between: Moment)
    modifies store
    ensures created == outcome.Requeue? && outcome.row == id && outcome.now == now
    ensures FreshId(old(store.Now()), outcome) && store.Now() == AfterOne(old(store.Now()), entry, outcome)
    ensures between == AfterOne(old(store.Now()), entry, CutShort(outcome))
    ensures store.journal == old(store.journal) + StatementsFor(entry, outcome)
  {
    ghost var done;
    created, done := store.Create(id, Requeued(entry, now));
    outcome := if created then Requeue(id, now, false) else Refused(id, now, done);
    between := store.Now();
    if created {
      var heard;
      ghost var deleted;
      heard, deleted := store.Delete(entry.id);
      outcome := Requeue(id, now, deleted);
    }
  }

  /** The inserts used the identifiers and times drawn for them. */
  ghost predicate Drawn(outcomes: seq<Outcome>, newIds: nat -> Uuid, clock: nat -> int) {
    forall i :: 0 <= i < |outcomes| ==> outcomes[i].row == newIds(i) && outcomes[i].now == clock(i)
  }

  ghost predicate Completed(start: Moment, end: Moment, result: ReprocessResult, messages: seq<DlqMessage>,
                            outcomes: seq<Outcome>)
  {
    && |outcomes| == |messages| && FreshIds(start, messages, outcomes)
    && end == At(start, messages, outcomes)
    && result.reprocessedCount == Successes(outcomes)
    && result.reprocessedCount + result.failureCount == |messages|
    && |result.errors| == result.failureCount
    && |end.rows| == |start.rows| + Additions(outcomes)
    && |end.dlq| + result.reprocessedCount >= |start.dlq|
  }

  ghost predicate AllMomentsSafe(start: Moment, messages: seq<DlqMessage>, moments: seq<Moment>) {
    forall k :: 0 <= k < |moments| ==> AllSafe(start, moments[k], messages)
  }

  lemma CallRecorded(g: Account, now: Moment, journal: seq<Ran>, result: ReprocessResult)
    requires Standing(now, journal, g) && |g.outcomes| == |g.messages|
    requires result.reprocessedCount == Successes(g.outcomes)
    requires result.reprocessedCount + result.failureCount == |g.messages| && |result.errors| == result.failureCount
    ensures Completed(g.start, now, result, g.messages, g.outcomes)
  {
    RowsOnlyJoin(g.start, g.messages, g.outcomes);
  }

  lemma DrawnMore(outcomes: seq<Outcome>, next: Outcome, newIds: nat -> Uuid, clock: nat -> int)
    requires Drawn(outcomes, newIds, clock)
    requires next.row == newIds(|outcomes|) && next.now == clock(|outcomes|)
    ensures Drawn(outcomes + [next], newIds, clock)
  {
  }

  /** The loop over the selection. */
  method ReprocessEach(store: Store, entries: seq<DlqMessage>, newIds: nat -> Uuid, clock: nat -> int)
    returns (result: ReprocessResult, ghost g: Account)
    requires Entries(store.dlq, entries)
    modifies store
    ensures g == Account(old(store.Now()), old(store.journal), entries, g.outcomes, g.moments)
    ensures Standing(store.Now(), store.journal, g) && Drawn(g.outcomes, newIds, clock)
    ensures Completed(g.start, store.Now(), result, entries, g.outcomes)
  {
    g := Account(store.Now(), store.journal, entries, [], []);
    ghost var begun := g;
    var reprocessed: nat, failures: nat, errors: seq<string> := 0, 0, [];
    for i := 0 to |entries|
      invariant g == begun.(outcomes := g.outcomes, moments := g.moments)
      invariant Standing(store.Now(), store.journal, g) && |g.outcomes| == i
      invariant Drawn(g.outcomes, newIds, clock)
      invariant reprocessed == Successes(g.outcomes) && reprocessed + failures == i && |errors| == failures
    {
      ghost var before, journal := store.Now(), store.journal;
      var created;
      ghost var outcome, between;
      created, outcome, between := ReprocessOne(store, entries[i], newIds(i), clock(i));
      TurnRecorded(g, before, journal, outcome);
      DrawnMore(g.outcomes, outcome, newIds, clock);
      g := Advanced(g, outcome, between, store.Now());
      if created {
        reprocessed := reprocessed + 1;
      } else {
        failures, errors := failures + 1, errors + ["insert failed"];
      }
    }
    result := ReprocessResult(reprocessed, failures, errors);
    CallRecorded(g, store.Now(), store.journal, result);
  }

  /** The `reprocess` call. `newIds` and `clock` are the identifiers and times it
      draws; `moments` lists the tables after its statements. */
  method Reprocess(store: Store, selector: Selector, newIds: nat -> Uuid, clock: nat -> int)
    returns (result: Option<ReprocessResult>, ghost messages: seq<DlqMessage>, ghost outcomes: seq<Outcome>,
             ghost moments: seq<Moment>)
    requires Keyed(store.dlq)
    modifies store
    ensures |outcomes| <= |messages| && Drawn(outcomes, newIds, clock)
    ensures store.journal == old(store.journal) + [Ran(Fetch(selector), result.Some?)] + Statements(messages, outcomes)
    ensures result.None? ==> messages == [] && store.Now() == old(store.Now())
    ensures result.Some? ==> Selected(old(store.dlq), selector, messages)
    ensures selector.ById? && selector.id !in old(store.dlq) ==> result.None?
    ensures result.Some? ==> Completed(old(store.Now()), store.Now(), result.value, messages, outcomes)
    ensures moments == Moments(old(store.Now()), messages, outcomes)
    ensures AllMomentsSafe(old(store.Now()), messages, moments)
  {
    var selected := store.Select(selector);
    if selected.None? {
      return None, [], [], [];
    }
    SelectionIsEntries(store.dlq, selector, selected.value);
    var summary;
    ghost var g;
    summary, g := ReprocessEach(store, selected.value, newIds, clock);
    SafeThroughout(g.start, g.messages, g.outcomes);
    return Some(summary), g.messages, g.outcomes, g.moments;
  }
}
