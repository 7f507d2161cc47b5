/** The loop that moves received messages into the inbox in batches, and hands
    each of them to the subscribers. */
module ConsumerLoop {

  const MAX_INBOX_BATCH: nat := 100

  datatype InboxMessage = InboxMessage(topic: string, partition: int, offset: int, payload: string)

  /** What the stream yields: an error, a message whose payload is not JSON, or
      one that can be stored. `raw` is the payload as it arrived; an empty one is
      stored as `{}`. */
  datatype Received = StreamError | Unparsable | Parsable(message: InboxMessage, raw: string)

  /** The messages among the first `n` receipts that can be stored. */
  function Storable(input: seq<Received>, n: nat): seq<InboxMessage>
    requires n <= |input|
  {
    if n == 0 then [] else Storable(input, n - 1) + Yield(input[n - 1])
  }

  function Yield(r: Received): seq<InboxMessage> {
    if r.Parsable? then [r.message] else []
  }

  /** What the subscribers' dispatcher is given for a message. */
  datatype Notification = Notification(topic: string, payload: string)

  /** What is broadcast of it. */
  datatype DeliverEvent = DeliverEvent(topic: string, partition: int, offset: int, payload: string)

  function NotificationOf(r: Received): seq<Notification> {
    if r.Parsable? then [Notification(r.message.topic, r.raw)] else []
  }

  function EventOf(r: Received): seq<DeliverEvent> {
    if r.Parsable? then [DeliverEvent(r.message.topic, r.message.partition, r.message.offset, r.raw)] else []
  }

  function Notifications(input: seq<Received>, n: nat): seq<Notification>
    requires n <= |input|
  {
    if n == 0 then [] else Notifications(input, n - 1) + NotificationOf(input[n - 1])
  }

  function Events(input: seq<Received>, n: nat): seq<DeliverEvent>
    requires n <= |input|
  {
    if n == 0 then [] else Events(input, n - 1) + EventOf(input[n - 1])
  }

  /** One call for each message that is stored. */
  lemma {:induction false} OneCallEach(input: seq<Received>, n: nat)
    requires n <= |input|
    ensures |Notifications(input, n)| == |Events(input, n)| == |Storable(input, n)|
    ensures forall i :: 0 <= i < |Storable(input, n)| ==>
              var m := Storable(input, n)[i];
              && Notifications(input, n)[i].topic == m.topic
              && Events(input, n)[i] == DeliverEvent(m.topic, m.partition, m.offset, Notifications(input, n)[i].payload)
  {
    if n > 0 {
      OneCallEach(input, n - 1);
    }
  }

  function Flatten(batches: seq<seq<InboxMessage>>): seq<InboxMessage> {
    if batches == [] then [] else Flatten(batches[..|batches| - 1]) + batches[|batches| - 1]
  }

  /** A batch that was sent to the table, and whether it was inserted. */
  datatype Attempt = Attempt(messages: seq<InboxMessage>, done: bool)

  function Tried(attempts: seq<Attempt>): seq<seq<InboxMessage>> {
    seq(|attempts|, i requires 0 <= i < |attempts| => attempts[i].messages)
  }

  /** The batches that reached the table. */
  function Kept(attempts: seq<Attempt>): seq<seq<InboxMessage>> {
    if attempts == [] then []
    else
      var last := attempts[|attempts| - 1];
      Kept(attempts[..|attempts| - 1]) + (if last.done then [last.messages] else [])
  }

  predicate BatchSized(batch: seq<InboxMessage>) {
    1 <= |batch| <= MAX_INBOX_BATCH
  }

  /** The inbox at some moment. */
  datatype Snapshot = Snapshot(batches: seq<seq<InboxMessage>>, attempts: seq<Attempt>)

  /** The inbox table, and a journal of what it was asked to store; a batch is
      inserted whole or not at all. */
  class Inbox {
    var batches: seq<seq<InboxMessage>>
    var attempts: seq<Attempt>

    constructor ()
      ensures batches == [] && attempts == []
    {
      batches, attempts := [], [];
    }

    ghost function Now(): Snapshot
      reads this
    {
      Snapshot(batches, attempts)
    }

    /** Whether the answer is heard makes no difference to the loop. */
    method StoreMessages(messages: seq<InboxMessage>) returns (heard: bool, ghost done: bool)
      modifies this
      ensures heard ==> done
      ensures messages == [] ==> heard && Now() == old(Now())
      ensures messages != [] ==>
                Now() == Snapshot(if done then old(batches) + [messages] else old(batches),
                                  old(attempts) + [Attempt(messages, done)])
    {
      if messages == [] {
        return true, true;
      }
      var did: bool := *;
      heard := *;
      heard, done := heard && did, did;
      attempts := attempts + [Attempt(messages, did)];
      if did {
        batches := batches + [messages];
      }
    }
  }

  /** The subscribers' dispatcher; a failed dispatch is only logged. */
  class Dispatcher {
    var calls: seq<Notification>

    constructor ()
      ensures calls == []
    {
      calls := [];
    }

    method Dispatch(notification: Notification) returns (ok: bool)
      modifies this
      ensures calls == old(calls) + [notification]
    {
      calls := calls + [notification];
      ok := *;
    }
  }

  /** The broadcast channel; whether anybody listens makes no difference. */
  class EventSender {
    var sent: seq<DeliverEvent>

    constructor ()
      ensures sent == []
    {
      sent := [];
    }

    method Send(event: DeliverEvent) returns (ok: bool)
      modifies this
      ensures sent == old(sent) + [event]
    {
      sent := sent + [event];
      ok := *;
    }
  }

  /** What has been sent to the inbox, and what waits to be. */
  datatype Buffer = Buffer(sent: seq<seq<InboxMessage>>, pending: seq<InboxMessage>)

  /** One more receipt. A payload that does not parse goes back to waiting without
      looking at the buffer, even when it could be flushed. */
  function Receive(b: Buffer, r: Received, idle: bool): Buffer {
    if r.Unparsable? then b
    else
      var now := b.pending + Yield(r);
      if |now| >= MAX_INBOX_BATCH || idle then Flushed(Buffer(b.sent, now)) else Buffer(b.sent, now)
  }

  /** An empty buffer is not sent. */
  function Flushed(b: Buffer): Buffer {
    Buffer(if b.pending == [] then b.sent else b.sent + [b.pending], [])
  }

  function After(input: seq<Received>, idle: seq<bool>, n: nat): Buffer
    requires n <= |input| == |idle|
  {
    if n == 0 then Buffer([], []) else Receive(After(input, idle, n - 1), input[n - 1], idle[n - 1])
  }

  /** All batches of a stream, with what is left over when it ends. */
  function AllBatches(input: seq<Received>, idle: seq<bool>): seq<seq<InboxMessage>>
    requires |input| == |idle|
  {
    Flushed(After(input, idle, |input|)).sent
  }

  /** `attempts` were made since the inbox stood at `was`, with these batches. */
  ghost predicate Since(was: Snapshot, now: Snapshot, attempts: seq<Attempt>, sent: seq<seq<InboxMessage>>) {
    && now == Snapshot(was.batches + Kept(attempts), was.attempts + attempts)
    && Tried(attempts) == sent
  }

  /** `idle[i]` says whether the channel was empty after receipt `i`. `attempts` are
      the calls of the inbox: one for each batch, in order. */
  method Run(input: seq<Received>, idle: seq<bool>, inbox: Inbox, dispatcher: Dispatcher, events: EventSender)
    returns (ghost attempts: seq<Attempt>)
    requires |input| == |idle|
    modifies inbox, dispatcher, events
    ensures dispatcher.calls == old(dispatcher.calls) + Notifications(input, |input|)
    ensures events.sent == old(events.sent) + Events(input, |input|)
    ensures Since(old(inbox.Now()), inbox.Now(), attempts, AllBatches(input, idle))
    ensures AllDone(attempts) ==> inbox.batches == old(inbox.batches) + AllBatches(input, idle)
  {
    ghost var was := inbox.Now();
    var pending: seq<InboxMessage> := [];
    attempts := [];
    for i := 0 to |input|
      invariant dispatcher.calls == old(dispatcher.calls) + Notifications(input, i)
      invariant events.sent == old(events.sent) + Events(input, i)
      invariant pending == After(input, idle, i).pending
      invariant Since(was, inbox.Now(), attempts, After(input, idle, i).sent)
    {
      match input[i] {
        case Unparsable => continue;
        case Parsable(message, raw) =>
          pending := pending + [message];
          Announce(message, raw, dispatcher, events);
        case StreamError =>
      }
      assert pending == After(input, idle, i).pending + Yield(input[i]);
      if |pending| >= MAX_INBOX_BATCH || idle[i] {
        attempts := Flush(inbox, pending, was, attempts, After(input, idle, i).sent);
        pending := [];
      }
    }
    if pending != [] {
      attempts := Flush(inbox, pending, was, attempts, After(input, idle, |input|).sent);
    }
    AllStored(was, inbox.Now(), attempts, AllBatches(input, idle));
  }

  method Announce(message: InboxMessage, raw: string, dispatcher: Dispatcher, events: EventSender)
    modifies dispatcher, events
    ensures dispatcher.calls == old(dispatcher.calls) + NotificationOf(Parsable(message, raw))
    ensures events.sent == old(events.sent) + EventOf(Parsable(message, raw))
  {
    var dispatched := dispatcher.Dispatch(Notification(message.topic, raw));
    var heard := events.Send(DeliverEvent(message.topic, message.partition, message.offset, raw));
  }

  method Flush(inbox: Inbox, pending: seq<InboxMessage>, ghost was: Snapshot,
               ghost attempts: seq<Attempt>, ghost sent: seq<seq<InboxMessage>>)
    returns (ghost attempts': seq<Attempt>)
    requires Since(was, inbox.Now(), attempts, sent)
    modifies inbox
    ensures Since(was, inbox.Now(), attempts', Flushed(Buffer(sent, pending)).sent)
  {
    var heard;
    ghost var done;
    heard, done := inbox.StoreMessages(pending);
    if pending == [] {
      attempts' := attempts;
    } else {
      attempts' := attempts + [Attempt(pending, done)];
      OneMoreAttempt(was, attempts, Attempt(pending, done), sent);
    }
  }

  lemma OneMoreAttempt(was: Snapshot, attempts: seq<Attempt>, next: Attempt, sent: seq<seq<InboxMessage>>)
    requires Tried(attempts) == sent
    ensures var batches, kept := was.batches + Kept(attempts), if next.done then [next.messages] else [];
            Since(was, Snapshot(batches + kept, was.attempts + attempts + [next]), attempts + [next],
                  sent + [next.messages])
  {
    AttemptStep(attempts, next);
  }

  lemma AttemptStep(attempts: seq<Attempt>, next: Attempt)
    ensures Tried(attempts + [next]) == Tried(attempts) + [next.messages]
    ensures Kept(attempts + [next]) == Kept(attempts) + (if next.done then [next.messages] else [])
  {
    assert (attempts + [next])[..|attempts|] == attempts;
  }

  ghost predicate AllDone(attempts: seq<Attempt>) {
    forall i :: 0 <= i < |attempts| ==> attempts[i].done
  }

  lemma {:induction false} AllKept(attempts: seq<Attempt>)
    requires AllDone(attempts)
    ensures Kept(attempts) == Tried(attempts)
  {
    if attempts != [] {
      AllKept(attempts[..|attempts| - 1]);
    }
  }

  lemma AllStored(was: Snapshot, now: Snapshot, attempts: seq<Attempt>, sent: seq<seq<InboxMessage>>)
    requires Since(was, now, attempts, sent)
    ensures AllDone(attempts) ==> now.batches == was.batches + sent
  {
    if AllDone(attempts) {
      AllKept(attempts);
    }
  }

  // ---------- At every point of the loop ----------

  ghost predicate AllSized(batches: seq<seq<InboxMessage>>) {
    forall i :: 0 <= i < |batches| ==> BatchSized(batches[i])
  }

  /** The batches sent and the buffer make up `all`, and the buffer is short of a
      batch. */
  ghost predicate Balanced(b: Buffer, all: seq<InboxMessage>) {
    Flatten(b.sent) + b.pending == all && |b.pending| < MAX_INBOX_BATCH && AllSized(b.sent)
  }

  lemma FlushKeeps(b: Buffer)
    requires AllSized(b.sent) && |b.pending| <= MAX_INBOX_BATCH
    ensures Balanced(Flushed(b), Flatten(b.sent) + b.pending)
  {
    if b.pending != [] {
      assert (b.sent + [b.pending])[..|b.sent|] == b.sent;
    }
  }

  lemma OneReceipt(b: Buffer, all: seq<InboxMessage>, r: Received, idle: bool)
    requires Balanced(b, all)
    ensures Balanced(Receive(b, r, idle), all + Yield(r))
  {
    var now := b.pending + Yield(r);
    FlushKeeps(Buffer(b.sent, now));
    assert Flatten(b.sent) + now == all + Yield(r);
  }

  /** Main result: after every receipt the batches sent and the buffer are all
      storable messages so far, in order. */
  lemma {:induction false} NothingLostInBuffer(input: seq<Received>, idle: seq<bool>, n: nat)
    requires n <= |input| == |idle|
    ensures Balanced(After(input, idle, n), Storable(input, n))
  {
    if n > 0 {
      NothingLostInBuffer(input, idle, n - 1);
      OneReceipt(After(input, idle, n - 1), Storable(input, n - 1), input[n - 1], idle[n - 1]);
    }
  }

  /** Nothing waits while the channel is empty, unless the last payload did not parse. */
  lemma IdleLeavesNothing(input: seq<Received>, idle: seq<bool>, n: nat)
    requires 0 < n <= |input| == |idle| && idle[n - 1] && !input[n - 1].Unparsable?
    ensures After(input, idle, n).pending == []
  {
  }

  /** Main result: a batch is sent exactly when something waits and the channel is empty
      or the batch is full, by a receipt that looks; it is then everything that waits. */
  lemma {:induction false} SentExactlyWhen(input: seq<Received>, idle: seq<bool>, n: nat)
    requires 0 < n <= |input| == |idle|
    ensures var before, after := After(input, idle, n - 1), After(input, idle, n);
            var waiting := before.pending + Yield(input[n - 1]);
            var due := !input[n - 1].Unparsable? && waiting != [] && (idle[n - 1] || |waiting| == 100);
            && after.sent == (if due then before.sent + [waiting] else before.sent)
            && after.pending == (if due then [] else waiting)
  {
    NothingLostInBuffer(input, idle, n - 1);
  }

  /** At place `i` the three sequences have what was received. */
  ghost predicate HandedOn(stored: seq<InboxMessage>, notifications: seq<Notification>, events: seq<DeliverEvent>,
                           i: nat, r: Received)
  {
    r.Parsable? ==>
      && i < |stored| && stored[i] == r.message
      && i < |notifications| && notifications[i] == Notification(r.message.topic, r.raw)
      && i < |events| && events[i] == DeliverEvent(r.message.topic, r.message.partition, r.message.offset, r.raw)
  }

  lemma StillHandedOn(stored: seq<InboxMessage>, notifications: seq<Notification>, events: seq<DeliverEvent>,
                      i: nat, r: Received, next: Received)
    requires HandedOn(stored, notifications, events, i, r)
    ensures HandedOn(stored + Yield(next), notifications + NotificationOf(next), events + EventOf(next), i, r)
  {
  }

  lemma JustHandedOn(stored: seq<InboxMessage>, notifications: seq<Notification>, events: seq<DeliverEvent>,
                     r: Received)
    requires |stored| == |notifications| == |events|
    ensures HandedOn(stored + Yield(r), notifications + NotificationOf(r), events + EventOf(r), |stored|, r)
    ensures |stored + Yield(r)| == if r.Parsable? then |stored| + 1 else |stored|
  {
  }

  /** Each message that parses is stored, dispatched and broadcast as it was received,
      in its place; nothing else is. */
  lemma {:induction false} HandedOnAsReceived(input: seq<Received>, k: nat, n: nat)
    requires k < n <= |input|
    ensures HandedOn(Storable(input, n), Notifications(input, n), Events(input, n), |Storable(input, k)|, input[k])
    ensures |Storable(input, k + 1)| == |Storable(input, k)| + (if input[k].Parsable? then 1 else 0)
  {
    if k + 1 < n {
      HandedOnAsReceived(input, k, n - 1);
      StillHandedOn(Storable(input, n - 1), Notifications(input, n - 1), Events(input, n - 1),
                    |Storable(input, k)|, input[k], input[n - 1]);
    } else {
      OneCallEach(input, k);
      JustHandedOn(Storable(input, k), Notifications(input, k), Events(input, k), input[k]);
    }
  }

  /** So the inbox is given the stream, cut into batches of a legal size; a lost
      insert leaves out one of these batches and nothing else. */
  lemma BatchesAreTheStream(input: seq<Received>, idle: seq<bool>)
    requires |input| == |idle|
    ensures Flatten(AllBatches(input, idle)) == Storable(input, |input|) && AllSized(AllBatches(input, idle))
  {
    NothingLostInBuffer(input, idle, |input|);
    FlushKeeps(After(input, idle, |input|));
  }
}
