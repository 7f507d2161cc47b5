/** The endpoint map of the subscriber dispatcher. A delivery locks it twice,
    once to ask the breaker and once to report; a refresh can rewrite the map in
    between. */
module EndpointMap {
  import opened Common
  import opened CircuitBreaker
  import B = BreakerHistory
  import opened TopicMatcher

  datatype Subscriber = Subscriber(id: string, grpcEndpoint: string, topicPatterns: seq<Bytes>)

  datatype Endpoint = Endpoint(subscriber: Subscriber, breaker: Breaker)

  type Endpoints = map<string, Endpoint>

  function NewEndpoint(s: Subscriber): Endpoint {
    Endpoint(s, Fresh(DEFAULT_CONFIG))
  }

  function Ids(subscribers: seq<Subscriber>): set<string> {
    set s | s in subscribers :: s.id
  }

  /** The last entry of the snapshot for this id. */
  function Latest(subscribers: seq<Subscriber>, id: string): (s: Subscriber)
    requires id in Ids(subscribers)
    ensures s in subscribers && s.id == id
  {
    var last := subscribers[|subscribers| - 1];
    if last.id == id then last else
    assert subscribers == subscribers[..|subscribers| - 1] + [last];
    Latest(subscribers[..|subscribers| - 1], id)
  }

  /** The map a refresh should leave: one endpoint for every id of the snapshot,
      with the breaker of the endpoint that was there. */
  function Merged(m: Endpoints, subscribers: seq<Subscriber>): Endpoints {
    map id | id in Ids(subscribers) ::
      Endpoint(Latest(subscribers, id), if id in m then m[id].breaker else Fresh(DEFAULT_CONFIG))
  }

  /** The map when the loop has gone over `done`. */
  ghost function PartlyMerged(m: Endpoints, active: set<string>, done: seq<Subscriber>): Endpoints {
    map id | id in m.Keys * active + Ids(done) ::
      Endpoint(if id in Ids(done) then Latest(done, id) else m[id].subscriber,
               if id in m then m[id].breaker else Fresh(DEFAULT_CONFIG))
  }

  lemma LatestAppend(done: seq<Subscriber>, s: Subscriber)
    ensures Ids(done + [s]) == Ids(done) + {s.id}
    ensures forall id :: id in Ids(done + [s]) ==>
              Latest(done + [s], id) == if id == s.id then s else Latest(done, id)
  {
    forall id | id in Ids(done) ensures id in Ids(done + [s]) {
      var x :| x in done && x.id == id;
      assert x in done + [s];
    }
    assert s in done + [s];
    assert (done + [s])[..|done|] == done;
  }

  lemma MergeOne(m: Endpoints, active: set<string>, done: seq<Subscriber>, s: Subscriber)
    requires s.id in active
    ensures var e := PartlyMerged(m, active, done);
            PartlyMerged(m, active, done + [s])
            == if s.id in e then e[s.id := e[s.id].(subscriber := s)] else e[s.id := NewEndpoint(s)]
  {
    LatestAppend(done, s);
  }

  function Entered(m: Endpoints, s: Subscriber): Endpoints {
    if s.id in m then m else m[s.id := NewEndpoint(s)]
  }

  function Begun(m: Endpoints, s: Subscriber, now: int): Endpoints {
    var m' := Entered(m, s);
    m'[s.id := m'[s.id].(breaker := Asked(m'[s.id].breaker, now))]
  }

  function Ended(m: Endpoints, id: string, ok: bool, now: int): Endpoints {
    if id !in m then m
    else m[id := m[id].(breaker := if ok then Succeeded(m[id].breaker) else Failed(m[id].breaker, now))]
  }

  /** The dispatcher, with its map changed in place. */
  class SubscriberDispatcher {
    var endpoints: Endpoints

    constructor ()
      ensures endpoints == map[]
    {
      endpoints := map[];
    }

    method MergeSubscribers(subscribers: seq<Subscriber>)
      modifies this
      ensures endpoints == Merged(old(endpoints), subscribers)
      ensures endpoints.Keys == Ids(subscribers)
      ensures forall id :: id in endpoints ==>
                endpoints[id].breaker
                == if id in old(endpoints) then old(endpoints)[id].breaker else Fresh(DEFAULT_CONFIG)
    {
      var active := Ids(subscribers);
      endpoints := map id | id in endpoints && id in active :: endpoints[id];
      assert endpoints == PartlyMerged(old(endpoints), active, []);
      assert subscribers[..0] == [];
      for i := 0 to |subscribers|
        invariant endpoints == PartlyMerged(old(endpoints), active, subscribers[..i])
      {
        var s := subscribers[i];
        MergeOne(old(endpoints), active, subscribers[..i], s);
        if s.id in endpoints {
          endpoints := endpoints[s.id := endpoints[s.id].(subscriber := s)];
        } else {
          endpoints := endpoints[s.id := NewEndpoint(s)];
        }
        assert subscribers[..i + 1] == subscribers[..i] + [s];
      }
      assert subscribers[..|subscribers|] == subscribers;
    }

    /** The first critical section of `dispatch`. */
    method BeginDispatch(subscriber: Subscriber, now: int) returns (address: Option<string>)
      modifies this
      ensures endpoints == Begun(old(endpoints), subscriber, now)
      ensures var before := Entered(old(endpoints), subscriber)[subscriber.id];
              address == if Admits(before.breaker, now) then Some(before.subscriber.grpcEndpoint) else None
    {
      if subscriber.id !in endpoints {
        endpoints := endpoints[subscriber.id := NewEndpoint(subscriber)];
      }
      var endpoint := endpoints[subscriber.id];
      var admitted := Admits(endpoint.breaker, now);
      endpoints := endpoints[subscriber.id := endpoint.(breaker := Asked(endpoint.breaker, now))];
      address := if admitted then Some(endpoint.subscriber.grpcEndpoint) else None;
    }

    /** The second critical section: the outcome is reported if the endpoint is
        still there. */
    method EndDispatch(id: string, ok: bool, now: int)
      modifies this
      ensures endpoints == Ended(old(endpoints), id, ok, now)
      ensures id !in old(endpoints) ==> endpoints == old(endpoints)
    {
      if id in endpoints {
        var endpoint := endpoints[id];
        var breaker := if ok then Succeeded(endpoint.breaker) else Failed(endpoint.breaker, now);
        endpoints := endpoints[id := endpoint.(breaker := breaker)];
      }
    }
  }

  // ---------- Interleavings ----------

  datatype Event =
    | Merge(subscribers: seq<Subscriber>)
    | Begin(subscriber: Subscriber, now: int)
    | End(id: string, ok: bool, now: int)

  datatype Trace = Empty | Extend(prev: Trace, event: Event)

  function After(tr: Trace): Endpoints {
    match tr
    case Empty => map[]
    case Extend(prev, Merge(subscribers)) => Merged(After(prev), subscribers)
    case Extend(prev, Begin(s, now)) => Begun(After(prev), s, now)
    case Extend(prev, End(id, ok, now)) => Ended(After(prev), id, ok, now)
  }

  /** Read off the events alone: does the map have this id, what has its breaker
      been told since the id was last put in, and what is known about it. */
  function Known(tr: Trace, id: string): Option<(B.History, Subscriber)> {
    match tr
    case Empty => None
    case Extend(prev, Merge(subscribers)) =>
      if id !in Ids(subscribers) then None
      else Some((if Known(prev, id).Some? then Known(prev, id).value.0 else B.New(DEFAULT_CONFIG),
                 Latest(subscribers, id)))
    case Extend(prev, Begin(s, now)) =>
      if s.id != id then Known(prev, id)
      else
        var known := if Known(prev, id).Some? then Known(prev, id).value else (B.New(DEFAULT_CONFIG), s);
        Some((B.Then(known.0, B.Ask(now)), known.1))
    case Extend(prev, End(id', ok, now)) =>
      if id' != id || Known(prev, id).None? then Known(prev, id)
      else
        var known := Known(prev, id).value;
        Some((B.Then(known.0, if ok then B.Success else B.Failure(now)), known.1))
  }

  /** Main result: however deliveries and refreshes interleave, an endpoint is in
      the map exactly while its id is known, and its breaker has heard of every
      admission and report since the id was last put in, and of nothing else. */
  lemma {:induction false} MapFollowsHistory(tr: Trace, id: string)
    ensures id in After(tr) <==> Known(tr, id).Some?
    ensures id in After(tr) ==>
              && After(tr)[id].breaker == B.After(Known(tr, id).value.0)
              && After(tr)[id].subscriber == Known(tr, id).value.1
  {
    if tr.Extend? {
      MapFollowsHistory(tr.prev, id);
    }
  }

  /** With the breaker's own theorem: every entry of the map obeys the history
      specification of the breaker. */
  lemma EveryBreakerRefines(tr: Trace, id: string)
    requires id in After(tr)
    ensures Known(tr, id).Some? && B.Represents(After(tr)[id].breaker, Known(tr, id).value.0)
  {
    MapFollowsHistory(tr, id);
    B.BreakerRefines(Known(tr, id).value.0);
  }

  // ---------- Reports that arrive late ----------

  predicate Within(tr: Trace, later: Trace) {
    tr == later || (later.Extend? && Within(tr, later.prev))
  }

  function Length(tr: Trace): nat {
    if tr.Empty? then 0 else Length(tr.prev) + 1
  }

  /** The event that put the present endpoint of `id` into the map. */
  function PutInAt(tr: Trace, id: string): nat {
    if tr.Empty? || id !in After(tr) then 0
    else if id !in After(tr.prev) then Length(tr)
    else PutInAt(tr.prev, id)
  }

  predicate Drops(e: Event, id: string) {
    e.Merge? && id !in Ids(e.subscribers)
  }

  predicate DroppedBetween(tr: Trace, later: Trace, id: string)
    requires Within(tr, later)
  {
    tr != later && (Drops(later.event, id) || DroppedBetween(tr, later.prev, id))
  }

  lemma {:induction false} PutInBefore(tr: Trace, later: Trace, id: string)
    requires Within(tr, later)
    ensures Length(tr) <= Length(later) && PutInAt(later, id) <= Length(later)
    ensures tr != later ==> Length(tr) < Length(later)
    ensures PutInAt(tr, id) <= Length(tr)
  {
    if tr != later {
      PutInBefore(tr, later.prev, id);
    } else if tr.Extend? {
      PutInBefore(tr.prev, tr.prev, id);
    }
  }

  /** The endpoint of `id` is the one that was there after `asked`, or was put in
      later. */
  lemma {:induction false} ReplacedIfDropped(asked: Trace, later: Trace, id: string)
    requires Within(asked, later) && id in After(asked)
    ensures !DroppedBetween(asked, later, id) ==> id in After(later) && PutInAt(later, id) == PutInAt(asked, id)
    ensures DroppedBetween(asked, later, id) && id in After(later) ==> PutInAt(later, id) > Length(asked)
  {
    if asked != later {
      ReplacedIfDropped(asked, later.prev, id);
      PutInBefore(asked, later.prev, id);
    }
  }

  /** Main result: the report of a delivery that asked the breaker at the end of
      `asked` finds an endpoint whose breaker did not admit it exactly if a refresh in
      between dropped the id. If the id is not in the map the report goes nowhere. */
  lemma {:induction false} StrayReportExactly(asked: Trace, later: Trace)
    requires Within(asked, later) && asked.Extend? && asked.event.Begin?
    requires asked.event.subscriber.id in After(later)
    ensures var id := asked.event.subscriber.id;
            PutInAt(later, id) != PutInAt(asked, id) <==> DroppedBetween(asked, later, id)
  {
    var id := asked.event.subscriber.id;
    ReplacedIfDropped(asked, later, id);
    PutInBefore(asked, later, id);
  }

  /** It does happen, with one delivery in flight. */
  lemma StrayReportHappens(s: Subscriber, now: int)
    ensures var asked := Extend(Empty, Begin(s, now));
            var later := Extend(Extend(asked, Merge([])), Merge([s]));
            && OneInFlight(Extend(later, End(s.id, true, now)), s.id) && Within(asked, later)
            && s.id in After(later) && PutInAt(later, s.id) != PutInAt(asked, s.id)
  {
    var asked := Extend(Empty, Begin(s, now));
    var dropped := Extend(asked, Merge([]));
    var later := Extend(dropped, Merge([s]));
    assert Ids([]) == {} && s in [s] && s.id in Ids([s]);
    assert Within(asked, dropped) && Within(asked, later);
    assert Drops(dropped.event, s.id) && DroppedBetween(asked, dropped, s.id);
    StrayReportExactly(asked, later);
    assert InFlight(Empty, s.id) == 0 && OneInFlight(Empty, s.id);
    assert InFlight(asked, s.id) == 1 && OneInFlight(asked, s.id);
    assert InFlight(dropped, s.id) == 1 && OneInFlight(dropped, s.id);
    assert InFlight(later, s.id) == 1 && OneInFlight(later, s.id);
    assert InFlight(Extend(later, End(s.id, true, now)), s.id) == 0;
  }

  // ---------- One delivery at a time for each endpoint ----------

  predicate LetThrough(tr: Trace, s: Subscriber, now: int) {
    Admits(Entered(After(tr), s)[s.id].breaker, now)
  }

  /** Deliveries of `id` that were let through and have not reported. */
  function InFlight(tr: Trace, id: string): int {
    match tr
    case Empty => 0
    case Extend(prev, Begin(s, now)) => InFlight(prev, id) + One(s.id == id && LetThrough(prev, s, now))
    case Extend(prev, End(id', _, _)) => InFlight(prev, id) - One(id' == id)
    case Extend(prev, _) => InFlight(prev, id)
  }

  predicate OneInFlight(tr: Trace, id: string) {
    0 <= InFlight(tr, id) <= 1 && (tr.Extend? ==> OneInFlight(tr.prev, id))
  }

  predicate OpenIn(m: Endpoints, id: string) {
    id in m && m[id].breaker.mode.Open?
  }

  lemma {:induction false} FlyingMeansNotOpen(tr: Trace, id: string)
    requires OneInFlight(tr, id)
    ensures InFlight(tr, id) == 1 ==> !OpenIn(After(tr), id)
  {
    if tr.Extend? {
      FlyingMeansNotOpen(tr.prev, id);
    }
  }

  /** Main result: with one delivery for each id in flight, also when its report comes
      to a breaker that did not admit it, no report reaches an open breaker: an open
      endpoint is left only by a refresh or by a delivery after the rest. */
  lemma {:induction false} OpenEndpointLeft(tr: Trace, id: string)
    requires tr.Extend? && OneInFlight(tr, id) && OpenIn(After(tr.prev), id)
    ensures tr.event.End? ==> tr.event.id != id
    ensures !OpenIn(After(tr), id) <==> Drops(tr.event, id) || (Asks(tr.event, id) && Rested(tr, id))
  {
    FlyingMeansNotOpen(tr.prev, id);
    EveryBreakerRefines(tr.prev, id);
    ConfiguredByDefault(tr.prev, id);
  }

  predicate Asks(e: Event, id: string) {
    e.Begin? && e.subscriber.id == id
  }

  /** 30 seconds have passed since the latest failure the endpoint's breaker was told. */
  predicate Rested(tr: Trace, id: string) {
    && tr.Extend? && tr.event.Begin? && Known(tr.prev, id).Some?
    && B.LastFailure(Known(tr.prev, id).value.0).Some?
    && tr.event.now >= B.LastFailure(Known(tr.prev, id).value.0).value + 30_000_000
  }

  lemma {:induction false} ConfiguredByDefault(tr: Trace, id: string)
    ensures Known(tr, id).Some? ==> B.ConfigOf(Known(tr, id).value.0) == DEFAULT_CONFIG
  {
    if tr.Extend? {
      ConfiguredByDefault(tr.prev, id);
    }
  }
}
