/** The topic cache of the consuming dispatcher. A lookup that misses reads the
    repository outside the lock and stores what it found later. */
module SubscriberCache {
  import opened Common
  import opened BoundedFifo
  import opened TopicMatcher
  import opened EndpointMap

  function Matching(active: seq<Subscriber>, topic: Bytes): seq<Subscriber> {
    if active == [] then []
    else (if MatchesAny(topic, active[0].topicPatterns) then [active[0]] else []) + Matching(active[1..], topic)
  }

  /** One of the subscriber's patterns matches. */
  ghost predicate Wants(s: Subscriber, topic: Bytes) {
    exists p :: p in s.topicPatterns && MatchesTopic(topic, p)
  }

  /** `found` is what remains of `active`, in its order and as often as it is there,
      when those who do not want the topic are left out: `at` are their places. */
  ghost predicate Picks(found: seq<Subscriber>, active: seq<Subscriber>, topic: Bytes, at: seq<nat>) {
    && |at| == |found|
    && (forall j, k :: 0 <= j < k < |at| ==> at[j] < at[k])
    && (forall j :: 0 <= j < |at| ==> at[j] < |active| && found[j] == active[at[j]])
    && (forall i: nat :: i < |active| ==> (i in at <==> Wants(active[i], topic)))
  }

  ghost predicate IsFilter(found: seq<Subscriber>, active: seq<Subscriber>, topic: Bytes) {
    exists at :: Picks(found, active, topic, at)
  }

  lemma MatchesAnyWants(s: Subscriber, topic: Bytes)
    ensures MatchesAny(topic, s.topicPatterns) <==> Wants(s, topic)
  {
    if p :| p in s.topicPatterns && MatchesTopic(topic, p) {
      var i :| 0 <= i < |s.topicPatterns| && s.topicPatterns[i] == p;
    }
  }

  lemma {:induction false} Places(active: seq<Subscriber>, topic: Bytes) returns (at: seq<nat>)
    ensures Picks(Matching(active, topic), active, topic, at)
  {
    at := [];
    if active != [] {
      var n := |active| - 1;
      at := Places(active[..n], topic);
      MatchingMore(active[..n], active[n], topic);
      assert active == active[..n] + [active[n]];
      MatchesAnyWants(active[n], topic);
      if Wants(active[n], topic) {
        at := at + [n];
      }
    }
  }

  lemma {:induction false} MatchingMore(active: seq<Subscriber>, s: Subscriber, topic: Bytes)
    ensures Matching(active + [s], topic)
         == Matching(active, topic) + (if MatchesAny(topic, s.topicPatterns) then [s] else [])
  {
    if active == [] {
      assert [s][1..] == [];
    } else {
      MatchingMore(active[1..], s, topic);
      assert (active + [s])[1..] == active[1..] + [s];
    }
  }

  /** Main result: the filter keeps exactly the subscribers that want the topic. */
  lemma {:induction false} MatchingIsFilter(active: seq<Subscriber>, topic: Bytes)
    ensures IsFilter(Matching(active, topic), active, topic)
    ensures forall s :: s in Matching(active, topic) <==> s in active && Wants(s, topic)
  {
    var at := Places(active, topic);
    forall s | s in active && Wants(s, topic) ensures s in Matching(active, topic) {
      var i :| 0 <= i < |active| && active[i] == s;
      var j :| 0 <= j < |at| && at[j] == i;
      assert Matching(active, topic)[j] == s;
    }
    forall s | s in Matching(active, topic) ensures s in active && Wants(s, topic) {
      var j :| 0 <= j < |at| && Matching(active, topic)[j] == s;
      assert at[j] in at;
    }
  }

  /** The cache as a value. */
  datatype Cache<!K, V> = Cache(entries: map<K, V>, order: seq<K>, capacity: nat)

  predicate CacheOk<K(==), V>(c: Cache<K, V>) {
    NoDuplicates(c.order) && c.entries.Keys == Elements(c.order) && |c.order| <= Capacity(c.capacity)
  }

  function NewOrder<K(==)>(order: seq<K>, key: K, capacity: nat): seq<K> {
    if key in order then order else LastN(order + [key], Capacity(capacity))
  }

  /** An insertion adds or replaces one entry and keeps the newest keys. */
  function Inserted<K(==), V>(c: Cache<K, V>, key: K, value: V): Cache<K, V> {
    var order := NewOrder(c.order, key, c.capacity);
    var entries := c.entries[key := value];
    Cache(entries - (entries.Keys - Elements(order)), order, c.capacity)
  }

  lemma InsertedOk<K, V>(c: Cache<K, V>, key: K, value: V)
    requires CacheOk(c)
    ensures CacheOk(Inserted(c, key, value)) && key in Inserted(c, key, value).entries
    ensures Inserted(c, key, value).entries[key] == value
    ensures forall k :: k in Inserted(c, key, value).entries ==>
              k == key || (k in c.entries && Inserted(c, key, value).entries[k] == c.entries[k])
  {
    var order := NewOrder(c.order, key, c.capacity);
    if key !in c.order {
      AppendDistinct(c.order, key);
      LastNDistinct(c.order + [key], Capacity(c.capacity));
      assert order[|order| - 1] == key;
    }
    forall k | k in order ensures k in c.order || k == key { }
  }

  lemma OldestOnly<K>(order: seq<K>)
    requires NoDuplicates(order) && order != []
    ensures Elements(order[1..]) == Elements(order) - {order[0]}
  {
    assert order == [order[0]] + order[1..];
  }

  lemma EntriesCount<K, V>(c: Cache<K, V>)
    requires CacheOk(c)
    ensures |c.entries| == |c.order|
  {
    DistinctCardinality(c.order);
    assert |c.entries| == |c.entries.Keys|;
  }

  lemma OrderWhenFull<K>(order: seq<K>, key: K, capacity: nat)
    requires key !in order && NoDuplicates(order) && capacity <= |order| <= Capacity(capacity) && order != []
    ensures NewOrder(order, key, capacity) == order[1..] + [key]
    ensures Elements(NewOrder(order, key, capacity)) == Elements(order) - {order[0]} + {key}
  {
    OldestOnly(order);
    assert Elements(order[1..] + [key]) == Elements(order[1..]) + {key};
  }

  /** A new key takes the place of the oldest one when the cache is full. */
  lemma InsertedWhenFull<K, V>(c: Cache<K, V>, key: K, value: V)
    requires CacheOk(c) && key !in c.order && |c.order| >= c.capacity && c.order != []
    ensures var c' := Inserted(c, key, value);
            c'.order == c.order[1..] + [key] && c'.entries == (c.entries - {c.order[0]})[key := value]
  {
    OrderWhenFull(c.order, key, c.capacity);
    assert c.entries[key := value].Keys - Elements(NewOrder(c.order, key, c.capacity)) == {c.order[0]};
  }

  lemma InsertedWithRoom<K, V>(c: Cache<K, V>, key: K, value: V)
    requires CacheOk(c) && key !in c.order && (|c.order| < c.capacity || c.order == [])
    ensures var c' := Inserted(c, key, value);
            c'.order == c.order + [key] && c'.entries == c.entries[key := value]
  {
    assert Elements(c.order + [key]) == Elements(c.order) + {key};
  }

  /** The bounded cache, changed in place. */
  class FifoCache<K(==), V> {
    var entries: map<K, V>
    var order: seq<K>
    const capacity: nat

    function View(): Cache<K, V>
      reads this
    {
      Cache(entries, order, capacity)
    }

    constructor (capacity: nat)
      ensures View() == Cache(map[], [], capacity) && CacheOk(View())
    {
      entries, order := map[], [];
      this.capacity := capacity;
    }

    method Insert(key: K, value: V)
      requires CacheOk(View())
      modifies this
      ensures View() == Inserted(old(View()), key, value) && CacheOk(View())
    {
      ghost var c := View();
      InsertedOk(c, key, value);
      if key in entries {
        entries := entries[key := value];
        assert entries == Inserted(c, key, value).entries;
        return;
      }
      EntriesCount(c);
      if |entries| >= capacity && order != [] {
        InsertedWhenFull(c, key, value);
        entries := entries - {order[0]};
        order := order[1..];
      } else {
        InsertedWithRoom(c, key, value);
      }
      order := order + [key];
      entries := entries[key := value];
    }
  }

  /** What a lookup answers, and the cache it leaves. */
  datatype Lookup = Lookup(found: Option<seq<Subscriber>>, cache: Cache<Bytes, seq<Subscriber>>)

  /** A hit is answered from the cache; a miss by the filter over what the repository
      returns, which is stored; a failed fetch changes nothing. */
  function LookedUp(c: Cache<Bytes, seq<Subscriber>>, topic: Bytes, fetched: Option<seq<Subscriber>>): Lookup {
    if topic in c.entries then Lookup(Some(c.entries[topic]), c)
    else if fetched.None? then Lookup(None, c)
    else Lookup(Some(Matching(fetched.value, topic)), Inserted(c, topic, Matching(fetched.value, topic)))
  }

  /** One lookup after another on an empty cache, while the repository holds `active`;
      `up[i]` says whether it could be asked at the time. */
  function CacheAfter(capacity: nat, topics: seq<Bytes>, up: seq<bool>, active: seq<Subscriber>)
    : Cache<Bytes, seq<Subscriber>>
    requires |topics| == |up|
  {
    if topics == [] then Cache(map[], [], capacity)
    else
      var n := |topics| - 1;
      LookedUp(CacheAfter(capacity, topics[..n], up[..n], active), topics[n], Answer(up[n], active)).cache
  }

  function Answer(up: bool, active: seq<Subscriber>): Option<seq<Subscriber>> {
    if up then Some(active) else None
  }

  ghost predicate AllCurrent(c: Cache<Bytes, seq<Subscriber>>, active: seq<Subscriber>) {
    CacheOk(c) && forall t :: t in c.entries ==> c.entries[t] == Matching(active, t)
  }

  lemma LookupKeepsCurrent(c: Cache<Bytes, seq<Subscriber>>, topic: Bytes, up: bool, active: seq<Subscriber>)
    requires AllCurrent(c, active)
    ensures AllCurrent(LookedUp(c, topic, Answer(up, active)).cache, active)
  {
    InsertedOk(c, topic, Matching(active, topic));
  }

  lemma {:induction false} AlwaysCurrent(capacity: nat, topics: seq<Bytes>, up: seq<bool>, active: seq<Subscriber>)
    requires |topics| == |up|
    ensures AllCurrent(CacheAfter(capacity, topics, up, active), active)
  {
    if topics != [] {
      var n := |topics| - 1;
      AlwaysCurrent(capacity, topics[..n], up[..n], active);
      LookupKeepsCurrent(CacheAfter(capacity, topics[..n], up[..n], active), topics[n], up[n], active);
    }
  }

  /** Main result: while the repository does not change, after any sequence of lookups
      a lookup answers the active subscribers that match; it fails only on a miss
      while the repository cannot be asked. */
  lemma {:induction false} AnswersAreCurrent(capacity: nat, topics: seq<Bytes>, up: seq<bool>,
                                             active: seq<Subscriber>, topic: Bytes, now: bool)
    requires |topics| == |up|
    ensures var c := CacheAfter(capacity, topics, up, active);
            var found := LookedUp(c, topic, Answer(now, active)).found;
            && (found.Some? <==> topic in c.entries || now)
            && (found.Some? ==> IsFilter(found.value, active, topic))
  {
    AlwaysCurrent(capacity, topics, up, active);
    MatchingIsFilter(active, topic);
  }

  /** What a lookup has answered the cache then holds. */
  lemma {:induction false} AnswerIsRemembered(c: Cache<Bytes, seq<Subscriber>>, topic: Bytes,
                                              fetched: Option<seq<Subscriber>>)
    requires CacheOk(c)
    ensures var l := LookedUp(c, topic, fetched);
            l.found.Some? ==> topic in l.cache.entries && l.cache.entries[topic] == l.found.value
  {
    if fetched.Some? {
      InsertedOk(c, topic, Matching(fetched.value, topic));
    }
  }

  /** The topics that were fetched: those that missed while the repository answered. */
  function Fetches(capacity: nat, topics: seq<Bytes>, up: seq<bool>, active: seq<Subscriber>): seq<Bytes>
    requires |topics| == |up|
  {
    if topics == [] then []
    else
      var n := |topics| - 1;
      var before := CacheAfter(capacity, topics[..n], up[..n], active);
      Fetches(capacity, topics[..n], up[..n], active)
      + (if topics[n] !in before.entries && up[n] then [topics[n]] else [])
  }

  lemma LookupOrder(c: Cache<Bytes, seq<Subscriber>>, topic: Bytes, up: bool, active: seq<Subscriber>,
                    fetched: seq<Bytes>)
    requires CacheOk(c) && c.order == LastN(fetched, Capacity(c.capacity))
    ensures var c' := LookedUp(c, topic, Answer(up, active)).cache;
            && c'.capacity == c.capacity
            && c'.order == LastN(fetched + (if topic !in c.entries && up then [topic] else []), Capacity(c.capacity))
  {
    if topic !in c.entries && up {
      LastNAppend(fetched, topic, Capacity(c.capacity));
    } else {
      assert fetched + [] == fetched;
    }
  }

  /** Main result: after any sequence of lookups the cache holds exactly the topics
      fetched last, as many as it has room for. */
  lemma {:induction false} HoldsLastFetched(capacity: nat, topics: seq<Bytes>, up: seq<bool>,
                                            active: seq<Subscriber>)
    requires |topics| == |up|
    ensures var c := CacheAfter(capacity, topics, up, active);
            && c.capacity == capacity && c.entries.Keys == Elements(c.order)
            && c.order == LastN(Fetches(capacity, topics, up, active), if capacity == 0 then 1 else capacity)
  {
    AlwaysCurrent(capacity, topics, up, active);
    if topics != [] {
      var n := |topics| - 1;
      HoldsLastFetched(capacity, topics[..n], up[..n], active);
      AlwaysCurrent(capacity, topics[..n], up[..n], active);
      LookupOrder(CacheAfter(capacity, topics[..n], up[..n], active), topics[n], up[n], active,
                  Fetches(capacity, topics[..n], up[..n], active));
    }
  }

  class Dispatcher {
    const cache: FifoCache<Bytes, seq<Subscriber>>

    constructor (cache: FifoCache<Bytes, seq<Subscriber>>)
      ensures this.cache == cache
    {
      this.cache := cache;
    }

    /** `get_subscribers` when nobody else touches the cache. `fetched` is what
        the repository answers on a miss, if it answers. */
    method GetSubscribers(topic: Bytes, fetched: Option<seq<Subscriber>>) returns (found: Option<seq<Subscriber>>)
      requires CacheOk(cache.View())
      modifies cache
      ensures CacheOk(cache.View())
      ensures Lookup(found, cache.View()) == LookedUp(old(cache.View()), topic, fetched)
    {
      if topic in cache.entries {
        return Some(cache.entries[topic]);
      }
      if fetched.None? {
        return None;
      }
      var matching := Matching(fetched.value, topic);
      cache.Insert(topic, matching);
      found := Some(matching);
    }
  }

  // ---------- Interleavings ----------

  datatype Event =
    | Change(active: seq<Subscriber>)
    | Fetch(task: nat, topic: Bytes)
    | Store(task: nat)

  datatype Fetched = Fetched(topic: Bytes, subscribers: seq<Subscriber>)

  datatype State = State(cache: Cache<Bytes, seq<Subscriber>>, active: seq<Subscriber>, tasks: map<nat, Fetched>)

  datatype Trace = Start(capacity: nat, active: seq<Subscriber>) | Extend(prev: Trace, event: Event)

  function After(tr: Trace): State {
    match tr
    case Start(capacity, active) => State(Cache(map[], [], capacity), active, map[])
    case Extend(prev, e) =>
      var s := After(prev);
      match e
      case Change(active) => s.(active := active)
      case Fetch(task, topic) => s.(tasks := s.tasks[task := Fetched(topic, Matching(s.active, topic))])
      case Store(task) =>
        if task !in s.tasks then s
        else s.(cache := Inserted(s.cache, s.tasks[task].topic, s.tasks[task].subscribers), tasks := s.tasks - {task})
  }

  /** Every state the repository has been in. */
  function Snapshots(tr: Trace): seq<seq<Subscriber>> {
    match tr
    case Start(_, active) => [active]
    case Extend(prev, Change(active)) => Snapshots(prev) + [active]
    case Extend(prev, _) => Snapshots(prev)
  }

  ghost predicate FromSome(snapshots: seq<seq<Subscriber>>, topic: Bytes, subscribers: seq<Subscriber>) {
    exists i :: 0 <= i < |snapshots| && IsFilter(subscribers, snapshots[i], topic)
  }

  /** Main result: however lookups and repository changes interleave, the cache
      stays within its size and each entry is the matcher's filter over a state
      the repository really was in. */
  lemma {:induction false} EntriesAreFilters(tr: Trace)
    ensures CacheOk(After(tr).cache)
    ensures forall t :: t in After(tr).cache.entries ==> FromSome(Snapshots(tr), t, After(tr).cache.entries[t])
    ensures forall k :: k in After(tr).tasks ==>
              FromSome(Snapshots(tr), After(tr).tasks[k].topic, After(tr).tasks[k].subscribers)
    ensures |Snapshots(tr)| >= 1 && Snapshots(tr)[|Snapshots(tr)| - 1] == After(tr).active
  {
    if tr.Extend? {
      EntriesAreFilters(tr.prev);
      var s := After(tr.prev);
      if tr.event.Change? {
        forall t, subscribers | FromSome(Snapshots(tr.prev), t, subscribers)
          ensures FromSome(Snapshots(tr), t, subscribers)
        {
          var i :| 0 <= i < |Snapshots(tr.prev)| && IsFilter(subscribers, Snapshots(tr.prev)[i], t);
          assert Snapshots(tr)[i] == Snapshots(tr.prev)[i];
        }
      } else if tr.event.Fetch? {
        MatchingIsFilter(s.active, tr.event.topic);
        assert IsFilter(Matching(s.active, tr.event.topic), Snapshots(tr)[|Snapshots(tr)| - 1], tr.event.topic);
      } else if tr.event.Store? && tr.event.task in s.tasks {
        InsertedOk(s.cache, s.tasks[tr.event.task].topic, s.tasks[tr.event.task].subscribers);
      }
    }
  }

  predicate Unchanged(tr: Trace) {
    tr.Extend? ==> Unchanged(tr.prev) && (tr.event.Change? ==> tr.event.active == After(tr.prev).active)
  }

  lemma {:induction false} OneSnapshot(tr: Trace)
    requires Unchanged(tr)
    ensures forall i :: 0 <= i < |Snapshots(tr)| ==> Snapshots(tr)[i] == After(tr).active
  {
    if tr.Extend? {
      OneSnapshot(tr.prev);
    }
  }

  /** While the repository does not change, a hit answers what a fresh lookup
      would, after any sequence of lookups and evictions. */
  lemma HitIsCurrent(tr: Trace, topic: Bytes)
    requires Unchanged(tr) && topic in After(tr).cache.entries
    ensures IsFilter(After(tr).cache.entries[topic], After(tr).active, topic)
  {
    EntriesAreFilters(tr);
    OneSnapshot(tr);
  }

  /** A lookup that misses, alone, is one fetch and one store: the method and the
      interleavings speak of the same steps. */
  lemma {:induction false} MissIsFetchThenStore(tr: Trace, task: nat, topic: Bytes)
    requires topic !in After(tr).cache.entries && task !in After(tr).tasks
    ensures var s, s' := After(tr), After(Trace.Extend(Trace.Extend(tr, Fetch(task, topic)), Store(task)));
            && s'.cache == LookedUp(s.cache, topic, Some(s.active)).cache
            && s'.active == s.active && s'.tasks == s.tasks
  {
    var s := After(tr);
    var fetched := After(Trace.Extend(tr, Fetch(task, topic)));
    assert fetched.tasks - {task} == s.tasks;
  }
}
