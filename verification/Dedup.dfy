/** The deduplicator of the inbox. */
module Dedup {
  import opened Common
  import opened BoundedFifo

  // ---------- What each call does to the order of the keys ----------

  function Checked(order: seq<string>, key: string, size: nat): seq<string> {
    if key in order then order else LastN(order + [key], Capacity(size))
  }

  /** `mark_seen` makes room first and looks afterwards, so it can evict a key
      even when the marked one was known. */
  function Marked(order: seq<string>, key: string, size: nat): seq<string> {
    var room := LastN(order, Capacity(size) - 1);
    if key in room then room else room + [key]
  }

  class Deduplicator {
    var seen: set<string>
    var order: seq<string>
    const maxSize: nat

    predicate Valid()
      reads this
    {
      NoDuplicates(order) && seen == Elements(order) && |order| <= Capacity(maxSize)
    }

    constructor (maxSize: nat)
      ensures Valid() && order == [] && this.maxSize == maxSize
    {
      seen, order := {}, [];
      this.maxSize := maxSize;
    }

    method IsDuplicate(key: string) returns (duplicate: bool)
      requires Valid()
      ensures duplicate <==> key in order
    {
      duplicate := key in seen;
    }

    /** The eviction loop both marking calls run. */
    method Evict()
      requires Valid()
      modifies this
      ensures NoDuplicates(order) && seen == Elements(order)
      ensures order == LastN(old(order), Capacity(maxSize) - 1)
    {
      DistinctCardinality(order);
      ghost var dropped: nat := 0;
      while |seen| >= maxSize
        invariant dropped <= |old(order)| && order == old(order)[dropped..]
        invariant NoDuplicates(order) && seen == Elements(order) && |seen| == |order|
        invariant dropped > 0 ==> |order| + 1 >= maxSize
        decreases |order|
      {
        if order == [] {
          break;
        }
        var oldest := order[0];
        assert order == [oldest] + order[1..];
        order := order[1..];
        seen := seen - {oldest};
        dropped := dropped + 1;
        assert seen == Elements(order);
        DistinctCardinality(order);
      }
    }

    method CheckAndMark(key: string) returns (isNew: bool)
      requires Valid()
      modifies this
      ensures Valid() && isNew == (key !in old(order))
      ensures order == Checked(old(order), key, maxSize) && key in order
    {
      if key in seen {
        return false;
      }
      Evict();
      LastNAppend(old(order), key, Capacity(maxSize));
      LastNDistinct(old(order), Capacity(maxSize) - 1);
      AppendDistinct(order, key);
      seen := seen + {key};
      order := order + [key];
      isNew := true;
    }

    method MarkSeen(key: string)
      requires Valid()
      modifies this
      ensures Valid()
      ensures order == Marked(old(order), key, maxSize) && key in order
    {
      Evict();
      LastNDistinct(old(order), Capacity(maxSize) - 1);
      if key !in seen {
        AppendDistinct(order, key);
        seen := seen + {key};
        order := order + [key];
      }
    }

    method Clear()
      modifies this
      ensures Valid() && order == []
    {
      seen, order := {}, [];
    }
  }

  // ---------- Whole histories of check_and_mark ----------

  function OrderAfter(keys: seq<string>, size: nat): seq<string> {
    if keys == [] then []
    else Checked(OrderAfter(keys[..|keys| - 1], size), keys[|keys| - 1], size)
  }

  /** The keys reported as new, in order. */
  function Accepted(keys: seq<string>, size: nat): seq<string> {
    if keys == [] then []
    else
      var front, key := keys[..|keys| - 1], keys[|keys| - 1];
      Accepted(front, size) + (if key in OrderAfter(front, size) then [] else [key])
  }

  /** Main result: the memory is the last accepted keys, exactly. */
  lemma {:induction false} RemembersLastAccepted(keys: seq<string>, size: nat)
    ensures OrderAfter(keys, size) == LastN(Accepted(keys, size), Capacity(size))
  {
    if keys != [] {
      var front, key := keys[..|keys| - 1], keys[|keys| - 1];
      RemembersLastAccepted(front, size);
      var before := Accepted(front, size);
      if key in OrderAfter(front, size) {
        assert before + [] == before;
      } else {
        LastNAppend(before, key, Capacity(size));
        assert Accepted(keys, size) == before + [key];
      }
    }
  }

  /** So a key is accepted again only after that many others. */
  lemma {:induction false} AcceptancesSpaced(keys: seq<string>, size: nat, i: nat, j: nat)
    requires i < j < |Accepted(keys, size)| && Accepted(keys, size)[i] == Accepted(keys, size)[j]
    ensures j - i - 1 >= size && j - i - 1 >= 1
  {
    var front, key := keys[..|keys| - 1], keys[|keys| - 1];
    var before := Accepted(front, size);
    if j < |before| {
      AcceptancesSpaced(front, size, i, j);
    } else {
      RemembersLastAccepted(front, size);
      InLastN(before, Capacity(size), i);
    }
  }

  /** The memory holds as many keys as were accepted, but no more than its size; a size
      of zero still keeps one. */
  lemma {:induction false} MemoryFilled(keys: seq<string>, size: nat)
    ensures var n := |Accepted(keys, size)|;
            |OrderAfter(keys, size)| == if size == 0 then (if n == 0 then 0 else 1) else if n < size then n else size
  {
    RemembersLastAccepted(keys, size);
  }

  /** What `mark_seen` forgets: the oldest key when the memory is full, and nothing
      else; the marked key comes last unless it was known and not the one forgotten. */
  lemma MarkedExactly(order: seq<string>, key: string, size: nat)
    requires NoDuplicates(order) && |order| <= Capacity(size)
    ensures var full := |order| >= 1 && |order| >= size;
            var kept := if full then order[1..] else order;
            Marked(order, key, size) == if key in kept then kept else kept + [key]
  {
  }

  // ---------- Histories of every call ----------

  datatype Call = Check(key: string) | Mark(key: string) | Reset

  function After(calls: seq<Call>, size: nat): seq<string> {
    if calls == [] then []
    else
      var order := After(calls[..|calls| - 1], size);
      match calls[|calls| - 1]
      case Check(key) => Checked(order, key, size)
      case Mark(key) => Marked(order, key, size)
      case Reset => []
  }

  lemma {:induction false} AnyMixBounded(calls: seq<Call>, size: nat)
    ensures NoDuplicates(After(calls, size)) && |After(calls, size)| <= if size == 0 then 1 else size
    ensures calls != [] && !calls[|calls| - 1].Reset? ==> calls[|calls| - 1].key in After(calls, size)
  {
    if calls != [] {
      AnyMixBounded(calls[..|calls| - 1], size);
      var order := After(calls[..|calls| - 1], size);
      match calls[|calls| - 1]
      case Reset =>
      case Check(key) =>
        if key !in order {
          AppendDistinct(order, key);
          LastNDistinct(order + [key], Capacity(size));
          assert LastN(order + [key], Capacity(size))[|LastN(order + [key], Capacity(size))| - 1] == key;
        }
      case Mark(key) =>
        var room := LastN(order, Capacity(size) - 1);
        LastNDistinct(order, Capacity(size) - 1);
        if key !in room {
          AppendDistinct(room, key);
        }
    }
  }
}
