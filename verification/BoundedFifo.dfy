/** First-in first-out memory of a fixed size. */
module BoundedFifo {
  import opened Common

  /** A size of zero still keeps the newest key. */
  function Capacity(size: nat): nat {
    if size == 0 then 1 else size
  }

  function LastN<T>(s: seq<T>, n: nat): seq<T> {
    if |s| <= n then s else s[|s| - n..]
  }

  lemma LastNAppend<T>(s: seq<T>, x: T, n: nat)
    requires n >= 1
    ensures LastN(LastN(s, n) + [x], n) == LastN(s + [x], n)
    ensures LastN(s, n - 1) + [x] == LastN(s + [x], n)
  {
  }

  lemma LastNDistinct<T>(s: seq<T>, n: nat)
    requires NoDuplicates(s)
    ensures NoDuplicates(LastN(s, n)) && |LastN(s, n)| <= n
    ensures forall x :: x in LastN(s, n) ==> x in s
  {
  }

  lemma InLastN<T>(s: seq<T>, n: nat, i: nat)
    requires i < |s|
    ensures i + n >= |s| ==> s[i] in LastN(s, n)
  {
    if i + n >= |s| {
      assert s[i] == LastN(s, n)[i - (|s| - |LastN(s, n)|)];
    }
  }

  lemma AppendDistinct<T>(s: seq<T>, x: T)
    requires NoDuplicates(s) && x !in s
    ensures NoDuplicates(s + [x])
  {
  }
}
