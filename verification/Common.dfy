/** Small things several components share. */
module Common {

  datatype Option<+T> = None | Some(value: T)

  function One(b: bool): nat {
    if b then 1 else 0
  }

  predicate NoDuplicates<T(==)>(s: seq<T>) {
    forall i, j :: 0 <= i < j < |s| ==> s[i] != s[j]
  }

  function Elements<T>(s: seq<T>): set<T> {
    set x | x in s
  }

  lemma {:induction false} DistinctCardinality<T>(s: seq<T>)
    requires NoDuplicates(s)
    ensures |Elements(s)| == |s|
  {
    if |s| == 0 {
      assert Elements(s) == {};
    } else {
      var front := s[..|s| - 1];
      DistinctCardinality(front);
      assert Elements(s) == Elements(front) + {s[|s| - 1]};
      assert s[|s| - 1] !in Elements(front);
    }
  }

  lemma {:induction false} SubsetCardinality<T>(a: set<T>, b: set<T>)
    requires a <= b
    ensures |a| <= |b|
  {
    if a != {} {
      var x :| x in a;
      SubsetCardinality(a - {x}, b - {x});
    }
  }

  lemma RemoveKeepsDistinct<T>(s: seq<T>, n: nat)
    requires n < |s| && NoDuplicates(s)
    ensures NoDuplicates(s[..n] + s[n + 1..])
    ensures forall x :: x in s[..n] + s[n + 1..] <==> x in s && x != s[n]
  {
    var s' := s[..n] + s[n + 1..];
    forall i | 0 <= i < |s'| ensures s'[i] == s[if i < n then i else i + 1] { }
    forall x | x in s && x != s[n] ensures x in s' {
      var i :| 0 <= i < |s| && s[i] == x;
      assert s'[if i < n then i else i - 1] == x;
    }
  }
}
