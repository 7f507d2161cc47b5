/** What subscribers may rely on about patterns. */
module TopicLaws {
  import opened TopicMatcher
  import opened TopicSpec

  /** Every topic matches itself, whatever characters it is made of. */
  lemma SelfMatch(topic: Bytes)
    ensures MatchesTopic(topic, topic)
  {
    if topic != [] {
      MatcherCorrect(topic, topic);
      var ss := SegmentsOf(topic);
      var k := FirstHash(ss);
      assert PassesBefore(ss, ss, k) && Decides(ss, ss, k);
    }
  }

  function FirstHash(ps: Segments): (k: nat)
    ensures k <= |ps| && (k < |ps| ==> ps[k] == [HASH])
    ensures forall i :: 0 <= i < k ==> ps[i] != [HASH]
  {
    if ps == [] || ps[0] == [HASH] then 0 else FirstHash(ps[1..]) + 1
  }

  predicate Literal(p: Bytes) {
    p != [HASH] && !Wild(p) && !InlineGlob(p)
  }

  /** A pattern without wildcards matches exactly the topics with its segments. */
  lemma LiteralPatternIsEquality(topic: Bytes, pattern: Bytes)
    requires topic != [] && forall p :: p in SegmentsOf(pattern) ==> Literal(p)
    ensures MatchesTopic(topic, pattern) <==> SegmentsOf(topic) == SegmentsOf(pattern)
  {
    MatcherCorrect(topic, pattern);
    var ts, ps := SegmentsOf(topic), SegmentsOf(pattern);
    if k: nat :| k <= |ps| && PassesBefore(ts, ps, k) && Decides(ts, ps, k) {
      forall i | 0 <= i < |ps| ensures Literal(ps[i]) {
        assert ps[i] in ps;
      }
      assert k == |ps|;
    }
    if ts == ps {
      forall i | 0 <= i < |ps| ensures Passes(ps[i], ts[i]) {
        assert ps[i] in ps;
      }
      assert PassesBefore(ts, ps, |ps|) && Decides(ts, ps, |ps|);
    }
  }

  lemma {:induction false} SplitMore(s: Bytes)
    ensures Split(s + [DOT]) == Split(s) + [[]]
  {
    if s == [] {
      assert Split([DOT][1..]) == [[]];
    } else {
      SplitMore(s[1..]);
      assert (s + [DOT])[1..] == s[1..] + [DOT];
    }
  }

  lemma {:induction false} LastPiece(s: Bytes)
    ensures s != [] && s[|s| - 1] != DOT ==> Split(s)[|Split(s)| - 1] != []
  {
    if s != [] {
      LastPiece(s[1..]);
      if |s| == 1 {
        assert s[1..] == [];
      }
    }
  }

  /** One separator at the end of a topic or of a pattern makes no difference. */
  lemma TrailingDotIgnored(s: Bytes)
    requires s != [] && s[|s| - 1] != DOT
    ensures SegmentsOf(s + [DOT]) == SegmentsOf(s)
  {
    SplitMore(s);
    LastPiece(s);
    assert (Split(s) + [[]])[..|Split(s)|] == Split(s);
  }

  /** Cutting a pattern's tail and ending it with `#` only adds topics. */
  lemma HashTailWidens(topic: Bytes, pattern: Bytes, wider: Bytes, i: nat)
    requires topic != [] && i <= |SegmentsOf(pattern)|
    requires SegmentsOf(wider) == SegmentsOf(pattern)[..i] + [[HASH]]
    requires MatchesTopic(topic, pattern)
    ensures MatchesTopic(topic, wider)
  {
    MatcherCorrect(topic, pattern);
    MatcherCorrect(topic, wider);
    var ts, ps, qs := SegmentsOf(topic), SegmentsOf(pattern), SegmentsOf(wider);
    var k: nat :| k <= |ps| && PassesBefore(ts, ps, k) && Decides(ts, ps, k);
    var j := if k < i then k else i;
    assert PassesBefore(ts, qs, j) && Decides(ts, qs, j);
  }

  /** Everything after a `#` segment is ignored. */
  lemma {:induction false} HashAcceptsRest(topic: Bytes, pattern: Bytes, other: Bytes, i: nat)
    requires topic != [] && i < |SegmentsOf(pattern)| && i < |SegmentsOf(other)|
    requires SegmentsOf(pattern)[i] == [HASH] && SegmentsOf(other)[..i + 1] == SegmentsOf(pattern)[..i + 1]
    ensures MatchesTopic(topic, pattern) ==> MatchesTopic(topic, other)
  {
    MatcherCorrect(topic, pattern);
    MatcherCorrect(topic, other);
    var ts, ps, qs := SegmentsOf(topic), SegmentsOf(pattern), SegmentsOf(other);
    forall j | 0 <= j <= i ensures qs[j] == ps[j] {
      assert qs[..i + 1][j] == ps[..i + 1][j];
    }
    if k: nat :| k <= |ps| && PassesBefore(ts, ps, k) && Decides(ts, ps, k) {
      assert k <= i;
      assert PassesBefore(ts, qs, k) && Decides(ts, qs, k);
    }
  }

  // ---------- Any list of segments is the list of some bytes ----------

  function Terminated(ss: Segments): Bytes {
    if ss == [] then [] else ss[0] + [DOT] + Terminated(ss[1..])
  }

  lemma {:induction false} TerminatedSegments(ss: Segments)
    requires forall s :: s in ss ==> DotFree(s)
    ensures SegmentsOf(Terminated(ss)) == ss
    ensures ss != [] ==> Terminated(ss) != []
  {
    if ss != [] {
      TerminatedSegments(ss[1..]);
      SegmentsDotted(ss[0], Terminated(ss[1..]));
    }
  }

  lemma SegmentsDotFree(s: Bytes)
    ensures forall piece :: piece in SegmentsOf(s) ==> DotFree(piece)
  {
    SplitJoins(s);
  }

  // ---------- Replacing a segment by `+` ----------

  /** When replacing segment `i` by `+` cannot lose a topic: the segment is never
      reached, it is a literal or already a one-segment wildcard, or a `#` right
      behind it takes whatever is left. */
  predicate Widens(ps: Segments, i: nat)
    requires i < |ps|
  {
    || [HASH] in ps[..i]
    || (ps[i] != [HASH] && !InlineGlob(ps[i]))
    || (i + 1 < |ps| && ps[i + 1] == [HASH] && (InlineGlob(ps[i]) || i == 0))
  }

  lemma PlusWidens(ts: Segments, ps: Segments, i: nat)
    requires ts != [] && i < |ps| && Widens(ps, i) && Matches(ts, ps)
    ensures Matches(ts, ps[i := [PLUS]])
  {
    var qs := ps[i := [PLUS]];
    var k: nat :| k <= |ps| && PassesBefore(ts, ps, k) && Decides(ts, ps, k);
    if k < i || (k > i && Passes(ps[i], ts[i])) {
      assert PassesBefore(ts, qs, k) && Decides(ts, qs, k);
    } else {
      assert PassesBefore(ts, qs, i + 1) && Decides(ts, qs, i + 1);
    }
  }

  /** A segment other than `p` that an inline glob `p` accepts. */
  function GlobWitness(p: Bytes): (t: Bytes)
    requires InlineGlob(p) && DotFree(p)
    ensures DotFree(t) && t != p && GlobPrefix(p) <= t
  {
    var t := GlobPrefix(p) + [PLUS];
    assert t[|GlobPrefix(p)|] != p[Position(p, STAR)];
    t
  }

  /** A topic that the pattern matches and the `+` version loses. */
  ghost function LostTopic(ps: Segments, i: nat): Segments
    requires i < |ps| && (InlineGlob(ps[i]) ==> DotFree(ps[i]))
  {
    if ps[i] == [HASH] then
      if i > 0 then ps[..i] else if |ps| == 1 then [[PLUS], [PLUS]] else [[PLUS]]
    else if InlineGlob(ps[i]) then
      ps[..i] + [GlobWitness(ps[i])] + (if i + 1 < |ps| then [] else [[PLUS]])
    else []
  }

  lemma PlusLoses(ps: Segments, i: nat)
    requires i < |ps| && !Widens(ps, i) && forall p :: p in ps ==> DotFree(p)
    ensures var ts := LostTopic(ps, i);
            && ts != [] && (forall t :: t in ts ==> DotFree(t))
            && Matches(ts, ps) && !Matches(ts, ps[i := [PLUS]])
  {
    assert ps[i] in ps;
    var ts, qs := LostTopic(ps, i), ps[i := [PLUS]];
    forall j | 0 <= j < i ensures ps[j] != [HASH] && j < |ts| && ts[j] == ps[j] {
      assert ps[j] in ps[..i];
    }
    assert PassesBefore(ts, ps, i) && Decides(ts, ps, i);
    forall k: nat | k <= |qs| && PassesBefore(ts, qs, k)
      ensures !Decides(ts, qs, k)
    {
      if k < i {
        assert qs[k] == ps[k] && Passes(ps[k], ts[k]);
      }
    }
  }

  /** Main result: the exact patterns in which a segment may be replaced by `+`
      without losing a topic. */
  lemma PlusReplacementExact(pattern: Bytes, replaced: Bytes, i: nat)
    requires i < |SegmentsOf(pattern)| && SegmentsOf(replaced) == SegmentsOf(pattern)[i := [PLUS]]
    ensures Widens(SegmentsOf(pattern), i)
       <==> forall topic :: topic != [] && MatchesTopic(topic, pattern) ==> MatchesTopic(topic, replaced)
  {
    var ps := SegmentsOf(pattern);
    if Widens(ps, i) {
      forall topic | topic != [] && MatchesTopic(topic, pattern) ensures MatchesTopic(topic, replaced) {
        MatcherCorrect(topic, pattern);
        MatcherCorrect(topic, replaced);
        SegmentsStep(topic);
        PlusWidens(SegmentsOf(topic), ps, i);
      }
    } else {
      SegmentsDotFree(pattern);
      PlusLoses(ps, i);
      TerminatedSegments(LostTopic(ps, i));
      var topic := Terminated(LostTopic(ps, i));
      MatcherCorrect(topic, pattern);
      MatcherCorrect(topic, replaced);
    }
  }
}
