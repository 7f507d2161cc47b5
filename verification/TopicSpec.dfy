/** Topics and patterns as lists of segments, and what a pattern matches, stated
    by position. The wildcards follow section 4.7.1 of OASIS MQTT 3.1.1, with
    `.` as the separator and the differences listed in README.md. */
module TopicSpec {
  import opened TopicMatcher

  type Segments = seq<Bytes>

  predicate DotFree(s: Bytes) {
    DOT !in s
  }

  /** The pieces between separators: one more than there are separators. */
  function Split(s: Bytes): (pieces: Segments)
    ensures |pieces| >= 1
  {
    if s == [] then [[]]
    else if s[0] == DOT then [[]] + Split(s[1..])
    else
      var rest := Split(s[1..]);
      [[s[0]] + rest[0]] + rest[1..]
  }

  function Join(pieces: Segments): Bytes
    requires |pieces| >= 1
  {
    if |pieces| == 1 then pieces[0] else pieces[0] + [DOT] + Join(pieces[1..])
  }

  lemma JoinLonger(b: byte, pieces: Segments)
    requires |pieces| >= 1
    ensures Join([[b] + pieces[0]] + pieces[1..]) == [b] + Join(pieces)
  {
    var longer := [[b] + pieces[0]] + pieces[1..];
    if |pieces| > 1 {
      assert longer[1..] == pieces[1..];
      var tail := Join(pieces[1..]);
      assert Join(longer) == ([b] + pieces[0]) + [DOT] + tail;
      Regroup([b], pieces[0], [DOT] + tail);
      Regroup([b] + pieces[0], [DOT], tail);
      Regroup(pieces[0], [DOT], tail);
    }
  }

  lemma Regroup(x: Bytes, y: Bytes, z: Bytes)
    ensures (x + y) + z == x + (y + z)
  {
  }

  /** Splitting is the one way to cut at the separators. */
  lemma {:induction false} SplitJoins(s: Bytes)
    ensures Join(Split(s)) == s
    ensures forall i :: 0 <= i < |Split(s)| ==> DotFree(Split(s)[i])
  {
    if s != [] {
      SplitJoins(s[1..]);
      var rest := Split(s[1..]);
      assert s == [s[0]] + s[1..];
      if s[0] == DOT {
        assert Split(s)[1..] == rest;
        assert Join(Split(s)) == [] + [DOT] + Join(rest);
      } else {
        JoinLonger(s[0], rest);
      }
    }
  }

  lemma {:induction false} SplitFirst(piece: Bytes, rest: Bytes)
    requires DotFree(piece)
    ensures Split(piece) == [piece]
    ensures Split(piece + [DOT] + rest) == [piece] + Split(rest)
  {
    var s := piece + [DOT] + rest;
    if piece == [] {
      assert s == [DOT] + rest && s[1..] == rest;
    } else {
      SplitFirst(piece[1..], rest);
      assert s[1..] == piece[1..] + [DOT] + rest;
      assert piece == [piece[0]] + piece[1..];
    }
  }

  /** The segments the matcher walks: a final empty piece does not count. */
  function SegmentsOf(s: Bytes): Segments {
    var pieces := Split(s);
    if pieces[|pieces| - 1] == [] then pieces[..|pieces| - 1] else pieces
  }

  lemma SegmentsDotted(piece: Bytes, rest: Bytes)
    requires DotFree(piece)
    ensures SegmentsOf(piece + [DOT] + rest) == [piece] + SegmentsOf(rest)
  {
    SplitFirst(piece, rest);
    var pieces, tail := Split(piece + [DOT] + rest), Split(rest);
    assert pieces == [piece] + tail;
    assert pieces[|pieces| - 1] == tail[|tail| - 1];
    assert pieces[..|pieces| - 1] == [piece] + tail[..|tail| - 1];
  }

  /** The walk takes off one segment at a time. */
  lemma SegmentsStep(s: Bytes)
    ensures NextSegment(s).None? ==> SegmentsOf(s) == []
    ensures NextSegment(s).Some? ==>
              var seg := NextSegment(s).value;
              DotFree(seg.bytes) && SegmentsOf(s) == [seg.bytes] + SegmentsOf(s[seg.end..])
  {
    if s != [] {
      var seg := NextSegment(s).value;
      var rest := s[seg.end..];
      if seg.end == |seg.bytes| + 1 {
        assert s == seg.bytes + [DOT] + rest;
        SegmentsDotted(seg.bytes, rest);
      } else {
        SplitFirst(seg.bytes, []);
        assert rest == [] && SegmentsOf(rest) == [];
      }
    }
  }

  // ---------- The positional specification ----------

  predicate Wild(p: Bytes) {
    p == [PLUS] || p == [STAR]
  }

  /** Segment `p` lets segment `t` pass and hands over to the next position. */
  predicate Passes(p: Bytes, t: Bytes) {
    p != [HASH] && (Wild(p) || p == t)
  }

  predicate InlineGlob(p: Bytes) {
    STAR in p && p != [STAR]
  }

  function GlobPrefix(p: Bytes): Bytes {
    p[..Position(p, STAR)]
  }

  /** Position `k` settles the match: both sides end, the pattern says `#`, or an
      inline `*` segment that differs from the topic's segment starts it. */
  predicate Decides(ts: Segments, ps: Segments, k: nat) {
    || (k == |ps| && k == |ts|)
    || (k < |ps| && ps[k] == [HASH])
    || (k < |ps| && k < |ts| && InlineGlob(ps[k]) && !Passes(ps[k], ts[k]) && GlobPrefix(ps[k]) <= ts[k])
  }

  predicate PassesBefore(ts: Segments, ps: Segments, k: nat)
    requires k <= |ps|
  {
    k <= |ts| && forall i :: 0 <= i < k ==> Passes(ps[i], ts[i])
  }

  ghost predicate Matches(ts: Segments, ps: Segments) {
    exists k: nat :: k <= |ps| && PassesBefore(ts, ps, k) && Decides(ts, ps, k)
  }

  lemma MatchesUnfold(ts: Segments, ps: Segments)
    ensures Matches(ts, ps) <==>
              || Decides(ts, ps, 0)
              || (ts != [] && ps != [] && Passes(ps[0], ts[0]) && Matches(ts[1..], ps[1..]))
  {
    if k: nat :| 1 <= k <= |ps| && PassesBefore(ts, ps, k) && Decides(ts, ps, k) {
      assert PassesBefore(ts[1..], ps[1..], k - 1) && Decides(ts[1..], ps[1..], k - 1);
      assert Passes(ps[0], ts[0]);
    }
    if Decides(ts, ps, 0) {
      assert PassesBefore(ts, ps, 0);
    }
    if ts != [] && ps != [] && Passes(ps[0], ts[0]) && Matches(ts[1..], ps[1..]) {
      var k: nat :| k <= |ps[1..]| && PassesBefore(ts[1..], ps[1..], k) && Decides(ts[1..], ps[1..], k);
      assert forall i :: 1 <= i < k + 1 ==> ps[i] == ps[1..][i - 1] && ts[i] == ts[1..][i - 1];
      assert PassesBefore(ts, ps, k + 1) && Decides(ts, ps, k + 1);
    }
  }

  /** A test of the rest of the topic against a dot-free prefix looks no further
      than its first segment. */
  lemma PrefixStaysInSegment(topic: Bytes, prefix: Bytes)
    requires topic != [] && DotFree(prefix)
    ensures StartsWith(topic, prefix) <==> prefix <= NextSegment(topic).value.bytes
  {
    var seg := NextSegment(topic).value;
    if StartsWith(topic, prefix) {
      forall i | 0 <= i < |prefix| ensures topic[i] != DOT {
        assert prefix[i] in prefix;
      }
      assert |seg.bytes| < |topic| ==> topic[|seg.bytes|] == DOT;
      assert prefix == topic[..|prefix|];
    }
  }

  lemma {:induction false} WalkMatches(topic: Bytes, pattern: Bytes)
    ensures MatchSegments(topic, pattern) <==> Matches(SegmentsOf(topic), SegmentsOf(pattern))
    decreases |pattern|
  {
    var ts, ps := SegmentsOf(topic), SegmentsOf(pattern);
    SegmentsStep(topic);
    SegmentsStep(pattern);
    MatchesUnfold(ts, ps);
    if pattern != [] && topic != [] {
      var p, t := NextSegment(pattern).value, NextSegment(topic).value;
      assert ps[1..] == SegmentsOf(pattern[p.end..]) && ts[1..] == SegmentsOf(topic[t.end..]);
      WalkMatches(topic[t.end..], pattern[p.end..]);
      PrefixStaysInSegment(topic, GlobPrefix(p.bytes));
    }
  }

  /** Main result: on a non-empty topic the byte matcher is the positional
      specification on the segments. */
  lemma MatcherCorrect(topic: Bytes, pattern: Bytes)
    requires topic != []
    ensures MatchesTopic(topic, pattern) <==> Matches(SegmentsOf(topic), SegmentsOf(pattern))
  {
    WalkMatches(topic, pattern);
    if pattern == [] {
      SegmentsStep(topic);
      MatchesUnfold(SegmentsOf(topic), []);
      assert SegmentsOf(pattern) == [];
    }
  }

  /** The empty topic is a case of its own. */
  lemma EmptyTopic(pattern: Bytes)
    ensures MatchesTopic([], pattern) <==> pattern == [] || pattern == [HASH]
  {
  }

  /** The characters with a meaning. */
  lemma SpecialCharacters()
    ensures DOT as int == '.' as int && HASH as int == '#' as int
    ensures PLUS as int == '+' as int && STAR as int == '*' as int
  {
  }
}
