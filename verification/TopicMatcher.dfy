/** The topic matcher, on bytes, as the program runs it. */
module TopicMatcher {
  import opened Common

  newtype byte = b: int | 0 <= b < 256

  type Bytes = seq<byte>

  const DOT: byte := 46
  const HASH: byte := 35
  const PLUS: byte := 43
  const STAR: byte := 42

  datatype Segment = Segment(bytes: Bytes, end: nat)

  /** The first position of `b`, or the length when there is none. */
  function Position(s: Bytes, b: byte): (i: nat)
    ensures i <= |s| && b !in s[..i] && (i < |s| ==> s[i] == b)
  {
    if s == [] || s[0] == b then 0 else
    var i := Position(s[1..], b) + 1;
    assert s[..i] == [s[0]] + s[1..][..i - 1];
    i
  }

  function NextSegment(input: Bytes): (seg: Option<Segment>)
    ensures seg.None? <==> input == []
    ensures seg.Some? ==> 1 <= seg.value.end <= |input| && DOT !in seg.value.bytes
    ensures seg.Some? ==>
              var n := |seg.value.bytes|;
              && n <= |input| && seg.value.bytes == input[..n]
              && (if seg.value.end == n then n == |input| else seg.value.end == n + 1 && input[n] == DOT)
  {
    var idx := Position(input, DOT);
    if idx < |input| then Some(Segment(input[..idx], idx + 1))
    else if input == [] then None
    else Some(Segment(input, |input|))
  }

  predicate StartsWith(s: Bytes, prefix: Bytes) {
    prefix <= s
  }

  predicate MatchSegments(topic: Bytes, pattern: Bytes)
    decreases |pattern|
  {
    match NextSegment(pattern)
    case None => NextSegment(topic).None?
    case Some(p) =>
      if p.bytes == [HASH] then true else
      match NextSegment(topic)
      case None => false
      case Some(t) =>
        var topicRest := topic[t.end..];
        var patternRest := pattern[p.end..];
        if p.bytes == [PLUS] || p.bytes == [STAR] then MatchSegments(topicRest, patternRest)
        else if p.bytes == t.bytes then MatchSegments(topicRest, patternRest)
        else if STAR in p.bytes then StartsWith(topic, p.bytes[..Position(p.bytes, STAR)])
        else false
  }

  predicate MatchesTopic(topic: Bytes, pattern: Bytes) {
    if pattern == [] then topic == []
    else if topic == [] then pattern == [HASH]
    else MatchSegments(topic, pattern)
  }

  predicate MatchesAny(topic: Bytes, patterns: seq<Bytes>) {
    exists i :: 0 <= i < |patterns| && MatchesTopic(topic, patterns[i])
  }
}
