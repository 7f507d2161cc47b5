/** What the breaker's counters mean: it is a function of the calls so far. */
module BreakerHistory {
  import opened Common
  import opened CircuitBreaker

  datatype Call = Ask(now: int) | Success | Failure(now: int)

  datatype History = New(config: Config) | Then(prev: History, call: Call)

  function Step(b: Breaker, call: Call): Breaker {
    match call
    case Ask(now) => Asked(b, now)
    case Success => Succeeded(b)
    case Failure(now) => Failed(b, now)
  }

  function After(h: History): Breaker {
    match h
    case New(config) => Fresh(config)
    case Then(prev, call) => Step(After(prev), call)
  }

  function ConfigOf(h: History): Config {
    match h
    case New(config) => config
    case Then(prev, _) => ConfigOf(prev)
  }

  // ---------- The specification: no counters, only the history ----------

  /** Failures recorded since the last success. */
  function FailureRun(h: History): nat {
    match h
    case New(_) => 0
    case Then(prev, Success) => 0
    case Then(prev, Failure(_)) => FailureRun(prev) + 1
    case Then(prev, Ask(_)) => FailureRun(prev)
  }

  function LastFailure(h: History): Option<int> {
    match h
    case New(_) => None
    case Then(_, Failure(now)) => Some(now)
    case Then(prev, _) => LastFailure(prev)
  }

  /** A threshold of zero acts as one: the first report reaches it. */
  function Threshold(n: nat): nat {
    if n == 0 then 1 else n
  }

  /** The open duration has passed since the latest failure. A duration of zero has
      always passed, even on a clock that seems to have gone backwards. */
  predicate RestedLongEnough(h: History, now: int) {
    && LastFailure(h).Some?
    && (now >= LastFailure(h).value + ConfigOf(h).openDuration || ConfigOf(h).openDuration == 0)
  }

  /** Failures recorded since the counter was last set to zero. */
  function Tally(h: History): nat {
    match h
    case New(_) => 0
    case Then(prev, Failure(_)) => Tally(prev) + 1
    case Then(prev, Ask(_)) => Tally(prev)
    case Then(prev, Success) => if SpecMode(h).Closed? then 0 else Tally(prev)
  }

  function SpecMode(h: History): Mode
    decreases h, 1
  {
    match h
    case New(_) => Closed
    case Then(prev, call) => NextMode(prev, call)
  }

  function NextMode(h: History, call: Call): Mode
    decreases h, 2
  {
    match SpecMode(h)
    case Closed =>
      if call.Failure? && FailureRun(h) + 1 >= Threshold(ConfigOf(h).failureThreshold) then Open else Closed
    case Open =>
      if call.Success? || (call.Ask? && RestedLongEnough(h, call.now)) then HalfOpen else Open
    case HalfOpen =>
      if call.Failure? then Open
      else if call.Success? && Trials(h) + 1 >= Threshold(ConfigOf(h).successThreshold) then Closed
      else HalfOpen
  }

  /** Successes recorded since the breaker entered its present mode. */
  function Trials(h: History): nat
    decreases h, 1
  {
    match h
    case New(_) => 0
    case Then(prev, call) =>
      if NextMode(prev, call) != SpecMode(prev) then 0 else Trials(prev) + One(call.Success?)
  }

  ghost predicate Represents(b: Breaker, h: History) {
    && b.config == ConfigOf(h)
    && b.mode == SpecMode(h)
    && (b.mode.Closed? ==> b.failures == FailureRun(h) < Threshold(b.config.failureThreshold))
    && (b.mode.HalfOpen? ==> b.successes == Trials(h) < Threshold(b.config.successThreshold))
    && (!b.mode.HalfOpen? ==> b.successes == 0)
    && (b.mode.Closed? <==> b.openedAt.None?)
    && (!b.mode.Closed? ==> b.openedAt == LastFailure(h))
  }

  /** Main result: over every sequence of calls, with any thresholds and even
      with wrapping counters, the breaker is the history specification. */
  lemma {:induction false} BreakerRefines(h: History)
    ensures Represents(After(h), h)
  {
    match h
    case New(_) =>
    case Then(prev, call) =>
      BreakerRefines(prev);
      match call {
        case Ask(now) => AskRefines(prev, now);
        case Success => SuccessRefines(prev);
        case Failure(now) => FailureRefines(prev, now);
      }
  }

  lemma AskRefines(h: History, now: int)
    requires Represents(After(h), h)
    ensures Represents(After(Then(h, Ask(now))), Then(h, Ask(now)))
  {
  }

  lemma SuccessRefines(h: History)
    requires Represents(After(h), h)
    ensures Represents(After(Then(h, Success)), Then(h, Success))
  {
  }

  lemma FailureRefines(h: History, now: int)
    requires Represents(After(h), h)
    ensures Represents(After(Then(h, Failure(now))), Then(h, Failure(now)))
  {
  }

  /** A call goes through exactly when the breaker is not open, or the duration
      has passed since the latest failure: no open breaker is stuck. */
  lemma AdmissionExact(h: History, now: int)
    ensures Admits(After(h), now) <==> !SpecMode(h).Open? || RestedLongEnough(h, now)
    ensures SpecMode(h).Open? ==> LastFailure(h).Some?
  {
    BreakerRefines(h);
  }

  lemma CountOn(n: nat)
    ensures (n % 4_294_967_296 + 1) % 4_294_967_296 == (n + 1) % 4_294_967_296
  {
  }

  /** The failure counter in every state: it counts on while the breaker is open or on
      trial, and wraps around at 2^32. */
  lemma {:induction false} FailuresAreTallied(h: History)
    ensures After(h).failures as int == Tally(h) % 4_294_967_296
  {
    if h.Then? {
      FailuresAreTallied(h.prev);
      BreakerRefines(h.prev);
      BreakerRefines(h);
      CountOn(Tally(h.prev));
    }
  }

  /** Trials are counted from zero, whatever state the breaker comes from. */
  lemma TrialsStartAtZero(b: Breaker, call: Call)
    ensures !b.mode.HalfOpen? && Step(b, call).mode.HalfOpen? ==> Step(b, call).successes == 0
  {
  }

  /** The breaker as it is configured unless told otherwise: the fifth failure in a row
      opens it, it rests for 30 seconds, and the second success closes it. */
  lemma {:induction false} DefaultBreaker(h: History)
    requires ConfigOf(h) == DEFAULT_CONFIG
    ensures SpecMode(h).Closed? ==>
              forall now :: After(Then(h, Failure(now))).mode.Open? <==> FailureRun(h) >= 4
    ensures SpecMode(h).HalfOpen? ==> (After(Then(h, Success)).mode.Closed? <==> Trials(h) >= 1)
    ensures SpecMode(h).Open? ==>
              LastFailure(h).Some? && forall now :: Admits(After(h), now) <==> now - LastFailure(h).value >= 30_000_000
  {
    forall now | SpecMode(h).Closed?
      ensures After(Then(h, Failure(now))).mode.Open? <==> FailureRun(h) >= 4
    {
      BreakerRefines(Then(h, Failure(now)));
      assert SpecMode(Then(h, Failure(now))) == NextMode(h, Failure(now));
    }
    BreakerRefines(Then(h, Success));
    assert SpecMode(Then(h, Success)) == NextMode(h, Success);
    forall now | SpecMode(h).Open?
      ensures LastFailure(h).Some? && (Admits(After(h), now) <==> now - LastFailure(h).value >= 30_000_000)
    {
      AdmissionExact(h, now);
    }
    AdmissionExact(h, 0);
  }

  /** From `h` to `later` no success was recorded and no call was let through. */
  predicate QuietSince(h: History, later: History) {
    || later == h
    || (later.Then? && QuietSince(h, later.prev)
        && (later.call.Failure? || (later.call.Ask? && !Admits(After(later.prev), later.call.now))))
  }

  /** After an opening, the next call is let through only when the duration has
      passed since the latest failure, unless a success is recorded meanwhile. */
  lemma {:induction false} OpenUntilRested(h: History, later: History, now: int)
    requires SpecMode(h).Open? && QuietSince(h, later)
    ensures SpecMode(later).Open?
    ensures Admits(After(later), now) <==> RestedLongEnough(later, now)
  {
    if later != h {
      OpenUntilRested(h, later.prev, if later.call.Ask? then later.call.now else now);
    }
    AdmissionExact(later, now);
  }

  // ---------- Calls in flight ----------

  function InFlight(h: History): nat {
    match h
    case New(_) => 0
    case Then(prev, Ask(now)) => InFlight(prev) + One(Admits(After(prev), now))
    case Then(prev, _) => if InFlight(prev) == 0 then 0 else InFlight(prev) - 1
  }

  /** Every report belongs to a call that was let through before it, and no more than
      `c` calls are under way at once. */
  predicate AtMost(h: History, c: nat) {
    h.Then? ==>
      && AtMost(h.prev, c)
      && (if h.call.Ask? then InFlight(h) <= c else InFlight(h.prev) >= 1)
  }

  lemma {:induction false} FlyingMeansNotOpen(h: History)
    requires AtMost(h, 1)
    ensures InFlight(h) <= 1 && (InFlight(h) == 1 ==> !SpecMode(h).Open?)
  {
    if h.Then? {
      FlyingMeansNotOpen(h.prev);
      BreakerRefines(h.prev);
    }
  }

  /** With one call in flight an open breaker hears of nothing, so it is left
      only by waiting. */
  lemma OpenLeftOnlyByWaiting(h: History)
    requires h.Then? && AtMost(h, 1) && SpecMode(h.prev).Open?
    ensures h.call.Ask?
    ensures !SpecMode(h).Open? ==> RestedLongEnough(h.prev, h.call.now)
  {
    FlyingMeansNotOpen(h.prev);
    assert SpecMode(h) == NextMode(h.prev, h.call);
  }

  /** One call is under way; others fail meanwhile, one at a time, at this instant. */
  function FailingBeside(config: Config, now: int, n: nat): History {
    if n == 0 then Then(New(config), Ask(now))
    else Then(Then(FailingBeside(config, now, n - 1), Ask(now)), Failure(now))
  }

  lemma {:induction false} FailingBesideOpens(config: Config, now: int, n: nat)
    requires n <= Threshold(config.failureThreshold)
    ensures var h := FailingBeside(config, now, n);
            && ConfigOf(h) == config && AtMost(h, 2) && InFlight(h) == 1
            && FailureRun(h) == n && (n > 0 ==> LastFailure(h) == Some(now))
            && SpecMode(h) == if n < Threshold(config.failureThreshold) then Closed else Open
  {
    if n > 0 {
      FailingBesideOpens(config, now, n - 1);
      var h := FailingBeside(config, now, n - 1);
      AdmissionExact(h, now);
      var asked := Then(h, Ask(now));
      assert SpecMode(asked) == NextMode(h, Ask(now)) == Closed;
      assert SpecMode(Then(asked, Failure(now))) == NextMode(asked, Failure(now));
    } else {
      assert SpecMode(FailingBeside(config, now, n)) == NextMode(New(config), Ask(now));
    }
  }

  lemma {:induction false} AtMostMore(h: History, c: nat, d: nat)
    requires AtMost(h, c) && c <= d
    ensures AtMost(h, d)
  {
    if h.Then? {
      AtMostMore(h.prev, c, d);
    }
  }

  /** A success reported to the open breaker ends its rest: the next call is let
      through although the breaker has not rested. */
  predicate EndsRest(h: History, now: int) {
    SpecMode(h).Open? && !RestedLongEnough(h, now) && Admits(After(Then(h, Success)), now)
  }

  /** Main result: with at most `c` calls in flight a late success can end the rest of
      an open breaker exactly if `c` is at least two and there is a rest to end. */
  lemma LateSuccessNeedsOverlap(config: Config, now: int, c: nat)
    ensures (exists h :: ConfigOf(h) == config && AtMost(Then(h, Success), c) && EndsRest(h, now))
       <==> c >= 2 && config.openDuration > 0
  {
    var t := Threshold(config.failureThreshold);
    if c >= 2 && config.openDuration > 0 {
      var h := FailingBeside(config, now, t);
      FailingBesideOpens(config, now, t);
      AtMostMore(h, 2, c);
      AdmissionExact(Then(h, Success), now);
      assert SpecMode(Then(h, Success)) == NextMode(h, Success);
      assert AtMost(Then(h, Success), c) && EndsRest(h, now);
    } else {
      forall h | ConfigOf(h) == config && AtMost(Then(h, Success), c)
        ensures !EndsRest(h, now)
      {
        AdmissionExact(h, now);
        if c <= 1 {
          AtMostMore(Then(h, Success), c, 1);
          FlyingMeansNotOpen(h);
        }
      }
    }
  }
}
