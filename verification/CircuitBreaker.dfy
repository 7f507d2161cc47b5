/** The circuit breaker in front of one subscriber. */
module CircuitBreaker {
  import opened Common

  const U32_RANGE: nat := 0x1_0000_0000

  type u32 = n: nat | n < U32_RANGE witness 0

  datatype Mode = Closed | Open | HalfOpen

  /** Durations and instants are microseconds of the monotonic clock. */
  datatype Config = Config(failureThreshold: u32, successThreshold: u32, openDuration: nat)

  const DEFAULT_CONFIG := Config(5, 2, 30_000_000)

  datatype Breaker = Breaker(mode: Mode, failures: u32, successes: u32, openedAt: Option<int>, config: Config)

  function Fresh(config: Config): Breaker {
    Breaker(Closed, 0, 0, None, config)
  }

  /** Counters wrap around, as they do in a release build. */
  function Inc(n: u32): u32 {
    (n + 1) % U32_RANGE
  }

  function Elapsed(since: int, now: int): nat {
    if now < since then 0 else now - since
  }

  predicate Admits(b: Breaker, now: int) {
    match b.mode
    case Closed => true
    case HalfOpen => true
    case Open => b.openedAt.Some? && Elapsed(b.openedAt.value, now) >= b.config.openDuration
  }

  function Asked(b: Breaker, now: int): Breaker {
    if b.mode.Open? && Admits(b, now) then b.(mode := HalfOpen, successes := 0) else b
  }

  function Succeeded(b: Breaker): Breaker {
    match b.mode
    case Closed => b.(failures := 0)
    case HalfOpen =>
      if Inc(b.successes) >= b.config.successThreshold
      then Breaker(Closed, 0, 0, None, b.config)
      else b.(successes := Inc(b.successes))
    case Open => b.(mode := HalfOpen, successes := 0)
  }

  function Failed(b: Breaker, now: int): Breaker {
    var counted := b.(failures := Inc(b.failures));
    match b.mode
    case Closed =>
      if counted.failures >= b.config.failureThreshold
      then counted.(mode := Open, openedAt := Some(now))
      else counted
    case HalfOpen => counted.(mode := Open, openedAt := Some(now), successes := 0)
    case Open => counted.(openedAt := Some(now))
  }

  /** The breaker as the program keeps it, changed in place. */
  class CircuitBreaker {
    var mode: Mode
    var failures: u32
    var successes: u32
    var openedAt: Option<int>
    const config: Config

    function View(): Breaker
      reads this
    {
      Breaker(mode, failures, successes, openedAt, config)
    }

    constructor (config: Config)
      ensures View() == Fresh(config)
    {
      mode, failures, successes, openedAt := Closed, 0, 0, None;
      this.config := config;
    }

    method CanExecute(now: int) returns (admitted: bool)
      modifies this
      ensures admitted == Admits(old(View()), now) && View() == Asked(old(View()), now)
    {
      match mode {
        case Closed => admitted := true;
        case HalfOpen => admitted := true;
        case Open =>
          admitted := false;
          if openedAt.Some? {
            if Elapsed(openedAt.value, now) >= config.openDuration {
              mode := HalfOpen;
              successes := 0;
              admitted := true;
            }
          }
      }
    }

    method RecordSuccess()
      modifies this
      ensures View() == Succeeded(old(View()))
    {
      match mode {
        case Closed => failures := 0;
        case HalfOpen =>
          successes := Inc(successes);
          if successes >= config.successThreshold {
            mode, failures, successes, openedAt := Closed, 0, 0, None;
          }
        case Open =>
          mode := HalfOpen;
          successes := 0;
      }
    }

    method RecordFailure(now: int)
      modifies this
      ensures View() == Failed(old(View()), now)
    {
      failures := Inc(failures);
      match mode {
        case Closed =>
          if failures >= config.failureThreshold {
            mode, openedAt := Open, Some(now);
          }
        case HalfOpen =>
          mode, openedAt, successes := Open, Some(now), 0;
        case Open =>
          openedAt := Some(now);
      }
    }
  }
}
