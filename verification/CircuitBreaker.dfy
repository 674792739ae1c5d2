/**
  The circuit breaker. Every call passes through two separate critical sections, one before the
  guarded function runs and one after it returned, so calls from different goroutines interleave
  between them. Times are nanoseconds.
 */
module CircuitBreakers {

  datatype State = Closed | Open | HalfOpen

  datatype Config = Config(maxFailures: int, resetTimeout: int, halfOpenMaxReqs: int)

  datatype Breaker = Breaker(
    config: Config, state: State, failures: int, lastFailTime: int,
    halfOpenReqs: int, halfOpenSuccess: int, halfOpenFailure: int)

  datatype Admission = Admitted | CircuitOpen | TooManyRequests

  /** How a guarded call ended; an error that does not count is treated as a success. */
  datatype Outcome = Succeeded | CountedError | UncountedError

  const DEFAULT_RESET_TIMEOUT := 60_000_000_000

  function Normalize(c: Config): Config {
    Config(if c.maxFailures <= 0 then 5 else c.maxFailures,
           if c.resetTimeout <= 0 then DEFAULT_RESET_TIMEOUT else c.resetTimeout,
           if c.halfOpenMaxReqs <= 0 then 3 else c.halfOpenMaxReqs)
  }

  function New(c: Config): Breaker {
    Breaker(Normalize(c), Closed, 0, 0, 0, 0, 0)
  }

  // ---------------------------------------------------------------- the two critical sections

  function Before(b: Breaker, now: int): (Breaker, Admission) {
    match b.state
    case Closed => (b, Admitted)
    case Open =>
      if now - b.lastFailTime <= b.config.resetTimeout then (b, CircuitOpen)
      else Probe(b.(state := HalfOpen, halfOpenReqs := 0, halfOpenSuccess := 0, halfOpenFailure := 0))
    case HalfOpen => Probe(b)
  }

  function Probe(b: Breaker): (Breaker, Admission) {
    if b.halfOpenReqs >= b.config.halfOpenMaxReqs then (b, TooManyRequests)
    else (b.(halfOpenReqs := b.halfOpenReqs + 1), Admitted)
  }

  function Failed(b: Breaker, now: int): Breaker {
    var timed := b.(lastFailTime := now);
    match b.state
    case Closed =>
      timed.(failures := b.failures + 1, state := if b.failures + 1 >= b.config.maxFailures then Open else Closed)
    case HalfOpen =>
      timed.(halfOpenFailure := b.halfOpenFailure + 1, state := Open, failures := b.config.maxFailures)
    case Open => timed
  }

  function Passed(b: Breaker): Breaker {
    match b.state
    case Closed => b.(failures := 0)
    case HalfOpen =>
      var counted := b.(halfOpenSuccess := b.halfOpenSuccess + 1);
      if b.halfOpenSuccess + 1 >= b.config.halfOpenMaxReqs then counted.(state := Closed, failures := 0) else counted
    case Open => b
  }

  function After(b: Breaker, outcome: Outcome, now: int): Breaker {
    if outcome == CountedError then Failed(b, now) else Passed(b)
  }

  function Cleared(b: Breaker): Breaker {
    b.(state := Closed, failures := 0, halfOpenReqs := 0, halfOpenSuccess := 0, halfOpenFailure := 0)
  }

  // ---------------------------------------------------------------- the breaker object

  class CircuitBreaker {
    const config: Config
    var state: State
    var failures: int
    var lastFailTime: int
    var halfOpenReqs: int
    var halfOpenSuccess: int
    var halfOpenFailure: int

    function Stats(): Breaker
      reads this
    {
      Breaker(config, state, failures, lastFailTime, halfOpenReqs, halfOpenSuccess, halfOpenFailure)
    }

    constructor (c: Config)
      ensures Stats() == New(c)
      ensures state == Closed && failures == halfOpenReqs == halfOpenSuccess == halfOpenFailure == 0
      ensures config.maxFailures == (if c.maxFailures > 0 then c.maxFailures else 5)
      ensures config.resetTimeout == (if c.resetTimeout > 0 then c.resetTimeout else 60_000_000_000)
      ensures config.halfOpenMaxReqs == (if c.halfOpenMaxReqs > 0 then c.halfOpenMaxReqs else 3)
    {
      config := Normalize(c);
      state, failures, lastFailTime := Closed, 0, 0;
      halfOpenReqs, halfOpenSuccess, halfOpenFailure := 0, 0, 0;
    }

    method BeforeRequest(now: int) returns (r: Admission)
      modifies this
      ensures (Stats(), r) == Before(old(Stats()), now)
    {
      if state == Closed {
        return Admitted;
      }
      if state == Open {
        if now - lastFailTime <= config.resetTimeout {
          return CircuitOpen;
        }
        state := HalfOpen;
        halfOpenReqs := 0;
        halfOpenSuccess := 0;
        halfOpenFailure := 0;
      }
      if halfOpenReqs >= config.halfOpenMaxReqs {
        return TooManyRequests;
      }
      halfOpenReqs := halfOpenReqs + 1;
      return Admitted;
    }

    method RecordFailure(now: int)
      modifies this
      ensures Stats() == Failed(old(Stats()), now)
    {
      lastFailTime := now;
      match state
      case Closed =>
        failures := failures + 1;
        if failures >= config.maxFailures {
          state := Open;
        }
      case HalfOpen =>
        halfOpenFailure := halfOpenFailure + 1;
        state := Open;
        failures := config.maxFailures;
      case Open =>
    }

    method RecordSuccess()
      modifies this
      ensures Stats() == Passed(old(Stats()))
    {
      match state
      case Closed => failures := 0;
      case HalfOpen =>
        halfOpenSuccess := halfOpenSuccess + 1;
        if halfOpenSuccess >= config.halfOpenMaxReqs {
          state := Closed;
          failures := 0;
        }
      case Open =>
    }

    method AfterRequestWithPolicy(failed: bool, countFailure: bool, now: int)
      modifies this
      ensures Stats() == if failed && countFailure then Failed(old(Stats()), now) else Passed(old(Stats()))
    {
      if failed {
        if countFailure {
          RecordFailure(now);
        } else {
          RecordSuccess();
        }
        return;
      }
      RecordSuccess();
    }

    method Reset()
      modifies this
      ensures Stats() == Cleared(old(Stats()))
    {
      state := Closed;
      failures := 0;
      halfOpenReqs := 0;
      halfOpenSuccess := 0;
      halfOpenFailure := 0;
    }

    /**
      A call with nobody else in between: `fails` says what the guarded function returns, `shouldCount`
      judges its error, and it only runs if `ran`.
     */
    method CallWithFailurePredicate(fails: bool, shouldCount: bool, start: int, end: int)
      returns (r: Admission, ran: bool)
      modifies this
      ensures ran <==> r == Admitted
      ensures var (admitted, verdict) := Before(old(Stats()), start);
              && r == verdict
              && Stats() == if !ran then admitted else if fails && shouldCount then Failed(admitted, end) else Passed(admitted)
    {
      r := BeforeRequest(start);
      ran := r == Admitted;
      if ran {
        var countFailure := fails;
        if countFailure {
          countFailure := shouldCount;
        }
        AfterRequestWithPolicy(fails, countFailure, end);
      }
    }

    method Call(fails: bool, start: int, end: int) returns (r: Admission, ran: bool)
      modifies this
      ensures ran <==> r == Admitted
      ensures var (admitted, verdict) := Before(old(Stats()), start);
              && r == verdict
              && Stats() == if !ran then admitted else if fails then Failed(admitted, end) else Passed(admitted)
    {
      r := BeforeRequest(start);
      ran := r == Admitted;
      if ran {
        AfterRequestWithPolicy(fails, true, end);
      }
    }
  }
}
