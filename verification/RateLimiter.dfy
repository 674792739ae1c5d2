/**
  The token bucket. Tokens are not dripped in by a timer; each operation first credits what the time
  since the previous one was worth. Times are in seconds and arithmetic is exact.
 */
module RateLimiters {

  datatype Bucket = Bucket(capacity: real, tokensPerSec: real, tokens: real, lastRefill: real, stopped: bool)

  datatype WaitOutcome = Granted | Canceled | ContextDone

  function New(requestsPerSecond: int, now: real): Bucket {
    var rps := if requestsPerSecond <= 0 then 10 else requestsPerSecond;
    Bucket(rps as real, rps as real, rps as real, now, false)
  }

  /** Tokens earned in a stretch of time. */
  function Credit(elapsed: real, rate: real): real {
    elapsed * rate
  }

  function Refill(b: Bucket, now: real): Bucket {
    if b.stopped then b
    else
      var tokens := b.tokens + Credit(now - b.lastRefill, b.tokensPerSec);
      b.(tokens := if tokens > b.capacity then b.capacity else tokens, lastRefill := now)
  }

  function Take(b: Bucket): (Bucket, bool) {
    if b.tokens >= 1.0 then (b.(tokens := b.tokens - 1.0), true) else (b, false)
  }

  function TryAcquire(b: Bucket, now: real): (Bucket, bool) {
    Take(Refill(b, now))
  }

  /** One pass of the waiting loop, under the lock: None means "sleep and try again". */
  function WaitPass(b: Bucket, now: real): (Bucket, bool, bool) {
    if b.stopped then (b, false, true)
    else
      var (b', granted) := TryAcquire(b, now);
      (b', granted, granted)
  }

  /** How long the loop sleeps when a pass found too few tokens. */
  function SleepTime(b: Bucket): real
    requires b.tokensPerSec > 0.0
  {
    (1.0 - b.tokens) / b.tokensPerSec
  }

  /** The loop over the moments at which it gets the lock; running out of them is the context ending. */
  function WaitRun(b: Bucket, readings: seq<real>): (Bucket, WaitOutcome, nat)
    decreases |readings|
  {
    if readings == [] then (b, ContextDone, 0)
    else
      var (b', granted, done) := WaitPass(b, readings[0]);
      if done then (b', if granted then Granted else Canceled, 1)
      else
        var (b'', outcome, passes) := WaitRun(b', readings[1..]);
        (b'', outcome, passes + 1)
  }

  class RateLimiter {
    const capacity: int
    const tokensPerSec: real
    var tokens: real
    var lastRefill: real
    var stopped: bool

    function State(): Bucket
      reads this
    {
      Bucket(capacity as real, tokensPerSec, tokens, lastRefill, stopped)
    }

    constructor (requestsPerSecond: int, now: real)
      ensures State() == New(requestsPerSecond, now)
      ensures capacity == (if requestsPerSecond > 0 then requestsPerSecond else 10)
      ensures tokens == tokensPerSec == capacity as real && lastRefill == now && !stopped
    {
      var rps := if requestsPerSecond <= 0 then 10 else requestsPerSecond;
      capacity := rps;
      tokensPerSec := rps as real;
      tokens := rps as real;
      lastRefill := now;
      stopped := false;
    }

    method RefillTokens(now: real)
      modifies this
      ensures State() == Refill(old(State()), now)
    {
      if stopped {
        return;
      }
      var elapsed := now - lastRefill;
      tokens := tokens + elapsed * tokensPerSec;
      if tokens > capacity as real {
        tokens := capacity as real;
      }
      lastRefill := now;
    }

    method Acquire(now: real) returns (granted: bool)
      modifies this
      ensures (State(), granted) == TryAcquire(old(State()), now)
    {
      RefillTokens(now);
      if tokens >= 1.0 {
        tokens := tokens - 1.0;
        return true;
      }
      return false;
    }

    /** Blocks until a token is taken; nobody else uses the limiter meanwhile. */
    method Wait(readings: seq<real>) returns (outcome: WaitOutcome, passes: nat)
      modifies this
      ensures (State(), outcome, passes) == WaitRun(old(State()), readings)
    {
      passes := 0;
      var i := 0;
      while i < |readings|
        invariant 0 <= i == passes <= |readings|
        invariant var (b, o, p) := WaitRun(State(), readings[i..]);
                  (b, o, p + passes) == WaitRun(old(State()), readings)
      {
        assert readings[i..][0] == readings[i] && readings[i..][1..] == readings[i + 1..];
        passes := passes + 1;
        if stopped {
          return Canceled, passes;
        }
        RefillTokens(readings[i]);
        if tokens >= 1.0 {
          tokens := tokens - 1.0;
          return Granted, passes;
        }
        i := i + 1;
      }
      return ContextDone, passes;
    }

    method Stop()
      modifies this
      ensures State() == old(State()).(stopped := true)
    {
      stopped := true;
    }

    method Available(now: real) returns (n: int)
      modifies this
      ensures State() == Refill(old(State()), now) && n == State().tokens.Floor
    {
      RefillTokens(now);
      n := tokens.Floor;
    }
  }

  // ---------------------------------------------------------------- lazy refill is a faithful clock

  ghost predicate Sound(b: Bucket) {
    b.capacity >= 1.0 && b.tokensPerSec > 0.0 && 0.0 <= b.tokens <= b.capacity
  }

  lemma CreditFacts(a: real, b: real, rate: real)
    requires rate > 0.0
    ensures Credit(a + b, rate) == Credit(a, rate) + Credit(b, rate)
    ensures b >= 0.0 ==> Credit(b, rate) >= 0.0
    ensures Credit(0.0, rate) == 0.0
  {
  }

  /** Refilling twice is refilling once, later. */
  lemma RefillTwice(b: Bucket, t1: real, t2: real)
    requires Sound(b) && b.lastRefill <= t1 <= t2
    ensures Sound(Refill(b, t1)) && Refill(b, t1).tokens >= b.tokens
    ensures Refill(Refill(b, t1), t2) == Refill(b, t2)
  {
    hide Credit;
    CreditFacts(0.0, t1 - b.lastRefill, b.tokensPerSec);
    CreditFacts(t1 - b.lastRefill, t2 - t1, b.tokensPerSec);
  }

  lemma SleepIsEnough(b: Bucket, elapsed: real)
    requires Sound(b) && elapsed >= SleepTime(b)
    ensures b.tokens + Credit(elapsed, b.tokensPerSec) >= 1.0
  {
    CreditFacts(SleepTime(b), elapsed - SleepTime(b), b.tokensPerSec);
    assert Credit(SleepTime(b), b.tokensPerSec) == 1.0 - b.tokens;
  }

  /**
    Alone, a waiting caller is served on its second pass at the latest: if the first finds too little,
    sleeping for the computed time is enough.
   */
  lemma {:induction false} UncontendedWaitTakesTwoPasses(b: Bucket, t1: real, t2: real, rest: seq<real>)
    requires Sound(b) && !b.stopped && b.lastRefill <= t1
    requires t2 >= t1 + SleepTime(Refill(b, t1))
    ensures var (b', outcome, passes) := WaitRun(b, [t1, t2] + rest);
            outcome == Granted && passes == if Refill(b, t1).tokens >= 1.0 then 1 else 2
  {
    hide Credit;
    RefillTwice(b, t1, t1);
    var mid := Refill(b, t1);
    var readings := [t1, t2] + rest;
    assert readings[1..][0] == t2;
    if mid.tokens < 1.0 {
      SleepIsEnough(mid, t2 - t1);
      assert WaitPass(b, t1) == (mid, false, false);
      assert WaitRun(mid, readings[1..]).2 == 1;
    }
  }

  /** Readings of the clock, none before the previous. */
  ghost predicate Forward(readings: seq<real>, start: real) {
    && (readings != [] ==> start <= readings[0])
    && forall i, j :: 0 <= i <= j < |readings| ==> readings[i] <= readings[j]
  }

  /** The first reading by which there is a token to take. */
  ghost predicate FirstToken(b: Bucket, readings: seq<real>, n: int) {
    && 0 <= n < |readings| && Refill(b, readings[n]).tokens >= 1.0
    && forall i :: 0 <= i < n ==> Refill(b, readings[i]).tokens < 1.0
  }

  /**
    Waiting, with nobody else at the limiter: a stopped limiter cancels at once and keeps its tokens; otherwise the
    first reading that finds a token takes exactly one; and only if none does, the context ends the wait.
   */
  lemma {:induction false} WaitOutcomes(b: Bucket, readings: seq<real>)
    requires Sound(b) && Forward(readings, b.lastRefill)
    ensures var (b', outcome, passes) := WaitRun(b, readings);
            && (outcome == Canceled <==> b.stopped && readings != [])
            && (b.stopped ==> b' == b)
            && (outcome == Granted <==> !b.stopped && exists n :: FirstToken(b, readings, n))
            && (outcome == Granted ==>
                  && FirstToken(b, readings, passes - 1)
                  && b' == Refill(b, readings[passes - 1]).(tokens := Refill(b, readings[passes - 1]).tokens - 1.0))
    decreases |readings|
  {
    hide Credit;
    if readings == [] {
    } else if !b.stopped {
      RefillTwice(b, readings[0], readings[0]);
      var mid, rest := Refill(b, readings[0]), readings[1..];
      if mid.tokens >= 1.0 {
        assert FirstToken(b, readings, 0);
      } else {
        ForwardTail(readings, b.lastRefill);
        WaitOutcomes(mid, rest);
        FirstTokenLater(b, readings);
      }
    }
  }

  lemma ForwardTail(readings: seq<real>, start: real)
    requires Forward(readings, start) && readings != []
    ensures Forward(readings[1..], readings[0])
  {
    var rest := readings[1..];
    assert forall i :: 0 <= i < |rest| ==> rest[i] == readings[i + 1];
  }

  lemma FirstTokenLater(b: Bucket, readings: seq<real>)
    requires Sound(b) && Forward(readings, b.lastRefill) && readings != [] && Refill(b, readings[0]).tokens < 1.0
    ensures forall n :: FirstToken(Refill(b, readings[0]), readings[1..], n) <==> FirstToken(b, readings, n + 1)
    ensures forall n :: FirstToken(b, readings, n) ==> n >= 1 && FirstToken(Refill(b, readings[0]), readings[1..], n - 1)
    ensures forall i :: 0 <= i < |readings| - 1 ==> Refill(Refill(b, readings[0]), readings[1..][i]) == Refill(b, readings[i + 1])
  {
    var mid, rest := Refill(b, readings[0]), readings[1..];
    forall i | 0 <= i < |rest| ensures rest[i] == readings[i + 1] && Refill(mid, rest[i]) == Refill(b, readings[i + 1]) {
      assert readings[0] <= readings[i + 1];
      RefillTwice(b, readings[0], readings[i + 1]);
    }
    hide Refill;
    forall n
      ensures FirstToken(mid, rest, n) <==> FirstToken(b, readings, n + 1)
    {
      if FirstToken(mid, rest, n) {
        forall i | 0 <= i < n + 1 ensures Refill(b, readings[i]).tokens < 1.0 {
          assert i > 0 ==> Refill(mid, rest[i - 1]) == Refill(b, readings[i]);
        }
      }
      if FirstToken(b, readings, n + 1) && n >= 0 {
        forall i | 0 <= i < n ensures Refill(mid, rest[i]).tokens < 1.0 {
          assert Refill(mid, rest[i]) == Refill(b, readings[i + 1]);
        }
      }
    }
    forall n | FirstToken(b, readings, n) ensures n >= 1 && FirstToken(mid, rest, n - 1) {
      assert FirstToken(b, readings, (n - 1) + 1);
    }
  }

  /** The computed sleep is not a moment too long either: it earns exactly the token that is missing. */
  lemma SleepIsExact(b: Bucket)
    requires Sound(b) && !b.stopped && b.tokens < 1.0
    ensures SleepTime(b) > 0.0 && Refill(b, b.lastRefill + SleepTime(b)).tokens == 1.0
  {
    assert Credit(SleepTime(b), b.tokensPerSec) == 1.0 - b.tokens;
  }
}
