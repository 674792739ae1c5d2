/**
  Reconnect delays of the market-data connection: the policy's closed form, and the loop that sleeps and dials.
  Durations are exact reals here, in seconds.
 */
module Reconnect {

  // ---------------------------------------------------------------- the policy

  datatype WSPolicy = WSPolicy(enabled: bool, baseDelay: real, maxDelay: real, multiplier: real, maxAttempts: int)

  datatype ClientConfig = ClientConfig(reconnect: bool, delay: real, maxDelay: real, multiplier: real, max: int)

  function WithDefaults(p: WSPolicy): WSPolicy {
    WSPolicy(
      p.enabled,
      if p.baseDelay <= 0.0 then 2.0 else p.baseDelay,
      if p.maxDelay <= 0.0 then 30.0 else p.maxDelay,
      if p.multiplier <= 0.0 then 2.0 else p.multiplier,
      if p.maxAttempts < 0 then 5 else p.maxAttempts)
  }

  function Times(a: real, b: real): real {
    a * b
  }

  function Power(m: real, k: nat): real {
    if k == 0 then 1.0 else Times(m, Power(m, k - 1))
  }

  /** A delay under a cap. */
  function AtMost(delay: real, cap: real): real {
    if delay <= cap then delay else cap
  }

  /** The delay before the given attempt, and whether to make it at all. */
  function NextReconnectDelay(p: WSPolicy, attempt: int): (r: (real, bool)) {
    var n := WithDefaults(p);
    var a := if attempt <= 0 then 1 else attempt;
    if !n.enabled || (n.maxAttempts >= 0 && a > n.maxAttempts) then (0.0, false)
    else
      var delay := AtMost(Times(n.baseDelay, Power(n.multiplier, a - 1)), n.maxDelay);
      (if delay <= 0.0 then n.baseDelay else delay, true)
  }

  /** The client settings a policy asks for. */
  function ToCLOBConfig(p: WSPolicy): ClientConfig {
    var n := WithDefaults(p);
    ClientConfig(n.enabled, n.baseDelay, n.maxDelay, n.multiplier, n.maxAttempts)
  }

  /** The client normalizes whatever settings it is given. */
  function Normalized(c: ClientConfig): ClientConfig {
    ClientConfig(
      c.reconnect,
      if c.delay <= 0.0 then 2.0 else c.delay,
      if c.maxDelay <= 0.0 then 30.0 else c.maxDelay,
      if c.multiplier <= 0.0 then 2.0 else c.multiplier,
      if c.max < 0 then 5 else c.max)
  }

  // ---------------------------------------------------------------- the loop

  function FirstDelay(c: ClientConfig): real {
    if c.delay <= 0.0 then 1.0 else c.delay
  }

  /** The delay that follows a failed attempt. */
  function Grown(delay: real, maxDelay: real, multiplier: real): real {
    var next := Times(delay, multiplier);
    AtMost(if next <= 0.0 then delay else next, maxDelay)
  }

  function MaxDelay(c: ClientConfig): real {
    if c.maxDelay <= 0.0 then 30.0 else c.maxDelay
  }

  function Multiplier(c: ClientConfig): real {
    if c.multiplier <= 0.0 then 2.0 else c.multiplier
  }

  /** The k-th sleep of the loop, counting from zero. */
  function LoopDelay(c: ClientConfig, k: nat): real {
    if k == 0 then FirstDelay(c) else Grown(LoopDelay(c, k - 1), MaxDelay(c), Multiplier(c))
  }

  lemma LoopDelaySteps(c: ClientConfig)
    ensures LoopDelay(c, 0) == FirstDelay(c)
    ensures forall k: nat :: LoopDelay(c, k + 1) == Grown(LoopDelay(c, k), MaxDelay(c), Multiplier(c))
  {
    hide Grown;
  }

  ghost predicate GoesOn(c: ClientConfig, k: nat, closing: nat -> bool, connects: nat -> bool) {
    (c.max <= 0 || k < c.max) && !closing(k) && !connects(k)
  }

  /**
    Attempt k sleeps and then dials; `closing` and `connects` say what it finds. The loop makes attempts until
    one connects, the client closes or the limit is reached; `bound` is an attempt by which one of these happens.
   */
  method ReconnectLoop(c: ClientConfig, closing: nat -> bool, connects: nat -> bool, ghost bound: nat)
    returns (sleeps: seq<real>, connected: bool)
    requires !GoesOn(c, bound, closing, connects)
    ensures forall k :: 0 <= k < |sleeps| ==> sleeps[k] == LoopDelay(c, k)
    ensures forall k: nat :: k < |sleeps| ==> (c.max <= 0 || k < c.max) && !closing(k)
    ensures forall k: nat :: k + 1 < |sleeps| ==> !connects(k)
    ensures connected ==> |sleeps| > 0 && connects(|sleeps| - 1)
    ensures !connected ==> (|sleeps| > 0 ==> !connects(|sleeps| - 1)) && (closing(|sleeps|) || |sleeps| == c.max)
  {
    hide Times, LoopDelay;
    LoopDelaySteps(c);
    var delay := c.delay;
    if delay <= 0.0 {
      delay := 1.0;
    }
    var maxDelay := c.maxDelay;
    if maxDelay <= 0.0 {
      maxDelay := 30.0;
    }
    var multiplier := c.multiplier;
    if multiplier <= 0.0 {
      multiplier := 2.0;
    }
    sleeps, connected := [], false;
    var attempt := 0;
    while c.max <= 0 || attempt < c.max
      invariant 0 <= attempt == |sleeps| <= bound
      invariant c.max > 0 ==> attempt <= c.max
      invariant delay == LoopDelay(c, attempt) && maxDelay == MaxDelay(c) && multiplier == Multiplier(c)
      invariant forall k :: 0 <= k < |sleeps| ==> sleeps[k] == LoopDelay(c, k)
      invariant forall k: nat :: k < attempt ==> !closing(k) && !connects(k)
      decreases bound - attempt
    {
      if closing(attempt) {
        return;
      }
      sleeps := sleeps + [delay];
      if connects(attempt) {
        connected := true;
        return;
      }
      var nextDelay := Times(delay, multiplier);
      if nextDelay <= 0.0 {
        nextDelay := delay;
      }
      if nextDelay > maxDelay {
        nextDelay := maxDelay;
      }
      delay := nextDelay;
      attempt := attempt + 1;
    }
  }

  // ---------------------------------------------------------------- loop against policy

  lemma TimesPositive(a: real, b: real)
    requires a > 0.0 && b > 0.0
    ensures Times(a, b) > 0.0
  {
  }

  lemma TimesMonotone(a: real, b: real, m: real)
    requires a <= b && m > 0.0
    ensures Times(a, m) <= Times(b, m) && Times(m, a) <= Times(m, b)
  {
  }

  lemma TimesOne(a: real)
    ensures Times(a, 1.0) == Times(1.0, a) == a
  {
  }

  lemma TimesRegroup(a: real, b: real, c: real)
    ensures Times(a, Times(b, c)) == Times(Times(a, c), b)
  {
  }

  lemma {:induction false} PowerPositive(m: real, k: nat)
    requires m > 0.0
    ensures Power(m, k) > 0.0
  {
    hide Times;
    if k == 0 {
    } else {
      PowerPositive(m, k - 1);
      TimesPositive(m, Power(m, k - 1));
    }
  }

  lemma {:induction false} PowerBelow(m: real, k: nat)
    requires 0.0 < m <= 1.0
    ensures Power(m, k) <= 1.0
  {
    hide Times;
    if k == 0 {
    } else {
      PowerBelow(m, k - 1);
      PowerPositive(m, k - 1);
      TimesMonotone(m, 1.0, Power(m, k - 1));
      TimesOne(Power(m, k - 1));
    }
  }

  /** A delay that shrinks stays within the base. */
  lemma ScaledWithinBase(base: real, m: real, k: nat)
    requires base > 0.0 && m > 0.0
    ensures Times(base, Power(m, k)) > 0.0
    ensures m <= 1.0 ==> Times(base, Power(m, k)) <= base
  {
    hide Times, Power;
    PowerPositive(m, k);
    TimesPositive(base, Power(m, k));
    if m <= 1.0 {
      PowerBelow(m, k);
      TimesMonotone(Power(m, k), 1.0, base);
      TimesOne(base);
    }
  }

  /** Growing a capped delay and capping a grown one come to the same thing. */
  lemma GrowCapped(x: real, cap: real, m: real)
    requires x > 0.0 && cap > 0.0 && m > 0.0 && (m <= 1.0 ==> x <= cap)
    ensures Grown(AtMost(x, cap), cap, m) == AtMost(Times(x, m), cap)
  {
    hide Times;
    TimesPositive(x, m);
    TimesPositive(cap, m);
    if x > cap {
      TimesMonotone(1.0, m, cap);
      TimesMonotone(1.0, m, x);
      TimesOne(cap);
      TimesOne(x);
    }
  }

  /** Once the base is within the cap, the sleeps follow the closed form. */
  lemma {:induction false} LoopDelayClosedForm(c: ClientConfig, k: nat)
    requires 0.0 < c.delay <= c.maxDelay && c.multiplier > 0.0
    ensures LoopDelay(c, k) == AtMost(Times(c.delay, Power(c.multiplier, k)), c.maxDelay) > 0.0
  {
    hide Times, Grown;
    ScaledWithinBase(c.delay, c.multiplier, k);
    if k == 0 {
      TimesOne(c.delay);
    } else {
      LoopDelayClosedForm(c, k - 1);
      ScaledWithinBase(c.delay, c.multiplier, k - 1);
      GrowCapped(Times(c.delay, Power(c.multiplier, k - 1)), c.maxDelay, c.multiplier);
      TimesRegroup(c.delay, c.multiplier, Power(c.multiplier, k - 1));
    }
  }

  /**
    A client configured by a policy sleeps before attempt k for as long as the policy says, for every attempt the
    policy allows, exactly when the base delay is within the cap: the loop caps only the delays after the first.
   */
  lemma SleepsFollowPolicyIff(p: WSPolicy)
    ensures (forall k: nat :: NextReconnectDelay(p, k + 1).1 ==>
               LoopDelay(Normalized(ToCLOBConfig(p)), k) == NextReconnectDelay(p, k + 1).0)
            <==> (NextReconnectDelay(p, 1).1 ==> WithDefaults(p).baseDelay <= WithDefaults(p).maxDelay)
  {
    hide LoopDelay, Power, Times;
    var n := WithDefaults(p);
    var c := Normalized(ToCLOBConfig(p));
    if n.baseDelay <= n.maxDelay {
      forall k: nat ensures LoopDelay(c, k) == AtMost(Times(n.baseDelay, Power(n.multiplier, k)), n.maxDelay) > 0.0 {
        LoopDelayClosedForm(c, k);
      }
    } else if NextReconnectDelay(p, 1).1 {
      FirstSleep(p);
      assert NextReconnectDelay(p, 0 + 1).1;
    }
  }

  lemma FirstSleep(p: WSPolicy)
    requires p.enabled && WithDefaults(p).maxAttempts >= 1
    ensures LoopDelay(Normalized(ToCLOBConfig(p)), 0) == WithDefaults(p).baseDelay
    ensures NextReconnectDelay(p, 1) == (AtMost(WithDefaults(p).baseDelay, WithDefaults(p).maxDelay), true)
  {
    hide Times;
    TimesOne(WithDefaults(p).baseDelay);
    assert Power(WithDefaults(p).multiplier, 0) == 1.0;
  }

  /** The loop may make its k-th attempt, as far as its settings go. */
  predicate LoopAllows(c: ClientConfig, k: nat) {
    c.reconnect && (c.max <= 0 || k < c.max)
  }

  /** Policy and client allow the same attempts unless the policy allows none by number: the client then never gives up. */
  lemma SameAttemptsIff(p: WSPolicy)
    ensures (forall k: nat :: LoopAllows(Normalized(ToCLOBConfig(p)), k) <==> NextReconnectDelay(p, k + 1).1)
            <==> (p.enabled ==> p.maxAttempts != 0)
  {
    hide Power, Times;
    var c := Normalized(ToCLOBConfig(p));
    if p.enabled && p.maxAttempts == 0 {
      assert LoopAllows(c, 0) && !NextReconnectDelay(p, 0 + 1).1;
    }
  }

  /** A minute's base under a cap of half a minute: the loop first sleeps a minute, against the policy's half. */
  lemma FirstSleepIgnoresCap()
    ensures var p := WSPolicy(true, 60.0, 30.0, 2.0, 5);
            LoopDelay(Normalized(ToCLOBConfig(p)), 0) == 60.0 && NextReconnectDelay(p, 1) == (30.0, true)
  {
    hide Times;
    FirstSleep(WSPolicy(true, 60.0, 30.0, 2.0, 5));
  }

  /** A policy of no attempts configures a client that makes any number of them. */
  lemma NoAttemptsNeverGivesUp(p: WSPolicy, k: nat)
    requires p.enabled && p.maxAttempts == 0
    ensures !NextReconnectDelay(p, k + 1).1 && LoopAllows(Normalized(ToCLOBConfig(p)), k)
  {
    hide Power, Times;
  }

  /** Which attempts a policy allows, and its defaults: two seconds, half a minute, doubling, five attempts. */
  lemma AllowedAttempts(p: WSPolicy, attempt: int)
    ensures NextReconnectDelay(p, attempt).1 <==>
              p.enabled && (if attempt <= 1 then 1 else attempt) <= (if p.maxAttempts < 0 then 5 else p.maxAttempts)
    ensures attempt <= 1 ==> NextReconnectDelay(p, attempt) == NextReconnectDelay(p, 1)
    ensures !NextReconnectDelay(p, attempt).1 ==> NextReconnectDelay(p, attempt).0 == 0.0
  {
    hide Power, Times;
  }

  lemma DefaultDelays(attempts: int)
    requires attempts != 0
    ensures var p := WSPolicy(true, 0.0, 0.0, 0.0, attempts);
            (attempts != 1 ==> NextReconnectDelay(p, 2) == (4.0, true)) && NextReconnectDelay(p, 1) == (2.0, true)
            && (attempts < 0 || attempts >= 5 ==> NextReconnectDelay(p, 5) == (30.0, true))
  {
    assert Power(2.0, 0) == 1.0 && Power(2.0, 1) == 2.0 && Power(2.0, 2) == 4.0 && Power(2.0, 3) == 8.0 && Power(2.0, 4) == 16.0;
  }
}
