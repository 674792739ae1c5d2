/**
  Every interleaving of admissions, completions and resets of one circuit breaker.

  An episode is one stay in the half-open state. Calls admitted during it are its probes; calls
  admitted earlier may still complete while it lasts. The world keeps, beside the breaker, what an
  observer would write down: who is in flight, when failures were recorded, and the log of outcomes.
 */
module BreakerRuns {
  import opened CircuitBreakers

  datatype Mark = Fail | Good | Clear

  datatype World = World(
    breaker: Breaker,
    now: int,
    episode: nat,
    // calls in flight, with the episode each probes (0 for calls admitted while closed)
    inFlight: map<nat, nat>,
    nextCall: nat,
    failTimes: seq<int>,
    log: seq<Mark>,
    // in the current episode: probes admitted, and completions that did not count as failures
    probes: nat,
    passes: nat)

  datatype Step = Admit | Complete(call: nat, outcome: Outcome) | Reset | Tick(elapsed: nat)

  function Start(c: Config): World {
    World(New(c), 0, 0, map[], 0, [], [], 0, 0)
  }

  function Apply(w: World, step: Step): World {
    match step
    case Tick(elapsed) => w.(now := w.now + elapsed)
    case Reset => w.(breaker := Cleared(w.breaker), log := w.log + [Clear])
    case Admit =>
      var (b, verdict) := Before(w.breaker, w.now);
      var starts := w.breaker.state == Open && b.state == HalfOpen;
      var episode := if starts then w.episode + 1 else w.episode;
      var probes, passes := if starts then 0 else w.probes, if starts then 0 else w.passes;
      if verdict != Admitted then w.(breaker := b, episode := episode, probes := probes, passes := passes)
      else w.(breaker := b, episode := episode, nextCall := w.nextCall + 1,
              probes := if b.state == HalfOpen then probes + 1 else probes, passes := passes,
              inFlight := w.inFlight[w.nextCall := if b.state == HalfOpen then episode else 0])
    case Complete(call, outcome) =>
      if call !in w.inFlight then w
      else
        var b := After(w.breaker, outcome, w.now);
        var entry := if outcome == CountedError then [Fail] else [Good];
        var closing := if w.breaker.state == HalfOpen && b.state == Closed then [Clear] else [];
        w.(breaker := b, inFlight := w.inFlight - {call}, log := w.log + entry + closing,
           passes := if w.breaker.state == HalfOpen && outcome != CountedError then w.passes + 1 else w.passes,
           failTimes := if outcome == CountedError then w.failTimes + [w.now] else w.failTimes)
  }

  function Run(c: Config, steps: seq<Step>): World {
    if steps == [] then Start(c) else Apply(Run(c, steps[..|steps| - 1]), steps[|steps| - 1])
  }

  /** The probes of the current episode that have not completed. */
  function Probes(w: World): set<nat> {
    set call | call in w.inFlight && w.inFlight[call] == w.episode
  }

  /** Length of the run of counted failures at the end of the log. */
  function Trailing(log: seq<Mark>): nat {
    if log != [] && log[|log| - 1] == Fail then 1 + Trailing(log[..|log| - 1]) else 0
  }

  // ---------------------------------------------------------------- the invariant

  ghost predicate Counters(b: Breaker) {
    && b.config.maxFailures >= 1 && b.config.halfOpenMaxReqs >= 1
    && (b.state == Closed ==> 0 <= b.failures < b.config.maxFailures)
    && (b.state != Closed ==> b.failures == b.config.maxFailures)
    && (b.state == HalfOpen ==>
          && b.halfOpenFailure == 0
          && 1 <= b.halfOpenReqs <= b.config.halfOpenMaxReqs
          && 0 <= b.halfOpenSuccess < b.config.halfOpenMaxReqs)
  }

  /** The half-open counters are what an observer would count. */
  ghost predicate Observed(w: World) {
    w.breaker.state == HalfOpen ==> w.breaker.halfOpenReqs == w.probes && w.breaker.halfOpenSuccess == w.passes
  }

  ghost predicate Calls(w: World) {
    && (forall call :: call in w.inFlight ==> call < w.nextCall && w.inFlight[call] <= w.episode)
    && (w.breaker.state == HalfOpen ==>
          w.episode >= 1 && w.breaker.halfOpenReqs <= w.breaker.halfOpenSuccess + |Probes(w)|)
  }

  ghost predicate Times(w: World) {
    && (forall i :: 0 <= i < |w.failTimes| ==> w.failTimes[i] <= w.breaker.lastFailTime)
    && w.breaker.lastFailTime <= w.now
    && (w.breaker.state != Closed ==> w.breaker.lastFailTime in w.failTimes)
  }

  ghost predicate Logged(w: World) {
    w.breaker.state == Closed ==> w.breaker.failures == Trailing(w.log)
  }

  ghost predicate Inv(w: World) {
    Counters(w.breaker) && Calls(w) && Times(w) && Logged(w) && Observed(w)
  }

  lemma AdmitKeepsCalls(w: World)
    requires Inv(w)
    ensures Calls(Apply(w, Admit))
  {
    hide Times, Logged, Probes;
    AdmittedProbes(w);
  }

  /** An admitted probe joins the probes of its episode, and the first one starts them. */
  lemma AdmittedProbes(w: World)
    requires Inv(w)
    ensures var w' := Apply(w, Admit);
            Before(w.breaker, w.now).1 == Admitted && w'.breaker.state == HalfOpen ==>
              |Probes(w')| == if w.breaker.state == HalfOpen then |Probes(w)| + 1 else 1
  {
    hide Times, Logged;
    var w' := Apply(w, Admit);
    if Before(w.breaker, w.now).1 == Admitted && w'.breaker.state == HalfOpen {
      if w.breaker.state == HalfOpen {
        assert w.nextCall !in Probes(w);
        assert Probes(w') == Probes(w) + {w.nextCall};
      } else {
        assert Probes(w') == {w.nextCall};
      }
    }
  }

  lemma CompleteKeepsCalls(w: World, call: nat, outcome: Outcome)
    requires Inv(w)
    ensures Calls(Apply(w, Complete(call, outcome)))
  {
    var w' := Apply(w, Complete(call, outcome));
    assert Probes(w') == Probes(w) - {call};
  }

  lemma CompleteKeepsRest(w: World, call: nat, outcome: Outcome)
    requires Inv(w)
    ensures var w' := Apply(w, Complete(call, outcome));
            Counters(w'.breaker) && Times(w') && Logged(w')
  {
    var w' := Apply(w, Complete(call, outcome));
    if call in w.inFlight {
      if outcome == CountedError {
        assert w'.log[..|w'.log| - 1] == w.log;
        assert w'.failTimes[|w.failTimes|] == w.now;
      } else {
        assert w'.log[|w'.log| - 1] != Fail;
      }
    }
  }

  lemma StepKeepsInv(w: World, step: Step)
    requires Inv(w)
    ensures Inv(Apply(w, step))
  {
    match step
    case Tick(_) => assert Probes(Apply(w, step)) == Probes(w);
    case Reset =>
    case Admit => AdmitKeepsCalls(w);
    case Complete(call, outcome) =>
      CompleteKeepsCalls(w, call, outcome);
      CompleteKeepsRest(w, call, outcome);
  }

  lemma {:induction false} ReachableInv(c: Config, steps: seq<Step>)
    ensures Inv(Run(c, steps))
  {
    if steps == [] {
    } else {
      ReachableInv(c, steps[..|steps| - 1]);
      StepKeepsInv(Run(c, steps[..|steps| - 1]), steps[|steps| - 1]);
    }
  }

  // ---------------------------------------------------------------- what every run keeps

  /** The counters of a reachable breaker. */
  lemma {:induction false} ReachableCounters(c: Config, steps: seq<Step>)
    ensures Counters(Run(c, steps).breaker)
  {
    ReachableInv(c, steps);
  }

  /** The breaker never wedges: "too many requests" means that a probe of this episode is still in flight. */
  lemma RejectionMeansProbeInFlight(c: Config, steps: seq<Step>)
    ensures var w := Run(c, steps);
            Before(w.breaker, w.now).1 == TooManyRequests ==> w.breaker.state == HalfOpen && Probes(w) != {}
  {
    ReachableInv(c, steps);
  }

  /** With no call in flight, as for calls that never overlap, only an open circuit rejects. */
  lemma QuietBreakerRejectsOnlyWhenOpen(c: Config, steps: seq<Step>)
    requires Run(c, steps).inFlight == map[]
    ensures var w := Run(c, steps);
            Before(w.breaker, w.now).1 != TooManyRequests
  {
    RejectionMeansProbeInFlight(c, steps);
  }

  /** A call from the open state starts exactly when every failure ever recorded is older than the timeout. */
  lemma OpenAdmitsAfterTimeout(c: Config, steps: seq<Step>)
    requires Run(c, steps).breaker.state == Open
    ensures var w := Run(c, steps);
            Before(w.breaker, w.now).1 == Admitted
            <==> forall i :: 0 <= i < |w.failTimes| ==> w.now - w.failTimes[i] > w.breaker.config.resetTimeout
  {
    ReachableInv(c, steps);
  }

  /** While closed, the failure counter is the trailing run of counted failures in the log. */
  lemma ClosedCountsTrailingFailures(c: Config, steps: seq<Step>)
    requires Run(c, steps).breaker.state == Closed
    ensures Run(c, steps).breaker.failures == Trailing(Run(c, steps).log)
  {
    ReachableInv(c, steps);
  }

  lemma CompletionOpens(w: World, call: nat, outcome: Outcome)
    requires Inv(w) && w.breaker.state == Closed && call in w.inFlight
    ensures var w' := Apply(w, Complete(call, outcome));
            w'.breaker.state == Open <==> Trailing(w'.log) == w'.breaker.config.maxFailures
  {
    hide Calls, Times, Probes;
    var w' := Apply(w, Complete(call, outcome));
    assert w'.log[..|w'.log| - 1] == w.log;
  }

  /** It opens exactly on the maxFailures-th counted failure in a row. */
  lemma OpensOnTheLastFailureInARow(c: Config, steps: seq<Step>, call: nat, outcome: Outcome)
    requires Run(c, steps).breaker.state == Closed && call in Run(c, steps).inFlight
    ensures var w' := Run(c, steps + [Complete(call, outcome)]);
            w'.breaker.state == Open <==> Trailing(w'.log) == w'.breaker.config.maxFailures
  {
    hide Apply, Inv, Trailing;
    var all := steps + [Complete(call, outcome)];
    assert all[..|all| - 1] == steps;
    ReachableInv(c, steps);
    CompletionOpens(Run(c, steps), call, outcome);
  }

  // ---------------------------------------------------------------- every change of state

  /** Every failure ever recorded is older than the timeout. */
  ghost predicate TimeoutOver(w: World) {
    forall i :: 0 <= i < |w.failTimes| ==> w.now - w.failTimes[i] > w.breaker.config.resetTimeout
  }

  /** The state after a step, from what an observer has seen. */
  ghost function NextState(w: World, step: Step): State {
    match w.breaker.state
    case Closed =>
      // the maxFailures-th counted failure in a row opens it
      if step.Complete? && step.call in w.inFlight && step.outcome == CountedError
         && Trailing(w.log) + 1 == w.breaker.config.maxFailures then Open else Closed
    case Open =>
      // only a call after the timeout, or a reset, leaves it
      if step == Reset then Closed else if step == Admit && TimeoutOver(w) then HalfOpen else Open
    case HalfOpen =>
      // one counted failure reopens it; the halfOpenMaxReqs-th other completion closes it
      if step == Reset then Closed
      else if step.Complete? && step.call in w.inFlight then
        if step.outcome == CountedError then Open
        else if w.passes + 1 == w.breaker.config.halfOpenMaxReqs then Closed
        else HalfOpen
      else HalfOpen
  }

  /** What a caller is told, from what an observer has seen. */
  ghost function Verdict(w: World): Admission {
    match w.breaker.state
    case Closed => Admitted
    case Open => if TimeoutOver(w) then Admitted else CircuitOpen
    case HalfOpen => if w.probes < w.breaker.config.halfOpenMaxReqs then Admitted else TooManyRequests
  }

  lemma StateFollowsHistory(w: World, step: Step)
    requires Inv(w)
    ensures Apply(w, step).breaker.state == NextState(w, step)
    ensures Before(w.breaker, w.now).1 == Verdict(w)
    ensures Apply(w, step).breaker.config == w.breaker.config
  {
    hide Calls, Probes;
  }

  /** In every run the state and every verdict are those that the history calls for. */
  lemma RunFollowsHistory(c: Config, steps: seq<Step>, step: Step)
    ensures var w := Run(c, steps);
            && Run(c, steps + [step]).breaker.state == NextState(w, step)
            && Before(w.breaker, w.now).1 == Verdict(w)
  {
    hide Apply, Inv, NextState, Verdict, Before;
    var all := steps + [step];
    assert all[..|all| - 1] == steps;
    ReachableInv(c, steps);
    StateFollowsHistory(Run(c, steps), step);
  }

  /** Time a run lets pass. */
  function Elapsed(steps: seq<Step>): nat {
    if steps == [] then 0
    else (if steps[|steps| - 1].Tick? then steps[|steps| - 1].elapsed else 0) + Elapsed(steps[..|steps| - 1])
  }

  /**
    A failed probe reopens the breaker, and whatever happens next short of a reset, every call is refused until the
    timeout has passed.
   */
  lemma FailedProbeReopens(c: Config, steps: seq<Step>, call: nat, later: seq<Step>)
    requires Run(c, steps).breaker.state == HalfOpen && call in Run(c, steps).inFlight
    requires Elapsed(later) <= Run(c, steps).breaker.config.resetTimeout
    requires forall i :: 0 <= i < |later| ==> later[i] != Reset
    ensures var w := Run(c, steps + [Complete(call, CountedError)] + later);
            w.breaker.state == Open && Before(w.breaker, w.now).1 == CircuitOpen
  {
    hide Before, Trailing, TimeoutOver, NextState;
    var w := RefusedAfter(c, steps, call, later);
    RunFollowsHistory(c, steps + [Complete(call, CountedError)] + later, Reset);
  }

  lemma {:induction false} RefusedAfter(c: Config, steps: seq<Step>, call: nat, later: seq<Step>) returns (w: World)
    requires Run(c, steps).breaker.state == HalfOpen && call in Run(c, steps).inFlight
    requires Elapsed(later) <= Run(c, steps).breaker.config.resetTimeout
    requires forall i :: 0 <= i < |later| ==> later[i] != Reset
    ensures w == Run(c, steps + [Complete(call, CountedError)] + later) && w.breaker.state == Open && !TimeoutOver(w)
    ensures w.breaker.config == Run(c, steps).breaker.config
    ensures Run(c, steps).now + Elapsed(later) >= w.now && Run(c, steps).now in w.failTimes
    decreases |later|
  {
    hide Before, Inv, Trailing, TimeoutOver;
    var all := steps + [Complete(call, CountedError)] + later;
    w := Run(c, all);
    if later == [] {
      assert all[..|all| - 1] == steps;
      ReachableInv(c, steps);
      StateFollowsHistory(Run(c, steps), Complete(call, CountedError));
      assert w.failTimes[|w.failTimes| - 1] == Run(c, steps).now;
    } else {
      var shorter, last := later[..|later| - 1], later[|later| - 1];
      var before := RefusedAfter(c, steps, call, shorter);
      assert all[..|all| - 1] == steps + [Complete(call, CountedError)] + shorter;
      ReachableInv(c, all[..|all| - 1]);
      StateFollowsHistory(before, last);
      assert w == Apply(before, last);
      KeepsTimes(before, last);
    }
    TooEarly(w, Run(c, steps).now);
  }

  lemma KeepsTimes(w: World, step: Step)
    ensures var w' := Apply(w, step);
            && (forall t :: t in w.failTimes ==> t in w'.failTimes)
            && w'.now == w.now + (if step.Tick? then step.elapsed else 0)
  {
    hide Before, After;
  }

  lemma TooEarly(w: World, t: int)
    requires t in w.failTimes && w.now - t <= w.breaker.config.resetTimeout
    ensures !TimeoutOver(w)
  {
  }

  // ---------------------------------------------------------------- recovery

  /** One call that overlaps nothing and succeeds. */
  function SuccessfulCall(w: World): World {
    Apply(Apply(w, Admit), Complete(w.nextCall, Succeeded))
  }

  function SuccessfulCalls(w: World, n: nat): World
    decreases n
  {
    if n == 0 then w else SuccessfulCalls(SuccessfulCall(w), n - 1)
  }

  lemma SuccessfulProbe(w: World)
    requires Inv(w) && w.inFlight == map[] && w.breaker.state != Closed && Before(w.breaker, w.now).1 != CircuitOpen
    ensures var w' := SuccessfulCall(w);
            && Inv(w') && w'.inFlight == map[] && w'.breaker.config == w.breaker.config
            && Before(w.breaker, w.now).1 == Admitted
            && (w'.breaker.state == Closed || (w'.breaker.state == HalfOpen && w'.breaker.halfOpenSuccess
                  == (if w.breaker.state == HalfOpen then w.breaker.halfOpenSuccess else 0) + 1))
  {
    assert Probes(w) == {};
    StepKeepsInv(w, Admit);
    var mid := Apply(w, Admit);
    assert mid.inFlight - {w.nextCall} == map[];
    StepKeepsInv(mid, Complete(w.nextCall, Succeeded));
  }

  lemma {:induction false} ProbesClose(w: World, n: nat)
    requires Inv(w) && w.inFlight == map[] && w.breaker.state == HalfOpen
    requires n == w.breaker.config.halfOpenMaxReqs - w.breaker.halfOpenSuccess
    ensures exists k: nat :: k <= n && SuccessfulCalls(w, k).breaker.state == Closed
    decreases n
  {
    SuccessfulProbe(w);
    var w' := SuccessfulCall(w);
    var k := 0;
    if w'.breaker.state == HalfOpen {
      ProbesClose(w', n - 1);
      k :| 0 <= k <= n - 1 && SuccessfulCalls(w', k).breaker.state == Closed;
    }
    assert SuccessfulCalls(w, k + 1) == SuccessfulCalls(w', k);
  }

  /**
    Recovery: from any reachable moment with no call in flight and the timeout over, at most
    halfOpenMaxReqs successful calls in a row close the breaker.
   */
  lemma RecoversAfterTimeout(c: Config, steps: seq<Step>)
    requires var w := Run(c, steps);
             w.inFlight == map[] && w.breaker.state != Closed && Before(w.breaker, w.now).1 != CircuitOpen
    ensures var w := Run(c, steps);
            exists k: nat :: k <= w.breaker.config.halfOpenMaxReqs && SuccessfulCalls(w, k).breaker.state == Closed
  {
    var w := Run(c, steps);
    ReachableInv(c, steps);
    if w.breaker.state == HalfOpen {
      ProbesClose(w, w.breaker.config.halfOpenMaxReqs - w.breaker.halfOpenSuccess);
    } else {
      SuccessfulProbe(w);
      var w' := SuccessfulCall(w);
      var k := 0;
      if w'.breaker.state == HalfOpen {
        ProbesClose(w', w.breaker.config.halfOpenMaxReqs - 1);
        k :| 0 <= k < w.breaker.config.halfOpenMaxReqs && SuccessfulCalls(w', k).breaker.state == Closed;
      }
      assert SuccessfulCalls(w, k + 1) == SuccessfulCalls(w', k);
    }
  }
}
