/** Every run of one rate limiter under a clock that never goes backwards. */
module LimiterRuns {
  import opened Numbers
  import opened RateLimiters

  /** An operation holding the lock at time `at`; a blocked Wait is a series of passes. */
  datatype Action = AcquireNow | Pass | Peek | StopNow
  datatype Step = Step(action: Action, at: real)

  function Apply(b: Bucket, step: Step): (Bucket, bool) {
    match step.action
    case AcquireNow => TryAcquire(b, step.at)
    case Pass => var (b', granted, done) := WaitPass(b, step.at); (b', granted)
    case Peek => (Refill(b, step.at), false)
    case StopNow => (b.(stopped := true), false)
  }

  ghost predicate Ordered(steps: seq<Step>, start: real) {
    && (steps != [] ==> start <= steps[0].at)
    && forall i, j :: 0 <= i <= j < |steps| ==> steps[i].at <= steps[j].at
  }

  function Final(b: Bucket, steps: seq<Step>): Bucket
    decreases |steps|
  {
    if steps == [] then b else Final(Apply(b, steps[0]).0, steps[1..])
  }

  /** Tokens handed out in the window (from, to]. */
  function GrantsIn(b: Bucket, steps: seq<Step>, from: real, to: real): nat
    decreases |steps|
  {
    if steps == [] then 0 else
    var (b', granted) := Apply(b, steps[0]);
    (if granted && from < steps[0].at <= to then 1 else 0) + GrantsIn(b', steps[1..], from, to)
  }

  lemma ApplySound(b: Bucket, step: Step)
    requires Sound(b) && b.lastRefill <= step.at
    ensures var (b', granted) := Apply(b, step);
            && Sound(b') && b.lastRefill <= b'.lastRefill <= step.at
            && b'.capacity == b.capacity && b'.tokensPerSec == b.tokensPerSec
  {
    RefillTwice(b, step.at, step.at);
  }

  lemma OrderedTail(steps: seq<Step>, start: real)
    requires Ordered(steps, start) && steps != []
    ensures Ordered(steps[1..], steps[0].at)
  {
    var rest := steps[1..];
    forall i, j | 0 <= i <= j < |rest| ensures rest[i].at <= rest[j].at {
      assert rest[i] == steps[i + 1] && rest[j] == steps[j + 1];
    }
  }

  /** Tokens stay between zero and the capacity. */
  lemma {:induction false} TokensStayInRange(b: Bucket, steps: seq<Step>)
    requires Sound(b) && Ordered(steps, b.lastRefill)
    ensures Sound(Final(b, steps)) && Final(b, steps).capacity == b.capacity
    decreases |steps|
  {
    if steps == [] {
    } else {
      ApplySound(b, steps[0]);
      OrderedTail(steps, b.lastRefill);
      TokensStayInRange(Apply(b, steps[0]).0, steps[1..]);
    }
  }

  /** What the bucket could hand out by time `to`, counting from time `from` at the latest refill. */
  ghost function Budget(b: Bucket, from: real, to: real): real {
    Refill(b, from).tokens + Credit(to - from, b.tokensPerSec)
  }

  /** Once the window has begun, grants are paid for by the tokens at hand and the time that remains. */
  lemma {:induction false} GrantsArePaidFor(b: Bucket, steps: seq<Step>, from: real, now: real, to: real)
    requires Sound(b) && b.lastRefill <= now && from <= now <= to && Ordered(steps, now)
    ensures GrantsIn(b, steps, from, to) as real <= Budget(b, now, to)
    decreases |steps|
  {
    hide Credit;
    RefillTwice(b, now, now);
    CreditFacts(0.0, to - now, b.tokensPerSec);
    if steps == [] {
    } else {
      var at := steps[0].at;
      var (b', granted) := Apply(b, steps[0]);
      OrderedTail(steps, now);
      if at <= to {
        ApplySound(b, steps[0]);
        GrantsArePaidFor(b', steps[1..], from, at, to);
        StepIsPaidFor(b, steps[0], now, to);
      } else {
        NothingAfter(b', steps[1..], from, at, to);
      }
    }
  }

  lemma StepIsPaidFor(b: Bucket, step: Step, now: real, to: real)
    requires Sound(b) && b.lastRefill <= now <= step.at <= to
    ensures var (b', granted) := Apply(b, step);
            Budget(b', step.at, to) + (if granted then 1.0 else 0.0) <= Budget(b, now, to)
  {
    hide Credit;
    RefillTwice(b, now, step.at);
    RefillTwice(b, step.at, step.at);
    var at, mid := step.at, Refill(b, now);
    RefillTwice(mid, at, at);
    CreditFacts(at - now, to - at, b.tokensPerSec);
    CreditFacts(0.0, at - now, b.tokensPerSec);
    var (b', granted) := Apply(b, step);
    RefillTwice(b', at, at);
    assert Refill(b, at).tokens <= mid.tokens + Credit(at - now, b.tokensPerSec);
    RefillAtOnce(b', at);
  }

  /** No time, no credit. */
  lemma RefillAtOnce(b: Bucket, now: real)
    requires Sound(b) && b.lastRefill <= now
    ensures b.lastRefill == now ==> Refill(b, now) == b
  {
  }

  lemma {:induction false} NothingAfter(b: Bucket, steps: seq<Step>, from: real, now: real, to: real)
    requires to < now && Ordered(steps, now)
    ensures GrantsIn(b, steps, from, to) == 0
    decreases |steps|
  {
    if steps == [] {
    } else {
      OrderedTail(steps, now);
      NothingAfter(Apply(b, steps[0]).0, steps[1..], from, steps[0].at, to);
    }
  }

  /** The bucket's promise: in every window (from, to], at most capacity + rate × length grants. */
  lemma {:induction false} WindowBound(b: Bucket, steps: seq<Step>, from: real, to: real)
    requires Sound(b) && Ordered(steps, b.lastRefill) && from <= to
    ensures GrantsIn(b, steps, from, to) as real <= b.capacity + Credit(to - from, b.tokensPerSec)
    decreases |steps|
  {
    hide Credit;
    CreditFacts(0.0, to - from, b.tokensPerSec);
    if steps == [] {
    } else {
      var at := steps[0].at;
      if at <= from {
        ApplySound(b, steps[0]);
        OrderedTail(steps, b.lastRefill);
        WindowBound(Apply(b, steps[0]).0, steps[1..], from, to);
      } else if at > to {
        NothingAfter(b, steps, from, at, to);
      } else {
        var now := if b.lastRefill <= from then from else b.lastRefill;
        GrantsArePaidFor(b, steps, from, now, to);
        RefillTwice(b, now, now);
        CreditFacts(to - now, now - from, b.tokensPerSec);
      }
    }
  }

  /** For a limiter made by the constructor, which falls back to ten requests per second. */
  lemma LimiterWindowBound(requestsPerSecond: int, created: real, steps: seq<Step>, from: real, to: real)
    requires Ordered(steps, created) && from <= to
    ensures var rps := (if requestsPerSecond <= 0 then 10 else requestsPerSecond) as real;
            GrantsIn(New(requestsPerSecond, created), steps, from, to) as real <= rps + Credit(to - from, rps)
  {
    WindowBound(New(requestsPerSecond, created), steps, from, to);
  }

  // ---------------------------------------------------------------- looking changes nothing

  /** The decisions of a run, without the looks. */
  function Decisions(b: Bucket, steps: seq<Step>): seq<bool>
    decreases |steps|
  {
    if steps == [] then [] else
    var (b', granted) := Apply(b, steps[0]);
    (if steps[0].action == Peek then [] else [granted]) + Decisions(b', steps[1..])
  }

  function WithoutPeeks(steps: seq<Step>): seq<Step> {
    if steps == [] then []
    else (if steps[0].action == Peek then [] else [steps[0]]) + WithoutPeeks(steps[1..])
  }

  ghost predicate NoStop(steps: seq<Step>) {
    forall i :: 0 <= i < |steps| ==> steps[i].action != StopNow
  }

  /** Two buckets that will be the same after the next refill. */
  ghost predicate Agree(a: Bucket, b: Bucket, now: real) {
    && Sound(a) && Sound(b) && !a.stopped && !b.stopped && a.lastRefill <= now && b.lastRefill <= now
    && Refill(a, now) == Refill(b, now)
  }

  lemma AgreeingStep(a: Bucket, b: Bucket, step: Step, now: real)
    requires Agree(a, b, now) && now <= step.at && step.action != StopNow
    ensures step.action == Peek ==> Agree(Apply(a, step).0, b, step.at)
    ensures step.action != Peek ==> Apply(a, step) == Apply(b, step) && Agree(Apply(a, step).0, Apply(b, step).0, step.at)
  {
    hide Credit;
    var at := step.at;
    RefillTwice(a, now, at);
    RefillTwice(b, now, at);
    RefillTwice(a, at, at);
    ApplySound(a, step);
  }

  lemma {:induction false} AgreeingRunsDecideAlike(a: Bucket, b: Bucket, steps: seq<Step>, now: real)
    requires Agree(a, b, now) && Ordered(steps, now) && NoStop(steps)
    ensures Decisions(a, steps) == Decisions(b, WithoutPeeks(steps))
    decreases |steps|
  {
    if steps == [] {
    } else {
      var step := steps[0];
      OrderedTail(steps, now);
      AgreeingStep(a, b, step, now);
      hide Apply, Agree;
      var rest := WithoutPeeks(steps[1..]);
      if step.action == Peek {
        AgreeingRunsDecideAlike(Apply(a, step).0, b, steps[1..], step.at);
        assert WithoutPeeks(steps) == rest;
        assert Decisions(a, steps) == Decisions(Apply(a, step).0, steps[1..]);
      } else {
        var kept := WithoutPeeks(steps);
        assert kept == [step] + rest;
        assert kept[1..] == rest;
        AgreeingRunsDecideAlike(Apply(a, step).0, Apply(b, step).0, steps[1..], step.at);
      }
    }
  }

  /** Asking how many tokens are available, anywhere in a run without Stop, changes no later decision. */
  lemma PeeksChangeNothing(b: Bucket, steps: seq<Step>)
    requires Sound(b) && !b.stopped && Ordered(steps, b.lastRefill) && NoStop(steps)
    ensures Decisions(b, steps) == Decisions(b, WithoutPeeks(steps))
  {
    AgreeingRunsDecideAlike(b, b, steps, b.lastRefill);
  }

  // ---------------------------------------------------------------- looking before Stop

  /** Acquires in a run. */
  function Acquires(steps: seq<Step>): nat {
    if steps == [] then 0 else (if steps[0].action == AcquireNow then 1 else 0) + Acquires(steps[1..])
  }

  /** The decisions once stopped, with n whole tokens left: the first n acquires are granted. */
  function Rationed(n: int, steps: seq<Step>): seq<bool>
    decreases |steps|
  {
    if steps == [] then []
    else match steps[0].action
      case Peek => Rationed(n, steps[1..])
      case AcquireNow => [n >= 1] + Rationed(if n >= 1 then n - 1 else n, steps[1..])
      case _ => [false] + Rationed(n, steps[1..])
  }

  lemma {:induction false} StoppedDecisions(b: Bucket, steps: seq<Step>)
    requires b.stopped && b.tokens >= 0.0
    ensures Decisions(b, steps) == Rationed(b.tokens.Floor, steps)
    decreases |steps|
  {
    hide Credit;
    if steps == [] {
    } else {
      StoppedDecisions(Apply(b, steps[0]).0, steps[1..]);
    }
  }

  lemma {:induction false} LooksAreNotRationed(n: int, steps: seq<Step>)
    ensures Rationed(n, WithoutPeeks(steps)) == Rationed(n, steps)
    ensures Acquires(WithoutPeeks(steps)) == Acquires(steps)
    decreases |steps|
  {
    if steps == [] {
    } else {
      var rest := WithoutPeeks(steps[1..]);
      LooksAreNotRationed(n, steps[1..]);
      LooksAreNotRationed(n - 1, steps[1..]);
      if steps[0].action == Peek {
        assert WithoutPeeks(steps) == rest;
      } else {
        assert WithoutPeeks(steps)[1..] == rest;
      }
    }
  }

  lemma {:induction false} SameRationIff(n: nat, m: nat, steps: seq<Step>)
    ensures Rationed(n, steps) == Rationed(m, steps) <==> Min(n, Acquires(steps)) == Min(m, Acquires(steps))
    decreases |steps|
  {
    if steps == [] {
    } else {
      var n', m' := if n >= 1 then n - 1 else n, if m >= 1 then m - 1 else m;
      SameRationIff(n, m, steps[1..]);
      SameRationIff(n', m', steps[1..]);
      HeadAndTail(n >= 1, Rationed(n', steps[1..]), m >= 1, Rationed(m', steps[1..]));
      HeadAndTail(false, Rationed(n, steps[1..]), false, Rationed(m, steps[1..]));
    }
  }

  lemma HeadAndTail(a: bool, xs: seq<bool>, b: bool, ys: seq<bool>)
    ensures [a] + xs == [b] + ys <==> a == b && xs == ys
  {
    assert ([a] + xs)[0] == a && ([b] + ys)[0] == b && ([a] + xs)[1..] == xs && ([b] + ys)[1..] == ys;
  }

  lemma {:induction false} DecisionsAppend(b: Bucket, xs: seq<Step>, ys: seq<Step>)
    ensures Decisions(b, xs + ys) == Decisions(b, xs) + Decisions(Final(b, xs), ys)
    decreases |xs|
  {
    hide Apply;
    if xs == [] {
      assert xs + ys == ys;
    } else {
      assert (xs + ys)[1..] == xs[1..] + ys;
      DecisionsAppend(Apply(b, xs[0]).0, xs[1..], ys);
    }
  }

  lemma {:induction false} WithoutPeeksAppend(xs: seq<Step>, ys: seq<Step>)
    ensures WithoutPeeks(xs + ys) == WithoutPeeks(xs) + WithoutPeeks(ys)
    decreases |xs|
  {
    if xs == [] {
      assert xs + ys == ys;
    } else {
      assert (xs + ys)[1..] == xs[1..] + ys;
      WithoutPeeksAppend(xs[1..], ys);
    }
  }

  lemma {:induction false} StaysSound(b: Bucket, steps: seq<Step>, start: real)
    requires Sound(b) && b.lastRefill <= start && Ordered(steps, start)
    ensures Sound(Final(b, steps)) && Sound(Final(b, WithoutPeeks(steps)))
    decreases |steps|
  {
    hide Apply;
    if steps == [] {
    } else {
      var rest := WithoutPeeks(steps[1..]);
      ApplySound(b, steps[0]);
      OrderedTail(steps, start);
      StaysSound(Apply(b, steps[0]).0, steps[1..], steps[0].at);
      if steps[0].action == Peek {
        assert WithoutPeeks(steps) == rest;
        StaysSound(b, steps[1..], steps[0].at);
      } else {
        assert WithoutPeeks(steps)[1..] == rest;
      }
    }
  }

  /** Decisions of a run from its Stop on. */
  lemma AfterStop(b: Bucket, at: real, after: seq<Step>)
    requires Sound(b)
    ensures Decisions(b, [Step(StopNow, at)] + after) == [false] + Rationed(b.tokens.Floor, after)
  {
    hide Credit, Rationed;
    assert ([Step(StopNow, at)] + after)[1..] == after;
    StoppedDecisions(b.(stopped := true), after);
  }

  /**
    Stop freezes the credit of the last refill. For any run that is stopped, with looks anywhere in it, the looks
    leave every decision as it was exactly if they leave as many of the later acquires covered by whole tokens.
   */
  lemma PeeksBeforeStopIff(b: Bucket, before: seq<Step>, at: real, after: seq<Step>)
    requires Sound(b) && !b.stopped && Ordered(before, b.lastRefill) && NoStop(before)
    ensures var steps := before + ([Step(StopNow, at)] + after);
            var seen, unseen := Final(b, before).tokens.Floor, Final(b, WithoutPeeks(before)).tokens.Floor;
            Decisions(b, steps) == Decisions(b, WithoutPeeks(steps))
            <==> Min(seen, Acquires(after)) == Min(unseen, Acquires(after))
  {
    hide Decisions, WithoutPeeks, Rationed, Acquires, Final;
    var stop := [Step(StopNow, at)];
    var quiet := WithoutPeeks(before);
    var seen, unseen := Final(b, before), Final(b, quiet);
    PeeksChangeNothing(b, before);
    StaysSound(b, before, b.lastRefill);
    DecisionsAppend(b, before, stop + after);
    WithoutPeeksAppend(before, stop + after);
    WithoutPeeksAppend(stop, after);
    StopIsKept(at);
    DecisionsAppend(b, quiet, stop + WithoutPeeks(after));
    AfterStop(seen, at, after);
    AfterStop(unseen, at, WithoutPeeks(after));
    LooksAreNotRationed(unseen.tokens.Floor, after);
    SameRationIff(seen.tokens.Floor, unseen.tokens.Floor, after);
    HeadAndTail(false, Rationed(seen.tokens.Floor, after), false, Rationed(unseen.tokens.Floor, after));
    SamePrefix(Decisions(b, before), [false] + Rationed(seen.tokens.Floor, after), [false] + Rationed(unseen.tokens.Floor, after));
  }

  lemma StopIsKept(at: real)
    ensures WithoutPeeks([Step(StopNow, at)]) == [Step(StopNow, at)]
  {
    assert [Step(StopNow, at)][1..] == [];
  }

  lemma SamePrefix(xs: seq<bool>, ys: seq<bool>, zs: seq<bool>)
    ensures xs + ys == xs + zs <==> ys == zs
  {
    assert (xs + ys)[|xs|..] == ys && (xs + zs)[|xs|..] == zs;
  }

  function Burst(n: nat, at: real): seq<Step> {
    if n == 0 then [] else [Step(AcquireNow, at)] + Burst(n - 1, at)
  }

  /** Acquires without any time between them take one token each. */
  lemma {:induction false} BurstTakes(b: Bucket, n: nat)
    requires Sound(b) && !b.stopped && b.tokens >= n as real
    ensures Final(b, Burst(n, b.lastRefill)) == b.(tokens := b.tokens - n as real)
    decreases n
  {
    hide Credit;
    if n == 0 {
    } else {
      var step := Step(AcquireNow, b.lastRefill);
      CreditFacts(0.0, 0.0, b.tokensPerSec);
      assert Apply(b, step).0 == b.(tokens := b.tokens - 1.0);
      assert Burst(n, b.lastRefill)[1..] == Burst(n - 1, b.lastRefill);
      BurstTakes(b.(tokens := b.tokens - 1.0), n - 1);
    }
  }

  lemma {:induction false} BurstShape(n: nat, at: real)
    ensures WithoutPeeks(Burst(n, at)) == Burst(n, at) && NoStop(Burst(n, at))
    ensures forall i :: 0 <= i < |Burst(n, at)| ==> Burst(n, at)[i].at == at
    ensures Acquires(Burst(n, at)) == n
  {
    if n == 0 {
    } else {
      BurstShape(n - 1, at);
      assert Burst(n, at)[1..] == Burst(n - 1, at);
    }
  }

  lemma {:induction false} FinalAppend(b: Bucket, xs: seq<Step>, ys: seq<Step>)
    ensures Final(b, xs + ys) == Final(Final(b, xs), ys)
    decreases |xs|
  {
    hide Apply;
    if xs == [] {
      assert xs + ys == ys;
    } else {
      assert (xs + ys)[1..] == xs[1..] + ys;
      FinalAppend(Apply(b, xs[0]).0, xs[1..], ys);
    }
  }

  /**
    A new limiter of ten requests per second, nine of them at once, and a look twelve hundredths later: the look
    lets a second acquire through after Stop, though a token was left either way.
   */
  lemma LookLetsSecondThrough()
    ensures var b := New(10, 0.0);
            var before := Burst(9, 0.0) + [Step(Peek, 0.12)];
            var steps := before + ([Step(StopNow, 0.12)] + Burst(2, 0.12));
            && Ordered(before, 0.0)
            && Final(b, before).tokens >= 1.0 && Final(b, WithoutPeeks(before)).tokens >= 1.0
            && Decisions(b, steps) != Decisions(b, WithoutPeeks(steps))
  {
    hide Burst, Final, WithoutPeeks, Decisions, Acquires, Credit;
    var b, look := New(10, 0.0), [Step(Peek, 0.12)];
    var before := Burst(9, 0.0) + look;
    BurstTakes(b, 9);
    BurstShape(9, 0.0);
    BurstShape(2, 0.12);
    FinalAppend(b, Burst(9, 0.0), look);
    WithoutPeeksAppend(Burst(9, 0.0), look);
    OneLook(b.(tokens := 1.0));
    PeeksBeforeStopIff(b, before, 0.12, Burst(2, 0.12));
    assert Burst(9, 0.0) + [] == Burst(9, 0.0);
  }

  lemma OneLook(b: Bucket)
    requires b == New(10, 0.0).(tokens := 1.0)
    ensures Final(b, [Step(Peek, 0.12)]).tokens == 2.2
    ensures WithoutPeeks([Step(Peek, 0.12)]) == []
  {
    assert [Step(Peek, 0.12)][1..] == [];
    assert Final(b, [Step(Peek, 0.12)]) == Refill(b, 0.12);
  }

  // ---------------------------------------------------------------- nothing is lost

  /** Tokens handed out in a run. */
  function Granted(b: Bucket, steps: seq<Step>): nat
    decreases |steps|
  {
    if steps == [] then 0 else (if Apply(b, steps[0]).1 then 1 else 0) + Granted(Apply(b, steps[0]).0, steps[1..])
  }

  /** The bucket never fills up, so that no credit spills. */
  ghost predicate NeverFull(b: Bucket, steps: seq<Step>)
    decreases |steps|
  {
    steps != [] ==>
      && b.tokens + Credit(steps[0].at - b.lastRefill, b.tokensPerSec) <= b.capacity
      && NeverFull(Apply(b, steps[0]).0, steps[1..])
  }

  lemma StepAccounted(b: Bucket, step: Step)
    requires Sound(b) && !b.stopped && step.action != StopNow && b.lastRefill <= step.at
    requires b.tokens + Credit(step.at - b.lastRefill, b.tokensPerSec) <= b.capacity
    ensures var (b', granted) := Apply(b, step);
            && !b'.stopped && b'.lastRefill == step.at
            && b'.tokens + (if granted then 1.0 else 0.0) == b.tokens + Credit(step.at - b.lastRefill, b.tokensPerSec)
            && (step.action != Peek ==> (granted <==> b.tokens + Credit(step.at - b.lastRefill, b.tokensPerSec) >= 1.0))
  {
    hide Credit;
  }

  /** Without Stop and spilling, tokens left and tokens granted add up to tokens at first and credit earned. */
  lemma {:induction false} TokensAreAccounted(b: Bucket, steps: seq<Step>)
    requires Sound(b) && !b.stopped && Ordered(steps, b.lastRefill) && NoStop(steps) && NeverFull(b, steps)
    ensures var last := Final(b, steps);
            last.tokens + Granted(b, steps) as real == b.tokens + Credit(last.lastRefill - b.lastRefill, b.tokensPerSec)
    decreases |steps|
  {
    hide Credit, Apply;
    CreditFacts(0.0, 0.0, b.tokensPerSec);
    if steps == [] {
    } else {
      var b' := Apply(b, steps[0]).0;
      ApplySound(b, steps[0]);
      OrderedTail(steps, b.lastRefill);
      StepAccounted(b, steps[0]);
      TokensAreAccounted(b', steps[1..]);
      var last := Final(b', steps[1..]);
      CreditFacts(steps[0].at - b.lastRefill, last.lastRefill - steps[0].at, b.tokensPerSec);
    }
  }
}
