/** The retry policy of failed calls: capped exponential backoff, computed by doubling 64-bit durations. */
module RetryBackoff {

  /** Durations are nanoseconds. */
  const DEFAULT_MAX_ATTEMPTS := 3
  const DEFAULT_BASE_BACKOFF := 150_000_000
  const DEFAULT_MAX_BACKOFF := 2_000_000_000

  const TWO_62 := 0x4000_0000_0000_0000
  const TWO_63 := 0x8000_0000_0000_0000
  const TWO_64 := 0x1_0000_0000_0000_0000

  type int64 = x: int | -0x8000_0000_0000_0000 <= x < 0x8000_0000_0000_0000

  datatype RetryPolicy = RetryPolicy(maxAttempts: int64, baseBackoff: int64, maxBackoff: int64)

  function WithDefaults(p: RetryPolicy): (q: RetryPolicy)
    ensures q.maxAttempts >= 2 && 0 < q.baseBackoff <= q.maxBackoff
    ensures p.maxAttempts >= 2 && 0 < p.baseBackoff <= p.maxBackoff ==> q == p
    ensures q.maxAttempts == (if p.maxAttempts < 2 then 3 else p.maxAttempts)
    ensures p.baseBackoff <= 0 ==> q.baseBackoff == 150_000_000
    ensures p.baseBackoff > 0 ==> q.baseBackoff == p.baseBackoff
    ensures p.maxBackoff <= 0 && q.baseBackoff <= 2_000_000_000 ==> q.maxBackoff == 2_000_000_000
    ensures p.maxBackoff >= q.baseBackoff ==> q.maxBackoff == p.maxBackoff
    ensures q.baseBackoff > 2_000_000_000 && p.maxBackoff < q.baseBackoff ==> q.maxBackoff == q.baseBackoff
  {
    var attempts := if p.maxAttempts < 2 then DEFAULT_MAX_ATTEMPTS else p.maxAttempts;
    var base := if p.baseBackoff <= 0 then DEFAULT_BASE_BACKOFF else p.baseBackoff;
    var cap := if p.maxBackoff <= 0 then DEFAULT_MAX_BACKOFF else p.maxBackoff;
    RetryPolicy(attempts, base, if base > cap then base else cap)
  }

  /** Doubling a 64-bit duration wraps around. */
  function Twice(d: int64): int64 {
    var r := 2 * d;
    if r >= TWO_63 then r - TWO_64 else if r < -TWO_63 then r + TWO_64 else r
  }

  /** `doublings` turns of the loop, starting from `delay`. */
  function Loop(delay: int64, cap: int64, doublings: nat): int64
    decreases doublings
  {
    if doublings == 0 then delay
    else if delay >= cap || Twice(delay) > cap then cap
    else Loop(Twice(delay), cap, doublings - 1)
  }

  function Doublings(attempt: int): nat {
    if attempt <= 1 then 0 else attempt - 1
  }

  method ComputeBackoff(p: RetryPolicy, attempt: int) returns (delay: int64)
    ensures delay == Loop(WithDefaults(p).baseBackoff, WithDefaults(p).maxBackoff, Doublings(attempt))
  {
    var n := WithDefaults(p);
    var a := if attempt <= 0 then 1 else attempt;
    delay := n.baseBackoff;
    var i := 1;
    while i < a
      invariant 1 <= i <= a
      invariant Loop(delay, n.maxBackoff, a - i) == Loop(n.baseBackoff, n.maxBackoff, Doublings(attempt))
    {
      if delay >= n.maxBackoff {
        return n.maxBackoff;
      }
      delay := Twice(delay);
      if delay > n.maxBackoff {
        return n.maxBackoff;
      }
      i := i + 1;
    }
  }

  // ---------------------------------------------------------------- the closed form

  function Pow2(k: nat): nat {
    if k == 0 then 1 else 2 * Pow2(k - 1)
  }

  /** The delay meant: the base doubled that often, capped. */
  function Capped(base: int, cap: int, doublings: nat): int {
    if base * Pow2(doublings) <= cap then base * Pow2(doublings) else cap
  }

  /** The largest doubling of a positive duration that 64 bits can hold. */
  function LargestDoubling(base: int): int
    requires 0 < base < TWO_63
    decreases TWO_63 - base
  {
    if base >= TWO_62 then base else LargestDoubling(2 * base)
  }

  lemma Pow2More(base: int, k: nat)
    ensures base * Pow2(k + 1) == (2 * base) * Pow2(k)
  {
  }

  lemma {:induction false} Pow2AtLeast(base: int, k: nat)
    requires base > 0
    ensures base * Pow2(k) >= base
  {
    if k == 0 {
    } else {
      Pow2AtLeast(base, k - 1);
    }
  }

  /** Below the overflow bound the loop computes the closed form. */
  lemma {:induction false} LoopIsCapped(base: int64, cap: int64, k: nat)
    requires 0 < base <= cap <= LargestDoubling(base)
    ensures Loop(base, cap, k) == Capped(base, cap, k)
    decreases k
  {
    if k == 0 {
    } else {
      Pow2More(base, k - 1);
      Pow2AtLeast(2 * base, k - 1);
      if base < cap && 2 * base <= cap {
        LoopIsCapped(2 * base, cap, k - 1);
      }
    }
  }

  /** Past it, some attempt's delay wraps to a negative one. */
  lemma {:induction false} LoopWraps(base: int64, cap: int64) returns (k: nat)
    requires 0 < base && cap > LargestDoubling(base)
    ensures Loop(base, cap, k) < 0
    decreases TWO_63 - base
  {
    LargestIsLarge(base);
    if base >= TWO_62 {
      k := 1;
      assert Loop(base, cap, 1) == Loop(Twice(base), cap, 0);
    } else {
      var j := LoopWraps(2 * base, cap);
      k := j + 1;
      LargestIsLarge(2 * base);
    }
  }

  lemma {:induction false} LargestIsLarge(base: int)
    requires 0 < base < TWO_63
    ensures base <= LargestDoubling(base) && TWO_62 <= LargestDoubling(base) < TWO_63
    decreases TWO_63 - base
  {
    if base >= TWO_62 {
    } else {
      LargestIsLarge(2 * base);
    }
  }

  function Backoff(p: RetryPolicy, attempt: int): int64 {
    Loop(WithDefaults(p).baseBackoff, WithDefaults(p).maxBackoff, Doublings(attempt))
  }

  predicate NoOverflow(p: RetryPolicy) {
    WithDefaults(p).maxBackoff <= LargestDoubling(WithDefaults(p).baseBackoff)
  }

  /** The backoff is min(base * 2^(attempt-1), max) for every attempt exactly when the cap is below the overflow bound. */
  lemma BackoffIsCappedIff(p: RetryPolicy)
    ensures NoOverflow(p) <==>
            forall attempt: int :: Backoff(p, attempt)
                                   == Capped(WithDefaults(p).baseBackoff, WithDefaults(p).maxBackoff, if attempt <= 1 then 0 else attempt - 1)
  {
    hide Loop, LargestDoubling, Capped;
    var q := WithDefaults(p);
    if NoOverflow(p) {
      forall attempt: int ensures Backoff(p, attempt) == Capped(q.baseBackoff, q.maxBackoff, Doublings(attempt)) {
        LoopIsCapped(q.baseBackoff, q.maxBackoff, Doublings(attempt));
      }
    } else {
      var k := LoopWraps(q.baseBackoff, q.maxBackoff);
      CappedIsPositive(q.baseBackoff, q.maxBackoff, k);
      assert Doublings(k + 1) == k;
      assert Backoff(p, k + 1) != Capped(q.baseBackoff, q.maxBackoff, Doublings(k + 1));
    }
  }

  lemma CappedIsPositive(base: int, cap: int, k: nat)
    requires 0 < base <= cap
    ensures base <= Capped(base, cap, k) <= cap
  {
    Pow2AtLeast(base, k);
  }

  /** A cap of at most 2^62 ns is always below the bound, whatever the base. */
  lemma SmallCapsAreSafe(p: RetryPolicy)
    requires WithDefaults(p).maxBackoff <= TWO_62
    ensures NoOverflow(p)
  {
    LargestIsLarge(WithDefaults(p).baseBackoff);
  }

  /** Delays never shrink from one attempt to a later one and stay between the base and the cap. */
  lemma BackoffIsMonotone(p: RetryPolicy, a: int, b: int)
    requires NoOverflow(p) && a <= b
    ensures WithDefaults(p).baseBackoff <= Backoff(p, a) <= Backoff(p, b) <= WithDefaults(p).maxBackoff
  {
    hide Loop, LargestDoubling;
    var q := WithDefaults(p);
    LoopIsCapped(q.baseBackoff, q.maxBackoff, Doublings(a));
    LoopIsCapped(q.baseBackoff, q.maxBackoff, Doublings(b));
    CappedIsPositive(q.baseBackoff, q.maxBackoff, Doublings(a));
    Pow2Monotone(q.baseBackoff, Doublings(a), Doublings(b));
  }

  lemma {:induction false} Pow2Monotone(base: int, j: nat, k: nat)
    requires base > 0 && j <= k
    ensures base * Pow2(j) <= base * Pow2(k)
  {
    if j == k {
    } else {
      Pow2Monotone(base, j, k - 1);
      Pow2AtLeast(base, k - 1);
      assert base * Pow2(k) == 2 * (base * Pow2(k - 1));
    }
  }

  /** Without the bound the delay can be negative. */
  lemma HugeCapWraps()
    ensures var p := RetryPolicy(5, 0x6000_0000_0000_0000, 0x7000_0000_0000_0000);
            Backoff(p, 2) == -0x4000_0000_0000_0000
  {
    var base: int64, cap: int64 := 0x6000_0000_0000_0000, 0x7000_0000_0000_0000;
    assert Twice(base) == -0x4000_0000_0000_0000;
    assert Loop(base, cap, 1) == Loop(Twice(base), cap, 0);
  }

  // ---------------------------------------------------------------- decisions

  datatype Reason = MaxAttemptsReached | RetryableError | RetryableStatus | NonRetryable
  datatype Decision = Decision(retry: bool, delay: int64, reason: Reason)

  predicate IsRetryableStatusCode(status: int) {
    status == 408 || 500 <= status <= 599
  }

  /** `retryableError` is the classification of the error itself. */
  method Decide(p: RetryPolicy, attempt: int, retryableError: bool, status: int) returns (d: Decision)
    ensures d.retry <==>
              attempt < WithDefaults(p).maxAttempts && (retryableError || status == 408 || 500 <= status <= 599)
    ensures d.delay == if d.retry then Backoff(p, attempt) else 0
    ensures d.reason == if attempt >= WithDefaults(p).maxAttempts then MaxAttemptsReached
                        else if retryableError then RetryableError
                        else if IsRetryableStatusCode(status) then RetryableStatus
                        else NonRetryable
  {
    var n := WithDefaults(p);
    var a := if attempt <= 0 then 1 else attempt;
    if a >= n.maxAttempts {
      return Decision(false, 0, MaxAttemptsReached);
    }
    if retryableError {
      var delay := ComputeBackoff(n, a);
      return Decision(true, delay, RetryableError);
    } else if IsRetryableStatusCode(status) {
      var delay := ComputeBackoff(n, a);
      return Decision(true, delay, RetryableStatus);
    } else {
      return Decision(false, 0, NonRetryable);
    }
  }
}
