/** Retry policies and the arithmetic of their delays
    (crates/roos-scheduler/src/task.rs and scheduler.rs). */
module Backoff {
  import opened Common

  const U64_MAX: U64 := 0xFFFF_FFFF_FFFF_FFFF
  const I64_MAX: nat := 0x7FFF_FFFF_FFFF_FFFF

  /** The longest time span that `chrono::Duration::seconds` accepts, in either direction. */
  const MAX_DURATION: int := 9_223_372_036_854_775

  datatype RetryStrategy = Fixed | Exponential

  datatype RetryPolicy = RetryPolicy(maxRetries: U32, retryDelaySeconds: U64, strategy: RetryStrategy)

  const DEFAULT_POLICY := RetryPolicy(3, 60, Exponential)

  function Min(a: nat, b: nat): nat {
    if a <= b then a else b
  }

  function Pow2(n: nat): nat {
    if n == 0 then 1 else 2 * Pow2(n - 1)
  }

  function SaturatingMul(a: nat, b: nat): U64 {
    Min(a * b, U64_MAX)
  }

  /** `(retry_count - 1).min(62)` of a u32: below zero the difference wraps. */
  function Exponent(count: nat): nat {
    if count == 0 then 62 else Min(count - 1, 62)
  }

  /** The delay that the scheduler computes when the count has the given value, as a u64. */
  function DelaySecs(policy: RetryPolicy, count: nat): U64 {
    match policy.strategy
    case Fixed => policy.retryDelaySeconds
    case Exponential => SaturatingMul(policy.retryDelaySeconds, Pow2(Exponent(count)))
  }

  /** The delay that the policy documents: the base, or base * 2^(attempt-1). */
  function DocumentedDelay(policy: RetryPolicy, attempt: nat): nat
    requires attempt >= 1
  {
    match policy.strategy
    case Fixed => policy.retryDelaySeconds
    case Exponential => policy.retryDelaySeconds * Pow2(attempt - 1)
  }

  /** The cast `as i64` of a u64: two's complement. */
  function AsI64(u: U64): int {
    if u <= I64_MAX then u else u - U64_MAX - 1
  }

  /** The time span for a delay, or None where building it panics. */
  function DurationOf(delay: U64): Option<int> {
    var secs := AsI64(delay);
    if -MAX_DURATION <= secs <= MAX_DURATION then Some(secs) else None
  }

  // ── Powers of two ────────────────────────────────────────────────────────

  lemma {:induction false} Pow2Monotone(m: nat, n: nat)
    requires m <= n
    ensures 1 <= Pow2(m) <= Pow2(n)
    decreases n - m, m
  {
    if m == n {
      if m > 0 {
        Pow2Monotone(m - 1, m - 1);
      }
    } else {
      Pow2Monotone(m, n - 1);
    }
  }

  lemma Pow2Of62()
    ensures Pow2(62) == 0x4000_0000_0000_0000
  {
    assert Pow2(10) == 1024;
    assert Pow2(20) == 1024 * 1024;
    assert Pow2(30) == 1024 * 1024 * 1024;
    assert Pow2(40) == 1024 * 1024 * 1024 * 1024;
    assert Pow2(50) == 1024 * 1024 * 1024 * 1024 * 1024;
    assert Pow2(60) == 1024 * 1024 * 1024 * 1024 * 1024 * 1024;
  }

  lemma MulMonotone(a: nat, x: nat, y: nat)
    requires x <= y
    ensures a * x <= a * y
  {
  }

  // ── Laws of the back-off ─────────────────────────────────────────────────

  function Exponentially(base: U64): RetryPolicy {
    RetryPolicy(0, base, Exponential)
  }

  /** The power of two never overflows a u64, and delays never shrink from one failure to the next. */
  lemma DelayMonotone(policy: RetryPolicy, m: nat, n: nat)
    requires 1 <= m <= n
    ensures Pow2(Min(n - 1, 62)) <= U64_MAX
    ensures DelaySecs(policy, m) <= DelaySecs(policy, n)
  {
    Pow2Monotone(Min(n - 1, 62), 62);
    Pow2Of62();
    Pow2Monotone(Min(m - 1, 62), Min(n - 1, 62));
    MulMonotone(policy.retryDelaySeconds, Pow2(Min(m - 1, 62)), Pow2(Min(n - 1, 62)));
  }

  /** The delay doubles from failure n to n+1 exactly while the exponent is
      below its clamp and the product fits a u64. */
  lemma DelayDoublesExactly(base: U64, n: nat)
    requires n >= 1
    ensures var p := Exponentially(base);
            DelaySecs(p, n + 1) == 2 * DelaySecs(p, n) <==>
            base == 0 || (n <= 62 && base * Pow2(n) <= U64_MAX)
  {
    var p := Exponentially(base);
    if n <= 62 {
      assert base * Pow2(n) == 2 * (base * Pow2(n - 1));
    } else {
      Pow2Monotone(0, 62);
      MulMonotone(base, 1, Pow2(62));
    }
  }

  /** Both strategies start with the policy's own delay; the fixed one keeps it,
      and the documented exponential one doubles it with every failure. */
  lemma DelaysFromPolicy(policy: RetryPolicy, n: nat)
    requires n >= 1
    ensures DelaySecs(policy, 1) == DocumentedDelay(policy, 1) == policy.retryDelaySeconds
    ensures policy.strategy == Fixed ==> DelaySecs(policy, n) == DocumentedDelay(policy, n) == policy.retryDelaySeconds
    ensures policy.strategy == Exponential ==> DocumentedDelay(policy, n + 1) == 2 * DocumentedDelay(policy, n)
  {
    if policy.strategy.Exponential? {
      DoubleProduct(policy.retryDelaySeconds, Pow2(n - 1));
    }
  }

  lemma DoubleProduct(base: nat, x: nat)
    ensures base * (2 * x) == 2 * (base * x)
  {
  }

  function TotalDelay(policy: RetryPolicy, n: nat): nat {
    if n == 0 then 0 else TotalDelay(policy, n - 1) + DelaySecs(policy, n)
  }

  lemma SumStep(base: nat, a: nat)
    requires a >= 1
    ensures base * (a - 1) + base * a == base * (2 * a - 1)
  {
  }

  lemma Halves(base: nat, n: nat)
    requires n >= 1
    ensures base * Pow2(n - 1) <= base * Pow2(n)
    ensures Pow2(n - 1) >= 1
  {
    Pow2Monotone(n - 1, n);
    MulMonotone(base, Pow2(n - 1), Pow2(n));
  }

  /** Up to 63 unsaturated delays add up to base * (2^n - 1). */
  lemma {:induction false} DelaySum(base: U64, n: nat)
    requires n <= 63 && (n > 0 ==> base * Pow2(n - 1) <= U64_MAX)
    ensures TotalDelay(Exponentially(base), n) == base * (Pow2(n) - 1)
  {
    if n > 0 {
      Halves(base, n);
      if n > 1 {
        Halves(base, n - 1);
      }
      DelaySum(base, n - 1);
      SumStep(base, Pow2(n - 1));
    }
  }

  lemma ClampedDelayIsLong(base: U64, n: nat)
    requires n >= 1 && base * Pow2(n - 1) > MAX_DURATION
    ensures DelaySecs(Exponentially(base), n) > MAX_DURATION
  {
    if n > 63 {
      Pow2Of62();
      assert base >= 1;
      MulMonotone(Pow2(62), 1, base);
    }
  }

  lemma LateDelayIsLong(base: nat, n: nat)
    requires n > 63 && base >= 1
    ensures base * Pow2(n - 1) > MAX_DURATION
  {
    Pow2Of62();
    Pow2Monotone(62, n - 1);
    MulMonotone(Pow2(n - 1), 1, base);
  }

  /** The delay is the documented one, unless both are longer than a chrono duration. */
  lemma DelayAgainstDocumented(policy: RetryPolicy, attempt: nat)
    requires attempt >= 1
    ensures var delay, documented := DelaySecs(policy, attempt), DocumentedDelay(policy, attempt);
            if documented <= MAX_DURATION then delay == documented else delay > MAX_DURATION
  {
    var base := policy.retryDelaySeconds;
    if policy.strategy.Exponential? {
      if attempt > 63 && base >= 1 {
        LateDelayIsLong(base, attempt);
      }
      if base * Pow2(attempt - 1) > MAX_DURATION {
        ClampedDelayIsLong(base, attempt);
      }
    }
  }

  /** The waiting time is the documented one exactly when that fits a chrono
      duration. A longer one panics, or wraps to a negative time span. */
  lemma DocumentedExactly(policy: RetryPolicy, attempt: nat)
    requires attempt >= 1
    ensures DurationOf(DelaySecs(policy, attempt)) == Some(DocumentedDelay(policy, attempt)) <==>
            DocumentedDelay(policy, attempt) <= MAX_DURATION
  {
    hide DelaySecs, DocumentedDelay;
    DelayAgainstDocumented(policy, attempt);
  }

  /** A saturated back-off is a time span of minus one second. */
  lemma SaturatedIsMinusOne(policy: RetryPolicy, attempt: nat)
    requires policy.strategy == Exponential
    requires policy.retryDelaySeconds * Pow2(Exponent(attempt)) >= U64_MAX
    ensures DurationOf(DelaySecs(policy, attempt)) == Some(-1)
  {
  }

  /** The default policy waits 60, 120 and 240 seconds. */
  lemma DefaultPolicyDelays()
    ensures DelaySecs(DEFAULT_POLICY, 1) == 60 && DelaySecs(DEFAULT_POLICY, 2) == 120 && DelaySecs(DEFAULT_POLICY, 3) == 240
    ensures TotalDelay(DEFAULT_POLICY, 3) == 420 && DEFAULT_POLICY.maxRetries == 3
  {
    assert Pow2(1) == 2 && Pow2(2) == 4;
    assert TotalDelay(DEFAULT_POLICY, 2) == 180;
  }
}
