/** The worker's retry decision and its saturating exponential back-off. */
module RetryBackoff {
  import opened Prelude

  const I64_MAX: nat := 0x7FFF_FFFF_FFFF_FFFF
  const MAX_DELAY_SECONDS: nat := 3600

  function Pow2(e: nat): nat {
    if e == 0 then 1 else 2 * Pow2(e - 1)
  }

  function SaturatingMul(a: nat, b: nat): nat {
    if a * b > U64_MAX then U64_MAX else a * b
  }

  /** `2u64.saturating_pow(e)` */
  function SaturatingPow2(e: nat): nat {
    if Pow2(e) > U64_MAX then U64_MAX else Pow2(e)
  }

  function SaturatingSub(a: nat, b: nat): nat {
    if a >= b then a - b else 0
  }

  predicate ShouldRetry(attempts: nat, maxAttempts: nat) {
    attempts < maxAttempts
  }

  /** How often a job may run: the first time is free. */
  function Allowance(maxAttempts: nat): nat {
    if maxAttempts == 0 then 1 else maxAttempts
  }

  function RetryDelay(retryDelay: nat, attempts: nat): nat {
    var delay := SaturatingMul(retryDelay, SaturatingPow2(SaturatingSub(attempts, 1)));
    if delay > MAX_DELAY_SECONDS then MAX_DELAY_SECONDS else delay
  }

  /** The time handed to the backend with a failure: none means the failure is final. */
  function RetryAt(attempts: nat, maxAttempts: nat, retryDelay: nat, now: int): Option<int> {
    if ShouldRetry(attempts, maxAttempts) then Some(now + RetryDelay(retryDelay, attempts)) else None
  }

  lemma {:induction false} Pow2Positive(e: nat)
    ensures Pow2(e) >= 1
  {
    if e > 0 {
      Pow2Positive(e - 1);
    }
  }

  lemma {:induction false} Pow2Monotone(d: nat, e: nat)
    requires d <= e
    ensures Pow2(d) <= Pow2(e)
  {
    if d < e {
      Pow2Monotone(d, e - 1);
    }
  }

  lemma AtLeastFactor(a: nat, b: nat)
    requires a >= 1
    ensures a * b >= b
  {
  }

  /** Saturation never shows: the delay is the unbounded one, capped at an hour. */
  lemma DelayIsExact(retryDelay: nat, attempts: nat)
    requires retryDelay <= U64_MAX && 1 <= attempts <= U32_MAX
    ensures RetryDelay(retryDelay, attempts) == Min(MAX_DELAY_SECONDS, retryDelay * Pow2(attempts - 1))
    ensures RetryDelay(retryDelay, attempts) <= I64_MAX
  {
    var p := Pow2(attempts - 1);
    if p > U64_MAX && retryDelay >= 1 {
      AtLeastFactor(retryDelay, p);
      AtLeastFactor(retryDelay, U64_MAX);
    }
  }

  /** The delay starts at the configured one and doubles with every attempt, up to an hour. */
  lemma DelayDoubles(retryDelay: nat, attempts: nat)
    requires retryDelay <= U64_MAX && 1 <= attempts < U32_MAX
    ensures RetryDelay(retryDelay, 1) == if retryDelay < 3600 then retryDelay else 3600
    ensures RetryDelay(retryDelay, attempts + 1) == Min(3600, 2 * RetryDelay(retryDelay, attempts))
  {
    DelayIsExact(retryDelay, 1);
    DelayIsExact(retryDelay, attempts);
    DelayIsExact(retryDelay, attempts + 1);
    assert retryDelay * Pow2(attempts) == 2 * (retryDelay * Pow2(attempts - 1));
  }

  lemma DelayMonotone(retryDelay: nat, a: nat, b: nat)
    requires retryDelay <= U64_MAX && 1 <= a <= b <= U32_MAX
    ensures RetryDelay(retryDelay, a) <= RetryDelay(retryDelay, b)
  {
    DelayIsExact(retryDelay, a);
    DelayIsExact(retryDelay, b);
    Pow2Monotone(a - 1, b - 1);
    ScaledMonotone(retryDelay, Pow2(a - 1), Pow2(b - 1));
  }

  lemma ScaledMonotone(k: nat, x: nat, y: nat)
    requires x <= y
    ensures k * x <= k * y
  {
  }

  /** The delays a job waits before its attempts 2 .. `attempts + 1`, added up. */
  function TotalDelay(retryDelay: nat, attempts: nat): nat {
    if attempts == 0 then 0 else TotalDelay(retryDelay, attempts - 1) + RetryDelay(retryDelay, attempts)
  }

  /** A job that always fails waits at most an hour per retry. */
  lemma {:induction false} TotalDelayBound(retryDelay: nat, maxAttempts: nat)
    requires maxAttempts >= 1
    ensures TotalDelay(retryDelay, maxAttempts - 1) <= MAX_DELAY_SECONDS * (maxAttempts - 1)
  {
    if maxAttempts > 1 {
      TotalDelayBound(retryDelay, maxAttempts - 1);
    }
  }
}
