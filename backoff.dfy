/**
 The retry-delay formula of the price fetcher (`exponential_backoff`).

 The deterministic part is `Base(attempt) = min(factor ^ attempt, max_backoff)`,
 computed on unbounded integers exactly as Python does. The random part is
 injected: `r` stands for the one value `random.random()` yields, in [0, 1).
 In "full" mode the source calls `random.uniform(0, base)`, which is
 `0 + (base - 0) * random.random()`, so the delay is `base * r`; in every other
 mode the delay is `min(base + r, max_backoff)`.
 */
module Backoff {

  /** `factor ** exponent` on Python integers (no overflow, no rounding). */
  function Pow(factor: int, exponent: nat): int
  {
    if exponent == 0 then 1 else factor * Pow(factor, exponent - 1)
  }

  /** The deterministic, capped exponential curve. */
  function Base(attempt: nat, factor: int, maxBackoff: int): (b: int)
    ensures b <= maxBackoff && b <= Pow(factor, attempt)
    ensures b == maxBackoff || b == Pow(factor, attempt)
  {
    if Pow(factor, attempt) <= maxBackoff then Pow(factor, attempt) else maxBackoff
  }

  /** The delay, in seconds, before the retry that follows the failed `attempt`. */
  function ExponentialBackoff(attempt: nat, factor: int, maxBackoff: int, jitterMode: string, r: real): real
  {
    var base := Base(attempt, factor, maxBackoff) as real;
    if jitterMode == "full" then
      base * r
    else if base + r <= maxBackoff as real then
      base + r
    else
      maxBackoff as real
  }

  lemma {:induction false} PowAtLeastOne(factor: int, n: nat)
    requires factor >= 1
    ensures Pow(factor, n) >= 1
  {
    if n > 0 {
      PowAtLeastOne(factor, n - 1);
      assert factor * Pow(factor, n - 1) >= Pow(factor, n - 1) by {
        assert (factor - 1) * Pow(factor, n - 1) >= 0;
      }
    }
  }

  /** With a factor of at least one the exponential curve never goes down. */
  lemma {:induction false} PowMonotone(factor: int, m: nat, n: nat)
    requires factor >= 1 && m <= n
    ensures Pow(factor, m) <= Pow(factor, n)
  {
    if m < n {
      PowMonotone(factor, m, n - 1);
      PowAtLeastOne(factor, n - 1);
      assert factor * Pow(factor, n - 1) >= Pow(factor, n - 1) by {
        assert (factor - 1) * Pow(factor, n - 1) >= 0;
      }
    }
  }

  /** With a factor of at least two the curve outgrows every exponent. */
  lemma {:induction false} PowExceedsExponent(factor: int, n: nat)
    requires factor >= 2
    ensures Pow(factor, n) > n
  {
    if n > 0 {
      PowExceedsExponent(factor, n - 1);
      assert factor * Pow(factor, n - 1) >= 2 * Pow(factor, n - 1) by {
        assert (factor - 2) * Pow(factor, n - 1) >= 0;
      }
    }
  }

  /** The base is never negative once the cap is not negative. */
  lemma BaseNonNegative(attempt: nat, factor: int, maxBackoff: int)
    requires factor >= 1 && maxBackoff >= 0
    ensures 0 <= Base(attempt, factor, maxBackoff) <= maxBackoff
  {
    PowAtLeastOne(factor, attempt);
  }

  /** The base is non-decreasing in the attempt number. */
  lemma BaseMonotone(a: nat, b: nat, factor: int, maxBackoff: int)
    requires factor >= 1 && a <= b
    ensures Base(a, factor, maxBackoff) <= Base(b, factor, maxBackoff)
  {
    PowMonotone(factor, a, b);
  }

  /** Once `factor ^ a` reaches the cap, the base equals the cap at `a` and at every later attempt. */
  lemma BaseStaysSaturated(a: nat, b: nat, factor: int, maxBackoff: int)
    requires factor >= 1 && a <= b && Pow(factor, a) >= maxBackoff
    ensures Base(a, factor, maxBackoff) == maxBackoff
    ensures Base(b, factor, maxBackoff) == maxBackoff
  {
    PowMonotone(factor, a, b);
  }

  /** With a factor of at least two the base is the cap from attempt `max_backoff` on. */
  lemma BaseEventuallySaturates(attempt: nat, factor: int, maxBackoff: int)
    requires factor >= 2 && attempt >= maxBackoff
    ensures Base(attempt, factor, maxBackoff) == maxBackoff
  {
    PowExceedsExponent(factor, attempt);
  }

  /** Full jitter: the delay lies between zero and the base, hence below the cap. */
  lemma FullJitterBounds(attempt: nat, factor: int, maxBackoff: int, r: real)
    requires factor >= 1 && maxBackoff >= 0 && 0.0 <= r <= 1.0
    ensures var d := ExponentialBackoff(attempt, factor, maxBackoff, "full", r);
      0.0 <= d <= Base(attempt, factor, maxBackoff) as real <= maxBackoff as real
  {
    BaseNonNegative(attempt, factor, maxBackoff);
    var base := Base(attempt, factor, maxBackoff) as real;
    assert 0.0 <= base;
    NonNegativeProduct(base, r);
    NonNegativeProduct(base, 1.0 - r);
  }

  lemma NonNegativeProduct(x: real, y: real)
    requires 0.0 <= x && 0.0 <= y
    ensures 0.0 <= x * y
  {
  }

  /**
   Additive jitter, used for "random" and for every string other than "full":
   the delay is at least the base, at most the cap, and exceeds the base by less than a second.
   */
  lemma AdditiveJitterBounds(attempt: nat, factor: int, maxBackoff: int, jitterMode: string, r: real)
    requires jitterMode != "full" && 0.0 <= r < 1.0
    ensures var d := ExponentialBackoff(attempt, factor, maxBackoff, jitterMode, r);
      var base := Base(attempt, factor, maxBackoff) as real;
      base <= d <= maxBackoff as real && d < base + 1.0
      && (d == base + r || d == maxBackoff as real)
  {
  }

  /** In every mode the delay lies in [0, max_backoff]. */
  lemma DelayWithinCap(attempt: nat, factor: int, maxBackoff: int, jitterMode: string, r: real)
    requires factor >= 1 && maxBackoff >= 0 && 0.0 <= r < 1.0
    ensures 0.0 <= ExponentialBackoff(attempt, factor, maxBackoff, jitterMode, r) <= maxBackoff as real
  {
    if jitterMode == "full" {
      FullJitterBounds(attempt, factor, maxBackoff, r);
    } else {
      BaseNonNegative(attempt, factor, maxBackoff);
    }
  }

  /** With additive jitter and the same draw, a later attempt never waits less. */
  lemma AdditiveDelayMonotone(a: nat, b: nat, factor: int, maxBackoff: int, jitterMode: string, r: real)
    requires factor >= 1 && a <= b && jitterMode != "full"
    ensures ExponentialBackoff(a, factor, maxBackoff, jitterMode, r)
         <= ExponentialBackoff(b, factor, maxBackoff, jitterMode, r)
  {
    BaseMonotone(a, b, factor, maxBackoff);
  }

  /** With additive jitter, once the curve reaches the cap the cap absorbs the jitter. */
  lemma AdditiveDelaySaturates(a: nat, b: nat, factor: int, maxBackoff: int, jitterMode: string, r: real)
    requires factor >= 1 && a <= b && Pow(factor, a) >= maxBackoff
    requires jitterMode != "full" && 0.0 <= r
    ensures ExponentialBackoff(b, factor, maxBackoff, jitterMode, r) == maxBackoff as real
  {
    BaseStaysSaturated(a, b, factor, maxBackoff);
  }
}
