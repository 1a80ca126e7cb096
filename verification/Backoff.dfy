/** Retry delays and the dead-letter rule (apps/edge/src/core/backoff.ts). */
module Backoff {
  import opened Wrappers

  function Pow2(k: nat): (r: nat)
    ensures r >= 1
  {
    if k == 0 then 1 else 2 * Pow2(k - 1)
  }

  function NextRetryDelay(retryCount: nat, baseMs: nat, maxMs: nat): nat {
    Min(maxMs, baseMs * Pow2(retryCount))
  }

  predicate ShouldRetry(retryCount: nat, maxRetries: nat) {
    retryCount < maxRetries
  }

  lemma {:induction false} DelayNonDecreasing(j: nat, k: nat, baseMs: nat, maxMs: nat)
    requires j <= k
    ensures NextRetryDelay(j, baseMs, maxMs) <= NextRetryDelay(k, baseMs, maxMs) <= maxMs
  {
    if j < k {
      DelayNonDecreasing(j, k - 1, baseMs, maxMs);
      assert baseMs * Pow2(k) == 2 * (baseMs * Pow2(k - 1));
    }
  }

  /** The first retry waits twice the base delay, each later one twice as long as the one before, both up
      to the cap. */
  lemma DelayDoubles(k: nat, baseMs: nat, maxMs: nat)
    ensures NextRetryDelay(1, baseMs, maxMs) == Min(maxMs, 2 * baseMs)
    ensures NextRetryDelay(k + 1, baseMs, maxMs) == Min(maxMs, 2 * NextRetryDelay(k, baseMs, maxMs))
  {
    assert baseMs * Pow2(1) == 2 * baseMs;
    assert baseMs * Pow2(k + 1) == 2 * (baseMs * Pow2(k));
  }
}
