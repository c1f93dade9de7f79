/** The bounded retry policy; durations are in nanoseconds. */
module Retry {
  const BASE_DELAY: nat := 500_000_000
  const DELAY_CAP: nat := 30_000_000_000
  const RETRY_AFTER_CAP: nat := 120_000_000_000
  const MAX_RETRIES: nat := 8

  datatype FailureClass =
    | Permanent
    | Protocol
    | RateLimit
    | Transient
    | Overloaded
    | ContextOverflow
    | OutputLimit
    | ClassCancelled

  predicate Retryable(c: FailureClass) {
    c.RateLimit? || c.Transient? || c.Overloaded?
  }

  function Pow2(n: nat): nat {
    if n == 0 then 1 else 2 * Pow2(n - 1)
  }

  lemma {:induction false} Pow2Grows(m: nat, n: nat)
    requires m <= n
    ensures 1 <= Pow2(m) <= Pow2(n)
    decreases n
  {
    if m < n { Pow2Grows(m, n - 1); } else if m > 0 { Pow2Grows(m - 1, m - 1); }
  }

  /** The capped power of two. */
  function BackoffOf(retry: nat): nat {
    if BASE_DELAY * Pow2(retry) < DELAY_CAP then BASE_DELAY * Pow2(retry) else DELAY_CAP
  }

  /** Doubling with a cap is the capped power of two. */
  method RetryDelay(retry: nat) returns (delay: nat)
    ensures delay == BackoffOf(retry)
  {
    delay := BASE_DELAY;
    for i := 0 to retry
      invariant delay == BASE_DELAY * Pow2(i)
    {
      if delay >= DELAY_CAP {
        Pow2Grows(i, retry);
        return DELAY_CAP;
      }
      delay := delay * 2;
    }
    if delay > DELAY_CAP { return DELAY_CAP; }
  }

  /** The wait before the next attempt: the server's own hint capped at two minutes, otherwise the
      jittered backoff, never negative. */
  function DelayOf(retry: nat, retryAfter: int, jitter: int -> int): nat {
    if retryAfter > RETRY_AFTER_CAP then RETRY_AFTER_CAP
    else if retryAfter > 0 then retryAfter
    else if jitter(BackoffOf(retry)) < 0 then 0
    else jitter(BackoffOf(retry))
  }

  /** Half a second, doubled with every retry up to half a minute. */
  lemma Schedule(retry: nat)
    ensures BackoffOf(retry) ==
              if retry == 0 then 500_000_000
              else if retry == 1 then 1_000_000_000
              else if retry == 2 then 2_000_000_000
              else if retry == 3 then 4_000_000_000
              else if retry == 4 then 8_000_000_000
              else if retry == 5 then 16_000_000_000
              else 30_000_000_000
  {
    assert Pow2(6) == 64 by {
      assert Pow2(2) == 4;
      assert Pow2(4) == 16;
    }
    if retry > 6 { Pow2Grows(6, retry); }
  }

  /** A hint of the server is taken as it is, up to two minutes; without one the jitter has the last word,
      as long as it is not negative. */
  method NextDelay(retry: nat, retryAfter: int, jitter: int -> int) returns (delay: nat)
    ensures delay == DelayOf(retry, retryAfter, jitter)
    ensures retryAfter > 0 ==> delay == if retryAfter > 120_000_000_000 then 120_000_000_000 else retryAfter
    ensures retryAfter <= 0 && jitter(BackoffOf(retry)) >= 0 ==> delay == jitter(BackoffOf(retry))
    ensures retryAfter <= 0 && jitter(BackoffOf(retry)) < 0 ==> delay == 0
  {
    var d: int := RetryDelay(retry);
    if retryAfter > 0 {
      d := retryAfter;
      if d > RETRY_AFTER_CAP { d := RETRY_AFTER_CAP; }
    } else {
      d := jitter(d);
    }
    if d < 0 { d := 0; }
    return d;
  }
}
