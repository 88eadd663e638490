/**
 The retry delay of a failed convergence attempt.  Durations are nanoseconds, the unit of the
 source's `time.Duration`, which is a signed 64-bit integer.
 */
module Backoff {
  const SECOND: int := 1_000_000_000
  const RETRY_BASE: int := 5 * SECOND
  const RETRY_CAP: int := 300 * SECOND
  const INT64_MAX: int := 0x7fff_ffff_ffff_ffff

  function Pow2(n: nat): (r: nat)
    ensures r >= 1
  {
    if n == 0 then 1 else 2 * Pow2(n - 1)
  }

  function Min(a: int, b: int): int { if a <= b then a else b }

  /** The closed form: the base doubled once per attempt after the first, capped. */
  function NextBackoff(attempts: int): int {
    Min(RETRY_CAP, RETRY_BASE * Pow2(if attempts < 1 then 0 else attempts - 1))
  }

  lemma {:induction false} Pow2Monotone(m: nat, n: nat)
    requires m <= n
    ensures Pow2(m) <= Pow2(n)
    decreases n
  {
    if m < n {
      Pow2Monotone(m, n - 1);
    }
  }

  /** A later attempt never waits less, and every wait is between the base and the cap. */
  lemma BackoffIsMonotone(a: int, b: int)
    requires a <= b
    ensures RETRY_BASE <= NextBackoff(a) <= NextBackoff(b) <= RETRY_CAP
  {
    Pow2Monotone(if a < 1 then 0 else a - 1, if b < 1 then 0 else b - 1);
  }

  /** Five seconds at first; from the seventh attempt on five minutes; in between it exactly doubles. */
  lemma BackoffDoublesThenStays(k: int)
    ensures k <= 1 ==> NextBackoff(k) == 5_000_000_000
    ensures k >= 7 ==> NextBackoff(k) == 300_000_000_000
    ensures 1 <= k < 6 ==> NextBackoff(k + 1) == 2 * NextBackoff(k)
  {
    assert Pow2(3) == 8;
    assert Pow2(6) == 64;
    if k >= 7 {
      Pow2Monotone(6, k - 1);
    } else if k >= 1 {
      Pow2Monotone(k - 1, 5);
      assert Pow2(5) == 32;
    }
  }

  /**
   The doubling loop with its early return.  `d` never leaves the signed 64-bit range, whatever the
   attempt count.
   */
  method NextBackoffLoop(attempts: int) returns (delay: int)
    ensures delay == NextBackoff(attempts)
  {
    var n := if attempts < 1 then 1 else attempts;
    var d := RETRY_BASE;
    var i := 1;
    while i < n
      invariant 1 <= i <= n
      invariant d == RETRY_BASE * Pow2(i - 1)
      invariant d < RETRY_CAP
    {
      assert 0 <= d * 2 <= INT64_MAX;
      d := d * 2;
      if d >= RETRY_CAP {
        Pow2Monotone(i, n - 1);
        return RETRY_CAP;
      }
      i := i + 1;
    }
    if d > RETRY_CAP {
      return RETRY_CAP;
    }
    return d;
  }
}
