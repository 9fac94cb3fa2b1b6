/**
 * The wait-time arithmetic of `wait_for_rate_limit` in
 * `tweet_harvest/features/backoff.py`: a capped exponential backoff.
 * The sleep and the log line are left out; the function returns the value
 * the source passes to `time.sleep` and then returns.
 */
module Backoff {

  const DefaultBase: int := 60
  const DefaultMax: int := 600

  /** `2 ** attempt` for a non-negative attempt. */
  function Pow2(attempt: nat): (p: nat)
    ensures p >= 1
  {
    if attempt == 0 then 1 else 2 * Pow2(attempt - 1)
  }

  function Min(a: int, b: int): int
  {
    if a <= b then a else b
  }

  /** `min(base_timeout_secs * (2 ** attempt), max_timeout_secs)`. */
  function WaitTime(attempt: nat, base: int, maxSecs: int): int
  {
    Min(base * Pow2(attempt), maxSecs)
  }

  /** The wait is the uncapped exponential value unless that exceeds the cap, and never exceeds the cap. */
  lemma WaitTimeCapped(attempt: nat, base: int, maxSecs: int)
    ensures WaitTime(attempt, base, maxSecs) <= maxSecs
    ensures WaitTime(attempt, base, maxSecs) <= base * Pow2(attempt)
    ensures WaitTime(attempt, base, maxSecs) == maxSecs || WaitTime(attempt, base, maxSecs) == base * Pow2(attempt)
  {
  }

  /** `2 ** attempt` is non-decreasing. */
  lemma {:induction false} Pow2Monotone(i: nat, j: nat)
    requires i <= j
    ensures Pow2(i) <= Pow2(j)
  {
    if i < j {
      Pow2Monotone(i, j - 1);
    }
  }

  /** With a non-negative base, a later attempt never waits less. */
  lemma WaitTimeMonotone(i: nat, j: nat, base: int, maxSecs: int)
    requires i <= j && base >= 0
    ensures WaitTime(i, base, maxSecs) <= WaitTime(j, base, maxSecs)
  {
    Pow2Monotone(i, j);
    assert base * Pow2(i) <= base * Pow2(j) by {
      MulMonotone(base, Pow2(i), Pow2(j));
    }
  }

  lemma MulMonotone(a: nat, x: nat, y: nat)
    requires x <= y
    ensures a * x <= a * y
  {
  }

  /** With the defaults (60, 600): 60, 120, 240, 480, and 600 from the fifth attempt on. */
  lemma {:induction false} DefaultSchedule(attempt: nat)
    ensures attempt == 0 ==> WaitTime(attempt, DefaultBase, DefaultMax) == 60
    ensures attempt == 1 ==> WaitTime(attempt, DefaultBase, DefaultMax) == 120
    ensures attempt == 2 ==> WaitTime(attempt, DefaultBase, DefaultMax) == 240
    ensures attempt == 3 ==> WaitTime(attempt, DefaultBase, DefaultMax) == 480
    ensures attempt >= 4 ==> WaitTime(attempt, DefaultBase, DefaultMax) == 600
  {
    if attempt >= 4 {
      Pow2Monotone(4, attempt);
      assert Pow2(4) == 16;
    } else {
      assert Pow2(1) == 2 && Pow2(2) == 4 && Pow2(3) == 8;
    }
  }
}
