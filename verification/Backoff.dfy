/** The capped doubling curve that the dispatcher and the circuit breaker both compute by a loop. */
module Backoff {
  import opened Wrappers

  function Pow2(n: nat): nat {
    if n == 0 then 1 else 2 * Pow2(n - 1)
  }

  /** min(base * 2^(n-1), cap) for the n-th attempt; attempts below one count as the first. */
  function Curve(base: Duration, cap: Duration, n: int): Duration {
    Min(base * Pow2(if n < 1 then 0 else n - 1), cap)
  }

  lemma {:induction false} Pow2Monotone(a: nat, b: nat)
    requires a <= b
    ensures 1 <= Pow2(a) <= Pow2(b)
    decreases b
  {
    if a < b {
      Pow2Monotone(a, b - 1);
    } else if a > 0 {
      Pow2Monotone(a - 1, a - 1);
    }
  }

  lemma MulMonotone(base: Duration, x: nat, y: nat)
    requires 0 <= base && x <= y
    ensures base * x <= base * y
  {
    assert base * y == base * x + base * (y - x);
  }

  /** Each attempt waits twice as long as the one before, up to the cap. */
  lemma CurveDoubles(base: Duration, cap: Duration, n: int)
    requires 0 < base && 0 < cap && n >= 1
    ensures Curve(base, cap, 1) == Min(base, cap)
    ensures Curve(base, cap, n + 1) == Min(2 * Curve(base, cap, n), cap)
  {
    assert base * Pow2(n) == 2 * (base * Pow2(n - 1));
    assert Pow2(0) == 1;
  }

  /** The curve never falls, starts at the base and stays under the cap. */
  lemma CurveMonotone(base: Duration, cap: Duration, m: int, n: int)
    requires 0 < base && 0 < cap && m <= n
    ensures 0 < Curve(base, cap, m) <= Curve(base, cap, n) <= cap
    ensures Curve(base, cap, 1) == Min(base, cap)
  {
    var a, b := if m < 1 then 0 else m - 1, if n < 1 then 0 else n - 1;
    Pow2Monotone(a, b);
    MulMonotone(base, 1, Pow2(a));
    MulMonotone(base, Pow2(a), Pow2(b));
  }
}
