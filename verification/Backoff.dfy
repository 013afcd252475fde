/** The delay between attempts of a replication job: a doubling loop on 64-bit durations. */
module Backoff {
  import opened Accounting

  function Pow2(n: nat): (p: nat)
    ensures p > 0
  {
    if n == 0 then 1 else 2 * Pow2(n - 1)
  }

  /** The delay the loop means to compute: base doubled with every further attempt, up to max. */
  function Ideal(base: int, max: int, attempts: int): int {
    var exact := base * Pow2(if attempts < 1 then 0 else attempts - 1);
    if exact > max then max else exact
  }

  /** The loop from a given delay, with n doublings to go. */
  function Doubled(delay: int, max: int, n: nat): int
    decreases n
  {
    if n == 0 then (if delay > max then max else delay)
    else if Wrap(2 * delay) >= max then max
    else Doubled(Wrap(2 * delay), max, n - 1)
  }

  function Delay(base: int, max: int, attempts: int): int {
    Doubled(base, max, if attempts < 1 then 0 else attempts - 1)
  }

  /** backoffFor */
  method BackoffFor(base: int, max: int, attempts: int) returns (delay: int)
    ensures delay == Delay(base, max, attempts)
  {
    var n := if attempts < 1 then 1 else attempts;
    delay := base;
    var index := 1;
    while index < n
      invariant 1 <= index <= n
      invariant Doubled(delay, max, n - index) == Delay(base, max, attempts)
    {
      delay := Wrap(delay * 2);
      if delay >= max { return max; }
      index := index + 1;
    }
    if delay > max { return max; }
  }

  /** The first delay of the doubling that reaches max, computed without a width. */
  function FirstReach(delay: int, max: int): int
    requires delay > 0
    decreases max - delay
  {
    if delay >= max then delay else FirstReach(2 * delay, max)
  }

  lemma {:induction false} FirstReachIs(delay: int, max: int) returns (k: nat)
    requires delay > 0
    ensures FirstReach(delay, max) == delay * Pow2(k) >= max
    ensures forall j: nat | j < k :: delay * Pow2(j) < max
    decreases max - delay
  {
    if delay >= max {
      k := 0;
    } else {
      var m := FirstReachIs(2 * delay, max);
      k := m + 1;
      DoubledPow2(delay, m);
      forall j: nat | j < k ensures delay * Pow2(j) < max {
        if j > 0 {
          assert 2 * delay * Pow2(j - 1) < max;
          DoubledPow2(delay, j - 1);
        }
      }
    }
  }

  lemma DoubledPow2(delay: int, n: nat)
    ensures 2 * delay * Pow2(n) == delay * Pow2(n + 1)
  {}

  lemma {:induction false} Pow2Grows(delay: int, m: nat, n: nat)
    requires delay > 0 && m <= n
    ensures delay * Pow2(m) <= delay * Pow2(n)
    decreases n
  {
    if m < n {
      Pow2Grows(delay, m, n - 1);
      DoubledPow2(delay, n - 1);
    }
  }

  /** While no doubling overflows the loop is exact. */
  lemma {:induction false} ExactWithoutOverflow(delay: int, max: int, n: nat)
    requires 0 < delay <= max <= MAX_INT64 && FirstReach(2 * delay, max) <= MAX_INT64
    ensures var exact := delay * Pow2(n); Doubled(delay, max, n) == if exact > max then max else exact
    decreases n
  {
    if n > 0 {
      DoubledPow2(delay, n - 1);
      if 2 * delay >= max {
        Pow2Grows(2 * delay, 0, n - 1);
      } else {
        ExactWithoutOverflow(2 * delay, max, n - 1);
      }
    }
  }

  /** k doublings below max, then one that leaves 64 bits: the delay turns negative. */
  lemma {:induction false} NegativeOnOverflow(delay: int, double: int, max: int, k: nat)
    requires 0 < delay <= max <= MAX_INT64 && double == 2 * delay
    requires forall j: nat | j < k :: double * Pow2(j) < max
    requires double * Pow2(k) > MAX_INT64
    ensures Doubled(delay, max, k + 1) < 0
    decreases k
  {
    if k > 0 {
      assert double * Pow2(0) < max;
      forall j: nat | j < k - 1 ensures 2 * double * Pow2(j) < max {
        DoubledPow2(double, j);
        assert double * Pow2(j + 1) < max;
      }
      DoubledPow2(double, k - 1);
      NegativeOnOverflow(double, 2 * double, max, k - 1);
    }
  }

  /** The loop computes min(base * 2^(n-1), max) for every n exactly when the doubling reaches
      max within 64 bits. Otherwise some delay comes out negative. */
  lemma BackoffIsExponentialIff(base: int, max: int)
    requires 0 < base <= max <= MAX_INT64
    ensures (forall n :: Delay(base, max, n) == Ideal(base, max, n)) <==> FirstReach(2 * base, max) <= MAX_INT64
  {
    if FirstReach(2 * base, max) <= MAX_INT64 {
      forall n ensures Delay(base, max, n) == Ideal(base, max, n) {
        ExactWithoutOverflow(base, max, if n < 1 then 0 else n - 1);
      }
    } else {
      var k := FirstReachIs(2 * base, max);
      NegativeOnOverflow(base, 2 * base, max, k);
      assert Delay(base, max, k + 2) < 0 <= Ideal(base, max, k + 2);
    }
  }

  /** In particular for every maximum up to 2^62 but for base = max = 2^62. */
  lemma {:induction false} BoundedMaximumNeverOverflows(base: int, max: int)
    requires 0 < base <= max <= 0x4000_0000_0000_0000 && base < 0x4000_0000_0000_0000
    ensures FirstReach(2 * base, max) <= MAX_INT64
    decreases max - base
  {
    if 2 * base < max {
      BoundedMaximumNeverOverflows(2 * base, max);
    }
  }

  lemma LargestPowerWraps()
    ensures Delay(0x4000_0000_0000_0000, 0x4000_0000_0000_0000, 2) == -0x8000_0000_0000_0000
  {
    var base := 0x4000_0000_0000_0000;
    assert Wrap(2 * base) == -0x8000_0000_0000_0000;
    assert Doubled(base, base, 1) == Doubled(Wrap(2 * base), base, 0);
  }
}
