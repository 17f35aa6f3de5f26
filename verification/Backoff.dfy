/** The reconnect delay: doubling in 32-bit arithmetic, capped. */
module Backoff {
  import opened Arithmetic

  const TWO_TO_THE_31: nat := 0x8000_0000
  const TWO_TO_THE_32: nat := 0x1_0000_0000

  function Min(x: nat, y: nat): nat { if x < y then x else y }

  function Max(x: nat, y: nat): nat { if x < y then y else x }

  /** The first delay and the cap that `run_stratum_loop` derives from the configuration. */
  function FirstDelay(initialSec: nat): nat { Max(1, initialSec) }

  function DelayCap(initialSec: nat, maxSec: nat): nat { Max(FirstDelay(initialSec), maxSec) }

  /** Never less than a second, and never less than the first delay. */
  lemma FirstAndCap(initialSec: nat, maxSec: nat)
    ensures FirstDelay(0) == 1 && (initialSec >= 1 ==> FirstDelay(initialSec) == initialSec)
    ensures DelayCap(initialSec, maxSec) == (if maxSec >= FirstDelay(initialSec) then maxSec else FirstDelay(initialSec))
  {
  }

  /** The next delay; the doubling wraps around at 2^32. */
  function NextDelay(delay: nat, cap: nat): nat { Min(cap, (delay * 2) % TWO_TO_THE_32) }

  /** The delay before the `k`-th retry, counted from 0. */
  function Delay(first: nat, cap: nat, k: nat): nat {
    if k == 0 then first else NextDelay(Delay(first, cap, k - 1), cap)
  }

  /** Exponential backoff as intended. */
  function ExponentialDelay(first: nat, cap: nat, k: nat): nat { Min(cap, first * Power2(k)) }

  lemma DoubleOfMin(p: nat, cap: nat)
    requires cap < TWO_TO_THE_31
    ensures NextDelay(Min(cap, p), cap) == Min(cap, 2 * p)
  {
  }

  lemma {:induction false} Doubles(first: nat, cap: nat, k: nat)
    requires cap < TWO_TO_THE_31
    ensures NextDelay(ExponentialDelay(first, cap, k), cap) == ExponentialDelay(first, cap, k + 1)
  {
    var p := first * Power2(k);
    assert first * Power2(k + 1) == 2 * p;
    DoubleOfMin(p, cap);
  }

  lemma {:induction false} DelayIsExponential(first: nat, cap: nat, k: nat)
    requires first <= cap < TWO_TO_THE_31
    ensures Delay(first, cap, k) == ExponentialDelay(first, cap, k)
  {
    if k > 0 {
      DelayIsExponential(first, cap, k - 1);
      Doubles(first, cap, k - 1);
    }
  }

  lemma {:induction false} Grows(first: nat, k: nat)
    requires first >= 1
    ensures first * Power2(k) >= Power2(k)
    ensures first * Power2(k + 1) >= first * Power2(k)
  {
    Product(first, Power2(k));
  }

  lemma Product(first: nat, p: nat)
    requires first >= 1
    ensures first * p >= p && first * (2 * p) == 2 * (first * p)
  {
    assert first * p == (first - 1) * p + p;
  }

  lemma Power31()
    ensures Power2(31) == TWO_TO_THE_31
  {
    assert Power2(8) == 256;
    assert Power2(16) == 0x1_0000;
    assert Power2(24) == 0x100_0000;
  }

  /** With a cap of 2^31 or more the delay drops below the intended one by retry 32. */
  lemma {:induction false} DelayWraps(first: nat, cap: nat)
    requires 1 <= first <= cap && TWO_TO_THE_31 <= cap < TWO_TO_THE_32
    ensures exists k :: Delay(first, cap, k) != ExponentialDelay(first, cap, k)
  {
    Power31();
    Grows(first, 31);
    var v := ExponentialDelay(first, cap, 31);
    assert TWO_TO_THE_31 <= v < TWO_TO_THE_32;
    if Delay(first, cap, 31) == v {
      assert (v * 2) % TWO_TO_THE_32 == v * 2 - TWO_TO_THE_32 < v;
      assert Delay(first, cap, 32) < v <= ExponentialDelay(first, cap, 32);
    }
  }

  /** The exact condition: the delays are the capped powers of two iff the cap is below 2^31. */
  lemma {:induction false} ExponentialIffCapBelow31Bits(first: nat, cap: nat)
    requires 1 <= first <= cap < TWO_TO_THE_32
    ensures (forall k :: Delay(first, cap, k) == ExponentialDelay(first, cap, k)) <==> cap < TWO_TO_THE_31
  {
    if cap < TWO_TO_THE_31 {
      forall k ensures Delay(first, cap, k) == ExponentialDelay(first, cap, k) { DelayIsExponential(first, cap, k); }
    } else {
      DelayWraps(first, cap);
    }
  }

  /** At first = cap = 2^31 every delay after the first is 0: the client reconnects without pause. */
  lemma {:induction false} DelayCollapses(k: nat)
    requires k >= 1
    ensures Delay(TWO_TO_THE_31, TWO_TO_THE_31, k) == 0
  {
    if k > 1 { DelayCollapses(k - 1); }
  }
}
