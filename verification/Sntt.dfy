/** The integer filter that smooths a neighbour's measured transport time, and where it settles. */
module Sntt {
  import opened Common

  const SAMPLE_MAX := 600000

  /** A raw sample in milliseconds; None is one that is not a finite number. */
  function ClampSample(sample: Option<real>): (s: nat)
    ensures s <= SAMPLE_MAX
  {
    if sample.None? || sample.value < 0.0 then 0 else Min(sample.value.Floor, SAMPLE_MAX)
  }

  function Denominator(gainShift: nat): (d: nat)
    ensures d >= 1 && (gainShift >= 1 ==> d % 2 == 0)
  {
    if gainShift == 0 then 1 else 2 * Denominator(gainShift - 1)
  }

  /** One step of the filter, rounding to nearest. */
  function Smoothed(x: nat, sample: nat, d: nat): nat
    requires d >= 1
  {
    ((d - 1) * x + sample + d / 2) / d
  }

  /** None in `x` is a filter without a sample yet; None as result is a gain out of range, where the original throws. */
  function Update(x: Option<nat>, sample: Option<real>, gainShift: int): Option<nat> {
    if gainShift < 1 || gainShift > 8 then None
    else if x.None? then Some(ClampSample(sample))
    else Some(Smoothed(x.value, ClampSample(sample), Denominator(gainShift)))
  }

  // ---- One step --------------------------------------------------------------------------------------------

  /** The step is the rounded share of the distance to the sample. */
  lemma StepIs(x: nat, sample: nat, d: nat)
    requires d >= 1
    ensures Smoothed(x, sample, d) == x + (sample - x + d / 2) / d
  {
    var shift := sample - x + d / 2;
    var q := shift / d;
    assert shift == q * d + shift % d;
    assert (d - 1) * x + sample + d / 2 == (x + q) * d + shift % d by {
      assert (x + q) * d == x * d + q * d;
      assert (d - 1) * x == x * d - x;
    }
    DivisionIs((d - 1) * x + sample + d / 2, x + q, d, shift % d);
  }

  lemma ProductGrows(a: int, b: int, d: nat)
    ensures a <= b ==> a * d <= b * d
  {
  }

  lemma DivisionIs(n: int, q: int, d: nat, r: int)
    requires d >= 1 && n == q * d + r && 0 <= r < d
    ensures n / d == q
  {
    var p := n / d;
    assert n == p * d + n % d;
    ProductGrows(q + 1, p, d);
    ProductGrows(p + 1, q, d);
    assert (q + 1) * d == q * d + d && (p + 1) * d == p * d + d;
  }

  /** The distance within which rounding hides the sample. */
  predicate Settled(x: nat, sample: nat, d: nat) {
    -(d / 2) <= sample - x < d - d / 2
  }

  /** A step moves toward the sample without passing it, and stands still exactly when settled. */
  lemma StepMoves(x: nat, sample: nat, d: nat)
    requires d >= 2 && d % 2 == 0
    ensures var y := Smoothed(x, sample, d);
            && Min(x, sample) <= y <= Max(x, sample)
            && (y == x <==> Settled(x, sample, d))
  {
    StepIs(x, sample, d);
    var half, delta := d / 2, sample - x;
    var q, r := (delta + half) / d, (delta + half) % d;
    Division(delta + half, d);
    assert q * (2 * half) == q * d;
    StepBounds(delta, half, q, r);
    assert Smoothed(x, sample, d) == x + q;
  }

  lemma Division(n: int, d: nat)
    requires d >= 1
    ensures n == (n / d) * d + n % d && 0 <= n % d < d
  {
  }

  /** How a rounded share `q` of a distance lies between nothing and all of it. */
  lemma StepBounds(delta: int, half: int, q: int, r: int)
    requires half >= 1 && delta + half == q * (2 * half) + r && 0 <= r < 2 * half
    ensures q >= 1 ==> q <= delta
    ensures q <= -1 ==> delta <= q
    ensures q == 0 <==> -half <= delta < half
  {
    var p := q * half;
    assert q * (2 * half) == p + p;
    ProductGrows(1, q, half);
    ProductGrows(q, -1, half);
    HalfGrows(half, q);
    assert q >= 1 ==> p >= half && p >= q;
    assert q <= -1 ==> p <= -half && p <= q;
  }

  lemma HalfGrows(half: int, q: int)
    requires half >= 1
    ensures q >= 0 ==> q * half >= q
    ensures q <= 0 ==> q * half <= q
  {
    assert q * half == q * (half - 1) + q;
  }

  /** Once seeded, the filter stays within 0..600000 whatever it is fed. */
  lemma StaysInRange(x: Option<nat>, sample: Option<real>, gainShift: int)
    requires x.Some? ==> x.value <= SAMPLE_MAX
    ensures Update(x, sample, gainShift).Some? <==> 1 <= gainShift <= 8
    ensures Update(x, sample, gainShift).Some? ==> Update(x, sample, gainShift).value <= SAMPLE_MAX
  {
    if 1 <= gainShift <= 8 && x.Some? {
      StepMoves(x.value, ClampSample(sample), Denominator(gainShift));
    }
  }

  // ---- A constant sample -----------------------------------------------------------------------------------

  function Steps(x: nat, sample: nat, d: nat, n: nat): nat
    requires d >= 1
  {
    if n == 0 then x else Smoothed(Steps(x, sample, d, n - 1), sample, d)
  }

  function Distance(x: nat, sample: nat): nat {
    if x < sample then sample - x else x - sample
  }

  lemma {:induction false} StepsApproach(x: nat, sample: nat, d: nat, n: nat)
    requires d >= 2 && d % 2 == 0
    ensures var y := Steps(x, sample, d, n);
            Settled(y, sample, d) || Distance(y, sample) + n <= Distance(x, sample)
    ensures Min(x, sample) <= Steps(x, sample, d, n) <= Max(x, sample)
  {
    if n > 0 {
      StepsApproach(x, sample, d, n - 1);
      StepMoves(Steps(x, sample, d, n - 1), sample, d);
    }
  }

  /**
   * Under a constant sample the filter settles within as many steps as it started away from the sample, having
   * approached it from one side, and from then on it does not move.
   */
  lemma Settles(x: nat, sample: nat, gainShift: nat, n: nat)
    requires 1 <= gainShift <= 8 && n >= Distance(x, sample)
    ensures var d := Denominator(gainShift);
            && Settled(Steps(x, sample, d, n), sample, d)
            && Steps(x, sample, d, n + 1) == Steps(x, sample, d, n)
            && Min(x, sample) <= Steps(x, sample, d, n) <= Max(x, sample)
  {
    var d := Denominator(gainShift);
    StepsApproach(x, sample, d, n);
    StepMoves(Steps(x, sample, d, n), sample, d);
  }

  // ---- How fast --------------------------------------------------------------------------------------------

  /** How far outside the rounding band the filter is. */
  function Excess(x: nat, sample: nat, half: nat): (e: nat)
    ensures half >= 1 ==> (e == 0 <==> Settled(x, sample, 2 * half))
    ensures half >= 1 ==> e <= Distance(x, sample)
  {
    ExcessOf(sample - x, half)
  }

  function ExcessOf(delta: int, half: nat): nat {
    if delta >= half then delta - half + 1 else if delta + half < 0 then -(delta + half) else 0
  }

  /** A step takes off at least its share of the excess. */
  lemma ExcessShrinks(x: nat, sample: nat, d: nat)
    requires d >= 2 && d % 2 == 0
    ensures Share(d, Excess(x, sample, d / 2), Excess(Smoothed(x, sample, d), sample, d / 2))
  {
    StepIs(x, sample, d);
    StepMoves(x, sample, d);
    var delta, half := sample - x, d / 2;
    var q, r := (delta + half) / d, (delta + half) % d;
    Division(delta + half, d);
    StepShares(delta, half, d, q, r);
    assert ExcessOf(delta - q, half) == Excess(Smoothed(x, sample, d), sample, half);
  }

  /** What is left of `before` has lost a `d`th of it. */
  predicate Share(d: nat, before: nat, left: nat) {
    left <= before && d * (before - left) >= before
  }

  lemma StepShares(delta: int, half: nat, d: nat, q: int, r: int)
    requires half >= 1 && d == 2 * half && delta + half == q * d + r && 0 <= r < d
    requires if delta < 0 then delta <= delta - q <= 0 else 0 <= delta - q <= delta
    ensures Share(d, ExcessOf(delta, half), ExcessOf(delta - q, half))
  {
    var e, left := ExcessOf(delta, half), ExcessOf(delta - q, half);
    if e == 0 || left == 0 {
      ProductGrows(1, d, e);
      assert d * e == e * d;
    } else if delta >= half {
      assert e - left == q;
      assert d * (e - left) == q * d;
    } else {
      assert e - left == -q;
      assert d * (e - left) == -(q * d);
    }
  }

  function ExcessAfter(x: nat, sample: nat, d: nat, n: nat): nat
    requires d >= 2
  {
    Excess(Steps(x, sample, d, n), sample, d / 2)
  }

  /** Shares of at least half of `e`, taken `n` times from `e`. */
  predicate Spent(d: nat, e: nat, left: nat, n: nat) {
    left <= e && (2 * left <= e || 2 * (d * (e - left)) >= n * e)
  }

  /** Until the excess has halved, every step takes at least the `2 * d`th part of what it was. */
  lemma {:induction false} LosesShare(x: nat, sample: nat, d: nat, n: nat)
    requires d >= 2 && d % 2 == 0
    ensures Spent(d, Excess(x, sample, d / 2), ExcessAfter(x, sample, d, n), n)
  {
    var e := Excess(x, sample, d / 2);
    if n == 0 {
      assert n * e == 0;
      assert d * (e - e) == 0;
    } else {
      LosesShare(x, sample, d, n - 1);
      ExcessShrinks(Steps(x, sample, d, n - 1), sample, d);
      SpendOne(d, e, ExcessAfter(x, sample, d, n - 1), ExcessAfter(x, sample, d, n), n);
    }
  }

  lemma SpendOne(d: nat, e: nat, before: nat, left: nat, n: nat)
    requires n >= 1 && Spent(d, e, before, n - 1) && Share(d, before, left)
    ensures Spent(d, e, left, n)
  {
    assert d * (e - left) == d * (e - before) + d * (before - left);
    assert n * e == (n - 1) * e + e;
  }

  /** So `d` steps halve it. */
  lemma Halves(x: nat, sample: nat, d: nat)
    requires d >= 2 && d % 2 == 0
    ensures 2 * ExcessAfter(x, sample, d, d) <= Excess(x, sample, d / 2)
  {
    LosesShare(x, sample, d, d);
    SpentAll(d, Excess(x, sample, d / 2), ExcessAfter(x, sample, d, d));
  }

  lemma SpentAll(d: nat, e: nat, left: nat)
    requires d >= 1 && Spent(d, e, left, d)
    ensures 2 * left <= e
  {
    if 2 * left > e {
      var taken := e - left;
      ProductGrows(2 * taken + 1, e, d);
    }
  }

  lemma {:induction false} StepsCompose(x: nat, sample: nat, d: nat, m: nat, n: nat)
    requires d >= 1
    ensures Steps(x, sample, d, m + n) == Steps(Steps(x, sample, d, m), sample, d, n)
  {
    if n > 0 {
      StepsCompose(x, sample, d, m, n - 1);
    }
  }

  function Power2(k: nat): nat {
    if k == 0 then 1 else 2 * Power2(k - 1)
  }

  /** `k` times `d`. */
  function Rounds(k: nat, d: nat): nat {
    if k == 0 then 0 else d + Rounds(k - 1, d)
  }

  lemma {:induction false} RoundsIs(k: nat, d: nat)
    ensures Rounds(k, d) == k * d
  {
    if k > 0 {
      RoundsIs(k - 1, d);
      assert k * d == (k - 1) * d + d;
    }
  }

  lemma {:induction false} SettledAfter(x: nat, sample: nat, d: nat, k: nat)
    requires d >= 2 && d % 2 == 0 && Excess(x, sample, d / 2) < Power2(k)
    ensures Settled(Steps(x, sample, d, Rounds(k, d)), sample, d)
    decreases k
  {
    if k > 0 {
      HalvesOnce(x, sample, d, k - 1);
      StepsCompose(x, sample, d, d, Rounds(k - 1, d));
      SettledAfter(Steps(x, sample, d, d), sample, d, k - 1);
    } else {
      assert 2 * (d / 2) == d;
    }
  }

  lemma HalvesOnce(x: nat, sample: nat, d: nat, k: nat)
    requires d >= 2 && d % 2 == 0 && Excess(x, sample, d / 2) < Power2(k + 1)
    ensures Excess(Steps(x, sample, d, d), sample, d / 2) < Power2(k)
  {
    Halves(x, sample, d);
    assert Power2(k + 1) == 2 * Power2(k);
  }

  /** Once settled, it stays where it is. */
  lemma {:induction false} StaysSettled(x: nat, sample: nat, d: nat, m: nat, n: nat)
    requires d >= 2 && d % 2 == 0 && m <= n && Settled(Steps(x, sample, d, m), sample, d)
    ensures Steps(x, sample, d, n) == Steps(x, sample, d, m)
    decreases n
  {
    if m < n {
      StaysSettled(x, sample, d, m, n - 1);
      StepMoves(Steps(x, sample, d, n - 1), sample, d);
    }
  }

  /**
   * The time is logarithmic in the distance: each `Denominator` steps halve what is left, so a filter that starts
   * less than `2^k` away is in the band, and still, after `k` times that many.
   */
  lemma SettlesFast(x: nat, sample: nat, gainShift: nat, k: nat, n: nat)
    requires 1 <= gainShift <= 8 && Distance(x, sample) < Power2(k) && n >= k * Denominator(gainShift)
    ensures var d := Denominator(gainShift);
            Settled(Steps(x, sample, d, n), sample, d) && Steps(x, sample, d, n + 1) == Steps(x, sample, d, n)
  {
    var d := Denominator(gainShift);
    RoundsIs(k, d);
    SettledAfter(x, sample, d, k);
    StaysSettled(x, sample, d, Rounds(k, d), n);
    StepMoves(Steps(x, sample, d, n), sample, d);
  }

  /** From anywhere in its range, twenty times that many always do. */
  lemma SettlesInTwenty(x: nat, sample: nat, gainShift: nat)
    requires 1 <= gainShift <= 8 && x <= SAMPLE_MAX && sample <= SAMPLE_MAX
    ensures var d := Denominator(gainShift); Settled(Steps(x, sample, d, 20 * d), sample, d)
  {
    assert Power2(20) == 0x10_0000 by {
      assert Power2(5) == 32;
      assert Power2(10) == 1024;
      assert Power2(15) == 32768;
    }
    SettlesFast(x, sample, gainShift, 20, 20 * Denominator(gainShift));
  }

  /** A sample counts in whole milliseconds, for 0 when it is below or no number, and for no more than 600000. */
  lemma ClampSampleIs(sample: Option<real>)
    ensures sample.None? || sample.value < 0.0 ==> ClampSample(sample) == 0
    ensures sample.Some? && 0.0 <= sample.value < 600000.0 ==>
              ClampSample(sample) as real <= sample.value < ClampSample(sample) as real + 1.0
    ensures sample.Some? && sample.value >= 600000.0 ==> ClampSample(sample) == 600000
  {
  }

  /** The gain: its shift says by what power of two the distance is divided; the first sample is taken as it is. */
  lemma UpdateIs(x: nat, sample: Option<real>, gainShift: nat)
    requires 1 <= gainShift <= 8
    ensures Update(None, sample, gainShift) == Some(ClampSample(sample))
    ensures Denominator(gainShift) == Power2(gainShift)
    ensures Update(Some(x), sample, gainShift) ==
              Some(x + (ClampSample(sample) - x + Power2(gainShift) / 2) / Power2(gainShift))
  {
    DenominatorIs(gainShift);
    StepIs(x, ClampSample(sample), Denominator(gainShift));
  }

  lemma {:induction false} DenominatorIs(gainShift: nat)
    ensures Denominator(gainShift) == Power2(gainShift) >= 1
  {
    if gainShift > 0 {
      DenominatorIs(gainShift - 1);
    }
  }
}
