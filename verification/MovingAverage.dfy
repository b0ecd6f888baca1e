/**
 The average hold time that `AdaptiveBackoffSpinLock` keeps: a 32-bit exponential moving average, in
 microseconds, rounded down.
 */
module MovingAverage {

  const WORD: nat := 0x1_0000_0000

  type Average = a: nat | a < WORD

  /** `(old_avg * 7 + hold_us) / 8`: the product wraps, the sum is 64 bits wide, the result is cut off. */
  function Update(avg: Average, hold: nat): Average {
    ((avg * 7 % WORD + hold) / 8) % WORD
  }

  predicate Between(x: nat, a: nat, b: nat) {
    (a <= x <= b) || (b <= x <= a)
  }

  /** The product does not wrap. */
  predicate Fits(avg: nat) { 7 * avg < WORD }

  lemma {:induction false} UpdateFits(avg: Average, hold: nat)
    requires Fits(avg) && 7 * avg + hold < 8 * WORD
    ensures Update(avg, hold) == (7 * avg + hold) / 8
  {
    assert avg * 7 % WORD == 7 * avg;
    assert (7 * avg + hold) / 8 < WORD;
  }

  /**
   The new average lies between the old one and the hold time, for every hold time below a limit
   of at least a word, exactly if neither the product nor the quotient wraps below that limit. An
   average of zero cannot be left on the wrong side.
   */
  lemma {:induction false} BetweenExactlyWhenItFits(avg: Average, limit: nat)
    requires limit >= WORD
    ensures avg == 0 || (Fits(avg) && 7 * avg + limit <= 8 * WORD)
       <==> forall hold: nat :: hold < limit ==> Between(Update(avg, hold), avg, hold)
  {
    if avg == 0 {
      forall hold: nat ensures Between(Update(avg, hold), avg, hold) { ZeroStaysBelow(hold); }
    } else if !Fits(avg) {
      WrapsBelow(avg);
      assert !Between(Update(avg, avg), avg, avg);
    } else if 7 * avg + limit <= 8 * WORD {
      forall hold: nat | hold < limit ensures Between(Update(avg, hold), avg, hold) { UpdateFits(avg, hold); }
    } else {
      QuotientWraps(avg);
      assert !Between(Update(avg, 8 * WORD - 7 * avg), avg, 8 * WORD - 7 * avg);
    }
  }

  lemma {:induction false} ZeroStaysBelow(hold: nat)
    ensures Between(Update(0, hold), 0, hold)
  {
    assert hold / 8 % WORD <= hold / 8;
  }

  /** The first hold time for which the quotient does not fit turns the average to zero. */
  lemma {:induction false} QuotientWraps(avg: Average)
    requires Fits(avg) && avg > 0
    ensures Update(avg, 8 * WORD - 7 * avg) == 0
  {
    assert avg * 7 % WORD == 7 * avg;
  }

  /** So no average but zero is safe for every hold time. */
  lemma {:induction false} SomeHoldWraps(avg: Average)
    requires avg > 0
    ensures exists hold: nat :: !Between(Update(avg, hold), avg, hold)
  {
    BetweenExactlyWhenItFits(avg, 8 * WORD);
  }

  /** When it wraps, not even holding for the average time keeps the average. */
  lemma {:induction false} WrapsBelow(avg: Average)
    requires !Fits(avg)
    ensures Update(avg, avg) < avg
  {
    var q := avg * 7 / WORD;
    assert avg * 7 == q * WORD + avg * 7 % WORD && q >= 1;
    assert avg * 7 % WORD + avg == 8 * avg - q * WORD;
  }

  // ---- A constant hold time -----------------------------------------------------------------------

  /** How far the average is from the band of seven below the hold time. */
  function Excess(avg: nat, hold: nat): nat {
    if avg > hold then avg - hold else if avg + 7 < hold then hold - 7 - avg else 0
  }

  /** Every update takes an eighth off, rounded up; inside the band the average stays for good. */
  lemma {:induction false} ExcessShrinks(avg: Average, hold: nat)
    requires Fits(avg) && Fits(hold)
    ensures Excess(Update(avg, hold), hold) == 7 * Excess(avg, hold) / 8
    ensures Fits(Update(avg, hold))
    ensures avg >= hold ==> Update(avg, hold) >= hold
    ensures avg <= hold ==> Update(avg, hold) <= hold
    ensures Excess(avg, hold) == 0 ==> Update(avg, hold) == avg
  {
    UpdateFits(avg, hold);
  }

  function Repeated(avg: Average, hold: nat, n: nat): Average {
    if n == 0 then avg else Update(Repeated(avg, hold, n - 1), hold)
  }

  function Decay(e: nat, n: nat): nat {
    if n == 0 then e else 7 * Decay(e, n - 1) / 8
  }

  lemma {:induction false} RepeatedExcess(avg: Average, hold: nat, n: nat)
    requires Fits(avg) && Fits(hold)
    ensures Fits(Repeated(avg, hold, n)) && Excess(Repeated(avg, hold, n), hold) == Decay(Excess(avg, hold), n)
    ensures avg >= hold ==> Repeated(avg, hold, n) >= hold
    ensures avg <= hold ==> Repeated(avg, hold, n) <= hold
  {
    if n > 0 {
      RepeatedExcess(avg, hold, n - 1);
      ExcessShrinks(Repeated(avg, hold, n - 1), hold);
    }
  }

  /** Six updates halve it. */
  lemma {:induction false} SixHalve(e: nat)
    ensures Decay(e, 6) <= e / 2
  {
    assert Decay(e, 1) == 7 * e / 8;
    assert Decay(e, 2) == 7 * Decay(e, 1) / 8;
    assert Decay(e, 3) == 7 * Decay(e, 2) / 8;
    assert Decay(e, 4) == 7 * Decay(e, 3) / 8;
    assert Decay(e, 5) == 7 * Decay(e, 4) / 8;
  }

  lemma {:induction false} DecayMore(e: nat, m: nat, n: nat)
    ensures Decay(e, m + n) == Decay(Decay(e, m), n)
  {
    if n > 0 { DecayMore(e, m, n - 1); }
  }

  function Pow2(k: nat): nat {
    if k == 0 then 1 else 2 * Pow2(k - 1)
  }

  lemma {:induction false} DecaysAway(e: nat, k: nat)
    requires e < Pow2(k)
    ensures Decay(e, 6 * k) == 0
    decreases k
  {
    if k > 0 {
      SixHalve(e);
      DecaysAway(Decay(e, 6), k - 1);
      DecayMore(e, 6, 6 * (k - 1));
    }
  }

  lemma {:induction false} StaysAway(e: nat, m: nat, n: nat)
    requires Decay(e, m) == 0 && m <= n
    ensures Decay(e, n) == 0
    decreases n
  {
    if m < n { StaysAway(e, m, n - 1); }
  }

  /**
   Main result: for a constant hold time, six updates for each binary digit of the distance bring
   the average into the band of seven below the hold time (to the hold time itself, if it started
   above), and it never leaves again.
   */
  lemma {:induction false} Converges(avg: Average, hold: nat, k: nat, n: nat)
    requires Fits(avg) && Fits(hold) && Excess(avg, hold) < Pow2(k) && n >= 6 * k
    ensures Repeated(avg, hold, n) <= hold <= Repeated(avg, hold, n) + 7
    ensures avg >= hold ==> Repeated(avg, hold, n) == hold
  {
    RepeatedExcess(avg, hold, n);
    DecaysAway(Excess(avg, hold), k);
    StaysAway(Excess(avg, hold), 6 * k, n);
  }

  // ---- Any hold times --------------------------------------------------------------------------------

  const INITIAL: Average := 10

  /** The average after these hold times, one after another. */
  function Averaged(holds: seq<nat>): Average {
    if holds == [] then INITIAL else Update(Averaged(holds[..|holds| - 1]), holds[|holds| - 1])
  }

  /** As long as no hold time is above `top` (and `top` fits), neither is the average, and nothing ever wraps. */
  lemma {:induction false} AverageStaysInRange(holds: seq<nat>, bottom: nat, top: nat)
    requires Fits(top) && bottom <= INITIAL <= top && forall i :: 0 <= i < |holds| ==> bottom <= holds[i] <= top
    ensures bottom <= Averaged(holds) <= top && Fits(Averaged(holds))
    decreases |holds|
  {
    if holds != [] {
      var n := |holds| - 1;
      AverageStaysInRange(holds[..n], bottom, top);
      UpdateFits(Averaged(holds[..n]), holds[n]);
    }
  }
}
