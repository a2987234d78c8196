/** The divisor of the mean update when the history is one entry longer than the number of rated contests. */
module LongHistory {
  import opened RealAlgebra
  import opened Variance
  import opened EloMeans

  const RATE := 1219.047619 / 44944.0

  /** The share of a precision lost to one contest's noise. */
  function Rated(x: real): real { RATE * x }

  /** The precision after j contests, in units of 1/BETA2. */
  function Precision(j: nat): (q: real)
    ensures q > 0.0
  {
    PositiveQuotient(BETA2, Prior(j));
    BETA2 / Prior(j)
  }

  lemma PositiveQuotient(x: real, y: real)
    requires x > 0.0 && y > 0.0
    ensures x / y > 0.0
  {
  }

  /** The inverse of a retention factor. */
  function Stretch(j: nat): (s: real)
    ensures s > 1.0
  {
    1.0 + Rated(Precision(j))
  }

  function Square(x: real): (y: real)
    ensures y >= 0.0
    ensures x > 0.0 ==> y > 0.0
  {
    assert x > 0.0 ==> Times(x, x) > 0.0;
    x * x
  }

  /** The squared stretches of the first j contests, multiplied up. */
  function Lift(j: nat): (l: real)
    ensures l >= 1.0
  {
    if j == 0 then 1.0
    else
      assert Square(Stretch(j - 1)) > 1.0;
      Product(Lift(j - 1), Square(Stretch(j - 1)));
      Lift(j - 1) * Square(Stretch(j - 1))
  }

  lemma Product(x: real, y: real)
    requires x >= 1.0 && y > 1.0
    ensures x * y >= 1.0
  {
  }

  /** What squaring the factors leaves over, added up from the oldest contest on. */
  function Gain(j: nat): real {
    if j == 0 then 0.0 else Gain(j - 1) + Rated(Times(Square(Precision(j - 1)), Lift(j - 1)))
  }

  /** The surplus of the divisor over the precision still to be unrolled, relative to the current weight. */
  function Surplus(t: nat, k: nat): real
    requires k <= t + 1
  {
    if k == 0 then 0.0
    else
      var j := t + 1 - k;
      Surplus(t, k - 1) * Square(Stretch(j)) + Rated(Square(Precision(j)))
  }

  lemma StretchIsInverse(v: real)
    requires v > 0.0
    ensures (1.0 + Rated(BETA2 / v)) * (v / (v + VAR_PER_CONTEST)) == 1.0
  {
    var s := v + VAR_PER_CONTEST;
    assert RATE * BETA2 == VAR_PER_CONTEST;
    assert (1.0 + Rated(BETA2 / v)) * v == s;
  }

  lemma FactorInverse(t: nat, k: nat)
    requires 1 <= k <= t + 1
    ensures Times(Stretch(t + 1 - k), Factor(t, k)) == 1.0
  {
    StretchIsInverse(Prior(t + 1 - k));
    hide Prior;
  }

  /** The precision recurrence: one more contest adds one unit to the shrunk precision. */
  lemma PrecisionRecurs(t: nat, k: nat)
    requires 1 <= k <= t + 1
    ensures Precision(t + 2 - k) - 1.0 == Times(Factor(t, k), Precision(t + 1 - k))
  {
    hide *;
    PrecisionStep(t, k);
    PrecisionIs(t + 2 - k);
    PrecisionIs(t + 1 - k);
    Scaled(Prior(t + 2 - k), Prior(t + 1 - k), Factor(t, k));
  }

  lemma PrecisionIs(j: nat)
    ensures Precision(j) == BETA2 / Prior(j) && Prior(j) > 0.0
  {
  }

  lemma Scaled(p: real, v: real, f: real)
    requires p > 0.0 && v > 0.0 && 1.0 / p - 1.0 / BETA2 == Times(f, 1.0 / v)
    ensures BETA2 / p - 1.0 == Times(f, BETA2 / v)
  {
    assert BETA2 * (1.0 / p) == BETA2 / p && BETA2 * (1.0 / v) == BETA2 / v;
    assert BETA2 * (1.0 / p - 1.0 / BETA2) == BETA2 * (f * (1.0 / v));
  }

  lemma Unsquare(w: real, w1: real, f: real, s: real)
    requires Times(s, f) == 1.0 && w == Times(w1, Times(f, f))
    ensures w1 == Times(w, Square(s))
  {
    assert Times(w, Square(s)) == w1 * (f * f) * (s * s) == w1 * ((s * f) * (s * f));
    assert (s * f) * (s * f) == 1.0;
  }

  lemma StepAlgebra(w: real, w1: real, f: real, s: real, next: real, q: real, d: real)
    requires Times(s, f) == 1.0 && w1 == Times(w, Square(s)) && next - 1.0 == Times(f, q) && s == 1.0 + Rated(q)
    ensures Times(w1, next - 1.0 + d) - w == Times(w, q - 1.0 + (Times(d, Square(s)) + Rated(Square(q))))
  {
    var ss, qq := Square(s), Square(q);
    assert ss * (f * q) == s * q by {
      assert (s * s) * (f * q) == s * ((s * f) * q);
    }
    assert s * q == q + Rated(qq);
    calc {
      w1 * (next - 1.0 + d) - w;
      (w * ss) * (f * q + d) - w;
      w * (ss * (f * q)) + w * (ss * d) - w;
      w * (s * q) + w * (ss * d) - w;
      w * (q + Rated(qq)) + w * (d * ss) - w;
    }
  }

  lemma Unfolded(t: nat, k: nat)
    requires 1 <= k <= t + 1
    ensures var j := t + 1 - k;
      && Stretch(j) == 1.0 + Rated(Precision(j))
      && Surplus(t, k) == Times(Surplus(t, k - 1), Square(Stretch(j))) + Rated(Square(Precision(j)))
      && Lift(j + 1) == Times(Lift(j), Square(Stretch(j)))
      && Gain(j + 1) == Gain(j) + Rated(Times(Square(Precision(j)), Lift(j)))
  {
    hide Square, Prior;
  }

  lemma Start(t: nat)
    ensures Times(BETA2, InitialWeight(t, 0)) == Times(WeightAt(t, 0), Precision(t + 1) - 1.0 + Surplus(t, 0))
  {
    RemainingStep(t, 0);
    FirstDivisor(Prior(t + 1));
    hide Prior, InitialWeight;
  }

  lemma FirstDivisor(v: real)
    requires v > 0.0
    ensures BETA2 * (1.0 / v - 1.0 * (1.0 / BETA2)) == 1.0 * (BETA2 / v - 1.0 + 0.0)
  {
    assert BETA2 * (1.0 / v) == BETA2 / v;
  }

  lemma ScaledStep(after: real, before: real, w: real)
    requires after == before - w * (1.0 / BETA2)
    ensures Times(BETA2, after) == Times(BETA2, before) - w
  {
    assert BETA2 * (w * (1.0 / BETA2)) == w;
  }

  lemma ScaledRemaining(t: nat, k: nat)
    requires 1 <= k <= t + 1
    ensures Times(BETA2, InitialWeight(t, k)) == Times(BETA2, InitialWeight(t, k - 1)) - WeightAt(t, k)
  {
    RemainingStep(t, k);
    hide *;
    ScaledStep(InitialWeight(t, k), InitialWeight(t, k - 1), WeightAt(t, k));
  }

  /** The divisor, for any history length, as the current weight times a precision and a surplus. */
  lemma {:induction false} DivisorForm(t: nat, k: nat)
    requires k <= t + 1
    ensures Times(BETA2, InitialWeight(t, k)) == Times(WeightAt(t, k), Precision(t + 1 - k) - 1.0 + Surplus(t, k))
  {
    hide *;
    if k == 0 {
      Start(t);
    } else {
      DivisorForm(t, k - 1);
      DivisorStep(t, k);
    }
  }

  lemma DivisorStep(t: nat, k: nat)
    requires 1 <= k <= t + 1
    requires Times(BETA2, InitialWeight(t, k - 1)) ==
      Times(WeightAt(t, k - 1), Precision(t + 2 - k) - 1.0 + Surplus(t, k - 1))
    ensures Times(BETA2, InitialWeight(t, k)) == Times(WeightAt(t, k), Precision(t + 1 - k) - 1.0 + Surplus(t, k))
  {
    hide *;
    var w, w1 := WeightAt(t, k), WeightAt(t, k - 1);
    var f, s, q, next := Factor(t, k), Stretch(t + 1 - k), Precision(t + 1 - k), Precision(t + 2 - k);
    FactorInverse(t, k);
    PrecisionRecurs(t, k);
    Unfolded(t, k);
    WeightStep(t, k);
    Unsquare(w, w1, f, s);
    StepAlgebra(w, w1, f, s, next, q, Surplus(t, k - 1));
    ScaledRemaining(t, k);
  }

  lemma Carried(d: real, s: real, q: real, l: real)
    ensures Times(Times(d, s) + Rated(q), l) == Times(d, Times(l, s)) + Rated(Times(q, l))
  {
    assert (d * s) * l == d * (l * s);
  }

  /** Lifted to the end of the history, the surplus and what is still to come stay constant. */
  lemma {:induction false} SurplusGain(t: nat, k: nat)
    requires k <= t + 1
    ensures Times(Surplus(t, k), Lift(t + 1 - k)) + Gain(t + 1 - k) == Gain(t + 1)
  {
    if k == 0 {
      assert Surplus(t, 0) == 0.0;
      hide Gain, Lift;
    } else {
      hide *;
      var j := t + 1 - k;
      SurplusGain(t, k - 1);
      Unfolded(t, k);
      Carried(Surplus(t, k - 1), Square(Stretch(j)), Square(Precision(j)), Lift(j));
    }
  }

  /** The divisor after the whole history and one entry more. */
  lemma LongDivisor(t: nat)
    ensures Times(BETA2, InitialWeight(t, t + 1)) == Times(WeightAt(t, t + 1), Precision(0) - 1.0 + Gain(t + 1))
  {
    hide *;
    DivisorForm(t, t + 1);
    SurplusGain(t, t + 1);
    Bottom(Surplus(t, t + 1));
  }

  lemma Bottom(d: real)
    ensures Times(d, Lift(0)) + Gain(0) == d
  {
  }

  lemma {:induction false} GainGrows(i: nat, j: nat)
    requires i <= j
    ensures Gain(i) <= Gain(j)
    decreases j
  {
    if i == j {
    } else {
      GainGrows(i, j - 1);
      assert Times(Square(Precision(j - 1)), Lift(j - 1)) >= 0.0;
      hide Precision, Lift, Times;
    }
  }

  // ----- the first five contests in numbers

  lemma StartPrecision()
    ensures 0.366 < Precision(0) < 0.367
  {
    assert VAR_INIT * 44944.0 == 122500.0 * BETA2;
    assert Precision(0) * VAR_INIT == BETA2;
    var q := Precision(0);
    hide Precision;
    assert q * 122500.0 == 44944.0 by {
      assert q * VAR_INIT * 44944.0 == q * (122500.0 * BETA2);
      CancelScale(q);
    }
  }

  lemma CancelScale(q: real)
    requires q * (122500.0 * BETA2) == BETA2 * 44944.0
    ensures q * 122500.0 == 44944.0
  {
  }

  /** One step of the precision recurrence, cleared of its division. */
  lemma NextPrecision(j: nat)
    ensures (Precision(j + 1) - 1.0) * (1.0 + Rated(Precision(j))) == Precision(j)
  {
    PrecisionRecurs(j, 1);
    FactorInverse(j, 1);
    var n, q, f := Precision(j + 1), Precision(j), Factor(j, 1);
    assert Stretch(j) == 1.0 + Rated(q);
    hide *;
    assert (f * q) * (1.0 + Rated(q)) == q * ((1.0 + Rated(q)) * f);
  }

  /** The next precision lies above a bound when the current one is large enough for it, and below likewise. */
  lemma NextBounds(n: real, q: real, low: real, high: real)
    requires q > 0.0 && (n - 1.0) * (1.0 + Rated(q)) == q
    requires (low - 1.0) * (1.0 + Rated(q)) < q < (high - 1.0) * (1.0 + Rated(q))
    ensures low < n < high
  {
    var s := 1.0 + Rated(q);
    assert s > 0.0;
    MulStrictOrder(s, low - 1.0, n - 1.0);
    MulStrictOrder(s, n - 1.0, high - 1.0);
  }

  /** The precisions after one to four contests, between the bounds used below. */
  predicate Early(q0: real, q1: real, q2: real, q3: real, q4: real) {
    && 0.366 < q0 < 0.367 && 1.36 < q1 < 1.37 && 2.30 < q2 < 2.33 && 3.15 < q3 < 3.20 && 3.85 < q4 < 4.00
  }

  predicate Follows(next: real, q: real) {
    (next - 1.0) * (1.0 + Rated(q)) == q
  }

  lemma EarlyBounds(q0: real, q1: real, q2: real, q3: real, q4: real)
    requires 0.366 < q0 < 0.367 && Follows(q1, q0) && Follows(q2, q1) && Follows(q3, q2) && Follows(q4, q3)
    ensures Early(q0, q1, q2, q3, q4)
  {
    RateBounds(q0);
    NextBounds(q1, q0, 1.36, 1.37);
    RateBounds(q1);
    NextBounds(q2, q1, 2.30, 2.33);
    RateBounds(q2);
    NextBounds(q3, q2, 3.15, 3.20);
    RateBounds(q3);
    NextBounds(q4, q3, 3.85, 4.00);
  }

  lemma RateBounds(q: real)
    requires q > 0.0
    ensures 0.0271 * q < Rated(q) < 0.0272 * q
  {
    assert 0.0271 < RATE < 0.0272;
  }

  lemma EarlyPrecisions()
    ensures Early(Precision(0), Precision(1), Precision(2), Precision(3), Precision(4))
  {
    hide Precision, Early;
    StartPrecision();
    NextPrecision(0);
    NextPrecision(1);
    NextPrecision(2);
    NextPrecision(3);
    EarlyBounds(Precision(0), Precision(1), Precision(2), Precision(3), Precision(4));
  }

  lemma GainStep(j: nat)
    ensures Gain(j + 1) == Gain(j) + Rated(Times(Square(Precision(j)), Lift(j)))
    ensures Lift(j + 1) == Times(Lift(j), Square(1.0 + Rated(Precision(j))))
  {
    hide Precision, Square;
  }

  lemma SquareBounds(x: real, low: real, high: real)
    requires 0.0 < low < x < high
    ensures Square(low) < Square(x) < Square(high)
  {
    assert Square(x) - Square(low) == Times(x - low, x + low);
    assert Square(high) - Square(x) == Times(high - x, high + x);
  }

  lemma TimesBounds(x: real, y: real, a: real, b: real, c: real, d: real)
    requires 0.0 < a <= x <= b && 0.0 < c <= y <= d
    ensures Times(a, c) <= Times(x, y) <= Times(b, d)
  {
    TimesOrder(x, c, y);
    TimesOrder(c, a, x);
    TimesOrder(x, y, d);
    TimesOrder(d, x, b);
    assert Times(a, c) == Times(c, a) && Times(x, c) == Times(c, x);
    assert Times(x, d) == Times(d, x) && Times(b, d) == Times(d, b);
  }

  /** The squared stretch and the squared precision of one contest. */
  lemma StepBounds(q: real, low: real, high: real, stretch: real)
    requires 0.0 < low < q < high && 1.0 + 0.0272 * high < stretch
    ensures Square(low) < Square(q) < Square(high)
    ensures 1.0 < Square(1.0 + Rated(q)) < Square(stretch)
  {
    SquareBounds(q, low, high);
    RateBounds(q);
    SquareBounds(1.0 + Rated(q), 1.0, stretch);
    hide Square;
    assert Square(1.0) == 1.0 by {
      UnitSquare();
    }
  }

  lemma UnitSquare()
    ensures Square(1.0) == 1.0
  {
  }

  /** Lift and gain grow by at most these amounts. */
  lemma GainBounds(j: nat, low: real, high: real, stretch: real, lift: real, gain: real)
    requires 0.0 < low < Precision(j) < high && 1.0 + 0.0272 * high < stretch
    requires Lift(j) <= lift && Gain(j) <= gain
    ensures Lift(j + 1) <= Times(lift, Square(stretch))
    ensures Gain(j + 1) <= gain + 0.0272 * Times(Square(high), lift)
    ensures Gain(j + 1) >= Gain(j) + 0.0271 * Square(low)
  {
    var q := Precision(j);
    StepBounds(q, low, high, stretch);
    GainStep(j);
    assert 1.0 <= Lift(j);
    hide Precision, Square, Lift, Gain;
    TimesBounds(Square(q), Lift(j), Square(low), Square(high), 1.0, lift);
    TimesBounds(Lift(j), Square(1.0 + Rated(q)), 1.0, lift, 1.0, Square(stretch));
    RateBounds(Times(Square(q), Lift(j)));
    assert Times(Square(low), 1.0) == Square(low);
  }

  lemma Fourth()
    ensures Gain(4) < 0.632
  {
    EarlyPrecisions();
    hide Precision, Lift, Gain;
    Bottom(1.0);
    assert Lift(0) <= 1.0 && Gain(0) <= 0.0 by {
      Ends();
    }
    GainBounds(0, 0.366, 0.367, 1.01, 1.0, 0.0);
    assert Lift(1) <= 1.03 && Gain(1) <= 0.004;
    GainBounds(1, 1.36, 1.37, 1.038, 1.03, 0.004);
    assert Lift(2) <= 1.11 && Gain(2) <= 0.057;
    GainBounds(2, 2.30, 2.33, 1.064, 1.11, 0.057);
    assert Lift(3) <= 1.257 && Gain(3) <= 0.222;
    GainBounds(3, 3.15, 3.20, 1.088, 1.257, 0.222);
  }

  lemma Ends()
    ensures Lift(0) == 1.0 && Gain(0) == 0.0
  {
  }

  lemma Fifth()
    ensures Gain(5) > 0.634
  {
    EarlyPrecisions();
    hide Precision, Lift, Gain;
    Ends();
    GainGrows(0, 2);
    GainBounds(2, 2.30, 2.33, 1.064, Lift(2), Gain(2));
    GainBounds(3, 3.15, 3.20, 1.088, Lift(3), Gain(3));
    GainBounds(4, 3.85, 4.00, 1.11, Lift(4), Gain(4));
  }

  /**
   * One history entry more than rated contests: the divisor is then negative up to three contests and
   * positive from four on, so the length condition is needed exactly for newcomers.
   */
  lemma LongerHistoryExactly(t: nat)
    ensures InitialWeight(t, t + 1) > 0.0 <==> t >= 4
    ensures InitialWeight(t, t + 1) < 0.0 <==> t <= 3
  {
    LongDivisor(t);
    StartPrecision();
    hide *;
    if t >= 4 {
      Fifth();
      GainGrows(5, t + 1);
    } else {
      Fourth();
      GainGrows(t + 1, 4);
    }
    assert t >= 4 ==> Precision(0) - 1.0 + Gain(t + 1) > 0.0;
    assert t <= 3 ==> Precision(0) - 1.0 + Gain(t + 1) < 0.0;
    WeightPositive(t);
    SameSign(BETA2, InitialWeight(t, t + 1), WeightAt(t, t + 1), Precision(0) - 1.0 + Gain(t + 1));
  }

  lemma WeightPositive(t: nat)
    ensures WeightAt(t, t + 1) > 0.0 && BETA2 > 0.0
  {
  }

  lemma SameSign(a: real, x: real, b: real, y: real)
    requires a > 0.0 && b > 0.0 && Times(a, x) == Times(b, y)
    ensures (x > 0.0 <==> y > 0.0) && (x < 0.0 <==> y < 0.0)
  {
    MulStrictOrder(a, 0.0, x);
    MulStrictOrder(b, 0.0, y);
    MulStrictOrder(a, x, 0.0);
    MulStrictOrder(b, y, 0.0);
  }
}
