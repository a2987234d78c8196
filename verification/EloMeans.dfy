/** The mean update: history weights, the weight left for the prior, and where the new mean lands. */
module EloMeans {
  import opened RealAlgebra
  import opened RootFinder
  import opened Rounding
  import opened Sums
  import opened Variance
  import opened EloMmr

  // ----- history weights

  /** The retention factor at position k of a history that starts at contest number t + 1. */
  function Factor(t: nat, k: nat): (factor: real)
    requires k <= t + 1
    ensures 0.0 < factor <= 1.0
    ensures k == 0 ==> factor == 1.0
  {
    var v := Prior(t + 1 - k);
    var gamma2 := if k > 0 then VAR_PER_CONTEST else 0.0;
    FractionInUnit(v, gamma2);
    v / (v + gamma2)
  }

  lemma FractionInUnit(v: real, g: real)
    requires v > 0.0 && g >= 0.0
    ensures 0.0 < v / (v + g) <= 1.0
    ensures g == 0.0 ==> v / (v + g) == 1.0
  {
    DivOrder(v, v + g, v + g);
  }

  function WeightAt(t: nat, k: nat): (weight: real)
    requires k <= t + 1
    ensures weight > 0.0
    ensures k == 0 ==> weight == 1.0
  {
    var factor := Factor(t, k);
    Times(if k == 0 then 1.0 else WeightAt(t, k - 1), Times(factor, factor))
  }

  /** The sum of the first k weights, in units of BETA2. */
  function WeightSum(t: nat, k: nat): real
    requires k <= t + 2
  {
    if k == 0 then 0.0 else WeightSum(t, k - 1) + WeightAt(t, k - 1) / BETA2
  }

  /** The weight left for the prior after a history of h earlier performances and the new one. */
  function InitialWeight(t: nat, h: nat): real
    requires h <= t + 1
  {
    1.0 / Prior(t + 1) - WeightSum(t, h + 1)
  }

  /** The precision one contest earlier, scaled by the retention factor, is what 1/BETA2 leaves over. */
  lemma PrecisionStep(t: nat, k: nat)
    requires 1 <= k <= t + 1
    ensures 1.0 / Prior(t + 2 - k) - 1.0 / BETA2 == Times(Factor(t, k), 1.0 / Prior(t + 1 - k)) > 0.0
  {
    var v := Prior(t + 1 - k);
    var s := v + VAR_PER_CONTEST;
    assert Prior(t + 2 - k) == Next(v);
    hide Prior;
    Reciprocal(1.0 / s + 1.0 / BETA2);
    CancelFactor(v, s);
  }

  lemma Reciprocal(x: real)
    requires x > 0.0
    ensures 1.0 / (1.0 / x) == x
  {
    var y := 1.0 / x;
    assert y * x == 1.0;
    assert (1.0 / y) * y == 1.0;
    calc {
      1.0 / y;
      (1.0 / y) * (y * x);
      ((1.0 / y) * y) * x;
      x;
    }
  }

  lemma CancelFactor(v: real, s: real)
    requires v > 0.0 && s > 0.0
    ensures (v / s) * (1.0 / v) == 1.0 / s
  {
    var r := 1.0 / s;
    assert v / s == v * r;
    assert v * (1.0 / v) == 1.0;
    calc {
      (v * r) * (1.0 / v);
      r * (v * (1.0 / v));
      r;
    }
  }

  /** Squaring a factor below one can only leave more for the prior. */
  lemma SquaringLeavesMore(left: real, w: real, f: real, p: real, b: real)
    requires w > 0.0 && 0.0 < f <= 1.0 && p > 0.0
    requires left >= Times(w, Times(f, p))
    ensures var next := Times(w, Times(f, f)); left - next * b >= Times(next, p - b)
  {
    var fp := Times(f, p);
    MulOrder(fp, f, 1.0);
    MulOrder(w, fp * f, fp);
    assert w * (fp * f) == (w * (f * f)) * p;
  }

  /**
   * Unrolled over the history, what is left for the prior is at least the current weight's share of
   * the precision still to be unrolled.
   */
  lemma {:induction false} RemainderBound(t: nat, k: nat)
    requires k <= t
    ensures InitialWeight(t, k) >= Times(WeightAt(t, k), 1.0 / Prior(t + 1 - k) - 1.0 / BETA2)
  {
    if k == 0 {
      RemainingStep(t, 0);
    } else {
      RemainderBound(t, k - 1);
      RemainderStep(t, k);
    }
  }

  lemma RemainderStep(t: nat, k: nat)
    requires 1 <= k <= t
    requires InitialWeight(t, k - 1) >= Times(WeightAt(t, k - 1), 1.0 / Prior(t + 2 - k) - 1.0 / BETA2)
    ensures InitialWeight(t, k) >= Times(WeightAt(t, k), 1.0 / Prior(t + 1 - k) - 1.0 / BETA2)
  {
    hide WeightAt, Factor, InitialWeight, Prior, Times;
    PrecisionStep(t, k);
    SquaringLeavesMore(InitialWeight(t, k - 1), WeightAt(t, k - 1), Factor(t, k), 1.0 / Prior(t + 1 - k), 1.0 / BETA2);
    WeightStep(t, k);
    RemainingStep(t, k);
  }

  lemma WeightStep(t: nat, k: nat)
    requires 1 <= k <= t + 1
    ensures WeightAt(t, k) == Times(WeightAt(t, k - 1), Times(Factor(t, k), Factor(t, k)))
  {
  }

  lemma RemainingStep(t: nat, k: nat)
    requires k <= t + 1
    ensures InitialWeight(t, k) == (if k == 0 then 1.0 / Prior(t + 1) else InitialWeight(t, k - 1)) - WeightAt(t, k) * (1.0 / BETA2)
  {
    assert WeightSum(t, 0) == 0.0;
    hide WeightAt, Prior;
    assert WeightSum(t, k + 1) == WeightSum(t, k) + WeightAt(t, k) / BETA2;
    hide WeightSum;
  }

  /** The divisor of the mean update is positive for every history no longer than the rated contests. */
  lemma InitialWeightPositive(t: nat, h: nat)
    requires h <= t
    ensures InitialWeight(t, h) > 0.0
  {
    RemainderBound(t, h);
    PrecisionStep(t, h + 1);
    hide WeightAt, Factor, InitialWeight, Prior;
    assert Times(WeightAt(t, h), 1.0 / Prior(t + 1 - h) - 1.0 / BETA2) > 0.0;
  }

  // ----- the new mean

  /** sqrt(BETA2) * TANH_C, the scale of every history term. */
  function HistoryScale(a: Analysis): (sd: real)
    requires a.Valid()
    ensures sd > 0.0
  {
    a.SqrtPositive(BETA2);
    Times(a.sqrt(BETA2), a.TanhC())
  }

  /** The terms of one player's equation: the new performance first, then the history. */
  function MeanTerms(a: Analysis, t: nat, history: seq<real>): (terms: seq<Term>)
    requires a.Valid() && |history| <= t + 2
    ensures Usable(terms) && |terms| == |history|
    ensures forall k | 0 <= k < |terms| ::
      terms[k] == Term(history[k], HistoryScale(a), WeightAt(t, k))
  {
    seq(|history|, k requires 0 <= k < |history| =>
      Term(history[k], HistoryScale(a), WeightAt(t, k)))
  }

  /** What the history terms after the first say at the old mean, plus the prior's own pull. */
  function MeanTarget(a: Analysis, t: nat, oldMean: real, history: seq<real>): real
    requires a.Valid() && 1 <= |history| <= t + 1
  {
    var w := InitialWeight(t, |history| - 1);
    InitialWeightPositive(t, |history| - 1);
    var terms := MeanTerms(a, t, history);
    UsableTail(terms);
    var initialPerformance := EvalTanhs(a.tanh, terms[1..], oldMean) / w + oldMean;
    Times(w, initialPerformance)
  }

  lemma UsableTail(terms: seq<Term>)
    requires Usable(terms) && terms != []
    ensures Usable(terms[1..])
  {
    assert forall t | t in terms[1..] :: t in terms;
  }

  /** The function a player's mean equation inverts. */
  function MeanCurve(a: Analysis, t: nat, history: seq<real>): real -> real
    requires a.Valid() && 1 <= |history| <= t + 1
  {
    Curve(a.tanh, MeanTerms(a, t, history), InitialWeight(t, |history| - 1))
  }

  /** The new mean of a player whose history, newest first, starts with the new performance. */
  function NewMean(a: Analysis, t: nat, oldMean: real, history: seq<real>, low: real, high: real): real
    requires a.Valid() && 1 <= |history| <= t + 1
  {
    Bisect(MeanCurve(a, t, history), MeanTarget(a, t, oldMean, history), low, high)
  }

  /** A root search lands within 2 of any interval on which the function crosses the target. */
  lemma RootNear(f: real -> real, target: real, low: real, high: real, x: real, y: real)
    requires StrictlyIncreasing(f) && low <= high
    requires x <= high && low <= y
    requires f(x) <= target <= f(y)
    ensures x - 2.0 <= Bisect(f, target, low, high) <= y + 2.0
  {
    BisectBrackets(f, target, low, high);
    var r := Bisect(f, target, low, high);
    if r < x - 2.0 {
      Raise(f, r + 2.0, x);
    }
    if r > y + 2.0 {
      Raise(f, y, r - 2.0);
    }
  }

  /** The curve and the target it is solved for, as the same expression at two different points. */
  lemma CurveAgainstTarget(a: Analysis, t: nat, oldMean: real, history: seq<real>, x: real)
    requires a.Valid() && 1 <= |history| <= t + 1
    ensures var w, terms := InitialWeight(t, |history| - 1), MeanTerms(a, t, history);
      && Usable(terms[1..])
      && MeanCurve(a, t, history)(x) == Times(w, x) + (TermValue(a.tanh, terms[0], x) + EvalTanhs(a.tanh, terms[1..], x))
      && MeanTarget(a, t, oldMean, history) == Times(w, oldMean) + EvalTanhs(a.tanh, terms[1..], oldMean)
  {
    var w, terms := InitialWeight(t, |history| - 1), MeanTerms(a, t, history);
    InitialWeightPositive(t, |history| - 1);
    UsableTail(terms);
    EvalSplit(a.tanh, terms, x);
    CurveAt(a, t, history, x);
    hide InitialWeight, MeanTerms, EvalTanhs, TermValue, MeanCurve;
    DistributeOver(w, EvalTanhs(a.tanh, terms[1..], oldMean), oldMean);
  }

  lemma CurveAt(a: Analysis, t: nat, history: seq<real>, x: real)
    requires a.Valid() && 1 <= |history| <= t + 1
    ensures MeanCurve(a, t, history)(x) ==
      Times(InitialWeight(t, |history| - 1), x) + EvalTanhs(a.tanh, MeanTerms(a, t, history), x)
  {
    hide InitialWeight, MeanTerms, EvalTanhs;
  }

  lemma EvalSplit(tanh: real -> real, terms: seq<Term>, x: real)
    requires Usable(terms) && terms != []
    ensures Usable(terms[1..])
    ensures terms[0].sd > 0.0
    ensures EvalTanhs(tanh, terms, x) == TermValue(tanh, terms[0], x) + EvalTanhs(tanh, terms[1..], x)
  {
    UsableTail(terms);
    assert terms[0] in terms;
  }

  lemma DistributeOver(w: real, e: real, m: real)
    requires w > 0.0
    ensures Times(w, e / w + m) == Times(w, m) + e
  {
    assert (e / w) * w == e;
  }

  lemma TermSign(a: Analysis, term: Term, x: real)
    requires a.Valid() && term.sd > 0.0 && term.weight > 0.0
    ensures x <= term.mean ==> TermValue(a.tanh, term, x) <= 0.0
    ensures x >= term.mean ==> TermValue(a.tanh, term, x) >= 0.0
  {
    var z := (x - term.mean) / (2.0 * term.sd);
    a.TanhSign(z);
    var w := term.weight / term.sd;
    assert x <= term.mean ==> z <= 0.0;
    assert x >= term.mean ==> z >= 0.0;
    if z <= 0.0 {
      MulOrder(w, a.tanh(z), 0.0);
    }
    if z >= 0.0 {
      MulOrder(w, 0.0, a.tanh(z));
    }
  }

  /**
   * Main result on means: the new mean lies between the old mean and the new performance up to the
   * search tolerance of 2, whatever the rest of the history says, and inside the bounds.
   */
  lemma NewMeanBetween(a: Analysis, t: nat, oldMean: real, history: seq<real>, low: real, high: real)
    requires a.Valid() && 1 <= |history| <= t + 1
    requires low <= oldMean <= high && low <= history[0] <= high
    ensures var m := NewMean(a, t, oldMean, history, low, high);
      && low <= m <= high
      && MinOf(oldMean, history[0]) - 2.0 <= m <= MaxOf(oldMean, history[0]) + 2.0
  {
    hide InitialWeight, MeanTerms, EvalTanhs, TermValue, MeanTarget, Bisect, Curve, Times;
    var f, target := MeanCurve(a, t, history), MeanTarget(a, t, oldMean, history);
    var w, terms, p := InitialWeight(t, |history| - 1), MeanTerms(a, t, history), history[0];
    InitialWeightPositive(t, |history| - 1);
    assert terms[0] in terms;
    CurveIncreases(a, terms, w);
    BisectBrackets(f, target, low, high);
    CurveAgainstTarget(a, t, oldMean, history, oldMean);
    CurveAgainstTarget(a, t, oldMean, history, p);
    TermSign(a, terms[0], oldMean);
    TermSign(a, terms[0], p);
    if oldMean <= p {
      EvalIncreases(a, terms[1..], oldMean, p);
      TimesOrder(w, oldMean, p);
      RootNear(f, target, low, high, oldMean, p);
    } else {
      EvalIncreases(a, terms[1..], p, oldMean);
      TimesOrder(w, p, oldMean);
      RootNear(f, target, low, high, p, oldMean);
    }
  }

  // ----- displayed ratings

  /** The integer shown to users: the mean less the excess of its deviation over the limit. */
  function Displayed(a: Analysis, mean: real, t: nat): (shown: int)
    ensures shown >= 1
  {
    var r := RoundHalfEven(mean - (a.sqrt(Prior(t + 1)) - a.sqrt(VarLim(a.sqrt))));
    if r > 1 then r else 1
  }

  /** How far the deviation after one more contest is still above its limit. */
  function Excess(a: Analysis, t: nat): real {
    a.sqrt(Prior(t + 1)) - a.sqrt(VarLim(a.sqrt))
  }

  /** The display is the mean less the excess deviation, to the nearest whole number, but at least 1. */
  ghost predicate Shows(a: Analysis, shown: int, mean: real, t: nat) {
    && shown >= 1
    && (shown > 1 ==> -0.5 <= shown as real + Excess(a, t) - mean <= 0.5)
    && (shown == 1 ==> mean <= 1.5 + Excess(a, t))
  }

  lemma DisplayedShows(a: Analysis, mean: real, t: nat)
    ensures Shows(a, Displayed(a, mean, t), mean, t)
  {
    hide RoundHalfEven, Prior, VarLim;
  }

  lemma DisplayedOrder(a: Analysis, mean: real, other: real, t: nat)
    requires mean <= other
    ensures Displayed(a, mean, t) <= Displayed(a, other, t)
  {
    var excess := a.sqrt(Prior(t + 1)) - a.sqrt(VarLim(a.sqrt));
    RoundMonotone(mean - excess, other - excess);
    hide RoundHalfEven, Prior, VarLim;
  }

  /** Uncertainty only ever lowers the display, and less so with every contest. */
  lemma DisplayedBounds(a: Analysis, mean: real, t: nat, u: nat)
    requires a.Valid() && t <= u
    ensures Displayed(a, mean, t) <= Displayed(a, mean, u)
    ensures Displayed(a, mean, u) <= if RoundHalfEven(mean) > 1 then RoundHalfEven(mean) else 1
  {
    LimitBelowStart(a.sqrt);
    var limit := VarLim(a.sqrt);
    PriorOrdered(t + 1, u + 1, a.sqrt);
    hide Prior, VarLim;
    a.SqrtStrict(limit, Prior(u + 1));
    if Prior(u + 1) < Prior(t + 1) {
      a.SqrtStrict(Prior(u + 1), Prior(t + 1));
    }
    var lift := a.sqrt(limit);
    RoundMonotone(mean - (a.sqrt(Prior(t + 1)) - lift), mean - (a.sqrt(Prior(u + 1)) - lift));
    RoundMonotone(mean - (a.sqrt(Prior(u + 1)) - lift), mean);
  }
}
