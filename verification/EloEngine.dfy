/** The imperative engine: arrays filled in place, proved equal to the functions of EloMmr and EloMeans. */
module EloEngine {
  import opened RealAlgebra
  import opened Options
  import opened RootFinder
  import opened Sums
  import opened Variance
  import opened EloMmr
  import opened EloMeans

  // ----- the inputs of one contest

  /** The scale of one player's logistic, from the number of rated contests so far. */
  function Width(a: Analysis, t: nat): (width: real)
    requires a.Valid()
    ensures width > 0.0
  {
    a.SqrtPositive(Prior(t) + VAR_PER_CONTEST + BETA2);
    Times(a.TanhC(), a.sqrt(Prior(t) + VAR_PER_CONTEST + BETA2))
  }

  function Widths(a: Analysis, times: seq<nat>): (widths: seq<real>)
    requires a.Valid()
    ensures |widths| == |times|
    ensures forall i | 0 <= i < |times| :: widths[i] == Width(a, times[i])
    ensures forall w | w in widths :: w > 0.0
  {
    seq(|times|, i requires 0 <= i < |times| => Width(a, times[i]))
  }

  function PriorTerms(means: seq<real>, widths: seq<real>): (terms: seq<Term>)
    requires |means| == |widths| && forall w | w in widths :: w > 0.0
    ensures |terms| == |means| && Usable(terms)
    ensures forall i | 0 <= i < |means| :: terms[i] == Term(means[i], widths[i], 1.0)
  {
    assert forall i | 0 <= i < |widths| :: widths[i] in widths;
    seq(|means|, i requires 0 <= i < |means| => Term(means[i], widths[i], 1.0))
  }

  function Ceiling(ceiling: Option<real>): real {
    if ceiling.Some? then MinOf(RANGE_HIGH, ceiling.value) else RANGE_HIGH
  }

  // ----- what one contest computes

  function ContestPerformances(a: Analysis, ranks: seq<real>, means: seq<real>, times: seq<nat>,
      high: real): (ps: seq<real>)
    requires a.Valid() && |ranks| == |means| == |times|
    ensures |ps| == |ranks|
  {
    if |ranks| < 2 then means else
      var widths := Widths(a, times);
      Performances(Curve(a.tanh, PriorTerms(means, widths), 0.0), Targets(ranks, widths), RANGE_LOW, high)
  }

  ghost predicate HistoriesFit(times: seq<nat>, histories: seq<seq<real>>) {
    |histories| == |times| && forall i | 0 <= i < |times| :: |histories[i]| <= times[i]
  }

  function ContestMean(a: Analysis, t: nat, mean: real, performance: real, history: seq<real>, high: real): real
    requires a.Valid() && |history| <= t
  {
    NewMean(a, t, mean, [performance] + history, RANGE_LOW, high)
  }

  function ContestMeans(a: Analysis, ps: seq<real>, means: seq<real>, times: seq<nat>, histories: seq<seq<real>>,
      high: real): (ms: seq<real>)
    requires a.Valid() && |ps| == |means| == |times| && HistoriesFit(times, histories)
    ensures |ms| == |means|
  {
    if |ps| < 2 then means else
      seq(|ps|, i requires 0 <= i < |ps| => ContestMean(a, times[i], means[i], ps[i], histories[i], high))
  }

  // ----- the code

  function Pulls(rank: real, ranks: seq<real>, widths: seq<real>): (ps: seq<real>)
    requires |ranks| == |widths| && forall w | w in widths :: w > 0.0
    ensures |ps| == |ranks| && Target(rank, ranks, widths) == Sum(ps)
    ensures forall i | 0 <= i < |ps| :: widths[i] > 0.0 && ps[i] == Pull(rank, ranks[i], widths[i])
  {
    assert forall i | 0 <= i < |widths| :: widths[i] in widths;
    seq(|ranks|, i requires 0 <= i < |ranks| =>
      assert widths[i] in widths; Pull(rank, ranks[i], widths[i]))
  }

  /** `solve_index`: one target, one root search, one entry written. */
  method SolveIndex(a: Analysis, ranks: seq<real>, widths: seq<real>, terms: seq<Term>, performance: array<real>,
      index: nat, low: real, high: real)
    requires a.Valid() && |ranks| == |widths| == performance.Length && index < |ranks|
    requires Usable(terms) && forall w | w in widths :: w > 0.0
    modifies performance
    ensures performance[..] == old(performance[..])[index := Bisect(Curve(a.tanh, terms, 0.0), Target(ranks[index], ranks, widths), low, high)]
  {
    hide Bisect, Curve, EvalTanhs;
    var rank := ranks[index];
    ghost var pulls := Pulls(rank, ranks, widths);
    var target := 0.0;
    for k := 0 to |ranks|
      invariant target == Sum(pulls[..k])
      invariant performance[..] == old(performance[..])
    {
      assert widths[k] in widths;
      if ranks[k] > rank {
        target := target + 1.0 / widths[k];
      } else if ranks[k] < rank {
        target := target - 1.0 / widths[k];
      }
      assert pulls[..k + 1] == pulls[..k] + [pulls[k]];
      SumSnoc(pulls[..k], pulls[k]);
    }
    assert pulls[..|ranks|] == pulls;
    assert target == Target(rank, ranks, widths);
    var root := Solve(Curve(a.tanh, terms, 0.0), target, low, high);
    assert root == Bisect(Curve(a.tanh, terms, 0.0), Target(rank, ranks, widths), low, high);
    performance[index] := root;
    assert performance[..] == old(performance[..])[index := root];
  }

  /** `fill`: the middle first, inside the results at both ends, then the two halves. */
  method Fill(a: Analysis, ranks: seq<real>, widths: seq<real>, terms: seq<Term>, performance: array<real>,
      left: nat, right: nat)
    requires a.Valid() && |ranks| == |widths| == performance.Length && left <= right < |ranks|
    requires Usable(terms) && forall w | w in widths :: w > 0.0
    modifies performance
    ensures performance[..] == Run(Curve(a.tanh, terms, 0.0), Targets(ranks, widths), old(performance[..]), Plan(left, right))
    decreases right - left
  {
    if right - left > 1 {
      var middle := (left + right) / 2;
      ghost var f, targets := Curve(a.tanh, terms, 0.0), Targets(ranks, widths);
      RunPlan(f, targets, performance[..], left, right);
      SolveIndex(a, ranks, widths, terms, performance, middle, performance[right], performance[left]);
      assert performance[..] == Apply(f, targets, old(performance[..]), Step(middle, left, right));
      Fill(a, ranks, widths, terms, performance, left, middle);
      Fill(a, ranks, widths, terms, performance, middle, right);
    }
  }

  /** One pass of the history loop: the weight at position k from the weight before it. */
  method NextWeight(cache: Cache, t: nat, k: nat, previousWeight: real) returns (weight: real)
    requires cache.Valid() && k <= t + 1
    requires previousWeight == if k == 0 then 1.0 else WeightAt(t, k - 1)
    modifies cache
    ensures cache.Valid() && weight == WeightAt(t, k)
  {
    var gamma2 := if k > 0 then VAR_PER_CONTEST else 0.0;
    var historyVariance := cache.VarianceFor(t + 1 - k);
    FractionInUnit(historyVariance, gamma2);
    var factor := historyVariance / (historyVariance + gamma2);
    assert factor == Factor(t, k);
    weight := Times(previousWeight, Times(factor, factor));
  }

  /** The history loop: one term a performance, and the running sum of the weights. */
  method AccumulateTerms(cache: Cache, t: nat, history: seq<real>, sd: real) returns (terms: seq<Term>, weightSum: real)
    requires cache.Valid() && |history| <= t + 1
    modifies cache
    ensures cache.Valid()
    ensures |terms| == |history|
    ensures forall k | 0 <= k < |terms| :: terms[k] == Term(history[k], sd, WeightAt(t, k))
    ensures weightSum == WeightSum(t, |history|)
  {
    hide WeightAt;
    terms, weightSum := [], 0.0;
    var previousWeight := 1.0;
    for k := 0 to |history|
      invariant cache.Valid()
      invariant |terms| == k
      invariant forall i | 0 <= i < k :: terms[i] == Term(history[i], sd, WeightAt(t, i))
      invariant weightSum == WeightSum(t, k)
      invariant previousWeight == if k == 0 then 1.0 else WeightAt(t, k - 1)
    {
      var weight := NextWeight(cache, t, k, previousWeight);
      terms := terms + [Term(history[k], sd, weight)];
      previousWeight := weight;
      weightSum := weightSum + weight / BETA2;
    }
  }

  /** One player's new mean: the terms, what is left for the prior, and one root search. */
  method UpdateMean(a: Analysis, cache: Cache, t: nat, oldMean: real, history: seq<real>, low: real,
      high: real) returns (mean: real)
    requires a.Valid() && cache.Valid() && 1 <= |history| <= t + 1
    modifies cache
    ensures cache.Valid()
    ensures mean == NewMean(a, t, oldMean, history, low, high)
  {
    hide Bisect, Curve, EvalTanhs, Prior, Times, HistoryScale, WeightAt, WeightSum;
    var terms, weightSum := AccumulateTerms(cache, t, history, HistoryScale(a));
    assert terms == MeanTerms(a, t, history);
    var variance := cache.VarianceFor(t + 1);
    var initialWeight := 1.0 / variance - weightSum;
    assert initialWeight == InitialWeight(t, |history| - 1);
    hide MeanTerms, InitialWeight;
    InitialWeightPositive(t, |history| - 1);
    UsableTail(terms);
    var initialPerformance := EvalTanhs(a.tanh, terms[1..], oldMean) / initialWeight + oldMean;
    var target := Times(initialWeight, initialPerformance);
    assert target == MeanTarget(a, t, oldMean, history);
    mean := Solve(Curve(a.tanh, terms, initialWeight), target, low, high);
  }

  /** `recalculate`: displayed rating, mean and performance of every player of one contest. */
  method Recalculate(a: Analysis, cache: Cache, ranks: seq<real>, oldMeans: seq<real>, times: seq<nat>,
      histories: seq<seq<real>>, ceiling: Option<real>)
    returns (displayed: seq<int>, means: seq<real>, performances: seq<real>)
    requires a.Valid() && cache.Valid()
    requires |ranks| == |oldMeans| == |times| && HistoriesFit(times, histories)
    modifies cache
    ensures cache.Valid()
    ensures performances == ContestPerformances(a, ranks, oldMeans, times, Ceiling(ceiling))
    ensures means == ContestMeans(a, performances, oldMeans, times, histories, Ceiling(ceiling))
    ensures |displayed| == |ranks| && forall i | 0 <= i < |ranks| :: displayed[i] == Displayed(a, means[i], times[i])
    ensures forall i | 0 <= i < |ranks| :: Shows(a, displayed[i], means[i], times[i])
    ensures forall i, j | 0 <= i < |ranks| && 0 <= j < |ranks| && times[i] == times[j] && means[i] <= means[j] ::
      displayed[i] <= displayed[j]
  {
    hide Displayed, Shows, ContestMean, Performances, Targets, Curve, PriorTerms;
    var high := Ceiling(ceiling);
    if |ranks| < 2 {
      performances, means := oldMeans, oldMeans;
    } else {
      performances := SolvePerformances(a, cache, ranks, oldMeans, times, high);
      means := SolveMeans(a, cache, performances, oldMeans, times, histories, high);
    }
    displayed := [];
    for index := 0 to |ranks|
      invariant cache.Valid()
      invariant |displayed| == index
      invariant forall i | 0 <= i < index :: displayed[i] == Displayed(a, means[i], times[i])
    {
      displayed := displayed + [Displayed(a, means[index], times[index])];
    }
    forall i | 0 <= i < |ranks| ensures Shows(a, displayed[i], means[i], times[i]) {
      DisplayedShows(a, means[i], times[i]);
    }
    forall i, j | 0 <= i < |ranks| && 0 <= j < |ranks| && times[i] == times[j] && means[i] <= means[j]
      ensures displayed[i] <= displayed[j]
    {
      DisplayedOrder(a, means[i], means[j], times[i]);
    }
  }

  method SolveMeans(a: Analysis, cache: Cache, performances: seq<real>, oldMeans: seq<real>, times: seq<nat>,
      histories: seq<seq<real>>, high: real)
    returns (means: seq<real>)
    requires a.Valid() && cache.Valid() && |performances| == |oldMeans| == |times| >= 2 && HistoriesFit(times, histories)
    modifies cache
    ensures cache.Valid()
    ensures means == ContestMeans(a, performances, oldMeans, times, histories, high)
  {
    means := [];
    for index := 0 to |times|
      invariant cache.Valid()
      invariant |means| == index
      invariant forall i | 0 <= i < index ::
        means[i] == ContestMean(a, times[i], oldMeans[i], performances[i], histories[i], high)
    {
      var history := [performances[index]] + histories[index];
      var mean := UpdateMean(a, cache, times[index], oldMeans[index], history, RANGE_LOW, high);
      means := means + [mean];
    }
  }

  method SolvePerformances(a: Analysis, cache: Cache, ranks: seq<real>, means: seq<real>, times: seq<nat>, high: real)
    returns (performances: seq<real>)
    requires a.Valid() && cache.Valid() && |ranks| == |means| == |times| >= 2
    modifies cache
    ensures cache.Valid()
    ensures performances == ContestPerformances(a, ranks, means, times, high)
  {
    var count := |ranks|;
    var widths: seq<real> := [];
    for k := 0 to count
      invariant cache.Valid()
      invariant |widths| == k && forall i | 0 <= i < k :: widths[i] == Width(a, times[i])
    {
      var variance := cache.VarianceFor(times[k]);
      widths := widths + [Times(a.TanhC(), a.sqrt(variance + VAR_PER_CONTEST + BETA2))];
    }
    assert widths == Widths(a, times);
    var terms := PriorTerms(means, widths);
    var performance := new real[count](i => 0.0);
    ghost var zeros := performance[..];
    assert zeros == seq(count, i => 0.0);
    SolveIndex(a, ranks, widths, terms, performance, 0, RANGE_LOW, high);
    SolveIndex(a, ranks, widths, terms, performance, count - 1, RANGE_LOW, high);
    Fill(a, ranks, widths, terms, performance, 0, count - 1);
    performances := performance[..];
  }

  // ----- what the engine promises

  /** Performances in range and in standing order, equal ranks within 4, means between old mean and performance. */
  ghost predicate Outcome(ranks: seq<real>, means: seq<real>, ps: seq<real>, ms: seq<real>, high: real) {
    && |ranks| == |means| == |ps| == |ms|
    && (|ranks| >= 2 ==> Nonincreasing(ps))
    && (forall i | 0 <= i < |ps| :: RANGE_LOW <= ps[i] <= high)
    && (forall i, j | 0 <= i < |ps| && 0 <= j < |ps| && ranks[i] == ranks[j] :: ps[i] - ps[j] <= 4.0)
    && (forall i | 0 <= i < |ms| :: RANGE_LOW <= ms[i] <= high)
    && (forall i | 0 <= i < |ms| :: MinOf(means[i], ps[i]) - 2.0 <= ms[i] <= MaxOf(means[i], ps[i]) + 2.0)
  }

  ghost predicate InRange(means: seq<real>, high: real) {
    forall i | 0 <= i < |means| :: RANGE_LOW <= means[i] <= high
  }

  lemma PerformancePart(a: Analysis, ranks: seq<real>, means: seq<real>, times: seq<nat>, high: real)
    requires a.Valid() && |ranks| == |means| == |times| >= 2 && RANGE_LOW <= high
    requires forall i, j | 0 <= i <= j < |ranks| :: ranks[i] <= ranks[j]
    ensures var ps := ContestPerformances(a, ranks, means, times, high);
      && Nonincreasing(ps) && InRange(ps, high)
      && (forall i, j | 0 <= i < |ps| && 0 <= j < |ps| && ranks[i] == ranks[j] :: ps[i] - ps[j] <= 4.0)
  {
    var widths := Widths(a, times);
    var f, targets := Curve(a.tanh, PriorTerms(means, widths), 0.0), Targets(ranks, widths);
    CurveIncreases(a, PriorTerms(means, widths), 0.0);
    TargetsOrdered(ranks, widths);
    PerformancesSound(f, targets, RANGE_LOW, high);
    hide Curve, Performances, PriorTerms, Widths, Target, StrictlyIncreasing, Nonincreasing, IsSqrt;
    var ps := ContestPerformances(a, ranks, means, times, high);
    forall i | 0 <= i < |ps| ensures RANGE_LOW <= ps[i] <= high {
      assert Sound(f, targets[i], RANGE_LOW, high, ps[i]);
    }
  }

  lemma MeanPart(a: Analysis, ps: seq<real>, means: seq<real>, times: seq<nat>, histories: seq<seq<real>>, high: real)
    requires a.Valid() && |ps| == |means| == |times| >= 2 && HistoriesFit(times, histories)
    requires InRange(ps, high) && InRange(means, high)
    ensures var ms := ContestMeans(a, ps, means, times, histories, high);
      InRange(ms, high) &&
      forall i | 0 <= i < |ms| :: MinOf(means[i], ps[i]) - 2.0 <= ms[i] <= MaxOf(means[i], ps[i]) + 2.0
  {
    hide NewMean, StrictlyIncreasing, IsSqrt;
    forall i | 0 <= i < |ps|
      ensures var m := ContestMean(a, times[i], means[i], ps[i], histories[i], high);
        RANGE_LOW <= m <= high && MinOf(means[i], ps[i]) - 2.0 <= m <= MaxOf(means[i], ps[i]) + 2.0
    {
      NewMeanBetween(a, times[i], means[i], [ps[i]] + histories[i], RANGE_LOW, high);
    }
    hide ContestMean, MinOf, MaxOf;
  }

  /**
   * For standings in order and players inside the valid range, with a ceiling that is not below it:
   * performances are in range and non-increasing, equal ranks differ by at most 4, and every mean
   * stays in range, between the old mean and the performance up to 2.
   */
  lemma ContestSound(a: Analysis, ranks: seq<real>, means: seq<real>, times: seq<nat>, histories: seq<seq<real>>,
      high: real)
    requires a.Valid() && |ranks| == |means| == |times| && HistoriesFit(times, histories)
    requires forall i, j | 0 <= i <= j < |ranks| :: ranks[i] <= ranks[j]
    requires RANGE_LOW <= high && forall i | 0 <= i < |means| :: RANGE_LOW <= means[i] <= high
    ensures var ps := ContestPerformances(a, ranks, means, times, high);
      var ms := ContestMeans(a, ps, means, times, histories, high);
      Outcome(ranks, means, ps, ms, high)
  {
    hide *;
    if |ranks| >= 2 {
      var ps := ContestPerformances(a, ranks, means, times, high);
      IsInRange(means, high);
      PerformancePart(a, ranks, means, times, high);
      MeanPart(a, ps, means, times, histories, high);
      OutcomeIs(ranks, means, ps, ContestMeans(a, ps, means, times, histories, high), high);
    } else {
      FewPlayers(a, ranks, means, times, histories, high);
    }
  }

  lemma IsInRange(means: seq<real>, high: real)
    requires forall i | 0 <= i < |means| :: RANGE_LOW <= means[i] <= high
    ensures InRange(means, high)
  {
  }

  lemma OutcomeIs(ranks: seq<real>, means: seq<real>, ps: seq<real>, ms: seq<real>, high: real)
    requires |ranks| == |means| == |ps| == |ms| && Nonincreasing(ps) && InRange(ps, high) && InRange(ms, high)
    requires forall i, j | 0 <= i < |ps| && 0 <= j < |ps| && ranks[i] == ranks[j] :: ps[i] - ps[j] <= 4.0
    requires forall i | 0 <= i < |ms| :: MinOf(means[i], ps[i]) - 2.0 <= ms[i] <= MaxOf(means[i], ps[i]) + 2.0
    ensures Outcome(ranks, means, ps, ms, high)
  {
    hide Nonincreasing;
  }

  /** With fewer than two players nothing moves. */
  lemma FewPlayers(a: Analysis, ranks: seq<real>, means: seq<real>, times: seq<nat>, histories: seq<seq<real>>,
      high: real)
    requires a.Valid() && |ranks| == |means| == |times| < 2 && HistoriesFit(times, histories)
    requires forall i | 0 <= i < |means| :: RANGE_LOW <= means[i] <= high
    ensures Outcome(ranks, means, means, means, high)
    ensures ContestPerformances(a, ranks, means, times, high) == means
    ensures ContestMeans(a, means, means, times, histories, high) == means
  {
    hide StrictlyIncreasing, IsSqrt, HistoriesFit;
  }

  // ----- the scales, and the ceiling

  /** The logistic with the deviation x has a squared scale of 3 x^2 over pi^2. */
  lemma ScaleSquared(a: Analysis, root: real, squared: real, scale: real)
    requires a.Valid() && root * root == squared && scale == Times(root, a.TanhC())
    ensures scale * scale * (a.pi * a.pi) == 3.0 * squared
  {
    var s3 := a.sqrt(3.0);
    assert s3 * s3 == 3.0;
    var c := a.TanhC();
    assert c * a.pi == s3;
    assert (root * c) * (root * c) * (a.pi * a.pi) == (root * root) * ((c * a.pi) * (c * a.pi));
  }

  /** A player's width comes from the variance of a performance: the prior's, that of one contest, and BETA2. */
  lemma WidthSquared(a: Analysis, t: nat)
    requires a.Valid()
    ensures Width(a, t) * Width(a, t) * (a.pi * a.pi) == 3.0 * (Prior(t) + VAR_PER_CONTEST + BETA2)
  {
    var squared := Prior(t) + VAR_PER_CONTEST + BETA2;
    var root := a.sqrt(squared);
    assert root * root == squared;
    assert Width(a, t) == Times(root, a.TanhC());
    hide Width, Prior;
    ScaleSquared(a, root, squared, Width(a, t));
  }

  /** That of a past performance from BETA2 alone. */
  lemma HistoryScaleSquared(a: Analysis)
    requires a.Valid()
    ensures HistoryScale(a) * HistoryScale(a) * (a.pi * a.pi) == 3.0 * BETA2
  {
    var root := a.sqrt(BETA2);
    assert root * root == BETA2;
    assert HistoryScale(a) == Times(root, a.TanhC());
    hide HistoryScale;
    ScaleSquared(a, root, BETA2, HistoryScale(a));
  }

  /** Under a ceiling that no old mean exceeds, no performance and no new mean exceeds it. */
  lemma CeilingHolds(a: Analysis, ranks: seq<real>, means: seq<real>, times: seq<nat>, histories: seq<seq<real>>,
      ceiling: real)
    requires a.Valid() && |ranks| == |means| == |times| && HistoriesFit(times, histories)
    requires forall i, j | 0 <= i <= j < |ranks| :: ranks[i] <= ranks[j]
    requires RANGE_LOW <= ceiling && forall i | 0 <= i < |means| :: RANGE_LOW <= means[i] <= MinOf(RANGE_HIGH, ceiling)
    ensures var ps := ContestPerformances(a, ranks, means, times, Ceiling(Some(ceiling)));
      var ms := ContestMeans(a, ps, means, times, histories, Ceiling(Some(ceiling)));
      && (forall i | 0 <= i < |ps| :: ps[i] <= ceiling && ps[i] <= RANGE_HIGH)
      && (forall i | 0 <= i < |ms| :: ms[i] <= ceiling && ms[i] <= RANGE_HIGH)
  {
    var high := Ceiling(Some(ceiling));
    assert RANGE_LOW <= RANGE_HIGH;
    assert high == MinOf(RANGE_HIGH, ceiling) && RANGE_LOW <= high <= ceiling && high <= RANGE_HIGH;
    hide ContestPerformances, ContestMeans, HistoriesFit;
    ContestSound(a, ranks, means, times, histories, high);
  }
}
