/** What one more contest is rated from, and every field of the rows it stores. */
module RoundExact {
  import opened Rounding
  import opened Variance
  import opened RootFinder
  import opened EloMmr
  import opened EloMeans
  import opened EloEngine
  import opened TieRanks
  import opened RatingHistory

  /** The rows of all other contests, the latest first. */
  ghost predicate OthersInOrder(rows: seq<Row>, contest: int, others: seq<Row>) {
    && NewestFirst(others)
    && forall r :: multiset(others)[r] == if r.contest == contest then 0 else multiset(rows)[r]
  }

  /** What a user brings: mean and rating of the latest other row, and the performances of all, latest first. */
  ghost predicate Brings(rows: seq<Row>, contest: int, others: seq<Row>, mean: real, rating: int,
      performances: seq<real>)
  {
    && OthersInOrder(rows, contest, others)
    && mean == (if others == [] then 1500.0 else others[0].mean)
    && rating == (if others == [] then 1200 else others[0].ratingAfter)
    && |performances| == |others| && forall k | 0 <= k < |others| :: performances[k] == others[k].performance
  }

  ghost predicate Inputs(rows: seq<Row>, contest: int, mean: real, rating: int, performances: seq<real>) {
    exists others :: Brings(rows, contest, others, mean, rating, performances)
  }

  lemma {:induction false} WithoutCounts(rows: seq<Row>, contest: int, r: Row)
    ensures multiset(Without(rows, contest))[r] == if r.contest == contest then 0 else multiset(rows)[r]
  {
    if rows == [] {
    } else {
      assert rows == [rows[0]] + rows[1..];
      assert multiset(rows) == multiset{rows[0]} + multiset(rows[1..]);
      WithoutCounts(rows[1..], contest, r);
      if rows[0].contest != contest {
        assert multiset(Without(rows, contest)) == multiset{rows[0]} + multiset(Without(rows[1..], contest));
      }
    }
  }

  lemma HistoryInputs(t: Table, user: int, contest: int)
    requires AllNewestFirst(t)
    ensures var h := History(t, user, contest);
      Inputs(RowsOf(t, user), contest, PriorMean(h), PriorRating(h), PerformancesIn(h))
  {
    var rows, h := RowsOf(t, user), History(t, user, contest);
    assert NewestFirst(rows);
    WithoutOrdered(rows, contest);
    forall r: Row ensures multiset(h)[r] == if r.contest == contest then 0 else multiset(rows)[r] {
      WithoutCounts(rows, contest, r);
    }
    hide Without, NewestFirst;
    assert Brings(rows, contest, h, PriorMean(h), PriorRating(h), PerformancesIn(h));
  }

  // ----- who is rated

  /** The contest's rating window, bounds included. */
  predicate InWindow(c: Contest, rating: int) {
    && (c.ratingFloor.Some? ==> c.ratingFloor.value <= rating)
    && (c.ratingCeiling.Some? ==> rating <= c.ratingCeiling.value)
  }

  /** The rating the user brings is inside the window, or is not. */
  ghost predicate Brought(t: Table, c: Contest, e: Entry, inside: bool) {
    exists mean: real, rating: int, performances: seq<real> ::
      Inputs(RowsOf(t, e.user), c.id, mean, rating, performances) && InWindow(c, rating) == inside
  }

  lemma BroughtIs(t: Table, c: Contest, e: Entry)
    requires AllNewestFirst(t)
    ensures Brought(t, c, e, Eligible(t, c, e))
  {
    HistoryInputs(t, e.user, c.id);
    var h := History(t, e.user, c.id);
    assert InWindow(c, PriorRating(h)) == Eligible(t, c, e);
    hide Inputs;
  }

  lemma {:induction false} SelectMembers(t: Table, c: Contest, standings: seq<Entry>, e: Entry)
    ensures e in Select(t, c, standings) <==> e in standings && Eligible(t, c, e)
  {
    hide Eligible;
    if standings == [] {
    } else {
      SelectMembers(t, c, standings[1..], e);
    }
  }

  // ----- what is stored

  /** The displayed rating, forced into the limits. */
  predicate Within(limits: Limits, shown: int, stored: int) {
    && (limits.floor <= shown <= limits.ceiling ==> stored == shown)
    && (shown < limits.floor <= limits.ceiling ==> stored == limits.floor)
    && (shown > limits.ceiling || limits.floor > limits.ceiling ==> stored == limits.ceiling)
  }

  ghost predicate Near(rounded: int, x: real) {
    -0.5 <= rounded as real - x <= 0.5
  }

  /** The new mean solves the player's equation, over the performance of this contest and those before it. */
  ghost predicate Solved(a: Analysis, earlier: seq<real>, oldMean: real, performance: real, mean: real)
    requires a.Valid()
  {
    var t, history := |earlier|, [performance] + earlier;
    Sound(MeanCurve(a, t, history), MeanTarget(a, t, oldMean, history), RANGE_LOW, RANGE_HIGH, mean)
  }

  /** Every field of a stored row, from what the player brought and how many contests that was. */
  ghost predicate Stored(a: Analysis, limits: Limits, c: Contest, rank: real, oldMean: real, rating: int,
      earlier: seq<real>, many: bool, row: Row)
    requires a.Valid()
  {
    && row.contest == c.id && row.endTime == c.endTime && row.ratingBefore == rating
    && row.rank >= 1 && (row.rank > 1 ==> Near(row.rank, rank + 1.0)) && (row.rank == 1 ==> rank <= 0.5)
    && Near(row.volatilityBefore, a.sqrt(Prior(|earlier|))) && Near(row.volatilityAfter, a.sqrt(Prior(|earlier| + 1)))
    && (exists shown :: Shows(a, shown, row.mean, |earlier|) && Within(limits, shown, row.ratingAfter))
    && (if many then Solved(a, earlier, oldMean, row.performance, row.mean)
        else row.performance == oldMean && row.mean == oldMean)
  }

  lemma ShownRankIs(rank: real)
    ensures ShownRank(rank) >= 1 && (ShownRank(rank) > 1 ==> Near(ShownRank(rank), rank + 1.0))
    ensures ShownRank(rank) == 1 ==> rank <= 0.5
  {
    hide RoundHalfEven;
  }

  lemma ClampIs(limits: Limits, shown: int)
    ensures Within(limits, shown, Clamp(limits, shown))
  {
  }

  lemma VolatilityIs(a: Analysis, t: nat)
    ensures Near(Volatility(a, t), a.sqrt(Prior(t)))
  {
    hide RoundHalfEven, Prior;
  }

  lemma NewRowStored(a: Analysis, limits: Limits, c: Contest, rank: real, oldMean: real, rating: int,
      earlier: seq<real>, many: bool, mean: real, performance: real)
    requires a.Valid()
    requires if many then Solved(a, earlier, oldMean, performance, mean) else performance == oldMean && mean == oldMean
    ensures Stored(a, limits, c, rank, oldMean, rating, earlier, many,
      NewRow(a, limits, c, rank, rating, |earlier|, Displayed(a, mean, |earlier|), mean, performance))
  {
    ShownRankIs(rank);
    ClampIs(limits, Displayed(a, mean, |earlier|));
    VolatilityIs(a, |earlier|);
    VolatilityIs(a, |earlier| + 1);
    DisplayedShows(a, mean, |earlier|);
    hide ShownRank, Clamp, Volatility, Displayed, Shows, Within, Near, Solved;
  }

  lemma NewMeanSolves(a: Analysis, oldMean: real, performance: real, earlier: seq<real>)
    requires a.Valid()
    ensures Solved(a, earlier, oldMean, performance, NewMean(a, |earlier|, oldMean, [performance] + earlier, RANGE_LOW, RANGE_HIGH))
  {
    var t, history := |earlier|, [performance] + earlier;
    InitialWeightPositive(t, |history| - 1);
    CurveIncreases(a, MeanTerms(a, t, history), InitialWeight(t, |history| - 1));
    RangeInOrder();
    BisectBrackets(MeanCurve(a, t, history), MeanTarget(a, t, oldMean, history), RANGE_LOW, RANGE_HIGH);
    hide Bisect, MeanTarget, MeanTerms, InitialWeight;
  }

  /** Each performance solves its player's equation against the field, as it stood before. */
  ghost predicate FieldSolved(a: Analysis, ranks: seq<real>, means: seq<real>, times: seq<nat>, i: nat, performance: real)
    requires a.Valid() && |ranks| == |means| == |times| && i < |ranks|
  {
    var widths := Widths(a, times);
    Sound(Curve(a.tanh, PriorTerms(means, widths), 0.0), Targets(ranks, widths)[i], RANGE_LOW, RANGE_HIGH, performance)
  }

  lemma FieldSolves(a: Analysis, ranks: seq<real>, means: seq<real>, times: seq<nat>, i: nat)
    requires a.Valid() && |ranks| == |means| == |times| >= 2 && i < |ranks|
    requires forall i, j | 0 <= i <= j < |ranks| :: ranks[i] <= ranks[j]
    ensures FieldSolved(a, ranks, means, times, i, ContestPerformances(a, ranks, means, times, RANGE_HIGH)[i])
  {
    var widths := Widths(a, times);
    CurveIncreases(a, PriorTerms(means, widths), 0.0);
    TargetsOrdered(ranks, widths);
    RangeInOrder();
    PerformancesSound(Curve(a.tanh, PriorTerms(means, widths), 0.0), Targets(ranks, widths), RANGE_LOW, RANGE_HIGH);
    hide Curve, Performances, PriorTerms, Widths, Target, Sound;
  }

  lemma EngineFields(a: Analysis, limits: Limits, t: Table, c: Contest, es: seq<Entry>, i: nat)
    requires a.Valid() && i < |es|
    ensures var ranks, befores, times := RanksFrom(Keys(es), 0), Befores(t, c, es), Times(t, c, es);
      var ps := ContestPerformances(a, ranks, Means(t, c, es), times, RANGE_HIGH);
      var ms := ContestMeans(a, ps, Means(t, c, es), times, Histories(t, c, es), RANGE_HIGH);
      var h := History(t, es[i].user, c.id);
      && Means(t, c, es)[i] == PriorMean(h) && Histories(t, c, es)[i] == PerformancesIn(h) && times[i] == |h|
      && NewRows(a, limits, t, c, es)[i] ==
           NewRow(a, limits, c, ranks[i], PriorRating(h), |h|, Displayed(a, ms[i], |h|), ms[i], ps[i])
      && (|es| < 2 ==> ps[i] == PriorMean(h) && ms[i] == PriorMean(h))
      && (|es| >= 2 ==> ms[i] == NewMean(a, |h|, PriorMean(h), [ps[i]] + PerformancesIn(h), RANGE_LOW, RANGE_HIGH))
  {
    hide NewMean, Displayed, NewRow, RanksFrom, Performances, PriorTerms, History, PriorMean, PriorRating;
  }

  /**
   * Main result on what is stored, after any sequence of contests. Exactly those are left out whose rating is
   * outside the contest's window. Means, ratings, numbers of contests and
   * performances are those of each player's other rows, latest first; every row stores what follows from
   * them; and in a field of two or more each performance solves its equation against the field.
   */
  lemma RoundStores(a: Analysis, limits: Limits, rounds: seq<Round>, c: Contest, standings: seq<Entry>)
    requires a.Valid() && Standing(Keys(standings))
    ensures var t := Play(a, limits, rounds);
      var es := Select(t, c, standings);
      var rows, means, earlier := NewRows(a, limits, t, c, es), Means(t, c, es), Histories(t, c, es);
      && (forall e | e in es :: e in standings && Brought(t, c, e, true))
      && (forall e | e in standings && e !in es :: Brought(t, c, e, false))
      && (forall i | 0 <= i < |es| ::
            && Inputs(RowsOf(t, es[i].user), c.id, means[i], rows[i].ratingBefore, earlier[i])
            && Times(t, c, es)[i] == |earlier[i]|
            && Stored(a, limits, c, RanksFrom(Keys(es), 0)[i], means[i], rows[i].ratingBefore, earlier[i], |es| >= 2, rows[i]))
      && (|es| >= 2 ==> forall i | 0 <= i < |es| ::
            FieldSolved(a, RanksFrom(Keys(es), 0), means, Times(t, c, es), i, rows[i].performance))
  {
    hide *;
    var t := Play(a, limits, rounds);
    var es := Select(t, c, standings);
    PlayOk(a, limits, rounds);
    PlayOrderedFromNone(a, limits, rounds);
    forall e: Entry
      ensures e in es ==> e in standings && Brought(t, c, e, true)
      ensures e in standings && e !in es ==> Brought(t, c, e, false)
    {
      SelectMembers(t, c, standings, e);
      BroughtIs(t, c, e);
    }
    RoundInputs(limits, t, c, es);
    forall i | 0 <= i < |es|
      ensures Inputs(RowsOf(t, es[i].user), c.id, Means(t, c, es)[i], NewRows(a, limits, t, c, es)[i].ratingBefore, Histories(t, c, es)[i])
      ensures Times(t, c, es)[i] == |Histories(t, c, es)[i]|
      ensures Stored(a, limits, c, RanksFrom(Keys(es), 0)[i], Means(t, c, es)[i],
        NewRows(a, limits, t, c, es)[i].ratingBefore, Histories(t, c, es)[i], |es| >= 2, NewRows(a, limits, t, c, es)[i])
      ensures |es| >= 2 ==>
        FieldSolved(a, RanksFrom(Keys(es), 0), Means(t, c, es), Times(t, c, es), i, NewRows(a, limits, t, c, es)[i].performance)
    {
      RowStored(a, limits, t, c, es, i);
    }
  }

  lemma RowBefore(a: Analysis, limits: Limits, c: Contest, rank: real, before: int, t: nat, displayed: int, mean: real,
      performance: real)
    ensures var r := NewRow(a, limits, c, rank, before, t, displayed, mean, performance);
      r.ratingBefore == before && r.performance == performance
  {
    hide ShownRank, Clamp, Volatility;
  }

  lemma RowStored(a: Analysis, limits: Limits, t: Table, c: Contest, es: seq<Entry>, i: nat)
    requires a.Valid() && AllNewestFirst(t) && i < |es|
    requires forall i, j | 0 <= i <= j < |es| :: RanksFrom(Keys(es), 0)[i] <= RanksFrom(Keys(es), 0)[j]
    ensures var row, mean, earlier := NewRows(a, limits, t, c, es)[i], Means(t, c, es)[i], Histories(t, c, es)[i];
      && Inputs(RowsOf(t, es[i].user), c.id, mean, row.ratingBefore, earlier)
      && Times(t, c, es)[i] == |earlier|
      && Stored(a, limits, c, RanksFrom(Keys(es), 0)[i], mean, row.ratingBefore, earlier, |es| >= 2, row)
      && (|es| >= 2 ==>
            FieldSolved(a, RanksFrom(Keys(es), 0), Means(t, c, es), Times(t, c, es), i, row.performance))
  {
    hide *;
    var ranks, times := RanksFrom(Keys(es), 0), Times(t, c, es);
    var h := History(t, es[i].user, c.id);
    var ps := ContestPerformances(a, ranks, Means(t, c, es), times, RANGE_HIGH);
    var ms := ContestMeans(a, ps, Means(t, c, es), times, Histories(t, c, es), RANGE_HIGH);
    HistoryInputs(t, es[i].user, c.id);
    EngineFields(a, limits, t, c, es, i);
    if |es| >= 2 {
      NewMeanSolves(a, PriorMean(h), ps[i], PerformancesIn(h));
      FieldSolves(a, ranks, Means(t, c, es), times, i);
    }
    NewRowStored(a, limits, c, ranks[i], PriorMean(h), PriorRating(h), PerformancesIn(h), |es| >= 2, ms[i], ps[i]);
    RowBefore(a, limits, c, ranks[i], PriorRating(h), |h|, Displayed(a, ms[i], |h|), ms[i], ps[i]);
  }
}
