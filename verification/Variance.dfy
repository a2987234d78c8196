/** Constants of the Elo-MMR engine and the memoised prior-variance recurrence. */
module Variance {
  import opened RealAlgebra

  const BETA := 328.33
  const BETA2 := BETA * BETA
  const MEAN_INIT := 1500.0
  const SD_INIT := 350.0 * BETA / 212.0
  const VAR_INIT := 350.0 * 350.0 * (BETA2 / (212.0 * 212.0))
  const VAR_PER_CONTEST := 1219.047619 * (BETA2 / (212.0 * 212.0))
  const RANGE_LOW := MEAN_INIT - 20.0 * SD_INIT
  const RANGE_HIGH := MEAN_INIT + 20.0 * SD_INIT

  /** One application of the recurrence that `variance_for` appends with. */
  function Next(previous: real): (v: real)
    requires previous > 0.0
    ensures 0.0 < v < BETA2
  {
    Harmonic(previous + VAR_PER_CONTEST, BETA2);
    1.0 / (1.0 / (previous + VAR_PER_CONTEST) + 1.0 / BETA2)
  }

  lemma NextEquation(previous: real)
    requires previous > 0.0
    ensures Next(previous) * (previous + VAR_PER_CONTEST + BETA2) == BETA2 * (previous + VAR_PER_CONTEST)
  {
    Harmonic(previous + VAR_PER_CONTEST, BETA2);
  }

  /** The prior variance after n rated contests, as a recurrence. */
  function Prior(n: nat): (v: real)
    ensures v > 0.0
  {
    if n == 0 then VAR_INIT else Next(Prior(n - 1))
  }

  /** The module-level cache: a list that only ever grows. */
  class Cache {
    var entries: seq<real>

    ghost predicate Valid()
      reads this
    {
      && |entries| > 0
      && forall i | 0 <= i < |entries| :: entries[i] == Prior(i)
    }

    constructor ()
      ensures Valid() && entries == [VAR_INIT]
    {
      entries := [VAR_INIT];
    }

    /** Every call returns the recurrence, whatever was asked for before. */
    method VarianceFor(timesRanked: nat) returns (v: real)
      requires Valid()
      modifies this
      ensures Valid()
      ensures v == Prior(timesRanked)
      ensures old(entries) <= entries
      ensures |entries| == if timesRanked < |old(entries)| then |old(entries)| else timesRanked + 1
    {
      while timesRanked >= |entries|
        invariant Valid()
        invariant old(entries) <= entries
        invariant |entries| <= if timesRanked < |old(entries)| then |old(entries)| else timesRanked + 1
      {
        var previous := entries[|entries| - 1];
        assert previous == Prior(|entries| - 1);
        entries := entries + [Next(previous)];
      }
      v := entries[timesRanked];
    }
  }

  /** The defining equation of VAR_LIM, cleared of its square root. */
  ghost predicate IsLimit(limit: real) {
    limit > 0.0 && limit * limit + VAR_PER_CONTEST * limit == BETA2 * VAR_PER_CONTEST
  }

  /** `sqrt` on the non-negative reals. */
  ghost predicate IsSqrt(sqrt: real -> real) {
    forall x | x >= 0.0 :: sqrt(x) >= 0.0 && sqrt(x) * sqrt(x) == x
  }

  /** VAR_LIM as elo_mmr.py computes it. */
  function VarLim(sqrt: real -> real): real {
    (sqrt(VAR_PER_CONTEST * VAR_PER_CONTEST + 4.0 * BETA2 * VAR_PER_CONTEST) - VAR_PER_CONTEST) / 2.0
  }

  lemma VarLimIsLimit(sqrt: real -> real)
    requires IsSqrt(sqrt)
    ensures IsLimit(VarLim(sqrt))
  {
    var vc, b2 := VAR_PER_CONTEST, BETA2;
    var d := vc * vc + 4.0 * b2 * vc;
    assert b2 * vc > 0.0;
    var root := sqrt(d);
    assert root * root == d;
    SquareOrder(vc, root);
    var limit := (root - vc) / 2.0;
    assert 2.0 * limit == root - vc;
    assert 4.0 * (limit * limit + vc * limit) == (root - vc) * (root - vc) + 2.0 * vc * (root - vc);
    assert (root - vc) * (root - vc) + 2.0 * vc * (root - vc) == root * root - vc * vc;
  }

  lemma LimitBelowStart(sqrt: real -> real)
    requires IsSqrt(sqrt)
    ensures 0.0 < VarLim(sqrt) < BETA2 < VAR_INIT
  {
    VarLimIsLimit(sqrt);
    RootBelow(VarLim(sqrt), VAR_PER_CONTEST, BETA2);
  }

  /** Above the limit the recurrence strictly falls but cannot cross it; the limit stays put. */
  lemma NextAgainstLimit(v: real, sqrt: real -> real)
    requires v > 0.0 && IsSqrt(sqrt)
    ensures v > VarLim(sqrt) ==> VarLim(sqrt) < Next(v) < v
    ensures v == VarLim(sqrt) ==> Next(v) == v
  {
    LimitBelowStart(sqrt);
    VarLimIsLimit(sqrt);
    NextAgainstRoot(v, VarLim(sqrt), VAR_PER_CONTEST, BETA2, Next(v));
    NextEquation(v);
  }

  lemma NextAgainstRoot(v: real, limit: real, c: real, b: real, next: real)
    requires v > 0.0 && c > 0.0 && 0.0 < limit < b
    requires limit * limit + c * limit == b * c
    ensures next * (v + c + b) == b * (v + c) ==>
      && (v > limit ==> limit < next < v)
      && (v == limit ==> next == v)
  {
    if next * (v + c + b) == b * (v + c) {
      var s := v + c + b;
      assert (next - limit) * s == (v - limit) * (b - limit) by {
        assert limit * s == limit * v + limit * c + limit * b;
        assert (v - limit) * (b - limit) == v * b - v * limit - limit * b + limit * limit;
      }
      assert (v - next) * s == (v - limit) * (v + limit + c) by {
        assert v * s == v * v + v * c + v * b;
        assert (v - limit) * (v + limit + c) == v * v + v * c - limit * limit - limit * c;
      }
      if v > limit {
        FactorPositive(next - limit, s, Times(v - limit, b - limit));
        FactorPositive(v - next, s, Times(v - limit, v + limit + c));
      }
      if v == limit {
        SameProduct(next, limit, s);
      }
    }
  }

  lemma SameProduct(x: real, y: real, s: real)
    requires s > 0.0 && (x - y) * s == 0.0
    ensures x == y
  {
  }

  /** The prior variance strictly decreases and stays above VAR_LIM for ever. */
  lemma {:induction false} PriorDecreases(n: nat, sqrt: real -> real)
    requires IsSqrt(sqrt)
    ensures VarLim(sqrt) < Prior(n + 1) < Prior(n)
  {
    LimitBelowStart(sqrt);
    if n == 0 {
    } else {
      PriorDecreases(n - 1, sqrt);
    }
    NextAgainstLimit(Prior(n), sqrt);
  }

  lemma {:induction false} PriorOrdered(m: nat, n: nat, sqrt: real -> real)
    requires IsSqrt(sqrt) && m <= n
    ensures VarLim(sqrt) < Prior(n) <= Prior(m)
    decreases n - m
  {
    PriorDecreases(n, sqrt);
    if m == n {
    } else {
      PriorOrdered(m, n - 1, sqrt);
      PriorDecreases(n - 1, sqrt);
    }
  }
}
