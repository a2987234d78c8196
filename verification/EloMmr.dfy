/** The Elo-MMR update for one contest: performances, means and displayed ratings. */
module EloMmr {
  import opened RealAlgebra
  import opened RootFinder
  import opened Sums
  import opened Variance

  /** The three analytic ingredients, taken by the laws the engine relies on. */
  datatype Analysis = Analysis(tanh: real -> real, sqrt: real -> real, pi: real) {
    ghost predicate Valid() {
      && StrictlyIncreasing(tanh)
      && tanh(0.0) == 0.0
      && IsSqrt(sqrt)
      && pi > 0.0
    }

    /** sqrt(3) / pi, the ratio of a logistic scale to its standard deviation. */
    function TanhC(): (c: real)
      requires Valid()
      ensures c > 0.0
    {
      SqrtPositive(3.0);
      sqrt(3.0) / pi
    }

    lemma SqrtPositive(x: real)
      requires Valid() && x > 0.0
      ensures sqrt(x) > 0.0
    {
      if sqrt(x) == 0.0 {
        assert false;
      }
    }

    lemma SqrtStrict(x: real, y: real)
      requires Valid() && 0.0 <= x < y
      ensures sqrt(x) < sqrt(y)
    {
      SquareOrder(sqrt(x), sqrt(y));
    }

    lemma TanhSign(x: real)
      requires Valid()
      ensures x <= 0.0 ==> tanh(x) <= 0.0
      ensures x >= 0.0 ==> tanh(x) >= 0.0
    {
      if x < 0.0 { Raise(tanh, x, 0.0); }
      if x > 0.0 { Raise(tanh, 0.0, x); }
    }
  }

  // ----- weighted tanh sums

  datatype Term = Term(mean: real, sd: real, weight: real)

  ghost predicate Usable(terms: seq<Term>) {
    forall t | t in terms :: t.sd > 0.0 && t.weight > 0.0
  }

  function TermValue(tanh: real -> real, t: Term, x: real): real
    requires t.sd > 0.0
  {
    (t.weight / t.sd) * tanh((x - t.mean) / (2.0 * t.sd))
  }

  function EvalTanhs(tanh: real -> real, terms: seq<Term>, x: real): real
    requires Usable(terms)
  {
    if terms == [] then 0.0
    else
      assert terms[0] in terms && forall t | t in terms[1..] :: t in terms;
      TermValue(tanh, terms[0], x) + EvalTanhs(tanh, terms[1..], x)
  }

  /** The function that `_solve` inverts. */
  function Curve(tanh: real -> real, terms: seq<Term>, linear: real): real -> real
    requires Usable(terms)
  {
    x => linear * x + EvalTanhs(tanh, terms, x)
  }

  lemma TermIncreases(a: Analysis, t: Term, x: real, y: real)
    requires a.Valid() && t.sd > 0.0 && t.weight > 0.0 && x < y
    ensures TermValue(a.tanh, t, x) < TermValue(a.tanh, t, y)
  {
    var d := 2.0 * t.sd;
    var u, v := (x - t.mean) / d, (y - t.mean) / d;
    assert v - u == (y - x) / d > 0.0;
    Raise(a.tanh, u, v);
    MulStrictOrder(t.weight / t.sd, a.tanh(u), a.tanh(v));
  }

  lemma QuotientTimes(d: real, u: real)
    requires d > 0.0
    ensures Times(d, u) / d == u
  {
    var x := Times(d, u);
    TimesBack(x, d);
    assert (x / d - u) * d == x / d * d - u * d;
    SameFactor(x / d - u, d);
  }

  lemma TimesBack(x: real, d: real)
    requires d > 0.0
    ensures x / d * d == x
  {
  }

  lemma SameFactor(x: real, d: real)
    requires d > 0.0 && x * d == 0.0
    ensures x == 0.0
  {
  }

  lemma TimesQuotient(w: real, sd: real, v: real)
    requires sd > 0.0
    ensures Times((w / sd) * v, sd) == Times(w, v)
  {
    var q := w / sd;
    assert q * sd == w;
    assert q * v * sd == (q * sd) * v;
  }

  /** A term at u double deviations from its mean is tanh(u), weighted and over the deviation. */
  lemma TermAt(tanh: real -> real, t: Term, x: real, u: real)
    requires t.sd > 0.0 && x - t.mean == Times(2.0 * t.sd, u)
    ensures Times(TermValue(tanh, t, x), t.sd) == Times(t.weight, tanh(u))
  {
    QuotientTimes(2.0 * t.sd, u);
    hide Times;
    assert (x - t.mean) / (2.0 * t.sd) == u;
    TimesQuotient(t.weight, t.sd, tanh(u));
  }

  lemma {:induction false} EvalIncreases(a: Analysis, terms: seq<Term>, x: real, y: real)
    requires a.Valid() && Usable(terms) && x <= y
    ensures EvalTanhs(a.tanh, terms, x) <= EvalTanhs(a.tanh, terms, y)
    ensures x < y && terms != [] ==> EvalTanhs(a.tanh, terms, x) < EvalTanhs(a.tanh, terms, y)
  {
    if terms == [] || x == y {
    } else {
      assert terms[0] in terms && forall t | t in terms[1..] :: t in terms;
      TermIncreases(a, terms[0], x, y);
      EvalIncreases(a, terms[1..], x, y);
    }
  }

  lemma CurveIncreases(a: Analysis, terms: seq<Term>, linear: real)
    requires a.Valid() && Usable(terms) && linear >= 0.0 && terms != []
    ensures StrictlyIncreasing(Curve(a.tanh, terms, linear))
  {
    var f := Curve(a.tanh, terms, linear);
    forall x, y | Below(x, y) ensures f(x) < f(y) {
      EvalIncreases(a, terms, x, y);
      MulOrder(linear, x, y);
      assert f(x) == linear * x + EvalTanhs(a.tanh, terms, x);
      assert f(y) == linear * y + EvalTanhs(a.tanh, terms, y);
    }
  }

  // ----- performances

  /** What one opponent adds to a player's target: the sign of the comparison over the opponent's width. */
  function Pull(rank: real, opponent: real, width: real): real
    requires width > 0.0
  {
    if opponent > rank then 1.0 / width
    else if opponent < rank then -(1.0 / width)
    else 0.0
  }

  function Target(rank: real, ranks: seq<real>, widths: seq<real>): real
    requires |ranks| == |widths| && forall w | w in widths :: w > 0.0
  {
    Sum(seq(|ranks|, i requires 0 <= i < |ranks| =>
      assert widths[i] in widths; Pull(rank, ranks[i], widths[i])))
  }

  /** A better (smaller) rank never has a smaller target; equal ranks have equal targets. */
  lemma TargetAntitone(r: real, s: real, ranks: seq<real>, widths: seq<real>)
    requires |ranks| == |widths| && (forall w | w in widths :: w > 0.0)
    requires r <= s
    ensures Target(r, ranks, widths) >= Target(s, ranks, widths)
  {
    var ps := seq(|ranks|, i requires 0 <= i < |ranks| =>
      assert widths[i] in widths; Pull(r, ranks[i], widths[i]));
    var qs := seq(|ranks|, i requires 0 <= i < |ranks| =>
      assert widths[i] in widths; Pull(s, ranks[i], widths[i]));
    forall i | 0 <= i < |ranks| ensures qs[i] <= ps[i] {
      assert widths[i] in widths;
      assert 1.0 / widths[i] > 0.0;
    }
    SumMonotone(qs, ps);
  }

  /** What the opponents on one of two ranks weigh. */
  function WeightOn(r: real, s: real, ranks: seq<real>, widths: seq<real>): (ws: seq<real>)
    requires |ranks| == |widths| && forall w | w in widths :: w > 0.0
    ensures |ws| == |ranks|
  {
    seq(|ranks|, i requires 0 <= i < |ranks| =>
      assert widths[i] in widths; if ranks[i] == r || ranks[i] == s then 1.0 / widths[i] else 0.0)
  }

  /** Whoever is ahead of every opponent has the sum of all their inverse widths as target. */
  lemma LeaderTarget(r: real, ranks: seq<real>, widths: seq<real>)
    requires |ranks| == |widths| && (forall w | w in widths :: w > 0.0)
    requires forall i | 0 <= i < |ranks| :: r < ranks[i]
    ensures var inverses := seq(|widths|, i requires 0 <= i < |widths| => assert widths[i] in widths; 1.0 / widths[i]);
      Target(r, ranks, widths) == Sum(inverses)
  {
    var inverses := seq(|widths|, i requires 0 <= i < |widths| => assert widths[i] in widths; 1.0 / widths[i]);
    var ps := seq(|ranks|, i requires 0 <= i < |ranks| => assert widths[i] in widths; Pull(r, ranks[i], widths[i]));
    assert ps == inverses;
  }

  /** Falling back to the next rank costs the inverse widths of everyone on the two ranks. */
  lemma TargetStep(r: real, s: real, ranks: seq<real>, widths: seq<real>)
    requires |ranks| == |widths| && (forall w | w in widths :: w > 0.0)
    requires r < s && forall i | 0 <= i < |ranks| :: ranks[i] <= r || s <= ranks[i]
    ensures Target(r, ranks, widths) - Target(s, ranks, widths) == Sum(WeightOn(r, s, ranks, widths))
  {
    var ps := seq(|ranks|, i requires 0 <= i < |ranks| => assert widths[i] in widths; Pull(r, ranks[i], widths[i]));
    var qs := seq(|ranks|, i requires 0 <= i < |ranks| => assert widths[i] in widths; Pull(s, ranks[i], widths[i]));
    var ws := WeightOn(r, s, ranks, widths);
    forall i | 0 <= i < |ranks| ensures ps[i] == qs[i] + ws[i] {
      assert widths[i] in widths;
    }
    SumPointwise(ps, qs, ws);
  }

  lemma {:induction false} SumPointwise(ps: seq<real>, qs: seq<real>, ws: seq<real>)
    requires |ps| == |qs| == |ws| && forall i | 0 <= i < |ps| :: ps[i] == qs[i] + ws[i]
    ensures Sum(ps) == Sum(qs) + Sum(ws)
  {
    if ps == [] {
    } else {
      SumPointwise(ps[1..], qs[1..], ws[1..]);
    }
  }

  /** One call of `solve_index`: the entry written and the two entries that bound its search. */
  datatype Step = Step(index: nat, left: nat, right: nat)

  /** The calls that `fill(left, right)` makes, in order. */
  function Plan(left: nat, right: nat): (plan: seq<Step>)
    ensures forall step | step in plan :: left <= step.left < step.index < step.right <= right
    decreases right - left
  {
    if right - left > 1 then
      var middle := (left + right) / 2;
      [Step(middle, left, right)] + Plan(left, middle) + Plan(middle, right)
    else []
  }

  /** Writing one entry from its two neighbours' results. */
  function Apply(f: real -> real, targets: seq<real>, s: seq<real>, step: Step): (r: seq<real>)
    requires |s| == |targets| && step.left < step.index < step.right < |s|
    ensures |r| == |s|
  {
    s[step.index := Bisect(f, targets[step.index], s[step.right], s[step.left])]
  }

  function Run(f: real -> real, targets: seq<real>, s: seq<real>, plan: seq<Step>): (r: seq<real>)
    requires |s| == |targets|
    requires forall step | step in plan :: step.left < step.index < step.right < |s|
    ensures |r| == |s|
    decreases |plan|
  {
    if plan == [] then s else
      assert plan[0] in plan && forall step | step in plan[1..] :: step in plan;
      Run(f, targets, Apply(f, targets, s, plan[0]), plan[1..])
  }

  lemma {:induction false} RunAppend(f: real -> real, targets: seq<real>, s: seq<real>, p: seq<Step>, q: seq<Step>)
    requires |s| == |targets|
    requires forall step | step in p + q :: step.left < step.index < step.right < |s|
    requires forall step | step in p :: step.left < step.index < step.right < |s|
    requires forall step | step in q :: step.left < step.index < step.right < |s|
    ensures Run(f, targets, s, p + q) == Run(f, targets, Run(f, targets, s, p), q)
    decreases |p|
  {
    if p == [] {
      assert p + q == q;
    } else {
      assert (p + q)[0] == p[0] && (p + q)[1..] == p[1..] + q;
      assert forall step | step in p[1..] :: step in p;
      RunAppend(f, targets, Apply(f, targets, s, p[0]), p[1..], q);
    }
  }

  function Indices(plan: seq<Step>): seq<nat> {
    seq(|plan|, i requires 0 <= i < |plan| => plan[i].index)
  }

  lemma IndicesAppend(p: seq<Step>, q: seq<Step>)
    ensures Indices(p + q) == Indices(p) + Indices(q)
  {
  }

  /** `fill` writes every index strictly between its ends exactly once, and no other. */
  lemma {:induction false} PlanCoversOnce(left: nat, right: nat, i: nat)
    ensures multiset(Indices(Plan(left, right)))[i] == if left < i < right then 1 else 0
    decreases right - left
  {
    if right - left > 1 {
      var middle := (left + right) / 2;
      var head, below, above := [Step(middle, left, right)], Plan(left, middle), Plan(middle, right);
      IndicesAppend(head + below, above);
      IndicesAppend(head, below);
      assert Indices(head) == [middle];
      PlanCoversOnce(left, middle, i);
      PlanCoversOnce(middle, right, i);
    } else {
      assert Indices([]) == [];
    }
  }

  /** The promise every performance keeps against the whole range, however narrow its own search was. */
  ghost predicate Sound(f: real -> real, target: real, low: real, high: real, p: real) {
    && low <= p <= high
    && (p != low ==> f(p - 2.0) <= target)
    && (p != high ==> target <= f(p + 2.0))
  }

  ghost predicate Nonincreasing(s: seq<real>) {
    forall i, j | 0 <= i <= j < |s| :: s[j] <= s[i]
  }

  /**
   * Solving between two sound neighbours gives a sound result between them: the guarantee does not
   * degrade with the depth of the recursion.
   */
  lemma NeighbourSearchSound(f: real -> real, t: real, tLeft: real, tRight: real, low: real, high: real, a: real,
      b: real)
    requires StrictlyIncreasing(f)
    requires tRight <= t <= tLeft && a <= b
    requires Sound(f, tRight, low, high, a) && Sound(f, tLeft, low, high, b)
    ensures Sound(f, t, low, high, Bisect(f, t, a, b))
    ensures a <= Bisect(f, t, a, b) <= b
  {
    BisectBrackets(f, t, a, b);
  }

  /** What holds of a segment between two solved ends once `fill` has run on it. */
  ghost predicate SegmentDone(f: real -> real, targets: seq<real>, s: seq<real>, low: real, high: real, left: nat,
      right: nat)
    requires |s| == |targets| && left <= right < |s|
  {
    && (forall i | left <= i <= right :: Sound(f, targets[i], low, high, s[i]))
    && (forall i, j | left <= i <= j <= right :: s[j] <= s[i])
  }

  /** `fill(left, right)` as one run, split at its middle. */
  lemma RunPlan(f: real -> real, targets: seq<real>, s: seq<real>, left: nat, right: nat)
    requires |s| == |targets| && left + 1 < right < |s|
    ensures var middle := (left + right) / 2;
      var s1 := Apply(f, targets, s, Step(middle, left, right));
      var s2 := Run(f, targets, s1, Plan(left, middle));
      Run(f, targets, s, Plan(left, right)) == Run(f, targets, s2, Plan(middle, right))
  {
    var middle := (left + right) / 2;
    var head, below, above := Step(middle, left, right), Plan(left, middle), Plan(middle, right);
    assert [head] + below + above == [head] + (below + above);
    assert (([head] + (below + above)))[1..] == below + above;
    RunAppend(f, targets, Apply(f, targets, s, head), below, above);
  }

  ghost predicate SameOutside(s: seq<real>, r: seq<real>, left: nat, right: nat) {
    |s| == |r| && forall i | 0 <= i < |s| && !(left < i < right) :: r[i] == s[i]
  }

  lemma JoinSegments(f: real -> real, targets: seq<real>, s: seq<real>, r: seq<real>, low: real, high: real,
      left: nat, middle: nat, right: nat)
    requires |s| == |targets| && left <= middle <= right < |s|
    requires SameOutside(s, r, middle, right)
    requires SegmentDone(f, targets, s, low, high, left, middle)
    requires SegmentDone(f, targets, r, low, high, middle, right)
    ensures SegmentDone(f, targets, r, low, high, left, right)
  {
    forall i, j | left <= i <= j <= right ensures r[j] <= r[i] {
      assert r[middle] == s[middle];
    }
  }

  lemma {:induction false} FillSound(f: real -> real, targets: seq<real>, s: seq<real>, low: real, high: real,
      left: nat, right: nat)
    requires StrictlyIncreasing(f) && |s| == |targets| && left < right < |s| && Nonincreasing(targets)
    requires Sound(f, targets[left], low, high, s[left]) && Sound(f, targets[right], low, high, s[right])
    requires s[right] <= s[left]
    ensures SegmentDone(f, targets, Run(f, targets, s, Plan(left, right)), low, high, left, right)
    ensures SameOutside(s, Run(f, targets, s, Plan(left, right)), left, right)
    decreases right - left
  {
    if right - left == 1 {
    } else {
      var middle := (left + right) / 2;
      RunPlan(f, targets, s, left, right);
      var s1 := Apply(f, targets, s, Step(middle, left, right));
      NeighbourSearchSound(f, targets[middle], targets[left], targets[right], low, high, s[right], s[left]);
      hide Run, Plan, Sound, StrictlyIncreasing, Bisect;
      FillSound(f, targets, s1, low, high, left, middle);
      var s2 := Run(f, targets, s1, Plan(left, middle));
      FillSound(f, targets, s2, low, high, middle, right);
      JoinSegments(f, targets, s2, Run(f, targets, s2, Plan(middle, right)), low, high, left, middle, right);
    }
  }

  /** All targets of a contest, in standing order. */
  function Targets(ranks: seq<real>, widths: seq<real>): (ts: seq<real>)
    requires |ranks| == |widths| && forall w | w in widths :: w > 0.0
    ensures |ts| == |ranks|
  {
    seq(|ranks|, i requires 0 <= i < |ranks| => Target(ranks[i], ranks, widths))
  }

  /** The two end solves followed by `fill`. */
  function Performances(f: real -> real, targets: seq<real>, low: real, high: real): (ps: seq<real>)
    requires |targets| >= 2
    ensures |ps| == |targets|
  {
    var n := |targets|;
    var ends := seq(n, i => 0.0)[0 := Bisect(f, targets[0], low, high)][n - 1 := Bisect(f, targets[n - 1], low, high)];
    Run(f, targets, ends, Plan(0, n - 1))
  }

  lemma FilledSound(f: real -> real, targets: seq<real>, low: real, high: real)
    requires StrictlyIncreasing(f) && |targets| >= 2 && low <= high && Nonincreasing(targets)
    ensures var ps := Performances(f, targets, low, high);
      Nonincreasing(ps) && forall i | 0 <= i < |ps| :: Sound(f, targets[i], low, high, ps[i])
  {
    var n := |targets|;
    var ends := seq(n, i => 0.0)[0 := Bisect(f, targets[0], low, high)][n - 1 := Bisect(f, targets[n - 1], low, high)];
    BisectBrackets(f, targets[0], low, high);
    BisectBrackets(f, targets[n - 1], low, high);
    BisectMonotone(f, targets[n - 1], targets[0], low, high);
    FillSound(f, targets, ends, low, high, 0, n - 1);
    hide Bisect, Run, Plan, Sound, StrictlyIncreasing;
  }

  /**
   * Main result on performances. For standings in order, they come out non-increasing and each keeps
   * the guarantee against the full range; tied players differ by at most 4.
   */
  lemma PerformancesSound(f: real -> real, targets: seq<real>, low: real, high: real)
    requires StrictlyIncreasing(f) && |targets| >= 2 && low <= high
    requires Nonincreasing(targets)
    ensures var ps := Performances(f, targets, low, high);
      && Nonincreasing(ps)
      && (forall i | 0 <= i < |ps| :: Sound(f, targets[i], low, high, ps[i]))
      && (forall i, j | 0 <= i < |ps| && 0 <= j < |ps| && targets[i] == targets[j] :: ps[i] - ps[j] <= 4.0)
  {
    hide *;
    FilledSound(f, targets, low, high);
    var ps := Performances(f, targets, low, high);
    forall i, j | 0 <= i < |ps| && 0 <= j < |ps| && targets[i] == targets[j] ensures ps[i] - ps[j] <= 4.0 {
      TiesClose(f, targets[i], low, high, ps[i], ps[j]);
    }
  }

  lemma TiesClose(f: real -> real, t: real, low: real, high: real, p: real, q: real)
    requires StrictlyIncreasing(f) && Sound(f, t, low, high, p) && Sound(f, t, low, high, q)
    ensures p - q <= 4.0
  {
    if p - q > 4.0 {
      Raise(f, q + 2.0, p - 2.0);
    }
  }

  lemma TargetsOrdered(ranks: seq<real>, widths: seq<real>)
    requires |ranks| == |widths| && forall w | w in widths :: w > 0.0
    requires forall i, j | 0 <= i <= j < |ranks| :: ranks[i] <= ranks[j]
    ensures Nonincreasing(Targets(ranks, widths))
  {
    var ts := Targets(ranks, widths);
    forall i, j | 0 <= i <= j < |ts| ensures ts[j] <= ts[i] {
      TargetAntitone(ranks[i], ranks[j], ranks, widths);
    }
  }
}
