/** Bounds and monotonicity of scores, through caps, minima, sums and both roundings. */
module ScoringBounds {
  import opened RealAlgebra
  import opened Rounding
  import opened Sums
  import opened Options
  import opened Scoring
  import opened ScoringLaws

  /** The points before gating on partial scoring. */
  function RawPoints(m: Manifest, slots: seq<Option<Report>>): real
    requires |slots| == |m.cases|
  {
    Round2(Sum(SubtaskValues(GroupIds(GroupList(m)), SlotSubtasks(m, slots))))
  }

  /** The aggregated verdict, before PARTIAL is turned into WA. */
  function Aggregate(m: Manifest, slots: seq<Option<Report>>, reports: int): Verdict
    requires |slots| == |m.cases|
  {
    AggregateResult(SlotVerdicts(slots), RawPoints(m, slots), Sum(GroupPoints(GroupList(m))), Total(m, reports), SlotPassed(slots))
  }

  /** Points are the raw points, or nothing when the gate is shut. */
  lemma JudgePoints(m: Manifest, slots: seq<Option<Report>>, reports: int)
    requires |slots| == |m.cases|
    ensures Judge(m, slots, reports).points ==
      if m.partialScore || Aggregate(m, slots, reports) in {AC, CE, IE} then RawPoints(m, slots) else 0.0
  {
  }

  ghost predicate NonNegative(m: Manifest) {
    forall c | c in m.cases :: c.points >= 0.0
  }

  // ----- monotonicity

  /** Each case of a earned no larger a share than in b; cases may also be dropped. */
  ghost predicate Lowered(m: Manifest, a: seq<Option<Report>>, b: seq<Option<Report>>) {
    && |a| == |b| == |m.cases|
    && forall i | 0 <= i < |a| :: a[i].Some? ==>
      b[i].Some? && Ratio(m.cases[i].points, a[i].value) <= Ratio(m.cases[i].points, b[i].value)
  }

  lemma CaseScoreOrder(maximum: real, r: Report, s: Report)
    requires maximum >= 0.0
    ensures 0.0 <= CaseScore(maximum, r)
    ensures Ratio(maximum, r) <= Ratio(maximum, s) ==> CaseScore(maximum, r) <= CaseScore(maximum, s)
  {
    var p, q := Ratio(maximum, r), Ratio(maximum, s);
    hide Ratio, RoundTo;
    RoundToNonnegative(Times(maximum, p), 10000.0);
    if p <= q {
      TimesOrder(maximum, p, q);
      hide Times;
      RoundToMonotone(Times(maximum, p), Times(maximum, q), 10000.0);
    }
  }

  /** A full or unstated score on an accepted case is worth the whole case. */
  lemma AcceptedRatio(maximum: real, r: Report)
    requires maximum >= 0.0 && r.status == AC
    requires r.totalPoints == maximum || r.totalPoints == 0.0
    requires r.points == maximum || r.points <= 0.0
    ensures Ratio(maximum, r) == 1.0
    ensures CaseScore(maximum, r) == Round4(maximum)
  {
    assert maximum > 0.0 ==> maximum / maximum == 1.0;
    assert Times(maximum, 1.0) == maximum;
  }

  /** Any verdict but AC and PARTIAL is worth nothing. */
  lemma RejectedRatio(maximum: real, r: Report)
    requires r.status != AC && r.status != PARTIAL
    ensures Ratio(maximum, r) == 0.0
    ensures CaseScore(maximum, r) == 0.0
  {
    assert Times(maximum, 0.0) == 0.0;
    RoundToZero(10000.0);
  }

  lemma SlotScoreOrder(m: Manifest, a: seq<Option<Report>>, b: seq<Option<Report>>, i: nat)
    requires NonNegative(m) && Lowered(m, a, b) && i < |a|
    ensures 0.0 <= SlotScore(m, a, i) <= SlotScore(m, b, i)
  {
    assert m.cases[i] in m.cases;
    if b[i].Some? {
      CaseScoreOrder(m.cases[i].points, b[i].value, b[i].value);
      if a[i].Some? {
        CaseScoreOrder(m.cases[i].points, a[i].value, b[i].value);
      }
    }
  }

  ghost predicate NonNegBelow(xs: seq<real>, ys: seq<real>) {
    |xs| == |ys| && forall k | 0 <= k < |xs| :: 0.0 <= xs[k] <= ys[k]
  }

  lemma {:induction false} GroupScoresOrder(m: Manifest, a: seq<Option<Report>>, b: seq<Option<Report>>, id: string,
      n: nat)
    requires NonNegative(m) && Lowered(m, a, b) && n <= |a|
    ensures NonNegBelow(GroupScores(m, a, id, n), GroupScores(m, b, id, n))
  {
    hide SlotScore, GroupOf;
    if n == 0 {
    } else {
      GroupScoresOrder(m, a, b, id, n - 1);
      SlotScoreOrder(m, a, b, n - 1);
    }
  }

  lemma GroupScoreOrder(g: Group, xs: seq<real>, ys: seq<real>)
    requires NonNegBelow(xs, ys)
    ensures 0.0 <= GroupScore(g, xs) <= GroupScore(g, ys) <= Round4(MaxOf(0.0, g.points))
  {
    var cap := MaxOf(0.0, g.points);
    var x := if xs == [] then 0.0 else if g.mode == "min" then Min(xs) else Sum(xs);
    var y := if ys == [] then 0.0 else if g.mode == "min" then Min(ys) else Sum(ys);
    SumNonnegative(xs);
    SumMonotone(xs, ys);
    if xs != [] {
      MinMonotone(xs, ys);
    }
    assert 0.0 <= x <= y;
    RoundToNonnegative(MinOf(x, cap), 10000.0);
    RoundToMonotone(MinOf(x, cap), MinOf(y, cap), 10000.0);
    RoundToMonotone(MinOf(y, cap), cap, 10000.0);
  }

  /** Lowering shares or dropping reports raises no subtask and not the total. */
  lemma ScoreMonotone(m: Manifest, a: seq<Option<Report>>, b: seq<Option<Report>>)
    requires NonNegative(m) && Lowered(m, a, b)
    ensures forall id | id in GroupDefs(GroupList(m)) :: SlotSubtasks(m, a)[id] <= SlotSubtasks(m, b)[id]
    ensures RawPoints(m, a) <= RawPoints(m, b)
  {
    var defs, ids := GroupDefs(GroupList(m)), GroupIds(GroupList(m));
    forall id | id in defs ensures SlotSubtasks(m, a)[id] <= SlotSubtasks(m, b)[id] {
      GroupScoresOrder(m, a, b, id, |a|);
      GroupScoreOrder(defs[id], GroupScores(m, a, id, |a|), GroupScores(m, b, id, |b|));
    }
    var xs, ys := SubtaskValues(ids, SlotSubtasks(m, a)), SubtaskValues(ids, SlotSubtasks(m, b));
    forall i | 0 <= i < |ids| ensures xs[i] <= ys[i] {
      assert ids[i] in ids;
    }
    hide SubtaskValues, SlotSubtasks, GroupDefs, GroupIds, GroupList;
    SumMonotone(xs, ys);
    RoundToMonotone(Sum(xs), Sum(ys), 100.0);
  }

  // ----- bounds

  /** The largest score each group can contribute. */
  function GroupCaps(m: Manifest): map<string, real> {
    var defs := GroupDefs(GroupList(m));
    map id | id in defs :: Round4(MaxOf(0.0, defs[id].points))
  }

  lemma GroupBounds(m: Manifest, slots: seq<Option<Report>>, id: string)
    requires NonNegative(m) && |slots| == |m.cases| && id in GroupDefs(GroupList(m))
    ensures 0.0 <= SlotSubtasks(m, slots)[id] <= GroupCaps(m)[id]
  {
    var g := GroupDefs(GroupList(m))[id];
    GroupScoresOrder(m, slots, slots, id, |slots|);
    var scores := GroupScores(m, slots, id, |slots|);
    GroupScoreOrder(g, scores, scores);
  }

  lemma RawBounds(m: Manifest, slots: seq<Option<Report>>)
    requires NonNegative(m) && |slots| == |m.cases|
    ensures 0.0 <= RawPoints(m, slots) <= Round2(Sum(SubtaskValues(GroupIds(GroupList(m)), GroupCaps(m))))
  {
    var ids := GroupIds(GroupList(m));
    var xs, ys := SubtaskValues(ids, SlotSubtasks(m, slots)), SubtaskValues(ids, GroupCaps(m));
    forall i | 0 <= i < |ids| ensures 0.0 <= xs[i] <= ys[i] {
      assert ids[i] in ids;
      hide GroupDefs, GroupIds, GroupList;
      GroupBounds(m, slots, ids[i]);
    }
    hide SubtaskValues, SlotSubtasks, GroupDefs, GroupIds, GroupList, GroupCaps, RoundTo;
    SumNonnegative(xs);
    SumMonotone(xs, ys);
    RoundToNonnegative(Sum(xs), 100.0);
    RoundToMonotone(Sum(xs), Sum(ys), 100.0);
  }

  /**
   * Points are between zero and the rounded caps; without partial scoring they are zero for every
   * result other than AC, CE and IE, and PARTIAL is never reported.
   */
  lemma JudgeBounds(m: Manifest, slots: seq<Option<Report>>, reports: int)
    requires NonNegative(m) && |slots| == |m.cases|
    ensures var s := Judge(m, slots, reports);
      && 0.0 <= s.points <= Round2(Sum(SubtaskValues(GroupIds(GroupList(m)), GroupCaps(m))))
      && (!m.partialScore && s.result !in {AC, CE, IE} ==> s.points == 0.0 && s.result != PARTIAL)
      && s.subtaskScores.Keys == GroupDefs(GroupList(m)).Keys
      && (s.status == Error <==> s.result == CE || s.result == IE)
  {
    RawBounds(m, slots);
  }

  // ----- packages with a single group

  function AllScores(m: Manifest, slots: seq<Option<Report>>): (scores: seq<real>)
    requires |slots| == |m.cases|
    ensures |scores| == |slots|
  {
    seq(|slots|, i requires 0 <= i < |slots| => SlotScore(m, slots, i))
  }

  lemma OneGroupDefs(g: Group)
    ensures GroupDefs([g]) == map[g.id := g] && GroupIds([g]) == [g.id]
  {
    assert [g][..0] == [];
    assert GroupDefs([g][..0]) == map[] && GroupIds([g][..0]) == [];
  }

  lemma {:induction false} OneGroupScores(m: Manifest, slots: seq<Option<Report>>, g: Group, n: nat)
    requires GroupList(m) == [g] && n <= |slots| == |m.cases|
    ensures GroupScores(m, slots, g.id, n) == AllScores(m, slots)[..n]
  {
    hide SlotScore;
    if n == 0 {
    } else {
      OneGroupDefs(g);
      OneGroupScores(m, slots, g, n - 1);
      assert GroupOf(m, n - 1) == g.id;
      assert AllScores(m, slots)[..n] == AllScores(m, slots)[..n - 1] + [AllScores(m, slots)[n - 1]];
    }
  }

  lemma OneGroup(m: Manifest, slots: seq<Option<Report>>, g: Group)
    requires GroupList(m) == [g] && |slots| == |m.cases|
    ensures RawPoints(m, slots) == Round2(GroupScore(g, AllScores(m, slots)))
    ensures Sum(GroupPoints(GroupList(m))) == g.points
  {
    OneGroupDefs(g);
    OneGroupScores(m, slots, g, |slots|);
    assert AllScores(m, slots)[..|slots|] == AllScores(m, slots);
    hide GroupScore, GroupScores, AllScores, GroupDefs, GroupIds, RoundTo, GroupList, Sum;
    var values := SubtaskValues(GroupIds(GroupList(m)), SlotSubtasks(m, slots));
    assert values == [GroupScore(g, AllScores(m, slots))];
    SumOne(values[0]);
    assert GroupPoints([g]) == [g.points];
    SumOne(g.points);
  }

  lemma SumOne(x: real)
    ensures Sum([x]) == x
  {
    assert [x][1..] == [];
  }

  /** A CE or IE case decides the result and lifts the gate: the other cases keep their points. */
  lemma ErrorKeepsPoints(m: Manifest, slots: seq<Option<Report>>, reports: int)
    requires |slots| == |m.cases|
    requires CE in SlotVerdicts(slots) || IE in SlotVerdicts(slots)
    ensures Judge(m, slots, reports).result == if CE in SlotVerdicts(slots) then CE else IE
    ensures Judge(m, slots, reports).points == RawPoints(m, slots)
  {
  }

  /** The result is CE or IE exactly when some case is reported so. */
  lemma ErrorResult(m: Manifest, slots: seq<Option<Report>>, reports: int)
    requires |slots| == |m.cases|
    ensures Judge(m, slots, reports).result in {CE, IE} <==> CE in SlotVerdicts(slots) || IE in SlotVerdicts(slots)
  {
    hide RawPoints, SlotSubtasks, SubtaskValues, GroupDefs, GroupIds, GroupList, GroupPoints, RoundTo, Sum;
  }

  /**
   * The gate, on the reported verdicts alone: with partial scoring off, a submission that is not accepted
   * keeps its raw points when some case is a CE or an IE, and gets nothing otherwise. So it earns points
   * exactly when there is such a case and something was earned.
   */
  lemma GateExactly(m: Manifest, slots: seq<Option<Report>>, reports: int)
    requires |slots| == |m.cases| && NonNegative(m) && !m.partialScore
    requires Judge(m, slots, reports).result != AC
    ensures Judge(m, slots, reports).points ==
      if CE in SlotVerdicts(slots) || IE in SlotVerdicts(slots) then RawPoints(m, slots) else 0.0
    ensures Judge(m, slots, reports).points > 0.0 <==>
      (CE in SlotVerdicts(slots) || IE in SlotVerdicts(slots)) && RawPoints(m, slots) > 0.0
  {
    ErrorResult(m, slots, reports);
    JudgeBounds(m, slots, reports);
    if CE in SlotVerdicts(slots) || IE in SlotVerdicts(slots) {
      ErrorKeepsPoints(m, slots, reports);
    }
    hide Judge, RawPoints, SlotVerdicts, NonNegative, GroupCaps;
  }

  function TwoCases(): Manifest {
    Manifest([ManifestCase(50.0, "default"), ManifestCase(50.0, "default")], [Group("default", 100.0, "sum")], false)
  }

  /** Half accepted, half broken: 50 points with partial scoring off. */
  lemma ErrorKeepsPointsExample()
    ensures var slots := [Some(Report(1, AC, 0.0, 0, 50.0, 50.0)), Some(Report(2, IE, 0.0, 0, 0.0, 50.0))];
      Judge(TwoCases(), slots, 2).points == 50.0
  {
    var m := TwoCases();
    var slots := [Some(Report(1, AC, 0.0, 0, 50.0, 50.0)), Some(Report(2, IE, 0.0, 0, 0.0, 50.0))];
    assert slots[1].value.status in SlotVerdicts(slots);
    ExampleScores(slots);
    hide *;
    ErrorKeepsPoints(m, slots, 2);
    OneGroup(m, slots, m.groups[0]);
    ExampleTotal(m.groups[0]);
  }

  lemma ExampleCases()
    ensures CaseScore(50.0, Report(1, AC, 0.0, 0, 50.0, 50.0)) == 50.0
    ensures CaseScore(50.0, Report(2, IE, 0.0, 0, 0.0, 50.0)) == 0.0
  {
    AcceptedRatio(50.0, Report(1, AC, 0.0, 0, 50.0, 50.0));
    RejectedRatio(50.0, Report(2, IE, 0.0, 0, 0.0, 50.0));
    RoundsToItself(50);
    hide RoundTo, Ratio, CaseScore;
  }

  lemma ExampleScores(slots: seq<Option<Report>>)
    requires slots == [Some(Report(1, AC, 0.0, 0, 50.0, 50.0)), Some(Report(2, IE, 0.0, 0, 0.0, 50.0))]
    ensures |slots| == |TwoCases().cases| && GroupList(TwoCases()) == [TwoCases().groups[0]]
    ensures AllScores(TwoCases(), slots) == [50.0, 0.0] && TwoCases().groups[0] == Group("default", 100.0, "sum")
  {
    ExampleCases();
    hide CaseScore, Sum;
    assert SlotScore(TwoCases(), slots, 0) == 50.0 && SlotScore(TwoCases(), slots, 1) == 0.0;
  }

  lemma ExampleTotal(g: Group)
    requires g == Group("default", 100.0, "sum")
    ensures Round2(GroupScore(g, [50.0, 0.0])) == 50.0
  {
    TwoScores(50.0, 0.0);
    RoundsToItself(50);
    hide RoundTo, Sum;
  }

  lemma TwoScores(x: real, y: real)
    ensures Sum([x, y]) == x + y
  {
    assert [x, y][1..] == [y] && [y][1..] == [];
    assert Sum([y]) == y;
  }

  lemma RoundsToItself(n: int)
    ensures Round2(n as real) == n as real == Round4(n as real)
  {
    assert n as real * 100.0 == (n * 100) as real && ((n * 100) as real).Floor == n * 100;
    assert n as real * 10000.0 == (n * 10000) as real && ((n * 10000) as real).Floor == n * 10000;
    RoundToGrid(n as real, 100.0);
    RoundToGrid(n as real, 10000.0);
  }
}
