/** The points a worker reads from the archive as uploaded, against the points the stored manifest carries. */
module ArchivePoints {
  import opened Options
  import opened Rounding
  import opened RealAlgebra
  import opened Sums
  import opened Scoring
  import opened ScoringLaws
  import opened ScoringBounds
  import opened PackageImport
  import opened WorkerExecute

  /** An absent number is zero to the worker. */
  function Stated(c: ImportCase): real {
    if c.points.Some? then c.points.value else 0.0
  }

  /** The worker reads its cases from the archive's manifest.json; only when none are listed there does it take the stored ones. */
  function WorkerPoints(listed: bool, cases: seq<ImportCase>, m: Manifest): (points: seq<real>)
    requires |m.cases| == |cases|
    ensures |points| == |m.cases|
  {
    if listed then seq(|cases|, i requires 0 <= i < |cases| => Stated(cases[i])) else CasePoints(m.cases)
  }

  /** What the worker goes by is the stored points of a case, or nothing. */
  ghost predicate StoredOrZero(m: Manifest, points: seq<real>) {
    |points| == |m.cases| && forall i | 0 <= i < |points| :: points[i] == m.cases[i].points || points[i] == 0.0
  }

  /** Stored points are those stated, or the default. */
  lemma ImportedPoints(problem: Problem, raw: RawManifest, cases: seq<ImportCase>)
    requires Import(problem, raw, cases).Ok?
    ensures var m := Import(problem, raw, cases).value;
      && |m.cases| == |cases| > 0
      && forall i | 0 <= i < |cases| ::
           && m.cases[i].points == (if cases[i].points.Some? then cases[i].points.value else DefaultPoints(problem, |cases|))
           && m.cases[i].points >= 0.0
  {
    FilledCases(problem, cases);
    hide CheckGroups, CheckCoverage, CaseGroups, DefaultPoints, RoundTo, Sum;
  }

  lemma WorkerPointsFit(problem: Problem, raw: RawManifest, cases: seq<ImportCase>, listed: bool)
    requires Import(problem, raw, cases).Ok?
    ensures |Import(problem, raw, cases).value.cases| == |cases|
    ensures StoredOrZero(Import(problem, raw, cases).value, WorkerPoints(listed, cases, Import(problem, raw, cases).value))
  {
    ImportedPoints(problem, raw, cases);
    hide Import, DefaultPoints;
  }

  // ----- partial verdicts

  predicate IsPartial(outcome: Outcome) {
    outcome.Ran? && outcome.runCode == "AC" && outcome.checkCode == "PT"
  }

  /** The checker's points, between zero and the whole case, to four decimals. */
  function Share(stored: real, points: real): real {
    Round4(MinOf(MaxOf(points, 0.0), stored))
  }

  /** What a partial verdict worth `points` scores on a case stored with `stored` when the worker reads `read`. */
  function PartialScore(stored: real, read: real, index: nat, outcome: Outcome): real
    requires IsPartial(outcome)
  {
    CaseScore(stored, ReportFor(ResultOf(index, read, outcome)))
  }

  lemma QuotientTimes(x: real, y: real)
    requires y > 0.0
    ensures Times(y, x / y) == x
  {
  }

  lemma ZeroQuotient(y: real)
    requires y > 0.0
    ensures 0.0 / y == 0.0
  {
  }

  /** The clamped quotient, scaled back, is the clamped number. */
  lemma ClampedQuotient(x: real, y: real)
    requires y > 0.0
    ensures Times(y, MinOf(MaxOf(x / y, 0.0), 1.0)) == MinOf(MaxOf(x, 0.0), y)
  {
    QuotientTimes(x, y);
    ZeroQuotient(y);
    assert y / y == 1.0;
    if x <= 0.0 {
      DivOrder(x, 0.0, y);
    } else if x >= y {
      DivOrder(y, x, y);
    } else {
      DivOrder(0.0, x, y);
      DivOrder(x, y, y);
    }
  }

  lemma PartialReport(read: real, index: nat, outcome: Outcome)
    requires IsPartial(outcome)
    ensures var r := ReportFor(ResultOf(index, read, outcome));
      r.status == PARTIAL && r.totalPoints == read && r.points == MinOf(outcome.checkPoints, read)
  {
  }

  /** The worker knows the points: the share is kept. */
  lemma KnownPoints(stored: real, index: nat, outcome: Outcome)
    requires IsPartial(outcome) && stored >= 0.0
    ensures PartialScore(stored, stored, index, outcome) == Share(stored, outcome.checkPoints)
  {
    PartialReport(stored, index, outcome);
    var p := outcome.checkPoints;
    if stored > 0.0 {
      ClampedQuotient(MinOf(p, stored), stored);
      hide RoundTo, ResultOf, ReportFor, Times;
      assert MinOf(MaxOf(MinOf(p, stored), 0.0), stored) == MinOf(MaxOf(p, 0.0), stored);
    } else {
      hide RoundTo, ResultOf, ReportFor;
    }
  }

  /** The worker reads no points: whatever the checker gave, the case scores nothing. */
  lemma UnknownPoints(stored: real, index: nat, outcome: Outcome)
    requires IsPartial(outcome) && stored >= 0.0
    ensures PartialScore(stored, 0.0, index, outcome) == 0.0
  {
    PartialReport(0.0, index, outcome);
    var x := MinOf(outcome.checkPoints, 0.0);
    RoundToZero(10000.0);
    if stored > 0.0 {
      ClampedQuotient(x, stored);
    }
    hide RoundTo, ResultOf, ReportFor;
  }

  /** A share vanishes exactly when the checker gave next to nothing, on a case worth a hundredth or more. */
  lemma ShareVanishes(stored: real, points: real)
    requires stored >= 0.01
    ensures Share(stored, points) == 0.0 <==> points <= 0.00005
  {
    var x := MinOf(MaxOf(points, 0.0), stored);
    var n := RoundHalfEven(x * 10000.0);
    assert Round4(x) == 0.0 <==> n == 0;
    assert x * 10000.0 <= 0.5 <==> x <= 0.00005;
    if x <= 0.00005 {
      assert n == 0;
    } else {
      assert n >= 1;
    }
  }

  lemma DefaultIsHundredth(problem: Problem, count: nat)
    requires count > 0
    ensures DefaultPoints(problem, count) == 0.0 || DefaultPoints(problem, count) >= 0.01
  {
    var d := DefaultPoints(problem, count);
    DefaultPointsOnGrid(problem, count);
    if problem.points > 0.0 {
      RoundToNonnegative(problem.points / count as real, 100.0);
    }
    hide DefaultPoints;
    assert d * 100.0 == (d * 100.0).Floor as real;
    if d > 0.0 {
      assert (d * 100.0).Floor >= 1;
    }
  }

  /** A partial verdict keeps its share of the stored points, or nothing is left of it. */
  predicate KeepsShare(m: Manifest, points: seq<real>, i: nat, outcome: Outcome)
    requires |points| == |m.cases| && i < |points| && IsPartial(outcome)
  {
    PartialScore(m.cases[i].points, points[i], i, outcome) == Share(m.cases[i].points, outcome.checkPoints)
  }

  /**
   * Exactly when a partial verdict keeps its share of a case: manifest.json lists no cases, or states the
   * points of this one, or the default is zero, or the checker gave no more than half of the fourth decimal.
   * Otherwise the case scores nothing.
   */
  lemma PartialShareExactly(problem: Problem, raw: RawManifest, cases: seq<ImportCase>, listed: bool, i: nat,
      outcome: Outcome)
    requires Import(problem, raw, cases).Ok? && i < |cases| && IsPartial(outcome)
    ensures |Import(problem, raw, cases).value.cases| == |cases|
    ensures var m := Import(problem, raw, cases).value;
      var points := WorkerPoints(listed, cases, m);
      && (KeepsShare(m, points, i, outcome) <==>
            !listed || cases[i].points.Some? || DefaultPoints(problem, |cases|) == 0.0 || outcome.checkPoints <= 0.00005)
      && (!KeepsShare(m, points, i, outcome) ==> PartialScore(m.cases[i].points, points[i], i, outcome) == 0.0)
  {
    ImportedPoints(problem, raw, cases);
    var m := Import(problem, raw, cases).value;
    var points := WorkerPoints(listed, cases, m);
    var stored := m.cases[i].points;
    KnownPoints(stored, i, outcome);
    UnknownPoints(stored, i, outcome);
    DefaultIsHundredth(problem, |cases|);
    if stored >= 0.01 {
      ShareVanishes(stored, outcome.checkPoints);
    }
    hide Import, DefaultPoints, PartialScore, Share;
    assert points[i] == if listed then Stated(cases[i]) else stored;
  }

  ghost predicate KeepsShares(m: Manifest, points: seq<real>)
    requires |points| == |m.cases|
  {
    forall i: nat, outcome | i < |points| && IsPartial(outcome) :: KeepsShare(m, points, i, outcome)
  }

  /** Every partial verdict does, exactly when no cases are listed, all points are stated, or the default is zero. */
  lemma SharesKeptExactly(problem: Problem, raw: RawManifest, cases: seq<ImportCase>, listed: bool)
    requires Import(problem, raw, cases).Ok?
    ensures |Import(problem, raw, cases).value.cases| == |cases| > 0
    ensures KeepsShares(Import(problem, raw, cases).value, WorkerPoints(listed, cases, Import(problem, raw, cases).value))
      <==> !listed || DefaultPoints(problem, |cases|) == 0.0 || forall c | c in cases :: c.points.Some?
  {
    ImportedPoints(problem, raw, cases);
    var m := Import(problem, raw, cases).value;
    var points := WorkerPoints(listed, cases, m);
    hide Import, DefaultPoints, WorkerPoints, KeepsShare;
    forall i: nat, outcome | i < |points| && IsPartial(outcome)
      ensures KeepsShare(m, points, i, outcome) <==>
        !listed || cases[i].points.Some? || DefaultPoints(problem, |cases|) == 0.0 || outcome.checkPoints <= 0.00005
    {
      PartialShareExactly(problem, raw, cases, listed, i, outcome);
    }
    if c :| c in cases && c.points.None? {
      var i: nat :| i < |cases| && cases[i] == c;
      var whole := Ran("AC", "PT", 1.0, 0.0, 0);
      assert IsPartial(whole);
      assert KeepsShare(m, points, i, whole) <==> !listed || DefaultPoints(problem, |cases|) == 0.0;
    }
  }

  /** One case, worth 100 by default or as stated: the stored manifests agree, and half of it is kept only when stated. */
  lemma HalfShareLost()
    ensures var problem, raw := Problem(100.0, true), RawManifest([], None);
      var unstated, stated := [ImportCase(None, "default")], [ImportCase(Some(100.0), "default")];
      var half := Ran("AC", "PT", 50.0, 0.0, 0);
      && Import(problem, raw, unstated) == Import(problem, raw, stated)
      && Import(problem, raw, stated).Ok? && Import(problem, raw, stated).value.cases == [ManifestCase(100.0, "default")]
      && PartialScore(100.0, WorkerPoints(true, stated, Import(problem, raw, stated).value)[0], 0, half) == 50.0
      && PartialScore(100.0, WorkerPoints(true, unstated, Import(problem, raw, stated).value)[0], 0, half) == 0.0
  {
    var problem, raw := Problem(100.0, true), RawManifest([], None);
    var unstated, stated := [ImportCase(None, "default")], [ImportCase(Some(100.0), "default")];
    var half := Ran("AC", "PT", 50.0, 0.0, 0);
    HundredRounds();
    assert DefaultPoints(problem, 1) == 100.0;
    assert WithDefaults(unstated, 100.0) == stated == WithDefaults(stated, 100.0);
    assert stated[0] in stated;
    assert CaseGroups(stated) == {"default"};
    assert StoredCases(stated) == [ManifestCase(100.0, "default")];
    KnownPoints(100.0, 0, half);
    UnknownPoints(100.0, 0, half);
    hide RoundTo, PartialScore;
  }

  lemma HundredRounds()
    ensures Round2(100.0 / 1 as real) == 100.0 && Round4(50.0) == 50.0
  {
    assert 100.0 * 100.0 == 10000.0 && (10000.0).Floor == 10000;
    RoundToGrid(100.0, 100.0);
    assert 50.0 * 10000.0 == 500000.0 && (500000.0).Floor == 500000;
    RoundToGrid(50.0, 10000.0);
    hide RoundTo;
  }

  // ----- what that makes of a whole submission

  /** The same outcomes with every partial verdict replaced by a wrong answer. */
  function Downgraded(outcomes: seq<Outcome>): (ds: seq<Outcome>)
    ensures |ds| == |outcomes|
    ensures forall i | 0 <= i < |ds| :: ds[i] == if IsPartial(outcomes[i]) then outcomes[i].(checkCode := "WA") else outcomes[i]
  {
    seq(|outcomes|, i requires 0 <= i < |outcomes| =>
      if IsPartial(outcomes[i]) then outcomes[i].(checkCode := "WA") else outcomes[i])
  }

  /** Slots that differ only in partial verdicts shown as wrong answers. */
  predicate Alike(a: Option<Report>, b: Option<Report>) {
    || (a.None? && b.None?)
    || (a.Some? && b.Some? && a.value.timeUsed == b.value.timeUsed && a.value.memoryUsed == b.value.memoryUsed &&
        (a.value.status == b.value.status || (a.value.status == PARTIAL && b.value.status == WA)))
  }

  predicate AllAlike(a: seq<Option<Report>>, b: seq<Option<Report>>) {
    |a| == |b| && forall i | 0 <= i < |a| :: Alike(a[i], b[i])
  }

  lemma {:induction false} AlikeCounts(a: seq<Option<Report>>, b: seq<Option<Report>>)
    requires AllAlike(a, b)
    ensures SlotPassed(a) == SlotPassed(b) && SlotTime(a) == SlotTime(b) && SlotMemory(a) == SlotMemory(b)
  {
    if a == [] {
    } else {
      assert Alike(a[|a| - 1], b[|b| - 1]);
      AlikeCounts(a[..|a| - 1], b[..|b| - 1]);
    }
  }

  /** The verdict of a submission does not look for PARTIAL or WA among those of its cases. */
  lemma AlikeVerdicts(a: seq<Option<Report>>, b: seq<Option<Report>>, v: Verdict)
    requires AllAlike(a, b) && v != PARTIAL && v != WA
    ensures v in SlotVerdicts(a) <==> v in SlotVerdicts(b)
  {
    if v in SlotVerdicts(a) {
      var i :| 0 <= i < |a| && a[i].Some? && a[i].value.status == v;
      assert Alike(a[i], b[i]);
    }
    if v in SlotVerdicts(b) {
      var i :| 0 <= i < |b| && b[i].Some? && b[i].value.status == v;
      assert Alike(a[i], b[i]);
    }
  }

  ghost predicate SameScores(m: Manifest, a: seq<Option<Report>>, b: seq<Option<Report>>) {
    |a| == |b| == |m.cases| && forall i | 0 <= i < |a| :: SlotScore(m, a, i) == SlotScore(m, b, i)
  }

  lemma {:induction false} SameGroupScores(m: Manifest, a: seq<Option<Report>>, b: seq<Option<Report>>, id: string, n: nat)
    requires SameScores(m, a, b) && n <= |a|
    ensures GroupScores(m, a, id, n) == GroupScores(m, b, id, n)
  {
    hide SlotScore, GroupOf;
    if n == 0 {
    } else {
      SameGroupScores(m, a, b, id, n - 1);
    }
  }

  lemma SameSubtasks(m: Manifest, a: seq<Option<Report>>, b: seq<Option<Report>>)
    requires SameScores(m, a, b)
    ensures SlotSubtasks(m, a) == SlotSubtasks(m, b)
  {
    forall id | id in GroupDefs(GroupList(m)) ensures GroupScores(m, a, id, |a|) == GroupScores(m, b, id, |b|) {
      SameGroupScores(m, a, b, id, |a|);
    }
    hide GroupScores, GroupScore, GroupDefs, GroupList, SameScores;
  }

  lemma AlikeJudged(m: Manifest, a: seq<Option<Report>>, b: seq<Option<Report>>, reports: int)
    requires SameScores(m, a, b) && AllAlike(a, b)
    ensures Judge(m, a, reports) == Judge(m, b, reports)
  {
    SameSubtasks(m, a, b);
    AlikeCounts(a, b);
    AlikeSeen(a, b);
    hide Conclude, SlotSubtasks, SlotVerdicts, SlotPassed, SlotTime, SlotMemory, GroupIds, GroupList, GroupDefs,
      SameScores, AllAlike;
    SameConclusion(m, SlotSubtasks(m, a), SlotVerdicts(a), SlotVerdicts(b), Total(m, reports), SlotPassed(a),
      SlotTime(a), SlotMemory(a));
  }

  lemma AlikeSeen(a: seq<Option<Report>>, b: seq<Option<Report>>)
    requires AllAlike(a, b)
    ensures forall v | v in {CE, IE, TLE, MLE, RTE, OLE} :: v in SlotVerdicts(a) <==> v in SlotVerdicts(b)
  {
    hide AllAlike, SlotVerdicts;
    forall v | v in {CE, IE, TLE, MLE, RTE, OLE} ensures v in SlotVerdicts(a) <==> v in SlotVerdicts(b) {
      AlikeVerdicts(a, b, v);
    }
  }

  lemma SameConclusion(m: Manifest, subtasks: map<string, real>, seenA: set<Verdict>, seenB: set<Verdict>, total: int,
      passed: int, time: real, memory: int)
    requires forall v | v in {CE, IE, TLE, MLE, RTE, OLE} :: v in seenA <==> v in seenB
    requires forall id | id in GroupIds(GroupList(m)) :: id in subtasks
    ensures Conclude(m, subtasks, seenA, total, passed, time, memory) ==
      Conclude(m, subtasks, seenB, total, passed, time, memory)
  {
    hide GroupIds, GroupList, RoundTo, Sum, GroupPoints, GroupDefs;
  }

  lemma PartialAsWrong(m: Manifest, read: real, i: nat, outcome: Outcome)
    requires i < |m.cases| && m.cases[i].points >= 0.0 && !outcome.Fault?
    requires IsPartial(outcome) ==> read == 0.0
    ensures var d := if IsPartial(outcome) then outcome.(checkCode := "WA") else outcome;
      var r, s := ReportFor(ResultOf(i, read, outcome)), ReportFor(ResultOf(i, read, d));
      Alike(Some(r), Some(s)) && CaseScore(m.cases[i].points, r) == CaseScore(m.cases[i].points, s)
  {
    if IsPartial(outcome) {
      UnknownPoints(m.cases[i].points, i, outcome);
      var s := ReportFor(ResultOf(i, read, outcome.(checkCode := "WA")));
      assert s.status == WA;
      RejectedRatio(m.cases[i].points, s);
      hide CaseScore;
    }
  }

  /**
   * Where the worker reads no points, a partial verdict is a wrong answer in every respect: the summary of
   * the submission is the same with every partial verdict replaced by WA.
   */
  lemma UnstatedPartialIsWrong(m: Manifest, points: seq<real>, outcomes: seq<Outcome>, n: nat)
    requires NonNegative(m) && n <= |outcomes| == |points| == |m.cases|
    requires forall i | 0 <= i < n :: !outcomes[i].Fault? && (IsPartial(outcomes[i]) ==> points[i] == 0.0)
    ensures LoopSummary(m, ReportsFor(Results(points, outcomes, n))) ==
      LoopSummary(m, ReportsFor(Results(points, Downgraded(outcomes), n)))
  {
    var ds := Downgraded(outcomes);
    var ra, rb := ReportsFor(Results(points, outcomes, n)), ReportsFor(Results(points, ds, n));
    var a, b := Slots(m, ra), Slots(m, rb);
    NumberedDistinct(points, outcomes, n);
    NumberedDistinct(points, ds, n);
    hide Slots, Judge, LoopSummary, Results, ReportsFor, DistinctNumbers, ResultOf, ReportFor, CaseScore, Alike,
      IsPartial, Downgraded;
    ScoreRefines(m, ra);
    ScoreRefines(m, rb);
    forall i | 0 <= i < |m.cases| ensures Alike(a[i], b[i]) && SlotScore(m, a, i) == SlotScore(m, b, i) {
      PrefixSlots(m, points, outcomes, n, i);
      PrefixSlots(m, points, ds, n, i);
      if i < n {
        assert m.cases[i] in m.cases;
        PartialAsWrong(m, points[i], i, outcomes[i]);
      } else {
        NothingAlike();
      }
    }
    AlikeJudged(m, a, b, |ra|);
  }

  lemma NothingAlike()
    ensures Alike(None, None)
  {
  }

  // ----- any reported total

  lemma SameQuotient(x: real, y: real, k: real)
    requires y != 0.0 && k > 0.0
    ensures y * k != 0.0 && (x * k) / (y * k) == x / y
  {
    var q := x / y;
    assert q * y == x;
    var z := y * k;
    assert (x * k) == q * z;
    assert (q * z) / z == q;
  }

  /** The points a row is taken to report. */
  function Reported(r: Report): real {
    if r.status == AC && r.points <= 0.0 then r.totalPoints
    else if r.status == AC || r.status == PARTIAL then r.points
    else 0.0
  }

  lemma RatioOfTotal(maximum: real, r: Report)
    requires r.totalPoints > 0.0
    ensures Ratio(maximum, r) == MinOf(MaxOf(Reported(r) / r.totalPoints, 0.0), 1.0)
  {
  }

  /** The row in another unit. */
  function Scaled(r: Report, k: real): Report {
    r.(points := Times(r.points, k), totalPoints := Times(r.totalPoints, k))
  }

  lemma TimesSign(x: real, k: real)
    requires k > 0.0
    ensures Times(x, k) > 0.0 <==> x > 0.0
  {
    if x <= 0.0 {
      assert x * k <= 0.0;
    }
  }

  lemma ReportedScales(r: Report, k: real)
    requires r.totalPoints > 0.0 && k > 0.0
    ensures Scaled(r, k).totalPoints > 0.0
    ensures Reported(Scaled(r, k)) / Scaled(r, k).totalPoints == Reported(r) / r.totalPoints
  {
    TimesSign(r.points, k);
    TimesSign(r.totalPoints, k);
    assert Times(0.0, k) == 0.0;
    assert Scaled(r, k).totalPoints == r.totalPoints * k;
    hide Times;
    assert Reported(Scaled(r, k)) == Times(Reported(r), k);
    QuotientScales(Reported(r), r.totalPoints, k);
  }

  lemma QuotientScales(x: real, y: real, k: real)
    requires y > 0.0 && k > 0.0
    ensures Times(y, k) != 0.0 && Times(x, k) / Times(y, k) == x / y
  {
    SameQuotient(x, y, k);
  }

  /** Only the share of the reported total counts: points and total in another unit score the same. */
  lemma ShareOfTotal(maximum: real, r: Report, k: real)
    requires r.totalPoints > 0.0 && k > 0.0
    ensures CaseScore(maximum, Scaled(r, k)) == CaseScore(maximum, r)
  {
    hide Reported, RoundTo, Ratio, Scaled;
    ReportedScales(r, k);
    RatioOfTotal(maximum, r);
    RatioOfTotal(maximum, Scaled(r, k));
  }
}
