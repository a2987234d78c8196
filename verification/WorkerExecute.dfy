/** The worker's case loop, and why stopping early can never score more. */
module WorkerExecute {
  import opened Options
  import opened Sums
  import opened Scoring
  import opened ScoringLaws
  import opened ScoringBounds

  /** What running and checking one case comes to; both steps are foreign code. */
  datatype Outcome =
    | Fault
    | Ran(runCode: string, checkCode: string, checkPoints: real, seconds: real, memoryBytes: nat)

  datatype CaseResult = CaseResult(caseNumber: int, code: string, timeUsed: real, memoryUsed: int, points: real, totalPoints: real)

  /** The result posted for one case; no result is posted after a fault. */
  function ResultOf(index: nat, casePoints: real, outcome: Outcome): CaseResult
    requires !outcome.Fault?
  {
    var Ran(run, check, points, seconds, bytes) := outcome;
    if run != "AC" then CaseResult(index + 1, run, seconds, bytes / 1024, 0.0, casePoints)
    else
      CaseResult(index + 1, check, seconds, bytes / 1024,
        if check == "AC" then casePoints
        else if check == "PT" then (if points < casePoints then points else casePoints)
        else 0.0,
        casePoints)
  }

  predicate Passes(outcome: Outcome) {
    outcome.Ran? && outcome.runCode == "AC" && outcome.checkCode == "AC"
  }

  /**
   * What a posted result says: the status of the run itself unless that succeeded, and then the checker's; the
   * whole points for AC, the checker's own up to those for PT, none otherwise; memory in whole KiB.
   */
  predicate Records(r: CaseResult, index: nat, casePoints: real, outcome: Outcome)
    requires outcome.Ran?
  {
    && r.caseNumber == index + 1 && r.totalPoints == casePoints && r.timeUsed == outcome.seconds
    && r.memoryUsed * 1024 <= outcome.memoryBytes < (r.memoryUsed + 1) * 1024
    && (outcome.runCode != "AC" ==> r.code == outcome.runCode && r.points == 0.0)
    && (outcome.runCode == "AC" ==>
          && r.code == outcome.checkCode
          && (r.code == "AC" ==> r.points == casePoints)
          && (r.code == "PT" ==> r.points == MinOf(outcome.checkPoints, casePoints))
          && (r.code != "AC" && r.code != "PT" ==> r.points == 0.0))
  }

  lemma ResultRecords(index: nat, casePoints: real, outcome: Outcome)
    requires outcome.Ran?
    ensures Records(ResultOf(index, casePoints, outcome), index, casePoints, outcome)
    ensures Passes(outcome) <==> ResultOf(index, casePoints, outcome).code == "AC"
  {
  }

  /** The results of a worker: one for each case up to where it stops, which is the first not AC when it cuts short. */
  ghost predicate Recorded(results: seq<CaseResult>, points: seq<real>, outcomes: seq<Outcome>, shortCircuit: bool)
    requires |points| == |outcomes|
  {
    && |results| <= |outcomes| && (!shortCircuit ==> |results| == |outcomes|)
    && (forall k | 0 <= k < |results| :: outcomes[k].Ran? && Records(results[k], k, points[k], outcomes[k]))
    && (shortCircuit ==> forall k | 0 <= k < |results| - 1 :: results[k].code == "AC")
    && (|results| < |outcomes| ==> results != [] && results[|results| - 1].code != "AC")
  }

  lemma ResultsRecorded(points: seq<real>, outcomes: seq<Outcome>, shortCircuit: bool)
    requires |points| == |outcomes|
    requires forall i | 0 <= i < Executed(outcomes, shortCircuit) :: !outcomes[i].Fault?
    ensures Recorded(Results(points, outcomes, Executed(outcomes, shortCircuit)), points, outcomes, shortCircuit)
  {
    var n := Executed(outcomes, shortCircuit);
    hide Executed, ResultOf, Records, Passes;
    forall k | 0 <= k < n
      ensures Records(ResultOf(k, points[k], outcomes[k]), k, points[k], outcomes[k])
      ensures Passes(outcomes[k]) <==> ResultOf(k, points[k], outcomes[k]).code == "AC"
    {
      ResultRecords(k, points[k], outcomes[k]);
    }
  }

  /** How many cases are executed: all of them, or up to the first that does not pass. */
  function Executed(outcomes: seq<Outcome>, shortCircuit: bool): (n: nat)
    ensures n <= |outcomes|
    ensures forall i | 0 <= i < n - 1 :: shortCircuit ==> Passes(outcomes[i])
    ensures n < |outcomes| ==> shortCircuit && n > 0 && !Passes(outcomes[n - 1])
  {
    if outcomes == [] then 0
    else
      var k := |outcomes| - 1;
      var before := Executed(outcomes[..k], shortCircuit);
      if before < k || (shortCircuit && k > 0 && !Passes(outcomes[k - 1])) then before else k + 1
  }

  function Results(points: seq<real>, outcomes: seq<Outcome>, n: nat): (rs: seq<CaseResult>)
    requires n <= |outcomes| == |points| && forall i | 0 <= i < n :: !outcomes[i].Fault?
    ensures |rs| == n
  {
    seq(n, i requires 0 <= i < n => ResultOf(i, points[i], outcomes[i]))
  }

  /** The loop: `break` at the first failure when short-circuiting, no results at all on a fault. */
  method Execute(points: seq<real>, outcomes: seq<Outcome>, shortCircuit: bool)
    returns (results: Option<seq<CaseResult>>)
    requires |points| == |outcomes|
    ensures var n := Executed(outcomes, shortCircuit);
      results == if exists i | 0 <= i < n :: outcomes[i].Fault? then None else Some(Results(points, outcomes, n))
    ensures results.Some? ==> Recorded(results.value, points, outcomes, shortCircuit)
  {
    if !(exists i | 0 <= i < Executed(outcomes, shortCircuit) :: outcomes[i].Fault?) {
      ResultsRecorded(points, outcomes, shortCircuit);
    }
    var collected: seq<CaseResult> := [];
    ghost var n := Executed(outcomes, shortCircuit);
    hide Recorded;
    for index := 0 to |outcomes|
      invariant index <= n
      invariant forall i | 0 <= i < index :: !outcomes[i].Fault? && (shortCircuit ==> Passes(outcomes[i]))
      invariant collected == Results(points, outcomes, index)
    {
      var outcome := outcomes[index];
      assert index < n;
      if outcome.Fault? {
        return None;
      }
      collected := collected + [ResultOf(index, points[index], outcome)];
      if shortCircuit && !Passes(outcome) {
        assert index + 1 == n;
        assert collected == Results(points, outcomes, n);
        return Some(collected);
      }
    }
    results := Some(collected);
  }

  // ----- the effect on the score

  function ReportFor(r: CaseResult): Report {
    Report(r.caseNumber, ParseVerdict(r.code), r.timeUsed, r.memoryUsed, r.points, r.totalPoints)
  }

  function ReportsFor(rs: seq<CaseResult>): (reports: seq<Report>)
    ensures |reports| == |rs|
  {
    seq(|rs|, i requires 0 <= i < |rs| => ReportFor(rs[i]))
  }

  /** Results are numbered 1, 2, ... so the reports fill a prefix of the slots. */
  lemma PrefixSlots(m: Manifest, points: seq<real>, outcomes: seq<Outcome>, n: nat, i: nat)
    requires n <= |outcomes| == |points| == |m.cases| && i < |m.cases|
    requires forall k | 0 <= k < n :: !outcomes[k].Fault?
    ensures var reports := ReportsFor(Results(points, outcomes, n));
      && DistinctNumbers(reports)
      && Slots(m, reports)[i] == if i < n then Some(ReportFor(ResultOf(i, points[i], outcomes[i]))) else None
  {
    var reports := ReportsFor(Results(points, outcomes, n));
    assert forall k | 0 <= k < n :: reports[k].caseNumber == k + 1;
    if i < n {
      assert reports[i] in reports;
      SlotHolds(m, reports, i, reports[i]);
    } else if Slots(m, reports)[i].Some? {
      SlotHolds(m, reports, i, Slots(m, reports)[i].value);
    }
  }

  /** The slots of a cut run: equal to the full run's up to the cut, empty after it. */
  ghost predicate CutAt(a: seq<Option<Report>>, b: seq<Option<Report>>, n: nat) {
    && |a| == |b| && n <= |a|
    && (forall i | 0 <= i < n :: a[i] == b[i])
    && (forall i | n <= i < |a| :: a[i].None?)
    && (n < |a| ==> n > 0 && a[n - 1].Some? && a[n - 1].value.status != AC)
  }

  lemma {:induction false} PassedBound(slots: seq<Option<Report>>)
    ensures SlotPassed(slots) <= |slots|
    ensures (exists i | 0 <= i < |slots| :: slots[i].None? || slots[i].value.status != AC) ==> SlotPassed(slots) < |slots|
  {
    if slots == [] {
    } else {
      var front := slots[..|slots| - 1];
      PassedBound(front);
      if i :| 0 <= i < |slots| && (slots[i].None? || slots[i].value.status != AC) {
        assert i < |front| ==> front[i] == slots[i];
      }
    }
  }

  /** A cut run never outscores the full one, whether or not partial scoring is on. */
  lemma CutNeverOutscores(m: Manifest, a: seq<Option<Report>>, b: seq<Option<Report>>, n: nat, ra: int, rb: int)
    requires NonNegative(m) && |a| == |m.cases| && CutAt(a, b, n)
    ensures Judge(m, a, ra).points <= Judge(m, b, rb).points
  {
    if n == |a| {
      assert a == b;
      CountIrrelevant(m, a, ra, rb);
    } else {
      CutScores(m, a, b, n, ra, rb);
    }
  }

  lemma CutScores(m: Manifest, a: seq<Option<Report>>, b: seq<Option<Report>>, n: nat, ra: int, rb: int)
    requires NonNegative(m) && |a| == |m.cases| && CutAt(a, b, n) && n < |a|
    ensures Judge(m, a, ra).points <= Judge(m, b, rb).points
  {
    CutLowers(m, a, b, n);
    ScoreMonotone(m, a, b);
    RawBounds(m, a);
    RawBounds(m, b);
    JudgePoints(m, a, ra);
    JudgePoints(m, b, rb);
    var possible, total := Sum(GroupPoints(GroupList(m))), Total(m, ra);
    hide Judge, RawPoints, SlotVerdicts, SlotPassed, GroupList, Lowered, CutAt, Slots, AggregateResult;
    GateOrder(m.partialScore, SlotVerdicts(a), SlotVerdicts(b), RawPoints(m, a), RawPoints(m, b), possible, total, SlotPassed(a), SlotPassed(b));
  }

  lemma CutLowers(m: Manifest, a: seq<Option<Report>>, b: seq<Option<Report>>, n: nat)
    requires |a| == |m.cases| && CutAt(a, b, n) && n < |a|
    ensures Lowered(m, a, b) && SlotPassed(a) < |a| && SlotVerdicts(a) <= SlotVerdicts(b)
  {
    PassedBound(a);
    SeenGrows(a, b, n);
  }

  function Gated(partial: bool, verdict: Verdict, raw: real): real {
    if partial || verdict in {AC, CE, IE} then raw else 0.0
  }

  /** Not all passed and nothing new seen: the gate cannot open for the cut run alone. */
  lemma GateOrder(partial: bool, seenA: set<Verdict>, seenB: set<Verdict>, rawA: real, rawB: real, possible: real,
      total: int, passedA: int, passedB: int)
    requires seenA <= seenB && 0.0 <= rawA <= rawB && 0 < total && passedA < total
    ensures Gated(partial, AggregateResult(seenA, rawA, possible, total, passedA), rawA)
      <= Gated(partial, AggregateResult(seenB, rawB, possible, total, passedB), rawB)
  {
  }

  /** The number of rows only matters for a manifest without cases, and there nothing is earned. */
  lemma CountIrrelevant(m: Manifest, slots: seq<Option<Report>>, ra: int, rb: int)
    requires |slots| == |m.cases|
    ensures Judge(m, slots, ra).points == Judge(m, slots, rb).points
  {
    hide Judge, RawPoints, SlotVerdicts, GroupList;
    JudgePoints(m, slots, ra);
    JudgePoints(m, slots, rb);
  }

  lemma SeenGrows(a: seq<Option<Report>>, b: seq<Option<Report>>, n: nat)
    requires CutAt(a, b, n)
    ensures SlotVerdicts(a) <= SlotVerdicts(b)
  {
    forall v | v in SlotVerdicts(a) ensures v in SlotVerdicts(b) {
      var i :| 0 <= i < |a| && a[i].Some? && a[i].value.status == v;
      assert b[i] == a[i];
    }
  }

  /** The same for the worker itself: short-circuiting cannot raise a submission's points. */
  lemma ShortCircuitNeverOutscores(m: Manifest, points: seq<real>, outcomes: seq<Outcome>)
    requires NonNegative(m) && |m.cases| == |points| == |outcomes|
    requires forall i | 0 <= i < |outcomes| :: !outcomes[i].Fault?
    ensures var short := ReportsFor(Results(points, outcomes, Executed(outcomes, true)));
      var full := ReportsFor(Results(points, outcomes, Executed(outcomes, false)));
      LoopSummary(m, short).points <= LoopSummary(m, full).points
  {
    var n := Executed(outcomes, true);
    assert Executed(outcomes, false) == |outcomes|;
    var short, full := ReportsFor(Results(points, outcomes, n)), ReportsFor(Results(points, outcomes, |outcomes|));
    CutSlots(m, points, outcomes, n);
    NumberedDistinct(points, outcomes, n);
    NumberedDistinct(points, outcomes, |outcomes|);
    hide Slots, LoopSummary, Judge, Results, ReportsFor;
    ScoreRefines(m, short);
    ScoreRefines(m, full);
    CutNeverOutscores(m, Slots(m, short), Slots(m, full), n, |short|, |full|);
  }

  lemma NumberedDistinct(points: seq<real>, outcomes: seq<Outcome>, n: nat)
    requires n <= |outcomes| == |points| && forall k | 0 <= k < n :: !outcomes[k].Fault?
    ensures DistinctNumbers(ReportsFor(Results(points, outcomes, n)))
  {
    var reports := ReportsFor(Results(points, outcomes, n));
    assert forall k | 0 <= k < n :: reports[k].caseNumber == k + 1;
  }

  lemma CutSlots(m: Manifest, points: seq<real>, outcomes: seq<Outcome>, n: nat)
    requires |m.cases| == |points| == |outcomes| && n == Executed(outcomes, true)
    requires forall i | 0 <= i < |outcomes| :: !outcomes[i].Fault?
    ensures CutAt(Slots(m, ReportsFor(Results(points, outcomes, n))), Slots(m, ReportsFor(Results(points, outcomes, |outcomes|))), n)
  {
    var short, full := ReportsFor(Results(points, outcomes, n)), ReportsFor(Results(points, outcomes, |outcomes|));
    forall i | 0 <= i < |m.cases|
      ensures Slots(m, full)[i] == Some(ReportFor(ResultOf(i, points[i], outcomes[i])))
      ensures Slots(m, short)[i] == if i < n then Slots(m, full)[i] else None
    {
      PrefixSlots(m, points, outcomes, n, i);
      PrefixSlots(m, points, outcomes, |outcomes|, i);
    }
    if n < |outcomes| {
      NotAccepted(n - 1, points[n - 1], outcomes[n - 1]);
    }
  }

  lemma NotAccepted(index: nat, casePoints: real, outcome: Outcome)
    requires !outcome.Fault? && !Passes(outcome)
    ensures ReportFor(ResultOf(index, casePoints, outcome)).status != AC
  {
  }
}
