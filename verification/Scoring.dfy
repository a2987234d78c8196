/** Server-side scoring of one submission from its manifest and the reported cases. */
module Scoring {
  import opened RealAlgebra
  import opened Rounding
  import opened Sums

  datatype Verdict = AC | WA | TLE | MLE | RTE | CE | IR | OLE | IE | PARTIAL

  datatype SubmissionStatus = Queued | Compiling | Judging | Completed | Error

  /** The verdict codes of the wire format; anything else is an invalid return. */
  function ParseVerdict(code: string): Verdict {
    match code
    case "AC" => AC
    case "WA" => WA
    case "TLE" => TLE
    case "MLE" => MLE
    case "RTE" => RTE
    case "CE" => CE
    case "OLE" => OLE
    case "IE" => IE
    case "PT" => PARTIAL
    case _ => IR
  }

  datatype ManifestCase = ManifestCase(points: real, group: string)

  datatype Group = Group(id: string, points: real, mode: string)

  datatype Manifest = Manifest(cases: seq<ManifestCase>, groups: seq<Group>, partialScore: bool)

  datatype Report = Report(caseNumber: int, status: Verdict, timeUsed: real, memoryUsed: int, points: real, totalPoints: real)

  datatype Summary = Summary(
    points: real,
    subtaskScores: map<string, real>,
    result: Verdict,
    status: SubmissionStatus,
    caseTotal: int,
    casePassed: int,
    timeUsed: real,
    memoryUsed: int)

  // ----- groups

  function CasePoints(cases: seq<ManifestCase>): (ps: seq<real>)
    ensures |ps| == |cases|
  {
    seq(|cases|, i requires 0 <= i < |cases| => cases[i].points)
  }

  /** The declared groups, or one default group worth all the cases. */
  function GroupList(m: Manifest): (groups: seq<Group>)
    ensures groups != []
  {
    if m.groups != [] then m.groups else [Group("default", Sum(CasePoints(m.cases)), "sum")]
  }

  /** `{id: group}`: of two groups with one id the later definition wins. */
  function GroupDefs(groups: seq<Group>): (defs: map<string, Group>)
    ensures forall g | g in groups :: g.id in defs
  {
    if groups == [] then map[]
    else
      var n := |groups| - 1;
      assert forall g | g in groups :: g in groups[..n] || g == groups[n];
      GroupDefs(groups[..n])[groups[n].id := groups[n]]
  }

  /** The keys of that dictionary in insertion order. */
  function GroupIds(groups: seq<Group>): (ids: seq<string>)
    ensures forall id :: id in ids <==> id in GroupDefs(groups)
    ensures forall i, j | 0 <= i < j < |ids| :: ids[i] != ids[j]
  {
    if groups == [] then []
    else
      var n := |groups| - 1;
      var ids := GroupIds(groups[..n]);
      if groups[n].id in ids then ids else ids + [groups[n].id]
  }

  /** The group a case is accumulated under: its own, or the fallback when that is not defined. */
  function GroupOf(m: Manifest, index: nat): (id: string)
    requires index < |m.cases|
    ensures id in GroupDefs(GroupList(m))
  {
    var groups := GroupList(m);
    var defs := GroupDefs(groups);
    if m.cases[index].group in defs then m.cases[index].group
    else if "default" in defs then "default"
    else
      assert groups[0] in groups;
      groups[0].id
  }

  // ----- one case

  /** The share of a case's points that a report earns. */
  function Ratio(maximum: real, r: Report): (ratio: real)
    ensures 0.0 <= ratio <= 1.0
  {
    var total := if r.totalPoints != 0.0 then r.totalPoints else maximum;
    var kept := if r.status == AC || r.status == PARTIAL then r.points else 0.0;
    var reported :=
      if r.status == AC && kept <= 0.0 then (if total != 0.0 then total else maximum) else kept;
    if total > 0.0 then MinOf(MaxOf(reported / total, 0.0), 1.0)
    else if r.status == AC then 1.0
    else 0.0
  }

  function CaseScore(maximum: real, r: Report): real {
    Round4(Times(maximum, Ratio(maximum, r)))
  }

  // ----- groups and verdict from collected scores

  function GroupScore(g: Group, scores: seq<real>): real {
    var collected := if scores == [] then 0.0 else if g.mode == "min" then Min(scores) else Sum(scores);
    Round4(MinOf(collected, MaxOf(0.0, g.points)))
  }

  function GroupPoints(groups: seq<Group>): (ps: seq<real>)
    ensures |ps| == |groups|
  {
    seq(|groups|, i requires 0 <= i < |groups| => groups[i].points)
  }

  /** The values of the subtask dictionary in insertion order. */
  function SubtaskValues(ids: seq<string>, scores: map<string, real>): (vs: seq<real>)
    requires forall id | id in ids :: id in scores
    ensures |vs| == |ids|
  {
    seq(|ids|, i requires 0 <= i < |ids| => assert ids[i] in ids; scores[ids[i]])
  }

  function AggregateResult(seen: set<Verdict>, points: real, possible: real, total: int, passed: int): Verdict {
    if CE in seen then CE
    else if IE in seen then IE
    else if TLE in seen then TLE
    else if MLE in seen then MLE
    else if RTE in seen then RTE
    else if OLE in seen then OLE
    else if total > 0 && passed == total && (possible <= 0.0 || points >= possible) then AC
    else if points > 0.0 then PARTIAL
    else WA
  }

  /** Verdict, gating on partial scoring, and status. */
  function Conclude(m: Manifest, subtasks: map<string, real>, seen: set<Verdict>, total: int, passed: int,
      time: real, memory: int): Summary
    requires forall id | id in GroupIds(GroupList(m)) :: id in subtasks
  {
    var raw := Round2(Sum(SubtaskValues(GroupIds(GroupList(m)), subtasks)));
    var possible := Sum(GroupPoints(GroupList(m)));
    var verdict := AggregateResult(seen, raw, possible, total, passed);
    var gated := !m.partialScore && verdict != AC && verdict != CE && verdict != IE;
    var result := if gated && verdict == PARTIAL then WA else verdict;
    Summary(
      if gated then 0.0 else raw,
      if gated then map id | id in subtasks :: 0.0 else subtasks,
      result,
      if result == CE || result == IE then Error else Completed,
      total, passed, time, memory)
  }

  // ----- the accumulation, in the order the loops run

  datatype Entry = Entry(group: string, score: real)

  predicate InManifest(m: Manifest, number: int) {
    1 <= number <= |m.cases|
  }

  function ReportEntries(m: Manifest, reports: seq<Report>): seq<Entry> {
    if reports == [] then []
    else
      var r := reports[|reports| - 1];
      ReportEntries(m, reports[..|reports| - 1]) +
      if InManifest(m, r.caseNumber)
      then [Entry(GroupOf(m, r.caseNumber - 1), CaseScore(m.cases[r.caseNumber - 1].points, r))]
      else []
  }

  function Numbers(m: Manifest, reports: seq<Report>): set<int> {
    set r | r in reports && InManifest(m, r.caseNumber) :: r.caseNumber
  }

  /** Zeroes for the first n cases that no report mentions. */
  function MissingEntries(m: Manifest, seen: set<int>, n: nat): seq<Entry>
    requires n <= |m.cases|
  {
    if n == 0 then []
    else MissingEntries(m, seen, n - 1) + if n in seen then [] else [Entry(GroupOf(m, n - 1), 0.0)]
  }

  function ScoresOf(entries: seq<Entry>, id: string): seq<real> {
    if entries == [] then []
    else
      var e := entries[|entries| - 1];
      ScoresOf(entries[..|entries| - 1], id) + if e.group == id then [e.score] else []
  }

  function Entries(m: Manifest, reports: seq<Report>): seq<Entry> {
    ReportEntries(m, reports) + MissingEntries(m, Numbers(m, reports), |m.cases|)
  }

  /** The last status reported for each case. */
  function Statuses(m: Manifest, reports: seq<Report>): (statuses: map<int, Verdict>)
    ensures statuses.Keys == Numbers(m, reports)
  {
    if reports == [] then map[]
    else
      var n := |reports| - 1;
      assert reports == reports[..n] + [reports[n]];
      var before := Statuses(m, reports[..n]);
      if InManifest(m, reports[n].caseNumber) then before[reports[n].caseNumber := reports[n].status] else before
  }

  function Passed(m: Manifest, reports: seq<Report>): nat {
    if reports == [] then 0
    else
      var r := reports[|reports| - 1];
      Passed(m, reports[..|reports| - 1]) + if InManifest(m, r.caseNumber) && r.status == AC then 1 else 0
  }

  function MaxTime(m: Manifest, reports: seq<Report>): real {
    if reports == [] then 0.0
    else
      var r := reports[|reports| - 1];
      var before := MaxTime(m, reports[..|reports| - 1]);
      if InManifest(m, r.caseNumber) then MaxOf(before, r.timeUsed) else before
  }

  function MaxInt(x: int, y: int): int { if x < y then y else x }

  function MaxMemory(m: Manifest, reports: seq<Report>): int {
    if reports == [] then 0
    else
      var r := reports[|reports| - 1];
      var before := MaxMemory(m, reports[..|reports| - 1]);
      if InManifest(m, r.caseNumber) then MaxInt(before, r.memoryUsed) else before
  }

  function Total(m: Manifest, reports: int): int {
    if |m.cases| != 0 then |m.cases| else reports
  }

  function Subtasks(m: Manifest, entries: seq<Entry>): map<string, real> {
    var defs := GroupDefs(GroupList(m));
    map id | id in defs :: GroupScore(defs[id], ScoresOf(entries, id))
  }

  /** What the loops compute, for any list of reports. */
  function LoopSummary(m: Manifest, reports: seq<Report>): Summary {
    Conclude(m, Subtasks(m, Entries(m, reports)), Statuses(m, reports).Values,
      Total(m, |reports|), Passed(m, reports), MaxTime(m, reports), MaxMemory(m, reports))
  }

  lemma ScoresOfAppend(entries: seq<Entry>, e: Entry, id: string)
    ensures ScoresOf(entries + [e], id) == ScoresOf(entries, id) + if e.group == id then [e.score] else []
  {
    assert (entries + [e])[..|entries|] == entries;
  }

  /** The accumulated dictionary agrees with the entries met so far. */
  ghost predicate Accumulated(m: Manifest, caseScores: map<string, seq<real>>, entries: seq<Entry>) {
    && caseScores.Keys == GroupDefs(GroupList(m)).Keys
    && forall id | id in caseScores :: caseScores[id] == ScoresOf(entries, id)
  }

  lemma AccumulatedStep(m: Manifest, caseScores: map<string, seq<real>>, entries: seq<Entry>, e: Entry)
    requires Accumulated(m, caseScores, entries) && e.group in caseScores
    ensures Accumulated(m, caseScores[e.group := caseScores[e.group] + [e.score]], entries + [e])
  {
    hide GroupDefs, GroupList, ScoresOf;
    forall id | id in caseScores ensures
      ScoresOf(entries + [e], id) == caseScores[e.group := caseScores[e.group] + [e.score]][id]
    {
      ScoresOfAppend(entries, e, id);
    }
  }

  /** The first loop: reported cases, in the order they come. */
  method Collect(m: Manifest, reports: seq<Report>)
    returns (caseScores: map<string, seq<real>>, statuses: map<int, Verdict>, timeUsed: real, memoryUsed: int, casePassed: nat)
    ensures Accumulated(m, caseScores, ReportEntries(m, reports))
    ensures statuses == Statuses(m, reports) && casePassed == Passed(m, reports)
    ensures timeUsed == MaxTime(m, reports) && memoryUsed == MaxMemory(m, reports)
  {
    hide GroupDefs, GroupList, CaseScore, ScoresOf;
    caseScores, statuses := EmptyScores(m), map[];
    timeUsed, memoryUsed, casePassed := 0.0, 0, 0;
    for k := 0 to |reports|
      invariant Accumulated(m, caseScores, ReportEntries(m, reports[..k]))
      invariant statuses == Statuses(m, reports[..k]) && casePassed == Passed(m, reports[..k])
      invariant timeUsed == MaxTime(m, reports[..k]) && memoryUsed == MaxMemory(m, reports[..k])
    {
      var r := reports[k];
      assert reports[..k + 1][..k] == reports[..k];
      if InManifest(m, r.caseNumber) {
        statuses := statuses[r.caseNumber := r.status];
        timeUsed := MaxOf(timeUsed, r.timeUsed);
        memoryUsed := MaxInt(memoryUsed, r.memoryUsed);
        if r.status == AC {
          casePassed := casePassed + 1;
        }
        var id := GroupOf(m, r.caseNumber - 1);
        var score := CaseScore(m.cases[r.caseNumber - 1].points, r);
        AccumulatedStep(m, caseScores, ReportEntries(m, reports[..k]), Entry(id, score));
        caseScores := caseScores[id := caseScores[id] + [score]];
      } else {
        assert ReportEntries(m, reports[..k + 1]) == ReportEntries(m, reports[..k]);
      }
    }
    assert reports[..|reports|] == reports;
  }

  function EmptyScores(m: Manifest): (caseScores: map<string, seq<real>>)
    ensures Accumulated(m, caseScores, [])
  {
    map id | id in GroupDefs(GroupList(m)) :: []
  }

  /** The second loop: a zero for every case without a report. */
  method FillMissing(m: Manifest, seen: set<int>, given: map<string, seq<real>>, ghost entries: seq<Entry>)
    returns (caseScores: map<string, seq<real>>)
    requires Accumulated(m, given, entries)
    ensures Accumulated(m, caseScores, entries + MissingEntries(m, seen, |m.cases|))
  {
    hide GroupDefs, GroupList, ScoresOf;
    caseScores := given;
    assert entries + MissingEntries(m, seen, 0) == entries;
    for n := 0 to |m.cases|
      invariant Accumulated(m, caseScores, entries + MissingEntries(m, seen, n))
    {
      if n + 1 !in seen {
        var id := GroupOf(m, n);
        ghost var before := MissingEntries(m, seen, n);
        AccumulatedStep(m, caseScores, entries + before, Entry(id, 0.0));
        assert entries + before + [Entry(id, 0.0)] == entries + (before + [Entry(id, 0.0)]);
        caseScores := caseScores[id := caseScores[id] + [0.0]];
      } else {
        assert MissingEntries(m, seen, n + 1) == MissingEntries(m, seen, n);
      }
    }
  }

  /** The whole computation, for any list of reports. */
  method Score(m: Manifest, reports: seq<Report>) returns (s: Summary)
    ensures s == LoopSummary(m, reports)
  {
    var caseScores, statuses, timeUsed, memoryUsed, casePassed := Collect(m, reports);
    caseScores := FillMissing(m, statuses.Keys, caseScores, ReportEntries(m, reports));
    var defs := GroupDefs(GroupList(m));
    var subtasks := map id | id in caseScores :: GroupScore(defs[id], caseScores[id]);
    assert subtasks == Subtasks(m, Entries(m, reports)) by {
      hide GroupDefs, GroupList, ScoresOf, GroupScore, ReportEntries, MissingEntries, Statuses;
    }
    hide Statuses, Passed, MaxTime, MaxMemory, Conclude;
    s := Conclude(m, subtasks, statuses.Values, Total(m, |reports|), casePassed, timeUsed, memoryUsed);
  }
}
