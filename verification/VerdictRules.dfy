/** The verdict, the counters and the maxima of a score, read off the reported rows alone. */
module VerdictRules {
  import opened Rounding
  import opened Sums
  import opened Scoring

  predicate Inside(m: Manifest, r: Report) {
    1 <= r.caseNumber <= |m.cases|
  }

  /** The last row of its case, for a case of the manifest. */
  predicate Latest(m: Manifest, reports: seq<Report>, i: nat)
    requires i < |reports|
  {
    Inside(m, reports[i]) && forall k | i < k < |reports| :: reports[k].caseNumber != reports[i].caseNumber
  }

  /** Some case of the manifest is reported, last, with this verdict. */
  predicate Shown(m: Manifest, reports: seq<Report>, v: Verdict) {
    exists i: nat | i < |reports| :: Latest(m, reports, i) && reports[i].status == v
  }

  /** The first of the six that is shown decides. */
  const DECIDING := [CE, IE, TLE, MLE, RTE, OLE]

  predicate Decides(m: Manifest, reports: seq<Report>, k: nat)
    requires k < 6
  {
    Shown(m, reports, DECIDING[k]) && forall j: nat | j < k :: !Shown(m, reports, DECIDING[j])
  }

  predicate Undecided(m: Manifest, reports: seq<Report>) {
    forall j: nat | j < 6 :: !Shown(m, reports, DECIDING[j])
  }

  /** The points of the rows, as they count with partial scoring. */
  function Earned(m: Manifest, reports: seq<Report>): real {
    LoopSummary(m.(partialScore := true), reports).points
  }

  function Possible(m: Manifest): real {
    Sum(GroupPoints(GroupList(m)))
  }

  lemma LatestFront(m: Manifest, front: seq<Report>, last: Report, i: nat)
    requires i < |front|
    ensures Latest(m, front + [last], i) <==> Latest(m, front, i) && last.caseNumber != front[i].caseNumber
  {
    var all := front + [last];
    assert all[i] == front[i] && all[|front|] == last;
    if Latest(m, all, i) {
      forall k | i < k < |front| ensures front[k].caseNumber != front[i].caseNumber {
        assert all[k] == front[k];
      }
    }
  }

  lemma LatestLast(m: Manifest, front: seq<Report>, last: Report)
    ensures Latest(m, front + [last], |front|) <==> Inside(m, last)
  {
  }

  /** Row i is the latest of case n, with this status. */
  predicate LatestFor(m: Manifest, reports: seq<Report>, i: nat, n: int, v: Verdict) {
    i < |reports| && Latest(m, reports, i) && reports[i].caseNumber == n && reports[i].status == v
  }

  lemma StatusesSnoc(m: Manifest, front: seq<Report>, last: Report)
    ensures Statuses(m, front + [last]) ==
      if Inside(m, last) then Statuses(m, front)[last.caseNumber := last.status] else Statuses(m, front)
  {
    assert (front + [last])[..|front|] == front;
  }

  lemma {:induction false} StatusIsLatest(m: Manifest, reports: seq<Report>, n: int)
    requires n in Statuses(m, reports)
    ensures exists i: nat :: LatestFor(m, reports, i, n, Statuses(m, reports)[n])
  {
    if reports == [] {
    } else {
      var k := |reports| - 1;
      var front, last := reports[..k], reports[k];
      assert reports == front + [last];
      hide Latest, Statuses;
      StatusesSnoc(m, front, last);
      LatestLast(m, front, last);
      if Inside(m, last) && last.caseNumber == n {
        assert LatestFor(m, reports, k, n, last.status);
      } else {
        StatusIsLatest(m, front, n);
        var i: nat :| LatestFor(m, front, i, n, Statuses(m, front)[n]);
        LatestFront(m, front, last, i);
        LatestInside(m, front, i);
        assert LatestFor(m, reports, i, n, Statuses(m, front)[n]);
      }
    }
  }

  lemma LatestInside(m: Manifest, reports: seq<Report>, i: nat)
    requires i < |reports| && Latest(m, reports, i)
    ensures Inside(m, reports[i])
  {
  }

  lemma {:induction false} LatestIsStatus(m: Manifest, reports: seq<Report>, i: nat)
    requires i < |reports| && Latest(m, reports, i)
    ensures reports[i].caseNumber in Statuses(m, reports)
    ensures Statuses(m, reports)[reports[i].caseNumber] == reports[i].status
  {
    var k := |reports| - 1;
    var front, last := reports[..k], reports[k];
    assert reports == front + [last];
    LatestInside(m, reports, i);
    hide Latest, Statuses;
    StatusesSnoc(m, front, last);
    if i == k {
    } else {
      LatestFront(m, front, last, i);
      LatestIsStatus(m, front, i);
    }
  }

  lemma ShownIsStatus(m: Manifest, reports: seq<Report>, v: Verdict)
    ensures Shown(m, reports, v) <==> v in Statuses(m, reports).Values
  {
    hide Latest, Statuses;
    if i: nat :| i < |reports| && Latest(m, reports, i) && reports[i].status == v {
      LatestIsStatus(m, reports, i);
    }
    if v in Statuses(m, reports).Values {
      var n :| n in Statuses(m, reports) && Statuses(m, reports)[n] == v;
      StatusIsLatest(m, reports, n);
      var i: nat :| LatestFor(m, reports, i, n, v);
    }
  }

  lemma DecidedBy(seen: set<Verdict>, points: real, possible: real, total: int, passed: int, k: nat)
    requires k < 6 && DECIDING[k] in seen && forall j: nat | j < k :: DECIDING[j] !in seen
    ensures AggregateResult(seen, points, possible, total, passed) == DECIDING[k]
  {
    assert forall j: nat | j < k :: DECIDING[j] in DECIDING;
    assert k > 0 ==> DECIDING[0] !in seen;
    assert k > 1 ==> DECIDING[1] !in seen;
    assert k > 2 ==> DECIDING[2] !in seen;
    assert k > 3 ==> DECIDING[3] !in seen;
    assert k > 4 ==> DECIDING[4] !in seen;
  }

  lemma UndecidedBy(seen: set<Verdict>, points: real, possible: real, total: int, passed: int)
    requires forall j: nat | j < 6 :: DECIDING[j] !in seen
    ensures var full := total > 0 && passed == total && (possible <= 0.0 || points >= possible);
      AggregateResult(seen, points, possible, total, passed) ==
        if full then AC else if points > 0.0 then PARTIAL else WA
  {
    assert DECIDING[0] !in seen && DECIDING[1] !in seen && DECIDING[2] !in seen;
    assert DECIDING[3] !in seen && DECIDING[4] !in seen && DECIDING[5] !in seen;
  }

  /** What the summary does with an aggregated verdict. */
  lemma SummaryOf(m: Manifest, reports: seq<Report>)
    ensures var s, total := LoopSummary(m, reports), if m.cases != [] then |m.cases| else |reports|;
      var v := AggregateResult(Statuses(m, reports).Values, Earned(m, reports), Possible(m), total, s.casePassed);
      var open := m.partialScore || v in {AC, CE, IE};
      && s.caseTotal == total && s.result == (if !open && v == PARTIAL then WA else v)
      && s.status == (if s.result in {CE, IE} then Error else Completed)
      && s.points == (if open then Earned(m, reports) else 0.0)
      && (forall id | id in GroupIds(GroupList(m)) :: id in s.subtaskScores)
      && (open ==> s.points == Round2(Sum(SubtaskValues(GroupIds(GroupList(m)), s.subtaskScores))))
      && (!open ==> forall id | id in s.subtaskScores :: s.subtaskScores[id] == 0.0)
  {
    var free := m.(partialScore := true);
    SameRows(m, free, reports);
    hide AggregateResult, Statuses, Entries, Passed, MaxTime, MaxMemory, GroupList, GroupIds, GroupDefs, Round2, Sum,
      GroupPoints, SubtaskValues, GroupScore, ScoresOf;
    var subtasks := Subtasks(m, Entries(m, reports));
    hide Subtasks;
    assert LoopSummary(free, reports).points == Round2(Sum(SubtaskValues(GroupIds(GroupList(m)), subtasks)));
  }

  /** Whether partial scoring is on makes no difference to what the loops collect. */
  lemma {:induction false} SameRows(m: Manifest, n: Manifest, reports: seq<Report>)
    requires n == m.(partialScore := true)
    ensures GroupList(n) == GroupList(m)
    ensures Statuses(m, reports) == Statuses(n, reports) && Passed(m, reports) == Passed(n, reports)
    ensures MaxTime(m, reports) == MaxTime(n, reports) && MaxMemory(m, reports) == MaxMemory(n, reports)
    ensures Entries(m, reports) == Entries(n, reports)
    ensures Subtasks(m, Entries(m, reports)) == Subtasks(n, Entries(n, reports))
  {
    SameEntries(m, n, reports);
    SameMissing(m, n, Numbers(m, reports), |m.cases|);
    assert Numbers(m, reports) == Numbers(n, reports);
    hide ReportEntries, MissingEntries, GroupDefs;
  }

  lemma {:induction false} SameEntries(m: Manifest, n: Manifest, reports: seq<Report>)
    requires n == m.(partialScore := true)
    ensures ReportEntries(m, reports) == ReportEntries(n, reports)
    ensures Statuses(m, reports) == Statuses(n, reports) && Passed(m, reports) == Passed(n, reports)
    ensures MaxTime(m, reports) == MaxTime(n, reports) && MaxMemory(m, reports) == MaxMemory(n, reports)
  {
    hide CaseScore, GroupDefs;
    if reports == [] {
    } else {
      SameEntries(m, n, reports[..|reports| - 1]);
    }
  }

  lemma {:induction false} SameMissing(m: Manifest, n: Manifest, seen: set<int>, k: nat)
    requires n == m.(partialScore := true) && k <= |m.cases|
    ensures MissingEntries(m, seen, k) == MissingEntries(n, seen, k)
  {
    hide GroupDefs;
    if k == 0 {
    } else {
      SameMissing(m, n, seen, k - 1);
    }
  }

  lemma SeenShown(m: Manifest, reports: seq<Report>)
    ensures forall j: nat | j < 6 :: DECIDING[j] in Statuses(m, reports).Values <==> Shown(m, reports, DECIDING[j])
  {
    hide Statuses, Shown;
    forall j: nat | j < 6 ensures DECIDING[j] in Statuses(m, reports).Values <==> Shown(m, reports, DECIDING[j]) {
      ShownIsStatus(m, reports, DECIDING[j]);
    }
  }

  lemma DecidesOnce(m: Manifest, reports: seq<Report>, j: nat, k: nat)
    requires j < 6 && k < 6 && DECIDING[j] == DECIDING[k]
    ensures j == k
  {
  }

  /**
   * Each of CE, IE, TLE, MLE, RTE and OLE is the result exactly when some case shows it and none shows an
   * earlier one of them.
   */
  lemma DecidedExactly(m: Manifest, reports: seq<Report>, k: nat)
    requires k < 6
    ensures LoopSummary(m, reports).result == DECIDING[k] <==> Decides(m, reports, k)
  {
    SummaryOf(m, reports);
    SeenShown(m, reports);
    var s, total := LoopSummary(m, reports), if m.cases != [] then |m.cases| else |reports|;
    hide LoopSummary, Statuses, Shown, Earned, Possible, AggregateResult;
    if Undecided(m, reports) {
      UndecidedBy(Statuses(m, reports).Values, Earned(m, reports), Possible(m), total, s.casePassed);
    } else {
      var j := FirstShown(m, reports);
      DecidedBy(Statuses(m, reports).Values, Earned(m, reports), Possible(m), total, s.casePassed, j);
      if DECIDING[j] == DECIDING[k] {
        DecidesOnce(m, reports, j, k);
      }
    }
  }

  lemma FirstShown(m: Manifest, reports: seq<Report>) returns (k: nat)
    requires !Undecided(m, reports)
    ensures k < 6 && Decides(m, reports, k)
  {
    hide Shown;
    k := 0;
    while !Shown(m, reports, DECIDING[k])
      invariant k < 6 && forall j: nat | j < k :: !Shown(m, reports, DECIDING[j])
      decreases 6 - k
    {
      k := k + 1;
    }
  }

  /**
   * When none of the six is shown: AC exactly when every case passed and the points reach what the groups
   * are worth; PARTIAL exactly when it is not AC, something was earned and partial scoring is on; else WA.
   */
  lemma UndecidedExactly(m: Manifest, reports: seq<Report>)
    requires Undecided(m, reports)
    ensures var s, total := LoopSummary(m, reports), if m.cases != [] then |m.cases| else |reports|;
      && (s.result == AC <==>
            total > 0 && s.casePassed == total && (Possible(m) <= 0.0 || Earned(m, reports) >= Possible(m)))
      && (s.result == PARTIAL <==> s.result != AC && Earned(m, reports) > 0.0 && m.partialScore)
      && (s.result == WA <==> s.result != AC && s.result != PARTIAL)
  {
    SummaryOf(m, reports);
    SeenShown(m, reports);
    var s, total := LoopSummary(m, reports), if m.cases != [] then |m.cases| else |reports|;
    hide LoopSummary, Statuses, Shown, Earned, Possible, AggregateResult;
    UndecidedBy(Statuses(m, reports).Values, Earned(m, reports), Possible(m), total, s.casePassed);
  }

  // ----- counters and maxima

  function PassedRows(m: Manifest, reports: seq<Report>): set<nat> {
    set i: nat | i < |reports| && Inside(m, reports[i]) && reports[i].status == AC
  }

  lemma {:induction false} PassedCounts(m: Manifest, reports: seq<Report>)
    ensures Passed(m, reports) == |PassedRows(m, reports)|
  {
    if reports == [] {
      assert PassedRows(m, reports) == {};
    } else {
      var k := |reports| - 1;
      PassedCounts(m, reports[..k]);
      var before := PassedRows(m, reports[..k]);
      assert PassedRows(m, reports) ==
        before + if Inside(m, reports[k]) && reports[k].status == AC then {k} else {};
    }
  }

  lemma {:induction false} TimeIsMax(m: Manifest, reports: seq<Report>)
    ensures var t := MaxTime(m, reports);
      && t >= 0.0 && (forall r | r in reports && Inside(m, r) :: r.timeUsed <= t)
      && (t == 0.0 || exists r | r in reports :: Inside(m, r) && r.timeUsed == t)
  {
    if reports == [] {
    } else {
      var front, last := reports[..|reports| - 1], reports[|reports| - 1];
      assert reports == front + [last];
      TimeIsMax(m, front);
      assert last in reports;
      var t := MaxTime(m, front);
      if t != 0.0 {
        var r :| r in front && Inside(m, r) && r.timeUsed == t;
        assert r in reports;
      }
    }
  }

  lemma {:induction false} MemoryIsMax(m: Manifest, reports: seq<Report>)
    ensures var b := MaxMemory(m, reports);
      && b >= 0 && (forall r | r in reports && Inside(m, r) :: r.memoryUsed <= b)
      && (b == 0 || exists r | r in reports :: Inside(m, r) && r.memoryUsed == b)
  {
    if reports == [] {
    } else {
      var front, last := reports[..|reports| - 1], reports[|reports| - 1];
      assert reports == front + [last];
      MemoryIsMax(m, front);
      assert last in reports;
      var b := MaxMemory(m, front);
      if b != 0 {
        var r :| r in front && Inside(m, r) && r.memoryUsed == b;
        assert r in reports;
      }
    }
  }

  /** A largest value of the rows inside the manifest, zero when there is none above it. */
  ghost predicate LargestTime(m: Manifest, reports: seq<Report>, t: real) {
    && t >= 0.0 && (forall r | r in reports && Inside(m, r) :: r.timeUsed <= t)
    && (t == 0.0 || exists r | r in reports :: Inside(m, r) && r.timeUsed == t)
  }

  ghost predicate LargestMemory(m: Manifest, reports: seq<Report>, b: int) {
    && b >= 0 && (forall r | r in reports && Inside(m, r) :: r.memoryUsed <= b)
    && (b == 0 || exists r | r in reports :: Inside(m, r) && r.memoryUsed == b)
  }

  /**
   * The rest of the summary: totals, the number of accepted rows, the largest time and memory, ERROR exactly
   * for CE and IE, and points: what was earned, which is the rounded sum of the subtask scores, or nothing at
   * all when partial scoring is off and the result is none of AC, CE and IE.
   */
  lemma SummaryExactly(m: Manifest, reports: seq<Report>)
    ensures var s := LoopSummary(m, reports);
      && s.caseTotal == (if m.cases != [] then |m.cases| else |reports|)
      && s.casePassed == |PassedRows(m, reports)|
      && LargestTime(m, reports, s.timeUsed) && LargestMemory(m, reports, s.memoryUsed)
      && s.status == (if s.result in {CE, IE} then Error else Completed)
      && (m.partialScore || s.result in {AC, CE, IE} ==> s.points == Earned(m, reports))
      && (forall id | id in GroupIds(GroupList(m)) :: id in s.subtaskScores)
      && (m.partialScore || s.result in {AC, CE, IE} ==>
            s.points == Round2(Sum(SubtaskValues(GroupIds(GroupList(m)), s.subtaskScores))))
      && (!m.partialScore && s.result !in {AC, CE, IE} ==>
            s.points == 0.0 && forall id | id in s.subtaskScores :: s.subtaskScores[id] == 0.0)
  {
    SummaryOf(m, reports);
    PassedCounts(m, reports);
    TimeIsMax(m, reports);
    MemoryIsMax(m, reports);
    hide Statuses, AggregateResult, Earned, Possible, Passed, MaxTime, MaxMemory, PassedRows, Inside, Subtasks,
      Entries, GroupIds, GroupList, GroupDefs;
  }

  // ----- codes

  /** The code a verdict is stored and reported under. */
  function Code(v: Verdict): string {
    match v
    case AC => "AC"
    case WA => "WA"
    case TLE => "TLE"
    case MLE => "MLE"
    case RTE => "RTE"
    case CE => "CE"
    case OLE => "OLE"
    case IE => "IE"
    case PARTIAL => "PT"
    case IR => "IR"
  }

  /** Reading a code gives its verdict back, and IR for every text that is no code. */
  lemma CodesRoundTrip(v: Verdict, text: string)
    ensures ParseVerdict(Code(v)) == v
    ensures ParseVerdict(text) != IR ==> Code(ParseVerdict(text)) == text
    ensures (forall u :: Code(u) != text) ==> ParseVerdict(text) == IR
  {
    if forall u :: Code(u) != text {
      assert Code(ParseVerdict(text)) != text;
    }
  }

  // ----- groups

  /** The group at k, with no later one of the same id. */
  predicate LastNamed(groups: seq<Group>, k: nat, g: Group) {
    k < |groups| && groups[k] == g && forall j | k < j < |groups| :: groups[j].id != g.id
  }

  lemma LastNamedLater(front: seq<Group>, last: Group, k: nat, g: Group)
    requires LastNamed(front, k, g) && last.id != g.id
    ensures LastNamed(front + [last], k, g)
  {
    var all := front + [last];
    assert all[k] == front[k];
    forall j | k < j < |all| ensures all[j].id != g.id {
      assert j < |front| ==> all[j] == front[j];
    }
  }

  lemma DefsSnoc(front: seq<Group>, last: Group)
    ensures GroupDefs(front + [last]) == GroupDefs(front)[last.id := last]
  {
    assert (front + [last])[..|front|] == front;
  }

  lemma NamesSnoc(front: seq<Group>, last: Group, id: string)
    ensures Names(front + [last], id) <==> Names(front, id) || last.id == id
  {
    var all := front + [last];
    assert last in all && forall g | g in front :: g in all;
    assert forall g | g in all :: g in front || g == last;
  }

  /** Of two groups with one id the later one counts. */
  lemma {:induction false} LastDefinitionCounts(groups: seq<Group>, id: string)
    ensures id in GroupDefs(groups) <==> Names(groups, id)
    ensures id in GroupDefs(groups) ==>
      GroupDefs(groups)[id].id == id && exists k: nat :: LastNamed(groups, k, GroupDefs(groups)[id])
  {
    if groups == [] {
    } else {
      var n := |groups| - 1;
      var front, last := groups[..n], groups[n];
      assert groups == front + [last];
      hide GroupDefs, Names;
      LastDefinitionCounts(front, id);
      DefsSnoc(front, last);
      NamesSnoc(front, last, id);
      if last.id == id {
        assert LastNamed(groups, n, last);
      } else if id in GroupDefs(front) {
        hide LastNamed;
        var k: nat :| LastNamed(front, k, GroupDefs(front)[id]);
        LastNamedLater(front, last, k, GroupDefs(front)[id]);
      }
    }
  }

  predicate Names(groups: seq<Group>, id: string) {
    exists g | g in groups :: g.id == id
  }

  /** A case counts for the group it names, else for the default group, else for the first group declared. */
  lemma CaseGroupExactly(m: Manifest, i: nat)
    requires i < |m.cases| && m.groups != []
    ensures GroupOf(m, i) ==
      if Names(m.groups, m.cases[i].group) then m.cases[i].group
      else if Names(m.groups, "default") then "default"
      else m.groups[0].id
  {
    LastDefinitionCounts(m.groups, m.cases[i].group);
    LastDefinitionCounts(m.groups, "default");
    hide GroupDefs;
  }

  /** A manifest without groups scores as with one group of all the points, added up. */
  lemma NoGroupsIsOne(m: Manifest, reports: seq<Report>)
    requires m.groups == []
    ensures LoopSummary(m, reports) == LoopSummary(m.(groups := [Group("default", Possible(m), "sum")]), reports)
    ensures Possible(m) == Sum(CasePoints(m.cases))
  {
    var n := m.(groups := [Group("default", Sum(CasePoints(m.cases)), "sum")]);
    var worth := GroupPoints(GroupList(m));
    assert worth == [Sum(CasePoints(m.cases))] && worth[1..] == [];
    assert Sum(worth) == worth[0] + Sum(worth[1..]) && Sum(worth[1..]) == 0.0;
    assert GroupList(n) == GroupList(m);
    hide Sum, CasePoints, GroupDefs, GroupIds;
    EntriesByGroups(m, n, reports);
    MissingByGroups(m, n, Numbers(m, reports), |m.cases|);
    assert Numbers(m, reports) == Numbers(n, reports);
    hide ReportEntries, MissingEntries, Statuses, Passed, MaxTime, MaxMemory, GroupList, RoundTo;
  }

  predicate SameGroups(m: Manifest, n: Manifest) {
    n.cases == m.cases && n.partialScore == m.partialScore && GroupList(n) == GroupList(m)
  }

  lemma {:induction false} EntriesByGroups(m: Manifest, n: Manifest, reports: seq<Report>)
    requires SameGroups(m, n)
    ensures ReportEntries(m, reports) == ReportEntries(n, reports)
    ensures Statuses(m, reports) == Statuses(n, reports) && Passed(m, reports) == Passed(n, reports)
    ensures MaxTime(m, reports) == MaxTime(n, reports) && MaxMemory(m, reports) == MaxMemory(n, reports)
  {
    hide CaseScore, GroupDefs, GroupList;
    if reports == [] {
    } else {
      EntriesByGroups(m, n, reports[..|reports| - 1]);
    }
  }

  lemma {:induction false} MissingByGroups(m: Manifest, n: Manifest, seen: set<int>, k: nat)
    requires SameGroups(m, n) && k <= |m.cases|
    ensures MissingEntries(m, seen, k) == MissingEntries(n, seen, k)
  {
    hide GroupDefs, GroupList;
    if k == 0 {
    } else {
      MissingByGroups(m, n, seen, k - 1);
    }
  }
}
