/** When a fully accepted report reaches AC, for every package, declared groups included. */
module FullMarks {
  import opened Options
  import opened Rounding
  import opened Sums
  import opened Scoring
  import opened ScoringLaws
  import opened ScoringBounds
  import opened PackageImport

  // ----- every manifest

  /** The rounded points of one group's cases among the first n. */
  function RoundedIn(m: Manifest, id: string, n: nat): seq<real>
    requires n <= |m.cases|
  {
    if n == 0 then []
    else RoundedIn(m, id, n - 1) + if GroupOf(m, n - 1) == id then [Round4(m.cases[n - 1].points)] else []
  }

  /** What each group scores when every case earns its whole points. */
  function FullSubtasks(m: Manifest): map<string, real> {
    var defs := GroupDefs(GroupList(m));
    map id | id in defs :: GroupScore(defs[id], RoundedIn(m, id, |m.cases|))
  }

  function FullPoints(m: Manifest): real {
    Round2(Sum(SubtaskValues(GroupIds(GroupList(m)), FullSubtasks(m))))
  }

  lemma {:induction false} AcceptedScores(m: Manifest, slots: seq<Option<Report>>, id: string, n: nat)
    requires NonNegative(m) && FullyAccepted(m, slots) && n <= |m.cases|
    ensures GroupScores(m, slots, id, n) == RoundedIn(m, id, n)
  {
    if n == 0 {
    } else {
      AcceptedScores(m, slots, id, n - 1);
      assert m.cases[n - 1] in m.cases;
      AcceptedRatio(m.cases[n - 1].points, slots[n - 1].value);
      hide GroupOf, Ratio, RoundTo;
    }
  }

  lemma AcceptedSubtasks(m: Manifest, slots: seq<Option<Report>>)
    requires NonNegative(m) && FullyAccepted(m, slots)
    ensures SlotSubtasks(m, slots) == FullSubtasks(m) && RawPoints(m, slots) == FullPoints(m)
  {
    forall id | id in GroupDefs(GroupList(m))
      ensures GroupScores(m, slots, id, |slots|) == RoundedIn(m, id, |m.cases|)
    {
      AcceptedScores(m, slots, id, |slots|);
    }
    hide GroupDefs, GroupList, GroupIds, GroupScore, GroupScores, RoundedIn, RoundTo, SubtaskValues;
    assert SlotSubtasks(m, slots) == FullSubtasks(m);
  }

  /**
   * Main result for any manifest with cases: a fully accepted report gets AC exactly when the full
   * scores of its groups add up to all the group points, and then these are the points.
   */
  lemma AcceptedExactly(m: Manifest, slots: seq<Option<Report>>, reports: int)
    requires m.cases != [] && NonNegative(m) && FullyAccepted(m, slots)
    ensures Judge(m, slots, reports).result == AC <==> FullPoints(m) >= Sum(GroupPoints(GroupList(m)))
    ensures Judge(m, slots, reports).result == AC ==> Judge(m, slots, reports).points == FullPoints(m)
    ensures Judge(m, slots, reports).result != AC ==>
      Judge(m, slots, reports).result == if m.partialScore && FullPoints(m) > 0.0 then PARTIAL else WA
    ensures Judge(m, slots, reports).result != AC && !m.partialScore ==> Judge(m, slots, reports).points == 0.0
  {
    AllPassed(slots);
    AcceptedSubtasks(m, slots);
    RawBounds(m, slots);
    hide FullyAccepted, NonNegative, SlotSubtasks, SubtaskValues, GroupDefs, GroupIds, GroupList, GroupPoints;
    hide RoundTo, FullPoints, RawPoints, FullSubtasks, SlotPassed, SlotVerdicts, GroupCaps, Sum;
    AcceptedVerdict(m, slots, reports);
  }

  lemma AcceptedVerdict(m: Manifest, slots: seq<Option<Report>>, reports: int)
    requires |slots| == |m.cases| > 0 && SlotPassed(slots) == |slots| && SlotVerdicts(slots) <= {AC}
    requires RawPoints(m, slots) >= 0.0
    ensures var s, raw, possible := Judge(m, slots, reports), RawPoints(m, slots), Sum(GroupPoints(GroupList(m)));
      && (s.result == AC <==> raw >= possible)
      && (s.result == AC ==> s.points == raw)
      && (s.result != AC ==> s.result == if m.partialScore && raw > 0.0 then PARTIAL else WA)
      && (s.result != AC && !m.partialScore ==> s.points == 0.0)
  {
    hide SlotSubtasks, SubtaskValues, GroupDefs, GroupIds, GroupList, GroupPoints, RoundTo, Sum;
  }

  // ----- imported manifests in hundredths

  predicate DistinctIds(groups: seq<Group>) {
    forall i, j | 0 <= i < j < |groups| :: groups[i].id != groups[j].id
  }

  lemma LastIdNew(groups: seq<Group>)
    requires groups != [] && CheckGroups(groups).Ok?
    ensures var n := |groups| - 1;
      CheckGroups(groups[..n]).Ok? && Strip(groups[n].id) !in CheckGroups(groups[..n]).value
  {
    hide Strip;
  }

  lemma CheckedId(groups: seq<Group>, g: Group)
    requires g in groups && CheckGroups(groups).Ok?
    ensures Strip(g.id) in CheckGroups(groups).value
  {
    hide Strip;
  }

  /** Validation compares stripped ids, so the stored ids differ as well. */
  lemma {:induction false} CheckedDistinct(groups: seq<Group>)
    requires CheckGroups(groups).Ok?
    ensures DistinctIds(groups)
  {
    hide CheckGroups, Strip;
    if groups == [] {
    } else {
      var n := |groups| - 1;
      LastIdNew(groups);
      CheckedDistinct(groups[..n]);
      forall i | 0 <= i < n ensures groups[i].id != groups[n].id {
        assert groups[..n][i] == groups[i];
        CheckedId(groups[..n], groups[i]);
      }
      assert forall i, j | 0 <= i < j < n :: groups[..n][i].id != groups[..n][j].id;
    }
  }

  lemma NewId(groups: seq<Group>, g: Group)
    requires g.id !in GroupDefs(groups)
    ensures GroupIds(groups + [g]) == GroupIds(groups) + [g.id]
    ensures GroupDefs(groups + [g]) == GroupDefs(groups)[g.id := g]
  {
    assert (groups + [g])[..|groups|] == groups;
  }

  lemma DistinctFront(groups: seq<Group>, g: Group)
    requires DistinctIds(groups + [g])
    ensures DistinctIds(groups) && forall i | 0 <= i < |groups| :: groups[i].id != g.id
  {
    var all := groups + [g];
    assert all[|groups|] == g;
    forall i, j | 0 <= i < j < |groups| ensures groups[i].id != groups[j].id {
      assert all[i] == groups[i] && all[j] == groups[j];
    }
    forall i | 0 <= i < |groups| ensures groups[i].id != g.id {
      assert all[i] == groups[i];
    }
  }

  lemma UndeclaredId(groups: seq<Group>, g: Group)
    requires forall i | 0 <= i < |groups| :: groups[i].id != g.id
    ensures g.id !in GroupDefs(groups)
  {
    DefinedIds(groups, g.id);
    hide GroupDefs;
  }

  /** With distinct ids the dictionary lists every group once, in order. */
  ghost predicate Listed(groups: seq<Group>) {
    && |GroupIds(groups)| == |groups|
    && forall i | 0 <= i < |groups| :: ListedAt(groups, i)
  }

  ghost predicate ListedAt(groups: seq<Group>, i: nat)
    requires i < |groups| == |GroupIds(groups)|
  {
    var id := groups[i].id;
    GroupIds(groups)[i] == id && id in GroupDefs(groups) && GroupDefs(groups)[id] == groups[i]
  }

  lemma ListedOne(groups: seq<Group>, g: Group, i: nat)
    requires Listed(groups) && i <= |groups| && g.id !in GroupDefs(groups)
    requires forall k | 0 <= k < |groups| :: groups[k].id != g.id
    ensures |GroupIds(groups + [g])| == |groups| + 1 && ListedAt(groups + [g], i)
  {
    NewId(groups, g);
    hide GroupIds, GroupDefs;
    var all := groups + [g];
    if i < |groups| {
      assert all[i] == groups[i] && ListedAt(groups, i);
    } else {
      assert all[i] == g;
    }
  }

  lemma ListedSnoc(groups: seq<Group>, g: Group)
    requires Listed(groups) && g.id !in GroupDefs(groups)
    requires forall i | 0 <= i < |groups| :: groups[i].id != g.id
    ensures Listed(groups + [g])
  {
    hide GroupIds, GroupDefs, ListedAt;
    forall i | 0 <= i < |groups + [g]| ensures |GroupIds(groups + [g])| == |groups| + 1 && ListedAt(groups + [g], i) {
      ListedOne(groups, g, i);
    }
    assert ListedAt(groups + [g], |groups|);
  }

  lemma {:induction false} ListedIds(groups: seq<Group>)
    requires DistinctIds(groups)
    ensures Listed(groups)
  {
    if groups == [] {
    } else {
      hide *;
      var front, g := groups[..|groups| - 1], groups[|groups| - 1];
      assert groups == front + [g];
      DistinctFront(front, g);
      UndeclaredId(front, g);
      ListedIds(front);
      ListedSnoc(front, g);
    }
  }

  /** The points of one group's cases among the first n. */
  function PointsIn(m: Manifest, id: string, n: nat): seq<real>
    requires n <= |m.cases|
  {
    if n == 0 then []
    else PointsIn(m, id, n - 1) + if GroupOf(m, n - 1) == id then [m.cases[n - 1].points] else []
  }

  /** Case points and group points are whole hundredths. */
  ghost predicate InHundredths(m: Manifest) {
    && (forall c | c in m.cases :: OnGrid(c.points, 100.0))
    && forall g | g in m.groups :: OnGrid(g.points, 100.0)
  }

  lemma {:induction false} PointsUnrounded(m: Manifest, id: string, n: nat)
    requires InHundredths(m) && NonNegative(m) && n <= |m.cases|
    ensures RoundedIn(m, id, n) == PointsIn(m, id, n)
    ensures forall x | x in PointsIn(m, id, n) :: OnGrid(x, 100.0) && x >= 0.0
  {
    if n == 0 {
    } else {
      PointsUnrounded(m, id, n - 1);
      assert m.cases[n - 1] in m.cases;
      GridRefine(m.cases[n - 1].points);
      RoundToGrid(m.cases[n - 1].points, 10000.0);
      hide GroupOf, RoundTo, OnGrid;
    }
  }

  /** What the cases of a group come to before the cap. */
  function Collected(g: Group, ps: seq<real>): real {
    if ps == [] then 0.0 else if g.mode == "min" then Min(ps) else Sum(ps)
  }

  lemma CollectedOnGrid(g: Group, ps: seq<real>)
    requires forall x | x in ps :: OnGrid(x, 100.0)
    ensures OnGrid(Collected(g, ps), 100.0)
  {
    SumOnGrid(ps, 100.0);
    assert 0.0 * 100.0 == 0.0 && (0.0).Floor == 0;
    hide OnGrid, Sum;
  }

  lemma CappedInHundredths(g: Group, ps: seq<real>)
    requires (forall x | x in ps :: OnGrid(x, 100.0)) && OnGrid(g.points, 100.0) && g.points >= 0.0
    ensures GroupScore(g, ps) == MinOf(Collected(g, ps), g.points) && OnGrid(GroupScore(g, ps), 100.0)
  {
    CollectedOnGrid(g, ps);
    hide OnGrid, Collected, RoundTo;
    var capped := MinOf(Collected(g, ps), g.points);
    assert OnGrid(capped, 100.0);
    GridRefine(capped);
    RoundToGrid(capped, 10000.0);
    ScoreIsCapped(g, ps);
  }

  lemma ScoreIsCapped(g: Group, ps: seq<real>)
    requires g.points >= 0.0
    ensures GroupScore(g, ps) == Round4(MinOf(Collected(g, ps), g.points))
  {
    hide RoundTo;
  }

  /** The cases of the group can earn its points. */
  predicate Attainable(m: Manifest, g: Group) {
    Collected(g, PointsIn(m, g.id, |m.cases|)) >= g.points
  }

  lemma {:induction false} ReachesTotal(xs: seq<real>, ys: seq<real>)
    requires |xs| == |ys| && forall i | 0 <= i < |xs| :: xs[i] <= ys[i]
    ensures Sum(xs) >= Sum(ys) <==> forall i | 0 <= i < |xs| :: xs[i] >= ys[i]
  {
    if xs == [] {
    } else {
      ReachesTotal(xs[1..], ys[1..]);
      SumMonotone(xs[1..], ys[1..]);
      assert forall i | 0 < i < |xs| :: xs[1..][i - 1] == xs[i] && ys[1..][i - 1] == ys[i];
      if forall i | 0 <= i < |xs| - 1 :: xs[1..][i] >= ys[1..][i] {
        forall i | 0 <= i < |xs| ensures xs[i] >= ys[i] || (i == 0 && xs[0] < ys[0]) {
          if i > 0 {
            assert xs[1..][i - 1] >= ys[1..][i - 1];
          }
        }
      }
    }
  }

  lemma ImportedHundredths(problem: Problem, raw: RawManifest, cases: seq<ImportCase>)
    requires Import(problem, raw, cases).Ok?
    ensures var m := Import(problem, raw, cases).value;
      m.cases != [] && NonNegative(m) && GroupList(m) == m.groups && DistinctIds(m.groups)
      && forall g | g in m.groups :: g.points >= 0.0
  {
    ImportedManifest(problem, raw, cases);
    var m := Import(problem, raw, cases).value;
    if raw.groups != [] {
      CheckedDistinct(raw.groups);
    } else {
      forall x | x in CasePoints(m.cases) ensures x >= 0.0 {
        var i :| 0 <= i < |m.cases| && CasePoints(m.cases)[i] == x;
        assert m.cases[i] in m.cases;
      }
      SumNonnegative(CasePoints(m.cases));
      RoundToNonnegative(Sum(CasePoints(m.cases)), 100.0);
    }
    hide Import, CheckGroups, RoundTo, Sum;
  }

  /** What an imported manifest in hundredths satisfies. */
  ghost predicate Regular(m: Manifest) {
    && m.cases != [] && NonNegative(m) && GroupList(m) == m.groups && DistinctIds(m.groups)
    && (forall g | g in m.groups :: g.points >= 0.0) && InHundredths(m)
  }

  lemma RegularFacts(m: Manifest)
    requires Regular(m)
    ensures m.cases != [] && NonNegative(m) && GroupList(m) == m.groups && |GroupIds(m.groups)| == |m.groups|
    ensures forall id | id in GroupIds(m.groups) :: id in FullSubtasks(m)
    ensures FullPoints(m) == Round2(Sum(SubtaskValues(GroupIds(m.groups), FullSubtasks(m))))
  {
    ListedIds(m.groups);
    hide GroupIds, GroupDefs, RoundTo, GroupScore, RoundedIn;
  }

  lemma FullAt(m: Manifest, i: nat)
    requires Regular(m) && i < |m.groups|
    ensures |GroupIds(m.groups)| == |m.groups| && GroupIds(m.groups)[i] in FullSubtasks(m)
    ensures var xs := SubtaskValues(GroupIds(m.groups), FullSubtasks(m));
      xs[i] == GroupScore(m.groups[i], RoundedIn(m, m.groups[i].id, |m.cases|))
  {
    ListedIds(m.groups);
    hide GroupDefs, GroupIds, GroupScore, RoundedIn, NonNegative, InHundredths, DistinctIds;
    assert ListedAt(m.groups, i);
  }

  /** A group's full score is capped by its points, and reaches them exactly when its cases can. */
  ghost predicate CappedAt(m: Manifest, x: real, i: nat)
    requires i < |m.groups|
  {
    x <= m.groups[i].points && OnGrid(x, 100.0) && (x >= m.groups[i].points <==> Attainable(m, m.groups[i]))
  }

  ghost predicate Capped(m: Manifest, xs: seq<real>) {
    |xs| == |m.groups| && forall i | 0 <= i < |xs| :: CappedAt(m, xs[i], i)
  }

  lemma CapAt(m: Manifest, i: nat)
    requires Regular(m) && i < |m.groups|
    ensures CappedAt(m, GroupScore(m.groups[i], RoundedIn(m, m.groups[i].id, |m.cases|)), i)
  {
    var g := m.groups[i];
    assert g in m.groups;
    PointsUnrounded(m, g.id, |m.cases|);
    hide GroupScore, PointsIn, RoundedIn, OnGrid, Collected, NonNegative, GroupList, DistinctIds;
    CappedInHundredths(g, PointsIn(m, g.id, |m.cases|));
  }

  lemma FullAgainstCaps(m: Manifest)
    requires Regular(m)
    ensures Capped(m, SubtaskValues(GroupIds(m.groups), FullSubtasks(m)))
  {
    RegularFacts(m);
    var xs := SubtaskValues(GroupIds(m.groups), FullSubtasks(m));
    hide GroupDefs, GroupIds, FullSubtasks, GroupScore, RoundedIn, Attainable, Regular, CappedAt, SubtaskValues;
    forall i | 0 <= i < |m.groups| ensures CappedAt(m, xs[i], i) {
      FullAt(m, i);
      CapAt(m, i);
    }
  }

  lemma SumsDecide(m: Manifest, xs: seq<real>)
    requires Capped(m, xs)
    ensures Round2(Sum(xs)) == Sum(xs) <= Sum(GroupPoints(m.groups))
    ensures Sum(xs) >= Sum(GroupPoints(m.groups)) <==> forall g | g in m.groups :: Attainable(m, g)
  {
    hide Attainable, OnGrid, RoundTo;
    forall x | x in xs ensures OnGrid(x, 100.0) {
      var i :| 0 <= i < |xs| && xs[i] == x;
      assert CappedAt(m, xs[i], i);
    }
    var ys := GroupPoints(m.groups);
    forall i | 0 <= i < |xs| ensures xs[i] <= ys[i] && (xs[i] >= ys[i] <==> Attainable(m, m.groups[i])) {
      assert CappedAt(m, xs[i], i);
    }
    hide Sum, Capped;
    SumOnGrid(xs, 100.0);
    RoundToGrid(Sum(xs), 100.0);
    ReachesTotal(xs, ys);
    SumMonotone(xs, ys);
    EveryGroup(m, xs, ys);
  }

  /** The same on the manifest alone. */
  lemma AttainableExactly(m: Manifest, slots: seq<Option<Report>>, reports: int)
    requires Regular(m) && FullyAccepted(m, slots)
    ensures Judge(m, slots, reports).result == AC <==> forall g | g in m.groups :: Attainable(m, g)
    ensures Judge(m, slots, reports).result == AC ==> Judge(m, slots, reports).points == Sum(GroupPoints(m.groups))
  {
    hide *;
    RegularFacts(m);
    AcceptedExactly(m, slots, reports);
    FullAgainstCaps(m);
    SumsDecide(m, SubtaskValues(GroupIds(m.groups), FullSubtasks(m)));
  }

  /**
   * Main result on imports in hundredths, declared groups or not: a fully accepted report gets AC exactly
   * when every group's own cases can earn its points. For a "min" group with points that takes a case and
   * every case worth at least the group; for any other group, cases that add up to its points.
   */
  lemma FullMarksAttainable(problem: Problem, raw: RawManifest, cases: seq<ImportCase>, slots: seq<Option<Report>>,
      reports: int)
    requires Import(problem, raw, cases).Ok? && InHundredths(Import(problem, raw, cases).value)
    requires FullyAccepted(Import(problem, raw, cases).value, slots)
    ensures var m := Import(problem, raw, cases).value;
      && (Judge(m, slots, reports).result == AC <==> forall g | g in m.groups :: Attainable(m, g))
      && (Judge(m, slots, reports).result == AC ==> Judge(m, slots, reports).points == Sum(GroupPoints(m.groups)))
  {
    ImportedHundredths(problem, raw, cases);
    hide Import, Judge, Attainable, FullyAccepted, GroupPoints, Sum, NonNegative, InHundredths, DistinctIds;
    AttainableExactly(Import(problem, raw, cases).value, slots, reports);
  }

  lemma EveryGroup(m: Manifest, xs: seq<real>, ys: seq<real>)
    requires |xs| == |ys| == |m.groups|
    requires forall i | 0 <= i < |xs| :: xs[i] >= ys[i] <==> Attainable(m, m.groups[i])
    ensures (forall i | 0 <= i < |xs| :: xs[i] >= ys[i]) <==> forall g | g in m.groups :: Attainable(m, g)
  {
    hide Attainable;
    if forall i | 0 <= i < |xs| :: xs[i] >= ys[i] {
      forall g | g in m.groups ensures Attainable(m, g) {
        var i :| 0 <= i < |m.groups| && m.groups[i] == g;
        assert xs[i] >= ys[i];
      }
    }
  }

  // ----- reading the condition

  lemma {:induction false} OneGroupPoints(m: Manifest, g: Group, n: nat)
    requires GroupList(m) == [g] && n <= |m.cases|
    ensures PointsIn(m, g.id, n) == CasePoints(m.cases)[..n]
  {
    if n == 0 {
    } else {
      OneGroupDefs(g);
      OneGroupPoints(m, g, n - 1);
      assert GroupOf(m, n - 1) == g.id;
      assert CasePoints(m.cases)[..n] == CasePoints(m.cases)[..n - 1] + [m.cases[n - 1].points];
    }
  }

  /** Without declared groups, case points in hundredths are enough: the one group can always be earned. */
  lemma DefaultAttainable(problem: Problem, raw: RawManifest, cases: seq<ImportCase>)
    requires Import(problem, raw, cases).Ok? && raw.groups == []
    requires forall c | c in Import(problem, raw, cases).value.cases :: OnGrid(c.points, 100.0)
    ensures var m := Import(problem, raw, cases).value;
      && InHundredths(m) && (forall g | g in m.groups :: Attainable(m, g))
      && Sum(GroupPoints(m.groups)) == Sum(CasePoints(m.cases))
  {
    ImportedManifest(problem, raw, cases);
    var m := Import(problem, raw, cases).value;
    var g, total := m.groups[0], Sum(CasePoints(m.cases));
    hide Import, RoundTo, OnGrid, Sum, GroupList;
    forall x | x in CasePoints(m.cases) ensures OnGrid(x, 100.0) {
      var i :| 0 <= i < |m.cases| && CasePoints(m.cases)[i] == x;
      assert m.cases[i] in m.cases;
    }
    SumOnGrid(CasePoints(m.cases), 100.0);
    RoundToGrid(total, 100.0);
    OneGroupPoints(m, g, |m.cases|);
    assert CasePoints(m.cases)[..|m.cases|] == CasePoints(m.cases);
    assert GroupPoints(m.groups) == [g.points];
    SumOne(g.points);
  }

  predicate InGroup(m: Manifest, g: Group, i: nat)
    requires i < |m.cases|
  {
    GroupOf(m, i) == g.id
  }

  lemma {:induction false} PointsListed(m: Manifest, g: Group, n: nat, x: real)
    requires n <= |m.cases|
    ensures x in PointsIn(m, g.id, n) <==> exists i | 0 <= i < n :: InGroup(m, g, i) && m.cases[i].points == x
  {
    hide GroupOf;
    if n == 0 {
    } else {
      PointsListed(m, g, n - 1, x);
      if InGroup(m, g, n - 1) && m.cases[n - 1].points == x {
        assert x in PointsIn(m, g.id, n);
      }
    }
  }

  /** A "min" group with points: it has a case, and each of its cases alone is worth the group. */
  lemma MinAttainable(m: Manifest, g: Group)
    requires g.mode == "min" && g.points > 0.0
    ensures Attainable(m, g) <==>
      (exists i | 0 <= i < |m.cases| :: InGroup(m, g, i))
      && forall i | 0 <= i < |m.cases| && InGroup(m, g, i) :: m.cases[i].points >= g.points
  {
    var ps := PointsIn(m, g.id, |m.cases|);
    hide PointsIn, InGroup;
    if Attainable(m, g) {
      PointsListed(m, g, |m.cases|, Min(ps));
      forall i | 0 <= i < |m.cases| && InGroup(m, g, i) ensures m.cases[i].points >= g.points {
        PointsListed(m, g, |m.cases|, m.cases[i].points);
      }
    } else if i :| 0 <= i < |m.cases| && InGroup(m, g, i) {
      PointsListed(m, g, |m.cases|, m.cases[i].points);
      PointsListed(m, g, |m.cases|, Min(ps));
    }
  }

  /** A declared group with points that no case uses puts AC out of reach. */
  lemma UnusedGroupBlocks(problem: Problem, raw: RawManifest, cases: seq<ImportCase>, slots: seq<Option<Report>>,
      reports: int, g: Group)
    requires Import(problem, raw, cases).Ok? && InHundredths(Import(problem, raw, cases).value)
    requires FullyAccepted(Import(problem, raw, cases).value, slots)
    requires var m := Import(problem, raw, cases).value;
      g in m.groups && g.points > 0.0 && forall i | 0 <= i < |m.cases| :: !InGroup(m, g, i)
    ensures Judge(Import(problem, raw, cases).value, slots, reports).result != AC
  {
    var m := Import(problem, raw, cases).value;
    FullMarksAttainable(problem, raw, cases, slots, reports);
    var ps := PointsIn(m, g.id, |m.cases|);
    hide Import, Judge, PointsIn, InGroup, FullyAccepted, InHundredths;
    if ps != [] {
      PointsListed(m, g, |m.cases|, ps[0]);
    }
  }
}
