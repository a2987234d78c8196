/** Package import: default points, group validation, and the manifest that scoring will read. */
module PackageImport {
  import opened Rounding
  import opened Sums
  import opened Options
  import opened Scoring
  import opened ScoringLaws
  import opened ScoringBounds

  const MAX_TEST_CASES := 200
  const MAX_MANIFEST_POINTS := 1000000.0

  datatype ImportCase = ImportCase(points: Option<real>, group: string)

  datatype Problem = Problem(points: real, partialScore: bool)

  /** The scoring part of manifest.json; absent groups and an empty list are the same. */
  datatype RawManifest = RawManifest(groups: seq<Group>, partialScore: Option<bool>)

  datatype ImportError =
    | NoCases | TooManyCases | PointsOutOfRange
    | MissingGroupId | DuplicateGroupId | UnsupportedMode | GroupPointsOutOfRange
    | UnknownGroup | UndefinedGroups

  datatype Result<+T> = Ok(value: T) | Err(error: ImportError)

  // ----- default points

  function DefaultPoints(problem: Problem, count: nat): real
    requires count > 0
  {
    if problem.points > 0.0 then Round2(problem.points / count as real) else 0.0
  }

  function WithDefault(c: ImportCase, d: real): ImportCase {
    if c.points.None? then c.(points := Some(d)) else c
  }

  function WithDefaults(cases: seq<ImportCase>, d: real): (filled: seq<ImportCase>)
    ensures |filled| == |cases|
  {
    seq(|cases|, i requires 0 <= i < |cases| => WithDefault(cases[i], d))
  }

  method ApplyDefaultPoints(problem: Problem, cases: array<ImportCase>)
    requires cases.Length > 0
    modifies cases
    ensures cases[..] == WithDefaults(old(cases[..]), DefaultPoints(problem, cases.Length))
  {
    var defaultPoints := DefaultPoints(problem, cases.Length);
    for i := 0 to cases.Length
      invariant forall k | 0 <= k < i :: cases[k] == WithDefault(old(cases[k]), defaultPoints)
      invariant forall k | i <= k < cases.Length :: cases[k] == old(cases[k])
    {
      if cases[i].points.None? {
        cases[i] := cases[i].(points := Some(defaultPoints));
      }
    }
  }

  // ----- group validation

  /** The characters `str.strip` removes. */
  predicate Blank(c: char) {
    || '\U{9}' <= c <= '\U{D}' || '\U{1C}' <= c <= '\U{20}' || c == '\U{85}' || c == '\U{A0}'
    || c == '\U{1680}' || '\U{2000}' <= c <= '\U{200A}' || c == '\U{2028}' || c == '\U{2029}'
    || c == '\U{202F}' || c == '\U{205F}' || c == '\U{3000}'
  }

  function Strip(s: string): string {
    if s != "" && Blank(s[0]) then Strip(s[1..])
    else if s != "" && Blank(s[|s| - 1]) then Strip(s[..|s| - 1])
    else s
  }

  function CheckGroup(g: Group, seen: set<string>): Result<string> {
    var id := Strip(g.id);
    if id == "" then Err(MissingGroupId)
    else if id in seen then Err(DuplicateGroupId)
    else if g.mode !in {"sum", "min"} then Err(UnsupportedMode)
    else if g.points < 0.0 || g.points > MAX_MANIFEST_POINTS then Err(GroupPointsOutOfRange)
    else Ok(id)
  }

  /** The stripped ids of a list of groups, or the first error met. */
  function CheckGroups(groups: seq<Group>): (r: Result<set<string>>)
    ensures r.Ok? ==> forall g | g in groups :: g.points >= 0.0
    ensures r.Ok? ==> r.value == set g | g in groups :: Strip(g.id)
  {
    if groups == [] then Ok({})
    else
      var n := |groups| - 1;
      assert groups == groups[..n] + [groups[n]];
      match CheckGroups(groups[..n])
      case Err(e) => Err(e)
      case Ok(seen) =>
        match CheckGroup(groups[n], seen)
        case Err(e) => Err(e)
        case Ok(id) => Ok(seen + {id})
  }

  function CaseGroups(cases: seq<ImportCase>): set<string> {
    set c | c in cases :: c.group
  }

  function CheckCoverage(ids: set<string>, used: set<string>): Result<set<string>> {
    if ids != {} then (if used <= ids then Ok(ids) else Err(UnknownGroup))
    else if used == {"default"} then Ok(ids)
    else Err(UndefinedGroups)
  }

  method ValidateGroups(groups: seq<Group>, cases: seq<ImportCase>) returns (r: Result<set<string>>)
    ensures r == match CheckGroups(groups) case Err(e) => Err(e) case Ok(ids) => CheckCoverage(ids, CaseGroups(cases))
  {
    var ids: set<string> := {};
    for k := 0 to |groups|
      invariant CheckGroups(groups[..k]) == Ok(ids)
    {
      assert groups[..k + 1][..k] == groups[..k];
      match CheckGroup(groups[k], ids) {
        case Err(e) =>
          FirstError(groups, k + 1);
          return Err(e);
        case Ok(id) =>
          ids := ids + {id};
      }
    }
    assert groups[..|groups|] == groups;
    r := CheckCoverage(ids, CaseGroups(cases));
  }

  /** An error in a prefix is the error of the whole list. */
  lemma {:induction false} FirstError(groups: seq<Group>, k: nat)
    requires k <= |groups| && CheckGroups(groups[..k]).Err?
    ensures CheckGroups(groups) == CheckGroups(groups[..k])
    decreases |groups|
  {
    if k == |groups| {
      assert groups[..k] == groups;
    } else {
      var front := groups[..|groups| - 1];
      assert front[..k] == groups[..k];
      FirstError(front, k);
    }
  }

  // ----- the stored manifest

  function StoredCases(cases: seq<ImportCase>): (stored: seq<ManifestCase>)
    ensures |stored| == |cases|
  {
    seq(|cases|, i requires 0 <= i < |cases| =>
      ManifestCase(if cases[i].points.Some? then cases[i].points.value else 0.0, cases[i].group))
  }

  function BuildManifest(problem: Problem, raw: RawManifest, cases: seq<ImportCase>): Manifest {
    var stored := StoredCases(cases);
    Manifest(
      stored,
      if raw.groups != [] then raw.groups else [Group("default", Round2(Sum(CasePoints(stored))), "sum")],
      if raw.partialScore.Some? then raw.partialScore.value else problem.partialScore)
  }

  predicate PointsInRange(c: ImportCase) {
    c.points.Some? ==> 0.0 <= c.points.value <= MAX_MANIFEST_POINTS
  }

  function Import(problem: Problem, raw: RawManifest, cases: seq<ImportCase>): Result<Manifest> {
    if exists c | c in cases :: !PointsInRange(c) then Err(PointsOutOfRange)
    else if cases == [] then Err(NoCases)
    else if |cases| > MAX_TEST_CASES then Err(TooManyCases)
    else
      var filled := WithDefaults(cases, DefaultPoints(problem, |cases|));
      match CheckGroups(raw.groups)
      case Err(e) => Err(e)
      case Ok(ids) =>
        match CheckCoverage(ids, CaseGroups(filled))
        case Err(e) => Err(e)
        case Ok(_) => Ok(BuildManifest(problem, raw, filled))
  }

  /** What scoring may rely on in any imported manifest. */
  lemma ImportedManifest(problem: Problem, raw: RawManifest, cases: seq<ImportCase>)
    requires Import(problem, raw, cases).Ok?
    ensures var m := Import(problem, raw, cases).value;
      && m.cases != [] && NonNegative(m) && GroupList(m) == m.groups
      && (raw.groups == [] ==> m.groups == [Group("default", Round2(Sum(CasePoints(m.cases))), "sum")])
      && (raw.groups != [] ==> m.groups == raw.groups && forall g | g in m.groups :: g.points >= 0.0)
      && |m.cases| == |cases|
      && (forall i | 0 <= i < |cases| :: m.cases[i].group == cases[i].group)
      && (forall i | 0 <= i < |cases| ::
            if raw.groups == [] then cases[i].group == "default"
            else exists g | g in raw.groups :: Strip(g.id) == cases[i].group)
      && m.partialScore == (if raw.partialScore.Some? then raw.partialScore.value else problem.partialScore)
  {
    var filled := WithDefaults(cases, DefaultPoints(problem, |cases|));
    FilledCases(problem, cases);
    CoveredGroups(raw.groups, filled);
    hide Strip, CheckGroups, CheckCoverage, CaseGroups, WithDefaults, DefaultPoints, RoundTo, Sum;
  }

  lemma FilledCases(problem: Problem, cases: seq<ImportCase>)
    requires cases != [] && forall c | c in cases :: PointsInRange(c)
    ensures var filled := WithDefaults(cases, DefaultPoints(problem, |cases|));
      |filled| == |cases| && forall i | 0 <= i < |cases| ::
        filled[i].points.Some? && filled[i].points.value >= 0.0 && filled[i].group == cases[i].group
  {
    if problem.points > 0.0 {
      RoundToNonnegative(problem.points / |cases| as real, 100.0);
    }
    hide RoundTo;
    forall i | 0 <= i < |cases| ensures PointsInRange(cases[i]) {
      assert cases[i] in cases;
    }
  }

  lemma CoveredGroups(groups: seq<Group>, cases: seq<ImportCase>)
    requires CheckGroups(groups).Ok? && CheckCoverage(CheckGroups(groups).value, CaseGroups(cases)).Ok?
    ensures forall i | 0 <= i < |cases| ::
      if groups == [] then cases[i].group == "default" else exists g | g in groups :: Strip(g.id) == cases[i].group
    ensures forall g | g in groups :: g.points >= 0.0
  {
    forall i | 0 <= i < |cases| ensures cases[i].group in CaseGroups(cases) {
      assert cases[i] in cases;
    }
    hide Strip, CaseGroups;
  }

  lemma {:induction false} DefinedIds(groups: seq<Group>, id: string)
    ensures id in GroupDefs(groups) <==> exists g | g in groups :: g.id == id
  {
    if groups == [] {
    } else {
      var front, last := groups[..|groups| - 1], groups[|groups| - 1];
      assert groups == front + [last];
      DefinedIds(front, id);
    }
  }

  predicate Declared(groups: seq<Group>, id: string) {
    exists g | g in groups :: g.id == id
  }

  /** A case is scored in the group it names exactly when no groups are declared or that very id is. */
  lemma CaseKeepsItsGroup(problem: Problem, raw: RawManifest, cases: seq<ImportCase>, i: nat)
    requires Import(problem, raw, cases).Ok? && i < |cases|
    ensures GroupOf(Import(problem, raw, cases).value, i) == cases[i].group
      <==> raw.groups == [] || Declared(raw.groups, cases[i].group)
  {
    var m := Import(problem, raw, cases).value;
    var filled := WithDefaults(cases, DefaultPoints(problem, |cases|));
    assert filled[i] in filled && filled[i].group == cases[i].group;
    assert cases[i].group in CaseGroups(filled);
    assert m.cases[i].group == cases[i].group;
    if raw.groups == [] {
      OneGroupDefs(m.groups[0]);
      assert cases[i].group == "default";
    } else {
      DefinedIds(raw.groups, cases[i].group);
    }
  }

  /** So every case is, exactly when every group a case names is declared as it is named, blanks included. */
  lemma CasesKeepTheirGroup(problem: Problem, raw: RawManifest, cases: seq<ImportCase>)
    requires Import(problem, raw, cases).Ok?
    ensures (forall i | 0 <= i < |cases| :: GroupOf(Import(problem, raw, cases).value, i) == cases[i].group)
      <==> (raw.groups == [] || forall c | c in cases :: Declared(raw.groups, c.group))
  {
    ImportedManifest(problem, raw, cases);
    hide Import, GroupOf, NonNegative;
    forall i | 0 <= i < |cases|
      ensures GroupOf(Import(problem, raw, cases).value, i) == cases[i].group
        <==> raw.groups == [] || Declared(raw.groups, cases[i].group)
    {
      CaseKeepsItsGroup(problem, raw, cases, i);
    }
    assert forall i | 0 <= i < |cases| :: cases[i] in cases;
  }

  const PADDED_GROUPS := [Group("a", 10.0, "sum"), Group(" b", 90.0, "sum")]

  lemma PaddedGroupsPass()
    ensures CheckGroups(PADDED_GROUPS).Ok? && CheckGroups(PADDED_GROUPS).value == {"a"} + {"b"}
    ensures GroupDefs(PADDED_GROUPS) == map["a" := PADDED_GROUPS[0], " b" := PADDED_GROUPS[1]]
  {
    var gs := PADDED_GROUPS;
    assert gs[..1] == [gs[0]] && gs[..1][..0] == [];
    assert Strip(" b") == Strip("b") == "b" by {
      assert " b"[1..] == "b";
    }
    assert Strip("a") == "a";
    var none: set<string> := {};
    assert CheckGroups(gs[..1][..0]) == Ok(none);
    assert CheckGroups(gs[..1]) == Ok(none + {"a"});
    assert CheckGroups(gs) == Ok(none + {"a"} + {"b"});
    OneGroupDefs(gs[0]);
  }

  /** Validation compares stripped ids but stores the padded ones, so a padded group loses its cases. */
  lemma PaddedGroupLosesCases()
    ensures var raw := RawManifest(PADDED_GROUPS, None);
      var cases := [ImportCase(Some(100.0), "b")];
      && Import(Problem(100.0, false), raw, cases).Ok?
      && GroupOf(Import(Problem(100.0, false), raw, cases).value, 0) == "a"
  {
    PaddedGroupsPass();
    hide CheckGroups, GroupDefs, Strip;
    var cases := [ImportCase(Some(100.0), "b")];
    assert cases[0] in cases;
  }

  // ----- full marks

  /** Every case reported accepted, with full or no points of its own. */
  ghost predicate FullyAccepted(m: Manifest, slots: seq<Option<Report>>) {
    && |slots| == |m.cases|
    && forall i | 0 <= i < |slots| ::
      && slots[i].Some? && slots[i].value.status == AC
      && (slots[i].value.totalPoints == m.cases[i].points || slots[i].value.totalPoints == 0.0)
      && (slots[i].value.points == m.cases[i].points || slots[i].value.points <= 0.0)
  }

  function RoundedCasePoints(m: Manifest): (ps: seq<real>)
    ensures |ps| == |m.cases|
  {
    seq(|m.cases|, i requires 0 <= i < |m.cases| => Round4(m.cases[i].points))
  }

  lemma FullScores(m: Manifest, slots: seq<Option<Report>>)
    requires FullyAccepted(m, slots) && NonNegative(m)
    ensures AllScores(m, slots) == RoundedCasePoints(m)
  {
    forall i | 0 <= i < |slots| ensures AllScores(m, slots)[i] == RoundedCasePoints(m)[i] {
      assert m.cases[i] in m.cases;
      AcceptedRatio(m.cases[i].points, slots[i].value);
    }
  }

  lemma {:induction false} AllPassed(slots: seq<Option<Report>>)
    requires forall i | 0 <= i < |slots| :: slots[i].Some? && slots[i].value.status == AC
    ensures SlotPassed(slots) == |slots|
    ensures SlotVerdicts(slots) <= {AC}
  {
    if slots == [] {
    } else {
      AllPassed(slots[..|slots| - 1]);
    }
  }

  /** Capping a sum of ten-thousandths by hundredths: full marks are reached when the sum rounds up to the cap. */
  lemma CappedRound(sum: real, cap: real)
    requires OnGrid(sum, 10000.0) && OnGrid(cap, 100.0)
    ensures var raw := Round2(Round4(MinOf(sum, cap)));
      && raw <= cap
      && (raw >= cap <==> Round2(sum) >= cap)
  {
    GridRefine(cap);
    RoundToGrid(cap, 100.0);
    RoundToGrid(cap, 10000.0);
    RoundToGrid(sum, 10000.0);
    hide RoundTo, OnGrid;
    if sum < cap {
      RoundToMonotone(sum, cap, 100.0);
    } else {
      RoundToMonotone(cap, sum, 100.0);
    }
  }

  lemma {:induction false} SumOnGrid(xs: seq<real>, scale: real)
    requires forall x | x in xs :: OnGrid(x, scale)
    ensures OnGrid(Sum(xs), scale)
  {
    if xs == [] {
      assert 0.0 * scale == 0.0 && (0.0).Floor == 0;
    } else {
      assert xs[0] in xs && forall x | x in xs[1..] :: x in xs;
      SumOnGrid(xs[1..], scale);
      GridSum(xs[0], Sum(xs[1..]), scale);
    }
  }

  /**
   * Main result on imports without declared groups: a fully accepted report gets AC exactly when
   * rounding the cases one by one loses nothing against rounding their sum, and then the points are
   * that rounded sum.
   */
  lemma FullMarksExactly(problem: Problem, raw: RawManifest, cases: seq<ImportCase>, slots: seq<Option<Report>>,
      reports: int)
    requires Import(problem, raw, cases).Ok? && raw.groups == []
    requires FullyAccepted(Import(problem, raw, cases).value, slots)
    ensures var m := Import(problem, raw, cases).value;
      var s := Judge(m, slots, reports);
      && (s.result == AC <==> Round2(Sum(RoundedCasePoints(m))) >= Round2(Sum(CasePoints(m.cases))))
      && (s.result == AC ==> s.points == Round2(Sum(CasePoints(m.cases))))
  {
    ImportedManifest(problem, raw, cases);
    hide Import, Judge, RoundTo;
    DefaultGroupMarks(Import(problem, raw, cases).value, slots, reports);
  }

  lemma DefaultGroupMarks(m: Manifest, slots: seq<Option<Report>>, reports: int)
    requires m.cases != [] && NonNegative(m) && m.groups == [Group("default", Round2(Sum(CasePoints(m.cases))), "sum")]
    requires FullyAccepted(m, slots)
    ensures var s, cap := Judge(m, slots, reports), Round2(Sum(CasePoints(m.cases)));
      && (s.result == AC <==> Round2(Sum(RoundedCasePoints(m))) >= cap)
      && (s.result == AC ==> s.points == cap)
  {
    var g := m.groups[0];
    AllPassed(slots);
    hide RoundTo, GroupScore, Judge, RawPoints, SlotPassed, SlotVerdicts;
    FullScores(m, slots);
    OneGroup(m, slots, g);
    RawBounds(m, slots);
    DefaultGroupScore(m);
    DefaultVerdict(m, slots, reports, g);
  }

  /** The score of the default group on full marks, against its cap. */
  lemma DefaultGroupScore(m: Manifest)
    requires m.cases != [] && NonNegative(m) && m.groups == [Group("default", Round2(Sum(CasePoints(m.cases))), "sum")]
    ensures var raw, cap := Round2(GroupScore(m.groups[0], RoundedCasePoints(m))), m.groups[0].points;
      raw <= cap && (raw >= cap <==> Round2(Sum(RoundedCasePoints(m))) >= cap)
  {
    var xs := RoundedCasePoints(m);
    var total := Sum(CasePoints(m.cases));
    forall x | x in xs ensures OnGrid(x, 10000.0) {
      var i :| 0 <= i < |xs| && xs[i] == x;
      RoundToGrid(m.cases[i].points, 10000.0);
    }
    forall x | x in CasePoints(m.cases) ensures x >= 0.0 {
      var i :| 0 <= i < |m.cases| && CasePoints(m.cases)[i] == x;
      assert m.cases[i] in m.cases;
    }
    hide RoundTo, OnGrid, RoundedCasePoints;
    SumNonnegative(CasePoints(m.cases));
    SumOnGrid(xs, 10000.0);
    RoundToGrid(total, 100.0);
    RoundToNonnegative(total, 100.0);
    CappedRound(Sum(xs), Round2(total));
  }

  lemma DefaultVerdict(m: Manifest, slots: seq<Option<Report>>, reports: int, g: Group)
    requires |slots| == |m.cases| > 0 && SlotPassed(slots) == |slots| && SlotVerdicts(slots) <= {AC}
    requires Sum(GroupPoints(GroupList(m))) == g.points && 0.0 <= RawPoints(m, slots) <= g.points
    ensures var s := Judge(m, slots, reports);
      && (s.result == AC <==> RawPoints(m, slots) >= g.points)
      && (s.result == AC ==> s.points == RawPoints(m, slots))
  {
    hide SlotSubtasks, SubtaskValues, GroupDefs, GroupIds, GroupList, GroupPoints, RoundTo;
  }

  /** Case points with at most four decimals always reach AC; with at most two, the points are their sum. */
  lemma FullMarks(problem: Problem, raw: RawManifest, cases: seq<ImportCase>, slots: seq<Option<Report>>, reports: int)
    requires Import(problem, raw, cases).Ok? && raw.groups == []
    requires FullyAccepted(Import(problem, raw, cases).value, slots)
    requires forall c | c in Import(problem, raw, cases).value.cases :: OnGrid(c.points, 10000.0)
    ensures var m := Import(problem, raw, cases).value;
      var s := Judge(m, slots, reports);
      && s.result == AC
      && s.points == Round2(Sum(CasePoints(m.cases)))
      && ((forall c | c in m.cases :: OnGrid(c.points, 100.0)) ==> s.points == Sum(CasePoints(m.cases)))
  {
    var m := Import(problem, raw, cases).value;
    FullMarksExactly(problem, raw, cases, slots, reports);
    hide Import, Judge, RoundTo, OnGrid;
    forall i | 0 <= i < |m.cases| ensures RoundedCasePoints(m)[i] == CasePoints(m.cases)[i] {
      assert m.cases[i] in m.cases;
      RoundToGrid(m.cases[i].points, 10000.0);
    }
    assert RoundedCasePoints(m) == CasePoints(m.cases);
    if forall c | c in m.cases :: OnGrid(c.points, 100.0) {
      forall x | x in CasePoints(m.cases) ensures OnGrid(x, 100.0) {
        var i :| 0 <= i < |m.cases| && CasePoints(m.cases)[i] == x;
        assert m.cases[i] in m.cases;
      }
      SumOnGrid(CasePoints(m.cases), 100.0);
      RoundToGrid(Sum(CasePoints(m.cases)), 100.0);
    }
  }

  /** Default points are in hundredths, so a package that leaves all points out always reaches full marks. */
  lemma DefaultPointsOnGrid(problem: Problem, count: nat)
    requires count > 0
    ensures OnGrid(DefaultPoints(problem, count), 100.0) && OnGrid(DefaultPoints(problem, count), 10000.0)
  {
    if problem.points > 0.0 {
      RoundToGrid(problem.points / count as real, 100.0);
    } else {
      assert 0.0 * 100.0 == 0.0 && (0.0).Floor == 0;
    }
    GridRefine(DefaultPoints(problem, count));
  }

  /**
   * A "min" group compares each case's own points with the whole group's: when the cases carry the
   * default share and the group the total, even a fully accepted run is a wrong answer with no points.
   */
  lemma MinGroupSharesLose(m: Manifest, slots: seq<Option<Report>>, reports: int, share: real, total: real)
    requires m.cases != [] && m.groups == [Group("default", total, "min")] && !m.partialScore
    requires forall c | c in m.cases :: c.points == share
    requires OnGrid(share, 100.0) && 0.0 <= share < total
    requires FullyAccepted(m, slots)
    ensures Judge(m, slots, reports).result == WA && Judge(m, slots, reports).points == 0.0
  {
    var g := m.groups[0];
    AllPassed(slots);
    FullScores(m, slots);
    var xs := RoundedCasePoints(m);
    GridRefine(share);
    RoundToGrid(share, 10000.0);
    RoundToGrid(share, 100.0);
    forall i | 0 <= i < |xs| ensures xs[i] == share {
      assert m.cases[i] in m.cases;
    }
    assert Min(xs) == share by {
      assert Min(xs) in xs;
    }
    hide RoundTo, OnGrid, SlotPassed, SlotVerdicts;
    OneGroup(m, slots, g);
    assert RawPoints(m, slots) == share;
    hide RawPoints;
    LostMarks(m, slots, reports, total);
  }

  lemma LostMarks(m: Manifest, slots: seq<Option<Report>>, reports: int, total: real)
    requires |slots| == |m.cases| > 0 && SlotVerdicts(slots) <= {AC} && !m.partialScore
    requires Sum(GroupPoints(GroupList(m))) == total && RawPoints(m, slots) < total && total > 0.0
    ensures Judge(m, slots, reports).result == WA && Judge(m, slots, reports).points == 0.0
  {
    hide SlotSubtasks, SubtaskValues, GroupDefs, GroupIds, GroupList, GroupPoints, RoundTo;
  }

  const FINE_CASES := [ImportCase(Some(0.00500001), "default")]

  lemma FineRounding()
    ensures Round2(Round4(0.00500001)) < Round2(0.00500001)
  {
    assert 0.00500001 * 10000.0 == 50.0001 && (50.0001).Floor == 50;
    assert Round4(0.00500001) == 0.005;
    assert 0.005 * 100.0 == 0.5 && (0.5).Floor == 0;
    assert Round2(0.005) == 0.0;
    assert 0.00500001 * 100.0 == 0.500001 && (0.500001).Floor == 0;
    assert Round2(0.00500001) == 0.01;
  }

  lemma FineImport(problem: Problem)
    ensures Import(problem, RawManifest([], None), FINE_CASES).Ok?
    ensures Import(problem, RawManifest([], None), FINE_CASES).value.cases == [ManifestCase(0.00500001, "default")]
  {
    var filled := WithDefaults(FINE_CASES, DefaultPoints(problem, 1));
    assert filled == FINE_CASES;
    assert FINE_CASES[0] in FINE_CASES;
    assert CaseGroups(FINE_CASES) == {"default"};
    assert StoredCases(FINE_CASES) == [ManifestCase(0.00500001, "default")];
  }

  /** Finer points can lose: a package with one case worth 0.00500001 can never be accepted. */
  lemma FinePointsLose(problem: Problem, slots: seq<Option<Report>>, reports: int)
    requires Import(problem, RawManifest([], None), FINE_CASES).Ok?
    requires FullyAccepted(Import(problem, RawManifest([], None), FINE_CASES).value, slots)
    ensures Judge(Import(problem, RawManifest([], None), FINE_CASES).value, slots, reports).result != AC
  {
    var m := Import(problem, RawManifest([], None), FINE_CASES).value;
    FineImport(problem);
    FullMarksExactly(problem, RawManifest([], None), FINE_CASES, slots, reports);
    FineRounding();
    hide Import, Judge, FullyAccepted, RoundTo;
    SumOne(0.00500001);
    SumOne(Round4(0.00500001));
    assert CasePoints(m.cases) == [0.00500001];
    assert RoundedCasePoints(m) == [Round4(0.00500001)];
  }
}
