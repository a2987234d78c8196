/** Scoring case by case: the declarative form, its independence of order, and its monotonicity. */
module ScoringLaws {
  import opened Sums
  import opened Options
  import opened Scoring

  // ----- the declarative form: one slot for each case of the manifest

  ghost predicate DistinctNumbers(reports: seq<Report>) {
    forall i, j | 0 <= i < j < |reports| :: reports[i].caseNumber != reports[j].caseNumber
  }

  function Slots(m: Manifest, reports: seq<Report>): (slots: seq<Option<Report>>)
    ensures |slots| == |m.cases|
  {
    if reports == [] then seq(|m.cases|, _ => None)
    else
      var r := reports[|reports| - 1];
      var before := Slots(m, reports[..|reports| - 1]);
      if InManifest(m, r.caseNumber) then before[r.caseNumber - 1 := Some(r)] else before
  }

  function SlotScore(m: Manifest, slots: seq<Option<Report>>, i: nat): real
    requires |slots| == |m.cases| && i < |slots|
  {
    if slots[i].None? then 0.0 else CaseScore(m.cases[i].points, slots[i].value)
  }

  /** The scores of one group's cases among the first n, in manifest order. */
  function GroupScores(m: Manifest, slots: seq<Option<Report>>, id: string, n: nat): seq<real>
    requires n <= |slots| == |m.cases|
  {
    if n == 0 then []
    else GroupScores(m, slots, id, n - 1) + if GroupOf(m, n - 1) == id then [SlotScore(m, slots, n - 1)] else []
  }

  function SlotSubtasks(m: Manifest, slots: seq<Option<Report>>): map<string, real>
    requires |slots| == |m.cases|
  {
    var defs := GroupDefs(GroupList(m));
    map id | id in defs :: GroupScore(defs[id], GroupScores(m, slots, id, |slots|))
  }

  function SlotVerdicts(slots: seq<Option<Report>>): set<Verdict> {
    set i | 0 <= i < |slots| && slots[i].Some? :: slots[i].value.status
  }

  function SlotPassed(slots: seq<Option<Report>>): nat {
    if slots == [] then 0
    else SlotPassed(slots[..|slots| - 1]) + if slots[|slots| - 1].Some? && slots[|slots| - 1].value.status == AC then 1 else 0
  }

  function SlotTime(slots: seq<Option<Report>>): real {
    if slots == [] then 0.0
    else
      var before := SlotTime(slots[..|slots| - 1]);
      if slots[|slots| - 1].Some? then MaxOf(before, slots[|slots| - 1].value.timeUsed) else before
  }

  function SlotMemory(slots: seq<Option<Report>>): int {
    if slots == [] then 0
    else
      var before := SlotMemory(slots[..|slots| - 1]);
      if slots[|slots| - 1].Some? then MaxInt(before, slots[|slots| - 1].value.memoryUsed) else before
  }

  /** The verdict read off the slots alone. */
  function Judge(m: Manifest, slots: seq<Option<Report>>, reports: int): Summary
    requires |slots| == |m.cases|
  {
    Conclude(m, SlotSubtasks(m, slots), SlotVerdicts(slots), Total(m, reports),
      SlotPassed(slots), SlotTime(slots), SlotMemory(slots))
  }

  // ----- the loops compute the declarative form

  lemma {:induction false} ScoresOfConcat(xs: seq<Entry>, ys: seq<Entry>, id: string)
    ensures ScoresOf(xs + ys, id) == ScoresOf(xs, id) + ScoresOf(ys, id)
  {
    if ys == [] {
      assert xs + ys == xs;
    } else {
      var n := |ys| - 1;
      assert (xs + ys)[..|xs| + n] == xs + ys[..n];
      ScoresOfConcat(xs, ys[..n], id);
    }
  }

  /** A slot is filled exactly by the report that carries its number. */
  lemma {:induction false} SlotHolds(m: Manifest, reports: seq<Report>, i: nat, r: Report)
    requires DistinctNumbers(reports) && i < |m.cases|
    ensures Slots(m, reports)[i] == Some(r) <==> r in reports && r.caseNumber == i + 1
  {
    if reports == [] {
    } else {
      var n := |reports| - 1;
      assert reports == reports[..n] + [reports[n]];
      SlotHolds(m, reports[..n], i, r);
    }
  }

  lemma FreshSlot(m: Manifest, reports: seq<Report>, r: Report)
    requires DistinctNumbers(reports + [r]) && InManifest(m, r.caseNumber)
    ensures DistinctNumbers(reports)
    ensures Slots(m, reports)[r.caseNumber - 1].None?
    ensures r.caseNumber !in Numbers(m, reports)
  {
    assert forall i | 0 <= i < |reports| :: (reports + [r])[i] == reports[i];
    assert (reports + [r])[|reports|] == r;
    var slot := Slots(m, reports)[r.caseNumber - 1];
    if slot.Some? {
      SlotHolds(m, reports, r.caseNumber - 1, slot.value);
    }
  }

  lemma {:induction false} EmptyGroups(m: Manifest, id: string, n: nat)
    requires n <= |m.cases|
    ensures ScoresOf(MissingEntries(m, {}, n), id) == GroupScores(m, Slots(m, []), id, n)
  {
    hide GroupOf, CaseScore;
    if n == 0 {
    } else {
      EmptyGroups(m, id, n - 1);
      ScoresOfAppend(MissingEntries(m, {}, n - 1), Entry(GroupOf(m, n - 1), 0.0), id);
    }
  }

  /** How often x occurs in a list. */
  function Occurs(xs: seq<real>, x: real): nat { multiset(xs)[x] }

  lemma OccursAppend(xs: seq<real>, y: real, x: real)
    ensures Occurs(xs + [y], x) == Occurs(xs, x) + if y == x then 1 else 0
    ensures Occurs(xs + [], x) == Occurs(xs, x)
  {
    assert xs + [] == xs;
  }

  lemma MissingStep(m: Manifest, seen: set<int>, id: string, n: nat, x: real)
    requires 0 < n <= |m.cases|
    ensures Occurs(ScoresOf(MissingEntries(m, seen, n), id), x) ==
      Occurs(ScoresOf(MissingEntries(m, seen, n - 1), id), x) + if n !in seen && GroupOf(m, n - 1) == id && x == 0.0 then 1 else 0
  {
    var before := MissingEntries(m, seen, n - 1);
    if n in seen {
      assert MissingEntries(m, seen, n) == before;
    } else {
      hide GroupOf, Occurs;
      ScoresOfAppend(before, Entry(GroupOf(m, n - 1), 0.0), id);
      OccursAppend(ScoresOf(before, id), 0.0, x);
    }
  }

  /** A newly reported case leaves the missing ones, taking one zero with it. */
  lemma {:induction false} MissingDrop(m: Manifest, seen: set<int>, k: int, id: string, n: nat, x: real)
    requires n <= |m.cases| && InManifest(m, k) && k !in seen
    ensures Occurs(ScoresOf(MissingEntries(m, seen, n), id), x) ==
      Occurs(ScoresOf(MissingEntries(m, seen + {k}, n), id), x) + if k <= n && GroupOf(m, k - 1) == id && x == 0.0 then 1 else 0
  {
    hide Occurs, GroupOf, ScoresOf;
    if n == 0 {
    } else {
      MissingDrop(m, seen, k, id, n - 1, x);
      MissingStep(m, seen, id, n, x);
      MissingStep(m, seen + {k}, id, n, x);
    }
  }

  /** Filling an empty slot replaces one zero of its group by the case's score. */
  lemma {:induction false} GroupScoresFill(m: Manifest, slots: seq<Option<Report>>, k: int, r: Report, id: string,
      n: nat, x: real)
    requires n <= |slots| == |m.cases| && InManifest(m, k) && slots[k - 1].None?
    ensures var mine := k <= n && GroupOf(m, k - 1) == id;
      Occurs(GroupScores(m, slots[k - 1 := Some(r)], id, n), x) + (if mine && x == 0.0 then 1 else 0) ==
      Occurs(GroupScores(m, slots, id, n), x) + (if mine && x == CaseScore(m.cases[k - 1].points, r) then 1 else 0)
  {
    hide Occurs, GroupOf, CaseScore;
    if n == 0 {
    } else {
      var filled := slots[k - 1 := Some(r)];
      GroupScoresFill(m, slots, k, r, id, n - 1, x);
      OccursAppend(GroupScores(m, slots, id, n - 1), SlotScore(m, slots, n - 1), x);
      OccursAppend(GroupScores(m, filled, id, n - 1), SlotScore(m, filled, n - 1), x);
    }
  }

  /** Every case is in exactly one group exactly once: collected and missing scores together are the slots'. */
  lemma {:induction false} EntriesAreSlots(m: Manifest, reports: seq<Report>, id: string, x: real)
    requires DistinctNumbers(reports)
    ensures Occurs(ScoresOf(ReportEntries(m, reports), id), x) + Occurs(ScoresOf(MissingEntries(m, Numbers(m, reports), |m.cases|), id), x)
      == Occurs(GroupScores(m, Slots(m, reports), id, |m.cases|), x)
  {
    hide Occurs, GroupOf, CaseScore, MissingEntries, GroupScores, ScoresOf;
    if reports == [] {
      EmptyGroups(m, id, |m.cases|);
      assert Numbers(m, reports) == {};
      NothingCollected(id, x);
    } else {
      var front, r := reports[..|reports| - 1], reports[|reports| - 1];
      assert reports == front + [r];
      EntriesAreSlots(m, front, id, x);
      if InManifest(m, r.caseNumber) {
        var k := r.caseNumber;
        var score := CaseScore(m.cases[k - 1].points, r);
        FreshSlot(m, front, r);
        ScoresOfAppend(ReportEntries(m, front), Entry(GroupOf(m, k - 1), score), id);
        OccursAppend(ScoresOf(ReportEntries(m, front), id), score, x);
        MissingDrop(m, Numbers(m, front), k, id, |m.cases|, x);
        GroupScoresFill(m, Slots(m, front), k, r, id, |m.cases|, x);
        assert Numbers(m, reports) == Numbers(m, front) + {k};
      } else {
        assert Numbers(m, reports) == Numbers(m, front);
        assert ReportEntries(m, reports) == ReportEntries(m, front);
      }
    }
  }

  lemma NothingCollected(id: string, x: real)
    ensures Occurs(ScoresOf([], id), x) == 0
  {
  }

  lemma GroupScorePermute(g: Group, xs: seq<real>, ys: seq<real>)
    requires multiset(xs) == multiset(ys)
    ensures GroupScore(g, xs) == GroupScore(g, ys)
  {
    assert |multiset(xs)| == |xs| && |multiset(ys)| == |ys|;
    SumPermute(xs, ys);
    if xs != [] {
      MinPermute(xs, ys);
    }
  }

  lemma GroupIsSlots(m: Manifest, reports: seq<Report>, g: Group, id: string)
    requires DistinctNumbers(reports)
    ensures GroupScore(g, ScoresOf(Entries(m, reports), id)) == GroupScore(g, GroupScores(m, Slots(m, reports), id, |m.cases|))
  {
    var collected, slots := ScoresOf(Entries(m, reports), id), GroupScores(m, Slots(m, reports), id, |m.cases|);
    hide GroupScore, ScoresOf, GroupScores, Slots, ReportEntries, MissingEntries, Numbers;
    ScoresOfConcat(ReportEntries(m, reports), MissingEntries(m, Numbers(m, reports), |m.cases|), id);
    forall x ensures multiset(collected)[x] == multiset(slots)[x] {
      EntriesAreSlots(m, reports, id, x);
    }
    assert multiset(collected) == multiset(slots);
    GroupScorePermute(g, collected, slots);
  }

  lemma SubtasksAreSlots(m: Manifest, reports: seq<Report>)
    requires DistinctNumbers(reports)
    ensures Subtasks(m, Entries(m, reports)) == SlotSubtasks(m, Slots(m, reports))
  {
    hide GroupDefs, GroupList, GroupScore, ScoresOf, GroupScores, Slots, Entries;
    var defs := GroupDefs(GroupList(m));
    forall id | id in defs
      ensures Subtasks(m, Entries(m, reports))[id] == SlotSubtasks(m, Slots(m, reports))[id]
    {
      GroupIsSlots(m, reports, defs[id], id);
    }
  }

  lemma {:induction false} FillCounts(slots: seq<Option<Report>>, i: nat, r: Report)
    requires i < |slots| && slots[i].None?
    ensures SlotPassed(slots[i := Some(r)]) == SlotPassed(slots) + if r.status == AC then 1 else 0
    ensures SlotTime(slots[i := Some(r)]) == MaxOf(SlotTime(slots), r.timeUsed)
    ensures SlotMemory(slots[i := Some(r)]) == MaxInt(SlotMemory(slots), r.memoryUsed)
  {
    var n := |slots| - 1;
    var after := slots[i := Some(r)];
    if i < n {
      assert after[..n] == slots[..n][i := Some(r)];
      FillCounts(slots[..n], i, r);
    } else {
      assert after[..n] == slots[..n];
    }
  }

  lemma {:induction false} EmptyCounts(n: nat)
    ensures var slots: seq<Option<Report>> := seq(n, _ => None);
      SlotPassed(slots) == 0 && SlotTime(slots) == 0.0 && SlotMemory(slots) == 0
  {
    var slots: seq<Option<Report>> := seq(n, _ => None);
    if n == 0 {
    } else {
      var shorter: seq<Option<Report>> := seq(n - 1, _ => None);
      assert slots[..n - 1] == shorter;
      EmptyCounts(n - 1);
    }
  }

  lemma {:induction false} CountsAreSlots(m: Manifest, reports: seq<Report>)
    requires DistinctNumbers(reports)
    ensures Passed(m, reports) == SlotPassed(Slots(m, reports))
    ensures MaxTime(m, reports) == SlotTime(Slots(m, reports))
    ensures MaxMemory(m, reports) == SlotMemory(Slots(m, reports))
  {
    if reports == [] {
      EmptyCounts(|m.cases|);
    } else {
      var front, r := reports[..|reports| - 1], reports[|reports| - 1];
      assert reports == front + [r];
      CountsAreSlots(m, front);
      if InManifest(m, r.caseNumber) {
        FreshSlot(m, front, r);
        FillCounts(Slots(m, front), r.caseNumber - 1, r);
      }
    }
  }

  lemma {:induction false} StatusesAreSlots(m: Manifest, reports: seq<Report>, k: int)
    requires DistinctNumbers(reports)
    ensures k in Statuses(m, reports) <==> InManifest(m, k) && Slots(m, reports)[k - 1].Some?
    ensures k in Statuses(m, reports) ==> Statuses(m, reports)[k] == Slots(m, reports)[k - 1].value.status
  {
    if reports == [] {
    } else {
      StatusesAreSlots(m, reports[..|reports| - 1], k);
    }
  }

  lemma VerdictsAreSlots(m: Manifest, reports: seq<Report>)
    requires DistinctNumbers(reports)
    ensures Statuses(m, reports).Values == SlotVerdicts(Slots(m, reports))
  {
    var statuses, slots := Statuses(m, reports), Slots(m, reports);
    forall v ensures v in statuses.Values <==> v in SlotVerdicts(slots) {
      if v in statuses.Values {
        var k :| k in statuses && statuses[k] == v;
        StatusesAreSlots(m, reports, k);
        assert slots[k - 1].Some?;
      }
      if v in SlotVerdicts(slots) {
        var i :| 0 <= i < |slots| && slots[i].Some? && slots[i].value.status == v;
        StatusesAreSlots(m, reports, i + 1);
      }
    }
  }

  /** Main result: for distinct case numbers the loops compute the declarative form. */
  lemma ScoreRefines(m: Manifest, reports: seq<Report>)
    requires DistinctNumbers(reports)
    ensures LoopSummary(m, reports) == Judge(m, Slots(m, reports), |reports|)
  {
    SubtasksAreSlots(m, reports);
    CountsAreSlots(m, reports);
    VerdictsAreSlots(m, reports);
    hide Conclude, Subtasks, SlotSubtasks, Statuses, SlotVerdicts, Slots, Entries;
  }

  /** The order in which rows arrive changes nothing. */
  lemma ScoreOrderFree(m: Manifest, reports: seq<Report>, permuted: seq<Report>)
    requires DistinctNumbers(reports) && DistinctNumbers(permuted)
    requires multiset(reports) == multiset(permuted)
    ensures LoopSummary(m, reports) == LoopSummary(m, permuted)
  {
    var xs, ys := Slots(m, reports), Slots(m, permuted);
    forall i | 0 <= i < |m.cases| ensures xs[i] == ys[i] {
      forall r: Report ensures r in reports <==> r in permuted {
        assert r in reports <==> r in multiset(reports);
        assert r in permuted <==> r in multiset(permuted);
      }
      if xs[i].Some? {
        SlotHolds(m, reports, i, xs[i].value);
        SlotHolds(m, permuted, i, xs[i].value);
      } else if ys[i].Some? {
        SlotHolds(m, reports, i, ys[i].value);
        SlotHolds(m, permuted, i, ys[i].value);
      }
    }
    assert xs == ys;
    assert |reports| == |multiset(reports)| == |permuted|;
    ScoreRefines(m, reports);
    ScoreRefines(m, permuted);
  }
}
