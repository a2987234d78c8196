/** From claim to verdict: a worker that keeps its lease gets the score its results deserve. */
module JudgeJourney {
  import opened Options
  import opened Scoring
  import opened ScoringLaws
  import opened PackageImport
  import opened WorkerExecute
  import opened ArchivePoints
  import opened AscendingNumbers
  import opened JudgeJob
  import opened JudgeLaws

  function Posted(rs: seq<CaseResult>): (batch: seq<CaseIn>)
    ensures |batch| == |rs|
  {
    seq(|rs|, i requires 0 <= i < |rs| =>
      CaseIn(rs[i].caseNumber, rs[i].code, rs[i].timeUsed, rs[i].memoryUsed, rs[i].points, rs[i].totalPoints))
  }

  predicate Numbered(rs: seq<CaseResult>) {
    forall i | 0 <= i < |rs| :: rs[i].caseNumber == i + 1
  }

  /** Upserting results numbered 1, 2, ... into an empty table. */
  lemma {:induction false} NumberedRows(cases: seq<ManifestCase>, rs: seq<CaseResult>)
    requires Numbered(rs)
    ensures var rows := Upsert(cases, map[], Posted(rs));
      && (forall n: nat :: n in rows <==> 1 <= n <= |rs|)
      && forall i | 0 <= i < |rs| :: i + 1 in rows && rows[i + 1] == RowFor(cases, Posted(rs)[i])
  {
    hide RowFor;
    if rs == [] {
    } else {
      var front := rs[..|rs| - 1];
      NumberedRows(cases, front);
      assert Posted(rs)[..|rs| - 1] == Posted(front);
    }
  }

  lemma {:induction false} CountTo(s: set<nat>, n: nat)
    requires forall k: nat :: k in s <==> 1 <= k <= n
    ensures |s| == n
  {
    if n == 0 {
      assert s == {};
    } else {
      CountTo(s - {n}, n - 1);
    }
  }

  lemma {:induction false} AscendingTo(s: set<nat>, n: nat, i: nat)
    requires (forall k: nat :: k in s <==> 1 <= k <= n) && |s| == n && i < n
    ensures Ascending(s)[i] == i + 1
  {
    var ns := Ascending(s);
    for k := 0 to i
      invariant ns[k] >= k + 1
    {
      assert ns[k] < ns[k + 1];
    }
    var k := n - 1;
    while k > i
      invariant i <= k < n && ns[k] <= k + 1
    {
      assert ns[k - 1] < ns[k];
      k := k - 1;
    }
  }

  /** The rows come back to scoring as the reports the worker meant. */
  lemma RowsAreReports(cases: seq<ManifestCase>, rs: seq<CaseResult>)
    requires Numbered(rs)
    ensures ReportsOf(Upsert(cases, map[], Posted(rs))) == ReportsFor(rs)
  {
    var rows := Upsert(cases, map[], Posted(rs));
    NumberedRows(cases, rs);
    CountTo(rows.Keys, |rs|);
    hide Upsert;
    forall i | 0 <= i < |rs| ensures ReportsOf(rows)[i] == ReportsFor(rs)[i] {
      AscendingTo(rows.Keys, |rs|, i);
      assert rows[i + 1] == RowFor(cases, Posted(rs)[i]);
    }
  }

  /** Claim, start, post all results, finish, each before the lease runs out. */
  function Journey(c: Cell, judge: nat, times: (int, int, int, int), rs: seq<CaseResult>): (Answer, Answer, Answer)
    requires c.job.status == Waiting
  {
    var started := Start(Claim(c, judge, times.0), judge, times.1);
    var posted := RecordCases(started.cell, judge, times.2, Posted(rs));
    (started, posted, Finish(posted.cell, judge, times.3, ""))
  }

  predicate InLease(times: (int, int, int, int)) {
    && times.0 <= times.1 < times.0 + LEASE_SECONDS
    && times.1 <= times.2 < times.1 + LEASE_SECONDS
    && times.2 <= times.3 < times.2 + LEASE_SECONDS
  }

  /** Every request of an undisturbed journey is accepted, and the verdict is the score of the worker's results. */
  lemma JourneyScores(c: Cell, judge: nat, times: (int, int, int, int), rs: seq<CaseResult>)
    requires Coupled(c) && SetupOk(c.setup) && c.job.status == Waiting && !c.setup.run
    requires InLease(times) && Numbered(rs) && |rs| <= |CasesOf(c)|
    ensures var (started, posted, finished) := Journey(c, judge, times, rs);
      var s := LoopSummary(c.setup.package.value.manifest, ReportsFor(rs));
      && started.reply == Done && posted.reply == Done && finished.reply == Done
      && finished.cell.job.status == Succeeded
      && finished.cell.sub.result == Some(s.result) && finished.cell.sub.points == s.points
      && finished.cell.sub.subtaskScores == s.subtaskScores && finished.cell.sub.status == s.status
      && finished.cell.sub.casePassed == s.casePassed && finished.cell.sub.caseTotal == s.caseTotal
  {
    assert c.rows == map[];
    JourneyPosts(c, judge, times, rs);
    RowsAreReports(CasesOf(c), rs);
    hide Upsert, RowsPassed, HighestCase, LoopSummary, ReportsOf, ReportsFor, LastNumber, Start, RecordCases, Coupled;
  }

  lemma JourneyPosts(c: Cell, judge: nat, times: (int, int, int, int), rs: seq<CaseResult>)
    requires c.rows == map[] && c.job.status == Waiting && InLease(times) && Numbered(rs) && |rs| <= |CasesOf(c)|
    ensures var (started, posted, _) := Journey(c, judge, times, rs);
      && started.reply == Done && posted.reply == Done && posted.cell.setup == c.setup
      && posted.cell.rows == Upsert(CasesOf(c), map[], Posted(rs))
      && posted.cell.job.status == Running && posted.cell.job.claimedBy == Some(judge)
      && posted.cell.job.lease == Some(times.2 + LEASE_SECONDS)
  {
    var batch := Posted(rs);
    forall x | x in batch ensures InPackage(CasesOf(c), x) {
      var i :| 0 <= i < |batch| && batch[i] == x;
    }
    hide Upsert, RowsPassed, HighestCase, Graded, Posted, Numbered, InPackage, Finish;
  }

  predicate AllPass(outcomes: seq<Outcome>) {
    forall i | 0 <= i < |outcomes| :: !outcomes[i].Fault? && Passes(outcomes[i])
  }

  /** Nothing cuts a run in which every case passes. */
  lemma AllExecuted(outcomes: seq<Outcome>, shortCircuit: bool)
    requires AllPass(outcomes)
    ensures Executed(outcomes, shortCircuit) == |outcomes|
  {
  }

  /** Whether or not the worker knows the points of a case, passing every case is full acceptance. */
  lemma PassingSlots(m: Manifest, points: seq<real>, outcomes: seq<Outcome>)
    requires StoredOrZero(m, points) && |outcomes| == |m.cases|
    requires AllPass(outcomes)
    ensures FullyAccepted(m, Slots(m, ReportsFor(Results(points, outcomes, |outcomes|))))
  {
    forall i | 0 <= i < |m.cases|
      ensures Slots(m, ReportsFor(Results(points, outcomes, |outcomes|)))[i] ==
        Some(ReportFor(ResultOf(i, points[i], outcomes[i])))
    {
      PrefixSlots(m, points, outcomes, |outcomes|, i);
    }
    hide Slots;
  }
}
