/** Laws of single requests: the job/submission coupling, the retry measure, ownership, and case reports. */
module JudgeLaws {
  import opened Options
  import opened Scoring
  import opened ScoringLaws
  import opened WorkerExecute
  import opened AscendingNumbers
  import opened JudgeJob

  // ----- the coupling invariant

  /** What creation and import guarantee: a scored submission has a package with cases. */
  predicate SetupOk(s: Setup) {
    s.run || (s.package.Some? && s.package.value.manifest.cases != [])
  }

  predicate RowsOk(c: Cell) {
    forall n | n in c.rows :: n >= 1 && (CasesOf(c) != [] ==> n <= |CasesOf(c)|)
  }

  predicate CountersOk(c: Cell) {
    && 0 <= c.sub.casePassed <= c.sub.caseTotal && 0 <= c.sub.currentTestcase <= c.sub.caseTotal
    && (CasesOf(c) != [] ==> c.sub.caseTotal <= |CasesOf(c)|)
  }

  /** What each job status says about the job, its submission and its rows. */
  predicate Coupled(c: Cell) {
    && c.job.attempts <= c.job.maxAttempts && c.job.maxAttempts > 0
    && RowsOk(c) && CountersOk(c)
    && (c.sub.subtaskScores == map[] ==> c.sub.points == 0.0)
    && match c.job.status
       case Waiting =>
         && c.job == FreshJob(c.job.maxAttempts).(attempts := c.job.attempts, lastError := c.job.lastError)
         && c.job.attempts < c.job.maxAttempts
         && c.sub == FreshSubmission && c.rows == map[]
       case Claimed =>
         && c.job.claimedBy.Some? && c.job.lease.Some? && c.job.claimedAt.Some?
         && c.job.startedAt.None? && c.job.finishedAt.None? && c.job.attempts > 0
         && c.sub == FreshSubmission && c.rows == map[]
       case Running =>
         && c.job.claimedBy.Some? && c.job.lease.Some? && c.job.claimedAt.Some?
         && c.job.startedAt.Some? && c.job.finishedAt.None? && c.job.attempts > 0
         && c.sub.status == Judging && c.sub.result.None? && c.sub.points == 0.0
         && c.sub.subtaskScores == map[] && c.sub.judgedAt.None? && c.sub.judgedOn.None?
       case Succeeded =>
         && c.job.claimedBy.Some? && c.job.lease.None? && c.job.finishedAt.Some? && c.job.attempts > 0
         && c.sub.status in {Completed, Error} && c.sub.result.Some?
         && c.sub.judgedAt == c.job.finishedAt && c.sub.judgedOn == c.job.claimedBy
       case Failed =>
         && c.job.claimedBy.Some? && c.job.lease.None? && c.job.finishedAt.Some? && c.job.attempts > 0
         && c.sub.status == Error && c.sub.result in {Some(CE), Some(IE)} && c.sub.points == 0.0
         && c.sub.judgedAt == c.job.finishedAt
         && (c.sub.judgedOn.None? || c.sub.judgedOn == c.job.claimedBy)
       case _ => false
  }

  lemma CreateCoupled(setup: Setup)
    ensures Create(setup).reply == Done ==> Coupled(Create(setup).cell)
  {
  }

  lemma ExpireCoupled(c: Cell, now: int)
    requires Coupled(c)
    ensures Coupled(Expire(c, now))
  {
  }

  lemma ClaimCoupled(c: Cell, judge: nat, now: int)
    requires Coupled(c) && c.job.status == Waiting
    ensures Coupled(Claim(c, judge, now))
  {
  }

  lemma HeartbeatCoupled(c: Cell, judge: nat, now: int)
    requires Coupled(c)
    ensures Coupled(Heartbeat(c, judge, now))
  {
  }

  lemma StartCoupled(c: Cell, judge: nat, now: int)
    requires Coupled(c)
    ensures Coupled(Start(c, judge, now).cell)
  {
  }

  lemma FailCoupled(c: Cell, judge: nat, now: int, code: string, message: string)
    requires Coupled(c)
    ensures Coupled(Fail(c, judge, now, code, message).cell)
  {
  }

  lemma RejudgeCoupled(c: Cell)
    requires Coupled(c)
    ensures Coupled(Rejudge(c).cell)
  {
  }

  lemma {:induction false} UpsertKeys(cases: seq<ManifestCase>, rows: map<nat, Row>, batch: seq<CaseIn>, n: nat)
    requires n in Upsert(cases, rows, batch)
    ensures n in rows || (n >= 1 && exists x :: x in batch && x.number == n)
  {
    if batch == [] {
    } else {
      var front, last := batch[..|batch| - 1], batch[|batch| - 1];
      if n in Upsert(cases, rows, front) {
        UpsertKeys(cases, rows, front, n);
        if n !in rows {
          var x :| x in front && x.number == n;
          assert x in batch;
        }
      } else {
        assert last in batch && last.number == n;
      }
    }
  }

  /** Distinct numbers up to a bound are at most that many. */
  lemma {:induction false} BoundedCount(s: set<nat>, total: nat)
    requires forall n | n in s :: 1 <= n <= total
    ensures |s| <= total
  {
    if total > 0 {
      var rest := s - {total};
      assert |s| <= |rest| + 1;
      BoundedCount(rest, total - 1);
    } else {
      assert s == {};
    }
  }

  lemma SubsetCount(s: set<nat>, t: set<nat>)
    requires s <= t
    ensures |s| <= |t|
  {
    assert |t - s| + |s| == |t| by {
      assert t == (t - s) + s;
    }
  }

  lemma RowsPassedBound(cases: seq<ManifestCase>, rows: map<nat, Row>)
    requires forall n | n in rows :: n >= 1
    ensures RowsPassed(rows, RowTotal(cases, rows)) <= RowTotal(cases, rows)
  {
    var total := RowTotal(cases, rows);
    var passed := PassedNumbers(rows, total);
    if cases != [] {
      BoundedCount(passed, total);
    } else {
      SubsetCount(passed, rows.Keys);
      assert |rows| == |rows.Keys|;
    }
  }

  lemma {:induction false} HighestNonnegative(start: int, batch: seq<CaseIn>)
    requires start >= 0
    ensures HighestCase(start, batch) >= start
  {
    if batch == [] {
    } else {
      HighestNonnegative(start, batch[..|batch| - 1]);
    }
  }

  lemma RecordCoupled(c: Cell, judge: nat, now: int, batch: seq<CaseIn>)
    requires Coupled(c)
    ensures Coupled(RecordCases(c, judge, now, batch).cell)
  {
    var answer := RecordCases(c, judge, now, batch);
    if answer.reply == Done {
      var cases := CasesOf(c);
      var rows := Upsert(cases, c.rows, batch);
      forall n | n in rows ensures n >= 1 && (cases != [] ==> n <= |cases|) {
        UpsertKeys(cases, c.rows, batch, n);
      }
      RowsPassedBound(cases, rows);
      HighestNonnegative(c.sub.currentTestcase, batch);
      hide Upsert, RowsPassed, HighestCase;
    }
  }

  /** Rows of one submission carry distinct numbers, so the scoring laws apply to them. */
  lemma ReportsDistinct(rows: map<nat, Row>)
    ensures DistinctNumbers(ReportsOf(rows))
  {
  }

  lemma ScoredCounters(m: Manifest, rows: map<nat, Row>)
    requires m.cases != [] && forall n | n in rows :: 1 <= n <= |m.cases|
    ensures var s := LoopSummary(m, ReportsOf(rows));
      && 0 <= s.casePassed <= s.caseTotal == |m.cases|
      && 0 <= LastNumber(rows) <= |m.cases|
      && s.subtaskScores != map[]
      && s.status in {Completed, Error}
  {
    ReportsDistinct(rows);
    ScoreRefines(m, ReportsOf(rows));
    var slots := Slots(m, ReportsOf(rows));
    PassedBound(slots);
    var g := GroupList(m)[0];
    assert g.id in GroupDefs(GroupList(m));
    assert g.id in Judge(m, slots, |ReportsOf(rows)|).subtaskScores;
  }

  lemma RunCounters(sub: Submission, rows: map<nat, Row>)
    ensures var s := RunVerdict(sub, rows);
      && s.caseTotal == (if rows == map[] then 0 else 1) && 0 <= s.casePassed <= s.caseTotal
      && s.currentTestcase == s.caseTotal && s.points == 0.0
      && s.status in {Completed, Error} && s.result.Some?
  {
    var ns := Ascending(rows.Keys);
    if rows == map[] {
      assert rows.Keys == {};
      assert |ns| == 0;
    } else {
      var n :| n in rows;
      AscendingCovers(rows.Keys, n);
    }
  }

  /** What grading leaves on the submission, in both modes. */
  predicate GradedOk(c: Cell, s: Submission) {
    && s.status in {Completed, Error} && s.result.Some?
    && 0 <= s.casePassed <= s.caseTotal && 0 <= s.currentTestcase <= s.caseTotal
    && (CasesOf(c) != [] ==> s.caseTotal <= |CasesOf(c)|)
    && (s.subtaskScores == map[] ==> s.points == 0.0)
  }

  lemma GradedHolds(c: Cell)
    requires SetupOk(c.setup) && RowsOk(c)
    ensures GradedOk(c, Graded(c))
  {
    if c.setup.run {
      RunCounters(c.sub, c.rows);
      hide RunVerdict;
    } else {
      ScoredCounters(c.setup.package.value.manifest, c.rows);
      hide LoopSummary, LastNumber;
    }
  }

  lemma FinishCoupled(c: Cell, judge: nat, now: int, message: string)
    requires Coupled(c) && SetupOk(c.setup)
    ensures Coupled(Finish(c, judge, now, message).cell)
  {
    GradedHolds(c);
    hide Graded, Coupled, GradedOk, Finished;
    if Finish(c, judge, now, message).reply == Done && c.job.status != Succeeded {
      FinishedCoupled(c, judge, now, message);
    }
  }

  lemma FinishedCoupled(c: Cell, judge: nat, now: int, message: string)
    requires Coupled(c) && Active(c.job) && c.job.claimedBy == Some(judge) && (c.setup.run || c.setup.package.Some?)
    requires GradedOk(c, Graded(c))
    ensures Coupled(Finished(c, judge, now, message))
  {
    hide Graded;
  }

  /** Without cases in the manifest the counters do not hold: one row numbered 7 is case 7 of 1. */
  lemma EmptyPackageOvercounts(c: Cell, judge: nat, now: int, message: string, row: Row)
    requires AssertOwned(c.job, judge, now) == Done && !c.setup.run && c.setup.package.Some?
    requires c.setup.package.value.manifest.cases == [] && c.rows == map[7 := row]
    ensures var s := Finish(c, judge, now, message).cell.sub; s.caseTotal == 1 && s.currentTestcase == 7
  {
    assert |c.rows| == 1;
    assert |Ascending(c.rows.Keys)| == 1;
    assert Ascending(c.rows.Keys)[0] in c.rows.Keys;
  }

  // ----- the retry measure

  function Rank(status: JobStatus): nat {
    match status
    case Claimed => 2
    case Running => 1
    case _ => 0
  }

  function Measure(c: Cell): int {
    3 * (c.job.maxAttempts - c.job.attempts) + Rank(c.job.status)
  }

  /** One request that is not a rejudge: either the status is untouched, or the measure strictly falls. */
  predicate Descends(before: Cell, after: Cell) {
    && after.job.maxAttempts == before.job.maxAttempts
    && before.job.attempts <= after.job.attempts
    && (after.job.status == before.job.status ==> Measure(after) == Measure(before))
    && (after.job.status != before.job.status ==> Measure(after) < Measure(before))
  }

  lemma RequestsDescend(c: Cell, judge: nat, now: int)
    requires Coupled(c)
    ensures Descends(c, Expire(c, now)) && Descends(c, Heartbeat(c, judge, now))
    ensures c.job.status == Waiting ==> Descends(c, Claim(c, judge, now))
    ensures Descends(c, Start(c, judge, now).cell)
    ensures forall batch :: Descends(c, RecordCases(c, judge, now, batch).cell)
    ensures forall message :: Descends(c, Finish(c, judge, now, message).cell)
    ensures forall code, message :: Descends(c, Fail(c, judge, now, code, message).cell)
  {
    hide *;
    GatewayDescends(c, judge, now);
    CallbacksDescend(c, judge, now, [], "", "");
    forall batch ensures Descends(c, RecordCases(c, judge, now, batch).cell) {
      CallbacksDescend(c, judge, now, batch, "", "");
    }
    forall message ensures Descends(c, Finish(c, judge, now, message).cell) {
      CallbacksDescend(c, judge, now, [], "", message);
    }
    forall code, message ensures Descends(c, Fail(c, judge, now, code, message).cell) {
      CallbacksDescend(c, judge, now, [], code, message);
    }
  }

  lemma GatewayDescends(c: Cell, judge: nat, now: int)
    requires Coupled(c)
    ensures Descends(c, Expire(c, now)) && Descends(c, Heartbeat(c, judge, now))
    ensures c.job.status == Waiting ==> Descends(c, Claim(c, judge, now))
  {
    AttemptsCoupled(c);
    hide Coupled;
  }

  lemma CallbacksDescend(c: Cell, judge: nat, now: int, batch: seq<CaseIn>, code: string, message: string)
    requires Coupled(c)
    ensures Descends(c, Start(c, judge, now).cell)
    ensures Descends(c, RecordCases(c, judge, now, batch).cell)
    ensures Descends(c, Finish(c, judge, now, message).cell)
    ensures Descends(c, Fail(c, judge, now, code, message).cell)
  {
    hide Coupled, Upsert, RowsPassed, HighestCase, RowTotal, Graded, CasesOf, InPackage;
  }

  lemma AttemptsCoupled(c: Cell)
    requires Coupled(c)
    ensures c.job.attempts <= c.job.maxAttempts && (c.job.status == Waiting ==> c.job.attempts < c.job.maxAttempts)
  {
  }

  // ----- ownership

  /**
   * Fencing of one request: a judge that is not the current claimant is refused by every callback,
   * and nothing changes; and a callback is refused that way only for that reason.
   */
  lemma StrangersDenied(c: Cell, judge: nat, now: int, batch: seq<CaseIn>, code: string, message: string)
    requires Coupled(c)
    ensures Start(c, judge, now).reply == Denied <==> c.job.claimedBy != Some(judge)
    ensures RecordCases(c, judge, now, batch).reply == Denied <==> c.job.claimedBy != Some(judge)
    ensures Finish(c, judge, now, message).reply == Denied <==> c.job.claimedBy != Some(judge)
    ensures Fail(c, judge, now, code, message).reply == Denied <==> c.job.claimedBy != Some(judge)
    ensures c.job.claimedBy != Some(judge) ==> Heartbeat(c, judge, now) == c
  {
    hide Upsert, RowsPassed, HighestCase, Graded;
  }

  /** A live lease is what cases need; finish and fail need it too, or the outcome already stored. */
  lemma LeaseRules(c: Cell, judge: nat, now: int, batch: seq<CaseIn>, code: string, message: string)
    requires Coupled(c) && SetupOk(c.setup)
    ensures var live := c.job.claimedBy == Some(judge) && c.job.lease.Some? && now < c.job.lease.value;
      && (RecordCases(c, judge, now, batch).reply == Done <==> live && forall x | x in batch :: InPackage(CasesOf(c), x))
      && (Finish(c, judge, now, message).reply == Done <==> live || (c.job.status == Succeeded && c.job.claimedBy == Some(judge)))
      && (Fail(c, judge, now, code, message).reply == Done <==> live || (c.job.status == Failed && c.job.claimedBy == Some(judge)))
      && (Start(c, judge, now).reply == Done <==>
            c.job.claimedBy == Some(judge) && (c.job.status == Running || (c.job.status == Claimed && live)))
  {
    hide Upsert, RowsPassed, HighestCase, Graded;
  }

  /**
   * A lapsed but unswept lease is refused by every callback except `start`, which accepts and renews it
   * exactly when the job is already running for that judge.
   */
  lemma StartRevivesLapsedLease(c: Cell, judge: nat, now: int, batch: seq<CaseIn>, code: string, message: string)
    requires Coupled(c) && SetupOk(c.setup) && c.job.lease.Some? && c.job.lease.value <= now
    ensures RecordCases(c, judge, now, batch).reply != Done && Finish(c, judge, now, message).reply != Done
    ensures Fail(c, judge, now, code, message).reply != Done
    ensures Start(c, judge, now).reply == Done <==> c.job.status == Running && c.job.claimedBy == Some(judge)
    ensures Start(c, judge, now).reply == Done ==>
      Start(c, judge, now).cell.job.lease == Some(now + LEASE_SECONDS) &&
      AssertOwned(Start(c, judge, now).cell.job, judge, now) == Done
  {
    LeaseRules(c, judge, now, batch, code, message);
    assert c.job.status != Succeeded && c.job.status != Failed;
    hide Coupled, SetupOk, RecordCases, Finish, Fail;
  }

  // ----- case reports

  /** What a batch writes, as a map of its own. */
  function Written(cases: seq<ManifestCase>, batch: seq<CaseIn>): map<nat, Row> {
    Upsert(cases, map[], batch)
  }

  lemma {:induction false} UpsertMerges(cases: seq<ManifestCase>, rows: map<nat, Row>, batch: seq<CaseIn>)
    ensures Upsert(cases, rows, batch) == rows + Written(cases, batch)
  {
    hide RowFor;
    if batch == [] {
    } else {
      UpsertMerges(cases, rows, batch[..|batch| - 1]);
    }
  }

  lemma {:induction false} UpsertSplits(cases: seq<ManifestCase>, rows: map<nat, Row>, a: seq<CaseIn>, b: seq<CaseIn>)
    ensures Upsert(cases, rows, a + b) == Upsert(cases, Upsert(cases, rows, a), b)
  {
    if b == [] {
      assert a + b == a;
    } else {
      assert (a + b)[..|a + b| - 1] == a + b[..|b| - 1];
      UpsertSplits(cases, rows, a, b[..|b| - 1]);
    }
  }

  lemma {:induction false} HighestSplits(start: int, a: seq<CaseIn>, b: seq<CaseIn>)
    ensures HighestCase(start, a + b) == HighestCase(HighestCase(start, a), b)
  {
    if b == [] {
      assert a + b == a;
    } else {
      assert (a + b)[..|a + b| - 1] == a + b[..|b| - 1];
      HighestSplits(start, a, b[..|b| - 1]);
    }
  }

  /** The highest case seen is a maximum with a number that depends on the batch alone. */
  lemma {:induction false} HighestIsMax(start: int, batch: seq<CaseIn>)
    requires start >= 0
    ensures HighestCase(start, batch) == MaxInt(start, HighestCase(0, batch))
  {
    if batch == [] {
    } else {
      HighestIsMax(start, batch[..|batch| - 1]);
    }
  }

  /** Posting a batch twice leaves rows and counters as posting it once did. */
  lemma RecordIdempotent(c: Cell, judge: nat, now: int, later: int, batch: seq<CaseIn>)
    requires Coupled(c) && RecordCases(c, judge, now, batch).reply == Done
    requires now <= later < now + LEASE_SECONDS
    ensures var once := RecordCases(c, judge, now, batch).cell;
      var twice := RecordCases(once, judge, later, batch);
      && twice.reply == Done
      && twice.cell.rows == once.rows && twice.cell.sub == once.sub
      && twice.cell.job == once.job.(lease := Some(later + LEASE_SECONDS))
  {
    var once := RecordCases(c, judge, now, batch).cell;
    UpsertMerges(CasesOf(c), c.rows, batch);
    UpsertMerges(CasesOf(c), once.rows, batch);
    var w := Written(CasesOf(c), batch);
    assert (c.rows + w) + w == c.rows + w;
    HighestNonnegative(c.sub.currentTestcase, batch);
    HighestIsMax(c.sub.currentTestcase, batch);
    HighestIsMax(once.sub.currentTestcase, batch);
    hide Upsert, RowsPassed, HighestCase, Written;
  }

  lemma {:induction false} HighestInPackage(cases: seq<ManifestCase>, start: int, batch: seq<CaseIn>)
    requires cases != [] && start <= |cases| && forall x | x in batch :: InPackage(cases, x)
    ensures HighestCase(start, batch) <= |cases|
  {
    if batch == [] {
    } else {
      assert batch[|batch| - 1] in batch;
      assert forall x | x in batch[..|batch| - 1] :: x in batch;
      HighestInPackage(cases, start, batch[..|batch| - 1]);
    }
  }

  /**
   * For a package with cases, posting results in two batches is the same as posting them at once:
   * both are accepted or neither, and the resulting state is the same.
   */
  lemma RecordSplits(c: Cell, judge: nat, now: int, a: seq<CaseIn>, b: seq<CaseIn>)
    requires Coupled(c) && CasesOf(c) != []
    ensures var whole := RecordCases(c, judge, now, a + b);
      var first := RecordCases(c, judge, now, a);
      var second := RecordCases(first.cell, judge, now, b);
      && (whole.reply == Done <==> first.reply == Done && second.reply == Done)
      && (whole.reply == Done ==> whole.cell == second.cell)
  {
    var cases := CasesOf(c);
    assert forall x :: x in a + b <==> x in a || x in b;
    if RecordCases(c, judge, now, a).reply == Done {
      var first := RecordCases(c, judge, now, a).cell;
      UpsertSplits(cases, c.rows, a, b);
      HighestSplits(c.sub.currentTestcase, a, b);
      HighestInPackage(cases, c.sub.currentTestcase, a);
      assert first.sub.currentTestcase == HighestCase(c.sub.currentTestcase, a);
      hide Upsert, RowsPassed, HighestCase;
    }
  }

  /** One number outside the package rolls the whole batch back. */
  lemma OutOfRangeRollsBack(c: Cell, judge: nat, now: int, batch: seq<CaseIn>, x: CaseIn)
    requires x in batch && CasesOf(c) != [] && !(1 <= x.number <= |CasesOf(c)|)
    ensures RecordCases(c, judge, now, batch).cell == c
    ensures RecordCases(c, judge, now, batch).reply != Done
  {
    assert !InPackage(CasesOf(c), x);
  }
}
