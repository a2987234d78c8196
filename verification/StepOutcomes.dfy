/** What each step of the table leaves of every job, field by field. */
module StepOutcomes {
  import opened Options
  import opened Scoring
  import opened AscendingNumbers
  import opened JudgeJob
  import opened JudgeLaws
  import opened JudgeRuns

  predicate Busy(j: Job) { j.status in {Claimed, Running} }

  /** A worker holds the job and its lease is over. */
  predicate Lapsed(j: Job, now: int) {
    Busy(j) && j.lease.Some? && j.lease.value < now
  }

  /** The worker's lease has not ended. */
  predicate HeldBy(j: Job, judge: nat, now: int) {
    Busy(j) && j.claimedBy == Some(judge) && j.lease.Some? && now < j.lease.value
  }

  /** As if nothing had been judged. */
  predicate Blank(s: Submission) {
    && s.status == SubmissionStatus.Queued && s.result.None? && s.points == 0.0 && s.timeUsed == 0.0
    && s.memoryUsed == s.caseTotal == s.casePassed == s.currentTestcase == 0 && s.subtaskScores == map[]
    && s.errorMessage == "" && s.judgedAt.None? && s.judgedOn.None?
  }

  /** An error without any result of a case. */
  predicate Errored(s: Submission, v: Verdict, message: string, at: int, on: Option<nat>) {
    && s.status == Error && s.result == Some(v) && s.points == 0.0 && s.timeUsed == 0.0
    && s.memoryUsed == s.caseTotal == s.casePassed == s.currentTestcase == 0 && s.subtaskScores == map[]
    && s.errorMessage == message && s.judgedAt == Some(at) && s.judgedOn == on
  }

  /** Waiting for a worker, with nothing left of the last one. */
  predicate Open(j: Job) {
    && j.status == Waiting && j.claimedBy.None? && j.lease.None?
    && j.claimedAt.None? && j.startedAt.None? && j.finishedAt.None?
  }

  predicate Others(w: World, v: World, id: nat) {
    v.jobs.Keys == w.jobs.Keys && forall k | k in w.jobs && k != id :: v.jobs[k] == w.jobs[k]
  }

  lemma OthersStay(w: World, a: Action, id: nat)
    requires Enabled(w, a) && (a.Take? || a.Begin? || a.Post? || a.Close? || a.Abort? || a.Redo?) && a.id == id
    ensures Others(w, Step(w, a), id) && Step(w, a).now == w.now
  {
    hide Touch;
    forall k | k in w.jobs && k != id ensures Step(w, a).jobs[k] == w.jobs[k] {
      StepAt(w, a, k);
      Untouched(a, k, w.now, w.jobs[k]);
    }
  }

  lemma Untouched(a: Action, k: nat, now: int, c: Cell)
    requires (a.Take? || a.Begin? || a.Post? || a.Close? || a.Abort? || a.Redo?) && a.id != k
    ensures Touch(a, k, now, c) == c
  {
    hide Start, RecordCases, Finish, Fail, JudgeJob.Rejudge, Claim, FreshPackage;
  }

  // ----- the sweep

  lemma Swept(c: Cell, now: int)
    ensures !Lapsed(c.job, now) ==> Expire(c, now) == c
    ensures Lapsed(c.job, now) ==>
      var d := Expire(c, now);
      && d.setup == c.setup && d.rows == map[] && d.job.attempts == c.job.attempts && d.job.maxAttempts == c.job.maxAttempts
      && (c.job.attempts < c.job.maxAttempts ==> Open(d.job) && Blank(d.sub))
      && (c.job.attempts >= c.job.maxAttempts ==>
            && d.job.status == Failed && d.job.finishedAt == Some(now) && d.job.lease.None?
            && d.job.claimedBy == c.job.claimedBy
            && Errored(d.sub, IE, "Judge lease expired after maximum attempts.", now, None))
    ensures !Lapsed(Expire(c, now).job, now)
  {
  }

  /**
   * After a sweep no job that was not locked has a lapsed lease. A lapsed one waits again, as if never
   * judged, exactly when it has attempts left, and is failed otherwise; its rows are gone either way.
   * Every other job is as it was.
   */
  lemma SweepOutcome(w: World, locked: set<nat>)
    ensures var v := Step(w, Sweep(locked));
      && v.now == w.now && v.jobs.Keys == w.jobs.Keys
      && (forall id | id in v.jobs && id !in locked :: !Lapsed(v.jobs[id].job, v.now))
      && (forall id | id in w.jobs && (id in locked || !Lapsed(w.jobs[id].job, w.now)) :: v.jobs[id] == w.jobs[id])
      && (forall id | id in w.jobs && id !in locked && Lapsed(w.jobs[id].job, w.now) ::
            && v.jobs[id].setup == w.jobs[id].setup && v.jobs[id].rows == map[]
            && v.jobs[id].job.attempts == w.jobs[id].job.attempts
            && (v.jobs[id].job.status == Waiting <==> w.jobs[id].job.attempts < w.jobs[id].job.maxAttempts)
            && (v.jobs[id].job.status == Waiting ==> Open(v.jobs[id].job) && Blank(v.jobs[id].sub))
            && (v.jobs[id].job.status != Waiting ==>
                  && v.jobs[id].job.status == Failed && v.jobs[id].job.finishedAt == Some(w.now)
                  && v.jobs[id].job.lease.None?
                  && Errored(v.jobs[id].sub, IE, "Judge lease expired after maximum attempts.", w.now, None)))
  {
    var v := Step(w, Sweep(locked));
    hide Expire, Lapsed, Open, Blank, Errored;
    forall id | id in w.jobs ensures v.jobs[id] == if id in locked then w.jobs[id] else Expire(w.jobs[id], w.now) {
    }
    forall id | id in w.jobs
      ensures !Lapsed(w.jobs[id].job, w.now) ==> Expire(w.jobs[id], w.now) == w.jobs[id]
      ensures !Lapsed(Expire(w.jobs[id], w.now).job, w.now)
      ensures Lapsed(w.jobs[id].job, w.now) && id !in locked ==>
        && v.jobs[id].setup == w.jobs[id].setup && v.jobs[id].rows == map[]
        && v.jobs[id].job.attempts == w.jobs[id].job.attempts
        && (v.jobs[id].job.status == Waiting <==> w.jobs[id].job.attempts < w.jobs[id].job.maxAttempts)
        && (v.jobs[id].job.status == Waiting ==> Open(v.jobs[id].job) && Blank(v.jobs[id].sub))
        && (v.jobs[id].job.status != Waiting ==>
              && v.jobs[id].job.status == Failed && v.jobs[id].job.finishedAt == Some(w.now)
              && v.jobs[id].job.lease.None?
              && Errored(v.jobs[id].sub, IE, "Judge lease expired after maximum attempts.", w.now, None))
    {
      Swept(w.jobs[id], w.now);
      OpenWaits(Expire(w.jobs[id], w.now).job);
    }
  }

  lemma OpenWaits(j: Job)
    ensures Open(j) ==> j.status == Waiting
  {
  }

  // ----- claims

  /** Waiting, in one of the languages, and not in use by another transaction. */
  predicate Ready(w: World, languages: seq<string>, locked: set<nat>, id: nat) {
    id in w.jobs && id !in locked && w.jobs[id].job.status == Waiting && w.jobs[id].setup.language in languages
  }

  /**
   * A worker can take exactly a ready job such that no ready job has a higher priority, nor the same one and
   * an earlier time. It then holds the job for 60 seconds on one more attempt, and nothing else has changed.
   */
  lemma TakeOutcome(w: World, judge: nat, languages: seq<string>, locked: set<nat>, id: nat)
    ensures Enabled(w, Take(judge, languages, locked, id)) <==>
      && Ready(w, languages, locked, id)
      && forall k | Ready(w, languages, locked, k) ::
           && w.jobs[k].setup.priority <= w.jobs[id].setup.priority
           && (w.jobs[k].setup.priority == w.jobs[id].setup.priority ==>
                 w.jobs[id].setup.createdAt <= w.jobs[k].setup.createdAt)
    ensures Enabled(w, Take(judge, languages, locked, id)) ==>
      var v := Step(w, Take(judge, languages, locked, id));
      && Others(w, v, id) && id in w.jobs
      && v.jobs[id].setup == w.jobs[id].setup && v.jobs[id].sub == w.jobs[id].sub && v.jobs[id].rows == w.jobs[id].rows
      && HeldBy(v.jobs[id].job, judge, w.now) && v.jobs[id].job.status == Claimed
      && v.jobs[id].job.lease == Some(w.now + 60) && v.jobs[id].job.claimedAt == Some(w.now)
      && v.jobs[id].job.attempts == w.jobs[id].job.attempts + 1
  {
    FirstIsBest(w, languages, locked, id);
    if Enabled(w, Take(judge, languages, locked, id)) {
      OthersStay(w, Take(judge, languages, locked, id), id);
      TakeWaits(w, languages, locked, id);
      StepAt(w, Take(judge, languages, locked, id), id);
      hide First, Step, Others;
    }
  }

  lemma FirstIsBest(w: World, languages: seq<string>, locked: set<nat>, id: nat)
    ensures First(w, languages, locked, id) <==>
      && Ready(w, languages, locked, id)
      && forall k | Ready(w, languages, locked, k) ::
           && w.jobs[k].setup.priority <= w.jobs[id].setup.priority
           && (w.jobs[k].setup.priority == w.jobs[id].setup.priority ==>
                 w.jobs[id].setup.createdAt <= w.jobs[k].setup.createdAt)
  {
    if First(w, languages, locked, id) {
      forall k | Ready(w, languages, locked, k) ensures Eligible(w, languages, locked, k) {
      }
    } else if Ready(w, languages, locked, id) {
      assert Eligible(w, languages, locked, id);
      var k :| k in w.jobs && Eligible(w, languages, locked, k) && !Before(w.jobs[id].setup, w.jobs[k].setup);
      assert Ready(w, languages, locked, k);
    }
  }

  // ----- heartbeats

  /** A heartbeat gives every active job of its judge 60 more seconds and changes nothing else. */
  lemma BeatOutcome(w: World, judge: nat)
    ensures var v := Step(w, Beat(judge));
      && v.now == w.now && v.jobs.Keys == w.jobs.Keys
      && forall id | id in w.jobs ::
           if Busy(w.jobs[id].job) && w.jobs[id].job.claimedBy == Some(judge) then
             v.jobs[id] == w.jobs[id].(job := w.jobs[id].job.(lease := Some(w.now + 60)))
           else v.jobs[id] == w.jobs[id]
  {
  }

  // ----- the worker's requests

  /** `start`: a running job of the judge only gets its lease renewed, a claimed one inside its lease starts. */
  lemma BeginOutcome(w: World, judge: nat, id: nat)
    requires Good(w) && id in w.jobs
    ensures var c, d := w.jobs[id], Step(w, Begin(judge, id)).jobs[id];
      && Others(w, Step(w, Begin(judge, id)), id)
      && d.setup == c.setup && d.rows == c.rows
      && (c.job.status == Running && c.job.claimedBy == Some(judge) ==>
            d == c.(job := c.job.(lease := Some(w.now + 60))))
      && (c.job.status == Claimed && HeldBy(c.job, judge, w.now) ==>
            && d.job == c.job.(status := Running, startedAt := Some(w.now), lease := Some(w.now + 60))
            && d.sub == c.sub.(status := Judging))
      && (!(c.job.status == Running && c.job.claimedBy == Some(judge)) && !HeldBy(c.job, judge, w.now) ==> d == c)
  {
    OthersStay(w, Begin(judge, id), id);
    StepAt(w, Begin(judge, id), id);
    hide Step, Good, Others;
  }

  /** What a batch reports for a case: its last entry with that number. */
  predicate Says(batch: seq<CaseIn>, n: nat, x: CaseIn) {
    exists i | 0 <= i < |batch| :: batch[i] == x && x.number == n && forall k | i < k < |batch| :: batch[k].number != n
  }

  predicate Mentions(batch: seq<CaseIn>, n: nat) {
    exists x | x in batch :: x.number == n
  }

  /** The row of a reported case, in the group of the manifest. */
  predicate RowOf(cases: seq<ManifestCase>, row: Row, x: CaseIn) {
    && row.group == (if 1 <= x.number <= |cases| then cases[x.number - 1].group else "default")
    && row.status == ParseVerdict(x.code) && row.timeUsed == x.timeUsed && row.memoryUsed == x.memoryUsed
    && row.points == x.points && row.totalPoints == x.totalPoints
  }

  lemma {:induction false} UpsertSays(cases: seq<ManifestCase>, rows: map<nat, Row>, batch: seq<CaseIn>, n: nat)
    requires n >= 1
    ensures var after := Upsert(cases, rows, batch);
      && (n in after <==> n in rows || Mentions(batch, n))
      && (Mentions(batch, n) ==> exists x :: Says(batch, n, x) && RowOf(cases, after[n], x))
      && (!Mentions(batch, n) && n in rows ==> after[n] == rows[n])
  {
    if batch == [] {
    } else {
      hide RowOf;
      var front, last := batch[..|batch| - 1], batch[|batch| - 1];
      assert batch == front + [last];
      UpsertSays(cases, rows, front, n);
      hide ParseVerdict;
      if last.number == n {
        assert Says(batch, n, last) by {
          assert batch[|batch| - 1] == last;
        }
        RowForReports(cases, last);
      } else if Mentions(front, n) {
        var x :| Says(front, n, x) && RowOf(cases, Upsert(cases, rows, front)[n], x);
        SaysLater(front, last, n, x);
      }
    }
  }

  lemma RowForReports(cases: seq<ManifestCase>, x: CaseIn)
    ensures RowOf(cases, RowFor(cases, x), x)
  {
    hide ParseVerdict;
  }

  lemma SaysLater(front: seq<CaseIn>, last: CaseIn, n: nat, x: CaseIn)
    requires Says(front, n, x) && last.number != n
    ensures Says(front + [last], n, x)
  {
    var i :| 0 <= i < |front| && front[i] == x && x.number == n && forall k | i < k < |front| :: front[k].number != n;
    var all := front + [last];
    assert all[i] == x;
    forall k | i < k < |all| ensures all[k].number != n {
      assert k < |front| ==> all[k] == front[k];
    }
  }

  lemma {:induction false} HighestSays(start: int, batch: seq<CaseIn>)
    requires start >= 0
    ensures var h := HighestCase(start, batch);
      && h >= start && (forall x | x in batch :: x.number <= h)
      && (h == start || exists x | x in batch :: x.number == h)
  {
    if batch == [] {
    } else {
      var front, last := batch[..|batch| - 1], batch[|batch| - 1];
      assert batch == front + [last];
      HighestSays(start, front);
      assert last in batch;
      if HighestCase(start, front) != start {
        var x :| x in front && x.number == HighestCase(start, front);
        assert x in batch;
      }
    }
  }

  /** The package named with a request is that of the job, or none is named. */
  predicate NamesPackage(c: Cell, sha: string) {
    sha == "" || (c.setup.package.Some? && c.setup.package.value.sha == sha)
  }

  predicate InRange(c: Cell, batch: seq<CaseIn>) {
    CasesOf(c) != [] ==> forall x | x in batch :: 1 <= x.number <= |CasesOf(c)|
  }

  /** The numbers of accepted rows, up to a total. */
  function AcceptedRows(rows: map<nat, Row>, total: int): set<nat> {
    set n | n in rows && rows[n].status == AC && n <= total
  }

  predicate Progress(c: Cell, d: Cell, batch: seq<CaseIn>, now: int) {
    var total := if CasesOf(c) != [] then |CasesOf(c)| else |d.rows|;
    && d.setup == c.setup
    && d.job.status == Running && d.job.claimedBy == c.job.claimedBy && d.job.lease == Some(now + 60)
    && d.job.attempts == c.job.attempts
    && d.job.startedAt == (if c.job.status == Claimed && c.job.startedAt.None? then Some(now) else c.job.startedAt)
    && d.sub.status == Judging && d.sub.result == c.sub.result && d.sub.points == c.sub.points
    && d.sub.caseTotal == total && d.sub.casePassed == |AcceptedRows(d.rows, total)|
    && d.sub.currentTestcase <= total
    && (d.sub.currentTestcase < total ==>
          && (forall x | x in batch :: x.number <= d.sub.currentTestcase)
          && c.sub.currentTestcase <= d.sub.currentTestcase
          && (d.sub.currentTestcase == c.sub.currentTestcase || exists x | x in batch :: x.number == d.sub.currentTestcase))
    && (d.sub.currentTestcase == total ==>
          total <= c.sub.currentTestcase || total == 0 || exists x | x in batch :: x.number >= total)
  }

  ghost predicate Upserted(c: Cell, d: Cell, batch: seq<CaseIn>) {
    && 0 !in d.rows
    && forall n: nat | n >= 1 ::
         && (n in d.rows <==> n in c.rows || Mentions(batch, n))
         && (Mentions(batch, n) ==> exists x :: Says(batch, n, x) && RowOf(CasesOf(c), d.rows[n], x))
         && (!Mentions(batch, n) && n in c.rows ==> d.rows[n] == c.rows[n])
  }

  lemma RecordedRows(c: Cell, now: int, batch: seq<CaseIn>)
    requires Coupled(c)
    ensures Upserted(c, Recorded(c, now, batch), batch)
  {
    var rows := Upsert(CasesOf(c), c.rows, batch);
    assert RowsOk(c);
    hide Upsert, RowsPassed, HighestCase, Coupled, Mentions, Says, RowOf;
    if 0 in rows {
      UpsertKeys(CasesOf(c), c.rows, batch, 0);
    }
    forall n: nat | n >= 1
      ensures n in rows <==> n in c.rows || Mentions(batch, n)
      ensures Mentions(batch, n) ==> exists x :: Says(batch, n, x) && RowOf(CasesOf(c), rows[n], x)
      ensures !Mentions(batch, n) && n in c.rows ==> rows[n] == c.rows[n]
    {
      UpsertSays(CasesOf(c), c.rows, batch, n);
    }
  }

  lemma RecordedProgress(c: Cell, now: int, batch: seq<CaseIn>)
    requires Coupled(c)
    ensures Progress(c, Recorded(c, now, batch), batch, now)
  {
    assert CountersOk(c);
    HighestSays(c.sub.currentTestcase, batch);
    hide Upsert, HighestCase, Coupled;
  }

  /**
   * `record_cases` is accepted exactly from the claimant inside its lease, on the right package, with all
   * numbers in range. Then the last entry of the batch for a case is its row, other rows stay, and the
   * counters are those of the rows. Otherwise nothing changes.
   */
  lemma PostOutcome(w: World, judge: nat, id: nat, sha: string, batch: seq<CaseIn>)
    requires Good(w) && id in w.jobs
    ensures var c, d := w.jobs[id], Step(w, Post(judge, id, sha, batch)).jobs[id];
      && Others(w, Step(w, Post(judge, id, sha, batch)), id)
      && if NamesPackage(c, sha) && HeldBy(c.job, judge, w.now) && InRange(c, batch)
         then Upserted(c, d, batch) && Progress(c, d, batch, w.now)
         else d == c
  {
    var a := Post(judge, id, sha, batch);
    GoodAt(w, id);
    hide *;
    OthersStay(w, a, id);
    StepAt(w, a, id);
    RecordedRows(w.jobs[id], w.now, batch);
    RecordedProgress(w.jobs[id], w.now, batch);
    PostTouches(w.jobs[id], judge, id, sha, batch, w.now);
  }

  lemma GoodAt(w: World, id: nat)
    requires Good(w) && id in w.jobs
    ensures Coupled(w.jobs[id]) && SetupOk(w.jobs[id].setup)
    ensures w.jobs[id].setup.run || w.jobs[id].setup.package.Some?
  {
    hide Coupled;
  }

  lemma PostTouches(c: Cell, judge: nat, id: nat, sha: string, batch: seq<CaseIn>, now: int)
    ensures Touch(Post(judge, id, sha, batch), id, now, c) ==
      if NamesPackage(c, sha) && HeldBy(c.job, judge, now) && InRange(c, batch) then Recorded(c, now, batch) else c
  {
    hide Recorded;
  }

  // ----- finishing

  /** Closed by the judge at some time. */
  predicate ClosedBy(c: Cell, d: Cell, judge: nat, now: int, message: string) {
    && d.setup == c.setup && d.rows == c.rows
    && d.job == c.job.(status := Succeeded, finishedAt := Some(now), lease := None, lastError := "")
    && d.sub.judgedAt == Some(now) && d.sub.judgedOn == Some(judge) && d.sub.errorMessage == message
  }

  /** A custom run has the status of its highest-numbered row, and IE without any. */
  ghost predicate RunGraded(s: Submission, rows: map<nat, Row>) {
    && s.points == 0.0 && s.subtaskScores == map[]
    && (rows == map[] ==>
          && s.status == Error && s.result == Some(IE) && s.timeUsed == 0.0 && s.memoryUsed == 0
          && s.caseTotal == s.casePassed == s.currentTestcase == 0)
    && (rows != map[] ==> exists n ::
          && Highest(rows, n) && s.status == Completed && s.result == Some(rows[n].status)
          && s.timeUsed == rows[n].timeUsed && s.memoryUsed == rows[n].memoryUsed
          && s.caseTotal == s.currentTestcase == 1 && s.casePassed == if rows[n].status == AC then 1 else 0)
  }

  predicate Highest(rows: map<nat, Row>, n: nat) {
    n in rows && forall k | k in rows :: k <= n
  }

  /** A scored submission has the summary of its rows in every field. */
  predicate ScoreGraded(s: Submission, m: Manifest, rows: map<nat, Row>) {
    var r := LoopSummary(m, ReportsOf(rows));
    && s.status == r.status && s.result == Some(r.result) && s.points == r.points && s.timeUsed == r.timeUsed
    && s.memoryUsed == r.memoryUsed && s.caseTotal == r.caseTotal && s.casePassed == r.casePassed
    && s.subtaskScores == r.subtaskScores
    && (rows == map[] ==> s.currentTestcase == 0)
    && (rows != map[] ==> s.currentTestcase >= 0 && Highest(rows, s.currentTestcase))
  }

  lemma HighestIsLast(rows: map<nat, Row>)
    requires rows != map[]
    ensures var ns := Ascending(rows.Keys); ns != [] && Highest(rows, ns[|ns| - 1])
  {
    var ns := Ascending(rows.Keys);
    var some :| some in rows;
    AscendingCovers(rows.Keys, some);
    forall k | k in rows ensures k <= ns[|ns| - 1] {
      AscendingCovers(rows.Keys, k);
      var i :| 0 <= i < |ns| && ns[i] == k;
    }
  }

  lemma NoneAscending(rows: map<nat, Row>)
    requires rows == map[]
    ensures Ascending(rows.Keys) == []
  {
    assert rows.Keys == {};
  }

  lemma RunVerdictIs(sub: Submission, rows: map<nat, Row>)
    ensures RunGraded(RunVerdict(sub, rows), rows)
  {
    if rows == map[] {
      NoneAscending(rows);
    } else {
      HighestIsLast(rows);
      hide Ascending, Highest;
    }
  }

  lemma ScoredVerdictIs(sub: Submission, m: Manifest, rows: map<nat, Row>)
    ensures ScoreGraded(ScoredVerdict(sub, m, rows), m, rows)
  {
    hide LoopSummary, ReportsOf;
    if rows == map[] {
      NoneAscending(rows);
    } else {
      HighestIsLast(rows);
      hide Ascending, Highest;
    }
  }

  lemma FinishedIs(c: Cell, judge: nat, now: int, message: string)
    requires c.setup.run || c.setup.package.Some?
    ensures var d := Finished(c, judge, now, message);
      && ClosedBy(c, d, judge, now, message)
      && (if c.setup.run then RunGraded(d.sub, c.rows) else ScoreGraded(d.sub, c.setup.package.value.manifest, c.rows))
  {
    hide RunVerdict, ScoredVerdict, LoopSummary, ReportsOf, Highest;
    if c.setup.run {
      RunVerdictIs(c.sub, c.rows);
    } else {
      ScoredVerdictIs(c.sub, c.setup.package.value.manifest, c.rows);
    }
  }

  /**
   * `finish` is accepted exactly from the claimant inside its lease on the right package. Then the job has
   * succeeded and the submission is graded from the rows; otherwise nothing changes.
   */
  lemma CloseOutcome(w: World, judge: nat, id: nat, sha: string, message: string)
    requires Good(w) && id in w.jobs
    ensures var c, d := w.jobs[id], Step(w, Close(judge, id, sha, message)).jobs[id];
      && Others(w, Step(w, Close(judge, id, sha, message)), id)
      && if NamesPackage(c, sha) && HeldBy(c.job, judge, w.now)
         then ClosedBy(c, d, judge, w.now, message) && (c.setup.run || c.setup.package.Some?) &&
              (if c.setup.run then RunGraded(d.sub, c.rows) else ScoreGraded(d.sub, c.setup.package.value.manifest, c.rows))
         else d == c
  {
    var a := Close(judge, id, sha, message);
    GoodAt(w, id);
    hide *;
    OthersStay(w, a, id);
    StepAt(w, a, id);
    FinishedIs(w.jobs[id], judge, w.now, message);
    CloseTouches(w.jobs[id], judge, id, sha, message, w.now);
  }

  lemma CloseTouches(c: Cell, judge: nat, id: nat, sha: string, message: string, now: int)
    requires c.setup.run || c.setup.package.Some?
    ensures Touch(Close(judge, id, sha, message), id, now, c) ==
      if NamesPackage(c, sha) && HeldBy(c.job, judge, now) then Finished(c, judge, now, message) else c
  {
    hide Finished;
  }

  /** `fail` in the same way, leaving CE for a compile error and IE for anything else. */
  lemma AbortOutcome(w: World, judge: nat, id: nat, sha: string, code: string, message: string)
    requires Good(w) && id in w.jobs
    ensures var c, d := w.jobs[id], Step(w, Abort(judge, id, sha, code, message)).jobs[id];
      && Others(w, Step(w, Abort(judge, id, sha, code, message)), id)
      && if NamesPackage(c, sha) && HeldBy(c.job, judge, w.now)
         then d.setup == c.setup && d.rows == c.rows &&
              d.job == c.job.(status := Failed, finishedAt := Some(w.now), lease := None, lastError := message) &&
              Errored(d.sub, if code == "CE" then CE else IE, message, w.now, Some(judge))
         else d == c
  {
    var a := Abort(judge, id, sha, code, message);
    GoodAt(w, id);
    assert Enabled(w, a);
    hide *;
    OthersStay(w, a, id);
    StepAt(w, a, id);
    AbortTouches(w.jobs[id], judge, id, sha, code, message, w.now);
  }

  lemma AbortTouches(c: Cell, judge: nat, id: nat, sha: string, code: string, message: string, now: int)
    ensures var d := Touch(Abort(judge, id, sha, code, message), id, now, c);
      if NamesPackage(c, sha) && HeldBy(c.job, judge, now)
      then d.setup == c.setup && d.rows == c.rows &&
           d.job == c.job.(status := Failed, finishedAt := Some(now), lease := None, lastError := message) &&
           Errored(d.sub, if code == "CE" then CE else IE, message, now, Some(judge))
      else d == c
  {
  }

  // ----- creation and rejudging

  /** A new job, or one that is rejudged, waits with no attempt used and nothing judged. */
  predicate New(c: Cell) {
    Open(c.job) && c.job.attempts == 0 && c.job.lastError == "" && Blank(c.sub) && c.rows == map[]
  }

  lemma RedoOutcome(w: World, id: nat)
    requires id in w.jobs
    ensures var c, d := w.jobs[id], Step(w, Redo(id)).jobs[id];
      && Others(w, Step(w, Redo(id)), id)
      && if c.setup.package.Some? || c.setup.run
         then New(d) && d.setup == c.setup && d.job.maxAttempts == c.job.maxAttempts
         else d == c
  {
    OthersStay(w, Redo(id), id);
    StepAt(w, Redo(id), id);
    hide Step, Others;
  }

  lemma SubmitOutcome(w: World, id: nat, setup: Setup)
    requires Enabled(w, Submit(id, setup))
    ensures var v := Step(w, Submit(id, setup));
      && v.now == w.now && (forall k | k in w.jobs :: k in v.jobs && v.jobs[k] == w.jobs[k])
      && if setup.package.Some? || setup.run
         then v.jobs.Keys == w.jobs.Keys + {id} && New(v.jobs[id]) && v.jobs[id].setup == setup &&
              v.jobs[id].job.maxAttempts == 3
         else v.jobs == w.jobs
  {
  }
}
