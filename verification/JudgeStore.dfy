/** The records the judge services update in place, proved against the requests of JudgeJob and JudgeRuns. */
module JudgeStore {
  import opened Options
  import opened Scoring
  import opened AscendingNumbers
  import opened JudgeJob
  import opened JudgeRuns

  /** The loop of `record_cases` on the transaction's own rows; leaving it early rolls everything back. */
  method UpsertBatch(cases: seq<ManifestCase>, stored: map<nat, Row>, current: int, batch: seq<CaseIn>)
    returns (upserted: Option<(map<nat, Row>, int)>)
    ensures upserted ==
      if forall x | x in batch :: InPackage(cases, x) then Some((Upsert(cases, stored, batch), HighestCase(current, batch)))
      else None
  {
    hide RowFor;
    var rows, highest := stored, current;
    for k := 0 to |batch|
      invariant forall i | 0 <= i < k :: InPackage(cases, batch[i])
      invariant rows == Upsert(cases, stored, batch[..k]) && highest == HighestCase(current, batch[..k])
    {
      var x := batch[k];
      assert batch[..k + 1][..k] == batch[..k];
      if cases != [] && !(1 <= x.number <= |cases|) {
        assert x in batch && !InPackage(cases, x);
        return None;
      }
      if x.number > 0 {
        rows := rows[x.number := RowFor(cases, x)];
        highest := MaxInt(highest, x.number);
      }
    }
    assert batch[..|batch|] == batch;
    upserted := Some((rows, highest));
  }

  class SubmissionRecord {
    var status: SubmissionStatus
    var result: Option<Verdict>
    var points: real
    var timeUsed: real
    var memoryUsed: int
    var caseTotal: int
    var casePassed: int
    var currentTestcase: int
    var subtaskScores: map<string, real>
    var errorMessage: string
    var judgedAt: Option<int>
    var judgedOn: Option<nat>
    var rows: map<nat, Row>

    ghost function View(): Submission
      reads this
    {
      Submission(status, result, points, timeUsed, memoryUsed, caseTotal, casePassed, currentTestcase,
                 subtaskScores, errorMessage, judgedAt, judgedOn)
    }

    constructor ()
      ensures View() == FreshSubmission && rows == map[]
    {
      status, result, points, timeUsed, memoryUsed := SubmissionStatus.Queued, None, 0.0, 0.0, 0;
      caseTotal, casePassed, currentTestcase, subtaskScores := 0, 0, 0, map[];
      errorMessage, judgedAt, judgedOn, rows := "", None, None, map[];
    }

    /** The columns every reset writes, in whatever state the submission is left. */
    method Reset(newStatus: SubmissionStatus, newResult: Option<Verdict>, message: string, at: Option<int>,
        on: Option<nat>)
      modifies this
      ensures rows == old(rows)
      ensures View() == FreshSubmission.(status := newStatus, result := newResult, errorMessage := message,
                                         judgedAt := at, judgedOn := on)
    {
      StoreVerdict(newStatus, newResult, 0.0, 0.0, 0);
      StoreCounts(0, 0, 0, map[]);
      errorMessage, judgedAt, judgedOn := message, at, on;
    }

    method StoreVerdict(newStatus: SubmissionStatus, newResult: Option<Verdict>, newPoints: real, time: real,
        memory: int)
      modifies `status, `result, `points, `timeUsed, `memoryUsed
      ensures View() == old(View()).(status := newStatus, result := newResult, points := newPoints,
                                     timeUsed := time, memoryUsed := memory)
    {
      status, result, points, timeUsed, memoryUsed := newStatus, newResult, newPoints, time, memory;
    }

    method StoreCounts(total: int, passed: int, current: int, subtasks: map<string, real>)
      modifies `caseTotal, `casePassed, `currentTestcase, `subtaskScores
      ensures View() == old(View()).(caseTotal := total, casePassed := passed, currentTestcase := current,
                                     subtaskScores := subtasks)
    {
      caseTotal, casePassed, currentTestcase, subtaskScores := total, passed, current, subtasks;
    }

    method Sign(judge: nat, now: int, message: string)
      modifies this
      ensures View() == old(View()).(judgedAt := Some(now), judgedOn := Some(judge), errorMessage := message)
      ensures rows == old(rows)
    {
      judgedAt, judgedOn, errorMessage := Some(now), Some(judge), message;
    }

    method StoreProgress(newRows: map<nat, Row>, total: int, highest: int)
      modifies this
      ensures rows == newRows
      ensures View() == old(View()).(status := Judging, caseTotal := total, casePassed := RowsPassed(newRows, total),
                                     currentTestcase := if highest < total then highest else total)
    {
      hide RowsPassed;
      rows, status, caseTotal, casePassed := newRows, Judging, total, RowsPassed(newRows, total);
      currentTestcase := if highest < total then highest else total;
    }
  }

  class JobRecord {
    const setup: Setup
    const submission: SubmissionRecord
    var status: JobStatus
    var claimedBy: Option<nat>
    var lease: Option<int>
    var attempts: nat
    var maxAttempts: nat
    var claimedAt: Option<int>
    var startedAt: Option<int>
    var finishedAt: Option<int>
    var lastError: string

    ghost function JobView(): Job
      reads this
    {
      Job(status, claimedBy, lease, attempts, maxAttempts, claimedAt, startedAt, finishedAt, lastError)
    }

    ghost function View(): Cell
      reads this, submission
    {
      Cell(setup, JobView(), submission.View(), submission.rows)
    }

    constructor (setup: Setup)
      ensures View() == Cell(setup, FreshJob(DEFAULT_MAX_ATTEMPTS), FreshSubmission, map[])
      ensures fresh(submission)
    {
      this.setup := setup;
      submission := new SubmissionRecord();
      status, claimedBy, lease, attempts, maxAttempts := Waiting, None, None, 0, DEFAULT_MAX_ATTEMPTS;
      claimedAt, startedAt, finishedAt, lastError := None, None, None, "";
    }

    /** The filter of the sweep: active, with a lease in the past. */
    predicate IsStale(now: int)
      reads this
      ensures IsStale(now) == Stale(JobView(), now)
    {
      (status == Claimed || status == Running) && lease.Some? && lease.value < now
    }

    /** One round of the loop in `expire_stale_jobs`. */
    method ExpireOne(now: int)
      requires Stale(JobView(), now)
      modifies this, submission
      ensures View() == Expire(old(View()), now)
    {
      submission.rows := map[];
      if attempts >= maxAttempts {
        GiveUp(now, "Lease expired after maximum attempts.");
        submission.Reset(Error, Some(IE), "Judge lease expired after maximum attempts.", Some(now), None);
      } else {
        Requeue("Lease expired; job requeued.");
        submission.Reset(SubmissionStatus.Queued, None, "", None, None);
      }
    }

    method GiveUp(now: int, message: string)
      modifies this
      ensures JobView() == old(JobView()).(status := Failed, finishedAt := Some(now), lease := None, lastError := message)
    {
      status, finishedAt, lease, lastError := Failed, Some(now), None, message;
    }

    method Requeue(message: string)
      modifies this
      ensures JobView() == old(JobView()).(status := Waiting, claimedBy := None, claimedAt := None, startedAt := None,
                                           finishedAt := None, lease := None, lastError := message)
    {
      status, claimedBy, claimedAt, startedAt, finishedAt := Waiting, None, None, None, None;
      lease, lastError := None, message;
    }

    method TakeJob(judge: nat, now: int)
      requires status == Waiting
      modifies this
      ensures View() == Claim(old(View()), judge, now)
    {
      status, claimedBy, claimedAt, attempts := Claimed, Some(judge), Some(now), attempts + 1;
      lease := Some(now + LEASE_SECONDS);
    }

    /** `_assert_owned`: the error raised, if any. */
    method CheckOwned(judge: nat, now: int) returns (reply: Reply)
      ensures reply == AssertOwned(JobView(), judge, now)
    {
      if claimedBy != Some(judge) {
        return Denied;
      }
      if lease.None? || lease.value <= now {
        return Conflict;
      }
      if status != Claimed && status != Running {
        return Conflict;
      }
      reply := Done;
    }

    method StartJob(judge: nat, now: int) returns (reply: Reply)
      modifies this, submission
      ensures Answer(View(), reply) == Start(old(View()), judge, now)
    {
      if status == Running {
        if claimedBy != Some(judge) {
          return Denied;
        }
        lease := Some(now + LEASE_SECONDS);
        return Done;
      }
      reply := CheckOwned(judge, now);
      if reply == Done {
        status, startedAt, lease := Running, Some(now), Some(now + LEASE_SECONDS);
        submission.status := Judging;
      }
    }

    method RecordBatch(judge: nat, now: int, batch: seq<CaseIn>) returns (reply: Reply)
      modifies this, submission
      ensures Answer(View(), reply) == RecordCases(old(View()), judge, now, batch)
    {
      hide Stored, Upsert, HighestCase;
      reply := CheckOwned(judge, now);
      if reply != Done {
        return;
      }
      var cases := if setup.package.Some? then setup.package.value.manifest.cases else [];
      var upserted := UpsertBatch(cases, submission.rows, submission.currentTestcase, batch);
      if upserted.None? {
        return Invalid;
      }
      StoreBatch(now, upserted.value.0, upserted.value.1);
    }

    method MarkRunning(now: int)
      modifies this
      ensures JobView() == old(JobView()).(
        status := Running, lease := Some(now + LEASE_SECONDS),
        startedAt := if old(status == Claimed && startedAt.None?) then Some(now) else old(startedAt))
    {
      if status == Claimed && startedAt.None? {
        startedAt := Some(now);
      }
      status, lease := Running, Some(now + LEASE_SECONDS);
    }

    /** The writes at the end of `record_cases`. */
    method StoreBatch(now: int, rows: map<nat, Row>, highest: int)
      modifies this, submission
      ensures View() == Stored(old(View()), now, rows, highest)
    {
      hide RowsPassed;
      MarkRunning(now);
      var cases := if setup.package.Some? then setup.package.value.manifest.cases else [];
      submission.StoreProgress(rows, if |cases| != 0 then |cases| else |rows|, highest);
    }

    /** The rows, ordered by case number, as scoring takes them. */
    method Reports() returns (reports: seq<Report>)
      ensures reports == ReportsOf(submission.rows)
    {
      var ns := Ascending(submission.rows.Keys);
      reports := [];
      for k := 0 to |ns|
        invariant |reports| == k
        invariant forall i | 0 <= i < k :: ns[i] in submission.rows && reports[i] == ReportOf(ns[i], submission.rows[ns[i]])
      {
        reports := reports + [ReportOf(ns[k], submission.rows[ns[k]])];
      }
    }

    method GradeRun()
      requires setup.run
      modifies submission
      ensures submission.View() == RunVerdict(old(submission.View()), old(submission.rows))
      ensures submission.rows == old(submission.rows)
    {
      var ns := Ascending(submission.rows.Keys);
      if ns == [] {
        submission.StoreVerdict(Error, Some(IE), 0.0, 0.0, 0);
        submission.StoreCounts(0, 0, 0, map[]);
      } else {
        var row := submission.rows[ns[|ns| - 1]];
        submission.StoreVerdict(Completed, Some(row.status), 0.0, row.timeUsed, row.memoryUsed);
        submission.StoreCounts(1, if row.status == AC then 1 else 0, 1, map[]);
      }
    }

    method GradeScored(m: Manifest)
      modifies submission
      ensures submission.View() == ScoredVerdict(old(submission.View()), m, old(submission.rows))
      ensures submission.rows == old(submission.rows)
    {
      hide LoopSummary, LastNumber;
      var reports := Reports();
      var s := Score(m, reports);
      submission.StoreVerdict(s.status, Some(s.result), s.points, s.timeUsed, s.memoryUsed);
      submission.StoreCounts(s.caseTotal, s.casePassed, LastNumber(submission.rows), s.subtaskScores);
    }

    /** The grading part of `finish`, for either mode. */
    method Grade()
      requires setup.run || setup.package.Some?
      modifies submission
      ensures submission.View() == Graded(old(View())) && submission.rows == old(submission.rows)
    {
      hide RunVerdict, ScoredVerdict;
      if setup.run {
        GradeRun();
      } else {
        GradeScored(setup.package.value.manifest);
      }
    }

    method FinishJob(judge: nat, now: int, message: string) returns (reply: Reply)
      modifies this, submission
      ensures Answer(View(), reply) == Finish(old(View()), judge, now, message)
    {
      hide Graded, Finished;
      if status == Succeeded {
        return if claimedBy != Some(judge) then Denied else Done;
      }
      reply := CheckOwned(judge, now);
      if reply != Done {
        return;
      }
      if !setup.run && setup.package.None? {
        return Invalid;
      }
      CloseJob(judge, now, message);
    }

    method CloseJob(judge: nat, now: int, message: string)
      requires setup.run || setup.package.Some?
      modifies this, submission
      ensures View() == Finished(old(View()), judge, now, message)
    {
      hide Graded;
      Grade();
      submission.Sign(judge, now, message);
      status, finishedAt, lease, lastError := Succeeded, Some(now), None, "";
    }

    method FailJob(judge: nat, now: int, code: string, message: string) returns (reply: Reply)
      modifies this, submission
      ensures Answer(View(), reply) == Fail(old(View()), judge, now, code, message)
    {
      if status == Failed {
        return if claimedBy != Some(judge) then Denied else Done;
      }
      reply := CheckOwned(judge, now);
      if reply == Done {
        var result := if code == "CE" then CE else IE;
        submission.Reset(Error, Some(result), message, Some(now), Some(judge));
        GiveUp(now, message);
      }
    }

    method RejudgeSubmission() returns (reply: Reply)
      modifies this, submission
      ensures Answer(View(), reply) == Rejudge(old(View()))
    {
      if setup.package.None? && !setup.run {
        return Invalid;
      }
      submission.Reset(SubmissionStatus.Queued, None, "", None, None);
      submission.rows := map[];
      Requeue("");
      attempts := 0;
      reply := Done;
    }
  }

  /** The best waiting job of a non-empty set exists. */
  lemma {:induction false} FirstOf(w: World, ids: set<nat>) returns (id: nat)
    requires ids != {} && forall i | i in ids :: i in w.jobs
    ensures id in ids && forall other | other in ids :: Before(w.jobs[id].setup, w.jobs[other].setup)
  {
    id :| id in ids;
    var rest := ids - {id};
    if rest == {} {
    } else {
      var best := FirstOf(w, rest);
      if !Before(w.jobs[id].setup, w.jobs[best].setup) {
        id := best;
      }
    }
    forall other | other in ids ensures Before(w.jobs[id].setup, w.jobs[other].setup) {
      assert other in rest || ids == {other} + rest;
    }
  }

  lemma SweepPointwise(w: World, locked: set<nat>, after: map<nat, Cell>)
    requires after.Keys == w.jobs.Keys
    requires forall id | id in after ::
      after[id] == if id !in locked && Stale(w.jobs[id].job, w.now) then Expire(w.jobs[id], w.now) else w.jobs[id]
    ensures World(w.now, after) == Step(w, Sweep(locked))
  {
  }

  lemma BeatPointwise(w: World, judge: nat, after: map<nat, Cell>)
    requires after.Keys == w.jobs.Keys && forall id | id in after :: after[id] == Heartbeat(w.jobs[id], judge, w.now)
    ensures World(w.now, after) == Step(w, Beat(judge))
  {
    hide Heartbeat;
  }

  lemma TakePointwise(w: World, judge: nat, languages: seq<string>, locked: set<nat>, id: nat, after: map<nat, Cell>)
    requires First(w, languages, locked, id) && w.jobs[id].job.status == Waiting && after.Keys == w.jobs.Keys
    requires forall k | k in after :: after[k] == if k == id then Claim(w.jobs[id], judge, w.now) else w.jobs[k]
    ensures World(w.now, after) == Step(w, Take(judge, languages, locked, id))
  {
    hide Claim, Before;
  }

  /** The jobs whose worker let its lease run out, locked ones aside. */
  ghost function LapsedIn(w: World, locked: set<nat>): set<nat> {
    set id | id in w.jobs && id !in locked && Stale(w.jobs[id].job, w.now)
  }

  class JobTable {
    var jobs: map<nat, JobRecord>

    ghost function Repr(): set<object>
      reads this
    {
      (set id | id in jobs :: jobs[id]) + (set id | id in jobs :: jobs[id].submission)
    }

    /** No two jobs share a record or a submission. */
    ghost predicate Valid()
      reads this
    {
      forall a, b | a in jobs && b in jobs && a != b :: jobs[a] != jobs[b] && jobs[a].submission != jobs[b].submission
    }

    ghost function View(now: int): World
      reads this, Repr()
    {
      World(now, map id | id in jobs :: jobs[id].View())
    }

    /** The loop over a given list of jobs. */
    method ExpireAll(now: int, ids: seq<nat>)
      requires Valid()
      requires forall i, j | 0 <= i < j < |ids| :: ids[i] < ids[j]
      requires forall i | 0 <= i < |ids| :: ids[i] in jobs && Stale(jobs[ids[i]].JobView(), now)
      modifies Repr()
      ensures Valid() && jobs == old(jobs)
      ensures forall id | id in jobs ::
        jobs[id].View() == if id in ids then Expire(old(jobs[id].View()), now) else old(jobs[id].View())
    {
      hide Expire, Stale;
      for k := 0 to |ids|
        invariant jobs == old(jobs)
        invariant forall id | id in jobs ::
          jobs[id].View() == if id in ids[..k] then Expire(old(jobs[id].View()), now) else old(jobs[id].View())
      {
        assert jobs[ids[k]].View() == old(jobs[ids[k]].View());
        ExpireIn(now, ids[k]);
        assert ids[..k + 1] == ids[..k] + [ids[k]];
      }
      assert ids[..|ids|] == ids;
    }

    method ExpireIn(now: int, id: nat)
      requires Valid() && id in jobs && Stale(jobs[id].JobView(), now)
      modifies jobs[id], jobs[id].submission
      ensures jobs == old(jobs)
      ensures forall k | k in jobs ::
        jobs[k].View() == if k == id then Expire(old(jobs[k].View()), now) else old(jobs[k].View())
    {
      hide Expire, Stale;
      jobs[id].ExpireOne(now);
    }

    /** The query of the sweep: the stale jobs no other transaction has locked. */
    method StaleJobs(now: int, locked: set<nat>) returns (stale: seq<nat>)
      ensures forall i, j | 0 <= i < j < |stale| :: stale[i] < stale[j]
      ensures forall id: nat :: id in stale <==> id in jobs && id !in locked && Stale(jobs[id].JobView(), now)
      ensures |stale| == |LapsedIn(View(now), locked)|
    {
      hide Stale;
      var chosen := set id | id in jobs && id !in locked && jobs[id].IsStale(now);
      stale := Ascending(chosen);
      forall id: nat ensures id in stale <==> id in chosen {
        if id in chosen {
          AscendingCovers(chosen, id);
        }
      }
      assert chosen == LapsedIn(View(now), locked);
    }

    /** `expire_stale_jobs`. */
    method ExpireStaleJobs(now: int, locked: set<nat>) returns (changed: nat)
      requires Valid()
      modifies Repr()
      ensures Valid() && jobs == old(jobs)
      ensures View(now) == Step(old(View(now)), Sweep(locked))
      ensures changed == |LapsedIn(old(View(now)), locked)|
    {
      hide Expire, Step, Stale, LapsedIn;
      ghost var before := View(now);
      var stale := StaleJobs(now, locked);
      assert forall id | id in jobs :: before.jobs[id].job == jobs[id].JobView();
      ExpireAll(now, stale);
      SweepPointwise(before, locked, View(now).jobs);
      changed := |stale|;
    }

    /** The query of `claim_job`: the first waiting job in a language of the worker. */
    method Pick(languages: seq<string>, locked: set<nat>, now: int) returns (picked: Option<nat>)
      ensures picked.None? ==> forall id | id in jobs :: !Eligible(View(now), languages, locked, id)
      ensures picked.Some? ==> First(View(now), languages, locked, picked.value)
    {
      var eligible := set id | id in jobs && id !in locked && jobs[id].status == Waiting && jobs[id].setup.language in languages;
      ghost var w := View(now);
      assert forall id :: id in eligible <==> Eligible(w, languages, locked, id);
      if eligible == {} {
        return None;
      }
      ghost var best := FirstOf(w, eligible);
      var id :| id in eligible && forall other | other in eligible :: Before(jobs[id].setup, jobs[other].setup);
      picked := Some(id);
    }

    lemma Waits(languages: seq<string>, locked: set<nat>, now: int, id: nat)
      requires First(View(now), languages, locked, id)
      ensures id in jobs && jobs[id].status == Waiting
    {
    }

    method TakeOne(judge: nat, now: int, id: nat)
      requires Valid() && id in jobs && jobs[id].status == Waiting
      modifies jobs[id]
      ensures jobs == old(jobs)
      ensures forall k | k in jobs ::
        jobs[k].View() == if k == id then Claim(old(jobs[k].View()), judge, now) else old(jobs[k].View())
    {
      jobs[id].TakeJob(judge, now);
    }

    /** The second transaction of `claim_job`. */
    method ClaimFirst(judge: nat, languages: seq<string>, locked: set<nat>, now: int) returns (picked: Option<nat>)
      requires Valid()
      modifies Repr()
      ensures Valid() && jobs == old(jobs)
      ensures picked.None? ==> View(now) == old(View(now))
      ensures picked.None? ==> forall id | id in jobs :: !Eligible(View(now), languages, locked, id)
      ensures picked.Some? ==> First(old(View(now)), languages, locked, picked.value)
      ensures picked.Some? ==> View(now) == Step(old(View(now)), Take(judge, languages, locked, picked.value))
    {
      hide Before, Step, Eligible, First;
      picked := Pick(languages, locked, now);
      if picked.Some? {
        TakePicked(judge, languages, locked, now, picked.value);
      }
    }

    method TakePicked(judge: nat, languages: seq<string>, locked: set<nat>, now: int, id: nat)
      requires Valid() && First(View(now), languages, locked, id)
      modifies Repr()
      ensures Valid() && jobs == old(jobs)
      ensures View(now) == Step(old(View(now)), Take(judge, languages, locked, id))
    {
      ghost var before := View(now);
      Waits(languages, locked, now, id);
      hide First, Claim, Step;
      TakeOne(judge, now, id);
      TakePointwise(before, judge, languages, locked, id, View(now).jobs);
    }

    /** `claim_job`: sweep, then claim, in two transactions. */
    method ClaimJob(judge: nat, languages: seq<string>, busy: set<nat>, locked: set<nat>, now: int, later: int)
      returns (picked: Option<nat>)
      requires Valid() && now <= later
      modifies Repr()
      ensures Valid() && jobs == old(jobs)
      ensures var swept := Step(Step(old(View(now)), Sweep(busy)), Tick(later));
        && (picked.None? ==> View(later) == swept && forall id | id in jobs :: !Eligible(swept, languages, locked, id))
        && (picked.Some? ==> First(swept, languages, locked, picked.value))
        && (picked.Some? ==> View(later) == Step(swept, Take(judge, languages, locked, picked.value)))
    {
      ghost var start := View(now);
      var changed := ExpireStaleJobs(now, busy);
      assert View(later) == Step(Step(start, Sweep(busy)), Tick(later));
      picked := ClaimFirst(judge, languages, locked, later);
    }

    /** The bulk update of `heartbeat`. */
    method ExtendLeases(judge: nat, now: int)
      requires Valid()
      modifies Repr()
      ensures Valid() && jobs == old(jobs)
      ensures View(now) == Step(old(View(now)), Beat(judge))
    {
      hide Step, Heartbeat;
      ghost var before := View(now);
      ExtendMatching(judge, now);
      BeatPointwise(before, judge, View(now).jobs);
    }

    method ExtendMatching(judge: nat, now: int)
      requires Valid()
      modifies Repr()
      ensures Valid() && jobs == old(jobs)
      ensures forall id | id in jobs :: jobs[id].View() == Heartbeat(old(jobs[id].View()), judge, now)
    {
      forall id | id in jobs && jobs[id].claimedBy == Some(judge) && (jobs[id].status == Claimed || jobs[id].status == Running) {
        jobs[id].lease := Some(now + LEASE_SECONDS);
      }
    }
  }
}
