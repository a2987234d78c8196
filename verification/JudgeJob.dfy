/** One judge job with its submission and case rows, and what each request does to them. */
module JudgeJob {
  import opened Options
  import opened Scoring
  import opened AscendingNumbers

  const LEASE_SECONDS := 60
  const DEFAULT_MAX_ATTEMPTS := 3

  datatype JobStatus = Waiting | Claimed | Running | Succeeded | Failed | Expired | Cancelled

  datatype Job = Job(
    status: JobStatus,
    claimedBy: Option<nat>,
    lease: Option<int>,
    attempts: nat,
    maxAttempts: nat,
    claimedAt: Option<int>,
    startedAt: Option<int>,
    finishedAt: Option<int>,
    lastError: string)

  datatype Submission = Submission(
    status: SubmissionStatus,
    result: Option<Verdict>,
    points: real,
    timeUsed: real,
    memoryUsed: int,
    caseTotal: int,
    casePassed: int,
    currentTestcase: int,
    subtaskScores: map<string, real>,
    errorMessage: string,
    judgedAt: Option<int>,
    judgedOn: Option<nat>)

  datatype Row = Row(status: Verdict, timeUsed: real, memoryUsed: int, points: real, totalPoints: real, group: string)

  datatype Package = Package(sha: string, manifest: Manifest)

  /** What is fixed for the life of a job. */
  datatype Setup = Setup(package: Option<Package>, run: bool, language: string, priority: int, createdAt: int)

  datatype Cell = Cell(setup: Setup, job: Job, sub: Submission, rows: map<nat, Row>)

  /** A request either goes through or is rolled back with the error it raised. */
  datatype Reply = Done | Denied | Conflict | Invalid | Missing

  datatype Answer = Answer(cell: Cell, reply: Reply)

  const FreshSubmission :=
    Submission(SubmissionStatus.Queued, None, 0.0, 0.0, 0, 0, 0, 0, map[], "", None, None)

  function FreshJob(maxAttempts: nat): Job {
    Job(Waiting, None, None, 0, maxAttempts, None, None, None, "")
  }

  /** `create_submission`: a submission and its job, in one transaction. */
  function Create(setup: Setup): Answer {
    var cell := Cell(setup, FreshJob(DEFAULT_MAX_ATTEMPTS), FreshSubmission, map[]);
    if setup.package.None? && !setup.run then Answer(cell, Invalid) else Answer(cell, Done)
  }

  function CasesOf(c: Cell): seq<ManifestCase> {
    if c.setup.package.Some? then c.setup.package.value.manifest.cases else []
  }

  predicate Active(job: Job) {
    job.status == Claimed || job.status == Running
  }

  // ----- the gateway

  predicate Stale(job: Job, now: int) {
    Active(job) && job.lease.Some? && job.lease.value < now
  }

  /** `expire_stale_jobs`, for one job: requeue, or fail at the attempt limit. */
  function Expire(c: Cell, now: int): Cell {
    if !Stale(c.job, now) then c
    else if c.job.attempts >= c.job.maxAttempts then
      c.(rows := map[],
         job := c.job.(status := Failed, finishedAt := Some(now), lease := None,
                       lastError := "Lease expired after maximum attempts."),
         sub := FreshSubmission.(status := Error, result := Some(IE), judgedAt := Some(now),
                                 errorMessage := "Judge lease expired after maximum attempts."))
    else
      c.(rows := map[],
         job := c.job.(status := Waiting, claimedBy := None, claimedAt := None, startedAt := None,
                       finishedAt := None, lease := None, lastError := "Lease expired; job requeued."),
         sub := FreshSubmission)
  }

  /** `claim_job`, once this job has been picked. */
  function Claim(c: Cell, judge: nat, now: int): Cell
    requires c.job.status == Waiting
  {
    c.(job := c.job.(status := Claimed, claimedBy := Some(judge), claimedAt := Some(now),
                     attempts := c.job.attempts + 1, lease := Some(now + LEASE_SECONDS)))
  }

  /** The bulk update of `heartbeat`, for one job. */
  function Heartbeat(c: Cell, judge: nat, now: int): Cell {
    if c.job.claimedBy == Some(judge) && Active(c.job)
    then c.(job := c.job.(lease := Some(now + LEASE_SECONDS)))
    else c
  }

  // ----- the worker callbacks

  /** `_assert_owned`: claimant first, then lease, then status. */
  function AssertOwned(job: Job, judge: nat, now: int): Reply {
    if job.claimedBy != Some(judge) then Denied
    else if job.lease.None? || job.lease.value <= now then Conflict
    else if !Active(job) then Conflict
    else Done
  }

  function Start(c: Cell, judge: nat, now: int): Answer {
    if c.job.status == Running then
      if c.job.claimedBy != Some(judge) then Answer(c, Denied)
      else Answer(c.(job := c.job.(lease := Some(now + LEASE_SECONDS))), Done)
    else
      var owned := AssertOwned(c.job, judge, now);
      if owned != Done then Answer(c, owned)
      else
        Answer(c.(job := c.job.(status := Running, startedAt := Some(now), lease := Some(now + LEASE_SECONDS)),
                  sub := c.sub.(status := Judging)),
          Done)
  }

  datatype CaseIn = CaseIn(number: int, code: string, timeUsed: real, memoryUsed: int, points: real, totalPoints: real)

  function GroupAt(cases: seq<ManifestCase>, number: int): string {
    if 1 <= number <= |cases| then cases[number - 1].group else "default"
  }

  function RowFor(cases: seq<ManifestCase>, x: CaseIn): Row {
    Row(ParseVerdict(x.code), x.timeUsed, x.memoryUsed, x.points, x.totalPoints, GroupAt(cases, x.number))
  }

  predicate InPackage(cases: seq<ManifestCase>, x: CaseIn) {
    cases == [] || 1 <= x.number <= |cases|
  }

  /** The rows after upserting a batch in order; non-positive numbers are skipped. */
  function Upsert(cases: seq<ManifestCase>, rows: map<nat, Row>, batch: seq<CaseIn>): map<nat, Row> {
    if batch == [] then rows
    else
      var x := batch[|batch| - 1];
      var before := Upsert(cases, rows, batch[..|batch| - 1]);
      if x.number <= 0 then before else before[x.number := RowFor(cases, x)]
  }

  function HighestCase(start: int, batch: seq<CaseIn>): int {
    if batch == [] then start
    else
      var x := batch[|batch| - 1];
      var before := HighestCase(start, batch[..|batch| - 1]);
      if x.number <= 0 then before else MaxInt(before, x.number)
  }

  function RowTotal(cases: seq<ManifestCase>, rows: map<nat, Row>): nat {
    if |cases| != 0 then |cases| else |rows|
  }

  function PassedNumbers(rows: map<nat, Row>, total: int): set<nat> {
    set n | n in rows && rows[n].status == AC && n <= total
  }

  function RowsPassed(rows: map<nat, Row>, total: int): nat {
    |PassedNumbers(rows, total)|
  }

  /** Job and submission once the rows and the highest case seen are known. */
  function Stored(c: Cell, now: int, rows: map<nat, Row>, highest: int): Cell {
    var total := RowTotal(CasesOf(c), rows);
    c.(rows := rows,
       job := c.job.(
         status := Running,
         startedAt := if c.job.status == Claimed && c.job.startedAt.None? then Some(now) else c.job.startedAt,
         lease := Some(now + LEASE_SECONDS)),
       sub := c.sub.(
         status := Judging,
         caseTotal := total,
         casePassed := RowsPassed(rows, total),
         currentTestcase := if highest < total then highest else total))
  }

  /** Job, submission and rows after an accepted batch. */
  function Recorded(c: Cell, now: int, batch: seq<CaseIn>): Cell {
    Stored(c, now, Upsert(CasesOf(c), c.rows, batch), HighestCase(c.sub.currentTestcase, batch))
  }

  function RecordCases(c: Cell, judge: nat, now: int, batch: seq<CaseIn>): Answer {
    var owned := AssertOwned(c.job, judge, now);
    if owned != Done then Answer(c, owned)
    else if exists x | x in batch :: !InPackage(CasesOf(c), x) then Answer(c, Invalid)
    else Answer(Recorded(c, now, batch), Done)
  }

  // ----- finishing

  function ReportOf(number: nat, row: Row): Report {
    Report(number, row.status, row.timeUsed, row.memoryUsed, row.points, row.totalPoints)
  }

  /** The rows as scoring sees them, ordered by case number. */
  function ReportsOf(rows: map<nat, Row>): (reports: seq<Report>)
    ensures |reports| == |rows|
    ensures forall i | 0 <= i < |reports| ::
      var n := Ascending(rows.Keys)[i]; n in rows && reports[i] == ReportOf(n, rows[n])
  {
    var ns := Ascending(rows.Keys);
    seq(|ns|, i requires 0 <= i < |ns| => ReportOf(ns[i], rows[ns[i]]))
  }

  /** The verdict of a custom run: that of its last row. */
  function RunVerdict(sub: Submission, rows: map<nat, Row>): Submission {
    var ns := Ascending(rows.Keys);
    if ns == [] then
      sub.(status := Error, result := Some(IE), points := 0.0, timeUsed := 0.0, memoryUsed := 0,
           caseTotal := 0, casePassed := 0, currentTestcase := 0, subtaskScores := map[])
    else
      var row := rows[ns[|ns| - 1]];
      sub.(status := Completed, result := Some(row.status), points := 0.0, timeUsed := row.timeUsed,
           memoryUsed := row.memoryUsed, caseTotal := 1, casePassed := if row.status == AC then 1 else 0,
           currentTestcase := 1, subtaskScores := map[])
  }

  function LastNumber(rows: map<nat, Row>): int {
    var ns := Ascending(rows.Keys);
    if ns == [] then 0 else ns[|ns| - 1]
  }

  /** The verdict of a scored submission: computed from the rows, never from the worker's totals. */
  function ScoredVerdict(sub: Submission, m: Manifest, rows: map<nat, Row>): Submission {
    var s := LoopSummary(m, ReportsOf(rows));
    sub.(status := s.status, result := Some(s.result), points := s.points, timeUsed := s.timeUsed,
         memoryUsed := s.memoryUsed, caseTotal := s.caseTotal, casePassed := s.casePassed,
         currentTestcase := LastNumber(rows), subtaskScores := s.subtaskScores)
  }

  function Graded(c: Cell): Submission
    requires c.setup.run || c.setup.package.Some?
  {
    if c.setup.run then RunVerdict(c.sub, c.rows)
    else ScoredVerdict(c.sub, c.setup.package.value.manifest, c.rows)
  }

  function Finished(c: Cell, judge: nat, now: int, message: string): Cell
    requires c.setup.run || c.setup.package.Some?
  {
    c.(sub := Graded(c).(judgedAt := Some(now), judgedOn := Some(judge), errorMessage := message),
       job := c.job.(status := Succeeded, finishedAt := Some(now), lease := None, lastError := ""))
  }

  function Finish(c: Cell, judge: nat, now: int, message: string): Answer {
    if c.job.status == Succeeded then Answer(c, if c.job.claimedBy != Some(judge) then Denied else Done)
    else
      var owned := AssertOwned(c.job, judge, now);
      if owned != Done then Answer(c, owned)
      else if !c.setup.run && c.setup.package.None? then Answer(c, Invalid)
      else Answer(Finished(c, judge, now, message), Done)
  }

  function Broken(c: Cell, judge: nat, now: int, code: string, message: string): Cell {
    c.(sub := FreshSubmission.(status := Error, result := Some(if code == "CE" then CE else IE),
                               errorMessage := message, judgedAt := Some(now), judgedOn := Some(judge)),
       job := c.job.(status := Failed, finishedAt := Some(now), lease := None, lastError := message))
  }

  function Fail(c: Cell, judge: nat, now: int, code: string, message: string): Answer {
    if c.job.status == Failed then Answer(c, if c.job.claimedBy != Some(judge) then Denied else Done)
    else
      var owned := AssertOwned(c.job, judge, now);
      if owned != Done then Answer(c, owned)
      else Answer(Broken(c, judge, now, code, message), Done)
  }

  /** `rejudge_submission`: back to the state of a new submission, attempts included. */
  function Rejudge(c: Cell): Answer {
    if c.setup.package.None? && !c.setup.run then Answer(c, Invalid)
    else Answer(Cell(c.setup, FreshJob(c.job.maxAttempts), FreshSubmission, map[]), Done)
  }

  /** `_verify_package`: a stated hash must be that of the job's package. */
  predicate FreshPackage(c: Cell, sha: string) {
    sha == "" || (c.setup.package.Some? && sha == c.setup.package.value.sha)
  }
}
