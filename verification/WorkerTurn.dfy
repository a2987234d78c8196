/** One turn of the worker's loop on a claimed job: start, execute, report, and finish or fail. */
module WorkerTurn {
  import opened Options
  import opened Scoring
  import opened WorkerExecute
  import opened JudgeJob
  import opened JudgeLaws
  import opened JudgeJourney
  import opened JudgeStore

  /** When the worker's requests arrive. */
  datatype Times = Times(start: int, report: int, finish: int)

  /** The error executing a job can end with, as it is reported. */
  datatype Trouble = Trouble(compile: bool, message: string)

  function TroubleCode(t: Trouble): string { if t.compile then "CE" else "IE" }

  /** What the turn leaves of the job when every request is answered as `JudgeJob` says. */
  function Turn(c: Cell, judge: nat, at: Times, results: Option<seq<CaseResult>>, trouble: Trouble): Cell {
    var started := Start(c, judge, at.start);
    if started.reply != Done then started.cell
    else if results.None? then Fail(started.cell, judge, at.report, TroubleCode(trouble), trouble.message).cell
    else
      var posted := RecordCases(started.cell, judge, at.report, Posted(results.value));
      if posted.reply != Done then posted.cell else Finish(posted.cell, judge, at.finish, "").cell
  }

  /** The results of the executor, and none when a case could not be run. */
  function Executions(points: seq<real>, outcomes: seq<Outcome>, shortCircuit: bool): Option<seq<CaseResult>>
    requires |points| == |outcomes|
  {
    var n := Executed(outcomes, shortCircuit);
    if exists i | 0 <= i < n :: outcomes[i].Fault? then None else Some(Results(points, outcomes, n))
  }

  /** The loop body of `Run` after a claim: each failed call ends the turn. */
  method WorkJob(job: JobRecord, judge: nat, at: Times, points: seq<real>, outcomes: seq<Outcome>, shortCircuit: bool,
      trouble: Trouble)
    requires |points| == |outcomes|
    modifies job, job.submission
    ensures job.View() == Turn(old(job.View()), judge, at, Executions(points, outcomes, shortCircuit), trouble)
  {
    hide *;
    var reply := job.StartJob(judge, at.start);
    ghost var started := job.View();
    var results := Execute(points, outcomes, shortCircuit);
    TurnSteps(old(job.View()), judge, at, results, trouble);
    ExecutionsAre(points, outcomes, shortCircuit);
    if reply != Done {
      return;
    }
    if results.None? {
      var failed := job.FailJob(judge, at.report, TroubleCode(trouble), trouble.message);
      return;
    }
    reply := job.RecordBatch(judge, at.report, Posted(results.value));
    if reply != Done {
      return;
    }
    var finished := job.FinishJob(judge, at.finish, "");
  }

  lemma ExecutionsAre(points: seq<real>, outcomes: seq<Outcome>, shortCircuit: bool)
    requires |points| == |outcomes|
    ensures var n := Executed(outcomes, shortCircuit);
      Executions(points, outcomes, shortCircuit) ==
      if exists i | 0 <= i < n :: outcomes[i].Fault? then None else Some(Results(points, outcomes, n))
  {
  }

  lemma TurnSteps(c: Cell, judge: nat, at: Times, results: Option<seq<CaseResult>>, trouble: Trouble)
    ensures var started := Start(c, judge, at.start);
      && (started.reply != Done ==> Turn(c, judge, at, results, trouble) == started.cell)
      && (started.reply == Done && results.None? ==>
            Turn(c, judge, at, results, trouble) ==
            Fail(started.cell, judge, at.report, TroubleCode(trouble), trouble.message).cell)
      && (started.reply == Done && results.Some? ==>
            var posted := RecordCases(started.cell, judge, at.report, Posted(results.value));
            Turn(c, judge, at, results, trouble) ==
            if posted.reply != Done then posted.cell else Finish(posted.cell, judge, at.finish, "").cell)
  {
    hide Start, RecordCases, Finish, Fail, Posted, TroubleCode;
  }

  /** The requests come within a lease of each other. */
  predicate InTime(claimed: int, at: Times) {
    InLease((claimed, at.start, at.report, at.finish))
  }

  /**
   * A turn on a freshly claimed job, inside its leases, settles it: the score of the executor's results,
   * or, when a case could not be run, ERROR with CE for a compile error and IE for anything else, and
   * no points.
   */
  lemma TurnSettles(c: Cell, judge: nat, claimed: int, at: Times, points: seq<real>, outcomes: seq<Outcome>,
      shortCircuit: bool, trouble: Trouble)
    requires Coupled(c) && SetupOk(c.setup) && c.job.status == Waiting && !c.setup.run && InTime(claimed, at)
    requires |points| == |outcomes| == |CasesOf(c)|
    ensures var results := Executions(points, outcomes, shortCircuit);
      var after := Turn(Claim(c, judge, claimed), judge, at, results, trouble);
      && (results.Some? ==>
            var s := LoopSummary(c.setup.package.value.manifest, ReportsFor(results.value));
            after.job.status == Succeeded && after.sub.result == Some(s.result) && after.sub.points == s.points)
      && (results.None? ==>
            after.job.status == Failed && after.sub.status == Error && after.sub.points == 0.0 &&
            after.sub.result == Some(if trouble.compile then CE else IE))
  {
    var results := Executions(points, outcomes, shortCircuit);
    if results.Some? {
      assert Numbered(results.value) && |results.value| <= |CasesOf(c)|;
      hide *;
      ScoresSettle(c, judge, claimed, at, results.value, trouble);
    } else {
      TurnSteps(Claim(c, judge, claimed), judge, at, results, trouble);
      hide Turn, Coupled;
      FailSettles(c, judge, claimed, at, trouble);
    }
  }

  lemma ScoresSettle(c: Cell, judge: nat, claimed: int, at: Times, rs: seq<CaseResult>, trouble: Trouble)
    requires Coupled(c) && SetupOk(c.setup) && c.job.status == Waiting && !c.setup.run && InTime(claimed, at)
    requires Numbered(rs) && |rs| <= |CasesOf(c)|
    ensures c.setup.package.Some?
    ensures var after := Turn(Claim(c, judge, claimed), judge, at, Some(rs), trouble);
      var s := LoopSummary(c.setup.package.value.manifest, ReportsFor(rs));
      after.job.status == Succeeded && after.sub.result == Some(s.result) && after.sub.points == s.points
  {
    JourneyScores(c, judge, (claimed, at.start, at.report, at.finish), rs);
    hide Start, RecordCases, Finish, Claim, LoopSummary, ReportsFor, Coupled, Posted, Numbered;
  }

  lemma FailSettles(c: Cell, judge: nat, claimed: int, at: Times, trouble: Trouble)
    requires c.job.status == Waiting && InTime(claimed, at)
    ensures var started := Start(Claim(c, judge, claimed), judge, at.start);
      var failed := Fail(started.cell, judge, at.report, TroubleCode(trouble), trouble.message);
      && started.reply == Done && failed.reply == Done && failed.cell.job.status == Failed
      && failed.cell.sub.status == Error && failed.cell.sub.points == 0.0
      && failed.cell.sub.result == Some(if trouble.compile then CE else IE)
  {
  }
}
