/** A worker's claim, start, report and finish inside a run of the whole table, whatever else happens in between. */
module JudgedRuns {
  import opened Options
  import opened Sums
  import opened Scoring
  import opened ScoringLaws
  import opened PackageImport
  import opened FullMarks
  import opened ArchivePoints
  import opened WorkerExecute
  import opened JudgeJob
  import opened JudgeLaws
  import opened JudgeRuns
  import opened JudgeJourney

  // ----- other actions leave an owned job alone

  /** The job is there, and while it is active its lease has not ended, now and after every step. */
  predicate Alive(w: World, actions: seq<Action>, id: nat)
    requires Possible(w, actions)
    decreases |actions|
  {
    && id in w.jobs && Live(w.jobs[id].job, w.now)
    && (actions == [] || Alive(Step(w, actions[0]), actions[1..], id))
  }

  predicate Live(job: Job, now: int) {
    Active(job) ==> job.lease.Some? && now < job.lease.value
  }

  /** No rejudge of the job, and no request about it by this judge; heartbeats and claims of other jobs may be there. */
  predicate Aside(actions: seq<Action>, judge: nat, id: nat) {
    forall a | a in actions :: a != Redo(id) && !Callback(a, judge, id)
  }

  predicate SameButLease(c: Cell, d: Cell) {
    d == c.(job := c.job.(lease := d.job.lease))
  }

  lemma AsideTouch(a: Action, id: nat, now: int, c: Cell, judge: nat)
    requires Active(c.job) && c.job.claimedBy == Some(judge) && c.job.lease.Some? && now < c.job.lease.value
    requires a != Redo(id) && !Callback(a, judge, id) && !(a.Take? && a.id == id)
    ensures SameButLease(c, Touch(a, id, now, c))
  {
    hide Upsert, RowsPassed, HighestCase, RowTotal, Graded;
  }

  lemma AsideStep(w: World, a: Action, judge: nat, id: nat)
    requires Good(w) && Enabled(w, a) && id in w.jobs
    requires Active(w.jobs[id].job) && w.jobs[id].job.claimedBy == Some(judge)
    requires w.jobs[id].job.lease.Some? && w.now < w.jobs[id].job.lease.value
    requires a != Redo(id) && !Callback(a, judge, id)
    ensures id in Step(w, a).jobs && SameButLease(w.jobs[id], Step(w, a).jobs[id])
  {
    StepAt(w, a, id);
    if a.Take? {
      TakeWaits(w, a.languages, a.locked, a.id);
    }
    hide Step, Touch, Good, First, SameButLease, Callback;
    AsideTouch(a, id, w.now, w.jobs[id], judge);
  }

  /** While a claimed job's lease lasts, everything the others do leaves it as it is, up to the lease. */
  lemma {:induction false} AsideRun(w: World, actions: seq<Action>, judge: nat, id: nat)
    requires Good(w) && Possible(w, actions) && id in w.jobs && Aside(actions, judge, id) && Alive(w, actions, id)
    requires Active(w.jobs[id].job) && w.jobs[id].job.claimedBy == Some(judge)
    ensures Good(Run(w, actions)) && id in Run(w, actions).jobs
    ensures SameButLease(w.jobs[id], Run(w, actions).jobs[id])
    ensures Live(Run(w, actions).jobs[id].job, Run(w, actions).now)
    decreases |actions|
  {
    if actions == [] {
    } else {
      var a, rest := actions[0], actions[1..];
      assert a in actions && forall b | b in rest :: b in actions;
      hide Step, Good, Touch, Enabled, Callback;
      GoodStep(w, a);
      AsideStep(w, a, judge, id);
      AsideRun(Step(w, a), rest, judge, id);
    }
  }

  // ----- cutting a run

  lemma {:induction false} RunConcat(w: World, a: seq<Action>, b: seq<Action>, id: nat)
    requires Possible(w, a + b)
    ensures Possible(w, a) && Possible(Run(w, a), b) && Run(w, a + b) == Run(Run(w, a), b)
    ensures Alive(w, a + b, id) ==> Alive(w, a, id) && Alive(Run(w, a), b, id)
    decreases |a|
  {
    hide Step, Enabled, Live;
    if a == [] {
      assert a + b == b;
      if Alive(w, a + b, id) {
        assert Alive(w, a, id);
      }
    } else {
      assert (a + b)[0] == a[0] && (a + b)[1..] == a[1..] + b;
      RunConcat(Step(w, a[0]), a[1..], b, id);
    }
  }

  /** The job is held by the judge, active, inside its lease. */
  predicate Holds(w: World, judge: nat, id: nat) {
    && id in w.jobs && Active(w.jobs[id].job) && w.jobs[id].job.claimedBy == Some(judge)
    && w.jobs[id].job.lease.Some? && w.now < w.jobs[id].job.lease.value
  }

  /** The next request of the worker meets the job as the last one left it, up to the lease. */
  lemma NextRequest(w: World, aside: seq<Action>, a: Action, rest: seq<Action>, judge: nat, id: nat)
    requires Good(w) && Holds(w, judge, id) && Aside(aside, judge, id)
    requires Possible(w, aside + ([a] + rest)) && Alive(w, aside + ([a] + rest), id)
    ensures Possible(w, aside) && Possible(Run(w, aside), [a] + rest)
    ensures var v := Run(w, aside);
      && Good(v) && Holds(v, judge, id) && SameButLease(w.jobs[id], v.jobs[id]) && Enabled(v, a)
      && Possible(Step(v, a), rest) && Alive(Step(v, a), rest, id) && Good(Step(v, a))
      && Run(w, aside + ([a] + rest)) == Run(Step(v, a), rest)
      && Step(v, a).jobs[id] == Touch(a, id, v.now, v.jobs[id])
  {
    RunConcat(w, aside, [a] + rest, id);
    AsideRun(w, aside, judge, id);
    var v := Run(w, aside);
    assert ([a] + rest)[1..] == rest;
    assert Possible(v, [a] + rest) && Alive(v, [a] + rest, id);
    GoodStep(v, a);
    StepAt(v, a, id);
    hide Good, Step, Touch, Enabled;
  }

  // ----- what each request of the worker does to its job

  lemma Started(c: Cell, judge: nat, now: int)
    requires c.job.status == Claimed && c.job.claimedBy == Some(judge) && c.job.lease.Some? && now < c.job.lease.value
    ensures var d := Start(c, judge, now).cell;
      && d.setup == c.setup && d.rows == c.rows && d.job.status == Running && d.job.claimedBy == Some(judge)
      && d.job.lease == Some(now + LEASE_SECONDS)
  {
  }

  lemma Reported(c: Cell, judge: nat, now: int, rs: seq<CaseResult>)
    requires c.job.status == Running && c.job.claimedBy == Some(judge) && c.job.lease.Some? && now < c.job.lease.value
    requires Numbered(rs) && |rs| <= |CasesOf(c)|
    ensures var d := RecordCases(c, judge, now, Posted(rs)).cell;
      && d.setup == c.setup && d.rows == Upsert(CasesOf(c), c.rows, Posted(rs)) && d.job.status == Running
      && d.job.claimedBy == Some(judge) && d.job.lease == Some(now + LEASE_SECONDS)
  {
    var batch := Posted(rs);
    forall x | x in batch ensures InPackage(CasesOf(c), x) {
      var i :| 0 <= i < |batch| && batch[i] == x;
    }
    hide Upsert, RowsPassed, HighestCase, Posted, Numbered;
  }

  /** The stored verdict is the score of these results. */
  predicate Scored(c: Cell, rs: seq<CaseResult>)
    requires c.setup.package.Some?
  {
    var s := LoopSummary(c.setup.package.value.manifest, ReportsFor(rs));
    && c.job.status == Succeeded && c.sub.result == Some(s.result) && c.sub.status == s.status
    && c.sub.points == s.points && c.sub.subtaskScores == s.subtaskScores
    && c.sub.casePassed == s.casePassed && c.sub.caseTotal == s.caseTotal
    && c.sub.timeUsed == s.timeUsed && c.sub.memoryUsed == s.memoryUsed
  }

  lemma Closed(c: Cell, judge: nat, now: int, message: string, rs: seq<CaseResult>)
    requires c.job.status == Running && c.job.claimedBy == Some(judge) && c.job.lease.Some? && now < c.job.lease.value
    requires !c.setup.run && c.setup.package.Some? && Numbered(rs) && c.rows == Upsert(CasesOf(c), map[], Posted(rs))
    ensures Finish(c, judge, now, message).cell.setup == c.setup && Scored(Finish(c, judge, now, message).cell, rs)
  {
    RowsAreReports(CasesOf(c), rs);
    hide Upsert, Posted, Numbered, LoopSummary, LastNumber, ReportsOf, ReportsFor;
  }

  // ----- the whole turn

  /** What the worker sends: the package hash is that of the job it was given. */
  datatype Turn = Turn(judge: nat, id: nat, sha: string, results: seq<CaseResult>, message: string)

  /** Start, report and finish, with other actions before each of them and after the last. */
  function Requests(t: Turn, a1: seq<Action>, a2: seq<Action>, a3: seq<Action>, a4: seq<Action>): seq<Action> {
    a1 + ([Begin(t.judge, t.id)] + FromReport(t, a2, a3, a4))
  }

  function FromReport(t: Turn, a2: seq<Action>, a3: seq<Action>, a4: seq<Action>): seq<Action> {
    a2 + ([Post(t.judge, t.id, t.sha, Posted(t.results))] + FromFinish(t, a3, a4))
  }

  function FromFinish(t: Turn, a3: seq<Action>, a4: seq<Action>): seq<Action> {
    a3 + ([Close(t.judge, t.id, t.sha, t.message)] + a4)
  }

  predicate ScorableBy(c: Cell, t: Turn) {
    && !c.setup.run && c.setup.package.Some? && FreshPackage(c, t.sha)
    && Numbered(t.results) && |t.results| <= |CasesOf(c)|
  }

  lemma LeaseOnly(c: Cell, d: Cell, t: Turn)
    requires SameButLease(c, d)
    ensures d.setup == c.setup && d.rows == c.rows && d.job.status == c.job.status && CasesOf(d) == CasesOf(c)
    ensures ScorableBy(d, t) <==> ScorableBy(c, t)
  {
  }

  /** The request reaches the job it names. */
  lemma Touched(t: Turn, now: int, c: Cell)
    ensures Touch(Begin(t.judge, t.id), t.id, now, c) == Start(c, t.judge, now).cell
    ensures FreshPackage(c, t.sha) ==>
      Touch(Post(t.judge, t.id, t.sha, Posted(t.results)), t.id, now, c) ==
      RecordCases(c, t.judge, now, Posted(t.results)).cell
    ensures FreshPackage(c, t.sha) ==>
      Touch(Close(t.judge, t.id, t.sha, t.message), t.id, now, c) == Finish(c, t.judge, now, t.message).cell
  {
    hide Start, RecordCases, Finish, Posted, FreshPackage;
  }

  lemma Unchanged(v: World, a: Action)
    requires Enabled(v, a) && (a.Begin? || a.Post? || a.Close?)
    ensures Step(v, a).now == v.now
  {
    hide Touch;
  }

  lemma Held(w: World, t: Turn)
    requires Holds(w, t.judge, t.id)
    ensures t.id in w.jobs && w.jobs[t.id].job.claimedBy == Some(t.judge) && w.jobs[t.id].job.lease.Some?
    ensures w.now < w.jobs[t.id].job.lease.value
  {
  }

  lemma Holding(w: World, judge: nat, id: nat)
    requires id in w.jobs && w.jobs[id].job.status in {Claimed, Running} && w.jobs[id].job.claimedBy == Some(judge)
    requires w.jobs[id].job.lease.Some? && w.now < w.jobs[id].job.lease.value
    ensures Holds(w, judge, id)
  {
  }

  lemma Scorable(c: Cell, t: Turn)
    requires ScorableBy(c, t)
    ensures !c.setup.run && c.setup.package.Some? && FreshPackage(c, t.sha) && Numbered(t.results)
    ensures |t.results| <= |CasesOf(c)|
  {
  }

  lemma ScorableKept(c: Cell, d: Cell, t: Turn)
    requires ScorableBy(c, t) && d.setup == c.setup
    ensures ScorableBy(d, t) && CasesOf(d) == CasesOf(c)
  {
  }

  lemma ClosedStep(v: World, t: Turn)
    requires Holds(v, t.judge, t.id) && v.jobs[t.id].job.status == Running && ScorableBy(v.jobs[t.id], t)
    requires v.jobs[t.id].rows == Upsert(CasesOf(v.jobs[t.id]), map[], Posted(t.results))
    ensures var d := Touch(Close(t.judge, t.id, t.sha, t.message), t.id, v.now, v.jobs[t.id]);
      d.setup == v.jobs[t.id].setup && Scored(d, t.results) && Settled(d.job)
  {
    hide *;
    Held(v, t);
    Scorable(v.jobs[t.id], t);
    Closed(v.jobs[t.id], t.judge, v.now, t.message, t.results);
    Touched(t, v.now, v.jobs[t.id]);
    ScoredSettled(Finish(v.jobs[t.id], t.judge, v.now, t.message).cell, t.results);
  }

  lemma ReportedStep(v: World, t: Turn)
    requires Holds(v, t.judge, t.id) && v.jobs[t.id].job.status == Running && ScorableBy(v.jobs[t.id], t)
    requires v.jobs[t.id].rows == map[]
    ensures var d := Touch(Post(t.judge, t.id, t.sha, Posted(t.results)), t.id, v.now, v.jobs[t.id]);
      && d.setup == v.jobs[t.id].setup && d.job.status == Running && d.job.claimedBy == Some(t.judge)
      && d.job.lease == Some(v.now + LEASE_SECONDS) && ScorableBy(d, t)
      && d.rows == Upsert(CasesOf(d), map[], Posted(t.results))
  {
    hide *;
    Held(v, t);
    Scorable(v.jobs[t.id], t);
    Reported(v.jobs[t.id], t.judge, v.now, t.results);
    Touched(t, v.now, v.jobs[t.id]);
    ScorableKept(v.jobs[t.id], RecordCases(v.jobs[t.id], t.judge, v.now, Posted(t.results)).cell, t);
  }

  lemma StartedStep(v: World, t: Turn)
    requires Holds(v, t.judge, t.id) && v.jobs[t.id].job.status == Claimed && ScorableBy(v.jobs[t.id], t)
    ensures var d := Touch(Begin(t.judge, t.id), t.id, v.now, v.jobs[t.id]);
      && d.setup == v.jobs[t.id].setup && d.job.status == Running && d.job.claimedBy == Some(t.judge)
      && d.job.lease == Some(v.now + LEASE_SECONDS) && ScorableBy(d, t) && d.rows == v.jobs[t.id].rows
  {
    hide *;
    Held(v, t);
    Started(v.jobs[t.id], t.judge, v.now);
    Touched(t, v.now, v.jobs[t.id]);
    ScorableKept(v.jobs[t.id], Start(v.jobs[t.id], t.judge, v.now).cell, t);
  }

  lemma FinishStage(w: World, t: Turn, a3: seq<Action>, a4: seq<Action>)
    requires Good(w) && Holds(w, t.judge, t.id) && w.jobs[t.id].job.status == Running
    requires ScorableBy(w.jobs[t.id], t) && w.jobs[t.id].rows == Upsert(CasesOf(w.jobs[t.id]), map[], Posted(t.results))
    requires Aside(a3, t.judge, t.id) && !Redone(a4, t.id)
    requires Possible(w, FromFinish(t, a3, a4)) && Alive(w, FromFinish(t, a3, a4), t.id)
    ensures var last := Run(w, FromFinish(t, a3, a4));
      t.id in last.jobs && last.jobs[t.id].setup == w.jobs[t.id].setup && Scored(last.jobs[t.id], t.results)
  {
    var a := Close(t.judge, t.id, t.sha, t.message);
    NextRequest(w, a3, a, a4, t.judge, t.id);
    var v := Run(w, a3);
    hide *;
    LeaseOnly(w.jobs[t.id], v.jobs[t.id], t);
    ClosedStep(v, t);
    VerdictStands(Step(v, a), a4, t.id);
  }

  lemma PositiveLease()
    ensures LEASE_SECONDS > 0
  {
  }

  lemma ScoredSettled(c: Cell, rs: seq<CaseResult>)
    requires c.setup.package.Some? && Scored(c, rs)
    ensures Settled(c.job)
  {
  }

  lemma ReportStage(w: World, t: Turn, a2: seq<Action>, a3: seq<Action>, a4: seq<Action>)
    requires Good(w) && Holds(w, t.judge, t.id) && w.jobs[t.id].job.status == Running
    requires ScorableBy(w.jobs[t.id], t) && w.jobs[t.id].rows == map[]
    requires Aside(a2, t.judge, t.id) && Aside(a3, t.judge, t.id) && !Redone(a4, t.id)
    requires Possible(w, FromReport(t, a2, a3, a4)) && Alive(w, FromReport(t, a2, a3, a4), t.id)
    ensures var last := Run(w, FromReport(t, a2, a3, a4));
      t.id in last.jobs && last.jobs[t.id].setup == w.jobs[t.id].setup && Scored(last.jobs[t.id], t.results)
  {
    var a, rest := Post(t.judge, t.id, t.sha, Posted(t.results)), FromFinish(t, a3, a4);
    NextRequest(w, a2, a, rest, t.judge, t.id);
    var v := Run(w, a2);
    hide *;
    LeaseOnly(w.jobs[t.id], v.jobs[t.id], t);
    ReportedStep(v, t);
    Unchanged(v, a);
    PositiveLease();
    Holding(Step(v, a), t.judge, t.id);
    FinishStage(Step(v, a), t, a3, a4);
  }

  lemma StartStage(w: World, t: Turn, a1: seq<Action>, a2: seq<Action>, a3: seq<Action>, a4: seq<Action>)
    requires Good(w) && Holds(w, t.judge, t.id) && w.jobs[t.id].job.status == Claimed
    requires ScorableBy(w.jobs[t.id], t) && w.jobs[t.id].rows == map[]
    requires Aside(a1, t.judge, t.id) && Aside(a2, t.judge, t.id) && Aside(a3, t.judge, t.id) && !Redone(a4, t.id)
    requires Possible(w, Requests(t, a1, a2, a3, a4)) && Alive(w, Requests(t, a1, a2, a3, a4), t.id)
    ensures var last := Run(w, Requests(t, a1, a2, a3, a4));
      t.id in last.jobs && last.jobs[t.id].setup == w.jobs[t.id].setup && Scored(last.jobs[t.id], t.results)
  {
    var a, rest := Begin(t.judge, t.id), FromReport(t, a2, a3, a4);
    NextRequest(w, a1, a, rest, t.judge, t.id);
    var v := Run(w, a1);
    hide *;
    LeaseOnly(w.jobs[t.id], v.jobs[t.id], t);
    StartedStep(v, t);
    Unchanged(v, a);
    PositiveLease();
    Holding(Step(v, a), t.judge, t.id);
    ReportStage(Step(v, a), t, a2, a3, a4);
  }

  /**
   * Main result on turns, in any run of the whole table: when a worker takes a waiting job and starts,
   * reports and finishes it before its lease ends, the stored verdict is the score of its results, whatever
   * other workers, the clock, the sweep, heartbeats and other jobs do in between; and it stays so until a
   * rejudge.
   */
  lemma TurnScores(w: World, take: Action, t: Turn, a1: seq<Action>, a2: seq<Action>, a3: seq<Action>, a4: seq<Action>)
    requires Good(w) && take.Take? && take.judge == t.judge && take.id == t.id && Enabled(w, take)
    requires ScorableBy(w.jobs[t.id], t)
    requires Aside(a1, t.judge, t.id) && Aside(a2, t.judge, t.id) && Aside(a3, t.judge, t.id) && !Redone(a4, t.id)
    requires Possible(Step(w, take), Requests(t, a1, a2, a3, a4))
    requires Alive(Step(w, take), Requests(t, a1, a2, a3, a4), t.id)
    ensures var last := Run(Step(w, take), Requests(t, a1, a2, a3, a4));
      t.id in last.jobs && last.jobs[t.id].setup == w.jobs[t.id].setup && Scored(last.jobs[t.id], t.results)
  {
    TakenHolds(w, take);
    ScorableKept(w.jobs[t.id], Step(w, take).jobs[t.id], t);
    hide *;
    StartStage(Step(w, take), t, a1, a2, a3, a4);
  }

  /**
   * From package to verdict inside a run: on a program that passes every case of an imported package in
   * hundredths, the turn ends with AC exactly when every group's cases can earn the group's points, whether
   * or not the archive the worker reads states the points of its cases.
   */
  lemma PassingTurn(w: World, take: Action, t: Turn, a1: seq<Action>, a2: seq<Action>, a3: seq<Action>, a4: seq<Action>,
      problem: Problem, raw: RawManifest, cases: seq<ImportCase>, listed: bool, outcomes: seq<Outcome>,
      shortCircuit: bool)
    requires Good(w) && take.Take? && take.judge == t.judge && take.id == t.id && Enabled(w, take)
    requires ScorableBy(w.jobs[t.id], t)
    requires Aside(a1, t.judge, t.id) && Aside(a2, t.judge, t.id) && Aside(a3, t.judge, t.id) && !Redone(a4, t.id)
    requires Possible(Step(w, take), Requests(t, a1, a2, a3, a4))
    requires Alive(Step(w, take), Requests(t, a1, a2, a3, a4), t.id)
    requires Import(problem, raw, cases).Ok? && InHundredths(Import(problem, raw, cases).value)
    requires w.jobs[t.id].setup.package.value.manifest == Import(problem, raw, cases).value
    requires |outcomes| == |cases| == |CasesOf(w.jobs[t.id])| && AllPass(outcomes)
    requires var points := WorkerPoints(listed, cases, Import(problem, raw, cases).value);
      t.results == Results(points, outcomes, Executed(outcomes, shortCircuit))
    ensures var last := Run(Step(w, take), Requests(t, a1, a2, a3, a4));
      var m := Import(problem, raw, cases).value;
      && t.id in last.jobs
      && (last.jobs[t.id].sub.result == Some(AC) <==> forall g | g in m.groups :: Attainable(m, g))
      && (last.jobs[t.id].sub.result == Some(AC) ==> last.jobs[t.id].sub.points == Sum(GroupPoints(m.groups)))
  {
    TurnScores(w, take, t, a1, a2, a3, a4);
    var m := Import(problem, raw, cases).value;
    assert CasesOf(w.jobs[t.id]) == m.cases;
    WorkerPointsFit(problem, raw, cases, listed);
    AllExecuted(outcomes, shortCircuit);
    var points := WorkerPoints(listed, cases, m);
    var last := Run(Step(w, take), Requests(t, a1, a2, a3, a4)).jobs[t.id];
    hide *;
    PassingSummary(m, points, outcomes, t.results);
    FullMarksAttainable(problem, raw, cases, Slots(m, ReportsFor(t.results)), |ReportsFor(t.results)|);
    ScoredResult(last, m, t.results);
  }

  lemma PassingSummary(m: Manifest, points: seq<real>, outcomes: seq<Outcome>, rs: seq<CaseResult>)
    requires StoredOrZero(m, points) && |outcomes| == |m.cases| && AllPass(outcomes)
    requires rs == Results(points, outcomes, |outcomes|)
    ensures FullyAccepted(m, Slots(m, ReportsFor(rs)))
    ensures LoopSummary(m, ReportsFor(rs)) == Judge(m, Slots(m, ReportsFor(rs)), |ReportsFor(rs)|)
  {
    PassingSlots(m, points, outcomes);
    NumberedDistinct(points, outcomes, |outcomes|);
    hide StoredOrZero, Slots, FullyAccepted, Judge, LoopSummary, Results, ReportsFor, DistinctNumbers, Passes;
    ScoreRefines(m, ReportsFor(rs));
  }

  lemma ScoredResult(c: Cell, m: Manifest, rs: seq<CaseResult>)
    requires c.setup.package.Some? && c.setup.package.value.manifest == m && Scored(c, rs)
    ensures var s := LoopSummary(m, ReportsFor(rs)); c.sub.result == Some(s.result) && c.sub.points == s.points
  {
    hide LoopSummary, ReportsFor;
  }

  // ----- the turn that fails

  predicate Broke(c: Cell, code: string, message: string) {
    && c.job.status == Failed && c.sub.status == Error && c.sub.points == 0.0 && c.sub.subtaskScores == map[]
    && c.sub.result == Some(if code == "CE" then CE else IE) && c.sub.errorMessage == message
  }

  lemma Aborted(c: Cell, judge: nat, now: int, code: string, message: string)
    requires c.job.status == Running && c.job.claimedBy == Some(judge) && c.job.lease.Some? && now < c.job.lease.value
    ensures Broke(Fail(c, judge, now, code, message).cell, code, message)
    ensures Settled(Fail(c, judge, now, code, message).cell.job)
  {
  }

  lemma AbortTouched(judge: nat, id: nat, sha: string, code: string, message: string, now: int, c: Cell)
    requires FreshPackage(c, sha)
    ensures Touch(Abort(judge, id, sha, code, message), id, now, c) == Fail(c, judge, now, code, message).cell
  {
    hide Fail, FreshPackage;
  }

  lemma AbortStage(w: World, t: Turn, code: string, a2: seq<Action>, a4: seq<Action>)
    requires Good(w) && Holds(w, t.judge, t.id) && w.jobs[t.id].job.status == Running && FreshPackage(w.jobs[t.id], t.sha)
    requires Aside(a2, t.judge, t.id) && !Redone(a4, t.id)
    requires Possible(w, a2 + ([Abort(t.judge, t.id, t.sha, code, t.message)] + a4))
    requires Alive(w, a2 + ([Abort(t.judge, t.id, t.sha, code, t.message)] + a4), t.id)
    ensures var last := Run(w, a2 + ([Abort(t.judge, t.id, t.sha, code, t.message)] + a4));
      t.id in last.jobs && Broke(last.jobs[t.id], code, t.message)
  {
    var a := Abort(t.judge, t.id, t.sha, code, t.message);
    NextRequest(w, a2, a, a4, t.judge, t.id);
    var v := Run(w, a2);
    FreshKept(w.jobs[t.id], v.jobs[t.id], t.sha);
    hide *;
    LeaseOnly(w.jobs[t.id], v.jobs[t.id], t);
    Held(v, t);
    Aborted(v.jobs[t.id], t.judge, v.now, code, t.message);
    AbortTouched(t.judge, t.id, t.sha, code, t.message, v.now, v.jobs[t.id]);
    VerdictStands(Step(v, a), a4, t.id);
  }

  lemma FreshKept(c: Cell, d: Cell, sha: string)
    requires SameButLease(c, d)
    ensures FreshPackage(d, sha) <==> FreshPackage(c, sha)
  {
  }

  function Failing(t: Turn, code: string, a1: seq<Action>, a2: seq<Action>, a4: seq<Action>): seq<Action> {
    a1 + ([Begin(t.judge, t.id)] + (a2 + ([Abort(t.judge, t.id, t.sha, code, t.message)] + a4)))
  }

  /** A turn that ends in `fail` inside its lease leaves ERROR with CE or IE and no points, until a rejudge. */
  lemma TurnFails(w: World, take: Action, t: Turn, code: string, a1: seq<Action>, a2: seq<Action>, a4: seq<Action>)
    requires Good(w) && take.Take? && take.judge == t.judge && take.id == t.id && Enabled(w, take)
    requires FreshPackage(w.jobs[t.id], t.sha)
    requires Aside(a1, t.judge, t.id) && Aside(a2, t.judge, t.id) && !Redone(a4, t.id)
    requires Possible(Step(w, take), Failing(t, code, a1, a2, a4))
    requires Alive(Step(w, take), Failing(t, code, a1, a2, a4), t.id)
    ensures var last := Run(Step(w, take), Failing(t, code, a1, a2, a4));
      t.id in last.jobs && Broke(last.jobs[t.id], code, t.message)
  {
    TakenHolds(w, take);
    var w1 := Step(w, take);
    assert FreshPackage(w1.jobs[t.id], t.sha);
    var a, rest := Begin(t.judge, t.id), a2 + ([Abort(t.judge, t.id, t.sha, code, t.message)] + a4);
    NextRequest(w1, a1, a, rest, t.judge, t.id);
    var v := Run(w1, a1);
    FreshKept(w1.jobs[t.id], v.jobs[t.id], t.sha);
    LeaseOnly(w1.jobs[t.id], v.jobs[t.id], t);
    hide *;
    Held(v, t);
    Started(v.jobs[t.id], t.judge, v.now);
    Touched(t, v.now, v.jobs[t.id]);
    Unchanged(v, a);
    PositiveLease();
    Holding(Step(v, a), t.judge, t.id);
    FreshSetup(v.jobs[t.id], Step(v, a).jobs[t.id], t.sha);
    AbortStage(Step(v, a), t, code, a2, a4);
  }

  lemma FreshSetup(c: Cell, d: Cell, sha: string)
    requires c.setup == d.setup
    ensures FreshPackage(d, sha) <==> FreshPackage(c, sha)
  {
  }

  lemma TakenHolds(w: World, take: Action)
    requires Good(w) && take.Take? && Enabled(w, take)
    ensures take.id in w.jobs && Good(Step(w, take)) && Holds(Step(w, take), take.judge, take.id)
    ensures var c := Step(w, take).jobs[take.id];
      c.setup == w.jobs[take.id].setup && c.job.status == Claimed && c.rows == map[]
  {
    TakeWaits(w, take.languages, take.locked, take.id);
    StepAt(w, take, take.id);
    GoodStep(w, take);
    assert Coupled(w.jobs[take.id]);
    assert Step(w, take).jobs[take.id] == Claim(w.jobs[take.id], take.judge, w.now);
    assert Step(w, take).now == w.now;
    hide Good, Step, Coupled, First;
  }
}
