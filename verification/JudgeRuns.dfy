/** All jobs together: interleaved workers, a clock, the expiry sweep and rejudging. */
module JudgeRuns {
  import opened Options
  import opened Scoring
  import opened JudgeJob
  import opened JudgeLaws

  /** The job table, one cell per job id, and the clock. */
  datatype World = World(now: int, jobs: map<nat, Cell>)

  /** One atomic step. `locked` are the rows other transactions hold, which `skip_locked` passes over. */
  datatype Action =
    | Tick(to: int)
    | Submit(id: nat, setup: Setup)
    | Sweep(locked: set<nat>)
    | Take(judge: nat, languages: seq<string>, locked: set<nat>, id: nat)
    | Beat(judge: nat)
    | Begin(judge: nat, id: nat)
    | Post(judge: nat, id: nat, sha: string, batch: seq<CaseIn>)
    | Close(judge: nat, id: nat, sha: string, message: string)
    | Abort(judge: nat, id: nat, sha: string, code: string, message: string)
    | Redo(id: nat)

  predicate Eligible(w: World, languages: seq<string>, locked: set<nat>, id: nat) {
    id in w.jobs && id !in locked && w.jobs[id].job.status == Waiting && w.jobs[id].setup.language in languages
  }

  /** Higher priority first, then older first. */
  predicate Before(a: Setup, b: Setup) {
    a.priority > b.priority || (a.priority == b.priority && a.createdAt <= b.createdAt)
  }

  /** `order_by("-priority", "created_at").first()`, which leaves ties open. */
  predicate First(w: World, languages: seq<string>, locked: set<nat>, id: nat) {
    && Eligible(w, languages, locked, id)
    && forall other | other in w.jobs && Eligible(w, languages, locked, other) :: Before(w.jobs[id].setup, w.jobs[other].setup)
  }

  /** What the environment guarantees: time does not go back, ids are new, imported packages have cases. */
  predicate Enabled(w: World, a: Action) {
    match a
    case Tick(to) => to >= w.now
    case Submit(id, setup) =>
      id !in w.jobs && setup.createdAt == w.now && (setup.package.Some? ==> setup.package.value.manifest.cases != [])
    case Take(_, languages, locked, id) => First(w, languages, locked, id)
    case _ => true
  }

  /** The effect of a step on one existing job. */
  function Touch(a: Action, id: nat, now: int, c: Cell): Cell
    requires a.Take? && a.id == id ==> c.job.status == Waiting
  {
    match a
    case Tick(_) => c
    case Submit(_, _) => c
    case Sweep(locked) => if id in locked then c else Expire(c, now)
    case Take(judge, _, _, target) => if target == id then Claim(c, judge, now) else c
    case Beat(judge) => Heartbeat(c, judge, now)
    case Begin(judge, target) => if target == id then Start(c, judge, now).cell else c
    case Post(judge, target, sha, batch) =>
      if target == id && FreshPackage(c, sha) then RecordCases(c, judge, now, batch).cell else c
    case Close(judge, target, sha, message) =>
      if target == id && FreshPackage(c, sha) then Finish(c, judge, now, message).cell else c
    case Abort(judge, target, sha, code, message) =>
      if target == id && FreshPackage(c, sha) then Fail(c, judge, now, code, message).cell else c
    case Redo(target) => if target == id then JudgeJob.Rejudge(c).cell else c
  }

  function Step(w: World, a: Action): World
    requires Enabled(w, a)
  {
    match a
    case Tick(to) => w.(now := to)
    case Submit(id, setup) =>
      if Create(setup).reply == Done then w.(jobs := w.jobs[id := Create(setup).cell]) else w
    case _ => w.(jobs := map id | id in w.jobs :: Touch(a, id, w.now, w.jobs[id]))
  }

  predicate Possible(w: World, actions: seq<Action>)
    decreases |actions|
  {
    actions == [] || (Enabled(w, actions[0]) && Possible(Step(w, actions[0]), actions[1..]))
  }

  function Run(w: World, actions: seq<Action>): World
    requires Possible(w, actions)
    decreases |actions|
  {
    if actions == [] then w else Run(Step(w, actions[0]), actions[1..])
  }

  function Empty(now: int): World { World(now, map[]) }

  // ----- the invariant of the whole table

  /** No lease reaches further ahead than a heartbeat would set it. */
  predicate LeaseAhead(c: Cell, now: int) {
    c.job.lease.Some? ==> c.job.lease.value <= now + LEASE_SECONDS
  }

  predicate Good(w: World) {
    forall id | id in w.jobs :: Coupled(w.jobs[id]) && SetupOk(w.jobs[id].setup) && LeaseAhead(w.jobs[id], w.now)
  }

  /** What one step does to one job: this is all the later proofs look at. */
  lemma StepAt(w: World, a: Action, id: nat)
    requires Enabled(w, a) && id in w.jobs
    ensures id in Step(w, a).jobs
    ensures Step(w, a).jobs[id] == Touch(a, id, w.now, w.jobs[id])
    ensures Step(w, a).now >= w.now
  {
    hide Expire, Heartbeat, Start, RecordCases, Finish, Fail, Rejudge, Create, Claim, First;
    if a.Take? {
      TakeWaits(w, a.languages, a.locked, a.id);
    }
  }

  lemma TakeWaits(w: World, languages: seq<string>, locked: set<nat>, id: nat)
    requires First(w, languages, locked, id)
    ensures Eligible(w, languages, locked, id)
  {
  }

  lemma TouchSetup(a: Action, id: nat, now: int, c: Cell)
    requires a.Take? && a.id == id ==> c.job.status == Waiting
    ensures Touch(a, id, now, c).setup == c.setup
  {
    hide AssertOwned, Stale, Graded, Upsert, HighestCase, RowTotal, RowsPassed, CasesOf, InPackage, FreshPackage;
  }

  lemma TouchCoupled(a: Action, id: nat, now: int, c: Cell)
    requires Coupled(c) && SetupOk(c.setup) && LeaseAhead(c, now)
    requires a.Take? && a.id == id ==> c.job.status == Waiting
    ensures var after := Touch(a, id, now, c); Coupled(after) && after.setup == c.setup
  {
    TouchSetup(a, id, now, c);
    hide Coupled, SetupOk, Expire, Claim, Heartbeat, Start, RecordCases, Finish, Fail, JudgeJob.Rejudge, FreshPackage;
    match a
    case Sweep(_) => ExpireCoupled(c, now);
    case Take(judge, _, _, target) => if target == id { ClaimCoupled(c, judge, now); }
    case Beat(judge) => HeartbeatCoupled(c, judge, now);
    case Begin(judge, _) => StartCoupled(c, judge, now);
    case Post(judge, _, _, batch) => RecordCoupled(c, judge, now, batch);
    case Close(judge, _, _, message) => FinishCoupled(c, judge, now, message);
    case Abort(judge, _, _, code, message) => FailCoupled(c, judge, now, code, message);
    case Redo(_) => RejudgeCoupled(c);
    case _ =>
  }

  lemma TouchLease(a: Action, id: nat, now: int, c: Cell)
    requires LeaseAhead(c, now)
    requires a.Take? && a.id == id ==> c.job.status == Waiting
    ensures LeaseAhead(Touch(a, id, now, c), now)
  {
    hide Upsert, RowsPassed, HighestCase, Graded, RowTotal;
  }

  lemma GoodStep(w: World, a: Action)
    requires Good(w) && Enabled(w, a)
    ensures Good(Step(w, a))
  {
    var after := Step(w, a);
    forall id | id in after.jobs
      ensures Coupled(after.jobs[id]) && SetupOk(after.jobs[id].setup) && LeaseAhead(after.jobs[id], after.now)
    {
      if id in w.jobs {
        StepAt(w, a, id);
        GoodTouch(w, a, id);
      } else {
        CreateCoupled(a.setup);
        hide Coupled;
      }
    }
  }

  lemma GoodTouch(w: World, a: Action, id: nat)
    requires Good(w) && Enabled(w, a) && id in w.jobs
    requires a.Take? && a.id == id ==> w.jobs[id].job.status == Waiting
    ensures var after := Touch(a, id, w.now, w.jobs[id]);
      Coupled(after) && SetupOk(after.setup) && LeaseAhead(after, Step(w, a).now)
  {
    TouchCoupled(a, id, w.now, w.jobs[id]);
    TouchLease(a, id, w.now, w.jobs[id]);
    hide Touch, Coupled, SetupOk;
  }

  /** Every reachable table, from the empty one on, is coupled. */
  lemma {:induction false} GoodRun(w: World, actions: seq<Action>)
    requires Good(w) && Possible(w, actions)
    ensures Good(Run(w, actions))
    decreases |actions|
  {
    hide Good, Step;
    if actions == [] {
    } else {
      GoodStep(w, actions[0]);
      GoodRun(Step(w, actions[0]), actions[1..]);
    }
  }

  // ----- provenance

  /** The job is there and `judge` is its claimant now and after every one of the steps. */
  predicate Held(w: World, actions: seq<Action>, id: nat, judge: nat)
    requires Possible(w, actions)
    decreases |actions|
  {
    && id in w.jobs && w.jobs[id].job.claimedBy == Some(judge)
    && (actions == [] || Held(Step(w, actions[0]), actions[1..], id, judge))
  }

  /** The step is a report by `judge` that is accepted and puts `row` at case `n`. */
  predicate Writes(w: World, a: Action, id: nat, n: nat, judge: nat, row: Row) {
    && a.Post? && a.id == id && a.judge == judge && id in w.jobs && FreshPackage(w.jobs[id], a.sha)
    && RecordCases(w.jobs[id], judge, w.now, a.batch).reply == Done
    && exists x | x in a.batch :: x.number == n && row == RowFor(CasesOf(w.jobs[id]), x)
  }

  /** Some step of the run writes the row, and the writer stays the claimant from then to the end. */
  predicate Wrote(w: World, actions: seq<Action>, id: nat, n: nat, judge: nat, row: Row)
    requires Possible(w, actions)
    decreases |actions|
  {
    && actions != []
    && ((Writes(w, actions[0], id, n, judge, row) && Held(w, actions, id, judge))
        || Wrote(Step(w, actions[0]), actions[1..], id, n, judge, row))
  }

  lemma {:induction false} UpsertSource(cases: seq<ManifestCase>, rows: map<nat, Row>, batch: seq<CaseIn>, n: nat)
    requires n in Upsert(cases, rows, batch)
    ensures var row := Upsert(cases, rows, batch)[n];
      (n in rows && rows[n] == row) || exists x | x in batch :: x.number == n && row == RowFor(cases, x)
  {
    hide RowFor;
    if batch == [] {
    } else {
      var front, last := batch[..|batch| - 1], batch[|batch| - 1];
      assert last in batch && forall x | x in front :: x in batch;
      if last.number <= 0 || last.number != n {
        UpsertSource(cases, rows, front, n);
      }
    }
  }

  /** A row after a step was there before, under the same claimant, or the step wrote it. */
  lemma RowSource(w: World, a: Action, id: nat, n: nat)
    requires Good(w) && Enabled(w, a) && id in w.jobs
    requires a.Take? && a.id == id ==> w.jobs[id].job.status == Waiting
    requires n in Touch(a, id, w.now, w.jobs[id]).rows
    ensures var c, after := w.jobs[id], Touch(a, id, w.now, w.jobs[id]);
      && c.job.claimedBy.Some? && after.job.claimedBy == c.job.claimedBy
      && ((n in c.rows && c.rows[n] == after.rows[n])
          || Writes(w, a, id, n, c.job.claimedBy.value, after.rows[n]))
  {
    var c := w.jobs[id];
    assert Coupled(c);
    hide RowsOk, CountersOk, Graded, RowsPassed, HighestCase, RowTotal;
    if a.Post? && a.id == id && FreshPackage(c, a.sha) && RecordCases(c, a.judge, w.now, a.batch).reply == Done {
      UpsertSource(CasesOf(c), c.rows, a.batch, n);
      hide Upsert, RowFor;
    } else {
      hide Upsert;
    }
  }

  lemma {:induction false} RowHistory(w: World, actions: seq<Action>, id: nat, n: nat)
    requires Good(w) && Possible(w, actions)
    requires id in Run(w, actions).jobs && n in Run(w, actions).jobs[id].rows
    ensures var last := Run(w, actions).jobs[id];
      && last.job.claimedBy.Some?
      && (Wrote(w, actions, id, n, last.job.claimedBy.value, last.rows[n])
          || (Held(w, actions, id, last.job.claimedBy.value) && n in w.jobs[id].rows && w.jobs[id].rows[n] == last.rows[n]))
    decreases |actions|
  {
    if actions == [] {
      RowsHaveClaimant(w, id, n);
    } else {
      var a, rest := actions[0], actions[1..];
      var next := Step(w, a);
      GoodStep(w, a);
      RowHistory(next, rest, id, n);
      var last := Run(w, actions).jobs[id];
      var judge := last.job.claimedBy.value;
      if !Wrote(next, rest, id, n, judge, last.rows[n]) {
        FirstStep(w, a, id, n);
        hide Step, Writes, Good;
      }
    }
  }

  lemma RowsHaveClaimant(w: World, id: nat, n: nat)
    requires Good(w) && id in w.jobs && n in w.jobs[id].rows
    ensures w.jobs[id].job.claimedBy.Some?
  {
    assert Coupled(w.jobs[id]);
  }

  /** The same for the step as a whole; a job it creates has no rows. */
  lemma FirstStep(w: World, a: Action, id: nat, n: nat)
    requires Good(w) && Enabled(w, a) && id in Step(w, a).jobs && n in Step(w, a).jobs[id].rows
    ensures id in w.jobs
    ensures var c, after := w.jobs[id], Step(w, a).jobs[id];
      && c.job.claimedBy.Some? && after.job.claimedBy == c.job.claimedBy
      && ((n in c.rows && c.rows[n] == after.rows[n])
          || Writes(w, a, id, n, c.job.claimedBy.value, after.rows[n]))
  {
    if id in w.jobs {
      StepAt(w, a, id);
      if a.Take? {
        TakeWaits(w, a.languages, a.locked, a.id);
      }
      RowSource(w, a, id, n);
    } else {
      assert false;
    }
  }

  /**
   * Provenance, for every run from the empty table: whenever a `finish` is accepted, every row it scores
   * was posted by that same judge, which has been the claimant without a break since.
   */
  lemma Provenance(now: int, actions: seq<Action>, id: nat, judge: nat, message: string)
    requires Possible(Empty(now), actions) && id in Run(Empty(now), actions).jobs
    requires var w := Run(Empty(now), actions); Finish(w.jobs[id], judge, w.now, message).reply == Done
    ensures var rows := Run(Empty(now), actions).jobs[id].rows;
      forall n | n in rows :: Wrote(Empty(now), actions, id, n, judge, rows[n])
  {
    var rows := Run(Empty(now), actions).jobs[id].rows;
    forall n | n in rows ensures Wrote(Empty(now), actions, id, n, judge, rows[n]) {
      RowHistory(Empty(now), actions, id, n);
      hide Run, Wrote, Possible, Graded;
    }
  }

  // ----- fencing

  /** A callback by this judge on this job. */
  predicate Callback(a: Action, judge: nat, id: nat) {
    match a
    case Begin(j, target) => j == judge && target == id
    case Post(j, target, _, _) => j == judge && target == id
    case Close(j, target, _, _) => j == judge && target == id
    case Abort(j, target, _, _, _) => j == judge && target == id
    case _ => false
  }

  function Without(actions: seq<Action>, judge: nat, id: nat): seq<Action> {
    if actions == [] then []
    else (if Callback(actions[0], judge, id) then [] else [actions[0]]) + Without(actions[1..], judge, id)
  }

  predicate Takes(actions: seq<Action>, judge: nat, id: nat) {
    exists a | a in actions :: a.Take? && a.judge == judge && a.id == id
  }

  /** A callback of a judge that is not the claimant changes nothing, anywhere. */
  lemma StrangerStep(w: World, a: Action, judge: nat, id: nat)
    requires Good(w) && id in w.jobs && w.jobs[id].job.claimedBy != Some(judge) && Callback(a, judge, id)
    ensures Step(w, a) == w
  {
    forall k | k in w.jobs ensures Touch(a, k, w.now, w.jobs[k]) == w.jobs[k] {
      assert Coupled(w.jobs[k]);
      hide Coupled, Upsert, RowsPassed, HighestCase, Graded;
    }
    hide Touch, Good;
  }

  /** Only taking a job makes a judge its claimant. */
  lemma ClaimantStep(w: World, a: Action, judge: nat, id: nat)
    requires Enabled(w, a) && id in w.jobs && w.jobs[id].job.claimedBy != Some(judge)
    requires !(a.Take? && a.judge == judge && a.id == id)
    ensures id in Step(w, a).jobs && Step(w, a).jobs[id].job.claimedBy != Some(judge)
  {
    StepAt(w, a, id);
    hide Step, Upsert, RowsPassed, HighestCase, Graded, First;
  }

  /**
   * Fencing: a judge that is not the claimant, because the job was requeued, taken by another judge or
   * rejudged, can post what it likes until it takes the job again. The whole table ends up as if none
   * of its callbacks on that job had been sent.
   */
  lemma {:induction false} Fencing(w: World, actions: seq<Action>, judge: nat, id: nat)
    requires Good(w) && Possible(w, actions)
    requires id in w.jobs && w.jobs[id].job.claimedBy != Some(judge) && !Takes(actions, judge, id)
    ensures Possible(w, Without(actions, judge, id))
    ensures Run(w, Without(actions, judge, id)) == Run(w, actions)
    decreases |actions|
  {
    if actions == [] {
    } else {
      var a, rest := actions[0], actions[1..];
      assert a in actions && forall b | b in rest :: b in actions;
      GoodStep(w, a);
      ClaimantStep(w, a, judge, id);
      hide Step, Good;
      Fencing(Step(w, a), rest, judge, id);
      var kept := Without(rest, judge, id);
      if Callback(a, judge, id) {
        StrangerStep(w, a, judge, id);
        assert [] + kept == kept;
      } else {
        assert ([a] + kept)[1..] == kept;
      }
    }
  }

  // ----- bounded retries

  predicate Redone(actions: seq<Action>, id: nat) {
    Redo(id) in actions
  }

  /** How often the status of a job changes over a run. */
  function Changes(w: World, actions: seq<Action>, id: nat): nat
    requires Possible(w, actions) && id in w.jobs
    decreases |actions|
  {
    if actions == [] then 0
    else
      var next := Step(w, actions[0]);
      StepAt(w, actions[0], id);
      (if next.jobs[id].job.status != w.jobs[id].job.status then 1 else 0) + Changes(next, actions[1..], id)
  }

  function Claims(actions: seq<Action>, id: nat): nat {
    if actions == [] then 0
    else (if actions[0].Take? && actions[0].id == id then 1 else 0) + Claims(actions[1..], id)
  }

  lemma CellDescends(c: Cell, a: Action, id: nat, now: int)
    requires Coupled(c) && a != Redo(id) && (a.Take? && a.id == id ==> c.job.status == Waiting)
    ensures Descends(c, Touch(a, id, now, c))
  {
    hide Coupled, Descends, Expire, Claim, Heartbeat, Start, RecordCases, Finish, Fail, Rejudge;
    match a
    case Tick(_) => SameDescends(c);
    case Submit(_, _) => SameDescends(c);
    case Redo(_) => SameDescends(c);
    case Sweep(_) =>
      SameDescends(c);
      RequestsDescend(c, 0, now);
    case _ =>
      SameDescends(c);
      RequestsDescend(c, a.judge, now);
  }

  lemma SameDescends(c: Cell)
    ensures Descends(c, c)
  {
  }

  lemma AttemptsTouched(c: Cell, a: Action, id: nat, now: int)
    requires a != Redo(id) && (a.Take? && a.id == id ==> c.job.status == Waiting)
    ensures Touch(a, id, now, c).job.attempts == c.job.attempts + if a.Take? && a.id == id then 1 else 0
  {
    hide Upsert, RowsPassed, HighestCase, RowTotal, Graded;
  }

  lemma TouchDescends(w: World, a: Action, id: nat)
    requires Good(w) && Enabled(w, a) && id in w.jobs && a != Redo(id)
    ensures id in Step(w, a).jobs
    ensures Descends(w.jobs[id], Step(w, a).jobs[id])
    ensures Step(w, a).jobs[id].job.attempts == w.jobs[id].job.attempts + if a.Take? && a.id == id then 1 else 0
  {
    StepAt(w, a, id);
    assert Coupled(w.jobs[id]);
    if a.Take? {
      TakeWaits(w, a.languages, a.locked, a.id);
    }
    hide Good, Step, Touch, Coupled, First, Descends;
    CellDescends(w.jobs[id], a, id, w.now);
    AttemptsTouched(w.jobs[id], a, id, w.now);
  }

  /** Each change of status pays with the measure, each claim with an attempt. */
  lemma {:induction false} ChangesPaid(w: World, actions: seq<Action>, id: nat)
    requires Good(w) && Possible(w, actions) && id in w.jobs && !Redone(actions, id)
    ensures Good(Run(w, actions)) && id in Run(w, actions).jobs
    ensures var c, last := w.jobs[id], Run(w, actions).jobs[id];
      && last.job.maxAttempts == c.job.maxAttempts
      && Changes(w, actions, id) <= Measure(c) - Measure(last)
      && Claims(actions, id) == last.job.attempts - c.job.attempts
    decreases |actions|
  {
    hide Step, Good, Enabled, Touch, Measure;
    if actions == [] {
    } else {
      var a, rest := actions[0], actions[1..];
      assert a in actions && (Redone(rest, id) ==> Redone(actions, id));
      GoodStep(w, a);
      TouchDescends(w, a, id);
      hide Redone;
      ChangesPaid(Step(w, a), rest, id);
    }
  }

  /**
   * Without a rejudge in between, however heartbeats, sweeps and callbacks interleave: a job changes
   * status at most three times and is claimed at most once per attempt it has left.
   */
  lemma BoundedRetries(w: World, actions: seq<Action>, id: nat)
    requires Good(w) && Possible(w, actions) && id in w.jobs && !Redone(actions, id)
    ensures Changes(w, actions, id) <= Measure(w.jobs[id]) <= 3 * w.jobs[id].job.maxAttempts
    ensures Claims(actions, id) <= w.jobs[id].job.maxAttempts - w.jobs[id].job.attempts
  {
    ChangesPaid(w, actions, id);
    AttemptsLeft(w, id);
    AttemptsLeft(Run(w, actions), id);
    hide Good, Run, Possible, Changes, Claims, Measure;
  }

  lemma AttemptsLeft(w: World, id: nat)
    requires Good(w) && id in w.jobs
    ensures w.jobs[id].job.attempts <= w.jobs[id].job.maxAttempts
    ensures 0 <= Measure(w.jobs[id]) <= 3 * w.jobs[id].job.maxAttempts
  {
    assert Coupled(w.jobs[id]);
    hide RowsOk, CountersOk;
  }

  // ----- leases

  /** While the lease lasts, no step but a rejudge takes the job from its claimant, and the lease only grows. */
  lemma LeaseStep(w: World, a: Action, id: nat)
    requires Good(w) && Enabled(w, a) && id in w.jobs && a != Redo(id)
    requires Active(w.jobs[id].job) && w.jobs[id].job.lease.Some? && w.now <= w.jobs[id].job.lease.value
    ensures id in Step(w, a).jobs
    ensures var before, after := w.jobs[id].job, Step(w, a).jobs[id].job;
      && after.claimedBy == before.claimedBy
      && (if Active(after) then after.lease.Some? && after.lease.value >= before.lease.value else after.status in {Succeeded, Failed})
  {
    StepAt(w, a, id);
    if a.Take? {
      TakeWaits(w, a.languages, a.locked, a.id);
    }
    assert LeaseAhead(w.jobs[id], w.now);
    hide Step, Good, First, Coupled, Touch, SetupOk;
    TouchKeepsLease(w.jobs[id], a, id, w.now);
  }

  /** The claimant stays, and the lease only grows while the job is active. */
  predicate LeaseKept(before: Job, after: Job) {
    && after.claimedBy == before.claimedBy
    && if Active(after) then after.lease.Some? && before.lease.Some? && after.lease.value >= before.lease.value
       else after.status in {Succeeded, Failed}
  }

  lemma RequestsKeepLease(c: Cell, judge: nat, now: int)
    requires Active(c.job) && c.job.lease.Some? && now <= c.job.lease.value <= now + LEASE_SECONDS
    ensures LeaseKept(c.job, c.job) && LeaseKept(c.job, Expire(c, now).job)
    ensures LeaseKept(c.job, Heartbeat(c, judge, now).job) && LeaseKept(c.job, Start(c, judge, now).cell.job)
    ensures forall batch :: LeaseKept(c.job, RecordCases(c, judge, now, batch).cell.job)
    ensures forall message :: LeaseKept(c.job, Finish(c, judge, now, message).cell.job)
    ensures forall code, message :: LeaseKept(c.job, Fail(c, judge, now, code, message).cell.job)
  {
    hide Upsert, RowsPassed, HighestCase, RowTotal, Graded, CasesOf, InPackage;
  }

  lemma TouchKeepsLease(c: Cell, a: Action, id: nat, now: int)
    requires Active(c.job) && c.job.lease.Some? && now <= c.job.lease.value && LeaseAhead(c, now)
    requires a != Redo(id) && (a.Take? && a.id == id ==> c.job.status == Waiting)
    ensures LeaseKept(c.job, Touch(a, id, now, c).job)
  {
    RequestsKeepLease(c, 0, now);
    if !(a.Tick? || a.Submit? || a.Redo? || a.Sweep?) {
      RequestsKeepLease(c, a.judge, now);
    }
    hide LeaseKept, Expire, Claim, Heartbeat, Start, RecordCases, Finish, Fail, Rejudge, FreshPackage;
  }

  lemma {:induction false} ClockForward(w: World, actions: seq<Action>)
    requires Possible(w, actions)
    ensures Run(w, actions).now >= w.now
    decreases |actions|
  {
    if actions == [] {
    } else {
      ClockForward(Step(w, actions[0]), actions[1..]);
    }
  }

  predicate Settled(job: Job) {
    job.status == Succeeded || job.status == Failed
  }

  lemma SettledStep(w: World, a: Action, id: nat)
    requires Good(w) && Enabled(w, a) && id in w.jobs && Settled(w.jobs[id].job) && a != Redo(id)
    ensures id in Step(w, a).jobs && Step(w, a).jobs[id] == w.jobs[id]
  {
    StepAt(w, a, id);
    assert Coupled(w.jobs[id]);
    hide Step, Good, First, RowsOk, CountersOk, Upsert, RowsPassed, HighestCase, RowTotal, Graded;
  }

  /** A verdict stands: once a job is finished or failed, nothing but a rejudge changes it, its submission or its rows. */
  lemma {:induction false} VerdictStands(w: World, actions: seq<Action>, id: nat)
    requires Good(w) && Possible(w, actions) && id in w.jobs && Settled(w.jobs[id].job) && !Redone(actions, id)
    ensures id in Run(w, actions).jobs && Run(w, actions).jobs[id] == w.jobs[id]
    decreases |actions|
  {
    hide Step, Good, Enabled, Touch, Settled;
    if actions == [] {
    } else {
      var a, rest := actions[0], actions[1..];
      assert a in actions && (Redone(rest, id) ==> Redone(actions, id));
      GoodStep(w, a);
      SettledStep(w, a, id);
      hide Redone;
      VerdictStands(Step(w, a), rest, id);
    }
  }

  /** Exclusive leases: up to the end of its lease a claimant cannot lose the job, except to a rejudge. */
  lemma {:induction false} LeaseHolds(w: World, actions: seq<Action>, id: nat)
    requires Good(w) && Possible(w, actions) && id in w.jobs && !Redone(actions, id)
    requires Active(w.jobs[id].job) && w.jobs[id].job.lease.Some? && Run(w, actions).now <= w.jobs[id].job.lease.value
    ensures id in Run(w, actions).jobs
    ensures Run(w, actions).jobs[id].job.claimedBy == w.jobs[id].job.claimedBy
    decreases |actions|
  {
    hide Step, Good, Enabled, Touch, Active, Settled;
    if actions == [] {
    } else {
      var a, rest := actions[0], actions[1..];
      assert a in actions && (Redone(rest, id) ==> Redone(actions, id));
      GoodStep(w, a);
      ClockForward(w, actions);
      LeaseStep(w, a, id);
      hide Redone;
      if Active(Step(w, a).jobs[id].job) {
        LeaseHolds(Step(w, a), rest, id);
      } else {
        EndedIsSettled(Step(w, a).jobs[id].job);
        VerdictStands(Step(w, a), rest, id);
      }
    }
  }

  lemma EndedIsSettled(job: Job)
    requires job.status in {Succeeded, Failed}
    ensures Settled(job)
  {
  }
}
