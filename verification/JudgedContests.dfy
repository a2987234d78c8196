/** Contest scores over submissions that the judge graded. */
module JudgedContests {
  import opened Options
  import opened JudgeJob
  import opened JudgeLaws
  import opened JudgeRuns
  import opened ContestFormats
  import opened ContestStandings
  import opened ContestLaws

  /** The JSON object of subtask scores, as the formats iterate over it. */
  predicate Lists(pairs: seq<SubtaskScore>, scores: map<string, real>) {
    && (forall i | 0 <= i < |pairs| :: pairs[i].key in scores && scores[pairs[i].key] == pairs[i].value)
    && (forall key | key in scores :: SubtaskScore(key, scores[key]) in pairs)
    && forall i, j | 0 <= i < j < |pairs| :: pairs[i].key != pairs[j].key
  }

  /** A contest submission as the judge left it. */
  predicate Reflects(s: Sub, c: Cell) {
    s.result == c.sub.result && s.points == c.sub.points && Lists(s.subtasks, c.sub.subtaskScores)
  }

  lemma NoPairs(scores: map<string, real>)
    requires Lists([], scores)
    ensures scores == map[]
  {
    if key :| key in scores {
      assert false;
    }
  }

  /** In every run of the judge, a submission without subtask scores has no points. */
  lemma JudgedIsScored(now: int, actions: seq<Action>, id: nat, s: Sub)
    requires Possible(Empty(now), actions) && id in Run(Empty(now), actions).jobs
    requires Reflects(s, Run(Empty(now), actions).jobs[id])
    ensures JudgeScored(s)
  {
    var w := Run(Empty(now), actions);
    GoodRun(Empty(now), actions);
    assert Coupled(w.jobs[id]);
    if s.subtasks == [] {
      NoPairs(w.jobs[id].sub.subtaskScores);
    }
    hide Run, Possible, RowsOk, CountersOk;
  }

  /** So with submissions graded by the judge, IOI scores too only grow with the cut-off. */
  lemma JudgedIoiGrows(now: int, actions: seq<Action>, start: real, problems: seq<ContestProblem>, table: seq<Sub>,
      a: Option<real>, b: Option<real>)
    requires Possible(Empty(now), actions) && Ordered(table) && NoLater(a, b)
    requires var w := Run(Empty(now), actions);
      forall s | s in table :: s.id in w.jobs && Reflects(s, w.jobs[s.id])
    ensures ScoreSum(Ioi, start, problems, table, a) <= ScoreSum(Ioi, start, problems, table, b)
  {
    forall s | s in table ensures JudgeScored(s) {
      JudgedIsScored(now, actions, s.id, s);
    }
    hide Run, Possible, ScoreSum, Ordered, JudgeScored;
    ScoreGrows(Ioi, start, problems, table, a, b);
  }
}
