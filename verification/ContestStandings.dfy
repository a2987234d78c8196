/** Participations: the per-problem results of a format added up over the problems of the contest. */
module ContestStandings {
  import opened Options
  import opened Sums
  import opened Scoring
  import opened ContestFormats

  datatype Format = Default | Icpc(wrongPenalty: int) | Ioi | AtCoder(penaltyMinutes: nat) | Ecoo(tries: nat)

  /** What a problem adds to the score. */
  function ProblemScore(f: Format, start: real, p: ContestProblem, subs: seq<Sub>): real {
    match f
    case Default => DefaultOf(start, subs).points
    case Icpc(w) => IcpcOf(start, w, subs).points
    case Ioi => IoiOf(subs).points
    case AtCoder(_) => AtCoderOf(start, p.points, subs).points
    case Ecoo(tries) => EcooOf(tries, subs).points
  }

  function ScoreSum(f: Format, start: real, problems: seq<ContestProblem>, table: seq<Sub>, cut: Option<real>): real {
    if problems == [] then 0.0
    else
      var last := problems[|problems| - 1];
      ScoreSum(f, start, problems[..|problems| - 1], table, cut) +
      ProblemScore(f, start, last, Query(table, last.problem, cut))
  }

  /** The latest accepted time over the problems. */
  function LastAccept(start: real, problems: seq<ContestProblem>, table: seq<Sub>, cut: Option<real>): real {
    if problems == [] then 0.0
    else
      var last := problems[|problems| - 1];
      MaxOf(LastAccept(start, problems[..|problems| - 1], table, cut),
            DefaultOf(start, Query(table, last.problem, cut)).acSeconds)
  }

  function PenaltySum(start: real, w: int, problems: seq<ContestProblem>, table: seq<Sub>, cut: Option<real>): int {
    if problems == [] then 0
    else
      var last := problems[|problems| - 1];
      PenaltySum(start, w, problems[..|problems| - 1], table, cut) +
      IcpcOf(start, w, Query(table, last.problem, cut)).penalty
  }

  /** Wrong attempts on the solved problems, and the latest first accept among them. */
  function SolvedWrong(start: real, problems: seq<ContestProblem>, table: seq<Sub>, cut: Option<real>): nat {
    if problems == [] then 0
    else
      var last := problems[|problems| - 1];
      var r := AtCoderOf(start, last.points, Query(table, last.problem, cut));
      SolvedWrong(start, problems[..|problems| - 1], table, cut) + if r.solved then r.wrong else 0
  }

  function LastFirstAccept(start: real, problems: seq<ContestProblem>, table: seq<Sub>, cut: Option<real>): int {
    if problems == [] then 0
    else
      var last := problems[|problems| - 1];
      var r := AtCoderOf(start, last.points, Query(table, last.problem, cut));
      var before := LastFirstAccept(start, problems[..|problems| - 1], table, cut);
      if r.solved then MaxInt(before, r.acMinutes) else before
  }

  function StandingOf(f: Format, start: real, problems: seq<ContestProblem>, table: seq<Sub>,
      cut: Option<real>): Standing {
    var score := ScoreSum(f, start, problems, table, cut);
    match f
    case Default =>
      var seconds := LastAccept(start, problems, table, cut);
      Standing(score, seconds, seconds)
    case Icpc(w) =>
      var minutes := PenaltySum(start, w, problems, table, cut);
      Standing(score, minutes as real, 60.0 * minutes as real)
    case AtCoder(penalty) =>
      var minutes := LastFirstAccept(start, problems, table, cut) + SolvedWrong(start, problems, table, cut) * penalty;
      Standing(score, minutes as real, 60.0 * minutes as real)
    case _ => Standing(score, 0.0, 0.0)
  }

  // ----- the loops over the problems

  method DefaultParticipation(start: real, problems: seq<ContestProblem>, table: seq<Sub>,
      cut: Option<real>) returns (s: Standing)
    ensures s == StandingOf(Default, start, problems, table, cut)
  {
    var total, lastAc, time := 0.0, 0.0, 0.0;
    for k := 0 to |problems|
      invariant total == ScoreSum(Default, start, problems[..k], table, cut)
      invariant lastAc == LastAccept(start, problems[..k], table, cut) == time && lastAc >= 0.0
    {
      assert problems[..k + 1][..k] == problems[..k];
      var r := DefaultProblem(start, Query(table, problems[k].problem, cut));
      total := total + r.points;
      if r.acSeconds > 0.0 {
        lastAc := MaxOf(lastAc, r.acSeconds);
        time := lastAc;
      }
    }
    assert problems[..|problems|] == problems;
    s := Standing(total, lastAc, time);
  }

  method IcpcParticipation(start: real, w: int, problems: seq<ContestProblem>, table: seq<Sub>,
      cut: Option<real>) returns (s: Standing)
    ensures s == StandingOf(Icpc(w), start, problems, table, cut)
  {
    var solved, penalty := 0, 0;
    for k := 0 to |problems|
      invariant solved as real == ScoreSum(Icpc(w), start, problems[..k], table, cut)
      invariant penalty == PenaltySum(start, w, problems[..k], table, cut)
    {
      assert problems[..k + 1][..k] == problems[..k];
      var r := IcpcProblem(start, w, Query(table, problems[k].problem, cut));
      solved := solved + if r.solved then 1 else 0;
      penalty := penalty + r.penalty;
    }
    assert problems[..|problems|] == problems;
    s := Standing(solved as real, penalty as real, 60.0 * penalty as real);
  }

  method IoiParticipation(start: real, problems: seq<ContestProblem>, table: seq<Sub>, cut: Option<real>)
    returns (s: Standing)
    ensures s == StandingOf(Ioi, start, problems, table, cut)
  {
    var total := 0.0;
    for k := 0 to |problems|
      invariant total == ScoreSum(Ioi, start, problems[..k], table, cut)
    {
      assert problems[..k + 1][..k] == problems[..k];
      var r := IoiProblem(Query(table, problems[k].problem, cut));
      total := total + r.points;
    }
    assert problems[..|problems|] == problems;
    s := Standing(total, 0.0, 0.0);
  }

  method AtCoderParticipation(start: real, penaltyMinutes: nat, problems: seq<ContestProblem>, table: seq<Sub>,
      cut: Option<real>)
    returns (s: Standing)
    ensures s == StandingOf(AtCoder(penaltyMinutes), start, problems, table, cut)
  {
    var total, wrong: nat, lastAc := 0.0, 0, 0;
    for k := 0 to |problems|
      invariant total == ScoreSum(AtCoder(penaltyMinutes), start, problems[..k], table, cut)
      invariant wrong == SolvedWrong(start, problems[..k], table, cut)
      invariant lastAc == LastFirstAccept(start, problems[..k], table, cut)
    {
      assert problems[..k + 1][..k] == problems[..k];
      var r := AtCoderProblem(start, problems[k].points, Query(table, problems[k].problem, cut));
      if r.solved {
        total := total + problems[k].points;
        wrong := wrong + r.wrong;
        lastAc := MaxInt(lastAc, r.acMinutes);
      }
    }
    assert problems[..|problems|] == problems;
    var penalty := lastAc + wrong * penaltyMinutes;
    s := Standing(total, penalty as real, 60.0 * penalty as real);
  }

  method EcooParticipation(start: real, tries: nat, problems: seq<ContestProblem>, table: seq<Sub>, cut: Option<real>)
    returns (s: Standing)
    ensures s == StandingOf(Ecoo(tries), start, problems, table, cut)
  {
    var solved := 0;
    for k := 0 to |problems|
      invariant solved as real == ScoreSum(Ecoo(tries), start, problems[..k], table, cut)
    {
      assert problems[..k + 1][..k] == problems[..k];
      var r := EcooOf(tries, Query(table, problems[k].problem, cut));
      solved := solved + if r.solved then 1 else 0;
    }
    assert problems[..|problems|] == problems;
    s := Standing(solved as real, 0.0, 0.0);
  }

  method CalculateParticipation(f: Format, start: real, problems: seq<ContestProblem>, table: seq<Sub>,
      cut: Option<real>)
    returns (s: Standing)
    ensures s == StandingOf(f, start, problems, table, cut)
  {
    match f {
      case Default => s := DefaultParticipation(start, problems, table, cut);
      case Icpc(w) => s := IcpcParticipation(start, w, problems, table, cut);
      case Ioi => s := IoiParticipation(start, problems, table, cut);
      case AtCoder(penalty) => s := AtCoderParticipation(start, penalty, problems, table, cut);
      case Ecoo(tries) => s := EcooParticipation(start, tries, problems, table, cut);
    }
  }
}
