/** What one more submission does to a standing, in each of the five formats. */
module ContestScores {
  import opened Options
  import opened Sums
  import opened Scoring
  import opened ContestFormats
  import opened ContestStandings

  // ----- the query

  /** In the list of a problem, made no later than the cut-off. */
  predicate Listed(s: Sub, problem: nat, cut: Option<real>) {
    s.problem == problem && (cut.Some? ==> s.createdAt <= cut.value)
  }

  lemma {:induction false} QueryConcat(a: seq<Sub>, b: seq<Sub>, problem: nat, cut: Option<real>)
    ensures Query(a + b, problem, cut) == Query(a, problem, cut) + Query(b, problem, cut)
  {
    if b == [] {
      assert a + b == a;
    } else {
      assert (a + b)[..|a + b| - 1] == a + b[..|b| - 1];
      QueryConcat(a, b[..|b| - 1], problem, cut);
    }
  }

  lemma QueryOne(s: Sub, problem: nat, cut: Option<real>)
    ensures Query([s], problem, cut) == if Listed(s, problem, cut) then [s] else []
  {
    assert [s][..0] == [];
    assert Query([s][..0], problem, cut) == [];
  }

  /** One more submission between two lists. */
  lemma QueryAround(a: seq<Sub>, s: Sub, b: seq<Sub>, problem: nat, cut: Option<real>)
    ensures Query(a + b, problem, cut) == Query(a, problem, cut) + Query(b, problem, cut)
    ensures Query(a + [s] + b, problem, cut) ==
      Query(a, problem, cut) + (if Listed(s, problem, cut) then [s] else []) + Query(b, problem, cut)
  {
    QueryConcat(a, b, problem, cut);
    QueryConcat(a + [s], b, problem, cut);
    QueryConcat(a, [s], problem, cut);
    QueryOne(s, problem, cut);
  }

  // ----- one problem among others

  /** Problem k of the contest, which no other place of the list repeats. */
  predicate Once(problems: seq<ContestProblem>, k: nat) {
    k < |problems| && forall j | 0 <= j < |problems| && j != k :: problems[j].problem != problems[k].problem
  }

  /** The tables list the same submissions for every problem but the one at k. */
  predicate SameElsewhere(problems: seq<ContestProblem>, t: seq<Sub>, u: seq<Sub>, cut: Option<real>, k: nat) {
    forall j | 0 <= j < |problems| && j != k :: Query(t, problems[j].problem, cut) == Query(u, problems[j].problem, cut)
  }

  /** The sums over one problem more. */
  lemma SumsSnoc(f: Format, start: real, w: int, problems: seq<ContestProblem>, t: seq<Sub>, cut: Option<real>)
    requires problems != []
    ensures var n := |problems| - 1;
      var front, x := problems[..n], Query(t, problems[n].problem, cut);
      && ScoreSum(f, start, problems, t, cut) ==
           ScoreSum(f, start, front, t, cut) + ProblemScore(f, start, problems[n], x)
      && PenaltySum(start, w, problems, t, cut) == PenaltySum(start, w, front, t, cut) + IcpcOf(start, w, x).penalty
      && SolvedWrong(start, problems, t, cut) ==
           SolvedWrong(start, front, t, cut) + SolvedTries(start, problems[n].points, x)
      && LastAccept(start, problems, t, cut) == MaxOf(LastAccept(start, front, t, cut), DefaultOf(start, x).acSeconds)
      && LastFirstAccept(start, problems, t, cut) ==
           Later(LastFirstAccept(start, front, t, cut), AtCoderOf(start, problems[n].points, x))
  {
    hide Query, ProblemScore, IcpcOf, AtCoderOf, DefaultOf;
  }

  /** The later of a minute and a first accept, if there is one. */
  function Later(minute: int, r: AtCoderResult): int {
    if r.solved && r.acMinutes > minute then r.acMinutes else minute
  }

  /** The sums over the problems differ by what the one problem contributes. */
  lemma {:induction false} OneProblem(f: Format, start: real, w: int, problems: seq<ContestProblem>, t: seq<Sub>,
      u: seq<Sub>, cut: Option<real>, k: nat)
    requires k < |problems| && SameElsewhere(problems, t, u, cut, k)
    ensures var p := problems[k];
      var x, y := Query(t, p.problem, cut), Query(u, p.problem, cut);
      && ScoreSum(f, start, problems, u, cut) - ScoreSum(f, start, problems, t, cut) ==
           ProblemScore(f, start, p, y) - ProblemScore(f, start, p, x)
      && PenaltySum(start, w, problems, u, cut) - PenaltySum(start, w, problems, t, cut) ==
           IcpcOf(start, w, y).penalty - IcpcOf(start, w, x).penalty
      && SolvedWrong(start, problems, u, cut) - SolvedWrong(start, problems, t, cut) ==
           SolvedTries(start, p.points, y) - SolvedTries(start, p.points, x)
  {
    hide *;
    var n := |problems| - 1;
    var front := problems[..n];
    SumsSnoc(f, start, w, problems, t, cut);
    SumsSnoc(f, start, w, problems, u, cut);
    Front(problems, t, u, cut, k);
    if k == n {
      SameSums(f, start, w, front, t, u, cut);
    } else {
      OneProblem(f, start, w, front, t, u, cut, k);
    }
  }

  lemma Front(problems: seq<ContestProblem>, t: seq<Sub>, u: seq<Sub>, cut: Option<real>, k: nat)
    requires k < |problems| && SameElsewhere(problems, t, u, cut, k)
    ensures var n := |problems| - 1;
      && (k == n ==> forall p | p in problems[..n] :: Query(t, p.problem, cut) == Query(u, p.problem, cut))
      && (k < n ==> SameElsewhere(problems[..n], t, u, cut, k))
      && (k < n ==> Query(t, problems[n].problem, cut) == Query(u, problems[n].problem, cut))
  {
    hide Query;
  }

  lemma MaxSwap(a: real, b: real, c: real)
    ensures MaxOf(MaxOf(a, c), b) == MaxOf(MaxOf(a, b), c) && MaxOf(a, MaxOf(b, c)) == MaxOf(MaxOf(a, b), c)
  {
  }

  lemma LaterSwap(a: int, m: int, r: AtCoderResult)
    ensures Later(MaxInt(a, m), r) == MaxInt(Later(a, r), m)
  {
  }

  /** What the one problem does to the latest first accept. */
  predicate Raises(r: AtCoderResult, q: AtCoderResult, minute: int) {
    !r.solved && q.solved && q.acMinutes == minute
  }

  lemma LaterRaised(a: int, r: AtCoderResult, q: AtCoderResult, minute: int)
    requires Raises(r, q, minute)
    ensures Later(a, q) == MaxInt(Later(a, r), minute)
  {
  }

  /** The latest first accept moves to that of the one problem, if it is later than before. */
  lemma {:induction false} OneLatest(start: real, problems: seq<ContestProblem>, t: seq<Sub>, u: seq<Sub>,
      cut: Option<real>, k: nat, minute: int)
    requires k < |problems| && SameElsewhere(problems, t, u, cut, k)
    requires Raises(AtCoderOf(start, problems[k].points, Query(t, problems[k].problem, cut)),
      AtCoderOf(start, problems[k].points, Query(u, problems[k].problem, cut)), minute)
    ensures LastFirstAccept(start, problems, u, cut) == MaxInt(LastFirstAccept(start, problems, t, cut), minute)
  {
    hide *;
    var n := |problems| - 1;
    var front := problems[..n];
    SumsSnoc(Default, start, 0, problems, t, cut);
    SumsSnoc(Default, start, 0, problems, u, cut);
    Front(problems, t, u, cut, k);
    var r, q := AtCoderOf(start, problems[n].points, Query(t, problems[n].problem, cut)),
      AtCoderOf(start, problems[n].points, Query(u, problems[n].problem, cut));
    if k == n {
      LaterRaised(LastFirstAccept(start, front, t, cut), r, q, minute);
      SameSums(Default, start, 0, front, t, u, cut);
    } else {
      OneLatest(start, front, t, u, cut, k, minute);
      LaterSwap(LastFirstAccept(start, front, t, cut), minute, r);
    }
  }

  function SolvedTries(start: real, points: real, subs: seq<Sub>): int {
    var r := AtCoderOf(start, points, subs);
    if r.solved then r.wrong else 0
  }

  lemma {:induction false} SameSums(f: Format, start: real, w: int, problems: seq<ContestProblem>, t: seq<Sub>,
      u: seq<Sub>, cut: Option<real>)
    requires forall p | p in problems :: Query(t, p.problem, cut) == Query(u, p.problem, cut)
    ensures ScoreSum(f, start, problems, u, cut) == ScoreSum(f, start, problems, t, cut)
    ensures PenaltySum(start, w, problems, u, cut) == PenaltySum(start, w, problems, t, cut)
    ensures SolvedWrong(start, problems, u, cut) == SolvedWrong(start, problems, t, cut)
    ensures LastAccept(start, problems, u, cut) == LastAccept(start, problems, t, cut)
    ensures LastFirstAccept(start, problems, u, cut) == LastFirstAccept(start, problems, t, cut)
  {
    hide Query, ProblemScore, IcpcOf, AtCoderOf, DefaultOf;
    if problems == [] {
    } else {
      assert problems[|problems| - 1] in problems;
      SameSums(f, start, w, problems[..|problems| - 1], t, u, cut);
    }
  }

  /** Adding a submission to problem k leaves the lists of all others alone. */
  lemma OthersSame(problems: seq<ContestProblem>, a: seq<Sub>, s: Sub, b: seq<Sub>, cut: Option<real>, k: nat)
    requires Once(problems, k) && s.problem == problems[k].problem
    ensures SameElsewhere(problems, a + b, a + [s] + b, cut, k)
  {
    forall j | 0 <= j < |problems| && j != k
      ensures Query(a + b, problems[j].problem, cut) == Query(a + [s] + b, problems[j].problem, cut)
    {
      QueryAround(a, s, b, problems[j].problem, cut);
      assert Query(a, problems[j].problem, cut) + [] == Query(a, problems[j].problem, cut);
    }
  }

  // ----- vocabulary of the laws

  predicate Solves(s: Sub) { s.result == Some(AC) }

  predicate Solved(subs: seq<Sub>) {
    exists s | s in subs :: Solves(s)
  }

  /** Whole minutes from the start; before the start counts as none. */
  function MinuteOf(start: real, s: Sub): int {
    if s.createdAt <= start then 0 else ((s.createdAt - start) / 60.0).Floor
  }

  function SecondOf(start: real, s: Sub): real {
    if s.createdAt <= start then 0.0 else s.createdAt - start
  }

  lemma MinutesAre(start: real, s: Sub)
    ensures Minutes(start, s) == MinuteOf(start, s) && Seconds(start, s) == SecondOf(start, s)
  {
  }

  /** The submissions that cost a team in ICPC: judged wrong or not judged, but no compile or internal error. */
  predicate Costs(s: Sub) {
    s.result != Some(AC) && s.result != Some(CE) && s.result != Some(IE)
  }

  function Costing(subs: seq<Sub>): set<nat> {
    set i: nat | i < |subs| && Costs(subs[i])
  }

  lemma {:induction false} TriesCount(subs: seq<Sub>)
    requires !Solved(subs)
    ensures Tries(subs) == |Costing(subs)|
  {
    if subs == [] {
      assert Costing(subs) == {};
    } else {
      var k := |subs| - 1;
      assert subs[k] in subs && forall s | s in subs[..k] :: s in subs;
      assert !Solves(subs[k]) && !Solved(subs[..k]);
      hide Solved;
      TriesCount(subs[..k]);
      assert Costing(subs) == Costing(subs[..k]) + if Costs(subs[k]) then {k} else {};
    }
  }

  lemma NoAccept(subs: seq<Sub>)
    ensures FirstAccept(subs).None? <==> !Solved(subs)
  {
    if FirstAccept(subs).Some? {
      assert subs[FirstAccept(subs).value] in subs;
    }
  }

  /** Where the first accept is, when the list before it has none. */
  lemma {:induction false} FirstAcceptAt(a: seq<Sub>, b: seq<Sub>)
    requires !Solved(a)
    ensures FirstAccept(a + b) == match FirstAccept(b) case None => None case Some(i) => Some(|a| + i)
  {
    if a == [] {
      assert a + b == b;
    } else {
      assert a[0] in a && forall s | s in a[1..] :: s in a;
      assert (a + b)[1..] == a[1..] + b;
      FirstAcceptAt(a[1..], b);
    }
  }

  lemma FirstAcceptStays(a: seq<Sub>, b: seq<Sub>)
    requires Solved(a)
    ensures FirstAccept(a + b) == FirstAccept(a) && FirstAccept(a).Some?
  {
    NoAccept(a);
    var i := FirstAccept(a).value;
    assert (a + b)[i] == a[i];
    assert forall k | 0 <= k < i :: (a + b)[k] == a[k];
    FirstIs(a + b, i);
    hide FirstAccept;
  }

  lemma FirstIs(subs: seq<Sub>, i: nat)
    requires i < |subs| && Accepted(subs[i]) && forall k | 0 <= k < i :: !Accepted(subs[k])
    ensures FirstAccept(subs) == Some(i)
  {
  }

  lemma {:induction false} TriesConcat(a: seq<Sub>, b: seq<Sub>)
    ensures Tries(a + b) == Tries(a) + Tries(b)
  {
    if b == [] {
      assert a + b == a;
    } else {
      assert (a + b)[..|a + b| - 1] == a + b[..|b| - 1];
      TriesConcat(a, b[..|b| - 1]);
    }
  }

  lemma TriesOne(s: Sub)
    requires !Solves(s)
    ensures Tries([s]) == if Costs(s) then 1 else 0
  {
    assert [s][..0] == [];
    assert Tries([s][..0]) == 0;
  }

  // ----- ICPC

  /** One more submission that solves nothing, somewhere in the list of a problem. */
  lemma IcpcTry(start: real, w: int, a: seq<Sub>, s: Sub, b: seq<Sub>)
    requires !Solves(s)
    ensures var x, y := IcpcOf(start, w, a + b), IcpcOf(start, w, a + [s] + b);
      y.points == x.points &&
      y.penalty - x.penalty == if !Solved(a) && Solved(b) && Costs(s) then w else 0
  {
    hide FirstAccept, Tries;
    if Solved(a) {
      FirstAcceptStays(a, b);
      FirstAcceptStays(a, [s] + b);
      assert a + [s] + b == a + ([s] + b);
      var i := FirstAccept(a).value;
      assert (a + b)[..i] == a[..i] == (a + [s] + b)[..i];
    } else {
      NoAccept(a);
      NoAccept(b);
      FirstAcceptAt(a, b);
      Unsolved(a, s);
      FirstAcceptAt(a + [s], b);
      if FirstAccept(b).Some? {
        var i := FirstAccept(b).value;
        assert (a + b)[..|a| + i] == a + b[..i];
        assert (a + [s] + b)[..|a| + 1 + i] == a + [s] + b[..i];
        TriesConcat(a, b[..i]);
        TriesConcat(a + [s], b[..i]);
        TriesConcat(a, [s]);
        TriesOne(s);
        WrongCosts(Tries(a + b[..i]), w);
      }
    }
  }

  lemma WrongCosts(tries: nat, w: int)
    ensures (tries + 1) * w == tries * w + w
  {
  }

  lemma Unsolved(a: seq<Sub>, s: Sub)
    requires !Solved(a) && !Solves(s)
    ensures !Solved(a + [s])
  {
  }

  /** A first accept: one point, its minute, and the cost of every try before it. */
  lemma IcpcAccept(start: real, w: int, a: seq<Sub>, s: Sub, b: seq<Sub>)
    requires !Solved(a) && Solves(s)
    ensures IcpcOf(start, w, a).points == 0.0 && IcpcOf(start, w, a).penalty == 0
    ensures var y := IcpcOf(start, w, a + [s] + b);
      y.points == 1.0 && y.penalty == MinuteOf(start, s) + |Costing(a)| * w
  {
    NoAccept(a);
    FirstAcceptAt(a, [s] + b);
    assert a + [s] + b == a + ([s] + b);
    assert ([s] + b)[0] == s;
    FirstIs([s] + b, 0);
    MinutesAre(start, s);
    TriesCount(a);
    hide FirstAccept, Tries, Minutes;
    assert (a + [s] + b)[..|a|] == a;
  }

  /**
   * One more submission of a team that is not accepted: nothing but the tiebreaker can change, and it rises
   * by exactly the cost of a wrong try when the problem is solved later and the try counts.
   */
  lemma IcpcWrongTry(start: real, w: int, problems: seq<ContestProblem>, k: nat, a: seq<Sub>, s: Sub, b: seq<Sub>,
      cut: Option<real>)
    requires Once(problems, k) && Listed(s, problems[k].problem, cut) && !Solves(s)
    ensures var before, after := StandingOf(Icpc(w), start, problems, a + b, cut),
        StandingOf(Icpc(w), start, problems, a + [s] + b, cut);
      var p := problems[k].problem;
      && after.score == before.score
      && after.tiebreaker - before.tiebreaker ==
           (if !Solved(Query(a, p, cut)) && Solved(Query(b, p, cut)) && Costs(s) then w else 0) as real
      && after.cumulativeTime == 60.0 * after.tiebreaker
  {
    var p := problems[k].problem;
    OthersSame(problems, a, s, b, cut, k);
    OneProblem(Icpc(w), start, w, problems, a + b, a + [s] + b, cut, k);
    QueryAround(a, s, b, p, cut);
    IcpcTry(start, w, Query(a, p, cut), s, Query(b, p, cut));
    hide ScoreSum, PenaltySum, Query, IcpcOf, Solved, Costs, LastAccept, SolvedWrong, LastFirstAccept, Once, SameElsewhere;
  }

  /** A first accept of a problem: one more solved, its minute, and the cost of the tries before it. */
  lemma IcpcFirstAccept(start: real, w: int, problems: seq<ContestProblem>, k: nat, a: seq<Sub>, s: Sub,
      cut: Option<real>)
    requires Once(problems, k) && Listed(s, problems[k].problem, cut) && Solves(s)
    requires !Solved(Query(a, problems[k].problem, cut))
    ensures var before, after := StandingOf(Icpc(w), start, problems, a, cut),
        StandingOf(Icpc(w), start, problems, a + [s], cut);
      && after.score == before.score + 1.0
      && after.tiebreaker ==
           before.tiebreaker + (MinuteOf(start, s) + |Costing(Query(a, problems[k].problem, cut))| * w) as real
  {
    var p := problems[k].problem;
    assert a + [] == a && a + [s] + [] == a + [s];
    OthersSame(problems, a, s, [], cut, k);
    OneProblem(Icpc(w), start, w, problems, a, a + [s], cut, k);
    QueryAround(a, s, [], p, cut);
    assert Query([], p, cut) == [];
    var x := Query(a, p, cut);
    assert x + [s] + [] == x + [s];
    IcpcAccept(start, w, x, s, []);
    hide ScoreSum, PenaltySum, Query, IcpcOf, Solved, Costing, LastAccept, SolvedWrong, LastFirstAccept, Once,
      SameElsewhere, MinuteOf;
  }

  // ----- AtCoder

  /** The result of one problem before and after one more submission that solves nothing. */
  lemma AtCoderTry(start: real, points: real, a: seq<Sub>, s: Sub, b: seq<Sub>)
    requires !Solves(s)
    ensures var x, y := AtCoderOf(start, points, a + b), AtCoderOf(start, points, a + [s] + b);
      && y.points == x.points && SameAccept(x, y)
      && SolvedTries(start, points, a + [s] + b) - SolvedTries(start, points, a + b) ==
           if !Solved(a) && Solved(b) then 1 else 0
  {
    hide FirstAccept, Minutes;
    NoAccept(a);
    NoAccept(b);
    if Solved(a) {
      FirstAcceptStays(a, b);
      FirstAcceptStays(a, [s] + b);
      assert a + [s] + b == a + ([s] + b);
    } else {
      FirstAcceptAt(a, b);
      Unsolved(a, s);
      FirstAcceptAt(a + [s], b);
    }
  }

  lemma AtCoderAccept(start: real, points: real, a: seq<Sub>, s: Sub)
    requires !Solved(a) && Solves(s)
    ensures AtCoderOf(start, points, a).points == 0.0 && SolvedTries(start, points, a) == 0
    ensures AtCoderOf(start, points, a + [s]).points == points && SolvedTries(start, points, a + [s]) == |a|
    ensures Raises(AtCoderOf(start, points, a), AtCoderOf(start, points, a + [s]), MinuteOf(start, s))
  {
    NoAccept(a);
    FirstAcceptAt(a, [s]);
    FirstIs([s], 0);
    MinutesAre(start, s);
    hide FirstAccept, Minutes;
  }

  /** The tiebreaker without any cost of wrong tries: the minute of the latest first accept. */
  function LatestSolved(start: real, problems: seq<ContestProblem>, t: seq<Sub>, cut: Option<real>): real {
    StandingOf(AtCoder(0), start, problems, t, cut).tiebreaker
  }

  lemma AtCoderStanding(start: real, penalty: nat, problems: seq<ContestProblem>, t: seq<Sub>, cut: Option<real>)
    ensures var s := StandingOf(AtCoder(penalty), start, problems, t, cut);
      && s.score == ScoreSum(AtCoder(penalty), start, problems, t, cut)
      && s.tiebreaker == (LastFirstAccept(start, problems, t, cut) + Cost(SolvedWrong(start, problems, t, cut), penalty)) as real
      && s.cumulativeTime == 60.0 * s.tiebreaker
    ensures LatestSolved(start, problems, t, cut) == LastFirstAccept(start, problems, t, cut) as real
  {
    hide ScoreSum, LastFirstAccept, SolvedWrong;
  }

  function Cost(tries: int, penalty: nat): int { tries * penalty }

  lemma CostAdds(tries: int, more: int, penalty: nat)
    ensures Cost(tries + more, penalty) == Cost(tries, penalty) + Cost(more, penalty)
  {
  }

  lemma CostOfFew(penalty: nat)
    ensures Cost(1, penalty) == penalty && Cost(0, penalty) == 0
  {
  }

  /**
   * One more submission that is not accepted: nothing but the tiebreaker can change, and it rises by exactly
   * the penalty when the problem is solved later, compile errors included.
   */
  lemma AtCoderWrongTry(start: real, penalty: nat, problems: seq<ContestProblem>, k: nat, a: seq<Sub>, s: Sub,
      b: seq<Sub>, cut: Option<real>)
    requires Once(problems, k) && Listed(s, problems[k].problem, cut) && !Solves(s)
    ensures var before, after := StandingOf(AtCoder(penalty), start, problems, a + b, cut),
        StandingOf(AtCoder(penalty), start, problems, a + [s] + b, cut);
      var p := problems[k].problem;
      && after.score == before.score
      && after.tiebreaker - before.tiebreaker ==
           (if !Solved(Query(a, p, cut)) && Solved(Query(b, p, cut)) then penalty else 0) as real
      && after.cumulativeTime == 60.0 * after.tiebreaker
  {
    assert k < |problems|;
    hide *;
    var p, t, u := problems[k], a + b, a + [s] + b;
    var x, y := Query(a, p.problem, cut), Query(b, p.problem, cut);
    Apart(problems, a, s, b, cut, k);
    AtCoderTry(start, p.points, x, s, y);
    AtCoderScore(start, penalty, p, x + y);
    AtCoderScore(start, penalty, p, x + [s] + y);
    OneProblem(AtCoder(penalty), start, 0, problems, t, u, cut, k);
    SameLatest(start, problems, t, u, cut, k);
    AtCoderStanding(start, penalty, problems, t, cut);
    AtCoderStanding(start, penalty, problems, u, cut);
    TieRises(LastFirstAccept(start, problems, t, cut), SolvedWrong(start, problems, t, cut),
      SolvedWrong(start, problems, u, cut), penalty);
  }

  lemma TieRises(latest: int, before: int, after: int, penalty: nat)
    requires after == before || after == before + 1
    ensures (latest + Cost(after, penalty)) as real - (latest + Cost(before, penalty)) as real ==
      (if after == before + 1 then penalty else 0) as real
  {
    CostAdds(before, 1, penalty);
    CostOfFew(penalty);
    hide Cost;
  }

  /** Adding to problem k between two lists. */
  lemma Apart(problems: seq<ContestProblem>, a: seq<Sub>, s: Sub, b: seq<Sub>, cut: Option<real>, k: nat)
    requires Once(problems, k) && Listed(s, problems[k].problem, cut)
    ensures k < |problems| && SameElsewhere(problems, a + b, a + [s] + b, cut, k)
    ensures var p := problems[k].problem;
      && Query(a + b, p, cut) == Query(a, p, cut) + Query(b, p, cut)
      && Query(a + [s] + b, p, cut) == Query(a, p, cut) + [s] + Query(b, p, cut)
  {
    OthersSame(problems, a, s, b, cut, k);
    QueryAround(a, s, b, problems[k].problem, cut);
  }

  lemma AtCoderScore(start: real, penalty: nat, p: ContestProblem, x: seq<Sub>)
    ensures ProblemScore(AtCoder(penalty), start, p, x) == AtCoderOf(start, p.points, x).points
  {
    hide AtCoderOf;
  }

  /** The latest first accept depends on the first accepts alone. */
  lemma {:induction false} SameLatest(start: real, problems: seq<ContestProblem>, t: seq<Sub>, u: seq<Sub>,
      cut: Option<real>, k: nat)
    requires k < |problems| && SameElsewhere(problems, t, u, cut, k)
    requires SameAccept(AtCoderOf(start, problems[k].points, Query(t, problems[k].problem, cut)),
      AtCoderOf(start, problems[k].points, Query(u, problems[k].problem, cut)))
    ensures LastFirstAccept(start, problems, u, cut) == LastFirstAccept(start, problems, t, cut)
  {
    hide *;
    var n := |problems| - 1;
    var front := problems[..n];
    SumsSnoc(Default, start, 0, problems, t, cut);
    SumsSnoc(Default, start, 0, problems, u, cut);
    Front(problems, t, u, cut, k);
    var r, q := AtCoderOf(start, problems[n].points, Query(t, problems[n].problem, cut)),
      AtCoderOf(start, problems[n].points, Query(u, problems[n].problem, cut));
    if k == n {
      LaterSame(LastFirstAccept(start, front, t, cut), r, q);
      SameSums(Default, start, 0, front, t, u, cut);
    } else {
      SameLatest(start, front, t, u, cut, k);
    }
  }

  predicate SameAccept(r: AtCoderResult, q: AtCoderResult) {
    r.solved == q.solved && r.acMinutes == q.acMinutes
  }

  lemma LaterSame(a: int, r: AtCoderResult, q: AtCoderResult)
    requires SameAccept(r, q)
    ensures Later(a, q) == Later(a, r)
  {
  }

  /**
   * A first accept: the points of the problem, the latest accept moves to it if it is later, and every
   * earlier try of the problem costs the penalty.
   */
  lemma AtCoderFirstAccept(start: real, penalty: nat, problems: seq<ContestProblem>, k: nat, a: seq<Sub>, s: Sub,
      cut: Option<real>)
    requires Once(problems, k) && Listed(s, problems[k].problem, cut) && Solves(s)
    requires !Solved(Query(a, problems[k].problem, cut))
    ensures var before, after := StandingOf(AtCoder(penalty), start, problems, a, cut),
        StandingOf(AtCoder(penalty), start, problems, a + [s], cut);
      var earlier, latest := LatestSolved(start, problems, a, cut), LatestSolved(start, problems, a + [s], cut);
      && after.score == before.score + problems[k].points
      && latest == MaxOf(earlier, MinuteOf(start, s) as real)
      && after.tiebreaker - latest ==
           before.tiebreaker - earlier + Cost(|Query(a, problems[k].problem, cut)|, penalty) as real
  {
    hide *;
    AcceptNumbers(start, penalty, problems, k, a, s, cut);
    AtCoderStanding(start, penalty, problems, a, cut);
    AtCoderStanding(start, penalty, problems, a + [s], cut);
    TieMoves(LastFirstAccept(start, problems, a, cut), MinuteOf(start, s), SolvedWrong(start, problems, a, cut),
      |Query(a, problems[k].problem, cut)|, penalty);
  }

  lemma AcceptNumbers(start: real, penalty: nat, problems: seq<ContestProblem>, k: nat, a: seq<Sub>, s: Sub,
      cut: Option<real>)
    requires Once(problems, k) && Listed(s, problems[k].problem, cut) && Solves(s)
    requires !Solved(Query(a, problems[k].problem, cut))
    ensures k < |problems|
    ensures ScoreSum(AtCoder(penalty), start, problems, a + [s], cut) ==
      ScoreSum(AtCoder(penalty), start, problems, a, cut) + problems[k].points
    ensures LastFirstAccept(start, problems, a + [s], cut) ==
      MaxInt(LastFirstAccept(start, problems, a, cut), MinuteOf(start, s))
    ensures SolvedWrong(start, problems, a + [s], cut) ==
      SolvedWrong(start, problems, a, cut) + |Query(a, problems[k].problem, cut)|
  {
    hide *;
    AddedLast(problems, a, s, cut, k);
    var p, u := problems[k], a + [s];
    var x := Query(a, p.problem, cut);
    AtCoderAccept(start, p.points, x, s);
    AtCoderScore(start, penalty, p, x);
    AtCoderScore(start, penalty, p, x + [s]);
    OneProblem(AtCoder(penalty), start, 0, problems, a, u, cut, k);
    OneLatest(start, problems, a, u, cut, k, MinuteOf(start, s));
  }

  lemma TieMoves(latest: int, minute: int, before: int, more: int, penalty: nat)
    ensures MaxInt(latest, minute) as real == MaxOf(latest as real, minute as real)
    ensures (MaxInt(latest, minute) + Cost(before + more, penalty)) as real - MaxInt(latest, minute) as real ==
      (latest + Cost(before, penalty)) as real - latest as real + Cost(more, penalty) as real
  {
    CostAdds(before, more, penalty);
    hide Cost;
  }

  /** Appending to problem k. */
  lemma AddedLast(problems: seq<ContestProblem>, a: seq<Sub>, s: Sub, cut: Option<real>, k: nat)
    requires Once(problems, k) && Listed(s, problems[k].problem, cut)
    ensures k < |problems| && SameElsewhere(problems, a, a + [s], cut, k)
    ensures Query(a + [s], problems[k].problem, cut) == Query(a, problems[k].problem, cut) + [s]
  {
    OthersSame(problems, a, s, [], cut, k);
    QueryAround(a, s, [], problems[k].problem, cut);
    assert a + [] == a && a + [s] + [] == a + [s];
    assert Query([], problems[k].problem, cut) == [];
    var x := Query(a, problems[k].problem, cut);
    assert x + [] == x && x + [s] + [] == x + [s];
  }

  /** Once a problem is solved, nothing submitted to it later changes an ICPC standing. */
  lemma IcpcSolvedStays(start: real, w: int, problems: seq<ContestProblem>, k: nat, a: seq<Sub>, s: Sub, cut: Option<real>)
    requires Once(problems, k) && Listed(s, problems[k].problem, cut) && Solved(Query(a, problems[k].problem, cut))
    ensures StandingOf(Icpc(w), start, problems, a + [s], cut) == StandingOf(Icpc(w), start, problems, a, cut)
  {
    hide *;
    AddedLast(problems, a, s, cut, k);
    SolvedResults(start, w, 0, problems[k], Query(a, problems[k].problem, cut), s);
    OneProblem(Icpc(w), start, w, problems, a, a + [s], cut, k);
    IcpcStanding(start, w, problems, a, cut);
    IcpcStanding(start, w, problems, a + [s], cut);
  }

  /** Nor an AtCoder standing. */
  lemma AtCoderSolvedStays(start: real, penalty: nat, problems: seq<ContestProblem>, k: nat, a: seq<Sub>, s: Sub,
      cut: Option<real>)
    requires Once(problems, k) && Listed(s, problems[k].problem, cut) && Solved(Query(a, problems[k].problem, cut))
    ensures StandingOf(AtCoder(penalty), start, problems, a + [s], cut) ==
      StandingOf(AtCoder(penalty), start, problems, a, cut)
  {
    hide *;
    AddedLast(problems, a, s, cut, k);
    SolvedResults(start, 0, penalty, problems[k], Query(a, problems[k].problem, cut), s);
    OneProblem(AtCoder(penalty), start, 0, problems, a, a + [s], cut, k);
    SameLatest(start, problems, a, a + [s], cut, k);
    AtCoderStanding(start, penalty, problems, a, cut);
    AtCoderStanding(start, penalty, problems, a + [s], cut);
    SameStanding(StandingOf(AtCoder(penalty), start, problems, a, cut),
      StandingOf(AtCoder(penalty), start, problems, a + [s], cut));
  }

  lemma SameStanding(x: Standing, y: Standing)
    requires x.score == y.score && x.tiebreaker == y.tiebreaker && x.cumulativeTime == y.cumulativeTime
    ensures x == y
  {
  }

  lemma IcpcStanding(start: real, w: int, problems: seq<ContestProblem>, t: seq<Sub>, cut: Option<real>)
    ensures var minutes := PenaltySum(start, w, problems, t, cut);
      StandingOf(Icpc(w), start, problems, t, cut) ==
        Standing(ScoreSum(Icpc(w), start, problems, t, cut), minutes as real, 60.0 * minutes as real)
  {
    hide ScoreSum, PenaltySum;
  }

  lemma SolvedResults(start: real, w: int, penalty: nat, p: ContestProblem, x: seq<Sub>, s: Sub)
    requires Solved(x)
    ensures ProblemScore(Icpc(w), start, p, x + [s]) == ProblemScore(Icpc(w), start, p, x)
    ensures ProblemScore(AtCoder(penalty), start, p, x + [s]) == ProblemScore(AtCoder(penalty), start, p, x)
    ensures IcpcOf(start, w, x + [s]) == IcpcOf(start, w, x)
    ensures AtCoderOf(start, p.points, x + [s]) == AtCoderOf(start, p.points, x)
    ensures SameAccept(AtCoderOf(start, p.points, x), AtCoderOf(start, p.points, x + [s]))
    ensures SolvedTries(start, p.points, x + [s]) == SolvedTries(start, p.points, x)
  {
    FirstAcceptStays(x, [s]);
    var i := FirstAccept(x).value;
    assert (x + [s])[..i] == x[..i] && (x + [s])[i] == x[i];
    hide FirstAccept, Tries, Minutes;
  }

  // ----- default

  /** The best points so far, nothing counting as zero. */
  predicate BestSoFar(subs: seq<Sub>, best: real) {
    && best >= 0.0 && (forall s | s in subs :: s.points <= best)
    && (best == 0.0 || exists s | s in subs :: s.points == best)
  }

  lemma BestOfPoints(subs: seq<Sub>, best: real)
    requires BestSoFar(subs, best)
    ensures Best(PointsOf(subs)) == best
  {
    var ps := PointsOf(subs);
    var b := Best(ps);
    if best != 0.0 {
      var s :| s in subs && s.points == best;
      var i :| 0 <= i < |subs| && subs[i] == s;
      assert ps[i] == best && ps[i] in ps;
    }
    if b != 0.0 {
      var i :| 0 <= i < |ps| && ps[i] == b;
      assert subs[i] in subs;
    }
  }

  lemma AcceptSeconds(start: real, x: seq<Sub>, s: Sub)
    ensures DefaultOf(start, x + [s]).points == MaxOf(DefaultOf(start, x).points, s.points)
    ensures DefaultOf(start, x + [s]).acSeconds ==
      if Solves(s) then MaxOf(DefaultOf(start, x).acSeconds, SecondOf(start, s)) else DefaultOf(start, x).acSeconds
  {
    assert PointsOf(x + [s]) == PointsOf(x) + [s.points];
    BestSnoc(PointsOf(x), s.points);
    MinutesAre(start, s);
    var time := if Solves(s) then Seconds(start, s) else 0.0;
    assert AcceptTimes(start, x + [s]) == AcceptTimes(start, x) + [time];
    BestSnoc(AcceptTimes(start, x), time);
    hide Best, Seconds;
  }

  /**
   * One more submission: the score rises to the best points of the problem, and an accept moves the
   * tiebreaker to its time if that is later.
   */
  lemma DefaultNext(start: real, problems: seq<ContestProblem>, k: nat, a: seq<Sub>, s: Sub, cut: Option<real>, best: real)
    requires Once(problems, k) && Listed(s, problems[k].problem, cut)
    requires BestSoFar(Query(a, problems[k].problem, cut), best)
    ensures var before, after := StandingOf(Default, start, problems, a, cut),
        StandingOf(Default, start, problems, a + [s], cut);
      && after.score == before.score + (if s.points > best then s.points - best else 0.0)
      && after.tiebreaker == (if Solves(s) then MaxOf(before.tiebreaker, SecondOf(start, s)) else before.tiebreaker)
      && after.cumulativeTime == after.tiebreaker
  {
    var p, u := problems[k], a + [s];
    var x := Query(a, p.problem, cut);
    AddedLast(problems, a, s, cut, k);
    AcceptSeconds(start, x, s);
    BestOfPoints(x, best);
    OneProblem(Default, start, 0, problems, a, u, cut, k);
    OneLastAccept(start, problems, a, u, cut, k, if Solves(s) then SecondOf(start, s) else 0.0);
    hide ScoreSum, PenaltySum, SolvedWrong, LastFirstAccept, LastAccept, Query, Best, PointsOf, AcceptTimes,
      Once, SameElsewhere, SecondOf, BestSoFar;
  }

  lemma {:induction false} OneLastAccept(start: real, problems: seq<ContestProblem>, t: seq<Sub>, u: seq<Sub>,
      cut: Option<real>, k: nat, seconds: real)
    requires k < |problems| && SameElsewhere(problems, t, u, cut, k)
    requires DefaultOf(start, Query(u, problems[k].problem, cut)).acSeconds ==
      MaxOf(DefaultOf(start, Query(t, problems[k].problem, cut)).acSeconds, seconds)
    ensures LastAccept(start, problems, u, cut) == MaxOf(LastAccept(start, problems, t, cut), seconds)
  {
    hide *;
    var n := |problems| - 1;
    var front := problems[..n];
    SumsSnoc(Default, start, 0, problems, t, cut);
    SumsSnoc(Default, start, 0, problems, u, cut);
    Front(problems, t, u, cut, k);
    MaxSwap(LastAccept(start, front, t, cut), DefaultOf(start, Query(t, problems[n].problem, cut)).acSeconds, seconds);
    if k == n {
      SameSums(Default, start, 0, front, t, u, cut);
    } else {
      OneLastAccept(start, front, t, u, cut, k, seconds);
    }
  }

  // ----- ECOO

  /** One more submission: one more solved exactly for a first accept among the allowed tries. */
  lemma EcooNext(start: real, tries: nat, problems: seq<ContestProblem>, k: nat, a: seq<Sub>, s: Sub, cut: Option<real>)
    requires Once(problems, k) && Listed(s, problems[k].problem, cut)
    ensures var before, after := StandingOf(Ecoo(tries), start, problems, a, cut),
        StandingOf(Ecoo(tries), start, problems, a + [s], cut);
      var x := Query(a, problems[k].problem, cut);
      && after.score == before.score + (if Solves(s) && !Solved(x) && |x| < tries then 1.0 else 0.0)
      && after.tiebreaker == 0.0 && after.cumulativeTime == 0.0
  {
    AddedLast(problems, a, s, cut, k);
    OneProblem(Ecoo(tries), start, 0, problems, a, a + [s], cut, k);
    EcooAdded(tries, Query(a, problems[k].problem, cut), s);
    hide ScoreSum, PenaltySum, SolvedWrong, LastFirstAccept, LastAccept, Query, EcooOf, Once, SameElsewhere, Solved;
  }

  lemma EcooAdded(tries: nat, x: seq<Sub>, s: Sub)
    ensures EcooOf(tries, x + [s]).points == EcooOf(tries, x).points +
      if Solves(s) && !Solved(x) && |x| < tries then 1.0 else 0.0
  {
    var first, more := if |x| <= tries then x else x[..tries], if |x + [s]| <= tries then x + [s] else (x + [s])[..tries];
    if |x| < tries {
      assert more == x + [s] && first == x;
      assert s in more && forall q | q in more :: q in x || q == s;
      assert forall q | q in x :: q in more;
      assert (exists q | q in more :: Accepted(q)) <==> Solved(x) || Solves(s);
    } else {
      assert more == first;
    }
  }

  // ----- IOI

  /** The best value so far of one subtask, nothing counting as zero. */
  predicate BestValue(items: seq<SubtaskScore>, key: string, best: real) {
    && best >= 0.0 && (forall x | x in items && x.key == key :: x.value <= best)
    && (best == 0.0 || exists x | x in items :: x.key == key && x.value == best)
  }

  lemma {:induction false} ValuesMembers(items: seq<SubtaskScore>, key: string, v: real)
    ensures v in ValuesFor(items, key) <==> exists x | x in items :: x.key == key && x.value == v
  {
    if items == [] {
    } else {
      var front, last := items[..|items| - 1], items[|items| - 1];
      assert items == front + [last];
      ValuesMembers(front, key, v);
      if x :| x in items && x.key == key && x.value == v {
        assert x in front || x == last;
      }
      if x :| x in front && x.key == key && x.value == v {
        assert x in items;
      }
      assert last in items;
    }
  }

  lemma BestOfValues(items: seq<SubtaskScore>, key: string, best: real)
    requires BestValue(items, key, best)
    ensures Best(ValuesFor(items, key)) == best
  {
    var vs := ValuesFor(items, key);
    hide ValuesFor, Best;
    ValuesMembers(items, key, best);
    ValuesMembers(items, key, Best(vs));
  }

  lemma BestValuesAt(items: seq<SubtaskScore>, i: nat)
    requires i < |Keys(items)|
    ensures BestValues(items)[i] == Best(ValuesFor(items, Keys(items)[i]))
  {
    hide Best, ValuesFor, Keys;
  }

  lemma KeyKnown(items: seq<SubtaskScore>)
    ensures forall x | x in items :: x.key in Keys(items)
  {
    forall x | x in items ensures x.key in Keys(items) {
      var i :| 0 <= i < |items| && items[i] == x;
    }
  }

  lemma KeysDistinct(items: seq<SubtaskScore>)
    ensures forall i, j | 0 <= i < |Keys(items)| && 0 <= j < |Keys(items)| && i != j :: Keys(items)[i] != Keys(items)[j]
  {
    hide Keys;
  }

  /** One more value of one subtask adds what it improves. */
  lemma ItemScore(items: seq<SubtaskScore>, item: SubtaskScore, best: real)
    requires BestValue(items, item.key, best)
    ensures Sum(BestValues(items + [item])) ==
      Sum(BestValues(items)) + if item.value > best then item.value - best else 0.0
  {
    hide *;
    var keys := Keys(items);
    var xs, ys := BestValues(items), BestValues(items + [item]);
    BestOfValues(items, item.key, best);
    KeyKnown(items);
    KeysDistinct(items);
    ItemAdded(items, item, item.key);
    forall i | 0 <= i < |keys|
      ensures ys[i] == if keys[i] == item.key then (if item.value > best then item.value else best) else xs[i]
    {
      ValueAfter(items, item, best, i);
    }
    if item.key in keys {
      var j: nat :| j < |keys| && keys[j] == item.key;
      BestValuesAt(items, j);
      SumChanged(xs, ys, j);
    } else {
      NoValue(items, item.key, best);
      BestValuesAt(items + [item], |keys|);
      LargerOf(0.0, item.value);
      assert ys == xs + [ys[|keys|]];
      SumSnoc(xs, ys[|keys|]);
    }
  }

  lemma ValueAfter(items: seq<SubtaskScore>, item: SubtaskScore, best: real, i: nat)
    requires BestValue(items, item.key, best) && i < |Keys(items)|
    ensures |BestValues(items)| == |Keys(items)| && i < |BestValues(items + [item])|
    ensures var key := Keys(items)[i];
      BestValues(items + [item])[i] ==
        if key == item.key then (if item.value > best then item.value else best) else BestValues(items)[i]
  {
    hide *;
    BestOfValues(items, item.key, best);
    ItemAdded(items, item, Keys(items)[i]);
    BestValuesAt(items, i);
    BestValuesAt(items + [item], i);
    LargerOf(best, item.value);
  }

  lemma NoValue(items: seq<SubtaskScore>, key: string, best: real)
    requires BestValue(items, key, best) && key !in Keys(items)
    ensures best == 0.0
  {
    KeyKnown(items);
    hide Keys;
  }

  lemma LargerOf(x: real, y: real)
    ensures MaxOf(x, y) == if y > x then y else x
  {
  }

  lemma {:induction false} SumChanged(xs: seq<real>, ys: seq<real>, j: nat)
    requires |xs| == |ys| && j < |xs| && forall i | 0 <= i < |xs| && i != j :: xs[i] == ys[i]
    ensures Sum(ys) == Sum(xs) + (ys[j] - xs[j])
  {
    if j == 0 {
      assert xs[1..] == ys[1..];
    } else {
      SumChanged(xs[1..], ys[1..], j - 1);
    }
  }

  lemma ItemsSnoc(x: seq<Sub>, s: Sub)
    ensures Items(x + [s]) == Items(x) + s.subtasks
    ensures PlainPoints(x + [s]) == PlainPoints(x) + if s.subtasks == [] then [s.points] else []
  {
    assert (x + [s])[..|x|] == x;
  }

  /** The submissions of a list that carry no subtasks. */
  predicate Plain(subs: seq<Sub>) {
    forall s | s in subs :: s.subtasks == []
  }

  lemma {:induction false} PlainItems(subs: seq<Sub>)
    ensures Items(subs) == [] <==> Plain(subs)
    ensures Plain(subs) ==> PlainPoints(subs) == PointsOf(subs)
  {
    if subs == [] {
    } else {
      var front, last := subs[..|subs| - 1], subs[|subs| - 1];
      assert subs == front + [last];
      PlainItems(front);
      assert last in subs;
      if Plain(subs) {
        assert forall s | s in front :: s in subs;
      }
    }
  }

  /**
   * One more submission without subtasks: the score rises to the best points as long as no submission of the
   * problem has had subtasks, and stays otherwise.
   */
  lemma IoiPlainNext(start: real, problems: seq<ContestProblem>, k: nat, a: seq<Sub>, s: Sub, cut: Option<real>, best: real)
    requires Once(problems, k) && Listed(s, problems[k].problem, cut) && s.subtasks == []
    requires BestSoFar(Query(a, problems[k].problem, cut), best)
    ensures var before, after := StandingOf(Ioi, start, problems, a, cut), StandingOf(Ioi, start, problems, a + [s], cut);
      && after.score == before.score +
           (if Plain(Query(a, problems[k].problem, cut)) && s.points > best then s.points - best else 0.0)
      && after.tiebreaker == 0.0 && after.cumulativeTime == 0.0
  {
    var x := Query(a, problems[k].problem, cut);
    AddedLast(problems, a, s, cut, k);
    OneProblem(Ioi, start, 0, problems, a, a + [s], cut, k);
    ItemsSnoc(x, s);
    PlainItems(x);
    BestOfPoints(x, best);
    BestSnoc(PlainPoints(x), s.points);
    assert Items(x) + [] == Items(x);
    IoiScore(start, problems[k], x);
    IoiScore(start, problems[k], x + [s]);
    hide ScoreSum, PenaltySum, SolvedWrong, LastFirstAccept, LastAccept, Query, Once, SameElsewhere, ProblemScore, Items,
      PlainPoints, BestValues, Best, Sum, Plain, BestSoFar, PointsOf;
  }

  lemma IoiScore(start: real, p: ContestProblem, x: seq<Sub>)
    ensures ProblemScore(Ioi, start, p, x) ==
      if Items(x) == [] then Best(PlainPoints(x)) else Sum(BestValues(Items(x)))
  {
    hide Items, PlainPoints, BestValues, Best, Sum;
  }

  /**
   * A submission with one subtask more than another: the score is higher by what the value improves on the
   * best of that subtask, earlier subtasks of the submission included. If there was no subtask before at
   * all, the score of the problem is the value, or zero, in place of the best points.
   */
  lemma IoiSubtaskNext(start: real, problems: seq<ContestProblem>, k: nat, a: seq<Sub>, s: Sub, item: SubtaskScore,
      cut: Option<real>, best: real)
    requires Once(problems, k) && Listed(s, problems[k].problem, cut)
    requires BestValue(Items(Query(a, problems[k].problem, cut)) + s.subtasks, item.key, best)
    ensures var x := Query(a, problems[k].problem, cut);
      var fewer, more := StandingOf(Ioi, start, problems, a + [s], cut),
        StandingOf(Ioi, start, problems, a + [s.(subtasks := s.subtasks + [item])], cut);
      && (Items(x) + s.subtasks != [] ==>
            more.score == fewer.score + if item.value > best then item.value - best else 0.0)
      && (Items(x) + s.subtasks == [] ==>
            forall points | BestSoFar(x + [s], points) :: more.score == fewer.score - points + MaxOf(0.0, item.value))
  {
    var p := problems[k];
    var x := Query(a, p.problem, cut);
    var t := s.(subtasks := s.subtasks + [item]);
    var items := Items(x) + s.subtasks;
    assert Listed(t, p.problem, cut);
    ItemsSnoc(x, s);
    ItemsSnoc(x, t);
    assert Items(x) + (s.subtasks + [item]) == items + [item];
    IoiStanding(start, problems, a + [s], cut);
    IoiStanding(start, problems, a + [t], cut);
    hide *;
    AddedLast(problems, a, s, cut, k);
    AddedLast(problems, a, t, cut, k);
    OneProblem(Ioi, start, 0, problems, a, a + [s], cut, k);
    OneProblem(Ioi, start, 0, problems, a, a + [t], cut, k);
    ItemScore(items, item, best);
    IoiScore(start, p, x + [s]);
    IoiScore(start, p, x + [t]);
    if items == [] {
      PlainItems(x + [s]);
      NoItems(item, best);
      LargerOf(0.0, item.value);
      forall points | BestSoFar(x + [s], points) ensures Best(PlainPoints(x + [s])) == points {
        BestOfPoints(x + [s], points);
      }
    }
  }

  lemma IoiStanding(start: real, problems: seq<ContestProblem>, t: seq<Sub>, cut: Option<real>)
    ensures StandingOf(Ioi, start, problems, t, cut) == Standing(ScoreSum(Ioi, start, problems, t, cut), 0.0, 0.0)
  {
    hide ScoreSum;
  }

  lemma NoItems(item: SubtaskScore, best: real)
    requires BestValue([], item.key, best)
    ensures best == 0.0 && Sum(BestValues([])) == 0.0
  {
  }

  /** With nothing submitted a standing is all zero, in every format. */
  lemma {:induction false} NothingSubmitted(f: Format, start: real, problems: seq<ContestProblem>, cut: Option<real>)
    ensures StandingOf(f, start, problems, [], cut) == Standing(0.0, 0.0, 0.0)
  {
    if problems == [] {
    } else {
      NothingSubmitted(f, start, problems[..|problems| - 1], cut);
    }
  }

  // ----- what is shown of one problem

  /** Attempts are all submissions; solved once an accept came after the start. */
  lemma DefaultDetails(start: real, subs: seq<Sub>)
    ensures var r := DefaultOf(start, subs);
      r.attempts == |subs| && (r.solved <==> exists s | s in subs :: Solves(s) && SecondOf(start, s) > 0.0)
  {
    var ts := AcceptTimes(start, subs);
    hide Best, Seconds;
    forall i | 0 <= i < |subs| ensures ts[i] == if Solves(subs[i]) then SecondOf(start, subs[i]) else 0.0 {
      MinutesAre(start, subs[i]);
    }
    if s :| s in subs && Solves(s) && SecondOf(start, s) > 0.0 {
      var i :| 0 <= i < |subs| && subs[i] == s;
      assert ts[i] in ts;
    }
    if Best(ts) > 0.0 {
      var i :| 0 <= i < |ts| && ts[i] == Best(ts);
      assert subs[i] in subs;
    }
  }

  /** Before an accept every counted try is one attempt; the accept is one more and ends the list. */
  lemma IcpcDetails(start: real, w: int, a: seq<Sub>, s: Sub, b: seq<Sub>)
    requires !Solved(a) && Solves(s)
    ensures var x, y := IcpcOf(start, w, a), IcpcOf(start, w, a + [s] + b);
      && !x.solved && x.attempts == x.wrong == |Costing(a)| && x.solveMinutes == 0
      && y.solved && y.attempts == |Costing(a)| + 1 && y.wrong == |Costing(a)| && y.solveMinutes == MinuteOf(start, s)
  {
    FirstAfter(a, s, b);
    NoAccept(a);
    MinutesAre(start, s);
    TriesCount(a);
    hide FirstAccept, Tries, Minutes;
    assert (a + [s] + b)[..|a|] == a;
  }

  lemma FirstAfter(a: seq<Sub>, s: Sub, b: seq<Sub>)
    requires !Solved(a) && Solves(s)
    ensures FirstAccept(a + [s] + b) == Some(|a|) && (a + [s] + b)[|a|] == s
  {
    FirstAcceptAt(a, [s] + b);
    assert a + [s] + b == a + ([s] + b);
    assert ([s] + b)[0] == s;
    FirstIs([s] + b, 0);
  }

  /** In AtCoder every submission before the accept is an attempt. */
  lemma AtCoderDetails(start: real, points: real, a: seq<Sub>, s: Sub, b: seq<Sub>)
    requires !Solved(a) && Solves(s)
    ensures var x, y := AtCoderOf(start, points, a), AtCoderOf(start, points, a + [s] + b);
      && !x.solved && x.attempts == x.wrong == |a| && x.acMinutes == 0
      && y.solved && y.attempts == |a| + 1 && y.wrong == |a| && y.acMinutes == MinuteOf(start, s)
  {
    FirstAfter(a, s, b);
    NoAccept(a);
    MinutesAre(start, s);
    hide FirstAccept, Minutes;
  }

  /** Attempts are all submissions; the best value is kept for exactly the subtasks met. */
  lemma IoiDetails(subs: seq<Sub>)
    ensures var r, items := IoiOf(subs), Items(subs);
      && r.attempts == |subs| && (r.solved <==> r.points > 0.0)
      && (forall key :: key in r.subtasks <==> exists x | x in items :: x.key == key)
      && forall key | key in r.subtasks :: BestValue(items, key, r.subtasks[key])
  {
    var r, items := IoiOf(subs), Items(subs);
    KeyKnown(items);
    assert forall key :: key in r.subtasks <==> key in Keys(items);
    hide Items, IoiPoints;
    forall key | key in Keys(items) ensures exists x | x in items :: x.key == key {
      var i :| 0 <= i < |items| && items[i].key == key;
      assert items[i] in items;
    }
    forall key | key in r.subtasks ensures BestValue(items, key, r.subtasks[key]) {
      ValuesBest(items, key);
    }
  }

  lemma ValuesBest(items: seq<SubtaskScore>, key: string)
    ensures BestValue(items, key, Best(ValuesFor(items, key)))
  {
    var vs := ValuesFor(items, key);
    var best := Best(vs);
    hide ValuesFor, Best;
    forall x | x in items && x.key == key ensures x.value <= best {
      ValuesMembers(items, key, x.value);
    }
    ValuesMembers(items, key, best);
  }
}
