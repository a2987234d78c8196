/** What a later cut-off, a later submission or a first accept can and cannot do to a score. */
module ContestLaws {
  import opened Options
  import opened Sums
  import opened Scoring
  import opened ContestFormats
  import opened ContestStandings

  // ----- the cut-off

  /** `order_by("created_at", "id")`. */
  predicate Ordered(table: seq<Sub>) {
    forall i, j | 0 <= i < j < |table| ::
      table[i].createdAt < table[j].createdAt || (table[i].createdAt == table[j].createdAt && table[i].id < table[j].id)
  }

  /** Cut-off `a` is no later than `b`; no cut-off is the latest. */
  predicate NoLater(a: Option<real>, b: Option<real>) {
    b.None? || (a.Some? && a.value <= b.value)
  }

  predicate Within(s: Sub, cut: Option<real>) { cut.Some? ==> s.createdAt <= cut.value }

  lemma {:induction false} AllWithin(table: seq<Sub>, problem: nat, a: Option<real>, b: Option<real>)
    requires forall s | s in table :: Within(s, a) && Within(s, b)
    ensures Query(table, problem, a) == Query(table, problem, b)
  {
    if table == [] {
    } else {
      var front, last := table[..|table| - 1], table[|table| - 1];
      assert last in table && Within(last, a) && forall s | s in front :: s in table;
      AllWithin(front, problem, a, b);
    }
  }

  /** In a table ordered by time, cutting off later submissions leaves a prefix of each problem's list. */
  lemma {:induction false} CutIsPrefix(table: seq<Sub>, problem: nat, a: Option<real>, b: Option<real>)
    requires Ordered(table) && NoLater(a, b)
    ensures Query(table, problem, a) <= Query(table, problem, b)
  {
    if table == [] {
    } else {
      var front, last := table[..|table| - 1], table[|table| - 1];
      if Within(last, a) {
        forall s | s in front ensures Within(s, a) && Within(s, b) {
          var i :| 0 <= i < |front| && front[i] == s;
          assert table[i] == s;
        }
        AllWithin(front, problem, a, b);
      } else {
        CutIsPrefix(front, problem, a, b);
      }
    }
  }

  /** The submissions made up to some time. */
  function Upto(table: seq<Sub>, time: real): seq<Sub> {
    if table == [] then []
    else
      var last := table[|table| - 1];
      Upto(table[..|table| - 1], time) + if last.createdAt <= time then [last] else []
  }

  lemma QuerySnoc(subs: seq<Sub>, s: Sub, problem: nat)
    ensures Query(subs + [s], problem, None) == Query(subs, problem, None) + if s.problem == problem then [s] else []
  {
    assert (subs + [s])[..|subs + [s]| - 1] == subs;
  }

  lemma {:induction false} QueryUpto(table: seq<Sub>, problem: nat, time: real)
    ensures Query(table, problem, Some(time)) == Query(Upto(table, time), problem, None)
  {
    if table == [] {
    } else {
      var front, last := table[..|table| - 1], table[|table| - 1];
      QueryUpto(front, problem, time);
      QuerySnoc(Upto(front, time), last, problem);
      assert Upto(front, time) + [] == Upto(front, time);
    }
  }

  lemma {:induction false} SumsUpto(f: Format, start: real, problems: seq<ContestProblem>, table: seq<Sub>, time: real)
    ensures ScoreSum(f, start, problems, table, Some(time)) == ScoreSum(f, start, problems, Upto(table, time), None)
    ensures LastAccept(start, problems, table, Some(time)) == LastAccept(start, problems, Upto(table, time), None)
    ensures SolvedWrong(start, problems, table, Some(time)) == SolvedWrong(start, problems, Upto(table, time), None)
    ensures LastFirstAccept(start, problems, table, Some(time)) == LastFirstAccept(start, problems, Upto(table, time), None)
    ensures f.Icpc? ==>
      (PenaltySum(start, f.wrongPenalty, problems, table, Some(time))
       == PenaltySum(start, f.wrongPenalty, problems, Upto(table, time), None))
  {
    hide Query, Upto, ProblemScore, DefaultOf, IcpcOf, AtCoderOf;
    if problems == [] {
    } else {
      SumsUpto(f, start, problems[..|problems| - 1], table, time);
      QueryUpto(table, problems[|problems| - 1].problem, time);
    }
  }

  /** A frozen standing is the live standing of a contest in which nothing was submitted after the freeze. */
  lemma FrozenIsPast(f: Format, start: real, problems: seq<ContestProblem>, table: seq<Sub>, time: real)
    ensures StandingOf(f, start, problems, table, Some(time)) == StandingOf(f, start, problems, Upto(table, time), None)
  {
    hide ScoreSum, LastAccept, SolvedWrong, LastFirstAccept, PenaltySum, Upto;
    SumsUpto(f, start, problems, table, time);
  }

  // ----- the first accept is final

  lemma FirstAcceptKept(a: seq<Sub>, b: seq<Sub>)
    requires a <= b && FirstAccept(a).Some?
    ensures FirstAccept(b) == FirstAccept(a)
  {
    var i := FirstAccept(a).value;
    assert Accepted(b[i]);
    assert forall k | 0 <= k < i :: b[k] == a[k];
  }

  /** In ICPC and AtCoder scoring nothing after the first accept changes a problem's result. */
  lemma FirstAcceptFinal(start: real, wrongPenalty: int, points: real, a: seq<Sub>, b: seq<Sub>)
    requires a <= b && exists s | s in a :: Accepted(s)
    ensures IcpcOf(start, wrongPenalty, a) == IcpcOf(start, wrongPenalty, b)
    ensures AtCoderOf(start, points, a) == AtCoderOf(start, points, b)
  {
    assert FirstAccept(a).Some? by {
      var s :| s in a && Accepted(s);
      var i :| 0 <= i < |a| && a[i] == s;
    }
    FirstAcceptKept(a, b);
    var i := FirstAccept(a).value;
    assert a[..i] == b[..i];
  }

  /** The submissions ICPC looks at. */
  function CountedOnly(subs: seq<Sub>): seq<Sub> {
    if subs == [] then [] else (if Counted(subs[0]) then [subs[0]] else []) + CountedOnly(subs[1..])
  }

  lemma {:induction false} TriesFront(s: Sub, subs: seq<Sub>)
    ensures Tries([s] + subs) == Tries(subs) + if Counted(s) then 1 else 0
  {
    var all := [s] + subs;
    if subs == [] {
      assert all[..|all| - 1] == [];
    } else {
      assert all[..|all| - 1] == [s] + subs[..|subs| - 1];
      TriesFront(s, subs[..|subs| - 1]);
    }
  }

  lemma {:induction false} FirstFront(s: Sub, subs: seq<Sub>)
    ensures FirstAccept([s] + subs) ==
      if Accepted(s) then Some(0)
      else if FirstAccept(subs).Some? then Some(FirstAccept(subs).value + 1) else None
  {
    hide Accepted;
    assert ([s] + subs)[1..] == subs;
  }

  lemma TriesUpto(s: Sub, subs: seq<Sub>, n: nat)
    requires n <= |subs|
    ensures Tries(([s] + subs)[..n + 1]) == Tries(subs[..n]) + if Counted(s) then 1 else 0
  {
    assert ([s] + subs)[..n + 1] == [s] + subs[..n];
    TriesFront(s, subs[..n]);
  }

  /** The first accept is the same submission, with as many counted tries before it. */
  predicate SameOutcome(a: seq<Sub>, b: seq<Sub>) {
    && Tries(a) == Tries(b)
    && (FirstAccept(a).Some? <==> FirstAccept(b).Some?)
    && (FirstAccept(a).Some? ==>
          var i, k := FirstAccept(a).value, FirstAccept(b).value;
          b[k] == a[i] && Tries(b[..k]) == Tries(a[..i]))
  }

  lemma AcceptedFront(s: Sub, a: seq<Sub>, b: seq<Sub>)
    requires Tries(a) == Tries(b) && Accepted(s)
    ensures SameOutcome([s] + a, [s] + b)
  {
    FirstFront(s, a);
    FirstFront(s, b);
    TriesFront(s, a);
    TriesFront(s, b);
    assert ([s] + a)[..0] == ([s] + b)[..0];
    hide Tries, FirstAccept;
  }

  lemma LaterFront(s: Sub, a: seq<Sub>, b: seq<Sub>)
    requires SameOutcome(a, b) && !Accepted(s)
    ensures SameOutcome([s] + a, [s] + b)
    ensures !Counted(s) ==> SameOutcome([s] + a, b)
  {
    FirstFront(s, a);
    FirstFront(s, b);
    TriesFront(s, a);
    TriesFront(s, b);
    hide Tries, FirstAccept, Accepted, Counted;
    if FirstAccept(a).Some? {
      var i, k := FirstAccept(a).value, FirstAccept(b).value;
      TriesUpto(s, a, i);
      TriesUpto(s, b, k);
      assert ([s] + a)[i + 1] == a[i] && ([s] + b)[k + 1] == b[k];
    }
  }

  lemma {:induction false} CountedTries(subs: seq<Sub>)
    ensures SameOutcome(subs, CountedOnly(subs))
  {
    if subs == [] {
    } else {
      var s, rest := subs[0], subs[1..];
      var kept := CountedOnly(rest);
      CountedTries(rest);
      assert subs == [s] + rest && [] + kept == kept;
      if Accepted(s) {
        AcceptedFront(s, rest, kept);
      } else {
        LaterFront(s, rest, kept);
      }
      hide SameOutcome;
    }
  }

  /** Compile and internal errors are free in ICPC scoring: deleting them changes no result. */
  lemma ErrorsAreFree(start: real, wrongPenalty: int, subs: seq<Sub>)
    ensures IcpcOf(start, wrongPenalty, CountedOnly(subs)) == IcpcOf(start, wrongPenalty, subs)
  {
    CountedTries(subs);
    hide CountedOnly, Tries, FirstAccept;
  }

  // ----- scores only grow

  lemma {:induction false} BestPrefix(xs: seq<real>, ys: seq<real>)
    requires forall x | x in xs :: x in ys
    ensures Best(xs) <= Best(ys)
  {
  }

  lemma DefaultGrows(start: real, a: seq<Sub>, b: seq<Sub>)
    requires a <= b
    ensures DefaultOf(start, a).points <= DefaultOf(start, b).points
  {
    assert forall i | 0 <= i < |a| :: PointsOf(b)[i] == PointsOf(a)[i];
    BestPrefix(PointsOf(a), PointsOf(b));
  }

  lemma SolvedGrows(start: real, wrongPenalty: int, a: seq<Sub>, b: seq<Sub>)
    requires a <= b
    ensures IcpcOf(start, wrongPenalty, a).points <= IcpcOf(start, wrongPenalty, b).points
  {
    if FirstAccept(a).Some? {
      FirstAcceptKept(a, b);
    }
  }

  lemma AtCoderGrows(start: real, points: real, a: seq<Sub>, b: seq<Sub>)
    requires a <= b && points >= 0.0
    ensures AtCoderOf(start, points, a).points <= AtCoderOf(start, points, b).points
  {
    if FirstAccept(a).Some? {
      FirstAcceptKept(a, b);
    }
  }

  lemma EcooGrows(tries: nat, a: seq<Sub>, b: seq<Sub>)
    requires a <= b
    ensures EcooOf(tries, a).points <= EcooOf(tries, b).points
  {
    if EcooOf(tries, a).solved {
      var i :| 0 <= i < |a| && i < tries && Accepted(a[i]);
      assert Accepted(b[i]);
    }
  }

  // ----- IOI

  lemma {:induction false} ItemsPrefix(a: seq<Sub>, b: seq<Sub>)
    requires a <= b
    ensures Items(a) <= Items(b)
  {
    if |a| < |b| {
      assert a <= b[..|b| - 1];
      ItemsPrefix(a, b[..|b| - 1]);
    } else {
      assert a == b;
    }
  }

  lemma {:induction false} ValueListed(items: seq<SubtaskScore>, key: string, x: real)
    ensures x in ValuesFor(items, key) <==> SubtaskScore(key, x) in items
  {
    if items == [] {
    } else {
      var front, last := items[..|items| - 1], items[|items| - 1];
      assert items == front + [last];
      ValueListed(front, key, x);
    }
  }

  /** The best value of a key never falls when items are added. */
  lemma BestValueGrows(a: seq<SubtaskScore>, b: seq<SubtaskScore>, key: string)
    requires forall item | item in a :: item in b
    ensures Best(ValuesFor(a, key)) <= Best(ValuesFor(b, key))
  {
    forall x | x in ValuesFor(a, key) ensures x in ValuesFor(b, key) {
      ValueListed(a, key, x);
      ValueListed(b, key, x);
    }
  }

  /** The sum of f over a list of keys. */
  function KeySum(f: string -> real, keys: seq<string>): real {
    if keys == [] then 0.0 else f(keys[0]) + KeySum(f, keys[1..])
  }

  predicate Distinct(keys: seq<string>) {
    forall i, j | 0 <= i < j < |keys| :: keys[i] != keys[j]
  }

  lemma {:induction false} KeySumRemove(f: string -> real, keys: seq<string>, k: nat)
    requires k < |keys|
    ensures KeySum(f, keys) == f(keys[k]) + KeySum(f, keys[..k] + keys[k + 1..])
  {
    var rest := keys[..k] + keys[k + 1..];
    if k == 0 {
      assert rest == keys[1..];
    } else {
      var tail := keys[1..];
      KeySumRemove(f, tail, k - 1);
      assert rest[1..] == tail[..k - 1] + tail[k..];
    }
  }

  /** Fewer keys with smaller values give a smaller sum, when the values of the larger list are not negative. */
  lemma {:induction false} KeySumGrows(f: string -> real, g: string -> real, a: seq<string>, b: seq<string>)
    requires Distinct(a) && forall key | key in a :: key in b && f(key) <= g(key)
    requires forall key | key in b :: g(key) >= 0.0
    ensures KeySum(f, a) <= KeySum(g, b)
    decreases |a|
  {
    if a == [] {
      KeySumNonnegative(g, b);
    } else {
      assert a[0] in a;
      var k :| 0 <= k < |b| && b[k] == a[0];
      var rest := b[..k] + b[k + 1..];
      KeySumRemove(g, b, k);
      forall key | key in a[1..] ensures key in rest && f(key) <= g(key) {
        var i :| 0 <= i < |a| - 1 && a[1..][i] == key;
        assert a[i + 1] == key && key in a;
        var j :| 0 <= j < |b| && b[j] == key;
        assert j != k;
        assert key == if j < k then rest[j] else rest[j - 1];
      }
      assert forall key | key in rest :: key in b;
      KeySumGrows(f, g, a[1..], rest);
    }
  }

  lemma {:induction false} KeySumNonnegative(g: string -> real, b: seq<string>)
    requires forall key | key in b :: g(key) >= 0.0
    ensures KeySum(g, b) >= 0.0
  {
    if b == [] {
    } else {
      assert b[0] in b && forall key | key in b[1..] :: key in b;
      KeySumNonnegative(g, b[1..]);
    }
  }

  lemma {:induction false} SumIsKeySum(f: string -> real, keys: seq<string>, xs: seq<real>)
    requires |keys| == |xs| && forall i | 0 <= i < |keys| :: xs[i] == f(keys[i])
    ensures Sum(xs) == KeySum(f, keys)
  {
    if keys == [] {
    } else {
      SumIsKeySum(f, keys[1..], xs[1..]);
    }
  }

  function BestOf(items: seq<SubtaskScore>): string -> real {
    key => Best(ValuesFor(items, key))
  }

  lemma TotalIsKeySum(items: seq<SubtaskScore>)
    ensures Sum(BestValues(items)) == KeySum(BestOf(items), Keys(items))
  {
    SumIsKeySum(BestOf(items), Keys(items), BestValues(items));
  }

  lemma SubtasksGrow(a: seq<SubtaskScore>, b: seq<SubtaskScore>)
    requires forall item | item in a :: item in b
    ensures Sum(BestValues(a)) <= Sum(BestValues(b))
  {
    TotalIsKeySum(a);
    TotalIsKeySum(b);
    forall key | key in Keys(a) ensures key in Keys(b) && BestOf(a)(key) <= BestOf(b)(key) {
      var i :| 0 <= i < |a| && a[i].key == key;
      assert a[i] in b;
      var j :| 0 <= j < |b| && b[j] == a[i];
      BestValueGrows(a, b, key);
    }
    hide Keys, BestValues, ValuesFor, Best;
    KeySumGrows(BestOf(a), BestOf(b), Keys(a), Keys(b));
  }

  /** With subtasks from the start, or none at all, an IOI score only grows. */
  lemma IoiGrowsGiven(a: seq<Sub>, b: seq<Sub>)
    requires a <= b && (Items(a) != [] || Best(PlainPoints(a)) == 0.0)
    ensures IoiPoints(a) <= IoiPoints(b)
  {
    ItemsPrefix(a, b);
    forall item | item in Items(a) ensures item in Items(b) {
      var i :| 0 <= i < |Items(a)| && Items(a)[i] == item;
      assert Items(b)[i] == item;
    }
    SubtasksGrow(Items(a), Items(b));
    assert Sum(BestValues([])) == 0.0;
    hide Items, BestValues, PlainPoints;
  }

  /** The later submission that lowers the score: one with a subtask worth nothing. */
  function Spoiler(problem: nat): Sub {
    Sub(0, problem, 0.0, Some(WA), 0.0, [SubtaskScore("a", 0.0)])
  }

  lemma SpoilerLowers(a: seq<Sub>, problem: nat)
    requires Items(a) == []
    ensures IoiPoints(a + [Spoiler(problem)]) == 0.0
  {
    var b := a + [Spoiler(problem)];
    assert b[..|b| - 1] == a;
    var item := SubtaskScore("a", 0.0);
    assert Items(b) == [item];
    assert ValuesFor([item], "a") == [0.0];
    assert Keys([item]) == ["a"];
    assert BestValues([item]) == [0.0];
    assert [0.0][1..] == [];
  }

  /**
   * When an IOI score is safe from every later submission: exactly when some subtask is already scored, or
   * nothing has been earned by submissions without subtasks.
   */
  lemma IoiGrowsExactly(a: seq<Sub>)
    ensures (forall more :: IoiPoints(a) <= IoiPoints(a + more)) <==> (Items(a) != [] || Best(PlainPoints(a)) == 0.0)
  {
    if Items(a) != [] || Best(PlainPoints(a)) == 0.0 {
      forall more ensures IoiPoints(a) <= IoiPoints(a + more) {
        IoiGrowsGiven(a, a + more);
      }
    } else {
      SpoilerLowers(a, 0);
      assert IoiPoints(a) > 0.0;
    }
  }

  /** What the judge guarantees of its submissions: no subtask scores, no points. */
  predicate JudgeScored(s: Sub) { s.subtasks == [] ==> s.points == 0.0 }

  lemma {:induction false} PlainIsZero(subs: seq<Sub>)
    requires forall s | s in subs :: JudgeScored(s)
    ensures Best(PlainPoints(subs)) == 0.0
  {
    if subs == [] {
    } else {
      var front, last := subs[..|subs| - 1], subs[|subs| - 1];
      assert last in subs && forall s | s in front :: s in subs;
      PlainIsZero(front);
      BestSnoc(PlainPoints(front), last.points);
      assert PlainPoints(front) + [] == PlainPoints(front);
    }
  }

  /** The IOI total is at least what any one submission scored over its own subtasks. */
  lemma IoiDominates(subs: seq<Sub>, s: Sub)
    requires s in subs && s.subtasks != [] && Distinct(OwnKeys(s))
    ensures IoiPoints(subs) >= Sum(OwnValues(s))
  {
    SubmissionItems(subs, s);
    var items := Items(subs);
    assert s.subtasks[0] in s.subtasks;
    OwnSum(s);
    OwnBelow(items, s);
    TotalIsKeySum(items);
    var f := key => OwnValue(s.subtasks, key);
    assert forall key | key in OwnKeys(s) :: key in Keys(items) && f(key) <= BestOf(items)(key);
    hide Keys, BestValues, ValuesFor, Best, OwnValue, Items;
    KeySumGrows(f, BestOf(items), OwnKeys(s), Keys(items));
  }

  lemma OwnBelow(items: seq<SubtaskScore>, s: Sub)
    requires Distinct(OwnKeys(s)) && forall item | item in s.subtasks :: item in items
    ensures forall key | key in OwnKeys(s) :: key in Keys(items) && OwnValue(s.subtasks, key) <= Best(ValuesFor(items, key))
  {
    hide ValuesFor;
    forall key | key in OwnKeys(s)
      ensures key in Keys(items) && OwnValue(s.subtasks, key) <= Best(ValuesFor(items, key))
    {
      var i :| 0 <= i < |s.subtasks| && OwnKeys(s)[i] == key;
      OwnHere(s, i);
      assert s.subtasks[i] in items;
      var j :| 0 <= j < |items| && items[j] == s.subtasks[i];
      ValueListed(items, key, s.subtasks[i].value);
    }
  }

  lemma OwnHere(s: Sub, i: nat)
    requires Distinct(OwnKeys(s)) && i < |s.subtasks|
    ensures OwnValue(s.subtasks, s.subtasks[i].key) == s.subtasks[i].value
  {
    forall j | i < j < |s.subtasks| ensures s.subtasks[j].key != s.subtasks[i].key {
      assert OwnKeys(s)[i] != OwnKeys(s)[j];
    }
    OwnAt(s.subtasks, i);
  }

  function OwnKeys(s: Sub): (keys: seq<string>)
    ensures |keys| == |s.subtasks|
  {
    seq(|s.subtasks|, i requires 0 <= i < |s.subtasks| => s.subtasks[i].key)
  }

  function OwnValues(s: Sub): (vs: seq<real>)
    ensures |vs| == |s.subtasks|
  {
    seq(|s.subtasks|, i requires 0 <= i < |s.subtasks| => s.subtasks[i].value)
  }

  /** The value listed last for a key. */
  function OwnValue(own: seq<SubtaskScore>, key: string): real {
    if own == [] then 0.0
    else if own[|own| - 1].key == key then own[|own| - 1].value
    else OwnValue(own[..|own| - 1], key)
  }

  lemma {:induction false} OwnAt(own: seq<SubtaskScore>, i: nat)
    requires i < |own| && forall j | i < j < |own| :: own[j].key != own[i].key
    ensures OwnValue(own, own[i].key) == own[i].value
  {
    if i == |own| - 1 {
    } else {
      OwnAt(own[..|own| - 1], i);
    }
  }

  lemma OwnSum(s: Sub)
    requires Distinct(OwnKeys(s))
    ensures Sum(OwnValues(s)) == KeySum(key => OwnValue(s.subtasks, key), OwnKeys(s))
  {
    var f := key => OwnValue(s.subtasks, key);
    forall i | 0 <= i < |s.subtasks| ensures OwnValues(s)[i] == f(OwnKeys(s)[i]) {
      OwnHere(s, i);
    }
    SumIsKeySum(f, OwnKeys(s), OwnValues(s));
  }

  lemma {:induction false} SubmissionItems(subs: seq<Sub>, s: Sub)
    requires s in subs
    ensures forall item | item in s.subtasks :: item in Items(subs)
  {
    var front, last := subs[..|subs| - 1], subs[|subs| - 1];
    if s == last {
    } else {
      var i :| 0 <= i < |subs| && subs[i] == s;
      assert front[i] == s;
      SubmissionItems(front, s);
    }
  }

  // ----- all formats together

  /** The conditions under which each format's scores only grow. */
  predicate GrowthOk(f: Format, problems: seq<ContestProblem>, table: seq<Sub>) {
    && (f.AtCoder? ==> forall p | p in problems :: p.points >= 0.0)
    && (f.Ioi? ==> forall s | s in table :: JudgeScored(s))
  }

  lemma {:induction false} QueryFrom(table: seq<Sub>, problem: nat, cut: Option<real>, s: Sub)
    requires s in Query(table, problem, cut)
    ensures s in table
  {
    var front, last := table[..|table| - 1], table[|table| - 1];
    assert last in table && forall x | x in front :: x in table;
    if s !in Query(front, problem, cut) {
    } else {
      QueryFrom(front, problem, cut, s);
    }
  }

  lemma ProblemScoreGrows(f: Format, start: real, p: ContestProblem, a: seq<Sub>, b: seq<Sub>)
    requires a <= b && (f.AtCoder? ==> p.points >= 0.0) && (f.Ioi? ==> forall s | s in a :: JudgeScored(s))
    ensures ProblemScore(f, start, p, a) <= ProblemScore(f, start, p, b)
  {
    match f
    case Default => DefaultGrows(start, a, b);
    case Icpc(w) => SolvedGrows(start, w, a, b);
    case Ioi =>
      PlainIsZero(a);
      IoiGrowsGiven(a, b);
    case AtCoder(_) => AtCoderGrows(start, p.points, a, b);
    case Ecoo(tries) => EcooGrows(tries, a, b);
  }

  /** In every format, moving the cut-off later never lowers a participation's score. */
  lemma {:induction false} ScoreGrows(f: Format, start: real, problems: seq<ContestProblem>, table: seq<Sub>,
      a: Option<real>, b: Option<real>)
    requires Ordered(table) && NoLater(a, b) && GrowthOk(f, problems, table)
    ensures ScoreSum(f, start, problems, table, a) <= ScoreSum(f, start, problems, table, b)
  {
    if problems == [] {
    } else {
      var front, last := problems[..|problems| - 1], problems[|problems| - 1];
      assert last in problems && forall p | p in front :: p in problems;
      ScoreGrows(f, start, front, table, a, b);
      CutIsPrefix(table, last.problem, a, b);
      forall s | f.Ioi? && s in Query(table, last.problem, a) ensures JudgeScored(s) {
        QueryFrom(table, last.problem, a, s);
      }
      ProblemScoreGrows(f, start, last, Query(table, last.problem, a), Query(table, last.problem, b));
      hide ProblemScore, Query, Ordered;
    }
  }

  /** AtCoder scores can fall only through a problem worth less than nothing, and there they can. */
  lemma AtCoderGrowsExactly(start: real, points: real)
    ensures (forall a, b | a <= b :: AtCoderOf(start, points, a).points <= AtCoderOf(start, points, b).points) <==> points >= 0.0
  {
    if points >= 0.0 {
      forall a, b | a <= b ensures AtCoderOf(start, points, a).points <= AtCoderOf(start, points, b).points {
        AtCoderGrows(start, points, a, b);
      }
    } else {
      var accepted := Sub(0, 0, 0.0, Some(AC), 0.0, []);
      assert AtCoderOf(start, points, [accepted]).points == points;
      assert AtCoderOf(start, points, []).points == 0.0;
      assert [] <= [accepted];
    }
  }
}
