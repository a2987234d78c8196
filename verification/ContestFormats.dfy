/** The five contest formats: what one participation scores from its submissions, in time order. */
module ContestFormats {
  import opened Options
  import opened Sums
  import opened Scoring

  datatype SubtaskScore = SubtaskScore(key: string, value: real)

  /** `createdAt` in seconds; a submission without a verdict is still being judged. */
  datatype Sub = Sub(id: nat, problem: nat, createdAt: real, result: Option<Verdict>, points: real, subtasks: seq<SubtaskScore>)

  datatype ContestProblem = ContestProblem(problem: nat, points: real)

  datatype Standing = Standing(score: real, tiebreaker: real, cumulativeTime: real)

  predicate Accepted(s: Sub) { s.result == Some(AC) }

  /** `_submission_queryset`: one problem, up to the cut-off, of a table ordered by time and id. */
  function Query(subs: seq<Sub>, problem: nat, cut: Option<real>): seq<Sub> {
    if subs == [] then []
    else
      var last := subs[|subs| - 1];
      Query(subs[..|subs| - 1], problem, cut) +
      if last.problem == problem && (cut.Some? ==> last.createdAt <= cut.value) then [last] else []
  }

  /** `_submission_time_seconds`. */
  function Seconds(start: real, s: Sub): real { MaxOf(s.createdAt - start, 0.0) }

  function Minutes(start: real, s: Sub): int { (Seconds(start, s) / 60.0).Floor }

  // ----- shared measures of a list of submissions

  /** The largest entry, but at least zero. */
  function Best(xs: seq<real>): (b: real)
    ensures b >= 0.0 && forall x | x in xs :: x <= b
    ensures b == 0.0 || b in xs
  {
    if xs == [] then 0.0
    else
      var n := |xs| - 1;
      assert forall x | x in xs :: x in xs[..n] || x == xs[n];
      MaxOf(Best(xs[..n]), xs[n])
  }

  function PointsOf(subs: seq<Sub>): (ps: seq<real>)
    ensures |ps| == |subs|
  {
    seq(|subs|, i requires 0 <= i < |subs| => subs[i].points)
  }

  /** The elapsed time of each accepted submission, zero for the others. */
  function AcceptTimes(start: real, subs: seq<Sub>): (ts: seq<real>)
    ensures |ts| == |subs|
  {
    seq(|subs|, i requires 0 <= i < |subs| => if Accepted(subs[i]) then Seconds(start, subs[i]) else 0.0)
  }

  /** The position of the first accepted submission. */
  function FirstAccept(subs: seq<Sub>): (first: Option<nat>)
    ensures first.Some? ==> first.value < |subs| && Accepted(subs[first.value])
    ensures first.Some? ==> forall i | 0 <= i < first.value :: !Accepted(subs[i])
    ensures first.None? ==> forall i | 0 <= i < |subs| :: !Accepted(subs[i])
  {
    if subs == [] then None
    else if Accepted(subs[0]) then Some(0)
    else
      var rest := FirstAccept(subs[1..]);
      if rest.Some? then Some(rest.value + 1) else None
  }

  predicate Counted(s: Sub) { s.result != Some(CE) && s.result != Some(IE) }

  /** The attempts ICPC counts: compile and internal errors are free. */
  function Tries(subs: seq<Sub>): nat {
    if subs == [] then 0
    else Tries(subs[..|subs| - 1]) + if Counted(subs[|subs| - 1]) then 1 else 0
  }

  // ----- default

  datatype DefaultResult = DefaultResult(points: real, attempts: nat, acSeconds: real, solved: bool)

  function DefaultOf(start: real, subs: seq<Sub>): DefaultResult {
    var ac := Best(AcceptTimes(start, subs));
    DefaultResult(Best(PointsOf(subs)), |subs|, ac, ac > 0.0)
  }

  method DefaultProblem(start: real, subs: seq<Sub>) returns (r: DefaultResult)
    ensures r == DefaultOf(start, subs)
  {
    var bestPoints, acSeconds := 0.0, 0.0;
    BestOfNone(PointsOf(subs)[..0]);
    BestOfNone(AcceptTimes(start, subs)[..0]);
    hide Best, Seconds;
    for k := 0 to |subs|
      invariant bestPoints == Best(PointsOf(subs)[..k]) && acSeconds == Best(AcceptTimes(start, subs)[..k])
    {
      BestNext(PointsOf(subs), k);
      BestNext(AcceptTimes(start, subs), k);
      if subs[k].points > bestPoints {
        bestPoints := subs[k].points;
      }
      if Accepted(subs[k]) {
        acSeconds := MaxOf(acSeconds, Seconds(start, subs[k]));
      }
    }
    assert PointsOf(subs)[..|subs|] == PointsOf(subs) && AcceptTimes(start, subs)[..|subs|] == AcceptTimes(start, subs);
    r := DefaultResult(bestPoints, |subs|, acSeconds, acSeconds > 0.0);
  }

  // ----- ICPC

  datatype IcpcResult = IcpcResult(points: real, attempts: nat, wrong: nat, solved: bool, solveMinutes: int, penalty: int)

  function IcpcOf(start: real, wrongPenalty: int, subs: seq<Sub>): IcpcResult {
    match FirstAccept(subs)
    case None => IcpcResult(0.0, Tries(subs), Tries(subs), false, 0, 0)
    case Some(i) =>
      var wrong, minutes := Tries(subs[..i]), Minutes(start, subs[i]);
      IcpcResult(1.0, wrong + 1, wrong, true, minutes, minutes + wrong * wrongPenalty)
  }

  method IcpcProblem(start: real, wrongPenalty: int, subs: seq<Sub>) returns (r: IcpcResult)
    ensures r == IcpcOf(start, wrongPenalty, subs)
  {
    var wrong: nat, solved, minutes := 0, false, 0;
    var k := 0;
    while k < |subs|
      invariant 0 <= k <= |subs| && wrong == Tries(subs[..k]) && !solved && minutes == 0
      invariant forall i | 0 <= i < k :: !Accepted(subs[i])
    {
      assert subs[..k + 1][..k] == subs[..k];
      if Accepted(subs[k]) {
        solved, minutes := true, Minutes(start, subs[k]);
        break;
      }
      if Counted(subs[k]) {
        wrong := wrong + 1;
      }
      k := k + 1;
    }
    assert subs[..|subs|] == subs;
    assert solved ==> FirstAccept(subs) == Some(k);
    var penalty := if solved then minutes + wrong * wrongPenalty else 0;
    r := IcpcResult(if solved then 1.0 else 0.0, wrong + (if solved then 1 else 0), wrong, solved, minutes, penalty);
  }

  // ----- AtCoder

  datatype AtCoderResult = AtCoderResult(points: real, attempts: nat, wrong: nat, solved: bool, acMinutes: int)

  function AtCoderOf(start: real, points: real, subs: seq<Sub>): AtCoderResult {
    match FirstAccept(subs)
    case None => AtCoderResult(0.0, |subs|, |subs|, false, 0)
    case Some(i) => AtCoderResult(points, i + 1, i, true, Minutes(start, subs[i]))
  }

  method AtCoderProblem(start: real, points: real, subs: seq<Sub>) returns (r: AtCoderResult)
    ensures r == AtCoderOf(start, points, subs)
  {
    var wrong: nat, solved, minutes := 0, false, 0;
    while wrong < |subs|
      invariant wrong <= |subs| && !solved && minutes == 0
      invariant forall i | 0 <= i < wrong :: !Accepted(subs[i])
    {
      if Accepted(subs[wrong]) {
        solved, minutes := true, Minutes(start, subs[wrong]);
        break;
      }
      wrong := wrong + 1;
    }
    assert solved ==> FirstAccept(subs) == Some(wrong);
    r := AtCoderResult(if solved then points else 0.0, wrong + (if solved then 1 else 0), wrong, solved, minutes);
  }

  // ----- ECOO

  datatype EcooResult = EcooResult(points: real, attempts: nat, solved: bool)

  function EcooOf(tries: nat, subs: seq<Sub>): (r: EcooResult)
    ensures r.solved <==> exists i | 0 <= i < |subs| && i < tries :: Accepted(subs[i])
  {
    var first := if |subs| <= tries then subs else subs[..tries];
    var solved := exists s | s in first :: Accepted(s);
    EcooResult(if solved then 1.0 else 0.0, |first|, solved)
  }

  // ----- IOI

  datatype IoiResult = IoiResult(points: real, attempts: nat, subtasks: map<string, real>, solved: bool)

  /** All subtask scores, submission by submission. */
  function Items(subs: seq<Sub>): seq<SubtaskScore> {
    if subs == [] then [] else Items(subs[..|subs| - 1]) + subs[|subs| - 1].subtasks
  }

  /** The keys met, in the order they are met first. */
  function Keys(items: seq<SubtaskScore>): (keys: seq<string>)
    ensures forall i, j | 0 <= i < j < |keys| :: keys[i] != keys[j]
    ensures forall key :: key in keys <==> exists i | 0 <= i < |items| :: items[i].key == key
  {
    if items == [] then []
    else
      var last := items[|items| - 1];
      assert items == items[..|items| - 1] + [last];
      var before := Keys(items[..|items| - 1]);
      if last.key in before then before else before + [last.key]
  }

  /** The values given for one key. */
  function ValuesFor(items: seq<SubtaskScore>, key: string): seq<real> {
    if items == [] then []
    else
      var last := items[|items| - 1];
      ValuesFor(items[..|items| - 1], key) + if last.key == key then [last.value] else []
  }

  function BestValues(items: seq<SubtaskScore>): (vs: seq<real>)
    ensures |vs| == |Keys(items)|
  {
    var keys := Keys(items);
    seq(|keys|, i requires 0 <= i < |keys| => Best(ValuesFor(items, keys[i])))
  }

  /** The points of submissions that carry no subtasks. */
  function PlainPoints(subs: seq<Sub>): seq<real> {
    if subs == [] then []
    else
      var last := subs[|subs| - 1];
      PlainPoints(subs[..|subs| - 1]) + if last.subtasks == [] then [last.points] else []
  }

  function IoiPoints(subs: seq<Sub>): real {
    if Items(subs) == [] then Best(PlainPoints(subs)) else Sum(BestValues(Items(subs)))
  }

  function IoiOf(subs: seq<Sub>): IoiResult {
    IoiResult(IoiPoints(subs), |subs|, map key | key in Keys(Items(subs)) :: Best(ValuesFor(Items(subs), key)),
      IoiPoints(subs) > 0.0)
  }

  /** The dictionary `best_subtasks` after some items: its keys in insertion order and its values. */
  ghost predicate Gathered(order: seq<string>, best: map<string, real>, items: seq<SubtaskScore>) {
    && order == Keys(items)
    && (forall key :: key in best <==> key in order)
    && forall key | key in best :: best[key] == Best(ValuesFor(items, key))
  }

  lemma GatherStep(order: seq<string>, best: map<string, real>, items: seq<SubtaskScore>, item: SubtaskScore)
    requires Gathered(order, best, items)
    ensures var current := if item.key in best then best[item.key] else 0.0;
      Gathered(if item.key in order then order else order + [item.key], best[item.key := MaxOf(current, item.value)], items + [item])
  {
    var current := if item.key in best then best[item.key] else 0.0;
    var updated := best[item.key := MaxOf(current, item.value)];
    forall key | key in updated ensures updated[key] == Best(ValuesFor(items + [item], key)) {
      ItemAdded(items, item, key);
    }
    ItemAdded(items, item, item.key);
    hide Keys, ValuesFor, Best;
  }

  lemma ItemAdded(items: seq<SubtaskScore>, item: SubtaskScore, key: string)
    ensures Keys(items + [item]) == if item.key in Keys(items) then Keys(items) else Keys(items) + [item.key]
    ensures key != item.key ==> ValuesFor(items + [item], key) == ValuesFor(items, key)
    ensures var current := if item.key in Keys(items) then Best(ValuesFor(items, item.key)) else 0.0;
      Best(ValuesFor(items + [item], item.key)) == MaxOf(current, item.value)
  {
    assert (items + [item])[..|items|] == items;
    BestSnoc(ValuesFor(items, item.key), item.value);
    if item.key !in Keys(items) {
      NoValues(items, item.key);
      BestOfNone(ValuesFor(items, item.key));
    }
    hide Best;
  }

  lemma BestOfNone(xs: seq<real>)
    requires xs == []
    ensures Best(xs) == 0.0
  {
  }

  lemma BestNext(xs: seq<real>, k: nat)
    requires k < |xs|
    ensures Best(xs[..k + 1]) == MaxOf(Best(xs[..k]), xs[k])
  {
    assert xs[..k + 1] == xs[..k] + [xs[k]];
    BestSnoc(xs[..k], xs[k]);
    hide Best;
  }

  lemma BestSnoc(xs: seq<real>, x: real)
    ensures Best(xs + [x]) == MaxOf(Best(xs), x)
  {
    assert (xs + [x])[..|xs|] == xs;
  }

  lemma {:induction false} NoValues(items: seq<SubtaskScore>, key: string)
    requires key !in Keys(items)
    ensures ValuesFor(items, key) == []
  {
    if items == [] {
    } else {
      var last := items[|items| - 1];
      assert last in items && last.key != key;
      NoValues(items[..|items| - 1], key);
    }
  }

  method GatherOne(order: seq<string>, best: map<string, real>, subtasks: seq<SubtaskScore>,
      ghost before: seq<SubtaskScore>)
    returns (newOrder: seq<string>, newBest: map<string, real>)
    requires Gathered(order, best, before)
    ensures Gathered(newOrder, newBest, before + subtasks)
  {
    hide Gathered;
    newOrder, newBest := order, best;
    assert before + subtasks[..0] == before;
    for j := 0 to |subtasks|
      invariant Gathered(newOrder, newBest, before + subtasks[..j])
    {
      var item := subtasks[j];
      GatherStep(newOrder, newBest, before + subtasks[..j], item);
      assert before + subtasks[..j] + [item] == before + subtasks[..j + 1];
      var current := if item.key in newBest then newBest[item.key] else 0.0;
      newOrder := if item.key in newOrder then newOrder else newOrder + [item.key];
      newBest := newBest[item.key := MaxOf(current, item.value)];
    }
    assert subtasks[..|subtasks|] == subtasks;
  }

  /** The outer loop: the dictionary, and the best points of submissions without subtasks. */
  method GatherAll(subs: seq<Sub>) returns (order: seq<string>, best: map<string, real>, plain: real)
    ensures Gathered(order, best, Items(subs)) && plain == Best(PlainPoints(subs))
  {
    order, best, plain := [], map[], 0.0;
    for k := 0 to |subs|
      invariant Gathered(order, best, Items(subs[..k])) && plain == Best(PlainPoints(subs[..k]))
    {
      assert subs[..k + 1][..k] == subs[..k];
      var s := subs[k];
      if s.subtasks != [] {
        order, best := GatherOne(order, best, s.subtasks, Items(subs[..k]));
        assert PlainPoints(subs[..k + 1]) == PlainPoints(subs[..k]);
      } else {
        BestSnoc(PlainPoints(subs[..k]), s.points);
        assert Items(subs[..k + 1]) == Items(subs[..k]);
        plain := MaxOf(plain, s.points);
      }
      hide Gathered, Best;
    }
    assert subs[..|subs|] == subs;
  }

  lemma GatheredKeys(order: seq<string>, best: map<string, real>, items: seq<SubtaskScore>)
    requires Gathered(order, best, items)
    ensures order == [] <==> items == []
    ensures best == map key | key in Keys(items) :: Best(ValuesFor(items, key))
  {
    if items != [] {
      assert items[0].key in order;
    }
    hide Best, ValuesFor, Keys;
  }

  lemma GatheredValues(order: seq<string>, best: map<string, real>, items: seq<SubtaskScore>, values: seq<real>)
    requires Gathered(order, best, items) && |values| == |order|
    requires forall i | 0 <= i < |order| :: order[i] in best && values[i] == best[order[i]]
    ensures values == BestValues(items)
  {
    hide Best, ValuesFor, Keys;
  }

  lemma GatheredResult(subs: seq<Sub>, order: seq<string>, best: map<string, real>, plain: real, values: seq<real>)
    requires Gathered(order, best, Items(subs)) && plain == Best(PlainPoints(subs)) && |values| == |order|
    requires forall i | 0 <= i < |order| :: order[i] in best && values[i] == best[order[i]]
    ensures var points := if order != [] then Sum(values) else plain;
      IoiOf(subs) == IoiResult(points, |subs|, best, points > 0.0)
  {
    GatheredKeys(order, best, Items(subs));
    GatheredValues(order, best, Items(subs), values);
    hide Items, BestValues, Best, ValuesFor, Keys, Gathered, Sum, PlainPoints;
  }

  method IoiProblem(subs: seq<Sub>) returns (r: IoiResult)
    ensures r == IoiOf(subs)
  {
    var order, best, plain := GatherAll(subs);
    assert forall key | key in order :: key in best by {
      hide Items, Best, ValuesFor, Keys;
    }
    hide *;
    var values := seq(|order|, i requires 0 <= i < |order| => assert order[i] in order; best[order[i]]);
    GatheredResult(subs, order, best, plain, values);
    var points := if order != [] then Sum(values) else plain;
    r := IoiResult(points, |subs|, best, points > 0.0);
  }
}
