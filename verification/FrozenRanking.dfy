/** The scoreboard: sorting, ranks, and what a freeze hides. */
module FrozenRanking {
  import opened Options
  import opened Sums
  import opened ContestFormats
  import opened ContestStandings
  import opened ContestLaws

  datatype Contest = Contest(format: Format, startTime: real, endTime: real, frozenAfter: Option<real>, problems: seq<ContestProblem>)

  /** `stored` is what the last recalculation saved; `table` are the participation's submissions in time order. */
  datatype Participation = Participation(id: nat, user: nat, virtualStart: Option<real>, disqualified: bool, stored: Standing, table: seq<Sub>)

  datatype BoardEntry = BoardEntry(participation: nat, user: nat, standing: Standing, rank: nat)

  // ----- sorting

  /** The order of the key `(-score, tiebreaker, user_id)`. */
  predicate Better(a: BoardEntry, b: BoardEntry) {
    a.standing.score > b.standing.score ||
    (a.standing.score == b.standing.score &&
     (a.standing.tiebreaker < b.standing.tiebreaker ||
      (a.standing.tiebreaker == b.standing.tiebreaker && a.user < b.user)))
  }

  predicate SameKey(a: BoardEntry, b: BoardEntry) { !Better(a, b) && !Better(b, a) }

  function Insert(e: BoardEntry, s: seq<BoardEntry>): seq<BoardEntry> {
    if s == [] then [e]
    else if Better(e, s[0]) then [e] + s
    else [s[0]] + Insert(e, s[1..])
  }

  /** The stable sort of `list.sort`. */
  function Sorted(es: seq<BoardEntry>): seq<BoardEntry> {
    if es == [] then [] else Insert(es[|es| - 1], Sorted(es[..|es| - 1]))
  }

  predicate InOrder(s: seq<BoardEntry>) {
    forall i, j | 0 <= i < j < |s| :: !Better(s[j], s[i])
  }

  lemma {:induction false} InsertPermutes(e: BoardEntry, s: seq<BoardEntry>)
    ensures multiset(Insert(e, s)) == multiset(s) + multiset{e}
  {
    hide Better;
    if s == [] {
    } else if Better(e, s[0]) {
      assert multiset([e] + s) == multiset{e} + multiset(s);
    } else {
      InsertPermutes(e, s[1..]);
      assert s == [s[0]] + s[1..];
    }
  }

  lemma {:induction false} InsertHolds(e: BoardEntry, s: seq<BoardEntry>)
    requires InOrder(s)
    ensures InOrder(Insert(e, s)) && multiset(Insert(e, s)) == multiset(s) + multiset{e}
  {
    InsertPermutes(e, s);
    if s == [] {
    } else if Better(e, s[0]) {
    } else {
      var rest := Insert(e, s[1..]);
      InsertHolds(e, s[1..]);
      forall x | x in rest ensures !Better(x, s[0]) {
        assert x in multiset(rest);
        assert x == e || x in s[1..];
      }
    }
  }

  /** The sort permutes its input and orders it. */
  lemma {:induction false} SortedHolds(es: seq<BoardEntry>)
    ensures InOrder(Sorted(es)) && multiset(Sorted(es)) == multiset(es)
  {
    if es == [] {
    } else {
      var front := es[..|es| - 1];
      SortedHolds(front);
      InsertHolds(es[|es| - 1], Sorted(front));
      assert es == front + [es[|es| - 1]];
    }
  }

  /** The entries with a given key, in the order they stand. */
  function Tied(es: seq<BoardEntry>, e: BoardEntry): seq<BoardEntry> {
    if es == [] then [] else (if SameKey(es[0], e) then [es[0]] else []) + Tied(es[1..], e)
  }

  lemma {:induction false} TiedAppend(xs: seq<BoardEntry>, y: BoardEntry, e: BoardEntry)
    ensures Tied(xs + [y], e) == Tied(xs, e) + if SameKey(y, e) then [y] else []
  {
    if xs == [] {
    } else {
      assert (xs + [y])[1..] == xs[1..] + [y];
      TiedAppend(xs[1..], y, e);
    }
  }

  lemma {:induction false} NoneTied(s: seq<BoardEntry>, y: BoardEntry, e: BoardEntry)
    requires InOrder(s) && SameKey(y, e) && (s != [] ==> Better(y, s[0]))
    ensures Tied(s, e) == []
  {
    if |s| <= 1 {
    } else {
      NoneTied(s[1..], y, e);
    }
  }

  lemma {:induction false} InsertTied(y: BoardEntry, s: seq<BoardEntry>, e: BoardEntry)
    requires InOrder(s)
    ensures Tied(Insert(y, s), e) == Tied(s, e) + if SameKey(y, e) then [y] else []
  {
    if s == [] {
    } else if Better(y, s[0]) {
      assert ([y] + s)[1..] == s;
      if SameKey(y, e) {
        NoneTied(s, y, e);
      }
    } else {
      InsertTied(y, s[1..], e);
      assert ([s[0]] + Insert(y, s[1..]))[1..] == Insert(y, s[1..]);
    }
  }

  /** Stability: entries with equal keys keep their order. */
  lemma {:induction false} SortedStable(es: seq<BoardEntry>, e: BoardEntry)
    ensures Tied(Sorted(es), e) == Tied(es, e)
  {
    if es == [] {
    } else {
      var front := es[..|es| - 1];
      SortedStable(front, e);
      SortedHolds(front);
      InsertTied(es[|es| - 1], Sorted(front), e);
      TiedAppend(front, es[|es| - 1], e);
      assert es == front + [es[|es| - 1]];
    }
  }

  /** Different entries never share a key. */
  predicate Unambiguous(es: seq<BoardEntry>) {
    forall i, j | 0 <= i < j < |es| && SameKey(es[i], es[j]) :: es[i] == es[j]
  }

  lemma SameHead(xs: seq<BoardEntry>, ys: seq<BoardEntry>)
    requires InOrder(xs) && InOrder(ys) && Unambiguous(xs) && multiset(xs) == multiset(ys) && xs != []
    ensures ys != [] && ys[0] == xs[0]
  {
    assert xs[0] in multiset(ys);
    assert ys[0] in multiset(xs);
    var m :| 0 <= m < |xs| && xs[m] == ys[0];
    var k :| 0 <= k < |ys| && ys[k] == xs[0];
    if m > 0 && k > 0 {
      assert !Better(xs[m], xs[0]) && !Better(ys[k], ys[0]);
    }
  }

  lemma TailsPermute(xs: seq<BoardEntry>, ys: seq<BoardEntry>)
    requires multiset(xs) == multiset(ys) && xs != [] && ys != [] && ys[0] == xs[0]
    ensures multiset(xs[1..]) == multiset(ys[1..])
  {
    TailMultiset(xs);
    TailMultiset(ys);
  }

  /** Without ambiguous keys there is only one way to order the entries. */
  lemma {:induction false} OrderUnique(xs: seq<BoardEntry>, ys: seq<BoardEntry>)
    requires InOrder(xs) && InOrder(ys) && Unambiguous(xs) && multiset(xs) == multiset(ys)
    ensures xs == ys
  {
    if xs == [] {
      assert |multiset(ys)| == 0;
    } else {
      SameHead(xs, ys);
      TailsPermute(xs, ys);
      hide Better;
      OrderUnique(xs[1..], ys[1..]);
      assert xs == [xs[0]] + xs[1..] && ys == [ys[0]] + ys[1..];
    }
  }

  /** Being unambiguous is a property of the entries, not of their order. */
  lemma UnambiguousKept(xs: seq<BoardEntry>, ys: seq<BoardEntry>)
    requires multiset(xs) == multiset(ys) && Unambiguous(xs)
    ensures Unambiguous(ys)
  {
    hide SameKey;
    forall i, j | 0 <= i < j < |ys| && SameKey(ys[i], ys[j]) ensures ys[i] == ys[j] {
      assert ys[i] in multiset(xs) && ys[j] in multiset(xs);
      var a :| 0 <= a < |xs| && xs[a] == ys[i];
      var b :| 0 <= b < |xs| && xs[b] == ys[j];
      KeySymmetric(ys[i], ys[j]);
    }
  }

  lemma KeySymmetric(a: BoardEntry, b: BoardEntry)
    ensures SameKey(a, b) <==> SameKey(b, a)
  {
  }

  lemma SortedOrderFree(xs: seq<BoardEntry>, ys: seq<BoardEntry>)
    requires multiset(xs) == multiset(ys) && Unambiguous(xs)
    ensures Sorted(xs) == Sorted(ys)
  {
    SortedHolds(xs);
    SortedHolds(ys);
    UnambiguousKept(xs, Sorted(xs));
    OrderUnique(Sorted(xs), Sorted(ys));
  }

  lemma Reordered(es: seq<BoardEntry>, i: nat, j: nat) returns (xs: seq<BoardEntry>, ys: seq<BoardEntry>)
    requires i < j < |es|
    ensures multiset(xs) == multiset(es) == multiset(ys)
    ensures |xs| >= 2 && |ys| >= 2 && xs[0] == es[i] && ys[0] == es[j]
  {
    var rest := es[..i] + es[i + 1..j] + es[j + 1..];
    xs, ys := [es[i], es[j]] + rest, [es[j], es[i]] + rest;
    assert es == es[..i] + [es[i]] + es[i + 1..j] + [es[j]] + es[j + 1..];
    assert multiset(es) == multiset(rest) + multiset{es[i], es[j]};
  }

  /** Two different entries with one key: the one read first stands first. */
  lemma TiesFollowReading(es: seq<BoardEntry>, i: nat, j: nat) returns (xs: seq<BoardEntry>)
    requires i < j < |es| && SameKey(es[i], es[j]) && es[i] != es[j]
    ensures multiset(xs) == multiset(es) && Sorted(xs) != Sorted(es)
  {
    var a, b := es[i], es[j];
    var first, second := Reordered(es, i, j);
    SortedStable(first, a);
    SortedStable(second, a);
    assert Tied(first, a)[0] == a && Tied(second, a)[0] == b;
    hide Sorted, Tied, Better;
    xs := if Sorted(first) != Sorted(es) then first else second;
  }

  /**
   * The board does not depend on the order in which the participations are read exactly when no two
   * different entries share score, tiebreaker and user.
   */
  lemma OrderFreeExactly(es: seq<BoardEntry>)
    ensures (forall xs | multiset(xs) == multiset(es) :: Sorted(xs) == Sorted(es)) <==> Unambiguous(es)
  {
    if Unambiguous(es) {
      forall xs | multiset(xs) == multiset(es) ensures Sorted(xs) == Sorted(es) {
        SortedOrderFree(es, xs);
      }
    } else {
      var i: nat, j: nat :| i < j < |es| && SameKey(es[i], es[j]) && es[i] != es[j];
      var xs := TiesFollowReading(es, i, j);
    }
  }

  // ----- ranks

  function WithRanks(es: seq<BoardEntry>): (ranked: seq<BoardEntry>)
    ensures |ranked| == |es|
  {
    seq(|es|, i requires 0 <= i < |es| => es[i].(rank := i + 1))
  }

  /** `for rank, entry in enumerate(entries, start=1)`, in place. */
  method AssignRanks(entries: array<BoardEntry>)
    modifies entries
    ensures entries[..] == WithRanks(old(entries[..]))
  {
    for i := 0 to entries.Length
      invariant forall k | 0 <= k < i :: entries[k] == old(entries[..])[k].(rank := k + 1)
      invariant forall k | i <= k < entries.Length :: entries[k] == old(entries[..])[k]
    {
      entries[i] := entries[i].(rank := i + 1);
    }
  }

  /** No two places hold the same key. */
  predicate NoTies(es: seq<BoardEntry>) {
    forall i, j | 0 <= i < j < |es| :: !SameKey(es[i], es[j])
  }

  /** The entries that are better than the one at `i` are exactly those above it. */
  predicate Separated(s: seq<BoardEntry>) {
    forall i, j | 0 <= i < |s| && 0 <= j < |s| :: Better(s[j], s[i]) <==> j < i
  }

  lemma SeparatedExactly(s: seq<BoardEntry>)
    requires InOrder(s)
    ensures Separated(s) <==> NoTies(s)
  {
    if Separated(s) {
      forall i, j | 0 <= i < j < |s| ensures !SameKey(s[i], s[j]) {
        assert Better(s[i], s[j]);
      }
    }
  }

  /** Some entry of `s` has the key of `e`. */
  predicate Rivals(s: seq<BoardEntry>, e: BoardEntry) {
    exists x | x in s :: SameKey(x, e)
  }

  lemma TiesFront(first: BoardEntry, s: seq<BoardEntry>)
    ensures NoTies([first] + s) <==> NoTies(s) && !Rivals(s, first)
  {
    var all := [first] + s;
    forall i, j | 0 <= i < j < |s| ensures all[i + 1] == s[i] && all[j + 1] == s[j] {
    }
    hide Better;
    if NoTies(all) {
      forall i, j | 0 <= i < j < |s| ensures !SameKey(s[i], s[j]) {
        assert !SameKey(all[i + 1], all[j + 1]);
      }
      forall x | x in s ensures !SameKey(x, first) {
        var k :| 0 <= k < |s| && s[k] == x;
        assert !SameKey(all[0], all[k + 1]);
      }
    } else if NoTies(s) {
      var i: nat, j: nat :| i < j < |all| && SameKey(all[i], all[j]);
      assert all[j] == s[j - 1] && s[j - 1] in s;
      if i == 0 {
        assert SameKey(s[j - 1], first);
      }
    }
  }

  lemma TiesBack(s: seq<BoardEntry>, last: BoardEntry)
    ensures NoTies(s + [last]) <==> NoTies(s) && !Rivals(s, last)
  {
    var all := s + [last];
    assert forall i | 0 <= i < |s| :: all[i] == s[i];
    hide Better;
    if NoTies(all) {
      forall i, j | 0 <= i < j < |s| ensures !SameKey(s[i], s[j]) {
        assert !SameKey(all[i], all[j]);
      }
      forall x | x in s ensures !SameKey(x, last) {
        var k :| 0 <= k < |s| && s[k] == x;
        assert !SameKey(all[k], all[|s|]);
      }
    } else if NoTies(s) {
      var i: nat, j: nat :| i < j < |all| && SameKey(all[i], all[j]);
      assert all[i] == s[i] && s[i] in s;
      assert j == |s|;
    }
  }

  lemma {:induction false} InsertTies(e: BoardEntry, s: seq<BoardEntry>)
    requires InOrder(s)
    ensures NoTies(Insert(e, s)) <==> NoTies(s) && !Rivals(s, e)
  {
    if s == [] {
    } else if Better(e, s[0]) {
      TiesFront(e, s);
    } else {
      var first, rest := s[0], s[1..];
      assert s == [first] + rest;
      InsertTies(e, rest);
      InsertHolds(e, rest);
      TiesFront(first, rest);
      TiesFront(first, Insert(e, rest));
      InsertRivals(first, e, rest);
    }
  }

  lemma InsertRivals(first: BoardEntry, e: BoardEntry, rest: seq<BoardEntry>)
    requires multiset(Insert(e, rest)) == multiset(rest) + multiset{e}
    ensures Rivals(Insert(e, rest), first) || Rivals(rest, e) <==> Rivals(rest, first) || Rivals([first] + rest, e)
  {
    var all := Insert(e, rest);
    hide Insert, Better;
    KeySymmetric(e, first);
    forall x ensures x in all <==> x == e || x in rest {
      assert x in all <==> x in multiset(all);
    }
    assert forall x :: x in [first] + rest <==> x == first || x in rest;
  }

  /** Sorting neither makes nor removes ties. */
  lemma {:induction false} SortedTies(es: seq<BoardEntry>)
    ensures NoTies(Sorted(es)) <==> NoTies(es)
  {
    if es == [] {
    } else {
      var front, last := es[..|es| - 1], es[|es| - 1];
      assert es == front + [last];
      SortedTies(front);
      SortedHolds(front);
      InsertTies(last, Sorted(front));
      TiesBack(front, last);
      assert forall x :: x in Sorted(front) <==> x in multiset(front);
      assert Rivals(Sorted(front), last) <==> Rivals(front, last);
    }
  }

  /** Ranks do not matter to the order. */
  lemma RanksIgnored(es: seq<BoardEntry>)
    ensures Separated(WithRanks(es)) <==> Separated(es)
  {
    var s := WithRanks(es);
    assert forall i, j | 0 <= i < |es| && 0 <= j < |es| :: Better(s[j], s[i]) <==> Better(es[j], es[i]);
    hide Better;
  }

  /**
   * A rank is one more than the number of entries that are better, for every entry of the board, exactly
   * when no two of them share score, tiebreaker and user.
   */
  lemma RankCountsBetter(es: seq<BoardEntry>)
    ensures |Sorted(es)| == |es|
    ensures forall i | 0 <= i < |es| :: WithRanks(Sorted(es))[i].rank == i + 1
    ensures Separated(WithRanks(Sorted(es))) <==> NoTies(es)
  {
    SortedHolds(es);
    assert |multiset(Sorted(es))| == |multiset(es)|;
    SortedTies(es);
    SeparatedExactly(Sorted(es));
    RanksIgnored(Sorted(es));
    hide Separated, NoTies, Better;
  }

  // ----- the two rankings

  function StartOf(c: Contest, p: Participation): real {
    if p.virtualStart.Some? then p.virtualStart.value else c.startTime
  }

  function StandingAt(c: Contest, p: Participation, cut: Option<real>): Standing {
    StandingOf(c.format, StartOf(c, p), c.problems, p.table, cut)
  }

  /** Entries of the participations that are not disqualified; no cut-off means the stored standings. */
  function BoardEntries(c: Contest, ps: seq<Participation>, cut: Option<real>): seq<BoardEntry> {
    if ps == [] then []
    else
      var p := ps[|ps| - 1];
      BoardEntries(c, ps[..|ps| - 1], cut) +
      if p.disqualified then []
      else [BoardEntry(p.id, p.user, if cut.Some? then StandingAt(c, p, cut) else p.stored, 0)]
  }

  function Ranking(c: Contest, ps: seq<Participation>, cut: Option<real>): seq<BoardEntry> {
    WithRanks(Sorted(BoardEntries(c, ps, cut)))
  }

  /** A better place: a higher score, then a smaller tiebreaker, then a smaller user id. */
  predicate Above(a: BoardEntry, b: BoardEntry) {
    || a.standing.score > b.standing.score
    || (a.standing.score == b.standing.score && a.standing.tiebreaker < b.standing.tiebreaker)
    || (a.standing.score == b.standing.score && a.standing.tiebreaker == b.standing.tiebreaker && a.user <= b.user)
  }

  /** The entry shows the participation, with its stored standing or the one recalculated up to the cut-off. */
  predicate ShowsEntry(c: Contest, p: Participation, cut: Option<real>, e: BoardEntry) {
    var start := if p.virtualStart.Some? then p.virtualStart.value else c.startTime;
    && e.participation == p.id && e.user == p.user
    && e.standing == if cut.Some? then StandingOf(c.format, start, c.problems, p.table, cut) else p.stored
  }

  /** Some participation that is not disqualified is what the entry shows. */
  predicate Earned(c: Contest, ps: seq<Participation>, cut: Option<real>, e: BoardEntry) {
    exists p | p in ps :: !p.disqualified && ShowsEntry(c, p, cut, e)
  }

  predicate Posted(c: Contest, p: Participation, cut: Option<real>, es: seq<BoardEntry>) {
    exists e | e in es :: ShowsEntry(c, p, cut, e)
  }

  function Eligible(ps: seq<Participation>): set<nat> {
    set i: nat | i < |ps| && !ps[i].disqualified
  }

  lemma EligibleSnoc(front: seq<Participation>, last: Participation)
    ensures |Eligible(front + [last])| == |Eligible(front)| + if last.disqualified then 0 else 1
  {
    assert Eligible(front + [last]) == Eligible(front) + if last.disqualified then {} else {|front|};
  }

  lemma EntriesSnoc(c: Contest, front: seq<Participation>, last: Participation, cut: Option<real>)
    returns (more: seq<BoardEntry>)
    ensures BoardEntries(c, front + [last], cut) == BoardEntries(c, front, cut) + more
    ensures |more| == if last.disqualified then 0 else 1
    ensures !last.disqualified ==> ShowsEntry(c, last, cut, more[0])
  {
    assert (front + [last])[..|front|] == front;
    hide StandingOf;
    more := if last.disqualified then []
            else [BoardEntry(last.id, last.user, if cut.Some? then StandingAt(c, last, cut) else last.stored, 0)];
  }

  lemma EarnedMore(c: Contest, front: seq<Participation>, last: Participation, cut: Option<real>, e: BoardEntry)
    requires Earned(c, front, cut, e) || (!last.disqualified && ShowsEntry(c, last, cut, e))
    ensures Earned(c, front + [last], cut, e)
  {
    hide ShowsEntry;
    var ps := front + [last];
    assert last in ps && forall p | p in front :: p in ps;
  }

  lemma PostedMore(c: Contest, p: Participation, cut: Option<real>, es: seq<BoardEntry>, more: seq<BoardEntry>)
    requires Posted(c, p, cut, es) || (more != [] && ShowsEntry(c, p, cut, more[0]))
    ensures Posted(c, p, cut, es + more)
  {
    hide ShowsEntry;
    var all := es + more;
    assert (more != [] ==> more[0] in all) && forall e | e in es :: e in all;
  }

  /** The entries without their ranks: one for each participation that is not disqualified. */
  lemma {:induction false} EntriesShow(c: Contest, ps: seq<Participation>, cut: Option<real>)
    ensures var es := BoardEntries(c, ps, cut);
      && |es| == |Eligible(ps)|
      && (forall e | e in es :: Earned(c, ps, cut, e))
      && (forall p | p in ps && !p.disqualified :: Posted(c, p, cut, es))
  {
    if ps == [] {
    } else {
      hide *;
      var front, last := ps[..|ps| - 1], ps[|ps| - 1];
      assert ps == front + [last];
      var before, es := BoardEntries(c, front, cut), BoardEntries(c, ps, cut);
      EntriesShow(c, front, cut);
      var more := EntriesSnoc(c, front, last, cut);
      EligibleSnoc(front, last);
      forall e | e in es ensures Earned(c, ps, cut, e) {
        EarnedMore(c, front, last, cut, e);
      }
      forall p | p in ps && !p.disqualified ensures Posted(c, p, cut, es) {
        PostedMore(c, p, cut, before, more);
      }
    }
  }

  lemma SameMembers(xs: seq<BoardEntry>, ys: seq<BoardEntry>)
    requires multiset(xs) == multiset(ys)
    ensures |xs| == |ys| && forall e :: e in xs <==> e in ys
  {
    assert |multiset(xs)| == |multiset(ys)|;
    forall e: BoardEntry ensures e in xs <==> e in ys {
      assert e in multiset(xs) <==> e in multiset(ys);
    }
  }

  lemma RankFree(c: Contest, p: Participation, cut: Option<real>, e: BoardEntry, rank: nat)
    ensures ShowsEntry(c, p, cut, e.(rank := rank)) <==> ShowsEntry(c, p, cut, e)
  {
    hide StandingOf;
  }

  lemma EarnedRanked(c: Contest, ps: seq<Participation>, cut: Option<real>, e: BoardEntry, rank: nat)
    requires Earned(c, ps, cut, e)
    ensures Earned(c, ps, cut, e.(rank := rank))
  {
    hide ShowsEntry;
    var p :| p in ps && !p.disqualified && ShowsEntry(c, p, cut, e);
    RankFree(c, p, cut, e, rank);
  }

  lemma PostedRanked(c: Contest, p: Participation, cut: Option<real>, es: seq<BoardEntry>)
    requires Posted(c, p, cut, es)
    ensures Posted(c, p, cut, WithRanks(es))
  {
    hide ShowsEntry;
    var e :| e in es && ShowsEntry(c, p, cut, e);
    var i :| 0 <= i < |es| && es[i] == e;
    RankFree(c, p, cut, e, i + 1);
    assert WithRanks(es)[i] in WithRanks(es);
  }

  lemma PostedSorted(c: Contest, p: Participation, cut: Option<real>, xs: seq<BoardEntry>, ys: seq<BoardEntry>)
    requires Posted(c, p, cut, xs) && forall e | e in xs :: e in ys
    ensures Posted(c, p, cut, ys)
  {
    hide ShowsEntry;
  }

  lemma BetterIsAbove(a: BoardEntry, b: BoardEntry, i: nat, j: nat)
    requires !Better(b, a)
    ensures Above(a.(rank := i), b.(rank := j))
  {
  }

  lemma RankingIs(c: Contest, ps: seq<Participation>, cut: Option<real>)
    ensures var sorted, board := Sorted(BoardEntries(c, ps, cut)), Ranking(c, ps, cut);
      board == WithRanks(sorted) && |board| == |sorted| &&
      forall i | 0 <= i < |board| :: board[i] == sorted[i].(rank := i + 1)
  {
    hide Sorted, BoardEntries;
  }

  /**
   * A board, whatever it is cut off at: one entry for each participation that is not disqualified, in order of
   * score, tiebreaker and user, numbered from 1.
   */
  lemma BoardHolds(c: Contest, ps: seq<Participation>, cut: Option<real>)
    ensures var board := Ranking(c, ps, cut);
      && |board| == |Eligible(ps)|
      && (forall i | 0 <= i < |board| :: board[i].rank == i + 1)
      && (forall i, j | 0 <= i < j < |board| :: Above(board[i], board[j]))
      && (forall i | 0 <= i < |board| :: Earned(c, ps, cut, board[i]))
      && (forall p | p in ps && !p.disqualified :: Posted(c, p, cut, board))
  {
    var es := BoardEntries(c, ps, cut);
    var sorted := Sorted(es);
    SortedHolds(es);
    assert forall i, j | 0 <= i < j < |sorted| :: !Better(sorted[j], sorted[i]);
    hide *;
    EntriesShow(c, ps, cut);
    SameMembers(sorted, es);
    RankingIs(c, ps, cut);
    var board := Ranking(c, ps, cut);
    forall i | 0 <= i < |board| ensures Earned(c, ps, cut, board[i]) {
      EarnedRanked(c, ps, cut, sorted[i], i + 1);
    }
    forall i, j | 0 <= i < j < |board| ensures Above(board[i], board[j]) {
      BetterIsAbove(sorted[i], sorted[j], i + 1, j + 1);
    }
    forall p | p in ps && !p.disqualified ensures Posted(c, p, cut, board) {
      PostedSorted(c, p, cut, es, sorted);
      PostedRanked(c, p, cut, sorted);
    }
  }

  /** `is_frozen`, with the freeze time when it holds. */
  function FreezeTime(c: Contest, now: real): Option<real> {
    if c.frozenAfter.Some? && c.frozenAfter.value != 0.0 && c.startTime + c.frozenAfter.value <= now < c.endTime
    then Some(c.startTime + c.frozenAfter.value)
    else None
  }

  /** Frozen exactly from the freeze on until the contest ends, if a freeze is set at all. */
  lemma FrozenExactly(c: Contest, now: real)
    ensures FreezeTime(c, now).Some? <==>
      && c.frozenAfter.Some? && c.frozenAfter.value != 0.0
      && c.startTime + c.frozenAfter.value <= now && now < c.endTime
    ensures FreezeTime(c, now).Some? ==> FreezeTime(c, now).value == c.startTime + c.frozenAfter.value
  {
  }

  /** `get_frozen_ranking`; while nothing is frozen it is `get_ranking`. */
  method GetFrozenRanking(c: Contest, ps: seq<Participation>, now: real) returns (entries: array<BoardEntry>)
    ensures fresh(entries) && entries[..] == Ranking(c, ps, FreezeTime(c, now))
  {
    var cut := FreezeTime(c, now);
    var collected: seq<BoardEntry> := [];
    for k := 0 to |ps|
      invariant collected == BoardEntries(c, ps[..k], cut)
    {
      assert ps[..k + 1][..k] == ps[..k];
      var p := ps[k];
      if !p.disqualified {
        var standing := p.stored;
        if cut.Some? {
          standing := CalculateParticipation(c.format, StartOf(c, p), c.problems, p.table, cut);
        }
        collected := collected + [BoardEntry(p.id, p.user, standing, 0)];
      }
    }
    assert ps[..|ps|] == ps;
    var sorted := Sorted(collected);
    entries := new BoardEntry[|sorted|](i requires 0 <= i < |sorted| => sorted[i]);
    assert entries[..] == sorted;
    AssignRanks(entries);
  }

  // ----- what a freeze hides

  /** The participation as it was at some time, with its standing up to date. */
  function AsOf(c: Contest, p: Participation, time: real): Participation {
    var past := Upto(p.table, time);
    p.(table := past, stored := StandingOf(c.format, StartOf(c, p), c.problems, past, None))
  }

  function AllAsOf(c: Contest, ps: seq<Participation>, time: real): (past: seq<Participation>)
    ensures |past| == |ps|
  {
    seq(|ps|, i requires 0 <= i < |ps| => AsOf(c, ps[i], time))
  }

  lemma {:induction false} BoardAsOf(c: Contest, ps: seq<Participation>, time: real)
    ensures BoardEntries(c, ps, Some(time)) == BoardEntries(c, AllAsOf(c, ps, time), None)
  {
    if ps == [] {
    } else {
      var front := ps[..|ps| - 1];
      BoardAsOf(c, front, time);
      assert AllAsOf(c, ps, time)[..|ps| - 1] == AllAsOf(c, front, time);
      FrozenIsPast(c.format, StartOf(c, ps[|ps| - 1]), c.problems, ps[|ps| - 1].table, time);
    }
  }

  /** While the board is frozen it is the board of the freeze time, recalculated. */
  lemma FrozenBoardIsPastBoard(c: Contest, ps: seq<Participation>, now: real)
    requires FreezeTime(c, now).Some?
    ensures Ranking(c, ps, FreezeTime(c, now)) == Ranking(c, AllAsOf(c, ps, FreezeTime(c, now).value), None)
  {
    BoardAsOf(c, ps, FreezeTime(c, now).value);
  }

  /** So nothing submitted after the freeze, and no stored standing, can be read off it. */
  lemma FreezeHides(c: Contest, ps: seq<Participation>, qs: seq<Participation>, now: real)
    requires FreezeTime(c, now).Some? && |ps| == |qs|
    requires forall i | 0 <= i < |ps| ::
      qs[i] == ps[i].(table := qs[i].table, stored := qs[i].stored)
      && Upto(ps[i].table, FreezeTime(c, now).value) == Upto(qs[i].table, FreezeTime(c, now).value)
    ensures Ranking(c, ps, FreezeTime(c, now)) == Ranking(c, qs, FreezeTime(c, now))
  {
    var time := FreezeTime(c, now).value;
    FrozenBoardIsPastBoard(c, ps, now);
    FrozenBoardIsPastBoard(c, qs, now);
    forall i | 0 <= i < |ps| ensures AllAsOf(c, ps, time)[i] == AllAsOf(c, qs, time)[i] {
      hide Upto, StandingOf;
    }
    assert AllAsOf(c, ps, time) == AllAsOf(c, qs, time);
  }
}
