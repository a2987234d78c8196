/** From the contest board to the rating engine: the board's order is the order the engine needs. */
module RatedBoard {
  import opened Options
  import FrozenRanking
  import TieRanks
  import EloMmr
  import RatingHistory

  /** The rank key the rating service takes from a board entry. */
  function RankKey(e: FrozenRanking.BoardEntry): TieRanks.Key {
    TieRanks.Key(e.standing.score, e.standing.tiebreaker)
  }

  /** What the rating service reads of a participation. */
  datatype Entrant = Entrant(user: nat, live: bool, disqualified: bool, submissions: nat)

  datatype Selection = Selection(entrants: map<nat, Entrant>, excludedUsers: set<nat>, rateAll: bool)

  /** Live, not disqualified, not an excluded user, and with a submission unless everybody is rated. */
  predicate Rates(s: Selection, participation: nat) {
    && participation in s.entrants
    && var e := s.entrants[participation];
       e.live && !e.disqualified && e.user !in s.excludedUsers && (s.rateAll || e.submissions > 0)
  }

  function RatedEntry(s: Selection, b: FrozenRanking.BoardEntry): RatingHistory.Entry
    requires Rates(s, b.participation)
  {
    RatingHistory.Entry(s.entrants[b.participation].user, RankKey(b))
  }

  /** The board entries of rated participations, in board order; each is looked up by its own id. */
  function Rated(board: seq<FrozenRanking.BoardEntry>, s: Selection): (es: seq<RatingHistory.Entry>)
    ensures forall e | e in es :: exists b | b in board :: e.key == RankKey(b)
  {
    if board == [] then []
    else
      assert board == [board[0]] + board[1..];
      (if Rates(s, board[0].participation) then [RatedEntry(s, board[0])] else []) + Rated(board[1..], s)
  }

  /** Nothing below the first entry of a board has a better key. */
  lemma FirstKeyBest(board: seq<FrozenRanking.BoardEntry>, s: Selection)
    requires FrozenRanking.InOrder(board) && board != []
    ensures FrozenRanking.InOrder(board[1..])
    ensures forall k | k in RatingHistory.Keys(Rated(board[1..], s)) :: !TieRanks.Better(k, RankKey(board[0]))
  {
    hide Rated, RatingHistory.Keys;
    forall k | k in RatingHistory.Keys(Rated(board[1..], s)) ensures !TieRanks.Better(k, RankKey(board[0])) {
      var j := KeyPlace(board[1..], s, k);
      assert board[1..][j] == board[j + 1] && !FrozenRanking.Better(board[j + 1], board[0]);
    }
    hide FrozenRanking.Better;
  }

  lemma KeyPlace(board: seq<FrozenRanking.BoardEntry>, s: Selection, k: TieRanks.Key) returns (j: nat)
    requires k in RatingHistory.Keys(Rated(board, s))
    ensures j < |board| && k == RankKey(board[j])
  {
    var es := Rated(board, s);
    hide Rated;
    var i :| 0 <= i < |es| && RatingHistory.Keys(es)[i] == k;
    assert es[i] in es;
    var b :| b in board && es[i].key == RankKey(b);
    j :| 0 <= j < |board| && board[j] == b;
  }

  lemma KeysFront(e: RatingHistory.Entry, rest: seq<RatingHistory.Entry>)
    ensures RatingHistory.Keys([e] + rest) == [e.key] + RatingHistory.Keys(rest)
    ensures RatingHistory.Keys([] + rest) == RatingHistory.Keys(rest)
  {
    assert [] + rest == rest;
  }

  lemma KeysStep(board: seq<FrozenRanking.BoardEntry>, s: Selection)
    requires board != []
    ensures RatingHistory.Keys(Rated(board, s)) ==
      (if Rates(s, board[0].participation) then [RankKey(board[0])] else []) + RatingHistory.Keys(Rated(board[1..], s))
  {
    if Rates(s, board[0].participation) {
      KeysFront(RatedEntry(s, board[0]), Rated(board[1..], s));
    }
    assert [] + RatingHistory.Keys(Rated(board[1..], s)) == RatingHistory.Keys(Rated(board[1..], s));
    assert [] + Rated(board[1..], s) == Rated(board[1..], s);
    hide RatingHistory.Keys;
  }

  /** Leaving participations off the board keeps the others in the order tie ranks and engine rely on. */
  lemma {:induction false} RatedInOrder(board: seq<FrozenRanking.BoardEntry>, s: Selection)
    requires FrozenRanking.InOrder(board)
    ensures TieRanks.Standing(RatingHistory.Keys(Rated(board, s)))
  {
    if board == [] {
    } else {
      hide *;
      var keys := RatingHistory.Keys(Rated(board[1..], s));
      FirstKeyBest(board, s);
      RatedInOrder(board[1..], s);
      KeysStep(board, s);
      assert [] + keys == keys;
      RatingHistory.HeadStanding(RankKey(board[0]), keys);
    }
  }

  /** The stored ranks do not disturb the order of the board. */
  lemma BoardInOrder(c: FrozenRanking.Contest, ps: seq<FrozenRanking.Participation>)
    ensures FrozenRanking.InOrder(FrozenRanking.Ranking(c, ps, None))
  {
    var sorted := FrozenRanking.Sorted(FrozenRanking.BoardEntries(c, ps, None));
    FrozenRanking.SortedHolds(FrozenRanking.BoardEntries(c, ps, None));
    var board := FrozenRanking.Ranking(c, ps, None);
    forall i, j | 0 <= i < j < |board| ensures !FrozenRanking.Better(board[j], board[i]) {
      assert !FrozenRanking.Better(sorted[j], sorted[i]);
    }
  }

  /**
   * Rating a contest from its own board, after any sequence of rated contests: players with equal
   * score and tiebreaker end within 4 of each other, and a better place never has a lower performance.
   */
  lemma BoardRates(a: EloMmr.Analysis, limits: RatingHistory.Limits, rounds: seq<RatingHistory.Round>,
      rc: RatingHistory.Contest, c: FrozenRanking.Contest, ps: seq<FrozenRanking.Participation>, s: Selection)
    requires a.Valid()
    ensures var t := RatingHistory.Play(a, limits, rounds);
      var es := RatingHistory.Select(t, rc, Rated(FrozenRanking.Ranking(c, ps, None), s));
      var rows := RatingHistory.NewRows(a, limits, t, rc, es);
      && (|es| >= 2 ==> forall i, j | 0 <= i <= j < |es| :: rows[j].performance <= rows[i].performance)
      && (forall i, j | 0 <= i < |es| && 0 <= j < |es| && es[i].key == es[j].key ::
            rows[i].performance - rows[j].performance <= 4.0)
  {
    hide *;
    BoardInOrder(c, ps);
    RatedInOrder(FrozenRanking.Ranking(c, ps, None), s);
    RatingHistory.RoundOutcome(a, limits, rounds, rc, Rated(FrozenRanking.Ranking(c, ps, None), s));
  }

  /** The entry is taken from a board entry whose participation counts. */
  predicate TakenFrom(s: Selection, b: FrozenRanking.BoardEntry, e: RatingHistory.Entry) {
    && b.participation in s.entrants
    && var p := s.entrants[b.participation];
       && p.live && !p.disqualified && p.user !in s.excludedUsers && (s.rateAll || p.submissions > 0)
       && e.user == p.user && e.key.score == b.standing.score && e.key.tiebreaker == b.standing.tiebreaker
  }

  predicate Counts(s: Selection, b: FrozenRanking.BoardEntry) {
    && b.participation in s.entrants
    && var p := s.entrants[b.participation];
       p.live && !p.disqualified && p.user !in s.excludedUsers && (s.rateAll || p.submissions > 0)
  }

  function HowMany(board: seq<FrozenRanking.BoardEntry>, s: Selection): nat {
    if board == [] then 0 else (if Counts(s, board[0]) then 1 else 0) + HowMany(board[1..], s)
  }

  /** Each counting entry of the board gives one rated entry, and nothing else does. */
  lemma {:induction false} RatedExactly(board: seq<FrozenRanking.BoardEntry>, s: Selection)
    ensures var es := Rated(board, s);
      && |es| == HowMany(board, s)
      && (forall e | e in es :: exists b | b in board :: TakenFrom(s, b, e))
      && (forall b | b in board && Counts(s, b) :: exists e | e in es :: TakenFrom(s, b, e))
  {
    if board == [] {
    } else {
      var b, rest := board[0], board[1..];
      RatedExactly(rest, s);
      assert b in board && forall x | x in rest :: x in board;
      var es, later := Rated(board, s), Rated(rest, s);
      assert forall e | e in later :: e in es;
      if Rates(s, b.participation) {
        assert TakenFrom(s, b, RatedEntry(s, b)) && RatedEntry(s, b) in es;
      }
      hide TakenFrom;
      forall x | x in board && Counts(s, x) ensures exists e | e in es :: TakenFrom(s, x, e) {
        if x in rest {
          var e :| e in later && TakenFrom(s, x, e);
        }
      }
    }
  }
}
