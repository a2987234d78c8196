/** When a user's current rating is the one their newest rating row ends with. */
module CurrentRatings {
  import opened EloMmr
  import opened RatingHistory

  predicate Current(t: Table, user: int) {
    RowsOf(t, user) == [] || UserOf(t, user).rating == RowsOf(t, user)[0].ratingAfter
  }

  /** Where the writing loop last meets a user; |es| when it does not. */
  function LastPlace(es: seq<Entry>, user: int): (i: nat)
    ensures i < |es| ==> es[i].user == user
    ensures i >= |es| ==> i == |es| && forall e | e in es :: e.user != user
  {
    if es == [] then 0
    else if es[|es| - 1].user == user then |es| - 1
    else
      var i := LastPlace(es[..|es| - 1], user);
      assert es == es[..|es| - 1] + [es[|es| - 1]];
      if i == |es| - 1 then |es| else i
  }

  // ----- what the writing loop does to one user

  lemma {:induction false} WithoutInsert(rows: seq<Row>, row: Row)
    ensures Without(Insert(rows, row), row.contest) == Without(rows, row.contest)
  {
    if rows == [] || rows[0].endTime <= row.endTime {
      assert Insert(rows, row)[1..] == rows;
    } else {
      assert Insert(rows, row)[1..] == Insert(rows[1..], row);
      WithoutInsert(rows[1..], row);
    }
  }

  lemma {:induction false} WithoutTwice(rows: seq<Row>, contest: int)
    ensures Without(Without(rows, contest), contest) == Without(rows, contest)
  {
    if rows == [] {
    } else {
      WithoutTwice(rows[1..], contest);
      if rows[0].contest != contest {
        assert Without(rows, contest)[1..] == Without(rows[1..], contest);
      }
    }
  }

  lemma {:induction false} WithoutNone(rows: seq<Row>, contest: int)
    requires forall r | r in rows :: r.contest != contest
    ensures Without(rows, contest) == rows
  {
    if rows == [] {
    } else {
      assert rows[0] in rows;
      WithoutNone(rows[1..], contest);
      assert rows == [rows[0]] + rows[1..];
    }
  }

  lemma PutUser(t: Table, user: int, row: Row, other: int)
    ensures RowsOf(Put(t, user, row), user) == Insert(Without(RowsOf(t, user), row.contest), row)
    ensures UserOf(Put(t, user, row), user).rating == row.ratingAfter
    ensures other != user ==> RowsOf(Put(t, user, row), other) == RowsOf(t, other)
    ensures other != user ==> UserOf(Put(t, user, row), other) == UserOf(t, other)
  {
  }

  /** A user ends with the last row written for them, put into their other rows by end time. */
  lemma {:induction false} PutAllUser(t: Table, es: seq<Entry>, rows: seq<Row>, contest: int, user: int)
    requires |es| == |rows| && forall r | r in rows :: r.contest == contest
    ensures var i := LastPlace(es, user);
      var t' := PutAll(t, es, rows);
      && (i == |es| ==> RowsOf(t', user) == RowsOf(t, user) && UserOf(t', user) == UserOf(t, user))
      && (i < |es| ==> RowsOf(t', user) == Insert(Without(RowsOf(t, user), contest), rows[i]))
      && (i < |es| ==> UserOf(t', user).rating == rows[i].ratingAfter)
  {
    if es == [] {
    } else {
      var n := |es| - 1;
      var front := PutAll(t, es[..n], rows[..n]);
      assert rows[n] in rows && forall r | r in rows[..n] :: r in rows;
      LastPlaceBack(es, user);
      PutAllBack(t, es, rows);
      hide *;
      PutAllUser(t, es[..n], rows[..n], contest, user);
      PutUser(front, es[n].user, rows[n], user);
      if es[n].user == user && LastPlace(es[..n], user) < n {
        var i := LastPlace(es[..n], user);
        assert rows[..n][i] == rows[i] && rows[i] in rows;
        WithoutInsert(Without(RowsOf(t, user), contest), rows[i]);
        WithoutTwice(RowsOf(t, user), contest);
      }
    }
  }

  lemma LastPlaceBack(es: seq<Entry>, user: int)
    requires es != []
    ensures var n := |es| - 1;
      LastPlace(es, user) ==
        if es[n].user == user then n
        else if LastPlace(es[..n], user) == n then n + 1 else LastPlace(es[..n], user)
  {
  }

  lemma PutAllBack(t: Table, es: seq<Entry>, rows: seq<Row>)
    requires |es| == |rows| > 0
    ensures var n := |es| - 1; PutAll(t, es, rows) == Put(PutAll(t, es[..n], rows[..n]), es[n].user, rows[n])
  {
    hide Put;
  }

  lemma InsertFirst(rows: seq<Row>, row: Row)
    ensures Insert(rows, row) != []
    ensures Insert(rows, row)[0] == if rows == [] || rows[0].endTime <= row.endTime then row else rows[0]
  {
  }

  lemma DroppedUser(t: Table, contest: int, user: int)
    ensures RowsOf(DropContest(t, contest), user) == History(t, user, contest)
    ensures UserOf(DropContest(t, contest), user) == UserOf(t, user)
  {
  }

  lemma KeptUser(t: Table, contest: int, user: int)
    requires !HasRows(t, contest)
    ensures RowsOf(t, user) == History(t, user, contest)
  {
    WithoutNone(RowsOf(t, user), contest);
  }

  lemma NewRowsOfContest(a: Analysis, limits: Limits, t: Table, c: Contest, es: seq<Entry>)
    requires a.Valid()
    ensures forall r | r in NewRows(a, limits, t, c, es) :: r.contest == c.id && r.endTime == c.endTime
  {
  }

  // ----- one contest

  /** What `calculate_ratings` leaves of one user when it does not return early. */
  lemma RatedUser(a: Analysis, limits: Limits, t: Table, c: Contest, force: bool, standings: seq<Entry>, user: int)
    requires a.Valid() && c.isRated && (force || !HasRows(t, c.id))
    ensures var es := Select(t, c, standings);
      var rows := NewRows(a, limits, t, c, es);
      var i := LastPlace(es, user);
      var t' := Rate(a, limits, t, c, force, standings);
      && (i == |es| ==> RowsOf(t', user) == History(t, user, c.id) && UserOf(t', user) == UserOf(t, user))
      && (i < |es| ==> RowsOf(t', user) == Insert(History(t, user, c.id), rows[i]))
      && (i < |es| ==> UserOf(t', user).rating == rows[i].ratingAfter)
  {
    hide NewRows, Select, HasRows, PutAll, DropContest, RowsOf, UserOf, History;
    var es := Select(t, c, standings);
    var rows := NewRows(a, limits, t, c, es);
    DroppedUser(t, c.id, user);
    if !force {
      KeptUser(t, c.id, user);
    }
    NewRowsOfContest(a, limits, t, c, es);
    if es != [] {
      var base := if force then DropContest(t, c.id) else t;
      PutAllUser(base, es, rows, c.id, user);
      assert Without(RowsOf(base, user), c.id) == History(t, user, c.id) by {
        HistoryTwice(t, user, c.id);
      }
    }
  }

  lemma HistoryTwice(t: Table, user: int, contest: int)
    ensures Without(History(t, user, contest), contest) == History(t, user, contest)
  {
    WithoutTwice(RowsOf(t, user), contest);
  }

  /**
   * Exactly when rating one contest leaves a current rating that is the newest row's. For a player it
   * rates: no other contest they were rated in ended later, or that one shows the same number. For everyone
   * else: the rating they have is that of their newest row of another contest.
   */
  lemma CurrentExactly(a: Analysis, limits: Limits, t: Table, c: Contest, force: bool, standings: seq<Entry>, user: int)
    requires a.Valid() && c.isRated && (force || !HasRows(t, c.id))
    ensures var es := Select(t, c, standings);
      var i := LastPlace(es, user);
      var others := History(t, user, c.id);
      Current(Rate(a, limits, t, c, force, standings), user) <==>
        if i < |es| then
          others == [] || others[0].endTime <= c.endTime ||
          others[0].ratingAfter == NewRows(a, limits, t, c, es)[i].ratingAfter
        else others == [] || others[0].ratingAfter == UserOf(t, user).rating
  {
    hide NewRows, Select, HasRows, Rate, RowsOf, UserOf, History, Insert;
    RatedUser(a, limits, t, c, force, standings, user);
    NewRowsOfContest(a, limits, t, c, Select(t, c, standings));
    var es := Select(t, c, standings);
    var i := LastPlace(es, user);
    if i < |es| {
      var row := NewRows(a, limits, t, c, es)[i];
      assert row in NewRows(a, limits, t, c, es);
      InsertFirst(History(t, user, c.id), row);
    }
  }

  // ----- whole runs

  ghost predicate Chronological(rounds: seq<Round>) {
    forall i, j | 0 <= i <= j < |rounds| :: rounds[i].contest.endTime <= rounds[j].contest.endTime
  }

  /** Every row of the table is of a contest that ended by then. */
  ghost predicate EndedBy(t: Table, time: int) {
    forall u | u in t.rows :: forall r | r in t.rows[u] :: r.endTime <= time
  }

  ghost predicate AllCurrent(t: Table) {
    forall u :: Current(t, u)
  }

  ghost predicate NoRows(t: Table) {
    forall u :: RowsOf(t, u) == []
  }

  lemma EndedRows(t: Table, time: int, user: int)
    requires EndedBy(t, time)
    ensures forall r | r in RowsOf(t, user) :: r.endTime <= time
  {
  }

  lemma FirstIn(rows: seq<Row>)
    requires rows != []
    ensures rows[0] in rows
  {
  }

  /** An unforced contest that ended no earlier than all before it keeps every current rating up to date. */
  lemma RateCurrent(a: Analysis, limits: Limits, t: Table, c: Contest, standings: seq<Entry>)
    requires a.Valid() && AllCurrent(t) && EndedBy(t, c.endTime)
    ensures AllCurrent(Rate(a, limits, t, c, false, standings))
  {
    if c.isRated && !HasRows(t, c.id) {
      hide NewRows, Select, HasRows, Rate, RowsOf, UserOf, History, EndedBy;
      forall u ensures Current(Rate(a, limits, t, c, false, standings), u) {
        CurrentExactly(a, limits, t, c, false, standings, u);
        KeptUser(t, c.id, u);
        EndedRows(t, c.endTime, u);
        assert Current(t, u);
        if RowsOf(t, u) != [] {
          FirstIn(RowsOf(t, u));
        }
      }
    }
  }

  lemma RowsEnded(a: Analysis, limits: Limits, t: Table, c: Contest, standings: seq<Entry>, user: int)
    requires a.Valid() && EndedBy(t, c.endTime) && c.isRated && !HasRows(t, c.id)
    ensures forall r | r in RowsOf(Rate(a, limits, t, c, false, standings), user) :: r.endTime <= c.endTime
  {
    hide NewRows, Select, HasRows, Rate, UserOf, Insert, EndedBy, LastPlace, Without, RowsOf;
    RatedUser(a, limits, t, c, false, standings, user);
    NewRowsOfContest(a, limits, t, c, Select(t, c, standings));
    EndedRows(t, c.endTime, user);
    var es := Select(t, c, standings);
    var i := LastPlace(es, user);
    if i < |es| {
      var row := NewRows(a, limits, t, c, es)[i];
      assert row in NewRows(a, limits, t, c, es);
      InsertHolds(History(t, user, c.id), row);
    }
  }

  lemma RateEnded(a: Analysis, limits: Limits, t: Table, c: Contest, standings: seq<Entry>)
    requires a.Valid() && EndedBy(t, c.endTime)
    ensures EndedBy(Rate(a, limits, t, c, false, standings), c.endTime)
  {
    if c.isRated && !HasRows(t, c.id) {
      var t' := Rate(a, limits, t, c, false, standings);
      hide Rate, EndedBy, HasRows;
      forall u | u in t'.rows ensures forall r | r in t'.rows[u] :: r.endTime <= c.endTime {
        RowsEnded(a, limits, t, c, standings, u);
        assert t'.rows[u] == RowsOf(t', u);
      }
      EndedIs(t', c.endTime);
    }
  }

  lemma EndedIs(t: Table, time: int)
    requires forall u | u in t.rows :: forall r | r in t.rows[u] :: r.endTime <= time
    ensures EndedBy(t, time)
  {
  }

  lemma InsertHolds(rows: seq<Row>, row: Row)
    ensures forall r | r in Insert(rows, row) :: r == row || r in rows
  {
  }

  lemma {:induction false} PlayCurrent(a: Analysis, limits: Limits, start: Table, rounds: seq<Round>, time: int)
    requires a.Valid() && NoRows(start) && Chronological(rounds) && forall r | r in rounds :: !r.force
    requires forall r | r in rounds :: r.contest.endTime <= time
    ensures AllCurrent(PlayFrom(a, limits, start, rounds))
    ensures EndedBy(PlayFrom(a, limits, start, rounds), time)
  {
    if rounds == [] {
      assert forall u | u in start.rows :: RowsOf(start, u) == start.rows[u];
    } else {
      hide AllCurrent, EndedBy, NoRows, Rate;
      var front, last := rounds[..|rounds| - 1], rounds[|rounds| - 1];
      assert last in rounds && forall r | r in front :: r in rounds;
      EarlierEnd(rounds);
      PlayCurrent(a, limits, start, front, last.contest.endTime);
      var t := PlayFrom(a, limits, start, front);
      RateCurrent(a, limits, t, last.contest, last.standings);
      RateEnded(a, limits, t, last.contest, last.standings);
      EndedLater(Rate(a, limits, t, last.contest, false, last.standings), last.contest.endTime, time);
    }
  }

  lemma EarlierEnd(rounds: seq<Round>)
    requires Chronological(rounds) && rounds != []
    ensures Chronological(rounds[..|rounds| - 1])
    ensures forall r | r in rounds[..|rounds| - 1] :: r.contest.endTime <= rounds[|rounds| - 1].contest.endTime
  {
  }

  lemma EndedLater(t: Table, early: int, late: int)
    requires EndedBy(t, early) && early <= late
    ensures EndedBy(t, late)
  {
  }

  /** From a table without rows, contests rated once each in the order they ended keep every rating current. */
  lemma ChronologicalCurrent(a: Analysis, limits: Limits, start: Table, rounds: seq<Round>, user: int)
    requires a.Valid() && NoRows(start) && Chronological(rounds) && forall r | r in rounds :: !r.force
    ensures Current(PlayFrom(a, limits, start, rounds), user)
  {
    hide Rate, Current, NoRows;
    if rounds == [] {
      PlayCurrent(a, limits, start, rounds, 0);
    } else {
      EarlierEnd(rounds);
      forall r | r in rounds ensures r.contest.endTime <= rounds[|rounds| - 1].contest.endTime {
      }
      PlayCurrent(a, limits, start, rounds, rounds[|rounds| - 1].contest.endTime);
    }
  }

  lemma ChronologicalUnforced(rounds: seq<Round>)
    requires Chronological(rounds)
    ensures Chronological(Unforced(rounds)) && forall r | r in Unforced(rounds) :: !r.force
  {
  }

  lemma RaisedUser(t: Table, limits: Limits, user: int)
    requires RowsOk(limits, t) && Current(t, user) && (RowsOf(t, user) != [] ==> user in t.users)
    ensures RowsOf(Raised(t, limits.floor), user) == RowsOf(t, user)
    ensures Current(Raised(t, limits.floor), user) <==> RowsOf(t, user) == [] || limits.floor <= limits.ceiling
  {
    if RowsOf(t, user) != [] {
      FirstIn(RowsOf(t, user));
      assert RowOk(limits, RowsOf(t, user)[0]);
    }
  }

  lemma ClearedRows(t: Table, limits: Limits)
    ensures NoRows(Cleared(t)) && RowsOk(limits, Cleared(t))
  {
  }

  /** Whoever has a row has a user record. */
  lemma {:induction false} RowsHaveUsers(a: Analysis, limits: Limits, start: Table, rounds: seq<Round>)
    requires a.Valid() && start.rows.Keys <= start.users.Keys
    ensures PlayFrom(a, limits, start, rounds).rows.Keys <= PlayFrom(a, limits, start, rounds).users.Keys
  {
    if rounds == [] {
    } else {
      hide NewRows, Select, HasRows, PutAll;
      var front, last := rounds[..|rounds| - 1], rounds[|rounds| - 1];
      RowsHaveUsers(a, limits, start, front);
      var t := PlayFrom(a, limits, start, front);
      var es := Select(t, last.contest, last.standings);
      var base := if last.force then DropContest(t, last.contest.id) else t;
      PutAllUsers(base, es, NewRows(a, limits, t, last.contest, es));
    }
  }

  lemma {:induction false} PutAllUsers(t: Table, es: seq<Entry>, rows: seq<Row>)
    requires |es| == |rows| && t.rows.Keys <= t.users.Keys
    ensures PutAll(t, es, rows).rows.Keys <= PutAll(t, es, rows).users.Keys
  {
    if es == [] {
    } else {
      PutAllUsers(t, es[..|es| - 1], rows[..|es| - 1]);
    }
  }

  /**
   * After recalculating everything in the order the contests ended, a rated user's current rating is the
   * newest row's exactly when the floor does not exceed the ceiling.
   */
  lemma RecalculatedCurrent(a: Analysis, limits: Limits, t: Table, rounds: seq<Round>, user: int)
    requires a.Valid() && Chronological(rounds)
    ensures var t' := Recalculated(a, limits, t, Unforced(rounds));
      Current(t', user) <==> RowsOf(t', user) == [] || limits.floor <= limits.ceiling
  {
    hide PlayFrom, Raised, Cleared, Current, Chronological, NoRows, RowsOk, RowsOf, Unforced;
    ClearedRows(t, limits);
    ChronologicalUnforced(rounds);
    ChronologicalCurrent(a, limits, Cleared(t), Unforced(rounds), user);
    PlayFromOk(a, limits, Cleared(t), Unforced(rounds));
    ClearedUsers(t);
    RowsHaveUsers(a, limits, Cleared(t), Unforced(rounds));
    var played := PlayFrom(a, limits, Cleared(t), Unforced(rounds));
    UserKnown(played, user);
    RaisedUser(played, limits, user);
  }

  lemma ClearedUsers(t: Table)
    ensures Cleared(t).rows.Keys <= Cleared(t).users.Keys
  {
  }

  lemma UserKnown(t: Table, user: int)
    requires t.rows.Keys <= t.users.Keys
    ensures RowsOf(t, user) != [] ==> user in t.users
  {
  }

  // ----- best ratings

  lemma {:induction false} PutAllBest(limits: Limits, t: Table, es: seq<Entry>, rows: seq<Row>, user: int)
    requires |es| == |rows| && forall r | r in rows :: RowOk(limits, r)
    ensures UserOf(PutAll(t, es, rows), user).maxRating >= limits.floor <==>
      UserOf(t, user).maxRating >= limits.floor || (LastPlace(es, user) < |es| && limits.floor <= limits.ceiling)
  {
    if es == [] {
    } else {
      hide RowsOf;
      var n := |es| - 1;
      assert rows[n] in rows && RowOk(limits, rows[n]) && forall r | r in rows[..n] :: r in rows;
      PutAllBest(limits, t, es[..n], rows[..n], user);
      PutBest(PutAll(t, es[..n], rows[..n]), es[n].user, rows[n], user);
    }
  }

  lemma PutBest(t: Table, user: int, row: Row, other: int)
    ensures UserOf(Put(t, user, row), other).maxRating ==
      if other == user && row.ratingAfter > UserOf(t, user).maxRating then row.ratingAfter
      else UserOf(t, other).maxRating
  {
  }

  /** Whether a user's best rating reaches the floor after a run: it did before, or they were rated at all. */
  ghost predicate BestReached(limits: Limits, start: Table, t: Table, user: int) {
    UserOf(t, user).maxRating >= limits.floor <==>
      UserOf(start, user).maxRating >= limits.floor || (RowsOf(t, user) != [] && limits.floor <= limits.ceiling)
  }

  lemma RatedBest(a: Analysis, limits: Limits, t: Table, c: Contest, standings: seq<Entry>, user: int)
    requires a.Valid() && RowsOk(limits, t) && c.isRated && !HasRows(t, c.id)
    ensures var t', es := Rate(a, limits, t, c, false, standings), Select(t, c, standings);
      UserOf(t', user).maxRating >= limits.floor <==>
        UserOf(t, user).maxRating >= limits.floor || (LastPlace(es, user) < |es| && limits.floor <= limits.ceiling)
  {
    var es := Select(t, c, standings);
    NewRowsOk(a, limits, t, c, es);
    PutAllBest(limits, t, es, NewRows(a, limits, t, c, es), user);
    DroppedUser(t, c.id, user);
    hide NewRows, Select, HasRows, PutAll, DropContest, UserOf, RowOk, RowsOk;
  }

  lemma RatedRows(a: Analysis, limits: Limits, t: Table, c: Contest, standings: seq<Entry>, user: int)
    requires a.Valid() && c.isRated && !HasRows(t, c.id)
    ensures var t', es := Rate(a, limits, t, c, false, standings), Select(t, c, standings);
      RowsOf(t', user) != [] <==> RowsOf(t, user) != [] || LastPlace(es, user) < |es|
  {
    hide NewRows, Select, HasRows, Rate, RowsOf, UserOf, History;
    var es := Select(t, c, standings);
    RatedUser(a, limits, t, c, false, standings, user);
    KeptUser(t, c.id, user);
    var i := LastPlace(es, user);
    if i < |es| {
      InsertFirst(History(t, user, c.id), NewRows(a, limits, t, c, es)[i]);
    }
  }

  lemma RateBest(a: Analysis, limits: Limits, start: Table, t: Table, c: Contest, standings: seq<Entry>, user: int)
    requires a.Valid() && RowsOk(limits, t) && BestReached(limits, start, t, user)
    ensures BestReached(limits, start, Rate(a, limits, t, c, false, standings), user)
  {
    if c.isRated && !HasRows(t, c.id) {
      hide HasRows, Rate, Select, RowsOf, UserOf, RowsOk;
      RatedBest(a, limits, t, c, standings, user);
      RatedRows(a, limits, t, c, standings, user);
    }
  }

  lemma {:induction false} PlayBest(a: Analysis, limits: Limits, start: Table, rounds: seq<Round>, user: int)
    requires a.Valid() && NoRows(start) && RowsOk(limits, start) && forall r | r in rounds :: !r.force
    ensures BestReached(limits, start, PlayFrom(a, limits, start, rounds), user)
  {
    if rounds == [] {
      assert RowsOf(start, user) == [];
    } else {
      hide Rate, RowsOk, NoRows, BestReached;
      var front, last := rounds[..|rounds| - 1], rounds[|rounds| - 1];
      assert last in rounds && forall r | r in front :: r in rounds;
      PlayBest(a, limits, start, front, user);
      PlayFromOk(a, limits, start, front);
      RateBest(a, limits, start, PlayFrom(a, limits, start, front), last.contest, last.standings, user);
    }
  }

  lemma RaisedBest(t: Table, floor: int)
    requires BestOk(t)
    ensures BestOk(Raised(t, floor)) <==> forall u | u in t.users :: t.users[u].maxRating >= floor
  {
    if BestOk(Raised(t, floor)) {
      forall u | u in t.users ensures t.users[u].maxRating >= floor {
        assert u in Raised(t, floor).users;
      }
    }
  }

  /**
   * Recalculating everything keeps every current rating at or below the user's best rating exactly when
   * each user starts with a best rating of at least the floor, or is rated and the floor does not exceed
   * the ceiling: the last step raises current ratings only.
   */
  lemma RecalculatedBest(a: Analysis, limits: Limits, t: Table, rounds: seq<Round>)
    requires a.Valid() && BestOk(t)
    ensures var t' := Recalculated(a, limits, t, Unforced(rounds));
      BestOk(t') <==> forall u | u in t'.users ::
        UserOf(Cleared(t), u).maxRating >= limits.floor || (RowsOf(t', u) != [] && limits.floor <= limits.ceiling)
  {
    var start, rs := Cleared(t), Unforced(rounds);
    ClearedRows(t, limits);
    ClearedBest(t);
    UnforcedAll(rounds);
    PlayFromOk(a, limits, start, rs);
    var played := PlayFrom(a, limits, start, rs);
    hide PlayFrom, Cleared, Unforced, BestOk, RowsOk, NoRows;
    RaisedBest(played, limits.floor);
    forall u | u in played.users ensures BestReached(limits, start, played, u) && UserOf(played, u) == played.users[u] {
      PlayBest(a, limits, start, rs, u);
    }
  }

  lemma ClearedBest(t: Table)
    requires BestOk(t)
    ensures BestOk(Cleared(t))
  {
  }

  lemma UnforcedAll(rounds: seq<Round>)
    ensures forall r | r in Unforced(rounds) :: !r.force
  {
  }

  /** Nobody was ever rated and the floor is 100: after recalculating, a user shows 100 with a best rating of 0. */
  lemma FloorPassesBest(a: Analysis)
    requires a.Valid()
    ensures var t := Table(map[], map[7 := User(0, 0)]);
      var t' := Recalculated(a, Limits(100, 4000), t, []);
      BestOk(t) && t'.users == map[7 := User(100, 0)] && !BestOk(t')
  {
    var t := Table(map[], map[7 := User(0, 0)]);
    assert RowsOf(t, 7) == [];
    assert Cleared(t).users[7] == User(0, 0);
    var t' := Recalculated(a, Limits(100, 4000), t, []);
    assert t'.users[7] == User(100, 0);
  }

  // ----- what a full recalculation starts from

  lemma {:induction false} SelectReadsRows(s: Table, t: Table, c: Contest, standings: seq<Entry>)
    requires s.rows == t.rows
    ensures Select(s, c, standings) == Select(t, c, standings)
  {
    if standings == [] {
    } else {
      SelectReadsRows(s, t, c, standings[1..]);
    }
  }

  lemma NewRowsReadRows(a: Analysis, limits: Limits, s: Table, t: Table, c: Contest, es: seq<Entry>)
    requires a.Valid() && s.rows == t.rows
    ensures NewRows(a, limits, s, c, es) == NewRows(a, limits, t, c, es)
  {
    assert Means(s, c, es) == Means(t, c, es) && Times(s, c, es) == Times(t, c, es);
    assert Befores(s, c, es) == Befores(t, c, es) && Histories(s, c, es) == Histories(t, c, es);
    hide NewRow, Means, Times, Befores, Histories;
  }

  lemma {:induction false} PutAllReadsRows(s: Table, t: Table, es: seq<Entry>, rows: seq<Row>)
    requires s.rows == t.rows && |es| == |rows|
    ensures PutAll(s, es, rows).rows == PutAll(t, es, rows).rows
  {
    if es == [] {
    } else {
      PutAllReadsRows(s, t, es[..|es| - 1], rows[..|es| - 1]);
    }
  }

  lemma RateReadsRows(a: Analysis, limits: Limits, s: Table, t: Table, c: Contest, force: bool, standings: seq<Entry>)
    requires a.Valid() && s.rows == t.rows
    ensures Rate(a, limits, s, c, force, standings).rows == Rate(a, limits, t, c, force, standings).rows
  {
    hide NewRows, Select, PutAll;
    SelectReadsRows(s, t, c, standings);
    var es := Select(t, c, standings);
    NewRowsReadRows(a, limits, s, t, c, es);
    var rows := NewRows(a, limits, t, c, es);
    PutAllReadsRows(s, t, es, rows);
    PutAllReadsRows(DropContest(s, c.id), DropContest(t, c.id), es, rows);
  }

  lemma {:induction false} PlayReadsRows(a: Analysis, limits: Limits, s: Table, t: Table, rounds: seq<Round>)
    requires a.Valid() && s.rows == t.rows
    ensures PlayFrom(a, limits, s, rounds).rows == PlayFrom(a, limits, t, rounds).rows
  {
    if rounds == [] {
    } else {
      hide Rate;
      var front, last := rounds[..|rounds| - 1], rounds[|rounds| - 1];
      PlayReadsRows(a, limits, s, t, front);
      RateReadsRows(a, limits, PlayFrom(a, limits, s, front), PlayFrom(a, limits, t, front), last.contest, last.force,
        last.standings);
    }
  }

  /** A user without rows is as they were at the start. */
  ghost predicate Untouched(start: Table, t: Table, user: int) {
    RowsOf(t, user) == [] ==> UserOf(t, user) == UserOf(start, user)
  }

  lemma RateUntouched(a: Analysis, limits: Limits, start: Table, t: Table, c: Contest, standings: seq<Entry>, user: int)
    requires a.Valid() && Untouched(start, t, user)
    ensures Untouched(start, Rate(a, limits, t, c, false, standings), user)
  {
    if c.isRated && !HasRows(t, c.id) {
      hide NewRows, Select, HasRows, Rate, RowsOf, UserOf, History;
      var es := Select(t, c, standings);
      RatedUser(a, limits, t, c, false, standings, user);
      KeptUser(t, c.id, user);
      var i := LastPlace(es, user);
      if i < |es| {
        InsertFirst(History(t, user, c.id), NewRows(a, limits, t, c, es)[i]);
      }
    }
  }

  lemma {:induction false} PlayUntouched(a: Analysis, limits: Limits, start: Table, rounds: seq<Round>, user: int)
    requires a.Valid() && forall r | r in rounds :: !r.force
    ensures Untouched(start, PlayFrom(a, limits, start, rounds), user)
  {
    if rounds == [] {
    } else {
      hide Rate, Untouched;
      var front, last := rounds[..|rounds| - 1], rounds[|rounds| - 1];
      assert last in rounds && forall r | r in front :: r in rounds;
      PlayUntouched(a, limits, start, front, user);
      RateUntouched(a, limits, start, PlayFrom(a, limits, start, front), last.contest, last.standings, user);
    }
  }

  lemma ClearedUser(t: Table, user: int)
    requires user in t.users
    ensures user in Cleared(t).users
    ensures UserOf(Cleared(t), user) == if RowsOf(t, user) == [] then t.users[user] else User(1200, 1200)
  {
  }

  lemma {:induction false} UsersStay(a: Analysis, limits: Limits, start: Table, rounds: seq<Round>)
    requires a.Valid()
    ensures start.users.Keys <= PlayFrom(a, limits, start, rounds).users.Keys
  {
    if rounds == [] {
    } else {
      hide NewRows, Select, HasRows, PutAll;
      var front, last := rounds[..|rounds| - 1], rounds[|rounds| - 1];
      UsersStay(a, limits, start, front);
      var t := PlayFrom(a, limits, start, front);
      var es := Select(t, last.contest, last.standings);
      var base := if last.force then DropContest(t, last.contest.id) else t;
      PutAllStay(base, es, NewRows(a, limits, t, last.contest, es));
    }
  }

  lemma {:induction false} PutAllStay(t: Table, es: seq<Entry>, rows: seq<Row>)
    requires |es| == |rows|
    ensures t.users.Keys <= PutAll(t, es, rows).users.Keys
  {
    if es == [] {
    } else {
      PutAllStay(t, es[..|es| - 1], rows[..|es| - 1]);
    }
  }

  lemma RaisedAt(t: Table, floor: int, user: int)
    requires user in t.users
    ensures Raised(t, floor).rows == t.rows
    ensures UserOf(Raised(t, floor), user) ==
      User(if t.users[user].rating < floor then floor else t.users[user].rating, t.users[user].maxRating)
  {
  }

  /**
   * A full recalculation gives the rows that the contests give from nothing, whatever was stored before. Who
   * had rows and gets none starts over at 1200 and the best of that; who never had any keeps both numbers;
   * and a current rating below the floor shows the floor.
   */
  lemma RecalculatedFresh(a: Analysis, limits: Limits, t: Table, rounds: seq<Round>, user: int)
    requires a.Valid() && user in t.users
    ensures var t' := Recalculated(a, limits, t, Unforced(rounds));
      && t'.rows == Play(a, limits, Unforced(rounds)).rows
      && (RowsOf(t', user) == [] ==>
            var was := if RowsOf(t, user) == [] then t.users[user] else User(1200, 1200);
            UserOf(t', user) == User(if was.rating < limits.floor then limits.floor else was.rating, was.maxRating))
  {
    var start, rs := Cleared(t), Unforced(rounds);
    UnforcedAll(rounds);
    assert start.rows == map[];
    PlayReadsRows(a, limits, start, Table(map[], map[]), rs);
    PlayUntouched(a, limits, start, rs, user);
    ClearedUser(t, user);
    UsersStay(a, limits, start, rs);
    var played := PlayFrom(a, limits, start, rs);
    hide PlayFrom, Cleared, Unforced, Raised;
    RaisedAt(played, limits.floor, user);
  }
}
