/** The rating table over whole sequences of contests. */
module RatingHistory {
  import opened Options
  import opened Rounding
  import opened Sums
  import opened Variance
  import opened EloMmr
  import opened EloMeans
  import opened EloEngine
  import opened TieRanks

  const RATING_INIT := 1200

  datatype Row = Row(contest: int, endTime: int, rank: int, ratingBefore: int, ratingAfter: int, mean: real,
    volatilityBefore: int, volatilityAfter: int, performance: real)

  datatype User = User(rating: int, maxRating: int)

  /** Rating rows of each user, newest contest first, and the users' displayed ratings. */
  datatype Table = Table(rows: map<int, seq<Row>>, users: map<int, User>)

  datatype Limits = Limits(floor: int, ceiling: int)

  datatype Contest = Contest(id: int, endTime: int, isRated: bool, ratingFloor: Option<int>, ratingCeiling: Option<int>)

  datatype Entry = Entry(user: int, key: Key)

  function RowsOf(t: Table, user: int): seq<Row> {
    if user in t.rows then t.rows[user] else []
  }

  function UserOf(t: Table, user: int): User {
    if user in t.users then t.users[user] else User(0, 0)
  }

  function Without(rows: seq<Row>, contest: int): (kept: seq<Row>)
    ensures forall r | r in kept :: r in rows && r.contest != contest
  {
    if rows == [] then []
    else if rows[0].contest == contest then Without(rows[1..], contest)
    else
      assert rows[0] in rows;
      [rows[0]] + Without(rows[1..], contest)
  }

  /** A new row goes before the first row that ended no later. */
  function Insert(rows: seq<Row>, row: Row): (all: seq<Row>)
    ensures forall r | r in all :: r == row || r in rows
  {
    if rows == [] || rows[0].endTime <= row.endTime then [row] + rows
    else [rows[0]] + Insert(rows[1..], row)
  }

  /** A user's history for one contest: every other rated contest, newest first. */
  function History(t: Table, user: int, contest: int): seq<Row> {
    Without(RowsOf(t, user), contest)
  }

  function PriorMean(history: seq<Row>): real {
    if history == [] then MEAN_INIT else history[0].mean
  }

  function PriorRating(history: seq<Row>): int {
    if history == [] then RATING_INIT else history[0].ratingAfter
  }

  function PerformancesIn(history: seq<Row>): (ps: seq<real>)
    ensures |ps| == |history|
  {
    seq(|history|, i requires 0 <= i < |history| => history[i].performance)
  }

  predicate Eligible(t: Table, c: Contest, e: Entry) {
    var last := PriorRating(History(t, e.user, c.id));
    && (c.ratingFloor.Some? ==> last >= c.ratingFloor.value)
    && (c.ratingCeiling.Some? ==> last <= c.ratingCeiling.value)
  }

  function Select(t: Table, c: Contest, standings: seq<Entry>): seq<Entry> {
    if standings == [] then []
    else (if Eligible(t, c, standings[0]) then [standings[0]] else []) + Select(t, c, standings[1..])
  }

  // ----- the inputs handed to the engine

  function Keys(es: seq<Entry>): (ks: seq<Key>)
    ensures |ks| == |es|
  {
    seq(|es|, i requires 0 <= i < |es| => es[i].key)
  }

  function Means(t: Table, c: Contest, es: seq<Entry>): (ms: seq<real>)
    ensures |ms| == |es|
  {
    seq(|es|, i requires 0 <= i < |es| => PriorMean(History(t, es[i].user, c.id)))
  }

  function Times(t: Table, c: Contest, es: seq<Entry>): (ts: seq<nat>)
    ensures |ts| == |es|
  {
    seq(|es|, i requires 0 <= i < |es| => |History(t, es[i].user, c.id)|)
  }

  function Histories(t: Table, c: Contest, es: seq<Entry>): (hs: seq<seq<real>>)
    ensures |hs| == |es|
    ensures HistoriesFit(Times(t, c, es), hs)
  {
    seq(|es|, i requires 0 <= i < |es| => PerformancesIn(History(t, es[i].user, c.id)))
  }

  function Clamp(limits: Limits, displayed: int): int {
    var raised := if limits.floor > displayed then limits.floor else displayed;
    if limits.ceiling < raised then limits.ceiling else raised
  }

  function Befores(t: Table, c: Contest, es: seq<Entry>): (bs: seq<int>)
    ensures |bs| == |es|
  {
    seq(|es|, i requires 0 <= i < |es| => PriorRating(History(t, es[i].user, c.id)))
  }

  function ShownRank(rank: real): int {
    if RoundHalfEven(rank + 1.0) > 1 then RoundHalfEven(rank + 1.0) else 1
  }

  function Volatility(a: Analysis, t: nat): int {
    RoundHalfEven(a.sqrt(Prior(t)))
  }

  /** The row the loop writes for one selected player. */
  function NewRow(a: Analysis, limits: Limits, c: Contest, rank: real, before: int, t: nat, displayed: int,
      mean: real, performance: real): Row
  {
    Row(c.id, c.endTime, ShownRank(rank), before, Clamp(limits, displayed), mean, Volatility(a, t),
      Volatility(a, t + 1), performance)
  }

  function NewRows(a: Analysis, limits: Limits, t: Table, c: Contest, es: seq<Entry>): (rows: seq<Row>)
    requires a.Valid()
    ensures |rows| == |es|
  {
    var ranks, befores, times := RanksFrom(Keys(es), 0), Befores(t, c, es), Times(t, c, es);
    var ps := ContestPerformances(a, ranks, Means(t, c, es), times, RANGE_HIGH);
    var ms := ContestMeans(a, ps, Means(t, c, es), times, Histories(t, c, es), RANGE_HIGH);
    seq(|es|, i requires 0 <= i < |es| =>
      NewRow(a, limits, c, ranks[i], befores[i], times[i], Displayed(a, ms[i], times[i]), ms[i], ps[i]))
  }

  /** Upsert one row and the user's displayed and best rating. */
  function Put(t: Table, user: int, row: Row): Table {
    var u := UserOf(t, user);
    Table(
      t.rows[user := Insert(Without(RowsOf(t, user), row.contest), row)],
      t.users[user := User(row.ratingAfter, if row.ratingAfter > u.maxRating then row.ratingAfter else u.maxRating)])
  }

  function PutAll(t: Table, es: seq<Entry>, rows: seq<Row>): Table
    requires |es| == |rows|
  {
    if es == [] then t
    else
      var front := PutAll(t, es[..|es| - 1], rows[..|es| - 1]);
      Put(front, es[|es| - 1].user, rows[|es| - 1])
  }

  function DropContest(t: Table, contest: int): Table {
    t.(rows := map u | u in t.rows :: Without(t.rows[u], contest))
  }

  predicate HasRows(t: Table, contest: int) {
    exists u | u in t.rows :: exists r | r in t.rows[u] :: r.contest == contest
  }

  /** `calculate_ratings` on the standings of one contest. */
  function Rate(a: Analysis, limits: Limits, t: Table, c: Contest, force: bool, standings: seq<Entry>): Table
    requires a.Valid()
  {
    if !c.isRated || (HasRows(t, c.id) && !force) then t
    else
      var es := Select(t, c, standings);
      if es == [] then DropContest(t, c.id)
      else
        var base := if force then DropContest(t, c.id) else t;
        PutAll(base, es, NewRows(a, limits, t, c, es))
  }

  /** The table as the service object, updated in place. */
  class RatingBook {
    var table: Table

    constructor ()
      ensures table == Table(map[], map[])
    {
      table := Table(map[], map[]);
    }

    method CalculateRatings(a: Analysis, cache: Cache, limits: Limits, c: Contest, force: bool, standings: seq<Entry>)
      requires a.Valid() && cache.Valid()
      modifies this, cache
      ensures cache.Valid()
      ensures table == Rate(a, limits, old(table), c, force, standings)
    {
      if !c.isRated || (HasRows(table, c.id) && !force) {
        return;
      }
      var es := Select(table, c, standings);
      if es == [] {
        table := DropContest(table, c.id);
        return;
      }
      hide PutAll, Displayed, ContestPerformances, ContestMeans, Select, HasRows, RanksFrom, NewRow;
      var ranks := AssignRanks(Keys(es));
      var befores, means, times := Befores(table, c, es), Means(table, c, es), Times(table, c, es);
      var displayed, newMeans, performances :=
        Recalculate(a, cache, ranks, means, times, Histories(table, c, es), None);
      ghost var rows := NewRows(a, limits, table, c, es);
      assert Assemble(a, limits, c, ranks, befores, times, displayed, newMeans, performances) == rows;
      if force {
        table := DropContest(table, c.id);
      }
      WriteRows(a, cache, limits, c, es, ranks, befores, times, displayed, newMeans, performances);
    }

    /** The writing loop: one upserted row and one updated user for each selected player. */
    method WriteRows(a: Analysis, cache: Cache, limits: Limits, c: Contest, es: seq<Entry>, ranks: seq<real>,
        befores: seq<int>, times: seq<nat>, displayed: seq<int>, means: seq<real>, performances: seq<real>)
      requires cache.Valid()
      requires |es| == |ranks| == |befores| == |times| == |displayed| == |means| == |performances|
      modifies this, cache
      ensures cache.Valid()
      ensures table ==
        PutAll(old(table), es, Assemble(a, limits, c, ranks, befores, times, displayed, means, performances))
    {
      ghost var rows := Assemble(a, limits, c, ranks, befores, times, displayed, means, performances);
      hide PutAll, Put;
      PutNone(table, es[..0], rows[..0]);
      for index := 0 to |es|
        invariant cache.Valid()
        invariant table == PutAll(old(table), es[..index], rows[..index])
      {
        var before := cache.VarianceFor(times[index]);
        var after := cache.VarianceFor(times[index] + 1);
        var row := Row(c.id, c.endTime, ShownRank(ranks[index]), befores[index], Clamp(limits, displayed[index]),
          means[index], RoundHalfEven(a.sqrt(before)), RoundHalfEven(a.sqrt(after)), performances[index]);
        assert row == rows[index];
        PutNext(old(table), es, rows, index);
        table := Put(table, es[index].user, row);
      }
      assert es[..|es|] == es && rows[..|es|] == rows;
    }

    /** `recalculate_all_ratings`: everything is dropped and every rated contest is rated again in the given order. */
    method RecalculateAll(a: Analysis, cache: Cache, limits: Limits, rounds: seq<Round>)
      requires a.Valid() && cache.Valid()
      modifies this, cache
      ensures cache.Valid()
      ensures table == Recalculated(a, limits, old(table), Unforced(rounds))
    {
      hide Rate;
      table := Cleared(table);
      ghost var unforced := Unforced(rounds);
      for i := 0 to |rounds|
        invariant cache.Valid()
        invariant table == PlayFrom(a, limits, Cleared(old(table)), unforced[..i])
      {
        assert unforced[..i + 1][..i] == unforced[..i];
        CalculateRatings(a, cache, limits, rounds[i].contest, false, rounds[i].standings);
      }
      assert unforced[..|rounds|] == unforced;
      table := Raised(table, limits.floor);
    }
  }

  function Assemble(a: Analysis, limits: Limits, c: Contest, ranks: seq<real>, befores: seq<int>, times: seq<nat>,
      displayed: seq<int>, means: seq<real>, performances: seq<real>): (rows: seq<Row>)
    requires |ranks| == |befores| == |times| == |displayed| == |means| == |performances|
    ensures |rows| == |means|
  {
    seq(|means|, i requires 0 <= i < |means| =>
      NewRow(a, limits, c, ranks[i], befores[i], times[i], displayed[i], means[i], performances[i]))
  }

  lemma PutNone(t: Table, es: seq<Entry>, rows: seq<Row>)
    requires |es| == |rows| == 0
    ensures PutAll(t, es, rows) == t
  {
  }

  lemma PutNext(t: Table, es: seq<Entry>, rows: seq<Row>, i: nat)
    requires i < |es| == |rows|
    ensures PutAll(t, es[..i + 1], rows[..i + 1]) == Put(PutAll(t, es[..i], rows[..i]), es[i].user, rows[i])
  {
    assert es[..i + 1][..i] == es[..i] && rows[..i + 1][..i] == rows[..i];
  }

  // ----- every sequence of contests

  datatype Round = Round(contest: Contest, force: bool, standings: seq<Entry>)

  function PlayFrom(a: Analysis, limits: Limits, start: Table, rounds: seq<Round>): Table
    requires a.Valid()
  {
    if rounds == [] then start
    else
      var last := rounds[|rounds| - 1];
      Rate(a, limits, PlayFrom(a, limits, start, rounds[..|rounds| - 1]), last.contest, last.force, last.standings)
  }

  function Play(a: Analysis, limits: Limits, rounds: seq<Round>): Table
    requires a.Valid()
  {
    PlayFrom(a, limits, Table(map[], map[]), rounds)
  }

  function Unforced(rounds: seq<Round>): (rs: seq<Round>)
    ensures |rs| == |rounds|
  {
    seq(|rounds|, i requires 0 <= i < |rounds| => rounds[i].(force := false))
  }

  /** No rows, and whoever had some starts from the initial rating. */
  function Cleared(t: Table): Table {
    Table(map[], map u | u in t.users :: if RowsOf(t, u) == [] then t.users[u] else User(RATING_INIT, RATING_INIT))
  }

  /** Current ratings below the floor are set to the floor; best ratings are left alone. */
  function Raised(t: Table, floor: int): Table {
    t.(users := map u | u in t.users ::
      if t.users[u].rating < floor then t.users[u].(rating := floor) else t.users[u])
  }

  function Recalculated(a: Analysis, limits: Limits, t: Table, rounds: seq<Round>): Table
    requires a.Valid()
  {
    Raised(PlayFrom(a, limits, Cleared(t), rounds), limits.floor)
  }

  predicate RowOk(limits: Limits, r: Row) {
    && r.rank >= 1
    && RANGE_LOW <= r.mean <= RANGE_HIGH
    && RANGE_LOW <= r.performance <= RANGE_HIGH
    && r.volatilityAfter <= r.volatilityBefore
    && r.ratingAfter <= limits.ceiling
    && (limits.floor <= limits.ceiling ==> limits.floor <= r.ratingAfter)
  }

  ghost predicate RowsOk(limits: Limits, t: Table) {
    forall u, r | u in t.rows && r in t.rows[u] :: RowOk(limits, r)
  }

  ghost predicate BestOk(t: Table) {
    forall u | u in t.users :: t.users[u].rating <= t.users[u].maxRating
  }

  /** Main result on runs: every row ever stored is in range and inside the display limits. */
  lemma PlayOk(a: Analysis, limits: Limits, rounds: seq<Round>)
    requires a.Valid()
    ensures RowsOk(limits, Play(a, limits, rounds)) && BestOk(Play(a, limits, rounds))
  {
    PlayFromOk(a, limits, Table(map[], map[]), rounds);
  }

  lemma {:induction false} PlayFromOk(a: Analysis, limits: Limits, start: Table, rounds: seq<Round>)
    requires a.Valid() && RowsOk(limits, start)
    ensures RowsOk(limits, PlayFrom(a, limits, start, rounds))
    ensures BestOk(start) ==> BestOk(PlayFrom(a, limits, start, rounds))
  {
    if rounds == [] {
    } else {
      hide Rate, RowsOk, BestOk;
      var front := rounds[..|rounds| - 1];
      PlayFromOk(a, limits, start, front);
      var last := rounds[|rounds| - 1];
      RateOk(a, limits, PlayFrom(a, limits, start, front), last.contest, last.force, last.standings);
    }
  }

  lemma RateOk(a: Analysis, limits: Limits, t: Table, c: Contest, force: bool, standings: seq<Entry>)
    requires a.Valid() && RowsOk(limits, t)
    ensures RowsOk(limits, Rate(a, limits, t, c, force, standings))
    ensures BestOk(t) ==> BestOk(Rate(a, limits, t, c, force, standings))
  {
    hide NewRows, Select, HasRows, RowsOk, BestOk, PutAll, DropContest;
    var es := Select(t, c, standings);
    DropOk(limits, t, c.id);
    NewRowsOk(a, limits, t, c, es);
    PutAllOk(limits, if force then DropContest(t, c.id) else t, es, NewRows(a, limits, t, c, es));
  }

  lemma DropOk(limits: Limits, t: Table, contest: int)
    requires RowsOk(limits, t)
    ensures RowsOk(limits, DropContest(t, contest))
    ensures BestOk(t) ==> BestOk(DropContest(t, contest))
  {
    hide RowOk;
  }

  /** The engine's precondition holds for every contest rated from a table in range. */
  lemma RoundInputs(limits: Limits, t: Table, c: Contest, es: seq<Entry>)
    requires RowsOk(limits, t)
    ensures forall i, j | 0 <= i <= j < |es| :: RanksFrom(Keys(es), 0)[i] <= RanksFrom(Keys(es), 0)[j]
    ensures forall i | 0 <= i < |es| :: RANGE_LOW <= Means(t, c, es)[i] <= RANGE_HIGH
  {
    forall i, j | 0 <= i <= j < |es| ensures RanksFrom(Keys(es), 0)[i] <= RanksFrom(Keys(es), 0)[j] {
      RanksNondecreasing(Keys(es), i, j);
    }
    forall i | 0 <= i < |es| ensures RANGE_LOW <= Means(t, c, es)[i] <= RANGE_HIGH {
      var history := History(t, es[i].user, c.id);
      if history != [] {
        assert history[0] in RowsOf(t, es[i].user);
        assert RowOk(limits, history[0]);
      }
    }
  }

  lemma VolatilityFalls(a: Analysis)
    requires a.Valid()
    ensures forall t: nat :: Volatility(a, t + 1) <= Volatility(a, t)
  {
    hide Prior;
    forall t: nat ensures Volatility(a, t + 1) <= Volatility(a, t) {
      LimitBelowStart(a.sqrt);
      PriorDecreases(t, a.sqrt);
      a.SqrtStrict(Prior(t + 1), Prior(t));
      RoundMonotone(a.sqrt(Prior(t + 1)), a.sqrt(Prior(t)));
    }
  }

  lemma NewRowsOk(a: Analysis, limits: Limits, t: Table, c: Contest, es: seq<Entry>)
    requires a.Valid() && RowsOk(limits, t)
    ensures forall r | r in NewRows(a, limits, t, c, es) :: RowOk(limits, r)
  {
    RoundInputs(limits, t, c, es);
    var ranks, means := RanksFrom(Keys(es), 0), Means(t, c, es);
    ContestSound(a, ranks, means, Times(t, c, es), Histories(t, c, es), RANGE_HIGH);
    RowFields(a, limits, t, c, es);
    VolatilityFalls(a);
    hide *;
    var ps := ContestPerformances(a, ranks, means, Times(t, c, es), RANGE_HIGH);
    var ms := ContestMeans(a, ps, means, Times(t, c, es), Histories(t, c, es), RANGE_HIGH);
    OutcomeInRange(ranks, means, ps, ms, RANGE_HIGH);
    forall i | 0 <= i < |es| ensures RowOk(limits, NewRows(a, limits, t, c, es)[i]) {
      RowShown(a, limits, t, c, es, i);
      RowOkIs(limits, NewRows(a, limits, t, c, es)[i]);
    }
  }

  lemma OutcomeInRange(ranks: seq<real>, means: seq<real>, ps: seq<real>, ms: seq<real>, high: real)
    requires Outcome(ranks, means, ps, ms, high)
    ensures |ps| == |ms| == |ranks|
    ensures forall i | 0 <= i < |ps| :: RANGE_LOW <= ps[i] <= high && RANGE_LOW <= ms[i] <= high
  {
  }

  lemma RowShown(a: Analysis, limits: Limits, t: Table, c: Contest, es: seq<Entry>, i: nat)
    requires a.Valid() && i < |es| && forall k: nat :: Volatility(a, k + 1) <= Volatility(a, k)
    ensures var r := NewRows(a, limits, t, c, es)[i];
      && r.rank >= 1 && r.volatilityAfter <= r.volatilityBefore && r.ratingAfter <= limits.ceiling
      && (limits.floor <= limits.ceiling ==> limits.floor <= r.ratingAfter)
  {
    hide ContestPerformances, ContestMeans, Displayed, RanksFrom, Volatility, RoundHalfEven, Keys, Means, Befores,
      Times, Histories;
  }

  lemma RowOkIs(limits: Limits, r: Row)
    requires RANGE_LOW <= r.mean <= RANGE_HIGH && RANGE_LOW <= r.performance <= RANGE_HIGH
    requires r.rank >= 1 && r.volatilityAfter <= r.volatilityBefore && r.ratingAfter <= limits.ceiling
    requires limits.floor <= limits.ceiling ==> limits.floor <= r.ratingAfter
    ensures RowOk(limits, r)
  {
  }

  lemma TailStanding(keys: seq<Key>)
    requires Standing(keys) && keys != []
    ensures Standing(keys[1..]) && forall k | k in keys[1..] :: !Better(k, keys[0])
  {
  }

  lemma HeadStanding(key: Key, keys: seq<Key>)
    requires Standing(keys) && forall k | k in keys :: !Better(k, key)
    ensures Standing([key] + keys)
  {
    var all := [key] + keys;
    forall i, j | 0 <= i < j < |all| ensures !Better(all[j], all[i]) {
      assert all[j] == keys[j - 1] && all[j] in keys;
    }
  }

  /** Leaving players out keeps the others in order. */
  lemma {:induction false} SelectKeepsOrder(t: Table, c: Contest, standings: seq<Entry>)
    requires Standing(Keys(standings))
    ensures Standing(Keys(Select(t, c, standings)))
    ensures forall k | k in Keys(Select(t, c, standings)) :: k in Keys(standings)
  {
    if standings == [] {
    } else {
      hide Eligible, Standing, Better;
      var keys, kept := Keys(standings), Select(t, c, standings[1..]);
      assert keys[1..] == Keys(standings[1..]);
      assert keys == [keys[0]] + keys[1..];
      TailStanding(keys);
      SelectKeepsOrder(t, c, standings[1..]);
      if Eligible(t, c, standings[0]) {
        assert Keys([standings[0]] + kept) == [keys[0]] + Keys(kept);
        HeadStanding(keys[0], Keys(kept));
      } else {
        assert [] + kept == kept;
      }
    }
  }

  // ----- the rows a contest starts from

  /** Rows by the end of their contest, the latest first. */
  ghost predicate NewestFirst(rows: seq<Row>) {
    forall i, j | 0 <= i < j < |rows| :: rows[i].endTime >= rows[j].endTime
  }

  ghost predicate AllNewestFirst(t: Table) {
    forall u | u in t.rows :: NewestFirst(t.rows[u])
  }

  lemma {:induction false} InsertOrdered(rows: seq<Row>, row: Row)
    requires NewestFirst(rows)
    ensures NewestFirst(Insert(rows, row))
  {
    if rows == [] || rows[0].endTime <= row.endTime {
    } else {
      InsertOrdered(rows[1..], row);
      var rest := Insert(rows[1..], row);
      forall r | r in rest ensures r.endTime <= rows[0].endTime {
        assert r == row || r in rows[1..];
      }
    }
  }

  lemma {:induction false} WithoutOrdered(rows: seq<Row>, contest: int)
    requires NewestFirst(rows)
    ensures NewestFirst(Without(rows, contest))
  {
    if rows == [] {
    } else {
      WithoutOrdered(rows[1..], contest);
      var rest := Without(rows[1..], contest);
      forall r | r in rest ensures r.endTime <= rows[0].endTime {
        assert r in rows[1..];
      }
    }
  }

  lemma DropOrdered(t: Table, contest: int)
    requires AllNewestFirst(t)
    ensures AllNewestFirst(DropContest(t, contest))
  {
    hide NewestFirst, Without;
    forall u | u in t.rows ensures NewestFirst(Without(t.rows[u], contest)) {
      WithoutOrdered(t.rows[u], contest);
    }
  }

  lemma {:induction false} PutAllOrdered(t: Table, es: seq<Entry>, rows: seq<Row>)
    requires AllNewestFirst(t) && |es| == |rows|
    ensures AllNewestFirst(PutAll(t, es, rows))
  {
    if es == [] {
    } else {
      var n := |es| - 1;
      PutAllOrdered(t, es[..n], rows[..n]);
      PutOrdered(PutAll(t, es[..n], rows[..n]), es[n].user, rows[n]);
      hide Put, AllNewestFirst;
    }
  }

  lemma PutOrdered(t: Table, user: int, row: Row)
    requires AllNewestFirst(t)
    ensures AllNewestFirst(Put(t, user, row))
  {
    assert NewestFirst(RowsOf(t, user));
    hide NewestFirst, Without, Insert;
    WithoutOrdered(RowsOf(t, user), row.contest);
    InsertOrdered(Without(RowsOf(t, user), row.contest), row);
  }

  lemma RateOrdered(a: Analysis, limits: Limits, t: Table, c: Contest, force: bool, standings: seq<Entry>)
    requires a.Valid() && AllNewestFirst(t)
    ensures AllNewestFirst(Rate(a, limits, t, c, force, standings))
  {
    hide NewRows, Select, HasRows, AllNewestFirst, PutAll, DropContest;
    var es := Select(t, c, standings);
    DropOrdered(t, c.id);
    PutAllOrdered(if force then DropContest(t, c.id) else t, es, NewRows(a, limits, t, c, es));
  }

  /** Over every sequence of contests, each user's rows stay ordered by the end of their contest. */
  lemma {:induction false} PlayOrdered(a: Analysis, limits: Limits, start: Table, rounds: seq<Round>)
    requires a.Valid() && AllNewestFirst(start)
    ensures AllNewestFirst(PlayFrom(a, limits, start, rounds))
  {
    if rounds == [] {
    } else {
      hide Rate, AllNewestFirst;
      var front, last := rounds[..|rounds| - 1], rounds[|rounds| - 1];
      PlayOrdered(a, limits, start, front);
      RateOrdered(a, limits, PlayFrom(a, limits, start, front), last.contest, last.force, last.standings);
    }
  }

  /** The row is of another contest, than which none of the other contests' rows ended later. */
  ghost predicate LastOther(rows: seq<Row>, contest: int, r: Row) {
    r in rows && r.contest != contest && forall q | q in rows && q.contest != contest :: q.endTime <= r.endTime
  }

  /** Mean and rating a user enters a contest with: those of the last other row, or the initial ones without any. */
  ghost predicate Enters(rows: seq<Row>, contest: int, mean: real, rating: int) {
    || ((forall q | q in rows :: q.contest == contest) && mean == 1500.0 && rating == 1200)
    || exists r :: LastOther(rows, contest, r) && mean == r.mean && rating == r.ratingAfter
  }

  /** The row's mean lies between its performance and the mean the user entered with, up to 2. */
  ghost predicate Moves(others: seq<Row>, row: Row) {
    exists mean: real ::
      && Enters(others, row.contest, mean, row.ratingBefore)
      && MinOf(mean, row.performance) - 2.0 <= row.mean <= MaxOf(mean, row.performance) + 2.0
  }

  lemma {:induction false} WithoutKeeps(rows: seq<Row>, contest: int, r: Row)
    ensures r in Without(rows, contest) <==> r in rows && r.contest != contest
  {
    if rows == [] {
    } else {
      WithoutKeeps(rows[1..], contest, r);
    }
  }

  lemma EntersWith(t: Table, user: int, contest: int)
    requires AllNewestFirst(t)
    ensures var h := History(t, user, contest); Enters(RowsOf(t, user), contest, PriorMean(h), PriorRating(h))
  {
    var rows, h := RowsOf(t, user), History(t, user, contest);
    assert NewestFirst(rows);
    WithoutOrdered(rows, contest);
    forall q | q in rows && q.contest != contest ensures q in h {
      WithoutKeeps(rows, contest, q);
    }
    hide Without;
    if h != [] {
      assert h[0] in h;
      forall q | q in rows && q.contest != contest ensures q.endTime <= h[0].endTime {
        var i :| 0 <= i < |h| && h[i] == q;
      }
      assert LastOther(rows, contest, h[0]);
    }
  }

  /**
   * Main result on one more contest, after any sequence of contests: among the players it selects,
   * performances follow the standings, players tied on score and tiebreaker end within 4 of each other,
   * and every mean lands between the performance and the mean the player entered with, up to 2: that of the
   * latest other contest the player was rated in, or 1500 without any.
   */
  lemma RoundOutcome(a: Analysis, limits: Limits, rounds: seq<Round>, c: Contest, standings: seq<Entry>)
    requires a.Valid() && Standing(Keys(standings))
    ensures var t := Play(a, limits, rounds);
      var es := Select(t, c, standings);
      var rows := NewRows(a, limits, t, c, es);
      && (|es| >= 2 ==> forall i, j | 0 <= i <= j < |es| :: rows[j].performance <= rows[i].performance)
      && (forall i, j | 0 <= i < |es| && 0 <= j < |es| && es[i].key == es[j].key ::
            rows[i].performance - rows[j].performance <= 4.0)
      && (forall i | 0 <= i < |es| :: rows[i].contest == c.id && Moves(RowsOf(t, es[i].user), rows[i]))
  {
    hide *;
    PlayOk(a, limits, rounds);
    SelectKeepsOrder(Play(a, limits, rounds), c, standings);
    var t := Play(a, limits, rounds);
    var es := Select(t, c, standings);
    EngineRound(a, limits, t, c, es);
    RowFields(a, limits, t, c, es);
    PlayOrderedFromNone(a, limits, rounds);
    var rows := NewRows(a, limits, t, c, es);
    forall i | 0 <= i < |es| ensures rows[i].contest == c.id && Moves(RowsOf(t, es[i].user), rows[i]) {
      EntersWith(t, es[i].user, c.id);
      MovesFrom(RowsOf(t, es[i].user), rows[i], PriorMean(History(t, es[i].user, c.id)));
    }
  }

  lemma MovesFrom(others: seq<Row>, row: Row, mean: real)
    requires Enters(others, row.contest, mean, row.ratingBefore)
    requires MinOf(mean, row.performance) - 2.0 <= row.mean <= MaxOf(mean, row.performance) + 2.0
    ensures Moves(others, row)
  {
  }

  lemma PlayOrderedFromNone(a: Analysis, limits: Limits, rounds: seq<Round>)
    requires a.Valid()
    ensures AllNewestFirst(Play(a, limits, rounds))
  {
    PlayOrdered(a, limits, Table(map[], map[]), rounds);
  }

  lemma RowFields(a: Analysis, limits: Limits, t: Table, c: Contest, es: seq<Entry>)
    requires a.Valid()
    ensures var ps := ContestPerformances(a, RanksFrom(Keys(es), 0), Means(t, c, es), Times(t, c, es), RANGE_HIGH);
      var ms := ContestMeans(a, ps, Means(t, c, es), Times(t, c, es), Histories(t, c, es), RANGE_HIGH);
      forall i | 0 <= i < |es| ::
        && NewRows(a, limits, t, c, es)[i].performance == ps[i] && NewRows(a, limits, t, c, es)[i].mean == ms[i]
        && Means(t, c, es)[i] == PriorMean(History(t, es[i].user, c.id))
        && NewRows(a, limits, t, c, es)[i].ratingBefore == PriorRating(History(t, es[i].user, c.id))
        && NewRows(a, limits, t, c, es)[i].contest == c.id
  {
    hide ContestPerformances, ContestMeans, Displayed, RanksFrom, History, PriorMean, PriorRating;
  }

  lemma EqualKeysEqualRanks(es: seq<Entry>)
    requires Standing(Keys(es))
    ensures forall i, j | 0 <= i < |es| && 0 <= j < |es| && es[i].key == es[j].key ::
      RanksFrom(Keys(es), 0)[i] == RanksFrom(Keys(es), 0)[j]
  {
    hide RanksFrom, Standing;
    forall i, j | 0 <= i < |es| && 0 <= j < |es| && es[i].key == es[j].key
      ensures RanksFrom(Keys(es), 0)[i] == RanksFrom(Keys(es), 0)[j]
    {
      assert Keys(es)[i] == Keys(es)[j];
      RanksSeparate(Keys(es), i, j);
    }
  }

  lemma EngineRound(a: Analysis, limits: Limits, t: Table, c: Contest, es: seq<Entry>)
    requires a.Valid() && RowsOk(limits, t) && Standing(Keys(es))
    ensures var rows := NewRows(a, limits, t, c, es);
      && (|es| >= 2 ==> forall i, j | 0 <= i <= j < |es| :: rows[j].performance <= rows[i].performance)
      && (forall i, j | 0 <= i < |es| && 0 <= j < |es| && es[i].key == es[j].key ::
            rows[i].performance - rows[j].performance <= 4.0)
      && (forall i | 0 <= i < |es| ::
            var m := PriorMean(History(t, es[i].user, c.id));
            MinOf(m, rows[i].performance) - 2.0 <= rows[i].mean <= MaxOf(m, rows[i].performance) + 2.0)
  {
    hide *;
    RoundInputs(limits, t, c, es);
    EqualKeysEqualRanks(es);
    RowFields(a, limits, t, c, es);
    RangeInOrder();
    var ranks, means := RanksFrom(Keys(es), 0), Means(t, c, es);
    ContestSound(a, ranks, means, Times(t, c, es), Histories(t, c, es), RANGE_HIGH);
    var ps := ContestPerformances(a, ranks, means, Times(t, c, es), RANGE_HIGH);
    var ms := ContestMeans(a, ps, means, Times(t, c, es), Histories(t, c, es), RANGE_HIGH);
    ReadOutcome(ranks, means, ps, ms, RANGE_HIGH);
  }

  /** Averages of consecutive runs are at least one apart, and exactly one apart only as whole numbers. */
  lemma RanksApart(keys: seq<Key>, i: nat, j: nat)
    requires i < |keys| && j < |keys| && RanksFrom(keys, 0)[i] < RanksFrom(keys, 0)[j]
    ensures var x, y := RanksFrom(keys, 0)[i], RanksFrom(keys, 0)[j];
      y - x > 1.0 || (y - x == 1.0 && x == x.Floor as real)
  {
    var ranks := RanksFrom(keys, 0);
    hide RanksFrom;
    var p, q := RunAt(keys, i);
    var r, s := RunAt(keys, j);
    if r < q && p < s {
      RunsCoincide(keys, ranks, i, p, q, j, r, s);
    } else if q <= r && ranks[j] - ranks[i] <= 1.0 {
      assert q == p + 1;
      assert ranks[i] == p as real;
    }
  }

  lemma ShownApart(x: real, y: real)
    requires y - x > 1.0 || (y - x == 1.0 && x == x.Floor as real)
    ensures ShownRank(x) < ShownRank(y) || x < 0.0
  {
    if y - x == 1.0 {
      assert (x + 1.0).Floor == x.Floor + 1;
      assert (y + 1.0).Floor == x.Floor + 2;
    }
  }

  /** Whatever the rounding does, players share a stored rank exactly when score and tiebreaker agree. */
  lemma SharedRankExactly(a: Analysis, limits: Limits, t: Table, c: Contest, es: seq<Entry>, i: nat, j: nat)
    requires a.Valid() && Standing(Keys(es)) && i < |es| && j < |es|
    ensures var rows := NewRows(a, limits, t, c, es);
      && (rows[i].rank == rows[j].rank <==> es[i].key == es[j].key)
      && (i <= j ==> rows[i].rank <= rows[j].rank)
  {
    hide RanksFrom, ShownRank, Standing, ContestPerformances, ContestMeans, Displayed;
    var ranks := RanksFrom(Keys(es), 0);
    RanksSeparate(Keys(es), i, j);
    RankNonnegative(Keys(es), i);
    RankNonnegative(Keys(es), j);
    if ranks[i] < ranks[j] {
      RanksApart(Keys(es), i, j);
      ShownApart(ranks[i], ranks[j]);
    } else if ranks[j] < ranks[i] {
      RanksApart(Keys(es), j, i);
      ShownApart(ranks[j], ranks[i]);
    }
    if i <= j {
      RanksNondecreasing(Keys(es), i, j);
    }
  }

  lemma RankNonnegative(keys: seq<Key>, i: nat)
    requires i < |keys|
    ensures RanksFrom(keys, 0)[i] >= 0.0
  {
    var p, q := RunAt(keys, i);
  }

  lemma RangeInOrder()
    ensures RANGE_LOW <= RANGE_HIGH
  {
  }

  lemma ReadOutcome(ranks: seq<real>, means: seq<real>, ps: seq<real>, ms: seq<real>, high: real)
    requires Outcome(ranks, means, ps, ms, high)
    ensures |ranks| == |means| == |ps| == |ms|
    ensures |ps| >= 2 ==> forall i, j | 0 <= i <= j < |ps| :: ps[j] <= ps[i]
    ensures forall i, j | 0 <= i < |ps| && 0 <= j < |ps| && ranks[i] == ranks[j] :: ps[i] - ps[j] <= 4.0
    ensures forall i | 0 <= i < |ps| :: MinOf(means[i], ps[i]) - 2.0 <= ms[i] <= MaxOf(means[i], ps[i]) + 2.0
  {
  }

  lemma {:induction false} PutAllOk(limits: Limits, t: Table, es: seq<Entry>, rows: seq<Row>)
    requires RowsOk(limits, t) && |es| == |rows| && forall r | r in rows :: RowOk(limits, r)
    ensures RowsOk(limits, PutAll(t, es, rows))
    ensures BestOk(t) ==> BestOk(PutAll(t, es, rows))
  {
    if es == [] {
    } else {
      var n := |es| - 1;
      PutAllOk(limits, t, es[..n], rows[..n]);
      assert rows[n] in rows;
    }
  }
}
