/** What a group's stored matches credit a player with: the whole way from the rows to the reported statistics. */
module Credit {
  import opened Sorting
  import opened StoreState
  import opened History
  import opened RealMath
  import opened Strconv
  import opened Rankings
  import Rating
  import Elo
  import Wrappers
  import EnginesAgree

  /** The group's approved matches between players with nicknames, in which u plays. */
  ghost function Credited(s: State, g: GroupId, nicknamed: set<UserId>, u: UserId): set<MatchRow> {
    set m | m in s.matches.Values && m.group == g && m.status == Approved
            && m.player1 in nicknamed && m.player2 in nicknamed && (m.player1 == u || m.player2 == u)
  }

  predicate WonBy(m: MatchRow, u: UserId) {
    (m.player1 == u && m.score1 > m.score2) || (m.player2 == u && m.score2 > m.score1)
  }

  predicate LostBy(m: MatchRow, u: UserId) {
    (m.player1 == u && m.score1 < m.score2) || (m.player2 == u && m.score2 < m.score1)
  }

  function PointsFor(m: MatchRow, u: UserId): int {
    if m.player1 == u then m.score1 else if m.player2 == u then m.score2 else 0
  }

  lemma PlayedMeans(m: MatchRow, u: UserId)
    requires m.player1 != m.player2
    ensures var (x, id) := (Played(m), FormatInt(u));
            && (Rating.Involves(x, id) <==> m.player1 == u || m.player2 == u)
            && (Rating.Won(x, id) <==> WonBy(m, u)) && (Rating.Lost(x, id) <==> LostBy(m, u))
            && (Rating.Involves(x, id) ==> Rating.PointsOf(x, id) == PointsFor(m, u))
            && x.playedAt == m.playedAt
  {
    if FormatInt(m.player1) == FormatInt(u) { FormatIntInjective(m.player1, u); }
    if FormatInt(m.player2) == FormatInt(u) { FormatIntInjective(m.player2, u); }
    hide FormatInt;
  }

  // ---- the history, counted

  datatype Tally = Game | Win | Loss

  predicate Scores(t: Tally, m: MatchRow, u: UserId) {
    match t
    case Game => m.player1 == u || m.player2 == u
    case Win => WonBy(m, u)
    case Loss => LostBy(m, u)
  }

  ghost function Tallied(ms: seq<MatchRow>, nicknamed: set<UserId>, u: UserId, t: Tally): set<MatchRow> {
    set m | m in ms && Counts(m, nicknamed) && Scores(t, m, u)
  }

  function Points(ms: seq<MatchRow>, nicknamed: set<UserId>, u: UserId): int {
    if ms == [] then 0 else
    var last := ms[|ms|-1];
    Points(ms[..|ms|-1], nicknamed, u) + if Counts(last, nicknamed) then PointsFor(last, u) else 0
  }

  lemma LastOnce(ms: seq<MatchRow>)
    requires ms != [] && NoDuplicates(ms)
    ensures NoDuplicates(ms[..|ms|-1]) && ms[|ms|-1] !in ms[..|ms|-1]
    ensures forall m :: m in ms <==> m in ms[..|ms|-1] || m == ms[|ms|-1]
  {
    assert ms == ms[..|ms|-1] + [ms[|ms|-1]];
  }

  lemma OneMore(ms: seq<MatchRow>, nicknamed: set<UserId>, u: UserId, t: Tally)
    requires ms != [] && NoDuplicates(ms)
    ensures var (front, last) := (ms[..|ms|-1], ms[|ms|-1]);
            |Tallied(ms, nicknamed, u, t)| ==
            |Tallied(front, nicknamed, u, t)| + if Counts(last, nicknamed) && Scores(t, last, u) then 1 else 0
  {
    LastOnce(ms);
    TalliedMore(ms, nicknamed, u, t);
    assert ms[|ms|-1] !in Tallied(ms[..|ms|-1], nicknamed, u, t);
    hide Counts, Scores, NoDuplicates, Tallied;
  }

  lemma TalliedMore(ms: seq<MatchRow>, nicknamed: set<UserId>, u: UserId, t: Tally)
    requires ms != []
    ensures var (front, last) := (ms[..|ms|-1], ms[|ms|-1]);
            Tallied(ms, nicknamed, u, t) == Tallied(front, nicknamed, u, t) +
              if Counts(last, nicknamed) && Scores(t, last, u) then {last} else {}
  {
    assert ms == ms[..|ms|-1] + [ms[|ms|-1]];
    hide Counts, Scores;
  }

  /** What the engines' input counts. */
  function InputTally(xs: seq<Rating.Match>, id: Rating.PlayerId, t: Tally): nat {
    match t
    case Game => Rating.GamesIn(xs, id)
    case Win => Rating.WinsIn(xs, id)
    case Loss => Rating.LossesIn(xs, id)
  }

  lemma InputMore(ms: seq<MatchRow>, nicknamed: set<UserId>, u: UserId, t: Tally)
    requires ms != [] && ms[|ms|-1].player1 != ms[|ms|-1].player2
    ensures var (front, last, id) := (ms[..|ms|-1], ms[|ms|-1], FormatInt(u));
            && InputTally(Input(ms, nicknamed), id, t) == InputTally(Input(front, nicknamed), id, t) +
                 (if Counts(last, nicknamed) && Scores(t, last, u) then 1 else 0)
            && Rating.ScoredIn(Input(ms, nicknamed), id) == Rating.ScoredIn(Input(front, nicknamed), id) +
                 (if Counts(last, nicknamed) then PointsFor(last, u) else 0)
  {
    var front, last := ms[..|ms|-1], ms[|ms|-1];
    hide Counts, WonBy, LostBy, Played, FormatInt, Rating.ScoredIn, InputTally;
    var before, after := Input(front, nicknamed), Input(ms, nicknamed);
    if Counts(last, nicknamed) {
      assert after == before + [Played(last)];
      hide Input;
      PlayedMeans(last, u);
      InputSnoc(before, Played(last), FormatInt(u), t);
      hide Rating.Involves, Rating.Won, Rating.Lost, Rating.PointsOf;
    } else {
      assert after == before;
    }
  }

  lemma InputSnoc(xs: seq<Rating.Match>, x: Rating.Match, id: Rating.PlayerId, t: Tally)
    ensures InputTally(xs + [x], id, t) == InputTally(xs, id, t) +
              if (match t
                  case Game => Rating.Involves(x, id)
                  case Win => Rating.Won(x, id)
                  case Loss => Rating.Lost(x, id)) then 1 else 0
    ensures Rating.ScoredIn(xs + [x], id) ==
            Rating.ScoredIn(xs, id) + if Rating.Involves(x, id) then Rating.PointsOf(x, id) else 0
  {
    assert (xs + [x])[..|xs|] == xs;
  }

  lemma {:induction false} HistoryCounted(ms: seq<MatchRow>, nicknamed: set<UserId>, u: UserId, t: Tally)
    requires NoDuplicates(ms) && forall m :: m in ms ==> m.player1 != m.player2
    ensures InputTally(Input(ms, nicknamed), FormatInt(u), t) == |Tallied(ms, nicknamed, u, t)|
    ensures Rating.ScoredIn(Input(ms, nicknamed), FormatInt(u)) == Points(ms, nicknamed, u)
  {
    if ms == [] {
      NothingTallied(nicknamed, u, t);
    } else {
      LastOnce(ms);
      assert ms[|ms|-1] in ms;
      hide Counts, Scores, NoDuplicates, Input, FormatInt, InputTally, Tallied, Rating.ScoredIn;
      HistoryCounted(ms[..|ms|-1], nicknamed, u, t);
      OneMore(ms, nicknamed, u, t);
      InputMore(ms, nicknamed, u, t);
    }
  }

  lemma NothingTallied(nicknamed: set<UserId>, u: UserId, t: Tally)
    ensures InputTally(Input([], nicknamed), FormatInt(u), t) == |Tallied([], nicknamed, u, t)| == 0
    ensures Rating.ScoredIn(Input([], nicknamed), FormatInt(u)) == 0
  {
    assert Tallied([], nicknamed, u, t) == {};
  }

  /** In sorted matches, the last one of a player is the latest. */
  lemma {:induction false} LastIsLatest(xs: seq<Rating.Match>, id: Rating.PlayerId)
    requires SortedByKey(Rating.PlayedAt, xs)
    ensures var at := Rating.LastPlayedIn(xs, id);
            && (at.None? ==> forall x :: x in xs ==> !Rating.Involves(x, id))
            && (at.Some? ==>
                  && (forall x :: x in xs && Rating.Involves(x, id) ==> x.playedAt <= at.value)
                  && (exists x :: x in xs && Rating.Involves(x, id) && x.playedAt == at.value))
  {
    if xs != [] {
      var front, last := xs[..|xs|-1], xs[|xs|-1];
      LastIsLatest(front, id);
      assert xs == front + [last] && last in xs;
      forall x | x in xs ensures x.playedAt <= last.playedAt {
        var i :| 0 <= i < |xs| && xs[i] == x;
        assert i < |xs|-1 ==> Rating.PlayedAt(xs[i]) <= Rating.PlayedAt(xs[|xs|-1]);
      }
      hide Rating.Involves, SortedByKey;
    }
  }

  // ---- the statistics either engine reports

  lemma EngineStats(lib: Library, e: Engine, input: seq<Rating.Match>)
    requires lib.Lawful() && Runs(e) && Rating.AllValid(input) && Rating.Prepared(input) == Wrappers.Ok(input)
    ensures var out := Rate(lib, e, input);
            && out.Ok? && out.value.Keys == Rating.PlayersOf(input)
            && forall id :: id in out.value ==> out.value[id].stats == Rating.StatsAfter(Rating.NO_GAMES, input, id)
  {
    Elo.FoldStats(lib, input);
    match e
    case EloEngine =>
    case Glicko2Engine(days, fuel) => EnginesAgree.Agreement(lib, input, days, fuel);
  }

  lemma {:induction false} PlayersPlay(xs: seq<Rating.Match>, id: Rating.PlayerId)
    ensures id in Rating.PlayersOf(xs) <==> Rating.GamesIn(xs, id) > 0
    ensures id in Rating.PlayersOf(xs) <==> exists x :: x in xs && Rating.Involves(x, id)
  {
    if xs != [] {
      PlayersPlay(xs[..|xs|-1], id);
      assert xs == xs[..|xs|-1] + [xs[|xs|-1]];
    }
  }

  ghost predicate LatestOf(rows: set<MatchRow>, at: int) {
    (forall m :: m in rows ==> m.playedAt <= at) && (exists m :: m in rows && m.playedAt == at)
  }

  /**
   Either engine rates exactly the players with a credited match, under their ids, and reports the number of those
   matches, of the won and of the lost ones, and the time of the latest.
   */
  lemma ReportedStatistics(lib: Library, s: State, g: GroupId, ms: seq<MatchRow>, e: Engine, nicknamed: set<UserId>,
                           u: UserId)
    requires lib.Lawful() && Runs(e) && IsHistory(s, g, ms) && DistinctPlayers(s) && Numbered(s)
    ensures var (out, id, rows) := (Rate(lib, e, Input(ms, nicknamed)), FormatInt(u), Credited(s, g, nicknamed, u));
            && out.Ok? && (id in out.value <==> rows != {})
            && (id in out.value ==>
                  var st := out.value[id].stats;
                  && st.games == |rows|
                  && st.wins == |set m | m in rows && WonBy(m, u)|
                  && st.losses == |set m | m in rows && LostBy(m, u)|
                  && st.pointsFor == Points(ms, nicknamed, u)
                  && st.lastPlayed.Some? && LatestOf(rows, st.lastPlayed.value))
  {
    var input, id := Input(ms, nicknamed), FormatInt(u);
    InputIsPrepared(s, g, ms, nicknamed);
    InputValid(ms, nicknamed);
    InputSorted(ms, nicknamed);
    EngineStats(lib, e, input);
    CreditedGames(s, g, ms, nicknamed, u);
    HistoryCounted(ms, nicknamed, u, Game);
    HistoryCounted(ms, nicknamed, u, Win);
    HistoryCounted(ms, nicknamed, u, Loss);
    Rating.StatsMean(input, id);
    PlayersPlay(input, id);
    LatestCredited(s, g, ms, nicknamed, u);
    hide Rate, Input, IsHistory, Credited, Tallied, WonBy, LostBy, FormatInt, LatestOf;
  }

  lemma CreditedGames(s: State, g: GroupId, ms: seq<MatchRow>, nicknamed: set<UserId>, u: UserId)
    requires IsHistory(s, g, ms) && Numbered(s) && DistinctPlayers(s)
    ensures var rows := Credited(s, g, nicknamed, u);
            && rows == Tallied(ms, nicknamed, u, Game)
            && (set m | m in rows && WonBy(m, u)) == Tallied(ms, nicknamed, u, Win)
            && (set m | m in rows && LostBy(m, u)) == Tallied(ms, nicknamed, u, Loss)
  {
    forall m | m in Credited(s, g, nicknamed, u) ensures m in ms {
      var k :| k in s.matches && s.matches[k] == m;
      assert m.Key() == k;
    }
    hide NoDuplicates, SortedBy;
  }

  lemma LatestCredited(s: State, g: GroupId, ms: seq<MatchRow>, nicknamed: set<UserId>, u: UserId)
    requires IsHistory(s, g, ms) && Numbered(s) && DistinctPlayers(s)
    ensures var at := Rating.LastPlayedIn(Input(ms, nicknamed), FormatInt(u));
            if Credited(s, g, nicknamed, u) == {} then at.None?
            else at.Some? && LatestOf(Credited(s, g, nicknamed, u), at.value)
  {
    var input, id := Input(ms, nicknamed), FormatInt(u);
    InputSorted(ms, nicknamed);
    LastIsLatest(input, id);
    hide SortedByKey;
    forall m | m in Credited(s, g, nicknamed, u) ensures InInput(input, id, m.playedAt) {
      RowInInput(s, g, ms, nicknamed, u, m);
    }
    forall x | x in input && Rating.Involves(x, id) ensures AmongRows(Credited(s, g, nicknamed, u), x.playedAt) {
      InputFromRow(s, g, ms, nicknamed, u, x);
    }
    hide IsHistory, Credited, Input, FormatInt;
  }

  ghost predicate InInput(xs: seq<Rating.Match>, id: Rating.PlayerId, at: int) {
    exists x :: x in xs && Rating.Involves(x, id) && x.playedAt == at
  }

  ghost predicate AmongRows(rows: set<MatchRow>, at: int) { exists m :: m in rows && m.playedAt == at }

  lemma RowInInput(s: State, g: GroupId, ms: seq<MatchRow>, nicknamed: set<UserId>, u: UserId, m: MatchRow)
    requires IsHistory(s, g, ms) && Numbered(s) && DistinctPlayers(s) && m in Credited(s, g, nicknamed, u)
    ensures InInput(Input(ms, nicknamed), FormatInt(u), m.playedAt)
  {
    CreditedGames(s, g, ms, nicknamed, u);
    InputMembers(ms, nicknamed);
    DistinctIn(s, g, ms, m);
    PlayedMeans(m, u);
    assert Played(m) in Input(ms, nicknamed);
    hide IsHistory, Credited, Played, Counts, FormatInt;
  }

  lemma InputFromRow(s: State, g: GroupId, ms: seq<MatchRow>, nicknamed: set<UserId>, u: UserId, x: Rating.Match)
    requires IsHistory(s, g, ms) && Numbered(s) && DistinctPlayers(s)
    requires x in Input(ms, nicknamed) && Rating.Involves(x, FormatInt(u))
    ensures AmongRows(Credited(s, g, nicknamed, u), x.playedAt)
  {
    CreditedGames(s, g, ms, nicknamed, u);
    InputMembers(ms, nicknamed);
    var m :| m in ms && Counts(m, nicknamed) && Played(m) == x;
    DistinctIn(s, g, ms, m);
    PlayedMeans(m, u);
    assert m in Tallied(ms, nicknamed, u, Game);
    hide IsHistory, Credited, Played, Counts, FormatInt;
  }

  lemma DistinctIn(s: State, g: GroupId, ms: seq<MatchRow>, m: MatchRow)
    requires IsHistory(s, g, ms) && DistinctPlayers(s) && m in ms
    ensures m.player1 != m.player2
  {
  }
}
