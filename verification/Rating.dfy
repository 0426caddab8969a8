/** pkg/rating/rating.go: matches, per-player statistics, validation and ordering of the input. */
module Rating {
  import opened Wrappers
  import opened Sorting

  type PlayerId = string

  /** Times are nanoseconds since the Unix epoch, UTC. */
  datatype Match = Match(player1: PlayerId, player2: PlayerId, score1: int, score2: int, playedAt: int)

  datatype Stats = Stats(
    games: nat, wins: nat, losses: nat, pointsFor: int, pointsAgainst: int, winStreak: int, lastPlayed: Option<int>)

  const NO_GAMES := Stats(0, 0, 0, 0, 0, 0, None)

  datatype PlayerRating = PlayerRating(rating: real, deviation: real, volatility: real, stats: Stats, bestRating: real)

  type PlayerRatings = map<PlayerId, PlayerRating>

  datatype ValidationError = EmptyPlayerId(index: nat) | SelfPlay(index: nat) | NegativeScore(index: nat)

  function PlayedAt(m: Match): int { m.playedAt }

  predicate Involves(m: Match, id: PlayerId) { m.player1 == id || m.player2 == id }

  predicate ValidMatch(m: Match) {
    && m.player1 != "" && m.player2 != ""
    && m.player1 != m.player2
    && m.score1 >= 0 && m.score2 >= 0
  }

  ghost predicate AllValid(ms: seq<Match>) { forall m :: m in ms ==> ValidMatch(m) }

  lemma ValidFront(ms: seq<Match>)
    requires ms != [] && AllValid(ms)
    ensures AllValid(ms[..|ms|-1]) && ValidMatch(ms[|ms|-1])
  {
    assert ms[|ms|-1] in ms;
    assert forall m :: m in ms[..|ms|-1] ==> m in ms;
  }

  /** The score (1, 0 or 1/2) the first side earns against the second. */
  function Outcome(own: int, other: int): real {
    if own > other then 1.0 else if other > own then 0.0 else 0.5
  }

  /** What one more game does to a player's statistics (`applyMeta`, `applyG2Meta`). */
  function RecordGame(st: Stats, at: int, own: int, other: int, s: real): Stats {
    var played := st.(games := st.games + 1, pointsFor := st.pointsFor + own,
                      pointsAgainst := st.pointsAgainst + other, lastPlayed := Some(at));
    if s == 1.0 then
      played.(wins := st.wins + 1, winStreak := if st.winStreak >= 0 then st.winStreak + 1 else 1)
    else if s == 0.0 then
      played.(losses := st.losses + 1, winStreak := if st.winStreak <= 0 then st.winStreak - 1 else -1)
    else played
  }

  function RecordMatch(st: Stats, m: Match, id: PlayerId): Stats {
    if m.player1 == id then RecordGame(st, m.playedAt, m.score1, m.score2, Outcome(m.score1, m.score2))
    else if m.player2 == id then RecordGame(st, m.playedAt, m.score2, m.score1, Outcome(m.score2, m.score1))
    else st
  }

  /** A player's statistics after the matches ms. */
  function StatsAfter(st: Stats, ms: seq<Match>, id: PlayerId): Stats {
    if ms == [] then st else RecordMatch(StatsAfter(st, ms[..|ms|-1], id), ms[|ms|-1], id)
  }

  function PlayersOf(ms: seq<Match>): set<PlayerId> {
    if ms == [] then {} else PlayersOf(ms[..|ms|-1]) + {ms[|ms|-1].player1, ms[|ms|-1].player2}
  }

  lemma {:induction false} PlayersOfMember(ms: seq<Match>, m: Match, id: PlayerId)
    requires m in ms && Involves(m, id)
    ensures id in PlayersOf(ms)
  {
    var front, last := ms[..|ms|-1], ms[|ms|-1];
    assert ms == front + [last];
    if m != last { PlayersOfMember(front, m, id); }
  }

  lemma {:induction false} StatsAfterConcat(st: Stats, a: seq<Match>, b: seq<Match>, id: PlayerId)
    ensures StatsAfter(st, a + b, id) == StatsAfter(StatsAfter(st, a, id), b, id)
  {
    if b == [] {
      assert a + b == a;
    } else {
      var front := b[..|b|-1];
      assert (a + b)[..|a + b|-1] == a + front;
      StatsAfterConcat(st, a, front, id);
    }
  }

  lemma {:induction false} PlayersOfConcat(a: seq<Match>, b: seq<Match>)
    ensures PlayersOf(a + b) == PlayersOf(a) + PlayersOf(b)
  {
    if b == [] {
      assert a + b == a;
    } else {
      var front := b[..|b|-1];
      assert (a + b)[..|a + b|-1] == a + front;
      PlayersOfConcat(a, front);
    }
  }

  /** A player without games keeps the statistics they had. */
  lemma {:induction false} StatsOfAbsent(st: Stats, ms: seq<Match>, id: PlayerId)
    requires id !in PlayersOf(ms)
    ensures StatsAfter(st, ms, id) == st
  {
    if ms != [] {
      StatsOfAbsent(st, ms[..|ms|-1], id);
    }
  }

  // ---- the meaning of the counters, independent of the running update

  function GamesIn(ms: seq<Match>, id: PlayerId): nat {
    if ms == [] then 0 else GamesIn(ms[..|ms|-1], id) + (if Involves(ms[|ms|-1], id) then 1 else 0)
  }

  function PointsOf(m: Match, id: PlayerId): (own: int) { if m.player1 == id then m.score1 else m.score2 }

  function PointsAgainst(m: Match, id: PlayerId): (other: int) { if m.player1 == id then m.score2 else m.score1 }

  predicate Won(m: Match, id: PlayerId) { Involves(m, id) && PointsOf(m, id) > PointsAgainst(m, id) }

  predicate Lost(m: Match, id: PlayerId) { Involves(m, id) && PointsOf(m, id) < PointsAgainst(m, id) }

  function WinsIn(ms: seq<Match>, id: PlayerId): nat {
    if ms == [] then 0 else WinsIn(ms[..|ms|-1], id) + (if Won(ms[|ms|-1], id) then 1 else 0)
  }

  function LossesIn(ms: seq<Match>, id: PlayerId): nat {
    if ms == [] then 0 else LossesIn(ms[..|ms|-1], id) + (if Lost(ms[|ms|-1], id) then 1 else 0)
  }

  function ScoredIn(ms: seq<Match>, id: PlayerId): int {
    if ms == [] then 0 else
    ScoredIn(ms[..|ms|-1], id) + (if Involves(ms[|ms|-1], id) then PointsOf(ms[|ms|-1], id) else 0)
  }

  function ConcededIn(ms: seq<Match>, id: PlayerId): int {
    if ms == [] then 0 else
    ConcededIn(ms[..|ms|-1], id) + (if Involves(ms[|ms|-1], id) then PointsAgainst(ms[|ms|-1], id) else 0)
  }

  /** The length of the run of wins (positive) or losses (negative) that ends id's history, draws skipped. */
  ghost predicate StreakIs(ms: seq<Match>, id: PlayerId, streak: int) {
    if ms == [] then streak == 0
    else
      var front, last := ms[..|ms|-1], ms[|ms|-1];
      if Won(last, id) then
        streak >= 1 && (if streak == 1 then exists before :: before <= 0 && StreakIs(front, id, before)
                        else StreakIs(front, id, streak - 1))
      else if Lost(last, id) then
        streak <= -1 && (if streak == -1 then exists before :: before >= 0 && StreakIs(front, id, before)
                         else StreakIs(front, id, streak + 1))
      else StreakIs(front, id, streak)
  }

  /** When id's latest match was played. */
  function LastPlayedIn(ms: seq<Match>, id: PlayerId): Option<int> {
    if ms == [] then None
    else if Involves(ms[|ms|-1], id) then Some(ms[|ms|-1].playedAt)
    else LastPlayedIn(ms[..|ms|-1], id)
  }

  /** The running statistics count what they are named for. */
  lemma {:induction false} StatsMean(ms: seq<Match>, id: PlayerId)
    requires AllValid(ms)
    ensures var st := StatsAfter(NO_GAMES, ms, id);
            && st.games == GamesIn(ms, id)
            && st.wins == WinsIn(ms, id) && st.losses == LossesIn(ms, id)
            && st.pointsFor == ScoredIn(ms, id) && st.pointsAgainst == ConcededIn(ms, id)
            && StreakIs(ms, id, st.winStreak) && st.lastPlayed == LastPlayedIn(ms, id)
            && st.wins + st.losses <= st.games
  {
    if ms != [] {
      var front, last := ms[..|ms|-1], ms[|ms|-1];
      assert last in ms;
      forall m | m in front ensures m in ms {}
      StatsMean(front, id);
      var before := StatsAfter(NO_GAMES, front, id).winStreak;
      assert StreakIs(front, id, before);
    }
  }

  // ---- validation

  function MatchError(m: Match, i: nat): Option<ValidationError> {
    if m.player1 == "" || m.player2 == "" then Some(EmptyPlayerId(i))
    else if m.player1 == m.player2 then Some(SelfPlay(i))
    else if m.score1 < 0 || m.score2 < 0 then Some(NegativeScore(i))
    else None
  }

  function FirstError(ms: seq<Match>): Option<ValidationError> {
    if ms == [] then None
    else if FirstError(ms[..|ms|-1]).Some? then FirstError(ms[..|ms|-1])
    else MatchError(ms[|ms|-1], |ms|-1)
  }

  /** The outcome of `validateAndSort`. */
  function Prepared(ms: seq<Match>): Result<seq<Match>, ValidationError> {
    match FirstError(ms)
    case Some(e) => Err(e)
    case None => Ok(StableByKey(PlayedAt, ms))
  }

  /** Preparation fails exactly on invalid input, naming the first invalid match; otherwise it only reorders. */
  lemma {:induction false} PreparedCorrect(ms: seq<Match>)
    ensures Prepared(ms).Ok? <==> AllValid(ms)
    ensures Prepared(ms).Ok? ==>
              && multiset(Prepared(ms).value) == multiset(ms)
              && SortedByKey(PlayedAt, Prepared(ms).value)
              && AllValid(Prepared(ms).value)
    ensures Prepared(ms).Err? ==>
              var i := Prepared(ms).error.index;
              i < |ms| && MatchError(ms[i], i) == Some(Prepared(ms).error) && AllValid(ms[..i])
  {
    FirstErrorCorrect(ms);
    if FirstError(ms).None? {
      StableByKeyCorrect(PlayedAt, ms);
      MemberByMultiset(StableByKey(PlayedAt, ms), ms);
    }
  }

  /** What each error says of the match it names. */
  lemma ErrorsMean(m: Match, i: nat)
    ensures var e := MatchError(m, i);
            && (e == Some(EmptyPlayerId(i)) <==> m.player1 == "" || m.player2 == "")
            && (e == Some(SelfPlay(i)) <==> m.player1 != "" && m.player1 == m.player2)
            && (e == Some(NegativeScore(i)) <==>
                  m.player1 != "" && m.player2 != "" && m.player1 != m.player2 && (m.score1 < 0 || m.score2 < 0))
  {
  }

  lemma {:induction false} FirstErrorCorrect(ms: seq<Match>)
    ensures FirstError(ms).None? <==> AllValid(ms)
    ensures FirstError(ms).Some? ==>
              var i := FirstError(ms).value.index;
              i < |ms| && MatchError(ms[i], i) == FirstError(ms) && AllValid(ms[..i])
  {
    if ms != [] {
      var front, last := ms[..|ms|-1], ms[|ms|-1];
      FirstErrorCorrect(front);
      assert ms == front + [last];
      if FirstError(front).Some? {
        var i := FirstError(front).value.index;
        assert front[..i] == ms[..i];
        assert ms[i] in ms && !ValidMatch(ms[i]);
      } else {
        assert last in ms;
        assert ValidMatch(last) <==> FirstError(ms).None?;
        if ValidMatch(last) {
          forall m | m in ms ensures ValidMatch(m) { assert m in front || m == last; }
        }
      }
    }
  }

  method ValidateAndSort(ms: seq<Match>) returns (r: Result<seq<Match>, ValidationError>)
    ensures r == Prepared(ms)
  {
    var out := ms;
    for i := 0 to |out|
      invariant FirstError(out[..i]).None?
    {
      var m := out[i];
      assert out[..i+1][..i] == out[..i];
      if m.player1 == "" || m.player2 == "" { FirstErrorStays(ms, i+1); return Err(EmptyPlayerId(i)); }
      if m.player1 == m.player2 { FirstErrorStays(ms, i+1); return Err(SelfPlay(i)); }
      if m.score1 < 0 || m.score2 < 0 { FirstErrorStays(ms, i+1); return Err(NegativeScore(i)); }
    }
    assert out[..|out|] == ms;
    out := SliceStable(PlayedAt, out);
    r := Ok(out);
  }

  lemma {:induction false} FirstErrorStays(ms: seq<Match>, k: nat)
    requires k <= |ms| && FirstError(ms[..k]).Some?
    ensures FirstError(ms) == FirstError(ms[..k])
  {
    if k < |ms| {
      assert ms[..|ms|-1][..k] == ms[..k];
      FirstErrorStays(ms[..|ms|-1], k);
    } else {
      assert ms[..k] == ms;
    }
  }
}
