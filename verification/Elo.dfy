/** pkg/rating/elo.go: the ELO engine, one update per match in chronological order. */
module Elo {
  import opened Wrappers
  import opened RealMath
  import opened Rating
  import opened Sums

  const DEFAULT := 1000.0
  const K_HIGH := 32.0
  const K_LOW := 16.0
  const K_THRESHOLD := 30

  const NEWCOMER := PlayerRating(DEFAULT, 0.0, 0.0, NO_GAMES, 0.0)

  function KFactor(games: nat): real { if games < K_THRESHOLD then K_HIGH else K_LOW }

  function Lookup(pr: PlayerRatings, id: PlayerId): PlayerRating { if id in pr then pr[id] else NEWCOMER }

  function Expected(lib: Library, own: real, other: real): (e: real)
    requires lib.Lawful()
    ensures 0.0 < e < 1.0
  {
    var p := lib.pow10((other - own) / 400.0);
    assert lib.PowPositive((other - own) / 400.0);
    DivPositive(1.0, 1.0 + p);
    1.0 / (1.0 + p)
  }

  function Updated(r: PlayerRating, change: real, at: int, own: int, other: int, s: real): PlayerRating {
    var rating := r.rating + change;
    r.(rating := rating, stats := RecordGame(r.stats, at, own, other, s),
       bestRating := if rating > r.bestRating then rating else r.bestRating)
  }

  /** Rating points for beating expectation by `surprise`. */
  function Change(games: nat, surprise: real): real { KFactor(games) * surprise }

  /** One update, given the first player's expected score. */
  function StepWith(pr: PlayerRatings, m: Match, ea: real): PlayerRatings {
    var ra, rb := Lookup(pr, m.player1), Lookup(pr, m.player2);
    var eb := 1.0 - ea;
    var sa, sb := Outcome(m.score1, m.score2), Outcome(m.score2, m.score1);
    pr[m.player1 := Updated(ra, Change(ra.stats.games, sa - ea), m.playedAt, m.score1, m.score2, sa)]
      [m.player2 := Updated(rb, Change(rb.stats.games, sb - eb), m.playedAt, m.score2, m.score1, sb)]
  }

  /** By how much the first player's score beats its expectation. */
  function Surprise(m: Match, ea: real): real { Outcome(m.score1, m.score2) - ea }

  function ExpectedFor(lib: Library, pr: PlayerRatings, m: Match): (e: real)
    requires lib.Lawful()
    ensures 0.0 < e < 1.0
  {
    Expected(lib, Lookup(pr, m.player1).rating, Lookup(pr, m.player2).rating)
  }

  function Step(lib: Library, pr: PlayerRatings, m: Match): PlayerRatings
    requires lib.Lawful()
  {
    StepWith(pr, m, ExpectedFor(lib, pr, m))
  }

  function Fold(lib: Library, ms: seq<Match>): PlayerRatings
    requires lib.Lawful()
  {
    if ms == [] then map[] else Step(lib, Fold(lib, ms[..|ms|-1]), ms[|ms|-1])
  }

  function Ratings(lib: Library, ms: seq<Match>): Result<PlayerRatings, ValidationError>
    requires lib.Lawful()
  {
    match Prepared(ms)
    case Err(e) => Err(e)
    case Ok(sorted) => Ok(Fold(lib, sorted))
  }

  method ApplyMeta(r: PlayerRating, at: int, own: int, other: int, s: real) returns (r': PlayerRating)
    ensures r' == r.(stats := RecordGame(r.stats, at, own, other, s),
                     bestRating := if r.rating > r.bestRating then r.rating else r.bestRating)
  {
    r' := r.(stats := RecordGame(r.stats, at, own, other, s));
    if r'.rating > r'.bestRating { r' := r'.(bestRating := r'.rating); }
  }

  method Adjustment(games: nat, surprise: real) returns (change: real)
    ensures change == Change(games, surprise)
  {
    var k := KFactor(games);
    change := k * surprise;
  }

  /** A player's share of a match: the rating moves, then the game is recorded. */
  method Adjust(r: PlayerRating, change: real, at: int, own: int, other: int, s: real) returns (r': PlayerRating)
    ensures r' == Updated(r, change, at, own, other, s)
  {
    hide RecordGame;
    r' := ApplyMeta(r.(rating := r.rating + change), at, own, other, s);
  }

  method RateMatch(lib: Library, pr: PlayerRatings, m: Match) returns (pr': PlayerRatings)
    requires lib.Lawful()
    ensures pr' == Step(lib, pr, m)
  {
    var ra, rb := Lookup(pr, m.player1), Lookup(pr, m.player2);
    var ea := Expected(lib, ra.rating, rb.rating);
    var eb := 1.0 - ea;
    var sa, sb := 0.5, 0.5;
    if m.score1 > m.score2 { sa, sb := 1.0, 0.0; } else if m.score2 > m.score1 { sa, sb := 0.0, 1.0; }
    assert sa == Outcome(m.score1, m.score2) && sb == Outcome(m.score2, m.score1);
    hide Change, Outcome, RecordGame, Expected, KFactor, Lookup;
    var changeA := Adjustment(ra.stats.games, sa - ea);
    var changeB := Adjustment(rb.stats.games, sb - eb);
    hide Updated;
    ra := Adjust(ra, changeA, m.playedAt, m.score1, m.score2, sa);
    rb := Adjust(rb, changeB, m.playedAt, m.score2, m.score1, sb);
    pr' := pr[m.player1 := ra][m.player2 := rb];
  }

  method Compute(lib: Library, ms: seq<Match>) returns (out: Result<PlayerRatings, ValidationError>)
    requires lib.Lawful()
    ensures out == Ratings(lib, ms)
  {
    var prepared := ValidateAndSort(ms);
    if prepared.Err? { return Err(prepared.error); }
    var sorted := prepared.value;
    var pr: PlayerRatings := map[];
    for i := 0 to |sorted|
      invariant pr == Fold(lib, sorted[..i])
    {
      assert sorted[..i+1][..i] == sorted[..i];
      pr := RateMatch(lib, pr, sorted[i]);
    }
    assert sorted[..|sorted|] == sorted;
    out := Ok(pr);
  }

  // ---- who is rated, and their statistics

  lemma {:induction false} FoldStats(lib: Library, ms: seq<Match>)
    requires lib.Lawful() && AllValid(ms)
    ensures Fold(lib, ms).Keys == PlayersOf(ms)
    ensures forall id :: id in Fold(lib, ms) ==> Fold(lib, ms)[id].stats == StatsAfter(NO_GAMES, ms, id)
  {
    if ms != [] {
      var front, last := ms[..|ms|-1], ms[|ms|-1];
      ValidFront(ms);
      FoldStats(lib, front);
      var pr := Fold(lib, front);
      forall id | id in Fold(lib, ms) ensures Fold(lib, ms)[id].stats == StatsAfter(NO_GAMES, ms, id) {
        if id !in pr { StatsOfAbsent(NO_GAMES, front, id); }
      }
    }
  }

  lemma LookupStats(lib: Library, ms: seq<Match>, id: PlayerId)
    requires lib.Lawful() && AllValid(ms)
    ensures Lookup(Fold(lib, ms), id).stats == StatsAfter(NO_GAMES, ms, id)
  {
    FoldStats(lib, ms);
    if id !in PlayersOf(ms) { StatsOfAbsent(NO_GAMES, ms, id); }
  }

  lemma LookupGames(lib: Library, ms: seq<Match>, id: PlayerId)
    requires lib.Lawful() && AllValid(ms)
    ensures Lookup(Fold(lib, ms), id).stats.games == GamesIn(ms, id)
  {
    LookupStats(lib, ms, id);
    StatsMean(ms, id);
  }

  // ---- conservation

  ghost function Deviations(pr: PlayerRatings): map<PlayerId, real> {
    map id | id in pr :: pr[id].rating - DEFAULT
  }

  /** What a match adds to the total when the players' K factors differ. */
  function Gap(ga: nat, gb: nat, surprise: real): real { (KFactor(ga) - KFactor(gb)) * surprise }

  function Imbalance(lib: Library, ms: seq<Match>): real
    requires lib.Lawful()
  {
    if ms == [] then 0.0 else
    var front, last := ms[..|ms|-1], ms[|ms|-1];
    Imbalance(lib, front) +
    Gap(GamesIn(front, last.player1), GamesIn(front, last.player2),
        Surprise(last, ExpectedFor(lib, Fold(lib, front), last)))
  }

  lemma StepDeviations(pr: PlayerRatings, m: Match, ea: real)
    requires ValidMatch(m)
    ensures MapSum(Deviations(StepWith(pr, m, ea))) ==
            MapSum(Deviations(pr)) +
            Gap(Lookup(pr, m.player1).stats.games, Lookup(pr, m.player2).stats.games, Surprise(m, ea))
  {
    var after, d := StepWith(pr, m, ea), Deviations(pr);
    var ra, rb, s := Lookup(pr, m.player1), Lookup(pr, m.player2), Surprise(m, ea);
    assert Outcome(m.score2, m.score1) - (1.0 - ea) == -s;
    var ca, cb := Change(ra.stats.games, s), Change(rb.stats.games, -s);
    var da, db := ra.rating + ca - DEFAULT, rb.rating + cb - DEFAULT;
    assert Deviations(after) == d[m.player1 := da][m.player2 := db];
    MapSumUpdate(d, m.player1, da);
    MapSumUpdate(d[m.player1 := da], m.player2, db);
    ChangesAddUp(ra.stats.games, rb.stats.games, s);
  }

  lemma ChangesAddUp(ga: nat, gb: nat, s: real)
    ensures Change(ga, s) + Change(gb, -s) == Gap(ga, gb, s)
  {
  }

  /** The ratings' total drifts from 1000 a player by exactly the accumulated K-factor imbalance. */
  lemma {:induction false} Conservation(lib: Library, ms: seq<Match>)
    requires lib.Lawful() && AllValid(ms)
    ensures MapSum(Deviations(Fold(lib, ms))) == Imbalance(lib, ms)
  {
    if ms != [] {
      var front, last := ms[..|ms|-1], ms[|ms|-1];
      ValidFront(ms);
      Conservation(lib, front);
      StepDeviations(Fold(lib, front), last, ExpectedFor(lib, Fold(lib, front), last));
      LookupGames(lib, front, last.player1);
      LookupGames(lib, front, last.player2);
    }
  }

  /** While nobody passes 30 games the total is conserved. */
  lemma {:induction false} ConservedUntilThreshold(lib: Library, ms: seq<Match>)
    requires lib.Lawful() && AllValid(ms)
    requires forall id :: GamesIn(ms, id) <= K_THRESHOLD
    ensures MapSum(Deviations(Fold(lib, ms))) == 0.0
  {
    Conservation(lib, ms);
    NoImbalance(lib, ms);
  }

  lemma {:induction false} NoImbalance(lib: Library, ms: seq<Match>)
    requires lib.Lawful()
    requires forall id :: GamesIn(ms, id) <= K_THRESHOLD
    ensures Imbalance(lib, ms) == 0.0
  {
    if ms != [] {
      var front, last := ms[..|ms|-1], ms[|ms|-1];
      forall id ensures GamesIn(front, id) <= K_THRESHOLD { assert GamesIn(front, id) <= GamesIn(ms, id); }
      NoImbalance(lib, front);
      assert GamesIn(ms, last.player1) == GamesIn(front, last.player1) + 1;
      assert GamesIn(ms, last.player2) == GamesIn(front, last.player2) + 1;
    }
  }

  ghost function WinTotals(pr: PlayerRatings): map<PlayerId, real> { map id | id in pr :: pr[id].stats.wins as real }

  ghost function LossTotals(pr: PlayerRatings): map<PlayerId, real> { map id | id in pr :: pr[id].stats.losses as real }

  /** Every win is somebody's loss. */
  lemma {:induction false} WinsBalanceLosses(lib: Library, ms: seq<Match>)
    requires lib.Lawful() && AllValid(ms)
    ensures MapSum(WinTotals(Fold(lib, ms))) == MapSum(LossTotals(Fold(lib, ms)))
  {
    if ms != [] {
      var front, last := ms[..|ms|-1], ms[|ms|-1];
      ValidFront(ms);
      WinsBalanceLosses(lib, front);
      StepResults(Fold(lib, front), last, ExpectedFor(lib, Fold(lib, front), last));
    }
  }

  lemma TotalsOfUpdate(pr: PlayerRatings, a: PlayerId, ra: PlayerRating, b: PlayerId, rb: PlayerRating)
    ensures WinTotals(pr[a := ra][b := rb]) ==
            WinTotals(pr)[a := ra.stats.wins as real][b := rb.stats.wins as real]
    ensures LossTotals(pr[a := ra][b := rb]) ==
            LossTotals(pr)[a := ra.stats.losses as real][b := rb.stats.losses as real]
  {
  }

  /** Both players of a game together gain as many wins as losses. */
  lemma GameResults(m: Match, a: Stats, b: Stats)
    requires ValidMatch(m)
    ensures var a' := RecordGame(a, m.playedAt, m.score1, m.score2, Outcome(m.score1, m.score2));
            var b' := RecordGame(b, m.playedAt, m.score2, m.score1, Outcome(m.score2, m.score1));
            a'.wins - a.wins + (b'.wins - b.wins) == a'.losses - a.losses + (b'.losses - b.losses)
  {
  }

  lemma StepResults(pr: PlayerRatings, m: Match, ea: real)
    requires ValidMatch(m)
    ensures MapSum(WinTotals(StepWith(pr, m, ea))) - MapSum(WinTotals(pr)) ==
            MapSum(LossTotals(StepWith(pr, m, ea))) - MapSum(LossTotals(pr))
  {
    hide Change, Outcome, RecordGame, MapSum;
    var after, a, b := StepWith(pr, m, ea), m.player1, m.player2;
    var ra, rb := after[a], after[b];
    TotalsOfUpdate(pr, a, ra, b, rb);
    GameResults(m, Lookup(pr, a).stats, Lookup(pr, b).stats);
    var w, l := WinTotals(pr), LossTotals(pr);
    MapSumUpdate(w, a, ra.stats.wins as real);
    MapSumUpdate(w[a := ra.stats.wins as real], b, rb.stats.wins as real);
    MapSumUpdate(l, a, ra.stats.losses as real);
    MapSumUpdate(l[a := ra.stats.losses as real], b, rb.stats.losses as real);
  }

  // ---- bounds

  function DriftBound(games: nat): real {
    if games <= K_THRESHOLD then K_HIGH * games as real
    else K_HIGH * K_THRESHOLD as real + K_LOW * (games - K_THRESHOLD) as real
  }

  lemma ChangeBounded(games: nat, s: real)
    requires -1.0 < s < 1.0
    ensures -KFactor(games) < Change(games, s) < KFactor(games)
    ensures s > 0.0 ==> Change(games, s) > 0.0
    ensures s < 0.0 ==> Change(games, s) < 0.0
  {
    MulLess(s, 1.0, KFactor(games));
    MulLess(-1.0, s, KFactor(games));
  }

  ghost predicate WithinDrift(rating: real, games: nat) {
    if games == 0 then rating == DEFAULT else -DriftBound(games) < rating - DEFAULT < DriftBound(games)
  }

  lemma DriftOfOne(rating: real, games: nat, surprise: real)
    requires -1.0 < surprise < 1.0 && WithinDrift(rating, games)
    ensures WithinDrift(rating + Change(games, surprise), games + 1)
  {
    ChangeBounded(games, surprise);
    assert DriftBound(games + 1) == DriftBound(games) + KFactor(games);
    hide Change;
  }

  lemma StepDrift(pr: PlayerRatings, m: Match, ea: real, id: PlayerId)
    requires ValidMatch(m) && 0.0 < ea < 1.0
    requires WithinDrift(Lookup(pr, id).rating, Lookup(pr, id).stats.games)
    ensures var r := Lookup(StepWith(pr, m, ea), id); WithinDrift(r.rating, r.stats.games)
  {
    var r := Lookup(pr, id);
    DriftOfOne(r.rating, r.stats.games, Outcome(m.score1, m.score2) - ea);
    DriftOfOne(r.rating, r.stats.games, Outcome(m.score2, m.score1) - (1.0 - ea));
    hide WithinDrift, Change;
  }

  /** After g > 0 games a rating lies strictly within 32 min(g, 30) + 16 max(g - 30, 0) of 1000. */
  lemma {:induction false} Drift(lib: Library, ms: seq<Match>, id: PlayerId)
    requires lib.Lawful() && AllValid(ms)
    ensures WithinDrift(Lookup(Fold(lib, ms), id).rating, GamesIn(ms, id))
  {
    if ms != [] {
      var front, last := ms[..|ms|-1], ms[|ms|-1];
      ValidFront(ms);
      Drift(lib, front, id);
      LookupGames(lib, front, id);
      LookupGames(lib, ms, id);
      StepDrift(Fold(lib, front), last, ExpectedFor(lib, Fold(lib, front), last), id);
    }
  }

  /** A win always gains rating and a loss always costs some. */
  lemma WinnerGains(pr: PlayerRatings, m: Match, ea: real)
    requires ValidMatch(m) && m.score1 != m.score2 && 0.0 < ea < 1.0
    ensures var (winner, loser) := if m.score1 > m.score2 then (m.player1, m.player2) else (m.player2, m.player1);
            && StepWith(pr, m, ea)[winner].rating > Lookup(pr, winner).rating
            && StepWith(pr, m, ea)[loser].rating < Lookup(pr, loser).rating
  {
    var ga, gb := Lookup(pr, m.player1).stats.games, Lookup(pr, m.player2).stats.games;
    ChangeBounded(ga, Outcome(m.score1, m.score2) - ea);
    ChangeBounded(gb, Outcome(m.score2, m.score1) - (1.0 - ea));
  }

  function Flipped(m: Match): Match { Match(m.player2, m.player1, m.score2, m.score1, m.playedAt) }

  lemma ExpectedComplement(lib: Library, x: real, y: real)
    requires lib.Lawful()
    ensures Expected(lib, x, y) + Expected(lib, y, x) == 1.0
  {
    var t := (y - x) / 400.0;
    assert (x - y) / 400.0 == -t;
    assert lib.PowPositive(t) && lib.PowPositive(-t) && lib.PowFlip(t);
    SumOfReciprocals(lib.pow10(t), lib.pow10(-t));
  }

  /** Which player is written first in a match record does not matter. */
  lemma OrderOfPlayersIrrelevant(lib: Library, pr: PlayerRatings, m: Match)
    requires lib.Lawful() && ValidMatch(m)
    ensures Step(lib, pr, m) == Step(lib, pr, Flipped(m))
  {
    ExpectedComplement(lib, Lookup(pr, m.player1).rating, Lookup(pr, m.player2).rating);
    FlippedStep(pr, m, ExpectedFor(lib, pr, m));
  }

  lemma FlippedStep(pr: PlayerRatings, m: Match, ea: real)
    requires ValidMatch(m)
    ensures StepWith(pr, m, ea) == StepWith(pr, Flipped(m), 1.0 - ea)
  {
  }
}
