/** pkg/rating/glicko2.go: the Glicko-2 engine, one simultaneous update of all players per rating period. */
module Glicko2 {
  import opened Wrappers
  import opened RealMath
  import opened Rating
  import opened Periods
  import opened GlickoUpdate

  const DEFAULT_RATING := 1500.0
  const DEFAULT_RD := 350.0
  const DEFAULT_VOL := 0.06
  const SCALE := 173.7178

  datatype PlayerState = PlayerState(scaled: Scaled, stats: Stats, bestRating: real)

  const NEWCOMER := PlayerState(
    Scaled((DEFAULT_RATING - 1500.0) / SCALE, DEFAULT_RD / SCALE, DEFAULT_VOL), NO_GAMES, DEFAULT_RATING)

  type Table = map<PlayerId, PlayerState>

  ghost predicate SoundTable(t: Table) { forall id :: id in t ==> t[id].scaled.Sound() }

  function RatingOf(s: Scaled): real { s.mu * SCALE + 1500.0 }

  // ---- what one period means

  /** The table once everybody who plays has a row. */
  function Entered(t: Table, ms: seq<Match>): Table {
    map id | id in t.Keys + PlayersOf(ms) :: if id in t then t[id] else NEWCOMER
  }

  /** The opponents id met, in order, as rated in `pre`. */
  function OpponentsOf(pre: Table, ms: seq<Match>, id: PlayerId): seq<Opponent>
    requires PlayersOf(ms) <= pre.Keys
  {
    if ms == [] then [] else
    var last := ms[|ms|-1];
    var first := if last.player1 == id
      then [Opponent(pre[last.player2].scaled.mu, pre[last.player2].scaled.phi, Outcome(last.score1, last.score2))]
          else [];
    var second := if last.player2 == id
      then [Opponent(pre[last.player1].scaled.mu, pre[last.player1].scaled.phi, Outcome(last.score2, last.score1))]
          else [];
    OpponentsOf(pre, ms[..|ms|-1], id) + first + second
  }

  /** An active player after the period's games. */
  function Activated(lib: Library, s: PlayerState, opps: seq<Opponent>, fuel: nat): PlayerState
    requires lib.Lawful() && s.scaled.Sound()
  {
    s.(scaled := Update(lib, s.scaled, opps, fuel))
  }

  /** A player who sat the period out. */
  function Rested(lib: Library, s: PlayerState): PlayerState
    requires lib.Lawful() && s.scaled.Sound()
  {
    s.(scaled := s.scaled.(phi := Inflated(lib, s.scaled.phi, s.scaled.sigma)))
  }

  function Rerated(lib: Library, pre: Table, ms: seq<Match>, id: PlayerId, fuel: nat): (r: PlayerState)
    requires lib.Lawful() && SoundTable(pre) && PlayersOf(ms) <= pre.Keys && id in pre
    ensures r.scaled.Sound()
  {
    if id in PlayersOf(ms) then Activated(lib, pre[id], OpponentsOf(pre, ms, id), fuel) else Rested(lib, pre[id])
  }

  function Recorded(s: PlayerState, ms: seq<Match>, id: PlayerId): PlayerState {
    s.(stats := StatsAfter(s.stats, ms, id))
  }

  function WithBest(s: PlayerState): PlayerState {
    if RatingOf(s.scaled) > s.bestRating then s.(bestRating := RatingOf(s.scaled)) else s
  }

  /** Everybody is rerated against the table as it stood when the period's last match was entered. */
  function PeriodStep(lib: Library, t: Table, ms: seq<Match>, fuel: nat): (r: Table)
    requires lib.Lawful() && SoundTable(t)
    ensures SoundTable(r)
  {
    var pre := Entered(t, ms);
    assert SoundTable(pre);
    map id | id in pre :: WithBest(Recorded(Rerated(lib, pre, ms, id, fuel), ms, id))
  }

  function FoldPeriods(lib: Library, ps: seq<Period>, fuel: nat): (r: Table)
    requires lib.Lawful()
    ensures SoundTable(r)
  {
    if ps == [] then map[] else PeriodStep(lib, FoldPeriods(lib, ps[..|ps|-1], fuel), ps[|ps|-1].matches, fuel)
  }

  function Report(t: Table): PlayerRatings {
    map id | id in t ::
      PlayerRating(RatingOf(t[id].scaled), t[id].scaled.phi * SCALE, t[id].scaled.sigma, t[id].stats, t[id].bestRating)
  }

  /** `NewGlicko2` raises the period length to at least a day. */
  function PeriodDays(days: int): int { if days < 1 then 1 else days }

  function Ratings(lib: Library, ms: seq<Match>, days: int, fuel: nat): Result<PlayerRatings, ValidationError>
    requires lib.Lawful() && PeriodNanos(PeriodDays(days)) > 0
  {
    PreparedCorrect(ms);
    match Prepared(ms)
    case Err(e) => Err(e)
    case Ok(sorted) => Ok(Report(FoldPeriods(lib, Grouped(sorted, PeriodNanos(PeriodDays(days))), fuel)))
  }

  lemma {:induction false} OpponentsFrame(pre: Table, pre': Table, ms: seq<Match>, id: PlayerId)
    requires PlayersOf(ms) <= pre.Keys && PlayersOf(ms) <= pre'.Keys
    requires forall q :: q in PlayersOf(ms) ==> pre[q] == pre'[q]
    ensures OpponentsOf(pre, ms, id) == OpponentsOf(pre', ms, id)
  {
    if ms != [] { OpponentsFrame(pre, pre', ms[..|ms|-1], id); }
  }

  lemma {:induction false} NoOpponents(pre: Table, ms: seq<Match>, id: PlayerId)
    requires PlayersOf(ms) <= pre.Keys
    ensures OpponentsOf(pre, ms, id) == [] <==> id !in PlayersOf(ms)
  {
    if ms != [] { NoOpponents(pre, ms[..|ms|-1], id); }
  }
}
