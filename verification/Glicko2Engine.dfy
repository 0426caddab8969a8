/**
 pkg/rating/glicko2.go, `Compute`: player records updated in place through a map of pointers. The loops over
 Go maps take their keys in an arbitrary order, so each contract holds for every visiting order.
 */
module Glicko2Engine {
  import opened Wrappers
  import opened RealMath
  import opened Rating
  import opened Periods
  import opened GlickoUpdate
  import opened Glicko2

  class Player {
    var mu: real
    var phi: real
    var sigma: real
    var stats: Stats
    var bestRating: real

    ghost function State(): PlayerState
      reads this
    {
      PlayerState(Scaled(mu, phi, sigma), stats, bestRating)
    }

    constructor ()
      ensures State() == NEWCOMER
    {
      mu, phi, sigma := (DEFAULT_RATING - 1500.0) / SCALE, DEFAULT_RD / SCALE, DEFAULT_VOL;
      stats := NO_GAMES;
      bestRating := DEFAULT_RATING;
    }

    method SetScaled(r: Scaled)
      modifies this
      ensures State() == old(State()).(scaled := r)
    {
      mu, phi, sigma := r.mu, r.phi, r.sigma;
    }

    method ApplyMeta(at: int, own: int, other: int, s: real)
      modifies this
      ensures State() == old(State()).(stats := RecordGame(old(stats), at, own, other, s))
    {
      stats := RecordGame(stats, at, own, other, s);
    }
  }

  type Players = map<PlayerId, Player>

  /** Different players have different records. */
  ghost predicate Distinct(players: Players) {
    forall p, q :: p in players && q in players && p != q ==> players[p] != players[q]
  }

  ghost function Snapshot(players: Players): Table
    reads players.Values
  {
    map id | id in players :: players[id].State()
  }

  function WithRow(t: Table, id: PlayerId): Table { t[id := if id in t then t[id] else NEWCOMER] }

  method Get(players: Players, id: PlayerId) returns (players': Players)
    requires Distinct(players)
    ensures Distinct(players') && players'.Keys == players.Keys + {id}
    ensures fresh(players'.Values - players.Values)
    ensures Snapshot(players') == WithRow(old(Snapshot(players)), id)
    ensures forall q :: q in players ==> players'[q] == players[q]
  {
    players' := players;
    if id !in players {
      var p := new Player();
      players' := players[id := p];
      assert forall o :: o in players'.Values ==> o in players.Values || o == p;
    }
  }

  /** Which opponents each player met, as rated now, and the bookkeeping to do after the rating updates. */
  datatype Bucketed = Bucketed(participants: map<PlayerId, seq<Opponent>>, metaUpdates: seq<(Match, real, real)>)

  function MetaUpdatesOf(ms: seq<Match>): seq<(Match, real, real)> {
    if ms == [] then [] else
    var last := ms[|ms|-1];
    MetaUpdatesOf(ms[..|ms|-1]) + [(last, Outcome(last.score1, last.score2), Outcome(last.score2, last.score1))]
  }

  function OpponentsSoFar(participants: map<PlayerId, seq<Opponent>>, id: PlayerId): seq<Opponent> {
    if id in participants then participants[id] else []
  }

  ghost predicate BucketedAs(b: Bucketed, pre: Table, ms: seq<Match>)
    requires PlayersOf(ms) <= pre.Keys
  {
    && b.participants.Keys == PlayersOf(ms)
    && (forall id :: OpponentsSoFar(b.participants, id) == OpponentsOf(pre, ms, id))
    && b.metaUpdates == MetaUpdatesOf(ms)
  }

  function Append(participants: map<PlayerId, seq<Opponent>>, id: PlayerId, o: Opponent): map<PlayerId, seq<Opponent>> {
    participants[id := OpponentsSoFar(participants, id) + [o]]
  }

  lemma AppendFacts(participants: map<PlayerId, seq<Opponent>>, id: PlayerId, o: Opponent, q: PlayerId)
    ensures Append(participants, id, o).Keys == participants.Keys + {id}
    ensures OpponentsSoFar(Append(participants, id, o), q) ==
            OpponentsSoFar(participants, q) + (if id == q then [o] else [])
  {
  }

  lemma OpponentsSnoc(pre: Table, ms: seq<Match>, pre': Table, m: Match, o1: Opponent, o2: Opponent, q: PlayerId)
    requires PlayersOf(ms) <= pre.Keys
    requires pre.Keys <= pre'.Keys && (forall id :: id in pre ==> pre'[id] == pre[id])
    requires m.player1 in pre' && m.player2 in pre'
    requires o1 == Opponent(pre'[m.player2].scaled.mu, pre'[m.player2].scaled.phi, Outcome(m.score1, m.score2))
    requires o2 == Opponent(pre'[m.player1].scaled.mu, pre'[m.player1].scaled.phi, Outcome(m.score2, m.score1))
    ensures PlayersOf(ms + [m]) == PlayersOf(ms) + {m.player1, m.player2}
    ensures OpponentsOf(pre', ms + [m], q) ==
            OpponentsOf(pre, ms, q) + (if m.player1 == q then [o1] else []) + (if m.player2 == q then [o2] else [])
  {
    assert (ms + [m])[..|ms|] == ms;
    OpponentsFrame(pre, pre', ms, q);
  }

  lemma BucketedSnoc(b: Bucketed, pre: Table, ms: seq<Match>, pre': Table, m: Match, s1: real, s2: real)
    requires PlayersOf(ms) <= pre.Keys && BucketedAs(b, pre, ms)
    requires pre.Keys <= pre'.Keys && (forall id :: id in pre ==> pre'[id] == pre[id])
    requires m.player1 in pre' && m.player2 in pre'
    requires s1 == Outcome(m.score1, m.score2) && s2 == Outcome(m.score2, m.score1)
    ensures PlayersOf(ms + [m]) <= pre'.Keys
    ensures var o1 := Opponent(pre'[m.player2].scaled.mu, pre'[m.player2].scaled.phi, s1);
            var o2 := Opponent(pre'[m.player1].scaled.mu, pre'[m.player1].scaled.phi, s2);
            BucketedAs(Bucketed(Append(Append(b.participants, m.player1, o1), m.player2, o2),
                                b.metaUpdates + [(m, s1, s2)]),
                       pre', ms + [m])
  {
    hide Append, Outcome, OpponentsOf, MetaUpdatesOf, OpponentsSoFar, PlayersOf;
    MetaUpdatesSnoc(ms, m);
    var o1 := Opponent(pre'[m.player2].scaled.mu, pre'[m.player2].scaled.phi, s1);
    var o2 := Opponent(pre'[m.player1].scaled.mu, pre'[m.player1].scaled.phi, s2);
    var once := Append(b.participants, m.player1, o1);
    var twice := Append(once, m.player2, o2);
    OpponentsSnoc(pre, ms, pre', m, o1, o2, m.player1);
    AppendFacts(b.participants, m.player1, o1, m.player1);
    AppendFacts(once, m.player2, o2, m.player2);
    forall q ensures OpponentsSoFar(twice, q) == OpponentsOf(pre', ms + [m], q) {
      AppendFacts(b.participants, m.player1, o1, q);
      AppendFacts(once, m.player2, o2, q);
      OpponentsSnoc(pre, ms, pre', m, o1, o2, q);
    }
  }

  lemma MetaUpdatesSnoc(ms: seq<Match>, m: Match)
    ensures MetaUpdatesOf(ms + [m]) ==
            MetaUpdatesOf(ms) + [(m, Outcome(m.score1, m.score2), Outcome(m.score2, m.score1))]
  {
    assert (ms + [m])[..|ms|] == ms;
  }

  lemma EnteredSnoc(t: Table, ms: seq<Match>, m: Match)
    ensures PlayersOf(ms + [m]) == PlayersOf(ms) + {m.player1, m.player2}
    ensures Entered(t, ms + [m]) == Entered(Entered(t, ms), [m])
  {
    assert (ms + [m])[..|ms|] == ms;
    PlayersOfOne(m);
  }

  lemma PlayersOfOne(m: Match)
    ensures PlayersOf([m]) == {m.player1, m.player2}
  {
    assert [m][..0] == [];
    assert PlayersOf([]) == {};
  }

  method EnterMatch(players: Players, m: Match) returns (players': Players)
    requires Distinct(players)
    ensures Distinct(players') && fresh(players'.Values - players.Values)
    ensures Snapshot(players') == Entered(old(Snapshot(players)), [m])
    ensures players'.Keys == players.Keys + {m.player1, m.player2}
  {
    players' := Get(players, m.player1);
    players' := Get(players', m.player2);
    EnteredOne(old(Snapshot(players)), m);
  }

  lemma EnteredOne(t: Table, m: Match)
    ensures Entered(t, [m]) == WithRow(WithRow(t, m.player1), m.player2)
  {
    PlayersOfOne(m);
  }

  method BucketMatch(players: Players, b: Bucketed, m: Match, ghost t: Table, ghost done: seq<Match>)
    returns (players': Players, b': Bucketed)
    requires Distinct(players) && ValidMatch(m)
    requires Snapshot(players) == Entered(t, done) && BucketedAs(b, Entered(t, done), done)
    ensures Distinct(players') && fresh(players'.Values - players.Values)
    ensures Snapshot(players') == Entered(t, done + [m]) && BucketedAs(b', Entered(t, done + [m]), done + [m])
  {
    players' := EnterMatch(players, m);
    EnteredSnoc(t, done, m);
    ghost var pre' := Snapshot(players');
    var p1, p2 := players'[m.player1], players'[m.player2];
    assert p1.State() == pre'[m.player1] && p2.State() == pre'[m.player2];
    var sa, sb := 0.5, 0.5;
    if m.score1 > m.score2 { sa, sb := 1.0, 0.0; } else if m.score2 > m.score1 { sa, sb := 0.0, 1.0; }
    BucketedSnoc(b, Entered(t, done), done, pre', m, sa, sb);
    var participants := Append(b.participants, m.player1, Opponent(p2.mu, p2.phi, sa));
    b' := Bucketed(Append(participants, m.player2, Opponent(p1.mu, p1.phi, sb)), b.metaUpdates + [(m, sa, sb)]);
  }

  lemma NothingBucketed(t: Table)
    ensures Entered(t, []) == t && BucketedAs(Bucketed(map[], []), t, [])
  {
  }

  method BucketMatches(players: Players, ms: seq<Match>) returns (players': Players, b: Bucketed)
    requires Distinct(players) && AllValid(ms)
    ensures Distinct(players') && fresh(players'.Values - players.Values)
    ensures Snapshot(players') == Entered(old(Snapshot(players)), ms)
    ensures BucketedAs(b, Entered(old(Snapshot(players)), ms), ms)
  {
    hide BucketedAs;
    ghost var t := Snapshot(players);
    NothingBucketed(t);
    players', b := players, Bucketed(map[], []);
    for i := 0 to |ms|
      invariant Distinct(players') && fresh(players'.Values - players.Values)
      invariant Snapshot(players') == Entered(t, ms[..i])
      invariant BucketedAs(b, Entered(t, ms[..i]), ms[..i])
    {
      assert ms[..i+1] == ms[..i] + [ms[i]];
      assert ms[i] in ms;
      players', b := BucketMatch(players', b, ms[i], t, ms[..i]);
    }
    assert ms[..|ms|] == ms;
  }

  /** Active players: each is updated in place from its pre-period state. */
  method UpdateActive(lib: Library, players: Players, participants: map<PlayerId, seq<Opponent>>, fuel: nat,
                      ghost pre: Table)
    requires lib.Lawful() && Distinct(players) && SoundTable(pre) && pre == Snapshot(players)
    requires participants.Keys <= players.Keys == pre.Keys
    modifies players.Values
    ensures forall id :: id in players ==>
              players[id].State() == if id in participants then Activated(lib, pre[id], participants[id], fuel)
                  else pre[id]
  {
    hide Update;
    var saved := map id | id in players :: Scaled(players[id].mu, players[id].phi, players[id].sigma);
    var left := participants.Keys;
    while left != {}
      invariant left <= participants.Keys
      invariant forall id :: id in players ==>
                  players[id].State() ==
                    if id in participants && id !in left then Activated(lib, pre[id], participants[id], fuel)
                    else pre[id]
      decreases left
    {
      var id :| id in left;
      var r, _ := Glicko2Update(lib, saved[id], participants[id], fuel);
      players[id].SetScaled(r);
      left := left - {id};
    }
  }

  /** Inactive players: only the deviation grows. */
  method InflateInactive(lib: Library, players: Players, participants: map<PlayerId, seq<Opponent>>, ghost pre: Table)
    requires lib.Lawful() && Distinct(players) && SoundTable(pre) && pre == Snapshot(players)
             && players.Keys == pre.Keys
    modifies players.Values
    ensures forall id :: id in players ==>
              players[id].State() == if id in participants then pre[id] else Rested(lib, pre[id])
  {
    var left := players.Keys;
    while left != {}
      invariant left <= players.Keys
      invariant forall id :: id in players ==>
                  players[id].State() == if id in participants || id in left then pre[id] else Rested(lib, pre[id])
      decreases left
    {
      var id :| id in left;
      left := left - {id};
      if id in participants { continue; }
      players[id].phi := Inflated(lib, players[id].phi, players[id].sigma);
    }
  }

  /** The deferred bookkeeping, in match order. */
  method ApplyMetaUpdates(players: Players, ms: seq<Match>, metaUpdates: seq<(Match, real, real)>, ghost pre: Table)
    requires Distinct(players) && AllValid(ms) && PlayersOf(ms) <= players.Keys
    requires pre == Snapshot(players) && players.Keys == pre.Keys && metaUpdates == MetaUpdatesOf(ms)
    modifies players.Values
    ensures forall id :: id in players ==> players[id].State() == Recorded(pre[id], ms, id)
  {
    MetaUpdatesLength(ms);
    for i := 0 to |metaUpdates|
      invariant forall id :: id in players ==> players[id].State() == Recorded(pre[id], ms[..i], id)
    {
      MetaUpdateAt(ms, i);
      var (m, sa, sb) := metaUpdates[i];
      assert ms[..i+1][..i] == ms[..i];
      var a, b := players[m.player1], players[m.player2];
      a.ApplyMeta(m.playedAt, m.score1, m.score2, sa);
      b.ApplyMeta(m.playedAt, m.score2, m.score1, sb);
    }
    assert ms[..|ms|] == ms;
  }

  lemma {:induction false} MetaUpdatesLength(ms: seq<Match>)
    ensures |MetaUpdatesOf(ms)| == |ms|
  {
    if ms != [] { MetaUpdatesLength(ms[..|ms|-1]); }
  }

  lemma {:induction false} MetaUpdateAt(ms: seq<Match>, i: nat)
    requires i < |ms|
    ensures |MetaUpdatesOf(ms)| == |ms|
    ensures MetaUpdatesOf(ms)[i] == (ms[i], Outcome(ms[i].score1, ms[i].score2), Outcome(ms[i].score2, ms[i].score1))
    ensures AllValid(ms) ==> ValidMatch(ms[i])
    ensures ms[i].player1 in PlayersOf(ms) && ms[i].player2 in PlayersOf(ms)
  {
    MetaUpdatesLength(ms);
    MetaUpdatesLength(ms[..|ms|-1]);
    assert ms[i] in ms;
    PlayersOfMember(ms, ms[i], ms[i].player1);
    PlayersOfMember(ms, ms[i], ms[i].player2);
    if i < |ms| - 1 { MetaUpdateAt(ms[..|ms|-1], i); }
  }

  method TrackBest(players: Players)
    requires Distinct(players)
    modifies players.Values
    ensures forall id :: id in players ==> players[id].State() == WithBest(old(players[id].State()))
  {
    var left := players.Keys;
    while left != {}
      invariant left <= players.Keys
      invariant forall id :: id in players ==>
                  players[id].State() == if id in left then old(players[id].State())
                      else WithBest(old(players[id].State()))
      decreases left
    {
      var id :| id in left;
      left := left - {id};
      var p := players[id];
      var r := p.mu * SCALE + 1500.0;
      if r > p.bestRating { p.bestRating := r; }
    }
  }

  method RerateAll(lib: Library, players: Players, participants: map<PlayerId, seq<Opponent>>, ms: seq<Match>,
                   fuel: nat, ghost pre: Table)
    requires lib.Lawful() && Distinct(players) && SoundTable(pre) && pre == Snapshot(players)
    requires participants.Keys == PlayersOf(ms) <= players.Keys == pre.Keys
    requires forall id :: OpponentsSoFar(participants, id) == OpponentsOf(pre, ms, id)
    modifies players.Values
    ensures forall id :: id in players ==> players[id].State() == Rerated(lib, pre, ms, id, fuel)
  {
    UpdateActive(lib, players, participants, fuel, pre);
    ghost var active := Snapshot(players);
    ActiveSound(lib, pre, active, participants, fuel);
    InflateInactive(lib, players, participants, active);
  }

  /** One rating period: the in-place updates amount to one simultaneous step. */
  method RunPeriod(lib: Library, players: Players, ms: seq<Match>, fuel: nat) returns (players': Players)
    requires lib.Lawful() && Distinct(players) && SoundTable(Snapshot(players)) && AllValid(ms)
    modifies players.Values
    ensures Distinct(players') && fresh(players'.Values - players.Values)
    ensures Snapshot(players') == PeriodStep(lib, old(Snapshot(players)), ms, fuel)
  {
    hide Rerated, Recorded, WithBest;
    var b;
    players', b := BucketMatches(players, ms);
    ghost var pre := Snapshot(players');
    EnteredSound(old(Snapshot(players)), ms);
    FinishPeriod(lib, players', b, ms, fuel, pre);
    assert Snapshot(players') == PeriodStep(lib, old(Snapshot(players)), ms, fuel);
  }

  method FinishPeriod(lib: Library, players: Players, b: Bucketed, ms: seq<Match>, fuel: nat, ghost pre: Table)
    requires lib.Lawful() && Distinct(players) && AllValid(ms)
    requires SoundTable(pre) && pre == Snapshot(players) && PlayersOf(ms) <= players.Keys == pre.Keys
    requires BucketedAs(b, pre, ms)
    modifies players.Values
    ensures forall id :: id in players ==>
              players[id].State() == WithBest(Recorded(Rerated(lib, pre, ms, id, fuel), ms, id))
  {
    RerateAll(lib, players, b.participants, ms, fuel, pre);
    ghost var rerated := Snapshot(players);
    ApplyMetaUpdates(players, ms, b.metaUpdates, rerated);
    TrackBest(players);
  }

  lemma EnteredSound(t: Table, ms: seq<Match>)
    ensures SoundTable(t) ==> SoundTable(Entered(t, ms))
    ensures PlayersOf(ms) <= Entered(t, ms).Keys
  {
  }

  lemma ActiveSound(lib: Library, pre: Table, active: Table, participants: map<PlayerId, seq<Opponent>>, fuel: nat)
    requires lib.Lawful() && SoundTable(pre) && active.Keys == pre.Keys
    requires forall id :: id in pre ==>
               active[id] == if id in participants then Activated(lib, pre[id], participants[id], fuel) else pre[id]
    ensures SoundTable(active)
  {
  }

  method Compute(lib: Library, ms: seq<Match>, days: int, fuel: nat)
    returns (out: Result<PlayerRatings, ValidationError>)
    requires lib.Lawful() && PeriodNanos(PeriodDays(days)) > 0
    ensures out == Glicko2.Ratings(lib, ms, days, fuel)
  {
    PreparedCorrect(ms);
    var prepared := ValidateAndSort(ms);
    if prepared.Err? { return Err(prepared.error); }
    var sorted := prepared.value;
    var periods := GroupByPeriod(sorted, PeriodDays(days));
    GroupedLossless(sorted, PeriodNanos(PeriodDays(days)));
    var r := RunPeriods(lib, periods, fuel);
    out := Ok(r);
  }

  method RunPeriods(lib: Library, periods: seq<Period>, fuel: nat) returns (out: PlayerRatings)
    requires lib.Lawful() && AllValid(Concatenated(periods))
    ensures out == Report(FoldPeriods(lib, periods, fuel))
  {
    var players: Players := map[];
    for i := 0 to |periods|
      invariant Distinct(players) && fresh(players.Values)
      invariant Snapshot(players) == FoldPeriods(lib, periods[..i], fuel)
    {
      assert periods[..i+1][..i] == periods[..i];
      PeriodMatchesValid(periods, i);
      players := RunPeriod(lib, players, periods[i].matches, fuel);
    }
    assert periods[..|periods|] == periods;
    out := ReportPlayers(players);
  }

  method ReportPlayers(players: Players) returns (out: PlayerRatings)
    ensures out == Report(Snapshot(players))
  {
    out := map id | id in players ::
      PlayerRating(players[id].mu * SCALE + 1500.0, players[id].phi * SCALE, players[id].sigma, players[id].stats,
                   players[id].bestRating);
  }

  lemma {:induction false} PeriodMatchesValid(ps: seq<Period>, i: nat)
    requires i < |ps| && AllValid(Concatenated(ps))
    ensures AllValid(ps[i].matches)
  {
    var front, last := ps[..|ps|-1], ps[|ps|-1];
    assert forall m :: m in Concatenated(front) ==> m in Concatenated(ps);
    assert forall m :: m in last.matches ==> m in Concatenated(ps);
    if i < |ps| - 1 { PeriodMatchesValid(front, i); }
  }
}
