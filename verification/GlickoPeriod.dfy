/** What one rating period does to every player, and what the Glicko-2 engine reports of it. */
module GlickoPeriod {
  import opened Wrappers
  import opened RealMath
  import opened Rating
  import opened Periods
  import opened GlickoUpdate
  import opened GlickoLaws
  import opened Glicko2

  // ---- one period

  /** A player as the period finds them; whoever is new starts at 1500, 350 and 0.06. */
  function Before(t: Table, id: PlayerId): PlayerState {
    if id in t then t[id]
    else PlayerState(Scaled(0.0, 350.0 / 173.7178, 0.06), Stats(0, 0, 0, 0, 0, 0, None), 1500.0)
  }

  lemma BeforeEntered(t: Table, ms: seq<Match>, id: PlayerId)
    requires id in Entered(t, ms)
    ensures Entered(t, ms)[id] == Before(t, id)
  {
  }

  lemma AllEntered(t: Table, ms: seq<Match>)
    ensures PlayersOf(ms) <= Entered(t, ms).Keys == t.Keys + PlayersOf(ms)
    ensures SoundTable(t) ==> SoundTable(Entered(t, ms))
  {
  }

  /** A player with games gets the update of steps 3 to 8, against their opponents as the period found them. */
  lemma ActivePlayer(lib: Library, t: Table, ms: seq<Match>, id: PlayerId, fuel: nat)
    requires lib.Lawful() && SoundTable(t) && id in PlayersOf(ms)
    ensures id in PeriodStep(lib, t, ms, fuel)
    ensures PeriodStep(lib, t, ms, fuel)[id].scaled ==
            Update(lib, Before(t, id).scaled, OpponentsOf(Entered(t, ms), ms, id), fuel)
  {
    AllEntered(t, ms);
    BeforeEntered(t, ms, id);
    hide Update, OpponentsOf, StatsAfter;
  }

  /** A player without games keeps mu and sigma, and phi^2 grows by sigma^2. */
  lemma RestingPlayer(lib: Library, t: Table, ms: seq<Match>, id: PlayerId, fuel: nat)
    requires lib.Lawful() && SoundTable(t) && id in t && id !in PlayersOf(ms)
    ensures id in PeriodStep(lib, t, ms, fuel)
    ensures var (s, s') := (t[id].scaled, PeriodStep(lib, t, ms, fuel)[id].scaled);
            && s'.mu == s.mu && s'.sigma == s.sigma && s'.phi > 0.0
            && Square(s'.phi) == Square(s.phi) + Square(s.sigma)
  {
    AllEntered(t, ms);
    hide Update, OpponentsOf, StatsAfter;
  }

  lemma StepKeys(lib: Library, t: Table, ms: seq<Match>, fuel: nat)
    requires lib.Lawful() && SoundTable(t)
    ensures PeriodStep(lib, t, ms, fuel).Keys == t.Keys + PlayersOf(ms)
  {
    AllEntered(t, ms);
    hide Rerated, Recorded, WithBest;
  }

  lemma ReratedKeeps(lib: Library, pre: Table, ms: seq<Match>, id: PlayerId, fuel: nat)
    requires lib.Lawful() && SoundTable(pre) && PlayersOf(ms) <= pre.Keys && id in pre
    ensures var r := Rerated(lib, pre, ms, id, fuel); r.stats == pre[id].stats && r.bestRating == pre[id].bestRating
  {
    hide Update, OpponentsOf, Inflated, PlayersOf;
  }

  lemma BestKept(s: PlayerState)
    ensures var r := WithBest(s);
            var rating := s.scaled.mu * 173.7178 + 1500.0;
            && r.scaled == s.scaled && r.stats == s.stats && r.bestRating >= rating && r.bestRating >= s.bestRating
            && (r.bestRating == rating || r.bestRating == s.bestRating)
  {
  }

  /** Everybody known before and everybody who played has a row; its statistics go on, its best rating is kept up. */
  lemma Bookkeeping(lib: Library, t: Table, ms: seq<Match>, id: PlayerId, fuel: nat)
    requires lib.Lawful() && SoundTable(t)
    ensures PeriodStep(lib, t, ms, fuel).Keys == t.Keys + PlayersOf(ms)
    ensures id in PeriodStep(lib, t, ms, fuel) ==>
              var r := PeriodStep(lib, t, ms, fuel)[id];
              var rating := r.scaled.mu * 173.7178 + 1500.0;
              && r.stats == StatsAfter(Before(t, id).stats, ms, id)
              && r.bestRating >= rating && r.bestRating >= Before(t, id).bestRating
              && (r.bestRating == rating || r.bestRating == Before(t, id).bestRating)
  {
    var pre := Entered(t, ms);
    AllEntered(t, ms);
    StepKeys(lib, t, ms, fuel);
    hide Rerated, WithBest, StatsAfter, Before, SoundTable, Entered;
    if id in pre {
      BeforeEntered(t, ms, id);
      ReratedKeeps(lib, pre, ms, id, fuel);
      BestKept(Recorded(Rerated(lib, pre, ms, id, fuel), ms, id));
    }
  }

  // ---- who is met

  /** The score id earns in a match: 1 for a win, 0 for a loss, 1/2 for a draw. */
  function ScoreOf(m: Match, id: PlayerId): real {
    if Won(m, id) then 1.0 else if Lost(m, id) then 0.0 else 0.5
  }

  function OtherOf(m: Match, id: PlayerId): PlayerId { if m.player1 == id then m.player2 else m.player1 }

  /** One opponent for every match of id: the other player as rated before, with the score earned against them. */
  lemma {:induction false} OpponentsMet(pre: Table, ms: seq<Match>, id: PlayerId)
    requires AllValid(ms) && PlayersOf(ms) <= pre.Keys
    ensures |OpponentsOf(pre, ms, id)| == GamesIn(ms, id)
    ensures forall m :: m in ms && Involves(m, id) ==>
              OtherOf(m, id) in pre && Met(pre, m, id) in OpponentsOf(pre, ms, id)
    ensures forall o :: o in OpponentsOf(pre, ms, id) ==>
              exists m :: m in ms && Involves(m, id) && OtherOf(m, id) in pre && o == Met(pre, m, id)
  {
    if ms != [] {
      var front, last := ms[..|ms|-1], ms[|ms|-1];
      ValidFront(ms);
      OpponentsMet(pre, front, id);
      assert ms == front + [last] && last in ms;
      LastMet(pre, ms, id);
      hide OpponentsOf, Met, OtherOf, PlayersOf, Involves;
    }
  }

  function Met(pre: Table, m: Match, id: PlayerId): Opponent
    requires OtherOf(m, id) in pre
  {
    Opponent(pre[OtherOf(m, id)].scaled.mu, pre[OtherOf(m, id)].scaled.phi, ScoreOf(m, id))
  }

  lemma LastMet(pre: Table, ms: seq<Match>, id: PlayerId)
    requires ms != [] && ValidMatch(ms[|ms|-1]) && PlayersOf(ms) <= pre.Keys
    ensures var last := ms[|ms|-1];
            && (Involves(last, id) ==> OtherOf(last, id) in pre)
            && OpponentsOf(pre, ms, id) ==
               OpponentsOf(pre, ms[..|ms|-1], id) + if Involves(last, id) then [Met(pre, last, id)] else []
  {
  }

  // ---- results move the reported rating

  ghost predicate WinsAll(ms: seq<Match>, id: PlayerId) { forall m :: m in ms && Involves(m, id) ==> Won(m, id) }

  ghost predicate LosesAll(ms: seq<Match>, id: PlayerId) { forall m :: m in ms && Involves(m, id) ==> Lost(m, id) }

  lemma SweepRates(lib: Library, t: Table, ms: seq<Match>, id: PlayerId, fuel: nat)
    requires lib.Lawful() && SoundTable(t) && AllValid(ms) && id in PlayersOf(ms)
    ensures id in PeriodStep(lib, t, ms, fuel)
    ensures var (mu, mu') := (Before(t, id).scaled.mu, PeriodStep(lib, t, ms, fuel)[id].scaled.mu);
            (WinsAll(ms, id) ==> mu' > mu) && (LosesAll(ms, id) ==> mu' < mu)
  {
    var pre := Entered(t, ms);
    AllEntered(t, ms);
    ActivePlayer(lib, t, ms, id, fuel);
    OpponentsMet(pre, ms, id);
    NoOpponents(pre, ms, id);
    BeforeEntered(t, ms, id);
    hide PeriodStep, Update, OpponentsOf, PlayersOf, Involves, Entered, Before, OtherOf, Won, Lost;
    SweepMoves(lib, pre[id].scaled, OpponentsOf(pre, ms, id), fuel);
  }

  lemma RatingGrows(a: Scaled, b: Scaled)
    ensures a.mu < b.mu ==> RatingOf(a) < RatingOf(b)
  {
    if a.mu < b.mu { MulLess(a.mu, b.mu, SCALE); }
  }

  lemma ReportRates(t: Table, id: PlayerId)
    ensures id in t ==> Report(t)[id].rating == RatingOf(t[id].scaled)
    ensures id !in t ==> RatingOf(Before(t, id).scaled) == 1500.0
  {
  }

  /** Who wins every game of a period is reported higher afterwards, and who loses every game lower. */
  lemma SweepReported(lib: Library, t: Table, ms: seq<Match>, id: PlayerId, fuel: nat)
    requires lib.Lawful() && SoundTable(t) && AllValid(ms) && id in PlayersOf(ms)
    ensures id in PeriodStep(lib, t, ms, fuel)
    ensures var before := if id in t then Report(t)[id].rating else 1500.0;
            var after := Report(PeriodStep(lib, t, ms, fuel))[id].rating;
            (WinsAll(ms, id) ==> after > before) && (LosesAll(ms, id) ==> after < before)
  {
    var t' := PeriodStep(lib, t, ms, fuel);
    SweepRates(lib, t, ms, id, fuel);
    ReportRates(t, id);
    ReportRates(t', id);
    RatingGrows(Before(t, id).scaled, t'[id].scaled);
    RatingGrows(t'[id].scaled, Before(t, id).scaled);
    hide PeriodStep, WinsAll, LosesAll, PlayersOf, SoundTable, RatingOf;
  }

  /** Two players rated alike who meet once: what one gains the other loses, and they stay equally certain. */
  lemma EvenMatch(lib: Library, me: Scaled, fuel: nat)
    requires lib.Lawful() && me.Sound()
    ensures var win := Update(lib, me, [Opponent(me.mu, me.phi, 1.0)], fuel);
            var loss := Update(lib, me, [Opponent(me.mu, me.phi, 0.0)], fuel);
            && win.mu - me.mu == me.mu - loss.mu && win.mu > me.mu
            && win.phi == loss.phi && win.sigma == loss.sigma
  {
    var o1, o0 := Opponent(me.mu, me.phi, 1.0), Opponent(me.mu, me.phi, 0.0);
    hide Update, Surplus, Information, Improvement;
    EvenTerms(lib, me);
    var s := Surplus(lib, me.mu, [o1]);
    forall v ensures Square(Improvement(-s, v)) == Square(Improvement(s, v)) { OppositeImprovement(s, v); }
    SweepMoves(lib, me, [o1], fuel);
    EvenUpdates(lib, me, o1, o0, fuel);
  }

  lemma OppositeImprovement(s: real, v: real)
    ensures Square(Improvement(-s, v)) == Square(Improvement(s, v))
  {
    var x := Improvement(s, v);
    assert Improvement(-s, v) == -x;
    assert (-x) * (-x) == x * x;
  }

  lemma EvenTerms(lib: Library, me: Scaled)
    requires lib.Lawful()
    ensures var (o1, o0) := (Opponent(me.mu, me.phi, 1.0), Opponent(me.mu, me.phi, 0.0));
            && Information(lib, me.mu, [o1]) == Information(lib, me.mu, [o0]) > 0.0
            && Surplus(lib, me.mu, [o0]) == -Surplus(lib, me.mu, [o1])
  {
    var o1, o0 := Opponent(me.mu, me.phi, 1.0), Opponent(me.mu, me.phi, 0.0);
    JustOne(lib, me.mu, o1);
    JustOne(lib, me.mu, o0);
    ExpectationsComplement(lib, me.mu, me.mu, me.phi);
    assert ExpectedScore(lib, me.mu, me.mu, me.phi) == 0.5 by { hide ExpectedScore; }
    hide ExpectedScore, Weight, Information, Surplus;
  }

  lemma EvenUpdates(lib: Library, me: Scaled, o1: Opponent, o0: Opponent, fuel: nat)
    requires lib.Lawful() && me.Sound()
    requires Information(lib, me.mu, [o1]) == Information(lib, me.mu, [o0]) > 0.0
    requires var (s1, s0) := (Surplus(lib, me.mu, [o1]), Surplus(lib, me.mu, [o0]));
             s0 == -s1 && forall v :: Square(Improvement(s0, v)) == Square(Improvement(s1, v))
    ensures var (win, loss) := (Update(lib, me, [o1], fuel), Update(lib, me, [o0], fuel));
            win.mu - me.mu == me.mu - loss.mu && win.phi == loss.phi && win.sigma == loss.sigma
  {
    var s, phi := Surplus(lib, me.mu, [o1]), Update(lib, me, [o1], fuel).phi;
    assert Square(phi) * (-s) == -(Square(phi) * s);
    hide Surplus, Information, NewPhi, NewSigma, Inflated;
  }

  /** The public scale: 173.7178 points to one, around 1500. */
  lemma Reported(t: Table, id: PlayerId)
    requires id in t
    ensures Report(t).Keys == t.Keys
    ensures var r := Report(t)[id];
            && (r.rating - 1500.0) / 173.7178 == t[id].scaled.mu && r.deviation / 173.7178 == t[id].scaled.phi
            && r.volatility == t[id].scaled.sigma && r.stats == t[id].stats && r.bestRating == t[id].bestRating
  {
  }

  // ---- the best rating

  lemma {:induction false} RatedInPrefix(lib: Library, ps: seq<Period>, k: nat, id: PlayerId, fuel: nat)
    requires lib.Lawful() && k <= |ps| && id in FoldPeriods(lib, ps[..k], fuel)
    ensures id in FoldPeriods(lib, ps, fuel)
    decreases |ps|
  {
    hide PeriodStep, PlayersOf, SoundTable;
    if k < |ps| {
      assert ps[..|ps|-1][..k] == ps[..k];
      RatedInPrefix(lib, ps[..|ps|-1], k, id, fuel);
      StepKeys(lib, FoldPeriods(lib, ps[..|ps|-1], fuel), ps[|ps|-1].matches, fuel);
    } else {
      assert ps[..k] == ps;
    }
  }

  function RatingAfter(lib: Library, ps: seq<Period>, id: PlayerId, fuel: nat): real
    requires lib.Lawful() && id in FoldPeriods(lib, ps, fuel)
  {
    FoldPeriods(lib, ps, fuel)[id].scaled.mu * 173.7178 + 1500.0
  }

  lemma StepBest(lib: Library, ps: seq<Period>, id: PlayerId, fuel: nat)
    requires lib.Lawful() && id in FoldPeriods(lib, ps, fuel)
    ensures ps != []
    ensures var front := FoldPeriods(lib, ps[..|ps|-1], fuel);
            var was := if id in front then front[id].bestRating else 1500.0;
            FoldPeriods(lib, ps, fuel)[id].bestRating ==
            if RatingAfter(lib, ps, id, fuel) > was then RatingAfter(lib, ps, id, fuel) else was
  {
    Bookkeeping(lib, FoldPeriods(lib, ps[..|ps|-1], fuel), ps[|ps|-1].matches, id, fuel);
    hide PeriodStep, StatsAfter;
  }

  /** The best rating is the highest there was after any period, from 1500 up. */
  lemma {:induction false} BestIsHighest(lib: Library, ps: seq<Period>, id: PlayerId, fuel: nat)
    requires lib.Lawful() && id in FoldPeriods(lib, ps, fuel)
    ensures var best := FoldPeriods(lib, ps, fuel)[id].bestRating;
            && best >= 1500.0
            && (forall k :: 0 <= k <= |ps| && id in FoldPeriods(lib, ps[..k], fuel) ==>
                  RatingAfter(lib, ps[..k], id, fuel) <= best)
            && (best == 1500.0 ||
                exists k :: 0 <= k <= |ps| && id in FoldPeriods(lib, ps[..k], fuel) &&
                            RatingAfter(lib, ps[..k], id, fuel) == best)
    decreases |ps|
  {
    hide FoldPeriods, RatingAfter;
    StepBest(lib, ps, id, fuel);
    var front := ps[..|ps|-1];
    var best := FoldPeriods(lib, ps, fuel)[id].bestRating;
    assert ps[..|ps|] == ps;
    assert forall k :: 0 <= k < |ps| ==> front[..k] == ps[..k];
    if id in FoldPeriods(lib, front, fuel) { BestIsHighest(lib, front, id, fuel); }
    forall k | 0 <= k <= |ps| && id in FoldPeriods(lib, ps[..k], fuel)
      ensures RatingAfter(lib, ps[..k], id, fuel) <= best
    {
      if k < |ps| { RatedInPrefix(lib, front, k, id, fuel); }
    }
    if best == RatingAfter(lib, ps, id, fuel) {
      assert id in FoldPeriods(lib, ps[..|ps|], fuel) && RatingAfter(lib, ps[..|ps|], id, fuel) == best;
    } else if best != 1500.0 {
      var k :| 0 <= k <= |front| && id in FoldPeriods(lib, front[..k], fuel) &&
               RatingAfter(lib, front[..k], id, fuel) == best;
      assert id in FoldPeriods(lib, ps[..k], fuel) && RatingAfter(lib, ps[..k], id, fuel) == best;
    }
  }
}
