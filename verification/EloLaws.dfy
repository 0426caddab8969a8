/** What ELO's expectation and update mean: who is expected to win, and what a result is worth. */
module EloLaws {
  import opened RealMath
  import opened Rating
  import opened Elo

  // ---- expectations

  lemma PowZero(lib: Library)
    requires lib.Lawful()
    ensures lib.pow10(0.0) == 1.0
  {
    var p := lib.pow10(0.0);
    assert lib.PowPositive(0.0) && lib.PowFlip(0.0) && -0.0 == 0.0;
    if p < 1.0 { MulLess(p, 1.0, p); } else if p > 1.0 { MulLess(1.0, p, p); }
  }

  lemma ShareTimes(p: real)
    requires p > 0.0
    ensures 1.0 / (1.0 + p) * (1.0 + p) == 1.0
  {
  }

  /** A player's expectation is to the opponent's as 10 to the 400th part of the lead is to 1. */
  lemma ExpectedOdds(lib: Library, x: real, y: real)
    requires lib.Lawful()
    ensures Expected(lib, x, y) == lib.pow10((x - y) / 400.0) * Expected(lib, y, x)
  {
    var t := (x - y) / 400.0;
    assert (y - x) / 400.0 == -t;
    assert lib.PowPositive(t) && lib.PowPositive(-t) && lib.PowFlip(t);
    OddsOfShares(lib.pow10(t), lib.pow10(-t));
  }

  lemma OddsOfShares(p: real, q: real)
    requires p > 0.0 && q > 0.0 && p * q == 1.0
    ensures 1.0 / (1.0 + q) == p * (1.0 / (1.0 + p))
  {
    var u, v := 1.0 / (1.0 + q), 1.0 / (1.0 + p);
    assert u * (1.0 + q) == 1.0 && v * (1.0 + p) == 1.0;
    assert (p * v) * (1.0 + q) == v * (p + p * q);
    assert (u - p * v) * (1.0 + q) == 0.0;
    ZeroFactor(u - p * v, 1.0 + q);
  }

  lemma ZeroFactor(x: real, y: real)
    requires x * y == 0.0 && y > 0.0
    ensures x == 0.0
  {
    assert (-x) * y == -(x * y);
    if x > 0.0 { MulPositive(x, y); } else if x < 0.0 { MulPositive(-x, y); }
  }

  /** A higher rating expects more, equals expect a half each, and 400 points ahead expects 10/11. */
  lemma ExpectedGrows(lib: Library, x: real, y: real, z: real)
    requires lib.Lawful()
    ensures x < y ==> Expected(lib, x, z) < Expected(lib, y, z)
    ensures Expected(lib, z, z) == 0.5
    ensures Expected(lib, z + 400.0, z) == 10.0 / 11.0
  {
    PowZero(lib);
    ExpectedOdds(lib, z, z);
    ExpectedOdds(lib, z + 400.0, z);
    ExpectedComplement(lib, z + 400.0, z);
    ExpectedComplement(lib, z, z);
    if x < y {
      assert lib.PowGrows((z - y) / 400.0, (z - x) / 400.0);
      assert lib.PowPositive((z - y) / 400.0) && lib.PowPositive((z - x) / 400.0);
      ShareFalls(lib.pow10((z - y) / 400.0), lib.pow10((z - x) / 400.0));
    }
  }

  lemma ShareFalls(p: real, q: real)
    requires 0.0 < p < q
    ensures 1.0 / (1.0 + q) < 1.0 / (1.0 + p)
  {
    ShareTimes(p);
    ShareTimes(q);
    DivPositive(1.0, 1.0 + p);
    InverseFalls(1.0 / (1.0 + q), 1.0 / (1.0 + p), 1.0 + p, 1.0 + q);
  }

  lemma InverseFalls(u: real, v: real, a: real, b: real)
    requires 0.0 < a < b && v > 0.0 && u * b == 1.0 && v * a == 1.0
    ensures u < v
  {
    MulLess(a, b, v);
    assert v * a == a * v && v * b == b * v;
    if v < u { MulLess(v, u, b); }
  }

  // ---- what a match is worth

  predicate Fast(pr: PlayerRatings, id: PlayerId) { Lookup(pr, id).stats.games < 30 }

  /** What the match adds to id's rating. */
  function Gain(lib: Library, pr: PlayerRatings, m: Match, id: PlayerId): real
    requires lib.Lawful() && Involves(m, id)
  {
    Step(lib, pr, m)[id].rating - Lookup(pr, id).rating
  }

  /** The first player's gain: 32 or 16 times what the result is above the expectation; the other's mirrors it. */
  lemma GainIs(lib: Library, pr: PlayerRatings, m: Match)
    requires lib.Lawful() && ValidMatch(m)
    ensures var e := Expected(lib, Lookup(pr, m.player1).rating, Lookup(pr, m.player2).rating);
            var s := if m.score1 > m.score2 then 1.0 else if m.score1 < m.score2 then 0.0 else 0.5;
            && Gain(lib, pr, m, m.player1) == (if Fast(pr, m.player1) then 32.0 else 16.0) * (s - e)
            && Gain(lib, pr, m, m.player2) == (if Fast(pr, m.player2) then 32.0 else 16.0) * (e - s)
  {
    hide Expected;
  }

  /** Of two players who beat the same opponent, games alike fast, the lower rated one gains more. */
  lemma UnderdogGainsMore(lib: Library, pr: PlayerRatings, low: PlayerId, high: PlayerId, m: Match, n: Match)
    requires lib.Lawful() && ValidMatch(m) && ValidMatch(n) && m.player2 == n.player2
    requires m.player1 == low && n.player1 == high && m.score1 > m.score2 && n.score1 > n.score2
    requires Lookup(pr, low).rating < Lookup(pr, high).rating && (Fast(pr, low) <==> Fast(pr, high))
    ensures Gain(lib, pr, m, low) > Gain(lib, pr, n, high) > 0.0
  {
    GainIs(lib, pr, m);
    GainIs(lib, pr, n);
    ExpectedGrows(lib, Lookup(pr, low).rating, Lookup(pr, high).rating, Lookup(pr, m.player2).rating);
    hide Gain, Expected, Fast, Lookup;
  }

  /** Two newcomers: the winner goes from 1000 to 1016 and the loser to 984; a draw changes neither. */
  lemma FirstGame(lib: Library, m: Match)
    requires lib.Lawful() && ValidMatch(m)
    ensures var after := Step(lib, map[], m);
            && after.Keys == {m.player1, m.player2}
            && after[m.player1].rating ==
               (if m.score1 > m.score2 then 1016.0 else if m.score1 < m.score2 then 984.0 else 1000.0)
            && after[m.player1].rating + after[m.player2].rating == 2000.0
  {
    GainIs(lib, map[], m);
    ExpectedGrows(lib, 1000.0, 1000.0, 1000.0);
    hide Expected;
  }

  /** Nobody who does not play gains or loses. */
  lemma OthersUnmoved(lib: Library, pr: PlayerRatings, m: Match)
    requires lib.Lawful()
    ensures Step(lib, pr, m).Keys == pr.Keys + {m.player1, m.player2}
    ensures forall id :: id in pr && !Involves(m, id) ==> Step(lib, pr, m)[id] == pr[id]
  {
  }

  /** ELO reports neither a deviation nor a volatility. */
  lemma {:induction false} NoDeviation(lib: Library, ms: seq<Match>)
    requires lib.Lawful()
    ensures forall id :: id in Fold(lib, ms) ==>
              Fold(lib, ms)[id].deviation == 0.0 && Fold(lib, ms)[id].volatility == 0.0
  {
    hide Expected, Change, Outcome, RecordGame;
    if ms != [] { NoDeviation(lib, ms[..|ms|-1]); }
  }

  // ---- the best rating

  lemma {:induction false} RatedInPrefix(lib: Library, ms: seq<Match>, k: nat, id: PlayerId)
    requires lib.Lawful() && k <= |ms| && id in Fold(lib, ms[..k])
    ensures id in Fold(lib, ms)
    decreases |ms|
  {
    if k < |ms| {
      assert ms[..|ms|-1][..k] == ms[..k];
      RatedInPrefix(lib, ms[..|ms|-1], k, id);
      OthersUnmoved(lib, Fold(lib, ms[..|ms|-1]), ms[|ms|-1]);
    } else {
      assert ms[..k] == ms;
    }
    hide Step;
  }

  /** The best rating is the highest there was after any match, from 0 up. */
  lemma {:induction false} BestIsHighest(lib: Library, ms: seq<Match>, id: PlayerId)
    requires lib.Lawful() && AllValid(ms) && id in Fold(lib, ms)
    ensures var best := Fold(lib, ms)[id].bestRating;
            && best >= 0.0
            && (forall k :: 0 <= k <= |ms| && id in Fold(lib, ms[..k]) ==> Fold(lib, ms[..k])[id].rating <= best)
            && (best == 0.0 ||
                exists k :: 0 <= k <= |ms| && id in Fold(lib, ms[..k]) && Fold(lib, ms[..k])[id].rating == best)
    decreases |ms|
  {
    var front, last := ms[..|ms|-1], ms[|ms|-1];
    var best := Fold(lib, ms)[id].bestRating;
    ValidFront(ms);
    assert ms[..|ms|] == ms;
    assert forall k :: 0 <= k < |ms| ==> front[..k] == ms[..k];
    StepBest(Fold(lib, front), last, ExpectedFor(lib, Fold(lib, front), last), id);
    if id in Fold(lib, front) { BestIsHighest(lib, front, id); }
    forall k | 0 <= k <= |ms| && id in Fold(lib, ms[..k]) ensures Fold(lib, ms[..k])[id].rating <= best {
      if k < |ms| { RatedInPrefix(lib, front, k, id); }
    }
    if id in Fold(lib, front) && best == Fold(lib, front)[id].bestRating && best != 0.0 {
      var k :| 0 <= k <= |front| && id in Fold(lib, front[..k]) && Fold(lib, front[..k])[id].rating == best;
      assert id in Fold(lib, ms[..k]);
    } else if best != 0.0 {
      assert id in Fold(lib, ms[..|ms|]) && Fold(lib, ms[..|ms|])[id].rating == best;
    }
  }

  lemma StepBest(pr: PlayerRatings, m: Match, ea: real, id: PlayerId)
    requires ValidMatch(m) && id in StepWith(pr, m, ea)
    ensures var r := StepWith(pr, m, ea)[id];
            if !Involves(m, id) then id in pr && r == pr[id]
            else r.bestRating == if r.rating > Lookup(pr, id).bestRating then r.rating else Lookup(pr, id).bestRating
  {
    hide Change, Outcome, RecordGame;
  }
}
