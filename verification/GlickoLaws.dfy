/** What the Glicko-2 update of `GlickoUpdate` means: the equations it solves, and which way results move a player. */
module GlickoLaws {
  import opened RealMath
  import opened GlickoUpdate
  import opened Volatility

  // ---- weights and expectations

  lemma RootGrows(lib: Library, x: real, y: real)
    requires lib.Lawful() && 0.0 < x < y
    ensures Root(lib, x) < Root(lib, y)
  {
    SquareLess(Root(lib, x), Root(lib, y));
  }

  function WeightBase(lib: Library, phi: real): (b: real)
    requires lib.Lawful()
    ensures b >= 1.0
  {
    Spread(Square(phi), Reciprocal(Square(lib.pi)))
  }

  function Spread(phi2: real, p: real): (s: real)
    requires phi2 >= 0.0 && p > 0.0
    ensures s >= 1.0
  {
    assert phi2 > 0.0 ==> phi2 * p > 0.0 by { if phi2 > 0.0 { MulPositive(phi2, p); } }
    1.0 + 3.0 * (phi2 * p)
  }

  lemma SpreadGrows(x: real, y: real, p: real)
    requires 0.0 <= x < y && p > 0.0
    ensures Spread(x, p) < Spread(y, p)
  {
    MulLess(x, y, p);
  }

  lemma SpreadIs(phi2: real, p: real)
    requires phi2 >= 0.0 && p > 0.0
    ensures 1.0 + 3.0 * phi2 * p == Spread(phi2, p)
  {
    assert 3.0 * phi2 * p == 3.0 * (phi2 * p);
  }

  lemma WeightIs(lib: Library, phi: real)
    requires lib.Lawful()
    ensures Weight(lib, phi) == Reciprocal(Root(lib, WeightBase(lib, phi)))
  {
    SpreadIs(Square(phi), Reciprocal(Square(lib.pi)));
  }

  /** g(phi)^2 (1 + 3 phi^2 / pi^2) = 1. */
  lemma WeightSquared(lib: Library, phi: real)
    requires lib.Lawful()
    ensures Square(Weight(lib, phi)) == Reciprocal(WeightBase(lib, phi))
  {
    WeightIs(lib, phi);
    SquareOfReciprocal(Root(lib, WeightBase(lib, phi)));
  }

  /** The less certain an opponent's rating is, the less a game against them counts. */
  lemma UncertainOpponentsCountLess(lib: Library, phi: real, psi: real)
    requires lib.Lawful() && 0.0 <= phi < psi
    ensures Weight(lib, psi) < Weight(lib, phi)
  {
    SquareGrows(phi, psi);
    SpreadGrows(Square(phi), Square(psi), Reciprocal(Square(lib.pi)));
    WeightIs(lib, phi);
    WeightIs(lib, psi);
    RootGrows(lib, WeightBase(lib, phi), WeightBase(lib, psi));
    ReciprocalOrder(Root(lib, WeightBase(lib, phi)), Root(lib, WeightBase(lib, psi)));
  }

  lemma OddsOpposite(lib: Library, g: real, gap: real)
    requires lib.Lawful()
    ensures Odds(lib, g, gap) * Odds(lib, g, -gap) == 1.0
  {
    var x := -g * gap;
    assert -g * (-gap) == -x;
    ExpOpposite(lib, x);
  }

  lemma ExpOpposite(lib: Library, x: real)
    requires lib.Lawful()
    ensures lib.exp(x) * lib.exp(-x) == 1.0
  {
    assert lib.ExpSum(x, -x) && x + -x == 0.0;
    assert lib.ExpSum(x, 0.0) && lib.ExpPositive(x);
    Cancel(lib.exp(x), lib.exp(0.0), lib.exp(x + 0.0));
  }

  lemma Cancel(p: real, q: real, r: real)
    requires p > 0.0 && r == p * q && r == p
    ensures q == 1.0
  {
    if q < 1.0 { MulLess(q, 1.0, p); } else if q > 1.0 { MulLess(1.0, q, p); }
  }

  /** The two players of a game expect scores that add up to 1, at equal certainty. */
  lemma ExpectationsComplement(lib: Library, mu: real, muJ: real, phi: real)
    requires lib.Lawful()
    ensures ExpectedScore(lib, mu, muJ, phi) + ExpectedScore(lib, muJ, mu, phi) == 1.0
  {
    var g := Weight(lib, phi);
    OddsOpposite(lib, g, mu - muJ);
    assert muJ - mu == -(mu - muJ);
    SumOfReciprocals(Odds(lib, g, mu - muJ), Odds(lib, g, muJ - mu));
    hide Odds;
  }

  /** A higher rating expects more. */
  lemma ExpectationGrows(lib: Library, low: real, high: real, muJ: real, phi: real)
    requires lib.Lawful() && low < high
    ensures ExpectedScore(lib, low, muJ, phi) < ExpectedScore(lib, high, muJ, phi)
  {
    var g := Weight(lib, phi);
    OddsFall(lib, g, low - muJ, high - muJ);
    ReciprocalOrder(1.0 + Odds(lib, g, high - muJ), 1.0 + Odds(lib, g, low - muJ));
    hide Odds;
  }

  lemma OddsFall(lib: Library, g: real, x: real, y: real)
    requires lib.Lawful() && g > 0.0 && x < y
    ensures Odds(lib, g, y) < Odds(lib, g, x)
  {
    MulLess(x, y, g);
    assert -g * x == -(x * g) && -g * y == -(y * g);
    lib.ExpMonotone(-g * y, -g * x);
  }

  // ---- which way results move a player

  lemma WinTerm(lib: Library, mu: real, o: Opponent)
    requires lib.Lawful()
    ensures o.score == 1.0 ==> SurplusTerm(lib, mu, o) > 0.0
    ensures o.score == 0.0 ==> SurplusTerm(lib, mu, o) < 0.0
  {
    var g, e := Weight(lib, o.phi), ExpectedScore(lib, mu, o.mu, o.phi);
    MulPositive(g, 1.0 - e);
    MulPositive(g, e);
    assert g * (0.0 - e) == -(g * e);
    hide Weight, ExpectedScore;
  }

  lemma {:induction false} WinsAreSurplus(lib: Library, mu: real, opps: seq<Opponent>)
    requires lib.Lawful() && opps != [] && forall o :: o in opps ==> o.score == 1.0
    ensures Surplus(lib, mu, opps) > 0.0
  {
    hide SurplusTerm;
    var front, last := opps[..|opps|-1], opps[|opps|-1];
    assert last in opps && forall o :: o in front ==> o in opps;
    WinTerm(lib, mu, last);
    if front != [] { WinsAreSurplus(lib, mu, front); }
  }

  lemma {:induction false} LossesAreDeficit(lib: Library, mu: real, opps: seq<Opponent>)
    requires lib.Lawful() && opps != [] && forall o :: o in opps ==> o.score == 0.0
    ensures Surplus(lib, mu, opps) < 0.0
  {
    hide SurplusTerm;
    var front, last := opps[..|opps|-1], opps[|opps|-1];
    assert last in opps && forall o :: o in front ==> o in opps;
    WinTerm(lib, mu, last);
    if front != [] { LossesAreDeficit(lib, mu, front); }
  }

  /** Winning every game of a period raises the rating; losing every game lowers it. */
  lemma SweepMoves(lib: Library, me: Scaled, opps: seq<Opponent>, fuel: nat)
    requires lib.Lawful() && me.Sound() && opps != []
    ensures (forall o :: o in opps ==> o.score == 1.0) ==> Update(lib, me, opps, fuel).mu > me.mu
    ensures (forall o :: o in opps ==> o.score == 0.0) ==> Update(lib, me, opps, fuel).mu < me.mu
  {
    StepSizesBounded(lib, me, opps, fuel);
    hide Update;
    if forall o :: o in opps ==> o.score == 1.0 { WinsAreSurplus(lib, me.mu, opps); }
    if forall o :: o in opps ==> o.score == 0.0 { LossesAreDeficit(lib, me.mu, opps); }
  }

  // ---- the equations of steps 6 and 7

  lemma PrecisionsAdd(lib: Library, phiStar: real, v: real)
    requires lib.Lawful() && phiStar > 0.0 && v > 0.0
    ensures Reciprocal(Square(NewPhi(lib, phiStar, v))) == Reciprocal(Square(phiStar)) + Reciprocal(v)
  {
    var sum := Reciprocal(Square(phiStar)) + Reciprocal(v);
    SquareOfReciprocal(Root(lib, sum));
    ReciprocalTwice(sum);
  }

  lemma MoveScaled(mu: real, phi: real, surplus: real)
    requires phi > 0.0
    ensures Product(MovedMu(mu, phi, surplus) - mu, Reciprocal(Square(phi))) == surplus
  {
    var q, r := Square(phi), Reciprocal(Square(phi));
    assert (q * surplus) * r == surplus * (r * q);
  }

  /**
   After a period with games, the new precision 1/phi'^2 is the sum of 1/(phi^2 + sigma'^2) and 1/v, and the rating
   moved by the surplus weighted with it.
   */
  lemma UpdateEquations(lib: Library, me: Scaled, opps: seq<Opponent>, fuel: nat)
    requires lib.Lawful() && me.Sound() && opps != []
    ensures var r := Update(lib, me, opps, fuel);
            && Square(me.phi) + Square(r.sigma) > 0.0
            && Reciprocal(Square(r.phi)) == Reciprocal(Square(me.phi) + Square(r.sigma)) + Information(lib, me.mu, opps)
            && Product(r.mu - me.mu, Reciprocal(Square(r.phi))) == Surplus(lib, me.mu, opps)
  {
    var r, v := Update(lib, me, opps, fuel), Variance(lib, me, opps);
    PrecisionsAdd(lib, Inflated(lib, me.phi, r.sigma), v);
    ReciprocalTwice(Information(lib, me.mu, opps));
    MoveScaled(me.mu, r.phi, Surplus(lib, me.mu, opps));
    hide Information, Surplus, NewPhi, Inflated;
  }

  // ---- one game, in closed form

  /** g^2 (1 + 3 phi^2 / pi^2) = 1 with everything written out. */
  lemma WeightIsRoot(lib: Library, phi: real)
    requires lib.Lawful()
    ensures Square(Weight(lib, phi)) * (1.0 + 3.0 * (Square(phi) * Reciprocal(Square(lib.pi)))) == 1.0
  {
    WeightSquared(lib, phi);
  }

  /** The odds against a player are e^(-g gap) to 1. */
  lemma OddsAre(lib: Library, g: real, gap: real)
    requires lib.Lawful()
    ensures Odds(lib, g, gap) * lib.exp(g * gap) == 1.0
  {
    var t := g * gap;
    assert -g * gap == -t;
    ExpOpposite(lib, t);
  }

  /** A player expects one share of the odds against them. */
  lemma ExpectedFollowsOdds(lib: Library, mu: real, muJ: real, phiJ: real)
    requires lib.Lawful()
    ensures ExpectedScore(lib, mu, muJ, phiJ) * (1.0 + Odds(lib, Weight(lib, phiJ), mu - muJ)) == 1.0
  {
  }

  /** The information and the surplus of one game, by its weight and its odds. */
  lemma OneGame(lib: Library, mu: real, o: Opponent)
    requires lib.Lawful()
    ensures var g := Weight(lib, o.phi);
            var y := Odds(lib, g, mu - o.mu);
            && Information(lib, mu, [o]) * Square(1.0 + y) == Square(g) * y
            && Surplus(lib, mu, [o]) * (1.0 + y) == g * (o.score * (1.0 + y) - 1.0)
  {
    var g, e := Weight(lib, o.phi), ExpectedScore(lib, mu, o.mu, o.phi);
    var y := Odds(lib, g, mu - o.mu);
    ExpectedFollowsOdds(lib, mu, o.mu, o.phi);
    JustOne(lib, mu, o);
    GameForms(g, e, y, o.score);
    hide Weight, ExpectedScore, Odds, Information, Surplus;
  }

  lemma JustOne(lib: Library, mu: real, o: Opponent)
    requires lib.Lawful()
    ensures Information(lib, mu, [o]) == InformationTerm(lib, mu, o)
    ensures Surplus(lib, mu, [o]) == SurplusTerm(lib, mu, o)
  {
    assert [o][..0] == [];
    assert Information(lib, mu, []) == 0.0 && Surplus(lib, mu, []) == 0.0;
    hide InformationTerm, SurplusTerm;
  }

  lemma GameForms(g: real, e: real, y: real, s: real)
    requires e * (1.0 + y) == 1.0
    ensures Product(Product(g, g), Product(e, 1.0 - e)) * Square(1.0 + y) == Square(g) * y
    ensures (g * (s - e)) * (1.0 + y) == g * (s * (1.0 + y) - 1.0)
  {
    var d := 1.0 + y;
    var w, q := e * (1.0 - e), g * g;
    assert (1.0 - e) * d == y;
    assert w * (d * d) == (e * d) * ((1.0 - e) * d);
    assert (q * w) * (d * d) == q * (w * (d * d));
    assert (g * (s - e)) * d == g * ((s - e) * d);
    assert (s - e) * d == s * d - e * d;
  }

  /** Games add up. */
  lemma {:induction false} GamesAdd(lib: Library, mu: real, a: seq<Opponent>, b: seq<Opponent>)
    requires lib.Lawful()
    ensures Information(lib, mu, a + b) == Information(lib, mu, a) + Information(lib, mu, b)
    ensures Surplus(lib, mu, a + b) == Surplus(lib, mu, a) + Surplus(lib, mu, b)
  {
    hide InformationTerm, SurplusTerm;
    if b == [] {
      assert a + b == a;
    } else {
      assert (a + b)[..|a + b|-1] == a + b[..|b|-1];
      GamesAdd(lib, mu, a, b[..|b|-1]);
    }
  }

  // ---- the new volatility

  /** f(x) + (x - a) / tau^2 = e^x (delta^2 - phi^2 - v - e^x) / (2 (phi^2 + v + e^x)^2). */
  lemma ObjectiveEquation(lib: Library, p: Problem, x: real)
    requires lib.Lawful() && p.Sound()
    ensures var ex := lib.exp(x);
            var s := p.phi2 + p.v + ex;
            s > 0.0 && (Objective(lib, p, x) + 4.0 * (x - p.a)) * (2.0 * (s * s)) == ex * (p.delta2 - s)
  {
    assert lib.ExpPositive(x);
    var ex := lib.exp(x);
    var s := p.phi2 + p.v + ex;
    MulPositive(s, s);
    assert (x - p.a) / (TAU * TAU) == 4.0 * (x - p.a);
    var q := Pull(p.Excess(), p.phi2 + p.v, ex);
    assert p.Excess() - ex == p.delta2 - s;
    assert q == (ex * (p.delta2 - s)) / (2.0 * (s * s));
    Quotient(ex * (p.delta2 - s), 2.0 * (s * s));
  }

  lemma Quotient(n: real, d: real)
    requires d > 0.0
    ensures n / d * d == n
  {
  }

  /**
   The new volatility solves step 5: a is 2 ln(sigma'), f has opposite signs at a and b, and once the search has
   converged the two are no more than 0.000001 apart.
   */
  lemma VolatilitySolves(lib: Library, me: Scaled, opps: seq<Opponent>, fuel: nat) returns (a: real, b: real)
    requires lib.Lawful() && me.Sound() && opps != []
    ensures var p := Problem(Square(Delta(lib, me, opps)), Square(me.phi), Variance(lib, me, opps),
                             lib.ln(Square(me.sigma)));
            && p.Sound()
            && Update(lib, me, opps, fuel).sigma == lib.exp(a / 2.0)
            && Opposed(Objective(lib, p, a), Objective(lib, p, b))
            && (Converges(lib, p, fuel) ==> b - 0.000001 <= a <= b + 0.000001)
  {
    var p := ProblemFor(lib, me, Variance(lib, me, opps), Delta(lib, me, opps));
    assert Update(lib, me, opps, fuel).sigma == NewSigma(lib, p, fuel);
    SearchNested(lib, p, 0, fuel);
    var br := Search(lib, p, Start(lib, p), fuel);
    a, b := br.a, br.b;
    hide Update, Search, Start, Objective, Delta, Variance, Straddles;
  }
}
