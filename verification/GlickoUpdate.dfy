/** pkg/rating/glicko2.go: steps 3 to 8 of Glickman's "Example of the Glicko-2 system" for one player. */
module GlickoUpdate {
  import opened RealMath
  import opened Volatility

  /** A player's rating state on the Glicko-2 scale. */
  datatype Scaled = Scaled(mu: real, phi: real, sigma: real)
  {
    predicate Sound() { phi > 0.0 && sigma > 0.0 }
  }

  /** One opponent met in a rating period, as rated before the period, and the score against them. */
  datatype Opponent = Opponent(mu: real, phi: real, score: real)

  function Reciprocal(x: real): (r: real)
    requires x > 0.0
    ensures r > 0.0 && r * x == 1.0
  {
    DivPositive(1.0, x);
    1.0 / x
  }

  function Root(lib: Library, x: real): (r: real)
    requires lib.Lawful() && x > 0.0
    ensures r > 0.0 && Square(r) == x
  {
    lib.SqrtPositive(x);
    lib.sqrt(x)
  }

  function Weight(lib: Library, phi: real): (g: real)
    requires lib.Lawful()
    ensures g > 0.0
  {
    Reciprocal(Root(lib, 1.0 + 3.0 * Square(phi) * Reciprocal(Square(lib.pi))))
  }

  /** The odds against a player who is ahead by the gap. */
  function Odds(lib: Library, g: real, gap: real): (o: real)
    requires lib.Lawful()
    ensures o > 0.0
  {
    assert lib.ExpPositive(-g * gap);
    lib.exp(-g * gap)
  }

  function ExpectedScore(lib: Library, mu: real, muJ: real, phiJ: real): (e: real)
    requires lib.Lawful()
    ensures 0.0 < e < 1.0
  {
    var x := Odds(lib, Weight(lib, phiJ), mu - muJ);
    Share01(x);
    Reciprocal(1.0 + x)
  }

  lemma Share01(x: real)
    requires x > 0.0
    ensures 0.0 < Reciprocal(1.0 + x) < 1.0
  {
    var r := Reciprocal(1.0 + x);
    MulPositive(r, x);
    assert r * (1.0 + x) == r + r * x;
  }

  function InformationTerm(lib: Library, mu: real, o: Opponent): (t: real)
    requires lib.Lawful()
    ensures t > 0.0
  {
    var g, e := Weight(lib, o.phi), ExpectedScore(lib, mu, o.mu, o.phi);
    Product(Product(g, g), Product(e, 1.0 - e))
  }

  /** The reciprocal of step 3's variance. */
  function Information(lib: Library, mu: real, opps: seq<Opponent>): (i: real)
    requires lib.Lawful()
    ensures i >= 0.0
    ensures i == 0.0 <==> opps == []
  {
    if opps == [] then 0.0
    else Information(lib, mu, opps[..|opps|-1]) + InformationTerm(lib, mu, opps[|opps|-1])
  }

  function SurplusTerm(lib: Library, mu: real, o: Opponent): real
    requires lib.Lawful()
  {
    Weight(lib, o.phi) * (o.score - ExpectedScore(lib, mu, o.mu, o.phi))
  }

  /** By how much, weighted, the scores beat their expectation. */
  function Surplus(lib: Library, mu: real, opps: seq<Opponent>): real
    requires lib.Lawful()
  {
    if opps == [] then 0.0
    else Surplus(lib, mu, opps[..|opps|-1]) + SurplusTerm(lib, mu, opps[|opps|-1])
  }

  /** Step 6: the deviation grows by the volatility. */
  function Inflated(lib: Library, phi: real, sigma: real): (r: real)
    requires lib.Lawful() && phi > 0.0
    ensures r > 0.0 && Square(r) == Square(phi) + Square(sigma)
  {
    Root(lib, Square(phi) + Square(sigma))
  }

  /** Step 4's estimated improvement. */
  function Improvement(surplus: real, v: real): real { surplus * v }

  function MovedMu(mu: real, phi: real, surplus: real): real { mu + Square(phi) * surplus }

  function ProblemFor(lib: Library, me: Scaled, v: real, delta: real): (p: Problem)
    requires lib.Lawful() && me.Sound() && v > 0.0
    ensures p.Sound()
  {
    Problem(Square(delta), Square(me.phi), v, lib.ln(Square(me.sigma)))
  }

  /** Step 5. */
  function NewSigma(lib: Library, p: Problem, fuel: nat): (s: real)
    requires lib.Lawful() && p.Sound()
    ensures s > 0.0
  {
    StartStraddles(lib, p);
    var x := Search(lib, p, Start(lib, p), fuel).a / 2.0;
    assert lib.ExpPositive(x);
    lib.exp(x)
  }

  /** Step 5's loop stops by itself within the fuel. */
  predicate Converges(lib: Library, p: Problem, fuel: nat)
    requires lib.Lawful() && p.Sound()
  {
    StartStraddles(lib, p);
    var br := Search(lib, p, Start(lib, p), fuel);
    Distance(br.a, br.b) <= EPS
  }

  /** Step 7: precisions add. */
  function NewPhi(lib: Library, phiStar: real, v: real): (r: real)
    requires lib.Lawful() && phiStar > 0.0 && v > 0.0
    ensures r > 0.0
  {
    Reciprocal(Root(lib, Reciprocal(Square(phiStar)) + Reciprocal(v)))
  }

  /** Steps 3 to 8. */
  function Update(lib: Library, me: Scaled, opps: seq<Opponent>, fuel: nat): (r: Scaled)
    requires lib.Lawful() && me.Sound()
    ensures r.Sound()
  {
    var info := Information(lib, me.mu, opps);
    if info == 0.0 then me.(phi := Inflated(lib, me.phi, me.sigma))
    else
      var v := Reciprocal(info);
      var surplus := Surplus(lib, me.mu, opps);
      var sigma := NewSigma(lib, ProblemFor(lib, me, v, Improvement(surplus, v)), fuel);
      var phi := NewPhi(lib, Inflated(lib, me.phi, sigma), v);
      Scaled(MovedMu(me.mu, phi, surplus), phi, sigma)
  }

  method Glicko2Update(lib: Library, me: Scaled, opps: seq<Opponent>, fuel: nat) returns (r: Scaled, converged: bool)
    requires lib.Lawful() && me.Sound()
    ensures r == Update(lib, me, opps, fuel)
    ensures opps == [] ==> converged
    ensures opps != [] ==>
              (converged <==>
                 Converges(lib, ProblemFor(lib, me, Variance(lib, me, opps), Delta(lib, me, opps)), fuel))
  {
    converged := true;
    var v := SumInformation(lib, me.mu, opps);
    if v == 0.0 { return me.(phi := Inflated(lib, me.phi, me.sigma)), true; }
    v := Reciprocal(v);
    var delta := SumSurplus(lib, me.mu, opps);
    delta := Improvement(delta, v);
    var sigma;
    sigma, converged := IterateSigma(lib, ProblemFor(lib, me, v, delta), fuel);
    var phiStar := Inflated(lib, me.phi, sigma);
    var phi := NewPhi(lib, phiStar, v);
    var muSum := SumSurplus(lib, me.mu, opps);
    r := Scaled(MovedMu(me.mu, phi, muSum), phi, sigma);
  }

  method IterateSigma(lib: Library, p: Problem, fuel: nat) returns (sigma: real, converged: bool)
    requires lib.Lawful() && p.Sound()
    ensures sigma == NewSigma(lib, p, fuel)
    ensures converged <==> Converges(lib, p, fuel)
  {
    var br;
    br, converged := FindRoot(lib, p, fuel);
    sigma := lib.exp(br.a / 2.0);
  }

  method SumInformation(lib: Library, mu: real, opps: seq<Opponent>) returns (sum: real)
    requires lib.Lawful()
    ensures sum == Information(lib, mu, opps)
  {
    sum := 0.0;
    for i := 0 to |opps|
      invariant sum == Information(lib, mu, opps[..i])
    {
      assert opps[..i+1][..i] == opps[..i];
      sum := sum + InformationTerm(lib, mu, opps[i]);
    }
    assert opps[..|opps|] == opps;
  }

  method SumSurplus(lib: Library, mu: real, opps: seq<Opponent>) returns (sum: real)
    requires lib.Lawful()
    ensures sum == Surplus(lib, mu, opps)
  {
    sum := 0.0;
    for i := 0 to |opps|
      invariant sum == Surplus(lib, mu, opps[..i])
    {
      assert opps[..i+1][..i] == opps[..i];
      sum := sum + SurplusTerm(lib, mu, opps[i]);
    }
    assert opps[..|opps|] == opps;
  }

  // ---- how far one period can move a player

  lemma Regroup(a: real, b: real, c: real)
    ensures a * (b * c) == (b * a) * c
    ensures a * (b * c) == (c * a) * b
  {
  }

  lemma ReciprocalUnique(x: real, r: real)
    requires x > 0.0 && r * x == 1.0
    ensures r == Reciprocal(x)
  {
    assert (r - Reciprocal(x)) * x == 0.0;
  }

  lemma ReciprocalOrder(x: real, y: real)
    requires 0.0 < x < y
    ensures Reciprocal(y) < Reciprocal(x)
  {
    var rx, ry := Reciprocal(x), Reciprocal(y);
    MulPositive(rx, ry);
    MulLess(x, y, rx * ry);
    Regroup(x, rx, ry);
    Regroup(y, rx, ry);
  }

  lemma ReciprocalTwice(x: real)
    requires x > 0.0
    ensures Reciprocal(Reciprocal(x)) == x
  {
    ReciprocalUnique(Reciprocal(x), x);
  }

  lemma SquareOfReciprocal(x: real)
    requires x > 0.0
    ensures Square(Reciprocal(x)) == Reciprocal(Square(x))
  {
    var r := Reciprocal(x);
    assert (r * r) * (x * x) == (r * x) * (r * x);
    ReciprocalUnique(Square(x), Square(r));
  }

  lemma NewPhiShrinks(lib: Library, phiStar: real, v: real)
    requires lib.Lawful() && phiStar > 0.0 && v > 0.0
    ensures NewPhi(lib, phiStar, v) < phiStar
    ensures Square(NewPhi(lib, phiStar, v)) < v
  {
    var a, b := Reciprocal(Square(phiStar)), Reciprocal(v);
    var root := Root(lib, a + b);
    SquareOfReciprocal(root);
    ReciprocalOrder(a, a + b);
    ReciprocalOrder(b, a + b);
    ReciprocalTwice(Square(phiStar));
    ReciprocalTwice(v);
    SquareLess(NewPhi(lib, phiStar, v), phiStar);
  }

  function Abs(x: real): real { if x < 0.0 then -x else x }

  lemma ScaledDown(k: real, v: real, x: real)
    requires 0.0 < k < v
    ensures Abs(k * x) <= Abs(x * v)
    ensures x > 0.0 ==> k * x > 0.0
    ensures x < 0.0 ==> k * x < 0.0
  {
    if x > 0.0 { MulLess(k, v, x); MulPositive(k, x); }
    else if x < 0.0 { MulLess(k, v, -x); MulPositive(k, -x); assert k * (-x) == -(k * x) && v * (-x) == -(x * v); }
  }

  lemma MoveBounded(mu: real, phi: real, surplus: real, v: real)
    requires phi > 0.0 && Square(phi) < v
    ensures Abs(MovedMu(mu, phi, surplus) - mu) <= Abs(Improvement(surplus, v))
    ensures surplus > 0.0 ==> MovedMu(mu, phi, surplus) > mu
    ensures surplus < 0.0 ==> MovedMu(mu, phi, surplus) < mu
  {
    ScaledDown(Square(phi), v, surplus);
  }

  function Delta(lib: Library, me: Scaled, opps: seq<Opponent>): real
    requires lib.Lawful() && opps != []
  {
    Improvement(Surplus(lib, me.mu, opps), Variance(lib, me, opps))
  }

  function Variance(lib: Library, me: Scaled, opps: seq<Opponent>): (v: real)
    requires lib.Lawful() && opps != []
    ensures v > 0.0
  {
    Reciprocal(Information(lib, me.mu, opps))
  }

  /**
   The new deviation is below both phi* and sqrt(v), the rating moves by at most |delta|, in the direction of
   the surplus.
   */
  lemma StepSizesBounded(lib: Library, me: Scaled, opps: seq<Opponent>, fuel: nat)
    requires lib.Lawful() && me.Sound() && opps != []
    ensures var r := Update(lib, me, opps, fuel);
            && r.phi < Inflated(lib, me.phi, r.sigma)
            && Square(r.phi) < Variance(lib, me, opps)
            && Abs(r.mu - me.mu) <= Abs(Delta(lib, me, opps))
            && (Surplus(lib, me.mu, opps) > 0.0 ==> r.mu > me.mu)
            && (Surplus(lib, me.mu, opps) < 0.0 ==> r.mu < me.mu)
  {
    var r, v := Update(lib, me, opps, fuel), Variance(lib, me, opps);
    NewPhiShrinks(lib, Inflated(lib, me.phi, r.sigma), v);
    MoveBounded(me.mu, r.phi, Surplus(lib, me.mu, opps), v);
  }

  /** The volatility stays within the factor e^(-tau/2) below its old value unless results were surprising. */
  lemma CalmUpdate(lib: Library, me: Scaled, opps: seq<Opponent>, fuel: nat)
    requires lib.Lawful() && me.Sound() && opps != []
    requires Square(Delta(lib, me, opps)) <= Square(me.phi) + Variance(lib, me, opps)
    ensures me.sigma * lib.exp(-TAU / 2.0) <= Update(lib, me, opps, fuel).sigma <= me.sigma
  {
    var p := ProblemFor(lib, me, Variance(lib, me, opps), Delta(lib, me, opps));
    CalmVolatility(lib, p, me.sigma, fuel);
    assert Update(lib, me, opps, fuel).sigma == NewSigma(lib, p, fuel);
  }

  lemma SurprisedUpdate(lib: Library, me: Scaled, opps: seq<Opponent>, fuel: nat)
    requires lib.Lawful() && me.Sound() && opps != []
    requires Square(Delta(lib, me, opps)) > Square(me.phi) + Variance(lib, me, opps)
    ensures Between(Square(Update(lib, me, opps, fuel).sigma), Square(me.sigma),
                    Square(Delta(lib, me, opps)) - Square(me.phi) - Variance(lib, me, opps))
  {
    var p := ProblemFor(lib, me, Variance(lib, me, opps), Delta(lib, me, opps));
    SurprisedVolatility(lib, p, me.sigma, fuel);
    assert Update(lib, me, opps, fuel).sigma == NewSigma(lib, p, fuel);
  }
}
