/**
 pkg/rating/glicko2.go, step 5: the bracketing search and the Illinois root-finder for the new volatility.
 The number of iterations to convergence is not bounded here: `fuel` caps it, and every result holds for
 every fuel.
 */
module Volatility {
  import opened RealMath

  const TAU := 0.5
  const EPS := 0.000001

  /** The constants of one search: delta squared, phi squared, v and a = ln(sigma squared). */
  datatype Problem = Problem(delta2: real, phi2: real, v: real, a: real)
  {
    predicate Sound() { delta2 >= 0.0 && phi2 > 0.0 && v > 0.0 }

    /** delta squared minus phi squared minus v: its sign picks the initial bracket. */
    function Excess(): real { delta2 - phi2 - v }
  }

  function Pull(excess: real, spread: real, ex: real): real
    requires spread > 0.0 && ex > 0.0
  {
    MulPositive(spread + ex, spread + ex);
    (ex * (excess - ex)) / (2.0 * ((spread + ex) * (spread + ex)))
  }

  /** The function f whose root is sought. */
  function Objective(lib: Library, p: Problem, x: real): real
    requires lib.Lawful() && p.Sound()
  {
    assert lib.ExpPositive(x);
    Pull(p.Excess(), p.phi2 + p.v, lib.exp(x)) - (x - p.a) / (TAU * TAU)
  }

  datatype Bracket = Bracket(a: real, b: real, fa: real, fb: real)

  function Distance(x: real, y: real): real { if x < y then y - x else x - y }

  function InitialB(lib: Library, p: Problem): real {
    if p.Excess() > 0.0 then lib.ln(p.Excess()) else p.a - TAU
  }

  function Start(lib: Library, p: Problem): Bracket
    requires lib.Lawful() && p.Sound()
  {
    var b := InitialB(lib, p);
    Bracket(p.a, b, Objective(lib, p, p.a), Objective(lib, p, b))
  }

  function Crossing(br: Bracket): real
    requires br.fa != br.fb
  {
    br.a + ((br.a - br.b) * br.fa) / (br.fb - br.fa)
  }

  function Next(lib: Library, p: Problem, br: Bracket): Bracket
    requires lib.Lawful() && p.Sound() && br.fa != br.fb
  {
    var c := Crossing(br);
    var fc := Objective(lib, p, c);
    if fc * br.fb <= 0.0 then Bracket(br.b, c, br.fb, fc) else Bracket(br.a, c, br.fa / 2.0, fc)
  }

  predicate SameSign(x: real, y: real) { (x > 0.0 <==> y > 0.0) && (x < 0.0 <==> y < 0.0) }

  predicate Opposed(x: real, y: real) { (x > 0.0 ==> y <= 0.0) && (x < 0.0 ==> y >= 0.0) }

  /** The loop invariant: the ends hold (possibly damped) values of f of opposite sign, so f(b) - f(a) is not 0. */
  ghost predicate Straddles(lib: Library, p: Problem, br: Bracket)
    requires lib.Lawful() && p.Sound()
  {
    && br.fb == Objective(lib, p, br.b)
    && SameSign(br.fa, Objective(lib, p, br.a))
    && Opposed(br.fa, br.fb)
    && (br.a != br.b ==> br.fa != 0.0)
  }

  predicate Within(inner: Bracket, outer: Bracket) {
    Between(inner.a, outer.a, outer.b) && Between(inner.b, outer.a, outer.b)
  }

  // ---- the initial bracket

  lemma PullSign(excess: real, spread: real, ex: real)
    requires spread > 0.0 && ex > 0.0
    ensures SameSign(Pull(excess, spread, ex), excess - ex)
  {
    var num, den := ex * (excess - ex), 2.0 * ((spread + ex) * (spread + ex));
    MulPositive(spread + ex, spread + ex);
    if excess > ex { MulPositive(ex, excess - ex); DivPositive(num, den); }
    else if excess < ex {
      MulPositive(ex, ex - excess);
      assert -num == ex * (ex - excess);
      DivPositive(-num, den);
      assert (-num) / den == -(num / den);
    }
  }

  /** However surprising the results were, f's first term stays above -1/2. */
  lemma PullAboveMinusHalf(delta2: real, spread: real, ex: real)
    requires delta2 >= 0.0 && spread > 0.0 && ex > 0.0
    ensures Pull(delta2 - spread, spread, ex) > -0.5
  {
    var s := spread + ex;
    MulPositive(s, s);
    var num, den := ex * (delta2 - s), 2.0 * (s * s);
    assert delta2 - spread - ex == delta2 - s;
    assert ex * delta2 >= 0.0 by { if delta2 > 0.0 { MulPositive(ex, delta2); } }
    MulLess(ex, s, s);
    assert num == ex * delta2 - ex * s;
    assert num + s * s > 0.0;
    DivPositive(num + s * s, den);
    assert (num + s * s) / den == num / den + (s * s) / den;
    assert (s * s) / den == 0.5;
  }

  lemma StepBack(k: real)
    ensures (0.0 - k * TAU) / (TAU * TAU) == -(2.0 * k)
  {
  }

  /** f(a - k tau) > k / tau - 1/2 for every k, so the search for a lower end stops at k = 1. */
  lemma LowerEndAtOnce(lib: Library, p: Problem, k: real)
    requires lib.Lawful() && p.Sound()
    ensures Objective(lib, p, p.a - k * TAU) > 2.0 * k - 0.5
  {
    var x := p.a - k * TAU;
    assert lib.ExpPositive(x);
    PullAboveMinusHalf(p.delta2, p.phi2 + p.v, lib.exp(x));
    assert p.Excess() == p.delta2 - (p.phi2 + p.v);
    StepBack(k);
    assert x - p.a == 0.0 - k * TAU;
  }

  lemma QuarterSign(x: real)
    ensures SameSign(x / (TAU * TAU), x)
  {
  }

  lemma ObjectiveAtA(lib: Library, p: Problem)
    requires lib.Lawful() && p.Sound()
    ensures SameSign(Objective(lib, p, p.a), p.Excess() - lib.exp(p.a))
  {
    assert lib.ExpPositive(p.a);
    PullSign(p.Excess(), p.phi2 + p.v, lib.exp(p.a));
    QuarterSign(p.a - p.a);
  }

  lemma ObjectiveAtLog(lib: Library, p: Problem)
    requires lib.Lawful() && p.Sound() && p.Excess() > 0.0
    ensures SameSign(Objective(lib, p, lib.ln(p.Excess())), p.a - lib.ln(p.Excess()))
  {
    var b := lib.ln(p.Excess());
    assert lib.ExpOfLn(p.Excess()) && lib.ExpPositive(b);
    PullSign(p.Excess(), p.phi2 + p.v, lib.exp(b));
    QuarterSign(b - p.a);
  }

  /**
   The search starts with a and f(a); the other end is ln(delta^2 - phi^2 - v) where that is defined, else a - 1/2, with
   f's value there.
   */
  lemma StartValues(lib: Library, p: Problem)
    requires lib.Lawful() && p.Sound()
    ensures var br := Start(lib, p);
            && br.a == p.a && br.fa == Objective(lib, p, p.a) && br.fb == Objective(lib, p, br.b)
            && (if p.delta2 > p.phi2 + p.v then lib.exp(br.b) == p.delta2 - p.phi2 - p.v else br.b == p.a - 0.5)
  {
    if p.delta2 > p.phi2 + p.v { assert lib.ExpOfLn(p.delta2 - p.phi2 - p.v); }
    hide Objective;
  }

  /** Both ways of choosing B give a bracket around a root. */
  lemma StartStraddles(lib: Library, p: Problem)
    requires lib.Lawful() && p.Sound()
    ensures Straddles(lib, p, Start(lib, p))
  {
    ObjectiveAtA(lib, p);
    assert lib.ExpPositive(p.a);
    var b := InitialB(lib, p);
    if p.Excess() > 0.0 {
      ObjectiveAtLog(lib, p);
      assert lib.ExpOfLn(p.Excess());
      lib.ExpMonotone(p.a, b);
      lib.ExpMonotone(b, p.a);
    } else {
      LowerEndAtOnce(lib, p, 1.0);
    }
  }

  // ---- the iteration

  lemma CrossingBetween(br: Bracket)
    requires Opposed(br.fa, br.fb) && br.fa != 0.0
    ensures br.fa != br.fb && Between(Crossing(br), br.a, br.b)
    ensures br.fb == 0.0 ==> Crossing(br) == br.b
  {
    var t := br.fa / (br.fa - br.fb);
    assert t * (br.fa - br.fb) == br.fa;
    assert 0.0 <= t <= 1.0 by { Share(br.fa, br.fb); }
    var w := br.b - br.a;
    assert Crossing(br) == br.a + ((br.a - br.b) * br.fa) / (br.fb - br.fa);
    assert ((br.a - br.b) * br.fa) / (br.fb - br.fa) == t * w by {
      assert ((br.a - br.b) * br.fa) == (t * w) * (br.fb - br.fa) by {
        assert (t * w) * (br.fb - br.fa) == -((t * (br.fa - br.fb)) * w);
      }
    }
    if w >= 0.0 { ScaleBetween(t, w); } else { ScaleBetween(t, -w); assert t * w == -(t * (-w)); }
    assert Crossing(br) == br.a + t * w;
    if br.fb == 0.0 { assert t == 1.0; }
  }

  lemma Share(fa: real, fb: real)
    requires Opposed(fa, fb) && fa != 0.0
    ensures fa != fb && 0.0 <= fa / (fa - fb) <= 1.0
  {
    var d := fa - fb;
    if fa > 0.0 {
      DivPositive(fa, d);
      assert fa / d + (-fb) / d == 1.0;
      if fb < 0.0 { DivPositive(-fb, d); }
    } else {
      DivPositive(-fa, -d);
      assert (-fa) / (-d) == fa / d;
      assert fa / d + (-fb) / d == 1.0;
      if fb > 0.0 { DivPositive(fb, -d); assert fb / (-d) == (-fb) / d; }
    }
  }

  lemma ScaleBetween(t: real, w: real)
    requires 0.0 <= t <= 1.0 && w >= 0.0
    ensures 0.0 <= t * w <= w
  {
    if w > 0.0 && t > 0.0 { MulPositive(t, w); }
    if w > 0.0 && t < 1.0 { MulLess(t, 1.0, w); }
  }

  lemma ProductSign(x: real, y: real)
    ensures x * y <= 0.0 <==> Opposed(x, y)
  {
    if x > 0.0 && y > 0.0 { MulPositive(x, y); }
    else if x < 0.0 && y < 0.0 { MulPositive(-x, -y); assert (-x) * (-y) == x * y; }
    else if x > 0.0 && y < 0.0 { MulPositive(x, -y); assert x * (-y) == -(x * y); }
    else if x < 0.0 && y > 0.0 { MulPositive(-x, y); assert (-x) * y == -(x * y); }
  }

  /** One iteration divides safely, keeps the invariant and stays inside the bracket. */
  lemma NextStraddles(lib: Library, p: Problem, br: Bracket)
    requires lib.Lawful() && p.Sound() && Straddles(lib, p, br) && br.a != br.b
    ensures br.fa != br.fb
    ensures Straddles(lib, p, Next(lib, p, br)) && Within(Next(lib, p, br), br)
  {
    CrossingBetween(br);
    var fc := Objective(lib, p, Crossing(br));
    ProductSign(fc, br.fb);
  }

  /**
   One iteration takes the zero c of the line through the ends, and f's value there. Where f changes sign between b and
   c the old b becomes the other end; else a stays, with half its value.
   */
  lemma NextIsIllinois(lib: Library, p: Problem, br: Bracket)
    requires lib.Lawful() && p.Sound() && br.fa != br.fb
    ensures var n := Next(lib, p, br);
            && (n.b - br.a) * (br.fb - br.fa) == (br.a - br.b) * br.fa
            && n.fb == Objective(lib, p, n.b)
            && (if Opposed(n.fb, br.fb) then n.a == br.b && n.fa == br.fb else n.a == br.a && n.fa + n.fa == br.fa)
  {
    ProductSign(Objective(lib, p, Crossing(br)), br.fb);
    CrossingSolves(br);
    hide Objective;
  }

  lemma CrossingSolves(br: Bracket)
    requires br.fa != br.fb
    ensures (Crossing(br) - br.a) * (br.fb - br.fa) == (br.a - br.b) * br.fa
  {
    var n, d := (br.a - br.b) * br.fa, br.fb - br.fa;
    assert n / d * d == n;
  }

  /** The Illinois loop, cut off after `fuel` iterations. */
  function Search(lib: Library, p: Problem, br: Bracket, fuel: nat): Bracket
    requires lib.Lawful() && p.Sound() && Straddles(lib, p, br)
    decreases fuel
  {
    if fuel == 0 || Distance(br.a, br.b) <= EPS then br
    else
      NextStraddles(lib, p, br);
      Search(lib, p, Next(lib, p, br), fuel - 1)
  }

  lemma {:induction false} SearchStraddles(lib: Library, p: Problem, br: Bracket, fuel: nat)
    requires lib.Lawful() && p.Sound() && Straddles(lib, p, br)
    ensures Straddles(lib, p, Search(lib, p, br, fuel))
    ensures Within(Search(lib, p, br, fuel), br)
    decreases fuel
  {
    if fuel != 0 && Distance(br.a, br.b) > EPS {
      NextStraddles(lib, p, br);
      SearchStraddles(lib, p, Next(lib, p, br), fuel - 1);
    }
  }

  /** Every iterate keeps a root of f between its ends, nested in all earlier brackets. */
  lemma SearchNested(lib: Library, p: Problem, m: nat, n: nat)
    requires lib.Lawful() && p.Sound() && m <= n
    ensures Straddles(lib, p, Start(lib, p))
    ensures var early, late := Search(lib, p, Start(lib, p), m), Search(lib, p, Start(lib, p), n);
            && Within(late, early)
            && Opposed(Objective(lib, p, late.a), Objective(lib, p, late.b))
  {
    StartStraddles(lib, p);
    var br := Start(lib, p);
    SearchStraddles(lib, p, br, m);
    SearchSplit(lib, p, br, m, n - m);
    SearchStraddles(lib, p, Search(lib, p, br, m), n - m);
  }

  lemma {:induction false} SearchSplit(lib: Library, p: Problem, br: Bracket, m: nat, n: nat)
    requires lib.Lawful() && p.Sound() && Straddles(lib, p, br)
    ensures Straddles(lib, p, Search(lib, p, br, m))
    ensures Search(lib, p, br, m + n) == Search(lib, p, Search(lib, p, br, m), n)
    decreases m
  {
    SearchStraddles(lib, p, br, m);
    if m != 0 && Distance(br.a, br.b) > EPS {
      NextStraddles(lib, p, br);
      SearchSplit(lib, p, Next(lib, p, br), m - 1, n);
    }
  }

  /** Once the loop has stopped by itself, more fuel changes nothing. */
  lemma FuelIrrelevantOnceConverged(lib: Library, p: Problem, br: Bracket, m: nat, n: nat)
    requires lib.Lawful() && p.Sound() && Straddles(lib, p, br) && m <= n
    requires Distance(Search(lib, p, br, m).a, Search(lib, p, br, m).b) <= EPS
    ensures Search(lib, p, br, n) == Search(lib, p, br, m)
  {
    SearchSplit(lib, p, br, m, n - m);
  }

  /** Step 5 as written: bracket, then iterate. */
  method FindRoot(lib: Library, p: Problem, fuel: nat) returns (br: Bracket, converged: bool)
    requires lib.Lawful() && p.Sound()
    ensures Straddles(lib, p, Start(lib, p))
    ensures br == Search(lib, p, Start(lib, p), fuel)
    ensures converged <==> Distance(br.a, br.b) <= EPS
  {
    var b := SearchLowerEnd(lib, p);
    StartStraddles(lib, p);
    br := Bracket(p.a, b, Objective(lib, p, p.a), Objective(lib, p, b));
    var left: nat := fuel;
    while Distance(br.b, br.a) > EPS && left > 0
      invariant left <= fuel && Straddles(lib, p, br)
      invariant Search(lib, p, br, left) == Search(lib, p, Start(lib, p), fuel)
      decreases left
    {
      NextStraddles(lib, p, br);
      br := Iterate(lib, p, br);
      left := left - 1;
    }
    converged := Distance(br.b, br.a) <= EPS;
  }

  method Iterate(lib: Library, p: Problem, br: Bracket) returns (br': Bracket)
    requires lib.Lawful() && p.Sound() && br.fa != br.fb
    ensures br' == Next(lib, p, br)
  {
    var c := br.a + ((br.a - br.b) * br.fa) / (br.fb - br.fa);
    assert c == Crossing(br);
    var fc := Objective(lib, p, c);
    if fc * br.fb <= 0.0 {
      br' := br.(a := br.b, fa := br.fb);
    } else {
      br' := br.(fa := br.fa / 2.0);
    }
    br' := br'.(b := c, fb := fc);
  }

  /** The other end of the initial bracket; the loop never runs, as `LowerEndAtOnce` shows. */
  method SearchLowerEnd(lib: Library, p: Problem) returns (b: real)
    requires lib.Lawful() && p.Sound()
    ensures b == InitialB(lib, p)
  {
    if p.delta2 > p.phi2 + p.v { return lib.ln(p.delta2 - p.phi2 - p.v); }
    var k := 1.0;
    while Objective(lib, p, p.a - k * TAU) < 0.0
      invariant k >= 1.0
      invariant k > 1.0 ==> Objective(lib, p, p.a - 1.0 * TAU) < 0.0
      decreases Objective(lib, p, p.a - k * TAU) < 0.0
    {
      LowerEndAtOnce(lib, p, k + 1.0);
      k := k + 1.0;
    }
    LowerEndAtOnce(lib, p, 1.0);
    b := p.a - k * TAU;
  }

  // ---- what the bracket means for the volatility

  lemma HalfExp(lib: Library, x: real)
    requires lib.Lawful()
    ensures Square(lib.exp(x / 2.0)) == lib.exp(x) && lib.exp(x / 2.0) > 0.0
  {
    assert lib.ExpSum(x / 2.0, x / 2.0) && lib.ExpPositive(x / 2.0);
    assert x / 2.0 + x / 2.0 == x;
  }

  lemma SameSquare(x: real, y: real)
    requires x > 0.0 && y > 0.0 && Square(x) == Square(y)
    ensures x == y
  {
    assert (x - y) * (x + y) == 0.0;
  }

  lemma SqrtOfLog(lib: Library, sigma: real)
    requires lib.Lawful() && sigma > 0.0
    ensures lib.exp(lib.ln(Square(sigma)) / 2.0) == sigma
  {
    LogSquare(lib, Square(sigma));
    SameSquare(lib.exp(lib.ln(Square(sigma)) / 2.0), sigma);
  }

  lemma LogSquare(lib: Library, y: real)
    requires lib.Lawful() && y > 0.0
    ensures lib.exp(lib.ln(y)) == y
    ensures var r := lib.exp(lib.ln(y) / 2.0); r > 0.0 && Square(r) == y
  {
    assert lib.ExpOfLn(y);
    HalfExp(lib, lib.ln(y));
  }

  lemma CalmWindow(lib: Library, p: Problem, fuel: nat)
    requires lib.Lawful() && p.Sound() && p.Excess() <= 0.0 && Straddles(lib, p, Start(lib, p))
    ensures p.a - TAU <= Search(lib, p, Start(lib, p), fuel).a <= p.a
  {
    SearchStraddles(lib, p, Start(lib, p), fuel);
    hide Straddles, Search, Objective;
  }

  /** Unsurprising results never raise volatility, and lower it by at most the factor e^(-tau/2). */
  lemma CalmVolatility(lib: Library, p: Problem, sigma: real, fuel: nat)
    requires lib.Lawful() && p.Sound() && sigma > 0.0 && p.a == lib.ln(Square(sigma))
    requires p.Excess() <= 0.0
    ensures Straddles(lib, p, Start(lib, p))
    ensures var s := lib.exp(Search(lib, p, Start(lib, p), fuel).a / 2.0);
            sigma * lib.exp(-TAU / 2.0) <= s <= sigma
  {
    hide Start, Search, Straddles;
    StartStraddles(lib, p);
    CalmWindow(lib, p, fuel);
    SqrtOfLog(lib, sigma);
    HalfExpWindow(lib, Search(lib, p, Start(lib, p), fuel).a, p.a);
  }

  lemma HalfExpWindow(lib: Library, x: real, a: real)
    requires lib.Lawful() && a - TAU <= x <= a
    ensures lib.exp(a / 2.0) * lib.exp(-TAU / 2.0) <= lib.exp(x / 2.0) <= lib.exp(a / 2.0)
  {
    lib.ExpMonotone(x / 2.0, a / 2.0);
    lib.ExpMonotone((a - TAU) / 2.0, x / 2.0);
    assert lib.ExpSum(a / 2.0, -TAU / 2.0);
    assert (a - TAU) / 2.0 == a / 2.0 + -TAU / 2.0;
  }

  /** After surprising results the new variance lies between the old one and the excess. */
  lemma SurprisedVolatility(lib: Library, p: Problem, sigma: real, fuel: nat)
    requires lib.Lawful() && p.Sound() && sigma > 0.0 && p.a == lib.ln(Square(sigma))
    requires p.Excess() > 0.0
    ensures Straddles(lib, p, Start(lib, p))
    ensures var s := lib.exp(Search(lib, p, Start(lib, p), fuel).a / 2.0);
            Between(Square(s), Square(sigma), p.Excess())
  {
    StartStraddles(lib, p);
    SearchStraddles(lib, p, Start(lib, p), fuel);
    var x := Search(lib, p, Start(lib, p), fuel).a;
    SquaredBetween(lib, x, Square(sigma), p.Excess());
  }

  lemma SquaredBetween(lib: Library, x: real, lo: real, hi: real)
    requires lib.Lawful() && lo > 0.0 && hi > 0.0 && Between(x, lib.ln(lo), lib.ln(hi))
    ensures Between(Square(lib.exp(x / 2.0)), lo, hi)
  {
    lib.ExpBetween(x, lib.ln(lo), lib.ln(hi));
    HalfExp(lib, x);
    assert lib.ExpOfLn(lo) && lib.ExpOfLn(hi);
  }
}
