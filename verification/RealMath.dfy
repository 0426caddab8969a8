/**
 The part of Go's `math` package the rating engines call, over exact reals. The functions are
 parameters of the model; `Lawful` lists the only facts about them that any proof uses.
 */
module RealMath {

  datatype Library = Library(
    exp: real -> real,
    ln: real -> real,
    sqrt: real -> real,
    pow10: real -> real,
    pi: real)
  {
    ghost predicate ExpPositive(x: real) { exp(x) > 0.0 }

    ghost predicate ExpSum(x: real, y: real) { exp(x + y) == exp(x) * exp(y) }

    ghost predicate ExpGrows(x: real, y: real) { x < y ==> exp(x) < exp(y) }

    ghost predicate ExpOfLn(y: real) { y > 0.0 ==> exp(ln(y)) == y }

    ghost predicate SqrtSquare(x: real) { x >= 0.0 ==> sqrt(x) >= 0.0 && sqrt(x) * sqrt(x) == x }

    ghost predicate PowPositive(x: real) { pow10(x) > 0.0 }

    ghost predicate PowFlip(x: real) { pow10(x) * pow10(-x) == 1.0 }

    ghost predicate PowGrows(x: real, y: real) { x < y ==> pow10(x) < pow10(y) }

    ghost predicate Lawful() {
      && (forall x :: ExpPositive(x))
      && (forall x, y :: ExpSum(x, y))
      && (forall x, y :: ExpGrows(x, y))
      && (forall y :: ExpOfLn(y))
      && (forall x :: SqrtSquare(x))
      && (forall x :: PowPositive(x))
      && (forall x :: PowFlip(x))
      && (forall x, y :: PowGrows(x, y))
      && pow10(1.0) == 10.0
      && pi > 0.0
    }

    lemma ExpMonotone(x: real, y: real)
      requires Lawful()
      ensures x < y <==> exp(x) < exp(y)
      ensures x <= y <==> exp(x) <= exp(y)
    {
      assert ExpGrows(x, y) && ExpGrows(y, x);
    }

    lemma ExpBetween(x: real, lo: real, hi: real)
      requires Lawful() && Between(x, lo, hi)
      ensures Between(exp(x), exp(lo), exp(hi))
    {
      ExpMonotone(x, lo);
      ExpMonotone(lo, x);
      ExpMonotone(x, hi);
      ExpMonotone(hi, x);
    }

    lemma SqrtPositive(x: real)
      requires Lawful() && x > 0.0
      ensures sqrt(x) > 0.0 && sqrt(x) * sqrt(x) == x
    {
      assert SqrtSquare(x);
    }
  }

  predicate Between(x: real, lo: real, hi: real) { lo <= x <= hi || hi <= x <= lo }

  /** Products of reals, one fact at a time. */
  lemma MulPositive(x: real, y: real)
    requires x > 0.0 && y > 0.0
    ensures x * y > 0.0
  {
  }

  lemma MulLess(x: real, y: real, z: real)
    requires x < y && z > 0.0
    ensures x * z < y * z
  {
    MulPositive(y - x, z);
    assert (y - x) * z == y * z - x * z;
  }

  function Product(x: real, y: real): (r: real)
    ensures x > 0.0 && y > 0.0 ==> r > 0.0
    ensures x < 0.0 && y < 0.0 ==> r > 0.0
  {
    if x > 0.0 && y > 0.0 then MulPositive(x, y); x * y
    else if x < 0.0 && y < 0.0 then MulPositive(-x, -y); assert (-x) * (-y) == x * y; x * y
    else x * y
  }

  function Square(x: real): (r: real)
    ensures r >= 0.0
    ensures x != 0.0 ==> r > 0.0
  {
    Product(x, x)
  }

  lemma ProductGrows(a: real, b: real, c: real, d: real)
    requires 0.0 <= a < b && 0.0 <= c < d
    ensures Product(a, c) < Product(b, d)
  {
    MulLess(c, d, b);
    if c > 0.0 { MulLess(a, b, c); }
  }

  lemma SquareGrows(x: real, y: real)
    requires 0.0 <= x < y
    ensures Square(x) < Square(y)
  {
    ProductGrows(x, y, x, y);
  }

  lemma SquareLess(x: real, y: real)
    requires 0.0 <= x && 0.0 < y && Square(x) < Square(y)
    ensures x < y
  {
    if y < x { SquareGrows(y, x); }
  }

  lemma DivPositive(x: real, y: real)
    requires x > 0.0 && y > 0.0
    ensures x / y > 0.0
  {
  }

  lemma SumOfReciprocals(p: real, q: real)
    requires p > 0.0 && q > 0.0 && p * q == 1.0
    ensures 1.0 / (1.0 + p) + 1.0 / (1.0 + q) == 1.0
  {
    var u, v := 1.0 / (1.0 + p), 1.0 / (1.0 + q);
    assert u * (1.0 + p) == 1.0 && v * (1.0 + q) == 1.0;
    var w := (1.0 + p) * (1.0 + q);
    assert w == 2.0 + p + q;
    assert u * w == 1.0 + q by { assert u * w == (u * (1.0 + p)) * (1.0 + q); }
    assert v * w == 1.0 + p by { assert v * w == (v * (1.0 + q)) * (1.0 + p); }
    assert (u + v) * w == w;
  }
}
