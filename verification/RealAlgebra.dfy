/** Order facts about products and quotients of reals, each small enough to be used by name. */
module RealAlgebra {

  /** A product under a name, so that a square keeps its sign as a fact about one value. */
  function Times(x: real, y: real): (product: real)
    ensures x > 0.0 && y > 0.0 ==> product > 0.0
    ensures x >= 0.0 && y >= 0.0 ==> product >= 0.0
  {
    x * y
  }

  lemma FactorPositive(x: real, s: real, product: real)
    requires s > 0.0 && product > 0.0 && x * s == product
    ensures x > 0.0
  {
  }

  lemma MulOrder(c: real, x: real, y: real)
    requires c >= 0.0 && x <= y
    ensures c * x <= c * y
  {
  }

  lemma TimesOrder(c: real, x: real, y: real)
    requires c >= 0.0 && x <= y
    ensures Times(c, x) <= Times(c, y)
  {
    MulOrder(c, x, y);
    assert Times(c, x) == c * x && Times(c, y) == c * y;
  }

  lemma MulStrictOrder(c: real, x: real, y: real)
    requires c > 0.0
    ensures x < y <==> c * x < c * y
  {
    if x < y {
      assert c * (y - x) > 0.0;
    }
  }

  lemma DivOrder(x: real, y: real, c: real)
    requires c > 0.0 && x <= y
    ensures x / c <= y / c
  {
  }

  lemma SquareOrder(x: real, y: real)
    requires x >= 0.0 && y >= 0.0 && x * x < y * y
    ensures x < y
  {
    assert (x - y) * (x + y) == x * x - y * y;
    if y <= x {
      assert false;
    }
  }

  /** A positive root of x^2 + c x = b c lies below b. */
  lemma RootBelow(x: real, c: real, b: real)
    requires x > 0.0 && c > 0.0 && b > 0.0
    requires x * x + c * x == b * c
    ensures x < b
  {
    assert Times(x, x) > 0.0;
    assert c * x < c * b;
    MulStrictOrder(c, x, b);
  }

  /** 1 / (1/a + 1/b) is the harmonic combination of a and b, and lies below b. */
  lemma Harmonic(a: real, b: real)
    requires a > 0.0 && b > 0.0
    ensures 1.0 / a + 1.0 / b > 0.0
    ensures 0.0 < 1.0 / (1.0 / a + 1.0 / b) < b
    ensures 1.0 / (1.0 / a + 1.0 / b) * (a + b) == b * a
  {
    var p, q := 1.0 / a, 1.0 / b;
    assert p * a == 1.0 && q * b == 1.0;
    var v := 1.0 / (p + q);
    assert v * (p + q) == 1.0;
    calc {
      v * (a + b);
      v * (a * (q * b) + b * (p * a));
      v * (p + q) * (a * b);
      a * b;
    }
    assert v * p > 0.0 && v * q == 1.0 - v * p;
    calc {
      v;
      (v * q) * b;
      b - (v * p) * b;
    }
    assert (v * p) * b > 0.0;
  }
}
