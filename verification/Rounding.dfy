/** Decimal rounding as the control plane uses it: to the nearest, ties to even. */
module Rounding {

  /** The nearest integer, a tie going to the even neighbour. */
  function RoundHalfEven(x: real): (r: int)
    ensures -0.5 <= r as real - x <= 0.5
    ensures x - x.Floor as real == 0.5 ==> r % 2 == 0
  {
    var below := x.Floor;
    var fraction := x - below as real;
    if fraction < 0.5 then below
    else if fraction > 0.5 then below + 1
    else if below % 2 == 0 then below
    else below + 1
  }

  /** Rounding keeps order, so it never inverts a comparison of scores. */
  lemma RoundMonotone(x: real, y: real)
    requires x <= y
    ensures RoundHalfEven(x) <= RoundHalfEven(y)
  {
    if x.Floor < y.Floor {
      assert x < y.Floor as real;
    }
  }

  /** `round(x, digits)` with `scale == 10^digits`. */
  function RoundTo(x: real, scale: real): (r: real)
    requires scale > 0.0
    ensures r * scale == RoundHalfEven(x * scale) as real
  {
    RoundHalfEven(x * scale) as real / scale
  }

  function Round2(x: real): real { RoundTo(x, 100.0) }

  function Round4(x: real): real { RoundTo(x, 10000.0) }

  /** x is a whole number of units of 1/scale. */
  ghost predicate OnGrid(x: real, scale: real) {
    x * scale == (x * scale).Floor as real
  }

  lemma RoundToMonotone(x: real, y: real, scale: real)
    requires scale > 0.0
    requires x <= y
    ensures RoundTo(x, scale) <= RoundTo(y, scale)
  {
    assert x * scale <= y * scale;
    RoundMonotone(x * scale, y * scale);
    var a, b := RoundHalfEven(x * scale) as real, RoundHalfEven(y * scale) as real;
    assert a / scale <= b / scale;
  }

  /** Values already on the grid are left alone, and every result is on the grid. */
  lemma RoundToGrid(x: real, scale: real)
    requires scale > 0.0
    ensures OnGrid(RoundTo(x, scale), scale)
    ensures OnGrid(x, scale) ==> RoundTo(x, scale) == x
  {
    var n := RoundHalfEven(x * scale);
    assert RoundTo(x, scale) * scale == n as real;
    assert (n as real).Floor == n;
    if OnGrid(x, scale) {
      assert n as real == x * scale;
      assert (x * scale) / scale == x;
    }
  }

  lemma RoundToZero(scale: real)
    requires scale > 0.0
    ensures RoundTo(0.0, scale) == 0.0
  {
    assert 0.0 * scale == 0.0;
    assert (0.0).Floor == 0;
    assert 0.0 / scale == 0.0;
  }

  lemma RoundToNonnegative(x: real, scale: real)
    requires scale > 0.0
    requires x >= 0.0
    ensures RoundTo(x, scale) >= 0.0
  {
    RoundToZero(scale);
    RoundToMonotone(0.0, x, scale);
  }

  lemma GridSum(x: real, y: real, scale: real)
    requires OnGrid(x, scale) && OnGrid(y, scale)
    ensures OnGrid(x + y, scale)
  {
    var m, n := (x * scale).Floor, (y * scale).Floor;
    assert (x + y) * scale == (m + n) as real;
    assert ((m + n) as real).Floor == m + n;
  }

  /** Hundredths are also ten-thousandths. */
  lemma GridRefine(x: real)
    requires OnGrid(x, 100.0)
    ensures OnGrid(x, 10000.0)
  {
    var m := (x * 100.0).Floor;
    assert x * 10000.0 == (m * 100) as real;
    assert ((m * 100) as real).Floor == m * 100;
  }
}
