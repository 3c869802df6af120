/** Decimal rounding as Python's round() does it, on exact reals: half to even. */
module Rounding {
  function HalfEven(x: real): (n: int)
    ensures n as real - 0.5 <= x <= n as real + 0.5
    ensures x == n as real - 0.5 || x == n as real + 0.5 ==> n % 2 == 0
  {
    var low := x.Floor;
    var rest := x - low as real;
    if rest < 0.5 || (rest == 0.5 && low % 2 == 0) then low else low + 1
  }

  /** round(x, n) with scale 10^n. */
  function RoundTo(x: real, scale: real): real
    requires scale > 0.0
  {
    HalfEven(x * scale) as real / scale
  }

  lemma RoundDefinition(x: real, scale: real)
    requires scale > 0.0
    ensures RoundTo(x, scale) == HalfEven(x * scale) as real / scale
  {
  }

  lemma HalfEvenOfInt(n: int)
    ensures HalfEven(n as real) == n
  {
  }

  lemma HalfEvenMonotone(x: real, y: real)
    requires x <= y
    ensures HalfEven(x) <= HalfEven(y)
  {
    var a, b := HalfEven(x), HalfEven(y);
    assert a as real - 0.5 <= x <= y <= b as real + 0.5;
  }

  /** Rounding moves a value by at most half a unit of the last digit. */
  lemma RoundNear(x: real, scale: real)
    requires scale > 0.0
    ensures (RoundTo(x, scale) - x) * scale <= 0.5
    ensures (x - RoundTo(x, scale)) * scale <= 0.5
  {
    var n := HalfEven(x * scale);
    assert RoundTo(x, scale) == n as real / scale;
    assert RoundTo(x, scale) * scale == n as real;
  }

  lemma RoundWithin(x: real, scale: real, half: real)
    requires scale > 0.0 && half == 0.5 / scale
    ensures -half <= RoundTo(x, scale) - x <= half
  {
    hide RoundTo;
    RoundNear(x, scale);
    AtMostHalf(RoundTo(x, scale) - x, scale, half);
    AtMostHalf(x - RoundTo(x, scale), scale, half);
  }

  lemma AtMostHalf(d: real, s: real, half: real)
    requires s > 0.0 && d * s <= 0.5 && half == 0.5 / s
    ensures d <= half
  {
    assert d == d * s / s;
    OverMonotone(d * s, 0.5, s);
  }

  lemma RoundMonotone(x: real, y: real, scale: real)
    requires x <= y && scale > 0.0
    ensures RoundTo(x, scale) <= RoundTo(y, scale)
  {
    assert x * scale <= y * scale;
    HalfEvenMonotone(x * scale, y * scale);
    OverMonotone(HalfEven(x * scale) as real, HalfEven(y * scale) as real, scale);
  }

  lemma OverMonotone(a: real, b: real, s: real)
    requires a <= b && s > 0.0
    ensures a / s <= b / s
  {
  }

  /** A value that already has so few digits is left alone. */
  lemma RoundExact(n: int, scale: real)
    requires scale > 0.0
    ensures RoundTo(n as real / scale, scale) == n as real / scale
  {
    var x := n as real / scale;
    assert x * scale == n as real;
    HalfEvenOfInt(n);
    RoundDefinition(x, scale);
  }
}
