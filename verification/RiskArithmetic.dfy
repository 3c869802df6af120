/** Lot quantisation (risk_engine/calculators.py, round_down_step) in exact reals. */
module RiskArithmetic {
  import opened Rounding

  const SCALE8: real := 100000000.0
  const HALF8: real := 0.000000005

  function RoundDownStep(value: real, step: real): real {
    if step <= 0.0 then 0.0 else RoundTo(WholeSteps(value, step), SCALE8)
  }

  function InverseStep(step: real): real
    requires step > 0.0
  {
    RoundTo(1.0 / step, SCALE8)
  }

  function ScaledValue(value: real, step: real): real
    requires step > 0.0
  {
    value * InverseStep(step)
  }

  function WholeSteps(value: real, step: real): real
    requires step > 0.0
  {
    Steps(StepCount(value, step), step)
  }

  function Steps(n: int, step: real): real { n as real * step }

  function StepCount(value: real, step: real): int
    requires step > 0.0
  {
    RoundTo(ScaledValue(value, step), SCALE8).Floor
  }

  lemma Near8(x: real)
    ensures x - HALF8 <= RoundTo(x, SCALE8) <= x + HALF8
  {
    RoundNear(x, SCALE8);
  }

  lemma TimesMonotone(a: real, b: real, c: real)
    requires a <= b && c >= 0.0
    ensures a * c <= b * c
  {
  }

  /** How far the value in rounded inverse steps strays from the true quotient. */
  lemma ScaledUnits(value: real, step: real, inverse: real, scaled: real, slack: real)
    requires value >= 0.0 && step > 0.0 && 1.0 / step - HALF8 <= inverse <= 1.0 / step + HALF8
    requires scaled == value * inverse && slack == HALF8 * step
    ensures value - slack * value <= scaled * step <= value + slack * value
  {
    var one := 1.0 / step;
    assert one * step == 1.0;
    TimesMonotone(inverse, one + HALF8, step);
    TimesMonotone(one - HALF8, inverse, step);
    assert (one + HALF8) * step == 1.0 + slack;
    assert (one - HALF8) * step == 1.0 - slack;
    TimesMonotone(inverse * step, 1.0 + slack, value);
    TimesMonotone(1.0 - slack, inverse * step, value);
    assert inverse * step * value == scaled * step;
    assert (1.0 + slack) * value == value + slack * value;
    assert (1.0 - slack) * value == value - slack * value;
  }

  /** units whole steps, for a rounded scaled value. */
  lemma UnitsBounds(scaled: real, units: real, step: real, slack: real, exact: real, whole: real)
    requires step > 0.0 && scaled - HALF8 - 1.0 <= units <= scaled + HALF8
    requires slack == HALF8 * step && exact == scaled * step && whole == units * step
    ensures exact - slack - step <= whole <= exact + slack
  {
    var high, low := (scaled + HALF8) * step, (scaled - HALF8 - 1.0) * step;
    ProductMonotone(units, scaled + HALF8, step, whole, high);
    ProductMonotone(scaled - HALF8 - 1.0, units, step, low, whole);
    assert high == exact + slack;
    assert low == exact - slack - step;
  }

  lemma ProductMonotone(a: real, b: real, c: real, ac: real, bc: real)
    requires a <= b && c >= 0.0 && ac == a * c && bc == b * c
    ensures ac <= bc
  {
    TimesMonotone(a, b, c);
  }

  /** Quantising down may overshoot the value by rounding only, and falls short of it by at most
      one step and rounding. */
  lemma QuantisationBounds(value: real, step: real)
    requires value >= 0.0 && step > 0.0
    ensures RoundDownStep(value, step) <= value + HALF8 * step * (value + 1.0) + HALF8
    ensures RoundDownStep(value, step) >= value - step - HALF8 * step * (value + 1.0) - HALF8
  {
    hide RoundTo, HalfEven;
    Near8(1.0 / step);
    var slack := HALF8 * step;
    ScaledUnits(value, step, InverseStep(step), ScaledValue(value, step), slack);
    Near8(ScaledValue(value, step));
    var exact, whole := ScaledValue(value, step) * step, WholeSteps(value, step);
    UnitsBounds(ScaledValue(value, step), StepCount(value, step) as real, step, slack, exact, whole);
    Near8(whole);
    var drift := slack * value;
    Expand(value, step, slack, drift);
    Total(RoundDownStep(value, step), whole, exact, value, step, slack, drift);
  }

  lemma Expand(value: real, step: real, slack: real, drift: real)
    requires slack == HALF8 * step && drift == slack * value
    ensures HALF8 * step * (value + 1.0) == drift + slack
  {
  }

  lemma Total(result: real, whole: real, exact: real, value: real, step: real, slack: real, drift: real)
    requires whole - HALF8 <= result <= whole + HALF8
    requires exact - slack - step <= whole <= exact + slack && value - drift <= exact <= value + drift
    ensures value - step - (drift + slack) - HALF8 <= result <= value + (drift + slack) + HALF8
  {
  }

  /** Steps of the form 1/k that eight decimals can express. */
  predicate DecimalStep(k: int) {
    k > 0 && 100000000 % k == 0
  }

  function Stretch(value: real, k: int): real {
    value * k as real
  }

  function Units(value: real, k: int): int {
    RoundTo(Stretch(value, k), SCALE8).Floor
  }

  lemma OneOverOneOver(x: real)
    requires x > 0.0
    ensures 1.0 / (1.0 / x) == x
  {
    var y := 1.0 / x;
    assert y * x == 1.0;
    assert y > 0.0;
    assert 1.0 / y == x by { assert x * y == 1.0; }
  }

  lemma IntegerRoundsToItself(n: int)
    ensures RoundTo(n as real, SCALE8) == n as real
  {
    RoundExact(n * 100000000, SCALE8);
    assert (n * 100000000) as real / SCALE8 == n as real;
  }

  /** For a decimal step the arithmetic is exact: whole units of 1/k. */
  lemma DecimalStepIsExact(value: real, k: int)
    requires DecimalStep(k)
    ensures RoundDownStep(value, 1.0 / k as real) == Units(value, k) as real / k as real
  {
    hide RoundTo, HalfEven;
    var x := k as real;
    var step := 1.0 / x;
    assert step > 0.0;
    OneOverOneOver(x);
    IntegerRoundsToItself(k);
    assert InverseStep(step) == x;
    assert ScaledValue(value, step) == Stretch(value, k);
    assert StepCount(value, step) == Units(value, k);
    var units := Units(value, k);
    OverIsTimes(units as real, x);
    assert WholeSteps(value, step) == units as real / x;
    UnitsAreDecimal(units, k);
  }

  lemma OverIsTimes(u: real, x: real)
    requires x > 0.0
    ensures u * (1.0 / x) == u / x
  {
  }

  lemma UnitsAreDecimal(units: int, k: int)
    requires DecimalStep(k)
    ensures RoundTo(units as real / k as real, SCALE8) == units as real / k as real
  {
    var q := 100000000 / k;
    assert q * k == 100000000;
    RoundExact(units * q, SCALE8);
    assert (units * q) as real / SCALE8 == units as real / k as real by {
      assert (units * q) as real == units as real * q as real;
      assert q as real * k as real == SCALE8;
      Cancel(units as real, q as real, k as real);
    }
  }

  lemma Cancel(u: real, q: real, k: real)
    requires q > 0.0 && k > 0.0
    ensures u * q / (q * k) == u / k
  {
    var x := u / k;
    assert x * k == u;
    assert x * (q * k) == u * q;
  }

  lemma UnitsOfUnits(units: int, k: int)
    requires DecimalStep(k)
    ensures Units(units as real / k as real, k) == units
  {
    hide RoundTo, HalfEven;
    assert Stretch(units as real / k as real, k) == units as real;
    IntegerRoundsToItself(units);
  }

  lemma StepIdempotent(value: real, k: int)
    requires DecimalStep(k)
    ensures RoundDownStep(RoundDownStep(value, 1.0 / k as real), 1.0 / k as real) ==
      RoundDownStep(value, 1.0 / k as real)
  {
    DecimalStepIsExact(value, k);
    var units := Units(value, k);
    UnitsOfUnits(units, k);
    DecimalStepIsExact(units as real / k as real, k);
  }

  lemma StepMonotone(a: real, b: real, k: int)
    requires DecimalStep(k) && a <= b
    ensures RoundDownStep(a, 1.0 / k as real) <= RoundDownStep(b, 1.0 / k as real)
  {
    hide RoundTo, HalfEven, RoundDownStep;
    DecimalStepIsExact(a, k);
    DecimalStepIsExact(b, k);
    TimesMonotone(a, b, k as real);
    RoundMonotone(Stretch(a, k), Stretch(b, k), SCALE8);
    assert Units(a, k) <= Units(b, k);
    OverMonotone(Units(a, k) as real, Units(b, k) as real, k as real);
  }

  /** So little short of n, or exactly that much, that rounding to eight decimals reaches n. */
  predicate NearlyReached(x: real, n: int) {
    n as real - HALF8 <= x < n as real
  }

  /** With a decimal step the result exceeds the value if and only if the value, counted in steps, is
      at most 5e-9 short of a whole number it has not reached; and then by at most 5e-9 steps. */
  lemma ExceedsIff(value: real, k: int)
    requires DecimalStep(k)
    ensures RoundDownStep(value, 1.0 / k as real) > value <==> exists n: int :: NearlyReached(Stretch(value, k), n)
    ensures RoundDownStep(value, 1.0 / k as real) <= value + HALF8 / k as real
  {
    hide RoundTo, HalfEven, RoundDownStep, Stretch;
    var x, u := Stretch(value, k), Units(value, k);
    ExceedsByUnits(value, k);
    RoundedBelow(x, u);
    RoundedBelow(x, u + 1);
    if u as real > x { assert NearlyReached(x, u); }
    forall n: int | NearlyReached(x, n) ensures u as real > x { RoundedBelow(x, n); }
  }

  lemma ExceedsByUnits(value: real, k: int)
    requires DecimalStep(k)
    ensures RoundDownStep(value, 1.0 / k as real) > value <==> Units(value, k) as real > Stretch(value, k)
    ensures RoundDownStep(value, 1.0 / k as real) <= value + HALF8 / k as real
  {
    hide RoundTo, HalfEven, RoundDownStep;
    DecimalStepIsExact(value, k);
    Near8(Stretch(value, k));
    CompareQuotient(Units(value, k) as real, value, k as real);
  }

  /** Quantising down can round up: a lot just short of one hundredth becomes one hundredth. */
  lemma StepCanRoundUp()
    ensures RoundDownStep(0.009999999999, 1.0 / 100 as real) == 0.01
    ensures RoundDownStep(0.009999999999, 1.0 / 100 as real) > 0.009999999999
  {
    hide RoundTo, HalfEven, RoundDownStep;
    DecimalStepIsExact(0.009999999999, 100);
    RoundedBelow(Stretch(0.009999999999, 100), 1);
    RoundedBelow(Stretch(0.009999999999, 100), 2);
    assert Units(0.009999999999, 100) == 1;
  }

  /** Counted, in rounded inverse steps, as n steps. */
  predicate CountedAs(x: real, n: int) {
    n as real - HALF8 <= x < n as real + 1.0 - HALF8
  }

  /** For any step: the result exceeds the value if and only if the value counts as some n steps
      that, rounded to eight decimals, come to more than it. */
  lemma ExceedsAnyStepIff(value: real, step: real)
    requires step > 0.0
    ensures RoundDownStep(value, step) > value <==>
      exists n: int :: CountedAs(ScaledValue(value, step), n) && RoundTo(Steps(n, step), SCALE8) > value
  {
    hide RoundTo, HalfEven, ScaledValue, StepCount, Steps;
    var n := StepCount(value, step);
    FewerThanIff(value, step, n);
    FewerThanIff(value, step, n + 1);
    assert CountedAs(ScaledValue(value, step), n);
    forall m: int | CountedAs(ScaledValue(value, step), m) ensures m == n {
      FewerThanIff(value, step, m);
      FewerThanIff(value, step, m + 1);
    }
  }

  lemma CompareQuotient(u: real, value: real, q: real)
    requires q > 0.0 && u <= value * q + HALF8
    ensures u / q > value <==> u > value * q
    ensures u / q <= value + HALF8 / q
  {
    var r := u / q;
    assert r * q == u;
    if r > value { StrictTimes(value, r, q); } else { TimesMonotone(r, value, q); }
    AtMostSum(r, u, value, q);
  }

  lemma AtMostSum(r: real, u: real, value: real, q: real)
    requires q > 0.0 && r * q == u && u <= value * q + HALF8
    ensures r <= value + HALF8 / q
  {
    var y := HALF8 / q;
    assert y * q == HALF8;
    if r > value + y {
      StrictTimes(value + y, r, q);
    }
  }

  lemma StrictTimes(a: real, b: real, c: real)
    requires a < b && c > 0.0
    ensures a * c < b * c
  {
  }

  /** Ties round to the even neighbour, so an even number is missed only by more than a half. */
  lemma HalfEvenBelow(x: real, n: int)
    requires n % 2 == 0
    ensures HalfEven(x) < n <==> x < n as real - 0.5
  {
  }

  /** Quantising counts fewer than n steps exactly when the value, in rounded inverse steps, is more
      than half of the eighth decimal short of n. */
  lemma FewerThanIff(value: real, step: real, n: int)
    requires step > 0.0
    ensures StepCount(value, step) < n <==> ScaledValue(value, step) < n as real - HALF8
  {
    hide HalfEven, RoundTo, ScaledValue;
    RoundedBelow(ScaledValue(value, step), n);
  }

  lemma RoundedBelow(x: real, n: int)
    ensures RoundTo(x, SCALE8).Floor < n <==> x < n as real - HALF8
  {
    hide HalfEven, RoundTo;
    RoundDefinition(x, SCALE8);
    BelowByUnits(x, x * SCALE8, RoundTo(x, SCALE8), HalfEven(x * SCALE8), n, n * 100000000);
  }

  lemma BelowByUnits(x: real, scaled: real, rounded: real, units: int, n: int, whole: int)
    requires scaled == x * SCALE8 && units == HalfEven(scaled) && rounded == units as real / SCALE8
    requires whole == n * 100000000
    ensures rounded.Floor < n <==> x < n as real - HALF8
  {
    hide HalfEven;
    assert whole % 2 == 0;
    var reached := HalfEven(scaled) < whole;
    assert reached <==> scaled < whole as real - 0.5 by { HalfEvenBelow(scaled, whole); }
    assert reached <==> rounded.Floor < n by { FloorOver(rounded, units, n); }
    ScaledBelow(x, scaled, n, whole);
  }

  lemma ScaledBelow(x: real, scaled: real, n: int, whole: int)
    requires scaled == x * SCALE8 && whole == n * 100000000
    ensures scaled < whole as real - 0.5 <==> x < n as real - HALF8
  {
    assert whole as real == n as real * SCALE8;
  }

  lemma FloorOver(q: real, h: int, n: int)
    requires q == h as real / SCALE8
    ensures q.Floor < n <==> h < n * 100000000
  {
    assert q * SCALE8 == h as real;
    assert q.Floor < n <==> q < n as real;
  }

  /** A lot of exactly n steps loses at least one of them in quantisation if and only if the rounded
      inverse of the step falls short of the true one by too much: n (1 - step * inverse) > 5e-9. */
  lemma LosesAUnitIff(n: nat, step: real)
    requires step > 0.0
    ensures StepCount(n as real * step, step) < n <==> n as real * (1.0 - step * InverseStep(step)) > HALF8
  {
    hide RoundTo, HalfEven;
    var inverse := InverseStep(step);
    FewerThanIff(n as real * step, step, n);
    ShareOf(n as real, step, inverse);
  }

  lemma ShareOf(n: real, step: real, inverse: real)
    ensures n * step * inverse == n - n * (1.0 - step * inverse)
  {
    var share := step * inverse;
    assert n * step * inverse == n * share;
    assert n * (1.0 - share) == n - n * share;
  }

  lemma NothingLost(n: real, step: real, inverse: real)
    requires inverse > 0.0 && step == 1.0 / inverse
    ensures n * (1.0 - step * inverse) == 0.0
  {
    assert step * inverse == 1.0;
  }

  /** Decimal steps never do. */
  lemma DecimalStepKeepsUnits(n: nat, k: int)
    requires DecimalStep(k)
    ensures StepCount(n as real * (1.0 / k as real), 1.0 / k as real) >= n
  {
    hide RoundTo, HalfEven, StepCount, ScaledValue;
    var step := 1.0 / k as real;
    OneOverOneOver(k as real);
    IntegerRoundsToItself(k);
    assert InverseStep(step) == k as real;
    LosesAUnitIff(n, step);
    NothingLost(n as real, step, k as real);
  }

  /** Other steps are not safe: with step 0.03 a lot of exactly 1000 units loses one. */
  lemma StepCanLoseAUnit()
    ensures RoundDownStep(30.0, 0.03) == 29.97
  {
    assert HalfEven(1.0 / 0.03 * SCALE8) == 3333333333;
    RoundDefinition(1.0 / 0.03, SCALE8);
    assert InverseStep(0.03) == 33.33333333;
    RoundDefinition(ScaledValue(30.0, 0.03), SCALE8);
    assert RoundTo(ScaledValue(30.0, 0.03), SCALE8) == 999.9999999;
    RoundDefinition(WholeSteps(30.0, 0.03), SCALE8);
  }
}
