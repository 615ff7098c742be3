/** Python's `round(x, n)` on exact numbers: to the nearest multiple of 10^-n, ties to the even one. */
module Rounding {

  function HalfEven(x: real): int {
    var low := x.Floor;
    var rest := x - low as real;
    if rest < 0.5 then low
    else if rest > 0.5 then low + 1
    else if low % 2 == 0 then low else low + 1
  }

  function Round1(x: real): real {
    HalfEven(x * 10.0) as real / 10.0
  }

  function Round2(x: real): real {
    HalfEven(x * 100.0) as real / 100.0
  }

  predicate IsTenth(x: real) {
    (x * 10.0).Floor as real == x * 10.0
  }

  predicate IsHundredth(x: real) {
    (x * 100.0).Floor as real == x * 100.0
  }

  predicate IsThousandth(x: real) {
    (x * 1000.0).Floor as real == x * 1000.0
  }

  lemma HalfEvenNearest(x: real)
    ensures -0.5 <= HalfEven(x) as real - x <= 0.5
    ensures HalfEven(x) as real - x == 0.5 || x - HalfEven(x) as real == 0.5 ==> HalfEven(x) % 2 == 0
  {
  }

  lemma HalfEvenMonotone(x: real, y: real)
    requires x <= y
    ensures HalfEven(x) <= HalfEven(y)
  {
    assert x.Floor <= y.Floor;
  }

  lemma HalfEvenFixesIntegers(n: int)
    ensures HalfEven(n as real) == n
  {
    assert (n as real).Floor == n;
  }

  lemma IntegerOverTen(n: int)
    ensures IsTenth(n as real / 10.0)
  {
    WholeNumber((n as real / 10.0) * 10.0, n);
  }

  lemma Round1Nearest(x: real)
    ensures -0.05 <= Round1(x) - x <= 0.05 && IsTenth(Round1(x))
  {
    var n := HalfEven(x * 10.0);
    HalfEvenNearest(x * 10.0);
    IntegerOverTen(n);
  }

  /** Halfway between two tenths, and between two hundredths, it is the even one. */
  lemma TiesGoToTheEven(n: int)
    ensures Round1((2 * n + 1) as real / 20.0) * 10.0 == (if n % 2 == 0 then n else n + 1) as real
    ensures Round2((2 * n + 1) as real / 200.0) * 100.0 == (if n % 2 == 0 then n else n + 1) as real
  {
    assert (2 * n + 1) as real / 20.0 * 10.0 == n as real + 0.5;
    assert (2 * n + 1) as real / 200.0 * 100.0 == n as real + 0.5;
    assert (n as real + 0.5).Floor == n;
  }

  lemma Round2Nearest(x: real)
    ensures -0.005 <= Round2(x) - x <= 0.005 && IsHundredth(Round2(x))
  {
    var n := HalfEven(x * 100.0);
    HalfEvenNearest(x * 100.0);
    assert Round2(x) * 100.0 == n as real;
    WholeNumber(Round2(x) * 100.0, n);
  }

  lemma Round1Monotone(x: real, y: real)
    requires x <= y
    ensures Round1(x) <= Round1(y)
  {
    HalfEvenMonotone(x * 10.0, y * 10.0);
  }

  /** Rounding changes a number exactly when it is not already a multiple of the unit. */
  lemma Round1Fixes(x: real)
    ensures Round1(x) == x <==> IsTenth(x)
  {
    if IsTenth(x) {
      var n := (x * 10.0).Floor;
      HalfEvenFixesIntegers(n);
    }
    Round1Nearest(x);
  }

  lemma Round2Fixes(x: real)
    requires IsHundredth(x)
    ensures Round2(x) == x
  {
    var n := (x * 100.0).Floor;
    HalfEvenFixesIntegers(n);
  }

  lemma Round2Monotone(x: real, y: real)
    requires x <= y
    ensures Round2(x) <= Round2(y)
  {
    HalfEvenMonotone(x * 100.0, y * 100.0);
  }

  lemma WholeNumber(x: real, n: int)
    requires x == n as real
    ensures x.Floor as real == x
  {
  }

  lemma TenthIsHundredth(x: real)
    requires IsTenth(x)
    ensures IsHundredth(x)
  {
    WholeNumber(x * 100.0, 10 * (x * 10.0).Floor);
  }

  lemma TenthsAdd(x: real, y: real)
    requires IsTenth(x)
    ensures IsTenth(x + y) <==> IsTenth(y)
  {
    var n := (x * 10.0).Floor;
    var sum, part := (x + y) * 10.0, y * 10.0;
    assert sum == n as real + part;
    if IsTenth(y) { WholeNumber(sum, n + part.Floor); }
    if IsTenth(x + y) { WholeNumber(part, sum.Floor - n); }
  }

  lemma HundredIsTenth(n: int)
    ensures IsTenth(n as real)
  {
    WholeNumber(n as real * 10.0, 10 * n);
  }
}
