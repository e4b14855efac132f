/** `Math.round` and rounding to two decimals, on exact rationals. */
module Rounding {
  /** The nearest integer, halves upwards. */
  function MathRound(x: real): int {
    (x + 0.5).Floor
  }

  function Round2(value: real): real {
    MathRound(value * 100.0) as real / 100.0
  }

  lemma RoundingIsMonotone(a: real, b: real)
    requires a <= b
    ensures Round2(a) <= Round2(b)
  {
    assert (a * 100.0 + 0.5).Floor <= (b * 100.0 + 0.5).Floor;
  }

  /** Rounding reaches a multiple of 0.01 exactly from half a step below it. */
  lemma RoundingThreshold(x: real, hundredths: int)
    ensures Round2(x) >= hundredths as real / 100.0 <==> x >= (hundredths as real - 0.5) / 100.0
  {
    var f := MathRound(x * 100.0);
    assert f >= hundredths <==> x * 100.0 + 0.5 >= hundredths as real;
  }

  /** Rounding moves a value by at most half a hundredth. */
  lemma RoundingError(x: real)
    ensures x - 0.005 <= Round2(x) <= x + 0.005
  {
  }

  /** A whole number of hundredths. */
  ghost predicate IsCents(x: real) {
    exists n: int :: x == Cents(n)
  }

  function Cents(n: int): real {
    n as real / 100.0
  }

  lemma RoundedIsCents(x: real)
    ensures IsCents(Round2(x))
  {
    assert Round2(x) == Cents(MathRound(x * 100.0));
  }

  lemma CentsAreFixed(x: real, y: real)
    requires IsCents(x) && IsCents(y)
    ensures Round2(x + y) == x + y && IsCents(x + y)
  {
    var m: int :| x == Cents(m);
    var n: int :| y == Cents(n);
    assert (x + y) * 100.0 == (m + n) as real;
    assert MathRound((m + n) as real) == m + n;
    assert x + y == Cents(m + n);
  }
}
