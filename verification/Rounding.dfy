/** Rounding as `f64::round` does it, over exact reals. */
module Rounding {

  /** To the nearest integer, halves away from zero. */
  function Round(x: real): int {
    if x >= 0.0 then (x + 0.5).Floor else -((-x + 0.5).Floor)
  }

  /** Two decimals: `(x * 100).round() / 100`. */
  function RoundCents(x: real): real {
    Round(x * 100.0) as real / 100.0
  }

  lemma RoundCentsMonotone(x: real, y: real)
    requires x <= y
    ensures RoundCents(x) <= RoundCents(y)
  {
    assert Round(x * 100.0) <= Round(y * 100.0);
  }

  lemma RoundCentsClose(x: real)
    ensures -0.005 <= RoundCents(x) - x <= 0.005
  {
    var r := Round(x * 100.0) as real;
    assert -0.5 <= r - x * 100.0 <= 0.5;
    assert r / 100.0 * 100.0 == r;
  }

  /** The nearest integer; of two equally near ones the one further from zero. */
  lemma RoundIsNearest(x: real)
    ensures var d := Round(x) as real - x;
            -0.5 <= d <= 0.5 && (d == 0.5 ==> x > 0.0) && (d == -0.5 ==> x < 0.0)
    ensures Round(x * 100.0) as real == RoundCents(x) * 100.0
  {
    var r := Round(x * 100.0) as real;
    assert r / 100.0 * 100.0 == r;
  }
}
