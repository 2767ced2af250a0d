/**
 * Cent rounding of monetary amounts.
 *
 * The payout calculator quantizes every value it reports with
 * `Decimal.quantize(Decimal("1.00"), ROUND_HALF_UP)`: to the nearest
 * multiple of 0.01, a value exactly half-way between two cents going
 * away from zero.  Amounts are exact reals here.
 */
module Money {

  /** True when `x` is a whole number of cents. */
  predicate IsCents(x: real)
  {
    (x * 100.0).Floor as real == x * 100.0
  }

  /** `x` quantized to 0.01 with ROUND_HALF_UP (ties away from zero). */
  function RoundCents(x: real): (r: real)
    ensures IsCents(r)
    ensures x >= 0.0 ==> x - 0.005 < r <= x + 0.005
    ensures x < 0.0 ==> x - 0.005 <= r < x + 0.005
  {
    var n := if x >= 0.0 then (x * 100.0 + 0.5).Floor else -((-x) * 100.0 + 0.5).Floor;
    assert n as real / 100.0 * 100.0 == n as real;
    n as real / 100.0
  }

  /**
   * The ensures of RoundCents pin the result down: a whole number of cents
   * in the half-open interval of width one cent around `x` (closed on the
   * side away from zero) is the rounded value.
   */
  lemma RoundCentsUnique(x: real, c: real)
    requires IsCents(c)
    requires x >= 0.0 ==> x - 0.005 < c <= x + 0.005
    requires x < 0.0 ==> x - 0.005 <= c < x + 0.005
    ensures c == RoundCents(x)
  {
    var r := RoundCents(x);
    var n, m := (c * 100.0).Floor, (r * 100.0).Floor;
    assert c == n as real / 100.0 && r == m as real / 100.0;
    assert -1.0 < (n - m) as real < 1.0;
    assert n == m;
  }

  /** A value that is already a whole number of cents is left unchanged. */
  lemma RoundCentsIdempotent(x: real)
    requires IsCents(x)
    ensures RoundCents(x) == x
  {
    RoundCentsUnique(x, x);
  }

  /** Rounding half away from zero is symmetric about zero. */
  lemma RoundCentsOdd(x: real)
    ensures RoundCents(-x) == -RoundCents(x)
  {
    var r := RoundCents(x);
    if x != 0.0 {
      IsCentsNegated(r);
      RoundCentsUnique(-x, -r);
    }
  }

  lemma IsCentsNegated(r: real)
    requires IsCents(r)
    ensures IsCents(-r)
  {
    var n := (r * 100.0).Floor;
    assert (-r) * 100.0 == (-n) as real;
  }

  /** Rounding preserves the order of amounts (non-strictly). */
  lemma RoundCentsMonotonic(x: real, y: real)
    requires x <= y
    ensures RoundCents(x) <= RoundCents(y)
  {
    if x >= 0.0 {
      FloorMonotonic(x * 100.0 + 0.5, y * 100.0 + 0.5);
    } else if y < 0.0 {
      FloorMonotonic((-y) * 100.0 + 0.5, (-x) * 100.0 + 0.5);
    }
  }

  lemma FloorMonotonic(a: real, b: real)
    requires a <= b
    ensures a.Floor <= b.Floor
  {
  }
}
