/** The part of `rust_decimal::Decimal` the aggregation uses: the absolute
    value and `round_dp`, which rounds to a number of decimal places with
    ties going to the even neighbour ("banker's rounding"). Decimals are
    modelled as unbounded exact `real`s. */
module Decimal {

  function Abs(x: real): (r: real)
    ensures r >= 0.0
    ensures r == x || r == -x
  {
    if x < 0.0 then -x else x
  }

  /** Decimal multiplication, exact in the model. Naming the product keeps
      the verifier's reasoning about totals on equal terms rather than on
      nonlinear arithmetic. */
  function Mul(a: real, b: real): (r: real)
    ensures a >= 0.0 && b >= 0.0 ==> r >= 0.0
    ensures b == 1.0 ==> r == a
  {
    a * b
  }

  function Pow10(n: nat): (p: nat)
    ensures p >= 1
  {
    if n == 0 then 1 else 10 * Pow10(n - 1)
  }

  /** The integer nearest to `x`; of two equally near ones, the even one. */
  function RoundHalfEven(x: real): (r: int)
    ensures x - 0.5 <= r as real <= x + 0.5
    ensures (r as real - x == 0.5 || x - r as real == 0.5) ==> r % 2 == 0
  {
    var f := x.Floor;
    var frac := x - f as real;
    if frac < 0.5 then f
    else if frac > 0.5 then f + 1
    else if f % 2 == 0 then f
    else f + 1
  }

  /** `x` in units of the `dp`-th decimal place. */
  function Scaled(x: real, dp: nat): (y: real) {
    x * Pow10(dp) as real
  }

  /** `n` units of the `dp`-th decimal place. */
  function Unscaled(n: real, dp: nat): (x: real) {
    n / Pow10(dp) as real
  }

  /** `round_dp(dp)`: `x` rounded half-to-even to `dp` decimal places. */
  function RoundDp(x: real, dp: nat): (r: real)
    ensures var scale := Pow10(dp) as real;
            -0.5 / scale <= r - x <= 0.5 / scale
    ensures IsRounded(r, dp)
  {
    var n := RoundHalfEven(Scaled(x, dp));
    ScaledBound(x, dp, n);
    UnscaledWhole(n, dp);
    Unscaled(n as real, dp)
  }

  /** `y` is a whole number. */
  predicate Whole(y: real) {
    y.Floor as real == y
  }

  /** `x` has at most `dp` decimal places. */
  predicate IsRounded(x: real, dp: nat) {
    Whole(Scaled(x, dp))
  }

  lemma IntWhole(n: int)
    ensures Whole(n as real)
  {
  }

  lemma ScaledBound(x: real, dp: nat, n: int)
    requires Scaled(x, dp) - 0.5 <= n as real <= Scaled(x, dp) + 0.5
    ensures var scale := Pow10(dp) as real;
            -0.5 / scale <= Unscaled(n as real, dp) - x <= 0.5 / scale
  {
    var scale := Pow10(dp) as real;
    var d := n as real - x * scale;
    assert d / scale == n as real / scale - x;
    DivBound(d, scale);
  }

  lemma DivBound(d: real, scale: real)
    requires scale >= 1.0
    requires -0.5 <= d <= 0.5
    ensures -0.5 / scale <= d / scale <= 0.5 / scale
  {
  }

  /** A whole number of units of the last place has `dp` decimal places. */
  lemma UnscaledWhole(n: int, dp: nat)
    ensures IsRounded(Unscaled(n as real, dp), dp)
  {
    ScaleBack(n as real, Pow10(dp) as real);
    assert Scaled(Unscaled(n as real, dp), dp) == n as real;
    IntWhole(n);
  }

  lemma ScaleBack(y: real, scale: real)
    requires scale >= 1.0
    ensures (y / scale) * scale == y
  {
  }

  lemma DivBack(x: real, scale: real)
    requires scale >= 1.0
    ensures (x * scale) / scale == x
  {
  }

  /** A whole number rounds to itself. */
  lemma RoundWhole(y: real)
    requires Whole(y)
    ensures RoundHalfEven(y) as real == y
  {
  }

  /** Rounding a number that already has at most `dp` decimal places
      leaves it unchanged, so rounding once more changes nothing. */
  lemma RoundDpExact(x: real, dp: nat)
    requires IsRounded(x, dp)
    ensures RoundDp(x, dp) == x
  {
    RoundWhole(Scaled(x, dp));
    DivBack(x, Pow10(dp) as real);
  }

  lemma RoundDpIdempotent(x: real, dp: nat)
    ensures RoundDp(RoundDp(x, dp), dp) == RoundDp(x, dp)
  {
    RoundDpExact(RoundDp(x, dp), dp);
  }

  /** Two amounts rounded to cents separately differ from their rounded
      difference by at most one cent: each rounding moves its value by at
      most half a cent, and all three results are whole cents. */
  lemma RoundedDifferenceGap(v: real, c: real)
    ensures -0.01 <= RoundDp(v - c, 2) - (RoundDp(v, 2) - RoundDp(c, 2)) <= 0.01
  {
    RoundToCents(v - c);
    RoundToCents(v);
    RoundToCents(c);
    CentsGap(RoundDp(v - c, 2), RoundDp(v, 2), RoundDp(c, 2), v, c);
  }

  lemma RoundToCents(x: real)
    ensures -0.005 <= RoundDp(x, 2) - x <= 0.005
    ensures Whole(RoundDp(x, 2) * 100.0)
  {
    assert Pow10(2) == 100;
    assert Scaled(RoundDp(x, 2), 2) == RoundDp(x, 2) * 100.0;
  }

  lemma CentsGap(g: real, rv: real, rc: real, v: real, c: real)
    requires Whole(g * 100.0) && Whole(rv * 100.0) && Whole(rc * 100.0)
    requires -0.005 <= g - (v - c) <= 0.005
    requires -0.005 <= rv - v <= 0.005
    requires -0.005 <= rc - c <= 0.005
    ensures -0.01 <= g - (rv - rc) <= 0.01
  {
    var d := (g * 100.0).Floor - ((rv * 100.0).Floor - (rc * 100.0).Floor);
    assert d as real == (g - (rv - rc)) * 100.0;
    assert -1 <= d <= 1;
  }
}
