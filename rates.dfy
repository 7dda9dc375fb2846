/**
 * Conversion rates as the SQL computes them, `ROUND(sales * 100.0 / qrcodes, 2)`
 * guarded by `qrcodes > 0`, kept exact: a rate is an integer number of
 * hundredths of a percent (2500 stands for 25.00%).
 */
module Rates {

  function Abs(x: int): nat { if x < 0 then -x else x }

  /**
   * `n / d` rounded to the nearest integer, halves away from zero (SQLite's
   * ROUND): the result is within half of `n / d`, and an exact half goes up
   * for a non-negative `n` and down for a negative one.
   */
  function RoundDiv(n: int, d: int): (r: int)
    requires d > 0
    ensures Abs(2 * r * d - 2 * n) <= d
    ensures 2 * r * d - 2 * n == d ==> n >= 0
    ensures 2 * r * d - 2 * n == -d ==> n < 0
  {
    if n >= 0 then HalfUp(n, d) else -(HalfUp(-n, d) as int)
  }

  /** Nearest integer to `n / d` for `n >= 0`, a half rounded up. */
  function HalfUp(n: nat, d: int): (r: nat)
    requires d > 0
    ensures -d < 2 * r * d - 2 * n <= d
  {
    var q := (2 * n + d) / (2 * d);
    var m := (2 * n + d) % (2 * d);
    assert 2 * n + d == 2 * d * q + m && 0 <= m < 2 * d;
    assert 2 * q * d - 2 * n == d - m;
    q
  }

  /** Any integer within half of `n / d` that rounds halves away from zero is `RoundDiv(n, d)`. */
  lemma RoundDivUnique(n: int, d: int, r: int)
    requires d > 0
    requires Abs(2 * r * d - 2 * n) <= d
    requires 2 * r * d - 2 * n == d ==> n >= 0
    requires 2 * r * d - 2 * n == -d ==> n < 0
    ensures r == RoundDiv(n, d)
  {
    var r0 := RoundDiv(n, d);
    Scale(2 * r, 2 * r0, d);
    Scale(2 * r0, 2 * r, d);
  }

  /** Two multiples of `d` that differ in the multiplier by at least 2 lie at least `2 * d` apart. */
  lemma Scale(x: int, y: int, d: int)
    requires d > 0
    ensures x >= y + 2 ==> x * d - y * d >= 2 * d
  {
    if x >= y + 2 {
      var k := x - y;
      assert x * d - y * d == k * d;
      assert k * d == 2 * d + (k - 2) * d;
    }
  }

  /**
   * The rate in hundredths of a percent: 0 unless at least one QR code was
   * delivered, otherwise `sales * 100 / qrcodes` percent rounded to two
   * decimals, i.e. the nearest integer to `sales * 10000 / qrcodes`.
   */
  function ConversionRate(sales: int, qrcodes: int): (r: int)
    ensures qrcodes <= 0 ==> r == 0
    ensures qrcodes > 0 ==> Abs(2 * r * qrcodes - 20000 * sales) <= qrcodes
    ensures qrcodes > 0 && sales >= 0 ==> -qrcodes < 2 * r * qrcodes - 20000 * sales
  {
    if qrcodes > 0 then RoundDiv(sales * 10000, qrcodes) else 0
  }

  /** With no more sales than codes the rate lies between 0.00% and 100.00%, at the ends exactly. */
  lemma ConversionRateBounds(sales: int, qrcodes: int)
    requires qrcodes > 0 && 0 <= sales <= qrcodes
    ensures 0 <= ConversionRate(sales, qrcodes) <= 10000
    ensures sales == 0 ==> ConversionRate(sales, qrcodes) == 0
    ensures sales == qrcodes ==> ConversionRate(sales, qrcodes) == 10000
  {
    var r := ConversionRate(sales, qrcodes);
    Scale(0, 2 * r, qrcodes);
    Scale(2 * r, 20000, qrcodes);
    assert 20000 * qrcodes == 20000 * sales + 20000 * (qrcodes - sales);
    assert 20000 * (qrcodes - sales) >= 0;
    if sales == 0 { RoundDivUnique(0, qrcodes, 0); }
    if sales == qrcodes { RoundDivUnique(sales * 10000, qrcodes, 10000); }
  }

  /** Worked values: 25 of 100 is 25.00%, 5 of 10 is 50.00%, 1 of 3 is 33.33%, 2 of 3 is 66.67%, 1 of 8 is 12.50%. */
  lemma ConversionRateExamples()
    ensures ConversionRate(25, 100) == 2500
    ensures ConversionRate(5, 10) == 5000
    ensures ConversionRate(1, 3) == 3333
    ensures ConversionRate(2, 3) == 6667
    ensures ConversionRate(1, 8) == 1250
    ensures ConversionRate(7, 0) == 0
  {
    RoundDivUnique(250000, 100, 2500);
    RoundDivUnique(50000, 10, 5000);
    RoundDivUnique(10000, 3, 3333);
    RoundDivUnique(20000, 3, 6667);
    RoundDivUnique(10000, 8, 1250);
  }
}
