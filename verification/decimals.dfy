/** Scale-2 decimal arithmetic, exactly as `java.math.BigDecimal` does it.

    Every money value is a `BigDecimal` of scale 2 and every commission
    percentage is one of scale 2 as well, so both are modelled as integers:
    an amount in cents, a percentage in hundredths of a percent.
 */
module Decimals {
  import opened Results

  /** An amount of money in cents (a scale-2 `BigDecimal` times 100). */
  type Cents = int

  /** `n / d` rounded to an integer with `RoundingMode.HALF_UP`: to the nearest
      integer, and a tie goes away from zero. */
  function DivHalfUp(n: int, d: int): (q: int)
    requires d > 0
    ensures n >= 0 ==> q >= 0 && 2 * d * q - d <= 2 * n < 2 * d * q + d
    ensures n < 0 ==> q <= 0 && 2 * d * q - d < 2 * n <= 2 * d * q + d
  {
    if n >= 0 then
      DivFloorBounds(2 * n + d, 2 * d);
      (2 * n + d) / (2 * d)
    else
      DivFloorBounds(-2 * n + d, 2 * d);
      -((-2 * n + d) / (2 * d))
  }

  /** Euclidean division of a non-negative numerator brackets it between two multiples. */
  lemma DivFloorBounds(a: int, b: int)
    requires a >= 0 && b > 0
    ensures a / b >= 0
    ensures b * (a / b) <= a < b * (a / b) + b
  {
  }

  /** The HALF_UP rounding is the only integer within half a unit (ties away from zero). */
  lemma HalfUpUnique(n: int, d: int, q: int)
    requires d > 0
    requires n >= 0 ==> 2 * d * q - d <= 2 * n < 2 * d * q + d
    requires n < 0 ==> 2 * d * q - d < 2 * n <= 2 * d * q + d
    ensures q == DivHalfUp(n, d)
  {
    var p := DivHalfUp(n, d);
    if q > p {
      assert 2 * d * q >= 2 * d * p + 2 * d by { MulMonotone(2 * d, q, p + 1); }
    } else if q < p {
      assert 2 * d * p >= 2 * d * q + 2 * d by { MulMonotone(2 * d, p, q + 1); }
    }
  }

  lemma MulMonotone(k: int, a: int, b: int)
    requires k > 0 && a >= b
    ensures k * a >= k * b
  {
  }

  /** Commission of a sale: `amount × percentage / 100`, rounded HALF_UP to two
      decimals, where a missing percentage counts as zero. In cents, with the
      percentage in hundredths, this is `amount · percentage / 10000`. */
  function Commission(amount: Cents, percentage: Option<int>): (c: Cents)
    ensures percentage.None? ==> c == 0
    ensures var p := percentage.GetOr(0);
            amount * p >= 0 ==> 10000 * c - 5000 <= amount * p < 10000 * c + 5000
    ensures amount >= 0 && percentage.GetOr(0) >= 0 ==> c >= 0
  {
    DivHalfUp(amount * percentage.GetOr(0), 10000)
  }

  /** Commission is the one integer number of cents within half a cent of the
      exact product, with ties rounded away from zero. */
  lemma CommissionIsNearestCent(amount: Cents, p: int, c: Cents)
    requires amount * p >= 0
    requires 10000 * c - 5000 <= amount * p < 10000 * c + 5000
    ensures c == Commission(amount, Some(p))
  {
    HalfUpUnique(amount * p, 10000, c);
  }

  /** 1000.00 at 5.00% earns 50.00; 999.99 at 3.33% earns 33.30 (33.2999... rounded). */
  lemma CommissionExamples()
    ensures Commission(100000, Some(500)) == 5000
    ensures Commission(99999, Some(333)) == 3330
    ensures Commission(100000, None) == 0
  {
    CommissionIsNearestCent(100000, 500, 5000);
    CommissionIsNearestCent(99999, 333, 3330);
  }

  /** The dashboard and seller-detail averages: `total / count` rounded HALF_UP to
      two decimals when the count is positive, and zero otherwise, so that no
      division by zero can happen. */
  function Average(total: Cents, count: int): (a: Cents)
    ensures count <= 0 ==> a == 0
    ensures count > 0 && total >= 0 ==> 2 * count * a - count <= 2 * total < 2 * count * a + count
    ensures count > 0 && total < 0 ==> 2 * count * a - count < 2 * total <= 2 * count * a + count
  {
    if count > 0 then DivHalfUp(total, count) else 0
  }
}
