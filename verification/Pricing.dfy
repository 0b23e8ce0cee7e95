/**
 * Amounts of money are integers in hundredths of a dong, the resolution of the
 * NUMERIC(10,2) columns that store them.
 */
module Pricing {
  import opened Sums

  datatype Category = Gas | Water

  const WATER_FEE_PER_UNIT: int := 500000   // 5000 dong

  /** The sale price is charged only when it really is a discount. */
  function EffectivePrice(price: int, sale: Option<int>): int
  {
    match sale
    case Some(s) => if 0 < s < price then s else price
    case None => price
  }

  function FeePerUnit(category: Category): int
  {
    if category == Water then WATER_FEE_PER_UNIT else 0
  }

  function DeliveryFee(category: Category, quantity: int): int
  {
    if category == Water then WATER_FEE_PER_UNIT * quantity else 0
  }

  /** r is an integer nearest to n / d, and the even one when n / d is half-way. */
  predicate RoundsTo(n: int, d: int, r: int)
  {
    && -d <= 2 * (d * r - n) <= d
    && (2 * (d * r - n) == d || 2 * (n - d * r) == d ==> r % 2 == 0)
  }

  /**
   * n / d rounded to an integer, ties to the even neighbour: Python's
   * Decimal.quantize under its default context. `/` and `%` are Euclidean here
   * and d is positive, so the quotient is the floor.
   */
  function HalfEven(n: int, d: int): (r: int)
    requires 0 < d
    ensures RoundsTo(n, d, r)
  {
    var q := n / d;
    var rest := n % d;
    assert n == d * q + rest;
    assert d * (q + 1) == d * q + d;
    if 2 * rest < d then q
    else if 2 * rest > d then q + 1
    else if q % 2 == 0 then q else q + 1
  }

  lemma Scaled(d: int, low: int, high: int)
    requires 0 <= d && low <= high
    ensures d * low <= d * high
    ensures low * d <= high * d
  {
    var k := high - low;
    assert 0 <= d * k;
    assert d * (low + k) == d * low + d * k;
  }

  lemma Apart(d: int, low: int, high: int)
    requires 0 < d && low < high
    ensures d * low + d <= d * high
    ensures high == low + 1 ==> d * high == d * low + d
  {
    assert d * (low + 1) == d * low + d;
    Scaled(d, low + 1, high);
  }

  /** Larger numbers round to larger ones; in particular each number rounds to one integer only. */
  lemma RoundingMonotone(m: int, a: int, n: int, b: int, d: int)
    requires 0 < d && m <= n
    requires RoundsTo(m, d, a) && RoundsTo(n, d, b)
    ensures a <= b
  {
    var x, y := d * a, d * b;
    assert 2 * (x - m) <= d && 2 * (n - y) <= d;
    if b + 1 < a {
      Apart(d, b + 1, a);
      Apart(d, b, b + 1);
    } else if b < a {
      Apart(d, b, a);
    }
  }

  datatype DiscountKind = Percent | Fixed

  /** The fields of a coupon that fix the amount of its discount. */
  datatype DiscountRule = DiscountRule(kind: DiscountKind, value: int, maxDiscount: Option<int>)

  /** A percentage is stored in hundredths too: 100 percent is 10000. */
  const PERCENT_UNIT: int := 10000

  function RawDiscount(rule: DiscountRule, subtotal: int): int
  {
    if rule.kind == Percent then HalfEven(subtotal * rule.value, PERCENT_UNIT) else rule.value
  }

  function ComputeDiscount(rule: DiscountRule, subtotal: int): int
  {
    var raw := RawDiscount(rule, subtotal);
    var capped := if rule.maxDiscount.Some? && raw > rule.maxDiscount.value then rule.maxDiscount.value else raw;
    var limited := if capped > subtotal then subtotal else capped;
    if limited < 0 then 0 else limited
  }

  /** A discount is never negative and never exceeds the subtotal or a (non-negative) cap. */
  lemma DiscountBounds(rule: DiscountRule, subtotal: int)
    requires 0 <= subtotal
    ensures 0 <= ComputeDiscount(rule, subtotal) <= subtotal
    ensures rule.maxDiscount.Some? && 0 <= rule.maxDiscount.value ==>
              ComputeDiscount(rule, subtotal) <= rule.maxDiscount.value
  {
  }

  function OrderTotal(subtotal: int, shipping: int, discount: int): int
  {
    var total := subtotal + shipping - discount;
    if total < 0 then 0 else total
  }

  /** The clamp at zero in the order total never fires. */
  lemma TotalNeverClamped(rule: DiscountRule, subtotal: int, shipping: int)
    requires 0 <= subtotal && 0 <= shipping
    ensures OrderTotal(subtotal, shipping, ComputeDiscount(rule, subtotal))
         == subtotal + shipping - ComputeDiscount(rule, subtotal)
    ensures shipping <= OrderTotal(subtotal, shipping, ComputeDiscount(rule, subtotal)) <= subtotal + shipping
  {
    DiscountBounds(rule, subtotal);
  }

  /** Rounding cannot turn steps of at most one into a larger difference. */
  lemma RoundingGap(s: int, t: int, v: int, d: int, a: int, b: int)
    requires 0 <= v <= d && 0 < d && s <= t
    requires RoundsTo(s * v, d, a) && RoundsTo(t * v, d, b)
    ensures b - a <= t - s
  {
    if v == d {
      Exact(t, d, b);
      Exact(s, d, a);
    } else if s < t {
      var k := t - s;
      assert t * v - s * v == k * v;
      assert k * v < k * d by { Apart(k, v, d); }
      if k < b - a {
        assert d * (a + k) == d * a + k * d;
        Apart(d, a + k, b);
      }
    } else {
      RoundingMonotone(t * v, b, s * v, a, d);
    }
  }

  lemma Exact(s: int, d: int, r: int)
    requires 0 < d && RoundsTo(s * d, d, r)
    ensures r == s
  {
    assert s * d == d * s;
    if r < s {
      Apart(d, r, s);
    } else if s < r {
      Apart(d, s, r);
    }
  }

  /**
   * For every coupon, whatever its value and cap: a larger basket never earns a
   * smaller discount, and never ends up cheaper after the discount.
   */
  lemma DiscountMonotone(rule: DiscountRule, low: int, high: int)
    requires 0 <= low <= high
    ensures ComputeDiscount(rule, low) <= ComputeDiscount(rule, high)
    ensures low - ComputeDiscount(rule, low) <= high - ComputeDiscount(rule, high)
  {
    if rule.kind == Percent {
      PercentMonotone(low, high, rule.value, PERCENT_UNIT, RawDiscount(rule, low), RawDiscount(rule, high));
    }
  }

  /** What a percentage v of d does to two subtotals: never the wrong way, never by more than they differ. */
  lemma PercentMonotone(low: int, high: int, v: int, d: int, a: int, b: int)
    requires 0 <= low <= high && 0 < d
    requires RoundsTo(low * v, d, a) && RoundsTo(high * v, d, b)
    ensures v < 0 ==> a <= 0 && b <= 0
    ensures 0 <= v <= d ==> a <= b && b - a <= high - low
    ensures d < v ==> a <= b && low <= a && high <= b
  {
    if v < 0 {
      NegativePercent(low, v, d, a);
      NegativePercent(high, v, d, b);
    } else {
      Scaled(v, low, high);
      RoundingMonotone(low * v, a, high * v, b, d);
      if v <= d {
        RoundingGap(low, high, v, d, a, b);
      } else {
        OverHundredPercent(low, v, d, a);
        OverHundredPercent(high, v, d, b);
      }
    }
  }

  lemma NegativePercent(s: int, v: int, d: int, r: int)
    requires 0 <= s && v < 0 < d && RoundsTo(s * v, d, r)
    ensures r <= 0
  {
    Scaled(-v, 0, s);
    assert s * v == -(s * -v);
    if 0 < r {
      Apart(d, 0, r);
    }
  }

  lemma OverHundredPercent(s: int, v: int, d: int, r: int)
    requires 0 <= s && 0 < d <= v && RoundsTo(s * v, d, r)
    ensures s <= r
  {
    Scaled(s, d, v);
    assert d * s == s * d;
    RoundingMonotone(s * d, s, s * v, r, d);
  }
}
