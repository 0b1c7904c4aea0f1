/** The discount tier the three billing scripts share
    (Day4/day4-billing-as-per-menu.py, Day4/day4-dyanmic-billing.py,
    Day4/day4-billing-system.py): a match on the hundreds bucket
    total // 100, then final = total - total * rate.  Rates are whole
    percentages and amounts exact reals, so float rounding is not modelled. */
module Discount {

  /** total // 100.  Python floors; for the positive divisor 100 Dafny's
      Euclidean division floors too, negative totals included. */
  function Bucket(total: int): (b: int)
    ensures 100 * b <= total < 100 * b + 100
  {
    total / 100
  }

  /** The rate, in percent, that the bucket match picks. */
  function RatePercent(total: int): nat
  {
    match Bucket(total)
    case 5 | 6 | 7 | 8 | 9 | 10 => 10
    case 3 | 4 => 5
    case _ => 0
  }

  /** The tiers as ranges of the total: ten percent from 500 up to but not
      including 1100, five percent from 300 to 499, nothing otherwise (so
      nothing for negative totals or totals of 1100 and more). */
  lemma RateTiers(total: int)
    ensures RatePercent(total) == 10 <==> 500 <= total < 1100
    ensures RatePercent(total) == 5 <==> 300 <= total < 500
    ensures RatePercent(total) == 0 <==> total < 300 || 1100 <= total
  {
    var b := Bucket(total);
    assert 5 <= b <= 10 <==> 500 <= total < 1100;
    assert 3 <= b <= 4 <==> 300 <= total < 500;
  }

  /** discount_amount = total * rate. */
  function DiscountAmount(total: int): real
  {
    total as real * RatePercent(total) as real / 100.0
  }

  /** final = total - total * rate. */
  function FinalAmount(total: int): real
  {
    total as real - DiscountAmount(total)
  }

  /** For every total, negative ones included, the final amount is the
      total scaled by (100 - rate)%; a negative total gets no discount. */
  lemma FinalAmountScaled(total: int)
    ensures FinalAmount(total) == total as real * (100 - RatePercent(total)) as real / 100.0
    ensures total < 0 ==> DiscountAmount(total) == 0.0 && FinalAmount(total) == total as real
  {
    RateTiers(total);
  }

  /** The final amount is the total scaled by (100 - rate)%, never more
      than the total and never negative for a non-negative total, and a
      discount is never larger than a tenth of the total. */
  lemma FinalAmountBounds(total: int)
    requires total >= 0
    ensures FinalAmount(total) == total as real * (100 - RatePercent(total)) as real / 100.0
    ensures 0.0 <= DiscountAmount(total) <= total as real / 10.0
    ensures 0.0 <= FinalAmount(total) <= total as real
  {
    RateTiers(total);
    FinalAmountScaled(total);
    var t, p := total as real, RatePercent(total) as real;
    assert 0.0 <= p <= 10.0;
    assert 0.0 <= t * p <= t * 10.0 by {
      assert t * p <= t * 10.0 by {
        assert t * (10.0 - p) >= 0.0;
      }
    }
  }

  /** The rule the billing-system docstring describes: ten percent from 500
      up, five percent from 300 up, nothing otherwise. */
  function DocumentedRatePercent(total: int): nat
  {
    if total >= 500 then 10 else if total >= 300 then 5 else 0
  }

  /** The bucket match agrees with the documented rule exactly below 1100;
      from 1100 up the code gives no discount where ten percent is
      documented. */
  lemma DocumentedRuleAgreesBelow1100(total: int)
    ensures RatePercent(total) == DocumentedRatePercent(total) <==> total < 1100
    ensures total >= 1100 ==> RatePercent(total) == 0 && DocumentedRatePercent(total) == 10
  {
    RateTiers(total);
  }
}
