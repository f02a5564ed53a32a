/** Coupon arithmetic: calculateCouponDiscount. */
module Coupon {
  import opened Money

  datatype CouponKind = Percentage | Fixed

  datatype CouponDiscount = CouponDiscount(discountAmount: int, finalPrice: int)

  function Min(a: int, b: int): int { if a <= b then a else b }

  function Max(a: int, b: int): int { if a >= b then a else b }

  /** Fractions of a hundredth are counted in ten-thousandths: a percentage has two decimals itself. */
  const UNIT := 10000

  /** The discount before rounding, in ten-thousandths of a hundredth, never above the amount. */
  function RawDiscount(kind: CouponKind, discount: int, bookingAmount: int): int {
    Min(if kind.Percentage? then bookingAmount * discount else discount * UNIT, bookingAmount * UNIT)
  }

  /** `discount` is the coupon's number in hundredths: of a percent, or of an EGP. */
  function CalculateCouponDiscount(kind: CouponKind, discount: int, bookingAmount: int): (r: CouponDiscount)
    ensures bookingAmount >= 0 ==> 0 <= r.finalPrice
    ensures bookingAmount >= 0 && discount >= 0 ==> 0 <= r.discountAmount <= bookingAmount && r.finalPrice <= bookingAmount
  {
    var raw := RawDiscount(kind, discount, bookingAmount);
    assert bookingAmount >= 0 && discount >= 0 ==> bookingAmount * discount >= 0;
    CouponDiscount(ToFixed(raw, UNIT), ToFixed(Max(0, bookingAmount * UNIT - raw), UNIT))
  }

  /**
   What a coupon takes off: a percentage of the amount to half a cent, all of it from a hundred percent on; a fixed
   number of hundredths, or all of the amount if that is less. The price is what the exact discount leaves, to half a cent.
   */
  lemma CouponTakesOff(kind: CouponKind, discount: nat, bookingAmount: nat)
    ensures var r := CalculateCouponDiscount(kind, discount, bookingAmount);
            match kind
            case Percentage =>
              if discount >= 10000 then r == CouponDiscount(bookingAmount, 0)
              else
                && -5000 < 10000 * r.discountAmount - bookingAmount * discount <= 5000
                && -5000 < 10000 * r.finalPrice - bookingAmount * (10000 - discount) <= 5000
            case Fixed =>
              r == if discount >= bookingAmount then CouponDiscount(bookingAmount, 0)
                   else CouponDiscount(discount, bookingAmount - discount)
  {
    if kind.Percentage? {
      PercentageTakesOff(discount, bookingAmount);
    } else {
      ToFixedWhole(if discount >= bookingAmount then bookingAmount else discount, UNIT);
      ToFixedWhole(if discount >= bookingAmount then 0 else bookingAmount - discount, UNIT);
    }
  }

  lemma PercentageTakesOff(discount: nat, bookingAmount: nat)
    ensures var r := CalculateCouponDiscount(Percentage, discount, bookingAmount);
            if discount >= 10000 then r == CouponDiscount(bookingAmount, 0)
            else
              && -5000 < 10000 * r.discountAmount - bookingAmount * discount <= 5000
              && -5000 < 10000 * r.finalPrice - bookingAmount * (10000 - discount) <= 5000
  {
    var off := bookingAmount * discount;
    OffAndLeft(bookingAmount, discount);
    RoundedParts(off, bookingAmount);
  }

  lemma OffAndLeft(amount: nat, discount: nat)
    ensures amount * discount >= 0 && amount * (10000 - discount) == amount * 10000 - amount * discount
    ensures if discount >= 10000 then amount * discount >= amount * 10000 else amount * discount <= amount * 10000
  {
    assert amount * (10000 - discount) == amount * 10000 - amount * discount;
    if discount >= 10000 {
      assert amount * (discount - 10000) >= 0;
      assert amount * (discount - 10000) == amount * discount - amount * 10000;
    } else {
      assert amount * (10000 - discount) >= 0;
    }
  }

  lemma RoundedParts(off: nat, amount: nat)
    ensures var raw := Min(off, amount * UNIT);
            var d, f := ToFixed(raw, UNIT), ToFixed(Max(0, amount * UNIT - raw), UNIT);
            && (off >= amount * UNIT ==> d == amount && f == 0)
            && (off <= amount * UNIT ==> -5000 < 10000 * d - off <= 5000 && -5000 < 10000 * f - (amount * UNIT - off) <= 5000)
  {
    ToFixedWhole(amount, UNIT);
    ToFixedWhole(0, UNIT);
  }

  /** The two roundings create a cent exactly when the unrounded discount is positive and ends in half a cent. */
  lemma CouponRounding(kind: CouponKind, discount: int, bookingAmount: nat)
    ensures var r := CalculateCouponDiscount(kind, discount, bookingAmount);
            var raw := RawDiscount(kind, discount, bookingAmount);
            r.discountAmount + r.finalPrice
            == bookingAmount + if raw > 0 && raw % UNIT == UNIT / 2 then 1 else 0
  {
    var raw := RawDiscount(kind, discount, bookingAmount);
    var q, m := raw / UNIT, raw % UNIT;
    assert raw == q * UNIT + m;
  }
}
