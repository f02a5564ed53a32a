/**
 The money of a group of slots: the coupon discount spread over them, the deposit, the shares the group's
 members are confirmed with, and what a cancellation gives back.
 */
module GroupPrice {
  import opened Prelude
  import opened Money
  import opened Coupon
  import opened BookingRequest

  // ----- spreading the group discount -----

  /** Every slot but the last takes its rounded proportional share, the last takes what is left. */
  function SlotDiscounts(prices: seq<int>, total: int, discount: int): (d: seq<int>)
    ensures |d| == |prices|
  {
    if |prices| > 0 && discount > 0 && total > 0 then
      var shares := Shares(prices[..|prices| - 1], discount, total);
      shares + [discount - Sum(shares)]
    else seq(|prices|, i => 0)
  }

  function SlotFinals(prices: seq<int>, discounts: seq<int>): (f: seq<int>)
    requires |prices| == |discounts|
    ensures |f| == |prices| && forall i :: 0 <= i < |f| ==> f[i] >= 0
  {
    seq(|prices|, i requires 0 <= i < |prices| => Max(0, prices[i] - discounts[i]))
  }

  lemma SlotDiscountAt(prices: seq<int>, total: int, discount: int, i: nat)
    requires i < |prices|
    ensures var d := SlotDiscounts(prices, total, discount);
            d[i] == if discount <= 0 || total <= 0 then 0
                    else if i == |prices| - 1 then discount - Sum(d[..i])
                    else ToFixed(prices[i] * discount, total)
  {
    if discount > 0 && total > 0 {
      var shares := Shares(prices[..|prices| - 1], discount, total);
      assert SlotDiscounts(prices, total, discount)[..|prices| - 1] == shares;
    }
  }

  method AllocateDiscount(prices: seq<int>, total: int, discount: int)
    returns (discounts: seq<int>, finals: seq<int>)
    ensures discounts == SlotDiscounts(prices, total, discount)
    ensures finals == SlotFinals(prices, discounts)
  {
    discounts, finals := [], [];
    ghost var target := SlotDiscounts(prices, total, discount);
    var spread := 0;
    for i := 0 to |prices|
      invariant |discounts| == |finals| == i && discounts == target[..i]
      invariant forall k :: 0 <= k < i ==> finals[k] == Max(0, prices[k] - discounts[k])
      invariant discount > 0 && total > 0 && i < |prices| ==> spread == Sum(discounts)
    {
      SlotDiscountAt(prices, total, discount, i);
      var d := 0;
      if discount > 0 && total > 0 {
        if i == |prices| - 1 {
          d := discount - spread;
        } else {
          d := ToFixed(prices[i] * discount, total);
          SumSnoc(discounts, d);
          spread := spread + d;
        }
      }
      discounts := discounts + [d];
      finals := finals + [Max(0, prices[i] - d)];
    }
  }

  predicate Prices(prices: seq<int>) {
    |prices| > 0 && forall i :: 0 <= i < |prices| ==> prices[i] >= 0
  }

  /** How far n times a slot's discount is from n times its exact share, in hundredths times the total. */
  function Drift(discount: int, share: int, price: int, total: int): int {
    2 * (share * total - price * discount)
  }

  lemma ComplementDrift(s: int, w: int, price: int, total: int, discount: int, bound: int)
    requires total == w + price
    requires -bound <= 2 * (s * total - w * discount) <= bound
    ensures -bound <= Drift(discount, discount - s, price, total) <= bound
  {
    assert (discount - s) * total == discount * total - s * total;
    assert total * discount == w * discount + price * discount;
  }

  lemma LastShareDrift(prices: seq<int>, total: int, discount: nat)
    requires Prices(prices) && total == Sum(prices) && 0 < discount <= total
    ensures var n, d := |prices|, SlotDiscounts(prices, total, discount);
            -((n - 1) * total) <= Drift(discount, d[n - 1], prices[n - 1], total) <= (n - 1) * total
  {
    var n := |prices|;
    var w := prices[..n - 1];
    SharesDrift(w, discount, total);
    ComplementDrift(Sum(Shares(w, discount, total)), Sum(w), prices[n - 1], total, discount, (n - 1) * total);
  }

  /**
   The discounts add up to the group's, every one but the last is its exact share rounded to the nearest
   cent, and the last absorbs at most half a cent for each of the others.
   */
  lemma DiscountSplit(prices: seq<int>, total: int, discount: nat)
    requires Prices(prices) && total == Sum(prices) && 0 < discount <= total
    ensures var n, d := |prices|, SlotDiscounts(prices, total, discount);
            && Sum(d) == discount
            && (forall i :: 0 <= i < n - 1 ==> -total < Drift(discount, d[i], prices[i], total) <= total)
            && (forall i :: 0 <= i < n - 1 ==> 0 <= d[i] <= prices[i])
            && -((n - 1) * total) <= Drift(discount, d[n - 1], prices[n - 1], total) <= (n - 1) * total
  {
    var n, d := |prices|, SlotDiscounts(prices, total, discount);
    var shares := Shares(prices[..n - 1], discount, total);
    SumSnoc(shares, discount - Sum(shares));
    LastShareDrift(prices, total, discount);
    forall i | 0 <= i < n - 1
      ensures -total < Drift(discount, d[i], prices[i], total) <= total && 0 <= d[i] <= prices[i]
    {
      assert d[i] == ToFixed(prices[i] * discount, total);
      NearestShare(prices[i], discount, total);
    }
  }

  lemma NearestShare(price: nat, discount: nat, total: int)
    requires 0 < discount <= total
    ensures -total < Drift(discount, ToFixed(price * discount, total), price, total) <= total
    ensures 0 <= ToFixed(price * discount, total) <= price
  {
    ShareWithinWeight(price, discount, total);
    assert price * discount >= 0;
  }

  /** With one or two slots every discount lies between zero and its slot's price. */
  lemma SmallGroupDiscounts(prices: seq<int>, total: int, discount: nat)
    requires Prices(prices) && total == Sum(prices) && 0 < discount <= total && |prices| <= 2
    ensures forall i :: 0 <= i < |prices| ==> 0 <= SlotDiscounts(prices, total, discount)[i] <= prices[i]
  {
    DiscountSplit(prices, total, discount);
    var n, d := |prices|, SlotDiscounts(prices, total, discount);
    var last, price := d[n - 1], prices[n - 1];
    LastWithin(last, price, discount, total, n - 1);
  }

  lemma MulMonotone(a: int, b: int, t: nat)
    requires a <= b
    ensures a * t <= b * t
  {
    assert (b - a) * t >= 0;
  }

  /** Within k halves of an exact share no larger than the price, a whole number is within k halves of 0..price. */
  lemma LastWithin(last: int, price: nat, discount: nat, total: int, k: int)
    requires k >= 0 && 0 < discount <= total && -(k * total) <= Drift(discount, last, price, total) <= k * total
    ensures -k <= 2 * last <= 2 * price + k
  {
    MulMonotone(discount, total, price);
    assert 0 <= price * discount;
    assert (2 * last) * total == 2 * (last * total);
    assert (2 * price + k + 1) * total == 2 * (price * total) + k * total + total;
    assert (-k - 1) * total == -(k * total) - total;
    if 2 * last > 2 * price + k {
      MulMonotone(2 * price + k + 1, 2 * last, total);
    }
    if 2 * last < -k {
      MulMonotone(2 * last, -k - 1, total);
    }
  }

  function Excess(prices: seq<int>, discounts: seq<int>): int
    requires |prices| == |discounts| && |prices| > 0
  {
    Max(0, discounts[|prices| - 1] - prices[|prices| - 1])
  }

  lemma ClampedSum(prices: seq<int>, d: seq<int>)
    requires |prices| == |d| && |prices| > 0 && prices[|prices| - 1] >= 0
    requires forall i :: 0 <= i < |prices| - 1 ==> d[i] <= prices[i]
    ensures Sum(SlotFinals(prices, d)) == Sum(prices) - Sum(d) + Excess(prices, d)
  {
    var n, f := |prices|, SlotFinals(prices, d);
    var ps, ds, fs := prices[..n - 1], d[..n - 1], f[..n - 1];
    forall k | 0 <= k < n - 1 ensures fs[k] == ps[k] - ds[k] {
      assert f[k] == Max(0, prices[k] - d[k]);
    }
    SumDifference(ps, ds, fs);
    assert f[n - 1] == prices[n - 1] - d[n - 1] + Excess(prices, d);
  }

  lemma FinalsAddUp(prices: seq<int>, total: int, discount: nat)
    requires Prices(prices) && total == Sum(prices) && 0 < discount <= total
    ensures var d := SlotDiscounts(prices, total, discount);
            Sum(SlotFinals(prices, d)) == total - discount + Excess(prices, d)
            && 0 <= 2 * Excess(prices, d) <= |prices| - 1
  {
    DiscountSplit(prices, total, discount);
    var n, d := |prices|, SlotDiscounts(prices, total, discount);
    ClampedSum(prices, d);
    LastWithin(d[n - 1], prices[n - 1], discount, total, n - 1);
  }

  /**
   The members' prices add up to the group's price, but for the cent the coupon's double rounding adds to the
   group price and the amount by which the last discount exceeds its slot's price, which the clamp takes back.
   */
  lemma GroupTotal(kind: CouponKind, discount: nat, prices: seq<int>)
    requires Prices(prices)
    ensures var total := Sum(prices);
            var r := CalculateCouponDiscount(kind, discount, total);
            var d := SlotDiscounts(prices, total, r.discountAmount);
            var raw := RawDiscount(kind, discount, total);
            var drift := Sum(SlotFinals(prices, d)) - r.finalPrice;
            && drift == Excess(prices, d) - (if raw > 0 && raw % UNIT == UNIT / 2 then 1 else 0)
            && -1 <= drift && 2 * drift <= |prices| - 1
  {
    SumNonNegative(prices);
    var total := Sum(prices);
    var r, raw := CalculateCouponDiscount(kind, discount, total), RawDiscount(kind, discount, total);
    CouponRounding(kind, discount, total);
    GroupTotalFrom(prices, r.discountAmount, r.finalPrice, if raw > 0 && raw % UNIT == UNIT / 2 then 1 else 0);
  }

  lemma GroupTotalFrom(prices: seq<int>, discountAmount: nat, finalPrice: int, extra: int)
    requires Prices(prices) && discountAmount <= Sum(prices)
    requires 0 <= extra <= 1 && discountAmount + finalPrice == Sum(prices) + extra
    ensures var d := SlotDiscounts(prices, Sum(prices), discountAmount);
            var drift := Sum(SlotFinals(prices, d)) - finalPrice;
            && drift == Excess(prices, d) - extra
            && -1 <= drift && 2 * drift <= |prices| - 1
  {
    if discountAmount > 0 {
      FinalsAddUp(prices, Sum(prices), discountAmount);
    } else {
      assert SlotFinals(prices, SlotDiscounts(prices, Sum(prices), discountAmount)) == prices;
    }
  }

  // ----- exactly when the last slot is out of bounds -----

  /** What rounding adds to a share, counted in hundredths times the total: read off the remainder of the exact share. */
  function Gain(price: int, discount: int, total: int): int
    requires total > 0
  {
    var m := (price * discount) % total;
    if 2 * m >= total then total - m else -m
  }

  function Gains(prices: seq<int>, discount: int, total: int): (g: seq<int>)
    requires total > 0
    ensures |g| == |prices|
  {
    seq(|prices|, i requires 0 <= i < |prices| => Gain(prices[i], discount, total))
  }

  lemma GainIsRounding(price: nat, discount: nat, total: int)
    requires total > 0
    ensures ToFixed(price * discount, total) * total == price * discount + Gain(price, discount, total)
    ensures -total < 2 * Gain(price, discount, total) <= total
  {
    var x := price * discount;
    assert x >= 0;
    var q, m := x / total, x % total;
    assert x == q * total + m;
    var r := if 2 * m >= total then q + 1 else q;
    assert (q + 1) * total == q * total + total;
    ToFixedUnique(x, total, r);
  }

  lemma {:induction false} SharesGain(weights: seq<int>, discount: nat, total: int)
    requires total > 0 && forall i :: 0 <= i < |weights| ==> weights[i] >= 0
    ensures Sum(Shares(weights, discount, total)) * total == Sum(weights) * discount + Sum(Gains(weights, discount, total))
    ensures |weights| > 0 ==> -(|weights| * total) < 2 * Sum(Gains(weights, discount, total)) <= |weights| * total
    ensures |weights| == 0 ==> Sum(Gains(weights, discount, total)) == 0
  {
    if |weights| > 0 {
      var n := |weights| - 1;
      var w, s, g := weights[..n], Shares(weights, discount, total), Gains(weights, discount, total);
      SharesGain(w, discount, total);
      assert s[..n] == Shares(w, discount, total) && g[..n] == Gains(w, discount, total);
      GainIsRounding(weights[n], discount, total);
      GainsAddUp(Sum(s[..n]), s[n], Sum(w), weights[n], Sum(g[..n]), g[n], discount, total, n);
    }
  }

  lemma GainsAddUp(s: int, x: int, w: int, y: int, g: int, h: int, discount: int, total: int, n: nat)
    requires s * total == w * discount + g && x * total == y * discount + h
    ensures (s + x) * total == (w + y) * discount + (g + h)
    ensures (n + 1) * total == n * total + total
  {
    assert (s + x) * total == s * total + x * total;
    assert (w + y) * discount == w * discount + y * discount;
  }

  /** What the slots before the last have gained together. */
  function OthersGain(prices: seq<int>, discount: int, total: int): int
    requires |prices| > 0 && total > 0
  {
    Sum(Gains(prices[..|prices| - 1], discount, total))
  }

  lemma LastSlotExact(prices: seq<int>, total: int, discount: nat)
    requires Prices(prices) && total == Sum(prices) && 0 < discount <= total
    ensures var n := |prices|;
            SlotDiscounts(prices, total, discount)[n - 1] * total == prices[n - 1] * discount - OthersGain(prices, discount, total)
  {
    var n := |prices|;
    var w := prices[..n - 1];
    SharesGain(w, discount, total);
    LastExact(Sum(Shares(w, discount, total)), Sum(w), prices[n - 1], OthersGain(prices, discount, total), discount, total);
  }

  lemma LastExact(s: int, w: int, price: int, g: int, discount: int, total: int)
    requires total == w + price && s * total == w * discount + g
    ensures (discount - s) * total == price * discount - g
  {
    assert (discount - s) * total == discount * total - s * total;
    assert total * discount == w * discount + price * discount;
  }

  lemma SignOfProduct(x: int, t: int)
    requires t > 0
    ensures x < 0 <==> x * t < 0
    ensures x > 0 <==> x * t > 0
  {
    if x > 0 {
      MulMonotone(1, x, t);
    } else if x < 0 {
      MulMonotone(x, -1, t);
    }
  }

  /**
   The one slot that can be out of bounds is the last. Its discount is negative if and only if the other slots have
   gained more by rounding than its exact share, and above its price if and only if they have lost more than what
   its exact share leaves of the price.
   */
  lemma LastSlotOutOfBoundsIff(prices: seq<int>, total: int, discount: nat)
    requires Prices(prices) && total == Sum(prices) && 0 < discount <= total
    ensures var n, d := |prices|, SlotDiscounts(prices, total, discount);
            && (forall i :: 0 <= i < n - 1 ==> 0 <= d[i] <= prices[i])
            && (d[n - 1] < 0 <==> OthersGain(prices, discount, total) > prices[n - 1] * discount)
            && (d[n - 1] > prices[n - 1] <==> -OthersGain(prices, discount, total) > prices[n - 1] * (total - discount))
  {
    var n, d := |prices|, SlotDiscounts(prices, total, discount);
    forall i | 0 <= i < n - 1 ensures 0 <= d[i] <= prices[i] {
      ShareWithinPrice(prices, total, discount, i);
    }
    LastSlotExact(prices, total, discount);
    SidesOf(d[n - 1], prices[n - 1], discount, total, OthersGain(prices, discount, total));
  }

  lemma SidesOf(last: int, price: nat, discount: nat, total: int, gain: int)
    requires total > 0 && last * total == price * discount - gain
    ensures last < 0 <==> gain > price * discount
    ensures last > price <==> -gain > price * (total - discount)
  {
    SignOfProduct(last, total);
    SignOfProduct(last - price, total);
    assert (last - price) * total == last * total - price * total;
    assert price * (total - discount) == price * total - price * discount;
  }

  /** No discount is negative before there are three slots, and none above its price before there are four. */
  lemma OutOfBoundsOnlyFrom(prices: seq<int>, total: int, discount: nat)
    requires Prices(prices) && total == Sum(prices) && 0 < discount <= total
    ensures var n, d := |prices|, SlotDiscounts(prices, total, discount);
            && (d[n - 1] < 0 ==> n >= 3)
            && (d[n - 1] > prices[n - 1] ==> n >= 4)
  {
    var n, d := |prices|, SlotDiscounts(prices, total, discount);
    var gain, price := OthersGain(prices, discount, total), prices[n - 1];
    SharesGain(prices[..n - 1], discount, total);
    LastSlotExact(prices, total, discount);
    BoundsFrom(d[n - 1], price, discount, total, gain, n - 1);
  }

  lemma BoundsFrom(last: int, price: nat, discount: nat, total: int, gain: int, k: nat)
    requires 0 < discount <= total && last * total == price * discount - gain
    requires k > 0 ==> -(k * total) < 2 * gain <= k * total
    requires k == 0 ==> gain == 0
    ensures last < 0 ==> k >= 2
    ensures last > price ==> k >= 3
  {
    assert price * discount >= 0 && price * (total - discount) >= 0;
    assert price * (total - discount) == price * total - price * discount;
    if last < 0 {
      MulMonotone(last, -1, total);
    }
    if last > price {
      MulMonotone(price + 1, last, total);
      assert (price + 1) * total == price * total + total;
    }
  }

  /** Any number of free slots in front. */
  function FreeSlots(m: nat): (s: seq<int>)
    ensures |s| == m && forall i :: 0 <= i < m ==> s[i] == 0
  {
    seq(m, i => 0)
  }

  lemma {:induction false} FreeInFront(m: nat, s: seq<int>)
    ensures Sum(FreeSlots(m) + s) == Sum(s)
  {
    if |s| == 0 {
      assert FreeSlots(m) + s == FreeSlots(m);
      SumOfFree(m);
    } else {
      FreeInFront(m, s[..|s| - 1]);
      assert (FreeSlots(m) + s)[..m + |s| - 1] == FreeSlots(m) + s[..|s| - 1];
    }
  }

  lemma {:induction false} SumOfFree(m: nat)
    ensures Sum(FreeSlots(m)) == 0
  {
    if m > 0 {
      SumOfFree(m - 1);
      assert FreeSlots(m)[..m - 1] == FreeSlots(m - 1);
    }
  }

  lemma SumOfFew(a: int, b: int, c: int)
    ensures Sum([a, b]) == a + b && Sum([a, b, c]) == a + b + c
  {
    SumSnoc([], a);
    SumSnoc([a], b);
    SumSnoc([a, b], c);
    assert [] + [a] == [a] && [a] + [b] == [a, b] && [a, b] + [c] == [a, b, c];
  }

  lemma SharesBehindFree(m: nat, few: seq<int>, shares: seq<int>, discount: nat, total: int)
    requires total > 0 && |shares| == |few| && forall i :: 0 <= i < |few| ==> shares[i] == ToFixed(few[i] * discount, total)
    ensures Sum(Shares(FreeSlots(m) + few, discount, total)) == Sum(shares)
  {
    ToFixedWhole(0, total);
    assert Shares(FreeSlots(m) + few, discount, total) == FreeSlots(m) + shares;
    FreeInFront(m, shares);
  }

  lemma LastBehindFree(m: nat, few: seq<int>, last: int, discount: nat, total: int)
    requires total > 0 && discount > 0
    ensures var prices := FreeSlots(m) + few + [last];
            SlotDiscounts(prices, total, discount)[|prices| - 1] == discount - Sum(Shares(FreeSlots(m) + few, discount, total))
  {
    var prices := FreeSlots(m) + few + [last];
    assert prices[..|prices| - 1] == FreeSlots(m) + few;
  }

  /** With three slots or more a free last slot can end up costing a cent: its discount is minus one cent. */
  lemma NegativeFromThree(m: nat)
    ensures var prices := FreeSlots(m) + [100, 100] + [0];
            var d := SlotDiscounts(prices, 200, 101);
            |prices| == m + 3 && Sum(prices) == 200 && d[m + 2] == -1 && SlotFinals(prices, d)[m + 2] == 1
  {
    ToFixedUnique(10100, 200, 51);
    SharesBehindFree(m, [100, 100], [51, 51], 101, 200);
    LastBehindFree(m, [100, 100], 0, 101, 200);
    SumOfFew(51, 51, 0);
    SumOfFew(100, 100, 0);
    FreeInFront(m, [100, 100, 0]);
    assert FreeSlots(m) + [100, 100] + [0] == FreeSlots(m) + [100, 100, 0];
  }

  /** With four slots or more the last discount can exceed its price, and the group then sums to a cent too much. */
  lemma AbovePriceFromFour(m: nat)
    ensures var prices := FreeSlots(m) + [100, 100, 100] + [0];
            var d := SlotDiscounts(prices, 300, 298);
            |prices| == m + 4 && Sum(prices) == 300 && d[m + 3] == 1 && Sum(SlotFinals(prices, d)) == 300 - 298 + 1
  {
    var prices := FreeSlots(m) + [100, 100, 100] + [0];
    ToFixedUnique(29800, 300, 99);
    SharesBehindFree(m, [100, 100, 100], [99, 99, 99], 298, 300);
    LastBehindFree(m, [100, 100, 100], 0, 298, 300);
    SumOfFew(99, 99, 99);
    SumOfFew(100, 100, 100);
    FreeInFront(m, [100, 100, 100]);
    SumSnoc(FreeSlots(m) + [100, 100, 100], 0);
    FinalsAddUp(prices, 300, 298);
  }

  lemma NonLastFinalWithin(price: nat, discount: nat, total: int)
    requires 0 < discount <= total && price <= total
    ensures Max(0, price - ToFixed(price * discount, total)) <= total - discount
  {
    NearestShare(price, discount, total);
    NonLastWithinGroup(ToFixed(price * discount, total), price, discount, total);
  }

  lemma ShareWithinPrice(prices: seq<int>, total: int, discount: nat, k: nat)
    requires Prices(prices) && 0 < discount <= total && k < |prices| - 1
    ensures 0 <= SlotDiscounts(prices, total, discount)[k] <= prices[k]
  {
    SlotDiscountAt(prices, total, discount, k);
    NearestShare(prices[k], discount, total);
  }

  lemma RestBoundsLast(prices: seq<int>, d: seq<int>, discount: int)
    requires |d| == |prices| > 0 && discount <= Sum(prices)
    requires d[|d| - 1] == discount - Sum(d[..|d| - 1])
    requires forall k :: 0 <= k < |d| - 1 ==> d[k] <= prices[k]
    ensures Max(0, prices[|d| - 1] - d[|d| - 1]) <= Sum(prices) - discount
  {
    SumMonotone(d[..|d| - 1], prices[..|d| - 1]);
  }

  lemma LastFinalWithin(prices: seq<int>, total: int, discount: nat)
    requires Prices(prices) && total == Sum(prices) && 0 < discount <= total
    ensures SlotFinals(prices, SlotDiscounts(prices, total, discount))[|prices| - 1] <= total - discount
  {
    SlotDiscountAt(prices, total, discount, |prices| - 1);
    forall k | 0 <= k < |prices| - 1 ensures SlotDiscounts(prices, total, discount)[k] <= prices[k] {
      ShareWithinPrice(prices, total, discount, k);
    }
    RestBoundsLast(prices, SlotDiscounts(prices, total, discount), discount);
  }

  lemma FinalWithinRest(prices: seq<int>, total: int, discount: nat, i: nat)
    requires Prices(prices) && total == Sum(prices) && discount <= total && i < |prices|
    ensures SlotFinals(prices, SlotDiscounts(prices, total, discount))[i] <= total - discount
  {
    SumMember(prices, i);
    if discount > 0 {
      SlotDiscountAt(prices, total, discount, i);
      if i < |prices| - 1 {
        NonLastFinalWithin(prices[i], discount, total);
      } else {
        LastFinalWithin(prices, total, discount);
      }
    }
  }

  /** No member is ever priced above its group, so paying the group's price settles every one of them. */
  lemma MemberWithinGroup(kind: CouponKind, discount: nat, prices: seq<int>, i: nat)
    requires Prices(prices) && i < |prices|
    ensures var r := CalculateCouponDiscount(kind, discount, Sum(prices));
            SlotFinals(prices, SlotDiscounts(prices, Sum(prices), r.discountAmount))[i] <= r.finalPrice
  {
    SumNonNegative(prices);
    var total := Sum(prices);
    var r := CalculateCouponDiscount(kind, discount, total);
    assert r.discountAmount + r.finalPrice >= total by {
      CouponRounding(kind, discount, total);
    }
    FinalWithinRest(prices, total, r.discountAmount, i);
  }

  lemma NonLastWithinGroup(share: int, price: nat, discount: nat, total: int)
    requires 0 < discount <= total && price <= total
    requires -total < Drift(discount, share, price, total)
    ensures price - share <= total - discount
  {
    var over := share - (price - total + discount);
    assert (total - price) * (total - discount) >= 0;
    assert (total - price) * (total - discount) == total * total - total * discount - price * total + price * discount;
    assert over * total == share * total - price * total + total * total - discount * total;
    if over < 0 {
      MulMonotone(over, -1, total);
    }
  }

  // ----- deposit and remainder -----

  datatype AmountError = BelowMinimumDeposit | AboveTotal

  datatype AmountDue = AmountDue(amount: int, isDeposit: bool)

  function MinRequired(slots: nat, minimumDeposit: nat, groupFinal: int): int {
    if minimumDeposit > 0 then Min(slots * minimumDeposit, groupFinal) else groupFinal
  }

  /** What is charged now: an amount the customer chose, else the deposit if the venue asks for one, else all. */
  function ChargeNow(slots: nat, minimumDeposit: nat, groupFinal: int, customAmount: Option<int>)
    : (r: Result<AmountDue, AmountError>)
    ensures groupFinal >= 0 && r.Ok? ==>
              && MinRequired(slots, minimumDeposit, groupFinal) <= r.value.amount <= groupFinal
              && (r.value.isDeposit <==> r.value.amount < groupFinal)
              && r.value.amount >= 0
    ensures r.Err? <==> customAmount.Some? && customAmount.value > 0
                        && !(MinRequired(slots, minimumDeposit, groupFinal) <= customAmount.value <= groupFinal)
  {
    var least := MinRequired(slots, minimumDeposit, groupFinal);
    if customAmount.Some? && customAmount.value > 0 then
      if customAmount.value < least then Err(BelowMinimumDeposit)
      else if customAmount.value > groupFinal then Err(AboveTotal)
      else Ok(AmountDue(customAmount.value, customAmount.value < groupFinal))
    else if minimumDeposit > 0 then Ok(AmountDue(least, least < groupFinal))
    else Ok(AmountDue(groupFinal, false))
  }

  /**
   What is charged, in the venue's terms: a chosen amount must not be below the price, nor below the deposit if one is
   asked for, and not above the price; without one, the deposit is charged if it is less than the price, or else all.
   */
  lemma WhatIsCharged(slots: nat, minimumDeposit: nat, groupFinal: nat, customAmount: Option<int>)
    ensures var r := ChargeNow(slots, minimumDeposit, groupFinal, customAmount);
            if customAmount.Some? && customAmount.value > 0 then
              var a := customAmount.value;
              if a < groupFinal && (minimumDeposit == 0 || a < slots * minimumDeposit) then r == Err(BelowMinimumDeposit)
              else if a > groupFinal then r == Err(AboveTotal)
              else r == Ok(AmountDue(a, a < groupFinal))
            else if minimumDeposit > 0 && slots * minimumDeposit < groupFinal then r == Ok(AmountDue(slots * minimumDeposit, true))
            else r == Ok(AmountDue(groupFinal, false))
  {
  }

  datatype Share = Share(paid: int, remaining: int, status: PaymentStatus)

  /** What a member of the group is confirmed with. */
  function ConfirmedShare(final: int, currentPaid: int, amount: int, groupFinal: nat, isDeposit: bool): Share {
    var total := if groupFinal == 0 then 1 else groupFinal;
    var paid := if isDeposit then ToFixed(final * amount, total) else Min(final, currentPaid + amount);
    var remaining := Max(0, final - paid);
    Share(paid, remaining, if remaining == 0 then Paid else if isDeposit then PartiallyPaid else Paid)
  }

  function Paids(finals: seq<int>, amount: nat, groupFinal: nat): (p: seq<int>)
    requires groupFinal > 0
    ensures |p| == |finals|
  {
    Shares(finals, amount, groupFinal)
  }

  function Remainings(finals: seq<int>, amount: nat, groupFinal: nat): (p: seq<int>)
    requires groupFinal > 0
    ensures |p| == |finals|
  {
    seq(|finals|, i requires 0 <= i < |finals| => ConfirmedShare(finals[i], 0, amount, groupFinal, true).remaining)
  }

  /** Each deposit share is within its member's price and together they drift half a cent a member at most. */
  lemma DepositSplit(finals: seq<int>, amount: nat, groupFinal: nat)
    requires Prices(finals) && amount < groupFinal
    ensures forall i :: 0 <= i < |finals| ==>
              var s := ConfirmedShare(finals[i], 0, amount, groupFinal, true);
              && s.paid == Paids(finals, amount, groupFinal)[i]
              && 0 <= s.paid <= finals[i] && s.paid + s.remaining == finals[i]
              && s.status == if s.remaining == 0 then Paid else PartiallyPaid
    ensures -(|finals| * groupFinal)
            <= 2 * (Sum(Paids(finals, amount, groupFinal)) * groupFinal - Sum(finals) * amount)
            <= |finals| * groupFinal
  {
    forall i | 0 <= i < |finals|
      ensures 0 <= ToFixed(finals[i] * amount, groupFinal) <= finals[i]
    {
      ShareWithinWeight(finals[i], amount, groupFinal);
    }
    SharesDrift(finals, amount, groupFinal);
  }

  lemma DivideOut(x: int, bound: int, t: int)
    requires t > 0 && -(bound * t) <= 2 * (x * t) <= bound * t
    ensures -bound <= 2 * x <= bound
  {
    assert (2 * x) * t == 2 * (x * t);
    assert (bound + 1) * t == bound * t + t;
    assert (-bound - 1) * t == -(bound * t) - t;
    if 2 * x > bound {
      MulMonotone(bound + 1, 2 * x, t);
    }
    if 2 * x < -bound {
      MulMonotone(2 * x, -bound - 1, t);
    }
  }

  /** Paying what is left of the group brings a member up to its price, whatever share it had paid. */
  lemma RemainderSettlesMember(finals: seq<int>, amount: nat, i: nat)
    requires Prices(finals) && amount < Sum(finals) && i < |finals|
    ensures var group := Sum(finals);
            ConfirmedShare(finals[i], Paids(finals, amount, group)[i], Sum(Remainings(finals, amount, group)), group, false)
            == Share(finals[i], 0, Paid)
  {
    DepositSplit(finals, amount, Sum(finals));
    SumMember(Remainings(finals, amount, Sum(finals)), i);
  }

  lemma DepositDrift(finals: seq<int>, amount: nat)
    requires Prices(finals) && amount < Sum(finals)
    ensures var paids := Paids(finals, amount, Sum(finals));
            -|finals| <= 2 * (Sum(paids) - amount) <= |finals|
  {
    var group := Sum(finals);
    SharesDrift(finals, amount, group);
    DriftOfWhole(Sum(Paids(finals, amount, group)), amount, |finals|, group);
  }

  lemma DriftOfWhole(paid: int, amount: int, n: int, group: int)
    requires group > 0 && -(n * group) <= 2 * (paid * group - group * amount) <= n * group
    ensures -n <= 2 * (paid - amount) <= n
  {
    assert paid * group - group * amount == (paid - amount) * group;
    DivideOut(paid - amount, n, group);
  }

  /**
   A deposit and then the remainder: the second payment leaves every member fully paid, and what was charged
   altogether is the group's price to half a cent a member.
   */
  lemma DepositThenRemainder(finals: seq<int>, amount: nat)
    requires Prices(finals) && amount < Sum(finals)
    ensures var group := Sum(finals);
            var paids, remainder := Paids(finals, amount, group), Sum(Remainings(finals, amount, group));
            && (forall i :: 0 <= i < |finals| ==>
                  ConfirmedShare(finals[i], paids[i], remainder, group, false) == Share(finals[i], 0, Paid))
            && -|finals| <= 2 * (Sum(paids) - amount) <= |finals|
            && -|finals| <= 2 * (amount + remainder - group) <= |finals|
  {
    var group := Sum(finals);
    var paids, rest := Paids(finals, amount, group), Remainings(finals, amount, group);
    forall i | 0 <= i < |finals|
      ensures ConfirmedShare(finals[i], paids[i], Sum(rest), group, false) == Share(finals[i], 0, Paid)
    {
      RemainderSettlesMember(finals, amount, i);
    }
    DepositDrift(finals, amount);
    DepositSplit(finals, amount, group);
    SumDifference(finals, paids, rest);
  }

  // ----- refunds -----

  predicate WasPaid(status: PaymentStatus) {
    status.Paid? || status.PartiallyPaid?
  }

  /** A paid booking whose recorded amount is zero is taken to have paid its whole price. */
  function ActualPaid(status: PaymentStatus, paid: int, final: int): int {
    if paid > 0 then paid else if WasPaid(status) then final else 0
  }

  function CancellationRefund(status: PaymentStatus, paid: int, final: int): int {
    if WasPaid(status) && ActualPaid(status, paid, final) > 0 then ActualPaid(status, paid, final) else 0
  }

  /** A member confirmed with a share gets that share back exactly unless the share rounded to zero. */
  lemma CancellationReturnsShare(final: nat, amount: nat, groupFinal: nat, isDeposit: bool)
    requires groupFinal > 0 && amount <= groupFinal && (isDeposit <==> amount < groupFinal) && final <= groupFinal
    ensures var s := ConfirmedShare(final, 0, amount, groupFinal, isDeposit);
            CancellationRefund(s.status, s.paid, final) == s.paid <==> !(s.paid == 0 && final > 0)
  {
    ShareWithinWeight(final, amount, groupFinal);
  }

  /** The tiers of a suspension: nothing within three hours of the start, half within a day, all of it before that. */
  predicate TierRefund(actualPaid: int, msUntilStart: int, refund: int) {
    && refund % 100 == 0
    && (msUntilStart < 10_800_000 ==> refund == 0)
    && (10_800_000 <= msUntilStart < 86_400_000 ==> -100 < 2 * refund - actualPaid <= 100)
    && (86_400_000 <= msUntilStart ==> -50 < refund - actualPaid <= 50)
  }

  lemma SuspensionTiers(actualPaid: nat, msUntilStart: int)
    ensures TierRefund(actualPaid, msUntilStart, SuspensionRefund(actualPaid, msUntilStart))
  {
    var r := SuspensionRefund(actualPaid, msUntilStart) / 100;
    assert SuspensionRefund(actualPaid, msUntilStart) == 100 * r;
  }

  function RefundPercentage(msUntilStart: int): int {
    if msUntilStart < 3 * HOUR then 0 else if msUntilStart < 24 * HOUR then 50 else 100
  }

  /** Math.round works on whole EGP, so the refund of a suspended user's booking does too. */
  function SuspensionRefund(actualPaid: nat, msUntilStart: int): (r: int)
    ensures r >= 0 && r % 100 == 0
    ensures -5000 < 100 * r - actualPaid * RefundPercentage(msUntilStart) <= 5000
  {
    100 * ToFixed(actualPaid * RefundPercentage(msUntilStart), 10000)
  }
}
