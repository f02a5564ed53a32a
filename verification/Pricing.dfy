/** The hourly price lookup of createBooking. */
module Pricing {
  import opened Prelude
  import opened BookingRequest
  import opened Money

  /** A rule whose price is not a number at all is None. */
  datatype DateRule = DateRule(day: int, startHour: int, endHour: int, pricePerHour: Option<int>)

  datatype HourRule = HourRule(hour: int, pricePerHour: Option<int>)

  datatype Venue = Venue(customDatePrices: seq<DateRule>, customHourPrices: seq<HourRule>, defaultHourPrice: nat,
                         startWorkingHours: int, endWorkingHours: int, minimumDepositAmount: nat, isActive: bool)

  predicate DateRuleMatches(r: DateRule, day: int, hour: int) {
    r.day == day && r.startHour <= hour < r.endHour
  }

  predicate Usable(price: Option<int>) {
    price.Some? && price.value >= 0
  }

  /** The price of the first matching rule, if that rule has a usable one; later rules are not consulted. */
  ghost predicate IsDatePrice(rules: seq<DateRule>, day: int, hour: int, price: Option<int>) {
    if exists i :: 0 <= i < |rules| && DateRuleMatches(rules[i], day, hour) then
      exists i :: 0 <= i < |rules| && DateRuleMatches(rules[i], day, hour)
                  && (forall j :: 0 <= j < i ==> !DateRuleMatches(rules[j], day, hour))
                  && price == if Usable(rules[i].pricePerHour) then rules[i].pricePerHour else None
    else price == None
  }

  function DatePrice(rules: seq<DateRule>, day: int, hour: int): (price: Option<int>)
    ensures price.Some? ==> price.value >= 0
  {
    if |rules| == 0 then None
    else if DateRuleMatches(rules[0], day, hour) then
      if Usable(rules[0].pricePerHour) then rules[0].pricePerHour else None
    else DatePrice(rules[1..], day, hour)
  }

  lemma {:induction false} FirstMatchingDateRule(rules: seq<DateRule>, day: int, hour: int)
    ensures IsDatePrice(rules, day, hour, DatePrice(rules, day, hour))
  {
    if |rules| > 0 && !DateRuleMatches(rules[0], day, hour) {
      FirstMatchingDateRule(rules[1..], day, hour);
      assert forall i :: 0 <= i < |rules[1..]| ==> rules[1..][i] == rules[i + 1];
      assert forall i :: 0 < i < |rules| ==> rules[i] == rules[1..][i - 1];
    }
  }

  function HourRulePrice(rules: seq<HourRule>, hour: int): (price: Option<int>)
    ensures price.Some? ==> price.value >= 0
  {
    if |rules| == 0 then None
    else if rules[0].hour == hour then if Usable(rules[0].pricePerHour) then rules[0].pricePerHour else None
    else HourRulePrice(rules[1..], hour)
  }

  /** Likewise for the recurring rules: the first one of the hour decides, usable or not. */
  lemma {:induction false} FirstMatchingHourRule(rules: seq<HourRule>, hour: int)
    ensures if exists i :: 0 <= i < |rules| && rules[i].hour == hour then
              exists i :: 0 <= i < |rules| && rules[i].hour == hour && (forall j :: 0 <= j < i ==> rules[j].hour != hour)
                          && HourRulePrice(rules, hour) == if Usable(rules[i].pricePerHour) then rules[i].pricePerHour else None
            else HourRulePrice(rules, hour) == None
  {
    if |rules| > 0 && rules[0].hour != hour {
      FirstMatchingHourRule(rules[1..], hour);
      assert forall i :: 0 <= i < |rules[1..]| ==> rules[1..][i] == rules[i + 1];
      assert forall i :: 0 < i < |rules| ==> rules[i] == rules[1..][i - 1];
    }
  }

  /** Date rule before hour rule before default. */
  function HourPrice(venue: Venue, day: int, hour: int): nat {
    match DatePrice(venue.customDatePrices, day, hour)
    case Some(p) => p
    case None =>
      match HourRulePrice(venue.customHourPrices, hour)
      case Some(p) => p
      case None => venue.defaultHourPrice
  }

  /** The i-th date rule is the first that names the day and whose hours include this one. */
  ghost predicate FirstDateRule(venue: Venue, day: int, hour: int, i: int) {
    var rules := venue.customDatePrices;
    && 0 <= i < |rules| && rules[i].day == day && rules[i].startHour <= hour < rules[i].endHour
    && forall j :: 0 <= j < i ==> !(rules[j].day == day && rules[j].startHour <= hour && hour < rules[j].endHour)
  }

  /** The i-th recurring rule is the first for this hour of the day. */
  ghost predicate FirstHourRule(venue: Venue, hour: int, i: int) {
    var rules := venue.customHourPrices;
    && 0 <= i < |rules| && rules[i].hour == hour && forall j :: 0 <= j < i ==> rules[j].hour != hour
  }

  ghost predicate HasDatePrice(venue: Venue, day: int, hour: int, price: int) {
    exists i :: FirstDateRule(venue, day, hour, i) && venue.customDatePrices[i].pricePerHour == Some(price) && price >= 0
  }

  ghost predicate HasHourPrice(venue: Venue, hour: int, price: int) {
    exists i :: FirstHourRule(venue, hour, i) && venue.customHourPrices[i].pricePerHour == Some(price) && price >= 0
  }

  /**
   What an hour costs: the price of the first date rule for it, if that is a price; if not, that of the first recurring
   rule for it, if that is one; if not, the venue's default.
   */
  ghost predicate Costs(venue: Venue, day: int, hour: int, price: int) {
    if exists p :: HasDatePrice(venue, day, hour, p) then HasDatePrice(venue, day, hour, price)
    else if exists p :: HasHourPrice(venue, hour, p) then HasHourPrice(venue, hour, price)
    else price == venue.defaultHourPrice
  }

  lemma DatePriceFound(venue: Venue, day: int, hour: int)
    ensures forall p :: HasDatePrice(venue, day, hour, p) <==> DatePrice(venue.customDatePrices, day, hour) == Some(p)
  {
    var rules := venue.customDatePrices;
    FirstMatchingDateRule(rules, day, hour);
    forall i | FirstDateRule(venue, day, hour, i) ensures DateRuleMatches(rules[i], day, hour) {
    }
    if i :| 0 <= i < |rules| && DateRuleMatches(rules[i], day, hour) && forall j :: 0 <= j < i ==> !DateRuleMatches(rules[j], day, hour) {
      assert FirstDateRule(venue, day, hour, i);
    }
  }

  lemma HourPriceFound(venue: Venue, hour: int)
    ensures forall p :: HasHourPrice(venue, hour, p) <==> HourRulePrice(venue.customHourPrices, hour) == Some(p)
  {
    var rules := venue.customHourPrices;
    FirstMatchingHourRule(rules, hour);
    if i :| 0 <= i < |rules| && rules[i].hour == hour && forall j :: 0 <= j < i ==> rules[j].hour != hour {
      assert FirstHourRule(venue, hour, i);
    }
  }

  /** The lookup finds what the hour costs, and there is one such price. */
  lemma HourCosts(venue: Venue, day: int, hour: int)
    ensures forall p :: Costs(venue, day, hour, p) <==> p == HourPrice(venue, day, hour)
  {
    DatePriceFound(venue, day, hour);
    HourPriceFound(venue, hour);
  }

  /** The hours from `from` up to `to`, priced one by one. */
  function HoursPrice(venue: Venue, day: int, from: int, to: int): nat
    decreases to - from
  {
    if from >= to then 0 else HoursPrice(venue, day, from, to - 1) + HourPrice(venue, day, to - 1)
  }

  function SlotPrices(venue: Venue, day: int, slots: seq<Slot>): (p: seq<int>)
    ensures |p| == |slots| && forall i :: 0 <= i < |p| ==> p[i] >= 0
  {
    seq(|slots|, i requires 0 <= i < |slots| => HoursPrice(venue, day, slots[i].start, slots[i].end))
  }

  method FindDatePrice(venue: Venue, day: int, hour: int) returns (price: Option<int>)
    ensures price == DatePrice(venue.customDatePrices, day, hour)
  {
    var rules := venue.customDatePrices;
    for i := 0 to |rules|
      invariant DatePrice(rules, day, hour) == DatePrice(rules[i..], day, hour)
    {
      if DateRuleMatches(rules[i], day, hour) {
        return if Usable(rules[i].pricePerHour) then rules[i].pricePerHour else None;
      }
    }
    price := None;
  }

  method FindHourPrice(venue: Venue, hour: int) returns (price: Option<int>)
    ensures price == HourRulePrice(venue.customHourPrices, hour)
  {
    var rules := venue.customHourPrices;
    for i := 0 to |rules|
      invariant HourRulePrice(rules, hour) == HourRulePrice(rules[i..], hour)
    {
      if rules[i].hour == hour {
        return if Usable(rules[i].pricePerHour) then rules[i].pricePerHour else None;
      }
    }
    price := None;
  }

  method PriceHour(venue: Venue, day: int, hour: int) returns (price: nat)
    ensures price == HourPrice(venue, day, hour)
    ensures Costs(venue, day, hour, price)
  {
    HourCosts(venue, day, hour);
    var hourPrice := FindDatePrice(venue, day, hour);
    if hourPrice.None? {
      hourPrice := FindHourPrice(venue, hour);
    }
    if hourPrice.None? {
      hourPrice := Some(venue.defaultHourPrice);
    }
    price := hourPrice.value;
  }

  method PriceSlot(venue: Venue, day: int, slot: Slot) returns (slotPrice: nat)
    requires slot.start <= slot.end
    ensures slotPrice == HoursPrice(venue, day, slot.start, slot.end)
  {
    slotPrice := 0;
    for hour := slot.start to slot.end
      invariant slotPrice == HoursPrice(venue, day, slot.start, hour)
    {
      var hourPrice := PriceHour(venue, day, hour);
      slotPrice := slotPrice + hourPrice;
    }
  }

  method PriceSlots(venue: Venue, day: int, slots: seq<Slot>) returns (prices: seq<int>, totalRawPrice: nat)
    requires forall i :: 0 <= i < |slots| ==> slots[i].start <= slots[i].end
    ensures prices == SlotPrices(venue, day, slots)
    ensures totalRawPrice == Sum(prices)
  {
    prices, totalRawPrice := [], 0;
    for i := 0 to |slots|
      invariant |prices| == i && forall k :: 0 <= k < i ==> prices[k] == HoursPrice(venue, day, slots[k].start, slots[k].end)
      invariant totalRawPrice == Sum(prices)
    {
      var slotPrice := PriceSlot(venue, day, slots[i]);
      SumSnoc(prices, slotPrice);
      prices := prices + [slotPrice];
      totalRawPrice := totalRawPrice + slotPrice;
    }
  }

  // ----- price additivity -----

  /** How many of the slots cover the hour. */
  function Coverage(slots: seq<Slot>, hour: int): nat {
    if |slots| == 0 then 0
    else Coverage(slots[..|slots| - 1], hour)
         + if slots[|slots| - 1].start <= hour < slots[|slots| - 1].end then 1 else 0
  }

  function CoveredPrice(venue: Venue, day: int, slots: seq<Slot>, hour: int): int {
    Coverage(slots, hour) * HourPrice(venue, day, hour)
  }

  lemma CoveredOnceMore(venue: Venue, day: int, slots: seq<Slot>, slot: Slot, hour: int)
    ensures CoveredPrice(venue, day, slots + [slot], hour)
            == CoveredPrice(venue, day, slots, hour)
               + if slot.start <= hour < slot.end then HourPrice(venue, day, hour) else 0
  {
  }

  /** Hour by hour instead of slot by slot. */
  function CoveragePrice(venue: Venue, day: int, slots: seq<Slot>, hours: nat): int {
    if hours == 0 then 0
    else CoveragePrice(venue, day, slots, hours - 1) + CoveredPrice(venue, day, slots, hours - 1)
  }

  lemma {:induction false} CoverageOfOne(venue: Venue, day: int, slots: seq<Slot>, slot: Slot, hours: nat)
    requires 0 <= slot.start
    ensures CoveragePrice(venue, day, slots + [slot], hours)
            == CoveragePrice(venue, day, slots, hours)
               + HoursPrice(venue, day, slot.start, if slot.end <= hours then slot.end else hours)
  {
    if hours > 0 {
      CoverageOfOne(venue, day, slots, slot, hours - 1);
      CoveredOnceMore(venue, day, slots, slot, hours - 1);
    }
  }

  /** The total raw price is the lookup summed over the hours of the day, each as often as it is covered. */
  lemma {:induction false} TotalIsHourByHour(venue: Venue, day: int, slots: seq<Slot>)
    requires forall i :: 0 <= i < |slots| ==> SlotInRange(slots[i])
    ensures Sum(SlotPrices(venue, day, slots)) == CoveragePrice(venue, day, slots, 24)
  {
    if |slots| == 0 {
      NothingCovered(venue, day, 24);
    } else {
      var n := |slots| - 1;
      TotalIsHourByHour(venue, day, slots[..n]);
      assert SlotPrices(venue, day, slots)[..n] == SlotPrices(venue, day, slots[..n]);
      assert slots == slots[..n] + [slots[n]];
      assert SlotInRange(slots[n]);
      CoverageOfOne(venue, day, slots[..n], slots[n], 24);
    }
  }

  lemma {:induction false} NothingCovered(venue: Venue, day: int, hours: nat)
    ensures CoveragePrice(venue, day, [], hours) == 0
  {
    if hours > 0 {
      NothingCovered(venue, day, hours - 1);
      assert Coverage([], hours - 1) == 0;
    }
  }

  lemma {:induction false} CoveragePriceAgrees(venue: Venue, day: int, a: seq<Slot>, b: seq<Slot>, hours: nat)
    requires forall h :: 0 <= h < hours ==> Coverage(a, h) == Coverage(b, h)
    ensures CoveragePrice(venue, day, a, hours) == CoveragePrice(venue, day, b, hours)
  {
    if hours > 0 {
      CoveragePriceAgrees(venue, day, a, b, hours - 1);
      assert CoveredPrice(venue, day, a, hours - 1) == CoveredPrice(venue, day, b, hours - 1);
    }
  }

  /** Splitting, merging or reordering slots that cover the same hours never changes the price. */
  lemma PriceAdditivity(venue: Venue, day: int, a: seq<Slot>, b: seq<Slot>)
    requires forall i :: 0 <= i < |a| ==> SlotInRange(a[i])
    requires forall i :: 0 <= i < |b| ==> SlotInRange(b[i])
    requires forall h :: 0 <= h < 24 ==> Coverage(a, h) == Coverage(b, h)
    ensures Sum(SlotPrices(venue, day, a)) == Sum(SlotPrices(venue, day, b))
  {
    TotalIsHourByHour(venue, day, a);
    TotalIsHourByHour(venue, day, b);
    CoveragePriceAgrees(venue, day, a, b, 24);
  }
}
