/** The body of a booking request: slot validation and the fingerprint that idempotency keys are checked against. */
module BookingRequest {
  import opened Prelude

  /** In milliseconds. */
  const HOUR := 3_600_000

  datatype Slot = Slot(start: int, end: int)

  datatype PaymentMethod = WalletMethod | Paymob | Cash

  datatype PaymentStatus = Unpaid | Paid | PartiallyPaid | Refunded | PayAtVenue

  /** A day is a day number; the clock parts of the request's date play no part below. */
  datatype CreateBookingDto = CreateBookingDto(
    venueId: nat, day: int, slots: seq<Slot>, startTime: Option<int>, endTime: Option<int>,
    couponCode: Option<string>, customAmount: Option<int>, walletAmountToUse: Option<int>,
    paymentMethod: PaymentMethod)

  datatype SlotError = NoSlots | StartOutOfRange | EndOutOfRange | StartNotBeforeEnd | RequestedSlotsOverlap

  predicate Overlap(a: Slot, b: Slot) {
    a.start < b.end && a.end > b.start
  }

  /** The slots array wins over the legacy pair of hours. */
  function RawSlots(body: CreateBookingDto): seq<Slot> {
    if |body.slots| > 0 then body.slots
    else if body.startTime.Some? && body.endTime.Some? then [Slot(body.startTime.value, body.endTime.value)]
    else []
  }

  predicate SlotInRange(s: Slot) {
    0 <= s.start <= 23 && 1 <= s.end <= 24 && s.start < s.end
  }

  predicate Disjoint(slots: seq<Slot>) {
    forall i, j :: 0 <= i < j < |slots| ==> !Overlap(slots[i], slots[j])
  }

  predicate SlotsValid(slots: seq<Slot>) {
    |slots| > 0 && (forall i :: 0 <= i < |slots| ==> SlotInRange(slots[i])) && Disjoint(slots)
  }

  /** The first complaint about the slots from the i-th on, each checked against those after it. */
  function ScanSlots(slots: seq<Slot>, i: nat): Option<SlotError>
    requires i <= |slots|
    decreases |slots| - i
  {
    if i == |slots| then None
    else if slots[i].start < 0 || slots[i].start > 23 then Some(StartOutOfRange)
    else if slots[i].end < 1 || slots[i].end > 24 then Some(EndOutOfRange)
    else if slots[i].start >= slots[i].end then Some(StartNotBeforeEnd)
    else if exists j :: i < j < |slots| && Overlap(slots[i], slots[j]) then Some(RequestedSlotsOverlap)
    else ScanSlots(slots, i + 1)
  }

  function SlotErrorOf(slots: seq<Slot>): Option<SlotError> {
    if |slots| == 0 then Some(NoSlots) else ScanSlots(slots, 0)
  }

  lemma {:induction false} ScanFindsNothing(slots: seq<Slot>, i: nat)
    requires i <= |slots|
    ensures ScanSlots(slots, i).None? <==>
              && (forall k :: i <= k < |slots| ==> SlotInRange(slots[k]))
              && (forall k, j :: i <= k < j < |slots| ==> !Overlap(slots[k], slots[j]))
    decreases |slots| - i
  {
    if i < |slots| {
      ScanFindsNothing(slots, i + 1);
    }
  }

  /** A request gets past the slot checks exactly when its slots are in range and pairwise disjoint. */
  lemma SlotErrorMeaning(slots: seq<Slot>)
    ensures SlotErrorOf(slots).None? <==> SlotsValid(slots)
  {
    ScanFindsNothing(slots, 0);
  }

  /** Neither out of range, nor in the way of a slot after it. */
  predicate Faultless(slots: seq<Slot>, i: nat)
    requires i < |slots|
  {
    && 0 <= slots[i].start < slots[i].end <= 24
    && forall j :: i < j < |slots| ==> slots[i].end <= slots[j].start || slots[j].end <= slots[i].start
  }

  lemma {:induction false} ScanSkips(slots: seq<Slot>, i: nat)
    requires i <= |slots| && forall k :: 0 <= k < i ==> Faultless(slots, k)
    ensures ScanSlots(slots, 0) == ScanSlots(slots, i)
  {
    if i > 0 {
      ScanSkips(slots, i - 1);
      assert Faultless(slots, i - 1);
    }
  }

  /** The complaint is about the first slot that has a fault, and about the first of its faults. */
  lemma FirstComplaint(slots: seq<Slot>, i: nat)
    requires i < |slots| && !Faultless(slots, i) && forall k :: 0 <= k < i ==> Faultless(slots, k)
    ensures SlotErrorOf(slots) == Some(if slots[i].start < 0 || 23 < slots[i].start then StartOutOfRange
                                       else if slots[i].end < 1 || 24 < slots[i].end then EndOutOfRange
                                       else if slots[i].end <= slots[i].start then StartNotBeforeEnd
                                       else RequestedSlotsOverlap)
  {
    ScanSkips(slots, i);
  }

  method ValidateSlots(slots: seq<Slot>) returns (error: Option<SlotError>)
    ensures error == SlotErrorOf(slots)
  {
    if |slots| == 0 {
      return Some(NoSlots);
    }
    for i := 0 to |slots|
      invariant SlotErrorOf(slots) == ScanSlots(slots, i)
    {
      var s1 := slots[i];
      if s1.start < 0 || s1.start > 23 {
        return Some(StartOutOfRange);
      }
      if s1.end < 1 || s1.end > 24 {
        return Some(EndOutOfRange);
      }
      if s1.start >= s1.end {
        return Some(StartNotBeforeEnd);
      }
      for j := i + 1 to |slots|
        invariant forall k :: i < k < j ==> !Overlap(s1, slots[k])
      {
        if s1.start < slots[j].end && s1.end > slots[j].start {
          return Some(RequestedSlotsOverlap);
        }
      }
    }
    error := None;
  }

  // ----- fingerprint -----

  predicate IsSpace(c: char) {
    c == ' ' || c == '\t' || c == '\n' || c == '\r'
  }

  function TrimLeft(s: string): string {
    if |s| > 0 && IsSpace(s[0]) then TrimLeft(s[1..]) else s
  }

  function TrimRight(s: string): string {
    if |s| > 0 && IsSpace(s[|s| - 1]) then TrimRight(s[..|s| - 1]) else s
  }

  function Upper(s: string): string {
    seq(|s|, i requires 0 <= i < |s| => if 'a' <= s[i] <= 'z' then s[i] - 'a' + 'A' else s[i])
  }

  /** An absent or empty code is null; a blank one is the empty string, which is something else. */
  function NormalizedCoupon(code: Option<string>): Option<string> {
    if code.Some? && |code.value| > 0 then Some(Upper(TrimRight(TrimLeft(code.value)))) else None
  }

  predicate Blank(c: char) {
    c in " \t\n\r"
  }

  predicate Spaces(s: string) {
    forall i :: 0 <= i < |s| ==> Blank(s[i])
  }

  /** t is s without the spaces around it. */
  ghost predicate IsTrimmed(s: string, t: string) {
    && (exists pre: string, post: string :: s == pre + t + post && Spaces(pre) && Spaces(post))
    && (t != "" ==> !Blank(t[0]) && !Blank(t[|t| - 1]))
  }

  lemma {:induction false} TrimLeftDrops(s: string) returns (pre: string)
    ensures s == pre + TrimLeft(s) && Spaces(pre)
    ensures TrimLeft(s) != "" ==> !Blank(TrimLeft(s)[0])
  {
    pre := "";
    if |s| > 0 && IsSpace(s[0]) {
      var rest := TrimLeftDrops(s[1..]);
      pre := [s[0]] + rest;
      assert s == [s[0]] + s[1..];
    }
  }

  lemma {:induction false} TrimRightDrops(s: string) returns (post: string)
    ensures s == TrimRight(s) + post && Spaces(post)
    ensures TrimRight(s) != "" ==> TrimRight(s)[0] == s[0] && !Blank(TrimRight(s)[|TrimRight(s)| - 1])
  {
    post := "";
    if |s| > 0 && IsSpace(s[|s| - 1]) {
      var rest := TrimRightDrops(s[..|s| - 1]);
      post := rest + [s[|s| - 1]];
      assert s == s[..|s| - 1] + [s[|s| - 1]];
    }
  }

  lemma TrimTrims(s: string)
    ensures IsTrimmed(s, TrimRight(TrimLeft(s)))
  {
    var pre := TrimLeftDrops(s);
    var post := TrimRightDrops(TrimLeft(s));
    assert s == pre + TrimRight(TrimLeft(s)) + post;
  }

  /** u is t with its small letters made capitals. */
  predicate IsInCapitals(t: string, u: string) {
    |u| == |t| && forall i :: 0 <= i < |t| ==> u[i] == if 'a' <= t[i] <= 'z' then (t[i] as int - 32) as char else t[i]
  }

  lemma UpperIsInCapitals(t: string)
    ensures IsInCapitals(t, Upper(t))
  {
  }

  /** A code is compared without the spaces around it and in capitals; none and the empty one are no code. */
  lemma CodesCompared(code: Option<string>)
    ensures code.None? || code.value == "" ==> NormalizedCoupon(code) == None
    ensures code.Some? && code.value != "" ==>
              NormalizedCoupon(code).Some? && exists t :: IsTrimmed(code.value, t) && IsInCapitals(t, NormalizedCoupon(code).value)
  {
    if code.Some? {
      TrimTrims(code.value);
      UpperIsInCapitals(TrimRight(TrimLeft(code.value)));
    }
  }

  function InsertByStart(s: Slot, sorted: seq<Slot>): seq<Slot> {
    if |sorted| == 0 || s.start <= sorted[0].start then [s] + sorted
    else [sorted[0]] + InsertByStart(s, sorted[1..])
  }

  function SortByStart(slots: seq<Slot>): seq<Slot> {
    if |slots| == 0 then [] else InsertByStart(slots[0], SortByStart(slots[1..]))
  }

  /** The object that is serialized and hashed. */
  datatype Canonical = Canonical(venueId: nat, day: int, slots: seq<Slot>, couponCode: Option<string>,
                                 paymentMethod: PaymentMethod)

  function Fingerprint(body: CreateBookingDto): Canonical {
    Canonical(body.venueId, body.day, SortByStart(RawSlots(body)), NormalizedCoupon(body.couponCode), body.paymentMethod)
  }

  function SlotSet(slots: seq<Slot>): set<Slot> {
    set s | s in slots
  }

  predicate StartsIncrease(slots: seq<Slot>) {
    forall i, j :: 0 <= i < j < |slots| ==> slots[i].start < slots[j].start
  }

  predicate DistinctStarts(slots: seq<Slot>) {
    forall i, j :: 0 <= i < j < |slots| ==> slots[i].start != slots[j].start
  }

  lemma {:induction false} InsertSorts(s: Slot, sorted: seq<Slot>)
    requires StartsIncrease(sorted) && forall i :: 0 <= i < |sorted| ==> sorted[i].start != s.start
    ensures StartsIncrease(InsertByStart(s, sorted))
    ensures SlotSet(InsertByStart(s, sorted)) == SlotSet(sorted) + {s}
  {
    if |sorted| == 0 || s.start <= sorted[0].start {
    } else {
      InsertSorts(s, sorted[1..]);
      var r := InsertByStart(s, sorted[1..]);
      assert SlotSet(sorted) == SlotSet(sorted[1..]) + {sorted[0]};
      assert SlotSet([sorted[0]] + r) == SlotSet(r) + {sorted[0]};
      forall i | 0 <= i < |r| ensures sorted[0].start < r[i].start {
        assert r[i] in SlotSet(r);
      }
    }
  }

  lemma {:induction false} SortSorts(slots: seq<Slot>)
    requires DistinctStarts(slots)
    ensures StartsIncrease(SortByStart(slots)) && SlotSet(SortByStart(slots)) == SlotSet(slots)
  {
    if |slots| > 0 {
      SortSorts(slots[1..]);
      var r := SortByStart(slots[1..]);
      forall i | 0 <= i < |r| ensures r[i].start != slots[0].start {
        assert r[i] in SlotSet(slots[1..]);
      }
      InsertSorts(slots[0], r);
      assert SlotSet(slots) == SlotSet(slots[1..]) + {slots[0]};
    }
  }

  lemma {:induction false} SortedIsUnique(a: seq<Slot>, b: seq<Slot>)
    requires StartsIncrease(a) && StartsIncrease(b) && SlotSet(a) == SlotSet(b)
    ensures a == b
  {
    if |b| > 0 {
      assert b[0] in SlotSet(b);
    }
    if |a| > 0 {
      assert a[0] in SlotSet(a);
      var j :| 0 <= j < |b| && b[j] == a[0];
      var i :| 0 <= i < |a| && a[i] == b[0];
      assert a[0] == b[0];
      forall s ensures s in SlotSet(a[1..]) <==> s in SlotSet(b[1..]) {
        assert s in SlotSet(a) <==> s in SlotSet(b);
        assert s in SlotSet(a[1..]) <==> s in SlotSet(a) && s != a[0];
        assert s in SlotSet(b[1..]) <==> s in SlotSet(b) && s != b[0];
      }
      SortedIsUnique(a[1..], b[1..]);
      assert a == [a[0]] + a[1..] && b == [b[0]] + b[1..];
    }
  }

  lemma ValidSlotsDistinct(slots: seq<Slot>)
    requires SlotsValid(slots)
    ensures DistinctStarts(slots)
  {
  }

  /** Two valid requests have one fingerprint exactly when they ask for the same thing, slots in any order. */
  lemma FingerprintMeaning(a: CreateBookingDto, b: CreateBookingDto)
    requires SlotsValid(RawSlots(a)) && SlotsValid(RawSlots(b))
    ensures Fingerprint(a) == Fingerprint(b) <==>
              && a.venueId == b.venueId && a.day == b.day
              && SlotSet(RawSlots(a)) == SlotSet(RawSlots(b))
              && NormalizedCoupon(a.couponCode) == NormalizedCoupon(b.couponCode)
              && a.paymentMethod == b.paymentMethod
  {
    ValidSlotsDistinct(RawSlots(a));
    ValidSlotsDistinct(RawSlots(b));
    SortSorts(RawSlots(a));
    SortSorts(RawSlots(b));
    if SlotSet(RawSlots(a)) == SlotSet(RawSlots(b)) {
      SortedIsUnique(SortByStart(RawSlots(a)), SortByStart(RawSlots(b)));
    }
  }
}
