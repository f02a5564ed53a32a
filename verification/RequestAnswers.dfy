/** What createBooking answers and does, in terms of the request and the documents alone. */
module RequestAnswers {
  import opened Prelude
  import opened Money
  import opened Coupon
  import opened BookingRequest
  import opened Slots
  import opened Pricing
  import opened GroupPrice
  import opened Database
  import opened BookingOperations
  import opened BookingTheorems
  import opened BookingAnswers
  import Wallet

  // ----- the request -----

  /** The slots a request asks for: its list, or the one its two hours make. */
  predicate AsksFor(body: CreateBookingDto, slots: seq<Slot>) {
    if body.slots != [] then slots == body.slots
    else if body.startTime.Some? && body.endTime.Some? then slots == [Slot(body.startTime.value, body.endTime.value)]
    else slots == []
  }

  predicate GoodSlots(slots: seq<Slot>) {
    && slots != []
    && (forall i :: 0 <= i < |slots| ==> 0 <= slots[i].start < slots[i].end <= 24)
    && forall i, j :: 0 <= i < j < |slots| ==> slots[i].end <= slots[j].start || slots[j].end <= slots[i].start
  }

  /** Somebody has an hour of the slot: it is booked, or held by another user with time left. */
  predicate TakenBy(c: Claim, user: nat, body: CreateBookingDto, slot: Slot, now: int) {
    && c.venue == body.venueId && c.day == body.day && c.start < slot.end && slot.start < c.end
    && (c.status == Confirmed || c.status == Completed
        || (c.status == Pending && c.user != user && (c.expiresAt.None? || c.expiresAt.value > now)))
  }

  predicate Taken(db: Db, user: nat, body: CreateBookingDto, slots: seq<Slot>) {
    exists i, k :: i in db.bookings && 0 <= k < |slots| && TakenBy(db.bookings[i].claim, user, body, slots[k], db.now)
  }

  predicate EarlyRefusal(e: BookingError) {
    || e.BadSlots? || e == AccountBlocked || e == VenueNotFound || e == VenueInactive || e == OutsideOpeningHours || e == SlotInThePast
    || e == VenueBusy || e == SlotTaken
  }

  /** The reason, if any, to refuse a request before its price is worked out; the first that applies is the answer. */
  ghost predicate RefusedEarly(db: Db, user: nat, body: CreateBookingDto, env: Env, slots: seq<Slot>, r: Result<nat, BookingError>) {
    if !GoodSlots(slots) then r.Err? && r.error.BadSlots?
    else if env.customer == Suspended || env.customer == Archived || env.customer == Inactive then r == Err(AccountBlocked)
    else if env.venue.None? then r == Err(VenueNotFound)
    else if !env.venue.value.isActive then r == Err(VenueInactive)
    else if exists k :: 0 <= k < |slots| && !(env.venue.value.startWorkingHours <= slots[k].start && slots[k].end <= env.venue.value.endWorkingHours)
    then r == Err(OutsideOpeningHours)
    else if exists k :: 0 <= k < |slots| && body.day * 86_400_000 + slots[k].start * 3_600_000 <= db.now then r == Err(SlotInThePast)
    else if !env.lockFree then r == Err(VenueBusy)
    else if Taken(db, user, body, slots) then r == Err(SlotTaken)
    else false
  }

  lemma SlotsAskedFor(body: CreateBookingDto, slots: seq<Slot>)
    ensures AsksFor(body, slots) <==> slots == RawSlots(body)
    ensures GoodSlots(slots) <==> SlotErrorOf(slots).None?
  {
    SlotErrorMeaning(slots);
    assert SlotsValid(slots) <==> GoodSlots(slots) by {
      if GoodSlots(slots) {
        assert forall i :: 0 <= i < |slots| ==> SlotInRange(slots[i]);
      }
      if SlotsValid(slots) {
        assert forall i :: 0 <= i < |slots| ==> SlotInRange(slots[i]);
        forall i, j | 0 <= i < j < |slots| ensures slots[i].end <= slots[j].start || slots[j].end <= slots[i].start {
          assert !Overlap(slots[i], slots[j]);
        }
      }
    }
  }

  lemma TakenIsConflict(db: Db, user: nat, body: CreateBookingDto, slots: seq<Slot>)
    ensures Taken(db, user, body, slots) <==> OverlapStageRejects(Claims(db.bookings), user, body.venueId, body.day, slots, db.now)
  {
    var claims := Claims(db.bookings);
    if OverlapStageRejects(claims, user, body.venueId, body.day, slots, db.now) {
      var i :| i in claims && Conflicts(claims[i], user, body.venueId, body.day, slots, db.now);
      var k :| 0 <= k < |slots| && Covers(claims[i], body.venueId, body.day, slots[k]);
      assert TakenBy(db.bookings[i].claim, user, body, slots[k], db.now);
    }
    if i, k :| i in db.bookings && 0 <= k < |slots| && TakenBy(db.bookings[i].claim, user, body, slots[k], db.now) {
      assert i in claims && Covers(claims[i], body.venueId, body.day, slots[k]);
      assert Conflicts(claims[i], user, body.venueId, body.day, slots, db.now);
    }
  }

  lemma GroupErrorsAreLate(db: Db, user: nat, body: CreateBookingDto, key: Option<string>, q: Quote, faults: Faults)
    requires QuoteFits(q, body)
    ensures var r := BookPriced(db, user, body, key, q, faults).1; r.Err? ==> LateError(r.error)
  {
    var rows := WithRows(db, user, body, key, q);
    var upserted := WithRows(db.(wallets := Wallet.Upserted(db.wallets, user)), user, body, key, q);
    InsertErrors(Claims(db.bookings), body.venueId, body.day, RawSlots(body), faults.insertFails, 0);
    PayNewErrors(rows, FreshIds(db.nextId, |RawSlots(body)|), db.nextGroup, user, body, q, faults);
    PayNewErrors(upserted, FreshIds(db.nextId, |RawSlots(body)|), db.nextGroup, user, body, q, faults);
  }

  predicate LateError(e: BookingError) {
    e.WalletFailure? || e == PaymentFailed || e == JustBooked || e == InsertFailed
  }

  lemma PayNewErrors(db: Db, ids: seq<BookingId>, groupId: nat, user: nat, body: CreateBookingDto, q: Quote, faults: Faults)
    ensures var r := PayNew(db, ids, groupId, user, body, q, faults).1; r.Err? ==> LateError(r.error)
  {
    GroupPaymentErrors(db, user, ids, groupId, q.charge, q.groupFinal, body.paymentMethod, body.walletAmountToUse,
                       NormalizedCoupon(body.couponCode), faults);
  }

  lemma {:induction false} InsertErrors(table: Table, venue: nat, day: int, slots: seq<Slot>, fails: Option<nat>, k: nat)
    requires k <= |slots|
    ensures var e := InsertError(table, venue, day, slots, fails, k); e.Some? ==> e.value == InsertFailed || e.value == JustBooked
    decreases |slots| - k
  {
    if k < |slots| {
      InsertErrors(table, venue, day, slots, fails, k + 1);
    }
  }

  predicate PriceError(e: BookingError) {
    e == InvalidCoupon || e == CouponInactive || e == CouponUsedUp || e == CouponOutOfDate || e.BadAmount?
  }

  lemma AcceptedErrors(db: Db, user: nat, body: CreateBookingDto, key: Option<string>, env: Env)
    requires GetsThrough(db, user, body, env)
    ensures var r := Create(db, user, body, key, env).1; r.Err? ==> PriceError(r.error) || LateError(r.error)
  {
    var cleared := db.(bookings := Cleared(db.bookings, user, body.venueId, body.day, RawSlots(body), db.now));
    var quote := QuoteFor(env.venue.value, db.coupons, body, db.now);
    if quote.Ok? {
      GroupErrorsAreLate(cleared, user, body, key, quote.value, env.faults);
    }
  }

  lemma GetsThroughIff(db: Db, user: nat, body: CreateBookingDto, env: Env, slots: seq<Slot>)
    requires AsksFor(body, slots)
    ensures GetsThrough(db, user, body, env)
            <==> && GoodSlots(slots) && env.customer != Suspended && env.customer != Archived && env.customer != Inactive
                 && env.venue.Some? && env.venue.value.isActive
                 && (forall k :: 0 <= k < |slots| ==>
                       env.venue.value.startWorkingHours <= slots[k].start && slots[k].end <= env.venue.value.endWorkingHours)
                 && (forall k :: 0 <= k < |slots| ==> body.day * 86_400_000 + slots[k].start * 3_600_000 > db.now)
                 && env.lockFree && !Taken(db, user, body, slots)
  {
    SlotsAskedFor(body, slots);
    TakenIsConflict(db, user, body, slots);
  }

  function EarlyError(db: Db, user: nat, body: CreateBookingDto, env: Env): Option<BookingError> {
    if Precheck(body, env, db.now).Some? then Precheck(body, env, db.now)
    else if !env.lockFree then Some(VenueBusy)
    else if OverlapStageRejects(Claims(db.bookings), user, body.venueId, body.day, RawSlots(body), db.now) then Some(SlotTaken)
    else None
  }

  lemma EarlyReply(db: Db, user: nat, body: CreateBookingDto, key: Option<string>, env: Env)
    ensures EarlyError(db, user, body, env).None? <==> GetsThrough(db, user, body, env)
    ensures var e := EarlyError(db, user, body, env);
            e.Some? ==> EarlyRefusal(e.value) && Create(db, user, body, key, env) == (db, Err(e.value))
  {
  }

  lemma EarlyErrorMeaning(db: Db, user: nat, body: CreateBookingDto, env: Env, slots: seq<Slot>)
    requires AsksFor(body, slots)
    ensures var e := EarlyError(db, user, body, env);
            if e.Some? then RefusedEarly(db, user, body, env, slots, Err(e.value))
            else forall r: Result<nat, BookingError> :: !RefusedEarly(db, user, body, env, slots, r)
  {
    SlotsAskedFor(body, slots);
    TakenIsConflict(db, user, body, slots);
  }

  /** A request is turned away early for the first of these reasons, changing nothing; otherwise it is priced. */
  lemma RequestAnswered(db: Db, user: nat, body: CreateBookingDto, key: Option<string>, env: Env, slots: seq<Slot>)
    requires AsksFor(body, slots)
    ensures var (after, r) := Create(db, user, body, key, env);
            if r.Err? && EarlyRefusal(r.error) then after == db && RefusedEarly(db, user, body, env, slots, r)
            else forall e: Result<nat, BookingError> :: !RefusedEarly(db, user, body, env, slots, e)
  {
    EarlyReply(db, user, body, key, env);
    EarlyErrorMeaning(db, user, body, env, slots);
    if GetsThrough(db, user, body, env) {
      AcceptedErrors(db, user, body, key, env);
    }
  }

  // ----- the price -----

  /** The coupon a request names, if any. */
  function Named(body: CreateBookingDto): Option<string> {
    if NormalizedCoupon(body.couponCode) == Some("") then None else NormalizedCoupon(body.couponCode)
  }

  /** What all slots cost together, the coupon taken off. */
  function PriceOf(db: Db, body: CreateBookingDto, venue: Venue): nat {
    SumNonNegative(SlotPrices(venue, body.day, RawSlots(body)));
    var total := Sum(SlotPrices(venue, body.day, RawSlots(body)));
    if Named(body).Some? && Named(body).value in db.coupons
    then CalculateCouponDiscount(db.coupons[Named(body).value].kind, db.coupons[Named(body).value].discount, total).finalPrice
    else total
  }

  /** The reason, if any, to refuse a request over its coupon or its amount. */
  ghost predicate RefusedForPrice(db: Db, body: CreateBookingDto, venue: Venue, r: Result<nat, BookingError>) {
    var code, n, price := Named(body), |RawSlots(body)|, PriceOf(db, body, venue);
    if code.Some? && code.value !in db.coupons then r == Err(InvalidCoupon)
    else if code.Some? && !db.coupons[code.value].isActive then r == Err(CouponInactive)
    else if code.Some? && db.coupons[code.value].usesCount >= db.coupons[code.value].maxUses then r == Err(CouponUsedUp)
    else if code.Some? && !(db.coupons[code.value].startDate <= db.now <= db.coupons[code.value].endDate) then r == Err(CouponOutOfDate)
    else if body.customAmount.Some? && body.customAmount.value > 0 then
      var a, deposit := body.customAmount.value, venue.minimumDepositAmount;
      if a < price && (deposit == 0 || a < n * deposit) then r == Err(BadAmount(BelowMinimumDeposit))
      else if a > price then r == Err(BadAmount(AboveTotal))
      else false
    else false
  }

  lemma QuoteAnswered(db: Db, body: CreateBookingDto, venue: Venue)
    ensures var q := QuoteFor(venue, db.coupons, body, db.now);
            if q.Err? then PriceError(q.error) && RefusedForPrice(db, body, venue, Err(q.error))
            else q.value.groupFinal == PriceOf(db, body, venue)
                 && (forall e: Result<nat, BookingError> :: !RefusedForPrice(db, body, venue, e))
  {
    WhatIsCharged(|RawSlots(body)|, venue.minimumDepositAmount, PriceOf(db, body, venue), body.customAmount);
  }

  /** Past the overlap stage a request is refused over its coupon or amount for the first of these reasons. */
  lemma PriceAnswered(db: Db, user: nat, body: CreateBookingDto, key: Option<string>, env: Env)
    requires GetsThrough(db, user, body, env)
    ensures var (after, r) := Create(db, user, body, key, env);
            if r.Err? && PriceError(r.error) then
              RefusedForPrice(db, body, env.venue.value, r) && after.wallets == db.wallets && after.payments == db.payments
            else forall e: Result<nat, BookingError> :: !RefusedForPrice(db, body, env.venue.value, e)
  {
    QuoteAnswered(db, body, env.venue.value);
    AcceptedErrors(db, user, body, key, env);
    var cleared := db.(bookings := Cleared(db.bookings, user, body.venueId, body.day, RawSlots(body), db.now));
    var quote := QuoteFor(env.venue.value, db.coupons, body, db.now);
    if quote.Ok? {
      GroupErrorsAreLate(cleared, user, body, key, quote.value, env.faults);
    }
  }

  // ----- what is replaced -----

  /** A hold of the requester's own, with time left, on one of the hours. */
  predicate OwnHoldOnIt(db: Db, user: nat, body: CreateBookingDto, slots: seq<Slot>, b: Booking) {
    && b.claim.user == user && b.claim.status == Pending && (b.claim.expiresAt.None? || b.claim.expiresAt.value > db.now)
    && b.claim.venue == body.venueId && b.claim.day == body.day
    && exists k :: 0 <= k < |slots| && b.claim.start < slots[k].end && slots[k].start < b.claim.end
  }

  lemma HoldsReplaced(db: Db, user: nat, body: CreateBookingDto, slots: seq<Slot>, b: Booking)
    requires AsksFor(body, slots)
    ensures ReplacedHold(b, user, body, db.now) <==> OwnHoldOnIt(db, user, body, slots, b)
  {
    SlotsAskedFor(body, slots);
    if OwnHoldOnIt(db, user, body, slots, b) {
      var k :| 0 <= k < |slots| && b.claim.start < slots[k].end && slots[k].start < b.claim.end;
      assert Covers(b.claim, body.venueId, body.day, slots[k]);
    }
    if ReplacedHold(b, user, body, db.now) {
      var k :| 0 <= k < |slots| && Covers(b.claim, body.venueId, body.day, slots[k]);
    }
  }

  // ----- the rows -----

  /** The k-th row of an accepted request before it is paid for: a hold of a quarter of an hour that owes its price. */
  predicate IsHold(b: Booking, db: Db, user: nat, body: CreateBookingDto, key: Option<string>, slot: Slot, groupId: nat) {
    && b.claim == Claim(user, body.venueId, body.day, slot.start, slot.end, groupId, Pending, Some(db.now + 900_000))
    && b.bill.paidAmount == 0 && b.bill.remainingAmount == b.bill.finalPrice && b.bill.paymentStatus == Unpaid
    && b.bill.paymentMethod == body.paymentMethod && b.bill.couponCode == NormalizedCoupon(body.couponCode)
    && b.bill.idempotencyKey == key && b.bill.requestHash == Fingerprint(body)
    && (b.bill.finalPrice == b.bill.totalPrice - b.bill.discountAmount
        || (b.bill.finalPrice == 0 && b.bill.discountAmount > b.bill.totalPrice))
  }

  /** And after: paid by wallet, or in cash, or waiting for the card. */
  predicate IsRow(b: Booking, hold: Booking, body: CreateBookingDto, charge: AmountDue, price: int, cardWaits: bool) {
    match body.paymentMethod
    case WalletMethod => PaidByWallet(hold, b, charge, price)
    case Cash => PaidInCash(hold, b)
    case Paymob => if cardWaits then b == hold else PaidByWallet(hold, b, charge, price)
  }

  lemma NewRowIsHold(db: Db, user: nat, body: CreateBookingDto, key: Option<string>, q: Quote, groupId: nat, k: nat)
    requires QuoteFits(q, body) && k < |RawSlots(body)|
    requires q.finals[k] == Max(0, q.prices[k] - q.discounts[k])
    ensures IsHold(NewRow(user, body, key, q, groupId, db.now + HOLD_DURATION, k), db, user, body, key, RawSlots(body)[k], groupId)
  {
  }

  lemma PaidRows(db: Db, ids: seq<BookingId>, groupId: nat, user: nat, body: CreateBookingDto, q: Quote, faults: Faults, i: BookingId,
                 part: int)
    requires PayNew(db, ids, groupId, user, body, q, faults).1.Ok? && i in ids && i in db.bookings
    requires IsWalletPart(part, Wallet.Balance(db.wallets, user), body.walletAmountToUse, q.charge.amount)
    requires db.bookings[i].bill.paymentMethod == body.paymentMethod
    ensures var after := PayNew(db, ids, groupId, user, body, q, faults).0;
            i in after.bookings && IsRow(after.bookings[i], db.bookings[i], body, q.charge, q.groupFinal, part != q.charge.amount)
  {
    MemberPaidByWallet(db.bookings[i], q.charge, q.groupFinal);
    match body.paymentMethod
    case WalletMethod =>
      CompensatingTakes(db, user, ids, groupId, q.charge, q.groupFinal, NormalizedCoupon(body.couponCode), faults);
    case Cash =>
    case Paymob =>
      PartIsWalletPart(part, Wallet.Balance(db.wallets, user), body.walletAmountToUse, q.charge.amount);
      CardPaymentAnswered(db, user, ids, groupId, q.charge, q.groupFinal, body.walletAmountToUse, NormalizedCoupon(body.couponCode), faults,
                          part);
      if part == q.charge.amount {
        CompensatingTakes(db.(wallets := Wallet.Upserted(db.wallets, user)), user, ids, groupId, q.charge, q.groupFinal,
                          NormalizedCoupon(body.couponCode), faults);
      }
  }

  /** The row is such a hold, paid for by the method asked for. */
  ghost predicate IsBooked(b: Booking, db: Db, user: nat, body: CreateBookingDto, key: Option<string>, slot: Slot, charge: AmountDue,
                           price: int, cardWaits: bool) {
    exists hold: Booking :: IsHold(hold, db, user, body, key, slot, db.nextGroup) && IsRow(b, hold, body, charge, price, cardWaits)
  }

  lemma HoldInserted(db: Db, prepared: Db, user: nat, body: CreateBookingDto, key: Option<string>, q: Quote, k: nat)
    requires IdsUsed(db) && QuoteFits(q, body) && k < |RawSlots(body)| && q.finals[k] == Max(0, q.prices[k] - q.discounts[k])
    requires prepared.nextId == db.nextId && prepared.nextGroup == db.nextGroup && prepared.now == db.now
    requires prepared.bookings.Keys <= db.bookings.Keys
    ensures var rows := WithRows(prepared, user, body, key, q);
            && db.nextId + k in rows.bookings && db.nextId + k !in db.bookings && db.nextId + k in FreshIds(db.nextId, |RawSlots(body)|)
            && IsHold(rows.bookings[db.nextId + k], db, user, body, key, RawSlots(body)[k], db.nextGroup)
  {
    WithRowsAt(prepared, user, body, key, q, db.nextId + k);
    NewRowIsHold(db, user, body, key, q, db.nextGroup, k);
  }

  lemma PreparedAs(db: Db, user: nat, body: CreateBookingDto, key: Option<string>, q: Quote)
    requires QuoteFits(q, body)
    ensures var prepared := Prepared(db, user, body);
            && prepared.nextId == db.nextId && prepared.nextGroup == db.nextGroup && prepared.now == db.now
            && prepared.bookings.Keys <= db.bookings.Keys
            && Wallet.Balance(WithRows(prepared, user, body, key, q).wallets, user) == Wallet.Balance(db.wallets, user)
  {
  }

  /** A request that succeeds has one such row for each slot, under new identifiers and a new group. */
  lemma RowsAnswered(db: Db, user: nat, body: CreateBookingDto, key: Option<string>, env: Env, slots: seq<Slot>, k: nat, part: int)
    requires IdsUsed(db) && AsksFor(body, slots) && k < |slots| && Create(db, user, body, key, env).1.Ok?
    requires env.venue.Some? && QuoteFor(env.venue.value, db.coupons, body, db.now).Ok?
    requires IsWalletPart(part, Wallet.Balance(db.wallets, user), body.walletAmountToUse,
                          QuoteFor(env.venue.value, db.coupons, body, db.now).value.charge.amount)
    ensures var (after, r) := Create(db, user, body, key, env);
            var charge := QuoteFor(env.venue.value, db.coupons, body, db.now).value.charge;
            && r == Ok(db.nextGroup) && db.nextId + k in after.bookings && db.nextId + k !in db.bookings
            && IsBooked(after.bookings[db.nextId + k], db, user, body, key, slots[k], charge, PriceOf(db, body, env.venue.value),
                        part != charge.amount)
  {
    var q := QuoteFor(env.venue.value, db.coupons, body, db.now).value;
    SlotsAskedFor(body, slots);
    QuoteAnswered(db, body, env.venue.value);
    QuotedFinal(db, body, env.venue.value, k);
    CreateSucceeds(db, user, body, key, env);
    RowBooked(db, user, body, key, q, env.faults, k, part);
  }

  lemma RowBooked(db: Db, user: nat, body: CreateBookingDto, key: Option<string>, q: Quote, faults: Faults, k: nat, part: int)
    requires IdsUsed(db) && QuoteFits(q, body) && k < |RawSlots(body)| && q.finals[k] == Max(0, q.prices[k] - q.discounts[k])
    requires IsWalletPart(part, Wallet.Balance(db.wallets, user), body.walletAmountToUse, q.charge.amount)
    requires PayNew(WithRows(Prepared(db, user, body), user, body, key, q), FreshIds(db.nextId, |RawSlots(body)|), db.nextGroup, user, body,
                    q, faults).1.Ok?
    ensures var (after, r) := PayNew(WithRows(Prepared(db, user, body), user, body, key, q), FreshIds(db.nextId, |RawSlots(body)|),
                                     db.nextGroup, user, body, q, faults);
            && r == Ok(db.nextGroup) && db.nextId + k in after.bookings && db.nextId + k !in db.bookings
            && IsBooked(after.bookings[db.nextId + k], db, user, body, key, RawSlots(body)[k], q.charge, q.groupFinal, part != q.charge.amount)
  {
    PreparedAs(db, user, body, key, q);
    HoldInserted(db, Prepared(db, user, body), user, body, key, q, k);
    HoldPaid(db, WithRows(Prepared(db, user, body), user, body, key, q), user, body, key, q, faults, k, part);
  }

  lemma HoldPaid(db: Db, rows: Db, user: nat, body: CreateBookingDto, key: Option<string>, q: Quote, faults: Faults, k: nat, part: int)
    requires k < |RawSlots(body)| && IsWalletPart(part, Wallet.Balance(rows.wallets, user), body.walletAmountToUse, q.charge.amount)
    requires db.nextId + k in rows.bookings && db.nextId + k in FreshIds(db.nextId, |RawSlots(body)|)
    requires IsHold(rows.bookings[db.nextId + k], db, user, body, key, RawSlots(body)[k], db.nextGroup)
    requires PayNew(rows, FreshIds(db.nextId, |RawSlots(body)|), db.nextGroup, user, body, q, faults).1.Ok?
    ensures var (after, r) := PayNew(rows, FreshIds(db.nextId, |RawSlots(body)|), db.nextGroup, user, body, q, faults);
            && r == Ok(db.nextGroup) && db.nextId + k in after.bookings
            && IsBooked(after.bookings[db.nextId + k], db, user, body, key, RawSlots(body)[k], q.charge, q.groupFinal, part != q.charge.amount)
  {
    PaidRows(rows, FreshIds(db.nextId, |RawSlots(body)|), db.nextGroup, user, body, q, faults, db.nextId + k, part);
  }

  lemma QuotedFinal(db: Db, body: CreateBookingDto, venue: Venue, k: nat)
    requires QuoteFor(venue, db.coupons, body, db.now).Ok? && k < |RawSlots(body)|
    ensures var q := QuoteFor(venue, db.coupons, body, db.now).value;
            QuoteFits(q, body) && q.finals[k] == Max(0, q.prices[k] - q.discounts[k])
  {
  }

  /** What is charged for it, and who pays: the wallet at once, the card later, or nobody before the venue. */
  lemma ChargeAnswered(db: Db, body: CreateBookingDto, venue: Venue)
    requires QuoteFor(venue, db.coupons, body, db.now).Ok?
    ensures var charge, price, n := QuoteFor(venue, db.coupons, body, db.now).value.charge, PriceOf(db, body, venue), |RawSlots(body)|;
            charge == if body.customAmount.Some? && body.customAmount.value > 0
                      then AmountDue(body.customAmount.value, body.customAmount.value < price)
                      else if venue.minimumDepositAmount > 0 && n * venue.minimumDepositAmount < price
                      then AmountDue(n * venue.minimumDepositAmount, true)
                      else AmountDue(price, false)
  {
    QuoteAnswered(db, body, venue);
    WhatIsCharged(|RawSlots(body)|, venue.minimumDepositAmount, PriceOf(db, body, venue), body.customAmount);
  }

  /** A request by wallet is refused, with nothing inserted, if the wallet does not hold what is charged. */
  lemma WalletTooSmall(db: Db, user: nat, body: CreateBookingDto, key: Option<string>, env: Env, charge: AmountDue)
    requires GetsThrough(db, user, body, env) && body.paymentMethod == WalletMethod
    requires QuoteFor(env.venue.value, db.coupons, body, db.now).Ok?
    requires charge == QuoteFor(env.venue.value, db.coupons, body, db.now).value.charge
    requires Wallet.Balance(db.wallets, user) < charge.amount
    ensures var (after, r) := Create(db, user, body, key, env);
            && r == Err(WalletFailure(Wallet.InsufficientBalance))
            && after.bookings.Keys <= db.bookings.Keys && after.payments == db.payments
            && forall u: nat :: Wallet.Balance(after.wallets, u) == Wallet.Balance(db.wallets, u)
  {
  }

  lemma NewCouponCounted(db: Db, ids: seq<BookingId>, groupId: nat, user: nat, body: CreateBookingDto, q: Quote, faults: Faults, part: int)
    requires PayNew(db, ids, groupId, user, body, q, faults).1.Ok?
    requires IsWalletPart(part, Wallet.Balance(db.wallets, user), body.walletAmountToUse, q.charge.amount)
    ensures OneMoreUse(db.coupons, PayNew(db, ids, groupId, user, body, q, faults).0.coupons,
                       if body.paymentMethod == Paymob && part != q.charge.amount then None else Named(body))
  {
    PartIsWalletPart(part, Wallet.Balance(db.wallets, user), body.walletAmountToUse, q.charge.amount);
  }

  /** The coupon's use is counted as soon as the group is confirmed, and not while a card is waited for. */
  lemma CouponAnswered(db: Db, user: nat, body: CreateBookingDto, key: Option<string>, env: Env, part: int)
    requires env.venue.Some? && QuoteFor(env.venue.value, db.coupons, body, db.now).Ok? && Create(db, user, body, key, env).1.Ok?
    requires IsWalletPart(part, Wallet.Balance(db.wallets, user), body.walletAmountToUse,
                          QuoteFor(env.venue.value, db.coupons, body, db.now).value.charge.amount)
    ensures var charge := QuoteFor(env.venue.value, db.coupons, body, db.now).value.charge;
            OneMoreUse(db.coupons, Create(db, user, body, key, env).0.coupons,
                       if body.paymentMethod == Paymob && part != charge.amount then None else Named(body))
  {
    var q := QuoteFor(env.venue.value, db.coupons, body, db.now).value;
    CreateSucceeds(db, user, body, key, env);
    PreparedAs(db, user, body, key, q);
    NewCouponCounted(WithRows(Prepared(db, user, body), user, body, key, q), FreshIds(db.nextId, |RawSlots(body)|), db.nextGroup, user, body,
                     q, env.faults, part);
  }

  // ----- inserts -----

  /** A row that stays in the table is active at the start of the slot, lapsed or not. */
  predicate StartTaken(db: Db, user: nat, body: CreateBookingDto, slots: seq<Slot>, slot: Slot) {
    exists i ::
      && i in db.bookings && !OwnHoldOnIt(db, user, body, slots, db.bookings[i])
      && (db.bookings[i].claim.status == Confirmed || db.bookings[i].claim.status == Pending || db.bookings[i].claim.status == Completed)
      && db.bookings[i].claim.venue == body.venueId && db.bookings[i].claim.day == body.day && db.bookings[i].claim.start == slot.start
  }

  lemma StartTakenRefused(db: Db, user: nat, body: CreateBookingDto, slots: seq<Slot>, slot: Slot)
    requires AsksFor(body, slots)
    ensures StartTaken(db, user, body, slots, slot)
            <==> IndexRefuses(Claims(Cleared(db.bookings, user, body.venueId, body.day, RawSlots(body), db.now)), body.venueId, body.day, slot.start)
  {
    var cleared := Cleared(db.bookings, user, body.venueId, body.day, RawSlots(body), db.now);
    forall i | i in db.bookings ensures i in cleared <==> !OwnHoldOnIt(db, user, body, slots, db.bookings[i]) {
      HoldsReplaced(db, user, body, slots, db.bookings[i]);
    }
    if i :| i in Claims(cleared) && Active(Claims(cleared)[i]) && Claims(cleared)[i].venue == body.venueId && Claims(cleared)[i].day == body.day
            && Claims(cleared)[i].start == slot.start {
      assert cleared[i] == db.bookings[i];
    }
    if StartTaken(db, user, body, slots, slot) {
      var i :| i in db.bookings && !OwnHoldOnIt(db, user, body, slots, db.bookings[i])
        && (db.bookings[i].claim.status == Confirmed || db.bookings[i].claim.status == Pending || db.bookings[i].claim.status == Completed)
        && db.bookings[i].claim.venue == body.venueId && db.bookings[i].claim.day == body.day && db.bookings[i].claim.start == slot.start;
      assert i in Claims(cleared) && Active(Claims(cleared)[i]);
    }
  }

  lemma {:induction false} FirstInsertError(table: Table, venue: nat, day: int, slots: seq<Slot>, fails: Option<nat>, k: nat, m: nat)
    requires k <= m < |slots|
    requires fails == Some(m) || IndexRefuses(table, venue, day, slots[m].start)
    requires forall i :: k <= i < m ==> fails != Some(i) && !IndexRefuses(table, venue, day, slots[i].start)
    ensures InsertError(table, venue, day, slots, fails, k) == Some(if fails == Some(m) then InsertFailed else JustBooked)
    decreases m - k
  {
    if k < m {
      FirstInsertError(table, venue, day, slots, fails, k + 1, m);
    }
  }

  /**
   A priced request stops at the first slot whose row cannot be inserted, because the insert fails or another row that is
   active has its start, and is answered accordingly; none of its rows is left.
   */
  lemma InsertAnswered(db: Db, user: nat, body: CreateBookingDto, key: Option<string>, env: Env, slots: seq<Slot>, m: nat)
    requires GetsThrough(db, user, body, env) && AsksFor(body, slots) && m < |slots|
    requires QuoteFor(env.venue.value, db.coupons, body, db.now).Ok?
    requires body.paymentMethod == WalletMethod ==>
               QuoteFor(env.venue.value, db.coupons, body, db.now).value.charge.amount <= Wallet.Balance(db.wallets, user)
    requires env.faults.insertFails == Some(m) || StartTaken(db, user, body, slots, slots[m])
    requires forall i :: 0 <= i < m ==> env.faults.insertFails != Some(i) && !StartTaken(db, user, body, slots, slots[i])
    ensures var (after, r) := Create(db, user, body, key, env);
            && r == Err(if env.faults.insertFails == Some(m) then InsertFailed else JustBooked)
            && after.bookings.Keys <= db.bookings.Keys && after.payments == db.payments
  {
    SlotsAskedFor(body, slots);
    forall i | 0 <= i < |slots|
      ensures StartTaken(db, user, body, slots, slots[i])
              <==> IndexRefuses(Claims(Prepared(db, user, body).bookings), body.venueId, body.day, slots[i].start)
    {
      StartTakenRefused(db, user, body, slots, slots[i]);
    }
    FirstInsertError(Claims(Prepared(db, user, body).bookings), body.venueId, body.day, slots, env.faults.insertFails, 0, m);
    InsertStops(db, user, body, key, env);
  }

  lemma InsertStops(db: Db, user: nat, body: CreateBookingDto, key: Option<string>, env: Env)
    requires GetsThrough(db, user, body, env) && QuoteFor(env.venue.value, db.coupons, body, db.now).Ok?
    requires body.paymentMethod == WalletMethod ==>
               QuoteFor(env.venue.value, db.coupons, body, db.now).value.charge.amount <= Wallet.Balance(db.wallets, user)
    ensures var failure := InsertError(Claims(Prepared(db, user, body).bookings), body.venueId, body.day, RawSlots(body),
                                       env.faults.insertFails, 0);
            var (after, r) := Create(db, user, body, key, env);
            failure.Some? ==> r == Err(failure.value) && after.bookings == Prepared(db, user, body).bookings && after.payments == db.payments
  {
  }

  // ----- success -----

  /** A priced request succeeds exactly if every row can be inserted and the group, as inserted, can be paid for. */
  lemma RequestSucceedsIff(db: Db, user: nat, body: CreateBookingDto, key: Option<string>, env: Env, slots: seq<Slot>)
    requires GetsThrough(db, user, body, env) && AsksFor(body, slots)
    requires QuoteFor(env.venue.value, db.coupons, body, db.now).Ok?
    requires body.paymentMethod == WalletMethod ==>
               QuoteFor(env.venue.value, db.coupons, body, db.now).value.charge.amount <= Wallet.Balance(db.wallets, user)
    ensures var q := QuoteFor(env.venue.value, db.coupons, body, db.now).value;
            Create(db, user, body, key, env).1.Ok?
            <==> && (forall k :: 0 <= k < |slots| ==> env.faults.insertFails != Some(k) && !StartTaken(db, user, body, slots, slots[k]))
                 && PayGroup(WithRows(Prepared(db, user, body), user, body, key, q), user, FreshIds(db.nextId, |slots|), db.nextGroup,
                             q.charge, q.groupFinal, body.paymentMethod, body.walletAmountToUse, NormalizedCoupon(body.couponCode),
                             env.faults).1.Ok?
  {
    SlotsAskedFor(body, slots);
    forall i | 0 <= i < |slots|
      ensures StartTaken(db, user, body, slots, slots[i])
              <==> IndexRefuses(Claims(Prepared(db, user, body).bookings), body.venueId, body.day, slots[i].start)
    {
      StartTakenRefused(db, user, body, slots, slots[i]);
    }
    NoInsertErrorIff(Claims(Prepared(db, user, body).bookings), body.venueId, body.day, slots, env.faults.insertFails, 0);
    InsertsAndPays(db, user, body, key, env);
  }

  lemma {:induction false} NoInsertErrorIff(table: Table, venue: nat, day: int, slots: seq<Slot>, fails: Option<nat>, k: nat)
    requires k <= |slots|
    ensures InsertError(table, venue, day, slots, fails, k).None?
            <==> forall i :: k <= i < |slots| ==> fails != Some(i) && !IndexRefuses(table, venue, day, slots[i].start)
    decreases |slots| - k
  {
    if k < |slots| {
      NoInsertErrorIff(table, venue, day, slots, fails, k + 1);
    }
  }

  lemma InsertsAndPays(db: Db, user: nat, body: CreateBookingDto, key: Option<string>, env: Env)
    requires GetsThrough(db, user, body, env) && QuoteFor(env.venue.value, db.coupons, body, db.now).Ok?
    requires body.paymentMethod == WalletMethod ==>
               QuoteFor(env.venue.value, db.coupons, body, db.now).value.charge.amount <= Wallet.Balance(db.wallets, user)
    ensures var q := QuoteFor(env.venue.value, db.coupons, body, db.now).value;
            var failure := InsertError(Claims(Prepared(db, user, body).bookings), body.venueId, body.day, RawSlots(body),
                                       env.faults.insertFails, 0);
            Create(db, user, body, key, env).1
            == if failure.Some? then Err(failure.value)
               else PayNew(WithRows(Prepared(db, user, body), user, body, key, q), FreshIds(db.nextId, |RawSlots(body)|), db.nextGroup, user,
                           body, q, env.faults).1
  {
  }
}
