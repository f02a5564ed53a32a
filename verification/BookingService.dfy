/**
 The booking service: methods that update the store and the wallet call by call. Each is proved to do exactly what
 its function in BookingOperations says, which is what the theorems are about.
 */
module BookingServices {
  import opened Prelude
  import opened Money
  import opened Coupon
  import opened BookingRequest
  import opened Slots
  import opened Pricing
  import opened GroupPrice
  import opened Database
  import opened BookingOperations
  import opened BookingMoney
  import opened BookingTheorems
  import Wallet

  lemma OneMoreUpdated(before: Bookings, ids: seq<BookingId>, i: nat, f: Booking -> Booking, now: Bookings)
    requires i < |ids| && now == Updated(before, ids[..i], f)
    ensures Updated(before, ids[..i + 1], f) == if ids[i] in before then now[ids[i] := f(before[ids[i]])] else now
  {
  }

  /** The unique index as it stands after i confirmations. */
  lemma BlockedAsUpdated(before: Bookings, ids: seq<BookingId>, i: nat, f: Booking -> Booking, now: Bookings)
    requires i < |ids| && now == Updated(before, ids[..i], f)
    requires forall b: Booking :: f(b).claim == ConfirmedClaim(b.claim)
    ensures ids[i] in now <==> ids[i] in before
    ensures (ids[i] in now && IndexBlocks(Claims(now), ids[i])) <==> Blocked(before, ids, i)
  {
    if ids[i] in before {
      forall j | j in before
        ensures Active(Claims(now)[j]) <==> Active(before[j].claim) || j in ids[..i]
        ensures SameDay(Claims(now)[j], Claims(now)[ids[i]]) <==> SameDay(before[j].claim, before[ids[i]].claim)
        ensures Claims(now)[j].start == before[j].claim.start
      {
      }
    }
  }

  /** Whether the confirming update of member i fails, now that those before it are confirmed. */
  method UpdateRefused(bookings: Bookings, ids: seq<BookingId>, i: nat, fails: Option<nat>, ghost before: Bookings,
                       ghost f: Booking -> Booking) returns (refused: bool)
    requires i < |ids| && bookings == Updated(before, ids[..i], f)
    requires forall b: Booking :: f(b).claim == ConfirmedClaim(b.claim)
    ensures refused <==> fails == Some(i) || Blocked(before, ids, i)
  {
    BlockedAsUpdated(before, ids, i, f, bookings);
    refused := fails == Some(i) || (ids[i] in bookings && IndexBlocks(Claims(bookings), ids[i]));
  }

  lemma NothingUpdated(before: Bookings, ids: seq<BookingId>, f: Booking -> Booking)
    ensures Updated(before, ids[..0], f) == before
  {
  }

  /** The rows a request has inserted so far are in nobody's way: valid slots never start at the same hour. */
  lemma OwnRowsDoNotRefuse(db: Db, user: nat, body: CreateBookingDto, key: Option<string>, q: Quote, k: nat)
    requires QuoteFits(q, body) && SlotsValid(RawSlots(body)) && k < |RawSlots(body)|
    requires forall i :: i in FreshIds(db.nextId, k) ==> i !in db.bookings
    ensures IndexRefuses(Claims(db.bookings + RowsUpTo(db, user, body, key, q, k)), body.venueId, body.day, RawSlots(body)[k].start)
            <==> IndexRefuses(Claims(db.bookings), body.venueId, body.day, RawSlots(body)[k].start)
  {
    ValidSlotsDistinct(RawSlots(body));
    var venue, day, start := body.venueId, body.day, RawSlots(body)[k].start;
    var rows := RowsUpTo(db, user, body, key, q, k);
    var before, after := Claims(db.bookings), Claims(db.bookings + rows);
    if i :| i in before && Active(before[i]) && before[i].venue == venue && before[i].day == day && before[i].start == start {
      assert i in after && after[i] == before[i];
    }
    if i :| i in after && Active(after[i]) && after[i].venue == venue && after[i].day == day && after[i].start == start {
      assert i !in rows;
      assert i in before && after[i] == before[i];
    }
  }

  function RowsUpTo(db: Db, user: nat, body: CreateBookingDto, key: Option<string>, q: Quote, k: nat): Bookings
    requires QuoteFits(q, body) && k <= |RawSlots(body)|
  {
    NewRows(db.nextId, k, user, body, key, q, db.nextGroup, db.now + HOLD_DURATION)
  }

  lemma NextRow(db: Db, user: nat, body: CreateBookingDto, key: Option<string>, q: Quote, k: nat)
    requires QuoteFits(q, body) && k < |RawSlots(body)|
    ensures RowsUpTo(db, user, body, key, q, k + 1)
            == RowsUpTo(db, user, body, key, q, k)
                 [db.nextId + k := NewRow(user, body, key, q, db.nextGroup, db.now + HOLD_DURATION, k)]
  {
    FreshRange(db.nextId, k);
    FreshRange(db.nextId, k + 1);
  }

  lemma OneMoreRow(db: Db, user: nat, body: CreateBookingDto, key: Option<string>, q: Quote, k: nat)
    requires QuoteFits(q, body) && k < |RawSlots(body)|
    ensures (db.bookings + RowsUpTo(db, user, body, key, q, k))
              [db.nextId + k := NewRow(user, body, key, q, db.nextGroup, db.now + HOLD_DURATION, k)]
            == db.bookings + RowsUpTo(db, user, body, key, q, k + 1)
  {
    NextRow(db, user, body, key, q, k);
    PlusUpdate(db.bookings, RowsUpTo(db, user, body, key, q, k), db.nextId + k,
               NewRow(user, body, key, q, db.nextGroup, db.now + HOLD_DURATION, k));
  }

  lemma PlusUpdate(a: Bookings, b: Bookings, k: BookingId, row: Booking)
    ensures (a + b)[k := row] == a + b[k := row]
  {
  }

  lemma NewIdsAreFresh(db: Db, n: nat)
    requires IdsUsed(db)
    ensures forall i :: i in FreshIds(db.nextId, n) ==> i !in db.bookings
  {
  }

  lemma InsertsUndone(db: Db, user: nat, body: CreateBookingDto, key: Option<string>, q: Quote, k: nat)
    requires QuoteFits(q, body) && k <= |RawSlots(body)| && IdsUsed(db)
    ensures WithoutRows(db.bookings + RowsUpTo(db, user, body, key, q, k), FreshIds(db.nextId, k)) == db.bookings
  {
  }

  lemma NoStatusSet(bookings: Bookings, status: BookingStatus)
    ensures WithStatuses(bookings, {}, status) == bookings
  {
  }

  lemma OneMoreStatus(bookings: Bookings, ids: set<BookingId>, id: BookingId, status: BookingStatus)
    requires id in bookings && id !in ids
    ensures WithStatuses(bookings, ids, status)[id] == bookings[id]
    ensures WithStatuses(bookings, ids, status)[id := bookings[id].(claim := WithStatus(bookings[id].claim, status))]
            == WithStatuses(bookings, ids + {id}, status)
  {
  }

  lemma OverdueAfterExpiry(db: Db, lapsed: set<BookingId>, overdue: set<BookingId>)
    requires lapsed == set i | i in db.bookings && Lapsed(db.bookings[i].claim, db.now)
    requires var expired := WithStatuses(db.bookings, lapsed, Expired);
             overdue == set i | i in expired && Overdue(expired[i].claim, db.now)
    ensures forall past :: past <= overdue ==> CronOrder(db, lapsed, past)
    ensures CronCutShort(db, lapsed, overdue) == CronSwept(db)
  {
    var expired := WithStatuses(db.bookings, lapsed, Expired);
    forall i | i in overdue ensures i !in lapsed && Overdue(db.bookings[i].claim, db.now) {
      assert i in expired;
    }
    forall i | i in db.bookings
      ensures CronCutShort(db, lapsed, overdue).bookings[i] == CronSwept(db).bookings[i]
    {
      assert expired[i].claim == if Lapsed(db.bookings[i].claim, db.now) then WithStatus(db.bookings[i].claim, Expired) else db.bookings[i].claim;
    }
    assert CronCutShort(db, lapsed, overdue).bookings == CronSwept(db).bookings;
  }

  lemma SuspendNext(db: Db, found: seq<BookingId>, refundOk: seq<bool>, i: nat, before: Db, total: nat, after: Db, refunded: nat)
    requires |refundOk| == |found| && i < |found| && (before, total) == SuspendAll(db, found[..i], refundOk[..i])
    requires found[i] in before.bookings && (after, refunded) == SuspendOne(before, found[i], refundOk[i])
    ensures (after, total + refunded) == SuspendAll(db, found[..i + 1], refundOk[..i + 1])
    ensures after.bookings.Keys == before.bookings.Keys
  {
    assert found[..i + 1][..i] == found[..i] && refundOk[..i + 1][..i] == refundOk[..i];
  }

  class BookingService {
    const store: Store
    const wallet: Wallet.WalletService

    constructor (store: Store, wallet: Wallet.WalletService)
      ensures this.store == store && this.wallet == wallet
    {
      this.store, this.wallet := store, wallet;
    }

    function View(): Db
      reads store, wallet
    {
      store.View(wallet)
    }

    // ----- processGroupPayment -----

    /** The confirming update of one member: its share comes from the document as found. */
    method ConfirmMember(id: BookingId, b: Booking, charge: AmountDue, groupFinal: nat)
      requires id in store.bookings
      requires store.bookings[id] == b || store.bookings[id] == WalletConfirmed(b, charge, groupFinal)
      modifies store`bookings
      ensures store.bookings == old(store.bookings)[id := WalletConfirmed(b, charge, groupFinal)]
    {
      var total := if groupFinal == 0 then 1 else groupFinal;
      var bPaid := if charge.isDeposit then ToFixed(b.bill.finalPrice * charge.amount, total)
                   else Min(b.bill.finalPrice, b.bill.paidAmount + charge.amount);
      var bRemaining := Max(0, b.bill.finalPrice - bPaid);
      var status := if bRemaining == 0 || !charge.isDeposit then Paid else PartiallyPaid;
      var row := store.bookings[id];
      store.bookings := store.bookings[id :=
        Booking(row.claim.(status := Confirmed, expiresAt := None),
                row.bill.(paymentStatus := status, paymentMethod := WalletMethod, paidAmount := bPaid,
                          remainingAmount := bRemaining))];
    }

    /** Confirms the members one after the other, each from the document as it was found; stops where an update fails. */
    method ConfirmMembers(ids: seq<BookingId>, charge: AmountDue, groupFinal: nat, fails: Option<nat>) returns (stop: Option<nat>)
      modifies store`bookings
      ensures stop == StopsAt(old(store.bookings), ids, fails, 0)
      ensures store.bookings == Updated(old(store.bookings), Reached(ids, stop), b => WalletConfirmed(b, charge, groupFinal))
    {
      var createdBookings := store.bookings;
      ghost var f := b => WalletConfirmed(b, charge, groupFinal);
      NothingUpdated(createdBookings, ids, f);
      for i := 0 to |ids|
        invariant store.bookings == Updated(createdBookings, ids[..i], f)
        invariant StopsAt(createdBookings, ids, fails, 0) == StopsAt(createdBookings, ids, fails, i)
      {
        var refused := UpdateRefused(store.bookings, ids, i, fails, createdBookings, f);
        if refused {
          return Some(i);
        }
        OneMoreUpdated(createdBookings, ids, i, f, store.bookings);
        if ids[i] in store.bookings {
          ConfirmMember(ids[i], createdBookings[ids[i]], charge, groupFinal);
        }
      }
      assert ids[..|ids|] == ids;
      stop := None;
    }

    /** Counts the coupon's use, unless its save fails. */
    method CountCoupon(coupon: Option<string>, saveOk: bool) returns (ok: bool)
      modifies store`coupons
      ensures ok <==> CouponSaved(old(store.coupons), coupon, saveOk)
      ensures store.coupons == if ok then CouponUsed(old(store.coupons), Truthy(coupon)) else old(store.coupons)
    {
      if coupon.Some? && |coupon.value| > 0 && coupon.value in store.coupons {
        if !saveOk {
          return false;
        }
        var c := store.coupons[coupon.value];
        store.coupons := store.coupons[coupon.value := c.(usesCount := c.usesCount + 1)];
      }
      ok := true;
    }

    method ProcessGroupPaymentCompensating(user: nat, ids: seq<BookingId>, groupId: nat, charge: AmountDue, groupFinal: nat,
                                           coupon: Option<string>, faults: Faults) returns (r: Result<(), BookingError>)
      modifies store, wallet
      ensures (View(), r) == PayCompensating(old(View()), user, ids, groupId, charge, groupFinal, coupon, faults)
    {
      var debit := wallet.PayForBooking(user, charge.amount, faults.debitLedgerOk);
      if debit.Err? {
        return Err(WalletFailure(debit.error));
      }
      var stop := ConfirmMembers(ids, charge, groupFinal, faults.updateFails);
      var error := if stop.Some? then StopError(faults.updateFails, stop.value) else PaymentFailed;
      var ok := stop.None? && faults.paymentInsertOk;
      if ok {
        var row := Payment(groupId, user, charge.amount, 0, WalletMethod, Paid, None, 0);
        store.payments := store.payments[store.nextTransaction := row];
        store.nextTransaction := store.nextTransaction + 1;
        ok := CountCoupon(coupon, faults.couponSaveOk);
      }
      if !ok {
        var refund := wallet.RefundBooking(user, charge.amount, faults.refundLedgerOk);
        return Err(error);
      }
      r := Ok(());
    }

    method PayInCash(ids: seq<BookingId>, coupon: Option<string>, faults: Faults) returns (r: Result<(), BookingError>)
      modifies store
      ensures (View(), r) == PayCash(old(View()), ids, coupon, faults)
    {
      var createdBookings := store.bookings;
      NothingUpdated(createdBookings, ids, CashConfirmed);
      for i := 0 to |ids|
        invariant store.bookings == Updated(createdBookings, ids[..i], CashConfirmed)
        invariant View() == old(View()).(bookings := store.bookings)
        invariant StopsAt(createdBookings, ids, faults.updateFails, 0) == StopsAt(createdBookings, ids, faults.updateFails, i)
      {
        var refused := UpdateRefused(store.bookings, ids, i, faults.updateFails, createdBookings, CashConfirmed);
        if refused {
          return Err(StopError(faults.updateFails, i));
        }
        OneMoreUpdated(createdBookings, ids, i, CashConfirmed, store.bookings);
        if ids[i] in store.bookings {
          var row := store.bookings[ids[i]];
          store.bookings := store.bookings[ids[i] :=
            Booking(row.claim.(status := Confirmed, expiresAt := None),
                    row.bill.(paymentStatus := PayAtVenue, paymentMethod := Cash, paidAmount := 0,
                              remainingAmount := createdBookings[ids[i]].bill.finalPrice))];
        }
      }
      assert ids[..|ids|] == ids;
      var ok := CountCoupon(coupon, faults.couponSaveOk);
      r := if ok then Ok(()) else Err(PaymentFailed);
    }

    /** Tags the members as waiting for the card; stops where an update fails. */
    method TagMembers(ids: seq<BookingId>, fails: Option<nat>) returns (ok: bool)
      modifies store`bookings
      ensures ok <==> !(fails.Some? && fails.value < |ids|)
      ensures store.bookings == Updated(old(store.bookings), if ok then ids else ids[..fails.value], PaymobTagged)
    {
      ghost var before := store.bookings;
      NothingUpdated(before, ids, PaymobTagged);
      for i := 0 to |ids|
        invariant store.bookings == Updated(before, ids[..i], PaymobTagged)
        invariant fails.Some? ==> i <= fails.value
      {
        if fails == Some(i) {
          return false;
        }
        OneMoreUpdated(before, ids, i, PaymobTagged, store.bookings);
        if ids[i] in store.bookings {
          var row := store.bookings[ids[i]];
          store.bookings := store.bookings[ids[i] := row.(bill := row.bill.(paymentMethod := Paymob))];
        }
      }
      assert ids[..|ids|] == ids;
      ok := true;
    }

    method PayByCard(user: nat, ids: seq<BookingId>, groupId: nat, charge: AmountDue, groupFinal: nat,
                     walletAmountToUse: Option<int>, coupon: Option<string>, faults: Faults)
      returns (r: Result<(), BookingError>)
      modifies store, wallet
      ensures (View(), r) == PayPaymob(old(View()), user, ids, groupId, charge, groupFinal, walletAmountToUse, coupon, faults)
    {
      var balance := wallet.GetOrCreateWallet(user);
      var availableWallet := Max(0, balance);
      var walletDeduction := Min(availableWallet, charge.amount);
      if walletAmountToUse.Some? {
        walletDeduction := Min(Min(walletAmountToUse.value, availableWallet), charge.amount);
      }
      var paymobRemainder := Max(0, charge.amount - walletDeduction);
      if paymobRemainder == 0 && walletDeduction >= charge.amount {
        r := ProcessGroupPaymentCompensating(user, ids, groupId, charge, groupFinal, coupon, faults);
        return;
      }
      if !faults.paymentInsertOk {
        return Err(PaymentFailed);
      }
      store.payments := store.payments[store.nextTransaction :=
        Payment(groupId, user, charge.amount, walletDeduction, Paymob, Unpaid, None, 0)];
      store.nextTransaction := store.nextTransaction + 1;
      if !faults.gatewayOk {
        return Err(PaymentFailed);
      }
      var ok := TagMembers(ids, faults.updateFails);
      r := if ok then Ok(()) else Err(PaymentFailed);
    }

    method ProcessGroupPayment(user: nat, ids: seq<BookingId>, groupId: nat, charge: AmountDue, groupFinal: nat,
                               paymentMethod: PaymentMethod, walletAmountToUse: Option<int>, coupon: Option<string>,
                               faults: Faults) returns (r: Result<(), BookingError>)
      modifies store, wallet
      ensures (View(), r)
              == PayGroup(old(View()), user, ids, groupId, charge, groupFinal, paymentMethod, walletAmountToUse, coupon, faults)
    {
      if paymentMethod.WalletMethod? {
        r := ProcessGroupPaymentCompensating(user, ids, groupId, charge, groupFinal, coupon, faults);
      } else if paymentMethod.Cash? {
        r := PayInCash(ids, coupon, faults);
      } else {
        r := PayByCard(user, ids, groupId, charge, groupFinal, walletAmountToUse, coupon, faults);
      }
    }

    // ----- createBooking -----

    method DeleteRows(ids: seq<BookingId>)
      modifies store`bookings
      ensures store.bookings == WithoutRows(old(store.bookings), ids)
    {
      ghost var before := store.bookings;
      assert WithoutRows(before, ids[..0]) == before;
      for i := 0 to |ids|
        invariant store.bookings == WithoutRows(before, ids[..i])
      {
        assert ids[..i + 1] == ids[..i] + [ids[i]];
        store.bookings := store.bookings - {ids[i]};
      }
      assert ids[..|ids|] == ids;
    }

    method CheckRequest(body: CreateBookingDto, env: Env) returns (error: Option<BookingError>)
      ensures error == Precheck(body, env, store.now)
    {
      var rawSlots := RawSlots(body);
      var slotError := ValidateSlots(rawSlots);
      if slotError.Some? {
        return Some(BadSlots(slotError.value));
      }
      if env.customer.Suspended? || env.customer.Archived? || env.customer.Inactive? {
        return Some(AccountBlocked);
      }
      if env.venue.None? {
        return Some(VenueNotFound);
      }
      var venue := env.venue.value;
      if !venue.isActive {
        return Some(VenueInactive);
      }
      for i := 0 to |rawSlots|
        invariant forall k :: 0 <= k < i ==>
                    !(rawSlots[k].start < venue.startWorkingHours || rawSlots[k].end > venue.endWorkingHours)
      {
        if rawSlots[i].start < venue.startWorkingHours || rawSlots[i].end > venue.endWorkingHours {
          return Some(OutsideOpeningHours);
        }
      }
      for i := 0 to |rawSlots|
        invariant forall k :: 0 <= k < i ==> SlotTime(body.day, rawSlots[k].start) > store.now
      {
        if SlotTime(body.day, rawSlots[i].start) <= store.now {
          return Some(SlotInThePast);
        }
      }
      error := None;
    }

    /** The overlap stage: anyone else's live row on the slots is a conflict, the requester's own holds make way. */
    method ReplaceOwnHolds(user: nat, venue: nat, day: int, slots: seq<Slot>) returns (conflict: bool)
      modifies store`bookings
      ensures conflict <==> OverlapStageRejects(Claims(old(store.bookings)), user, venue, day, slots, store.now)
      ensures store.bookings
              == if conflict then old(store.bookings) else Cleared(old(store.bookings), user, venue, day, slots, store.now)
    {
      var bookings := store.bookings;
      var existing := set i | i in bookings && Active(bookings[i].claim) && CoversAny(bookings[i].claim, venue, day, slots);
      var validOverlaps := set i | i in existing && !Lapsed(bookings[i].claim, store.now);
      var thirdPartyConflicts :=
        set i | i in validOverlaps && !(bookings[i].claim.status.Pending? && bookings[i].claim.user == user);
      conflict := thirdPartyConflicts != {};
      assert forall i :: i in Claims(bookings) ==>
        (i in thirdPartyConflicts <==> Conflicts(Claims(bookings)[i], user, venue, day, slots, store.now));
      if conflict {
        var c :| c in thirdPartyConflicts;
        assert c in Claims(bookings);
        return;
      }
      var holds := set i | i in validOverlaps && bookings[i].claim.status.Pending? && bookings[i].claim.user == user;
      DeleteHolds(holds);
      assert forall i :: i in bookings ==> (i in holds <==> OwnHold(bookings[i].claim, user, venue, day, slots, store.now));
    }

    method DeleteHolds(holds: set<BookingId>)
      modifies store`bookings
      ensures store.bookings == map i | i in old(store.bookings) && i !in holds :: old(store.bookings)[i]
    {
      var rest := holds;
      ghost var bookings := store.bookings;
      while rest != {}
        invariant rest <= holds
        invariant store.bookings == bookings - (holds - rest)
        decreases rest
      {
        var myOldHold :| myOldHold in rest;
        store.bookings := store.bookings - {myOldHold};
        rest := rest - {myOldHold};
      }
    }

    method PriceRequest(venue: Venue, body: CreateBookingDto) returns (r: Result<Quote, BookingError>)
      requires SlotsValid(RawSlots(body))
      ensures r == QuoteFor(venue, store.coupons, body, store.now)
    {
      var rawSlots := RawSlots(body);
      assert forall k :: 0 <= k < |rawSlots| ==> SlotInRange(rawSlots[k]);
      var prices, totalRawPrice := PriceSlots(venue, body.day, rawSlots);
      var groupDiscountAmount, groupFinalPrice := 0, totalRawPrice as int;
      var code := Truthy(NormalizedCoupon(body.couponCode));
      if code.Some? {
        if code.value !in store.coupons {
          return Err(InvalidCoupon);
        }
        var coupon := store.coupons[code.value];
        if !coupon.isActive {
          return Err(CouponInactive);
        }
        if coupon.usesCount >= coupon.maxUses {
          return Err(CouponUsedUp);
        }
        if store.now < coupon.startDate || store.now > coupon.endDate {
          return Err(CouponOutOfDate);
        }
        var discountResult := CalculateCouponDiscount(coupon.kind, coupon.discount, totalRawPrice);
        groupDiscountAmount, groupFinalPrice := discountResult.discountAmount, discountResult.finalPrice;
      }
      var discounts, finals := AllocateDiscount(prices, totalRawPrice, groupDiscountAmount);
      match ChargeNow(|rawSlots|, venue.minimumDepositAmount, groupFinalPrice, body.customAmount)
      case Err(e) => r := Err(BadAmount(e));
      case Ok(charge) => r := Ok(Quote(prices, discounts, finals, groupFinalPrice, charge));
    }

    /** One insert: the k-th hold of the request, unless the insert fails or the unique index refuses it. */
    method InsertHold(ghost db: Db, user: nat, body: CreateBookingDto, key: Option<string>, q: Quote, base: BookingId, groupId: nat,
                      expiresAt: int, fails: Option<nat>, k: nat) returns (error: Option<BookingError>)
      requires QuoteFits(q, body) && SlotsValid(RawSlots(body)) && k < |RawSlots(body)| && IdsUsed(db)
      requires base == db.nextId && groupId == db.nextGroup && expiresAt == db.now + HOLD_DURATION
      requires store.bookings == db.bookings + RowsUpTo(db, user, body, key, q, k)
      modifies store`bookings
      ensures error == if fails == Some(k) then Some(InsertFailed)
                       else if IndexRefuses(Claims(db.bookings), body.venueId, body.day, RawSlots(body)[k].start) then Some(JustBooked)
                       else None
      ensures store.bookings == db.bookings + RowsUpTo(db, user, body, key, q, if error.None? then k + 1 else k)
    {
      NewIdsAreFresh(db, k);
      OwnRowsDoNotRefuse(db, user, body, key, q, k);
      OneMoreRow(db, user, body, key, q, k);
      var slot := RawSlots(body)[k];
      if fails == Some(k) {
        return Some(InsertFailed);
      }
      if IndexRefuses(Claims(store.bookings), body.venueId, body.day, slot.start) {
        return Some(JustBooked);
      }
      store.bookings := store.bookings[base + k :=
        Booking(Claim(user, body.venueId, body.day, slot.start, slot.end, groupId, Pending, Some(expiresAt)),
                Bill(q.prices[k], q.discounts[k], q.finals[k], 0, q.finals[k], Unpaid, body.paymentMethod,
                     NormalizedCoupon(body.couponCode), key, Fingerprint(body)))];
      error := None;
    }

    /** Inserts one pending hold a slot; when an insert fails the holds inserted before it are deleted. */
    method InsertAll(ghost db: Db, user: nat, body: CreateBookingDto, key: Option<string>, q: Quote, base: BookingId, groupId: nat,
                     expiresAt: int, fails: Option<nat>) returns (error: Option<BookingError>)
      requires QuoteFits(q, body) && SlotsValid(RawSlots(body)) && IdsUsed(db) && store.bookings == db.bookings
      requires base == db.nextId && groupId == db.nextGroup && expiresAt == db.now + HOLD_DURATION
      modifies store`bookings
      ensures error == InsertError(Claims(db.bookings), body.venueId, body.day, RawSlots(body), fails, 0)
      ensures error.None? ==> store.bookings == db.bookings + RowsUpTo(db, user, body, key, q, |RawSlots(body)|)
      ensures error.Some? ==> store.bookings == db.bookings
    {
      ghost var table := Claims(db.bookings);
      error := None;
      assert RowsUpTo(db, user, body, key, q, 0) == map[];
      for k := 0 to |RawSlots(body)|
        invariant store.bookings == db.bookings + RowsUpTo(db, user, body, key, q, k)
        invariant InsertError(table, body.venueId, body.day, RawSlots(body), fails, 0)
                  == InsertError(table, body.venueId, body.day, RawSlots(body), fails, k)
        invariant error.None?
      {
        error := InsertHold(db, user, body, key, q, base, groupId, expiresAt, fails, k);
        if error.Some? {
          DeleteInserted(db, user, body, key, q, base, k);
          return;
        }
      }
    }

    method InsertHolds(user: nat, body: CreateBookingDto, key: Option<string>, q: Quote, fails: Option<nat>)
      returns (error: Option<BookingError>)
      requires QuoteFits(q, body) && SlotsValid(RawSlots(body)) && IdsUsed(View())
      modifies store
      ensures error == InsertError(Claims(old(store.bookings)), body.venueId, body.day, RawSlots(body), fails, 0)
      ensures error.None? ==> View() == WithRows(old(View()), user, body, key, q)
      ensures error.Some? ==> View() == old(View()).(nextId := old(store.nextId) + |RawSlots(body)|,
                                                     nextGroup := old(store.nextGroup) + 1)
    {
      ghost var db := View();
      var base, groupId, expiresAt := store.nextId, store.nextGroup, store.now + HOLD_DURATION;
      store.nextId, store.nextGroup := base + |RawSlots(body)|, groupId + 1;
      error := InsertAll(db, user, body, key, q, base, groupId, expiresAt, fails);
    }

    method DeleteInserted(ghost db: Db, user: nat, body: CreateBookingDto, key: Option<string>, q: Quote, base: BookingId, k: nat)
      requires QuoteFits(q, body) && k <= |RawSlots(body)| && IdsUsed(db) && base == db.nextId
      requires store.bookings == db.bookings + RowsUpTo(db, user, body, key, q, k)
      modifies store`bookings
      ensures store.bookings == db.bookings
    {
      DeleteRows(FreshIds(base, k));
      InsertsUndone(db, user, body, key, q, k);
    }

    method PayNewGroup(ids: seq<BookingId>, groupId: nat, user: nat, body: CreateBookingDto, q: Quote, faults: Faults)
      returns (r: Result<nat, BookingError>)
      modifies store, wallet
      ensures (View(), r) == PayNew(old(View()), ids, groupId, user, body, q, faults)
    {
      var paid := ProcessGroupPayment(user, ids, groupId, q.charge, q.groupFinal, body.paymentMethod, body.walletAmountToUse,
                                      NormalizedCoupon(body.couponCode), faults);
      if paid.Err? {
        DeleteRows(ids);
        return Err(paid.error);
      }
      r := Ok(groupId);
    }

    method BookPriced(user: nat, body: CreateBookingDto, key: Option<string>, q: Quote, faults: Faults)
      returns (r: Result<nat, BookingError>)
      requires QuoteFits(q, body) && SlotsValid(RawSlots(body)) && IdsUsed(View())
      modifies store, wallet
      ensures (View(), r) == BookingOperations.BookPriced(old(View()), user, body, key, q, faults)
    {
      if body.paymentMethod.WalletMethod? {
        var balance := wallet.GetOrCreateWallet(user);
        if balance < q.charge.amount {
          return Err(WalletFailure(Wallet.InsufficientBalance));
        }
      }
      var base, groupId := store.nextId, store.nextGroup;
      var failure := InsertHolds(user, body, key, q, faults.insertFails);
      if failure.Some? {
        return Err(failure.value);
      }
      r := PayNewGroup(FreshIds(base, |RawSlots(body)|), groupId, user, body, q, faults);
    }

    method CreateBooking(user: nat, body: CreateBookingDto, key: Option<string>, env: Env) returns (r: Result<nat, BookingError>)
      requires IdsUsed(View())
      modifies store, wallet
      ensures (View(), r) == Create(old(View()), user, body, key, env)
    {
      var slots := RawSlots(body);
      SlotErrorMeaning(slots);
      var refusal := CheckRequest(body, env);
      if refusal.Some? {
        return Err(refusal.value);
      }
      if !env.lockFree {
        return Err(VenueBusy);
      }
      var conflict := ReplaceOwnHolds(user, body.venueId, body.day, slots);
      if conflict {
        return Err(SlotTaken);
      }
      var quote := PriceRequest(env.venue.value, body);
      if quote.Err? {
        return Err(quote.error);
      }
      r := BookPriced(user, body, key, quote.value, env.faults);
    }

    // ----- payBooking -----

    /** The group's price, what it still owes, and whether any member owes something. */
    method AddUp(found: seq<BookingId>) returns (totalFinal: nat, totalRemaining: int, someOwe: bool)
      ensures totalFinal == GroupTotalPrice(store.bookings, found)
      ensures totalRemaining == Sum(GroupRemaining(store.bookings, found))
      ensures someOwe <==> exists k :: 0 <= k < |found| && RemainingOf(store.bookings, found[k]) > 0
    {
      ghost var finals, remaining := GroupFinals(store.bookings, found), GroupRemaining(store.bookings, found);
      totalFinal, totalRemaining, someOwe := 0, 0, false;
      for i := 0 to |found|
        invariant totalFinal == Sum(finals[..i]) && totalRemaining == Sum(remaining[..i])
        invariant someOwe <==> exists k :: 0 <= k < i && RemainingOf(store.bookings, found[k]) > 0
      {
        SumTake(finals, i);
        SumTake(remaining, i);
        if found[i] in store.bookings {
          var bill := store.bookings[found[i]].bill;
          totalFinal := totalFinal + bill.finalPrice;
          totalRemaining := totalRemaining + bill.remainingAmount;
          someOwe := someOwe || bill.remainingAmount > 0;
        }
      }
      assert finals[..|found|] == finals && remaining[..|found|] == remaining;
    }

    /** `found` is the booking's group in the order the query returns it. */
    method PayBooking(id: BookingId, user: nat, body: PayRequest, found: seq<BookingId>, minimumDeposit: nat, faults: Faults)
      returns (r: Result<(), BookingError>)
      requires id in store.bookings ==> Listing(found, Group(store.bookings, store.bookings[id].claim.groupId))
      modifies store, wallet
      ensures (View(), r) == Pay(old(View()), id, user, body, found, minimumDeposit, faults)
    {
      if id !in store.bookings {
        return Err(BookingNotFound);
      }
      var booking := store.bookings[id];
      if booking.claim.user != user {
        return Err(NotAllowed);
      }
      if booking.claim.status.Cancelled? || booking.claim.status.Expired? {
        return Err(NotPayable);
      }
      if booking.bill.paymentStatus.Paid? {
        return Err(AlreadyPaid);
      }
      if booking.claim.expiresAt.Some? && booking.claim.expiresAt.value <= store.now && booking.claim.status.Pending? {
        store.bookings := store.bookings[id := booking.(claim := booking.claim.(status := Expired))];
        return Err(HoldExpired);
      }
      var totalGroupFinalPrice, totalRemaining, someOwe := AddUp(found);
      var amountDue := Ok(AmountDue(totalRemaining, false));
      if !(booking.claim.status.Confirmed? && someOwe) {
        amountDue := ChargeNow(|found|, minimumDeposit, totalGroupFinalPrice, body.customAmount);
      }
      if amountDue.Err? {
        return Err(BadAmount(amountDue.error));
      }
      var activeCouponCode := NormalizedCoupon(body.couponCode);
      if activeCouponCode.None? {
        activeCouponCode := NormalizedCoupon(booking.bill.couponCode);
      }
      r := ProcessGroupPayment(user, found, booking.claim.groupId, amountDue.value, totalGroupFinalPrice, body.paymentMethod,
                               body.walletAmountToUse, activeCouponCode, faults);
    }

    // ----- cancelBooking -----

    method CheckCancellation(booking: Booking, actor: nat, isStaffOrAdmin: bool) returns (error: Option<BookingError>)
      ensures error == CancelError(booking, actor, isStaffOrAdmin, store.now)
    {
      if booking.claim.user != actor && !isStaffOrAdmin {
        return Some(NotAllowed);
      }
      if booking.claim.status.Cancelled? {
        return Some(AlreadyCancelled);
      }
      if booking.claim.status.Completed? {
        return Some(AlreadyCompleted);
      }
      if !booking.claim.status.Pending? && !isStaffOrAdmin
         && SlotTime(booking.claim.day, booking.claim.start) - store.now < CANCELLATION_DEADLINE {
        return Some(TooCloseToStart);
      }
      error := None;
    }

    method CancelBooking(id: BookingId, actor: nat, isStaffOrAdmin: bool, refundLedgerOk: bool, updateOk: bool)
      returns (r: Result<(), BookingError>)
      modifies store, wallet
      ensures (View(), r) == if updateOk then Cancelling(old(View()), id, actor, isStaffOrAdmin, refundLedgerOk)
                             else CancelCutShort(old(View()), id, actor, isStaffOrAdmin, refundLedgerOk)
    {
      if id !in store.bookings {
        return Err(BookingNotFound);
      }
      var booking := store.bookings[id];
      var refusal := CheckCancellation(booking, actor, isStaffOrAdmin);
      if refusal.Some? {
        return Err(refusal.value);
      }
      var wasPaid := WasPaid(booking.bill.paymentStatus);
      var actualPaidAmount := booking.bill.paidAmount;
      if actualPaidAmount <= 0 {
        actualPaidAmount := if wasPaid then booking.bill.finalPrice else 0;
      }
      var targetPaymentStatus := booking.bill.paymentStatus;
      if wasPaid && actualPaidAmount > 0 {
        targetPaymentStatus := Refunded;
        // A refund that fails is logged, and the cancellation goes on.
        var refundRes := wallet.RefundBooking(booking.claim.user, actualPaidAmount, refundLedgerOk);
      }
      if !updateOk {
        return Err(UpdateFailed);
      }
      store.bookings := store.bookings[id :=
        Booking(booking.claim.(status := Cancelled, expiresAt := None),
                booking.bill.(paymentStatus := targetPaymentStatus, paidAmount := 0, remainingAmount := 0))];
      var code := Truthy(booking.bill.couponCode);
      if booking.claim.status.Confirmed? && code.Some? && code.value in store.coupons {
        var coupon := store.coupons[code.value];
        if coupon.usesCount > 0 {
          store.coupons := store.coupons[code.value := coupon.(usesCount := Max(0, coupon.usesCount - 1))];
        }
      }
      r := Ok(());
    }

    // ----- cleanExpiredAndNoShowBookings -----

    /** Updates the rows one by one, in any order, until an update fails. */
    method SetStatus(ids: set<BookingId>, status: BookingStatus, updateFails: Option<nat>) returns (reached: set<BookingId>)
      requires ids <= store.bookings.Keys
      modifies store`bookings
      ensures reached <= ids && (updateFails.None? ==> reached == ids)
      ensures store.bookings == WithStatuses(old(store.bookings), reached, status)
    {
      ghost var before := store.bookings;
      var rest := ids;
      reached := {};
      NoStatusSet(before, status);
      while rest != {}
        invariant rest <= ids && reached == ids - rest
        invariant store.bookings == WithStatuses(before, reached, status)
        decreases rest
      {
        if updateFails == Some(|reached|) {
          return;
        }
        var id :| id in rest;
        OneMoreStatus(before, reached, id, status);
        var booking := store.bookings[id];
        store.bookings := store.bookings[id := booking.(claim := booking.claim.(status := status))];
        rest, reached := rest - {id}, reached + {id};
      }
    }

    /** Holds that have lapsed expire first; then what is confirmed or pending past its end becomes a no-show. */
    method CleanExpiredAndNoShowBookings(updateFails: Option<nat>) returns (expired: set<BookingId>, past: set<BookingId>)
      modifies store`bookings
      ensures CronOrder(old(View()), expired, past) && View() == CronCutShort(old(View()), expired, past)
      ensures updateFails.None? ==> View() == CronSwept(old(View()))
    {
      ghost var db := View();
      var lapsed := set i | i in store.bookings && Lapsed(store.bookings[i].claim, store.now);
      past := {};
      expired := SetStatus(lapsed, Expired, updateFails);
      NoStatusSet(store.bookings, NoShow);
      if expired != lapsed {
        return;
      }
      var overdue := set i | i in store.bookings && Overdue(store.bookings[i].claim, store.now);
      OverdueAfterExpiry(db, expired, overdue);
      past := SetStatus(overdue, NoShow, if updateFails.Some? && updateFails.value >= |expired| then Some(updateFails.value - |expired|) else None);
    }

    // ----- cancelUpcomingBookingsForSuspendedUser -----

    method CancelForSuspension(id: BookingId, refundOk: bool) returns (refunded: nat)
      requires id in store.bookings
      modifies store, wallet
      ensures (View(), refunded) == SuspendOne(old(View()), id, refundOk)
    {
      refunded := 0;
      var booking := store.bookings[id];
      var msUntilStart := SlotTime(booking.claim.day, booking.claim.start) - store.now;
      var wasPaid := WasPaid(booking.bill.paymentStatus);
      var actualPaidAmount := booking.bill.paidAmount;
      if actualPaidAmount <= 0 {
        actualPaidAmount := if wasPaid then booking.bill.finalPrice else 0;
      }
      var refundAmount := SuspensionRefund(actualPaidAmount, msUntilStart);
      if wasPaid && refundAmount > 0 {
        var refundRes := wallet.RefundBooking(booking.claim.user, refundAmount, refundOk);
        if refundRes.Ok? {
          refunded := refundAmount;
        }
      }
      var status := if !wasPaid then Unpaid else if refundAmount > 0 then Refunded else Paid;
      store.bookings := store.bookings[id :=
        Booking(booking.claim.(status := Cancelled),
                booking.bill.(paymentStatus := status, paidAmount := 0, remainingAmount := 0))];
    }

    /** The refund of a row whose update then fails. */
    method RefundForSuspension(id: BookingId, refundOk: bool)
      requires id in store.bookings
      modifies wallet
      ensures View() == old(View()).(wallets := SuspendOne(old(View()), id, refundOk).0.wallets)
    {
      var refundAmount := RefundOnSuspension(store.bookings[id], store.now);
      if refundAmount > 0 {
        var refundRes := wallet.RefundBooking(store.bookings[id].claim.user, refundAmount, refundOk);
      }
    }

    /** The loop over the first n rows found. */
    method CancelFound(found: seq<BookingId>, refundOk: seq<bool>, n: nat) returns (cancelledCount: nat, totalRefunded: nat)
      requires n <= |refundOk| == |found| && forall k :: 0 <= k < |found| ==> found[k] in store.bookings
      modifies store, wallet
      ensures (View(), totalRefunded) == SuspendAll(old(View()), found[..n], refundOk[..n])
      ensures cancelledCount == n && store.bookings.Keys == old(store.bookings).Keys
    {
      ghost var db := View();
      cancelledCount, totalRefunded := 0, 0;
      for i := 0 to n
        invariant (View(), totalRefunded) == SuspendAll(db, found[..i], refundOk[..i])
        invariant store.bookings.Keys == db.bookings.Keys
        invariant cancelledCount == i
      {
        ghost var before := View();
        var refunded := CancelForSuspension(found[i], refundOk[i]);
        SuspendNext(db, found, refundOk, i, before, totalRefunded, View(), refunded);
        totalRefunded := totalRefunded + refunded;
        cancelledCount := cancelledCount + 1;
      }
    }

    /** `found` is the user's upcoming bookings in the order the query returns them. */
    method CancelUpcomingBookingsForSuspendedUser(user: nat, found: seq<BookingId>, refundOk: seq<bool>, updateFails: Option<nat>)
      returns (cancelledCount: nat, totalRefunded: nat)
      requires |refundOk| == |found| && Listing(found, SuspensionRows(View(), user))
      modifies store, wallet
      ensures updateFails.None? || updateFails.value >= |found| ==>
                (View(), totalRefunded) == SuspendAll(old(View()), found, refundOk) && cancelledCount == |found|
      ensures updateFails.Some? && updateFails.value < |found| ==> View() == SuspendCutShort(old(View()), found, refundOk, updateFails.value)
    {
      var n := if updateFails.Some? && updateFails.value < |found| then updateFails.value else |found|;
      forall k | 0 <= k < |found| ensures found[k] in store.bookings {
        assert found[k] in found && found[k] in SuspensionRows(View(), user);
      }
      cancelledCount, totalRefunded := CancelFound(found, refundOk, n);
      if n < |found| {
        RefundForSuspension(found[n], refundOk[n]);
      } else {
        assert found[..n] == found && refundOk[..n] == refundOk;
      }
    }
  }
}
