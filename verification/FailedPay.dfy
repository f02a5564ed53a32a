/** What a payBooking that fails leaves behind: its refund undoes the debit, nothing undoes the confirmations. */
module FailedPay {
  import opened Prelude
  import opened Money
  import opened Coupon
  import opened BookingRequest
  import opened Slots
  import opened GroupPrice
  import opened Database
  import opened BookingOperations
  import opened BookingTheorems
  import opened PaySafety
  import Wallet

  /** The same booking, but for the payment method it is tagged with. */
  predicate SameStanding(a: Booking, b: Booking) {
    a.claim == b.claim && a.bill.(paymentMethod := b.bill.paymentMethod) == b.bill
  }

  predicate AllStand(before: Bookings, after: Bookings) {
    after.Keys == before.Keys && forall i :: i in before ==> SameStanding(before[i], after[i])
  }

  /** A member that the payment would confirm is what it would be made already: confirmed, with that very share. */
  predicate AlreadySo(b: Booking, charge: AmountDue, groupFinal: nat, cash: bool) {
    && b.claim == ConfirmedClaim(b.claim)
    && Share(b.bill.paidAmount, b.bill.remainingAmount, b.bill.paymentStatus)
       == if cash then Share(0, b.bill.finalPrice, PayAtVenue)
          else ConfirmedShare(b.bill.finalPrice, b.bill.paidAmount, charge.amount, groupFinal, charge.isDeposit)
  }

  /** Rows after the members in ids have been confirmed, or after some rows have been tagged for the card. */
  predicate ConfirmedOrTagged(before: Bookings, after: Bookings, ids: seq<BookingId>, charge: AmountDue, groupFinal: nat, cash: bool) {
    && after.Keys == before.Keys
    && forall i :: i in before ==>
         if i in ids then after[i] == if cash then CashConfirmed(before[i]) else WalletConfirmed(before[i], charge, groupFinal)
         else SameStanding(before[i], after[i])
  }

  lemma StandIff(before: Bookings, after: Bookings, ids: seq<BookingId>, charge: AmountDue, groupFinal: nat, cash: bool)
    requires ConfirmedOrTagged(before, after, ids, charge, groupFinal, cash)
    ensures AllStand(before, after) <==> forall i :: i in ids && i in before ==> AlreadySo(before[i], charge, groupFinal, cash)
  {
    forall i | i in before && i in ids ensures SameStanding(before[i], after[i]) <==> AlreadySo(before[i], charge, groupFinal, cash) {
    }
  }

  lemma CompensatingConfirmsOrTags(db: Db, user: nat, ids: seq<BookingId>, groupId: nat, charge: AmountDue, groupFinal: nat,
                                   coupon: Option<string>, faults: Faults)
    ensures ConfirmedOrTagged(db.bookings, PayCompensating(db, user, ids, groupId, charge, groupFinal, coupon, faults).0.bookings,
                              ByWallet(db, user, ids, charge, faults), charge, groupFinal, false)
  {
  }

  lemma CashConfirmsOrTags(db: Db, ids: seq<BookingId>, charge: AmountDue, groupFinal: nat, coupon: Option<string>, faults: Faults)
    ensures ConfirmedOrTagged(db.bookings, PayCash(db, ids, coupon, faults).0.bookings,
                              Reached(ids, StopsAt(db.bookings, ids, faults.updateFails, 0)), charge, groupFinal, true)
  {
  }

  lemma PaymobConfirmsOrTags(db: Db, user: nat, ids: seq<BookingId>, groupId: nat, charge: AmountDue, groupFinal: nat,
                             walletAmountToUse: Option<int>, coupon: Option<string>, faults: Faults)
    ensures ConfirmedOrTagged(db.bookings, PayPaymob(db, user, ids, groupId, charge, groupFinal, walletAmountToUse, coupon, faults).0.bookings,
                              if WalletPart(Wallet.Balance(db.wallets, user), walletAmountToUse, charge.amount) >= charge.amount
                              then ByWallet(db.(wallets := Wallet.Upserted(db.wallets, user)), user, ids, charge, faults) else [],
                              charge, groupFinal, false)
  {
    CompensatingConfirmsOrTags(db.(wallets := Wallet.Upserted(db.wallets, user)), user, ids, groupId, charge, groupFinal, coupon, faults);
  }

  lemma PayConfirmsOrTags(db: Db, id: BookingId, user: nat, body: PayRequest, found: seq<BookingId>, minimumDeposit: nat,
                          faults: Faults, charge: AmountDue)
    requires id in db.bookings && PayError(db.bookings[id], user, db.now).None?
    requires PayCharge(db.bookings, db.bookings[id], found, minimumDeposit, body.customAmount) == Ok(charge)
    ensures ConfirmedOrTagged(db.bookings, Pay(db, id, user, body, found, minimumDeposit, faults).0.bookings,
                              Confirmations(db, id, user, body, found, minimumDeposit, faults), charge,
                              GroupTotalPrice(db.bookings, found), body.paymentMethod.Cash?)
  {
    var b, groupFinal := db.bookings[id], GroupTotalPrice(db.bookings, found);
    match body.paymentMethod
    case WalletMethod =>
      CompensatingConfirmsOrTags(db, user, found, b.claim.groupId, charge, groupFinal, PayCoupon(b, body), faults);
    case Cash => CashConfirmsOrTags(db, found, charge, groupFinal, PayCoupon(b, body), faults);
    case Paymob =>
      PaymobConfirmsOrTags(db, user, found, b.claim.groupId, charge, groupFinal, body.walletAmountToUse, PayCoupon(b, body), faults);
  }

  /**
   A payment that fails, and whose refund works, leaves every balance as it was. It leaves every booking standing as it
   was if and only if each member that it had confirmed by then had been exactly so before.
   */
  lemma FailedPayLeavesIff(db: Db, id: BookingId, user: nat, body: PayRequest, found: seq<BookingId>, minimumDeposit: nat,
                           faults: Faults, charge: AmountDue)
    requires id in db.bookings && PayError(db.bookings[id], user, db.now).None?
    requires PayCharge(db.bookings, db.bookings[id], found, minimumDeposit, body.customAmount) == Ok(charge) && charge.amount >= 0
    requires Pay(db, id, user, body, found, minimumDeposit, faults).1.Err? && faults.refundLedgerOk
    ensures var after := Pay(db, id, user, body, found, minimumDeposit, faults).0;
            && SameBalances(db.wallets, after.wallets)
            && (AllStand(db.bookings, after.bookings) <==>
                  forall i :: i in Confirmations(db, id, user, body, found, minimumDeposit, faults) && i in db.bookings ==>
                    AlreadySo(db.bookings[i], charge, GroupTotalPrice(db.bookings, found), body.paymentMethod.Cash?))
  {
    var b, groupFinal := db.bookings[id], GroupTotalPrice(db.bookings, found);
    PayConfirmsOrTags(db, id, user, body, found, minimumDeposit, faults, charge);
    StandIff(db.bookings, Pay(db, id, user, body, found, minimumDeposit, faults).0.bookings,
             Confirmations(db, id, user, body, found, minimumDeposit, faults), charge, groupFinal, body.paymentMethod.Cash?);
    PayGroupFails(db, user, found, b.claim.groupId, charge, groupFinal, body.paymentMethod, body.walletAmountToUse, PayCoupon(b, body),
                  faults);
  }

  /** For a group of holds, none of them confirmed yet: if and only if it stopped before it had confirmed any. */
  lemma FailedFirstPayLeavesIff(db: Db, id: BookingId, user: nat, body: PayRequest, found: seq<BookingId>, minimumDeposit: nat,
                                faults: Faults, charge: AmountDue)
    requires id in db.bookings && PayError(db.bookings[id], user, db.now).None?
    requires PayCharge(db.bookings, db.bookings[id], found, minimumDeposit, body.customAmount) == Ok(charge) && charge.amount >= 0
    requires Pay(db, id, user, body, found, minimumDeposit, faults).1.Err? && faults.refundLedgerOk
    requires forall i :: i in found ==> i in db.bookings && !db.bookings[i].claim.status.Confirmed?
    ensures AllStand(db.bookings, Pay(db, id, user, body, found, minimumDeposit, faults).0.bookings)
            <==> Confirmations(db, id, user, body, found, minimumDeposit, faults) == []
  {
    FailedPayLeavesIff(db, id, user, body, found, minimumDeposit, faults, charge);
    ConfirmedAreMembers(db, id, user, body, found, minimumDeposit, faults);
    var ids := Confirmations(db, id, user, body, found, minimumDeposit, faults);
    if ids != [] {
      assert ids[0] in ids && ids[0] in found;
    }
  }

  /** A member confirmed by the wallet is worth a refund exactly if it has a price, whatever its share. */
  lemma ConfirmedIsWorth(b: Booking, charge: AmountDue, groupFinal: nat)
    ensures RefundFor(WalletConfirmed(b, charge, groupFinal)) > 0 <==> b.bill.finalPrice > 0
    ensures RefundFor(WalletConfirmed(b, charge, groupFinal)) >= 0
  {
    if b.bill.finalPrice == 0 {
      var total := if groupFinal == 0 then 1 else groupFinal;
      ToFixedUnique(0, total, 0);
    }
  }

  /**
   So a failed payment can be turned into money: a member it had confirmed is cancelled afterwards, and the wallet ends
   higher than before the payment by that member's refund, which is something exactly if the member has a price.
   */
  lemma FailedPayThenCancelled(db: Db, id: BookingId, user: nat, body: PayRequest, found: seq<BookingId>, minimumDeposit: nat,
                               faults: Faults, charge: AmountDue, i: BookingId)
    requires id in db.bookings && PayError(db.bookings[id], user, db.now).None? && !body.paymentMethod.Cash?
    requires PayCharge(db.bookings, db.bookings[id], found, minimumDeposit, body.customAmount) == Ok(charge) && charge.amount >= 0
    requires Pay(db, id, user, body, found, minimumDeposit, faults).1.Err? && faults.refundLedgerOk
    requires i in Confirmations(db, id, user, body, found, minimumDeposit, faults) && i in db.bookings
    requires db.bookings[i].claim.user == user && SlotTime(db.bookings[i].claim.day, db.bookings[i].claim.start) - db.now >= CANCELLATION_DEADLINE
    ensures var after := Pay(db, id, user, body, found, minimumDeposit, faults).0;
            var (end, r) := Cancelling(after, i, user, false, true);
            && i in after.bookings && r.Ok?
            && Wallet.Balance(end.wallets, user) == Wallet.Balance(db.wallets, user) + RefundFor(after.bookings[i])
            && (RefundFor(after.bookings[i]) > 0 <==> db.bookings[i].bill.finalPrice > 0)
  {
    var after := Pay(db, id, user, body, found, minimumDeposit, faults).0;
    FailedPayLeavesIff(db, id, user, body, found, minimumDeposit, faults, charge);
    PayConfirmsOrTags(db, id, user, body, found, minimumDeposit, faults, charge);
    ConfirmedIsWorth(db.bookings[i], charge, GroupTotalPrice(db.bookings, found));
    SameClock(db, id, user, body, found, minimumDeposit, faults);
    ConfirmedCancels(after, i, user);
  }

  lemma SameClock(db: Db, id: BookingId, user: nat, body: PayRequest, found: seq<BookingId>, minimumDeposit: nat, faults: Faults)
    requires id in db.bookings && PayError(db.bookings[id], user, db.now).None?
    ensures Pay(db, id, user, body, found, minimumDeposit, faults).0.now == db.now
  {
    PayConfirms(db, id, user, body, found, minimumDeposit, faults);
  }

  lemma ConfirmedCancels(db: Db, i: BookingId, user: nat)
    requires i in db.bookings && db.bookings[i].claim.status.Confirmed? && db.bookings[i].claim.user == user
    requires SlotTime(db.bookings[i].claim.day, db.bookings[i].claim.start) - db.now >= CANCELLATION_DEADLINE
    requires RefundFor(db.bookings[i]) >= 0
    ensures var (end, r) := Cancelling(db, i, user, false, true);
            r.Ok? && Wallet.Balance(end.wallets, user) == Wallet.Balance(db.wallets, user) + RefundFor(db.bookings[i])
  {
  }

  // ----- a run in which nothing but the index refuses -----

  /** User 7 holds one booking and has cancelled the other, whose hour was sold to user 8 under the same start. */
  function RefusedRows(): Table {
    map[1 := Claim(7, 1, 1, 18, 20, 5, Pending, Some(900)), 2 := Claim(7, 1, 1, 20, 21, 5, Cancelled, None),
        3 := Claim(8, 1, 1, 20, 22, 6, Confirmed, None)]
  }

  function RefusedDb(): Db {
    Db(0, map i | i in RefusedRows() :: ResoldBooking(RefusedRows()[i]), map[], map[], Wallet.State(map[7 := 200], []), 4, 7, 0)
  }

  lemma RefusedStops(db: Db)
    requires db == RefusedDb()
    ensures StopsAt(db.bookings, [1, 2], None, 0) == Some(1)
    ensures 1 in db.bookings && db.bookings[1] == ResoldBooking(RefusedRows()[1])
    ensures GroupTotalPrice(db.bookings, [1, 2]) == 200
  {
    assert 2 in db.bookings && 3 in db.bookings;
    assert db.bookings[1].claim == RefusedRows()[1] && db.bookings[2].claim == RefusedRows()[2] && db.bookings[3].claim == RefusedRows()[3];
    assert !Blocked(db.bookings, [1, 2], 0);
    assert Blocked(db.bookings, [1, 2], 1) by {
      assert Active(db.bookings[3].claim) && SameDay(db.bookings[3].claim, db.bookings[2].claim);
    }
    assert StopsAt(db.bookings, [1, 2], None, 1) == Some(1);
    assert GroupFinals(db.bookings, [1, 2]) == [] + [100] + [100];
    SumSnoc([], 100);
    SumSnoc([] + [100], 100);
  }

  /**
   Pay for the booking still held, be told that a slot was just booked, and cancel: the wallet held 200 and ends with 300.
   */
  lemma RefusedPaymentPaysOut()
    ensures var db := RefusedDb();
            var (after, r) := Pay(db, 1, 7, PayRequest(WalletMethod, None, None, None), [1, 2], 0, NO_FAULTS);
            var end := Cancelling(after, 1, 7, false, true).0;
            && r == Err(JustBooked) && Wallet.Balance(db.wallets, 7) == Wallet.Balance(after.wallets, 7) == 200
            && Wallet.Balance(end.wallets, 7) == 300
  {
    var db, body := RefusedDb(), PayRequest(WalletMethod, None, None, None);
    RefusedStops(db);
    var charge := AmountDue(200, false);
    assert PayError(db.bookings[1], 7, 0).None?;
    assert PayCharge(db.bookings, db.bookings[1], [1, 2], 0, None) == Ok(charge);
    var ids := Confirmations(db, 1, 7, body, [1, 2], 0, NO_FAULTS);
    assert ids == [1, 2][..1] == [1];
    RefusedAnswer(db);
    FailedPayThenCancelled(db, 1, 7, body, [1, 2], 0, NO_FAULTS, charge, 1);
    FailedPayLeavesIff(db, 1, 7, body, [1, 2], 0, NO_FAULTS, charge);
    PayConfirmsOrTags(db, 1, 7, body, [1, 2], 0, NO_FAULTS, charge);
    assert RefundFor(WalletConfirmed(db.bookings[1], charge, 200)) == 100;
  }

  lemma RefusedAnswer(db: Db)
    requires db == RefusedDb()
    ensures Pay(db, 1, 7, PayRequest(WalletMethod, None, None, None), [1, 2], 0, NO_FAULTS).1 == Err(JustBooked)
  {
    RefusedStops(db);
    assert PayError(db.bookings[1], 7, 0).None?;
    assert PayCharge(db.bookings, db.bookings[1], [1, 2], 0, None) == Ok(AmountDue(200, false));
  }
}
