/** What a group's card payments take, against what its members record as paid. */
module GroupMoney {
  import opened Prelude
  import opened Money
  import opened BookingRequest
  import opened Slots
  import opened GroupPrice
  import opened Database
  import opened BookingOperations
  import opened BookingMoney
  import opened Payments
  import opened PaymentTheorems
  import Wallet

  /** What the members of the group are down for. */
  function Recorded(bookings: Bookings, found: seq<BookingId>): int
    requires forall k :: 0 <= k < |found| ==> found[k] in bookings
  {
    Sum(Paid0(bookings, found))
  }

  /** What a callback takes: the card amount, and what has left the wallet. */
  function Took(db: Db, cb: Callback, after: Db): int
    requires cb.reference in db.payments
  {
    var p := db.payments[cb.reference];
    EffectiveCardPaid(p, cb) + Wallet.Balance(db.wallets, p.user) - Wallet.Balance(after.wallets, p.user)
  }

  /** A success, not late, not cut short, whose card and wallet parts cover the price of the whole group. */
  predicate Covers(db: Db, cb: Callback, found: seq<BookingId>, faults: CallbackFaults) {
    && cb.reference in db.payments && db.payments[cb.reference].status.Unpaid? && |found| > 0
    && cb.success && !cb.pending && !UsedElsewhere(db.payments, cb.reference, cb.paymobId)
    && !AnyTooLate(Claims(db.bookings), db.payments[cb.reference].groupId, db.now)
    && StopsAt(db.bookings, found, faults.updateFails, 0).None? && PaidWithin(db.bookings, found)
    && EffectiveCardPaid(db.payments[cb.reference], cb) + db.payments[cb.reference].walletDeduction
       >= GroupTotalPrice(db.bookings, found)
  }

  /** It leaves every member down for its price. */
  lemma CoveredGroup(db: Db, cb: Callback, found: seq<BookingId>, faults: CallbackFaults)
    requires Covers(db, cb, found, faults)
    ensures var after := Webhook(db, cb, found, faults).0;
            && cb.reference in after.payments && after.payments[cb.reference].status.Paid?
            && PaidWithin(after.bookings, found)
            && Recorded(after.bookings, found) == GroupTotalPrice(db.bookings, found) == GroupTotalPrice(after.bookings, found)
  {
    var p, due := db.payments[cb.reference], GroupTotalPrice(db.bookings, found);
    var after := OnTimeSuccess(db, cb, found, faults).0;
    OnTimeGives(db, cb, found, faults);
    OnTimeIs(db, cb, found, faults);
    forall k | 0 <= k < |found|
      ensures found[k] in after.bookings
      ensures after.bookings[found[k]].bill.paidAmount == after.bookings[found[k]].bill.finalPrice == GroupFinals(db.bookings, found)[k]
    {
      ConfirmedMembers(db.bookings, after.bookings, found, EffectiveCardPaid(p, cb) + p.walletDeduction, k);
    }
    assert Paid0(after.bookings, found) == GroupFinals(db.bookings, found) == GroupFinals(after.bookings, found);
  }

  /**
   What such a payment takes is what its members come to record for it if and only if the card amount, the wallet part if
   the wallet holds it, and what the members had recorded before are the price of the group. Anything above that is kept
   by the payment and by no booking; a wallet part that the wallet does not hold is recorded all the same.
   */
  lemma TakenIsRecordedIff(db: Db, cb: Callback, found: seq<BookingId>, faults: CallbackFaults)
    requires Covers(db, cb, found, faults) && faults.debitLedgerOk && db.payments[cb.reference].walletDeduction >= 0
    ensures var after, p := Webhook(db, cb, found, faults).0, db.payments[cb.reference];
            var part := if p.walletDeduction <= Wallet.Balance(db.wallets, p.user) then p.walletDeduction else 0;
            Took(db, cb, after) == Recorded(after.bookings, found) - Recorded(db.bookings, found)
            <==> EffectiveCardPaid(p, cb) + part + Recorded(db.bookings, found) == GroupTotalPrice(db.bookings, found)
  {
    CoveredGroup(db, cb, found, faults);
    SuccessTakesWalletPart(db, cb, found, faults);
  }

  /**
   Two card payments of one group, both paid: both count as fulfilled, and the members record the price once. What the
   second takes is recorded nowhere and credited nowhere.
   */
  lemma SecondPaymentUnrecorded(db: Db, first: Callback, second: Callback, found: seq<BookingId>, faults: CallbackFaults,
                                more: CallbackFaults)
    requires Covers(db, first, found, faults) && first.reference != second.reference
    requires Covers(Webhook(db, first, found, faults).0, second, found, more)
    ensures var one := Webhook(db, first, found, faults).0;
            var two := Webhook(one, second, found, more).0;
            && first.reference in two.payments && two.payments[first.reference].status.Paid?
            && second.reference in two.payments && two.payments[second.reference].status.Paid?
            && Recorded(two.bookings, found) == Recorded(one.bookings, found) == GroupTotalPrice(db.bookings, found)
            && (Took(one, second, two) == Recorded(two.bookings, found) - Recorded(one.bookings, found) <==> Took(one, second, two) == 0)
  {
    var one := Webhook(db, first, found, faults).0;
    CoveredGroup(db, first, found, faults);
    CoveredGroup(one, second, found, more);
    OnTimeIs(one, second, found, more);
    OtherPaymentStays(one, second, found, more, first.reference);
  }

  lemma OtherPaymentStays(db: Db, cb: Callback, found: seq<BookingId>, faults: CallbackFaults, t: TransactionId)
    requires t in db.payments && t != cb.reference
    ensures t in Webhook(db, cb, found, faults).0.payments && Webhook(db, cb, found, faults).0.payments[t] == db.payments[t]
  {
  }
}
