/** What a Paymob callback and a refund answer and do, in terms of the documents alone. */
module CallbackAnswers {
  import opened Prelude
  import opened Money
  import opened BookingRequest
  import opened Slots
  import opened Database
  import opened BookingOperations
  import opened BookingAnswers
  import opened Payments
  import opened PaymentTheorems
  import Wallet

  // ----- callbacks -----

  /** The card amount: what the callback says, or what was expected if it says nothing. */
  function CardPaid(p: Payment, cb: Callback): int {
    if cb.amountCents > 0 then cb.amountCents else p.amount
  }

  /** Another payment was paid in full with the same card transaction. */
  predicate CardUsed(db: Db, cb: Callback) {
    cb.paymobId != None && exists u :: u in db.payments && u != cb.reference && db.payments[u].paymobTransactionId == cb.paymobId
                                       && db.payments[u].status == Paid
  }

  /** A booking of the group is expired, cancelled, or a hold that has run out. */
  predicate SomeGone(db: Db, groupId: nat) {
    exists i :: i in db.bookings && db.bookings[i].claim.groupId == groupId
                && (db.bookings[i].claim.status == Expired || db.bookings[i].claim.status == Cancelled
                    || (db.bookings[i].claim.status == Pending && db.bookings[i].claim.expiresAt.Some?
                        && db.bookings[i].claim.expiresAt.value <= db.now))
  }

  /** Late: the card amount is credited and the payment refunded; what is left of the group expires. */
  ghost predicate IsCreditedLate(db: Db, cb: Callback, found: seq<BookingId>, faults: CallbackFaults, after: Db, r: Outcome)
    requires cb.reference in db.payments
  {
    var p := db.payments[cb.reference];
    var amount := CardPaid(p, cb);
    var credited := amount > 0 && faults.creditLedgerOk;
    var stops := faults.updateFails.Some? && faults.updateFails.value < |found|;
    var n := if !credited then 0 else if stops then faults.updateFails.value else |found|;
    && r == (if !credited then CreditFailed else if stops then ConfirmFailed else CreditedLate)
    && after.payments == db.payments[cb.reference := p.(amount := amount, status := Refunded, refundedAmount := amount)]
    && Wallet.Balance(after.wallets, p.user) == Wallet.Balance(db.wallets, p.user) + (if credited then amount else 0)
    && (forall u: nat :: u != p.user ==> Wallet.Balance(after.wallets, u) == Wallet.Balance(db.wallets, u))
    && after.coupons == db.coupons && after.bookings.Keys == db.bookings.Keys
    && forall i :: i in db.bookings ==>
         after.bookings[i] == if i in found[..n] && db.bookings[i].claim.status != Cancelled
                              then Booking(db.bookings[i].claim.(status := Expired), db.bookings[i].bill.(paymentStatus := Refunded))
                              else db.bookings[i]
  }

  /**
   A member as a card payment of this total leaves it: confirmed for good; with a share of what does not cover the group
   if it had paid nothing yet, or else up to its price.
   */
  predicate PaidByCard(before: Booking, after: Booking, total: int, due: int) {
    && after.claim == before.claim.(status := Confirmed, expiresAt := None)
    && after.bill == before.bill.(paidAmount := after.bill.paidAmount, remainingAmount := after.bill.remainingAmount,
                                  paymentStatus := if after.bill.remainingAmount == 0 then Paid else PartiallyPaid)
    && after.bill.remainingAmount == (if after.bill.paidAmount < before.bill.finalPrice then before.bill.finalPrice - after.bill.paidAmount else 0)
    && (if total < due && before.bill.paidAmount == 0
        then total >= 0 ==> -due < 2 * (after.bill.paidAmount * due - before.bill.finalPrice * total) <= due
        else after.bill.paidAmount == if before.bill.paidAmount + total < before.bill.finalPrice then before.bill.paidAmount + total
                                      else before.bill.finalPrice)
  }

  lemma CardConfirmedIsPaid(b: Booking, total: int, due: nat)
    ensures PaidByCard(b, CardConfirmed(b, total, due), total, due)
  {
    if total >= 0 {
      assert b.bill.finalPrice * total >= 0;
    }
  }

  /** The members found are paid, and the coupon of the first is counted, unless an update has failed. */
  predicate MembersPaid(before: Bookings, after: Bookings, found: seq<BookingId>, total: int, due: int, all: bool) {
    && after.Keys == before.Keys
    && (forall i :: i in before && i !in found ==> after[i] == before[i])
    && (all ==> forall i :: i in before && i in found ==> PaidByCard(before[i], after[i], total, due))
  }

  predicate FirstCouponCounted(bookings: Bookings, before: map<string, CouponDoc>, after: map<string, CouponDoc>, found: seq<BookingId>,
                               counts: bool)
    requires |found| > 0
  {
    OneMoreUse(before, after, if counts && found[0] in bookings then bookings[found[0]].bill.couponCode else None)
  }

  /** On time: the payment is fulfilled, in full if card and wallet part cover the group, and remembers the card transaction. */
  ghost predicate IsFulfilled(db: Db, cb: Callback, found: seq<BookingId>, faults: CallbackFaults, after: Db, r: Outcome)
    requires cb.reference in db.payments && |found| > 0
  {
    var p, due := db.payments[cb.reference], Sum(Priced(db.bookings, found));
    var debited := 0 < p.walletDeduction <= Wallet.Balance(db.wallets, p.user) && faults.debitLedgerOk;
    && after.payments
       == db.payments[cb.reference :=
            p.(status := if CardPaid(p, cb) + p.walletDeduction >= due then Paid else PartiallyPaid,
               paymobTransactionId := if cb.paymobId != None then cb.paymobId else p.paymobTransactionId)]
    && Wallet.Balance(after.wallets, p.user) == Wallet.Balance(db.wallets, p.user) - (if debited then p.walletDeduction else 0)
    && (forall u: nat :: u != p.user ==> Wallet.Balance(after.wallets, u) == Wallet.Balance(db.wallets, u))
    && (r == ConfirmFailed || r == ConfirmedGroup(after.payments[cb.reference].status))
    && MembersPaid(db.bookings, after.bookings, found, CardPaid(p, cb) + p.walletDeduction, due, r != ConfirmFailed)
    && FirstCouponCounted(db.bookings, db.coupons, after.coupons, found, r != ConfirmFailed && faults.couponSaveOk)
  }

  lemma LateAnswered(db: Db, cb: Callback, found: seq<BookingId>, faults: CallbackFaults)
    requires cb.reference in db.payments
    ensures var (after, r) := LateSuccess(db, cb, found, faults); IsCreditedLate(db, cb, found, faults, after, r)
  {
    assert found[..|found|] == found;
  }

  lemma OnTimeAnswered(db: Db, cb: Callback, found: seq<BookingId>, faults: CallbackFaults)
    requires cb.reference in db.payments && |found| > 0
    requires db.payments[cb.reference].status != Paid && db.payments[cb.reference].status != PartiallyPaid
    ensures var (after, r) := OnTimeSuccess(db, cb, found, faults); IsFulfilled(db, cb, found, faults, after, r)
  {
    OnTimeSettles(db, cb, found, faults);
    SettledGroupAnswered(db, cb, found, faults, SettledDb(db, cb, found, faults));
  }

  lemma SettledGroupAnswered(db: Db, cb: Callback, found: seq<BookingId>, faults: CallbackFaults, settled: Db)
    requires cb.reference in db.payments && |found| > 0 && settled == SettledDb(db, cb, found, faults)
    ensures var p, due := db.payments[cb.reference], GroupTotalPrice(db.bookings, found);
            var (after, r) := ConfirmPaidGroup(settled, EffectiveCardPaid(p, cb) + p.walletDeduction, due,
                                               SettledStatus(p, cb, due), found, faults);
            IsFulfilled(db, cb, found, faults, after, r)
  {
    var p, due := db.payments[cb.reference], GroupTotalPrice(db.bookings, found);
    var total, status := EffectiveCardPaid(p, cb) + p.walletDeduction, SettledStatus(p, cb, due);
    GroupLeaves(settled, total, due, status, found, faults);
    var (after, r) := ConfirmPaidGroup(settled, total, due, status, found, faults);
    FulfilledFrom(db, cb, found, faults, after, r);
  }

  lemma FulfilledFrom(db: Db, cb: Callback, found: seq<BookingId>, faults: CallbackFaults, after: Db, r: Outcome)
    requires cb.reference in db.payments && |found| > 0
    requires var p, due := db.payments[cb.reference], GroupTotalPrice(db.bookings, found);
             && after.payments == SettledDb(db, cb, found, faults).payments
             && after.wallets == PartTaken(db.wallets, p.user, p.walletDeduction, faults.debitLedgerOk)
             && (r == ConfirmFailed || r == ConfirmedGroup(SettledStatus(p, cb, due)))
             && MembersPaid(db.bookings, after.bookings, found, EffectiveCardPaid(p, cb) + p.walletDeduction, due, r != ConfirmFailed)
             && FirstCouponCounted(db.bookings, db.coupons, after.coupons, found, r != ConfirmFailed && faults.couponSaveOk)
    ensures IsFulfilled(db, cb, found, faults, after, r)
  {
    var p := db.payments[cb.reference];
    PartTakenGives(db.wallets, p.user, p.walletDeduction, faults.debitLedgerOk);
    assert GroupFinals(db.bookings, found) == Priced(db.bookings, found);
  }

  lemma OnTimeSettles(db: Db, cb: Callback, found: seq<BookingId>, faults: CallbackFaults)
    requires cb.reference in db.payments && |found| > 0
    requires db.payments[cb.reference].status != Paid && db.payments[cb.reference].status != PartiallyPaid
    ensures var p, due := db.payments[cb.reference], GroupTotalPrice(db.bookings, found);
            OnTimeSuccess(db, cb, found, faults)
            == ConfirmPaidGroup(SettledDb(db, cb, found, faults), EffectiveCardPaid(p, cb) + p.walletDeduction, due,
                                SettledStatus(p, cb, due), found, faults)
  {
  }

  lemma PartTakenGives(w: Wallet.State, user: nat, part: int, ledgerOk: bool)
    ensures var taken := 0 < part <= Wallet.Balance(w, user) && ledgerOk;
            && Wallet.Balance(PartTaken(w, user, part, ledgerOk), user) == Wallet.Balance(w, user) - (if taken then part else 0)
            && forall u: nat :: u != user ==> Wallet.Balance(PartTaken(w, user, part, ledgerOk), u) == Wallet.Balance(w, u)
  {
  }

  lemma GroupLeaves(db: Db, totalPaid: int, due: nat, status: PaymentStatus, found: seq<BookingId>, faults: CallbackFaults)
    requires |found| > 0
    ensures var (after, r) := ConfirmPaidGroup(db, totalPaid, due, status, found, faults);
            && after.payments == db.payments && after.wallets == db.wallets
            && (r == ConfirmFailed || r == ConfirmedGroup(status))
            && MembersPaid(db.bookings, after.bookings, found, totalPaid, due, r != ConfirmFailed)
            && FirstCouponCounted(db.bookings, db.coupons, after.coupons, found, r != ConfirmFailed && faults.couponSaveOk)
  {
    var stop := StopsAt(db.bookings, found, faults.updateFails, 0);
    MembersPaidUpTo(db.bookings, found, Reached(found, stop), totalPaid, due);
    if found[0] in db.bookings {
      CouponCountedOnce(db.coupons, db.bookings[found[0]].bill.couponCode);
    }
  }

  lemma CouponCountedOnce(coupons: map<string, CouponDoc>, code: Option<string>)
    ensures OneMoreUse(coupons, CouponUsed(coupons, Truthy(code)), code)
  {
  }

  lemma MembersPaidUpTo(before: Bookings, found: seq<BookingId>, reached: seq<BookingId>, totalPaid: int, due: nat)
    requires reached <= found
    ensures MembersPaid(before, Updated(before, reached, b => CardConfirmed(b, totalPaid, due)), found, totalPaid, due, reached == found)
  {
    forall i | i in reached ensures i in found {
    }
    forall i | i in before ensures PaidByCard(before[i], CardConfirmed(before[i], totalPaid, due), totalPaid, due) {
      CardConfirmedIsPaid(before[i], totalPaid, due);
    }
  }

  /** A callback is answered in this order, and changes only what is said. */
  lemma CallbackAnswered(db: Db, cb: Callback, found: seq<BookingId>, faults: CallbackFaults)
    ensures var (after, r) := Webhook(db, cb, found, faults);
            if cb.reference !in db.payments then after == db && r == NoPayment
            else
              var p := db.payments[cb.reference];
              if found == [] then after == db && r == NoBooking
              else if CardUsed(db, cb) then after == db && r == DuplicateTransaction
              else if p.status == Paid || p.status == Refunded then after == db && r == AlreadyProcessed(p.status)
              else if cb.pending then after == db && r == StillPending
              else if !cb.success then
                after == (if p.status == PartiallyPaid then db else db.(payments := db.payments[cb.reference := p.(status := Unpaid)]))
                && r == (if p.status == PartiallyPaid then IgnoredFailure else Declined)
              else if SomeGone(db, p.groupId) then IsCreditedLate(db, cb, found, faults, after, r)
              else if p.status == PartiallyPaid then after == db && r == FulfilledConcurrently
              else IsFulfilled(db, cb, found, faults, after, r)
  {
    if cb.reference in db.payments {
      LateAnswered(db, cb, found, faults);
      GoneIsTooLate(db, db.payments[cb.reference].groupId);
      if |found| > 0 && db.payments[cb.reference].status != Paid && db.payments[cb.reference].status != PartiallyPaid {
        OnTimeAnswered(db, cb, found, faults);
      }
    }
  }

  lemma GoneIsTooLate(db: Db, groupId: nat)
    ensures SomeGone(db, groupId) <==> AnyTooLate(Claims(db.bookings), groupId, db.now)
  {
    if i :| i in Claims(db.bookings) && Claims(db.bookings)[i].groupId == groupId && TooLate(Claims(db.bookings)[i], db.now) {
      assert db.bookings[i].claim == Claims(db.bookings)[i];
    }
    if SomeGone(db, groupId) {
      var i :| i in db.bookings && db.bookings[i].claim.groupId == groupId
               && (db.bookings[i].claim.status == Expired || db.bookings[i].claim.status == Cancelled
                   || (db.bookings[i].claim.status == Pending && db.bookings[i].claim.expiresAt.Some?
                       && db.bookings[i].claim.expiresAt.value <= db.now));
      assert i in Claims(db.bookings) && TooLate(Claims(db.bookings)[i], db.now);
    }
  }

  // ----- one card transaction, one payment -----

  /**
   A success that pays a payment in full remembers its card transaction, whatever then happens to other documents and
   whatever callbacks arrive for it: every callback with that transaction for another payment that has bookings is
   answered as a duplicate and changes nothing.
   */
  lemma CardPaysOnce(db: Db, cb: Callback, found: seq<BookingId>, faults: CallbackFaults, events: seq<Event>, other: Callback,
                     others: seq<BookingId>, more: CallbackFaults)
    requires cb.reference in db.payments && db.payments[cb.reference].status == Unpaid && cb.paymobId != None
    requires Webhook(db, cb, found, faults).0.payments[cb.reference].status == Paid
    requires AllFit(Webhook(db, cb, found, faults).0, cb.reference, events)
    requires other.paymobId == cb.paymobId && other.reference != cb.reference && others != []
    ensures var later := After(Webhook(db, cb, found, faults).0, events);
            && cb.reference in later.payments && later.payments[cb.reference].paymobTransactionId == cb.paymobId
            && (other.reference in later.payments ==> Webhook(later, other, others, more) == (later, DuplicateTransaction))
  {
    CallbackAnswered(db, cb, found, faults);
    var one := Webhook(db, cb, found, faults).0;
    SettledStays(one, cb.reference, events);
    var later := After(one, events);
    CallbackAnswered(later, other, others, more);
    assert later.payments[cb.reference] == one.payments[cb.reference];
  }

  /** One that was fulfilled in part only is no obstacle: the same card transaction is taken for another payment. */
  lemma CardPaidInPartPaysAgain(db: Db, cb: Callback, found: seq<BookingId>, faults: CallbackFaults, other: Callback)
    requires cb.reference in db.payments && db.payments[cb.reference].status == Unpaid && cb.paymobId != None
    requires Webhook(db, cb, found, faults).0.payments[cb.reference].status == PartiallyPaid
    requires other.paymobId == cb.paymobId && other.reference != cb.reference && !CardUsed(db, other)
    ensures !CardUsed(Webhook(db, cb, found, faults).0, other)
  {
    CallbackAnswered(db, cb, found, faults);
  }

  // ----- refundPayment -----

  ghost predicate IsRefunded(db: Db, t: TransactionId, amount: int, found: seq<BookingId>, after: Db)
    requires t in db.payments
  {
    var p := db.payments[t];
    && after.payments
       == db.payments[t := p.(refundedAmount := p.refundedAmount + amount,
                              status := if p.refundedAmount + amount == p.amount then Refunded else p.status)]
    && Wallet.Balance(after.wallets, p.user) == Wallet.Balance(db.wallets, p.user) + amount
    && (forall u: nat :: u != p.user ==> Wallet.Balance(after.wallets, u) == Wallet.Balance(db.wallets, u))
    && after.coupons == db.coupons && after.bookings.Keys == db.bookings.Keys
    && forall i :: i in db.bookings ==>
         after.bookings[i] == if i in found
                              then Booking(db.bookings[i].claim.(status := Cancelled, expiresAt := None),
                                           db.bookings[i].bill.(paymentStatus := Refunded, paidAmount := 0, remainingAmount := 0))
                              else db.bookings[i]
  }

  /** A refund is of the amount given, or of all that is left; it is refused for the first of these reasons. */
  lemma RefundAnswered(db: Db, t: TransactionId, amount: Option<int>, found: seq<BookingId>, ledgerOk: bool, saveOk: bool)
    ensures var (after, r) := Refund(db, t, amount, found, ledgerOk, saveOk);
            if t !in db.payments then after == db && r == Err(PaymentNotFound)
            else
              var p := db.payments[t];
              var left := p.amount - p.refundedAmount;
              var wanted := if amount == None || amount == Some(0) then left else amount.value;
              if p.status != Paid && p.status != PartiallyPaid then after == db && r == Err(NotRefundable)
              else if wanted <= 0 then after == db && r == Err(NothingToRefund)
              else if wanted > left then after == db && r == Err(AboveRefundable)
              else if !ledgerOk then
                after == db.(wallets := after.wallets) && r == Err(CreditRejected)
                && (forall u: nat :: Wallet.Balance(after.wallets, u) == Wallet.Balance(db.wallets, u))
              else if !saveOk then after == db.(wallets := after.wallets) && r == Err(SaveFailed)
              else r == Ok(wanted) && IsRefunded(db, t, wanted, found, after)
  {
  }
}
