/** The payment service: the callback and refund methods, proved against Payments. */
module PaymentServices {
  import opened Prelude
  import opened Money
  import opened Coupon
  import opened BookingRequest
  import opened Slots
  import opened Database
  import opened BookingOperations
  import opened BookingServices
  import opened Payments
  import Wallet

  class PaymentService {
    const store: Store
    const wallet: Wallet.WalletService

    constructor (store: Store, wallet: Wallet.WalletService)
      ensures this.store == store && this.wallet == wallet
    {
      this.store, this.wallet := store, wallet;
    }

    function View(): Db
      reads store, wallet
    {
      store.View(wallet)
    }

    method TotalGroupDue(found: seq<BookingId>) returns (due: nat)
      ensures due == GroupTotalPrice(store.bookings, found)
    {
      ghost var finals := GroupFinals(store.bookings, found);
      due := 0;
      for i := 0 to |found|
        invariant due == Sum(finals[..i])
      {
        SumTake(finals, i);
        if found[i] in store.bookings {
          due := due + store.bookings[found[i]].bill.finalPrice;
        }
      }
      assert finals[..|found|] == finals;
    }

    method ConfirmMember(id: BookingId, b: Booking, totalPaid: int, due: nat)
      requires id in store.bookings
      requires store.bookings[id] == b || store.bookings[id] == CardConfirmed(b, totalPaid, due)
      modifies store`bookings
      ensures store.bookings == old(store.bookings)[id := CardConfirmed(b, totalPaid, due)]
    {
      var isDeposit := totalPaid < due;
      var bPaid := Min(b.bill.finalPrice, b.bill.paidAmount + totalPaid);
      if isDeposit && b.bill.paidAmount == 0 {
        bPaid := ToFixed(b.bill.finalPrice * totalPaid, if due == 0 then 1 else due);
      }
      var bRemaining := Max(0, b.bill.finalPrice - bPaid);
      var row := store.bookings[id];
      store.bookings := store.bookings[id :=
        Booking(row.claim.(status := Confirmed, expiresAt := None),
                row.bill.(paymentStatus := if bRemaining == 0 then Paid else PartiallyPaid, paidAmount := bPaid,
                          remainingAmount := bRemaining))];
    }

    method ConfirmByCard(found: seq<BookingId>, totalPaid: int, due: nat, fails: Option<nat>) returns (stop: Option<nat>)
      modifies store`bookings
      ensures stop == StopsAt(old(store.bookings), found, fails, 0)
      ensures store.bookings == Updated(old(store.bookings), Reached(found, stop), b => CardConfirmed(b, totalPaid, due))
    {
      var targetBookings := store.bookings;
      ghost var f := b => CardConfirmed(b, totalPaid, due);
      NothingUpdated(targetBookings, found, f);
      for i := 0 to |found|
        invariant store.bookings == Updated(targetBookings, found[..i], f)
        invariant StopsAt(targetBookings, found, fails, 0) == StopsAt(targetBookings, found, fails, i)
      {
        var refused := UpdateRefused(store.bookings, found, i, fails, targetBookings, f);
        if refused {
          return Some(i);
        }
        OneMoreUpdated(targetBookings, found, i, f, store.bookings);
        if found[i] in store.bookings {
          ConfirmMember(found[i], targetBookings[found[i]], totalPaid, due);
        }
      }
      assert found[..|found|] == found;
      stop := None;
    }

    method ExpireGroup(found: seq<BookingId>, fails: Option<nat>) returns (ok: bool)
      modifies store`bookings
      ensures ok <==> !(fails.Some? && fails.value < |found|)
      ensures store.bookings == Updated(old(store.bookings), if ok then found else found[..fails.value], ExpiredLate)
    {
      var targetBookings := store.bookings;
      NothingUpdated(targetBookings, found, ExpiredLate);
      for i := 0 to |found|
        invariant store.bookings == Updated(targetBookings, found[..i], ExpiredLate)
        invariant fails.Some? ==> i <= fails.value
      {
        if fails == Some(i) {
          return false;
        }
        OneMoreUpdated(targetBookings, found, i, ExpiredLate, store.bookings);
        if found[i] in store.bookings && !targetBookings[found[i]].claim.status.Cancelled? {
          var row := store.bookings[found[i]];
          store.bookings := store.bookings[found[i] :=
            Booking(row.claim.(status := Expired), row.bill.(paymentStatus := Refunded))];
        }
      }
      assert found[..|found|] == found;
      ok := true;
    }

    method CreditLate(cb: Callback, found: seq<BookingId>, faults: CallbackFaults) returns (r: Outcome)
      requires cb.reference in store.payments
      modifies store, wallet
      ensures (View(), r) == LateSuccess(old(View()), cb, found, faults)
    {
      var payment := store.payments[cb.reference];
      var amount := EffectiveCardPaid(payment, cb);
      payment := payment.(amount := amount, status := Refunded, refundedAmount := amount);
      store.payments := store.payments[cb.reference := payment];
      var credit := wallet.RefundBooking(payment.user, payment.amount, faults.creditLedgerOk);
      if credit.Err? {
        return CreditFailed;
      }
      var ok := ExpireGroup(found, faults.updateFails);
      r := if ok then CreditedLate else ConfirmFailed;
    }

    /** A debit that fails is logged, and the confirmation goes on. */
    method TakeWalletPart(payment: Payment, ledgerOk: bool)
      modifies wallet
      ensures wallet.View()
              == if payment.walletDeduction > 0
                 then Wallet.Deducted(old(wallet.View()), payment.user, payment.walletDeduction, Wallet.BookingPayment, ledgerOk).0
                 else old(wallet.View())
    {
      if payment.walletDeduction > 0 {
        var debit := wallet.PayForBooking(payment.user, payment.walletDeduction, ledgerOk);
      }
    }

    method CountCoupon(code: Option<string>, saveOk: bool)
      modifies store`coupons
      ensures store.coupons == if saveOk then CouponUsed(old(store.coupons), code) else old(store.coupons)
    {
      if code.Some? && code.value in store.coupons && saveOk {
        var coupon := store.coupons[code.value];
        store.coupons := store.coupons[code.value := coupon.(usesCount := coupon.usesCount + 1)];
      }
    }

    /** The filter and the update are one repository call. */
    method CompareAndSet(t: TransactionId, status: PaymentStatus, paymobId: Option<nat>) returns (won: bool)
      requires t in store.payments
      modifies store`payments
      ensures won <==> !old(store.payments)[t].status.Paid? && !old(store.payments)[t].status.PartiallyPaid?
      ensures store.payments == if won then old(store.payments)[t := Settling(old(store.payments)[t], status, paymobId)]
                                else old(store.payments)
    {
      var payment := store.payments[t];
      won := !payment.status.Paid? && !payment.status.PartiallyPaid?;
      if won {
        payment := payment.(status := status);
        if paymobId.Some? {
          payment := payment.(paymobTransactionId := paymobId);
        }
        store.payments := store.payments[t := payment];
      }
    }

    method ConfirmPaidGroup(totalPaid: int, groupDue: nat, status: PaymentStatus, found: seq<BookingId>, faults: CallbackFaults)
      returns (r: Outcome)
      requires |found| > 0
      modifies store
      ensures (View(), r) == Payments.ConfirmPaidGroup(old(View()), totalPaid, groupDue, status, found, faults)
    {
      var code := if found[0] in store.bookings then Truthy(store.bookings[found[0]].bill.couponCode) else None;
      var stop := ConfirmByCard(found, totalPaid, groupDue, faults.updateFails);
      if stop.Some? {
        return ConfirmFailed;
      }
      CountCoupon(code, faults.couponSaveOk);
      r := ConfirmedGroup(status);
    }

    method ConfirmOnTime(cb: Callback, found: seq<BookingId>, faults: CallbackFaults) returns (r: Outcome)
      requires cb.reference in store.payments && |found| > 0
      modifies store, wallet
      ensures (View(), r) == OnTimeSuccess(old(View()), cb, found, faults)
    {
      var payment := store.payments[cb.reference];
      var totalGroupDue := TotalGroupDue(found);
      var totalActualPaid := EffectiveCardPaid(payment, cb) + payment.walletDeduction;
      var status := if totalActualPaid < totalGroupDue then PartiallyPaid else Paid;
      var won := CompareAndSet(cb.reference, status, cb.paymobId);
      if !won {
        return FulfilledConcurrently;
      }
      TakeWalletPart(payment, faults.debitLedgerOk);
      r := ConfirmPaidGroup(totalActualPaid, totalGroupDue, status, found, faults);
    }

    method HandlePaymobWebhook(cb: Callback, found: seq<BookingId>, faults: CallbackFaults) returns (r: Outcome)
      requires cb.reference in store.payments ==> Listing(found, Group(store.bookings, store.payments[cb.reference].groupId))
      modifies store, wallet
      ensures (View(), r) == Webhook(old(View()), cb, found, faults)
    {
      if cb.reference !in store.payments {
        return NoPayment;
      }
      var payment := store.payments[cb.reference];
      if |found| == 0 {
        return NoBooking;
      }
      if UsedElsewhere(store.payments, cb.reference, cb.paymobId) {
        return DuplicateTransaction;
      }
      if payment.status.Paid? || payment.status.Refunded? {
        return AlreadyProcessed(payment.status);
      }
      if cb.success && !cb.pending {
        var isAnyExpiredOrCancelled := AnyMemberTooLate(found, payment.groupId);
        if isAnyExpiredOrCancelled {
          r := CreditLate(cb, found, faults);
        } else {
          r := ConfirmOnTime(cb, found, faults);
        }
      } else if !cb.success && !cb.pending {
        if payment.status.PartiallyPaid? {
          return IgnoredFailure;
        }
        store.payments := store.payments[cb.reference := payment.(status := Unpaid)];
        r := Declined;
      } else {
        r := StillPending;
      }
    }

    method AnyMemberTooLate(found: seq<BookingId>, groupId: nat) returns (late: bool)
      requires Listing(found, Group(store.bookings, groupId))
      ensures late <==> AnyTooLate(Claims(store.bookings), groupId, store.now)
    {
      late := false;
      forall k | 0 <= k < |found| ensures found[k] in store.bookings {
        assert found[k] in found && found[k] in Group(store.bookings, groupId);
      }
      for i := 0 to |found|
        invariant late <==> exists k :: 0 <= k < i && TooLate(store.bookings[found[k]].claim, store.now)
      {
        late := late || TooLate(store.bookings[found[i]].claim, store.now);
      }
      if k :| 0 <= k < |found| && TooLate(store.bookings[found[k]].claim, store.now) {
        assert found[k] in Group(store.bookings, groupId);
        assert found[k] in Claims(store.bookings);
      }
      if i :| i in Claims(store.bookings) && Claims(store.bookings)[i].groupId == groupId
              && TooLate(Claims(store.bookings)[i], store.now) {
        assert i in Group(store.bookings, groupId);
      }
    }

    method RefundPayment(t: TransactionId, amount: Option<int>, found: seq<BookingId>, ledgerOk: bool, saveOk: bool,
                         updateFails: Option<nat>)
      returns (r: Result<int, RefundError>)
      requires t in store.payments ==> Listing(found, Group(store.bookings, store.payments[t].groupId))
      modifies store, wallet
      ensures (View(), r) == if updateFails.Some? && updateFails.value < |found|
                             then RefundCutShort(old(View()), t, amount, found, ledgerOk, saveOk, updateFails.value)
                             else Refund(old(View()), t, amount, found, ledgerOk, saveOk)
    {
      if t !in store.payments {
        return Err(PaymentNotFound);
      }
      var payment := store.payments[t];
      if !payment.status.Paid? && !payment.status.PartiallyPaid? {
        return Err(NotRefundable);
      }
      var availableToRefund := payment.amount - payment.refundedAmount;
      var refundAmount := availableToRefund;
      if amount.Some? && amount.value != 0 {
        refundAmount := amount.value;
      }
      if refundAmount <= 0 {
        return Err(NothingToRefund);
      }
      if refundAmount > availableToRefund {
        return Err(AboveRefundable);
      }
      var credit := wallet.RefundBooking(payment.user, refundAmount, ledgerOk);
      if credit.Err? {
        return Err(CreditRejected);
      }
      if !saveOk {
        return Err(SaveFailed);
      }
      var newRefundedTotal := payment.refundedAmount + refundAmount;
      payment := payment.(refundedAmount := newRefundedTotal);
      if newRefundedTotal >= payment.amount {
        payment := payment.(status := Refunded);
      }
      store.payments := store.payments[t := payment];
      if updateFails.Some? && updateFails.value < |found| {
        CancelGroup(found[..updateFails.value]);
        return Err(MemberUpdateFailed);
      }
      CancelGroup(found);
      r := Ok(refundAmount);
    }

    method CancelGroup(found: seq<BookingId>)
      modifies store`bookings
      ensures store.bookings == Updated(old(store.bookings), found, RefundedMember)
    {
      ghost var before := store.bookings;
      NothingUpdated(before, found, RefundedMember);
      for i := 0 to |found|
        invariant store.bookings == Updated(before, found[..i], RefundedMember)
      {
        OneMoreUpdated(before, found, i, RefundedMember, store.bookings);
        if found[i] in store.bookings {
          var row := store.bookings[found[i]];
          store.bookings := store.bookings[found[i] :=
            Booking(row.claim.(status := Cancelled, expiresAt := None),
                    row.bill.(paymentStatus := Refunded, paidAmount := 0, remainingAmount := 0))];
        }
      }
      assert found[..|found|] == found;
    }
  }
}
