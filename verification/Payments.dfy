/** What a Paymob callback and a refund do to the database. The methods are in PaymentService, the theorems in PaymentTheorems. */
module Payments {
  import opened Prelude
  import opened Money
  import opened Coupon
  import opened BookingRequest
  import opened Slots
  import opened Database
  import opened BookingOperations
  import Wallet

  /** A verified callback; a field that is absent or false to JavaScript is None or zero. */
  datatype Callback = Callback(reference: TransactionId, success: bool, pending: bool, amountCents: int, paymobId: Option<nat>)

  /** Which calls of one callback fail. */
  datatype CallbackFaults = CallbackFaults(debitLedgerOk: bool, creditLedgerOk: bool, updateFails: Option<nat>, couponSaveOk: bool)

  datatype Outcome =
    | NoPayment | NoBooking | DuplicateTransaction | AlreadyProcessed(status: PaymentStatus)
    | CreditedLate | CreditFailed | FulfilledConcurrently | ConfirmedGroup(status: PaymentStatus) | ConfirmFailed
    | IgnoredFailure | Declined | StillPending

  function EffectiveCardPaid(p: Payment, cb: Callback): int {
    if cb.amountCents > 0 then cb.amountCents else p.amount
  }

  /** Another payment already fulfilled by the same card transaction. */
  predicate UsedElsewhere(payments: map<TransactionId, Payment>, t: TransactionId, paymobId: Option<nat>) {
    paymobId.Some? && exists u :: u in payments && u != t && payments[u].paymobTransactionId == paymobId && payments[u].status.Paid?
  }

  predicate IsDeposit(p: Payment, cb: Callback, groupDue: int) {
    EffectiveCardPaid(p, cb) + p.walletDeduction < groupDue
  }

  function SettledStatus(p: Payment, cb: Callback, groupDue: int): PaymentStatus {
    if IsDeposit(p, cb, groupDue) then PartiallyPaid else Paid
  }

  /** A member as a card payment confirms it; a deposit is shared out only among members with nothing paid yet. */
  function CardConfirmed(b: Booking, totalPaid: int, groupDue: nat): Booking {
    var due := if groupDue == 0 then 1 else groupDue;
    var paid :=
      if totalPaid < groupDue && b.bill.paidAmount == 0 then ToFixed(b.bill.finalPrice * totalPaid, due)
      else Min(b.bill.finalPrice, b.bill.paidAmount + totalPaid);
    var remaining := Max(0, b.bill.finalPrice - paid);
    Booking(ConfirmedClaim(b.claim),
            b.bill.(paymentStatus := if remaining == 0 then Paid else PartiallyPaid, paidAmount := paid,
                    remainingAmount := remaining))
  }

  /** A member whose hold was gone when the money came. */
  function ExpiredLate(b: Booking): Booking {
    if b.claim.status.Cancelled? then b
    else Booking(WithStatus(b.claim, Expired), b.bill.(paymentStatus := Refunded))
  }

  /** The card amount goes to the wallet; the payment is saved as refunded before it does. */
  function LateSuccess(db: Db, cb: Callback, found: seq<BookingId>, faults: CallbackFaults): (Db, Outcome)
    requires cb.reference in db.payments
  {
    var p := db.payments[cb.reference];
    var amount := EffectiveCardPaid(p, cb);
    var saved := db.(payments := db.payments[cb.reference := p.(amount := amount, status := Refunded, refundedAmount := amount)]);
    var (w, credit) := Wallet.Deposited(db.wallets, p.user, amount, Wallet.BookingRefund, faults.creditLedgerOk);
    if credit.Err? then (saved.(wallets := w), CreditFailed)
    else if faults.updateFails.Some? && faults.updateFails.value < |found| then
      (saved.(wallets := w, bookings := Updated(db.bookings, found[..faults.updateFails.value], ExpiredLate)), ConfirmFailed)
    else (saved.(wallets := w, bookings := Updated(db.bookings, found, ExpiredLate)), CreditedLate)
  }

  function Settling(p: Payment, status: PaymentStatus, paymobId: Option<nat>): Payment {
    p.(status := status, paymobTransactionId := if paymobId.Some? then paymobId else p.paymobTransactionId)
  }

  /** The group is confirmed member by member, up to an update that fails, and its coupon counted after the last. */
  function ConfirmPaidGroup(db: Db, totalPaid: int, groupDue: nat, status: PaymentStatus, found: seq<BookingId>,
                            faults: CallbackFaults): (Db, Outcome)
    requires |found| > 0
  {
    var stop := StopsAt(db.bookings, found, faults.updateFails, 0);
    var confirmed := db.(bookings := Updated(db.bookings, Reached(found, stop), b => CardConfirmed(b, totalPaid, groupDue)));
    if stop.Some? then (confirmed, ConfirmFailed)
    else
      var code := if found[0] in db.bookings then Truthy(db.bookings[found[0]].bill.couponCode) else None;
      (confirmed.(coupons := if faults.couponSaveOk then CouponUsed(db.coupons, code) else db.coupons), ConfirmedGroup(status))
  }

  /** Settles the payment if no other callback has, debits the wallet part, confirms the group, counts its coupon. */
  function OnTimeSuccess(db: Db, cb: Callback, found: seq<BookingId>, faults: CallbackFaults): (Db, Outcome)
    requires cb.reference in db.payments && |found| > 0
  {
    var p := db.payments[cb.reference];
    var groupDue := GroupTotalPrice(db.bookings, found);
    if p.status.Paid? || p.status.PartiallyPaid? then (db, FulfilledConcurrently)
    else
      var status := SettledStatus(p, cb, groupDue);
      var wallets :=
        if p.walletDeduction > 0
        then Wallet.Deducted(db.wallets, p.user, p.walletDeduction, Wallet.BookingPayment, faults.debitLedgerOk).0
        else db.wallets;
      ConfirmPaidGroup(db.(payments := db.payments[cb.reference := Settling(p, status, cb.paymobId)], wallets := wallets),
                       EffectiveCardPaid(p, cb) + p.walletDeduction, groupDue, status, found, faults)
  }

  /** handlePaymobWebhook; `found` is the payment's group in the order the query returns it. */
  function Webhook(db: Db, cb: Callback, found: seq<BookingId>, faults: CallbackFaults): (Db, Outcome) {
    if cb.reference !in db.payments then (db, NoPayment)
    else
      var p := db.payments[cb.reference];
      if |found| == 0 then (db, NoBooking)
      else if UsedElsewhere(db.payments, cb.reference, cb.paymobId) then (db, DuplicateTransaction)
      else if p.status.Paid? || p.status.Refunded? then (db, AlreadyProcessed(p.status))
      else if cb.success && !cb.pending then
        if AnyTooLate(Claims(db.bookings), p.groupId, db.now) then LateSuccess(db, cb, found, faults)
        else OnTimeSuccess(db, cb, found, faults)
      else if !cb.success && !cb.pending then
        if p.status.PartiallyPaid? then (db, IgnoredFailure)
        else (db.(payments := db.payments[cb.reference := p.(status := Unpaid)]), Declined)
      else (db, StillPending)
  }

  // ----- refundPayment -----

  datatype RefundError = PaymentNotFound | NotRefundable | NothingToRefund | AboveRefundable | CreditRejected | SaveFailed | MemberUpdateFailed

  function RefundAmount(p: Payment, amount: Option<int>): int {
    if amount.Some? && amount.value != 0 then amount.value else p.amount - p.refundedAmount
  }

  function RefundedMember(b: Booking): Booking {
    Booking(b.claim.(status := Cancelled, expiresAt := None),
            b.bill.(paymentStatus := Refunded, paidAmount := 0, remainingAmount := 0))
  }

  function RefundRefused(p: Payment, amount: Option<int>): Option<RefundError> {
    if !p.status.Paid? && !p.status.PartiallyPaid? then Some(NotRefundable)
    else if RefundAmount(p, amount) <= 0 then Some(NothingToRefund)
    else if RefundAmount(p, amount) > p.amount - p.refundedAmount then Some(AboveRefundable)
    else None
  }

  function RefundRecorded(p: Payment, amount: int): Payment {
    p.(refundedAmount := p.refundedAmount + amount,
       status := if p.refundedAmount + amount >= p.amount then Refunded else p.status)
  }

  /** The wallet is credited before the payment is saved. */
  function Refund(db: Db, t: TransactionId, amount: Option<int>, found: seq<BookingId>, ledgerOk: bool, saveOk: bool)
    : (Db, Result<int, RefundError>) {
    if t !in db.payments then (db, Err(PaymentNotFound))
    else
      var p := db.payments[t];
      if RefundRefused(p, amount).Some? then (db, Err(RefundRefused(p, amount).value))
      else
        var refund := RefundAmount(p, amount);
        var (w, credit) := Wallet.Deposited(db.wallets, p.user, refund, Wallet.BookingRefund, ledgerOk);
        if credit.Err? then (db.(wallets := w), Err(CreditRejected))
        else if !saveOk then (db.(wallets := w), Err(SaveFailed))
        else
          (db.(wallets := w, payments := db.payments[t := RefundRecorded(p, refund)],
               bookings := Updated(db.bookings, found, RefundedMember)), Ok(refund))
  }

  /** The refund when the k-th member's update fails: credited, recorded, and the members before it cancelled. */
  function RefundCutShort(db: Db, t: TransactionId, amount: Option<int>, found: seq<BookingId>, ledgerOk: bool, saveOk: bool, k: nat)
    : (Db, Result<int, RefundError>)
    requires k <= |found|
  {
    var (after, r) := Refund(db, t, amount, found[..k], ledgerOk, saveOk);
    (after, if r.Ok? then Err(MemberUpdateFailed) else r)
  }
}
