/**
 The wallet payment of a group inside a MongoDB session, which the booking service uses where the server supports
 it: the session is aborted on any failure, and on some failures the debit is credited back on top of that.
 */
module SessionPayments {
  import opened Prelude
  import opened BookingRequest
  import opened Slots
  import opened GroupPrice
  import opened Database
  import opened BookingOperations
  import opened BookingServices
  import Wallet

  datatype SessionCall = Debit | Confirm(k: nat) | InsertPayment | SaveCoupon | Commit

  /** Conflict is a duplicate key or a write conflict, Unsupported a server that turns out not to do transactions. */
  datatype FaultKind = Conflict | Unsupported | Other

  datatype SessionFault = SessionFault(call: SessionCall, kind: FaultKind)

  predicate FailsAt(fault: Option<SessionFault>, call: SessionCall) {
    fault.Some? && fault.value.call == call
  }

  function FailingMember(fault: Option<SessionFault>): Option<nat> {
    if fault.Some? && fault.value.call.Confirm? then Some(fault.value.call.k) else None
  }

  /** The call that fails, if any: the fault given, or a confirmation that the unique index refuses. */
  function SessionStop(bookings: Bookings, coupons: map<string, CouponDoc>, ids: seq<BookingId>, coupon: Option<string>,
                       fault: Option<SessionFault>): Option<SessionFault> {
    var stop := StopsAt(bookings, ids, FailingMember(fault), 0);
    if FailsAt(fault, Debit) then fault
    else if stop.Some? then
      Some(SessionFault(Confirm(stop.value), if FailsAt(fault, Confirm(stop.value)) then fault.value.kind else Conflict))
    else if FailsAt(fault, InsertPayment) || FailsAt(fault, Commit) || !CouponSaved(coupons, coupon, !FailsAt(fault, SaveCoupon)) then fault
    else None
  }

  function WithPaymentRow(db: Db, user: nat, groupId: nat, amount: int): Db {
    db.(payments := db.payments[db.nextTransaction := Payment(groupId, user, amount, 0, WalletMethod, Paid, None, 0)],
        nextTransaction := db.nextTransaction + 1)
  }

  /** What an aborted session leaves behind: the payment row, which is inserted outside of it. */
  function LeftBehind(db: Db, user: nat, groupId: nat, amount: int, call: SessionCall): Db {
    if call.SaveCoupon? || call.Commit? then WithPaymentRow(db, user, groupId, amount) else db
  }

  /** A debit that was made in the session counts as made after its abort. */
  function DebitReturned(db: Db, user: nat, amount: int, call: SessionCall, refundLedgerOk: bool): Db {
    if call.Debit? then db
    else db.(wallets := Wallet.Deposited(db.wallets, user, amount, Wallet.BookingRefund, refundLedgerOk).0)
  }

  function Committed(db: Db, user: nat, ids: seq<BookingId>, groupId: nat, charge: AmountDue, groupFinal: nat,
                     coupon: Option<string>): Db {
    WithPaymentRow(db, user, groupId, charge.amount).(
      wallets := Wallet.Deducted(db.wallets, user, charge.amount, Wallet.BookingPayment, true).0,
      bookings := Updated(db.bookings, ids, b => WalletConfirmed(b, charge, groupFinal)),
      coupons := CouponUsed(db.coupons, Truthy(coupon)))
  }

  /** After the abort; `faults` are those of the payment without a session, which an unsupported one falls back to. */
  function GivenUp(left: Db, user: nat, ids: seq<BookingId>, groupId: nat, charge: AmountDue, groupFinal: nat,
                   coupon: Option<string>, stop: SessionFault, faults: Faults): (Db, Result<(), BookingError>) {
    var returned := DebitReturned(left, user, charge.amount, stop.call, faults.refundLedgerOk);
    match stop.kind
    case Conflict => (returned, Err(JustBooked))
    case Unsupported => PayCompensating(returned, user, ids, groupId, charge, groupFinal, coupon, faults)
    case Other => (left, Err(PaymentFailed))
  }

  function PayInSession(db: Db, user: nat, ids: seq<BookingId>, groupId: nat, charge: AmountDue, groupFinal: nat,
                        coupon: Option<string>, fault: Option<SessionFault>, faults: Faults): (Db, Result<(), BookingError>) {
    if Wallet.Balance(db.wallets, user) < charge.amount then (db, Err(WalletFailure(Wallet.InsufficientBalance)))
    else
      match SessionStop(db.bookings, db.coupons, ids, coupon, fault)
      case None =>
        (Committed(db, user, ids, groupId, charge, groupFinal, coupon), Ok(()))
      case Some(stop) =>
        GivenUp(LeftBehind(db, user, groupId, charge.amount, stop.call), user, ids, groupId, charge, groupFinal, coupon, stop, faults)
  }

  // ----- what it keeps -----

  const SMOOTH := Faults(None, true, None, true, true, true, true)

  /** A session that commits does what the payment without one does when nothing fails. */
  lemma CommittedIsCompensating(db: Db, user: nat, ids: seq<BookingId>, groupId: nat, charge: AmountDue, groupFinal: nat,
                                coupon: Option<string>, fault: Option<SessionFault>, faults: Faults)
    requires SessionStop(db.bookings, db.coupons, ids, coupon, fault).None?
    ensures var inSession := PayInSession(db, user, ids, groupId, charge, groupFinal, coupon, fault, faults);
            var without := PayCompensating(db, user, ids, groupId, charge, groupFinal, coupon, SMOOTH);
            && inSession.1 == without.1
            && (inSession.1.Ok? ==> inSession.0 == without.0)
  {
  }

  function Gained(before: Db, after: Db, user: nat): int {
    Wallet.Balance(after.wallets, user) - Wallet.Balance(before.wallets, user)
  }

  lemma CompensatingGains(db: Db, user: nat, ids: seq<BookingId>, groupId: nat, charge: AmountDue, groupFinal: nat,
                          coupon: Option<string>, faults: Faults)
    requires charge.amount > 0 && faults.refundLedgerOk
    ensures var (after, r) := PayCompensating(db, user, ids, groupId, charge, groupFinal, coupon, faults);
            Gained(db, after, user) == if r.Ok? then -charge.amount else 0
  {
  }

  /**
   When the money is right, the charge taken if the payment succeeds and nothing if it fails: the session commits, or it
   fails at the debit, or in a way that credits nothing back. Otherwise an already undone debit comes back once more.
   */
  lemma SessionMoneyIff(db: Db, user: nat, ids: seq<BookingId>, groupId: nat, charge: AmountDue, groupFinal: nat,
                        coupon: Option<string>, fault: Option<SessionFault>, faults: Faults)
    requires charge.amount > 0 && faults.refundLedgerOk && charge.amount <= Wallet.Balance(db.wallets, user)
    ensures var (after, r) := PayInSession(db, user, ids, groupId, charge, groupFinal, coupon, fault, faults);
            var stop := SessionStop(db.bookings, db.coupons, ids, coupon, fault);
            var right := if r.Ok? then -charge.amount else 0;
            && (Gained(db, after, user) == right <==> stop.None? || stop.value.call.Debit? || stop.value.kind.Other?)
            && (Gained(db, after, user) != right ==> Gained(db, after, user) == right + charge.amount)
  {
    var stop := SessionStop(db.bookings, db.coupons, ids, coupon, fault);
    if stop.Some? && stop.value.kind.Unsupported? {
      var left := LeftBehind(db, user, groupId, charge.amount, stop.value.call);
      var returned := DebitReturned(left, user, charge.amount, stop.value.call, true);
      CompensatingGains(returned, user, ids, groupId, charge, groupFinal, coupon, faults);
    }
  }

  /** With nothing failing but the index: the payment gives money away exactly when the index refuses some member. */
  lemma RefusedMemberPaysOut(db: Db, user: nat, ids: seq<BookingId>, groupId: nat, charge: AmountDue, groupFinal: nat, coupon: Option<string>)
    requires charge.amount > 0 && charge.amount <= Wallet.Balance(db.wallets, user)
    ensures var (after, r) := PayInSession(db, user, ids, groupId, charge, groupFinal, coupon, None, SMOOTH);
            var blocked := exists k :: 0 <= k < |ids| && Blocked(db.bookings, ids, k);
            && (r.Ok? <==> !blocked)
            && Gained(db, after, user) == (if blocked then charge.amount else -charge.amount)
            && (blocked ==> after.bookings == db.bookings && after.payments == db.payments)
  {
  }

  /** A failed session leaves bookings and coupons as they were, and payments too unless it got as far as the coupon. */
  lemma FailedSessionLeaves(db: Db, user: nat, ids: seq<BookingId>, groupId: nat, charge: AmountDue, groupFinal: nat,
                            coupon: Option<string>, fault: Option<SessionFault>, faults: Faults)
    requires PayInSession(db, user, ids, groupId, charge, groupFinal, coupon, fault, faults).1.Err?
    requires fault.Some? ==> !fault.value.kind.Unsupported?
    ensures var after := PayInSession(db, user, ids, groupId, charge, groupFinal, coupon, fault, faults).0;
            var stop := SessionStop(db.bookings, db.coupons, ids, coupon, fault);
            && after.bookings == db.bookings && after.coupons == db.coupons
            && (after.payments == db.payments && after.nextTransaction == db.nextTransaction <==>
                  || Wallet.Balance(db.wallets, user) < charge.amount
                  || !(stop.value.call.SaveCoupon? || stop.value.call.Commit?))
  {
  }

  // ----- the method -----

  /** What an aborted session is rolled back to. */
  datatype Snapshot = Snapshot(bookings: Bookings, coupons: map<string, CouponDoc>, balances: map<nat, int>, ledger: seq<Wallet.Entry>)

  class SessionPayment {
    const service: BookingService

    constructor (service: BookingService)
      ensures this.service == service
    {
      this.service := service;
    }

    method StartSession() returns (session: Snapshot)
      ensures session == Snapshot(service.store.bookings, service.store.coupons, service.wallet.balances, service.wallet.ledger)
    {
      session := Snapshot(service.store.bookings, service.store.coupons, service.wallet.balances, service.wallet.ledger);
    }

    method AbortTransaction(session: Snapshot)
      modifies service.store`bookings, service.store`coupons, service.wallet
      ensures service.store.bookings == session.bookings && service.store.coupons == session.coupons
      ensures service.wallet.balances == session.balances && service.wallet.ledger == session.ledger
    {
      service.store.bookings, service.store.coupons := session.bookings, session.coupons;
      service.wallet.balances, service.wallet.ledger := session.balances, session.ledger;
    }

    /** The calls after the debit, in order, up to the first that fails. */
    method ConfirmAndRecord(user: nat, ids: seq<BookingId>, groupId: nat, charge: AmountDue, groupFinal: nat,
                            coupon: Option<string>, fault: Option<SessionFault>) returns (stop: Option<SessionFault>)
      requires !FailsAt(fault, Debit)
      modifies service.store
      ensures stop == SessionStop(old(service.store.bookings), old(service.store.coupons), ids, coupon, fault)
      ensures var before := old(service.View());
              var left := if stop.None? then WithPaymentRow(before, user, groupId, charge.amount)
                          else LeftBehind(before, user, groupId, charge.amount, stop.value.call);
              service.View() == left.(bookings := service.store.bookings, coupons := service.store.coupons)
      ensures stop.None? ==>
                && service.store.bookings == Updated(old(service.store.bookings), ids, b => WalletConfirmed(b, charge, groupFinal))
                && service.store.coupons == CouponUsed(old(service.store.coupons), Truthy(coupon))
    {
      var refused := service.ConfirmMembers(ids, charge, groupFinal, FailingMember(fault));
      if refused.Some? {
        return Some(SessionFault(Confirm(refused.value), if FailsAt(fault, Confirm(refused.value)) then fault.value.kind else Conflict));
      }
      if FailsAt(fault, InsertPayment) {
        return fault;
      }
      var row := Payment(groupId, user, charge.amount, 0, WalletMethod, Paid, None, 0);
      service.store.payments := service.store.payments[service.store.nextTransaction := row];
      service.store.nextTransaction := service.store.nextTransaction + 1;
      var counted := service.CountCoupon(coupon, !FailsAt(fault, SaveCoupon));
      if !counted || FailsAt(fault, Commit) {
        return fault;
      }
      stop := None;
    }

    method PayWithSession(user: nat, ids: seq<BookingId>, groupId: nat, charge: AmountDue, groupFinal: nat,
                          coupon: Option<string>, fault: Option<SessionFault>, faults: Faults) returns (r: Result<(), BookingError>)
      modifies service.store, service.wallet
      ensures (service.View(), r) == PayInSession(old(service.View()), user, ids, groupId, charge, groupFinal, coupon, fault, faults)
    {
      ghost var before := service.View();
      var session := StartSession();
      var stop := fault;
      var debit := service.wallet.PayForBooking(user, charge.amount, !FailsAt(fault, Debit));
      if debit == Err(Wallet.InsufficientBalance) {
        AbortTransaction(session);
        return Err(WalletFailure(Wallet.InsufficientBalance));
      }
      if debit.Ok? {
        stop := ConfirmAndRecord(user, ids, groupId, charge, groupFinal, coupon, fault);
        if stop.None? {
          assert service.View() == Committed(before, user, ids, groupId, charge, groupFinal, coupon);
          return Ok(());
        }
      }
      AbortTransaction(session);
      assert service.View() == LeftBehind(before, user, groupId, charge.amount, stop.value.call);
      r := GiveUp(user, ids, groupId, charge, groupFinal, coupon, stop.value, faults);
    }

    /** The error handling after the abort; only a debit that failed itself is not credited back. */
    method GiveUp(user: nat, ids: seq<BookingId>, groupId: nat, charge: AmountDue, groupFinal: nat, coupon: Option<string>,
                  stop: SessionFault, faults: Faults) returns (r: Result<(), BookingError>)
      modifies service.store, service.wallet
      ensures (service.View(), r) == GivenUp(old(service.View()), user, ids, groupId, charge, groupFinal, coupon, stop, faults)
    {
      var walletDebited := !stop.call.Debit?;
      if walletDebited && !stop.kind.Other? {
        var refund := service.wallet.RefundBooking(user, charge.amount, faults.refundLedgerOk);
      }
      match stop.kind
      case Conflict => r := Err(JustBooked);
      case Unsupported =>
        r := service.ProcessGroupPaymentCompensating(user, ids, groupId, charge, groupFinal, coupon, faults);
      case Other => r := Err(PaymentFailed);
    }
  }
}
