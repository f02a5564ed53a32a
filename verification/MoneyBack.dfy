/** What cancellations, suspensions and refunds of one payment give back, taken together. */
module MoneyBack {
  import opened Prelude
  import opened Money
  import opened Coupon
  import opened BookingRequest
  import opened Slots
  import opened GroupPrice
  import opened Database
  import opened BookingOperations
  import opened BookingTheorems
  import opened Payments
  import Wallet

  /** Suspend is one round of the suspension sweep, Repay a refund request for the payment whose saves work. */
  datatype Return =
    | Cancel(id: BookingId, actor: nat, isStaff: bool, ledgerOk: bool)
    | Suspend(id: BookingId, ledgerOk: bool)
    | Repay(amount: Option<int>, found: seq<BookingId>, ledgerOk: bool)
    | Wait(ms: nat)

  predicate IsSwept(db: Db, id: BookingId) {
    id in db.bookings && id in SuspensionRows(db, db.bookings[id].claim.user)
  }

  function Returning(db: Db, t: TransactionId, r: Return): Db {
    match r
    case Cancel(id, actor, isStaff, ledgerOk) => Cancelling(db, id, actor, isStaff, ledgerOk).0
    case Suspend(id, ledgerOk) => if IsSwept(db, id) then SuspendOne(db, id, ledgerOk).0 else db
    case Repay(amount, found, ledgerOk) => Refund(db, t, amount, found, ledgerOk, true).0
    case Wait(ms) => db.(now := db.now + ms)
  }

  function ReturningAll(db: Db, t: TransactionId, acts: seq<Return>): Db {
    if |acts| == 0 then db else Returning(ReturningAll(db, t, acts[..|acts| - 1]), t, acts[|acts| - 1])
  }

  /** What a cancelled booking puts into its owner's wallet. */
  function RowGives(db: Db, r: Return): nat {
    match r
    case Cancel(id, actor, isStaff, ledgerOk) =>
      if id in db.bookings && CancelError(db.bookings[id], actor, isStaff, db.now).None? && ledgerOk
      then Max(0, RefundFor(db.bookings[id])) else 0
    case Suspend(id, ledgerOk) => if IsSwept(db, id) && ledgerOk then RefundOnSuspension(db.bookings[id], db.now) else 0
    case _ => 0
  }

  function RowGivesTo(db: Db, r: Return, user: nat): nat {
    if (r.Cancel? || r.Suspend?) && r.id in db.bookings && db.bookings[r.id].claim.user == user then RowGives(db, r) else 0
  }

  function RowsGive(db: Db, t: TransactionId, acts: seq<Return>, user: nat): nat {
    if |acts| == 0 then 0
    else
      var n := |acts| - 1;
      RowsGive(db, t, acts[..n], user) + RowGivesTo(ReturningAll(db, t, acts[..n]), acts[n], user)
  }

  /** The payment only ever records refunds of its own, up to what was paid. */
  predicate Recorded(p0: Payment, p: Payment) {
    && p0.refundedAmount <= p.refundedAmount <= p0.amount
    && p == p0.(refundedAmount := p.refundedAmount,
                status := if p.refundedAmount == p0.amount && p.refundedAmount > p0.refundedAmount then Refunded else p0.status)
  }

  function RepaidTo(p0: Payment, p: Payment, user: nat): int {
    if user == p0.user then p.refundedAmount - p0.refundedAmount else 0
  }

  lemma ReturnGives(db: Db, t: TransactionId, r: Return, p0: Payment, user: nat)
    requires t in db.payments && Recorded(p0, db.payments[t])
    ensures var after := Returning(db, t, r);
            && t in after.payments && Recorded(p0, after.payments[t])
            && Wallet.Balance(after.wallets, user)
               == Wallet.Balance(db.wallets, user) + RowGivesTo(db, r, user)
                  + RepaidTo(p0, after.payments[t], user) - RepaidTo(p0, db.payments[t], user)
  {
  }

  /**
   Every wallet rises by what cancelled bookings gave it and, the payer's, by what the payment records as refunded,
   which never exceeds what was paid. Nothing ties the two together.
   */
  lemma {:induction false} TotalReturned(db: Db, t: TransactionId, acts: seq<Return>)
    requires t in db.payments && db.payments[t].refundedAmount <= db.payments[t].amount
    ensures var end, p0 := ReturningAll(db, t, acts), db.payments[t];
            && t in end.payments && Recorded(p0, end.payments[t])
            && forall user: nat ::
                 Wallet.Balance(end.wallets, user) - Wallet.Balance(db.wallets, user)
                 == RowsGive(db, t, acts, user) + RepaidTo(p0, end.payments[t], user)
  {
    if |acts| > 0 {
      var n := |acts| - 1;
      TotalReturned(db, t, acts[..n]);
      forall user: nat
        ensures Wallet.Balance(ReturningAll(db, t, acts).wallets, user) - Wallet.Balance(db.wallets, user)
                == RowsGive(db, t, acts, user) + RepaidTo(db.payments[t], ReturningAll(db, t, acts).payments[t], user)
      {
        ReturnGives(ReturningAll(db, t, acts[..n]), t, acts[n], db.payments[t], user);
      }
      ReturnGives(ReturningAll(db, t, acts[..n]), t, acts[n], db.payments[t], db.payments[t].user);
    }
  }

  /** A refund that credits the wallet is recorded exactly when the payment can be saved. */
  lemma RefundRecordedIffSaved(db: Db, t: TransactionId, amount: Option<int>, found: seq<BookingId>, saveOk: bool)
    requires t in db.payments && RefundRefused(db.payments[t], amount).None?
    ensures var after := Refund(db, t, amount, found, true, saveOk).0;
            var p, q := db.payments[t], after.payments[t];
            (Wallet.Balance(after.wallets, p.user) - Wallet.Balance(db.wallets, p.user) == q.refundedAmount - p.refundedAmount)
            <==> saveOk
  {
  }

  // ----- cancelled and refunded -----

  /** A member's own cancellation or suspension, with a wallet that takes the refund. */
  predicate OfMember(r: Return, ids: seq<BookingId>) {
    match r
    case Cancel(id, _, _, ledgerOk) => id in ids && ledgerOk
    case Suspend(id, ledgerOk) => id in ids && ledgerOk
    case Repay(_, _, _) => false
    case Wait(_) => true
  }

  predicate MarkedRefunded(bookings: Bookings, ids: seq<BookingId>) {
    exists k :: 0 <= k < |ids| && ids[k] in bookings && bookings[ids[k]].bill.paymentStatus.Refunded?
  }

  /** The rows of the group belong to the payer, and one that is marked refunded is cancelled. */
  predicate MembersOf(bookings: Bookings, ids: seq<BookingId>, user: nat) {
    forall k :: 0 <= k < |ids| ==>
      && ids[k] in bookings && bookings[ids[k]].claim.user == user
      && (bookings[ids[k]].bill.paymentStatus.Refunded? ==> bookings[ids[k]].claim.status.Cancelled?)
  }

  lemma MemberReturns(db: Db, t: TransactionId, ids: seq<BookingId>, user: nat, r: Return)
    requires MembersOf(db.bookings, ids, user) && OfMember(r, ids)
    ensures var after := Returning(db, t, r);
            && after.payments == db.payments && MembersOf(after.bookings, ids, user)
            && (MarkedRefunded(after.bookings, ids) <==> MarkedRefunded(db.bookings, ids) || RowGivesTo(db, r, user) > 0)
  {
  }

  lemma {:induction false} MembersReturn(db: Db, t: TransactionId, ids: seq<BookingId>, user: nat, acts: seq<Return>)
    requires MembersOf(db.bookings, ids, user) && !MarkedRefunded(db.bookings, ids)
    requires forall k :: 0 <= k < |acts| ==> OfMember(acts[k], ids)
    ensures var end := ReturningAll(db, t, acts);
            && end.payments == db.payments && MembersOf(end.bookings, ids, user)
            && (MarkedRefunded(end.bookings, ids) <==> RowsGive(db, t, acts, user) > 0)
  {
    if |acts| > 0 {
      var n := |acts| - 1;
      MembersReturn(db, t, ids, user, acts[..n]);
      MemberReturns(ReturningAll(db, t, acts[..n]), t, ids, user, acts[n]);
    }
  }

  /**
   Cancel some of the members, then have any amount of the payment refunded that is not above what it has left: the refund
   is not reduced by what they gave back. More than the payment comes back in all exactly if they gave more than the
   refund leaves; and if all of it is refunded, exactly if a member is already marked as refunded.
   */
  lemma CancelledAndRefunded(db: Db, t: TransactionId, ids: seq<BookingId>, acts: seq<Return>, amount: Option<int>)
    requires t in db.payments && RefundRefused(db.payments[t], amount).None?
    requires MembersOf(db.bookings, ids, db.payments[t].user) && !MarkedRefunded(db.bookings, ids)
    requires forall k :: 0 <= k < |acts| ==> OfMember(acts[k], ids)
    ensures var p := db.payments[t];
            var at := ReturningAll(db, t, acts);
            var (end, r) := Refund(at, t, amount, ids, true, true);
            var given, left := RowsGive(db, t, acts, p.user), p.amount - p.refundedAmount;
            var back := Wallet.Balance(end.wallets, p.user) - Wallet.Balance(db.wallets, p.user);
            && r == Ok(RefundAmount(p, amount)) && back == given + RefundAmount(p, amount)
            && (back > left <==> given > left - RefundAmount(p, amount))
            && (given > 0 <==> MarkedRefunded(at.bookings, ids))
            && (RefundAmount(p, amount) == left ==> (back > left <==> MarkedRefunded(at.bookings, ids)))
  {
    var p, refund := db.payments[t], acts + [Repay(amount, ids, true)];
    MembersReturn(db, t, ids, p.user, acts);
    TotalReturned(db, t, refund);
    assert refund[..|acts|] == acts;
    assert RowsGive(db, t, refund, p.user) == RowsGive(db, t, acts, p.user);
    RefundTakes(ReturningAll(db, t, acts), t, amount, ids);
  }

  lemma RefundTakes(db: Db, t: TransactionId, amount: Option<int>, found: seq<BookingId>)
    requires t in db.payments && RefundRefused(db.payments[t], amount).None?
    ensures var (after, r) := Refund(db, t, amount, found, true, true);
            r == Ok(RefundAmount(db.payments[t], amount)) && t in after.payments
            && after.payments[t].refundedAmount == db.payments[t].refundedAmount + RefundAmount(db.payments[t], amount)
  {
  }

  /** In the other order nothing more comes back: the refund has cancelled every member. */
  lemma {:induction false} RefundedFirst(db: Db, t: TransactionId, ids: seq<BookingId>, acts: seq<Return>)
    requires forall k :: 0 <= k < |ids| ==> ids[k] in db.bookings && db.bookings[ids[k]].claim.status.Cancelled?
    requires forall k :: 0 <= k < |acts| ==> OfMember(acts[k], ids)
    ensures ReturningAll(db, t, acts) == db.(now := ReturningAll(db, t, acts).now)
  {
    if |acts| > 0 {
      RefundedFirst(db, t, ids, acts[..|acts| - 1]);
    }
  }

  /**
   A cancellation credits its refund before it updates the row. If the update fails the booking can be cancelled again,
   and is refunded again: the owner has got it twice, which is something exactly if there was a refund.
   */
  lemma CutShortCancellationRefundsTwice(db: Db, id: BookingId, actor: nat, isStaff: bool)
    requires id in db.bookings && CancelError(db.bookings[id], actor, isStaff, db.now).None?
    ensures var b := db.bookings[id];
            var (half, r) := CancelCutShort(db, id, actor, isStaff, true);
            var (end, again) := Cancelling(half, id, actor, isStaff, true);
            && r == Err(UpdateFailed) && half.bookings == db.bookings && again.Ok?
            && Wallet.Balance(end.wallets, b.claim.user) == Wallet.Balance(db.wallets, b.claim.user) + 2 * Max(0, RefundFor(b))
  {
  }
}
