/** Callbacks have their effect once. */
module PaymentTheorems {
  import opened Prelude
  import opened Money
  import opened Coupon
  import opened BookingRequest
  import opened Slots
  import opened GroupPrice
  import opened Database
  import opened BookingOperations
  import opened BookingTheorems
  import opened BookingMoney
  import opened Payments
  import Wallet

  // ----- one payment over any sequence of callbacks -----

  /** What may happen between two moments of a payment's life; Elsewhere is anything that leaves it and its group alone. */
  datatype Event =
    | Arrives(cb: Callback, found: seq<BookingId>, faults: CallbackFaults)
    | Waits(ms: nat)
    | CronRuns
    | Elsewhere(after: Db)

  function Following(db: Db, e: Event): Db {
    match e
    case Arrives(cb, found, faults) => Webhook(db, cb, found, faults).0
    case Waits(ms) => db.(now := db.now + ms)
    case CronRuns => CronSwept(db)
    case Elsewhere(after) => after
  }

  function After(db: Db, events: seq<Event>): Db {
    if |events| == 0 then db else Following(After(db, events[..|events| - 1]), events[|events| - 1])
  }

  predicate LeavesAlone(db: Db, after: Db, t: TransactionId)
    requires t in db.payments
  {
    var g := db.payments[t].groupId;
    && t in after.payments && after.payments[t] == db.payments[t]
    && Group(after.bookings, g) == Group(db.bookings, g)
    && forall i :: i in Group(db.bookings, g) ==> after.bookings[i] == db.bookings[i]
  }

  /** A callback names the payment and finds its whole group. */
  ghost predicate Fits(db: Db, t: TransactionId, e: Event) {
    t in db.payments &&
    match e
    case Arrives(cb, found, faults) => cb.reference == t && Listing(found, Group(db.bookings, db.payments[t].groupId))
    case Waits(_) => true
    case CronRuns => true
    case Elsewhere(after) => LeavesAlone(db, after, t)
  }

  ghost predicate AllFit(db: Db, t: TransactionId, events: seq<Event>) {
    forall k :: 0 <= k < |events| ==> Fits(After(db, events[..k]), t, events[k])
  }

  function Added(before: seq<Wallet.Entry>, after: seq<Wallet.Entry>): seq<Wallet.Entry> {
    if |after| >= |before| then after[|before|..] else []
  }

  /** The ledger rows this event writes for the payment. */
  function RowsOf(db: Db, e: Event): seq<Wallet.Entry> {
    if e.Arrives? then Added(db.wallets.ledger, Following(db, e).wallets.ledger) else []
  }

  function LedgerRows(db: Db, events: seq<Event>): seq<Wallet.Entry> {
    if |events| == 0 then []
    else
      var n := |events| - 1;
      LedgerRows(db, events[..n]) + RowsOf(After(db, events[..n]), events[n])
  }

  predicate Settled(status: PaymentStatus) {
    status.Paid? || status.PartiallyPaid? || status.Refunded?
  }

  predicate Fulfilled(status: PaymentStatus) {
    status.Paid? || status.PartiallyPaid?
  }

  // ----- what arrives, and what comes of it -----

  /** A success callback that finds bookings and whose card transaction no other payment was paid with. */
  predicate Succeeds(db: Db, t: TransactionId, e: Event) {
    e.Arrives? && e.cb.success && !e.cb.pending && |e.found| > 0 && !UsedElsewhere(db.payments, t, e.cb.paymobId)
  }

  predicate SucceedsLate(db: Db, t: TransactionId, e: Event)
    requires t in db.payments
  {
    Succeeds(db, t, e) && AnyTooLate(Claims(db.bookings), db.payments[t].groupId, db.now)
  }

  /** Such a callback has arrived. */
  predicate Delivered(db: Db, t: TransactionId, events: seq<Event>) {
    |events| > 0 &&
    var n := |events| - 1;
    Delivered(db, t, events[..n]) || Succeeds(After(db, events[..n]), t, events[n])
  }

  predicate ComesBack(db: Db, t: TransactionId, e: Event) {
    t in db.payments && db.payments[t].status.PartiallyPaid? && SucceedsLate(db, t, e)
  }

  /** One has arrived while the payment was fulfilled in part and a member of the group was gone. */
  predicate CameBack(db: Db, t: TransactionId, events: seq<Event>) {
    |events| > 0 &&
    var n := |events| - 1;
    CameBack(db, t, events[..n]) || ComesBack(After(db, events[..n]), t, events[n])
  }

  /** No wallet call fails: rows can be written, a credit is of something, and a debit finds its amount. */
  predicate Works(db: Db, t: TransactionId, e: Event) {
    t in db.payments && Succeeds(db, t, e) ==>
      var p := db.payments[t];
      && EffectiveCardPaid(p, e.cb) > 0 && e.faults.creditLedgerOk && e.faults.debitLedgerOk
      && (p.status.Unpaid? && !SucceedsLate(db, t, e) ==> p.walletDeduction <= Wallet.Balance(db.wallets, p.user))
  }

  predicate AllWork(db: Db, t: TransactionId, events: seq<Event>) {
    |events| > 0 ==>
      var n := |events| - 1;
      AllWork(db, t, events[..n]) && Works(After(db, events[..n]), t, events[n])
  }

  /** The debit of the wallet part, if there is one; missing only if a wallet call failed. */
  predicate DebitRows(rows: seq<Wallet.Entry>, p0: Payment, works: bool) {
    && |rows| <= 1
    && (works ==> (|rows| == 1 <==> p0.walletDeduction > 0))
    && forall k :: 0 <= k < |rows| ==>
         rows[k].user == p0.user && rows[k].kind.BookingPayment? && rows[k].amount == p0.walletDeduction > 0
  }

  /** The credit of what the payment records as refunded; missing only if the wallet call failed. */
  predicate CreditRows(rows: seq<Wallet.Entry>, p: Payment, works: bool) {
    && |rows| <= 1
    && (works ==> |rows| == 1)
    && forall k :: 0 <= k < |rows| ==>
         rows[k].user == p.user && rows[k].kind.BookingRefund? && rows[k].amount == p.refundedAmount > 0
  }

  ghost predicate DebitThenCredit(rows: seq<Wallet.Entry>, p0: Payment, p: Payment, works: bool) {
    exists n :: 0 <= n <= |rows| && DebitRows(rows[..n], p0, works) && CreditRows(rows[n..], p, works)
  }

  predicate SamePayer(p: Payment, p0: Payment) {
    p.groupId == p0.groupId && p.user == p0.user && p.walletDeduction == p0.walletDeduction
  }

  /** What has become of the payment, and which ledger rows were written for it. */
  ghost predicate ExactlyOnce(p: Payment, p0: Payment, rows: seq<Wallet.Entry>, back: bool, works: bool) {
    SamePayer(p, p0) &&
    match p.status
    case Unpaid => p == p0 && rows == [] && !back
    case Refunded => if back then DebitThenCredit(rows, p0, p, works) else CreditRows(rows, p, works)
    case PayAtVenue => false
    case _ => DebitRows(rows, p0, works) && !back
  }

  lemma AddedRows(before: seq<Wallet.Entry>, e: Wallet.Entry)
    ensures Added(before, before) == [] && Added(before, before + [e]) == [e]
  {
  }

  lemma DebitedRows(w: Wallet.State, p: Payment, ledgerOk: bool)
    ensures DebitRows(Added(w.ledger, PartTaken(w, p.user, p.walletDeduction, ledgerOk).ledger), p,
                      ledgerOk && p.walletDeduction <= Wallet.Balance(w, p.user))
  {
    var b := Wallet.Balance(w, p.user);
    AddedRows(w.ledger, Wallet.Entry(p.user, Wallet.BookingPayment, p.walletDeduction, b, b - p.walletDeduction));
  }

  /** A success on an unpaid payment whose group is all there fulfils it, and debits the wallet part. */
  lemma OnTimeFulfils(db: Db, cb: Callback, found: seq<BookingId>, faults: CallbackFaults)
    requires cb.reference in db.payments && db.payments[cb.reference].status.Unpaid? && |found| > 0
    ensures var after, p := OnTimeSuccess(db, cb, found, faults).0, db.payments[cb.reference];
            && cb.reference in after.payments && Fulfilled(after.payments[cb.reference].status)
            && SamePayer(after.payments[cb.reference], p)
            && DebitRows(Added(db.wallets.ledger, after.wallets.ledger), p,
                         faults.debitLedgerOk && p.walletDeduction <= Wallet.Balance(db.wallets, p.user))
  {
    OnTimeIs(db, cb, found, faults);
    DebitedRows(db.wallets, db.payments[cb.reference], faults.debitLedgerOk);
  }

  /** One whose group is gone, in whole or in part, is refunded: the card amount is credited. */
  lemma LateCredits(db: Db, cb: Callback, found: seq<BookingId>, faults: CallbackFaults)
    requires cb.reference in db.payments
    ensures var after, p := LateSuccess(db, cb, found, faults).0, db.payments[cb.reference];
            && cb.reference in after.payments && after.payments[cb.reference].status.Refunded?
            && SamePayer(after.payments[cb.reference], p)
            && CreditRows(Added(db.wallets.ledger, after.wallets.ledger), after.payments[cb.reference],
                          faults.creditLedgerOk && EffectiveCardPaid(p, cb) > 0)
  {
    var p, amount := db.payments[cb.reference], EffectiveCardPaid(db.payments[cb.reference], cb);
    var b := Wallet.Balance(db.wallets, p.user);
    var row := Wallet.Entry(p.user, Wallet.BookingRefund, amount, b, b + amount);
    AddedRows(db.wallets.ledger, row);
    var credit := Wallet.Deposited(db.wallets, p.user, amount, Wallet.BookingRefund, faults.creditLedgerOk);
    assert credit.0.ledger == if amount > 0 && faults.creditLedgerOk then db.wallets.ledger + [row] else db.wallets.ledger;
    assert LateSuccess(db, cb, found, faults).0.wallets == credit.0;
  }

  /** What one event does: a success settles an unpaid payment, and takes a payment fulfilled in part back if it is late. */
  predicate EventEffect(db: Db, t: TransactionId, e: Event)
    requires t in db.payments
  {
    var after, p := Following(db, e), db.payments[t];
    && t in after.payments && SamePayer(after.payments[t], p)
    && if Succeeds(db, t, e) && p.status.Unpaid? && !SucceedsLate(db, t, e) then
         Fulfilled(after.payments[t].status) && DebitRows(RowsOf(db, e), p, Works(db, t, e))
       else if SucceedsLate(db, t, e) && (p.status.Unpaid? || p.status.PartiallyPaid?) then
         after.payments[t].status.Refunded? && CreditRows(RowsOf(db, e), after.payments[t], Works(db, t, e))
       else after.payments[t] == p && RowsOf(db, e) == []
  }

  lemma EventExact(db: Db, t: TransactionId, e: Event)
    requires Fits(db, t, e) && db.payments[t].status != PayAtVenue
    ensures EventEffect(db, t, e)
  {
    match e
    case Arrives(cb, found, faults) =>
      AddedRows(db.wallets.ledger, Wallet.Entry(0, Wallet.BookingRefund, 0, 0, 0));
      if SucceedsLate(db, t, e) {
        LateCredits(db, cb, found, faults);
      } else if Succeeds(db, t, e) && db.payments[t].status.Unpaid? {
        OnTimeFulfils(db, cb, found, faults);
      }
    case _ =>
  }

  lemma FitPrefix(db: Db, t: TransactionId, events: seq<Event>, n: nat)
    requires n <= |events| && AllFit(db, t, events)
    ensures AllFit(db, t, events[..n])
  {
    forall k | 0 <= k < n ensures Fits(After(db, events[..n][..k]), t, events[..n][k]) {
      assert events[..n][..k] == events[..k];
    }
  }

  lemma OneMoreEvent(db: Db, t: TransactionId, p0: Payment, e: Event, rows: seq<Wallet.Entry>, back: bool, works: bool)
    requires t in db.payments && ExactlyOnce(db.payments[t], p0, rows, back, works) && EventEffect(db, t, e)
    ensures var q := Following(db, e).payments[t];
            && ExactlyOnce(q, p0, rows + RowsOf(db, e), back || ComesBack(db, t, e), works && Works(db, t, e))
            && (Settled(q.status) <==> Settled(db.payments[t].status) || Succeeds(db, t, e))
  {
    var p, q, more, worked := db.payments[t], Following(db, e).payments[t], RowsOf(db, e), Works(db, t, e);
    if SucceedsLate(db, t, e) && p.status.PartiallyPaid? {
      RefundedAfterAll(p, q, p0, rows, more, works, worked);
    } else if Succeeds(db, t, e) && p.status.Unpaid? {
      NowSettled(p, q, p0, rows, more, back, works, worked);
    } else {
      assert rows + [] == rows;
      StillSo(p, p0, rows, back, works, worked);
    }
  }

  lemma StillSo(p: Payment, p0: Payment, rows: seq<Wallet.Entry>, back: bool, works: bool, worked: bool)
    requires ExactlyOnce(p, p0, rows, back, works)
    ensures ExactlyOnce(p, p0, rows, back, works && worked)
  {
    if p.status.Refunded? && back {
      var n :| 0 <= n <= |rows| && DebitRows(rows[..n], p0, works) && CreditRows(rows[n..], p, works);
      assert DebitRows(rows[..n], p0, works && worked) && CreditRows(rows[n..], p, works && worked);
    }
  }

  lemma NowSettled(p: Payment, q: Payment, p0: Payment, rows: seq<Wallet.Entry>, more: seq<Wallet.Entry>, back: bool, works: bool, worked: bool)
    requires ExactlyOnce(p, p0, rows, back, works) && p.status.Unpaid? && SamePayer(q, p)
    requires (Fulfilled(q.status) && DebitRows(more, p, worked)) || (q.status.Refunded? && CreditRows(more, q, worked))
    ensures ExactlyOnce(q, p0, rows + more, back, works && worked)
  {
    assert [] + more == more;
  }

  lemma RefundedAfterAll(p: Payment, q: Payment, p0: Payment, rows: seq<Wallet.Entry>, more: seq<Wallet.Entry>, works: bool, worked: bool)
    requires SamePayer(p, p0) && SamePayer(q, p) && q.status.Refunded? && DebitRows(rows, p0, works) && CreditRows(more, q, worked)
    ensures ExactlyOnce(q, p0, rows + more, true, works && worked)
  {
    assert (rows + more)[..|rows|] == rows && (rows + more)[|rows|..] == more;
    assert DebitRows((rows + more)[..|rows|], p0, works && worked) && CreditRows((rows + more)[|rows|..], q, works && worked);
  }

  /**
   Exactly once: whatever callbacks arrive, successful, failed, pending, repeated or out of order, between clock ticks,
   cron runs and anything else that leaves the payment and its group alone, the payment is settled as soon as a success
   has got through, and only then. While it is unpaid the wallet is untouched. Fulfilled, the wallet part has been
   debited, once; refunded, what it records as refunded has been credited, once, and nothing was debited unless a
   success came back to a payment that was fulfilled in part.
   */
  lemma {:induction false} WebhookExactlyOnce(db: Db, t: TransactionId, events: seq<Event>)
    requires t in db.payments && db.payments[t].status.Unpaid? && AllFit(db, t, events)
    ensures var p0, end := db.payments[t], After(db, events);
            && t in end.payments
            && (Settled(end.payments[t].status) <==> Delivered(db, t, events))
            && ExactlyOnce(end.payments[t], p0, LedgerRows(db, events), CameBack(db, t, events), AllWork(db, t, events))
  {
    if |events| > 0 {
      var n := |events| - 1;
      var before := After(db, events[..n]);
      FitPrefix(db, t, events, n);
      WebhookExactlyOnce(db, t, events[..n]);
      EventExact(before, t, events[n]);
      OneMoreEvent(before, t, db.payments[t], events[n], LedgerRows(db, events[..n]), CameBack(db, t, events[..n]),
                   AllWork(db, t, events[..n]));
    }
  }

  /**
   With no wallet call failing the wallet is moved at most once for the payment if and only if no success came back to
   it, fulfilled in part, when a member of its group was gone; without a wallet part it never is moved twice.
   */
  lemma MovedAtMostOnceIff(db: Db, t: TransactionId, events: seq<Event>)
    requires t in db.payments && db.payments[t].status.Unpaid? && AllFit(db, t, events) && AllWork(db, t, events)
    ensures |LedgerRows(db, events)| <= 1 <==> !CameBack(db, t, events) || db.payments[t].walletDeduction <= 0
    ensures CameBack(db, t, events) ==> After(db, events).payments[t].status.Refunded?
  {
    WebhookExactlyOnce(db, t, events);
  }

  /** A settled payment stays exactly as it is, and no callback moves money for it, if and only if none comes back to it. */
  lemma {:induction false} SettledStays(db: Db, t: TransactionId, events: seq<Event>)
    requires t in db.payments && Settled(db.payments[t].status) && AllFit(db, t, events)
    ensures t in After(db, events).payments && SamePayer(After(db, events).payments[t], db.payments[t])
    ensures After(db, events).payments[t] == db.payments[t] <==> !CameBack(db, t, events)
    ensures !CameBack(db, t, events) ==> LedgerRows(db, events) == []
    ensures CameBack(db, t, events) ==> After(db, events).payments[t].status.Refunded? && db.payments[t].status.PartiallyPaid?
  {
    if |events| > 0 {
      var n := |events| - 1;
      FitPrefix(db, t, events, n);
      SettledStays(db, t, events[..n]);
      EventExact(After(db, events[..n]), t, events[n]);
    }
  }

  /** When a success settles an unpaid payment: exactly if the payment's group has any booking, and the card transaction is not used elsewhere. */
  lemma SuccessSettlesIff(db: Db, cb: Callback, found: seq<BookingId>, faults: CallbackFaults)
    requires cb.reference in db.payments && db.payments[cb.reference].status.Unpaid? && cb.success && !cb.pending
    requires Listing(found, Group(db.bookings, db.payments[cb.reference].groupId))
    ensures var after := Webhook(db, cb, found, faults).0;
            var reaches := Group(db.bookings, db.payments[cb.reference].groupId) != {} && !UsedElsewhere(db.payments, cb.reference, cb.paymobId);
            && (cb.reference in after.payments && Settled(after.payments[cb.reference].status) <==> reaches)
            && (!reaches ==> after == db)
  {
    var e := Arrives(cb, found, faults);
    assert found == [] <==> Group(db.bookings, db.payments[cb.reference].groupId) == {} by {
      if |found| > 0 {
        assert found[0] in found;
      }
    }
    EventExact(db, cb.reference, e);
  }

  // ----- the group -----

  predicate GroupHeld(bookings: Bookings, groupId: nat) {
    forall i :: i in Group(bookings, groupId) ==> bookings[i].claim.status.Confirmed? || bookings[i].claim.status.NoShow?
  }

  lemma SweepKeepsHeld(db: Db, groupId: nat)
    requires GroupHeld(db.bookings, groupId)
    ensures GroupHeld(CronSwept(db).bookings, groupId)
  {
    forall i | i in Group(CronSwept(db).bookings, groupId)
      ensures CronSwept(db).bookings[i].claim.status.Confirmed? || CronSwept(db).bookings[i].claim.status.NoShow?
    {
      assert i in Group(db.bookings, groupId);
    }
  }

  lemma HeldIsNeverLate(db: Db, groupId: nat)
    requires GroupHeld(db.bookings, groupId)
    ensures !AnyTooLate(Claims(db.bookings), groupId, db.now)
  {
    forall i | i in Claims(db.bookings) && Claims(db.bookings)[i].groupId == groupId ensures !TooLate(Claims(db.bookings)[i], db.now) {
      assert i in Group(db.bookings, groupId);
    }
  }

  lemma ConfirmationHoldsGroup(bookings: Bookings, found: seq<BookingId>, groupId: nat, totalPaid: int, due: nat)
    requires Listing(found, Group(bookings, groupId))
    ensures GroupHeld(Updated(bookings, found, b => CardConfirmed(b, totalPaid, due)), groupId)
  {
    var after := Updated(bookings, found, b => CardConfirmed(b, totalPaid, due));
    forall i | i in Group(after, groupId) ensures after[i].claim.status.Confirmed? {
      assert i in found <==> i in Group(bookings, groupId);
    }
  }

  /** The confirming update of a member fails. */
  predicate CutShort(db: Db, e: Event) {
    e.Arrives? && StopsAt(db.bookings, e.found, e.faults.updateFails, 0).Some?
  }

  predicate HeldOnceFulfilled(db: Db, t: TransactionId) {
    t in db.payments && (Fulfilled(db.payments[t].status) ==> GroupHeld(db.bookings, db.payments[t].groupId))
  }

  lemma OnTimeHolds(db: Db, cb: Callback, found: seq<BookingId>, faults: CallbackFaults)
    requires cb.reference in db.payments && db.payments[cb.reference].status.Unpaid? && |found| > 0
    requires Listing(found, Group(db.bookings, db.payments[cb.reference].groupId))
    requires StopsAt(db.bookings, found, faults.updateFails, 0).None?
    ensures GroupHeld(OnTimeSuccess(db, cb, found, faults).0.bookings, db.payments[cb.reference].groupId)
  {
    var p, due := db.payments[cb.reference], GroupTotalPrice(db.bookings, found);
    OnTimeGives(db, cb, found, faults);
    ConfirmationHoldsGroup(db.bookings, found, p.groupId, EffectiveCardPaid(p, cb) + p.walletDeduction, due);
  }

  lemma EventHolds(db: Db, t: TransactionId, e: Event)
    requires Fits(db, t, e) && HeldOnceFulfilled(db, t) && db.payments[t].status != PayAtVenue && !CutShort(db, e)
    ensures HeldOnceFulfilled(Following(db, e), t) && !ComesBack(db, t, e)
  {
    EventExact(db, t, e);
    var g := db.payments[t].groupId;
    if Fulfilled(db.payments[t].status) {
      HeldIsNeverLate(db, g);
    }
    match e
    case Arrives(cb, found, faults) =>
      if Succeeds(db, t, e) && db.payments[t].status.Unpaid? && !SucceedsLate(db, t, e) {
        OnTimeHolds(db, cb, found, faults);
      }
    case Waits(_) =>
    case CronRuns =>
      if GroupHeld(db.bookings, g) {
        SweepKeepsHeld(db, g);
      }
    case Elsewhere(after) =>
      if GroupHeld(db.bookings, g) {
        forall i | i in Group(after.bookings, g) ensures after.bookings[i].claim.status.Confirmed? || after.bookings[i].claim.status.NoShow? {
          assert i in Group(db.bookings, g);
        }
      }
  }

  /** As long as no callback is cut short the group of a fulfilled payment is held, and none ever comes back to it. */
  lemma {:induction false} WholeCallbacksHold(db: Db, t: TransactionId, events: seq<Event>)
    requires t in db.payments && db.payments[t].status.Unpaid? && AllFit(db, t, events)
    requires forall k :: 0 <= k < |events| ==> !CutShort(After(db, events[..k]), events[k])
    ensures HeldOnceFulfilled(After(db, events), t) && !CameBack(db, t, events)
  {
    if |events| > 0 {
      var n := |events| - 1;
      FitPrefix(db, t, events, n);
      forall k | 0 <= k < n ensures !CutShort(After(db, events[..n][..k]), events[..n][k]) {
        assert events[..n][..k] == events[..k];
      }
      WholeCallbacksHold(db, t, events[..n]);
      WebhookExactlyOnce(db, t, events[..n]);
      EventHolds(After(db, events[..n]), t, events[n]);
    }
  }

  predicate Held(b: Booking) {
    b.claim.status.Confirmed? || b.claim.status.NoShow?
  }

  /**
   What being cut short leaves: the payment is fulfilled all the same, the members from the failing update on are
   as they were, and the group is held if and only if those were.
   */
  lemma CutShortLeavesRest(db: Db, cb: Callback, found: seq<BookingId>, faults: CallbackFaults)
    requires cb.reference in db.payments && db.payments[cb.reference].status.Unpaid? && |found| > 0
    requires Listing(found, Group(db.bookings, db.payments[cb.reference].groupId))
    requires StopsAt(db.bookings, found, faults.updateFails, 0).Some?
    ensures var (after, r) := OnTimeSuccess(db, cb, found, faults);
            var stop := StopsAt(db.bookings, found, faults.updateFails, 0).value;
            && r == ConfirmFailed && Fulfilled(after.payments[cb.reference].status)
            && (forall k :: stop <= k < |found| ==> found[k] in after.bookings && after.bookings[found[k]] == db.bookings[found[k]])
            && (GroupHeld(after.bookings, db.payments[cb.reference].groupId)
                <==> forall k :: stop <= k < |found| ==> Held(after.bookings[found[k]]))
  {
    var p, due := db.payments[cb.reference], GroupTotalPrice(db.bookings, found);
    OnTimeIs(db, cb, found, faults);
    CutShortLeaves(SettledDb(db, cb, found, faults), EffectiveCardPaid(p, cb) + p.walletDeduction, due, SettledStatus(p, cb, due), found,
                   faults, p.groupId);
  }

  lemma CutShortLeaves(db: Db, totalPaid: int, due: nat, status: PaymentStatus, found: seq<BookingId>, faults: CallbackFaults, groupId: nat)
    requires Listing(found, Group(db.bookings, groupId)) && |found| > 0
    requires StopsAt(db.bookings, found, faults.updateFails, 0).Some?
    ensures var (after, r) := ConfirmPaidGroup(db, totalPaid, due, status, found, faults);
            var stop := StopsAt(db.bookings, found, faults.updateFails, 0).value;
            && r == ConfirmFailed && after.payments == db.payments
            && (forall k :: stop <= k < |found| ==> found[k] in after.bookings && after.bookings[found[k]] == db.bookings[found[k]])
            && (GroupHeld(after.bookings, groupId) <==> forall k :: stop <= k < |found| ==> Held(after.bookings[found[k]]))
  {
    var after := ConfirmPaidGroup(db, totalPaid, due, status, found, faults).0;
    GroupCutShort(db, totalPaid, due, status, found, faults);
    SomeConfirmed(db.bookings, after.bookings, found, StopsAt(db.bookings, found, faults.updateFails, 0).value, groupId, totalPaid, due);
  }

  /** The payment of an unpaid callback, once settled and its wallet part taken. */
  function SettledDb(db: Db, cb: Callback, found: seq<BookingId>, faults: CallbackFaults): Db
    requires cb.reference in db.payments
  {
    var p := db.payments[cb.reference];
    db.(payments := db.payments[cb.reference := Settling(p, SettledStatus(p, cb, GroupTotalPrice(db.bookings, found)), cb.paymobId)],
        wallets := PartTaken(db.wallets, p.user, p.walletDeduction, faults.debitLedgerOk))
  }

  lemma OnTimeIs(db: Db, cb: Callback, found: seq<BookingId>, faults: CallbackFaults)
    requires cb.reference in db.payments && db.payments[cb.reference].status.Unpaid? && |found| > 0
    ensures var p, due := db.payments[cb.reference], GroupTotalPrice(db.bookings, found);
            OnTimeSuccess(db, cb, found, faults)
            == ConfirmPaidGroup(SettledDb(db, cb, found, faults), EffectiveCardPaid(p, cb) + p.walletDeduction, due,
                                SettledStatus(p, cb, due), found, faults)
  {
  }

  lemma GroupCutShort(db: Db, totalPaid: int, due: nat, status: PaymentStatus, found: seq<BookingId>, faults: CallbackFaults)
    requires |found| > 0 && StopsAt(db.bookings, found, faults.updateFails, 0).Some?
    ensures var (after, r) := ConfirmPaidGroup(db, totalPaid, due, status, found, faults);
            && r == ConfirmFailed && after.payments == db.payments
            && after.bookings == Updated(db.bookings, found[..StopsAt(db.bookings, found, faults.updateFails, 0).value],
                                         b => CardConfirmed(b, totalPaid, due))
  {
  }

  lemma SomeConfirmed(before: Bookings, after: Bookings, found: seq<BookingId>, stop: nat, groupId: nat, totalPaid: int, due: nat)
    requires Listing(found, Group(before, groupId)) && stop <= |found|
    requires after == Updated(before, found[..stop], b => CardConfirmed(b, totalPaid, due))
    ensures forall k :: stop <= k < |found| ==> found[k] in after && after[found[k]] == before[found[k]]
    ensures GroupHeld(after, groupId) <==> forall k :: stop <= k < |found| ==> Held(after[found[k]])
  {
    forall k | 0 <= k < |found|
      ensures found[k] in before && found[k] in Group(after, groupId)
      ensures k < stop ==> Held(after[found[k]])
      ensures k >= stop ==> after[found[k]] == before[found[k]]
    {
      assert found[k] in found && found[k] in Group(before, groupId);
      if k < stop {
        assert found[..stop][k] == found[k];
      }
    }
    forall i | i in Group(after, groupId) ensures exists k :: 0 <= k < |found| && found[k] == i {
      assert i in Group(before, groupId) && i in found;
    }
  }

  /** And nothing makes it good: every later callback on a payment that was paid in full leaves the database as it is. */
  lemma PaidIsFinal(db: Db, cb: Callback, found: seq<BookingId>, faults: CallbackFaults)
    requires cb.reference in db.payments && db.payments[cb.reference].status.Paid?
    ensures Webhook(db, cb, found, faults).0 == db
    ensures |found| > 0 && !UsedElsewhere(db.payments, cb.reference, cb.paymobId) ==>
              Webhook(db, cb, found, faults).1 == AlreadyProcessed(Paid)
  {
  }

  /** The index is never what cuts a callback short: a member on time still has its place. */
  lemma OnTimeNeverBlocked(db: Db, cb: Callback, found: seq<BookingId>, k: nat)
    requires cb.reference in db.payments && Listing(found, Group(db.bookings, db.payments[cb.reference].groupId)) && k < |found|
    requires Inv(SlotState(db)) && !AnyTooLate(Claims(db.bookings), db.payments[cb.reference].groupId, db.now)
    ensures !Blocked(db.bookings, found, k)
  {
    var t, g := Claims(db.bookings), db.payments[cb.reference].groupId;
    forall i | i in found ensures i in t && Occupies(t[i], db.now) {
      assert i in Group(db.bookings, g);
    }
    forall i, j | i in t && j in t && i != j && Indexed(t[i]) && Indexed(t[j]) && SameDay(t[i], t[j]) ensures t[i].start != t[j].start {
    }
    if Blocked(db.bookings, found, k) {
      var j :| j in db.bookings && j != found[k] && (Active(db.bookings[j].claim) || j in found[..k])
               && SameDay(db.bookings[j].claim, db.bookings[found[k]].claim)
               && db.bookings[j].claim.start == db.bookings[found[k]].claim.start;
      assert found[k] in found && (j in found[..k] ==> j in found);
      assert Indexed(t[j]) && Indexed(t[found[k]]);
    }
  }

  /**
   The hypothesis that nothing is cancelled in between is needed, and this is where: a further success callback on
   a payment that was fulfilled in part changes the database exactly when a member of the group is gone, and then
   credits the wallet with the card amount it has already been given bookings for.
   */
  lemma PartialPaymentCallback(db: Db, cb: Callback, found: seq<BookingId>, faults: CallbackFaults)
    requires cb.reference in db.payments && db.payments[cb.reference].status.PartiallyPaid?
    requires Listing(found, Group(db.bookings, db.payments[cb.reference].groupId)) && |found| > 0
    requires cb.success && !cb.pending && !UsedElsewhere(db.payments, cb.reference, cb.paymobId)
    ensures var after, p := Webhook(db, cb, found, faults).0, db.payments[cb.reference];
            var gone := exists k :: 0 <= k < |found| && found[k] in db.bookings && TooLate(db.bookings[found[k]].claim, db.now);
            && (after != db <==> gone)
            && Wallet.Balance(after.wallets, p.user) - Wallet.Balance(db.wallets, p.user)
               == if gone && faults.creditLedgerOk && EffectiveCardPaid(p, cb) > 0 then EffectiveCardPaid(p, cb) else 0
  {
    var g := db.payments[cb.reference].groupId;
    if AnyTooLate(Claims(db.bookings), g, db.now) {
      var i :| i in Claims(db.bookings) && Claims(db.bookings)[i].groupId == g && TooLate(Claims(db.bookings)[i], db.now);
      assert i in Group(db.bookings, g) && i in found;
      assert Webhook(db, cb, found, faults).0.payments[cb.reference].status.Refunded?;
    } else {
      forall k | 0 <= k < |found| && found[k] in db.bookings ensures !TooLate(db.bookings[found[k]].claim, db.now) {
        assert found[k] in found && found[k] in Group(db.bookings, g) && found[k] in Claims(db.bookings);
      }
    }
  }

  lemma AfterThree(db: Db, a: Event, b: Event, c: Event)
    ensures After(db, [a]) == Following(db, a) && After(db, [a, b]) == Following(Following(db, a), b)
    ensures After(db, [a, b, c]) == Following(Following(Following(db, a), b), c)
    ensures LedgerRows(db, [a, b, c])
            == RowsOf(db, a) + RowsOf(Following(db, a), b) + RowsOf(Following(Following(db, a), b), c)
    ensures [a, b, c][..2] == [a, b] && [a, b, c][..1] == [a] && [a, b, c][..0] == []
  {
    assert [a, b, c][..2] == [a, b] && [a, b][..1] == [a] && [a][..0] == [] && [a, b, c][..1] == [a] && [a, b, c][..0] == [];
    assert LedgerRows(db, [a]) == RowsOf(db, a);
    assert LedgerRows(db, [a, b]) == RowsOf(db, a) + RowsOf(Following(db, a), b);
  }

  /** A deposit on time that is cut short at a member whose hold will have lapsed by then. */
  predicate DepositToBeCutShort(db: Db, cb: Callback, found: seq<BookingId>, faults: CallbackFaults, later: int) {
    && cb.reference in db.payments && db.payments[cb.reference].status.Unpaid? && |found| > 0
    && cb.success && !cb.pending && !UsedElsewhere(db.payments, cb.reference, cb.paymobId)
    && !AnyTooLate(Claims(db.bookings), db.payments[cb.reference].groupId, db.now)
    && IsDeposit(db.payments[cb.reference], cb, GroupTotalPrice(db.bookings, found))
    && StopsAt(db.bookings, found, faults.updateFails, 0).Some?
    && found[StopsAt(db.bookings, found, faults.updateFails, 0).value] in db.bookings
    && Lapsed(db.bookings[found[StopsAt(db.bookings, found, faults.updateFails, 0).value]].claim, later)
  }

  /** It leaves a payment fulfilled in part, and the member as it was. */
  lemma CutShortInPart(db: Db, cb: Callback, found: seq<BookingId>, faults: CallbackFaults, later: int)
    requires DepositToBeCutShort(db, cb, found, faults, later)
    requires Listing(found, Group(db.bookings, db.payments[cb.reference].groupId))
    ensures var after, p := Webhook(db, cb, found, faults).0, db.payments[cb.reference];
            && after.payments == db.payments[cb.reference := Settling(p, PartiallyPaid, cb.paymobId)]
            && Group(after.bookings, p.groupId) == Group(db.bookings, p.groupId)
            && AnyTooLate(Claims(after.bookings), p.groupId, later) && after.now == db.now
            && after.wallets == PartTaken(db.wallets, p.user, p.walletDeduction, faults.debitLedgerOk)
  {
    var p, due := db.payments[cb.reference], GroupTotalPrice(db.bookings, found);
    var stop := StopsAt(db.bookings, found, faults.updateFails, 0).value;
    OnTimeIs(db, cb, found, faults);
    CutShortLeavesRest(db, cb, found, faults);
    GroupCutShort(SettledDb(db, cb, found, faults), EffectiveCardPaid(p, cb) + p.walletDeduction, due, PartiallyPaid, found, faults);
    var after := OnTimeSuccess(db, cb, found, faults).0;
    assert found[stop] in found && found[stop] in Claims(after.bookings);
    assert TooLate(Claims(after.bookings)[found[stop]], later);
  }

  /**
   A success does come back, with nothing cancelled in between: a deposit is cut short at a member's update, the member's
   hold lapses, and the callback is repeated. The wallet part is debited, and then the card amount is credited.
   */
  lemma CutShortDepositComesBack(db: Db, cb: Callback, found: seq<BookingId>, faults: CallbackFaults, wait: nat)
    requires DepositToBeCutShort(db, cb, found, faults, db.now + wait)
    requires Listing(found, Group(db.bookings, db.payments[cb.reference].groupId))
    requires EffectiveCardPaid(db.payments[cb.reference], cb) > 0 && faults.creditLedgerOk && faults.debitLedgerOk
    requires 0 < db.payments[cb.reference].walletDeduction <= Wallet.Balance(db.wallets, db.payments[cb.reference].user)
    ensures var events, p := [Arrives(cb, found, faults), Waits(wait), Arrives(cb, found, faults)], db.payments[cb.reference];
            && AllFit(db, cb.reference, events) && CameBack(db, cb.reference, events)
            && |LedgerRows(db, events)| == 2
            && Wallet.Balance(After(db, events).wallets, p.user)
               == Wallet.Balance(db.wallets, p.user) - p.walletDeduction + EffectiveCardPaid(p, cb)
  {
    var t, e := cb.reference, Arrives(cb, found, faults);
    var one := Following(db, e);
    var two := Following(one, Waits(wait));
    var events := [e, Waits(wait), e];
    CutShortThenLapsed(db, cb, found, faults, wait);
    AfterThree(db, e, Waits(wait), e);
    EventExact(db, t, e);
    EventExact(two, t, e);
    ThreeFit(db, t, e, Waits(wait), e);
    assert CameBack(db, t, events);
    LateMoves(two, cb, found, faults);
  }

  lemma ThreeFit(db: Db, t: TransactionId, a: Event, b: Event, c: Event)
    requires Fits(db, t, a) && Fits(Following(db, a), t, b) && Fits(Following(Following(db, a), b), t, c)
    ensures AllFit(db, t, [a, b, c])
  {
    AfterThree(db, a, b, c);
    var events := [a, b, c];
    assert events[0] == a && events[1] == b && events[2] == c;
  }

  lemma CutShortThenLapsed(db: Db, cb: Callback, found: seq<BookingId>, faults: CallbackFaults, wait: nat)
    requires DepositToBeCutShort(db, cb, found, faults, db.now + wait)
    requires Listing(found, Group(db.bookings, db.payments[cb.reference].groupId))
    requires EffectiveCardPaid(db.payments[cb.reference], cb) > 0 && faults.creditLedgerOk && faults.debitLedgerOk
    requires 0 < db.payments[cb.reference].walletDeduction <= Wallet.Balance(db.wallets, db.payments[cb.reference].user)
    ensures var t, e, p := cb.reference, Arrives(cb, found, faults), db.payments[cb.reference];
            var one := Following(db, e);
            var two := Following(one, Waits(wait));
            && Fits(db, t, e) && Succeeds(db, t, e) && !SucceedsLate(db, t, e) && Works(db, t, e)
            && Fits(one, t, Waits(wait)) && Fits(two, t, e) && ComesBack(two, t, e) && Works(two, t, e)
            && two.payments[t].user == p.user && EffectiveCardPaid(two.payments[t], cb) == EffectiveCardPaid(p, cb)
            && Wallet.Balance(two.wallets, p.user) == Wallet.Balance(db.wallets, p.user) - p.walletDeduction
  {
    var t, e := cb.reference, Arrives(cb, found, faults);
    var two := Following(Following(db, e), Waits(wait));
    CutShortInPart(db, cb, found, faults, two.now);
    assert !UsedElsewhere(two.payments, t, cb.paymobId);
  }

  lemma LateMoves(db: Db, cb: Callback, found: seq<BookingId>, faults: CallbackFaults)
    requires ComesBack(db, cb.reference, Arrives(cb, found, faults))
    requires faults.creditLedgerOk && EffectiveCardPaid(db.payments[cb.reference], cb) > 0
    ensures var p := db.payments[cb.reference];
            Wallet.Balance(Webhook(db, cb, found, faults).0.wallets, p.user)
            == Wallet.Balance(db.wallets, p.user) + EffectiveCardPaid(p, cb)
  {
  }

  // ----- what a success on time does -----

  /** None of the group has paid anything yet. */
  predicate NothingPaid(bookings: Bookings, found: seq<BookingId>) {
    forall k :: 0 <= k < |found| ==> found[k] in bookings && bookings[found[k]].bill.paidAmount == 0
  }

  /** What each member has paid lies within its price. */
  predicate PaidWithin(bookings: Bookings, found: seq<BookingId>) {
    forall k :: 0 <= k < |found| ==> found[k] in bookings && 0 <= bookings[found[k]].bill.paidAmount <= bookings[found[k]].bill.finalPrice
  }

  /** A member as the callback confirms it: nothing it had paid is forgotten, and what it owes is what is left. */
  predicate CardMember(before: Booking, after: Booking, totalPaid: int, due: nat) {
    && after.claim == ConfirmedClaim(before.claim) && after.bill.finalPrice == before.bill.finalPrice
    && before.bill.paidAmount <= after.bill.paidAmount <= after.bill.finalPrice
    && after.bill.paidAmount + after.bill.remainingAmount == after.bill.finalPrice
    && (after.bill.paymentStatus.Paid? <==> after.bill.remainingAmount == 0)
    && (totalPaid >= due ==> after.bill.remainingAmount == 0)
  }

  lemma CardShare(before: Booking, totalPaid: nat, due: nat)
    requires 0 <= before.bill.paidAmount <= before.bill.finalPrice <= due
    ensures CardMember(before, CardConfirmed(before, totalPaid, due), totalPaid, due)
    ensures CardConfirmed(before, totalPaid, due).bill.paidAmount
            == if totalPaid < due && before.bill.paidAmount == 0 then ToFixed(before.bill.finalPrice * totalPaid, due)
               else Min(before.bill.finalPrice, before.bill.paidAmount + totalPaid)
  {
    if totalPaid < due {
      ShareWithinWeight(before.bill.finalPrice, totalPaid, due);
    }
  }

  lemma ConfirmedMembers(before: Bookings, after: Bookings, found: seq<BookingId>, totalPaid: nat, k: nat)
    requires k < |found| && PaidWithin(before, found)
    requires after == Updated(before, found, b => CardConfirmed(b, totalPaid, GroupTotalPrice(before, found)))
    ensures found[k] in after && after[found[k]] == CardConfirmed(before[found[k]], totalPaid, GroupTotalPrice(before, found))
    ensures CardMember(before[found[k]], after[found[k]], totalPaid, GroupTotalPrice(before, found))
    ensures totalPaid < GroupTotalPrice(before, found) && before[found[k]].bill.paidAmount == 0 ==>
              after[found[k]].bill.paidAmount == ToFixed(GroupFinals(before, found)[k] * totalPaid, GroupTotalPrice(before, found))
  {
    SumMember(GroupFinals(before, found), k);
    assert found[k] in found;
    CardShare(before[found[k]], totalPaid, GroupTotalPrice(before, found));
  }

  predicate CardMembers(before: Bookings, after: Bookings, found: seq<BookingId>, totalPaid: int, due: nat) {
    forall k :: 0 <= k < |found| ==>
      found[k] in before && found[k] in after && CardMember(before[found[k]], after[found[k]], totalPaid, due)
  }

  lemma MembersConfirmed(before: Bookings, after: Bookings, found: seq<BookingId>, totalPaid: nat)
    requires PaidWithin(before, found)
    requires after == Updated(before, found, b => CardConfirmed(b, totalPaid, GroupTotalPrice(before, found)))
    ensures CardMembers(before, after, found, totalPaid, GroupTotalPrice(before, found))
  {
    forall k | 0 <= k < |found|
      ensures found[k] in after && CardMember(before[found[k]], after[found[k]], totalPaid, GroupTotalPrice(before, found))
    {
      ConfirmedMembers(before, after, found, totalPaid, k);
    }
  }

  lemma FirstSharesDrift(before: Bookings, after: Bookings, found: seq<BookingId>, totalPaid: nat)
    requires |found| > 0 && NothingPaid(before, found) && totalPaid < GroupTotalPrice(before, found)
    requires after == Updated(before, found, b => CardConfirmed(b, totalPaid, GroupTotalPrice(before, found)))
    ensures -|found| <= 2 * (Sum(Paid0(after, found)) - totalPaid) <= |found|
  {
    var finals := GroupFinals(before, found);
    forall k | 0 <= k < |found| ensures Paid0(after, found)[k] == Paids(finals, totalPaid, Sum(finals))[k] {
      ConfirmedMembers(before, after, found, totalPaid, k);
    }
    assert Paid0(after, found) == Paids(finals, totalPaid, Sum(finals));
    DepositDrift(finals, totalPaid);
  }

  lemma OnTimeGives(db: Db, cb: Callback, found: seq<BookingId>, faults: CallbackFaults)
    requires cb.reference in db.payments && db.payments[cb.reference].status.Unpaid?
    requires |found| > 0 && StopsAt(db.bookings, found, faults.updateFails, 0).None?
    ensures var (after, r) := OnTimeSuccess(db, cb, found, faults);
            var p, due := db.payments[cb.reference], GroupTotalPrice(db.bookings, found);
            && r == ConfirmedGroup(SettledStatus(p, cb, due))
            && after.bookings == Updated(db.bookings, found, b => CardConfirmed(b, EffectiveCardPaid(p, cb) + p.walletDeduction, due))
            && after.wallets == PartTaken(db.wallets, p.user, p.walletDeduction, faults.debitLedgerOk)
  {
  }

  function PartTaken(w: Wallet.State, user: nat, part: int, ledgerOk: bool): Wallet.State {
    if part > 0 then Wallet.Deducted(w, user, part, Wallet.BookingPayment, ledgerOk).0 else w
  }

  lemma PartTakenIfHeld(w: Wallet.State, user: nat, part: nat)
    ensures Wallet.Balance(PartTaken(w, user, part, true), user)
            == Wallet.Balance(w, user) - if part <= Wallet.Balance(w, user) then part else 0
  {
  }

  /** What a success that brings this total leaves of its group. */
  predicate GroupSplit(before: Bookings, after: Bookings, found: seq<BookingId>, totalPaid: int, due: nat) {
    && CardMembers(before, after, found, totalPaid, due)
    && (totalPaid < due && NothingPaid(before, found) ==> -|found| <= 2 * (Sum(Paid0(after, found)) - totalPaid) <= |found|)
  }

  lemma UpdateSplits(before: Bookings, after: Bookings, found: seq<BookingId>, totalPaid: nat)
    requires |found| > 0 && PaidWithin(before, found)
    requires after == Updated(before, found, b => CardConfirmed(b, totalPaid, GroupTotalPrice(before, found)))
    ensures GroupSplit(before, after, found, totalPaid, GroupTotalPrice(before, found))
  {
    MembersConfirmed(before, after, found, totalPaid);
    if totalPaid < GroupTotalPrice(before, found) && NothingPaid(before, found) {
      FirstSharesDrift(before, after, found, totalPaid);
    }
  }

  /**
   The money of a success: every member is confirmed, nothing it had paid is forgotten, and its price is split into
   paid and remaining; nothing remains if the card and wallet parts cover the group; and if they are the group's first
   payment and do not, what the members have paid is those parts to half a cent a member.
   */
  lemma SuccessSplitsPayment(db: Db, cb: Callback, found: seq<BookingId>, faults: CallbackFaults)
    requires cb.reference in db.payments && db.payments[cb.reference].status.Unpaid?
    requires |found| > 0 && StopsAt(db.bookings, found, faults.updateFails, 0).None? && PaidWithin(db.bookings, found)
    requires EffectiveCardPaid(db.payments[cb.reference], cb) + db.payments[cb.reference].walletDeduction >= 0
    ensures var p := db.payments[cb.reference];
            GroupSplit(db.bookings, OnTimeSuccess(db, cb, found, faults).0.bookings, found,
                       EffectiveCardPaid(p, cb) + p.walletDeduction, GroupTotalPrice(db.bookings, found))
  {
    var p := db.payments[cb.reference];
    OnTimeGives(db, cb, found, faults);
    UpdateSplits(db.bookings, OnTimeSuccess(db, cb, found, faults).0.bookings, found, EffectiveCardPaid(p, cb) + p.walletDeduction);
  }

  /** It pays in part exactly if it does not cover the group, and takes the wallet part exactly if the wallet holds it. */
  lemma SuccessTakesWalletPart(db: Db, cb: Callback, found: seq<BookingId>, faults: CallbackFaults)
    requires cb.reference in db.payments && db.payments[cb.reference].status.Unpaid?
    requires |found| > 0 && StopsAt(db.bookings, found, faults.updateFails, 0).None?
    requires faults.debitLedgerOk && db.payments[cb.reference].walletDeduction >= 0
    ensures var (after, r) := OnTimeSuccess(db, cb, found, faults);
            var p := db.payments[cb.reference];
            && (r == ConfirmedGroup(PartiallyPaid)
                <==> EffectiveCardPaid(p, cb) + p.walletDeduction < GroupTotalPrice(db.bookings, found))
            && Wallet.Balance(after.wallets, p.user)
               == Wallet.Balance(db.wallets, p.user)
                  - if p.walletDeduction <= Wallet.Balance(db.wallets, p.user) then p.walletDeduction else 0
  {
    var p := db.payments[cb.reference];
    OnTimeGives(db, cb, found, faults);
    PartTakenIfHeld(db.wallets, p.user, p.walletDeduction);
  }

  // ----- a remainder paid by card -----

  /** A member whose deposit share was rounded away takes a share of the remainder as well, and that may fall short. */
  predicate ShortOnRemainder(b: Booking, totalPaid: int, due: nat) {
    totalPaid < due && b.bill.paidAmount == 0 && 2 * b.bill.finalPrice * (due - totalPaid) > due
  }

  lemma CardSettlesMember(b: Booking, totalPaid: nat, due: nat)
    requires 0 <= b.bill.paidAmount <= b.bill.finalPrice <= due && b.bill.finalPrice - b.bill.paidAmount <= totalPaid
    ensures FullyPaid(CardConfirmed(b, totalPaid, due).bill) <==> !ShortOnRemainder(b, totalPaid, due)
  {
    CardShare(b, totalPaid, due);
    if totalPaid < due && b.bill.paidAmount == 0 {
      WholeShareIff(b.bill.finalPrice, totalPaid, due);
    }
  }

  /** A share is rounded up to the whole price exactly when it misses it by half a cent at most. */
  lemma WholeShareIff(price: nat, paid: nat, due: int)
    requires 0 < due && paid < due
    ensures ToFixed(price * paid, due) == price <==> 2 * price * (due - paid) <= due
  {
    assert price * due - price * paid == price * (due - paid);
    assert price * paid >= 0 && price * (due - paid) >= 0;
    if 2 * price * (due - paid) <= due {
      ToFixedUnique(price * paid, due, price);
    }
  }

  /**
   A remainder settled by card: when the callback brings what the group still owes, every member ends fully paid if
   and only if no member whose deposit share was rounded away falls short on the remainder too.
   */
  lemma CardRemainderSettlesIff(db: Db, cb: Callback, found: seq<BookingId>, faults: CallbackFaults)
    requires cb.reference in db.payments && db.payments[cb.reference].status.Unpaid?
    requires |found| > 0 && StopsAt(db.bookings, found, faults.updateFails, 0).None? && PaidWithin(db.bookings, found)
    requires forall k :: 0 <= k < |found| ==>
               db.bookings[found[k]].bill.remainingAmount == db.bookings[found[k]].bill.finalPrice - db.bookings[found[k]].bill.paidAmount
    requires EffectiveCardPaid(db.payments[cb.reference], cb) + db.payments[cb.reference].walletDeduction
             == Sum(GroupRemaining(db.bookings, found))
    ensures var after := OnTimeSuccess(db, cb, found, faults).0;
            AllFullyPaid(after.bookings, found)
            <==> NobodyShort(db.bookings, found, Sum(GroupRemaining(db.bookings, found)), GroupTotalPrice(db.bookings, found))
  {
    OnTimeGives(db, cb, found, faults);
    RemainderReaches(db.bookings, OnTimeSuccess(db, cb, found, faults).0.bookings, found);
  }

  predicate NobodyShort(bookings: Bookings, found: seq<BookingId>, totalPaid: int, due: nat) {
    forall k :: 0 <= k < |found| ==> found[k] in bookings && !ShortOnRemainder(bookings[found[k]], totalPaid, due)
  }

  lemma RemainderReaches(before: Bookings, after: Bookings, found: seq<BookingId>)
    requires PaidWithin(before, found)
    requires forall k :: 0 <= k < |found| ==>
               before[found[k]].bill.remainingAmount == before[found[k]].bill.finalPrice - before[found[k]].bill.paidAmount
    requires after == Updated(before, found, b => CardConfirmed(b, Sum(GroupRemaining(before, found)), GroupTotalPrice(before, found)))
    ensures AllFullyPaid(after, found)
            <==> NobodyShort(before, found, Sum(GroupRemaining(before, found)), GroupTotalPrice(before, found))
  {
    var total, due := Sum(GroupRemaining(before, found)), GroupTotalPrice(before, found);
    forall k | 0 <= k < |found|
      ensures found[k] in after && (FullyPaid(after[found[k]].bill) <==> !ShortOnRemainder(before[found[k]], total, due))
    {
      SumMember(GroupRemaining(before, found), k);
      SumMember(GroupFinals(before, found), k);
      assert found[k] in found;
      CardSettlesMember(before[found[k]], total, due);
    }
  }

  lemma TaggedSame(before: Bookings, found: seq<BookingId>)
    requires forall k :: 0 <= k < |found| ==> found[k] in before
    ensures var after := Updated(before, found, PaymobTagged);
            && GroupRemaining(after, found) == GroupRemaining(before, found)
            && GroupFinals(after, found) == GroupFinals(before, found)
            && (forall k :: 0 <= k < |found| ==>
                  found[k] in after && after[found[k]].bill == before[found[k]].bill.(paymentMethod := Paymob))
  {
    forall k | 0 <= k < |found|
      ensures found[k] in Updated(before, found, PaymobTagged)
      ensures Updated(before, found, PaymobTagged)[found[k]].bill == before[found[k]].bill.(paymentMethod := Paymob)
    {
      assert found[k] in found;
    }
  }

  lemma DepositWithin(paid: Db, user: nat, found: seq<BookingId>, charge: AmountDue, groupFinal: nat, j: nat)
    requires DepositPaid(paid, user, found, charge, groupFinal, j)
    ensures PaidWithin(paid.bookings, found)
    ensures forall k :: 0 <= k < |found| ==>
              paid.bookings[found[k]].bill.remainingAmount
              == paid.bookings[found[k]].bill.finalPrice - paid.bookings[found[k]].bill.paidAmount
  {
    forall k | 0 <= k < |found|
      ensures 0 <= paid.bookings[found[k]].bill.paidAmount <= paid.bookings[found[k]].bill.finalPrice
      ensures paid.bookings[found[k]].bill.remainingAmount
              == paid.bookings[found[k]].bill.finalPrice - paid.bookings[found[k]].bill.paidAmount
    {
      SumMember(GroupFinals(paid.bookings, found), k);
      ShareWithin(paid.bookings[found[k]], user, charge, groupFinal);
    }
  }

  lemma ShareWithin(b: Booking, user: nat, charge: AmountDue, groupFinal: nat)
    requires PaidMember(b, user, charge, groupFinal) && charge.isDeposit && 0 <= charge.amount < groupFinal
    requires b.bill.finalPrice <= groupFinal
    ensures 0 <= b.bill.paidAmount <= b.bill.finalPrice && b.bill.remainingAmount == b.bill.finalPrice - b.bill.paidAmount
  {
    ShareWithinWeight(b.bill.finalPrice, charge.amount, groupFinal);
  }

  /**
   Deposit, then the remainder by card: payBooking asks the card for what the members owe less the wallet part, and
   when a callback brings it, nothing else having happened to the group, every member ends fully paid if and only
   if none whose deposit share was rounded away falls short.
   */
  lemma RemainderByCard(paid: Db, user: nat, found: seq<BookingId>, charge: AmountDue, groupFinal: nat, j: nat, body: PayRequest,
                        minimumDeposit: nat, faults: Faults, cb: Callback, callbackFaults: CallbackFaults)
    requires DepositPaid(paid, user, found, charge, groupFinal, j) && body.paymentMethod.Paymob?
    requires !WalletPays(paid, user, body, Sum(GroupRemaining(paid.bookings, found)))
    requires Pay(paid, found[j], user, body, found, minimumDeposit, faults).1.Ok? && cb.reference == paid.nextTransaction
    requires cb.amountCents == Sum(GroupRemaining(paid.bookings, found))
               - WalletPart(Wallet.Balance(paid.wallets, user), body.walletAmountToUse, Sum(GroupRemaining(paid.bookings, found)))
    requires StopsAt(Pay(paid, found[j], user, body, found, minimumDeposit, faults).0.bookings, found, callbackFaults.updateFails, 0).None?
    ensures var pending := Pay(paid, found[j], user, body, found, minimumDeposit, faults).0;
            cb.reference in pending.payments &&
            (AllFullyPaid(OnTimeSuccess(pending, cb, found, callbackFaults).0.bookings, found)
             <==> NobodyShort(paid.bookings, found, Sum(GroupRemaining(paid.bookings, found)), groupFinal))
  {
    var pending := Pay(paid, found[j], user, body, found, minimumDeposit, faults).0;
    var due := Sum(GroupRemaining(paid.bookings, found));
    RemainderCharged(paid, user, found, charge, groupFinal, j, minimumDeposit, body.customAmount);
    CardWaits(paid, user, found, paid.bookings[found[j]].claim.groupId, AmountDue(due, false), groupFinal, body.walletAmountToUse,
              PayCoupon(paid.bookings[found[j]], body), faults);
    LaterPaymentSettles(paid, user, found, charge, groupFinal, j, body, minimumDeposit, faults);
    DepositWithin(paid, user, found, charge, groupFinal, j);
    TaggedSame(paid.bookings, found);
    CardRemainderSettlesIff(pending, cb, found, callbackFaults);
    SameShort(paid.bookings, pending.bookings, found, due, groupFinal);
  }

  /** Such members exist: of four that cost 7, 7, 7 and 2 cents, after a deposit of 5, the last ends one cent short. */
  lemma RoundedAwayFallsShort(b: Booking)
    requires b.bill.finalPrice == 2 && b.bill.paidAmount == Paids([7, 7, 7, 2], 5, 23)[3]
    ensures Sum(Paids([7, 7, 7, 2], 5, 23)) == 6
    ensures ShortOnRemainder(b, 23 - 6, 23) && CardConfirmed(b, 23 - 6, 23).bill.remainingAmount == 1
  {
    ToFixedUnique(35, 23, 2);
    ToFixedUnique(10, 23, 0);
    ToFixedUnique(34, 23, 1);
    assert Paids([7, 7, 7, 2], 5, 23) == [2, 2, 2] + [0];
    SumSnoc([2, 2, 2], 0);
    SumOfFew(2, 2, 2);
  }

  lemma SameShort(before: Bookings, after: Bookings, found: seq<BookingId>, totalPaid: int, due: nat)
    requires forall k :: 0 <= k < |found| ==>
               found[k] in before && found[k] in after && after[found[k]].bill == before[found[k]].bill.(paymentMethod := Paymob)
    ensures NobodyShort(before, found, totalPaid, due) <==> NobodyShort(after, found, totalPaid, due)
  {
  }

  // ----- callbacks and refunds keep bookings apart -----

  lemma OnTimeConfirms(db: Db, cb: Callback, found: seq<BookingId>, faults: CallbackFaults)
    requires cb.reference in db.payments && |found| > 0
    ensures var after := OnTimeSuccess(db, cb, found, faults).0;
            after.now == db.now && after.nextId == db.nextId && ConfirmsSome(db.bookings, after.bookings, found)
  {
  }

  /** Slot parts are left alone or expire. */
  predicate ExpiresSome(before: Bookings, after: Bookings) {
    && after.Keys == before.Keys
    && forall i :: i in after ==> after[i].claim == before[i].claim || after[i].claim == WithStatus(before[i].claim, Expired)
  }

  lemma ExpiringKeepsInv(db: Db, after: Db)
    requires Inv(SlotState(db)) && ExpiresSome(db.bookings, after.bookings)
    requires after.now == db.now && after.nextId == db.nextId
    ensures Inv(SlotState(after))
  {
    ShrinkKeepsInv(SlotState(db), SlotState(after));
  }

  lemma LateExpires(db: Db, cb: Callback, found: seq<BookingId>, faults: CallbackFaults)
    requires cb.reference in db.payments
    ensures var after := LateSuccess(db, cb, found, faults).0;
            after.now == db.now && after.nextId == db.nextId && ExpiresSome(db.bookings, after.bookings)
  {
  }

  /** No callback double-books, whatever part of it fails. */
  lemma WebhookNeverDoubleBooks(db: Db, cb: Callback, found: seq<BookingId>, faults: CallbackFaults)
    requires Inv(SlotState(db))
    requires cb.reference in db.payments ==> Listing(found, Group(db.bookings, db.payments[cb.reference].groupId))
    ensures Inv(SlotState(Webhook(db, cb, found, faults).0))
  {
    var after := Webhook(db, cb, found, faults).0;
    if SlotState(after) != SlotState(db) {
      var g := db.payments[cb.reference].groupId;
      if AnyTooLate(Claims(db.bookings), g, db.now) {
        LateExpires(db, cb, found, faults);
        ExpiringKeepsInv(db, after);
      } else {
        OnTimeConfirms(db, cb, found, faults);
        forall i | i in found && i in db.bookings ensures Occupies(db.bookings[i].claim, db.now) {
          assert i in Group(db.bookings, g) && i in Claims(db.bookings);
        }
        ConfirmingOccupantsKeepsInv(db, after, found);
      }
    }
  }

  /** A refund is the protocol's cancellation of the whole group, or it leaves every slot as it was. */
  lemma RefundIsStep(db: Db, t: TransactionId, amount: Option<int>, found: seq<BookingId>, ledgerOk: bool, saveOk: bool)
    requires t in db.payments && Listing(found, Group(db.bookings, db.payments[t].groupId))
    ensures var (after, r) := Refund(db, t, amount, found, ledgerOk, saveOk);
            SlotState(after) == if r.Ok? then Next(SlotState(db), RefundGroup(db.payments[t].groupId)) else SlotState(db)
  {
    var (after, r) := Refund(db, t, amount, found, ledgerOk, saveOk);
    if r.Ok? {
      var table := Next(SlotState(db), RefundGroup(db.payments[t].groupId)).table;
      forall i | i in db.bookings ensures Claims(after.bookings)[i] == table[i] {
        assert i in found <==> i in Group(db.bookings, db.payments[t].groupId);
      }
      assert Claims(after.bookings) == table;
    }
  }
}
