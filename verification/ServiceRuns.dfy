/** Whole runs of the two services over one database: what every operation keeps, whatever fails inside it. */
module ServiceRuns {
  import opened Prelude
  import opened BookingRequest
  import opened Slots
  import opened GroupPrice
  import opened Database
  import opened BookingOperations
  import opened BookingTheorems
  import opened BookingMoney
  import opened PaySafety
  import opened Payments
  import PaymentTheorems
  import Wallet

  datatype Op =
    | Creates(user: nat, body: CreateBookingDto, key: Option<string>, env: Env)
    | Pays(id: BookingId, user: nat, request: PayRequest, found: seq<BookingId>, minimumDeposit: nat, faults: Faults)
    | Cancels(id: BookingId, actor: nat, isStaff: bool, refundLedgerOk: bool)
    | CronRuns
    | Suspends(user: nat, found: seq<BookingId>, refundOk: seq<bool>)
    | CallsBack(cb: Callback, found: seq<BookingId>, callbackFaults: CallbackFaults)
    | Refunds(t: TransactionId, amount: Option<int>, found: seq<BookingId>, ledgerOk: bool, saveOk: bool)
    | Waits(ms: nat)
    /** The same, when the update of a row fails halfway. */
    | CancelStops(id: BookingId, actor: nat, isStaff: bool, refundLedgerOk: bool)
    | CronStops(expired: set<BookingId>, past: set<BookingId>)
    | SuspendStops(user: nat, found: seq<BookingId>, refundOk: seq<bool>, k: nat)
    | RefundStops(t: TransactionId, amount: Option<int>, found: seq<BookingId>, ledgerOk: bool, saveOk: bool, k: nat)

  /** A query finds what it asks for; a group is paid for only while nothing is in the way of a member that lost its hours. */
  ghost predicate Fits(db: Db, op: Op) {
    match op
    case Creates(_, _, _, _) => true
    case Pays(_, _, _, found, _, _) => GroupPayable(db, found)
    case Cancels(_, _, _, _) => true
    case CronRuns => true
    case Suspends(user, found, refundOk) => |refundOk| == |found| && Listing(found, SuspensionRows(db, user))
    case CallsBack(cb, found, _) =>
      cb.reference in db.payments ==> Listing(found, Group(db.bookings, db.payments[cb.reference].groupId))
    case Refunds(t, _, found, _, _) => t in db.payments ==> Listing(found, Group(db.bookings, db.payments[t].groupId))
    case Waits(_) => true
    case CancelStops(_, _, _, _) => true
    case CronStops(expired, past) => CronOrder(db, expired, past)
    case SuspendStops(user, found, refundOk, k) => k < |found| == |refundOk| && Listing(found, SuspensionRows(db, user))
    case RefundStops(t, _, found, _, _, k) =>
      k <= |found| && (t in db.payments ==> Listing(found, Group(db.bookings, db.payments[t].groupId)))
  }

  function Following(db: Db, op: Op): Db
    requires op.Suspends? ==> |op.refundOk| == |op.found|
    requires op.SuspendStops? ==> op.k < |op.refundOk| == |op.found|
    requires op.RefundStops? ==> op.k <= |op.found|
  {
    match op
    case Creates(user, body, key, env) => Create(db, user, body, key, env).0
    case Pays(id, user, request, found, minimumDeposit, faults) => Pay(db, id, user, request, found, minimumDeposit, faults).0
    case Cancels(id, actor, isStaff, refundLedgerOk) => Cancelling(db, id, actor, isStaff, refundLedgerOk).0
    case CronRuns => CronSwept(db)
    case Suspends(_, found, refundOk) => SuspendAll(db, found, refundOk).0
    case CallsBack(cb, found, faults) => Webhook(db, cb, found, faults).0
    case Refunds(t, amount, found, ledgerOk, saveOk) => Refund(db, t, amount, found, ledgerOk, saveOk).0
    case Waits(ms) => db.(now := db.now + ms)
    case CancelStops(id, actor, isStaff, refundLedgerOk) => CancelCutShort(db, id, actor, isStaff, refundLedgerOk).0
    case CronStops(expired, past) => CronCutShort(db, expired, past)
    case SuspendStops(_, found, refundOk, k) => SuspendCutShort(db, found, refundOk, k)
    case RefundStops(t, amount, found, ledgerOk, saveOk, k) => RefundCutShort(db, t, amount, found, ledgerOk, saveOk, k).0
  }

  // ----- every operation accounts for the money it moves -----

  lemma CompensatingKeepsAudit(db: Db, user: nat, ids: seq<BookingId>, groupId: nat, charge: AmountDue, groupFinal: nat,
                               coupon: Option<string>, faults: Faults)
    requires Wallet.Audited(db.wallets)
    ensures Wallet.Audited(PayCompensating(db, user, ids, groupId, charge, groupFinal, coupon, faults).0.wallets)
  {
    Wallet.OperationKeepsAudit(db.wallets, user, charge.amount, Wallet.BookingPayment, faults.debitLedgerOk);
    var w := Wallet.Deducted(db.wallets, user, charge.amount, Wallet.BookingPayment, faults.debitLedgerOk).0;
    Wallet.OperationKeepsAudit(w, user, charge.amount, Wallet.BookingRefund, faults.refundLedgerOk);
  }

  lemma PayGroupKeepsAudit(db: Db, user: nat, ids: seq<BookingId>, groupId: nat, charge: AmountDue, groupFinal: nat,
                           paymentMethod: PaymentMethod, walletAmountToUse: Option<int>, coupon: Option<string>, faults: Faults)
    requires Wallet.Audited(db.wallets)
    ensures Wallet.Audited(PayGroup(db, user, ids, groupId, charge, groupFinal, paymentMethod, walletAmountToUse, coupon,
                                    faults).0.wallets)
  {
    match paymentMethod
    case WalletMethod => CompensatingKeepsAudit(db, user, ids, groupId, charge, groupFinal, coupon, faults);
    case Cash =>
    case Paymob =>
      Wallet.UpsertAudited(db.wallets, user);
      CompensatingKeepsAudit(db.(wallets := Wallet.Upserted(db.wallets, user)), user, ids, groupId, charge, groupFinal, coupon, faults);
  }

  lemma InsertAndPayKeepsAudit(db: Db, user: nat, body: CreateBookingDto, key: Option<string>, q: Quote, faults: Faults)
    requires Wallet.Audited(db.wallets) && QuoteFits(q, body)
    ensures Wallet.Audited(InsertAndPay(db, user, body, key, q, faults).0.wallets)
  {
    PayGroupKeepsAudit(WithRows(db, user, body, key, q), user, FreshIds(db.nextId, |RawSlots(body)|), db.nextGroup, q.charge,
                       q.groupFinal, body.paymentMethod, body.walletAmountToUse, NormalizedCoupon(body.couponCode), faults);
  }

  lemma CreateKeepsAudit(db: Db, user: nat, body: CreateBookingDto, key: Option<string>, env: Env)
    requires Wallet.Audited(db.wallets)
    ensures Wallet.Audited(Create(db, user, body, key, env).0.wallets)
  {
    Wallet.UpsertAudited(db.wallets, user);
    if GetsThrough(db, user, body, env) {
      var quote := QuoteFor(env.venue.value, db.coupons, body, db.now);
      if quote.Ok? {
        InsertAndPayKeepsAudit(Prepared(db, user, body), user, body, key, quote.value, env.faults);
      }
    }
  }

  lemma PayKeepsAudit(db: Db, id: BookingId, user: nat, request: PayRequest, found: seq<BookingId>, minimumDeposit: nat, faults: Faults)
    requires Wallet.Audited(db.wallets)
    ensures Wallet.Audited(Pay(db, id, user, request, found, minimumDeposit, faults).0.wallets)
  {
    if id in db.bookings && PayError(db.bookings[id], user, db.now).None? {
      var b := db.bookings[id];
      var charge := PayCharge(db.bookings, b, found, minimumDeposit, request.customAmount);
      if charge.Ok? {
        PayGroupKeepsAudit(db, user, found, b.claim.groupId, charge.value, GroupTotalPrice(db.bookings, found),
                           request.paymentMethod, request.walletAmountToUse, PayCoupon(b, request), faults);
      }
    }
  }

  lemma CancelKeepsAudit(db: Db, id: BookingId, actor: nat, isStaff: bool, refundLedgerOk: bool)
    requires Wallet.Audited(db.wallets)
    ensures Wallet.Audited(Cancelling(db, id, actor, isStaff, refundLedgerOk).0.wallets)
  {
    if id in db.bookings {
      var b := db.bookings[id];
      Wallet.OperationKeepsAudit(db.wallets, b.claim.user, RefundFor(b), Wallet.BookingRefund, refundLedgerOk);
    }
  }

  lemma {:induction false} SuspendKeepsAudit(db: Db, found: seq<BookingId>, refundOk: seq<bool>)
    requires |refundOk| == |found| && Wallet.Audited(db.wallets)
    ensures Wallet.Audited(SuspendAll(db, found, refundOk).0.wallets)
  {
    if |found| > 0 {
      var n := |found| - 1;
      SuspendKeepsAudit(db, found[..n], refundOk[..n]);
      var before := SuspendAll(db, found[..n], refundOk[..n]).0;
      if found[n] in before.bookings {
        var b := before.bookings[found[n]];
        Wallet.OperationKeepsAudit(before.wallets, b.claim.user, RefundOnSuspension(b, before.now), Wallet.BookingRefund, refundOk[n]);
      }
    }
  }

  lemma CallbackKeepsAudit(db: Db, cb: Callback, found: seq<BookingId>, faults: CallbackFaults)
    requires Wallet.Audited(db.wallets)
    ensures Wallet.Audited(Webhook(db, cb, found, faults).0.wallets)
  {
    if cb.reference in db.payments {
      var p := db.payments[cb.reference];
      Wallet.OperationKeepsAudit(db.wallets, p.user, EffectiveCardPaid(p, cb), Wallet.BookingRefund, faults.creditLedgerOk);
      Wallet.OperationKeepsAudit(db.wallets, p.user, p.walletDeduction, Wallet.BookingPayment, faults.debitLedgerOk);
    }
  }

  lemma RefundKeepsAudit(db: Db, t: TransactionId, amount: Option<int>, found: seq<BookingId>, ledgerOk: bool, saveOk: bool)
    requires Wallet.Audited(db.wallets)
    ensures Wallet.Audited(Refund(db, t, amount, found, ledgerOk, saveOk).0.wallets)
  {
    if t in db.payments {
      var p := db.payments[t];
      Wallet.OperationKeepsAudit(db.wallets, p.user, RefundAmount(p, amount), Wallet.BookingRefund, ledgerOk);
    }
  }

  lemma SuspendStopsKeepsAudit(db: Db, found: seq<BookingId>, refundOk: seq<bool>, k: nat)
    requires |refundOk| == |found| && k < |found| && Wallet.Audited(db.wallets)
    ensures Wallet.Audited(SuspendCutShort(db, found, refundOk, k).wallets)
  {
    SuspendKeepsAudit(db, found[..k], refundOk[..k]);
    var before := SuspendAll(db, found[..k], refundOk[..k]).0;
    if found[k] in before.bookings {
      var b := before.bookings[found[k]];
      Wallet.OperationKeepsAudit(before.wallets, b.claim.user, RefundOnSuspension(b, before.now), Wallet.BookingRefund, refundOk[k]);
    }
  }

  lemma OperationKeepsAudit(db: Db, op: Op)
    requires Wallet.Audited(db.wallets) && Fits(db, op)
    ensures Wallet.Audited(Following(db, op).wallets)
  {
    match op
    case Creates(user, body, key, env) => CreateKeepsAudit(db, user, body, key, env);
    case Pays(id, user, request, found, minimumDeposit, faults) =>
      PayKeepsAudit(db, id, user, request, found, minimumDeposit, faults);
    case Cancels(id, actor, isStaff, refundLedgerOk) => CancelKeepsAudit(db, id, actor, isStaff, refundLedgerOk);
    case CronRuns =>
    case Suspends(_, found, refundOk) => SuspendKeepsAudit(db, found, refundOk);
    case CallsBack(cb, found, faults) => CallbackKeepsAudit(db, cb, found, faults);
    case Refunds(t, amount, found, ledgerOk, saveOk) => RefundKeepsAudit(db, t, amount, found, ledgerOk, saveOk);
    case Waits(_) =>
    case CancelStops(id, actor, isStaff, refundLedgerOk) => CancelKeepsAudit(db, id, actor, isStaff, refundLedgerOk);
    case CronStops(_, _) =>
    case SuspendStops(_, found, refundOk, k) => SuspendStopsKeepsAudit(db, found, refundOk, k);
    case RefundStops(t, amount, found, ledgerOk, saveOk, k) => RefundKeepsAudit(db, t, amount, found[..k], ledgerOk, saveOk);
  }

  // ----- every operation keeps bookings apart -----

  /** No row occupies more than it did, and none is new. */
  predicate Frees(db: Db, after: Db) {
    && after.now == db.now && after.nextId == db.nextId && after.bookings.Keys == db.bookings.Keys
    && forall i :: i in db.bookings ==>
         var c, d := db.bookings[i].claim, after.bookings[i].claim;
         && d.venue == c.venue && d.day == c.day && d.start == c.start && d.end == c.end
         && (d == c || d.status.Cancelled? || d.status.Expired?
             || (d.status.NoShow? && Live(c, db.now) && SlotTime(c.day, c.end) <= db.now))
  }

  lemma FreeingKeepsApart(db: Db, after: Db)
    requires Inv(SlotState(db)) && Frees(db, after)
    ensures Inv(SlotState(after))
  {
    ShrinkKeepsInv(SlotState(db), SlotState(after));
  }

  lemma CronStopsFrees(db: Db, expired: set<BookingId>, past: set<BookingId>)
    requires CronOrder(db, expired, past)
    ensures Frees(db, CronCutShort(db, expired, past))
  {
  }

  lemma SuspendStopsFrees(db: Db, user: nat, found: seq<BookingId>, refundOk: seq<bool>, k: nat)
    requires k < |found| == |refundOk| && Listing(found, SuspensionRows(db, user))
    ensures Frees(db, SuspendCutShort(db, found, refundOk, k))
  {
    forall i | 0 <= i < k ensures found[..k][i] in SuspensionRows(db, user) {
      assert found[i] in found;
    }
    SuspendAllGives(db, user, found[..k], refundOk[..k]);
  }

  lemma RefundStopsFrees(db: Db, t: TransactionId, amount: Option<int>, found: seq<BookingId>, ledgerOk: bool, saveOk: bool, k: nat)
    requires k <= |found|
    ensures Frees(db, RefundCutShort(db, t, amount, found, ledgerOk, saveOk, k).0)
  {
  }

  lemma StepKeepsApart(db: Db, after: Db, step: Step)
    requires Inv(SlotState(db)) && Allowed(SlotState(db), step) && SlotState(after) == Next(SlotState(db), step)
    ensures Inv(SlotState(after))
  {
    NextKeepsInv(SlotState(db), step);
  }

  lemma SuspendKeepsApart(db: Db, user: nat, found: seq<BookingId>, refundOk: seq<bool>)
    requires Inv(SlotState(db)) && |refundOk| == |found| && Listing(found, SuspensionRows(db, user))
    ensures Inv(SlotState(SuspendAll(db, found, refundOk).0))
  {
    forall k | 0 <= k < |found| ensures found[k] in SuspensionRows(db, user) {
      assert found[k] in found;
    }
    SuspensionSweepLeavesNothing(db, user, found, refundOk);
    StepKeepsApart(db, SuspendAll(db, found, refundOk).0, SuspensionSweep(user));
  }

  lemma StoppedKeepsApart(db: Db, op: Op)
    requires Inv(SlotState(db)) && Fits(db, op) && (op.CancelStops? || op.CronStops? || op.SuspendStops? || op.RefundStops?)
    ensures Inv(SlotState(Following(db, op)))
  {
    match op
    case CancelStops(_, _, _, _) => assert SlotState(Following(db, op)) == SlotState(db);
    case CronStops(expired, past) =>
      CronStopsFrees(db, expired, past);
      FreeingKeepsApart(db, Following(db, op));
    case SuspendStops(user, found, refundOk, k) =>
      SuspendStopsFrees(db, user, found, refundOk, k);
      FreeingKeepsApart(db, Following(db, op));
    case RefundStops(t, amount, found, ledgerOk, saveOk, k) =>
      RefundStopsFrees(db, t, amount, found, ledgerOk, saveOk, k);
      FreeingKeepsApart(db, Following(db, op));
  }

  lemma RefundKeepsApart(db: Db, t: TransactionId, amount: Option<int>, found: seq<BookingId>, ledgerOk: bool, saveOk: bool)
    requires Inv(SlotState(db)) && (t in db.payments ==> Listing(found, Group(db.bookings, db.payments[t].groupId)))
    ensures Inv(SlotState(Refund(db, t, amount, found, ledgerOk, saveOk).0))
  {
    var (after, r) := Refund(db, t, amount, found, ledgerOk, saveOk);
    if t in db.payments && r.Ok? {
      PaymentTheorems.RefundIsStep(db, t, amount, found, ledgerOk, saveOk);
      StepKeepsApart(db, after, RefundGroup(db.payments[t].groupId));
    } else {
      assert SlotState(after) == SlotState(db);
    }
  }

  lemma OperationKeepsApart(db: Db, op: Op)
    requires Inv(SlotState(db)) && Fits(db, op)
    ensures Inv(SlotState(Following(db, op)))
  {
    match op
    case Creates(user, body, key, env) => CreateNeverDoubleBooks(db, user, body, key, env);
    case Pays(id, user, request, found, minimumDeposit, faults) =>
      PayNeverDoubleBooks(db, id, user, request, found, minimumDeposit, faults);
    case Cancels(id, actor, isStaff, refundLedgerOk) =>
      CancelIsStep(db, id, actor, isStaff, refundLedgerOk);
      if SlotState(Following(db, op)) != SlotState(db) {
        StepKeepsApart(db, Following(db, op), Slots.Cancel(id));
      }
    case CronRuns =>
      CronIsStep(db);
      StepKeepsApart(db, CronSwept(db), Cron);
    case Suspends(user, found, refundOk) => SuspendKeepsApart(db, user, found, refundOk);
    case CallsBack(cb, found, faults) => PaymentTheorems.WebhookNeverDoubleBooks(db, cb, found, faults);
    case Refunds(t, amount, found, ledgerOk, saveOk) => RefundKeepsApart(db, t, amount, found, ledgerOk, saveOk);
    case Waits(ms) => StepKeepsApart(db, Following(db, op), Tick(ms));
    case _ => StoppedKeepsApart(db, op);
  }

  // ----- whole runs -----

  ghost predicate IsRun(states: seq<Db>, ops: seq<Op>) {
    && |states| == |ops| + 1
    && forall k :: 0 <= k < |ops| ==> Fits(states[k], ops[k]) && states[k + 1] == Following(states[k], ops[k])
  }

  lemma {:induction false} RunKeeps(states: seq<Db>, ops: seq<Op>)
    requires IsRun(states, ops) && Inv(SlotState(states[0])) && Wallet.Audited(states[0].wallets)
    ensures Inv(SlotState(states[|ops|])) && Wallet.Audited(states[|ops|].wallets)
  {
    if |ops| > 0 {
      var n := |ops| - 1;
      RunKeeps(states[..n + 1], ops[..n]);
      OperationKeepsApart(states[n], ops[n]);
      OperationKeepsAudit(states[n], ops[n]);
    }
  }

  /**
   Safety of the services: after any run of bookings, payments, cancellations, cron runs, suspension sweeps,
   callbacks, refunds and clock ticks, with whatever failing inside them, no two live bookings of a venue and day
   overlap, and every wallet holds exactly what its ledger adds up to.
   */
  lemma ServicesAreSafe(states: seq<Db>, ops: seq<Op>)
    requires IsRun(states, ops) && Inv(SlotState(states[0])) && Wallet.Audited(states[0].wallets)
    ensures var db := states[|ops|];
            && NoDoubleBooking(Claims(db.bookings), db.now)
            && forall u: nat :: Wallet.Balance(db.wallets, u) == Wallet.LedgerSum(db.wallets.ledger, u)
  {
    RunKeeps(states, ops);
    InvMeansNoDoubleBooking(SlotState(states[|ops|]));
  }

  /** An empty database is a place to start from. */
  lemma EmptyDatabaseGood(now: int, coupons: map<string, CouponDoc>)
    ensures var db := Db(now, map[], map[], coupons, Wallet.State(map[], []), 0, 0, 0);
            Inv(SlotState(db)) && Wallet.Audited(db.wallets)
  {
  }
}
