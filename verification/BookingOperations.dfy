/**
 What each operation of the booking service does to the database, repository calls that may fail included.
 The methods that do it are in BookingService; the theorems about it are in BookingTheorems.
 */
module BookingOperations {
  import opened Prelude
  import opened Money
  import opened Coupon
  import opened BookingRequest
  import opened Slots
  import opened Pricing
  import opened GroupPrice
  import opened Database
  import Wallet

  datatype BookingError =
    | BadSlots(slotError: SlotError) | AccountBlocked | VenueNotFound | VenueInactive | OutsideOpeningHours
    | SlotInThePast | VenueBusy | SlotTaken | InvalidCoupon | CouponInactive | CouponUsedUp | CouponOutOfDate
    | BadAmount(amountError: AmountError) | WalletFailure(walletError: Wallet.WalletError) | JustBooked
    | InsertFailed | PaymentFailed | BookingNotFound | NotAllowed | NotPayable | AlreadyPaid | HoldExpired
    | AlreadyCancelled | AlreadyCompleted | TooCloseToStart | UpdateFailed

  datatype CustomerStatus = ActiveCustomer | OnHold | Suspended | Inactive | Archived

  /** Which repository calls of one request fail; the indices count the group's members. */
  datatype Faults = Faults(insertFails: Option<nat>, debitLedgerOk: bool, updateFails: Option<nat>,
                           paymentInsertOk: bool, couponSaveOk: bool, gatewayOk: bool, refundLedgerOk: bool)

  /** The documents createBooking looks up, whether its lock is free, and what fails. */
  datatype Env = Env(customer: CustomerStatus, venue: Option<Venue>, lockFree: bool, faults: Faults)

  // ----- group updates -----

  function Updated(bookings: Bookings, ids: seq<BookingId>, f: Booking -> Booking): Bookings {
    map i | i in bookings :: if i in ids then f(bookings[i]) else bookings[i]
  }

  /**
   The unique index refuses to confirm member k once those before it are confirmed: another active row, or one
   just made active, has its venue, day and start.
   */
  predicate Blocked(bookings: Bookings, ids: seq<BookingId>, k: nat)
    requires k < |ids|
  {
    ids[k] in bookings &&
    exists j :: j in bookings && j != ids[k] && (Active(bookings[j].claim) || j in ids[..k])
                && SameDay(bookings[j].claim, bookings[ids[k]].claim)
                && bookings[j].claim.start == bookings[ids[k]].claim.start
  }

  /** The first member, from the k-th on, whose confirming update fails, by the index or otherwise. */
  function StopsAt(bookings: Bookings, ids: seq<BookingId>, fails: Option<nat>, k: nat): (stop: Option<nat>)
    requires k <= |ids|
    ensures stop.Some? ==> k <= stop.value < |ids| && (fails == Some(stop.value) || Blocked(bookings, ids, stop.value))
    ensures forall i :: k <= i < (if stop.Some? then stop.value else |ids|) ==> fails != Some(i) && !Blocked(bookings, ids, i)
    decreases |ids| - k
  {
    if k == |ids| then None
    else if fails == Some(k) || Blocked(bookings, ids, k) then Some(k)
    else StopsAt(bookings, ids, fails, k + 1)
  }

  /** The members whose confirming updates go through. */
  function Reached(ids: seq<BookingId>, stop: Option<nat>): seq<BookingId>
    requires stop.Some? ==> stop.value <= |ids|
  {
    if stop.Some? then ids[..stop.value] else ids
  }

  /** A duplicate key is reported as a slot that was just booked. */
  function StopError(fails: Option<nat>, stop: nat): BookingError {
    if fails == Some(stop) then PaymentFailed else JustBooked
  }

  function WalletConfirmed(b: Booking, charge: AmountDue, groupFinal: nat): Booking {
    var s := ConfirmedShare(b.bill.finalPrice, b.bill.paidAmount, charge.amount, groupFinal, charge.isDeposit);
    Booking(ConfirmedClaim(b.claim),
            b.bill.(paymentStatus := s.status, paymentMethod := WalletMethod, paidAmount := s.paid,
                    remainingAmount := s.remaining))
  }

  function CashConfirmed(b: Booking): Booking {
    Booking(ConfirmedClaim(b.claim),
            b.bill.(paymentStatus := PayAtVenue, paymentMethod := Cash, paidAmount := 0,
                    remainingAmount := b.bill.finalPrice))
  }

  function PaymobTagged(b: Booking): Booking {
    b.(bill := b.bill.(paymentMethod := Paymob))
  }

  function CouponUsed(coupons: map<string, CouponDoc>, code: Option<string>): map<string, CouponDoc> {
    if code.Some? && code.value in coupons
    then coupons[code.value := coupons[code.value].(usesCount := coupons[code.value].usesCount + 1)]
    else coupons
  }

  predicate CouponSaved(coupons: map<string, CouponDoc>, code: Option<string>, saveOk: bool) {
    code.Some? && |code.value| > 0 && code.value in coupons ==> saveOk
  }

  /** A blank code counts as none when it is looked up. */
  function Truthy(code: Option<string>): Option<string> {
    if code.Some? && |code.value| > 0 then code else None
  }

  // ----- processGroupPayment -----

  /** The row is paid for, so the money already taken is credited back; a failure of that is swallowed. */
  function CreditedBack(db: Db, user: nat, amount: int, refundLedgerOk: bool, error: BookingError): (Db, Result<(), BookingError>) {
    (db.(wallets := Wallet.Deposited(db.wallets, user, amount, Wallet.BookingRefund, refundLedgerOk).0), Err(error))
  }

  /** Debit, confirm each member, record the payment, count the coupon; undone by a refund. */
  function PayCompensating(db: Db, user: nat, ids: seq<BookingId>, groupId: nat, charge: AmountDue, groupFinal: nat,
                           coupon: Option<string>, faults: Faults): (Db, Result<(), BookingError>) {
    var (w, debit) := Wallet.Deducted(db.wallets, user, charge.amount, Wallet.BookingPayment, faults.debitLedgerOk);
    if debit.Err? then (db.(wallets := w), Err(WalletFailure(debit.error)))
    else
      var stop := StopsAt(db.bookings, ids, faults.updateFails, 0);
      var confirmed := db.(wallets := w,
                           bookings := Updated(db.bookings, Reached(ids, stop), b => WalletConfirmed(b, charge, groupFinal)));
      if stop.Some? then
        CreditedBack(confirmed, user, charge.amount, faults.refundLedgerOk, StopError(faults.updateFails, stop.value))
      else if !faults.paymentInsertOk then CreditedBack(confirmed, user, charge.amount, faults.refundLedgerOk, PaymentFailed)
      else
        var row := Payment(groupId, user, charge.amount, 0, WalletMethod, Paid, None, 0);
        var paid := confirmed.(payments := db.payments[db.nextTransaction := row], nextTransaction := db.nextTransaction + 1);
        if !CouponSaved(db.coupons, coupon, faults.couponSaveOk)
        then CreditedBack(paid, user, charge.amount, faults.refundLedgerOk, PaymentFailed)
        else (paid.(coupons := CouponUsed(db.coupons, Truthy(coupon))), Ok(()))
  }

  function PayCash(db: Db, ids: seq<BookingId>, coupon: Option<string>, faults: Faults): (Db, Result<(), BookingError>) {
    var stop := StopsAt(db.bookings, ids, faults.updateFails, 0);
    var confirmed := db.(bookings := Updated(db.bookings, Reached(ids, stop), CashConfirmed));
    if stop.Some? then (confirmed, Err(StopError(faults.updateFails, stop.value)))
    else if !CouponSaved(db.coupons, coupon, faults.couponSaveOk) then (confirmed, Err(PaymentFailed))
    else (confirmed.(coupons := CouponUsed(db.coupons, Truthy(coupon))), Ok(()))
  }

  /** How much of the charge the wallet is asked for next to the card. */
  function WalletPart(balance: int, walletAmountToUse: Option<int>, amount: int): int {
    var available := Max(0, balance);
    if walletAmountToUse.Some? then Min(Min(walletAmountToUse.value, available), amount) else Min(available, amount)
  }

  function PayPaymob(db: Db, user: nat, ids: seq<BookingId>, groupId: nat, charge: AmountDue, groupFinal: nat,
                     walletAmountToUse: Option<int>, coupon: Option<string>, faults: Faults)
    : (Db, Result<(), BookingError>) {
    var withWallet := db.(wallets := Wallet.Upserted(db.wallets, user));
    var part := WalletPart(Wallet.Balance(db.wallets, user), walletAmountToUse, charge.amount);
    if Max(0, charge.amount - part) == 0 && part >= charge.amount then
      PayCompensating(withWallet, user, ids, groupId, charge, groupFinal, coupon, faults)
    else if !faults.paymentInsertOk then (withWallet, Err(PaymentFailed))
    else
      var row := Payment(groupId, user, charge.amount, part, Paymob, Unpaid, None, 0);
      var pending := withWallet.(payments := db.payments[db.nextTransaction := row], nextTransaction := db.nextTransaction + 1);
      if !faults.gatewayOk then (pending, Err(PaymentFailed))
      else if faults.updateFails.Some? && faults.updateFails.value < |ids| then
        (pending.(bookings := Updated(db.bookings, ids[..faults.updateFails.value], PaymobTagged)), Err(PaymentFailed))
      else (pending.(bookings := Updated(db.bookings, ids, PaymobTagged)), Ok(()))
  }

  function PayGroup(db: Db, user: nat, ids: seq<BookingId>, groupId: nat, charge: AmountDue, groupFinal: nat,
                    paymentMethod: PaymentMethod, walletAmountToUse: Option<int>, coupon: Option<string>, faults: Faults)
    : (Db, Result<(), BookingError>) {
    match paymentMethod
    case WalletMethod => PayCompensating(db, user, ids, groupId, charge, groupFinal, coupon, faults)
    case Cash => PayCash(db, ids, coupon, faults)
    case Paymob => PayPaymob(db, user, ids, groupId, charge, groupFinal, walletAmountToUse, coupon, faults)
  }

  // ----- createBooking -----

  function CustomerRefused(status: CustomerStatus): bool {
    status.Suspended? || status.Archived? || status.Inactive?
  }

  /** Everything createBooking checks before it takes its lock. */
  function Precheck(body: CreateBookingDto, env: Env, now: int): Option<BookingError> {
    var slots := RawSlots(body);
    if SlotErrorOf(slots).Some? then Some(BadSlots(SlotErrorOf(slots).value))
    else if CustomerRefused(env.customer) then Some(AccountBlocked)
    else if env.venue.None? then Some(VenueNotFound)
    else if !env.venue.value.isActive then Some(VenueInactive)
    else if exists k :: 0 <= k < |slots| && (slots[k].start < env.venue.value.startWorkingHours
                                             || slots[k].end > env.venue.value.endWorkingHours)
    then Some(OutsideOpeningHours)
    else if !SlotsAhead(body.day, slots, now) then Some(SlotInThePast)
    else None
  }

  /** What the request costs: slot by slot, with its discount, and what is charged now. */
  datatype Quote = Quote(prices: seq<int>, discounts: seq<int>, finals: seq<int>, groupFinal: nat, charge: AmountDue)

  function CouponErrorOf(coupons: map<string, CouponDoc>, code: string, now: int): Option<BookingError> {
    if code !in coupons then Some(InvalidCoupon)
    else
      var c := coupons[code];
      if !c.isActive then Some(CouponInactive)
      else if c.usesCount >= c.maxUses then Some(CouponUsedUp)
      else if now < c.startDate || now > c.endDate then Some(CouponOutOfDate)
      else None
  }

  function QuoteFor(venue: Venue, coupons: map<string, CouponDoc>, body: CreateBookingDto, now: int)
    : (r: Result<Quote, BookingError>)
    ensures r.Ok? ==> |r.value.prices| == |r.value.discounts| == |r.value.finals| == |RawSlots(body)|
    ensures r.Ok? ==> forall i :: 0 <= i < |r.value.finals| ==> r.value.finals[i] >= 0 && r.value.prices[i] >= 0
    ensures r.Ok? ==> 0 <= r.value.charge.amount <= r.value.groupFinal
                      && (r.value.charge.isDeposit <==> r.value.charge.amount < r.value.groupFinal)
  {
    var slots := RawSlots(body);
    var code := Truthy(NormalizedCoupon(body.couponCode));
    var prices := SlotPrices(venue, body.day, slots);
    SumNonNegative(prices);
    var total := Sum(prices);
    if code.Some? && CouponErrorOf(coupons, code.value, now).Some? then
      Err(CouponErrorOf(coupons, code.value, now).value)
    else
      var price :=
        if code.Some? then CalculateCouponDiscount(coupons[code.value].kind, coupons[code.value].discount, total)
        else CouponDiscount(0, total);
      var discounts := SlotDiscounts(prices, total, price.discountAmount);
      match ChargeNow(|slots|, venue.minimumDepositAmount, price.finalPrice, body.customAmount)
      case Err(e) => Err(BadAmount(e))
      case Ok(charge) => Ok(Quote(prices, discounts, SlotFinals(prices, discounts), price.finalPrice, charge))
  }

  function Cleared(bookings: Bookings, user: nat, venue: nat, day: int, slots: seq<Slot>, now: int): Bookings {
    map i | i in bookings && !OwnHold(bookings[i].claim, user, venue, day, slots, now) :: bookings[i]
  }

  function NewRow(user: nat, body: CreateBookingDto, key: Option<string>, q: Quote, groupId: nat, expiresAt: int, k: nat): Booking
    requires k < |q.prices| == |q.discounts| == |q.finals| == |RawSlots(body)|
    requires q.prices[k] >= 0 && q.finals[k] >= 0
  {
    var slot := RawSlots(body)[k];
    Booking(Claim(user, body.venueId, body.day, slot.start, slot.end, groupId, Pending, Some(expiresAt)),
            Bill(q.prices[k], q.discounts[k], q.finals[k], 0, q.finals[k], Unpaid, body.paymentMethod,
                 NormalizedCoupon(body.couponCode), key, Fingerprint(body)))
  }

  predicate QuoteFits(q: Quote, body: CreateBookingDto) {
    && |q.prices| == |q.discounts| == |q.finals| == |RawSlots(body)|
    && forall k :: 0 <= k < |q.prices| ==> q.prices[k] >= 0 && q.finals[k] >= 0
  }

  function NewRows(base: BookingId, n: nat, user: nat, body: CreateBookingDto, key: Option<string>, q: Quote,
                   groupId: nat, expiresAt: int): Bookings
    requires QuoteFits(q, body) && n <= |q.prices|
  {
    map i | i in FreshIds(base, n) :: NewRow(user, body, key, q, groupId, expiresAt, i - base)
  }

  /** The first insert that fails, by the unique index or otherwise. */
  function InsertError(table: Table, venue: nat, day: int, slots: seq<Slot>, fails: Option<nat>, k: nat): Option<BookingError>
    requires k <= |slots|
    decreases |slots| - k
  {
    if k == |slots| then None
    else if fails == Some(k) then Some(InsertFailed)
    else if IndexRefuses(table, venue, day, slots[k].start) then Some(JustBooked)
    else InsertError(table, venue, day, slots, fails, k + 1)
  }

  function WithoutRows(bookings: Bookings, ids: seq<BookingId>): Bookings {
    map i | i in bookings && i !in ids :: bookings[i]
  }

  /** The rows of the group, inserted as pending holds. */
  function WithRows(db: Db, user: nat, body: CreateBookingDto, key: Option<string>, q: Quote): Db
    requires QuoteFits(q, body)
  {
    var rows := NewRows(db.nextId, |RawSlots(body)|, user, body, key, q, db.nextGroup, db.now + HOLD_DURATION);
    db.(bookings := db.bookings + rows, nextId := db.nextId + |RawSlots(body)|, nextGroup := db.nextGroup + 1)
  }

  /** The payment of a new group, whose rows are taken away again if it fails. */
  function PayNew(db: Db, ids: seq<BookingId>, groupId: nat, user: nat, body: CreateBookingDto, q: Quote, faults: Faults)
    : (Db, Result<nat, BookingError>) {
    var paid := PayGroup(db, user, ids, groupId, q.charge, q.groupFinal, body.paymentMethod, body.walletAmountToUse,
                         NormalizedCoupon(body.couponCode), faults);
    if paid.1.Err? then (paid.0.(bookings := WithoutRows(paid.0.bookings, ids)), Err(paid.1.error))
    else (paid.0, Ok(groupId))
  }

  /** From the priced request to the paid group. */
  function InsertAndPay(db: Db, user: nat, body: CreateBookingDto, key: Option<string>, q: Quote, faults: Faults)
    : (Db, Result<nat, BookingError>)
    requires QuoteFits(q, body)
  {
    var failure := InsertError(Claims(db.bookings), body.venueId, body.day, RawSlots(body), faults.insertFails, 0);
    if failure.Some? then
      (db.(nextId := db.nextId + |RawSlots(body)|, nextGroup := db.nextGroup + 1), Err(failure.value))
    else PayNew(WithRows(db, user, body, key, q), FreshIds(db.nextId, |RawSlots(body)|), db.nextGroup, user, body, q, faults)
  }

  /** A request to be paid by wallet is refused before any insert if the wallet does not hold its charge. */
  function BookPriced(db: Db, user: nat, body: CreateBookingDto, key: Option<string>, q: Quote, faults: Faults)
    : (Db, Result<nat, BookingError>)
    requires QuoteFits(q, body)
  {
    var withWallet := if body.paymentMethod.WalletMethod? then db.(wallets := Wallet.Upserted(db.wallets, user)) else db;
    if body.paymentMethod.WalletMethod? && Wallet.Balance(db.wallets, user) < q.charge.amount
    then (withWallet, Err(WalletFailure(Wallet.InsufficientBalance)))
    else InsertAndPay(withWallet, user, body, key, q, faults)
  }

  function Create(db: Db, user: nat, body: CreateBookingDto, key: Option<string>, env: Env): (Db, Result<nat, BookingError>) {
    var slots := RawSlots(body);
    if Precheck(body, env, db.now).Some? then (db, Err(Precheck(body, env, db.now).value))
    else if !env.lockFree then (db, Err(VenueBusy))
    else if OverlapStageRejects(Claims(db.bookings), user, body.venueId, body.day, slots, db.now) then (db, Err(SlotTaken))
    else
      var cleared := db.(bookings := Cleared(db.bookings, user, body.venueId, body.day, slots, db.now));
      match QuoteFor(env.venue.value, db.coupons, body, db.now)
      case Err(e) => (cleared, Err(e))
      case Ok(q) => BookPriced(cleared, user, body, key, q, env.faults)
  }

  // ----- payBooking -----

  /** The order in which a query for the group returns its rows. */
  ghost predicate Listing(found: seq<BookingId>, ids: set<BookingId>) {
    && (forall i :: i in found <==> i in ids)
    && (forall k, l :: 0 <= k < l < |found| ==> found[k] != found[l])
  }

  function FinalOf(bookings: Bookings, i: BookingId): nat {
    if i in bookings then bookings[i].bill.finalPrice else 0
  }

  /** What is outstanding on a row; a negative value counts as it stands, a missing row as nothing. */
  function RemainingOf(bookings: Bookings, i: BookingId): int {
    if i in bookings then bookings[i].bill.remainingAmount else 0
  }

  function GroupFinals(bookings: Bookings, found: seq<BookingId>): (s: seq<int>)
    ensures |s| == |found| && forall k :: 0 <= k < |s| ==> s[k] >= 0
  {
    seq(|found|, k requires 0 <= k < |found| => FinalOf(bookings, found[k]))
  }

  function GroupRemaining(bookings: Bookings, found: seq<BookingId>): (s: seq<int>)
    ensures |s| == |found|
  {
    seq(|found|, k requires 0 <= k < |found| => RemainingOf(bookings, found[k]))
  }

  function GroupTotalPrice(bookings: Bookings, found: seq<BookingId>): nat {
    SumNonNegative(GroupFinals(bookings, found));
    Sum(GroupFinals(bookings, found))
  }

  datatype PayRequest = PayRequest(paymentMethod: PaymentMethod, customAmount: Option<int>,
                                   walletAmountToUse: Option<int>, couponCode: Option<string>)

  function PayError(b: Booking, user: nat, now: int): Option<BookingError> {
    if b.claim.user != user then Some(NotAllowed)
    else if b.claim.status.Cancelled? || b.claim.status.Expired? then Some(NotPayable)
    else if b.bill.paymentStatus.Paid? then Some(AlreadyPaid)
    else if Lapsed(b.claim, now) then Some(HoldExpired)
    else None
  }

  function PayCharge(bookings: Bookings, b: Booking, found: seq<BookingId>, minimumDeposit: nat, customAmount: Option<int>)
    : Result<AmountDue, AmountError> {
    if b.claim.status.Confirmed? && exists k :: 0 <= k < |found| && RemainingOf(bookings, found[k]) > 0
    then Ok(AmountDue(Sum(GroupRemaining(bookings, found)), false))
    else ChargeNow(|found|, minimumDeposit, GroupTotalPrice(bookings, found), customAmount)
  }

  function PayCoupon(b: Booking, body: PayRequest): Option<string> {
    if NormalizedCoupon(body.couponCode).Some? then NormalizedCoupon(body.couponCode) else NormalizedCoupon(b.bill.couponCode)
  }

  /** `found` is the group as the query returned it; `minimumDeposit` is the venue's, zero if it is gone. */
  function Pay(db: Db, id: BookingId, user: nat, body: PayRequest, found: seq<BookingId>, minimumDeposit: nat, faults: Faults)
    : (Db, Result<(), BookingError>) {
    if id !in db.bookings then (db, Err(BookingNotFound))
    else
      var b := db.bookings[id];
      match PayError(b, user, db.now)
      case Some(HoldExpired) =>
        (db.(bookings := db.bookings[id := b.(claim := WithStatus(b.claim, Expired))]), Err(HoldExpired))
      case Some(e) => (db, Err(e))
      case None =>
        match PayCharge(db.bookings, b, found, minimumDeposit, body.customAmount)
        case Err(e) => (db, Err(BadAmount(e)))
        case Ok(charge) =>
          PayGroup(db, user, found, b.claim.groupId, charge, GroupTotalPrice(db.bookings, found), body.paymentMethod,
                   body.walletAmountToUse, PayCoupon(b, body), faults)
  }

  // ----- cancelBooking -----

  const CANCELLATION_DEADLINE := 24 * HOUR

  function CancelError(b: Booking, actor: nat, isStaff: bool, now: int): Option<BookingError> {
    if b.claim.user != actor && !isStaff then Some(NotAllowed)
    else if b.claim.status.Cancelled? then Some(AlreadyCancelled)
    else if b.claim.status.Completed? then Some(AlreadyCompleted)
    else if !b.claim.status.Pending? && SlotTime(b.claim.day, b.claim.start) - now < CANCELLATION_DEADLINE && !isStaff
    then Some(TooCloseToStart)
    else None
  }

  function RefundFor(b: Booking): int {
    CancellationRefund(b.bill.paymentStatus, b.bill.paidAmount, b.bill.finalPrice)
  }

  function CancelledRow(b: Booking): Booking {
    Booking(b.claim.(status := Cancelled, expiresAt := None),
            b.bill.(paymentStatus := if RefundFor(b) > 0 then Refunded else b.bill.paymentStatus,
                    paidAmount := 0, remainingAmount := 0))
  }

  /** A confirmed booking gives its coupon use back, but never below zero. */
  function CouponRestored(coupons: map<string, CouponDoc>, b: Booking): map<string, CouponDoc> {
    var code := Truthy(b.bill.couponCode);
    if b.claim.status.Confirmed? && code.Some? && code.value in coupons && coupons[code.value].usesCount > 0
    then coupons[code.value := coupons[code.value].(usesCount := coupons[code.value].usesCount - 1)]
    else coupons
  }

  function Cancelling(db: Db, id: BookingId, actor: nat, isStaff: bool, refundLedgerOk: bool): (Db, Result<(), BookingError>) {
    if id !in db.bookings then (db, Err(BookingNotFound))
    else
      var b := db.bookings[id];
      match CancelError(b, actor, isStaff, db.now)
      case Some(e) => (db, Err(e))
      case None =>
        var wallets :=
          if RefundFor(b) > 0
          then Wallet.Deposited(db.wallets, b.claim.user, RefundFor(b), Wallet.BookingRefund, refundLedgerOk).0
          else db.wallets;
        (db.(wallets := wallets, bookings := db.bookings[id := CancelledRow(b)], coupons := CouponRestored(db.coupons, b)), Ok(()))
  }

  /** The row's update fails: the refund has been made already, and nothing takes it back. */
  function CancelCutShort(db: Db, id: BookingId, actor: nat, isStaff: bool, refundLedgerOk: bool): (Db, Result<(), BookingError>) {
    var (after, r) := Cancelling(db, id, actor, isStaff, refundLedgerOk);
    (db.(wallets := after.wallets), if r.Ok? then Err(UpdateFailed) else r)
  }

  // ----- cron -----

  function CronSwept(db: Db): Db {
    db.(bookings := map i | i in db.bookings :: db.bookings[i].(claim := Swept(db.bookings[i].claim, db.now)))
  }

  function WithStatuses(bookings: Bookings, ids: set<BookingId>, status: BookingStatus): Bookings {
    map i | i in bookings :: if i in ids then bookings[i].(claim := WithStatus(bookings[i].claim, status)) else bookings[i]
  }

  /** The cron when an update of it fails: these rows have expired, and these have become no-shows. */
  function CronCutShort(db: Db, expired: set<BookingId>, past: set<BookingId>): Db {
    db.(bookings := WithStatuses(WithStatuses(db.bookings, expired, Expired), past, NoShow))
  }

  predicate Overdue(c: Claim, now: int) {
    (c.status.Confirmed? || c.status.Pending?) && SlotTime(c.day, 0) <= now && now >= SlotTime(c.day, c.end)
  }

  /** The rows of the second pass are looked up when those of the first have all been updated. */
  predicate CronOrder(db: Db, expired: set<BookingId>, past: set<BookingId>) {
    && (forall i :: i in expired ==> i in db.bookings && Lapsed(db.bookings[i].claim, db.now))
    && (forall i :: i in past ==> i in db.bookings && Overdue(db.bookings[i].claim, db.now) && i !in expired)
    && (past != {} ==> forall i :: i in db.bookings && Lapsed(db.bookings[i].claim, db.now) ==> i in expired)
  }

  // ----- suspension sweep -----

  function SuspensionRows(db: Db, user: nat): set<BookingId> {
    set i | i in db.bookings && db.bookings[i].claim.user == user
            && (db.bookings[i].claim.status.Confirmed? || db.bookings[i].claim.status.Pending?)
            && Upcoming(db.bookings[i].claim, db.now)
  }

  function RefundOnSuspension(b: Booking, now: int): nat {
    var paid := ActualPaid(b.bill.paymentStatus, b.bill.paidAmount, b.bill.finalPrice);
    if WasPaid(b.bill.paymentStatus) && paid > 0
    then SuspensionRefund(paid, SlotTime(b.claim.day, b.claim.start) - now) else 0
  }

  function SuspendedRow(b: Booking, now: int): Booking {
    Booking(WithStatus(b.claim, Cancelled),
            b.bill.(paymentStatus := if !WasPaid(b.bill.paymentStatus) then Unpaid
                                     else if RefundOnSuspension(b, now) > 0 then Refunded else Paid,
                    paidAmount := 0, remainingAmount := 0))
  }

  /** One round of the loop; the refund total grows only when the wallet took the refund. */
  function SuspendOne(db: Db, id: BookingId, refundLedgerOk: bool): (Db, nat)
    requires id in db.bookings
  {
    var b := db.bookings[id];
    var refund := RefundOnSuspension(b, db.now);
    var row := db.(bookings := db.bookings[id := SuspendedRow(b, db.now)]);
    if refund > 0 then
      (row.(wallets := Wallet.Deposited(db.wallets, b.claim.user, refund, Wallet.BookingRefund, refundLedgerOk).0),
       if refundLedgerOk then refund else 0)
    else (row, 0)
  }
}
