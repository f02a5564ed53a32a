/** What payBooking, cancelBooking and the cron answer and do, in terms of the documents alone. */
module BookingAnswers {
  import opened Prelude
  import opened Money
  import opened Coupon
  import opened BookingRequest
  import opened Slots
  import opened GroupPrice
  import opened Database
  import opened BookingOperations
  import opened BookingTheorems
  import Wallet

  /** Milliseconds from now to the start of the booking. */
  function UntilStart(b: Booking, now: int): int {
    b.claim.day * 86_400_000 + b.claim.start * 3_600_000 - now
  }

  // ----- cancelBooking -----

  /** What was paid for a booking: the recorded amount, or the whole price where a paid booking records none. */
  function PaidFor(b: Booking): int {
    if b.bill.paymentStatus != Paid && b.bill.paymentStatus != PartiallyPaid then 0
    else if b.bill.paidAmount > 0 then b.bill.paidAmount else b.bill.finalPrice
  }

  /** The owner gets back what was paid; the row is cancelled and owes nothing; a confirmed one gives its coupon use back. */
  ghost predicate IsCancelled(db: Db, after: Db, id: BookingId, refundLedgerOk: bool)
    requires id in db.bookings
  {
    var b := db.bookings[id];
    && after.bookings
       == db.bookings[id := Booking(b.claim.(status := Cancelled, expiresAt := None),
                                    b.bill.(paymentStatus := if PaidFor(b) > 0 then Refunded else b.bill.paymentStatus,
                                            paidAmount := 0, remainingAmount := 0))]
    && Wallet.Balance(after.wallets, b.claim.user)
       == Wallet.Balance(db.wallets, b.claim.user) + (if PaidFor(b) > 0 && refundLedgerOk then PaidFor(b) else 0)
    && (forall u: nat :: u != b.claim.user ==> Wallet.Balance(after.wallets, u) == Wallet.Balance(db.wallets, u))
    && after.payments == db.payments && after.now == db.now
    && after.coupons.Keys == db.coupons.Keys
    && forall code :: code in db.coupons ==>
         after.coupons[code] == db.coupons[code].(
           usesCount := if b.claim.status.Confirmed? && b.bill.couponCode == Some(code) && code != "" && db.coupons[code].usesCount > 0
                        then db.coupons[code].usesCount - 1 else db.coupons[code].usesCount)
  }

  /** A cancellation is refused for the first of these reasons, and then changes nothing. */
  lemma CancelAnswered(db: Db, id: BookingId, actor: nat, isStaff: bool, refundLedgerOk: bool)
    ensures var (after, r) := Cancelling(db, id, actor, isStaff, refundLedgerOk);
            if id !in db.bookings then after == db && r == Err(BookingNotFound)
            else
              var b := db.bookings[id];
              if b.claim.user != actor && !isStaff then after == db && r == Err(NotAllowed)
              else if b.claim.status == Cancelled then after == db && r == Err(AlreadyCancelled)
              else if b.claim.status == Completed then after == db && r == Err(AlreadyCompleted)
              else if b.claim.status != Pending && !isStaff && UntilStart(b, db.now) < 86_400_000
              then after == db && r == Err(TooCloseToStart)
              else r == Ok(()) && IsCancelled(db, after, id, refundLedgerOk)
  {
  }

  /** So it is accepted exactly for the owner or staff, before it is over, and in time unless it is a hold or by staff. */
  lemma CancelAcceptedIff(db: Db, id: BookingId, actor: nat, isStaff: bool, refundLedgerOk: bool)
    ensures Cancelling(db, id, actor, isStaff, refundLedgerOk).1.Ok?
            <==> && id in db.bookings
                 && (db.bookings[id].claim.user == actor || isStaff)
                 && db.bookings[id].claim.status != Cancelled && db.bookings[id].claim.status != Completed
                 && (db.bookings[id].claim.status == Pending || isStaff || UntilStart(db.bookings[id], db.now) >= 86_400_000)
    ensures Cancelling(db, id, actor, isStaff, refundLedgerOk).1.Err? ==> Cancelling(db, id, actor, isStaff, refundLedgerOk).0 == db
  {
  }

  // ----- payBooking: refusals -----

  predicate PayRefusal(e: BookingError) {
    e == BookingNotFound || e == NotAllowed || e == NotPayable || e == AlreadyPaid || e == HoldExpired
  }

  lemma GroupPaymentErrors(db: Db, user: nat, ids: seq<BookingId>, groupId: nat, charge: AmountDue, groupFinal: nat,
                           paymentMethod: PaymentMethod, walletAmountToUse: Option<int>, coupon: Option<string>, faults: Faults)
    ensures var r := PayGroup(db, user, ids, groupId, charge, groupFinal, paymentMethod, walletAmountToUse, coupon, faults).1;
            r.Err? ==> r.error.WalletFailure? || r.error == PaymentFailed || r.error == JustBooked
  {
  }

  /** A payment is refused for the first of these reasons; only a lapsed hold leaves a trace, and expires. */
  lemma PayAnswered(db: Db, id: BookingId, user: nat, body: PayRequest, found: seq<BookingId>, minimumDeposit: nat, faults: Faults)
    ensures var (after, r) := Pay(db, id, user, body, found, minimumDeposit, faults);
            if id !in db.bookings then after == db && r == Err(BookingNotFound)
            else
              var b := db.bookings[id];
              if b.claim.user != user then after == db && r == Err(NotAllowed)
              else if b.claim.status == Cancelled || b.claim.status == Expired then after == db && r == Err(NotPayable)
              else if b.bill.paymentStatus == Paid then after == db && r == Err(AlreadyPaid)
              else if b.claim.status == Pending && b.claim.expiresAt.Some? && b.claim.expiresAt.value <= db.now
              then after == db.(bookings := db.bookings[id := b.(claim := b.claim.(status := Expired))]) && r == Err(HoldExpired)
              else r.Err? ==> !PayRefusal(r.error)
  {
    if id in db.bookings && PayError(db.bookings[id], user, db.now).None? {
      var b := db.bookings[id];
      var charge := PayCharge(db.bookings, b, found, minimumDeposit, body.customAmount);
      if charge.Ok? {
        GroupPaymentErrors(db, user, found, b.claim.groupId, charge.value, GroupTotalPrice(db.bookings, found), body.paymentMethod,
                           body.walletAmountToUse, PayCoupon(b, body), faults);
      }
    }
  }

  // ----- payBooking: what is charged -----

  function Owed(bookings: Bookings, found: seq<BookingId>): (s: seq<int>)
    ensures |s| == |found|
  {
    seq(|found|, k requires 0 <= k < |found| => if found[k] in bookings then bookings[found[k]].bill.remainingAmount else 0)
  }

  function Priced(bookings: Bookings, found: seq<BookingId>): (s: seq<int>)
    ensures |s| == |found| && forall k :: 0 <= k < |s| ==> s[k] >= 0
  {
    seq(|found|, k requires 0 <= k < |found| => if found[k] in bookings then bookings[found[k]].bill.finalPrice else 0)
  }

  /**
   The charge of an accepted payment: what the group owes, if the booking is confirmed and some member owes anything;
   otherwise a first payment on the price of the group.
   */
  ghost predicate IsCharge(db: Db, id: BookingId, body: PayRequest, found: seq<BookingId>, minimumDeposit: nat,
                           r: Result<AmountDue, AmountError>)
    requires id in db.bookings
  {
    var total := Sum(Priced(db.bookings, found));
    if db.bookings[id].claim.status == Confirmed && exists k :: 0 <= k < |found| && Owed(db.bookings, found)[k] > 0
    then r == Ok(AmountDue(Sum(Owed(db.bookings, found)), false))
    else if body.customAmount.Some? && body.customAmount.value > 0 then
      var a := body.customAmount.value;
      if a < total && (minimumDeposit == 0 || a < |found| * minimumDeposit) then r == Err(BelowMinimumDeposit)
      else if a > total then r == Err(AboveTotal)
      else r == Ok(AmountDue(a, a < total))
    else if minimumDeposit > 0 && |found| * minimumDeposit < total then r == Ok(AmountDue(|found| * minimumDeposit, true))
    else r == Ok(AmountDue(total, false))
  }

  lemma PayCharges(db: Db, id: BookingId, body: PayRequest, found: seq<BookingId>, minimumDeposit: nat)
    requires id in db.bookings
    ensures IsCharge(db, id, body, found, minimumDeposit, PayCharge(db.bookings, db.bookings[id], found, minimumDeposit, body.customAmount))
    ensures GroupTotalPrice(db.bookings, found) == Sum(Priced(db.bookings, found))
  {
    assert GroupRemaining(db.bookings, found) == Owed(db.bookings, found);
    assert GroupFinals(db.bookings, found) == Priced(db.bookings, found);
    WhatIsCharged(|found|, minimumDeposit, GroupTotalPrice(db.bookings, found), body.customAmount);
    forall k | 0 <= k < |found| ensures RemainingOf(db.bookings, found[k]) == Owed(db.bookings, found)[k] {
    }
  }

  /** Nothing stands in the way of the payment but what it is charged. */
  predicate Payable(db: Db, id: BookingId, user: nat) {
    && id in db.bookings && db.bookings[id].claim.user == user
    && db.bookings[id].claim.status != Cancelled && db.bookings[id].claim.status != Expired && db.bookings[id].bill.paymentStatus != Paid
    && !(db.bookings[id].claim.status == Pending && db.bookings[id].claim.expiresAt.Some? && db.bookings[id].claim.expiresAt.value <= db.now)
  }

  /** An amount that is refused is the whole answer. */
  lemma AmountAnswered(db: Db, id: BookingId, user: nat, body: PayRequest, found: seq<BookingId>, minimumDeposit: nat, faults: Faults,
                       e: AmountError)
    requires Payable(db, id, user) && IsCharge(db, id, body, found, minimumDeposit, Err(e))
    ensures Pay(db, id, user, body, found, minimumDeposit, faults) == (db, Err(BadAmount(e)))
  {
    PayCharges(db, id, body, found, minimumDeposit);
  }

  /** The coupon whose use is counted: the request's, or else the booking's. */
  function CountedCoupon(b: Booking, body: PayRequest): Option<string> {
    if body.couponCode.Some? && body.couponCode.value != "" then NormalizedCoupon(body.couponCode)
    else NormalizedCoupon(b.bill.couponCode)
  }

  predicate OneMoreUse(before: map<string, CouponDoc>, after: map<string, CouponDoc>, code: Option<string>) {
    && after.Keys == before.Keys
    && forall c :: c in before ==>
         after[c] == before[c].(usesCount := before[c].usesCount + if code == Some(c) && c != "" then 1 else 0)
  }

  /** A member as a wallet payment leaves it: confirmed for good, paid by wallet, with its share of a deposit or up to its price. */
  predicate PaidByWallet(before: Booking, after: Booking, charge: AmountDue, total: int) {
    && after.claim == before.claim.(status := Confirmed, expiresAt := None)
    && after.bill == before.bill.(paymentMethod := WalletMethod, paidAmount := after.bill.paidAmount,
                                  remainingAmount := after.bill.remainingAmount, paymentStatus := after.bill.paymentStatus)
    && (charge.isDeposit && total > 0 && charge.amount >= 0 ==>
          -total < 2 * (after.bill.paidAmount * total - before.bill.finalPrice * charge.amount) <= total)
    && (!charge.isDeposit ==>
          after.bill.paidAmount <= before.bill.finalPrice && after.bill.paidAmount <= before.bill.paidAmount + charge.amount
          && (after.bill.paidAmount == before.bill.finalPrice || after.bill.paidAmount == before.bill.paidAmount + charge.amount))
    && after.bill.remainingAmount >= 0 && after.bill.remainingAmount >= before.bill.finalPrice - after.bill.paidAmount
    && (after.bill.remainingAmount == 0 || after.bill.remainingAmount == before.bill.finalPrice - after.bill.paidAmount)
    && after.bill.paymentStatus == if charge.isDeposit && after.bill.remainingAmount > 0 then PartiallyPaid else Paid
  }

  /** A payment from the wallet: the charge leaves it, the members found are paid, a payment is on record, the coupon counts. */
  ghost predicate TakenFromWallet(db: Db, after: Db, id: BookingId, user: nat, body: PayRequest, found: seq<BookingId>, charge: AmountDue)
    requires id in db.bookings
  {
    && charge.amount <= Wallet.Balance(db.wallets, user)
    && Wallet.Balance(after.wallets, user) == Wallet.Balance(db.wallets, user) - charge.amount
    && (forall u: nat :: u != user ==> Wallet.Balance(after.wallets, u) == Wallet.Balance(db.wallets, u))
    && after.payments
       == db.payments[db.nextTransaction := Payment(db.bookings[id].claim.groupId, user, charge.amount, 0, WalletMethod, Paid, None, 0)]
    && after.bookings.Keys == db.bookings.Keys
    && (forall i :: i in db.bookings ==>
          if i in found then PaidByWallet(db.bookings[i], after.bookings[i], charge, Sum(Priced(db.bookings, found)))
          else after.bookings[i] == db.bookings[i])
    && OneMoreUse(db.coupons, after.coupons, CountedCoupon(db.bookings[id], body))
  }

  lemma MemberPaidByWallet(b: Booking, charge: AmountDue, groupFinal: nat)
    ensures PaidByWallet(b, WalletConfirmed(b, charge, groupFinal), charge, groupFinal)
  {
    if charge.isDeposit && groupFinal > 0 && charge.amount >= 0 {
      assert b.bill.finalPrice * charge.amount >= 0;
    }
  }

  lemma CompensatingTakes(db: Db, user: nat, ids: seq<BookingId>, groupId: nat, charge: AmountDue, groupFinal: nat,
                          coupon: Option<string>, faults: Faults)
    requires PayCompensating(db, user, ids, groupId, charge, groupFinal, coupon, faults).1.Ok?
    ensures var after := PayCompensating(db, user, ids, groupId, charge, groupFinal, coupon, faults).0;
            && charge.amount <= Wallet.Balance(db.wallets, user)
            && Wallet.Balance(after.wallets, user) == Wallet.Balance(db.wallets, user) - charge.amount
            && (forall u: nat :: u != user ==> Wallet.Balance(after.wallets, u) == Wallet.Balance(db.wallets, u))
            && after.payments == db.payments[db.nextTransaction := Payment(groupId, user, charge.amount, 0, WalletMethod, Paid, None, 0)]
            && after.bookings == Updated(db.bookings, ids, b => WalletConfirmed(b, charge, groupFinal))
            && after.coupons == CouponUsed(db.coupons, Truthy(coupon))
  {
  }

  lemma CouponCounted(coupons: map<string, CouponDoc>, b: Booking, body: PayRequest)
    ensures OneMoreUse(coupons, CouponUsed(coupons, Truthy(PayCoupon(b, body))), CountedCoupon(b, body))
  {
  }

  lemma FromWallet(db: Db, after: Db, id: BookingId, user: nat, body: PayRequest, found: seq<BookingId>, minimumDeposit: nat,
                   charge: AmountDue)
    requires id in db.bookings && PayCharge(db.bookings, db.bookings[id], found, minimumDeposit, body.customAmount) == Ok(charge)
    requires charge.amount <= Wallet.Balance(db.wallets, user)
    requires Wallet.Balance(after.wallets, user) == Wallet.Balance(db.wallets, user) - charge.amount
    requires forall u: nat :: u != user ==> Wallet.Balance(after.wallets, u) == Wallet.Balance(db.wallets, u)
    requires after.payments
             == db.payments[db.nextTransaction := Payment(db.bookings[id].claim.groupId, user, charge.amount, 0, WalletMethod, Paid, None, 0)]
    requires after.bookings == Updated(db.bookings, found, b => WalletConfirmed(b, charge, GroupTotalPrice(db.bookings, found)))
    requires after.coupons == CouponUsed(db.coupons, Truthy(PayCoupon(db.bookings[id], body)))
    ensures TakenFromWallet(db, after, id, user, body, found, charge)
  {
    PayCharges(db, id, body, found, minimumDeposit);
    CouponCounted(db.coupons, db.bookings[id], body);
    forall i | i in db.bookings && i in found
      ensures PaidByWallet(db.bookings[i], after.bookings[i], charge, Sum(Priced(db.bookings, found)))
    {
      MemberPaidByWallet(db.bookings[i], charge, GroupTotalPrice(db.bookings, found));
    }
  }

  /** A payment by wallet that succeeds is taken from it. */
  lemma WalletPayTakes(db: Db, id: BookingId, user: nat, body: PayRequest, found: seq<BookingId>, minimumDeposit: nat, faults: Faults,
                       charge: AmountDue)
    requires Payable(db, id, user) && body.paymentMethod == WalletMethod
    requires IsCharge(db, id, body, found, minimumDeposit, Ok(charge))
    requires Pay(db, id, user, body, found, minimumDeposit, faults).1.Ok?
    ensures TakenFromWallet(db, Pay(db, id, user, body, found, minimumDeposit, faults).0, id, user, body, found, charge)
  {
    PayCharges(db, id, body, found, minimumDeposit);
    var b, total := db.bookings[id], GroupTotalPrice(db.bookings, found);
    CompensatingTakes(db, user, found, b.claim.groupId, charge, total, PayCoupon(b, body), faults);
    FromWallet(db, Pay(db, id, user, body, found, minimumDeposit, faults).0, id, user, body, found, minimumDeposit, charge);
  }

  // ----- payBooking by card: how much of it the wallet pays -----

  /**
   The wallet's part of a charge: as much as the charge, the wallet and the customer allow. It is within each of these
   bounds, and is one of them.
   */
  predicate IsWalletPart(part: int, balance: int, walletAmountToUse: Option<int>, charge: int) {
    && part <= charge
    && part <= (if balance > 0 then balance else 0)
    && (walletAmountToUse.Some? ==> part <= walletAmountToUse.value)
    && (part == charge || part == (if balance > 0 then balance else 0) || (walletAmountToUse.Some? && part == walletAmountToUse.value))
  }

  /** A payment that waits for the card: nothing is taken, nothing confirmed; the payment says how much of it is the wallet's. */
  ghost predicate WaitsForCard(db: Db, after: Db, groupId: nat, user: nat, ids: seq<BookingId>, charge: int, part: int) {
    && after.payments == db.payments[db.nextTransaction := Payment(groupId, user, charge, part, Paymob, Unpaid, None, 0)]
    && (forall u: nat :: Wallet.Balance(after.wallets, u) == Wallet.Balance(db.wallets, u))
    && after.coupons == db.coupons && after.bookings.Keys == db.bookings.Keys
    && forall i :: i in db.bookings ==>
         after.bookings[i] == if i in ids then Booking(db.bookings[i].claim, db.bookings[i].bill.(paymentMethod := Paymob)) else db.bookings[i]
  }

  lemma PartIsWalletPart(part: int, balance: int, walletAmountToUse: Option<int>, charge: int)
    ensures IsWalletPart(part, balance, walletAmountToUse, charge) <==> part == WalletPart(balance, walletAmountToUse, charge)
  {
  }

  /** A group paid by card: the wallet alone pays exactly if its part is the charge, and otherwise the card is waited for. */
  lemma CardPaymentAnswered(db: Db, user: nat, ids: seq<BookingId>, groupId: nat, charge: AmountDue, groupFinal: nat,
                            walletAmountToUse: Option<int>, coupon: Option<string>, faults: Faults, part: int)
    requires IsWalletPart(part, Wallet.Balance(db.wallets, user), walletAmountToUse, charge.amount)
    requires PayGroup(db, user, ids, groupId, charge, groupFinal, Paymob, walletAmountToUse, coupon, faults).1.Ok?
    ensures var after := PayGroup(db, user, ids, groupId, charge, groupFinal, Paymob, walletAmountToUse, coupon, faults).0;
            if part == charge.amount
            then after == PayCompensating(db.(wallets := Wallet.Upserted(db.wallets, user)), user, ids, groupId, charge, groupFinal, coupon, faults).0
            else WaitsForCard(db, after, groupId, user, ids, charge.amount, part)
  {
    PartIsWalletPart(part, Wallet.Balance(db.wallets, user), walletAmountToUse, charge.amount);
  }

  /** payBooking by card. */
  lemma CardPayAnswered(db: Db, id: BookingId, user: nat, body: PayRequest, found: seq<BookingId>, minimumDeposit: nat, faults: Faults,
                        charge: AmountDue, part: int)
    requires Payable(db, id, user) && body.paymentMethod == Paymob
    requires IsCharge(db, id, body, found, minimumDeposit, Ok(charge))
    requires IsWalletPart(part, Wallet.Balance(db.wallets, user), body.walletAmountToUse, charge.amount)
    requires Pay(db, id, user, body, found, minimumDeposit, faults).1.Ok?
    ensures var after := Pay(db, id, user, body, found, minimumDeposit, faults).0;
            if part == charge.amount then TakenFromWallet(db, after, id, user, body, found, charge)
            else WaitsForCard(db, after, db.bookings[id].claim.groupId, user, found, charge.amount, part)
  {
    PayCharges(db, id, body, found, minimumDeposit);
    var b, total := db.bookings[id], GroupTotalPrice(db.bookings, found);
    CardPaymentAnswered(db, user, found, b.claim.groupId, charge, total, body.walletAmountToUse, PayCoupon(b, body), faults, part);
    if part == charge.amount {
      var upserted := db.(wallets := Wallet.Upserted(db.wallets, user));
      PartIsWalletPart(part, Wallet.Balance(db.wallets, user), body.walletAmountToUse, charge.amount);
      CompensatingTakes(upserted, user, found, b.claim.groupId, charge, total, PayCoupon(b, body), faults);
      FromWallet(db, Pay(db, id, user, body, found, minimumDeposit, faults).0, id, user, body, found, minimumDeposit, charge);
    }
  }

  /** A member as a cash payment leaves it. */
  predicate PaidInCash(before: Booking, after: Booking) {
    && after.claim == before.claim.(status := Confirmed, expiresAt := None)
    && after.bill == before.bill.(paymentMethod := Cash, paymentStatus := PayAtVenue, paidAmount := 0, remainingAmount := before.bill.finalPrice)
  }

  lemma CashPayAnswered(db: Db, id: BookingId, user: nat, body: PayRequest, found: seq<BookingId>, minimumDeposit: nat, faults: Faults)
    requires Payable(db, id, user) && body.paymentMethod == Cash
    requires Pay(db, id, user, body, found, minimumDeposit, faults).1.Ok?
    ensures var after := Pay(db, id, user, body, found, minimumDeposit, faults).0;
            && after.wallets == db.wallets && after.payments == db.payments && after.bookings.Keys == db.bookings.Keys
            && (forall i :: i in db.bookings ==>
                  if i in found then PaidInCash(db.bookings[i], after.bookings[i]) else after.bookings[i] == db.bookings[i])
            && OneMoreUse(db.coupons, after.coupons, CountedCoupon(db.bookings[id], body))
  {
    CouponCounted(db.coupons, db.bookings[id], body);
  }

  // ----- when a payment succeeds -----

  /** Another row that is active, or confirmed just before, has the venue, day and start of the k-th member. */
  predicate PlaceTaken(bookings: Bookings, ids: seq<BookingId>, k: nat)
    requires k < |ids|
  {
    ids[k] in bookings &&
    exists j ::
      && j in bookings && j != ids[k]
      && (bookings[j].claim.status == Confirmed || bookings[j].claim.status == Pending || bookings[j].claim.status == Completed || j in ids[..k])
      && bookings[j].claim.venue == bookings[ids[k]].claim.venue && bookings[j].claim.day == bookings[ids[k]].claim.day
      && bookings[j].claim.start == bookings[ids[k]].claim.start
  }

  /** Every member can be confirmed: no update fails, and none finds its place taken. */
  predicate AllConfirmable(bookings: Bookings, ids: seq<BookingId>, updateFails: Option<nat>) {
    forall k :: 0 <= k < |ids| ==> updateFails != Some(k) && !PlaceTaken(bookings, ids, k)
  }

  /** The coupon's use can be counted, or there is none to count. */
  predicate CouponCountable(coupons: map<string, CouponDoc>, coupon: Option<string>, saveOk: bool) {
    saveOk || coupon == None || coupon == Some("") || coupon.value !in coupons
  }

  lemma ConfirmableIff(bookings: Bookings, ids: seq<BookingId>, updateFails: Option<nat>)
    ensures StopsAt(bookings, ids, updateFails, 0).None? <==> AllConfirmable(bookings, ids, updateFails)
  {
    forall k | 0 <= k < |ids| ensures PlaceTaken(bookings, ids, k) <==> Blocked(bookings, ids, k) {
    }
  }

  lemma CompensatingSucceedsIff(db: Db, user: nat, ids: seq<BookingId>, groupId: nat, charge: AmountDue, groupFinal: nat,
                                coupon: Option<string>, faults: Faults)
    ensures PayCompensating(db, user, ids, groupId, charge, groupFinal, coupon, faults).1.Ok?
            <==> && charge.amount <= Wallet.Balance(db.wallets, user) && faults.debitLedgerOk
                 && AllConfirmable(db.bookings, ids, faults.updateFails) && faults.paymentInsertOk
                 && CouponCountable(db.coupons, coupon, faults.couponSaveOk)
  {
    ConfirmableIff(db.bookings, ids, faults.updateFails);
  }

  /**
   A group's payment succeeds exactly if the wallet holds what it is to pay and no call fails: from the wallet, its ledger
   row, every confirmation, the payment row and the coupon; in cash, every confirmation and the coupon; while the card is
   waited for, the payment row, the gateway and every tag.
   */
  lemma GroupPaymentSucceedsIff(db: Db, user: nat, ids: seq<BookingId>, groupId: nat, charge: AmountDue, groupFinal: nat,
                                paymentMethod: PaymentMethod, walletAmountToUse: Option<int>, coupon: Option<string>, faults: Faults,
                                part: int)
    requires IsWalletPart(part, Wallet.Balance(db.wallets, user), walletAmountToUse, charge.amount)
    ensures PayGroup(db, user, ids, groupId, charge, groupFinal, paymentMethod, walletAmountToUse, coupon, faults).1.Ok?
            <==> if paymentMethod == WalletMethod || (paymentMethod == Paymob && part == charge.amount) then
                   && charge.amount <= Wallet.Balance(db.wallets, user) && faults.debitLedgerOk
                   && AllConfirmable(db.bookings, ids, faults.updateFails) && faults.paymentInsertOk
                   && CouponCountable(db.coupons, coupon, faults.couponSaveOk)
                 else if paymentMethod == Cash then
                   AllConfirmable(db.bookings, ids, faults.updateFails) && CouponCountable(db.coupons, coupon, faults.couponSaveOk)
                 else faults.paymentInsertOk && faults.gatewayOk && (faults.updateFails == None || faults.updateFails.value >= |ids|)
  {
    PartIsWalletPart(part, Wallet.Balance(db.wallets, user), walletAmountToUse, charge.amount);
    ConfirmableIff(db.bookings, ids, faults.updateFails);
    CompensatingSucceedsIff(db, user, ids, groupId, charge, groupFinal, coupon, faults);
    CompensatingSucceedsIff(db.(wallets := Wallet.Upserted(db.wallets, user)), user, ids, groupId, charge, groupFinal, coupon, faults);
  }

  /** A wallet payment that fails after its debit has it credited back, and the payer is left without it if that fails too. */
  lemma FailedDebitReturned(db: Db, user: nat, ids: seq<BookingId>, groupId: nat, charge: AmountDue, groupFinal: nat,
                            coupon: Option<string>, faults: Faults)
    requires PayCompensating(db, user, ids, groupId, charge, groupFinal, coupon, faults).1.Err?
    requires 0 < charge.amount <= Wallet.Balance(db.wallets, user) && faults.debitLedgerOk
    ensures var after := PayCompensating(db, user, ids, groupId, charge, groupFinal, coupon, faults).0;
            && Wallet.Balance(after.wallets, user) == Wallet.Balance(db.wallets, user) - (if faults.refundLedgerOk then 0 else charge.amount)
            && (forall u: nat :: u != user ==> Wallet.Balance(after.wallets, u) == Wallet.Balance(db.wallets, u))
            && after.coupons == db.coupons
  {
  }

  // ----- the cron -----

  /** What one run of the cron makes of a row: a lapsed hold expires, and what is past its end nobody came for. */
  lemma CronAnswered(db: Db, i: BookingId)
    requires i in db.bookings
    ensures i in CronSwept(db).bookings
    ensures var b, after := db.bookings[i], CronSwept(db).bookings[i];
            var lapsed := b.claim.status == Pending && b.claim.expiresAt.Some? && b.claim.expiresAt.value <= db.now;
            var over := b.claim.day * 86_400_000 <= db.now && b.claim.day * 86_400_000 + b.claim.end * 3_600_000 <= db.now;
            after == b.(claim := b.claim.(status := if lapsed then Expired
                                                    else if over && (b.claim.status == Confirmed || b.claim.status == Pending) then NoShow
                                                    else b.claim.status))
  {
  }
}
