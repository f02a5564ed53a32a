/** The money of a group over its life: paid by wallet, settled later, cancelled member by member, or swept away. */
module BookingMoney {
  import opened Prelude
  import opened Money
  import opened BookingRequest
  import opened Slots
  import opened GroupPrice
  import opened Database
  import opened BookingOperations
  import opened BookingTheorems
  import Coupon
  import Wallet

  // ----- a group paid by wallet -----

  /** The group as createBooking inserts it, or as any later query of an untouched group finds it. */
  predicate FreshGroup(db: Db, user: nat, ids: seq<BookingId>) {
    && |ids| > 0
    && (forall k, l :: 0 <= k < l < |ids| ==> ids[k] != ids[l])
    && (forall k :: 0 <= k < |ids| ==> ids[k] in db.bookings)
    && (forall k :: 0 <= k < |ids| ==>
          var b := db.bookings[ids[k]]; b.claim.user == user && b.bill.paidAmount == 0)
  }

  /** What a successful wallet payment leaves: the debit, and every member confirmed with its share. */
  lemma WalletPaymentGives(db: Db, user: nat, ids: seq<BookingId>, groupId: nat, charge: AmountDue, groupFinal: nat,
                           coupon: Option<string>, faults: Faults)
    requires PayCompensating(db, user, ids, groupId, charge, groupFinal, coupon, faults).1.Ok?
    ensures var p := PayCompensating(db, user, ids, groupId, charge, groupFinal, coupon, faults).0;
            && Wallet.Balance(p.wallets, user) == Wallet.Balance(db.wallets, user) - charge.amount
            && (forall u: nat :: u != user ==> Wallet.Balance(p.wallets, u) == Wallet.Balance(db.wallets, u))
            && p.bookings == Updated(db.bookings, ids, b => WalletConfirmed(b, charge, groupFinal))
            && charge.amount <= Wallet.Balance(db.wallets, user)
  {
  }

  /** The member as a first wallet payment confirms it. */
  predicate PaidMember(b: Booking, user: nat, charge: AmountDue, groupFinal: nat) {
    var s := ConfirmedShare(b.bill.finalPrice, 0, charge.amount, groupFinal, charge.isDeposit);
    && b.claim.user == user && b.claim.status.Confirmed?
    && b.bill.paidAmount == s.paid && b.bill.remainingAmount == s.remaining && b.bill.paymentStatus == s.status
  }

  predicate PaidGroup(db: Db, user: nat, ids: seq<BookingId>, charge: AmountDue, groupFinal: nat) {
    && |ids| > 0
    && (forall k, l :: 0 <= k < l < |ids| ==> ids[k] != ids[l])
    && (forall k :: 0 <= k < |ids| ==> ids[k] in db.bookings)
    && (forall k :: 0 <= k < |ids| ==> PaidMember(db.bookings[ids[k]], user, charge, groupFinal))
  }

  lemma FirstPayment(db: Db, user: nat, ids: seq<BookingId>, groupId: nat, charge: AmountDue, groupFinal: nat,
                     coupon: Option<string>, faults: Faults)
    requires FreshGroup(db, user, ids)
    requires PayCompensating(db, user, ids, groupId, charge, groupFinal, coupon, faults).1.Ok?
    ensures var p := PayCompensating(db, user, ids, groupId, charge, groupFinal, coupon, faults).0;
            && PaidGroup(p, user, ids, charge, groupFinal)
            && GroupFinals(p.bookings, ids) == GroupFinals(db.bookings, ids)
  {
  }

  // ----- pay, then cancel everything -----

  /** Somebody tries to cancel a member of the group, some time later. */
  datatype Attempt = Attempt(k: nat, actor: nat, isStaff: bool, later: nat)

  function Tried(db: Db, ids: seq<BookingId>, t: Attempt): Db {
    if t.k >= |ids| then db
    else Cancelling(db.(now := db.now + t.later), ids[t.k], t.actor, t.isStaff, true).0
  }

  function TriedAll(db: Db, ids: seq<BookingId>, tries: seq<Attempt>): Db {
    if |tries| == 0 then db else Tried(TriedAll(db, ids, tries[..|tries| - 1]), ids, tries[|tries| - 1])
  }

  /** What the cancelled members have given back so far. */
  function Returned(paid: Bookings, now: Bookings, ids: seq<BookingId>): (s: seq<int>)
    requires forall k :: 0 <= k < |ids| ==> ids[k] in paid && ids[k] in now
    ensures |s| == |ids|
  {
    seq(|ids|, k requires 0 <= k < |ids| => if now[ids[k]].claim.status.Cancelled? then RefundFor(paid[ids[k]]) else 0)
  }

  predicate MidCancellation(paid: Db, db: Db, user: nat, ids: seq<BookingId>)
    requires forall k :: 0 <= k < |ids| ==> ids[k] in paid.bookings
  {
    && (forall k :: 0 <= k < |ids| ==> ids[k] in db.bookings)
    && (forall k :: 0 <= k < |ids| ==>
          db.bookings[ids[k]] == paid.bookings[ids[k]] || db.bookings[ids[k]] == CancelledRow(paid.bookings[ids[k]]))
    && Wallet.Balance(db.wallets, user)
       == Wallet.Balance(paid.wallets, user) + Sum(Returned(paid.bookings, db.bookings, ids))
  }

  lemma OneCancellation(paid: Db, db: Db, user: nat, ids: seq<BookingId>, k: nat)
    requires k < |ids| && forall i :: 0 <= i < |ids| ==> ids[i] in paid.bookings
    requires forall i, l :: 0 <= i < l < |ids| ==> ids[i] != ids[l]
    requires MidCancellation(paid, db, user, ids)
    requires db.bookings[ids[k]] == paid.bookings[ids[k]] && !paid.bookings[ids[k]].claim.status.Cancelled?
    ensures Sum(Returned(paid.bookings, db.bookings[ids[k] := CancelledRow(db.bookings[ids[k]])], ids))
            == Sum(Returned(paid.bookings, db.bookings, ids)) + RefundFor(paid.bookings[ids[k]])
  {
    var before := Returned(paid.bookings, db.bookings, ids);
    var after := Returned(paid.bookings, db.bookings[ids[k] := CancelledRow(db.bookings[ids[k]])], ids);
    assert after == before[k := RefundFor(paid.bookings[ids[k]])];
    SumUpdate(before, k, RefundFor(paid.bookings[ids[k]]));
  }

  lemma TriedKeeps(paid: Db, db: Db, user: nat, ids: seq<BookingId>, charge: AmountDue, groupFinal: nat, t: Attempt)
    requires PaidGroup(paid, user, ids, charge, groupFinal) && MidCancellation(paid, db, user, ids)
    ensures MidCancellation(paid, Tried(db, ids, t), user, ids)
  {
    if t.k < |ids| {
      var id := ids[t.k];
      var later := db.(now := db.now + t.later);
      if CancelError(db.bookings[id], t.actor, t.isStaff, later.now).None? {
        assert !db.bookings[id].claim.status.Cancelled?;
        assert PaidMember(paid.bookings[id], user, charge, groupFinal);
        OneCancellation(paid, db, user, ids, t.k);
      }
    }
  }

  lemma {:induction false} CancellationsAddUp(paid: Db, user: nat, ids: seq<BookingId>, charge: AmountDue, groupFinal: nat,
                                              tries: seq<Attempt>)
    requires PaidGroup(paid, user, ids, charge, groupFinal)
    ensures MidCancellation(paid, TriedAll(paid, ids, tries), user, ids)
  {
    if |tries| == 0 {
      forall k | 0 <= k < |ids| ensures !paid.bookings[ids[k]].claim.status.Cancelled? {
        assert PaidMember(paid.bookings[ids[k]], user, charge, groupFinal);
      }
      AllZero(Returned(paid.bookings, paid.bookings, ids));
    } else {
      var n := |tries| - 1;
      CancellationsAddUp(paid, user, ids, charge, groupFinal, tries[..n]);
      TriedKeeps(paid, TriedAll(paid, ids, tries[..n]), user, ids, charge, groupFinal, tries[n]);
    }
  }

  lemma {:induction false} AllZero(s: seq<int>)
    requires forall k :: 0 <= k < |s| ==> s[k] == 0
    ensures Sum(s) == 0
  {
    if |s| > 0 {
      AllZero(s[..|s| - 1]);
    }
  }

  /** The share of a positively priced member rounded to nothing: its cancellation returns the whole price. */
  predicate ShareLost(b: Booking) {
    b.bill.paidAmount == 0 && b.bill.finalPrice > 0
  }

  predicate AllCancelled(db: Db, ids: seq<BookingId>) {
    forall k :: 0 <= k < |ids| ==> ids[k] in db.bookings && db.bookings[ids[k]].claim.status.Cancelled?
  }

  function Paid0(bookings: Bookings, ids: seq<BookingId>): (s: seq<int>)
    requires forall k :: 0 <= k < |ids| ==> ids[k] in bookings
    ensures |s| == |ids|
  {
    seq(|ids|, k requires 0 <= k < |ids| => bookings[ids[k]].bill.paidAmount)
  }

  lemma MemberRefund(b: Booking, user: nat, charge: AmountDue, groupFinal: nat)
    requires PaidMember(b, user, charge, groupFinal) && 0 <= charge.amount <= groupFinal && groupFinal > 0
    requires (charge.isDeposit <==> charge.amount < groupFinal) && b.bill.finalPrice <= groupFinal
    ensures RefundFor(b) == if ShareLost(b) then b.bill.finalPrice else b.bill.paidAmount
    ensures 0 <= b.bill.paidAmount <= b.bill.finalPrice
    ensures !charge.isDeposit ==> b.bill.paidAmount == b.bill.finalPrice
  {
    ShareWithinWeight(b.bill.finalPrice, charge.amount, groupFinal);
  }

  /**
   Pay and cancel: once every member has been cancelled, in whatever order and with whatever refused and
   repeated attempts, each was refunded once. The wallet is back where it started exactly after a full
   payment, and to half a cent a member after a deposit, unless a member's share was lost to rounding.
   */
  lemma PayThenCancelAll(db: Db, user: nat, ids: seq<BookingId>, groupId: nat, charge: AmountDue, groupFinal: nat,
                         coupon: Option<string>, faults: Faults, tries: seq<Attempt>)
    requires FreshGroup(db, user, ids) && groupFinal == GroupTotalPrice(db.bookings, ids) > 0
    requires 0 <= charge.amount <= groupFinal && (charge.isDeposit <==> charge.amount < groupFinal)
    requires PayCompensating(db, user, ids, groupId, charge, groupFinal, coupon, faults).1.Ok?
    ensures var paid := PayCompensating(db, user, ids, groupId, charge, groupFinal, coupon, faults).0;
            var end := TriedAll(paid, ids, tries);
            var gained := Wallet.Balance(end.wallets, user) - Wallet.Balance(db.wallets, user);
            AllCancelled(end, ids) && (forall k :: 0 <= k < |ids| ==> !ShareLost(paid.bookings[ids[k]])) ==>
              if charge.isDeposit then -|ids| <= 2 * gained <= |ids| else gained == 0
  {
    var paid := PayCompensating(db, user, ids, groupId, charge, groupFinal, coupon, faults).0;
    var end := TriedAll(paid, ids, tries);
    FirstPayment(db, user, ids, groupId, charge, groupFinal, coupon, faults);
    WalletPaymentGives(db, user, ids, groupId, charge, groupFinal, coupon, faults);
    CancellationsAddUp(paid, user, ids, charge, groupFinal, tries);
    if AllCancelled(end, ids) && forall k :: 0 <= k < |ids| ==> !ShareLost(paid.bookings[ids[k]]) {
      var finals := GroupFinals(paid.bookings, ids);
      forall k | 0 <= k < |ids|
        ensures Returned(paid.bookings, end.bookings, ids)[k] == Paid0(paid.bookings, ids)[k]
        ensures Paid0(paid.bookings, ids)[k] == if charge.isDeposit then Paids(finals, charge.amount, groupFinal)[k] else finals[k]
      {
        SumMember(finals, k);
        MemberRefund(paid.bookings[ids[k]], user, charge, groupFinal);
      }
      assert Returned(paid.bookings, end.bookings, ids) == Paid0(paid.bookings, ids);
      if charge.isDeposit {
        assert Paid0(paid.bookings, ids) == Paids(finals, charge.amount, groupFinal);
        DepositDrift(finals, charge.amount);
      } else {
        assert Paid0(paid.bookings, ids) == finals;
      }
    }
  }

  function Lost(bookings: Bookings, ids: seq<BookingId>): (s: seq<int>)
    requires forall k :: 0 <= k < |ids| ==> ids[k] in bookings
    ensures |s| == |ids| && forall k :: 0 <= k < |s| ==> s[k] >= 0
  {
    seq(|ids|, k requires 0 <= k < |ids| => if ShareLost(bookings[ids[k]]) then bookings[ids[k]].bill.finalPrice else 0)
  }

  /** Cancelling every member gives back exactly what they were recorded to have paid iff no share was lost. */
  lemma RefundsMatchPayments(paid: Db, user: nat, ids: seq<BookingId>, charge: AmountDue, groupFinal: nat, tries: seq<Attempt>)
    requires PaidGroup(paid, user, ids, charge, groupFinal) && groupFinal > 0 && 0 <= charge.amount <= groupFinal
    requires (charge.isDeposit <==> charge.amount < groupFinal)
    requires forall k :: 0 <= k < |ids| ==> paid.bookings[ids[k]].bill.finalPrice <= groupFinal
    requires AllCancelled(TriedAll(paid, ids, tries), ids)
    ensures (Wallet.Balance(TriedAll(paid, ids, tries).wallets, user) - Wallet.Balance(paid.wallets, user)
             == Sum(Paid0(paid.bookings, ids)))
            <==> (forall k :: 0 <= k < |ids| ==> !ShareLost(paid.bookings[ids[k]]))
  {
    CancellationsAddUp(paid, user, ids, charge, groupFinal, tries);
    var returned := Returned(paid.bookings, TriedAll(paid, ids, tries).bookings, ids);
    var lost := Lost(paid.bookings, ids);
    forall k | 0 <= k < |ids| ensures lost[k] == returned[k] - Paid0(paid.bookings, ids)[k] {
      MemberRefund(paid.bookings[ids[k]], user, charge, groupFinal);
    }
    SumDifference(returned, Paid0(paid.bookings, ids), lost);
    if k :| 0 <= k < |ids| && ShareLost(paid.bookings[ids[k]]) {
      SumMember(lost, k);
    } else {
      AllZero(lost);
    }
  }

  // ----- the coupon of a cancelled group -----

  function CancelledFlags(now: Bookings, ids: seq<BookingId>): (s: seq<int>)
    requires forall k :: 0 <= k < |ids| ==> ids[k] in now
    ensures |s| == |ids| && forall k :: 0 <= k < |s| ==> 0 <= s[k] <= 1
  {
    seq(|ids|, k requires 0 <= k < |ids| => if now[ids[k]].claim.status.Cancelled? then 1 else 0)
  }

  /** Each member cancelled so far has given one use back, as far as there were any. */
  predicate CouponCounted(paid: Db, db: Db, ids: seq<BookingId>, code: string)
    requires code in paid.coupons && forall k :: 0 <= k < |ids| ==> ids[k] in db.bookings
  {
    && code in db.coupons
    && db.coupons[code].usesCount == Coupon.Max(0, paid.coupons[code].usesCount - Sum(CancelledFlags(db.bookings, ids)))
  }

  predicate AllUseCoupon(db: Db, ids: seq<BookingId>, code: string) {
    && |code| > 0 && code in db.coupons
    && forall k :: 0 <= k < |ids| ==> ids[k] in db.bookings && db.bookings[ids[k]].bill.couponCode == Some(code)
  }

  lemma CancellationGivesUseBack(paid: Db, db: Db, user: nat, ids: seq<BookingId>, code: string, t: Attempt)
    requires AllUseCoupon(paid, ids, code) && MidCancellation(paid, db, user, ids) && CouponCounted(paid, db, ids, code)
    requires forall i, l :: 0 <= i < l < |ids| ==> ids[i] != ids[l]
    requires forall k :: 0 <= k < |ids| ==> paid.bookings[ids[k]].claim.status.Confirmed?
    requires forall k :: 0 <= k < |ids| ==> ids[k] in Tried(db, ids, t).bookings
    ensures CouponCounted(paid, Tried(db, ids, t), ids, code)
  {
    if t.k < |ids| {
      var id := ids[t.k];
      var later := db.(now := db.now + t.later);
      if CancelError(db.bookings[id], t.actor, t.isStaff, later.now).None? {
        var flags := CancelledFlags(db.bookings, ids);
        assert CancelledFlags(Tried(db, ids, t).bookings, ids) == flags[t.k := 1];
        SumUpdate(flags, t.k, 1);
        SumNonNegative(flags);
      }
    }
  }

  lemma {:induction false} CouponAfterCancellations(paid: Db, user: nat, ids: seq<BookingId>, charge: AmountDue, groupFinal: nat,
                                                    code: string, tries: seq<Attempt>)
    requires PaidGroup(paid, user, ids, charge, groupFinal) && AllUseCoupon(paid, ids, code)
    requires paid.coupons[code].usesCount >= 0
    ensures MidCancellation(paid, TriedAll(paid, ids, tries), user, ids)
    ensures CouponCounted(paid, TriedAll(paid, ids, tries), ids, code)
  {
    CancellationsAddUp(paid, user, ids, charge, groupFinal, tries);
    forall k | 0 <= k < |ids| ensures paid.bookings[ids[k]].claim.status.Confirmed? {
      assert PaidMember(paid.bookings[ids[k]], user, charge, groupFinal);
    }
    if |tries| == 0 {
      AllZero(CancelledFlags(paid.bookings, ids));
    } else {
      var n := |tries| - 1;
      CouponAfterCancellations(paid, user, ids, charge, groupFinal, code, tries[..n]);
      CancellationGivesUseBack(paid, TriedAll(paid, ids, tries[..n]), user, ids, code, tries[n]);
    }
  }

  lemma {:induction false} AllOnes(s: seq<int>)
    requires forall k :: 0 <= k < |s| ==> s[k] == 1
    ensures Sum(s) == |s|
  {
    if |s| > 0 {
      AllOnes(s[..|s| - 1]);
    }
  }

  /**
   A group uses its coupon once when it is paid, and gives a use back with every member that is cancelled. So
   paying and then cancelling all of it leaves the coupon as it was exactly when the group has one member, or the
   coupon had no use to lose.
   */
  lemma CouponComesBackIff(db: Db, user: nat, ids: seq<BookingId>, groupId: nat, charge: AmountDue, groupFinal: nat, code: string,
                           faults: Faults, tries: seq<Attempt>)
    requires FreshGroup(db, user, ids) && AllUseCoupon(db, ids, code) && db.coupons[code].usesCount >= 0
    requires PayCompensating(db, user, ids, groupId, charge, groupFinal, Some(code), faults).1.Ok?
    ensures var end := TriedAll(PayCompensating(db, user, ids, groupId, charge, groupFinal, Some(code), faults).0, ids, tries);
            AllCancelled(end, ids) ==>
              code in end.coupons
              && (end.coupons[code].usesCount == db.coupons[code].usesCount <==> |ids| == 1 || db.coupons[code].usesCount == 0)
  {
    var paid := PayCompensating(db, user, ids, groupId, charge, groupFinal, Some(code), faults).0;
    var end := TriedAll(paid, ids, tries);
    FirstPayment(db, user, ids, groupId, charge, groupFinal, Some(code), faults);
    assert paid.coupons[code].usesCount == db.coupons[code].usesCount + 1;
    forall k | 0 <= k < |ids| ensures paid.bookings[ids[k]].bill.couponCode == Some(code) {
      assert ids[k] in ids;
    }
    CouponAfterCancellations(paid, user, ids, charge, groupFinal, code, tries);
    if AllCancelled(end, ids) {
      AllOnes(CancelledFlags(end.bookings, ids));
    }
  }

  // ----- a deposit, then the remainder -----

  predicate FullyPaid(bill: Bill) {
    bill.paidAmount == bill.finalPrice && bill.remainingAmount == 0 && bill.paymentStatus.Paid?
  }

  predicate AllFullyPaid(bookings: Bookings, found: seq<BookingId>) {
    forall k :: 0 <= k < |found| ==> found[k] in bookings && FullyPaid(bookings[found[k]].bill)
  }

  /** A group that has paid a deposit, one member of which still owes something. */
  predicate DepositPaid(paid: Db, user: nat, found: seq<BookingId>, charge: AmountDue, groupFinal: nat, j: nat) {
    && PaidGroup(paid, user, found, charge, groupFinal) && groupFinal == GroupTotalPrice(paid.bookings, found)
    && charge.isDeposit && 0 <= charge.amount < groupFinal
    && j < |found| && !paid.bookings[found[j]].bill.paymentStatus.Paid?
  }

  /** What is charged later is what the members still owe. */
  lemma RemainderCharged(paid: Db, user: nat, found: seq<BookingId>, charge: AmountDue, groupFinal: nat, j: nat,
                         minimumDeposit: nat, customAmount: Option<int>)
    requires DepositPaid(paid, user, found, charge, groupFinal, j)
    ensures var rest := Remainings(GroupFinals(paid.bookings, found), charge.amount, groupFinal);
            && GroupRemaining(paid.bookings, found) == rest && Sum(rest) > 0
            && PayCharge(paid.bookings, paid.bookings[found[j]], found, minimumDeposit, customAmount) == Ok(AmountDue(Sum(rest), false))
  {
    var finals := GroupFinals(paid.bookings, found);
    var rest := Remainings(finals, charge.amount, groupFinal);
    assert PaidMember(paid.bookings[found[j]], user, charge, groupFinal);
    assert RemainingOf(paid.bookings, found[j]) > 0;
    forall k | 0 <= k < |found| ensures GroupRemaining(paid.bookings, found)[k] == rest[k] {
      assert PaidMember(paid.bookings[found[k]], user, charge, groupFinal);
    }
    assert GroupRemaining(paid.bookings, found) == rest;
    DepositSplit(finals, charge.amount, groupFinal);
    SumMember(rest, j);
  }

  /** The remainder debited from the wallet: every member ends fully paid, the two charges are the price within n/2 cents. */
  lemma RemainderSettles(paid: Db, from: Db, user: nat, found: seq<BookingId>, charge: AmountDue, groupFinal: nat, j: nat,
                         groupId: nat, coupon: Option<string>, faults: Faults)
    requires DepositPaid(paid, user, found, charge, groupFinal, j)
    requires from.bookings == paid.bookings
    requires PayCompensating(from, user, found, groupId, AmountDue(Sum(GroupRemaining(paid.bookings, found)), false), groupFinal,
                             coupon, faults).1.Ok?
    ensures var after := PayCompensating(from, user, found, groupId, AmountDue(Sum(GroupRemaining(paid.bookings, found)), false),
                                         groupFinal, coupon, faults).0;
            var second := Wallet.Balance(from.wallets, user) - Wallet.Balance(after.wallets, user);
            && AllFullyPaid(after.bookings, found)
            && -|found| <= 2 * (charge.amount + second - groupFinal) <= |found|
  {
    var finals := GroupFinals(paid.bookings, found);
    var second := AmountDue(Sum(GroupRemaining(paid.bookings, found)), false);
    RemainderCharged(paid, user, found, charge, groupFinal, j, 0, None);
    WalletPaymentGives(from, user, found, groupId, second, groupFinal, coupon, faults);
    DepositThenRemainder(finals, charge.amount);
    forall k | 0 <= k < |found|
      ensures ConfirmedShare(finals[k], paid.bookings[found[k]].bill.paidAmount, second.amount, groupFinal, false)
              == Share(finals[k], 0, Paid)
    {
      DepositSplit(finals, charge.amount, groupFinal);
      assert PaidMember(paid.bookings[found[k]], user, charge, groupFinal);
    }
  }

  /** The wallet pays: because it was asked to, or because a card payment leaves nothing for the card. */
  predicate WalletPays(db: Db, user: nat, body: PayRequest, amount: int) {
    body.paymentMethod.WalletMethod? ||
    (body.paymentMethod.Paymob? && WalletPart(Wallet.Balance(db.wallets, user), body.walletAmountToUse, amount) >= amount)
  }

  /** A member as a payment in cash leaves it: what it had paid is forgotten, and so is the refund it was good for. */
  predicate Forgotten(before: Booking, after: Booking) {
    && after.bill.paidAmount == 0 && after.bill.remainingAmount == before.bill.finalPrice
    && after.bill.paymentStatus.PayAtVenue? && RefundFor(after) == 0
  }

  /**
   payBooking on a member that still owes after a deposit, by any method. It leaves every member fully paid if and
   only if the wallet pays, and the two charges are then the group's price to half a cent a member. Otherwise the
   card is waited for, and every member has paid and owes what it did; or cash was chosen, and the deposit is lost:
   every member is down for its whole price, and cancelling gives nothing back.
   */
  lemma LaterPaymentSettles(paid: Db, user: nat, found: seq<BookingId>, charge: AmountDue, groupFinal: nat, j: nat,
                            body: PayRequest, minimumDeposit: nat, faults: Faults)
    requires DepositPaid(paid, user, found, charge, groupFinal, j)
    requires Pay(paid, found[j], user, body, found, minimumDeposit, faults).1.Ok?
    ensures var after := Pay(paid, found[j], user, body, found, minimumDeposit, faults).0;
            var second := Wallet.Balance(paid.wallets, user) - Wallet.Balance(after.wallets, user);
            var settled := WalletPays(paid, user, body, Sum(GroupRemaining(paid.bookings, found)));
            && (AllFullyPaid(after.bookings, found) <==> settled)
            && (settled ==> -|found| <= 2 * (charge.amount + second - groupFinal) <= |found|)
            && (!settled ==> second == 0)
            && (body.paymentMethod.Cash? ==>
                  forall k :: 0 <= k < |found| ==> found[k] in after.bookings && Forgotten(paid.bookings[found[k]], after.bookings[found[k]]))
            && (body.paymentMethod.Paymob? && !settled ==> after.bookings == Updated(paid.bookings, found, PaymobTagged))
  {
    RemainderCharged(paid, user, found, charge, groupFinal, j, minimumDeposit, body.customAmount);
    var b, due := paid.bookings[found[j]], Sum(GroupRemaining(paid.bookings, found));
    match body.paymentMethod
    case WalletMethod =>
      RemainderSettles(paid, paid, user, found, charge, groupFinal, j, b.claim.groupId, PayCoupon(b, body), faults);
    case Cash =>
      CashForgets(paid, found, PayCoupon(b, body), faults);
      assert !FullyPaid(Pay(paid, found[j], user, body, found, minimumDeposit, faults).0.bookings[found[j]].bill);
    case Paymob =>
      if WalletPays(paid, user, body, due) {
        RemainderSettles(paid, paid.(wallets := Wallet.Upserted(paid.wallets, user)), user, found, charge, groupFinal, j,
                         b.claim.groupId, PayCoupon(b, body), faults);
      } else {
        CardWaits(paid, user, found, b.claim.groupId, AmountDue(due, false), groupFinal, body.walletAmountToUse, PayCoupon(b, body), faults);
        assert !FullyPaid(Updated(paid.bookings, found, PaymobTagged)[found[j]].bill);
      }
  }

  lemma CashForgets(db: Db, found: seq<BookingId>, coupon: Option<string>, faults: Faults)
    requires PayCash(db, found, coupon, faults).1.Ok? && forall k :: 0 <= k < |found| ==> found[k] in db.bookings
    ensures var after := PayCash(db, found, coupon, faults).0;
            && after.wallets == db.wallets
            && forall k :: 0 <= k < |found| ==> found[k] in after.bookings && Forgotten(db.bookings[found[k]], after.bookings[found[k]])
  {
    var after := PayCash(db, found, coupon, faults).0;
    forall k | 0 <= k < |found| ensures found[k] in after.bookings && Forgotten(db.bookings[found[k]], after.bookings[found[k]]) {
      assert found[k] in found;
    }
  }

  /** And it does go through: nothing but a refused confirmation or coupon stands in the way of choosing cash. */
  lemma CashAcceptedIff(paid: Db, user: nat, found: seq<BookingId>, charge: AmountDue, groupFinal: nat, j: nat,
                        body: PayRequest, minimumDeposit: nat, faults: Faults)
    requires DepositPaid(paid, user, found, charge, groupFinal, j) && body.paymentMethod.Cash?
    ensures Pay(paid, found[j], user, body, found, minimumDeposit, faults).1.Ok?
            <==> StopsAt(paid.bookings, found, faults.updateFails, 0).None?
                 && CouponSaved(paid.coupons, PayCoupon(paid.bookings[found[j]], body), faults.couponSaveOk)
  {
    RemainderCharged(paid, user, found, charge, groupFinal, j, minimumDeposit, body.customAmount);
    assert PaidMember(paid.bookings[found[j]], user, charge, groupFinal);
  }

  /** A payment that waits for the card: no money has moved, the row says what is expected of card and wallet. */
  lemma CardWaits(db: Db, user: nat, found: seq<BookingId>, groupId: nat, charge: AmountDue, groupFinal: nat,
                  walletAmountToUse: Option<int>, coupon: Option<string>, faults: Faults)
    requires WalletPart(Wallet.Balance(db.wallets, user), walletAmountToUse, charge.amount) < charge.amount
    requires PayPaymob(db, user, found, groupId, charge, groupFinal, walletAmountToUse, coupon, faults).1.Ok?
    ensures var after := PayPaymob(db, user, found, groupId, charge, groupFinal, walletAmountToUse, coupon, faults).0;
            var part := WalletPart(Wallet.Balance(db.wallets, user), walletAmountToUse, charge.amount);
            && after.bookings == Updated(db.bookings, found, PaymobTagged)
            && after.payments == db.payments[db.nextTransaction := Payment(groupId, user, charge.amount, part, Paymob, Unpaid, None, 0)]
            && (forall u: nat :: Wallet.Balance(after.wallets, u) == Wallet.Balance(db.wallets, u))
  {
  }

  // ----- suspension -----

  /** The sweep's loop over the rows its query found; refundOk says whether each refund's ledger write works. */
  function SuspendAll(db: Db, found: seq<BookingId>, refundOk: seq<bool>): (Db, nat)
    requires |refundOk| == |found|
  {
    if |found| == 0 then (db, 0)
    else
      var n := |found| - 1;
      var (before, total) := SuspendAll(db, found[..n], refundOk[..n]);
      if found[n] !in before.bookings then (before, total)
      else
        var (after, refunded) := SuspendOne(before, found[n], refundOk[n]);
        (after, total + refunded)
  }

  /** The sweep when the k-th row's update fails: that row's refund has been made already. */
  function SuspendCutShort(db: Db, found: seq<BookingId>, refundOk: seq<bool>, k: nat): Db
    requires |refundOk| == |found| && k < |found|
  {
    var before := SuspendAll(db, found[..k], refundOk[..k]).0;
    if found[k] !in before.bookings then before else before.(wallets := SuspendOne(before, found[k], refundOk[k]).0.wallets)
  }

  function SuspendedRows(db: Db, found: seq<BookingId>): Bookings {
    map i | i in db.bookings :: if i in found then SuspendedRow(db.bookings[i], db.now) else db.bookings[i]
  }

  function SuspensionRefunds(db: Db, found: seq<BookingId>, refundOk: seq<bool>): (s: seq<int>)
    requires |refundOk| == |found| && forall k :: 0 <= k < |found| ==> found[k] in db.bookings
    ensures |s| == |found| && forall k :: 0 <= k < |s| ==> s[k] >= 0
  {
    seq(|found|, k requires 0 <= k < |found| => if refundOk[k] then RefundOnSuspension(db.bookings[found[k]], db.now) else 0)
  }

  predicate Upcomings(db: Db, user: nat, found: seq<BookingId>) {
    && (forall k, l :: 0 <= k < l < |found| ==> found[k] != found[l])
    && (forall k :: 0 <= k < |found| ==> found[k] in db.bookings && db.bookings[found[k]].claim.user == user)
  }

  lemma SuspendOneMore(db: Db, user: nat, found: seq<BookingId>, n: nat, before: Db, refundOk: bool)
    requires n < |found| && Upcomings(db, user, found)
    requires before.bookings == SuspendedRows(db, found[..n]) && before.now == db.now
    ensures found[n] in before.bookings
    ensures var (after, refunded) := SuspendOne(before, found[n], refundOk);
            && after.bookings == SuspendedRows(db, found[..n + 1]) && after.now == db.now && after.nextId == before.nextId
            && refunded == (if refundOk then RefundOnSuspension(db.bookings[found[n]], db.now) else 0)
            && Wallet.Balance(after.wallets, user) == Wallet.Balance(before.wallets, user) + refunded
  {
  }

  lemma OneMoreRefund(db: Db, found: seq<BookingId>, refundOk: seq<bool>)
    requires |refundOk| == |found| > 0 && forall k :: 0 <= k < |found| ==> found[k] in db.bookings
    ensures var n := |found| - 1;
            Sum(SuspensionRefunds(db, found, refundOk))
            == Sum(SuspensionRefunds(db, found[..n], refundOk[..n]))
               + if refundOk[n] then RefundOnSuspension(db.bookings[found[n]], db.now) else 0
  {
    var n := |found| - 1;
    assert SuspensionRefunds(db, found, refundOk)[..n] == SuspensionRefunds(db, found[..n], refundOk[..n]);
  }

  /** The sweep in closed form: every row found is cancelled, the wallet rises by exactly the reported total. */
  lemma {:induction false} SuspendAllGives(db: Db, user: nat, found: seq<BookingId>, refundOk: seq<bool>)
    requires |refundOk| == |found| && Upcomings(db, user, found)
    ensures var (after, total) := SuspendAll(db, found, refundOk);
            && after.bookings == SuspendedRows(db, found) && after.now == db.now && after.nextId == db.nextId
            && total == Sum(SuspensionRefunds(db, found, refundOk))
            && Wallet.Balance(after.wallets, user) == Wallet.Balance(db.wallets, user) + total
  {
    if |found| == 0 {
      assert SuspendedRows(db, found) == db.bookings;
    } else {
      var n := |found| - 1;
      SuspendAllGives(db, user, found[..n], refundOk[..n]);
      var before := SuspendAll(db, found[..n], refundOk[..n]).0;
      SuspendOneMore(db, user, found, n, before, refundOk[n]);
      assert found[..n + 1] == found;
      OneMoreRefund(db, found, refundOk);
    }
  }

  /** Ten thousandths of a cent owed to a booking under the tiered policy, before rounding. */
  function ExactRefund(b: Booking, now: int): int {
    var paid := ActualPaid(b.bill.paymentStatus, b.bill.paidAmount, b.bill.finalPrice);
    if WasPaid(b.bill.paymentStatus) && paid > 0
    then paid * RefundPercentage(SlotTime(b.claim.day, b.claim.start) - now) else 0
  }

  function ExactRefunds(db: Db, found: seq<BookingId>): (s: seq<int>)
    requires forall k :: 0 <= k < |found| ==> found[k] in db.bookings
    ensures |s| == |found|
  {
    seq(|found|, k requires 0 <= k < |found| => ExactRefund(db.bookings[found[k]], db.now))
  }

  function PaidCount(db: Db, found: seq<BookingId>): nat
    requires forall k :: 0 <= k < |found| ==> found[k] in db.bookings
  {
    if |found| == 0 then 0
    else PaidCount(db, found[..|found| - 1])
         + if WasPaid(db.bookings[found[|found| - 1]].bill.paymentStatus) then 1 else 0
  }

  /** Rounding to whole EGP moves each paid booking's refund by at most half an EGP. */
  lemma {:induction false} RefundDrift(db: Db, found: seq<BookingId>, refundOk: seq<bool>)
    requires |refundOk| == |found| && forall k :: 0 <= k < |found| ==> found[k] in db.bookings && refundOk[k]
    ensures -5000 * PaidCount(db, found)
            <= 100 * Sum(SuspensionRefunds(db, found, refundOk)) - Sum(ExactRefunds(db, found))
            <= 5000 * PaidCount(db, found)
  {
    if |found| > 0 {
      var n := |found| - 1;
      RefundDrift(db, found[..n], refundOk[..n]);
      assert SuspensionRefunds(db, found, refundOk)[..n] == SuspensionRefunds(db, found[..n], refundOk[..n]);
      assert ExactRefunds(db, found)[..n] == ExactRefunds(db, found[..n]);
    }
  }

  /** What the sweep credits for a row: by the tiers, if anything was paid for it and the wallet takes it. */
  predicate RowRefund(b: Booking, now: int, refundOk: bool, refund: int) {
    var paid := if b.bill.paidAmount > 0 then b.bill.paidAmount else b.bill.finalPrice;
    if refundOk && (b.bill.paymentStatus.Paid? || b.bill.paymentStatus.PartiallyPaid?) && paid > 0
    then TierRefund(paid, b.claim.day * 86_400_000 + b.claim.start * 3_600_000 - now, refund)
    else refund == 0
  }

  /** The total is made of such refunds, row by row. */
  ghost predicate PaysTiers(db: Db, found: seq<BookingId>, refundOk: seq<bool>, total: int)
    requires |refundOk| == |found| && forall k :: 0 <= k < |found| ==> found[k] in db.bookings
  {
    exists refunds: seq<int> ::
      |refunds| == |found| && total == Sum(refunds)
      && forall k :: 0 <= k < |found| ==> RowRefund(db.bookings[found[k]], db.now, refundOk[k], refunds[k])
  }

  lemma SweepPaysTiers(db: Db, found: seq<BookingId>, refundOk: seq<bool>)
    requires |refundOk| == |found| && forall k :: 0 <= k < |found| ==> found[k] in db.bookings
    ensures PaysTiers(db, found, refundOk, Sum(SuspensionRefunds(db, found, refundOk)))
  {
    var refunds := SuspensionRefunds(db, found, refundOk);
    forall k | 0 <= k < |found| ensures RowRefund(db.bookings[found[k]], db.now, refundOk[k], refunds[k]) {
      RowPaysTier(db.bookings[found[k]], db.now, refundOk[k]);
    }
  }

  lemma RowPaysTier(b: Booking, now: int, refundOk: bool)
    ensures RowRefund(b, now, refundOk, if refundOk then RefundOnSuspension(b, now) else 0)
  {
    var paid := ActualPaid(b.bill.paymentStatus, b.bill.paidAmount, b.bill.finalPrice);
    if paid > 0 {
      SuspensionTiers(paid, SlotTime(b.claim.day, b.claim.start) - now);
    }
  }

  /** A row the sweep takes, and what it makes of it. */
  predicate SweptRow(before: Booking, after: Booking, user: nat, now: int) {
    var paid := if before.bill.paidAmount > 0 then before.bill.paidAmount else before.bill.finalPrice;
    var ms := before.claim.day * 86_400_000 + before.claim.start * 3_600_000 - now;
    && before.claim.user == user && (before.claim.status.Confirmed? || before.claim.status.Pending?)
    && after.claim == before.claim.(status := Cancelled)
    && after.bill == before.bill.(paidAmount := 0, remainingAmount := 0, paymentStatus := after.bill.paymentStatus)
    && match before.bill.paymentStatus
       case Unpaid => after.bill.paymentStatus.Unpaid?
       case Refunded => after.bill.paymentStatus.Unpaid?
       case PayAtVenue => after.bill.paymentStatus.Unpaid?
       case _ =>
         after.bill.paymentStatus
         == if (ms >= 86_400_000 && paid >= 50) || (10_800_000 <= ms < 86_400_000 && paid >= 100) then Refunded else Paid
  }

  lemma SuspendedRowSwept(b: Booking, user: nat, now: int)
    requires b.claim.user == user && (b.claim.status.Confirmed? || b.claim.status.Pending?)
    ensures SweptRow(b, SuspendedRow(b, now), user, now)
  {
    var paid := ActualPaid(b.bill.paymentStatus, b.bill.paidAmount, b.bill.finalPrice);
    if paid > 0 {
      SuspensionTiers(paid, SlotTime(b.claim.day, b.claim.start) - now);
    }
  }

  lemma SweepRows(db: Db, user: nat, found: seq<BookingId>, refundOk: seq<bool>)
    requires |refundOk| == |found| && Upcomings(db, user, found) && Listing(found, SuspensionRows(db, user))
    ensures var after := SuspendAll(db, found, refundOk).0.bookings;
            && after.Keys == db.bookings.Keys
            && forall i :: i in db.bookings ==>
                 if i in SuspensionRows(db, user) then SweptRow(db.bookings[i], after[i], user, db.now) else after[i] == db.bookings[i]
  {
    SuspendAllGives(db, user, found, refundOk);
    forall i | i in db.bookings
      ensures i in found <==> i in SuspensionRows(db, user)
      ensures i in found ==> SweptRow(db.bookings[i], SuspendedRow(db.bookings[i], db.now), user, db.now)
    {
      if i in found {
        SuspendedRowSwept(db.bookings[i], user, db.now);
      }
    }
  }

  /** Whom the sweep finds, with the clock at some hour of some day: later days, and today what has not ended by that hour. */
  lemma SweepFinds(db: Db, user: nat, i: BookingId, day: int, hour: int, ms: int)
    requires i in db.bookings && 0 <= hour < 24 && 0 <= ms < 3_600_000 && db.now == day * 86_400_000 + hour * 3_600_000 + ms
    ensures var c := db.bookings[i].claim;
            i in SuspensionRows(db, user)
            <==> c.user == user && (c.status.Confirmed? || c.status.Pending?) && (c.day > day || (c.day == day && c.end > hour))
  {
    ClockHand(day, hour, ms);
  }

  lemma ClockHand(day: int, hour: int, ms: int)
    requires 0 <= hour < 24 && 0 <= ms < 3_600_000
    ensures var now := day * 86_400_000 + hour * 3_600_000 + ms;
            now / (24 * HOUR) == day && (now % (24 * HOUR)) / HOUR == hour
  {
    var now, rest := day * 86_400_000 + hour * 3_600_000 + ms, hour * 3_600_000 + ms;
    assert 0 <= rest < 86_400_000;
  }

  /**
   The suspension sweep: no upcoming confirmed or pending booking of the user is left, as many are reported as
   there were, the wallet rises by exactly the reported total whatever refunds fail, which is made of one refund a
   paid row by the tiers, and when none fails is the tiered sum to within half an EGP a paid booking.
   */
  lemma SuspensionSweepLeavesNothing(db: Db, user: nat, found: seq<BookingId>, refundOk: seq<bool>)
    requires |refundOk| == |found| && Upcomings(db, user, found) && Listing(found, SuspensionRows(db, user))
    ensures var (after, total) := SuspendAll(db, found, refundOk);
            && SuspensionRows(after, user) == {}
            && |found| == |SuspensionRows(db, user)|
            && Wallet.Balance(after.wallets, user) == Wallet.Balance(db.wallets, user) + total
            && SlotState(after) == Next(SlotState(db), SuspensionSweep(user))
            && PaysTiers(db, found, refundOk, total)
            && ((forall k :: 0 <= k < |found| ==> refundOk[k]) ==>
                  -5000 * PaidCount(db, found) <= 100 * total - Sum(ExactRefunds(db, found)) <= 5000 * PaidCount(db, found))
  {
    SuspendAllGives(db, user, found, refundOk);
    var after := SuspendAll(db, found, refundOk).0;
    assert Claims(after.bookings) == Next(SlotState(db), SuspensionSweep(user)).table;
    ListingSize(found, SuspensionRows(db, user));
    SweepPaysTiers(db, found, refundOk);
    if forall k :: 0 <= k < |found| ==> refundOk[k] {
      RefundDrift(db, found, refundOk);
    }
  }

  lemma {:induction false} ListingSize(found: seq<BookingId>, ids: set<BookingId>)
    requires Listing(found, ids)
    ensures |found| == |ids|
  {
    if |found| == 0 {
      assert forall i :: i in ids <==> i in found;
    } else {
      var n := |found| - 1;
      assert found[n] in found;
      forall i ensures i in found[..n] <==> i in ids - {found[n]} {
        assert i in found <==> i in ids;
        assert i in found <==> i in found[..n] || i == found[n];
      }
      ListingSize(found[..n], ids - {found[n]});
    }
  }

  // ----- a request that succeeds -----

  /** The k-th row of a request paid by wallet: its slot, confirmed for good, its price, and its share. */
  predicate BookedAndPaid(b: Booking, user: nat, body: CreateBookingDto, q: Quote, groupId: nat, k: nat)
    requires QuoteFits(q, body) && k < |q.prices|
  {
    && b.claim == Claim(user, body.venueId, body.day, RawSlots(body)[k].start, RawSlots(body)[k].end, groupId, Confirmed, None)
    && b.bill.totalPrice == q.prices[k] && b.bill.finalPrice == q.finals[k] && b.bill.discountAmount == q.discounts[k]
    && PaidMember(b, user, q.charge, q.groupFinal)
  }

  /** Where a row of the database after a successful wallet request comes from, and where one before it has gone. */
  predicate RowAccountedFor(db: Db, user: nat, body: CreateBookingDto, q: Quote, after: Bookings, i: BookingId)
    requires QuoteFits(q, body)
  {
    if db.nextId <= i < db.nextId + |q.prices| then
      i in after && BookedAndPaid(after[i], user, body, q, db.nextGroup, i - db.nextId)
    else if i in after then i in db.bookings && after[i] == db.bookings[i]
    else i in db.bookings ==> ReplacedHold(db.bookings[i], user, body, db.now)
  }

  lemma SuccessfulRow(db: Db, prepared: Db, user: nat, body: CreateBookingDto, key: Option<string>, q: Quote, after: Bookings,
                      i: BookingId)
    requires IdsUsed(db) && QuoteFits(q, body) && prepared.nextId == db.nextId && prepared.nextGroup == db.nextGroup
    requires prepared.bookings == Cleared(db.bookings, user, body.venueId, body.day, RawSlots(body), db.now)
    requires after == Updated(WithRows(prepared, user, body, key, q).bookings, FreshIds(db.nextId, |RawSlots(body)|),
                              b => WalletConfirmed(b, q.charge, q.groupFinal))
    ensures RowAccountedFor(db, user, body, q, after, i)
  {
    WithRowsAt(prepared, user, body, key, q, i);
  }

  /**
   A request paid by wallet that succeeds debits the quoted charge once, from the requester alone, adds one
   confirmed row for each slot under a new group, and leaves every other booking as the overlap stage left it.
   */
  lemma SuccessfulWalletRequest(db: Db, user: nat, body: CreateBookingDto, key: Option<string>, env: Env)
    requires IdsUsed(db) && body.paymentMethod.WalletMethod? && Create(db, user, body, key, env).1.Ok?
    ensures env.venue.Some? && QuoteFor(env.venue.value, db.coupons, body, db.now).Ok?
    ensures var q := QuoteFor(env.venue.value, db.coupons, body, db.now).value;
            var (after, r) := Create(db, user, body, key, env);
            && QuoteFits(q, body) && r == Ok(db.nextGroup)
            && Wallet.Balance(after.wallets, user) == Wallet.Balance(db.wallets, user) - q.charge.amount >= 0
            && (forall u: nat :: u != user ==> Wallet.Balance(after.wallets, u) == Wallet.Balance(db.wallets, u))
            && forall i: BookingId :: RowAccountedFor(db, user, body, q, after.bookings, i)
  {
    CreateSucceeds(db, user, body, key, env);
    var q, prepared := QuoteFor(env.venue.value, db.coupons, body, db.now).value, Prepared(db, user, body);
    var rows := WithRows(prepared, user, body, key, q);
    PayNewByWallet(rows, FreshIds(db.nextId, |RawSlots(body)|), db.nextGroup, user, body, q, env.faults);
    var after := Create(db, user, body, key, env).0;
    forall i: BookingId ensures RowAccountedFor(db, user, body, q, after.bookings, i) {
      SuccessfulRow(db, prepared, user, body, key, q, after.bookings, i);
    }
  }

  lemma PayNewByWallet(db: Db, ids: seq<BookingId>, groupId: nat, user: nat, body: CreateBookingDto, q: Quote, faults: Faults)
    requires body.paymentMethod.WalletMethod? && PayNew(db, ids, groupId, user, body, q, faults).1.Ok?
    ensures var p := PayNew(db, ids, groupId, user, body, q, faults).0;
            && p.bookings == Updated(db.bookings, ids, b => WalletConfirmed(b, q.charge, q.groupFinal))
            && Wallet.Balance(p.wallets, user) == Wallet.Balance(db.wallets, user) - q.charge.amount >= 0
            && (forall u: nat :: u != user ==> Wallet.Balance(p.wallets, u) == Wallet.Balance(db.wallets, u))
  {
  }
}
