/** A card payment whose group has been replaced by a later request of the same customer: nothing is left to settle it with. */
module LostPayment {
  import opened Prelude
  import opened BookingRequest
  import opened Slots
  import opened GroupPrice
  import opened Database
  import opened BookingOperations
  import opened BookingTheorems
  import opened Idempotency
  import opened KeyLoss
  import opened Payments
  import opened PaymentTheorems
  import Wallet

  lemma NewRowOfNewGroup(db: Db, user: nat, body: CreateBookingDto, key: Option<string>, env: Env, i: BookingId)
    requires IdsUsed(db) && i in Create(db, user, body, key, env).0.bookings && i !in db.bookings
    ensures Create(db, user, body, key, env).0.bookings[i].claim.groupId == db.nextGroup
  {
    if Create(db, user, body, key, env).1.Ok? {
      CreatedRows(db, user, body, key, env);
      assert Identified(db, user, key, body, Create(db, user, body, key, env).0.bookings, i);
    } else if GetsThrough(db, user, body, env) {
      CreateFailsCleared(db, user, body, key, env);
    }
  }

  /** Every booking of the group is a hold of this user that the request is for some hour of. */
  predicate AllReplaced(db: Db, user: nat, body: CreateBookingDto, groupId: nat) {
    forall i :: i in Group(db.bookings, groupId) ==> ReplacedHold(db.bookings[i], user, body, db.now)
  }

  /** What a request does to a row that was there before. */
  lemma OldRow(db: Db, user: nat, body: CreateBookingDto, key: Option<string>, env: Env, i: BookingId)
    requires IdsUsed(db) && i in db.bookings
    ensures var after := Create(db, user, body, key, env).0.bookings;
            && (i in after <==> !(GetsThrough(db, user, body, env) && ReplacedHold(db.bookings[i], user, body, db.now)))
            && (i in after ==> after[i].claim.groupId == db.bookings[i].claim.groupId)
  {
    if GetsThrough(db, user, body, env) {
      RowAfterRequest(db, user, body, key, env, i);
    }
  }

  /** A request leaves nothing of an earlier group exactly if it gets past the overlap stage and replaces every booking of it. */
  lemma GroupGoneIff(db: Db, user: nat, body: CreateBookingDto, key: Option<string>, env: Env, groupId: nat)
    requires IdsUsed(db) && groupId != db.nextGroup && Group(db.bookings, groupId) != {}
    ensures Group(Create(db, user, body, key, env).0.bookings, groupId) == {}
            <==> GetsThrough(db, user, body, env) && AllReplaced(db, user, body, groupId)
  {
    var after, through := Create(db, user, body, key, env).0.bookings, GetsThrough(db, user, body, env);
    forall i | i in after && i !in db.bookings ensures after[i].claim.groupId != groupId {
      NewRowOfNewGroup(db, user, body, key, env, i);
    }
    forall i | i in db.bookings
      ensures i in after <==> !(through && ReplacedHold(db.bookings[i], user, body, db.now))
      ensures i in after ==> after[i].claim.groupId == db.bookings[i].claim.groupId
    {
      OldRow(db, user, body, key, env, i);
    }
    GroupGone(db, after, user, body, through, groupId);
  }

  lemma GroupGone(db: Db, after: Bookings, user: nat, body: CreateBookingDto, through: bool, groupId: nat)
    requires Group(db.bookings, groupId) != {}
    requires forall i :: i in after && i !in db.bookings ==> after[i].claim.groupId != groupId
    requires forall i :: i in db.bookings ==>
               && (i in after <==> !(through && ReplacedHold(db.bookings[i], user, body, db.now)))
               && (i in after ==> after[i].claim.groupId == db.bookings[i].claim.groupId)
    ensures Group(after, groupId) == {} <==> through && AllReplaced(db, user, body, groupId)
  {
    if Group(after, groupId) == {} {
      forall i | i in Group(db.bookings, groupId) ensures through && ReplacedHold(db.bookings[i], user, body, db.now) {
        assert i !in Group(after, groupId);
      }
    }
  }

  predicate KeepsPayment(db: Db, after: Db, t: TransactionId) {
    t in db.payments && t < db.nextTransaction ==> t in after.payments && after.payments[t] == db.payments[t]
  }

  lemma PayGroupKeepsPayment(db: Db, user: nat, ids: seq<BookingId>, groupId: nat, charge: AmountDue, groupFinal: nat,
                             paymentMethod: PaymentMethod, walletAmountToUse: Option<int>, coupon: Option<string>, faults: Faults,
                             t: TransactionId)
    ensures KeepsPayment(db, PayGroup(db, user, ids, groupId, charge, groupFinal, paymentMethod, walletAmountToUse, coupon, faults).0, t)
  {
  }

  lemma InsertAndPayKeepsPayment(db: Db, user: nat, body: CreateBookingDto, key: Option<string>, q: Quote, faults: Faults, t: TransactionId)
    requires QuoteFits(q, body)
    ensures KeepsPayment(db, InsertAndPay(db, user, body, key, q, faults).0, t)
  {
    PayGroupKeepsPayment(WithRows(db, user, body, key, q), user, FreshIds(db.nextId, |RawSlots(body)|), db.nextGroup, q.charge,
                         q.groupFinal, body.paymentMethod, body.walletAmountToUse, NormalizedCoupon(body.couponCode), faults, t);
  }

  lemma RequestKeepsPayments(db: Db, user: nat, body: CreateBookingDto, key: Option<string>, env: Env, t: TransactionId)
    ensures KeepsPayment(db, Create(db, user, body, key, env).0, t)
  {
    if GetsThrough(db, user, body, env) {
      var quote := QuoteFor(env.venue.value, db.coupons, body, db.now);
      if quote.Ok? {
        InsertAndPayKeepsPayment(Prepared(db, user, body), user, body, key, quote.value, env.faults, t);
      }
    }
  }

  /**
   After the request no success callback settles the group's unpaid payment, whatever it brings: the money is neither
   credited nor is anything booked for it. That is so exactly if the request has replaced the whole group, or the card
   transaction is one that another payment was paid with.
   */
  lemma PaymentLostIff(db: Db, user: nat, body: CreateBookingDto, key: Option<string>, env: Env, cb: Callback,
                       found: seq<BookingId>, faults: CallbackFaults)
    requires IdsUsed(db) && cb.reference in db.payments && cb.reference < db.nextTransaction
    requires db.payments[cb.reference].status.Unpaid? && cb.success && !cb.pending
    requires var g := db.payments[cb.reference].groupId; g != db.nextGroup && Group(db.bookings, g) != {}
    requires Listing(found, Group(Create(db, user, body, key, env).0.bookings, db.payments[cb.reference].groupId))
    ensures var after := Create(db, user, body, key, env).0;
            Webhook(after, cb, found, faults).0 == after
            <==> || (GetsThrough(db, user, body, env) && AllReplaced(db, user, body, db.payments[cb.reference].groupId))
                 || UsedElsewhere(after.payments, cb.reference, cb.paymobId)
  {
    RequestKeepsPayments(db, user, body, key, env, cb.reference);
    GroupGoneIff(db, user, body, key, env, db.payments[cb.reference].groupId);
    SuccessSettlesIff(Create(db, user, body, key, env).0, cb, found, faults);
  }

  const START := Db(0, map[], map[], map[], Wallet.State(map[], []), 0, 0, 0)

  /**
   It takes two requests for one hour, before the first is paid: the callback for the first is answered that there is no
   booking, and changes nothing, with its payment still unpaid.
   */
  lemma SecondThoughtsLosePayment(faults: CallbackFaults)
    ensures var one := Create(START, USER, HOUR_BY_CARD, None, SMOOTH).0;
            var two := Create(one, USER, HOUR_BY_CARD, None, SMOOTH).0;
            && 0 in two.payments && two.payments[0] == Payment(0, USER, 10000, 0, Paymob, Unpaid, None, 0)
            && Group(one.bookings, 0) != {} && Group(two.bookings, 0) == {}
            && Webhook(two, Callback(0, true, false, 10000, Some(1)), [], faults) == (two, NoBooking)
  {
    RequestSucceeds(START, None);
    var one := Create(START, USER, HOUR_BY_CARD, None, SMOOTH).0;
    SlotsFine();
    CreatedRows(START, USER, HOUR_BY_CARD, None, SMOOTH);
    assert Identified(START, USER, None, HOUR_BY_CARD, one.bookings, 0);
    assert 0 in Group(one.bookings, 0);
    RequestSucceeds(one, None);
    RequestGetsThrough(one);
    GroupGoneIff(one, USER, HOUR_BY_CARD, None, SMOOTH, 0);
  }
}
