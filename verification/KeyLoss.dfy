/** How one idempotency key creates two groups: its row is replaced, or its lock is taken after somebody else's was freed. */
module KeyLoss {
  import opened Prelude
  import opened Money
  import opened BookingRequest
  import opened Slots
  import opened Pricing
  import opened GroupPrice
  import opened Database
  import opened BookingOperations
  import opened BookingTheorems
  import opened Idempotency
  import Wallet

  const USER := 7
  const VENUE := Venue([], [], 10000, 0, 24, 0, true)
  const HOUR_BY_CARD := CreateBookingDto(1, 1, [Slot(18, 19)], None, None, None, None, None, Paymob)
  const SMOOTH := Env(ActiveCustomer, Some(VENUE), true, Faults(None, true, None, true, true, true, true))

  /** Nothing is booked but the user's own holds on that hour, which the request replaces. */
  predicate Ready(db: Db) {
    && IdsUsed(db) && db.now == 0 && Wallet.Balance(db.wallets, USER) == 0
    && forall i :: i in db.bookings ==> ReplacedHold(db.bookings[i], USER, HOUR_BY_CARD, 0)
  }

  lemma SlotsFine()
    ensures RawSlots(HOUR_BY_CARD) == [Slot(18, 19)] && SlotErrorOf(RawSlots(HOUR_BY_CARD)).None?
  {
    assert SlotsValid([Slot(18, 19)]);
    SlotErrorMeaning([Slot(18, 19)]);
  }

  lemma RequestGetsThrough(db: Db)
    requires Ready(db)
    ensures GetsThrough(db, USER, HOUR_BY_CARD, SMOOTH)
  {
    SlotsFine();
    assert SlotTime(1, 18) > 0;
  }

  lemma HourPriced()
    ensures SlotPrices(VENUE, 1, [Slot(18, 19)]) == [10000]
  {
    assert HourPrice(VENUE, 1, 18) == 10000;
    assert HoursPrice(VENUE, 1, 18, 18) == 0;
    assert HoursPrice(VENUE, 1, 18, 19) == 10000;
  }

  lemma NothingOff(p: int)
    requires p >= 0
    ensures Sum([p]) == p && SlotDiscounts([p], p, 0) == [0] && SlotFinals([p], [0]) == [p]
  {
    SumSnoc([], p);
    assert [] + [p] == [p];
  }

  lemma RequestQuoted(coupons: map<string, CouponDoc>)
    ensures QuoteFor(VENUE, coupons, HOUR_BY_CARD, 0)
            == Ok(Quote([10000], [0], [10000], 10000, AmountDue(10000, false)))
  {
    SlotsFine();
    HourPriced();
    NothingOff(10000);
    assert Truthy(NormalizedCoupon(None)).None?;
    assert ChargeNow(1, 0, 10000, None) == Ok(AmountDue(10000, false));
  }

  /** A payment of the whole hour by card has been added for the group. */
  predicate AwaitsCard(db: Db, after: Db, groupId: nat) {
    && after.payments == db.payments[db.nextTransaction := Payment(groupId, USER, 10000, 0, Paymob, Unpaid, None, 0)]
    && after.nextTransaction == db.nextTransaction + 1
  }

  /** With nothing left in the way the row is inserted and waits for the card. */
  lemma RequestPays(db: Db, ids: seq<BookingId>, groupId: nat, q: Quote)
    requires Wallet.Balance(db.wallets, USER) == 0 && q.charge == AmountDue(10000, false)
    ensures var (after, r) := PayNew(db, ids, groupId, USER, HOUR_BY_CARD, q, SMOOTH.faults);
            && r == Ok(groupId) && after.bookings == Updated(db.bookings, ids, PaymobTagged)
            && after.now == db.now && after.nextId == db.nextId && after.nextGroup == db.nextGroup
            && Wallet.Balance(after.wallets, USER) == 0 && AwaitsCard(db, after, groupId)
  {
  }

  /** The request succeeds, leaves one row under its group, and the next one like it finds the database ready again. */
  lemma RequestSucceeds(db: Db, key: Option<string>)
    requires Ready(db)
    ensures var (after, r) := Create(db, USER, HOUR_BY_CARD, key, SMOOTH);
            && r == Ok(db.nextGroup) && Ready(after) && after.nextGroup == db.nextGroup + 1 && AwaitsCard(db, after, db.nextGroup)
  {
    SlotsFine();
    RequestGetsThrough(db);
    RequestQuoted(db.coupons);
    var q := QuoteFor(VENUE, db.coupons, HOUR_BY_CARD, 0).value;
    var cleared := db.(bookings := Cleared(db.bookings, USER, 1, 1, RawSlots(HOUR_BY_CARD), 0));
    assert cleared.bookings == map[];
    assert InsertError(Claims(map[]), 1, 1, [Slot(18, 19)], None, 1).None?;
    assert InsertError(Claims(map[]), 1, 1, [Slot(18, 19)], None, 0).None?;
    var rows := WithRows(cleared, USER, HOUR_BY_CARD, key, q);
    RequestPays(rows, FreshIds(db.nextId, 1), db.nextGroup, q);
    var after := Create(db, USER, HOUR_BY_CARD, key, SMOOTH).0;
    forall i | i in after.bookings ensures i < after.nextId && ReplacedHold(after.bookings[i], USER, HOUR_BY_CARD, 0) {
      WithRowsAt(cleared, USER, HOUR_BY_CARD, key, q, i);
      RowIsHold(cleared, key, q, i);
    }
  }

  lemma RowIsHold(db: Db, key: Option<string>, q: Quote, i: BookingId)
    requires QuoteFits(q, HOUR_BY_CARD) && db.now == 0 && i == db.nextId
    ensures ReplacedHold(PaymobTagged(NewRow(USER, HOUR_BY_CARD, key, q, db.nextGroup, db.now + HOLD_DURATION, 0)), USER, HOUR_BY_CARD, 0)
  {
    SlotsFine();
    assert Covers(NewRow(USER, HOUR_BY_CARD, key, q, db.nextGroup, db.now + HOLD_DURATION, 0).claim, 1, 1, RawSlots(HOUR_BY_CARD)[0]);
  }

  const KEY := "k"

  lemma KeyTrimmed()
    ensures TrimmedKey(Some(KEY)) == Some(KEY)
  {
    assert TrimLeft(KEY) == KEY && TrimRight(KEY) == KEY;
  }

  /** The keyed request, from a state in which the key is unused. */
  lemma KeyedRequest(s: Service)
    requires Ready(s.db) && Unused(s, USER, KEY)
    ensures var (t, reply) := Handled(s, USER, HOUR_BY_CARD, Some(KEY), SMOOTH, true, true);
            reply == Created(s.db.nextGroup) && Ready(t.db) && t.db.nextGroup == s.db.nextGroup + 1
  {
    SlotsFine();
    KeyTrimmed();
    RequestSucceeds(s.db, Some(KEY));
  }

  /** A request without a key, on the same hour: it takes the keyed row with it. */
  lemma UnkeyedRequest(s: Service)
    requires Ready(s.db)
    ensures var (t, reply) := Handled(s, USER, HOUR_BY_CARD, None, SMOOTH, true, true);
            && reply == Created(s.db.nextGroup) && Ready(t.db) && t.db.nextGroup == s.db.nextGroup + 1 && t.cache == s.cache
            && forall i :: i in t.db.bookings ==> !KeyedRow(t.db.bookings[i], USER, KEY)
  {
    SlotsFine();
    RequestSucceeds(s.db, None);
    CreatedRows(s.db, USER, HOUR_BY_CARD, None, SMOOTH);
    var t := Handled(s, USER, HOUR_BY_CARD, None, SMOOTH, true, true).0;
    forall i | i in t.db.bookings ensures !KeyedRow(t.db.bookings[i], USER, KEY) {
      assert Identified(s.db, USER, None, HOUR_BY_CARD, t.db.bookings, i);
    }
  }

  /**
   One key, two groups: a card request with a key, the same request without one, the cache entry evicted, and the
   first request retried. The retry is not replayed; it books again.
   */
  lemma OneKeyCreatesTwoGroups()
    ensures var start := Service(Db(0, map[], map[], map[], Wallet.State(map[], []), 0, 0, 0), map[]);
            var (one, first) := Handled(start, USER, HOUR_BY_CARD, Some(KEY), SMOOTH, true, true);
            var (two, _) := Handled(one, USER, HOUR_BY_CARD, None, SMOOTH, true, true);
            var evicted := two.(cache := two.cache - {(USER, KEY)});
            var (_, retried) := Handled(evicted, USER, HOUR_BY_CARD, Some(KEY), SMOOTH, true, true);
            first == Created(0) && retried == Created(2)
  {
    var start := Service(Db(0, map[], map[], map[], Wallet.State(map[], []), 0, 0, 0), map[]);
    KeyedRequest(start);
    var one := Handled(start, USER, HOUR_BY_CARD, Some(KEY), SMOOTH, true, true).0;
    UnkeyedRequest(one);
    var two := Handled(one, USER, HOUR_BY_CARD, None, SMOOTH, true, true).0;
    KeyedRequest(two.(cache := two.cache - {(USER, KEY)}));
  }

  // ----- looking before, locking after -----

  /** What a call does once it has the key's lock: it does not look again whether the key has been used meanwhile. */
  function Locked(s: Service, user: nat, body: CreateBookingDto, key: string, env: Env, cacheOk: bool): (Service, Reply) {
    var (t, reply) := Booked(s, user, body, Some(key), env);
    (if reply.Created? && cacheOk then t.(cache := s.cache[(user, key) := Cached(Fingerprint(body), reply.groupId)]) else t, reply)
  }

  /** A call that looked earlier answers as one that looks now exactly while the key is unused. */
  lemma LockedTooLateIff(s: Service, user: nat, body: CreateBookingDto, idempotencyKey: Option<string>, env: Env, cacheOk: bool)
    requires IdsUsed(s.db) && SlotErrorOf(RawSlots(body)).None?
    requires TrimmedKey(idempotencyKey).Some? && |TrimmedKey(idempotencyKey).value| > 0
    ensures var key := TrimmedKey(idempotencyKey).value;
            Locked(s, user, body, key, env, cacheOk) == Handled(s, user, body, idempotencyKey, env, true, cacheOk)
            <==> Unused(s, user, key)
  {
  }

  /** Two calls with one key: the second looks before the first has booked and gets the lock after the first has freed it. */
  lemma ConcurrentRetryCreatesTwoGroups()
    ensures var start := Service(Db(0, map[], map[], map[], Wallet.State(map[], []), 0, 0, 0), map[]);
            var (one, first) := Handled(start, USER, HOUR_BY_CARD, Some(KEY), SMOOTH, true, true);
            var (_, second) := Locked(one, USER, HOUR_BY_CARD, KEY, SMOOTH, true);
            Unused(start, USER, KEY) && first == Created(0) && second == Created(1)
  {
    var start := Service(Db(0, map[], map[], map[], Wallet.State(map[], []), 0, 0, 0), map[]);
    KeyedRequest(start);
    RequestSucceeds(Handled(start, USER, HOUR_BY_CARD, Some(KEY), SMOOTH, true, true).0.db, Some(KEY));
  }
}
