/** What the booking operations guarantee: failure atomicity, and that each of them is a run of the slot protocol. */
module BookingTheorems {
  import opened Prelude
  import opened Money
  import opened Coupon
  import opened BookingRequest
  import opened Slots
  import opened GroupPrice
  import opened Database
  import opened BookingOperations
  import Wallet

  // ----- failure atomicity -----

  ghost predicate SameBalances(a: Wallet.State, b: Wallet.State) {
    forall u: nat :: Wallet.Balance(a, u) == Wallet.Balance(b, u)
  }

  /** The rows outside the group are as they were, and so are the group's but for the changes to themselves. */
  predicate OnlyGroupTouched(before: Bookings, after: Bookings, ids: seq<BookingId>) {
    && after.Keys == before.Keys
    && forall i :: i in after && i !in ids ==> after[i] == before[i]
  }

  lemma CompensatingFails(db: Db, user: nat, ids: seq<BookingId>, groupId: nat, charge: AmountDue, groupFinal: nat,
                          coupon: Option<string>, faults: Faults)
    requires charge.amount >= 0
    ensures var (p, r) := PayCompensating(db, user, ids, groupId, charge, groupFinal, coupon, faults);
            && OnlyGroupTouched(db.bookings, p.bookings, ids)
            && (r.Err? && faults.refundLedgerOk ==> SameBalances(db.wallets, p.wallets))
  {
  }

  lemma PayGroupFails(db: Db, user: nat, ids: seq<BookingId>, groupId: nat, charge: AmountDue, groupFinal: nat,
                      paymentMethod: PaymentMethod, walletAmountToUse: Option<int>, coupon: Option<string>, faults: Faults)
    requires charge.amount >= 0
    ensures var (p, r) := PayGroup(db, user, ids, groupId, charge, groupFinal, paymentMethod, walletAmountToUse, coupon, faults);
            && OnlyGroupTouched(db.bookings, p.bookings, ids)
            && (r.Err? && faults.refundLedgerOk ==> SameBalances(db.wallets, p.wallets))
  {
    match paymentMethod
    case WalletMethod => CompensatingFails(db, user, ids, groupId, charge, groupFinal, coupon, faults);
    case Cash =>
    case Paymob =>
      CompensatingFails(db.(wallets := Wallet.Upserted(db.wallets, user)), user, ids, groupId, charge, groupFinal, coupon, faults);
  }

  /** A row that a failed request may have taken away. */
  predicate ReplacedHold(b: Booking, user: nat, body: CreateBookingDto, now: int) {
    OwnHold(b.claim, user, body.venueId, body.day, RawSlots(body), now)
  }

  lemma RowsTakenBack(before: Bookings, rows: Bookings, after: Bookings, ids: seq<BookingId>)
    requires OnlyGroupTouched(before + rows, after, ids)
    requires forall i :: i in rows <==> i in ids
    requires forall i :: i in before ==> i !in ids
    ensures WithoutRows(after, ids) == before
  {
  }

  lemma PayNewFails(db: Db, before: Bookings, rows: Bookings, ids: seq<BookingId>, groupId: nat, user: nat,
                    body: CreateBookingDto, q: Quote, faults: Faults)
    requires q.charge.amount >= 0
    requires db.bookings == before + rows
    requires forall i :: i in rows <==> i in ids
    requires forall i :: i in before ==> i !in ids
    ensures var (after, r) := PayNew(db, ids, groupId, user, body, q, faults);
            r.Err? ==> after.bookings == before && (faults.refundLedgerOk ==> SameBalances(db.wallets, after.wallets))
  {
    PayGroupFails(db, user, ids, groupId, q.charge, q.groupFinal, body.paymentMethod, body.walletAmountToUse,
                  NormalizedCoupon(body.couponCode), faults);
    var paid := PayGroup(db, user, ids, groupId, q.charge, q.groupFinal, body.paymentMethod, body.walletAmountToUse,
                         NormalizedCoupon(body.couponCode), faults);
    RowsTakenBack(before, rows, paid.0.bookings, ids);
  }

  lemma InsertAndPayFails(db: Db, user: nat, body: CreateBookingDto, key: Option<string>, q: Quote, faults: Faults)
    requires IdsUsed(db) && QuoteFits(q, body) && q.charge.amount >= 0
    ensures var (after, r) := InsertAndPay(db, user, body, key, q, faults);
            r.Err? ==> after.bookings == db.bookings && (faults.refundLedgerOk ==> SameBalances(db.wallets, after.wallets))
  {
    var rows := NewRows(db.nextId, |RawSlots(body)|, user, body, key, q, db.nextGroup, db.now + HOLD_DURATION);
    PayNewFails(WithRows(db, user, body, key, q), db.bookings, rows, FreshIds(db.nextId, |RawSlots(body)|), db.nextGroup, user,
                body, q, faults);
  }

  // ----- every operation is a run of the slot protocol -----

  lemma ClearedClaims(bookings: Bookings, user: nat, at: VenueDay, slots: seq<Slot>, now: int)
    ensures Claims(Cleared(bookings, user, at.venue, at.day, slots, now))
            == WithoutOwnHolds(Claims(bookings), user, at.venue, at.day, slots, now)
  {
  }

  lemma {:induction false} NoInsertError(table: Table, venue: nat, day: int, slots: seq<Slot>, fails: Option<nat>, k: nat)
    requires k <= |slots| && InsertError(table, venue, day, slots, fails, k).None?
    ensures forall j :: k <= j < |slots| ==> !IndexRefuses(table, venue, day, slots[j].start)
    decreases |slots| - k
  {
    if k < |slots| {
      NoInsertError(table, venue, day, slots, fails, k + 1);
    }
  }

  /** A payment leaves each row's slot part alone or confirms it, and confirms all of the group or none. */
  predicate GroupClaims(before: Bookings, after: Bookings, ids: seq<BookingId>, confirmed: bool) {
    && after.Keys == before.Keys
    && forall i :: i in after ==>
         after[i].claim == if i in ids && confirmed then ConfirmedClaim(before[i].claim) else before[i].claim
  }

  lemma CompensatingClaims(db: Db, user: nat, ids: seq<BookingId>, groupId: nat, charge: AmountDue, groupFinal: nat,
                           coupon: Option<string>, faults: Faults)
    ensures var (p, r) := PayCompensating(db, user, ids, groupId, charge, groupFinal, coupon, faults);
            p.now == db.now && p.nextId == db.nextId && (r.Ok? ==> GroupClaims(db.bookings, p.bookings, ids, true))
  {
  }

  lemma CashClaims(db: Db, ids: seq<BookingId>, coupon: Option<string>, faults: Faults)
    ensures var (p, r) := PayCash(db, ids, coupon, faults);
            p.now == db.now && p.nextId == db.nextId && (r.Ok? ==> GroupClaims(db.bookings, p.bookings, ids, true))
  {
  }

  lemma PaymobClaims(db: Db, user: nat, ids: seq<BookingId>, groupId: nat, charge: AmountDue, groupFinal: nat,
                     walletAmountToUse: Option<int>, coupon: Option<string>, faults: Faults) returns (confirmed: bool)
    ensures var (p, r) := PayPaymob(db, user, ids, groupId, charge, groupFinal, walletAmountToUse, coupon, faults);
            p.now == db.now && p.nextId == db.nextId && (r.Ok? ==> GroupClaims(db.bookings, p.bookings, ids, confirmed))
  {
    var part := WalletPart(Wallet.Balance(db.wallets, user), walletAmountToUse, charge.amount);
    confirmed := Max(0, charge.amount - part) == 0 && part >= charge.amount;
    CompensatingClaims(db.(wallets := Wallet.Upserted(db.wallets, user)), user, ids, groupId, charge, groupFinal, coupon, faults);
  }

  lemma PayGroupClaims(db: Db, user: nat, ids: seq<BookingId>, groupId: nat, charge: AmountDue, groupFinal: nat,
                       paymentMethod: PaymentMethod, walletAmountToUse: Option<int>, coupon: Option<string>, faults: Faults)
    returns (confirmed: bool)
    ensures var (p, r) := PayGroup(db, user, ids, groupId, charge, groupFinal, paymentMethod, walletAmountToUse, coupon, faults);
            p.now == db.now && p.nextId == db.nextId && (r.Ok? ==> GroupClaims(db.bookings, p.bookings, ids, confirmed))
  {
    match paymentMethod
    case WalletMethod =>
      CompensatingClaims(db, user, ids, groupId, charge, groupFinal, coupon, faults);
      confirmed := true;
    case Cash =>
      CashClaims(db, ids, coupon, faults);
      confirmed := true;
    case Paymob =>
      confirmed := PaymobClaims(db, user, ids, groupId, charge, groupFinal, walletAmountToUse, coupon, faults);
  }

  /** The protocol state a run ends in is the database's, up to identifiers drawn and not used. */
  predicate EndsIn(s: Sys, db: Db) {
    s.now == db.now && s.table == Claims(db.bookings) && s.flights == map[] && s.nextId <= db.nextId
  }

  /** A step that asks nothing of its timing. */
  predicate Untimed(step: Step) {
    !step.ConfirmPaid? && (step.Begin? ==> step.waited == 0)
  }

  predicate AllUntimed(steps: seq<Step>) {
    forall k :: 0 <= k < |steps| ==> Untimed(steps[k])
  }

  lemma WithRowsAt(db: Db, user: nat, body: CreateBookingDto, key: Option<string>, q: Quote, i: BookingId)
    requires IdsUsed(db) && QuoteFits(q, body)
    ensures var bookings, n := WithRows(db, user, body, key, q).bookings, |RawSlots(body)|;
            && (i in FreshIds(db.nextId, n) <==> db.nextId <= i < db.nextId + n)
            && (i in bookings <==> i in db.bookings || db.nextId <= i < db.nextId + n)
            && (i in bookings ==>
                  bookings[i] == if i in db.bookings then db.bookings[i]
                                 else NewRow(user, body, key, q, db.nextGroup, db.now + HOLD_DURATION, i - db.nextId))
  {
    var n := |RawSlots(body)|;
    FreshRange(db.nextId, n);
  }

  function RequestFlight(db: Db, user: nat, body: CreateBookingDto): Flight {
    Flight(user, RawSlots(body), db.nextGroup, db.now + HOLD_DURATION, [])
  }

  function RequestClaims(db: Db, user: nat, body: CreateBookingDto, confirmed: bool): Table {
    var n := |RawSlots(body)|;
    NewClaims(VenueDay(body.venueId, body.day), RequestFlight(db, user, body), db.nextId, n, if confirmed then n else 0)
  }

  lemma RequestClaimAt(db: Db, user: nat, body: CreateBookingDto, key: Option<string>, q: Quote, confirmed: bool, i: BookingId)
    requires QuoteFits(q, body)
    ensures var n, claims := |RawSlots(body)|, RequestClaims(db, user, body, confirmed);
            && (i in claims <==> db.nextId <= i < db.nextId + n)
            && (i in claims ==>
                  var c := NewRow(user, body, key, q, db.nextGroup, db.now + HOLD_DURATION, i - db.nextId).claim;
                  claims[i] == if confirmed then ConfirmedClaim(c) else c)
  {
    FreshRange(db.nextId, |RawSlots(body)|);
  }

  lemma NewRowClaim(db: Db, user: nat, body: CreateBookingDto, key: Option<string>, q: Quote, before: Bookings,
                    after: Bookings, ids: seq<BookingId>, confirmed: bool, i: BookingId)
    requires IdsUsed(db) && QuoteFits(q, body)
    requires before == WithRows(db, user, body, key, q).bookings && ids == FreshIds(db.nextId, |RawSlots(body)|)
    requires GroupClaims(before, after, ids, confirmed)
    ensures i in after <==> i in db.bookings || i in RequestClaims(db, user, body, confirmed)
    ensures i in RequestClaims(db, user, body, confirmed) ==> i in after && after[i].claim == RequestClaims(db, user, body, confirmed)[i]
    ensures i in db.bookings ==> i in after && i !in RequestClaims(db, user, body, confirmed) && after[i].claim == db.bookings[i].claim
  {
    WithRowsAt(db, user, body, key, q, i);
    RequestClaimAt(db, user, body, key, q, confirmed, i);
    assert i in after <==> i in before;
  }

  /** From the cleared table to the rows of a successful request, as the protocol sees them. */
  lemma NewRowsClaims(db: Db, user: nat, body: CreateBookingDto, key: Option<string>, q: Quote, before: Bookings,
                      after: Bookings, ids: seq<BookingId>, confirmed: bool)
    requires IdsUsed(db) && QuoteFits(q, body)
    requires before == WithRows(db, user, body, key, q).bookings && ids == FreshIds(db.nextId, |RawSlots(body)|)
    requires GroupClaims(before, after, ids, confirmed)
    ensures Claims(after) == Claims(db.bookings) + RequestClaims(db, user, body, confirmed)
  {
    var rows := RequestClaims(db, user, body, confirmed);
    forall i: BookingId
      ensures i in after <==> i in db.bookings || i in rows
      ensures i in rows ==> i in after && after[i].claim == rows[i]
      ensures i in db.bookings ==> i in after && i !in rows && after[i].claim == db.bookings[i].claim
    {
      NewRowClaim(db, user, body, key, q, before, after, ids, confirmed, i);
    }
    SplitClaims(db.bookings, after, rows);
  }

  lemma SplitClaims(before: Bookings, after: Bookings, rows: Table)
    requires forall i :: i in after <==> i in before || i in rows
    requires forall i :: i in rows ==> i in after && after[i].claim == rows[i]
    requires forall i :: i in before ==> i in after && i !in rows && after[i].claim == before[i].claim
    ensures Claims(after) == Claims(before) + rows
  {
  }

  predicate GetsThrough(db: Db, user: nat, body: CreateBookingDto, env: Env) {
    Precheck(body, env, db.now).None? && env.lockFree
    && !OverlapStageRejects(Claims(db.bookings), user, body.venueId, body.day, RawSlots(body), db.now)
  }

  lemma BeginAccepted(db: Db, user: nat, body: CreateBookingDto, env: Env, groupId: nat)
    requires IdsUsed(db) && GetsThrough(db, user, body, env)
    ensures var at, slots := VenueDay(body.venueId, body.day), RawSlots(body);
            var b := Begun(SlotState(db), user, at.venue, at.day, slots, groupId, 0);
            && SlotsValid(slots) && at in b.flights
            && b == Sys(db.now, Claims(Cleared(db.bookings, user, at.venue, at.day, slots, db.now)),
                        map[at := Flight(user, slots, groupId, db.now + HOLD_DURATION, [])], db.nextId)
  {
    var at, slots := VenueDay(body.venueId, body.day), RawSlots(body);
    SlotErrorMeaning(slots);
    ClearedClaims(db.bookings, user, at, slots, db.now);
  }

  /** A request that gets through and then fails: begun and aborted. */
  lemma FailedRequestIsRun(db: Db, user: nat, body: CreateBookingDto, env: Env, after: Db)
    requires IdsUsed(db) && GetsThrough(db, user, body, env)
    requires after.now == db.now && after.nextId >= db.nextId
    requires after.bookings == Cleared(db.bookings, user, body.venueId, body.day, RawSlots(body), db.now)
    ensures var at := VenueDay(body.venueId, body.day);
            EndsIn(Run(SlotState(db), [Begin(user, at.venue, at.day, RawSlots(body), 0, 0), Abort(at)]), after)
  {
    var at, s := VenueDay(body.venueId, body.day), SlotState(db);
    var begin := Begin(user, at.venue, at.day, RawSlots(body), 0, 0);
    RunOne(s, begin);
    RunSnoc(s, [begin], Abort(at));
    assert [begin] + [Abort(at)] == [begin, Abort(at)];
    BeginAccepted(db, user, body, env, 0);
    var b := Begun(s, user, at.venue, at.day, RawSlots(body), 0, 0);
    assert b.flights[at].ids == [];
    assert Aborted(b, at).table == b.table && Aborted(b, at).flights == map[];
  }

  lemma WholeRequestOn(db: Db, user: nat, body: CreateBookingDto, env: Env, cleared: Table, m: nat)
    requires IdsUsed(db) && GetsThrough(db, user, body, env) && m <= |RawSlots(body)|
    requires cleared == Claims(Cleared(db.bookings, user, body.venueId, body.day, RawSlots(body), db.now))
    requires forall k :: 0 <= k < |RawSlots(body)| ==> !IndexRefuses(cleared, body.venueId, body.day, RawSlots(body)[k].start)
    ensures var at, n := VenueDay(body.venueId, body.day), |RawSlots(body)|;
            Run(SlotState(db), WholeRequest(user, at, RawSlots(body), db.nextGroup, m))
            == Sys(db.now, cleared + NewClaims(at, RequestFlight(db, user, body), db.nextId, n, m), map[], db.nextId + n)
  {
    var at, slots, s := VenueDay(body.venueId, body.day), RawSlots(body), SlotState(db);
    var b := Sys(db.now, cleared, map[at := RequestFlight(db, user, body)], db.nextId);
    BeginAccepted(db, user, body, env, db.nextGroup);
    FreeToInsert(db.now, cleared, at, RequestFlight(db, user, body), db.nextId);
    WholeRequestGives(s, b, user, at, slots, db.nextGroup, m);
    assert b.flights - {at} == map[];
  }

  lemma FreeToInsert(now: int, table: Table, at: VenueDay, f: Flight, nextId: BookingId)
    requires f.ids == [] && SlotsValid(f.slots) && forall i :: i in table ==> i < nextId
    requires forall k :: 0 <= k < |f.slots| ==> !IndexRefuses(table, at.venue, at.day, f.slots[k].start)
    ensures CanInsert(Sys(now, table, map[at := f], nextId), at)
  {
  }

  /** A request that succeeds: begun, every row inserted, all confirmed or none, finished. */
  lemma SuccessfulRequestIsRun(db: Db, cleared: Db, user: nat, body: CreateBookingDto, key: Option<string>, env: Env, q: Quote,
                               before: Bookings, after: Db, ids: seq<BookingId>, confirmed: bool)
    requires IdsUsed(db) && GetsThrough(db, user, body, env) && QuoteFits(q, body)
    requires cleared.bookings == Cleared(db.bookings, user, body.venueId, body.day, RawSlots(body), db.now)
    requires cleared.now == db.now && cleared.nextId == db.nextId && cleared.nextGroup == db.nextGroup
    requires InsertError(Claims(cleared.bookings), body.venueId, body.day, RawSlots(body), env.faults.insertFails, 0).None?
    requires before == WithRows(cleared, user, body, key, q).bookings && ids == FreshIds(db.nextId, |RawSlots(body)|)
    requires GroupClaims(before, after.bookings, ids, confirmed)
    requires after.now == db.now && after.nextId == db.nextId + |RawSlots(body)|
    ensures EndsIn(Run(SlotState(db), WholeRequest(user, VenueDay(body.venueId, body.day), RawSlots(body), db.nextGroup,
                                                   if confirmed then |RawSlots(body)| else 0)), after)
  {
    NoInsertError(Claims(cleared.bookings), body.venueId, body.day, RawSlots(body), env.faults.insertFails, 0);
    WholeRequestOn(db, user, body, env, Claims(cleared.bookings), if confirmed then |RawSlots(body)| else 0);
    NewRowsClaims(cleared, user, body, key, q, before, after.bookings, ids, confirmed);
    assert RequestFlight(cleared, user, body) == RequestFlight(db, user, body);
  }

  lemma WholeRequestUntimed(user: nat, at: VenueDay, slots: seq<Slot>, groupId: nat, m: nat)
    ensures AllUntimed(WholeRequest(user, at, slots, groupId, m))
  {
  }

  /** The database a request works on once it has replaced the requester's holds and looked at the wallet. */
  function Prepared(db: Db, user: nat, body: CreateBookingDto): Db {
    var cleared := db.(bookings := Cleared(db.bookings, user, body.venueId, body.day, RawSlots(body), db.now));
    if body.paymentMethod.WalletMethod? then cleared.(wallets := Wallet.Upserted(db.wallets, user)) else cleared
  }

  lemma BookPricedFails(db: Db, user: nat, body: CreateBookingDto, key: Option<string>, q: Quote, faults: Faults)
    requires IdsUsed(db) && QuoteFits(q, body) && q.charge.amount >= 0 && BookPriced(db, user, body, key, q, faults).1.Err?
    ensures var after := BookPriced(db, user, body, key, q, faults).0;
            && after.now == db.now && after.nextId >= db.nextId && after.bookings == db.bookings
            && (faults.refundLedgerOk ==> SameBalances(db.wallets, after.wallets))
  {
    var withWallet := if body.paymentMethod.WalletMethod? then db.(wallets := Wallet.Upserted(db.wallets, user)) else db;
    InsertAndPayFails(withWallet, user, body, key, q, faults);
    PayNewKeepsClock(withWallet, user, body, key, q, faults);
  }

  lemma CreateFailsCleared(db: Db, user: nat, body: CreateBookingDto, key: Option<string>, env: Env)
    requires IdsUsed(db) && GetsThrough(db, user, body, env) && Create(db, user, body, key, env).1.Err?
    ensures var after := Create(db, user, body, key, env).0;
            && after.now == db.now && after.nextId >= db.nextId
            && after.bookings == Cleared(db.bookings, user, body.venueId, body.day, RawSlots(body), db.now)
            && (env.faults.refundLedgerOk ==> SameBalances(db.wallets, after.wallets))
  {
    var quote := QuoteFor(env.venue.value, db.coupons, body, db.now);
    if quote.Ok? {
      BookPricedFails(db.(bookings := Cleared(db.bookings, user, body.venueId, body.day, RawSlots(body), db.now)), user, body, key,
                      quote.value, env.faults);
    }
  }

  lemma CreateSucceeds(db: Db, user: nat, body: CreateBookingDto, key: Option<string>, env: Env)
    requires Create(db, user, body, key, env).1.Ok?
    ensures GetsThrough(db, user, body, env) && QuoteFor(env.venue.value, db.coupons, body, db.now).Ok?
    ensures var q, prepared := QuoteFor(env.venue.value, db.coupons, body, db.now).value, Prepared(db, user, body);
            && InsertError(Claims(prepared.bookings), body.venueId, body.day, RawSlots(body), env.faults.insertFails, 0).None?
            && Create(db, user, body, key, env)
               == PayNew(WithRows(prepared, user, body, key, q), FreshIds(db.nextId, |RawSlots(body)|), db.nextGroup, user, body, q,
                         env.faults)
  {
  }

  lemma SuccessfulCreateIsRun(db: Db, user: nat, body: CreateBookingDto, key: Option<string>, env: Env) returns (steps: seq<Step>)
    requires IdsUsed(db) && Create(db, user, body, key, env).1.Ok?
    ensures EndsIn(Run(SlotState(db), steps), Create(db, user, body, key, env).0)
    ensures AllUntimed(steps)
  {
    CreateSucceeds(db, user, body, key, env);
    var slots, q, prepared := RawSlots(body), QuoteFor(env.venue.value, db.coupons, body, db.now).value, Prepared(db, user, body);
    var confirmed := PayGroupClaims(WithRows(prepared, user, body, key, q), user, FreshIds(db.nextId, |slots|), db.nextGroup,
                                    q.charge, q.groupFinal, body.paymentMethod, body.walletAmountToUse,
                                    NormalizedCoupon(body.couponCode), env.faults);
    SuccessfulRequestIsRun(db, prepared, user, body, key, env, q, WithRows(prepared, user, body, key, q).bookings,
                           Create(db, user, body, key, env).0, FreshIds(db.nextId, |slots|), confirmed);
    steps := WholeRequest(user, VenueDay(body.venueId, body.day), slots, db.nextGroup, if confirmed then |slots| else 0);
    WholeRequestUntimed(user, VenueDay(body.venueId, body.day), slots, db.nextGroup, if confirmed then |slots| else 0);
  }

  /** createBooking is a run of the slot protocol, for every outcome. */
  lemma CreateIsRun(db: Db, user: nat, body: CreateBookingDto, key: Option<string>, env: Env) returns (steps: seq<Step>)
    requires IdsUsed(db)
    ensures EndsIn(Run(SlotState(db), steps), Create(db, user, body, key, env).0)
    ensures AllUntimed(steps)
  {
    if !GetsThrough(db, user, body, env) {
      steps := [];
    } else if Create(db, user, body, key, env).1.Err? {
      CreateFailsCleared(db, user, body, key, env);
      FailedRequestIsRun(db, user, body, env, Create(db, user, body, key, env).0);
      var at := VenueDay(body.venueId, body.day);
      steps := [Begin(user, at.venue, at.day, RawSlots(body), 0, 0), Abort(at)];
    } else {
      steps := SuccessfulCreateIsRun(db, user, body, key, env);
    }
  }

  /** Identifiers stay fresh from one request to the next. */
  lemma CreateKeepsIds(db: Db, user: nat, body: CreateBookingDto, key: Option<string>, env: Env)
    requires IdsUsed(db)
    ensures IdsUsed(Create(db, user, body, key, env).0)
  {
    if GetsThrough(db, user, body, env) {
      if Create(db, user, body, key, env).1.Err? {
        CreateFailsCleared(db, user, body, key, env);
      } else {
        CreateSucceeds(db, user, body, key, env);
        var q, prepared := QuoteFor(env.venue.value, db.coupons, body, db.now).value, Prepared(db, user, body);
        PayNewKeepsClock(prepared, user, body, key, q, env.faults);
        var confirmed := PayGroupClaims(WithRows(prepared, user, body, key, q), user, FreshIds(db.nextId, |RawSlots(body)|),
                                        db.nextGroup, q.charge, q.groupFinal, body.paymentMethod, body.walletAmountToUse,
                                        NormalizedCoupon(body.couponCode), env.faults);
        forall i | i in Create(db, user, body, key, env).0.bookings ensures i < db.nextId + |RawSlots(body)| {
          WithRowsAt(prepared, user, body, key, q, i);
        }
      }
    }
  }

  lemma PayNewKeepsClock(db: Db, user: nat, body: CreateBookingDto, key: Option<string>, q: Quote, faults: Faults)
    requires QuoteFits(q, body)
    ensures InsertAndPay(db, user, body, key, q, faults).0.now == db.now
    ensures InsertAndPay(db, user, body, key, q, faults).0.nextId == db.nextId + |RawSlots(body)|
  {
    var c := PayGroupClaims(WithRows(db, user, body, key, q), user, FreshIds(db.nextId, |RawSlots(body)|), db.nextGroup, q.charge,
                            q.groupFinal, body.paymentMethod, body.walletAmountToUse, NormalizedCoupon(body.couponCode), faults);
  }

  /**
   Failure atomicity: whatever call fails, if the refund goes through then no wallet has moved, no row of the
   new group is left, and no other row has changed; the requester's own holds on the slots may be gone.
   */
  lemma FailureAtomicity(db: Db, user: nat, body: CreateBookingDto, key: Option<string>, env: Env)
    requires IdsUsed(db) && env.faults.refundLedgerOk
    requires Create(db, user, body, key, env).1.Err?
    ensures var after := Create(db, user, body, key, env).0;
            && SameBalances(db.wallets, after.wallets)
            && (forall i :: i in after.bookings ==> i in db.bookings && after.bookings[i] == db.bookings[i])
            && (forall i :: i in db.bookings && i !in after.bookings ==> ReplacedHold(db.bookings[i], user, body, db.now))
  {
    if GetsThrough(db, user, body, env) {
      CreateFailsCleared(db, user, body, key, env);
    }
  }

  // ----- no operation double-books -----

  lemma MoreIdsKeepInv(s: Sys, n: BookingId)
    requires Inv(s) && s.nextId <= n
    ensures Inv(s.(nextId := n))
  {
  }

  /** Whatever happens to a request, no two live bookings overlap afterwards if none did before. */
  lemma CreateNeverDoubleBooks(db: Db, user: nat, body: CreateBookingDto, key: Option<string>, env: Env)
    requires Inv(SlotState(db))
    ensures Inv(SlotState(Create(db, user, body, key, env).0))
  {
    forall i | i in db.bookings ensures i < db.nextId {
      assert i in SlotState(db).table;
    }
    var after := Create(db, user, body, key, env).0;
    var steps := CreateIsRun(db, user, body, key, env);
    forall k | 0 <= k < |steps| ensures Allowed(Run(SlotState(db), steps[..k]), steps[k]) {
      assert Untimed(steps[k]);
    }
    NoDoubleBookingOnRuns(SlotState(db), steps);
    MoreIdsKeepInv(Run(SlotState(db), steps), after.nextId);
  }

  /** Every member of the group still occupies its slot. */
  predicate GroupOccupies(db: Db, found: seq<BookingId>) {
    forall i :: i in found && i in db.bookings ==> Occupies(db.bookings[i].claim, db.now)
  }

  /** Slot parts change only by confirming members of the group. */
  predicate ConfirmsSome(before: Bookings, after: Bookings, ids: seq<BookingId>) {
    && after.Keys == before.Keys
    && forall i :: i in after ==>
         after[i].claim == before[i].claim || (i in ids && after[i].claim == ConfirmedClaim(before[i].claim))
  }

  lemma ConfirmingOccupantsKeepsInv(db: Db, after: Db, ids: seq<BookingId>)
    requires Inv(SlotState(db)) && GroupOccupies(db, ids)
    requires after.now == db.now && after.nextId == db.nextId && ConfirmsSome(db.bookings, after.bookings, ids)
    ensures Inv(SlotState(after))
  {
    ShrinkKeepsInv(SlotState(db), SlotState(after));
  }

  /** cancelBooking is the protocol's cancellation, or nothing. */
  lemma CancelIsStep(db: Db, id: BookingId, actor: nat, isStaff: bool, refundLedgerOk: bool)
    ensures var (after, r) := Cancelling(db, id, actor, isStaff, refundLedgerOk);
            SlotState(after) == if r.Ok? then Next(SlotState(db), Slots.Cancel(id)) else SlotState(db)
  {
  }

  lemma CronIsStep(db: Db)
    ensures SlotState(CronSwept(db)) == Next(SlotState(db), Cron)
  {
  }
}
