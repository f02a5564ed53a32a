/** Idempotency keys: createBooking answers from its cache, then from the rows, and only then books. */
module Idempotency {
  import opened Prelude
  import opened BookingRequest
  import opened Slots
  import opened Database
  import opened BookingOperations
  import opened BookingTheorems
  import opened BookingServices
  import GroupPrice
  import Wallet

  datatype Cached = Cached(requestHash: Canonical, groupId: nat)

  datatype Service = Service(db: Db, cache: map<(nat, string), Cached>)

  datatype Reply = Created(groupId: nat) | Replayed(groupId: nat) | KeyMismatch | KeyBusy | CacheFailed | Refused(error: BookingError)

  function TrimmedKey(key: Option<string>): Option<string> {
    if key.Some? && |key.value| > 0 then Some(TrimRight(TrimLeft(key.value))) else None
  }

  /** A key is compared without the spaces around it; none is no key. */
  lemma KeysCompared(key: Option<string>)
    ensures key == None || key == Some("") ==> TrimmedKey(key) == None
    ensures key.Some? && key.value != "" ==> TrimmedKey(key).Some? && IsTrimmed(key.value, TrimmedKey(key).value)
  {
    if key.Some? {
      TrimTrims(key.value);
    }
  }

  predicate KeyedRow(b: Booking, user: nat, key: string) {
    b.claim.user == user && b.bill.idempotencyKey == Some(key)
  }

  /** The first row of the user that carries the key, among the first n. */
  function FirstKeyed(bookings: Bookings, user: nat, key: string, n: nat): (r: Option<BookingId>)
    ensures r.Some? ==> r.value in bookings && KeyedRow(bookings[r.value], user, key)
    ensures r.None? ==> forall i :: i in bookings && i < n ==> !KeyedRow(bookings[i], user, key)
  {
    if n == 0 then None
    else
      var r := FirstKeyed(bookings, user, key, n - 1);
      if r.Some? then r
      else if n - 1 in bookings && KeyedRow(bookings[n - 1], user, key) then Some(n - 1) else None
  }

  function Booked(s: Service, user: nat, body: CreateBookingDto, key: Option<string>, env: Env): (Service, Reply) {
    var (db, r) := Create(s.db, user, body, key, env);
    (s.(db := db), if r.Ok? then Created(r.value) else Refused(r.error))
  }

  /** What is known about the key before anything is booked: the cached answer, or the one the rows give. */
  function Handled(s: Service, user: nat, body: CreateBookingDto, idempotencyKey: Option<string>, env: Env, keyLockFree: bool,
                   cacheOk: bool): (Service, Reply) {
    var hash, key := Fingerprint(body), TrimmedKey(idempotencyKey);
    if SlotErrorOf(RawSlots(body)).Some? then (s, Refused(BadSlots(SlotErrorOf(RawSlots(body)).value)))
    else if key.None? || |key.value| == 0 then Booked(s, user, body, key, env)
    else
      var at := (user, key.value);
      if at in s.cache then
        (s, if s.cache[at].requestHash != hash then KeyMismatch else Replayed(s.cache[at].groupId))
      else
        match FirstKeyed(s.db.bookings, user, key.value, s.db.nextId)
        case Some(i) =>
          var row := s.db.bookings[i];
          if row.bill.requestHash != hash then (s, KeyMismatch)
          else if !cacheOk then (s, CacheFailed)
          else (s.(cache := s.cache[at := Cached(hash, row.claim.groupId)]), Replayed(row.claim.groupId))
        case None =>
          if !keyLockFree then (s, KeyBusy)
          else
            var (t, reply) := Booked(s, user, body, key, env);
            (if reply.Created? && cacheOk then t.(cache := s.cache[at := Cached(hash, reply.groupId)]) else t, reply)
  }

  /** Of the rows that carry the key the earliest is found. */
  lemma {:induction false} EarliestKeyed(bookings: Bookings, user: nat, key: string, n: nat)
    ensures var r := FirstKeyed(bookings, user, key, n);
            r.Some? ==> r.value < n && forall i :: i in bookings && i < r.value ==>
                          !(bookings[i].claim.user == user && bookings[i].bill.idempotencyKey == Some(key))
  {
    if n > 0 {
      EarliestKeyed(bookings, user, key, n - 1);
    }
  }

  /** A key that is in nobody's way: while somebody else holds its lock the call is told so, and nothing happens. */
  lemma BusyKey(s: Service, user: nat, body: CreateBookingDto, idempotencyKey: Option<string>, env: Env, cacheOk: bool)
    requires SlotErrorOf(RawSlots(body)).None? && TrimmedKey(idempotencyKey).Some? && TrimmedKey(idempotencyKey).value != ""
    requires Unused(s, user, TrimmedKey(idempotencyKey).value)
    ensures Handled(s, user, body, idempotencyKey, env, false, cacheOk) == (s, KeyBusy)
  {
  }

  /**
   A key that only the rows remember: the first row's request decides between a replay of its group, which is then
   remembered in the cache as well, and a mismatch; nothing is booked.
   */
  lemma RowsAnswer(s: Service, user: nat, body: CreateBookingDto, idempotencyKey: Option<string>, env: Env, keyLockFree: bool, cacheOk: bool,
                   i: BookingId)
    requires SlotErrorOf(RawSlots(body)).None? && TrimmedKey(idempotencyKey).Some? && TrimmedKey(idempotencyKey).value != ""
    requires (user, TrimmedKey(idempotencyKey).value) !in s.cache
    requires i in s.db.bookings && i < s.db.nextId && KeyedRow(s.db.bookings[i], user, TrimmedKey(idempotencyKey).value)
    requires forall j :: j in s.db.bookings && j < i ==> !KeyedRow(s.db.bookings[j], user, TrimmedKey(idempotencyKey).value)
    ensures var (t, reply) := Handled(s, user, body, idempotencyKey, env, keyLockFree, cacheOk);
            var row, at := s.db.bookings[i], (user, TrimmedKey(idempotencyKey).value);
            if row.bill.requestHash != Fingerprint(body) then t == s && reply == KeyMismatch
            else if !cacheOk then t == s && reply == CacheFailed
            else reply == Replayed(row.claim.groupId) && t == s.(cache := s.cache[at := Cached(Fingerprint(body), row.claim.groupId)])
  {
    var key := TrimmedKey(idempotencyKey).value;
    var r := FirstKeyed(s.db.bookings, user, key, s.db.nextId);
    EarliestKeyed(s.db.bookings, user, key, s.db.nextId);
    assert r.Some? && !(i < r.value) && !(r.value < i);
  }

  // ----- what a key stands for -----

  predicate Unused(s: Service, user: nat, key: string) {
    (user, key) !in s.cache && forall i :: i in s.db.bookings ==> !KeyedRow(s.db.bookings[i], user, key)
  }

  predicate Carries(b: Booking, user: nat, key: string, hash: Canonical, groupId: nat) {
    KeyedRow(b, user, key) && b.bill.requestHash == hash && b.claim.groupId == groupId
  }

  /** The key stands for one group and one request: its rows say so, and so does the cache if it says anything. */
  predicate StandsFor(s: Service, user: nat, key: string, hash: Canonical, groupId: nat) {
    && ((user, key) in s.cache ==> s.cache[(user, key)] == Cached(hash, groupId))
    && (exists i :: i in s.db.bookings && Carries(s.db.bookings[i], user, key, hash, groupId))
    && (forall i :: i in s.db.bookings && KeyedRow(s.db.bookings[i], user, key) ==>
          Carries(s.db.bookings[i], user, key, hash, groupId))
  }

  predicate SameRow(a: Booking, b: Booking) {
    && a.claim.user == b.claim.user && a.claim.groupId == b.claim.groupId
    && a.bill.idempotencyKey == b.bill.idempotencyKey && a.bill.requestHash == b.bill.requestHash
  }

  /** What identifies a row is not changed by a payment. */
  predicate SameIdentity(before: Bookings, after: Bookings) {
    after.Keys == before.Keys && forall i :: i in after ==> SameRow(before[i], after[i])
  }

  lemma CompensatingKeepsIdentity(db: Db, user: nat, ids: seq<BookingId>, groupId: nat, charge: GroupPrice.AmountDue,
                                  groupFinal: nat, coupon: Option<string>, faults: Faults)
    ensures SameIdentity(db.bookings, PayCompensating(db, user, ids, groupId, charge, groupFinal, coupon, faults).0.bookings)
  {
  }

  lemma CashKeepsIdentity(db: Db, ids: seq<BookingId>, coupon: Option<string>, faults: Faults)
    ensures SameIdentity(db.bookings, PayCash(db, ids, coupon, faults).0.bookings)
  {
  }

  lemma TaggingKeepsIdentity(bookings: Bookings, ids: seq<BookingId>)
    ensures SameIdentity(bookings, Updated(bookings, ids, PaymobTagged))
  {
  }

  lemma PaymobKeepsIdentity(db: Db, user: nat, ids: seq<BookingId>, groupId: nat, charge: GroupPrice.AmountDue, groupFinal: nat,
                            walletAmountToUse: Option<int>, coupon: Option<string>, faults: Faults)
    ensures SameIdentity(db.bookings,
                         PayPaymob(db, user, ids, groupId, charge, groupFinal, walletAmountToUse, coupon, faults).0.bookings)
  {
    CompensatingKeepsIdentity(db.(wallets := Wallet.Upserted(db.wallets, user)), user, ids, groupId, charge, groupFinal, coupon,
                              faults);
    TaggingKeepsIdentity(db.bookings, ids);
    if faults.updateFails.Some? && faults.updateFails.value < |ids| {
      TaggingKeepsIdentity(db.bookings, ids[..faults.updateFails.value]);
    }
  }

  lemma PayingKeepsIdentity(db: Db, user: nat, ids: seq<BookingId>, groupId: nat, charge: GroupPrice.AmountDue, groupFinal: nat,
                            paymentMethod: PaymentMethod, walletAmountToUse: Option<int>, coupon: Option<string>, faults: Faults)
    ensures SameIdentity(db.bookings, PayGroup(db, user, ids, groupId, charge, groupFinal, paymentMethod, walletAmountToUse, coupon,
                                               faults).0.bookings)
  {
    match paymentMethod
    case WalletMethod => CompensatingKeepsIdentity(db, user, ids, groupId, charge, groupFinal, coupon, faults);
    case Cash => CashKeepsIdentity(db, ids, coupon, faults);
    case Paymob => PaymobKeepsIdentity(db, user, ids, groupId, charge, groupFinal, walletAmountToUse, coupon, faults);
  }

  /** What became of a row, or where it comes from, when a request has succeeded. */
  predicate Identified(db: Db, user: nat, key: Option<string>, body: CreateBookingDto, after: Bookings, i: BookingId) {
    if db.nextId <= i < db.nextId + |RawSlots(body)| then
      && i in after && after[i].claim.user == user && after[i].claim.groupId == db.nextGroup
      && after[i].bill.idempotencyKey == key && after[i].bill.requestHash == Fingerprint(body)
    else
      && (i in after <==> i in db.bookings && !ReplacedHold(db.bookings[i], user, body, db.now))
      && (i in after ==> SameRow(db.bookings[i], after[i]))
  }

  lemma IdentifyRow(db: Db, prepared: Db, user: nat, body: CreateBookingDto, key: Option<string>, q: Quote, after: Bookings,
                    i: BookingId)
    requires IdsUsed(db) && QuoteFits(q, body) && prepared.nextId == db.nextId && prepared.nextGroup == db.nextGroup
    requires prepared.bookings == Cleared(db.bookings, user, body.venueId, body.day, RawSlots(body), db.now)
    requires SameIdentity(WithRows(prepared, user, body, key, q).bookings, after)
    ensures Identified(db, user, key, body, after, i)
  {
    WithRowsAt(prepared, user, body, key, q, i);
  }

  lemma CreatedRows(db: Db, user: nat, body: CreateBookingDto, key: Option<string>, env: Env)
    requires IdsUsed(db) && Create(db, user, body, key, env).1.Ok?
    ensures var (after, r) := Create(db, user, body, key, env);
            r == Ok(db.nextGroup) && forall i: BookingId :: Identified(db, user, key, body, after.bookings, i)
  {
    CreateSucceeds(db, user, body, key, env);
    var q, prepared := QuoteFor(env.venue.value, db.coupons, body, db.now).value, Prepared(db, user, body);
    var rows, ids := WithRows(prepared, user, body, key, q), FreshIds(db.nextId, |RawSlots(body)|);
    PayingKeepsIdentity(rows, user, ids, db.nextGroup, q.charge, q.groupFinal, body.paymentMethod, body.walletAmountToUse,
                        NormalizedCoupon(body.couponCode), env.faults);
    var after := Create(db, user, body, key, env).0;
    forall i: BookingId ensures Identified(db, user, key, body, after.bookings, i) {
      IdentifyRow(db, prepared, user, body, key, q, after.bookings, i);
    }
  }

  /** The first request with a key that gets through ties the key to its group and its fingerprint. */
  lemma FirstUse(s: Service, user: nat, body: CreateBookingDto, idempotencyKey: Option<string>, key: string, env: Env,
                 keyLockFree: bool, cacheOk: bool)
    requires IdsUsed(s.db) && TrimmedKey(idempotencyKey) == Some(key) && |key| > 0 && Unused(s, user, key)
    ensures var (t, reply) := Handled(s, user, body, idempotencyKey, env, keyLockFree, cacheOk);
            && IdsUsed(t.db)
            && (reply.Created? ==> StandsFor(t, user, key, Fingerprint(body), reply.groupId))
            && (!reply.Created? ==> Unused(t, user, key) && !reply.Replayed?)
  {
    var (t, reply) := Handled(s, user, body, idempotencyKey, env, keyLockFree, cacheOk);
    CreateKeepsIds(s.db, user, body, Some(key), env);
    if reply.Created? {
      CreatedRows(s.db, user, body, Some(key), env);
      CreateSucceeds(s.db, user, body, Some(key), env);
      NewGroupStands(s.db, user, body, key, t.db.bookings);
    } else if GetsThrough(s.db, user, body, env) && t.db != s.db {
      CreateFailsCleared(s.db, user, body, Some(key), env);
    }
  }

  lemma NewGroupStands(db: Db, user: nat, body: CreateBookingDto, key: string, after: Bookings)
    requires |RawSlots(body)| > 0 && forall i :: i in db.bookings ==> !KeyedRow(db.bookings[i], user, key)
    requires forall i: BookingId :: Identified(db, user, Some(key), body, after, i)
    ensures exists i :: i in after && Carries(after[i], user, key, Fingerprint(body), db.nextGroup)
    ensures forall i :: i in after && KeyedRow(after[i], user, key) ==> Carries(after[i], user, key, Fingerprint(body), db.nextGroup)
  {
    assert Identified(db, user, Some(key), body, after, db.nextId);
    forall i | i in after && KeyedRow(after[i], user, key) ensures Carries(after[i], user, key, Fingerprint(body), db.nextGroup) {
      assert Identified(db, user, Some(key), body, after, i);
    }
  }

  /** From then on the key only replays: the same request gets the same group, any other a conflict, and nothing is written. */
  lemma LaterUse(s: Service, user: nat, body: CreateBookingDto, idempotencyKey: Option<string>, key: string, env: Env,
                 keyLockFree: bool, cacheOk: bool, hash: Canonical, groupId: nat)
    requires IdsUsed(s.db) && TrimmedKey(idempotencyKey) == Some(key) && |key| > 0 && StandsFor(s, user, key, hash, groupId)
    ensures var (t, reply) := Handled(s, user, body, idempotencyKey, env, keyLockFree, cacheOk);
            && t.db == s.db && StandsFor(t, user, key, hash, groupId)
            && reply == (if SlotErrorOf(RawSlots(body)).Some? then Refused(BadSlots(SlotErrorOf(RawSlots(body)).value))
                         else if Fingerprint(body) != hash then KeyMismatch
                         else if (user, key) !in s.cache && !cacheOk then CacheFailed
                         else Replayed(groupId))
  {
  }

  // ----- any sequence of requests -----

  /** The user calls with the key; or something else happens: a cache entry goes, time passes, others book and pay. */
  datatype Event =
    | Calls(body: CreateBookingDto, idempotencyKey: Option<string>, env: Env, keyLockFree: bool, cacheOk: bool)
    | Meanwhile(after: Service)

  function Handling(s: Service, user: nat, e: Event): (Service, Reply)
    requires e.Calls?
  {
    Handled(s, user, e.body, e.idempotencyKey, e.env, e.keyLockFree, e.cacheOk)
  }

  function Following(s: Service, user: nat, e: Event): Service {
    if e.Calls? then Handling(s, user, e).0 else e.after
  }

  function After(s: Service, user: nat, events: seq<Event>): Service {
    if |events| == 0 then s
    else Following(After(s, user, events[..|events| - 1]), user, events[|events| - 1])
  }

  /** The key's rows stay, nobody else writes the key, and the cache may forget it but not change it. */
  predicate KeepsKey(s: Service, after: Service, user: nat, key: string) {
    && IdsUsed(after.db)
    && ((user, key) in after.cache ==> (user, key) in s.cache && after.cache[(user, key)] == s.cache[(user, key)])
    && (forall i :: i in s.db.bookings && KeyedRow(s.db.bookings[i], user, key) ==> i in after.db.bookings)
    && (forall i :: i in after.db.bookings && KeyedRow(after.db.bookings[i], user, key) ==> i in s.db.bookings)
    && (forall i :: i in after.db.bookings && i in s.db.bookings ==>
          SameRow(s.db.bookings[i], after.db.bookings[i]))
  }

  predicate FitsKey(s: Service, user: nat, key: string, e: Event) {
    match e
    case Calls(_, idempotencyKey, _, _, _) => TrimmedKey(idempotencyKey) == Some(key)
    case Meanwhile(after) => KeepsKey(s, after, user, key)
  }

  /** Every event fits the state it happens in, and rs holds the reply to each call. */
  predicate Transcript(s: Service, user: nat, key: string, events: seq<Event>, rs: seq<Option<Reply>>) {
    && |rs| == |events|
    && (|events| > 0 ==>
          var n := |events| - 1;
          var before := After(s, user, events[..n]);
          && Transcript(s, user, key, events[..n], rs[..n])
          && FitsKey(before, user, key, events[n])
          && rs[n] == if events[n].Calls? then Some(Handling(before, user, events[n]).1) else None)
  }

  predicate CreatedAt(rs: seq<Option<Reply>>, k: nat)
    requires k < |rs|
  {
    rs[k].Some? && rs[k].value.Created?
  }

  lemma MeanwhileKeeps(s: Service, after: Service, user: nat, key: string, hash: Canonical, groupId: nat)
    requires KeepsKey(s, after, user, key)
    requires StandsFor(s, user, key, hash, groupId)
    ensures StandsFor(after, user, key, hash, groupId)
  {
  }

  lemma MeanwhileKeepsUnused(s: Service, after: Service, user: nat, key: string)
    requires KeepsKey(s, after, user, key) && Unused(s, user, key)
    ensures Unused(after, user, key)
  {
  }

  /** What the key has come to stand for: nothing yet, or a request and its group. */
  predicate Known(s: Service, user: nat, key: string, what: Option<Cached>) {
    if what.None? then Unused(s, user, key) else StandsFor(s, user, key, what.value.requestHash, what.value.groupId)
  }

  /** The one event that changes what the key stands for is a call that creates its group, and then only once. */
  lemma KnownAfter(s: Service, user: nat, key: string, e: Event, what: Option<Cached>)
    requires IdsUsed(s.db) && |key| > 0 && Known(s, user, key, what) && FitsKey(s, user, key, e)
    ensures IdsUsed(Following(s, user, e).db)
    ensures if e.Calls? && Handling(s, user, e).1.Created?
            then what.None? && Known(Following(s, user, e), user, key, Some(Cached(Fingerprint(e.body), Handling(s, user, e).1.groupId)))
            else Known(Following(s, user, e), user, key, what)
  {
    match e
    case Calls(body, idempotencyKey, env, keyLockFree, cacheOk) =>
      if what.None? {
        FirstUse(s, user, body, idempotencyKey, key, env, keyLockFree, cacheOk);
      } else {
        LaterUse(s, user, body, idempotencyKey, key, env, keyLockFree, cacheOk, what.value.requestHash, what.value.groupId);
      }
    case Meanwhile(after) =>
      if what.None? {
        MeanwhileKeepsUnused(s, after, user, key);
      } else {
        MeanwhileKeeps(s, after, user, key, what.value.requestHash, what.value.groupId);
      }
  }

  /** What the key stands for if its group was created at event c; nothing if c is past the end. */
  function KnownSince(events: seq<Event>, rs: seq<Option<Reply>>, c: nat): Option<Cached>
    requires |rs| == |events|
    requires c < |events| ==> events[c].Calls? && CreatedAt(rs, c)
  {
    if c < |events| then Some(Cached(Fingerprint(events[c].body), rs[c].value.groupId)) else None
  }

  /** The key is unused, or it stands for the one group that was created with it, at event c. */
  lemma {:induction false} KeyAfter(s: Service, user: nat, key: string, events: seq<Event>, rs: seq<Option<Reply>>) returns (c: nat)
    requires IdsUsed(s.db) && |key| > 0 && Unused(s, user, key) && Transcript(s, user, key, events, rs)
    ensures c <= |events| && IdsUsed(After(s, user, events).db)
    ensures c < |events| ==> events[c].Calls? && CreatedAt(rs, c)
    ensures Known(After(s, user, events), user, key, KnownSince(events, rs, c))
    ensures forall k :: 0 <= k < |events| && k != c ==> !CreatedAt(rs, k)
  {
    if |events| == 0 {
      c := 0;
    } else {
      var n := |events| - 1;
      var d := KeyAfter(s, user, key, events[..n], rs[..n]);
      var before, what := After(s, user, events[..n]), KnownSince(events[..n], rs[..n], d);
      KnownAfter(before, user, key, events[n], what);
      c := if d == n && !CreatedAt(rs, n) then n + 1 else d;
      assert d < n ==> what == KnownSince(events, rs, d) && !CreatedAt(rs, n);
      forall k | 0 <= k < n && k != d ensures !CreatedAt(rs, k) {
        assert !CreatedAt(rs[..n], k);
      }
    }
  }

  lemma {:induction false} TranscriptPrefix(s: Service, user: nat, key: string, events: seq<Event>, rs: seq<Option<Reply>>, n: nat)
    requires Transcript(s, user, key, events, rs) && n <= |events|
    ensures Transcript(s, user, key, events[..n], rs[..n])
  {
    if n == |events| {
      assert events[..n] == events && rs[..n] == rs;
    } else {
      var m := |events| - 1;
      TranscriptPrefix(s, user, key, events[..m], rs[..m], n);
      assert events[..m][..n] == events[..n] && rs[..m][..n] == rs[..n];
    }
  }

  lemma ReplyOnceKnown(s: Service, user: nat, key: string, e: Event, hash: Canonical, groupId: nat)
    requires IdsUsed(s.db) && |key| > 0 && StandsFor(s, user, key, hash, groupId) && e.Calls? && FitsKey(s, user, key, e)
    ensures Handling(s, user, e).0.db == s.db
    ensures Handling(s, user, e).1 == if SlotErrorOf(RawSlots(e.body)).Some? then Refused(BadSlots(SlotErrorOf(RawSlots(e.body)).value))
                                      else if Fingerprint(e.body) != hash then KeyMismatch
                                      else if (user, key) !in s.cache && !e.cacheOk then CacheFailed
                                      else Replayed(groupId)
  {
  }

  /**
   Idempotent replay: in any sequence of calls with one key, with cache entries evicted at will and anything else
   in between that leaves the key's rows standing, a group is created once at most; from then on every call leaves
   the database as it is, and is answered with that group if it asks for the same thing, with a conflict if not.
   */
  lemma IdempotentReplay(s: Service, user: nat, key: string, events: seq<Event>, rs: seq<Option<Reply>>, i: nat, j: nat)
    requires IdsUsed(s.db) && |key| > 0 && Unused(s, user, key) && Transcript(s, user, key, events, rs)
    requires i < j < |events| && CreatedAt(rs, i) && events[j].Calls?
    ensures events[i].Calls? && rs[j].Some?
    ensures After(s, user, events[..j + 1]).db == After(s, user, events[..j]).db
    ensures rs[j].value == if SlotErrorOf(RawSlots(events[j].body)).Some? then Refused(BadSlots(SlotErrorOf(RawSlots(events[j].body)).value))
                           else if Fingerprint(events[j].body) != Fingerprint(events[i].body) then KeyMismatch
                           else if (user, key) !in After(s, user, events[..j]).cache && !events[j].cacheOk then CacheFailed
                           else Replayed(rs[i].value.groupId)
  {
    TranscriptPrefix(s, user, key, events, rs, j + 1);
    TranscriptPrefix(s, user, key, events, rs, j);
    assert events[..j + 1][..j] == events[..j] && rs[..j + 1][..j] == rs[..j];
    var c := KeyAfter(s, user, key, events[..j], rs[..j]);
    assert CreatedAt(rs[..j], i);
    assert c == i;
    ReplyOnceKnown(After(s, user, events[..j]), user, key, events[j], Fingerprint(events[i].body), rs[i].value.groupId);
  }

  /** A row of the key is one of that requester's holds on the slots asked for, which the request replaces. */
  predicate ReplacesKeyed(s: Service, other: nat, body: CreateBookingDto, user: nat, key: string) {
    exists i :: i in s.db.bookings && KeyedRow(s.db.bookings[i], user, key) && ReplacedHold(s.db.bookings[i], other, body, s.db.now)
  }

  /** What a request that gets past the overlap stage does to a row that was there: it goes if it is replaced. */
  lemma RowAfterRequest(db: Db, other: nat, body: CreateBookingDto, otherKey: Option<string>, env: Env, i: BookingId)
    requires IdsUsed(db) && GetsThrough(db, other, body, env) && i in db.bookings
    ensures var after := Create(db, other, body, otherKey, env).0;
            && (i in after.bookings <==> !ReplacedHold(db.bookings[i], other, body, db.now))
            && (i in after.bookings ==> SameRow(db.bookings[i], after.bookings[i]))
  {
    if Create(db, other, body, otherKey, env).1.Ok? {
      CreatedRows(db, other, body, otherKey, env);
      assert Identified(db, other, otherKey, body, Create(db, other, body, otherKey, env).0.bookings, i);
    } else {
      CreateFailsCleared(db, other, body, otherKey, env);
    }
  }

  lemma NewRowNotKeyed(db: Db, other: nat, body: CreateBookingDto, otherKey: Option<string>, env: Env, user: nat, key: string,
                       i: BookingId)
    requires IdsUsed(db) && (other, otherKey) != (user, Some(key))
    requires i in Create(db, other, body, otherKey, env).0.bookings
    ensures KeyedRow(Create(db, other, body, otherKey, env).0.bookings[i], user, key) ==> i in db.bookings
    ensures i in db.bookings ==> SameRow(db.bookings[i], Create(db, other, body, otherKey, env).0.bookings[i])
  {
    var after := Create(db, other, body, otherKey, env).0;
    if Create(db, other, body, otherKey, env).1.Ok? {
      CreatedRows(db, other, body, otherKey, env);
      assert Identified(db, other, otherKey, body, after.bookings, i);
    } else if GetsThrough(db, other, body, env) {
      CreateFailsCleared(db, other, body, otherKey, env);
    }
  }

  /**
   Another request, by anyone and with any other key, leaves the key as it was unless it gets as far as replacing
   the requester's holds and a row of the key is one of them; then it does not.
   */
  lemma OtherRequestKeepsKey(s: Service, other: nat, body: CreateBookingDto, otherKey: Option<string>, env: Env, user: nat, key: string)
    requires IdsUsed(s.db) && (other, otherKey) != (user, Some(key))
    ensures KeepsKey(s, Booked(s, other, body, otherKey, env).0, user, key)
            <==> !(GetsThrough(s.db, other, body, env) && ReplacesKeyed(s, other, body, user, key))
  {
    CreateKeepsIds(s.db, other, body, otherKey, env);
    var t := Booked(s, other, body, otherKey, env).0;
    forall i | i in t.db.bookings
      ensures KeyedRow(t.db.bookings[i], user, key) ==> i in s.db.bookings
      ensures i in s.db.bookings ==> SameRow(s.db.bookings[i], t.db.bookings[i])
    {
      NewRowNotKeyed(s.db, other, body, otherKey, env, user, key, i);
    }
    forall i | i in s.db.bookings && KeyedRow(s.db.bookings[i], user, key)
      ensures i in t.db.bookings <==> !(GetsThrough(s.db, other, body, env) && ReplacedHold(s.db.bookings[i], other, body, s.db.now))
    {
      if GetsThrough(s.db, other, body, env) {
        RowAfterRequest(s.db, other, body, otherKey, env, i);
      }
    }
  }

  // ----- the service -----

  /** createBooking with its idempotency key, in front of the booking service. */
  class IdempotentBookings {
    const service: BookingService
    var cache: map<(nat, string), Cached>

    constructor (service: BookingService)
      ensures this.service == service && cache == map[]
    {
      this.service, cache := service, map[];
    }

    function View(): Service
      reads this, service.store, service.wallet
    {
      Service(service.View(), cache)
    }

    method FindKeyed(user: nat, key: string) returns (row: Option<BookingId>)
      ensures row == FirstKeyed(service.store.bookings, user, key, service.store.nextId)
    {
      var bookings := service.store.bookings;
      row := None;
      for i := 0 to service.store.nextId
        invariant row == FirstKeyed(bookings, user, key, i)
      {
        if row.None? && i in bookings && bookings[i].claim.user == user && bookings[i].bill.idempotencyKey == Some(key) {
          row := Some(i);
        }
      }
    }

    method BookNow(user: nat, body: CreateBookingDto, key: Option<string>, env: Env) returns (reply: Reply)
      requires IdsUsed(service.View())
      modifies service.store, service.wallet
      ensures (View(), reply) == Booked(old(View()), user, body, key, env)
    {
      var r := service.CreateBooking(user, body, key, env);
      reply := if r.Ok? then Created(r.value) else Refused(r.error);
    }

    method CreateBooking(user: nat, body: CreateBookingDto, idempotencyKey: Option<string>, env: Env, keyLockFree: bool,
                         cacheOk: bool) returns (reply: Reply)
      requires IdsUsed(service.View())
      modifies this, service.store, service.wallet
      ensures (View(), reply) == Handled(old(View()), user, body, idempotencyKey, env, keyLockFree, cacheOk)
    {
      var slotError := ValidateSlots(RawSlots(body));
      if slotError.Some? {
        return Refused(BadSlots(slotError.value));
      }
      var requestHash, key := Fingerprint(body), TrimmedKey(idempotencyKey);
      if key.None? || |key.value| == 0 {
        reply := BookNow(user, body, key, env);
        return;
      }
      var at := (user, key.value);
      if at in cache {
        return if cache[at].requestHash != requestHash then KeyMismatch else Replayed(cache[at].groupId);
      }
      var existing := FindKeyed(user, key.value);
      if existing.Some? {
        var row := service.store.bookings[existing.value];
        if row.bill.requestHash != requestHash {
          return KeyMismatch;
        }
        if !cacheOk {
          return CacheFailed;
        }
        cache := cache[at := Cached(requestHash, row.claim.groupId)];
        return Replayed(row.claim.groupId);
      }
      if !keyLockFree {
        return KeyBusy;
      }
      reply := BookNow(user, body, key, env);
      // A cache write that fails is recovered from the rows on the next call.
      if reply.Created? && cacheOk {
        cache := cache[at := Cached(requestHash, reply.groupId)];
      }
    }
  }
}
