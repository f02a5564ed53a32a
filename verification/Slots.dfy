/**
 Slot allocation. The rows are the slot part of the bookings; createBooking runs one repository call at a
 time under its lock on a venue and day, and everything else may happen between two of its calls.
 */
module Slots {
  import opened Prelude
  import opened BookingRequest

  type BookingId = nat

  datatype BookingStatus = Pending | Confirmed | Cancelled | Completed | Expired | NoShow

  /** The slot part of a booking. Times are milliseconds, days and hours whole numbers. */
  datatype Claim = Claim(user: nat, venue: nat, day: int, start: int, end: int, groupId: nat,
                         status: BookingStatus, expiresAt: Option<int>)

  type Table = map<BookingId, Claim>

  const HOLD_DURATION := 15 * 60 * 1000

  function SlotTime(day: int, hour: int): int {
    day * 24 * HOUR + hour * HOUR
  }

  /** The statuses under the partial unique index, and those every overlap query asks for. */
  predicate Active(c: Claim) {
    c.status.Confirmed? || c.status.Pending? || c.status.Completed?
  }

  predicate Lapsed(c: Claim, now: int) {
    c.status.Pending? && c.expiresAt.Some? && c.expiresAt.value <= now
  }

  predicate Live(c: Claim, now: int) {
    Active(c) && !Lapsed(c, now)
  }

  predicate SameDay(a: Claim, b: Claim) {
    a.venue == b.venue && a.day == b.day
  }

  predicate ClaimsOverlap(a: Claim, b: Claim) {
    SameDay(a, b) && a.start < b.end && a.end > b.start
  }

  predicate Covers(c: Claim, venue: nat, day: int, slot: Slot) {
    c.venue == venue && c.day == day && c.start < slot.end && c.end > slot.start
  }

  predicate CoversAny(c: Claim, venue: nat, day: int, slots: seq<Slot>) {
    exists k :: 0 <= k < |slots| && Covers(c, venue, day, slots[k])
  }

  ghost predicate NoDoubleBooking(table: Table, now: int) {
    forall i, j :: i in table && j in table && i != j && Live(table[i], now) && Live(table[j], now) ==>
      !ClaimsOverlap(table[i], table[j])
  }

  // ----- createBooking, one repository call at a time -----

  /** A request between the moment it takes the lock and the moment it releases it. */
  datatype Flight = Flight(user: nat, slots: seq<Slot>, groupId: nat, expiresAt: int, ids: seq<BookingId>)

  datatype VenueDay = VenueDay(venue: nat, day: int)

  datatype Sys = Sys(now: int, table: Table, flights: map<VenueDay, Flight>, nextId: BookingId)

  /** A row that is not the requester's own pending hold keeps everyone else out. */
  predicate Conflicts(c: Claim, user: nat, venue: nat, day: int, slots: seq<Slot>, asOf: int) {
    Live(c, asOf) && CoversAny(c, venue, day, slots) && !(c.status.Pending? && c.user == user)
  }

  predicate OwnHold(c: Claim, user: nat, venue: nat, day: int, slots: seq<Slot>, asOf: int) {
    Live(c, asOf) && CoversAny(c, venue, day, slots) && c.status.Pending? && c.user == user
  }

  predicate OverlapStageRejects(table: Table, user: nat, venue: nat, day: int, slots: seq<Slot>, asOf: int) {
    exists i :: i in table && Conflicts(table[i], user, venue, day, slots, asOf)
  }

  function WithoutOwnHolds(table: Table, user: nat, venue: nat, day: int, slots: seq<Slot>, asOf: int): Table {
    map i | i in table && !OwnHold(table[i], user, venue, day, slots, asOf) :: table[i]
  }

  predicate SlotsAhead(day: int, slots: seq<Slot>, asOf: int) {
    forall k :: 0 <= k < |slots| ==> SlotTime(day, slots[k].start) > asOf
  }

  /** The unique index refuses a second active row with the same venue, day and start. */
  predicate IndexRefuses(table: Table, venue: nat, day: int, start: int) {
    exists i :: i in table && Active(table[i]) && table[i].venue == venue && table[i].day == day && table[i].start == start
  }

  /** It refuses an update that makes a row active, too, if another row has the place. */
  predicate IndexBlocks(table: Table, id: BookingId)
    requires id in table
  {
    exists j :: j in table && j != id && Active(table[j]) && SameDay(table[j], table[id]) && table[j].start == table[id].start
  }

  function WithStatus(c: Claim, status: BookingStatus): Claim {
    c.(status := status)
  }

  function ConfirmedClaim(c: Claim): Claim {
    c.(status := Confirmed, expiresAt := None)
  }

  /** The cron: lapsed holds expire, then whatever is confirmed or pending past its end is a no-show. */
  function Swept(c: Claim, now: int): Claim {
    var d := if Lapsed(c, now) then WithStatus(c, Expired) else c;
    if (d.status.Confirmed? || d.status.Pending?) && SlotTime(d.day, 0) <= now && now >= SlotTime(d.day, d.end)
    then WithStatus(d, NoShow) else d
  }

  /** An upcoming booking of a suspended user: today counts until the end of its slot's last hour. */
  predicate Upcoming(c: Claim, now: int) {
    var today := now / (24 * HOUR);
    c.day > today || (c.day == today && c.end > (now % (24 * HOUR)) / HOUR)
  }

  /** A webhook finds the hold gone. */
  predicate TooLate(c: Claim, now: int) {
    c.status.Expired? || c.status.Cancelled? || Lapsed(c, now)
  }

  predicate AnyTooLate(table: Table, groupId: nat, now: int) {
    exists i :: i in table && table[i].groupId == groupId && TooLate(table[i], now)
  }

  datatype Step =
    /** Past validation, the request has waited for its lock since it read the clock. */
    | Begin(user: nat, venue: nat, day: int, slots: seq<Slot>, groupId: nat, waited: nat)
    | Insert(at: VenueDay)
    | ConfirmCreated(at: VenueDay, k: nat)
    | Abort(at: VenueDay)
    | Finish(at: VenueDay)
    /** payBooking finds its booking lapsed, or leaves the slots alone. */
    | PayCheck(id: BookingId)
    /** One confirming write of payBooking, or of a payment callback that looked at its group earlier. */
    | ConfirmPaid(id: BookingId)
    /** A payment callback, its look at the group and its writes in one; or one of its writes when it came too late. */
    | WebhookSuccess(groupId: nat)
    | ExpireLate(id: BookingId)
    | Cron
    | Cancel(id: BookingId)
    | RefundGroup(groupId: nat)
    | SuspensionSweep(user: nat)
    | Tick(ms: nat)

  function Begun(s: Sys, user: nat, venue: nat, day: int, slots: seq<Slot>, groupId: nat, waited: nat): Sys {
    var at, asOf := VenueDay(venue, day), s.now - waited;
    if at in s.flights || !SlotsValid(slots) || !SlotsAhead(day, slots, asOf)
       || OverlapStageRejects(s.table, user, venue, day, slots, asOf) then s
    else s.(table := WithoutOwnHolds(s.table, user, venue, day, slots, asOf),
            flights := s.flights[at := Flight(user, slots, groupId, s.now + HOLD_DURATION, [])])
  }

  function Aborted(s: Sys, at: VenueDay): Sys {
    if at !in s.flights then s
    else s.(table := map i | i in s.table && i !in s.flights[at].ids :: s.table[i], flights := s.flights - {at})
  }

  function NewClaim(at: VenueDay, f: Flight, k: nat): Claim
    requires k < |f.slots|
  {
    Claim(f.user, at.venue, at.day, f.slots[k].start, f.slots[k].end, f.groupId, Pending, Some(f.expiresAt))
  }

  function Inserted(s: Sys, at: VenueDay): Sys {
    if at !in s.flights || |s.flights[at].ids| >= |s.flights[at].slots| then s
    else
      var f := s.flights[at];
      var slot := f.slots[|f.ids|];
      if IndexRefuses(s.table, at.venue, at.day, slot.start) then Aborted(s, at)
      else s.(table := s.table[s.nextId := NewClaim(at, f, |f.ids|)],
              flights := s.flights[at := f.(ids := f.ids + [s.nextId])], nextId := s.nextId + 1)
  }

  function Next(s: Sys, step: Step): Sys {
    match step
    case Begin(user, venue, day, slots, groupId, waited) => Begun(s, user, venue, day, slots, groupId, waited)
    case Insert(at) => Inserted(s, at)
    case ConfirmCreated(at, k) =>
      if at in s.flights && k < |s.flights[at].ids| && s.flights[at].ids[k] in s.table
      then s.(table := s.table[s.flights[at].ids[k] := ConfirmedClaim(s.table[s.flights[at].ids[k]])])
      else s
    case Abort(at) => Aborted(s, at)
    case Finish(at) => s.(flights := s.flights - {at})
    case PayCheck(id) =>
      if id in s.table && Lapsed(s.table[id], s.now)
      then s.(table := s.table[id := WithStatus(s.table[id], Expired)]) else s
    case ConfirmPaid(id) =>
      if id in s.table && !IndexBlocks(s.table, id) then s.(table := s.table[id := ConfirmedClaim(s.table[id])]) else s
    case WebhookSuccess(groupId) =>
      var late := AnyTooLate(s.table, groupId, s.now);
      s.(table := map i | i in s.table ::
          if s.table[i].groupId != groupId then s.table[i]
          else if !late then ConfirmedClaim(s.table[i])
          else if s.table[i].status.Cancelled? then s.table[i]
          else WithStatus(s.table[i], Expired))
    case ExpireLate(id) =>
      if id in s.table && !s.table[id].status.Cancelled?
      then s.(table := s.table[id := WithStatus(s.table[id], Expired)]) else s
    case Cron => s.(table := map i | i in s.table :: Swept(s.table[i], s.now))
    case Cancel(id) =>
      if id in s.table && !s.table[id].status.Cancelled? && !s.table[id].status.Completed?
      then s.(table := s.table[id := s.table[id].(status := Cancelled, expiresAt := None)]) else s
    case RefundGroup(groupId) =>
      s.(table := map i | i in s.table ::
          if s.table[i].groupId == groupId then s.table[i].(status := Cancelled, expiresAt := None) else s.table[i])
    case SuspensionSweep(user) =>
      s.(table := map i | i in s.table ::
          if s.table[i].user == user && (s.table[i].status.Confirmed? || s.table[i].status.Pending?)
             && Upcoming(s.table[i], s.now)
          then WithStatus(s.table[i], Cancelled) else s.table[i])
    case Tick(ms) => s.(now := s.now + ms)
  }

  function Run(s: Sys, steps: seq<Step>): Sys {
    if |steps| == 0 then s else Next(Run(s, steps[..|steps| - 1]), steps[|steps| - 1])
  }

  // ----- the invariant -----

  /** Live rows and no-shows: the rows a payment may still confirm. */
  predicate Occupies(c: Claim, now: int) {
    Live(c, now) || c.status.NoShow?
  }

  predicate Indexed(c: Claim) {
    Active(c) || c.status.NoShow?
  }

  ghost predicate RowsGood(s: Sys) {
    forall i :: i in s.table ==>
      && i < s.nextId
      && s.table[i].start < s.table[i].end
      && (s.table[i].status.NoShow? ==> SlotTime(s.table[i].day, s.table[i].end) <= s.now)
  }

  ghost predicate NoOverlap(s: Sys) {
    forall i, j :: i in s.table && j in s.table && i != j && Occupies(s.table[i], s.now) && Occupies(s.table[j], s.now) ==>
      !ClaimsOverlap(s.table[i], s.table[j])
  }

  /** No update ever makes two rows collide under the unique index. */
  ghost predicate IndexUnique(s: Sys) {
    forall i, j :: i in s.table && j in s.table && i != j && Indexed(s.table[i]) && Indexed(s.table[j])
                   && SameDay(s.table[i], s.table[j]) ==>
      s.table[i].start != s.table[j].start
  }

  /** What holds of a request under its lock: no other row is, or will be, in the way of its slots. */
  ghost predicate FlightGood(s: Sys, at: VenueDay, f: Flight) {
    && SlotsValid(f.slots)
    && |f.ids| <= |f.slots|
    && (forall k :: 0 <= k < |f.ids| ==> f.ids[k] < s.nextId)
    && (forall k, l :: 0 <= k < l < |f.ids| ==> f.ids[k] != f.ids[l])
    && (forall k :: 0 <= k < |f.ids| && f.ids[k] in s.table ==>
          var c := s.table[f.ids[k]];
          c.venue == at.venue && c.day == at.day && c.start == f.slots[k].start && c.end == f.slots[k].end)
    && (forall i, k :: i in s.table && i !in f.ids && 0 <= k < |f.slots| && Occupies(s.table[i], s.now) ==>
          !Covers(s.table[i], at.venue, at.day, f.slots[k]))
    && (forall i, k :: i in s.table && i !in f.ids && Indexed(s.table[i]) && 0 <= k < |f.ids|
                       && s.table[i].venue == at.venue && s.table[i].day == at.day ==>
          s.table[i].start != f.slots[k].start)
  }

  ghost predicate Inv(s: Sys) {
    && RowsGood(s)
    && NoOverlap(s)
    && IndexUnique(s)
    && (forall at :: at in s.flights ==> FlightGood(s, at, s.flights[at]))
  }

  lemma InvMeansNoDoubleBooking(s: Sys)
    requires Inv(s)
    ensures NoDoubleBooking(s.table, s.now)
  {
  }

  /** The step only takes rows away, or moves rows to statuses that occupy no more than before. */
  ghost predicate Shrinks(s: Sys, t: Sys) {
    && s.now <= t.now && s.nextId == t.nextId
    && (forall at :: at in t.flights ==> at in s.flights && t.flights[at] == s.flights[at])
    && (forall i :: i in t.table ==>
          && i in s.table
          && SameDay(t.table[i], s.table[i])
          && t.table[i].start == s.table[i].start && t.table[i].end == s.table[i].end
          && (Occupies(t.table[i], t.now) ==> Occupies(s.table[i], s.now))
          && (Indexed(t.table[i]) ==> Indexed(s.table[i]))
          && (t.table[i].status.NoShow? ==> SlotTime(t.table[i].day, t.table[i].end) <= t.now))
  }

  lemma ShrinkKeepsRows(s: Sys, t: Sys)
    requires Inv(s) && Shrinks(s, t)
    ensures RowsGood(t) && NoOverlap(t) && IndexUnique(t)
  {
  }

  lemma ShrinkKeepsFlight(s: Sys, t: Sys, at: VenueDay, f: Flight)
    requires FlightGood(s, at, f) && Shrinks(s, t)
    ensures FlightGood(t, at, f)
  {
  }

  lemma ShrinkKeepsInv(s: Sys, t: Sys)
    requires Inv(s) && Shrinks(s, t)
    ensures Inv(t)
  {
    ShrinkKeepsRows(s, t);
    forall at | at in t.flights ensures FlightGood(t, at, t.flights[at]) {
      ShrinkKeepsFlight(s, t, at, s.flights[at]);
    }
  }

  // ----- createBooking's own steps -----

  lemma SameStartCovers(c: Claim, at: VenueDay, slot: Slot)
    requires c.start < c.end && slot.start < slot.end && c.start == slot.start
    requires c.venue == at.venue && c.day == at.day
    ensures Covers(c, at.venue, at.day, slot)
  {
  }

  lemma BeginKeepsInv(s: Sys, user: nat, venue: nat, day: int, slots: seq<Slot>, groupId: nat, waited: nat)
    requires Inv(s) && waited <= HOUR
    ensures Inv(Begun(s, user, venue, day, slots, groupId, waited))
  {
    var t := Begun(s, user, venue, day, slots, groupId, waited);
    var at, asOf := VenueDay(venue, day), s.now - waited;
    if t != s {
      var cleared := s.(table := t.table);
      ShrinkKeepsInv(s, cleared);
      forall i, k | i in t.table && 0 <= k < |slots| && Occupies(t.table[i], t.now)
        ensures !Covers(t.table[i], venue, day, slots[k])
      {
        var c := t.table[i];
        assert c == s.table[i] && SlotTime(day, slots[k].start) > asOf;
        if Live(c, s.now) {
          assert Live(c, asOf) && !Conflicts(c, user, venue, day, slots, asOf);
        }
      }
      assert FlightGood(t, at, t.flights[at]);
      forall a | a in t.flights ensures FlightGood(t, a, t.flights[a]) {
        if a != at {
          assert FlightGood(cleared, a, cleared.flights[a]);
        }
      }
    }
  }

  lemma InsertMeetsNoRow(s: Sys, at: VenueDay, i: BookingId)
    requires Inv(s) && at in s.flights && |s.flights[at].ids| < |s.flights[at].slots|
    requires i in s.table && s.table[i].venue == at.venue && s.table[i].day == at.day
    ensures var slot := s.flights[at].slots[|s.flights[at].ids|];
            Occupies(s.table[i], s.now) ==> !Covers(s.table[i], at.venue, at.day, slot)
    ensures var slot := s.flights[at].slots[|s.flights[at].ids|];
            !IndexRefuses(s.table, at.venue, at.day, slot.start) && Indexed(s.table[i]) ==> s.table[i].start != slot.start
  {
  }

  lemma InsertKeepsRows(s: Sys, at: VenueDay)
    requires Inv(s) && at in s.flights && |s.flights[at].ids| < |s.flights[at].slots|
    requires !IndexRefuses(s.table, at.venue, at.day, s.flights[at].slots[|s.flights[at].ids|].start)
    ensures RowsGood(Inserted(s, at)) && NoOverlap(Inserted(s, at)) && IndexUnique(Inserted(s, at))
  {
    var t, f, id := Inserted(s, at), s.flights[at], s.nextId;
    assert FlightGood(s, at, f);
    var slot := f.slots[|f.ids|];
    assert SlotInRange(slot);
    assert t.table == s.table[id := NewClaim(at, f, |f.ids|)];
    forall i | i in s.table && SameDay(s.table[i], t.table[id])
      ensures Occupies(s.table[i], s.now) ==> !ClaimsOverlap(s.table[i], t.table[id]) && !ClaimsOverlap(t.table[id], s.table[i])
      ensures Indexed(s.table[i]) ==> s.table[i].start != t.table[id].start
    {
      InsertMeetsNoRow(s, at, i);
    }
  }

  lemma InsertKeepsStarts(s: Sys, at: VenueDay, i: BookingId, k: nat)
    requires Inv(s) && at in s.flights && |s.flights[at].ids| < |s.flights[at].slots|
    requires !IndexRefuses(s.table, at.venue, at.day, s.flights[at].slots[|s.flights[at].ids|].start)
    requires i in s.table && i !in s.flights[at].ids && Indexed(s.table[i]) && k <= |s.flights[at].ids|
    requires s.table[i].venue == at.venue && s.table[i].day == at.day
    ensures s.table[i].start != s.flights[at].slots[k].start
  {
    assert FlightGood(s, at, s.flights[at]);
    if k == |s.flights[at].ids| {
      InsertMeetsNoRow(s, at, i);
    }
  }

  lemma InsertKeepsFlight(s: Sys, at: VenueDay)
    requires Inv(s) && at in s.flights && |s.flights[at].ids| < |s.flights[at].slots|
    requires !IndexRefuses(s.table, at.venue, at.day, s.flights[at].slots[|s.flights[at].ids|].start)
    ensures FlightGood(Inserted(s, at), at, Inserted(s, at).flights[at])
  {
    var f := s.flights[at];
    forall i, k | i in s.table && i !in f.ids && Indexed(s.table[i]) && 0 <= k <= |f.ids|
                  && s.table[i].venue == at.venue && s.table[i].day == at.day
      ensures s.table[i].start != f.slots[k].start
    {
      InsertKeepsStarts(s, at, i, k);
    }
    GrownFlightGood(s, at, f);
  }

  lemma GrownFlightGood(s: Sys, at: VenueDay, f: Flight)
    requires FlightGood(s, at, f) && |f.ids| < |f.slots| && s.nextId !in s.table
    requires forall i, k :: i in s.table && i !in f.ids && Indexed(s.table[i]) && 0 <= k <= |f.ids|
                            && s.table[i].venue == at.venue && s.table[i].day == at.day ==>
               s.table[i].start != f.slots[k].start
    ensures var g := f.(ids := f.ids + [s.nextId]);
            FlightGood(Sys(s.now, s.table[s.nextId := NewClaim(at, f, |f.ids|)], s.flights[at := g], s.nextId + 1), at, g)
  {
    var g := f.(ids := f.ids + [s.nextId]);
    assert s.nextId in g.ids && forall j :: j in f.ids ==> j in g.ids;
  }

  lemma InsertKeepsOther(s: Sys, at: VenueDay, a: VenueDay)
    requires Inv(s) && at in s.flights && |s.flights[at].ids| < |s.flights[at].slots| && a in s.flights && a != at
    requires !IndexRefuses(s.table, at.venue, at.day, s.flights[at].slots[|s.flights[at].ids|].start)
    ensures FlightGood(Inserted(s, at), a, s.flights[a])
  {
  }

  lemma AbortKeepsInv(s: Sys, at: VenueDay)
    requires Inv(s)
    ensures Inv(Aborted(s, at))
  {
    ShrinkKeepsInv(s, Aborted(s, at));
  }

  lemma InsertKeepsInv(s: Sys, at: VenueDay)
    requires Inv(s)
    ensures Inv(Inserted(s, at))
  {
    if at in s.flights && |s.flights[at].ids| < |s.flights[at].slots| {
      if IndexRefuses(s.table, at.venue, at.day, s.flights[at].slots[|s.flights[at].ids|].start) {
        AbortKeepsInv(s, at);
      } else {
        InsertKeepsRows(s, at);
        InsertKeepsFlight(s, at);
        forall a | a in s.flights && a != at ensures FlightGood(Inserted(s, at), a, s.flights[a]) {
          InsertKeepsOther(s, at, a);
        }
      }
    }
  }

  predicate ApartFrom(s: Sys, i: BookingId, c: Claim)
    requires i in s.table
  {
    && (Occupies(s.table[i], s.now) ==> !ClaimsOverlap(s.table[i], c) && !ClaimsOverlap(c, s.table[i]))
    && (Indexed(s.table[i]) ==> s.table[i].start != c.start)
  }

  /** A created row may have been cancelled or expired meanwhile; under the lock nobody took its place. */
  lemma CreatedRowApart(s: Sys, at: VenueDay, k: nat, i: BookingId)
    requires Inv(s) && at in s.flights && k < |s.flights[at].ids| && s.flights[at].ids[k] in s.table
    requires i in s.table && i != s.flights[at].ids[k] && SameDay(s.table[i], s.table[s.flights[at].ids[k]])
    ensures ApartFrom(s, i, s.table[s.flights[at].ids[k]])
  {
  }

  lemma ConfirmedRowFits(s: Sys, id: BookingId)
    requires RowsGood(s) && NoOverlap(s) && IndexUnique(s) && id in s.table
    requires forall i :: i in s.table && i != id && SameDay(s.table[i], s.table[id]) ==> ApartFrom(s, i, s.table[id])
    ensures var t := s.(table := s.table[id := ConfirmedClaim(s.table[id])]); RowsGood(t) && NoOverlap(t) && IndexUnique(t)
  {
  }

  lemma ConfirmKeepsInv(s: Sys, at: VenueDay, k: nat)
    requires Inv(s)
    ensures Inv(Next(s, ConfirmCreated(at, k)))
  {
    var t := Next(s, ConfirmCreated(at, k));
    if t != s {
      var id := s.flights[at].ids[k];
      forall i | i in s.table && i != id && SameDay(s.table[i], s.table[id]) ensures ApartFrom(s, i, s.table[id]) {
        CreatedRowApart(s, at, k, i);
      }
      ConfirmedRowFits(s, id);
      forall a | a in t.flights ensures FlightGood(t, a, t.flights[a]) {
        ConfirmKeepsFlight(s, at, k, a);
      }
    }
  }

  lemma ConfirmKeepsFlight(s: Sys, at: VenueDay, k: nat, a: VenueDay)
    requires Inv(s) && at in s.flights && a in s.flights && k < |s.flights[at].ids| && s.flights[at].ids[k] in s.table
    ensures FlightGood(Next(s, ConfirmCreated(at, k)), a, s.flights[a])
  {
    assert FlightGood(s, a, s.flights[a]) && FlightGood(s, at, s.flights[at]);
  }

  // ----- whole runs -----

  /**
   What the code leaves to timing: a request gets its lock within the hour of reading the clock (it gives
   up after ten tries), and a confirmation that payBooking or a callback writes on its own lands while its row
   still occupies its slot.
   */
  predicate Allowed(s: Sys, step: Step) {
    && (step.Begin? ==> step.waited <= HOUR)
    && (step.ConfirmPaid? && step.id in s.table ==> Occupies(s.table[step.id], s.now))
  }

  predicate OfCreate(step: Step) {
    step.Begin? || step.Insert? || step.ConfirmCreated? || step.Abort?
  }

  lemma CronShrinks(s: Sys)
    requires Inv(s)
    ensures Shrinks(s, Next(s, Cron))
  {
  }

  lemma WebhookShrinks(s: Sys, groupId: nat)
    requires Inv(s)
    ensures Shrinks(s, Next(s, WebhookSuccess(groupId)))
  {
  }

  lemma SuspensionShrinks(s: Sys, user: nat)
    requires Inv(s)
    ensures Shrinks(s, Next(s, SuspensionSweep(user)))
  {
  }

  lemma RefundShrinks(s: Sys, groupId: nat)
    requires Inv(s)
    ensures Shrinks(s, Next(s, RefundGroup(groupId)))
  {
  }

  lemma TickShrinks(s: Sys, ms: nat)
    requires Inv(s)
    ensures Shrinks(s, Next(s, Tick(ms)))
  {
  }

  lemma OneRowShrinks(s: Sys, t: Sys, id: BookingId)
    requires Inv(s)
    requires t != s ==>
               && id in s.table && id in t.table && t == s.(table := s.table[id := t.table[id]])
               && SameDay(t.table[id], s.table[id])
               && t.table[id].start == s.table[id].start && t.table[id].end == s.table[id].end
               && !t.table[id].status.NoShow? && (Active(t.table[id]) ==> Occupies(s.table[id], s.now))
    ensures Shrinks(s, t)
  {
  }

  lemma OtherStepShrinks(s: Sys, step: Step)
    requires Inv(s) && Allowed(s, step) && !OfCreate(step)
    ensures Shrinks(s, Next(s, step))
  {
    match step
    case Cron => CronShrinks(s);
    case WebhookSuccess(groupId) => WebhookShrinks(s, groupId);
    case SuspensionSweep(user) => SuspensionShrinks(s, user);
    case RefundGroup(groupId) => RefundShrinks(s, groupId);
    case Tick(ms) => TickShrinks(s, ms);
    case PayCheck(id) => OneRowShrinks(s, Next(s, step), id);
    case ConfirmPaid(id) => OneRowShrinks(s, Next(s, step), id);
    case ExpireLate(id) => OneRowShrinks(s, Next(s, step), id);
    case Cancel(id) => OneRowShrinks(s, Next(s, step), id);
    case _ =>
  }

  lemma NextKeepsInv(s: Sys, step: Step)
    requires Inv(s) && Allowed(s, step)
    ensures Inv(Next(s, step))
  {
    match step
    case Begin(user, venue, day, slots, groupId, waited) => BeginKeepsInv(s, user, venue, day, slots, groupId, waited);
    case Insert(at) => InsertKeepsInv(s, at);
    case ConfirmCreated(at, k) => ConfirmKeepsInv(s, at, k);
    case Abort(at) => AbortKeepsInv(s, at);
    case _ =>
      OtherStepShrinks(s, step);
      ShrinkKeepsInv(s, Next(s, step));
  }

  const EMPTY := Sys(0, map[], map[], 0)

  /**
   No double booking in any reachable state: requests interleaved call by call with payments, webhooks,
   cron, cancellations, refunds, suspensions and the clock, lapsed holds not cleaned up included.
   */
  lemma {:induction false} NoDoubleBookingOnRuns(s: Sys, steps: seq<Step>)
    requires Inv(s)
    requires forall k :: 0 <= k < |steps| ==> Allowed(Run(s, steps[..k]), steps[k])
    ensures Inv(Run(s, steps))
    ensures NoDoubleBooking(Run(s, steps).table, Run(s, steps).now)
  {
    if |steps| > 0 {
      var n := |steps| - 1;
      forall k | 0 <= k < n ensures Allowed(Run(s, steps[..n][..k]), steps[..n][k]) {
        assert steps[..n][..k] == steps[..k];
      }
      NoDoubleBookingOnRuns(s, steps[..n]);
      NextKeepsInv(Run(s, steps[..n]), steps[n]);
    }
  }

  lemma EmptyGood()
    ensures Inv(EMPTY)
  {
  }

  lemma NoDoubleBookingFromEmpty(steps: seq<Step>)
    requires forall k :: 0 <= k < |steps| ==> Allowed(Run(EMPTY, steps[..k]), steps[k])
    ensures NoDoubleBooking(Run(EMPTY, steps).table, Run(EMPTY, steps).now)
  {
    EmptyGood();
    NoDoubleBookingOnRuns(EMPTY, steps);
  }

  /** A row under its request's lock is never refused its confirmation: nobody else has its place in the index. */
  lemma CreatedRowNeverBlocked(s: Sys, at: VenueDay, k: nat)
    requires Inv(s) && at in s.flights && k < |s.flights[at].ids| && s.flights[at].ids[k] in s.table
    ensures !IndexBlocks(s.table, s.flights[at].ids[k])
  {
    var id := s.flights[at].ids[k];
    if j :| j in s.table && j != id && Active(s.table[j]) && SameDay(s.table[j], s.table[id]) && s.table[j].start == s.table[id].start {
      CreatedRowApart(s, at, k, j);
    }
  }

  /** The hours have been sold again in a way the index does not see: to a live row with another start. */
  predicate Resold(table: Table, id: BookingId, now: int)
    requires id in table
  {
    exists j :: j in table && j != id && Live(table[j], now) && ClaimsOverlap(table[id], table[j]) && table[j].start != table[id].start
  }

  /** When one confirming write is safe: the index refuses it, or nobody live has the hours under another start. */
  lemma ConfirmationSafeIff(s: Sys, id: BookingId)
    requires id in s.table && NoDoubleBooking(s.table, s.now)
    ensures NoDoubleBooking(Next(s, ConfirmPaid(id)).table, s.now)
            <==> IndexBlocks(s.table, id) || !Resold(s.table, id, s.now)
  {
    if IndexBlocks(s.table, id) {
      return;
    }
    var t := Next(s, ConfirmPaid(id)).table;
    forall j | j in s.table && j != id
      ensures t[j] == s.table[j] && (ClaimsOverlap(t[id], t[j]) <==> ClaimsOverlap(s.table[id], s.table[j]))
    {
    }
    assert Live(t[id], s.now);
  }

  /** Three rows of one day: two of group 5, whose first hour was sold again to another user. */
  function ResoldRows(first: Claim): Table {
    map[1 := first, 2 := Claim(7, 1, 1, 20, 21, 5, Pending, Some(900)), 3 := Claim(8, 1, 1, 19, 20, 6, Confirmed, None)]
  }

  lemma ResoldRowsGood(first: Claim)
    requires first == Claim(7, 1, 1, 18, 20, 5, Cancelled, None)
    ensures Inv(Sys(0, ResoldRows(first), map[], 4))
  {
    var s := Sys(0, ResoldRows(first), map[], 4);
    ResoldRowsIndexed(first);
    ResoldRowsApart(s.table);
  }

  lemma ResoldRowsApart(table: Table)
    requires table == ResoldRows(Claim(7, 1, 1, 18, 20, 5, Cancelled, None))
    ensures NoOverlap(Sys(0, table, map[], 4))
  {
  }

  lemma ResoldRowsIndexed(first: Claim)
    requires first.start == 18
    ensures IndexUnique(Sys(0, ResoldRows(first), map[], 4))
  {
  }

  /**
   payBooking confirms every member of the group of the booking it checked. If one of them had been
   cancelled and its hour sold again, that confirmation is a double booking, and the index does not see it.
   */
  lemma PayingGroupWithCancelledMember()
    ensures var first := Claim(7, 1, 1, 18, 20, 5, Cancelled, None);
            var s := Sys(0, ResoldRows(first), map[], 4);
            && Inv(s) && Live(s.table[2], 0) && s.table[1].groupId == s.table[2].groupId
            && !Allowed(s, ConfirmPaid(1))
            && !NoDoubleBooking(Next(s, ConfirmPaid(1)).table, 0)
            && IndexUnique(Next(s, ConfirmPaid(1)))
  {
    var first := Claim(7, 1, 1, 18, 20, 5, Cancelled, None);
    var after := ResoldRows(ConfirmedClaim(first));
    assert Next(Sys(0, ResoldRows(first), map[], 4), ConfirmPaid(1)) == Sys(0, after, map[], 4);
    ResoldRowsGood(first);
    ResoldRowsIndexed(ConfirmedClaim(first));
    assert Live(after[1], 0) && Live(after[3], 0) && ClaimsOverlap(after[1], after[3]);
  }

  /** A request for one slot that no live row covers goes through in two calls, unless the index refuses its row. */
  lemma LoneRequestGetsItsSlot(s: Sys, user: nat, at: VenueDay, slot: Slot, groupId: nat)
    requires at !in s.flights && SlotInRange(slot) && SlotTime(at.day, slot.start) > s.now
    requires forall i :: i in s.table && Live(s.table[i], s.now) ==> !Covers(s.table[i], at.venue, at.day, slot)
    ensures var t := Inserted(Begun(s, user, at.venue, at.day, [slot], groupId, 0), at);
            t == if IndexRefuses(s.table, at.venue, at.day, slot.start) then s
                 else Sys(s.now, s.table[s.nextId := Claim(user, at.venue, at.day, slot.start, slot.end, groupId, Pending,
                                                           Some(s.now + HOLD_DURATION))],
                          s.flights[at := Flight(user, [slot], groupId, s.now + HOLD_DURATION, [s.nextId])], s.nextId + 1)
  {
    BeginFree(s, user, at, slot, groupId);
    var f := Flight(user, [slot], groupId, s.now + HOLD_DURATION, []);
    var b := s.(flights := s.flights[at := f]);
    if IndexRefuses(s.table, at.venue, at.day, slot.start) {
      assert Aborted(b, at).table == s.table && Aborted(b, at).flights == s.flights;
    } else {
      InsertedRow(b, at, f);
      assert [] + [s.nextId] == [s.nextId] && b.flights[at := f.(ids := [s.nextId])] == s.flights[at := f.(ids := [s.nextId])];
    }
  }

  lemma BeginFree(s: Sys, user: nat, at: VenueDay, slot: Slot, groupId: nat)
    requires at !in s.flights && SlotInRange(slot) && SlotTime(at.day, slot.start) > s.now
    requires forall i :: i in s.table && Live(s.table[i], s.now) ==> !Covers(s.table[i], at.venue, at.day, slot)
    ensures Begun(s, user, at.venue, at.day, [slot], groupId, 0)
            == s.(flights := s.flights[at := Flight(user, [slot], groupId, s.now + HOLD_DURATION, [])])
  {
    assert WithoutOwnHolds(s.table, user, at.venue, at.day, [slot], s.now) == s.table;
  }

  /**
   The other way round the hypothesis: checked in time, but confirmed after the hold has lapsed and the
   hour has been sold to somebody else.
   */
  lemma ConfirmingAfterLapse()
    ensures var at := VenueDay(1, 1);
            var s0 := Sys(1000, map[1 := Claim(7, 1, 1, 18, 20, 5, Pending, Some(1001))], map[], 2);
            var s1 := Next(Next(s0, PayCheck(1)), Tick(1));
            var s2 := Next(Next(s1, Begin(8, 1, 1, [Slot(19, 20)], 6, 0)), Insert(at));
            var s3 := Next(s2, ConfirmPaid(1));
            s1.table == s0.table && !NoDoubleBooking(s3.table, s3.now)
  {
    var a, at := Claim(7, 1, 1, 18, 20, 5, Pending, Some(1001)), VenueDay(1, 1);
    var s0 := Sys(1000, map[1 := a], map[], 2);
    var s1 := Sys(1001, map[1 := a], map[], 2);
    assert Next(s0, PayCheck(1)) == s0 && Next(s0, Tick(1)) == s1;
    LoneRequestGetsItsSlot(s1, 8, at, Slot(19, 20), 6);
    var s2 := Inserted(Begun(s1, 8, 1, 1, [Slot(19, 20)], 6, 0), at);
    var t := Next(s2, ConfirmPaid(1));
    assert Live(t.table[1], 1001) && Live(t.table[2], 1001) && ClaimsOverlap(t.table[1], t.table[2]);
  }

  // ----- availability -----

  /** One line of getAvailability. */
  datatype Entry = Entry(day: int, start: int, end: int, status: BookingStatus, user: nat, expiresAt: Option<int>)

  function EntryOf(c: Claim): Entry {
    Entry(c.day, c.start, c.end, c.status, c.user, c.expiresAt)
  }

  predicate Listed(c: Claim, venue: nat, from: Option<int>, to: Option<int>, now: int) {
    c.venue == venue && Live(c, now) && (from.Some? ==> from.value <= c.day) && (to.Some? ==> c.day <= to.value)
  }

  predicate LinesOf(entries: seq<Entry>, table: Table, ids: set<BookingId>) {
    && (forall i :: i in ids ==> i in table && EntryOf(table[i]) in entries)
    && (forall e :: e in entries ==> exists i :: i in ids && i in table && e == EntryOf(table[i]))
  }

  lemma OneMoreLine(entries: seq<Entry>, table: Table, ids: set<BookingId>, i: BookingId)
    requires LinesOf(entries, table, ids) && i in table
    ensures LinesOf(entries + [EntryOf(table[i])], table, ids + {i})
  {
  }

  function ListedIds(table: Table, venue: nat, from: Option<int>, to: Option<int>, now: int, ids: set<BookingId>): set<BookingId> {
    set i | i in ids && i in table && Listed(table[i], venue, from, to, now)
  }

  /** What the listing holds once all rows but these have been looked at. */
  predicate ListingSoFar(entries: seq<Entry>, table: Table, venue: nat, from: Option<int>, to: Option<int>, now: int, rest: set<BookingId>) {
    var ids := ListedIds(table, venue, from, to, now, table.Keys - rest);
    LinesOf(entries, table, ids) && |entries| == |ids|
  }

  lemma NextListed(entries: seq<Entry>, table: Table, venue: nat, from: Option<int>, to: Option<int>, now: int,
                   rest: set<BookingId>, i: BookingId)
    requires ListingSoFar(entries, table, venue, from, to, now, rest) && i in rest && i in table
    ensures ListingSoFar(if Listed(table[i], venue, from, to, now) then entries + [EntryOf(table[i])] else entries,
                         table, venue, from, to, now, rest - {i})
  {
    NextId(table, venue, from, to, now, rest, i);
    OneMoreLine(entries, table, ListedIds(table, venue, from, to, now, table.Keys - rest), i);
  }

  lemma NextId(table: Table, venue: nat, from: Option<int>, to: Option<int>, now: int, rest: set<BookingId>, i: BookingId)
    requires i in rest && i in table
    ensures var ids := ListedIds(table, venue, from, to, now, table.Keys - rest);
            && i !in ids
            && ListedIds(table, venue, from, to, now, table.Keys - (rest - {i}))
               == if Listed(table[i], venue, from, to, now) then ids + {i} else ids
  {
    assert table.Keys - (rest - {i}) == (table.Keys - rest) + {i};
  }

  lemma AllListed(entries: seq<Entry>, table: Table, venue: nat, from: Option<int>, to: Option<int>, now: int)
    requires ListingSoFar(entries, table, venue, from, to, now, {})
    ensures |entries| == |set i | i in table && Listed(table[i], venue, from, to, now)|
    ensures forall e :: e in entries <==> exists i :: i in table && Listed(table[i], venue, from, to, now) && e == EntryOf(table[i])
  {
    assert ListedIds(table, venue, from, to, now, table.Keys - {}) == set i | i in table && Listed(table[i], venue, from, to, now);
  }

  /** A line of the listing, in the terms of the row it is for: booked, or held with time left, at the venue, within the days. */
  lemma ListedMeaning(c: Claim, venue: nat, from: Option<int>, to: Option<int>, now: int)
    ensures Listed(c, venue, from, to, now)
            <==> && c.venue == venue && (from == None || from.value <= c.day) && (to == None || c.day <= to.value)
                 && (c.status == Confirmed || c.status == Completed
                     || (c.status == Pending && (c.expiresAt == None || c.expiresAt.value > now)))
  {
  }

  method GetAvailability(table: Table, venue: nat, from: Option<int>, to: Option<int>, now: int)
    returns (entries: seq<Entry>)
    ensures forall e :: e in entries <==> exists i :: i in table && Listed(table[i], venue, from, to, now) && e == EntryOf(table[i])
    ensures |entries| == |set i | i in table && Listed(table[i], venue, from, to, now)|
  {
    entries := [];
    var rest := table.Keys;
    while rest != {}
      invariant rest <= table.Keys
      invariant ListingSoFar(entries, table, venue, from, to, now, rest)
      decreases rest
    {
      var i :| i in rest;
      NextListed(entries, table, venue, from, to, now, rest, i);
      if Listed(table[i], venue, from, to, now) {
        entries := entries + [EntryOf(table[i])];
      }
      rest := rest - {i};
    }
    AllListed(entries, table, venue, from, to, now);
  }

  predicate EntryOverlaps(e: Entry, slot: Slot) {
    e.start < slot.end && e.end > slot.start
  }

  /**
   At one instant createBooking turns a request away exactly when some slot of it overlaps a line that
   getAvailability shows for that day and that is not the requester's own pending hold.
   */
  lemma AvailabilityAgrees(table: Table, user: nat, venue: nat, day: int, slots: seq<Slot>, now: int, entries: seq<Entry>)
    requires forall e :: e in entries <==>
               exists i :: i in table && Listed(table[i], venue, Some(day), Some(day), now) && e == EntryOf(table[i])
    ensures OverlapStageRejects(table, user, venue, day, slots, now) <==>
              exists e, k :: e in entries && 0 <= k < |slots| && EntryOverlaps(e, slots[k])
                             && !(e.status.Pending? && e.user == user)
  {
    if OverlapStageRejects(table, user, venue, day, slots, now) {
      var i :| i in table && Conflicts(table[i], user, venue, day, slots, now);
      var k :| 0 <= k < |slots| && Covers(table[i], venue, day, slots[k]);
      assert EntryOf(table[i]) in entries && EntryOverlaps(EntryOf(table[i]), slots[k]);
    }
    if e, k :| e in entries && 0 <= k < |slots| && EntryOverlaps(e, slots[k]) && !(e.status.Pending? && e.user == user) {
      var i :| i in table && Listed(table[i], venue, Some(day), Some(day), now) && e == EntryOf(table[i]);
      assert Covers(table[i], venue, day, slots[k]);
      assert Conflicts(table[i], user, venue, day, slots, now);
    }
  }

  /** A hold that has lapsed but still sits in the table under the requested start. */
  predicate LapsedAt(c: Claim, venue: nat, day: int, start: int, now: int) {
    Lapsed(c, now) && c.venue == venue && c.day == day && c.start == start
  }

  /**
   Once the overlap stage has let a request through, the index refuses one of its slots exactly when a
   lapsed hold with the same start has not been cleaned up.
   */
  lemma IndexRefusesOnlyLapsed(s: Sys, user: nat, venue: nat, day: int, slots: seq<Slot>, groupId: nat, waited: nat, k: nat)
    requires Inv(s) && waited <= HOUR && k < |slots|
    requires VenueDay(venue, day) !in s.flights
    requires VenueDay(venue, day) in Begun(s, user, venue, day, slots, groupId, waited).flights
    ensures var t := Begun(s, user, venue, day, slots, groupId, waited);
            IndexRefuses(t.table, venue, day, slots[k].start) <==>
              exists i :: i in t.table && LapsedAt(t.table[i], venue, day, slots[k].start, t.now)
  {
  }

  lemma CronLeavesNothingLapsed(s: Sys)
    ensures forall i :: i in Next(s, Cron).table ==> !Lapsed(Next(s, Cron).table[i], s.now)
  {
  }

  function Inserts(at: VenueDay, n: nat): seq<Step> {
    seq(n, i => Insert(at))
  }

  ghost predicate InsertedSoFar(s: Sys, at: VenueDay, slots: seq<Slot>, n: nat) {
    && Inv(s) && at in s.flights
    && s.flights[at].slots == slots && |s.flights[at].ids| == n && s.flights[at].expiresAt > s.now
    && (forall i :: i in s.table ==> !Lapsed(s.table[i], s.now))
  }

  lemma NextInsertSucceeds(s: Sys, at: VenueDay, slots: seq<Slot>, n: nat)
    requires n < |slots| && InsertedSoFar(s, at, slots, n)
    ensures InsertedSoFar(Inserted(s, at), at, slots, n + 1) && Inserted(s, at).now == s.now
  {
    var f := s.flights[at];
    assert FlightGood(s, at, f) && SlotInRange(slots[n]);
    if i :| i in s.table && Active(s.table[i]) && s.table[i].venue == at.venue && s.table[i].day == at.day
            && s.table[i].start == slots[n].start {
      InsertMeetsNoRow(s, at, i);
      SameStartCovers(s.table[i], at, slots[n]);
    }
    InsertKeepsInv(s, at);
  }

  /** Right after a cron run a request the overlap stage lets through gets every one of its rows. */
  lemma {:induction false} AfterCronEveryInsertSucceeds(s: Sys, user: nat, venue: nat, day: int, slots: seq<Slot>, groupId: nat, n: nat)
    requires Inv(s) && n <= |slots| && VenueDay(venue, day) !in s.flights
    requires VenueDay(venue, day) in Begun(Next(s, Cron), user, venue, day, slots, groupId, 0).flights
    ensures var at := VenueDay(venue, day);
            var t := Run(Begun(Next(s, Cron), user, venue, day, slots, groupId, 0), Inserts(at, n));
            InsertedSoFar(t, at, slots, n) && t.now == s.now
  {
    var at := VenueDay(venue, day);
    if n == 0 {
      NextKeepsInv(s, Cron);
      CronLeavesNothingLapsed(s);
      BeginKeepsInv(Next(s, Cron), user, venue, day, slots, groupId, 0);
    } else {
      AfterCronEveryInsertSucceeds(s, user, venue, day, slots, groupId, n - 1);
      assert Inserts(at, n)[..n - 1] == Inserts(at, n - 1);
      NextInsertSucceeds(Run(Begun(Next(s, Cron), user, venue, day, slots, groupId, 0), Inserts(at, n - 1)), at, slots, n - 1);
    }
  }

  // ----- createBooking without anyone in between -----

  function FreshIds(base: BookingId, n: nat): (ids: seq<BookingId>)
    ensures |ids| == n && forall k :: 0 <= k < n ==> ids[k] == base + k
  {
    seq(n, k => base + k)
  }

  lemma FreshRange(base: BookingId, n: nat)
    ensures forall i :: i in FreshIds(base, n) <==> base <= i < base + n
  {
    forall i | base <= i < base + n ensures i in FreshIds(base, n) {
      assert FreshIds(base, n)[i - base] == i;
    }
  }

  function NewClaims(at: VenueDay, f: Flight, base: BookingId, n: nat, confirmed: nat): Table
    requires n <= |f.slots|
  {
    map i | i in FreshIds(base, n) ::
      if i < base + confirmed then ConfirmedClaim(NewClaim(at, f, i - base)) else NewClaim(at, f, i - base)
  }

  lemma RunSnoc(s: Sys, steps: seq<Step>, step: Step)
    ensures Run(s, steps + [step]) == Next(Run(s, steps), step)
  {
  }

  lemma NewClaimsGrow(at: VenueDay, f: Flight, base: BookingId, n: nat)
    requires n < |f.slots|
    ensures NewClaims(at, f, base, n + 1, 0) == NewClaims(at, f, base, n, 0)[base + n := NewClaim(at, f, n)]
    ensures FreshIds(base, n + 1) == FreshIds(base, n) + [base + n]
  {
    FreshRange(base, n);
    FreshRange(base, n + 1);
  }

  lemma NewClaimsConfirm(at: VenueDay, f: Flight, base: BookingId, m: nat)
    requires m < |f.slots|
    ensures var n := |f.slots|;
            base + m in NewClaims(at, f, base, n, m)
            && NewClaims(at, f, base, n, m + 1)
               == NewClaims(at, f, base, n, m)[base + m := ConfirmedClaim(NewClaims(at, f, base, n, m)[base + m])]
  {
    FreshRange(base, |f.slots|);
  }

  predicate CanInsert(s: Sys, at: VenueDay) {
    && at in s.flights && s.flights[at].ids == [] && SlotsValid(s.flights[at].slots)
    && (forall i :: i in s.table ==> i < s.nextId)
    && (forall k :: 0 <= k < |s.flights[at].slots| ==> !IndexRefuses(s.table, at.venue, at.day, s.flights[at].slots[k].start))
  }

  function AfterInserts(s: Sys, at: VenueDay, n: nat): Sys
    requires at in s.flights && n <= |s.flights[at].slots|
  {
    s.(table := s.table + NewClaims(at, s.flights[at], s.nextId, n, 0),
       flights := s.flights[at := s.flights[at].(ids := FreshIds(s.nextId, n))], nextId := s.nextId + n)
  }

  lemma MapPlusUpdate(a: Table, b: Table, k: BookingId, v: Claim)
    ensures (a + b)[k := v] == a + b[k := v]
    ensures k in b ==> (a + b)[k] == b[k]
  {
  }

  lemma StillFree(s: Sys, at: VenueDay, n: nat)
    requires CanInsert(s, at) && n < |s.flights[at].slots|
    ensures !IndexRefuses(AfterInserts(s, at, n).table, at.venue, at.day, s.flights[at].slots[n].start)
  {
  }

  lemma InsertedRow(t: Sys, at: VenueDay, f: Flight)
    requires at in t.flights && t.flights[at] == f && |f.ids| < |f.slots|
    requires !IndexRefuses(t.table, at.venue, at.day, f.slots[|f.ids|].start)
    ensures Inserted(t, at)
            == Sys(t.now, t.table[t.nextId := NewClaim(at, f, |f.ids|)], t.flights[at := f.(ids := f.ids + [t.nextId])], t.nextId + 1)
  {
  }

  lemma OneMoreInsert(s: Sys, at: VenueDay, n: nat)
    requires CanInsert(s, at) && n < |s.flights[at].slots|
    ensures Inserted(AfterInserts(s, at, n), at) == AfterInserts(s, at, n + 1)
  {
    var f, base := s.flights[at], s.nextId;
    var t, g := AfterInserts(s, at, n), f.(ids := FreshIds(base, n));
    StillFree(s, at, n);
    NewClaimsGrow(at, f, base, n);
    MapPlusUpdate(s.table, NewClaims(at, f, base, n, 0), base + n, NewClaim(at, f, n));
    assert t.flights == s.flights[at := g];
    InsertedRow(t, at, g);
    assert NewClaim(at, g, n) == NewClaim(at, f, n);
    assert FreshIds(base, n) + [base + n] == FreshIds(base, n + 1);
    assert s.flights[at := g][at := g.(ids := FreshIds(base, n + 1))] == s.flights[at := f.(ids := FreshIds(base, n + 1))];
  }

  lemma {:induction false} InsertsGive(s: Sys, at: VenueDay, n: nat)
    requires CanInsert(s, at) && n <= |s.flights[at].slots|
    ensures Run(s, Inserts(at, n)) == AfterInserts(s, at, n)
  {
    if n == 0 {
      assert s.table + NewClaims(at, s.flights[at], s.nextId, 0, 0) == s.table;
    } else {
      InsertsGive(s, at, n - 1);
      OneMoreInsert(s, at, n - 1);
      assert Inserts(at, n)[..n - 1] == Inserts(at, n - 1);
    }
  }

  function Confirms(at: VenueDay, n: nat): seq<Step> {
    seq(n, k requires 0 <= k < n => ConfirmCreated(at, k))
  }

  function AfterConfirms(s: Sys, at: VenueDay, m: nat): Sys
    requires at in s.flights
  {
    var n := |s.flights[at].slots|;
    AfterInserts(s, at, n).(table := s.table + NewClaims(at, s.flights[at], s.nextId, n, m))
  }

  lemma OneMoreConfirm(s: Sys, at: VenueDay, m: nat)
    requires CanInsert(s, at) && m < |s.flights[at].slots|
    ensures Next(AfterConfirms(s, at, m), ConfirmCreated(at, m)) == AfterConfirms(s, at, m + 1)
  {
    var f, n, base := s.flights[at], |s.flights[at].slots|, s.nextId;
    var t, rows := AfterConfirms(s, at, m), NewClaims(at, f, base, n, m);
    NewClaimsConfirm(at, f, base, m);
    MapPlusUpdate(s.table, rows, base + m, ConfirmedClaim(rows[base + m]));
    ConfirmsRow(t, at, m, base + m);
    assert t.table == s.table + rows;
  }

  lemma ConfirmsRow(t: Sys, at: VenueDay, k: nat, id: BookingId)
    requires at in t.flights && k < |t.flights[at].ids| && t.flights[at].ids[k] == id && id in t.table
    ensures Next(t, ConfirmCreated(at, k)) == t.(table := t.table[id := ConfirmedClaim(t.table[id])])
  {
  }

  lemma {:induction false} ConfirmsGive(s: Sys, at: VenueDay, m: nat)
    requires CanInsert(s, at) && m <= |s.flights[at].slots|
    ensures Run(AfterInserts(s, at, |s.flights[at].slots|), Confirms(at, m)) == AfterConfirms(s, at, m)
  {
    if m > 0 {
      ConfirmsGive(s, at, m - 1);
      assert Confirms(at, m)[..m - 1] == Confirms(at, m - 1);
      OneMoreConfirm(s, at, m - 1);
    }
  }

  lemma {:induction false} RunConcat(s: Sys, a: seq<Step>, b: seq<Step>)
    ensures Run(s, a + b) == Run(Run(s, a), b)
  {
    if |b| == 0 {
      assert a + b == a;
    } else {
      RunConcat(s, a, b[..|b| - 1]);
      assert (a + b)[..|a + b| - 1] == a + b[..|b| - 1];
    }
  }

  /** A whole request: lock, check, insert every row, confirm all of them or none, unlock. */
  function WholeRequest(user: nat, at: VenueDay, slots: seq<Slot>, groupId: nat, confirmed: nat): seq<Step> {
    [Begin(user, at.venue, at.day, slots, groupId, 0)] + Inserts(at, |slots|) + Confirms(at, confirmed) + [Finish(at)]
  }

  lemma RunFour(s: Sys, a: seq<Step>, b: seq<Step>, c: seq<Step>, d: seq<Step>)
    ensures Run(s, a + b + c + d) == Run(Run(Run(Run(s, a), b), c), d)
  {
    RunConcat(s, a, b);
    RunConcat(s, a + b, c);
    RunConcat(s, a + b + c, d);
  }

  lemma RunOne(s: Sys, step: Step)
    ensures Run(s, [step]) == Next(s, step)
  {
  }

  lemma RestOfRequest(b: Sys, at: VenueDay, m: nat)
    requires CanInsert(b, at) && m <= |b.flights[at].slots|
    ensures var n := |b.flights[at].slots|;
            Run(Run(Run(b, Inserts(at, n)), Confirms(at, m)), [Finish(at)])
            == Sys(b.now, b.table + NewClaims(at, b.flights[at], b.nextId, n, m), b.flights - {at}, b.nextId + n)
  {
    InsertsGive(b, at, |b.flights[at].slots|);
    ConfirmsGive(b, at, m);
    RunOne(AfterConfirms(b, at, m), Finish(at));
    FinishGives(b, at, m);
  }

  lemma FinishGives(b: Sys, at: VenueDay, m: nat)
    requires at in b.flights && m <= |b.flights[at].slots|
    ensures var n := |b.flights[at].slots|;
            Next(AfterConfirms(b, at, m), Finish(at))
            == Sys(b.now, b.table + NewClaims(at, b.flights[at], b.nextId, n, m), b.flights - {at}, b.nextId + n)
  {
  }

  /** A request whose first step leads to b ends with its rows added to b's table and its lock given back. */
  lemma WholeRequestGives(s: Sys, b: Sys, user: nat, at: VenueDay, slots: seq<Slot>, groupId: nat, m: nat)
    requires b == Begun(s, user, at.venue, at.day, slots, groupId, 0)
    requires CanInsert(b, at) && b.flights[at].slots == slots && m <= |slots|
    ensures Run(s, WholeRequest(user, at, slots, groupId, m))
            == Sys(b.now, b.table + NewClaims(at, b.flights[at], b.nextId, |slots|, m), b.flights - {at}, b.nextId + |slots|)
  {
    var begin := Begin(user, at.venue, at.day, slots, groupId, 0);
    RunFour(s, [begin], Inserts(at, |slots|), Confirms(at, m), [Finish(at)]);
    RunOne(s, begin);
    RestOfRequest(b, at, m);
  }
}
