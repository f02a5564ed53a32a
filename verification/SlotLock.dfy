/**
 The lock of createBooking as it is: it lapses after five seconds, whoever comes next takes it, and a request
 that outlives its lock goes on all the same and in the end releases whatever lock it finds.
 */
module SlotLock {
  import opened Prelude
  import opened BookingRequest
  import opened Slots

  const LOCK_TTL := 5000

  /** A request that goes on although its lock has passed to somebody else. */
  datatype Stray = Stray(at: VenueDay, flight: Flight)

  /** The flights of sys are the requests that took their locks last; until says which locks are still set. */
  datatype World = World(sys: Sys, until: map<VenueDay, int>, strays: seq<Stray>)

  datatype Move =
    | Usual(step: Step)
    /** The stray at this position makes its next call. */
    | Late(n: nat, step: Step)

  predicate LockHeld(w: World, at: VenueDay) {
    at in w.until && w.until[at] > w.sys.now
  }

  /** A lock that is not held is free to take, whether or not the request that took it before has ended. */
  function Taken(w: World, at: VenueDay): World {
    if at !in w.sys.flights then w
    else w.(sys := w.sys.(flights := w.sys.flights - {at}), strays := w.strays + [Stray(at, w.sys.flights[at])])
  }

  function Started(w: World, step: Step): World
    requires step.Begin?
  {
    var at := VenueDay(step.venue, step.day);
    if !SlotsValid(step.slots) || !SlotsAhead(step.day, step.slots, w.sys.now - step.waited) || LockHeld(w, at) then w
    else
      var v := Taken(w, at);
      var begun := Next(v.sys, step);
      v.(sys := begun, until := if at in begun.flights then w.until[at := w.sys.now + LOCK_TTL] else w.until - {at})
  }

  /** A request that ends releases its lock. */
  function Stepped(w: World, step: Step): World {
    var next := Next(w.sys, step);
    World(next, map at | at in w.until && at in next.flights :: w.until[at], w.strays)
  }

  predicate StepOf(step: Step, at: VenueDay) {
    (step.Insert? || step.ConfirmCreated? || step.Abort? || step.Finish?) && step.at == at
  }

  predicate ConfirmBlocked(s: Sys, f: Flight, step: Step) {
    step.ConfirmCreated? && step.k < |f.ids| && f.ids[step.k] in s.table && IndexBlocks(s.table, f.ids[step.k])
  }

  /** The stray's call, made as if the lock were still its own. */
  function StrayNext(s: Sys, stray: Stray, step: Step): Sys {
    if ConfirmBlocked(s, stray.flight, step) then s.(flights := s.flights[stray.at := stray.flight])
    else Next(s.(flights := s.flights[stray.at := stray.flight]), step)
  }

  function StrayStepped(w: World, n: nat, step: Step): World
    requires n < |w.strays|
  {
    var stray := w.strays[n];
    var next := StrayNext(w.sys, stray, step);
    var sys := next.(flights := w.sys.flights);
    if stray.at in next.flights then w.(sys := sys, strays := w.strays[n := Stray(stray.at, next.flights[stray.at])])
    else World(sys, w.until - {stray.at}, w.strays[..n] + w.strays[n + 1..])
  }

  function WorldNext(w: World, move: Move): World {
    match move
    case Usual(step) => if step.Begin? then Started(w, step) else Stepped(w, step)
    case Late(n, step) => if n < |w.strays| && StepOf(step, w.strays[n].at) then StrayStepped(w, n, step) else w
  }

  function WorldRun(w: World, moves: seq<Move>): World {
    if |moves| == 0 then w else WorldNext(WorldRun(w, moves[..|moves| - 1]), moves[|moves| - 1])
  }

  // ----- safety when rows are inserted in time -----

  predicate Complete(f: Flight) {
    |f.ids| >= |f.slots|
  }

  /** The request whose lock this one finds lapsed, if any. */
  predicate Displaces(w: World, step: Step) {
    step.Begin? && VenueDay(step.venue, step.day) in w.sys.flights && !LockHeld(w, VenueDay(step.venue, step.day))
  }

  /**
   Timing, with the lock's: a request has inserted its rows by the time somebody else takes its lock, and what it
   confirms afterwards still occupies its slot.
   */
  predicate Timely(w: World, move: Move) {
    match move
    case Usual(step) =>
      Allowed(w.sys, step) && (Displaces(w, step) ==> Complete(w.sys.flights[VenueDay(step.venue, step.day)]))
    case Late(n, step) =>
      n < |w.strays| && step.ConfirmCreated? && step.k < |w.strays[n].flight.ids| && w.strays[n].flight.ids[step.k] in w.sys.table ==>
        Occupies(w.sys.table[w.strays[n].flight.ids[step.k]], w.sys.now)
  }

  ghost predicate WorldInv(w: World) {
    Inv(w.sys) && forall n :: 0 <= n < |w.strays| ==> Complete(w.strays[n].flight)
  }

  lemma TakenKeepsInv(w: World, at: VenueDay)
    requires WorldInv(w) && (at in w.sys.flights ==> Complete(w.sys.flights[at]))
    ensures WorldInv(Taken(w, at))
  {
    ShrinkKeepsInv(w.sys, Taken(w, at).sys);
  }

  lemma StrayShrinks(s: Sys, stray: Stray, step: Step)
    requires Inv(s) && Complete(stray.flight) && StepOf(step, stray.at)
    requires step.ConfirmCreated? && step.k < |stray.flight.ids| && stray.flight.ids[step.k] in s.table ==>
               Occupies(s.table[stray.flight.ids[step.k]], s.now)
    ensures Shrinks(s, StrayNext(s, stray, step).(flights := s.flights))
    ensures stray.at in StrayNext(s, stray, step).flights ==> StrayNext(s, stray, step).flights[stray.at] == stray.flight
  {
  }

  lemma WorldNextKeepsInv(w: World, move: Move)
    requires WorldInv(w) && Timely(w, move)
    ensures WorldInv(WorldNext(w, move))
  {
    match move
    case Usual(step) =>
      if step.Begin? {
        var at := VenueDay(step.venue, step.day);
        if SlotsValid(step.slots) && SlotsAhead(step.day, step.slots, w.sys.now - step.waited) && !LockHeld(w, at) {
          TakenKeepsInv(w, at);
          NextKeepsInv(Taken(w, at).sys, step);
        }
      } else {
        NextKeepsInv(w.sys, step);
      }
    case Late(n, step) =>
      if n < |w.strays| && StepOf(step, w.strays[n].at) {
        StrayShrinks(w.sys, w.strays[n], step);
        ShrinkKeepsInv(w.sys, StrayNext(w.sys, w.strays[n], step).(flights := w.sys.flights));
      }
  }

  /** No double booking although locks lapse, as long as every request inserts its rows before its lock is taken over. */
  lemma {:induction false} NoDoubleBookingWithLapsingLocks(w: World, moves: seq<Move>)
    requires WorldInv(w)
    requires forall k :: 0 <= k < |moves| ==> Timely(WorldRun(w, moves[..k]), moves[k])
    ensures WorldInv(WorldRun(w, moves))
    ensures NoDoubleBooking(WorldRun(w, moves).sys.table, WorldRun(w, moves).sys.now)
  {
    if |moves| > 0 {
      var n := |moves| - 1;
      forall k | 0 <= k < n ensures Timely(WorldRun(w, moves[..n][..k]), moves[..n][k]) {
        assert moves[..n][..k] == moves[..k];
      }
      NoDoubleBookingWithLapsingLocks(w, moves[..n]);
      WorldNextKeepsInv(WorldRun(w, moves[..n]), moves[n]);
    }
  }

  // ----- the protocol without a clock on its locks -----

  function Usuals(steps: seq<Step>): seq<Move> {
    seq(|steps|, k requires 0 <= k < |steps| => Usual(steps[k]))
  }

  /** No request starts while an earlier one on its venue and day has outlived its lock. */
  predicate NobodyOverran(w: World, step: Step) {
    !Displaces(w, step)
  }

  ghost predicate LocksOfFlights(w: World) {
    w.strays == [] && forall at :: at in w.until ==> at in w.sys.flights
  }

  lemma StepIsProtocolStep(w: World, step: Step)
    requires LocksOfFlights(w) && NobodyOverran(w, step)
    ensures LocksOfFlights(WorldNext(w, Usual(step))) && WorldNext(w, Usual(step)).sys == Next(w.sys, step)
  {
    if step.Begin? && VenueDay(step.venue, step.day) !in w.sys.flights {
      assert Taken(w, VenueDay(step.venue, step.day)) == w;
    }
  }

  /** If no request outlives its lock, the lapsing locks behave as locks that are held to the end. */
  lemma {:induction false} PunctualRunIsProtocolRun(w: World, steps: seq<Step>)
    requires LocksOfFlights(w)
    requires forall k :: 0 <= k < |steps| ==> NobodyOverran(WorldRun(w, Usuals(steps)[..k]), steps[k])
    ensures LocksOfFlights(WorldRun(w, Usuals(steps))) && WorldRun(w, Usuals(steps)).sys == Run(w.sys, steps)
  {
    if |steps| > 0 {
      var n := |steps| - 1;
      assert Usuals(steps)[..n] == Usuals(steps[..n]);
      forall k | 0 <= k < n ensures NobodyOverran(WorldRun(w, Usuals(steps[..n])[..k]), steps[..n][k]) {
        assert Usuals(steps[..n])[..k] == Usuals(steps)[..k];
      }
      PunctualRunIsProtocolRun(w, steps[..n]);
      StepIsProtocolStep(WorldRun(w, Usuals(steps[..n])), steps[n]);
    }
  }

  // ----- what an overrun does -----

  /** A lock that a request has just taken keeps everybody else out for five seconds. */
  lemma LockLastsFiveSeconds(w: World, step: Step, ms: nat)
    requires step.Begin? && !LockHeld(w, VenueDay(step.venue, step.day)) && SlotsValid(step.slots)
    requires SlotsAhead(step.day, step.slots, w.sys.now - step.waited)
    requires VenueDay(step.venue, step.day) in Started(w, step).sys.flights
    ensures var at, taken := VenueDay(step.venue, step.day), Started(w, step);
            LockHeld(Stepped(taken, Tick(ms)), at) <==> ms < 5_000
  {
  }

  /** The slot a request inserts next is covered by a live row. */
  predicate NextCovered(s: Sys, stray: Stray)
    requires !Complete(stray.flight)
  {
    exists i :: i in s.table && Live(s.table[i], s.now) && Covers(s.table[i], stray.at.venue, stray.at.day, stray.flight.slots[|stray.flight.ids|])
  }

  lemma RowLands(table: Table, now: int, id: BookingId, row: Claim, slot: Slot)
    requires NoDoubleBooking(table, now) && id !in table && row.start == slot.start && row.end == slot.end
    ensures NoDoubleBooking(table[id := row], now) <==>
              !Live(row, now) || !exists i :: i in table && Live(table[i], now) && Covers(table[i], row.venue, row.day, slot)
  {
    var t := table[id := row];
    if i :| i in table && Live(table[i], now) && Covers(table[i], row.venue, row.day, slot) {
      assert t[i] == table[i] && t[id] == row && ClaimsOverlap(t[i], t[id]);
    } else {
      assert forall i :: i in table && Live(table[i], now) ==> !ClaimsOverlap(table[i], row) && !ClaimsOverlap(row, table[i]);
    }
  }

  /** When an insert past the lock keeps bookings apart: the index refuses it, it lapsed before it was made, or nobody has the hours. */
  lemma LateInsertSafeIff(s: Sys, stray: Stray)
    requires NoDoubleBooking(s.table, s.now) && s.nextId !in s.table && !Complete(stray.flight)
    ensures var f := stray.flight;
            NoDoubleBooking(StrayNext(s, stray, Insert(stray.at)).table, s.now)
            <==> || IndexRefuses(s.table, stray.at.venue, stray.at.day, f.slots[|f.ids|].start)
                 || f.expiresAt <= s.now
                 || !NextCovered(s, stray)
  {
    var f, at := stray.flight, stray.at;
    var t := StrayNext(s, stray, Insert(at)).table;
    if IndexRefuses(s.table, at.venue, at.day, f.slots[|f.ids|].start) {
      assert forall i :: i in t ==> i in s.table && t[i] == s.table[i];
    } else {
      var row := NewClaim(at, f, |f.ids|);
      assert t == s.table[s.nextId := row] && (Live(row, s.now) <==> f.expiresAt > s.now);
      RowLands(s.table, s.now, s.nextId, row, f.slots[|f.ids|]);
    }
  }

  const VENUE_DAY := VenueDay(1, 1)
  const OPENING := World(EMPTY, map[], [])

  function FlightAt(user: nat, slot: Slot, now: int, ids: seq<BookingId>): Flight {
    Flight(user, [slot], user, now + HOLD_DURATION, ids)
  }

  function BeginSlot(user: nat, slot: Slot): Step {
    Begin(user, 1, 1, [slot], user, 0)
  }

  function HoldOf(user: nat, slot: Slot, now: int): Claim {
    Claim(user, 1, 1, slot.start, slot.end, user, Pending, Some(now + HOLD_DURATION))
  }

  function LockTaken(w: World, user: nat, slot: Slot): World {
    World(w.sys.(flights := w.sys.flights[VENUE_DAY := FlightAt(user, slot, w.sys.now, [])]),
          w.until[VENUE_DAY := w.sys.now + LOCK_TTL],
          if VENUE_DAY in w.sys.flights then w.strays + [Stray(VENUE_DAY, w.sys.flights[VENUE_DAY])] else w.strays)
  }

  /** A request for a slot nobody has takes over a lapsed lock. */
  lemma TakesOver(w: World, user: nat, slot: Slot)
    requires SlotInRange(slot) && SlotTime(1, slot.start) > w.sys.now && !LockHeld(w, VENUE_DAY)
    requires forall i :: i in w.sys.table ==> !Covers(w.sys.table[i], 1, 1, slot)
    ensures WorldNext(w, Usual(BeginSlot(user, slot))) == LockTaken(w, user, slot)
  {
    BeginFree(Taken(w, VENUE_DAY).sys, user, VENUE_DAY, slot, user);
  }

  /** Its one row goes in unless an active row has the same start. */
  lemma InsertsSlot(s: Sys, at: VenueDay, user: nat, slot: Slot, since: int)
    requires at == VENUE_DAY && at in s.flights && s.flights[at] == FlightAt(user, slot, since, [])
    requires !IndexRefuses(s.table, 1, 1, slot.start)
    ensures Inserted(s, at)
            == Sys(s.now, s.table[s.nextId := HoldOf(user, slot, since)], s.flights[at := FlightAt(user, slot, since, [s.nextId])], s.nextId + 1)
  {
    InsertedRow(s, at, s.flights[at]);
    assert [] + [s.nextId] == [s.nextId];
  }

  lemma WorldRunSnoc(w: World, moves: seq<Move>, move: Move)
    ensures WorldRun(w, moves + [move]) == WorldNext(WorldRun(w, moves), move)
  {
    assert (moves + [move])[..|moves|] == moves;
  }

  /** The first request's lock has lapsed before it inserted anything, and a second request has it now. */
  function Overrun(first: Slot, second: Slot): World {
    World(Sys(LOCK_TTL, map[], map[VENUE_DAY := FlightAt(8, second, LOCK_TTL, [])], 0), map[VENUE_DAY := 2 * LOCK_TTL],
          [Stray(VENUE_DAY, FlightAt(7, first, 0, []))])
  }

  lemma OverrunReached(first: Slot, second: Slot)
    requires SlotInRange(first) && SlotInRange(second)
    ensures WorldRun(OPENING, [Usual(BeginSlot(7, first)), Usual(Tick(LOCK_TTL)), Usual(BeginSlot(8, second))]) == Overrun(first, second)
  {
    var begin, wait := [Usual(BeginSlot(7, first))], [Usual(BeginSlot(7, first)), Usual(Tick(LOCK_TTL))];
    WorldRunSnoc(OPENING, [], begin[0]);
    assert [] + begin == begin;
    TakesOver(OPENING, 7, first);
    var w := WorldRun(OPENING, begin);
    WorldRunSnoc(OPENING, begin, wait[1]);
    assert begin + [wait[1]] == wait;
    var f := FlightAt(7, first, 0, []);
    assert WorldNext(w, Usual(Tick(LOCK_TTL))) == World(Sys(LOCK_TTL, map[], map[VENUE_DAY := f], 0), map[VENUE_DAY := LOCK_TTL], []);
    WorldRunSnoc(OPENING, wait, Usual(BeginSlot(8, second)));
    assert wait + [Usual(BeginSlot(8, second))] == [begin[0], wait[1], Usual(BeginSlot(8, second))];
    TakesOver(WorldRun(OPENING, wait), 8, second);
  }

  /**
   Two requests, two rows for one hour: the first outlives its lock before it inserts, the second is let in, and the
   starts differ, so that the index refuses nothing.
   */
  lemma OverrunDoubleBooks()
    ensures var w := WorldRun(OPENING, [Usual(BeginSlot(7, Slot(18, 20))), Usual(Tick(LOCK_TTL)), Usual(BeginSlot(8, Slot(19, 21))),
                                        Usual(Insert(VENUE_DAY)), Late(0, Insert(VENUE_DAY))]);
            w.sys.table == map[0 := HoldOf(8, Slot(19, 21), LOCK_TTL), 1 := HoldOf(7, Slot(18, 20), 0)]
            && !NoDoubleBooking(w.sys.table, w.sys.now)
  {
    var one, two := Slot(18, 20), Slot(19, 21);
    var begun := [Usual(BeginSlot(7, one)), Usual(Tick(LOCK_TTL)), Usual(BeginSlot(8, two))];
    OverrunReached(one, two);
    var w := Overrun(one, two);
    WorldRunSnoc(OPENING, begun, Usual(Insert(VENUE_DAY)));
    InsertsSlot(w.sys, VENUE_DAY, 8, two, LOCK_TTL);
    var v := WorldNext(w, Usual(Insert(VENUE_DAY)));
    assert v.sys.table == map[0 := HoldOf(8, two, LOCK_TTL)] && v.sys.nextId == 1 && v.sys.now == LOCK_TTL && v.strays == w.strays;
    WorldRunSnoc(OPENING, begun + [Usual(Insert(VENUE_DAY))], Late(0, Insert(VENUE_DAY)));
    assert begun + [Usual(Insert(VENUE_DAY))] + [Late(0, Insert(VENUE_DAY))]
        == [Usual(BeginSlot(7, one)), Usual(Tick(LOCK_TTL)), Usual(BeginSlot(8, two)), Usual(Insert(VENUE_DAY)), Late(0, Insert(VENUE_DAY))];
    LateInsertLands(v, 7, one, 0);
    var t := WorldNext(v, Late(0, Insert(VENUE_DAY))).sys.table;
    assert Live(t[0], LOCK_TTL) && Live(t[1], LOCK_TTL) && ClaimsOverlap(t[0], t[1]);
  }

  lemma LateInsertLands(v: World, user: nat, slot: Slot, since: int)
    requires v.strays == [Stray(VENUE_DAY, FlightAt(user, slot, since, []))] && !IndexRefuses(v.sys.table, 1, 1, slot.start)
    ensures WorldNext(v, Late(0, Insert(VENUE_DAY))).sys.table == v.sys.table[v.sys.nextId := HoldOf(user, slot, since)]
    ensures WorldNext(v, Late(0, Insert(VENUE_DAY))).sys.now == v.sys.now
  {
    InsertsSlot(v.sys.(flights := v.sys.flights[VENUE_DAY := v.strays[0].flight]), VENUE_DAY, user, slot, since);
  }

  // ----- what a late release does -----

  lemma BeginInserts(w: World, user: nat, slot: Slot)
    requires SlotInRange(slot) && SlotTime(1, slot.start) > w.sys.now && !LockHeld(w, VENUE_DAY)
    requires forall i :: i in w.sys.table ==> !Covers(w.sys.table[i], 1, 1, slot) && w.sys.table[i].start != slot.start
    requires forall at :: at in w.until ==> at in w.sys.flights
    ensures WorldRun(w, [Usual(BeginSlot(user, slot)), Usual(Insert(VENUE_DAY))])
            == World(Sys(w.sys.now, w.sys.table[w.sys.nextId := HoldOf(user, slot, w.sys.now)],
                         w.sys.flights[VENUE_DAY := FlightAt(user, slot, w.sys.now, [w.sys.nextId])], w.sys.nextId + 1),
                     w.until[VENUE_DAY := w.sys.now + LOCK_TTL],
                     if VENUE_DAY in w.sys.flights then w.strays + [Stray(VENUE_DAY, w.sys.flights[VENUE_DAY])] else w.strays)
  {
    var begin, insert := Usual(BeginSlot(user, slot)), Usual(Insert(VENUE_DAY));
    var v := LockTaken(w, user, slot);
    assert WorldRun(w, [begin, insert]) == WorldNext(v, insert) by {
      RunOfTwo(w, begin, insert);
      TakesOver(w, user, slot);
    }
    InsertWhileHeld(v, user, slot);
    FlightReplaced(w.sys.flights, FlightAt(user, slot, w.sys.now, []), FlightAt(user, slot, w.sys.now, [w.sys.nextId]));
  }

  lemma FlightReplaced(flights: map<VenueDay, Flight>, f: Flight, g: Flight)
    ensures flights[VENUE_DAY := f][VENUE_DAY := g] == flights[VENUE_DAY := g]
  {
  }

  lemma RunOfTwo(w: World, a: Move, b: Move)
    ensures WorldRun(w, [a, b]) == WorldNext(WorldNext(w, a), b)
  {
    WorldRunSnoc(w, [a], b);
    WorldRunSnoc(w, [], a);
    assert [a] + [b] == [a, b] && [] + [a] == [a];
  }

  lemma InsertWhileHeld(v: World, user: nat, slot: Slot)
    requires VENUE_DAY in v.sys.flights && v.sys.flights[VENUE_DAY] == FlightAt(user, slot, v.sys.now, [])
    requires !IndexRefuses(v.sys.table, 1, 1, slot.start) && forall at :: at in v.until ==> at in v.sys.flights
    ensures WorldNext(v, Usual(Insert(VENUE_DAY)))
            == v.(sys := Sys(v.sys.now, v.sys.table[v.sys.nextId := HoldOf(user, slot, v.sys.now)],
                             v.sys.flights[VENUE_DAY := FlightAt(user, slot, v.sys.now, [v.sys.nextId])], v.sys.nextId + 1))
  {
    InsertsSlot(v.sys, VENUE_DAY, user, slot, v.sys.now);
    var next := Inserted(v.sys, VENUE_DAY);
    assert (map at | at in v.until && at in next.flights :: v.until[at]) == v.until;
  }

  lemma {:induction false} WorldRunConcat(w: World, a: seq<Move>, b: seq<Move>)
    ensures WorldRun(w, a + b) == WorldRun(WorldRun(w, a), b)
  {
    if |b| == 0 {
      assert a + b == a;
    } else {
      WorldRunConcat(w, a, b[..|b| - 1]);
      assert (a + b)[..|a + b| - 1] == a + b[..|b| - 1];
    }
  }

  const EVENING := Slot(18, 19)
  const TWO_HOURS := Slot(20, 22)
  const NIGHT := Slot(21, 23)

  /** One request inserts its row and outlives its lock, a second one gets the lock, and the first one's end frees it. */
  const OVERRUN_THEN_FREED := [Usual(BeginSlot(7, EVENING)), Usual(Insert(VENUE_DAY)), Usual(Tick(LOCK_TTL)),
                               Usual(BeginSlot(8, TWO_HOURS)), Late(0, Finish(VENUE_DAY))]

  lemma EndFreesLock(v: World, f: Flight)
    requires v.strays == [Stray(VENUE_DAY, f)]
    ensures WorldNext(v, Late(0, Finish(VENUE_DAY))) == World(v.sys, v.until - {VENUE_DAY}, [])
  {
    var flights := v.sys.flights[VENUE_DAY := f];
    assert StrayNext(v.sys, v.strays[0], Finish(VENUE_DAY)) == v.sys.(flights := flights - {VENUE_DAY});
  }

  lemma LateReleaseFrees()
    ensures WorldRun(OPENING, OVERRUN_THEN_FREED)
            == World(Sys(LOCK_TTL, map[0 := HoldOf(7, EVENING, 0)], map[VENUE_DAY := FlightAt(8, TWO_HOURS, LOCK_TTL, [])], 1), map[], [])
  {
    var f := FlightAt(7, EVENING, 0, [0]);
    BeginInserts(OPENING, 7, EVENING);
    var rest := [Usual(Tick(LOCK_TTL)), Usual(BeginSlot(8, TWO_HOURS)), Late(0, Finish(VENUE_DAY))];
    WorldRunConcat(OPENING, OVERRUN_THEN_FREED[..2], rest);
    assert OVERRUN_THEN_FREED == OVERRUN_THEN_FREED[..2] + rest;
    var w := WorldRun(OPENING, OVERRUN_THEN_FREED[..2]);
    assert OVERRUN_THEN_FREED[..2] == [Usual(BeginSlot(7, EVENING)), Usual(Insert(VENUE_DAY))];
    var later := WorldNext(w, rest[0]);
    EarlierInserted(w, later);
    TakesOver(later, 8, TWO_HOURS);
    RunOfThree(w, rest[0], rest[1], rest[2]);
    EndFreesLock(WorldNext(later, rest[1]), f);
  }

  lemma EarlierInserted(w: World, later: World)
    requires w.sys.now == 0 && w.strays == [] && later == WorldNext(w, Usual(Tick(LOCK_TTL)))
    requires w.sys.flights == map[VENUE_DAY := FlightAt(7, EVENING, 0, [0])] && w.until == map[VENUE_DAY := LOCK_TTL]
    ensures later == w.(sys := w.sys.(now := LOCK_TTL)) && !LockHeld(later, VENUE_DAY)
  {
  }

  lemma RunOfThree(w: World, a: Move, b: Move, c: Move)
    ensures WorldRun(w, [a, b, c]) == WorldNext(WorldNext(WorldNext(w, a), b), c)
  {
    WorldRunSnoc(w, [a, b], c);
    RunOfTwo(w, a, b);
    assert [a, b] + [c] == [a, b, c];
  }

  /**
   A double booking between two requests that both stay within their five seconds: the end of an earlier request, which
   had inserted everything in time, frees the lock of the second, and the third is let in before the second inserts.
   */
  lemma LateReleaseDoubleBooks()
    ensures var w := WorldRun(OPENING, OVERRUN_THEN_FREED + [Usual(BeginSlot(9, NIGHT)), Usual(Insert(VENUE_DAY))] + [Late(0, Insert(VENUE_DAY))]);
            && w.sys.now == LOCK_TTL
            && w.sys.table == map[0 := HoldOf(7, EVENING, 0), 1 := HoldOf(9, NIGHT, LOCK_TTL), 2 := HoldOf(8, TWO_HOURS, LOCK_TTL)]
            && !NoDoubleBooking(w.sys.table, w.sys.now)
  {
    LateReleaseFrees();
    var w := WorldRun(OPENING, OVERRUN_THEN_FREED);
    BeginInserts(w, 9, NIGHT);
    WorldRunConcat(OPENING, OVERRUN_THEN_FREED, [Usual(BeginSlot(9, NIGHT)), Usual(Insert(VENUE_DAY))]);
    var v := WorldRun(w, [Usual(BeginSlot(9, NIGHT)), Usual(Insert(VENUE_DAY))]);
    WorldRunSnoc(OPENING, OVERRUN_THEN_FREED + [Usual(BeginSlot(9, NIGHT)), Usual(Insert(VENUE_DAY))], Late(0, Insert(VENUE_DAY)));
    LateInsertLands(v, 8, TWO_HOURS, LOCK_TTL);
    var t := WorldNext(v, Late(0, Insert(VENUE_DAY))).sys.table;
    assert Live(t[1], LOCK_TTL) && Live(t[2], LOCK_TTL) && ClaimsOverlap(t[1], t[2]);
  }
}
