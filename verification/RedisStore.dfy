/**
 RedisService without a Redis server: two maps in memory, lazy expiry, and one timer per entry. The event
 loop is explicit, so a timer may fire at any moment after it is due.
 */
module RedisStore {
  import opened Prelude

  type Key = string
  type Value = string
  type TimerId = nat

  datatype Job = LockExpiry(key: Key) | KvExpiry(key: Key)

  datatype Timer = Timer(job: Job, due: int)

  datatype LockEntry = LockEntry(expiresAt: int, timer: TimerId)

  datatype KvEntry = KvEntry(value: Value, expiresAt: Option<int>, timer: Option<TimerId>)

  /** `now` is Date.now() in milliseconds. */
  datatype Mem = Mem(now: int, locks: map<Key, LockEntry>, kv: map<Key, KvEntry>,
                     timers: map<TimerId, Timer>, nextTimer: TimerId)

  /** Node.js replaces a delay outside this range by one millisecond. */
  const MAX_DELAY := 0x7FFF_FFFF

  function TimerDelay(ms: int): int {
    if 1 <= ms <= MAX_DELAY then ms else 1
  }

  predicate Expired(expiresAt: Option<int>, now: int) {
    expiresAt.Some? && expiresAt.value <= now
  }

  /** Exactly one live timer for each entry that expires, none for any other. */
  ghost predicate TimersMatch(m: Mem) {
    && (forall t :: t in m.timers ==> t < m.nextTimer)
    && (forall t :: t in m.timers && m.timers[t].job.KvExpiry? ==>
          m.timers[t].job.key in m.kv && m.kv[m.timers[t].job.key].timer == Some(t))
    && (forall k :: k in m.kv && m.kv[k].timer.Some? ==>
          m.kv[k].timer.value in m.timers && m.timers[m.kv[k].timer.value].job == KvExpiry(k))
    && (forall k :: k in m.kv ==> (m.kv[k].timer.Some? <==> m.kv[k].expiresAt.Some?))
  }

  /** No entry's timer is due before the entry expires. */
  ghost predicate TimersNotEarly(m: Mem) {
    forall k :: k in m.kv && m.kv[k].timer.Some? && m.kv[k].timer.value in m.timers && m.kv[k].expiresAt.Some? ==>
      m.timers[m.kv[k].timer.value].due >= m.kv[k].expiresAt.value
  }

  // ----- the key-value store -----

  datatype Op =
    | Set(key: Key, value: Value, ttl: Option<nat>)
    | Get(key: Key)
    | Exist(key: Key)
    | Ttl(key: Key)
    | Del(keys: seq<Key>)
    | Tick(ms: nat)
    | Fire(timer: TimerId)

  datatype Obs = Nothing | Got(value: Option<Value>) | Count(n: nat) | Seconds(s: int)

  /** A TTL of zero is no TTL at all. */
  function Deadline(now: int, ttl: Option<nat>): Option<int> {
    if ttl.Some? && ttl.value != 0 then Some(now + ttl.value * 1000) else None
  }

  function WithoutKvTimers(timers: map<TimerId, Timer>, keys: set<Key>): map<TimerId, Timer> {
    map t | t in timers && !(timers[t].job.KvExpiry? && timers[t].job.key in keys) :: timers[t]
  }

  function Written(m: Mem, key: Key, value: Value, ttl: Option<nat>): Mem {
    var cleared := WithoutKvTimers(m.timers, {key});
    var deadline := Deadline(m.now, ttl);
    if deadline.None? then m.(kv := m.kv[key := KvEntry(value, None, None)], timers := cleared)
    else m.(kv := m.kv[key := KvEntry(value, deadline, Some(m.nextTimer))],
            timers := cleared[m.nextTimer := Timer(KvExpiry(key), m.now + TimerDelay(ttl.value * 1000))],
            nextTimer := m.nextTimer + 1)
  }

  function Removed(m: Mem, keys: set<Key>): Mem {
    m.(kv := m.kv - keys, timers := WithoutKvTimers(m.timers, keys))
  }

  /** Reading an entry past its deadline removes it. */
  function Collected(m: Mem, key: Key): Mem {
    if key in m.kv && Expired(m.kv[key].expiresAt, m.now) then Removed(m, {key}) else m
  }

  function CeilSeconds(ms: int): int { -((-ms) / 1000) }

  function RemainingSeconds(expiresAt: Option<int>, now: int): int {
    if expiresAt.None? then -1
    else if CeilSeconds(expiresAt.value - now) > 0 then CeilSeconds(expiresAt.value - now)
    else -2
  }

  /** The callback of a lock's timer looks at the clock; the callback of a value's timer does not. */
  function Fired(m: Mem, t: TimerId): Mem {
    if t !in m.timers || m.timers[t].due > m.now then m
    else
      var rest := m.(timers := m.timers - {t});
      match m.timers[t].job
      case KvExpiry(key) => rest.(kv := m.kv - {key})
      case LockExpiry(key) =>
        if key in m.locks && m.locks[key].expiresAt <= m.now then rest.(locks := m.locks - {key}) else rest
  }

  function Elements(keys: seq<Key>): set<Key> { set k | k in keys }

  function Step(m: Mem, op: Op): (Mem, Obs) {
    match op
    case Set(key, value, ttl) => (Written(m, key, value, ttl), Nothing)
    case Get(key) =>
      (Collected(m, key), Got(if key in Collected(m, key).kv then Some(m.kv[key].value) else None))
    case Exist(key) => (Collected(m, key), Count(if key in Collected(m, key).kv then 1 else 0))
    case Ttl(key) =>
      (m, Seconds(if key in m.kv then RemainingSeconds(m.kv[key].expiresAt, m.now) else -2))
    case Del(keys) => (Removed(m, Elements(keys)), Count(|m.kv.Keys * Elements(keys)|))
    case Tick(ms) => (m.(now := m.now + ms), Nothing)
    case Fire(t) => (Fired(m, t), Nothing)
  }

  function Run(m: Mem, ops: seq<Op>): Mem {
    if |ops| == 0 then m else Step(Run(m, ops[..|ops| - 1]), ops[|ops| - 1]).0
  }

  // ----- what the store is meant to be: a map of values with deadlines -----

  datatype PureEntry = PureEntry(value: Value, expiresAt: Option<int>)

  datatype Pure = Pure(now: int, entries: map<Key, PureEntry>)

  predicate Present(p: Pure, key: Key) {
    key in p.entries && !Expired(p.entries[key].expiresAt, p.now)
  }

  function PureStep(p: Pure, op: Op): (Pure, Obs) {
    match op
    case Set(key, value, ttl) =>
      (p.(entries := p.entries[key := PureEntry(value, Deadline(p.now, ttl))]), Nothing)
    case Get(key) => (p, Got(if Present(p, key) then Some(p.entries[key].value) else None))
    case Exist(key) => (p, Count(if Present(p, key) then 1 else 0))
    case Ttl(key) =>
      (p, Seconds(if Present(p, key) then RemainingSeconds(p.entries[key].expiresAt, p.now) else -2))
    case Del(keys) =>
      (p.(entries := p.entries - Elements(keys)), Count(|set k | k in Elements(keys) && Present(p, k)|))
    case Tick(ms) => (p.(now := p.now + ms), Nothing)
    case Fire(_) => (p, Nothing)
  }

  function PureRun(p: Pure, ops: seq<Op>): Pure {
    if |ops| == 0 then p else PureStep(PureRun(p, ops[..|ops| - 1]), ops[|ops| - 1]).0
  }

  /** The two agree on every key that has not expired. */
  ghost predicate Refines(m: Mem, p: Pure) {
    && m.now == p.now
    && (forall k :: Present(p, k) ==>
          k in m.kv && m.kv[k].value == p.entries[k].value && m.kv[k].expiresAt == p.entries[k].expiresAt)
    && (forall k :: k in m.kv && !Expired(m.kv[k].expiresAt, m.now) ==> Present(p, k))
  }

  ghost predicate Good(m: Mem, p: Pure) {
    TimersMatch(m) && TimersNotEarly(m) && Refines(m, p)
  }

  /** The one-line condition under which the store keeps its promise: no TTL overflows a timer. */
  predicate TtlFits(op: Op) {
    op.Set? && op.ttl.Some? ==> op.ttl.value * 1000 <= MAX_DELAY
  }

  /** Answers agree; a deletion may also count entries that had expired but not been collected. */
  predicate Agrees(op: Op, concrete: Obs, pure: Obs) {
    if op.Del? then concrete.Count? && pure.Count? && concrete.n >= pure.n else concrete == pure
  }

  lemma WrittenMatch(m: Mem, key: Key, value: Value, ttl: Option<nat>)
    requires TimersMatch(m)
    ensures TimersMatch(Written(m, key, value, ttl))
  {
    var m' := Written(m, key, value, ttl);
    forall k | k in m'.kv && m'.kv[k].timer.Some?
      ensures m'.kv[k].timer.value in m'.timers && m'.timers[m'.kv[k].timer.value].job == KvExpiry(k)
    {
      assert k != key ==> m.kv[k].timer.value in m.timers;
    }
    forall t | t in m'.timers
      ensures t < m'.nextTimer
      ensures m'.timers[t].job.KvExpiry? ==>
                m'.timers[t].job.key in m'.kv && m'.kv[m'.timers[t].job.key].timer == Some(t)
    {
      assert t in m.timers || t == m.nextTimer;
    }
  }

  lemma WrittenNotEarly(m: Mem, key: Key, value: Value, ttl: Option<nat>)
    requires TimersMatch(m) && TimersNotEarly(m) && TtlFits(Set(key, value, ttl))
    ensures TimersNotEarly(Written(m, key, value, ttl))
  {
  }

  lemma WrittenRefines(m: Mem, p: Pure, key: Key, value: Value, ttl: Option<nat>)
    requires Refines(m, p)
    ensures Refines(Written(m, key, value, ttl), PureStep(p, Set(key, value, ttl)).0)
  {
  }

  lemma WrittenGood(m: Mem, p: Pure, key: Key, value: Value, ttl: Option<nat>)
    requires Good(m, p) && TtlFits(Set(key, value, ttl))
    ensures Good(Written(m, key, value, ttl), PureStep(p, Set(key, value, ttl)).0)
  {
    WrittenMatch(m, key, value, ttl);
    WrittenNotEarly(m, key, value, ttl);
    WrittenRefines(m, p, key, value, ttl);
  }

  lemma RemovedMatch(m: Mem, keys: set<Key>)
    requires TimersMatch(m)
    ensures TimersMatch(Removed(m, keys))
  {
  }

  lemma RemovedGood(m: Mem, p: Pure, p': Pure, keys: set<Key>)
    requires Good(m, p)
    requires p'.now == p.now && forall k :: Present(p', k) <==> Present(p, k) && k !in keys
    requires forall k :: Present(p', k) ==> p'.entries[k] == p.entries[k]
    ensures Good(Removed(m, keys), p')
  {
  }

  lemma FiredGood(m: Mem, p: Pure, t: TimerId)
    requires Good(m, p)
    ensures Good(Fired(m, t), p)
  {
    if t in m.timers && m.timers[t].due <= m.now && m.timers[t].job.KvExpiry? {
      var key := m.timers[t].job.key;
      assert m.kv[key].timer == Some(t) && Expired(m.kv[key].expiresAt, m.now);
      RemovedGood(m, p, p, {key});
      assert m.timers - {t} == WithoutKvTimers(m.timers, {key});
    }
  }

  lemma ReadRefines(m: Mem, p: Pure, op: Op)
    requires Good(m, p) && (op.Get? || op.Exist?)
    ensures Good(Step(m, op).0, PureStep(p, op).0)
    ensures Agrees(op, Step(m, op).1, PureStep(p, op).1)
  {
    if Collected(m, op.key) != m {
      RemovedGood(m, p, p, {op.key});
    }
  }

  lemma DeletionRefines(m: Mem, p: Pure, keys: seq<Key>)
    requires Good(m, p)
    ensures Good(Step(m, Del(keys)).0, PureStep(p, Del(keys)).0)
    ensures Agrees(Del(keys), Step(m, Del(keys)).1, PureStep(p, Del(keys)).1)
  {
    RemovedGood(m, p, PureStep(p, Del(keys)).0, Elements(keys));
    var live := set k | k in Elements(keys) && Present(p, k);
    SubsetSize(live, m.kv.Keys * Elements(keys));
  }

  lemma StepRefines(m: Mem, p: Pure, op: Op)
    requires Good(m, p) && TtlFits(op)
    ensures Good(Step(m, op).0, PureStep(p, op).0)
    ensures Agrees(op, Step(m, op).1, PureStep(p, op).1)
  {
    match op
    case Set(key, value, ttl) => WrittenGood(m, p, key, value, ttl);
    case Get(key) => ReadRefines(m, p, op);
    case Exist(key) => ReadRefines(m, p, op);
    case Ttl(key) =>
    case Del(keys) => DeletionRefines(m, p, keys);
    case Tick(_) =>
    case Fire(t) => FiredGood(m, p, t);
  }

  lemma {:induction false} SubsetSize<T>(a: set<T>, b: set<T>)
    requires a <= b
    ensures |a| <= |b|
  {
    assert b == a + (b - a);
  }

  const EMPTY := Mem(1, map[], map[], map[], 0)

  /**
   Store refinement: after any operations, ticks and timers as late and in whatever order, the next
   operation answers what the map of values with deadlines answers.
   */
  lemma {:induction false} StoreRefinesMap(ops: seq<Op>, op: Op)
    requires forall k :: 0 <= k < |ops| ==> TtlFits(ops[k])
    ensures Good(Run(EMPTY, ops), PureRun(Pure(1, map[]), ops))
    ensures TtlFits(op) ==>
              Agrees(op, Step(Run(EMPTY, ops), op).1, PureStep(PureRun(Pure(1, map[]), ops), op).1)
  {
    if |ops| > 0 {
      StoreRefinesMap(ops[..|ops| - 1], ops[|ops| - 1]);
      StepRefines(Run(EMPTY, ops[..|ops| - 1]), PureRun(Pure(1, map[]), ops[..|ops| - 1]), ops[|ops| - 1]);
    }
    if TtlFits(op) {
      StepRefines(Run(EMPTY, ops), PureRun(Pure(1, map[]), ops), op);
    }
  }

  /** A write, one millisecond, the timer it set if that is due, and a read. */
  function Survives(m: Mem, key: Key, value: Value, ttl: Option<nat>): Obs {
    Step(Step(Step(Step(m, Set(key, value, ttl)).0, Tick(1)).0, Fire(m.nextTimer)).0, Get(key)).1
  }

  /**
   The bound is exact: in any store that agrees with its map, whatever the key and value, a write survives its first
   millisecond if and only if its TTL fits a timer; the map always keeps it.
   */
  lemma TtlOverflow(m: Mem, p: Pure, key: Key, value: Value, ttl: Option<nat>)
    requires Good(m, p)
    ensures Survives(m, key, value, ttl) == Got(Some(value)) <==> TtlFits(Set(key, value, ttl))
    ensures PureStep(PureStep(PureStep(p, Set(key, value, ttl)).0, Tick(1)).0, Get(key)).1 == Got(Some(value))
  {
    WriteSurvives(m, p, key, value, ttl);
    PureWriteSurvives(p, key, value, ttl);
  }

  lemma PureWriteSurvives(p: Pure, key: Key, value: Value, ttl: Option<nat>)
    ensures PureStep(PureStep(PureStep(p, Set(key, value, ttl)).0, Tick(1)).0, Get(key)).1 == Got(Some(value))
  {
  }

  lemma WriteSurvives(m: Mem, p: Pure, key: Key, value: Value, ttl: Option<nat>)
    requires Good(m, p)
    ensures Survives(m, key, value, ttl) == Got(Some(value)) <==> TtlFits(Set(key, value, ttl))
  {
    var w := Written(m, key, value, ttl);
    WrittenMatch(m, key, value, ttl);
    var later := w.(now := m.now + 1);
    if Deadline(m.now, ttl).Some? {
      assert w.timers[m.nextTimer] == Timer(KvExpiry(key), m.now + TimerDelay(ttl.value * 1000));
    } else {
      assert m.nextTimer !in w.timers;
    }
    assert Fired(later, m.nextTimer) == if TtlFits(Set(key, value, ttl)) then later
                                        else later.(timers := w.timers - {m.nextTimer}, kv := w.kv - {key});
  }

  /** delKey over-counts exactly when it is given a key whose entry has expired but is still in memory. */
  lemma DeletionCount(m: Mem, p: Pure, keys: seq<Key>)
    requires Good(m, p)
    ensures Step(m, Del(keys)).1 == PureStep(p, Del(keys)).1
            <==> forall k :: k in keys && k in m.kv ==> !Expired(m.kv[k].expiresAt, m.now)
  {
    var live := set k | k in Elements(keys) && Present(p, k);
    var held := m.kv.Keys * Elements(keys);
    assert live <= held;
    assert held == live + (held - live);
    if forall k :: k in keys && k in m.kv ==> !Expired(m.kv[k].expiresAt, m.now) {
      assert held == live;
    } else {
      var k :| k in keys && k in m.kv && Expired(m.kv[k].expiresAt, m.now);
      assert k in held - live;
    }
  }

  // ----- for how long -----

  /** A value without a TTL stays; one with a TTL is there until that many seconds have passed, and not a millisecond longer. */
  lemma ValueLasts(p: Pure, key: Key, value: Value, ttl: Option<nat>, ms: nat)
    ensures var later := PureStep(PureStep(p, Set(key, value, ttl)).0, Tick(ms)).0;
            var there := ttl == None || ttl == Some(0) || ms < ttl.value * 1000;
            && PureStep(later, Get(key)).1 == Got(if there then Some(value) else None)
            && PureStep(later, Exist(key)).1 == Count(if there then 1 else 0)
  {
  }

  /** How much of its TTL is left is told in whole seconds, rounded up; without one it is -1, and -2 when it is gone. */
  lemma SecondsLeft(p: Pure, key: Key, value: Value, ttl: Option<nat>, ms: nat)
    ensures var later := PureStep(PureStep(p, Set(key, value, ttl)).0, Tick(ms)).0;
            var answer := PureStep(later, Ttl(key)).1;
            && answer.Seconds?
            && if ttl == None || ttl == Some(0) then answer.s == -1
               else if ms < ttl.value * 1000 then answer.s * 1000 - 1000 < ttl.value * 1000 - ms <= answer.s * 1000
               else answer.s == -2
  {
  }

  /** A TTL that a timer can be set for is one of at most 2147483 seconds. */
  lemma LongestTtl(key: Key, value: Value, seconds: nat)
    ensures TtlFits(Set(key, value, Some(seconds))) <==> seconds <= 2_147_483
  {
  }

  /** A lock that is free is taken, and refused to everybody until its TTL has passed or it has been released. */
  lemma LockLasts(m: Mem, key: Key, ttlSeconds: nat, ms: nat, again: nat)
    requires key !in m.locks
    ensures var (taken, ok) := LockAcquired(m, key, ttlSeconds);
            && ok && (LockAcquired(taken.(now := m.now + ms), key, again).1 <==> ms >= ttlSeconds * 1000)
            && LockAcquired(LockReleased(taken, key), key, again).1
  {
  }

  // ----- locks -----

  function LockAcquired(m: Mem, key: Key, ttlSeconds: nat): (Mem, bool) {
    if key in m.locks && m.locks[key].expiresAt > m.now then (m, false)
    else
      var cleared := if key in m.locks then m.timers - {m.locks[key].timer} else m.timers;
      (m.(locks := m.locks[key := LockEntry(m.now + ttlSeconds * 1000, m.nextTimer)],
          timers := cleared[m.nextTimer := Timer(LockExpiry(key), m.now + TimerDelay(ttlSeconds * 1000))],
          nextTimer := m.nextTimer + 1), true)
  }

  /** Releasing deletes the lock whoever holds it. */
  function LockReleased(m: Mem, key: Key): Mem {
    if key in m.locks then m.(locks := m.locks - {key}, timers := m.timers - {m.locks[key].timer}) else m
  }

  type Client = nat

  /** A client between a successful acquire and its release. */
  datatype Section = Section(client: Client, key: Key, expiresAt: int)

  datatype LockSys = LockSys(mem: Mem, sections: set<Section>)

  datatype LockOp =
    | Acquire(client: Client, key: Key, ttlSeconds: nat)
    | Release(client: Client, key: Key)
    | Wait(ms: nat)
    | TimerFires(timer: TimerId)

  function LockStep(s: LockSys, op: LockOp): LockSys {
    match op
    case Acquire(c, key, ttl) =>
      var (m, ok) := LockAcquired(s.mem, key, ttl);
      if ok then LockSys(m, s.sections + {Section(c, key, m.locks[key].expiresAt)}) else s
    case Release(c, key) =>
      var mine := set x | x in s.sections && x.client == c && x.key == key;
      if mine == {} then s else LockSys(LockReleased(s.mem, key), s.sections - mine)
    case Wait(ms) => s.(mem := s.mem.(now := s.mem.now + ms))
    case TimerFires(t) => s.(mem := Fired(s.mem, t))
  }

  function LockRun(s: LockSys, ops: seq<LockOp>): LockSys {
    if |ops| == 0 then s else LockStep(LockRun(s, ops[..|ops| - 1]), ops[|ops| - 1])
  }

  /** Every client still in its section is within its TTL. */
  predicate Timely(s: LockSys) {
    forall x :: x in s.sections ==> s.mem.now < x.expiresAt
  }

  predicate Exclusive(s: LockSys) {
    forall x, y :: x in s.sections && y in s.sections && x.key == y.key ==> x == y
  }

  predicate SectionsHoldLocks(s: LockSys) {
    forall x :: x in s.sections ==> x.key in s.mem.locks && s.mem.locks[x.key].expiresAt == x.expiresAt
  }

  /** A timer, however stale, never frees a lock that has not expired. */
  lemma StaleTimerFreesNothing(m: Mem, t: TimerId)
    ensures forall key :: key in m.locks && m.locks[key].expiresAt > m.now ==>
              key in Fired(m, t).locks && Fired(m, t).locks[key] == m.locks[key]
  {
  }

  lemma LockStepExclusive(s: LockSys, op: LockOp)
    requires Timely(s) && Exclusive(s) && SectionsHoldLocks(s)
    ensures Exclusive(LockStep(s, op)) && SectionsHoldLocks(LockStep(s, op))
  {
  }

  /**
   Mutual exclusion on every run, whatever the order of clients, ticks and timers, in which every client
   releases before its TTL ends.
   */
  lemma {:induction false} MutualExclusion(m: Mem, ops: seq<LockOp>)
    requires forall k :: 0 <= k < |ops| ==> Timely(LockRun(LockSys(m, {}), ops[..k]))
    ensures Exclusive(LockRun(LockSys(m, {}), ops)) && SectionsHoldLocks(LockRun(LockSys(m, {}), ops))
  {
    var s := LockSys(m, {});
    if |ops| > 0 {
      var n := |ops| - 1;
      forall k | 0 <= k < n ensures Timely(LockRun(s, ops[..n][..k])) {
        assert ops[..n][..k] == ops[..k];
      }
      MutualExclusion(m, ops[..n]);
      LockStepExclusive(LockRun(s, ops[..n]), ops[n]);
    }
  }

  /** Every section still has its lock, or its TTL is over and the lock is gone or still to be replaced. */
  predicate HoldsOrOverran(s: LockSys) {
    forall x :: x in s.sections ==>
      if x.key in s.mem.locks then s.mem.locks[x.key].expiresAt == x.expiresAt else x.expiresAt <= s.mem.now
  }

  /** The lock of a section whose TTL is over is taken while its client is still inside. */
  predicate TakesOver(s: LockSys, op: LockOp) {
    op.Acquire? && exists x :: x in s.sections && x.key == op.key && x.expiresAt <= s.mem.now
                              && x != Section(op.client, op.key, s.mem.now + op.ttlSeconds * 1000)
  }

  /** One step breaks exclusion exactly when it takes over an overrun section's lock; any other keeps what it rests on. */
  lemma StepBreaksExclusionIff(s: LockSys, op: LockOp)
    requires Exclusive(s) && HoldsOrOverran(s)
    ensures Exclusive(LockStep(s, op)) <==> !TakesOver(s, op)
    ensures !TakesOver(s, op) ==> HoldsOrOverran(LockStep(s, op))
  {
    match op
    case Acquire(c, key, ttl) =>
      var section := Section(c, key, s.mem.now + ttl * 1000);
      if TakesOver(s, op) {
        var x :| x in s.sections && x.key == key && x.expiresAt <= s.mem.now && x != section;
        assert x in LockStep(s, op).sections && section in LockStep(s, op).sections;
      }
    case Release(_, _) =>
    case Wait(_) =>
    case TimerFires(t) => StaleTimerFreesNothing(s.mem, t);
  }

  /** At every moment of the run at most one client is in a section of a key. */
  predicate AlwaysExclusive(s: LockSys, ops: seq<LockOp>) {
    Exclusive(LockRun(s, ops)) && (|ops| > 0 ==> AlwaysExclusive(s, ops[..|ops| - 1]))
  }

  predicate NeverTakesOver(s: LockSys, ops: seq<LockOp>) {
    |ops| > 0 ==> NeverTakesOver(s, ops[..|ops| - 1]) && !TakesOver(LockRun(s, ops[..|ops| - 1]), ops[|ops| - 1])
  }

  /** Exclusion holds throughout a run if and only if no acquire in it takes over an overrun section's lock. */
  lemma {:induction false} ExclusionIff(m: Mem, ops: seq<LockOp>)
    ensures AlwaysExclusive(LockSys(m, {}), ops) <==> NeverTakesOver(LockSys(m, {}), ops)
    ensures AlwaysExclusive(LockSys(m, {}), ops) ==> HoldsOrOverran(LockRun(LockSys(m, {}), ops))
  {
    if |ops| > 0 {
      var n := |ops| - 1;
      ExclusionIff(m, ops[..n]);
      if AlwaysExclusive(LockSys(m, {}), ops[..n]) {
        StepBreaksExclusionIff(LockRun(LockSys(m, {}), ops[..n]), ops[n]);
      }
    }
  }

  /**
   When a release takes a client's lock from under it: exactly when another client that is still in a section of the
   same key releases. Exclusion was broken before that: it takes a takeover for two to be in one key's sections.
   */
  lemma ReleaseFreesAnotherIff(s: LockSys, y: Section, client: Client, key: Key)
    requires y in s.sections && s.mem.now < y.expiresAt && y.key in s.mem.locks && s.mem.locks[y.key].expiresAt == y.expiresAt
    ensures var t := LockStep(s, Release(client, key));
            (y in t.sections && y.key !in t.mem.locks)
            <==> client != y.client && key == y.key && exists x :: x in s.sections && x.client == client && x.key == key
  {
    var mine := set x | x in s.sections && x.client == client && x.key == key;
    if exists x :: x in s.sections && x.client == client && x.key == key {
      var x :| x in s.sections && x.client == client && x.key == key;
      assert x in mine;
    }
  }

  /**
   One overrun is enough to break it for clients that are on time: the first client's late release frees
   the second one's lock, and a third gets in while the second is well within its TTL.
   */
  lemma OverrunLetsTwoIn()
    ensures var ops := [Acquire(1, "k", 5), Wait(5000), Acquire(2, "k", 5), Release(1, "k"), Acquire(3, "k", 5)];
            var s := LockRun(LockSys(EMPTY, {}), ops);
            Section(2, "k", 10001) in s.sections && Section(3, "k", 10001) in s.sections && Timely(s)
  {
    var s0 := LockSys(EMPTY, {});
    var a, b, c, d, e := Acquire(1, "k", 5), Wait(5000), Acquire(2, "k", 5), Release(1, "k"), Acquire(3, "k", 5);
    assert [a, b, c, d, e][..4] == [a, b, c, d] && [a, b, c, d][..3] == [a, b, c];
    assert [a, b, c][..2] == [a, b] && [a, b][..1] == [a] && [a][..0] == [];
    var s1 := LockStep(s0, a);
    var s2 := LockStep(s1, b);
    var s3 := LockStep(s2, c);
    assert s3.sections == {Section(1, "k", 5001), Section(2, "k", 10001)};
    var s4 := LockStep(s3, d);
    assert (set x | x in s3.sections && x.client == 1 && x.key == "k") == {Section(1, "k", 5001)};
    assert s4.sections == {Section(2, "k", 10001)};
    assert LockRun(s0, [a, b, c, d]) == s4 by {
      assert LockRun(s0, [a]) == s1;
      assert LockRun(s0, [a, b]) == s2;
      assert LockRun(s0, [a, b, c]) == s3;
    }
    assert LockRun(s0, [a, b, c, d, e]) == LockStep(s4, e);
  }

  // ----- the service -----

  lemma RemovedNone(m: Mem)
    ensures Removed(m, Elements([])) == m
  {
  }

  lemma ElementsNext(keys: seq<Key>, i: nat)
    requires i < |keys|
    ensures Elements(keys[..i + 1]) == Elements(keys[..i]) + {keys[i]}
  {
  }

  lemma RemovedAnother(m: Mem, done: set<Key>, k: Key)
    ensures Removed(Removed(m, done), {k}) == Removed(m, done + {k})
  {
  }

  lemma HeldAnother(held: set<Key>, done: set<Key>, k: Key)
    ensures |held * (done + {k})| == |held * done| + if k in held && k !in done then 1 else 0
  {
    if k in held && k !in done {
      assert held * (done + {k}) == held * done + {k};
    } else {
      assert held * (done + {k}) == held * done;
    }
  }

  /** The in-memory branch; `Advance` and `FireTimer` are the event loop around it. */
  class RedisService {
    var now: int
    var inMemoryLocks: map<Key, LockEntry>
    var inMemoryKV: map<Key, KvEntry>
    var timers: map<TimerId, Timer>
    var nextTimer: TimerId

    constructor ()
      ensures View() == EMPTY && Valid()
    {
      now, inMemoryLocks, inMemoryKV, timers, nextTimer := 1, map[], map[], map[], 0;
    }

    function View(): Mem
      reads this
    {
      Mem(now, inMemoryLocks, inMemoryKV, timers, nextTimer)
    }

    ghost predicate Valid()
      reads this
    {
      TimersMatch(View())
    }

    method SetTimeout(job: Job, ms: int) returns (t: TimerId)
      modifies this`timers, this`nextTimer
      ensures t == old(nextTimer) && nextTimer == t + 1
      ensures timers == old(timers)[t := Timer(job, now + TimerDelay(ms))]
    {
      t := nextTimer;
      nextTimer := nextTimer + 1;
      timers := timers[t := Timer(job, now + TimerDelay(ms))];
    }

    method ClearTimeout(t: TimerId)
      modifies this`timers
      ensures timers == old(timers) - {t}
    {
      timers := timers - {t};
    }

    method AcquireLock(key: Key, ttlSeconds: nat) returns (ok: bool)
      modifies this
      ensures (View(), ok) == LockAcquired(old(View()), key, ttlSeconds)
    {
      if key in inMemoryLocks {
        var existing := inMemoryLocks[key];
        if existing.expiresAt > now {
          return false;
        }
        ClearTimeout(existing.timer);
        inMemoryLocks := inMemoryLocks - {key};
      }
      var expiresAt := now + ttlSeconds * 1000;
      var timer := SetTimeout(LockExpiry(key), ttlSeconds * 1000);
      inMemoryLocks := inMemoryLocks[key := LockEntry(expiresAt, timer)];
      assert inMemoryLocks == old(inMemoryLocks)[key := LockEntry(expiresAt, timer)];
      ok := true;
    }

    method ReleaseLock(key: Key) returns (released: nat)
      modifies this
      ensures View() == LockReleased(old(View()), key)
      ensures released == if key in old(inMemoryLocks) then 1 else 0
    {
      if key in inMemoryLocks {
        ClearTimeout(inMemoryLocks[key].timer);
        inMemoryLocks := inMemoryLocks - {key};
        return 1;
      }
      released := 0;
    }

    method SetValue(key: Key, value: Value, ttl: Option<nat>)
      requires Valid()
      modifies this
      ensures Valid() && View() == Step(old(View()), Set(key, value, ttl)).0
    {
      ghost var before := View();
      if key in inMemoryKV && inMemoryKV[key].timer.Some? {
        ClearTimeout(inMemoryKV[key].timer.value);
      }
      assert timers == WithoutKvTimers(before.timers, {key});
      var expiresAt: Option<int>, timer: Option<TimerId> := None, None;
      if ttl.Some? && ttl.value != 0 {
        expiresAt := Some(now + ttl.value * 1000);
        var t := SetTimeout(KvExpiry(key), ttl.value * 1000);
        timer := Some(t);
      }
      inMemoryKV := inMemoryKV[key := KvEntry(value, expiresAt, timer)];
      assert View() == Written(before, key, value, ttl);
      WrittenMatch(before, key, value, ttl);
    }

    /** What getValue and exist do with an entry that has expired. */
    method Collect(key: Key) returns (present: bool)
      requires Valid()
      modifies this
      ensures Valid() && View() == Collected(old(View()), key)
      ensures present <==> key in inMemoryKV
    {
      if key !in inMemoryKV {
        return false;
      }
      var entry := inMemoryKV[key];
      if Expired(entry.expiresAt, now) {
        RemovedMatch(View(), {key});
        if entry.timer.Some? {
          ClearTimeout(entry.timer.value);
        }
        assert timers == WithoutKvTimers(old(timers), {key});
        inMemoryKV := inMemoryKV - {key};
        return false;
      }
      present := true;
    }

    method GetValue(key: Key) returns (value: Option<Value>)
      requires Valid()
      modifies this
      ensures Valid() && (View(), Got(value)) == Step(old(View()), Get(key))
    {
      var present := Collect(key);
      value := if present then Some(inMemoryKV[key].value) else None;
    }

    method ExistKey(key: Key) returns (n: nat)
      requires Valid()
      modifies this
      ensures Valid() && (View(), Count(n)) == Step(old(View()), Exist(key))
    {
      var present := Collect(key);
      n := if present then 1 else 0;
    }

    method TtlOf(key: Key) returns (seconds: int)
      ensures (View(), Seconds(seconds)) == Step(View(), Ttl(key))
    {
      if key !in inMemoryKV {
        return -2;
      }
      if inMemoryKV[key].expiresAt.None? {
        return -1;
      }
      var remaining := CeilSeconds(inMemoryKV[key].expiresAt.value - now);
      seconds := if remaining > 0 then remaining else -2;
    }

    method DelOne(k: Key) returns (deleted: nat)
      requires Valid()
      modifies this
      ensures Valid() && View() == Removed(old(View()), {k})
      ensures deleted == if k in old(inMemoryKV) then 1 else 0
    {
      RemovedMatch(View(), {k});
      if k !in inMemoryKV {
        assert timers == WithoutKvTimers(timers, {k}) && inMemoryKV == inMemoryKV - {k};
        return 0;
      }
      if inMemoryKV[k].timer.Some? {
        ClearTimeout(inMemoryKV[k].timer.value);
      }
      assert timers == WithoutKvTimers(old(timers), {k});
      inMemoryKV := inMemoryKV - {k};
      deleted := 1;
    }

    method DelKey(keys: seq<Key>) returns (deletedCount: nat)
      requires Valid()
      modifies this
      ensures Valid() && (View(), Count(deletedCount)) == Step(old(View()), Del(keys))
    {
      ghost var before := View();
      deletedCount := 0;
      RemovedNone(before);
      assert before.kv.Keys * Elements(keys[..0]) == {};
      for i := 0 to |keys|
        invariant Valid() && View() == Removed(before, Elements(keys[..i]))
        invariant deletedCount == |before.kv.Keys * Elements(keys[..i])|
      {
        ElementsNext(keys, i);
        RemovedAnother(before, Elements(keys[..i]), keys[i]);
        HeldAnother(before.kv.Keys, Elements(keys[..i]), keys[i]);
        var deleted := DelOne(keys[i]);
        deletedCount := deletedCount + deleted;
      }
      assert keys[..|keys|] == keys;
    }

    method Advance(ms: nat)
      modifies this`now
      ensures View() == Step(old(View()), Tick(ms)).0
    {
      now := now + ms;
    }

    method FireTimer(t: TimerId)
      modifies this
      ensures View() == Fired(old(View()), t)
    {
      if t !in timers || timers[t].due > now {
        return;
      }
      var job := timers[t].job;
      timers := timers - {t};
      match job
      case KvExpiry(key) =>
        inMemoryKV := inMemoryKV - {key};
      case LockExpiry(key) =>
        if key in inMemoryLocks && inMemoryLocks[key].expiresAt <= now {
          inMemoryLocks := inMemoryLocks - {key};
        }
    }
  }
}
