/**
 The timer queue as a state machine (src/timer_queue.cc, src/timer.cc, src/timer.h).

 Two indexes hold the pending timers: `timers`, ordered by expiration and
 address, and `active`, by address and sequence number.  HandleRead takes the
 expired timers out of both, runs their callbacks, and puts the repeating ones
 back.  The callbacks may re-enter AddTimer and Cancel, so HandleRead is split
 into Begin, one Fire per callback, and End, with any steps in between.  Timers
 are allocated and deleted by hand, and the allocator may reuse an address.

 As in the source, times are microseconds and intervals whole seconds.
 */
module TimerModel {
  import opened Basics

  // ----- timespec arithmetic ------------------------------------------------

  const MICROS_PER_SECOND := 1_000_000
  const TWO_63 := 0x8000_0000_0000_0000
  const TWO_64 := 0x1_0000_0000_0000_0000

  datatype Timespec = Timespec(sec: int, nsec: int)

  // The conversion of the unsigned 64-bit difference of two timestamps to int64_t
  function SignedDifference(when: nat, now: nat): int {
    var d := (when - now) % TWO_64;
    if d < TWO_63 then d else d - TWO_64
  }

  function Clamp(micros: int): int {
    if micros < 100 then 100 else micros
  }

  // detail::HowManyTimeLeftNow
  function HowManyTimeLeftNow(when: nat, now: nat): Timespec {
    var micros := Clamp(SignedDifference(when, now));
    Timespec(micros / MICROS_PER_SECOND, micros % MICROS_PER_SECOND * 1000)
  }

  function Nanoseconds(ts: Timespec): int {
    ts.sec * 1_000_000_000 + ts.nsec
  }

  // The timespec is legal and never the zero that would disarm the timerfd, for
  // any two 64-bit timestamps.  It encodes the clamped difference exactly when
  // that difference fits in int64_t, or has wrapped to something below the clamp.
  lemma TimeLeftIsExact(when: nat, now: nat)
    requires when < TWO_64 && now < TWO_64
    ensures var ts := HowManyTimeLeftNow(when, now);
            && 0 <= ts.sec && 0 <= ts.nsec < 1_000_000_000 && 100_000 <= Nanoseconds(ts)
            && (Nanoseconds(ts) == 1000 * Clamp(when - now) <==>
                -TWO_63 <= when - now < TWO_63 || when - now <= 100 - TWO_64)
  {
    var d := when - now;
    if d < 0 {
      assert d % TWO_64 == d + TWO_64;
    }
    var micros := Clamp(SignedDifference(when, now));
    assert micros == micros / MICROS_PER_SECOND * MICROS_PER_SECOND + micros % MICROS_PER_SECOND;
  }

  // ----- the ordered index --------------------------------------------------

  type Addr = nat

  // UINTPTR_MAX, the address in the sentry of getExpired
  const ADDR_MAX: Addr := 0xFFFF_FFFF_FFFF_FFFF

  datatype Entry = Entry(when: nat, timer: Addr)

  // operator< of std::pair<Timestamp, Timer*>
  predicate Less(a: Entry, b: Entry) {
    a.when < b.when || (a.when == b.when && a.timer < b.timer)
  }

  // A std::set<Entry> is its elements in increasing order
  predicate Sorted(es: seq<Entry>) {
    forall i, j | 0 <= i < j < |es| :: Less(es[i], es[j])
  }

  function LowerBound(es: seq<Entry>, e: Entry): (k: nat)
    requires Sorted(es)
    ensures k <= |es|
    ensures forall i | 0 <= i < k :: Less(es[i], e)
    ensures forall i | k <= i < |es| :: !Less(es[i], e)
  {
    if es == [] || !Less(es[0], e) then 0 else 1 + LowerBound(es[1..], e)
  }

  function InsertEntry(es: seq<Entry>, e: Entry): (r: seq<Entry>)
    requires Sorted(es)
    ensures Sorted(r)
    ensures forall x :: x in r <==> x in es || x == e
    ensures e !in es ==> |r| == |es| + 1
    ensures r[0] == if es == [] || Less(e, es[0]) then e else es[0]
  {
    var k := LowerBound(es, e);
    if k < |es| && es[k] == e then es else es[..k] + [e] + es[k..]
  }

  function EraseEntry(es: seq<Entry>, e: Entry): (r: seq<Entry>)
    requires Sorted(es)
    ensures Sorted(r)
    ensures forall x :: x in r <==> x in es && x != e
    ensures e in es ==> |r| == |es| - 1
  {
    var k := LowerBound(es, e);
    if k < |es| && es[k] == e then es[..k] + es[k + 1..] else es
  }

  // ----- state --------------------------------------------------------------

  // TimerId: what AddTimer returns and Cancel takes; also the key of the second index
  datatype TimerId = TimerId(timer: Addr, sequence: nat)

  datatype Timer = Timer(expiration: nat, interval: int, sequence: nat)

  // The timerfd was set at time `at` to expire at `deadline`
  datatype Arming = Arming(at: nat, deadline: nat)

  // A callback ran: the timer's sequence number and interval, its expiration, and HandleRead's `now`
  datatype Firing = Firing(sequence: nat, interval: int, due: nat, now: nat)

  type Heap = map<Addr, Timer>

  // `heap` holds the timers not yet deleted, `adding` those whose AddTimerInLoop
  // has not run.  While HandleRead is on the stack, `batch` is its local vector of
  // expired entries, of which the callbacks of the first `ran` have been entered,
  // and `now` the time it read.  `issued` lists the address of every timer ever
  // created, by sequence number; `freed` and `fired` record deletions and callbacks.
  datatype Queue = Queue(
    heap: Heap,
    adding: set<Addr>,
    timers: seq<Entry>,
    active: set<TimerId>,
    canceling: set<TimerId>,
    calling: bool,
    batch: seq<Entry>,
    ran: nat,
    now: nat,
    armed: Option<Arming>,
    issued: seq<Addr>,
    freed: multiset<nat>,
    fired: seq<Firing>)

  datatype Step =
    | Allocate(timer: Addr, when: nat, interval: int)  // AddTimer: new Timer
    | AddInLoop(timer: Addr, clock: nat)               // AddTimerInLoop
    | Cancel(id: TimerId)                              // CancelInLoop
    | Begin(now: nat)                                  // HandleRead up to its loop
    | Fire                                             // one iteration of the loop
    | End(clock: nat)                                  // Reset

  const INIT := Queue(map[], {}, [], {}, {}, false, [], 0, 0, None, [], multiset{}, [])

  // ----- the operations -----------------------------------------------------

  function IdOf(heap: Heap, a: Addr): TimerId
    requires a in heap
  {
    TimerId(a, heap[a].sequence)
  }

  function EntryOf(heap: Heap, a: Addr): Entry
    requires a in heap
  {
    Entry(heap[a].expiration, a)
  }

  // ResetTimerfd
  function Arm(when: nat, clock: nat): Option<Arming> {
    Some(Arming(clock, clock + Nanoseconds(HowManyTimeLeftNow(when, clock)) / 1000))
  }

  // Timer::Restart for a repeating timer
  function Restarted(t: Timer, now: nat): Timer
    requires 0 < t.interval
  {
    t.(expiration := now + t.interval * MICROS_PER_SECOND)
  }

  predicate Earliest(timers: seq<Entry>, when: nat) {
    timers == [] || when < timers[0].when
  }

  // TimerQueue::Insert
  function Insert(q: Queue, a: Addr): Queue
    requires a in q.heap && Sorted(q.timers)
  {
    q.(timers := InsertEntry(q.timers, EntryOf(q.heap, a)), active := q.active + {IdOf(q.heap, a)})
  }

  function Delete(q: Queue, a: Addr): Queue
    requires a in q.heap
  {
    q.(heap := q.heap - {a}, freed := q.freed + multiset{q.heap[a].sequence})
  }

  function AddTimerInLoop(q: Queue, a: Addr, clock: nat): Queue
    requires a in q.heap && Sorted(q.timers)
  {
    var r := Insert(q.(adding := q.adding - {a}), a);
    if Earliest(q.timers, q.heap[a].expiration) then r.(armed := Arm(q.heap[a].expiration, clock)) else r
  }

  function CancelInLoop(q: Queue, id: TimerId): Queue
    requires Sorted(q.timers) && (id in q.active ==> id.timer in q.heap)
  {
    if id in q.active then
      Delete(q.(timers := EraseEntry(q.timers, EntryOf(q.heap, id.timer)), active := q.active - {id}), id.timer)
    else if q.calling then q.(canceling := q.canceling + {id})
    else q
  }

  function IdsOf(heap: Heap, es: seq<Entry>): set<TimerId> {
    set e | e in es && e.timer in heap :: IdOf(heap, e.timer)
  }

  // getExpired, and the start of the loop of HandleRead
  function Begun(q: Queue, now: nat): Queue
    requires Sorted(q.timers)
  {
    var k := LowerBound(q.timers, Entry(now, ADDR_MAX));
    q.(timers := q.timers[k..], active := q.active - IdsOf(q.heap, q.timers[..k]),
       batch := q.timers[..k], ran := 0, now := now, calling := true, canceling := {})
  }

  function Fired(q: Queue): Queue
    requires q.ran < |q.batch| && q.batch[q.ran].timer in q.heap
  {
    var t := q.heap[q.batch[q.ran].timer];
    q.(ran := q.ran + 1, fired := q.fired + [Firing(t.sequence, t.interval, t.expiration, q.now)])
  }

  predicate Restarts(q: Queue, a: Addr)
    requires a in q.heap
  {
    0 < q.heap[a].interval && IdOf(q.heap, a) !in q.canceling
  }

  // One iteration of the loop of Reset
  function ResetOne(q: Queue): Queue
    requires q.batch != [] && q.batch[0].timer in q.heap && Sorted(q.timers)
  {
    var a := q.batch[0].timer;
    var r := q.(batch := q.batch[1..], ran := if q.ran == 0 then 0 else q.ran - 1);
    if Restarts(q, a) then Insert(r.(heap := r.heap[a := Restarted(r.heap[a], r.now)]), a) else Delete(r, a)
  }

  predicate BatchInHeap(q: Queue) {
    Sorted(q.timers) &&
    (forall i | 0 <= i < |q.batch| :: q.batch[i].timer in q.heap) &&
    (forall i, j | 0 <= i < j < |q.batch| :: q.batch[i].timer != q.batch[j].timer)
  }

  function ResetAll(q: Queue): Queue
    requires BatchInHeap(q)
    decreases |q.batch|
  {
    if q.batch == [] then q else ResetOneInHeap(q); ResetAll(ResetOne(q))
  }

  lemma ResetOneInHeap(q: Queue)
    requires BatchInHeap(q) && q.batch != []
    ensures BatchInHeap(ResetOne(q)) && ResetOne(q).batch == q.batch[1..]
  {
    hide InsertEntry;
    var r, a := ResetOne(q), q.batch[0].timer;
    forall i | 0 <= i < |r.batch| ensures r.batch[i].timer in r.heap {
      assert r.batch[i] == q.batch[i + 1] && q.batch[i + 1].timer != a;
    }
  }

  // The end of HandleRead with Reset
  function Ended(q: Queue, clock: nat): Queue
    requires BatchInHeap(q)
  {
    var r := ResetAll(q.(calling := false));
    if r.timers != [] then r.(armed := Arm(r.timers[0].when, clock)) else r
  }

  // ----- when a step can happen, what the source asserts, and what it does --

  // One clock below 2^62 microseconds, 32-bit intervals, addresses other than null and UINTPTR_MAX
  predicate Enabled(q: Queue, step: Step) {
    match step
    case Allocate(a, when, interval) => 0 < a < ADDR_MAX && a !in q.heap && when < TWO_63 && interval < 0x8000_0000
    case AddInLoop(a, clock) => a in q.adding && clock < TWO_63 / 2
    case Cancel(id) => true
    case Begin(now) => !q.calling && now < TWO_63 / 2
    case Fire => q.calling && q.ran < |q.batch|
    case End(clock) => q.calling && q.ran == |q.batch| && clock < TWO_63 / 2
  }

  predicate SizesAgree(q: Queue) {
    |q.active| == |q.timers|
  }

  // The size assertions on entry and exit of every operation, that erase and
  // insert find what they look for, and that no freed timer is touched
  predicate AssertsHold(q: Queue, step: Step)
    requires Enabled(q, step)
  {
    Sorted(q.timers) && SizesAgree(q) &&
    match step
    case Allocate(_, _, _) => true
    case AddInLoop(a, _) => a in q.heap && EntryOf(q.heap, a) !in q.timers && IdOf(q.heap, a) !in q.active
    case Cancel(id) =>
      id in q.active ==>
        id.timer in q.heap && EntryOf(q.heap, id.timer) in q.timers && SizesAgree(CancelInLoop(q, id))
    case Begin(now) =>
      var k := LowerBound(q.timers, Entry(now, ADDR_MAX));
      && (k < |q.timers| ==> now < q.timers[k].when)
      && (forall i | 0 <= i < k :: q.timers[i].timer in q.heap && IdOf(q.heap, q.timers[i].timer) in q.active)
      && SizesAgree(Begun(q, now))
    case Fire => q.batch[q.ran].timer in q.heap
    case End(_) => BatchInHeap(q) && SizesAgree(ResetAll(q.(calling := false)))
  }

  function Apply(q: Queue, step: Step): Queue
    requires Enabled(q, step) && AssertsHold(q, step)
  {
    match step
    case Allocate(a, when, interval) =>
      q.(heap := q.heap[a := Timer(when, interval, |q.issued|)], adding := q.adding + {a}, issued := q.issued + [a])
    case AddInLoop(a, clock) => AddTimerInLoop(q, a, clock)
    case Cancel(id) => CancelInLoop(q, id)
    case Begin(now) => Begun(q, now)
    case Fire => Fired(q)
    case End(clock) => Ended(q, clock)
  }

  // ----- the invariant ------------------------------------------------------

  // Sequence numbers are never shared, and lead back to the address
  predicate HeapAgrees(heap: Heap, issued: seq<Addr>) {
    && (forall a | a in heap ::
          && 0 < a < ADDR_MAX && heap[a].sequence < |issued| && issued[heap[a].sequence] == a
          && heap[a].expiration < TWO_63 && heap[a].interval < 0x8000_0000)
  }

  // Both indexes hold the same timers, with their current expiration and sequence
  predicate IndexesAgree(heap: Heap, timers: seq<Entry>, active: set<TimerId>) {
    && Sorted(timers)
    && (forall i | 0 <= i < |timers| :: timers[i].timer in heap && EntryOf(heap, timers[i].timer) == timers[i])
    && active == IdsOf(heap, timers)
  }

  predicate BatchAgrees(heap: Heap, batch: seq<Entry>, now: nat) {
    && (forall i | 0 <= i < |batch| ::
          batch[i].timer in heap && EntryOf(heap, batch[i].timer) == batch[i] && batch[i].when <= now)
    && (forall i, j | 0 <= i < j < |batch| :: batch[i].timer != batch[j].timer)
  }

  // Every timer not yet deleted is in exactly one place; `loose` are those an operation has in its hands
  predicate PlacesAgree(heap: Heap, adding: set<Addr>, timers: seq<Entry>, batch: seq<Entry>, loose: set<Addr>) {
    && (forall a | a in heap :: a in adding || EntryOf(heap, a) in timers || EntryOf(heap, a) in batch || a in loose)
    && (forall a | a in adding :: a in heap && EntryOf(heap, a) !in timers && EntryOf(heap, a) !in batch)
    && (forall e | e in timers :: e !in batch)
    && (forall a | a in loose ::
          a in heap && a !in adding && EntryOf(heap, a) !in timers && EntryOf(heap, a) !in batch)
  }

  // A sequence number is in the heap or has been freed once
  ghost predicate FreedAgrees(heap: Heap, issued: seq<Addr>, freed: multiset<nat>) {
    forall n: nat ::
      freed[n] == if n < |issued| && !(issued[n] in heap && heap[issued[n]].sequence == n) then 1 else 0
  }

  function Gap(interval: int): int {
    interval * MICROS_PER_SECOND
  }

  // Two firings of one timer are an interval apart, and none is early
  predicate FiredAgrees(fired: seq<Firing>, issued: seq<Addr>) {
    && (forall i | 0 <= i < |fired| :: fired[i].due <= fired[i].now && fired[i].sequence < |issued|)
    && (forall i, j | 0 <= i < j < |fired| && fired[i].sequence == fired[j].sequence ::
          && fired[i].interval == fired[j].interval && 0 < fired[i].interval
          && fired[i].now + Gap(fired[i].interval) <= fired[j].now)
  }

  // A timer that has fired before is due an interval later
  predicate Spaced(t: Timer, f: Firing) {
    f.sequence == t.sequence ==>
      f.interval == t.interval && 0 < t.interval && f.now + Gap(t.interval) <= t.expiration
  }

  predicate SpacingAgrees(heap: Heap, adding: set<Addr>, timers: seq<Entry>, batch: seq<Entry>, ran: nat, now: nat,
                          fired: seq<Firing>)
  {
    forall i | 0 <= i < |fired| ::
      && (forall a | a in adding && a in heap :: heap[a].sequence != fired[i].sequence)
      && (forall j | 0 <= j < |timers| && timers[j].timer in heap :: Spaced(heap[timers[j].timer], fired[i]))
      && (forall j | ran <= j < |batch| && batch[j].timer in heap :: Spaced(heap[batch[j].timer], fired[i]))
      && (forall j | 0 <= j < ran && j < |batch| && batch[j].timer in heap &&
                     heap[batch[j].timer].sequence == fired[i].sequence ::
            fired[i].interval == heap[batch[j].timer].interval && fired[i].now <= now)
  }

  ghost predicate Core(q: Queue, loose: set<Addr>) {
    && HeapAgrees(q.heap, q.issued)
    && IndexesAgree(q.heap, q.timers, q.active)
    && BatchAgrees(q.heap, q.batch, q.now)
    && PlacesAgree(q.heap, q.adding, q.timers, q.batch, loose)
    && FreedAgrees(q.heap, q.issued, q.freed)
    && FiredAgrees(q.fired, q.issued)
    && SpacingAgrees(q.heap, q.adding, q.timers, q.batch, q.ran, q.now, q.fired)
    && q.ran <= |q.batch| && q.now < TWO_63 / 2
  }

  // Outside HandleRead a pending timer finds the timerfd armed, no later than it needs
  predicate ArmedAgrees(q: Queue) {
    !q.calling && q.timers != [] ==>
      q.armed.Some? && q.armed.value.deadline <= Max(q.timers[0].when, q.armed.value.at + 100)
  }

  ghost predicate Inv(q: Queue) {
    Core(q, {}) && (!q.calling ==> q.batch == []) && ArmedAgrees(q)
  }

  // ----- every step keeps the invariant -------------------------------------

  lemma {:induction false} IndexSizes(heap: Heap, timers: seq<Entry>)
    requires forall i | 0 <= i < |timers| :: timers[i].timer in heap && EntryOf(heap, timers[i].timer) == timers[i]
    requires Sorted(timers)
    ensures |IdsOf(heap, timers)| == |timers|
  {
    if timers != [] {
      var n := |timers| - 1;
      IndexSizes(heap, timers[..n]);
      var id := IdOf(heap, timers[n].timer);
      assert IdsOf(heap, timers) == IdsOf(heap, timers[..n]) + {id};
      assert id !in IdsOf(heap, timers[..n]);
    }
  }

  lemma AllocateIndexes(q: Queue, a: Addr, t: Timer)
    requires Inv(q) && a !in q.heap
    ensures IndexesAgree(q.heap[a := t], q.timers, q.active) && BatchAgrees(q.heap[a := t], q.batch, q.now)
  {
    hide HeapAgrees, PlacesAgree, FreedAgrees, FiredAgrees, SpacingAgrees;
    assert IdsOf(q.heap[a := t], q.timers) == IdsOf(q.heap, q.timers);
  }

  lemma AllocatePlaces(q: Queue, a: Addr, t: Timer)
    requires Inv(q) && a !in q.heap
    ensures PlacesAgree(q.heap[a := t], q.adding + {a}, q.timers, q.batch, {})
  {
    hide HeapAgrees, FreedAgrees, FiredAgrees, SpacingAgrees;
  }

  lemma AllocateFreed(heap: Heap, issued: seq<Addr>, freed: multiset<nat>, a: Addr, t: Timer)
    requires HeapAgrees(heap, issued) && FreedAgrees(heap, issued, freed) && a !in heap
    requires t.sequence == |issued|
    ensures FreedAgrees(heap[a := t], issued + [a], freed)
  {}

  lemma AllocateSpacing(q: Queue, a: Addr, t: Timer)
    requires Inv(q) && a !in q.heap && t.sequence == |q.issued|
    ensures FiredAgrees(q.fired, q.issued + [a])
    ensures SpacingAgrees(q.heap[a := t], q.adding + {a}, q.timers, q.batch, q.ran, q.now, q.fired)
  {
    hide HeapAgrees, PlacesAgree, FreedAgrees;
  }

  lemma AllocateKeeps(q: Queue, a: Addr, when: nat, interval: int)
    requires Inv(q) && Enabled(q, Allocate(a, when, interval)) && AssertsHold(q, Allocate(a, when, interval))
    ensures Inv(Apply(q, Allocate(a, when, interval)))
  {
    hide IndexesAgree, BatchAgrees, PlacesAgree, FreedAgrees, FiredAgrees, SpacingAgrees;
    var t := Timer(when, interval, |q.issued|);
    AllocateIndexes(q, a, t);
    AllocatePlaces(q, a, t);
    AllocateFreed(q.heap, q.issued, q.freed, a, t);
    AllocateSpacing(q, a, t);
  }

  lemma FireKeeps(q: Queue)
    requires Inv(q) && Enabled(q, Fire) && AssertsHold(q, Fire)
    ensures Inv(Apply(q, Fire))
  {
    hide FreedAgrees, IdsOf;
  }

  // --- a loose timer is put into the indexes, or deleted

  lemma InsertIndexes(heap: Heap, timers: seq<Entry>, active: set<TimerId>, a: Addr)
    requires IndexesAgree(heap, timers, active) && a in heap
    ensures IndexesAgree(heap, InsertEntry(timers, EntryOf(heap, a)), active + {IdOf(heap, a)})
  {
    var timers' := InsertEntry(timers, EntryOf(heap, a));
    assert IdsOf(heap, timers') == IdsOf(heap, timers) + {IdOf(heap, a)};
  }

  lemma InsertPlaces(heap: Heap, adding: set<Addr>, timers: seq<Entry>, batch: seq<Entry>, a: Addr)
    requires PlacesAgree(heap, adding, timers, batch, {a}) && Sorted(timers)
    ensures PlacesAgree(heap, adding, InsertEntry(timers, EntryOf(heap, a)), batch, {})
  {
    hide InsertEntry;
  }

  lemma InsertSpacing(q: Queue, a: Addr)
    requires SpacingAgrees(q.heap, q.adding, q.timers, q.batch, q.ran, q.now, q.fired)
    requires a in q.heap && Sorted(q.timers)
    requires forall i | 0 <= i < |q.fired| :: Spaced(q.heap[a], q.fired[i])
    ensures SpacingAgrees(q.heap, q.adding, InsertEntry(q.timers, EntryOf(q.heap, a)), q.batch, q.ran, q.now, q.fired)
  {
    hide InsertEntry;
    var timers := InsertEntry(q.timers, EntryOf(q.heap, a));
    forall i, j | 0 <= i < |q.fired| && 0 <= j < |timers| && timers[j].timer in q.heap
      ensures Spaced(q.heap[timers[j].timer], q.fired[i])
    {
      assert timers[j] in timers;
    }
  }

  lemma InsertKeeps(q: Queue, a: Addr)
    requires Core(q, {a}) && a in q.heap && Sorted(q.timers)
    requires forall i | 0 <= i < |q.fired| :: Spaced(q.heap[a], q.fired[i])
    ensures Core(Insert(q, a), {})
  {
    hide HeapAgrees, IndexesAgree, BatchAgrees, PlacesAgree, FreedAgrees, FiredAgrees, SpacingAgrees, InsertEntry;
    InsertIndexes(q.heap, q.timers, q.active, a);
    InsertPlaces(q.heap, q.adding, q.timers, q.batch, a);
    InsertSpacing(q, a);
  }

  lemma DeleteIndexes(q: Queue, a: Addr)
    requires Core(q, {a})
    ensures IndexesAgree(q.heap - {a}, q.timers, q.active) && BatchAgrees(q.heap - {a}, q.batch, q.now)
    ensures PlacesAgree(q.heap - {a}, q.adding, q.timers, q.batch, {})
  {
    hide HeapAgrees, FreedAgrees, FiredAgrees, SpacingAgrees;
    assert IdsOf(q.heap - {a}, q.timers) == IdsOf(q.heap, q.timers);
  }

  lemma DeleteFreed(heap: Heap, issued: seq<Addr>, freed: multiset<nat>, a: Addr)
    requires HeapAgrees(heap, issued) && FreedAgrees(heap, issued, freed) && a in heap
    ensures FreedAgrees(heap - {a}, issued, freed + multiset{heap[a].sequence})
  {}

  lemma DeleteKeeps(q: Queue, a: Addr)
    requires Core(q, {a}) && a in q.heap
    ensures Core(Delete(q, a), {})
  {
    DeleteIndexes(q, a);
    DeleteFreed(q.heap, q.issued, q.freed, a);
    hide IndexesAgree, BatchAgrees, PlacesAgree, FreedAgrees, FiredAgrees;
  }

  // --- AddTimerInLoop and CancelInLoop

  lemma ArmDeadline(when: nat, clock: nat)
    requires when < TWO_63 && clock < TWO_63 / 2
    ensures Arm(when, clock).value.deadline == Max(when, clock + 100)
  {
    TimeLeftIsExact(when, clock);
  }

  lemma LoosenKeeps(q: Queue, a: Addr)
    requires Core(q, {}) && a in q.adding
    ensures Core(q.(adding := q.adding - {a}), {a})
    ensures forall i | 0 <= i < |q.fired| :: Spaced(q.heap[a], q.fired[i])
  {
    hide HeapAgrees, IndexesAgree, BatchAgrees, FreedAgrees, FiredAgrees;
  }

  lemma AddKeeps(q: Queue, a: Addr, clock: nat)
    requires Inv(q) && Enabled(q, AddInLoop(a, clock)) && AssertsHold(q, AddInLoop(a, clock))
    ensures Inv(Apply(q, AddInLoop(a, clock)))
  {
    assert q.heap[a].expiration < TWO_63;
    hide Core;
    LoosenKeeps(q, a);
    InsertKeeps(q.(adding := q.adding - {a}), a);
    ArmDeadline(q.heap[a].expiration, clock);
    CoreUnarmed(Insert(q.(adding := q.adding - {a}), a), Arm(q.heap[a].expiration, clock));
  }

  lemma CoreUnarmed(q: Queue, armed: Option<Arming>)
    requires Core(q, {})
    ensures Core(q.(armed := armed), {}) && Core(q.(calling := false), {})
  {
    hide HeapAgrees, IndexesAgree, BatchAgrees, PlacesAgree, FreedAgrees, FiredAgrees, SpacingAgrees;
  }

  lemma EraseKeeps(q: Queue, a: Addr)
    requires Core(q, {}) && a in q.heap && EntryOf(q.heap, a) in q.timers
    ensures Core(q.(timers := EraseEntry(q.timers, EntryOf(q.heap, a)), active := q.active - {IdOf(q.heap, a)}), {a})
  {
    EraseIndexes(q.heap, q.timers, q.active, a);
    ErasePlaces(q.heap, q.adding, q.timers, q.batch, a);
    EraseSpacing(q, a);
    hide HeapAgrees, BatchAgrees, PlacesAgree, FreedAgrees, FiredAgrees, SpacingAgrees, EraseEntry;
  }

  lemma EraseIndexes(heap: Heap, timers: seq<Entry>, active: set<TimerId>, a: Addr)
    requires IndexesAgree(heap, timers, active) && a in heap
    ensures IndexesAgree(heap, EraseEntry(timers, EntryOf(heap, a)), active - {IdOf(heap, a)})
  {
    hide EraseEntry;
    var timers' := EraseEntry(timers, EntryOf(heap, a));
    assert forall i | 0 <= i < |timers'| :: timers'[i] in timers;
    assert IdsOf(heap, timers') == IdsOf(heap, timers) - {IdOf(heap, a)};
  }

  lemma ErasePlaces(heap: Heap, adding: set<Addr>, timers: seq<Entry>, batch: seq<Entry>, a: Addr)
    requires PlacesAgree(heap, adding, timers, batch, {}) && Sorted(timers) && a in heap && EntryOf(heap, a) in timers
    ensures PlacesAgree(heap, adding, EraseEntry(timers, EntryOf(heap, a)), batch, {a})
  {
    hide EraseEntry;
  }

  lemma EraseSpacing(q: Queue, a: Addr)
    requires SpacingAgrees(q.heap, q.adding, q.timers, q.batch, q.ran, q.now, q.fired)
    requires a in q.heap && Sorted(q.timers)
    ensures SpacingAgrees(q.heap, q.adding, EraseEntry(q.timers, EntryOf(q.heap, a)), q.batch, q.ran, q.now, q.fired)
  {
    hide EraseEntry;
    var timers := EraseEntry(q.timers, EntryOf(q.heap, a));
    forall i, j | 0 <= i < |q.fired| && 0 <= j < |timers| && timers[j].timer in q.heap
      ensures Spaced(q.heap[timers[j].timer], q.fired[i])
    {
      assert timers[j] in timers;
    }
  }

  lemma CancelKeeps(q: Queue, id: TimerId)
    requires Inv(q) && AssertsHold(q, Cancel(id))
    ensures Inv(Apply(q, Cancel(id)))
  {
    hide Core, EraseEntry;
    if id in q.active {
      CancelAssertsFollow(q, id);
      EraseMinimum(q.timers, EntryOf(q.heap, id.timer));
    } else {
      CancelingIsFree(q, id);
    }
  }

  lemma CancelingIsFree(q: Queue, id: TimerId)
    requires Core(q, {})
    ensures Core(q.(canceling := q.canceling + {id}), {})
  {
    hide HeapAgrees, IndexesAgree, BatchAgrees, PlacesAgree, FreedAgrees, FiredAgrees, SpacingAgrees;
  }

  lemma EraseMinimum(es: seq<Entry>, e: Entry)
    requires Sorted(es)
    ensures EraseEntry(es, e) != [] ==> es != [] && es[0].when <= EraseEntry(es, e)[0].when
  {
    if EraseEntry(es, e) != [] {
      assert EraseEntry(es, e)[0] in es;
    }
  }

  // --- HandleRead

  // getExpired takes exactly the entries that are due, in order of expiration
  lemma ExpiredAreDue(timers: seq<Entry>, now: nat)
    requires Sorted(timers) && forall i | 0 <= i < |timers| :: timers[i].timer < ADDR_MAX
    ensures var k := LowerBound(timers, Entry(now, ADDR_MAX));
            && (forall i | 0 <= i < k :: timers[i].when <= now)
            && (forall i | k <= i < |timers| :: now < timers[i].when)
            && (forall i, j | 0 <= i < j < k :: timers[i].when <= timers[j].when)
  {}

  lemma IdsSplit(heap: Heap, es: seq<Entry>, k: nat)
    requires Sorted(es) && k <= |es|
    requires forall i | 0 <= i < |es| :: es[i].timer in heap && EntryOf(heap, es[i].timer) == es[i]
    ensures IdsOf(heap, es) - IdsOf(heap, es[..k]) == IdsOf(heap, es[k..])
  {
    assert es == es[..k] + es[k..];
  }

  lemma BeginIndexes(heap: Heap, issued: seq<Addr>, timers: seq<Entry>, active: set<TimerId>, now: nat)
    requires HeapAgrees(heap, issued) && IndexesAgree(heap, timers, active)
    ensures var k := LowerBound(timers, Entry(now, ADDR_MAX));
            && IndexesAgree(heap, timers[k..], active - IdsOf(heap, timers[..k]))
            && BatchAgrees(heap, timers[..k], now)
  {
    hide IdsOf;
    var k := LowerBound(timers, Entry(now, ADDR_MAX));
    ExpiredAreDue(timers, now);
    IdsSplit(heap, timers, k);
  }

  lemma BeginPlaces(heap: Heap, adding: set<Addr>, timers: seq<Entry>, k: nat)
    requires PlacesAgree(heap, adding, timers, [], {}) && Sorted(timers) && k <= |timers|
    ensures PlacesAgree(heap, adding, timers[k..], timers[..k], {})
  {
    assert timers == timers[..k] + timers[k..];
  }

  lemma BeginSpacing(q: Queue, k: nat, now: nat)
    requires SpacingAgrees(q.heap, q.adding, q.timers, [], 0, q.now, q.fired) && k <= |q.timers|
    ensures SpacingAgrees(q.heap, q.adding, q.timers[k..], q.timers[..k], 0, now, q.fired)
  {}

  lemma BeginKeeps(q: Queue, now: nat)
    requires Inv(q) && Enabled(q, Begin(now)) && AssertsHold(q, Begin(now))
    ensures Inv(Apply(q, Begin(now)))
  {
    hide HeapAgrees, IndexesAgree, BatchAgrees, PlacesAgree, FreedAgrees, FiredAgrees, SpacingAgrees;
    var k := LowerBound(q.timers, Entry(now, ADDR_MAX));
    BeginIndexes(q.heap, q.issued, q.timers, q.active, now);
    BeginPlaces(q.heap, q.adding, q.timers, k);
    BeginSpacing(q, k, now);
  }

  lemma TakeKeeps(q: Queue)
    requires Core(q, {}) && q.batch != [] && q.ran == |q.batch|
    ensures Core(q.(batch := q.batch[1..], ran := q.ran - 1), {q.batch[0].timer})
  {
    TakePlaces(q.heap, q.adding, q.timers, q.batch, q.now);
    hide HeapAgrees, PlacesAgree, FreedAgrees, FiredAgrees;
  }

  lemma TakePlaces(heap: Heap, adding: set<Addr>, timers: seq<Entry>, batch: seq<Entry>, now: nat)
    requires PlacesAgree(heap, adding, timers, batch, {}) && BatchAgrees(heap, batch, now) && batch != []
    ensures PlacesAgree(heap, adding, timers, batch[1..], {batch[0].timer})
  {
    assert batch == [batch[0]] + batch[1..];
  }

  lemma RestartKeeps(q: Queue, a: Addr)
    requires Core(q, {a}) && a in q.heap && 0 < q.heap[a].interval
    ensures Core(q.(heap := q.heap[a := Restarted(q.heap[a], q.now)]), {a})
  {
    var heap := q.heap[a := Restarted(q.heap[a], q.now)];
    assert IdsOf(heap, q.timers) == IdsOf(q.heap, q.timers);
  }

  lemma ResetOneKeeps(q: Queue)
    requires Core(q, {}) && q.batch != [] && q.ran == |q.batch|
    ensures Core(ResetOne(q), {}) && ResetOne(q).ran == |ResetOne(q).batch|
  {
    var a := q.batch[0].timer;
    var r := q.(batch := q.batch[1..], ran := q.ran - 1);
    TakeKeeps(q);
    if Restarts(q, a) {
      RestartKeeps(r, a);
      InsertKeeps(r.(heap := r.heap[a := Restarted(r.heap[a], r.now)]), a);
    } else {
      DeleteKeeps(r, a);
    }
  }

  lemma {:induction false} ResetAllKeeps(q: Queue)
    requires Core(q, {}) && q.ran == |q.batch|
    ensures BatchInHeap(q) && Core(ResetAll(q), {}) && ResetAll(q).batch == []
    ensures ResetAll(q).calling == q.calling && ResetAll(q).fired == q.fired && ResetAll(q).issued == q.issued
    decreases |q.batch|
  {
    if q.batch != [] {
      ResetOneKeeps(q);
      ResetAllKeeps(ResetOne(q));
    }
  }

  lemma EndKeeps(q: Queue, clock: nat)
    requires Inv(q) && Enabled(q, End(clock)) && AssertsHold(q, End(clock))
    ensures Inv(Apply(q, End(clock)))
  {
    hide Core, ResetAll;
    CoreUnarmed(q, None);
    ResetAllKeeps(q.(calling := false));
    var r := ResetAll(q.(calling := false));
    if r.timers != [] {
      FirstIsCurrent(r);
      ArmDeadline(r.timers[0].when, clock);
      CoreUnarmed(r, Arm(r.timers[0].when, clock));
    }
  }

  lemma FirstIsCurrent(q: Queue)
    requires Core(q, {}) && q.timers != []
    ensures q.timers[0].timer in q.heap && q.heap[q.timers[0].timer].expiration == q.timers[0].when < TWO_63
  {}

  // --- the assertions of the source

  lemma SizesFollow(q: Queue)
    requires Core(q, {})
    ensures Sorted(q.timers) && SizesAgree(q)
  {
    IndexSizes(q.heap, q.timers);
  }

  lemma AddAssertsFollow(q: Queue, a: Addr)
    requires Core(q, {}) && a in q.adding
    ensures a in q.heap && EntryOf(q.heap, a) !in q.timers && IdOf(q.heap, a) !in q.active
  {
    hide HeapAgrees, BatchAgrees, FreedAgrees, FiredAgrees, SpacingAgrees;
  }

  lemma CancelAssertsFollow(q: Queue, id: TimerId)
    requires Core(q, {}) && id in q.active
    ensures id.timer in q.heap && EntryOf(q.heap, id.timer) in q.timers && id == IdOf(q.heap, id.timer)
    ensures Sorted(q.timers) && Core(CancelInLoop(q, id), {}) && SizesAgree(CancelInLoop(q, id))
  {
    assert id.timer in q.heap && EntryOf(q.heap, id.timer) in q.timers && id == IdOf(q.heap, id.timer) by {
      hide HeapAgrees, BatchAgrees, PlacesAgree, FreedAgrees, FiredAgrees, SpacingAgrees;
    }
    SizesFollow(q);
    hide Core;
    EraseKeeps(q, id.timer);
    DeleteKeeps(q.(timers := EraseEntry(q.timers, EntryOf(q.heap, id.timer)), active := q.active - {id}), id.timer);
    SizesFollow(CancelInLoop(q, id));
  }

  lemma BeginAssertsFollow(q: Queue, now: nat)
    requires Core(q, {})
    ensures var k := LowerBound(q.timers, Entry(now, ADDR_MAX));
            && (k < |q.timers| ==> now < q.timers[k].when)
            && (forall i | 0 <= i < k :: q.timers[i].timer in q.heap && IdOf(q.heap, q.timers[i].timer) in q.active)
            && SizesAgree(Begun(q, now))
  {
    hide BatchAgrees, PlacesAgree, FreedAgrees, FiredAgrees, SpacingAgrees;
    BeginIndexes(q.heap, q.issued, q.timers, q.active, now);
    ExpiredAreDue(q.timers, now);
    IndexSizes(q.heap, Begun(q, now).timers);
  }

  lemma AssertsFollow(q: Queue, step: Step)
    requires Inv(q) && Enabled(q, step)
    ensures AssertsHold(q, step)
  {
    hide Core, LowerBound, Sorted, ResetAll, CancelInLoop, Begun;
    SizesFollow(q);
    match step
    case Allocate(_, _, _) =>
    case AddInLoop(a, _) => AddAssertsFollow(q, a);
    case Cancel(id) => if id in q.active { CancelAssertsFollow(q, id); }
    case Begin(now) => BeginAssertsFollow(q, now);
    case Fire => FireAssertsFollow(q);
    case End(_) =>
      CoreUnarmed(q, None);
      ResetAllKeeps(q.(calling := false));
      SizesFollow(ResetAll(q.(calling := false)));
      hide SizesAgree;
  }

  lemma FireAssertsFollow(q: Queue)
    requires Core(q, {}) && q.ran < |q.batch|
    ensures q.batch[q.ran].timer in q.heap
  {}

  lemma StepKeeps(q: Queue, step: Step)
    requires Inv(q) && Enabled(q, step) && AssertsHold(q, step)
    ensures Inv(Apply(q, step))
  {
    hide Inv;
    match step
    case Allocate(a, when, interval) => AllocateKeeps(q, a, when, interval);
    case AddInLoop(a, clock) => AddKeeps(q, a, clock);
    case Cancel(id) => CancelKeeps(q, id);
    case Begin(now) => BeginKeeps(q, now);
    case Fire => FireKeeps(q);
    case End(clock) => EndKeeps(q, clock);
  }

  // ----- runs ---------------------------------------------------------------

  // Any sequence of steps; callbacks re-enter between Begin and End.  A step
  // whose assertion fails may lead anywhere.
  predicate IsRun(states: seq<Queue>, steps: seq<Step>) {
    && |states| == |steps| + 1 && states[0] == INIT
    && (forall i | 0 <= i < |steps| ::
          && Enabled(states[i], steps[i])
          && (AssertsHold(states[i], steps[i]) ==> states[i + 1] == Apply(states[i], steps[i])))
  }

  lemma InitInv()
    ensures Inv(INIT)
  {}

  lemma {:induction false} RunKeepsInv(states: seq<Queue>, steps: seq<Step>, n: nat)
    requires IsRun(states, steps) && n < |states|
    ensures Inv(states[n])
  {
    hide Inv, Enabled, AssertsHold, Apply, INIT;
    if n == 0 {
      InitInv();
    } else {
      RunKeepsInv(states, steps, n - 1);
      AssertsFollow(states[n - 1], steps[n - 1]);
      StepKeeps(states[n - 1], steps[n - 1]);
    }
  }

  // No assertion fails and no deleted timer is touched, whatever the callbacks do
  lemma NoAssertFails(states: seq<Queue>, steps: seq<Step>, n: nat)
    requires IsRun(states, steps) && n < |steps|
    ensures AssertsHold(states[n], steps[n]) && states[n + 1] == Apply(states[n], steps[n])
  {
    RunKeepsInv(states, steps, n);
    AssertsFollow(states[n], steps[n]);
  }

  // In every reachable state, mid-batch included, the two indexes hold exactly
  // the same timers with their current expiration and sequence, and the running
  // batch is in neither.
  lemma IndexesAlwaysAgree(states: seq<Queue>, steps: seq<Step>, n: nat)
    requires IsRun(states, steps) && n < |states|
    ensures var q := states[n];
            && |q.active| == |q.timers|
            && (forall id :: id in q.active <==>
                  id.timer in q.heap && IdOf(q.heap, id.timer) == id && EntryOf(q.heap, id.timer) in q.timers)
            && (forall e | e in q.timers :: e.timer in q.heap && EntryOf(q.heap, e.timer) == e)
            && (forall e | e in q.batch ::
                  e.timer in q.heap && e !in q.timers && IdOf(q.heap, e.timer) !in q.active)
  {
    RunKeepsInv(states, steps, n);
    SizesFollow(states[n]);
  }

  // Every timer that exists is in exactly one of add-queued, pending and running
  // batch; every sequence number ever issued is that of such a timer or has been
  // freed, exactly once.
  lemma OnePlaceOrFreedOnce(states: seq<Queue>, steps: seq<Step>, n: nat)
    requires IsRun(states, steps) && n < |states|
    ensures var q := states[n];
            && (forall a | a in q.heap ::
                  One(a in q.adding) + One(EntryOf(q.heap, a) in q.timers) + One(EntryOf(q.heap, a) in q.batch) == 1)
            && (forall k | 0 <= k < |q.issued| ::
                  q.freed[k] + One(q.issued[k] in q.heap && q.heap[q.issued[k]].sequence == k) == 1)
            && (forall a, b | a in q.heap && b in q.heap && q.heap[a].sequence == q.heap[b].sequence :: a == b)
  {
    RunKeepsInv(states, steps, n);
  }

  // Whenever HandleRead is not running and a timer is pending, the timerfd will
  // expire no later than that timer needs, up to the 100 microsecond floor
  lemma ArmedInTime(states: seq<Queue>, steps: seq<Step>, n: nat, e: Entry)
    requires IsRun(states, steps) && n < |states| && !states[n].calling && e in states[n].timers
    ensures states[n].armed.Some?
    ensures var arming := states[n].armed.value; arming.deadline <= Max(e.when, arming.at + 100)
  {
    RunKeepsInv(states, steps, n);
  }

  // No timer fires early; one that fires twice is repeating, and its firings are
  // an interval apart, so none fires twice in one HandleRead
  lemma FiringsAreSpaced(states: seq<Queue>, steps: seq<Step>, n: nat, i: nat, j: nat)
    requires IsRun(states, steps) && n < |states| && i <= j < |states[n].fired|
    ensures var fired := states[n].fired;
            && fired[i].due <= fired[i].now && fired[j].due <= fired[j].now
            && (i < j && fired[i].sequence == fired[j].sequence ==>
                  0 < fired[i].interval && fired[i].now + fired[i].interval * 1_000_000 <= fired[j].now)
  {
    RunKeepsInv(states, steps, n);
  }

  // ----- what AddTimerInLoop and the end of HandleRead come to --------------

  // HandleRead begins by moving exactly the timers that are due from the indexes into its batch, in order
  lemma BatchIsDue(q: Queue, now: nat)
    requires Inv(q) && Enabled(q, Begin(now))
    ensures AssertsHold(q, Begin(now))
    ensures var r := Apply(q, Begin(now));
            && (forall e :: e in r.batch <==> e in q.timers && e.when <= now)
            && (forall e :: e in r.timers <==> e in q.timers && now < e.when)
            && (forall i, j | 0 <= i < j < |r.batch| :: r.batch[i].when <= r.batch[j].when)
            && r.heap == q.heap && r.adding == q.adding && r.armed == q.armed && r.fired == q.fired
  {
    hide Inv, AssertsHold, LowerBound, IdsOf, Sorted;
    AssertsFollow(q, Begin(now));
    InAddressRange(q);
    SplitAtDue(q.timers, now);
  }

  lemma SplitAtDue(timers: seq<Entry>, now: nat)
    requires Sorted(timers) && forall i | 0 <= i < |timers| :: timers[i].timer < ADDR_MAX
    ensures var k := LowerBound(timers, Entry(now, ADDR_MAX));
            && (forall e :: e in timers[..k] <==> e in timers && e.when <= now)
            && (forall e :: e in timers[k..] <==> e in timers && now < e.when)
            && (forall i, j | 0 <= i < j < |timers[..k]| :: timers[..k][i].when <= timers[..k][j].when)
  {
    hide LowerBound;
    ExpiredAreDue(timers, now);
    var k := LowerBound(timers, Entry(now, ADDR_MAX));
    assert timers == timers[..k] + timers[k..];
  }

  lemma InAddressRange(q: Queue)
    requires Inv(q)
    ensures Sorted(q.timers) && forall i | 0 <= i < |q.timers| :: q.timers[i].timer < ADDR_MAX
  {}

  predicate OnBatch(batch: seq<Entry>, a: Addr) {
    exists i | 0 <= i < |batch| :: batch[i].timer == a
  }

  // The timer at address a has been restarted at `now`, or deleted if it does not repeat or was cancelled
  predicate Renewed(before: Heap, canceling: set<TimerId>, now: nat, after: Heap, a: Addr)
    requires a in before
  {
    var t := before[a];
    if 0 < t.interval && TimerId(a, t.sequence) !in canceling
    then a in after && after[a] == Timer(now + t.interval * 1_000_000, t.interval, t.sequence)
    else a !in after
  }

  predicate Untouched(before: Heap, after: Heap, a: Addr) {
    (a in after <==> a in before) && (a in before ==> after[a] == before[a])
  }

  lemma ResetOneAt(q: Queue, a: Addr)
    requires BatchInHeap(q) && q.batch != []
    ensures var r := ResetOne(q);
            && r.adding == q.adding && r.now == q.now && r.canceling == q.canceling
            && (if a == q.batch[0].timer then Renewed(q.heap, q.canceling, q.now, r.heap, a) && !OnBatch(r.batch, a)
                else Untouched(q.heap, r.heap, a) && (OnBatch(r.batch, a) <==> OnBatch(q.batch, a)))
  {
    hide InsertEntry;
    assert q.batch == [q.batch[0]] + q.batch[1..];
    if a != q.batch[0].timer && OnBatch(q.batch, a) {
      var i :| 0 <= i < |q.batch| && q.batch[i].timer == a;
      assert ResetOne(q).batch[i - 1].timer == a;
    }
  }

  lemma {:induction false} ResetAllAt(q: Queue, a: Addr)
    requires BatchInHeap(q)
    ensures var r := ResetAll(q);
            && r.adding == q.adding
            && (if OnBatch(q.batch, a) then a in q.heap && Renewed(q.heap, q.canceling, q.now, r.heap, a)
                else Untouched(q.heap, r.heap, a))
    decreases |q.batch|
  {
    hide ResetOne;
    if q.batch != [] {
      ResetOneInHeap(q);
      ResetOneAt(q, a);
      ResetAllAt(ResetOne(q), a);
      assert OnBatch(q.batch, q.batch[0].timer);
    }
  }

  // At the end of HandleRead a repeating timer of the batch that was not cancelled
  // is pending again, due an interval after `now`; every other one is deleted.
  lemma EndRenews(q: Queue, clock: nat, e: Entry)
    requires Inv(q) && Enabled(q, End(clock)) && e in q.batch
    ensures e.timer in q.heap && AssertsHold(q, End(clock))
    ensures var r, a, t := Apply(q, End(clock)), e.timer, q.heap[e.timer];
            var id := TimerId(a, t.sequence);
            if 0 < t.interval && id !in q.canceling then
              var when := q.now + t.interval * 1_000_000;
              && a in r.heap && r.heap[a] == Timer(when, t.interval, t.sequence)
              && Entry(when, a) in r.timers && id in r.active
            else
              a !in r.heap && id !in r.active && r.freed[t.sequence] == 1
  {
    hide Inv, AssertsHold, Apply, Enabled;
    AssertsFollow(q, End(clock));
    StepKeeps(q, End(clock));
    EndAt(q, clock, e.timer);
    EndBatch(q, clock);
    BatchEntry(q, e);
    PlaceOf(q, Apply(q, End(clock)), e.timer);
  }

  lemma BatchEntry(q: Queue, e: Entry)
    requires Inv(q) && e in q.batch
    ensures OnBatch(q.batch, e.timer) && e.timer in q.heap && e.timer !in q.adding
    ensures q.heap[e.timer].sequence < |q.issued| && q.issued[q.heap[e.timer].sequence] == e.timer
  {
    hide IndexesAgree, FreedAgrees, FiredAgrees, SpacingAgrees;
  }

  lemma EndAt(q: Queue, clock: nat, a: Addr)
    requires Inv(q) && Enabled(q, End(clock)) && AssertsHold(q, End(clock))
    ensures var r := Apply(q, End(clock));
            && r.adding == q.adding && r.issued == q.issued
            && (if OnBatch(q.batch, a) then a in q.heap && Renewed(q.heap, q.canceling, q.now, r.heap, a)
                else Untouched(q.heap, r.heap, a))
  {
    hide Core, ResetAll, Arm;
    EndCore(q);
    ResetAllAt(q.(calling := false), a);
    ResetAllKeeps(q.(calling := false));
  }

  lemma EndBatch(q: Queue, clock: nat)
    requires Inv(q) && Enabled(q, End(clock)) && AssertsHold(q, End(clock))
    ensures Apply(q, End(clock)).batch == [] && !Apply(q, End(clock)).calling
  {
    hide Core, ResetAll, Arm;
    EndCore(q);
    ResetAllKeeps(q.(calling := false));
  }

  // With no batch running, a timer that is neither gone nor add-queued is in both indexes
  lemma PlaceOf(q: Queue, r: Queue, a: Addr)
    requires Inv(r) && r.batch == [] && a !in r.adding && a in q.heap && r.issued == q.issued
    requires q.heap[a].sequence < |q.issued| && q.issued[q.heap[a].sequence] == a
    ensures a in r.heap ==> EntryOf(r.heap, a) in r.timers && IdOf(r.heap, a) in r.active
    ensures a !in r.heap ==> TimerId(a, q.heap[a].sequence) !in r.active && r.freed[q.heap[a].sequence] == 1
  {
    hide FiredAgrees, SpacingAgrees, BatchAgrees;
  }

  // Every timer outside the batch stays as it is and where it is, and none appears
  lemma EndLeavesOthers(q: Queue, clock: nat, a: Addr)
    requires Inv(q) && Enabled(q, End(clock)) && !OnBatch(q.batch, a)
    ensures AssertsHold(q, End(clock))
    ensures var r := Apply(q, End(clock));
            && (a in r.heap <==> a in q.heap) && (a in r.adding <==> a in q.adding)
            && (a in q.heap ==>
                  && r.heap[a] == q.heap[a]
                  && (EntryOf(r.heap, a) in r.timers <==> EntryOf(q.heap, a) in q.timers)
                  && (IdOf(r.heap, a) in r.active <==> IdOf(q.heap, a) in q.active))
  {
    hide Inv, AssertsHold, Apply, Enabled;
    AssertsFollow(q, End(clock));
    StepKeeps(q, End(clock));
    EndAt(q, clock, a);
    EndBatch(q, clock);
    if a in q.heap {
      PlacesOf(q, a);
      PlacesOf(Apply(q, End(clock)), a);
    }
  }

  lemma PlacesOf(q: Queue, a: Addr)
    requires Inv(q) && a in q.heap && !OnBatch(q.batch, a)
    ensures EntryOf(q.heap, a) in q.timers <==> a !in q.adding
    ensures IdOf(q.heap, a) in q.active <==> a !in q.adding
  {
    hide HeapAgrees, FreedAgrees, FiredAgrees, SpacingAgrees;
    assert forall i | 0 <= i < |q.batch| :: q.batch[i].timer != a;
  }

  // It leaves the timerfd armed for exactly the earliest timer, up to the floor of 100 microseconds
  lemma EndArms(q: Queue, clock: nat)
    requires Inv(q) && Enabled(q, End(clock))
    ensures AssertsHold(q, End(clock))
    ensures var r := Apply(q, End(clock));
            r.armed == if r.timers == [] then q.armed else Some(Arming(clock, Max(r.timers[0].when, clock + 100)))
  {
    AssertsFollow(q, End(clock));
    StepKeeps(q, End(clock));
    FirstInTime(Apply(q, End(clock)));
    ResetAllArmed(q.(calling := false));
    hide Inv, ResetAll, Arm, AssertsHold;
    var r := Apply(q, End(clock));
    if r.timers != [] {
      ArmDeadline(r.timers[0].when, clock);
      ArmedAt(r.timers[0].when, clock);
    }
  }

  lemma FirstInTime(q: Queue)
    requires Inv(q)
    ensures q.timers != [] ==> q.timers[0].when < TWO_63
  {}

  lemma ArmedAt(when: nat, clock: nat)
    ensures Arm(when, clock).Some? && Arm(when, clock).value.at == clock
  {}

  lemma {:induction false} ResetAllArmed(q: Queue)
    requires BatchInHeap(q)
    ensures ResetAll(q).armed == q.armed
    decreases |q.batch|
  {
    if q.batch != [] {
      ResetOneInHeap(q);
      ResetAllArmed(ResetOne(q));
    }
  }

  // AddTimerInLoop puts exactly this timer into both indexes, and arms the timerfd
  // for it exactly if it is the earliest
  lemma AddInserts(q: Queue, a: Addr, clock: nat)
    requires Inv(q) && Enabled(q, AddInLoop(a, clock))
    ensures AssertsHold(q, AddInLoop(a, clock)) && a in q.heap
    ensures var r, e := Apply(q, AddInLoop(a, clock)), Entry(q.heap[a].expiration, a);
            && r.heap == q.heap && r.adding == q.adding - {a} && r.active == q.active + {TimerId(a, q.heap[a].sequence)}
            && (forall x :: x in r.timers <==> x in q.timers || x == e)
            && r.armed == if q.timers == [] || e.when < q.timers[0].when
                          then Some(Arming(clock, Max(e.when, clock + 100))) else q.armed
  {
    hide Inv, AssertsHold, InsertEntry, Arm;
    AssertsFollow(q, AddInLoop(a, clock));
    InHeap(q, a);
    ArmDeadline(q.heap[a].expiration, clock);
    ArmedAt(q.heap[a].expiration, clock);
  }

  lemma InHeap(q: Queue, a: Addr)
    requires Inv(q) && a in q.adding
    ensures a in q.heap && q.heap[a].expiration < TWO_63 && Sorted(q.timers)
  {}

  // --- over runs

  // One step between the start and the end of HandleRead, and a timer of its batch
  lemma StepInBatch(q: Queue, step: Step, e: Entry)
    requires Inv(q) && Enabled(q, step) && AssertsHold(q, step) && q.calling && e in q.batch
    requires !step.Begin? && !step.End?
    ensures var r := Apply(q, step);
            && r.calling && r.batch == q.batch && r.now == q.now && e.timer in q.heap && e.timer in r.heap
            && r.heap[e.timer] == q.heap[e.timer]
            && var id := IdOf(q.heap, e.timer);
               id in r.canceling <==> id in q.canceling || step == Cancel(id)
  {
    hide HeapAgrees, FreedAgrees, FiredAgrees, SpacingAgrees, SizesAgree, EraseEntry, InsertEntry, Arm;
    BatchEntry(q, e);
  }

  predicate CancelWithin(steps: seq<Step>, id: TimerId, b: nat, n: nat)
    requires n <= |steps|
  {
    exists i | b < i < n :: steps[i] == Cancel(id)
  }

  // Step n is still in the HandleRead that began with step b
  predicate SameBatch(steps: seq<Step>, b: nat, n: nat) {
    b < n <= |steps| && steps[b].Begin? && forall i | b < i < n :: !steps[i].Begin? && !steps[i].End?
  }

  lemma {:induction false} DuringBatch(states: seq<Queue>, steps: seq<Step>, b: nat, n: nat, e: Entry)
    requires IsRun(states, steps) && SameBatch(steps, b, n) && e in states[b + 1].batch
    ensures var q, r := states[b + 1], states[n];
            && r.calling && r.batch == q.batch && r.now == steps[b].now && e.timer in q.heap && e.timer in r.heap
            && r.heap[e.timer] == q.heap[e.timer]
            && (IdOf(q.heap, e.timer) in r.canceling <==> CancelWithin(steps, IdOf(q.heap, e.timer), b, n))
    decreases n
  {
    hide Inv, AssertsHold, Apply, Enabled;
    RunKeepsInv(states, steps, n - 1);
    NoAssertFails(states, steps, n - 1);
    assert Enabled(states[n - 1], steps[n - 1]);
    if n == b + 1 {
      RunKeepsInv(states, steps, n);
      BatchBegins(states[b], steps[b].now);
      BatchEntry(states[n], e);
    } else {
      DuringBatch(states, steps, b, n - 1, e);
      StepInBatch(states[n - 1], steps[n - 1], e);
      CancelsSoFar(steps, IdOf(states[b + 1].heap, e.timer), b, n);
    }
  }

  lemma BatchBegins(q: Queue, now: nat)
    requires Enabled(q, Begin(now)) && AssertsHold(q, Begin(now))
    ensures var r := Apply(q, Begin(now)); r.calling && r.now == now && r.canceling == {}
  {}

  lemma CancelsSoFar(steps: seq<Step>, id: TimerId, b: nat, n: nat)
    requires b + 1 < n <= |steps|
    ensures CancelWithin(steps, id, b, n) <==> CancelWithin(steps, id, b, n - 1) || steps[n - 1] == Cancel(id)
  {}

  // A repeating timer that fires is pending again when HandleRead ends, due an
  // interval after the time HandleRead read, exactly unless it was cancelled in
  // the meantime; a timer that does not repeat is deleted.
  lemma RepeatsUnlessCancelled(states: seq<Queue>, steps: seq<Step>, b: nat, n: nat, e: Entry)
    requires IsRun(states, steps) && n < |steps| && SameBatch(steps, b, n) && steps[n].End? && e in states[b + 1].batch
    ensures e.timer in states[b + 1].heap
    ensures var a, t, r := e.timer, states[b + 1].heap[e.timer], states[n + 1];
            var id, when := TimerId(a, t.sequence), steps[b].now + t.interval * 1_000_000;
            if 0 < t.interval && !CancelWithin(steps, id, b, n) then
              && a in r.heap && r.heap[a] == Timer(when, t.interval, t.sequence)
              && Entry(when, a) in r.timers && id in r.active
            else
              a !in r.heap && id !in r.active && r.freed[t.sequence] == 1
  {
    hide Inv, AssertsHold, Apply, Enabled;
    DuringBatch(states, steps, b, n, e);
    RunKeepsInv(states, steps, n);
    NoAssertFails(states, steps, n);
    assert Enabled(states[n], steps[n]);
    EndRenews(states[n], steps[n].clock, e);
  }

  // ----- cancellation -------------------------------------------------------

  // How often the timer with this sequence number has run
  function Runs(fired: seq<Firing>, sequence: nat): nat {
    if fired == [] then 0
    else Runs(fired[..|fired| - 1], sequence) + One(fired[|fired| - 1].sequence == sequence)
  }

  // id is what AddTimer returned for its sequence number
  predicate Genuine(q: Queue, id: TimerId) {
    id.sequence < |q.issued| && q.issued[id.sequence] == id.timer
  }

  predicate Exists(q: Queue, id: TimerId) {
    id.timer in q.heap && q.heap[id.timer].sequence == id.sequence
  }

  predicate InBatch(q: Queue, id: TimerId) {
    Exists(q, id) && EntryOf(q.heap, id.timer) in q.batch
  }

  // Its callback is still to run in the current batch
  predicate ToRun(q: Queue, id: TimerId) {
    Exists(q, id) && exists i | q.ran <= i < |q.batch| :: q.batch[i].timer == id.timer
  }

  // Deleted, or cancelled while in the running batch
  predicate Doomed(q: Queue, id: TimerId) {
    Genuine(q, id) && (!Exists(q, id) || (q.calling && InBatch(q, id) && id in q.canceling))
  }

  // A genuine identifier that has been inserted is doomed by Cancel, in or out
  // of a batch; before its AddTimerInLoop has run the request is lost
  lemma CancelDooms(q: Queue, id: TimerId)
    requires Inv(q) && AssertsHold(q, Cancel(id)) && Genuine(q, id)
    ensures Doomed(Apply(q, Cancel(id)), id) <==> !(Exists(q, id) && id.timer in q.adding)
    ensures !q.calling && Exists(q, id) && id.timer !in q.adding ==> !Exists(Apply(q, Cancel(id)), id)
    ensures Runs(Apply(q, Cancel(id)).fired, id.sequence) == Runs(q.fired, id.sequence)
  {
    hide FreedAgrees, FiredAgrees, SpacingAgrees;
  }

  lemma ResetOneFinishes(q: Queue, id: TimerId)
    requires Core(q, {}) && q.batch != [] && q.ran == |q.batch| && Genuine(q, id)
    requires Exists(q, id) ==> InBatch(q, id) && id in q.canceling
    ensures var r := ResetOne(q);
            && r.fired == q.fired && r.issued == q.issued && r.canceling == q.canceling
            && (Exists(r, id) ==> InBatch(r, id))
  {
    hide FreedAgrees, FiredAgrees, SpacingAgrees;
    assert q.batch == [q.batch[0]] + q.batch[1..];
  }

  lemma {:induction false} ResetAllFinishes(q: Queue, id: TimerId)
    requires Core(q, {}) && q.ran == |q.batch| && Genuine(q, id) && BatchInHeap(q)
    requires Exists(q, id) ==> InBatch(q, id) && id in q.canceling
    ensures !Exists(ResetAll(q), id) && ResetAll(q).fired == q.fired && ResetAll(q).issued == q.issued
    decreases |q.batch|
  {
    if q.batch != [] {
      ResetOneKeeps(q);
      ResetOneFinishes(q, id);
      ResetAllFinishes(ResetOne(q), id);
    }
  }

  // What is left for a doomed timer: the runs it has had, and one more if its turn in this batch is to come
  function Allowance(q: Queue, id: TimerId): nat {
    Runs(q.fired, id.sequence) + One(ToRun(q, id))
  }

  // From q to r the doomed timer id stays doomed, stays deleted if it was, and spends no more than its allowance
  predicate StaysDoomed(q: Queue, r: Queue, id: TimerId) {
    && Doomed(r, id) && (!Exists(q, id) ==> !Exists(r, id))
    && Allowance(r, id) <= Allowance(q, id)
    && Runs(q.fired, id.sequence) <= Runs(r.fired, id.sequence)
  }

  lemma FireDooms(q: Queue, id: TimerId)
    requires Inv(q) && Enabled(q, Fire) && AssertsHold(q, Fire) && Doomed(q, id)
    ensures StaysDoomed(q, Fired(q), id)
  {
    hide FreedAgrees, FiredAgrees, SpacingAgrees, PlacesAgree;
    var r := Fired(q);
    assert r.fired[..|r.fired| - 1] == q.fired;
    if q.batch[q.ran].timer == id.timer && Exists(q, id) {
      assert ToRun(q, id);
    }
  }

  lemma EndDooms(q: Queue, clock: nat, id: TimerId)
    requires Inv(q) && Enabled(q, End(clock)) && AssertsHold(q, End(clock)) && Doomed(q, id)
    ensures StaysDoomed(q, Ended(q, clock), id)
  {
    hide Core, ResetAll, Runs;
    CoreUnarmed(q, None);
    ResetAllKeeps(q.(calling := false));
    ResetAllFinishes(q.(calling := false), id);
  }

  lemma CancelKeepsDoomed(q: Queue, other: TimerId, id: TimerId)
    requires Inv(q) && AssertsHold(q, Cancel(other)) && Doomed(q, id)
    ensures StaysDoomed(q, CancelInLoop(q, other), id)
  {
    hide EraseEntry, HeapAgrees, FreedAgrees, FiredAgrees, SpacingAgrees, Runs;
  }

  lemma AllocateDooms(q: Queue, a: Addr, when: nat, interval: int, id: TimerId)
    requires Inv(q) && Enabled(q, Allocate(a, when, interval)) && AssertsHold(q, Allocate(a, when, interval))
    requires Doomed(q, id)
    ensures StaysDoomed(q, Apply(q, Allocate(a, when, interval)), id)
  {
    hide Inv, Runs, AssertsHold;
  }

  lemma BeginDooms(q: Queue, now: nat, id: TimerId)
    requires Inv(q) && !q.calling && Sorted(q.timers) && Doomed(q, id)
    ensures StaysDoomed(q, Begun(q, now), id)
  {
    hide Inv, Runs, LowerBound, IdsOf;
  }

  lemma StepDooms(q: Queue, step: Step, id: TimerId)
    requires Inv(q) && Enabled(q, step) && AssertsHold(q, step) && Doomed(q, id)
    ensures StaysDoomed(q, Apply(q, step), id)
  {
    hide Inv, Runs, Fired, Ended, CancelInLoop, Begun, SizesAgree;
    match step
    case Allocate(a, when, interval) => AllocateDooms(q, a, when, interval, id);
    case AddInLoop(a, _) =>
    case Cancel(other) => CancelKeepsDoomed(q, other, id);
    case Begin(now) => BeginDooms(q, now, id);
    case Fire => FireDooms(q, id);
    case End(clock) => EndDooms(q, clock, id);
  }

  lemma {:induction false} DoomedForever(states: seq<Queue>, steps: seq<Step>, m: nat, n: nat, id: TimerId)
    requires IsRun(states, steps) && m <= n < |states| && Doomed(states[m], id)
    ensures StaysDoomed(states[m], states[n], id)
    decreases n
  {
    hide Inv, Enabled, AssertsHold, Apply, Allowance, Doomed, Runs;
    if m < n {
      DoomedForever(states, steps, m, n - 1, id);
      RunKeepsInv(states, steps, n - 1);
      NoAssertFails(states, steps, n - 1);
      StepDooms(states[n - 1], steps[n - 1], id);
    }
  }

  // Once an inserted timer is cancelled it is never pending again.  Cancelled
  // outside a batch it is deleted for good and never runs again; cancelled inside
  // one it runs at most once more, and only if its turn in that batch is to come.
  lemma CancelledStaysSilent(states: seq<Queue>, steps: seq<Step>, m: nat, n: nat, id: TimerId)
    requires IsRun(states, steps) && m < n < |states| && steps[m] == Cancel(id) && Genuine(states[m], id)
    requires !(Exists(states[m], id) && id.timer in states[m].adding)
    ensures !(Exists(states[n], id) && EntryOf(states[n].heap, id.timer) in states[n].timers)
    ensures Runs(states[n].fired, id.sequence) <= Runs(states[m].fired, id.sequence) + One(ToRun(states[m], id))
    ensures !states[m].calling ==>
              !Exists(states[n], id) && Runs(states[n].fired, id.sequence) == Runs(states[m].fired, id.sequence)
  {
    RunKeepsInv(states, steps, m);
    RunKeepsInv(states, steps, n);
    NoAssertFails(states, steps, m);
    CancelDooms(states[m], id);
    CancelAllowance(states[m], id);
    DoomedForever(states, steps, m + 1, n, id);
    DoomedIsNotPending(states[n], id);
  }

  lemma CancelAllowance(q: Queue, id: TimerId)
    requires Inv(q) && AssertsHold(q, Cancel(id))
    ensures Allowance(Apply(q, Cancel(id)), id) <= Allowance(q, id)
    ensures !q.calling ==> !ToRun(q, id)
  {}

  lemma DoomedIsNotPending(q: Queue, id: TimerId)
    requires Inv(q) && Doomed(q, id)
    ensures !(Exists(q, id) && EntryOf(q.heap, id.timer) in q.timers)
  {}

  // --- a Cancel that overtakes the insertion of its own timer is lost

  const EARLY := INIT.(heap := map[1 := Timer(0, 0, 0)], adding := {1}, issued := [1])
  const LATE := EARLY.(adding := {}, timers := [Entry(0, 1)], active := {TimerId(1, 0)}, armed := Arm(0, 0))
  const DUE := LATE.(timers := [], active := {}, batch := [Entry(0, 1)], calling := true)

  predicate Goes(q: Queue, step: Step, r: Queue) {
    Enabled(q, step) && AssertsHold(q, step) && Apply(q, step) == r
  }

  lemma CancelComesEarly()
    ensures Goes(INIT, Allocate(1, 0, 0), EARLY) && Goes(EARLY, Cancel(TimerId(1, 0)), EARLY)
    ensures Goes(EARLY, AddInLoop(1, 0), LATE)
  {
    hide Arm;
    assert InsertEntry([], Entry(0, 1)) == [Entry(0, 1)];
  }

  lemma TimerRunsAllTheSame()
    ensures Goes(LATE, Begin(0), DUE) && Goes(DUE, Fire, DUE.(ran := 1, fired := [Firing(0, 0, 0, 0)]))
  {
    hide Arm;
    assert LowerBound([Entry(0, 1)], Entry(0, ADDR_MAX)) == 1;
    assert IdsOf(LATE.heap, [Entry(0, 1)]) == {TimerId(1, 0)};
  }

  lemma LostCancelFires() returns (states: seq<Queue>, steps: seq<Step>)
    ensures IsRun(states, steps) && |steps| == 5
    ensures steps[1] == Cancel(TimerId(1, 0)) && Genuine(states[1], TimerId(1, 0))
    ensures Runs(states[5].fired, 0) == 1
  {
    hide Enabled, AssertsHold, Apply, Arm;
    CancelComesEarly();
    TimerRunsAllTheSame();
    var f := Firing(0, 0, 0, 0);
    steps := [Allocate(1, 0, 0), Cancel(TimerId(1, 0)), AddInLoop(1, 0), Begin(0), Fire];
    states := [INIT, EARLY, EARLY, LATE, DUE, DUE.(ran := 1, fired := [f])];
    assert forall i | 0 <= i < 5 :: Goes(states[i], steps[i], states[i + 1]);
    assert [f][..0] == [];
  }

  // A stale identifier, even one whose address now belongs to another timer,
  // changes no other timer: not its fields, its place, or its pending run
  lemma StaleIdIsHarmless(q: Queue, id: TimerId, a: Addr)
    requires Inv(q) && AssertsHold(q, Cancel(id)) && a in q.heap && IdOf(q.heap, a) != id
    ensures var r := Apply(q, Cancel(id));
            && a in r.heap && r.heap[a] == q.heap[a] && (a in r.adding <==> a in q.adding)
            && (EntryOf(r.heap, a) in r.timers <==> EntryOf(q.heap, a) in q.timers)
            && r.batch == q.batch && r.ran == q.ran
            && (IdOf(q.heap, a) in r.canceling <==> IdOf(q.heap, a) in q.canceling)
  {
    hide FreedAgrees, FiredAgrees, SpacingAgrees;
  }

  // ----- scripts ------------------------------------------------------------

  // What a callback asks of its own queue.  On the loop's thread RunInLoop calls
  // directly, so AddTimer allocates and inserts at once.
  datatype Request =
    | AddTimer(timer: Addr, when: nat, interval: int, clock: nat)
    | CancelTimer(id: TimerId)

  predicate Possible(heap: Heap, r: Request) {
    r.AddTimer? ==>
      0 < r.timer < ADDR_MAX && r.timer !in heap && r.when < TWO_63 && r.interval < 0x8000_0000 && r.clock < TWO_63 / 2
  }

  // The effect of a list of steps; one that cannot happen is passed over
  ghost function Play(steps: seq<Step>): Queue
    decreases |steps|
  {
    if steps == [] then INIT
    else
      var n := |steps| - 1;
      var q := Play(steps[..n]);
      if Enabled(q, steps[n]) && AssertsHold(q, steps[n]) then Apply(q, steps[n]) else q
  }

  lemma PlayOne(steps: seq<Step>, step: Step)
    requires Inv(Play(steps)) && Enabled(Play(steps), step)
    ensures AssertsHold(Play(steps), step)
    ensures Play(steps + [step]) == Apply(Play(steps), step) && Inv(Apply(Play(steps), step))
  {
    hide Inv, Enabled, AssertsHold, Apply;
    assert (steps + [step])[..|steps|] == steps;
    AssertsFollow(Play(steps), step);
    StepKeeps(Play(steps), step);
  }

  lemma ExtendRun(states: seq<Queue>, taken: seq<Step>, step: Step)
    requires IsRun(states, taken) && Enabled(states[|taken|], step) && AssertsHold(states[|taken|], step)
    ensures IsRun(states + [Apply(states[|taken|], step)], taken + [step])
  {
    hide Enabled, AssertsHold, Apply, INIT;
    var states', taken' := states + [Apply(states[|taken|], step)], taken + [step];
    forall i | 0 <= i < |taken'|
      ensures Enabled(states'[i], taken'[i])
      ensures AssertsHold(states'[i], taken'[i]) ==> states'[i + 1] == Apply(states'[i], taken'[i])
    {
      if i < |taken| {
        assert Enabled(states[i], taken[i]);
      }
    }
  }

  // What is played is reached by a run, so the theorems about runs apply to it
  lemma {:induction false} PlayIsRun(steps: seq<Step>) returns (states: seq<Queue>, taken: seq<Step>)
    ensures IsRun(states, taken) && states[|taken|] == Play(steps)
  {
    if steps == [] {
      states, taken := [INIT], [];
    } else {
      hide Enabled, AssertsHold, Apply, IsRun;
      var n := |steps| - 1;
      states, taken := PlayIsRun(steps[..n]);
      var q := states[|taken|];
      if Enabled(q, steps[n]) && AssertsHold(q, steps[n]) {
        ExtendRun(states, taken, steps[n]);
        states, taken := states + [Apply(q, steps[n])], taken + [steps[n]];
      }
    }
  }

  // From q to r nothing happened to the batch of the HandleRead on the stack, or to its timers
  predicate BatchKept(q: Queue, r: Queue) {
    && r.batch == q.batch && r.ran == q.ran && r.now == q.now && r.calling == q.calling && r.fired == q.fired
    && (forall i | 0 <= i < |q.batch| && q.batch[i].timer in q.heap ::
          q.batch[i].timer in r.heap && r.heap[q.batch[i].timer] == q.heap[q.batch[i].timer])
  }

  // From q to r, of the timers of the running batch exactly those have been noted as cancelled that the steps cancel
  predicate Noted(q: Queue, r: Queue, steps: seq<Step>) {
    forall i | 0 <= i < |q.batch| && q.batch[i].timer in q.heap ::
      var id := IdOf(q.heap, q.batch[i].timer);
      id in r.canceling <==> id in q.canceling || Cancel(id) in steps
  }

  lemma PlayNotes(steps: seq<Step>, step: Step)
    requires var q := Play(steps); Inv(q) && Enabled(q, step) && q.calling && !step.Begin? && !step.End?
    ensures Noted(Play(steps), Play(steps + [step]), [step])
  {
    hide Inv, Play, Enabled, AssertsHold, Apply;
    PlayOne(steps, step);
    var q := Play(steps);
    forall i | 0 <= i < |q.batch| && q.batch[i].timer in q.heap
      ensures var id := IdOf(q.heap, q.batch[i].timer);
              id in Play(steps + [step]).canceling <==> id in q.canceling || Cancel(id) in [step]
    {
      StepInBatch(q, step, q.batch[i]);
    }
  }

  lemma NotedTwice(q: Queue, r: Queue, s: Queue, before: seq<Step>, after: seq<Step>)
    requires Noted(q, r, before) && Noted(r, s, after) && r.batch == q.batch
    requires forall i | 0 <= i < |q.batch| && q.batch[i].timer in q.heap ::
               q.batch[i].timer in r.heap && r.heap[q.batch[i].timer] == q.heap[q.batch[i].timer]
    ensures Noted(q, s, before + after)
  {}

  // The steps that a request takes
  function StepsOf(r: Request): seq<Step> {
    match r
    case AddTimer(a, when, interval, clock) => [Allocate(a, when, interval), AddInLoop(a, clock)]
    case CancelTimer(id) => [Cancel(id)]
  }

  // The steps after a callback's requests, in order; one that the allocator would not grant is not made
  ghost function Performed(steps: seq<Step>, requests: seq<Request>): seq<Step>
    decreases |requests|
  {
    if requests == [] then steps
    else if Possible(Play(steps).heap, requests[0]) then Performed(steps + StepsOf(requests[0]), requests[1..])
    else Performed(steps, requests[1..])
  }

  // The steps after the callbacks of entries i to n - 1 of a batch
  ghost function Fires(steps: seq<Step>, script: seq<seq<Request>>, i: nat, n: nat): seq<Step>
    requires i <= n
    decreases n - i
  {
    if i == n then steps
    else Fires(Performed(steps + [Fire], if i < |script| then script[i] else []), script, i + 1, n)
  }

  // --- each kind of step, played: a callback can neither delete nor change a
  //     timer of the running batch

  lemma PlayAllocate(steps: seq<Step>, a: Addr, when: nat, interval: int)
    requires var q := Play(steps); Inv(q) && Enabled(q, Allocate(a, when, interval))
    ensures var q, r := Play(steps), Play(steps + [Allocate(a, when, interval)]);
            && r == q.(heap := q.heap[a := Timer(when, interval, |q.issued|)], adding := q.adding + {a},
                       issued := q.issued + [a])
            && Inv(r) && BatchKept(q, r)
  {
    hide Inv, Play;
    PlayOne(steps, Allocate(a, when, interval));
  }

  lemma PlayAdd(steps: seq<Step>, a: Addr, clock: nat)
    requires var q := Play(steps); Inv(q) && Enabled(q, AddInLoop(a, clock))
    ensures var q, r := Play(steps), Play(steps + [AddInLoop(a, clock)]);
            && a in q.heap && Sorted(q.timers) && r == AddTimerInLoop(q, a, clock) && Inv(r) && BatchKept(q, r)
  {
    hide Inv, Play;
    PlayOne(steps, AddInLoop(a, clock));
  }

  lemma PlayCancel(steps: seq<Step>, id: TimerId)
    requires Inv(Play(steps))
    ensures var q, r := Play(steps), Play(steps + [Cancel(id)]);
            && Sorted(q.timers) && (id in q.active ==> id.timer in q.heap)
            && r == CancelInLoop(q, id) && Inv(r) && BatchKept(q, r)
  {
    PlayOne(steps, Cancel(id));
    hide HeapAgrees, FreedAgrees, FiredAgrees, SpacingAgrees, Play;
  }

  lemma PlayBegin(steps: seq<Step>, now: nat)
    requires var q := Play(steps); Inv(q) && Enabled(q, Begin(now))
    ensures var q, r := Play(steps), Play(steps + [Begin(now)]); Sorted(q.timers) && r == Begun(q, now) && Inv(r)
  {
    hide Inv, Play;
    PlayOne(steps, Begin(now));
  }

  lemma PlayFire(steps: seq<Step>)
    requires var q := Play(steps); Inv(q) && Enabled(q, Fire)
    ensures var q, r := Play(steps), Play(steps + [Fire]);
            q.batch[q.ran].timer in q.heap && r == Fired(q) && Inv(r)
  {
    hide Inv, Play;
    PlayOne(steps, Fire);
  }

  lemma PlayEnd(steps: seq<Step>, clock: nat)
    requires var q := Play(steps); Inv(q) && Enabled(q, End(clock))
    ensures var q, r := Play(steps), Play(steps + [End(clock)]); BatchInHeap(q) && r == Ended(q, clock) && Inv(r)
    ensures Core(Play(steps).(calling := false), {})
  {
    hide Inv, Core, Play, ResetAll, Ended, BatchInHeap, Sorted;
    EndCore(Play(steps));
    PlayOne(steps, End(clock));
  }

  lemma EndCore(q: Queue)
    requires Inv(q)
    ensures Core(q.(calling := false), {})
  {
    hide Core;
    CoreUnarmed(q, None);
  }
}
