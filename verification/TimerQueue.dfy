/**
 TimerQueue as the class of the source (src/timer_queue.cc), proved to take the
 steps of `TimerModel`.  The kernel's clock, the allocator's choice of address
 and what the callbacks do are parameters.
 */
module TimerQueues {
  import opened Basics
  import opened TimerModel

  class TimerQueue {
    var heap: Heap
    var timers: seq<Entry>
    var active: set<TimerId>
    var canceling: set<TimerId>
    var calling: bool
    var armed: Option<Arming>
    var created: nat // Timer::s_numCreated_

    // What the source does not store: the queued additions, the local variables
    // of HandleRead, the history, and the steps taken since construction.
    ghost var adding: set<Addr>
    ghost var batch: seq<Entry>
    ghost var ran: nat
    ghost var now: nat
    ghost var issued: seq<Addr>
    ghost var freed: multiset<nat>
    ghost var fired: seq<Firing>
    ghost var trace: seq<Step>

    ghost function Model(): Queue
      reads this
    {
      Queue(heap, adding, timers, active, canceling, calling, batch, ran, now, armed, issued, freed, fired)
    }

    // The object is where its steps lead in the state machine
    ghost predicate Valid()
      reads this
    {
      Model() == Play(trace) && Inv(Model()) && created == |issued|
    }

    constructor ()
      ensures Valid() && trace == []
    {
      heap, timers, active, canceling := map[], [], {}, {};
      calling, armed, created := false, None, 0;
      adding, batch, ran, now := {}, [], 0, 0;
      issued, freed, fired, trace := [], multiset{}, [], [];
    }

    // The first half of AddTimer; the second is AddTimerInLoop, run directly or as a queued task
    method NewTimer(a: Addr, when: nat, interval: int) returns (id: TimerId)
      requires Valid() && Enabled(Model(), Allocate(a, when, interval))
      modifies this
      ensures Valid() && trace == old(trace) + [Allocate(a, when, interval)] && a in adding
      ensures Genuine(Model(), id) && Exists(Model(), id) && BatchKept(old(Model()), Model())
      ensures id.timer == a && heap == old(heap)[a := Timer(when, interval, id.sequence)] && id.sequence == old(created)
      ensures old(calling) ==> Noted(old(Model()), Model(), [Allocate(a, when, interval)])
    {
      hide Inv, Play, BatchKept, Noted;
      if calling {
        PlayNotes(trace, Allocate(a, when, interval));
      }
      PlayAllocate(trace, a, when, interval);
      heap := heap[a := Timer(when, interval, created)];
      id := TimerId(a, created);
      created := created + 1;
      adding, issued, trace := adding + {a}, issued + [a], trace + [Allocate(a, when, interval)];
    }

    method Insert(a: Addr) returns (earliest: bool)
      requires a in heap && Sorted(timers)
      modifies this`timers, this`active
      ensures Model() == TimerModel.Insert(old(Model()), a)
      ensures earliest == Earliest(old(timers), heap[a].expiration)
    {
      var when := heap[a].expiration;
      earliest := |timers| == 0 || when < timers[0].when;
      timers := InsertEntry(timers, Entry(when, a));
      active := active + {TimerId(a, heap[a].sequence)};
    }

    method AddTimerInLoop(a: Addr, clock: nat)
      requires Valid() && Enabled(Model(), AddInLoop(a, clock))
      modifies this
      ensures Valid() && trace == old(trace) + [AddInLoop(a, clock)] && BatchKept(old(Model()), Model())
      ensures issued == old(issued) && heap == old(heap) && a in heap
      ensures Entry(heap[a].expiration, a) in timers && TimerId(a, heap[a].sequence) in active
      ensures old(calling) ==> Noted(old(Model()), Model(), [AddInLoop(a, clock)])
    {
      hide Inv, Play, BatchKept, InsertEntry, Arm, Noted;
      if calling {
        PlayNotes(trace, AddInLoop(a, clock));
      }
      PlayAdd(trace, a, clock);
      adding, trace := adding - {a}, trace + [AddInLoop(a, clock)];
      var earliest := Insert(a);
      if earliest {
        armed := Arm(heap[a].expiration, clock);
      }
    }

    // AddTimer on the loop's own thread
    method AddTimer(a: Addr, when: nat, interval: int, clock: nat) returns (id: TimerId)
      requires Valid() && Possible(heap, TimerModel.AddTimer(a, when, interval, clock))
      modifies this
      ensures Valid() && trace == old(trace) + [Allocate(a, when, interval), AddInLoop(a, clock)]
      ensures Genuine(Model(), id) && BatchKept(old(Model()), Model())
      // the timer is pending, with what was asked for
      ensures id.timer == a && heap == old(heap)[a := Timer(when, interval, id.sequence)]
      ensures Entry(when, a) in timers && id in active
      ensures old(calling) ==> Noted(old(Model()), Model(), [Allocate(a, when, interval), AddInLoop(a, clock)])
    {
      hide Inv, Play, Noted;
      id := NewTimer(a, when, interval);
      ghost var q := Model();
      AddTimerInLoop(a, clock);
      if old(calling) {
        ghost var one, two := Allocate(a, when, interval), AddInLoop(a, clock);
        NotedTwice(old(Model()), q, Model(), [one], [two]);
        assert [one] + [two] == [one, two];
      }
    }

    method CancelInLoop(id: TimerId)
      requires Valid()
      modifies this
      ensures Valid() && trace == old(trace) + [Cancel(id)] && BatchKept(old(Model()), Model())
      ensures old(calling) ==> Noted(old(Model()), Model(), [Cancel(id)])
    {
      hide Inv, Play, BatchKept, EraseEntry, Sorted, IdsOf, Delete, Noted;
      if calling {
        PlayNotes(trace, Cancel(id));
      }
      PlayCancel(trace, id);
      trace := trace + [Cancel(id)];
      if id in active {
        Remove(id);
      } else if calling {
        canceling := canceling + {id};
      }
    }

    // Both indexes let go of a pending timer, and it is deleted
    method Remove(id: TimerId)
      requires id in active && id.timer in heap && Sorted(timers)
      modifies this`timers, this`active, this`heap, this`freed
      ensures Model() == TimerModel.CancelInLoop(old(Model()), id)
    {
      hide EraseEntry, Sorted;
      timers := EraseEntry(timers, Entry(heap[id.timer].expiration, id.timer));
      freed := freed + multiset{heap[id.timer].sequence};
      heap := heap - {id.timer};
      active := active - {id};
    }

    // The loop erases the expired timers from the second index, one by one
    method GetExpired(when: nat) returns (expired: seq<Entry>)
      requires Valid() && !calling
      modifies this`timers, this`active
      ensures var k := LowerBound(old(timers), Entry(when, ADDR_MAX));
              && expired == old(timers)[..k] && timers == old(timers)[k..]
              && active == old(active) - IdsOf(heap, expired)
    {
      hide Play, LowerBound, Sorted, BatchAgrees, PlacesAgree, FreedAgrees, FiredAgrees, SpacingAgrees;
      var end := LowerBound(timers, Entry(when, ADDR_MAX));
      expired := timers[..end];
      timers := timers[end..];
      for i := 0 to |expired|
        invariant timers == old(timers)[end..] && active == old(active) - IdsOf(heap, expired[..i])
      {
        assert expired[..i + 1] == expired[..i] + [expired[i]];
        active := active - {TimerId(expired[i].timer, heap[expired[i].timer].sequence)};
      }
      assert expired[..|expired|] == expired;
    }

    // A repeating timer goes back into the indexes unless cancelled meanwhile; any other is deleted
    method ResetEntry(a: Addr, when: nat)
      requires batch != [] && batch[0].timer == a && a in heap && Sorted(timers) && ran == |batch| && now == when
      modifies this
      ensures Model() == ResetOne(old(Model())) && created == old(created) && trace == old(trace)
    {
      hide InsertEntry, Sorted;
      ghost var q := Model();
      var t := heap[a];
      batch, ran := batch[1..], ran - 1;
      if 0 < t.interval && TimerId(a, t.sequence) !in canceling {
        heap := heap[a := t.(expiration := when + t.interval * MICROS_PER_SECOND)];
        assert Restarts(q, a) && heap == q.heap[a := Restarted(q.heap[a], q.now)];
        var _ := Insert(a);
      } else {
        freed := freed + multiset{t.sequence};
        heap := heap - {a};
        assert !Restarts(q, a);
      }
    }

    method Reset(expired: seq<Entry>, when: nat, clock: nat)
      requires Core(Model(), {}) && batch == expired && ran == |batch| && now == when
      modifies this
      ensures BatchInHeap(old(Model()))
      ensures var r := ResetAll(old(Model()));
              Model() == if r.timers != [] then r.(armed := Arm(r.timers[0].when, clock)) else r
      ensures created == old(created) && trace == old(trace)
    {
      hide Core, ResetOne, Arm;
      ghost var start := Model();
      ResetAllKeeps(start);
      for i := 0 to |expired|
        invariant Core(Model(), {}) && batch == expired[i..] && ran == |batch| && now == when
        invariant BatchInHeap(Model()) && ResetAll(Model()) == ResetAll(start)
        invariant created == old(created) && trace == old(trace)
      {
        ResetStep(Model());
        ResetEntry(expired[i].timer, when);
      }
      if |timers| != 0 {
        FirstIsCurrent(Model());
        armed := Arm(heap[timers[0].timer].expiration, clock);
      }
    }

    // What a callback does: requests to this very queue, from inside HandleRead
    method Callback(requests: seq<Request>)
      requires Valid() && calling
      modifies this
      ensures Valid() && BatchKept(old(Model()), Model()) && old(trace) <= trace
      ensures trace == Performed(old(trace), requests)
      ensures Noted(old(Model()), Model(), trace[|old(trace)|..])
    {
      hide Inv, Play, Noted, Possible;
      ghost var was := Model();
      NothingNoted(was);
      assert trace[|old(trace)|..] == [] && requests[0..] == requests;
      for i := 0 to |requests|
        invariant Valid() && BatchKept(was, Model()) && old(trace) <= trace
        invariant Performed(old(trace), requests) == Performed(trace, requests[i..])
        invariant Noted(was, Model(), trace[|old(trace)|..])
      {
        ghost var rest, q, tr := requests[i..], Model(), trace;
        assert rest[0] == requests[i] && rest[1..] == requests[i + 1..];
        Serve(requests[i]);
        assert tr + [] == tr;
        NotedTwice(was, q, Model(), tr[|old(trace)|..], trace[|tr|..]);
        assert tr[|old(trace)|..] + trace[|tr|..] == trace[|old(trace)|..];
      }
    }

    // One request of a callback
    method Serve(r: Request)
      requires Valid() && calling
      modifies this
      ensures Valid() && BatchKept(old(Model()), Model())
      ensures trace == old(trace) + if Possible(old(heap), r) then StepsOf(r) else []
      ensures Noted(old(Model()), Model(), trace[|old(trace)|..])
    {
      hide Inv, Play, Noted;
      NothingNoted(Model());
      assert trace + [] == trace;
      match r
      case AddTimer(a, when, interval, clock) =>
        if Possible(heap, r) {
          var _ := AddTimer(a, when, interval, clock);
        }
      case CancelTimer(id) => CancelInLoop(id);
      assert trace[|old(trace)|..] == if Possible(old(heap), r) then StepsOf(r) else [];
    }

    // One iteration of the loop of HandleRead
    method RunEntry(requests: seq<Request>)
      requires Valid() && calling && ran < |batch|
      modifies this
      ensures Valid() && calling && batch == old(batch) && ran == old(ran) + 1 && now == old(now)
      ensures old(trace) <= trace && old(batch)[old(ran)].timer in old(heap)
      ensures fired == old(fired) + [FiringOf(old(heap), old(batch)[old(ran)].timer, now)]
      ensures TimersKept(old(heap), heap, batch)
      ensures trace == Performed(old(trace) + [Fire], requests)
      ensures Noted(old(Model()), Model(), trace[|old(trace)|..])
    {
      hide Inv, Play, Noted, Performed;
      BatchIsKnown(Model());
      PlayNotes(trace, Fire);
      PlayFire(trace);
      ran, fired, trace := ran + 1, Fired(Model()).fired, trace + [Fire];
      ghost var q, tr := Model(), trace;
      Callback(requests);
      NotedTwice(old(Model()), q, Model(), [Fire], trace[|tr|..]);
      assert [Fire] + trace[|tr|..] == trace[|old(trace)|..];
    }

    // HandleRead up to its loop
    method BeginRead(when: nat) returns (expired: seq<Entry>)
      requires Valid() && !calling && when < TWO_63 / 2
      modifies this
      ensures Valid() && calling && batch == expired && ran == 0 && now == when
      ensures Sorted(old(timers)) && expired == old(timers)[..LowerBound(old(timers), Entry(when, ADDR_MAX))]
      ensures trace == old(trace) + [Begin(when)] && fired == old(fired) && heap == old(heap) && canceling == {}
    {
      hide Inv, Play, LowerBound, Sorted, IdsOf;
      PlayBegin(trace, when);
      expired := GetExpired(when);
      calling, canceling := true, {};
      batch, ran, now, trace := expired, 0, when, trace + [Begin(when)];
    }

    // HandleRead after its loop
    method EndRead(expired: seq<Entry>, when: nat, clock: nat)
      requires Valid() && calling && batch == expired && ran == |batch| && now == when && clock < TWO_63 / 2
      modifies this
      ensures Valid() && !calling && trace == old(trace) + [End(clock)] && fired == old(fired)
      ensures forall i | 0 <= i < |expired| ::
                expired[i].timer in old(heap) && Outcome(old(heap), old(canceling), when, Model(), expired[i].timer)
      ensures armed == if timers == [] then old(armed) else Some(Arming(clock, Max(timers[0].when, clock + 100)))
    {
      hide Inv, Play, ResetAll, Core, BatchInHeap, Arm, Outcome;
      PlayEnd(trace, clock);
      BatchOutcome(Model(), clock);
      calling := false;
      ResetAllKeeps(Model());
      Reset(expired, when, clock);
      trace := trace + [End(clock)];
    }

    // The i-th callback makes the requests script[i].  Every timer that was due
    // runs exactly once, in order of expiration, whatever the callbacks ask for.
    method HandleRead(when: nat, script: seq<seq<Request>>, clock: nat)
      requires Valid() && !calling && when < TWO_63 / 2 && clock < TWO_63 / 2
      modifies this
      ensures Valid() && !calling && old(trace) + [Begin(when)] <= trace && trace[|trace| - 1] == End(clock)
      ensures var due := LowerBound(old(timers), Entry(when, ADDR_MAX));
              && (forall i | 0 <= i < |old(timers)| :: i < due <==> old(timers)[i].when <= when)
              && |fired| == |old(fired)| + due && fired[..|old(fired)|] == old(fired)
              && (forall i | 0 <= i < due ::
                    && old(timers)[i].timer in old(heap) && old(heap)[old(timers)[i].timer].expiration <= when
                    && fired[|old(fired)| + i] == FiringOf(old(heap), old(timers)[i].timer, when))
      ensures var due := LowerBound(old(timers), Entry(when, ADDR_MAX));
              trace == Fires(old(trace) + [Begin(when)], script, 0, due) + [End(clock)]
      // a repeating timer is pending again, an interval after `when`, unless a
      // callback cancelled it; every other timer that was due is deleted
      ensures forall i | 0 <= i < LowerBound(old(timers), Entry(when, ADDR_MAX)) ::
                && old(timers)[i].timer in old(heap)
                && var a, t := old(timers)[i].timer, old(heap)[old(timers)[i].timer];
                   var id, next := TimerId(a, t.sequence), when + t.interval * 1_000_000;
                   if 0 < t.interval && Cancel(id) !in trace[|old(trace)|..] then
                     && a in heap && heap[a] == Timer(next, t.interval, t.sequence)
                     && Entry(next, a) in timers && id in active
                   else
                     a !in heap && id !in active && freed[t.sequence] == 1
      // and the timerfd is armed for exactly the earliest timer
      ensures timers != [] ==> armed == Some(Arming(clock, Max(timers[0].when, clock + 100)))
    {
      hide Inv, Play, LowerBound, Sorted, Noted, Fires;
      ghost var q := Model();
      ExpiredAreKnown(q, when);
      var expired := BeginRead(when);
      BatchIsKnown(Model());
      ghost var begun, start := Model(), trace;
      RunBatch(expired, script);
      ghost var last, ending := Model(), trace;
      EndRead(expired, when, clock);
      CancelsAreNoted(begun, last, start, ending, old(trace), trace, when, clock);
    }

    // The loop of HandleRead
    method RunBatch(expired: seq<Entry>, script: seq<seq<Request>>)
      requires Valid() && calling && batch == expired && ran == 0
      modifies this
      ensures Valid() && calling && batch == expired && ran == |expired| && now == old(now)
      ensures TimersKept(old(heap), heap, expired)
      ensures old(trace) <= trace && trace == Fires(old(trace), script, 0, |expired|)
      ensures Noted(old(Model()), Model(), trace[|old(trace)|..])
      ensures |fired| == |old(fired)| + |expired| && fired[..|old(fired)|] == old(fired)
      ensures forall j | 0 <= j < |expired| ::
                fired[|old(fired)| + j] == FiringOf(old(heap), expired[j].timer, now)
    {
      hide Inv, Play, Noted, Performed;
      BatchIsKnown(Model());
      ghost var begun, start := Model(), trace;
      NothingNoted(begun);
      assert trace[|start|..] == [];
      for i := 0 to |expired|
        invariant Valid() && calling && batch == expired && ran == i && now == old(now)
        invariant TimersKept(begun.heap, heap, expired)
        invariant |fired| == |begun.fired| + i && fired[..|begun.fired|] == begun.fired
        invariant forall j | 0 <= j < i :: fired[|begun.fired| + j] == FiringOf(begun.heap, expired[j].timer, now)
        invariant start <= trace && Fires(start, script, 0, |expired|) == Fires(trace, script, i, |expired|)
        invariant Noted(begun, Model(), trace[|start|..])
      {
        ghost var m, tr := Model(), trace;
        RunEntry(if i < |script| then script[i] else []);
        NotedTwice(begun, m, Model(), tr[|start|..], trace[|tr|..]);
        assert tr[|start|..] + trace[|tr|..] == trace[|start|..];
      }
    }
  }

  // What the end of HandleRead makes of a timer of its batch
  predicate Outcome(before: Heap, cancelled: set<TimerId>, now: nat, r: Queue, a: Addr)
    requires a in before
  {
    var t := before[a];
    var id, next := TimerId(a, t.sequence), now + t.interval * 1_000_000;
    if 0 < t.interval && id !in cancelled then
      a in r.heap && r.heap[a] == Timer(next, t.interval, t.sequence) && Entry(next, a) in r.timers && id in r.active
    else
      a !in r.heap && id !in r.active && r.freed[t.sequence] == 1
  }

  lemma BatchOutcome(q: Queue, clock: nat)
    requires Inv(q) && Enabled(q, End(clock))
    ensures BatchInHeap(q)
    ensures forall i | 0 <= i < |q.batch| ::
              q.batch[i].timer in q.heap && Outcome(q.heap, q.canceling, q.now, Ended(q, clock), q.batch[i].timer)
    ensures var r := Ended(q, clock);
            r.armed == if r.timers == [] then q.armed else Some(Arming(clock, Max(r.timers[0].when, clock + 100)))
  {
    hide Inv, BatchInHeap, Ended;
    AssertsFollow(q, End(clock));
    EndArms(q, clock);
    forall i | 0 <= i < |q.batch|
      ensures q.batch[i].timer in q.heap && Outcome(q.heap, q.canceling, q.now, Ended(q, clock), q.batch[i].timer)
    {
      EndRenews(q, clock, q.batch[i]);
    }
  }

  // Between Begin and End a step is a Cancel of id exactly if it is one of the whole HandleRead
  lemma CancelsAreNoted(q: Queue, r: Queue, start: seq<Step>, ending: seq<Step>, before: seq<Step>, after: seq<Step>,
                        when: nat, clock: nat)
    requires start == before + [Begin(when)] && start <= ending && after == ending + [End(clock)]
    requires q.canceling == {} && Noted(q, r, ending[|start|..])
    ensures forall i | 0 <= i < |q.batch| && q.batch[i].timer in q.heap ::
              var id := IdOf(q.heap, q.batch[i].timer); id in r.canceling <==> Cancel(id) in after[|before|..]
  {
    assert after[|before|..] == [Begin(when)] + ending[|start|..] + [End(clock)];
  }

  lemma NothingNoted(q: Queue)
    ensures Noted(q, q, [])
  {}

  // The record of running the timer at address a
  function FiringOf(heap: Heap, a: Addr, now: nat): Firing
    requires a in heap
  {
    Firing(heap[a].sequence, heap[a].interval, heap[a].expiration, now)
  }

  // The timers of these entries exist and have not changed
  predicate TimersKept(before: Heap, after: Heap, es: seq<Entry>) {
    forall i | 0 <= i < |es| ::
      es[i].timer in before && es[i].timer in after && after[es[i].timer] == before[es[i].timer]
  }

  lemma BatchIsKnown(q: Queue)
    requires Inv(q)
    ensures TimersKept(q.heap, q.heap, q.batch)
  {}

  lemma ResetStep(q: Queue)
    requires Core(q, {}) && q.batch != [] && q.ran == |q.batch|
    ensures q.batch[0].timer in q.heap && BatchInHeap(q)
    ensures Core(ResetOne(q), {}) && ResetOne(q).ran == |ResetOne(q).batch| && BatchInHeap(ResetOne(q))
    ensures ResetOne(q).batch == q.batch[1..] && ResetOne(q).now == q.now && ResetAll(ResetOne(q)) == ResetAll(q)
  {
    ResetAllKeeps(q);
    ResetOneKeeps(q);
    ResetAllKeeps(ResetOne(q));
    hide Core;
  }

  lemma ExpiredAreKnown(q: Queue, now: nat)
    requires Inv(q)
    ensures Sorted(q.timers)
    ensures forall i | 0 <= i < LowerBound(q.timers, Entry(now, ADDR_MAX)) ::
              q.timers[i].timer in q.heap && q.timers[i].when <= now &&
              q.heap[q.timers[i].timer].expiration == q.timers[i].when
    ensures forall i | 0 <= i < |q.timers| ::
              i < LowerBound(q.timers, Entry(now, ADDR_MAX)) <==> q.timers[i].when <= now
  {
    ExpiredAreDue(q.timers, now);
  }
}
