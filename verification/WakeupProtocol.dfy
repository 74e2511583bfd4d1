/**
 The task queue of an event loop and its wakeup (src/event_loop.cc).

 Any thread may queue a task or ask the loop to quit; the loop's own thread
 polls, dispatches, and drains the queue.  The lock covers only the push and the
 swap, and the flag need_wakup_, the flag quit_ and the eventfd are read and
 written outside it.  Each step below is one access to this shared state, or
 several made by one thread that no other thread can tell apart.
 */
module WakeupProtocol {
  import opened Basics

  // Who queued a task: another thread, a task being drained, an event handler, or
  // the loop's thread while no Loop is running (and what need_wakup_ was then).
  datatype Origin = Remote | InTask | InHandler | OutsideLoop(flagged: bool)

  datatype Task = Task(id: nat, origin: Origin)

  // Where the loop's thread is
  datatype Pc =
    | Outside                    // before Loop, or after it
    | Testing                    // while(!quit_)
    | Sleeping                   // in Poll
    | Dispatching                // handling the reported events
    | Draining(last: bool)       // in DoPendingTasks, flag set, before the swap
    | Running(last: bool)        // in DoPendingTasks, after the swap

  // `owing` are the tasks whose queuing thread has pushed and not yet called
  // Wakeup, `quitters` counts the calls of Quit between their two statements.
  // `done` and `pushed` record what has run and what was ever queued, and
  // `drained` how many tasks had been queued at the last final swap.
  datatype State = State(
    tasks: seq<Task>,
    batch: seq<Task>,
    counter: nat,
    needWakeup: bool,
    quit: bool,
    pc: Pc,
    owing: set<nat>,
    quitters: nat,
    done: seq<Task>,
    pushed: seq<Task>,
    drained: nat)

  datatype Step =
    | RemotePush | RemoteWake(id: nat) | RemoteQuit | RemoteQuitWake
    | LocalPush | LocalQuit
    | Enter | Test | PollReturns | ReadWakeup | BeginDrain | Swap | RunTask | EndDrain

  // The eventfd counter saturates; a write that does not fit fails and leaves it positive
  const COUNTER_MAX: nat := 0xFFFF_FFFF_FFFF_FFFE

  // need_wakup_ is not initialised by the constructor
  predicate Init(s: State) {
    s == State([], [], 0, s.needWakeup, false, Outside, {}, 0, [], [], 0)
  }

  function Wake(s: State): State {
    s.(counter := if s.counter < COUNTER_MAX then s.counter + 1 else s.counter)
  }

  function Pushed(s: State, origin: Origin): State {
    var t := Task(|s.pushed|, origin);
    s.(tasks := s.tasks + [t], pushed := s.pushed + [t])
  }

  // Where a task queued by the loop's own thread comes from
  function LocalOrigin(s: State): Origin {
    if s.pc.Running? then InTask else if s.pc.Dispatching? then InHandler else OutsideLoop(s.needWakeup)
  }

  // User code runs on the loop's thread in handlers, in tasks, and outside Loop
  predicate RunsUserCode(pc: Pc) {
    pc.Running? || pc.Dispatching? || pc.Outside?
  }

  predicate Enabled(s: State, step: Step) {
    match step
    case RemotePush => true
    case RemoteWake(id) => id in s.owing
    case RemoteQuit => true
    case RemoteQuitWake => 0 < s.quitters
    case LocalPush => RunsUserCode(s.pc)
    case LocalQuit => RunsUserCode(s.pc)
    case Enter => s.pc.Outside?
    case Test => s.pc.Testing?
    case PollReturns => s.pc.Sleeping?          // an event, the timeout, or an error
    case ReadWakeup => s.pc.Dispatching?
    case BeginDrain => s.pc.Dispatching?
    case Swap => s.pc.Draining?
    case RunTask => s.pc.Running? && s.batch != []
    case EndDrain => s.pc.Running? && s.batch == []
  }

  function Apply(s: State, step: Step): State
    requires Enabled(s, step)
  {
    match step
    // QueueInLoop from another thread: the push, then the unconditional Wakeup
    case RemotePush => Pushed(s, Remote).(owing := s.owing + {|s.pushed|})
    case RemoteWake(id) => Wake(s.(owing := s.owing - {id}))
    // Quit from another thread: the flag, then the Wakeup
    case RemoteQuit => s.(quit := true, quitters := s.quitters + 1)
    case RemoteQuitWake => Wake(s.(quitters := s.quitters - 1))
    // QueueInLoop on the loop's thread: Wakeup only if need_wakup_ is set
    case LocalPush =>
      var t := Pushed(s, LocalOrigin(s));
      if s.needWakeup then Wake(t) else t
    case LocalQuit => s.(quit := true)
    // Loop
    case Enter => s.(quit := false, pc := Testing)
    case Test =>
      if s.quit then s.(needWakeup := true, pc := Draining(true)) else s.(pc := Sleeping)
    case PollReturns => s.(pc := Dispatching)
    case ReadWakeup => s.(counter := 0)         // HandleWakeup
    // DoPendingTasks
    case BeginDrain => s.(needWakeup := true, pc := Draining(false))
    case Swap =>
      s.(batch := s.tasks, tasks := [], pc := Running(s.pc.last),
         drained := if s.pc.last then |s.pushed| else s.drained)
    case RunTask => s.(batch := s.batch[1..], done := s.done + [s.batch[0]])
    case EndDrain => s.(needWakeup := false, pc := if s.pc.last then Outside else Testing)
  }

  // ----- runs ---------------------------------------------------------------

  predicate IsRun(states: seq<State>, steps: seq<Step>) {
    && |states| == |steps| + 1 && Init(states[0])
    && (forall i | 0 <= i < |steps| :: Enabled(states[i], steps[i]) && states[i + 1] == Apply(states[i], steps[i]))
  }

  // ----- the invariant ------------------------------------------------------

  // A wakeup for task t is in the eventfd, or its thread still owes it
  predicate Covered(s: State, t: Task) {
    match t.origin
    case Remote => 0 < s.counter || t.id in s.owing
    case InTask => 0 < s.counter
    case OutsideLoop(flagged) => flagged ==> 0 < s.counter
    case InHandler => true
  }

  // The loop's thread is past the point where it empties the eventfd and before the swap
  predicate Collecting(pc: Pc) {
    pc.Dispatching? || pc.Draining?
  }

  predicate Inv(s: State) {
    && s.done + s.batch + s.tasks == s.pushed
    && (forall i | 0 <= i < |s.pushed| :: s.pushed[i].id == i)
    && (forall id | id in s.owing :: id < |s.pushed|)
    && (!Collecting(s.pc) ==> forall t | t in s.tasks :: Covered(s, t) && !t.origin.InHandler?)
    && (s.pc.Draining? || s.pc.Running? ==> s.needWakeup)
    && (!s.pc.Running? ==> s.batch == [])
    && (s.pc.Sleeping? && s.quit ==> 0 < s.counter || 0 < s.quitters)
    && s.drained <= |s.pushed|
    && (s.pc == Running(true) ==> |s.done + s.batch| == s.drained)
    && (s.pc.Outside? ==> |s.done| == s.drained)
  }

  lemma PushKeeps(s: State, origin: Origin, t: State)
    requires Inv(s) && t == Pushed(s, origin).(owing := t.owing, counter := t.counter)
    requires t.owing == s.owing || t.owing == s.owing + {|s.pushed|}
    requires s.counter <= t.counter && Covered(t, Task(|s.pushed|, origin)) && (origin.InHandler? ==> Collecting(s.pc))
    ensures Inv(t)
  {
    assert t.done + t.batch + t.tasks == s.done + s.batch + s.tasks + [Task(|s.pushed|, origin)];
  }

  lemma StepKeeps(s: State, step: Step)
    requires Inv(s) && Enabled(s, step)
    ensures Inv(Apply(s, step)) && s.pushed <= Apply(s, step).pushed && s.done <= Apply(s, step).done
  {
    hide Covered;
    var t := Apply(s, step);
    match step
    case RemotePush => RemotePushKeeps(s);
    case LocalPush => LocalPushKeeps(s);
    case Swap => SwapKeeps(s);
    case RunTask => RunTaskKeeps(s);
    case ReadWakeup =>
    case _ => CoverStays(s, t);
  }

  lemma SwapKeeps(s: State)
    requires Inv(s) && Enabled(s, Swap)
    ensures Inv(Apply(s, Swap))
  {
    var t := Apply(s, Swap);
    assert t.done + t.batch + t.tasks == s.done + s.batch + s.tasks;
  }

  lemma RunTaskKeeps(s: State)
    requires Inv(s) && Enabled(s, RunTask)
    ensures Inv(Apply(s, RunTask))
  {
    hide Covered;
    assert s.batch == [s.batch[0]] + s.batch[1..];
    CoverStays(s, Apply(s, RunTask));
  }

  // Whoever is covered stays covered, unless the eventfd is read
  lemma CoverStays(s: State, t: State)
    requires s.counter <= t.counter && (s.owing <= t.owing || 0 < t.counter)
    ensures forall k | Covered(s, k) :: Covered(t, k)
  {}

  lemma RemotePushKeeps(s: State)
    requires Inv(s)
    ensures Inv(Apply(s, RemotePush))
  {
    PushKeeps(s, Remote, Apply(s, RemotePush));
  }

  lemma LocalPushKeeps(s: State)
    requires Inv(s) && Enabled(s, LocalPush)
    ensures Inv(Apply(s, LocalPush))
  {
    PushKeeps(s, LocalOrigin(s), Apply(s, LocalPush));
  }

  lemma {:induction false} RunKeepsInv(states: seq<State>, steps: seq<Step>, n: nat)
    requires IsRun(states, steps) && n < |states|
    ensures Inv(states[n])
  {
    if n > 0 {
      RunKeepsInv(states, steps, n - 1);
      StepKeeps(states[n - 1], steps[n - 1]);
    }
  }

  // ----- no lost wakeup -----------------------------------------------------

  // Whenever the loop sleeps, the eventfd is positive, or the thread concerned is
  // about to make it so, if a task queued by another thread or by a task is
  // waiting, or quit_ is set.  No task queued by a handler is ever left waiting.
  // A task queued by the loop's thread outside Loop is covered if need_wakup_ was
  // set then.
  lemma NoLostWakeup(states: seq<State>, steps: seq<Step>, n: nat)
    requires IsRun(states, steps) && n < |states| && states[n].pc.Sleeping?
    ensures var s := states[n];
            && (forall t | t in s.tasks ::
                  match t.origin
                  case Remote => 0 < s.counter || t.id in s.owing
                  case InTask => 0 < s.counter
                  case InHandler => false
                  case OutsideLoop(flagged) => flagged ==> 0 < s.counter)
            && (s.quit ==> 0 < s.counter || 0 < s.quitters)
  {
    RunKeepsInv(states, steps, n);
  }

  // ----- Quit ---------------------------------------------------------------

  predicate IsQuit(step: Step) {
    step.RemoteQuit? || step.LocalQuit?
  }

  // The Loop entered at step e is the one that is still being run before step n
  predicate SameLoop(steps: seq<Step>, e: nat, n: nat) {
    e < n <= |steps| && steps[e] == Enter && forall i | e < i < n :: steps[i] != Enter
  }

  predicate QuitWithin(steps: seq<Step>, e: nat, n: nat)
    requires n <= |steps|
  {
    exists i | e < i < n :: IsQuit(steps[i])
  }

  // quit_ says whether Quit was called, by any thread and at any point, since Loop was entered
  lemma {:induction false} QuitIsRemembered(states: seq<State>, steps: seq<Step>, e: nat, n: nat)
    requires IsRun(states, steps) && SameLoop(steps, e, n)
    ensures states[n].quit <==> QuitWithin(steps, e, n)
    decreases n
  {
    assert Enabled(states[n - 1], steps[n - 1]) && states[n] == Apply(states[n - 1], steps[n - 1]);
    if e + 1 < n {
      QuitIsRemembered(states, steps, e, n - 1);
      assert QuitWithin(steps, e, n) <==> QuitWithin(steps, e, n - 1) || IsQuit(steps[n - 1]);
    }
  }

  // Loop clears quit_ on entry, so exactly the Quit calls made before that are
  // lost: each test of the loop ends it if Quit was called since, and lets it
  // sleep if not, whatever came before.
  lemma OnlyEarlyQuitIsLost(states: seq<State>, steps: seq<Step>, e: nat, n: nat)
    requires IsRun(states, steps) && SameLoop(steps, e, n) && n < |steps| && steps[n] == Test
    ensures states[n + 1].pc == if QuitWithin(steps, e, n) then Draining(true) else Sleeping
  {
    QuitIsRemembered(states, steps, e, n);
    assert Enabled(states[n], steps[n]) && states[n + 1] == Apply(states[n], steps[n]);
  }

  // A Quit made since Loop was entered finds the loop awake or wakes it
  lemma QuitWakesTheLoop(states: seq<State>, steps: seq<Step>, e: nat, n: nat)
    requires IsRun(states, steps) && SameLoop(steps, e, n) && QuitWithin(steps, e, n) && states[n].pc.Sleeping?
    ensures 0 < states[n].counter || 0 < states[n].quitters
  {
    QuitIsRemembered(states, steps, e, n);
    NoLostWakeup(states, steps, n);
  }

  // ----- the course of Loop -------------------------------------------------

  // The steps by which the loop's thread moves on; the others leave it where it is
  predicate IsControl(step: Step) {
    step.Enter? || step.Test? || step.PollReturns? || step.BeginDrain? || step.Swap? || step.EndDrain?
  }

  // Step j is the next after step i by which the loop's thread moves on
  predicate Follows(steps: seq<Step>, i: nat, j: nat) {
    && i < j < |steps| && IsControl(steps[i]) && IsControl(steps[j])
    && forall k | i < k < j :: !IsControl(steps[k])
  }

  lemma {:induction false} StaysThere(states: seq<State>, steps: seq<Step>, i: nat, n: nat)
    requires IsRun(states, steps) && i <= n < |states| && forall k | i <= k < n :: !IsControl(steps[k])
    ensures states[n].pc == states[i].pc
    decreases n
  {
    if i < n {
      StaysThere(states, steps, i, n - 1);
      assert Enabled(states[n - 1], steps[n - 1]) && states[n] == Apply(states[n - 1], steps[n - 1]);
    }
  }

  predicate Within(steps: seq<Step>, step: Step, m: nat, n: nat)
    requires n <= |steps|
  {
    exists k | m < k < n :: steps[k] == step
  }

  // Once a test has found a Quit there is no other test, poll or ordinary drain in
  // this Loop: after one swap and the end of that drain, Loop has returned
  lemma {:induction false} LoopReturns(states: seq<State>, steps: seq<Step>, e: nat, m: nat, n: nat)
    requires IsRun(states, steps) && SameLoop(steps, e, n) && e < m < n
    requires steps[m] == Test && QuitWithin(steps, e, m)
    ensures forall k | m < k < n :: steps[k] != Test && steps[k] != PollReturns && steps[k] != BeginDrain
    ensures states[n].pc ==
            if Within(steps, EndDrain, m, n) then Outside
            else if Within(steps, Swap, m, n) then Running(true) else Draining(true)
    ensures Within(steps, EndDrain, m, n) ==> Within(steps, Swap, m, n)
    decreases n
  {
    hide Within, QuitWithin, Enabled, Apply, Init;
    assert Enabled(states[n - 1], steps[n - 1]) && states[n] == Apply(states[n - 1], steps[n - 1]);
    WithinSoFar(steps, EndDrain, m, n);
    WithinSoFar(steps, Swap, m, n);
    if m + 1 == n {
      OnlyEarlyQuitIsLost(states, steps, e, m);
    } else {
      LoopReturns(states, steps, e, m, n - 1);
      LastDrainStep(states[n - 1], steps[n - 1]);
    }
  }

  lemma LastDrainStep(s: State, step: Step)
    requires Enabled(s, step) && step != Enter
    requires s.pc == Draining(true) || s.pc == Running(true) || s.pc == Outside
    ensures step != Test && step != PollReturns && step != BeginDrain
    ensures step == Swap ==> s.pc == Draining(true)
    ensures step == EndDrain ==> s.pc == Running(true)
    ensures Apply(s, step).pc == if step == Swap then Running(true) else if step == EndDrain then Outside else s.pc
  {}

  lemma WithinSoFar(steps: seq<Step>, step: Step, m: nat, n: nat)
    requires m < n <= |steps|
    ensures Within(steps, step, m, n) <==> m + 1 < n && (Within(steps, step, m, n - 1) || steps[n - 1] == step)
  {}

  // Conversely Loop has returned, or is in its last drain, only after such a test
  lemma {:induction false} ReturnsOnlyAfterQuit(states: seq<State>, steps: seq<Step>, e: nat, n: nat) returns (m: nat)
    requires IsRun(states, steps) && SameLoop(steps, e, n)
    requires states[n].pc == Outside || states[n].pc == Draining(true) || states[n].pc == Running(true)
    ensures e < m < n && steps[m] == Test && QuitWithin(steps, e, m)
    ensures states[n].pc == Outside ==> Within(steps, Swap, m, n) && Within(steps, EndDrain, m, n)
    decreases n
  {
    assert Enabled(states[n - 1], steps[n - 1]) && states[n] == Apply(states[n - 1], steps[n - 1]);
    if steps[n - 1] == Test {
      m := n - 1;
      QuitIsRemembered(states, steps, e, m);
    } else {
      m := ReturnsOnlyAfterQuit(states, steps, e, n - 1);
      LoopReturns(states, steps, e, m, n);
    }
  }

  // A test within the Loop entered at step e found a Quit
  predicate LastTestWithin(steps: seq<Step>, e: nat, n: nat)
    requires n <= |steps|
  {
    exists m | e < m < n :: steps[m] == Test && QuitWithin(steps, e, m)
  }

  // Loop goes round: it tests, polls, dispatches, and drains the queue once.  It
  // polls again exactly if Quit was not called since it was entered, and tests
  // again exactly if no test has found that yet.
  lemma LoopGoesRound(states: seq<State>, steps: seq<Step>, e: nat, i: nat, j: nat)
    requires IsRun(states, steps) && e <= i && SameLoop(steps, e, i + 1) && Follows(steps, i, j)
    ensures match steps[i]
            case Enter => steps[j] == Test
            case Test => steps[j] == if QuitWithin(steps, e, i) then Swap else PollReturns
            case PollReturns => steps[j] == BeginDrain
            case BeginDrain => steps[j] == Swap
            case Swap => steps[j] == EndDrain
            case EndDrain => steps[j] == if LastTestWithin(steps, e, i) then Enter else Test
            case _ => false
  {
    if e < i {
      QuitIsRemembered(states, steps, e, i);
    }
    StaysThere(states, steps, i + 1, j);
    assert Enabled(states[i], steps[i]) && states[i + 1] == Apply(states[i], steps[i]);
    assert Enabled(states[j], steps[j]);
    if steps[i] == EndDrain {
      DrainEnds(states, steps, e, i);
    }
  }

  lemma DrainEnds(states: seq<State>, steps: seq<Step>, e: nat, i: nat)
    requires IsRun(states, steps) && e < i < |steps| && SameLoop(steps, e, i + 1) && steps[i] == EndDrain
    ensures states[i + 1].pc == if LastTestWithin(steps, e, i) then Outside else Testing
  {
    hide QuitWithin;
    assert Enabled(states[i], steps[i]) && states[i + 1] == Apply(states[i], steps[i]);
    if LastTestWithin(steps, e, i) {
      var m :| e < m < i && steps[m] == Test && QuitWithin(steps, e, m);
      LoopReturns(states, steps, e, m, i + 1);
    } else if states[i + 1].pc == Outside {
      var m := ReturnsOnlyAfterQuit(states, steps, e, i + 1);
    }
  }

  // The loop's thread can always move on
  lemma NeverStuck(states: seq<State>, steps: seq<Step>, n: nat) returns (step: Step)
    requires IsRun(states, steps) && n < |states|
    ensures Enabled(states[n], step) && (IsControl(step) || step == RunTask)
  {
    match states[n].pc
    case Outside => step := Enter;
    case Testing => step := Test;
    case Sleeping => step := PollReturns;
    case Dispatching => step := BeginDrain;
    case Draining(_) => step := Swap;
    case Running(_) => step := if states[n].batch == [] then EndDrain else RunTask;
  }

  // ----- what other threads owe ---------------------------------------------

  // The task with this number was pushed by another thread at step i, which has not called Wakeup since
  predicate OwedSince(states: seq<State>, steps: seq<Step>, id: nat, i: nat, n: nat)
    requires n <= |steps| < |states|
  {
    && i < n && steps[i] == RemotePush && |states[i].pushed| == id
    && forall k | i < k < n :: steps[k] != RemoteWake(id)
  }

  lemma {:induction false} OwingIsExact(states: seq<State>, steps: seq<Step>, id: nat, n: nat)
    requires IsRun(states, steps) && n <= |steps|
    ensures id in states[n].owing <==> exists i :: OwedSince(states, steps, id, i, n)
  {
    if n > 0 {
      OwingIsExact(states, steps, id, n - 1);
      assert Enabled(states[n - 1], steps[n - 1]) && states[n] == Apply(states[n - 1], steps[n - 1]);
      assert forall i: nat :: OwedSince(states, steps, id, i, n) <==>
        (i == n - 1 && steps[i] == RemotePush && |states[i].pushed| == id) ||
        (OwedSince(states, steps, id, i, n - 1) && steps[n - 1] != RemoteWake(id));
      assert steps[n - 1] == RemotePush && |states[n - 1].pushed| == id ==> OwedSince(states, steps, id, n - 1, n);
    }
  }

  function RemoteQuits(steps: seq<Step>): nat {
    if steps == [] then 0
    else
      var n := |steps| - 1;
      RemoteQuits(steps[..n]) + One(steps[n].RemoteQuit?)
  }

  function RemoteQuitWakes(steps: seq<Step>): nat {
    if steps == [] then 0
    else
      var n := |steps| - 1;
      RemoteQuitWakes(steps[..n]) + One(steps[n].RemoteQuitWake?)
  }

  // The threads inside Quit are those that have set quit_ and not yet called Wakeup
  lemma {:induction false} QuittersAreExact(states: seq<State>, steps: seq<Step>, n: nat)
    requires IsRun(states, steps) && n <= |steps|
    ensures states[n].quitters + RemoteQuitWakes(steps[..n]) == RemoteQuits(steps[..n])
  {
    if n > 0 {
      QuittersAreExact(states, steps, n - 1);
      assert steps[..n][..n - 1] == steps[..n - 1];
      assert Enabled(states[n - 1], steps[n - 1]) && states[n] == Apply(states[n - 1], steps[n - 1]);
    }
  }

  // ----- the eventfd and the flag -------------------------------------------

  // The step writes to the eventfd
  predicate Wakes(s: State, step: Step) {
    step.RemoteWake? || step.RemoteQuitWake? || (step.LocalPush? && s.needWakeup)
  }

  function WakeCount(states: seq<State>, steps: seq<Step>, r: nat, n: nat): nat
    requires r <= n <= |steps| < |states|
    decreases n
  {
    if r == n then 0 else WakeCount(states, steps, r, n - 1) + One(Wakes(states[n - 1], steps[n - 1]))
  }

  // The eventfd holds the number of wakeups since it was last read, until it saturates
  lemma {:induction false} EventfdCounts(states: seq<State>, steps: seq<Step>, r: nat, n: nat)
    requires IsRun(states, steps) && r <= n <= |steps| && (r == 0 || steps[r - 1] == ReadWakeup)
    requires forall k | r <= k < n :: steps[k] != ReadWakeup
    ensures states[n].counter == Min(0xFFFF_FFFF_FFFF_FFFE, WakeCount(states, steps, r, n))
    decreases n
  {
    if 0 < n {
      assert Enabled(states[n - 1], steps[n - 1]) && states[n] == Apply(states[n - 1], steps[n - 1]);
    }
    if r < n {
      EventfdCounts(states, steps, r, n - 1);
    }
  }

  // Once a drain has ended, need_wakup_ says exactly whether one is under way
  lemma {:induction false} FlagIsExact(states: seq<State>, steps: seq<Step>, k: nat, n: nat)
    requires IsRun(states, steps) && k < n < |states| && steps[k] == EndDrain
    ensures states[n].needWakeup <==> states[n].pc.Draining? || states[n].pc.Running?
    decreases n
  {
    assert Enabled(states[n - 1], steps[n - 1]) && states[n] == Apply(states[n - 1], steps[n - 1]);
    if k + 1 < n {
      FlagIsExact(states, steps, k, n - 1);
    }
  }

  // ----- tasks --------------------------------------------------------------

  // What is queued when an iteration dispatches has been taken by the time the loop sleeps again
  predicate Promised(s: State, due: nat) {
    && due <= |s.pushed|
    && (s.pc.Running? ==> due <= |s.done| + |s.batch|)
    && (s.pc.Outside? || s.pc.Testing? || s.pc.Sleeping? ==> due <= |s.done|)
  }

  lemma {:induction false} PromiseHolds(states: seq<State>, steps: seq<Step>, m: nat, n: nat)
    requires IsRun(states, steps) && m <= n < |states| && Collecting(states[m].pc)
    ensures Promised(states[n], |states[m].pushed|) && states[m].pushed <= states[n].pushed
    decreases n
  {
    hide Inv, Enabled, Apply, Promised, Init;
    if m == n {
      PromiseMade(states[m]);
    } else {
      PromiseHolds(states, steps, m, n - 1);
      RunKeepsInv(states, steps, n - 1);
      assert Enabled(states[n - 1], steps[n - 1]) && states[n] == Apply(states[n - 1], steps[n - 1]);
      StepKeeps(states[n - 1], steps[n - 1]);
      PromiseKept(states[n - 1], steps[n - 1], |states[m].pushed|);
    }
  }

  lemma PromiseMade(s: State)
    requires Collecting(s.pc)
    ensures Promised(s, |s.pushed|)
  {}

  lemma PromiseKept(s: State, step: Step, due: nat)
    requires Inv(s) && Enabled(s, step) && Promised(s, due)
    ensures Promised(Apply(s, step), due)
  {
    assert |s.done + s.batch + s.tasks| == |s.pushed|;
  }

  // One iteration is enough: once Poll has returned, every task queued so far,
  // from wherever, has run before the loop sleeps or leaves Loop.
  lemma RunsBeforeNextSleep(states: seq<State>, steps: seq<Step>, m: nat, n: nat)
    requires IsRun(states, steps) && m <= n < |states|
    requires states[m].pc.Dispatching? && (states[n].pc.Sleeping? || states[n].pc.Outside?)
    ensures states[m].pushed <= states[n].done
  {
    PromiseHolds(states, steps, m, n);
    RunKeepsInv(states, steps, n);
    assert states[n].done <= states[n].pushed;
  }

  // ----- each task runs at most once, in order ------------------------------

  // What has run, the rest of the batch and the queue are together every task
  // ever queued, in order; so tasks run first in, first out, each at most once.
  // Out of Loop, exactly the tasks queued before the final swap have run.
  lemma TasksAreConserved(states: seq<State>, steps: seq<Step>, n: nat)
    requires IsRun(states, steps) && n < |states|
    ensures var s := states[n];
            && s.done + s.batch + s.tasks == s.pushed && s.done <= s.pushed
            && (forall i, j | 0 <= i < j < |s.done| :: s.done[i].id < s.done[j].id)
            && (s.pc.Outside? ==> s.done + s.tasks == s.pushed && |s.done| == s.drained)
  {
    RunKeepsInv(states, steps, n);
  }

  function PushCount(steps: seq<Step>): nat {
    if steps == [] then 0
    else
      var n := |steps| - 1;
      PushCount(steps[..n]) + One(steps[n].RemotePush? || steps[n].LocalPush?)
  }

  function RunCount(steps: seq<Step>): nat {
    if steps == [] then 0
    else
      var n := |steps| - 1;
      RunCount(steps[..n]) + One(steps[n].RunTask?)
  }

  // Every call of QueueInLoop queues one task, and every execution is of one
  lemma {:induction false} CallsAreCounted(states: seq<State>, steps: seq<Step>, n: nat)
    requires IsRun(states, steps) && n <= |steps|
    ensures |states[n].pushed| == PushCount(steps[..n]) && |states[n].done| == RunCount(steps[..n])
  {
    if n > 0 {
      CallsAreCounted(states, steps, n - 1);
      assert steps[..n][..n - 1] == steps[..n - 1];
      assert Enabled(states[n - 1], steps[n - 1]) && states[n] == Apply(states[n - 1], steps[n - 1]);
    }
  }

  // ----- what the protocol does not promise ---------------------------------

  // A task that the loop's thread queues before Loop, with the eventfd empty, is
  // slept on until the poll times out, exactly when need_wakup_ happens to be false.
  lemma EarlyTaskNeedsTheFlag(s: State)
    requires s.pc.Outside? && s.counter == 0
    ensures var t := Apply(Apply(Apply(s, LocalPush), Enter), Test);
            && t.pc.Sleeping? && t.tasks == s.tasks + [Task(|s.pushed|, OutsideLoop(s.needWakeup))]
            && (0 < t.counter <==> s.needWakeup)
  {}

  // Such a task and an early Quit do happen, from the initial state
  lemma EarlyTaskIsSleptOn() returns (states: seq<State>, steps: seq<Step>)
    ensures IsRun(states, steps) && RemoteQuit in steps
    ensures var s := states[|steps|];
            s.pc.Sleeping? && !s.quit && s.tasks == [Task(0, OutsideLoop(false))] && s.counter == 0
  {
    steps := [LocalPush, RemoteQuit, Enter, Test];
    var s0 := State([], [], 0, false, false, Outside, {}, 0, [], [], 0);
    var s1 := Apply(s0, LocalPush);
    var s2 := Apply(s1, RemoteQuit);
    var s3 := Apply(s2, Enter);
    states := [s0, s1, s2, s3, Apply(s3, Test)];
  }
}
