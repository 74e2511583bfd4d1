/**
 Calls from other threads (src/event_loop.cc, src/timer_queue.cc, src/tcp_connection.cc).

 AddTimer, Cancel and Send, called on another thread, queue a task that does the
 work on the loop's own thread.  Here the task queue of `WakeupProtocol` carries
 such tasks for the timers of `TimerModel` and for the output of one connection of
 `TcpConnections`, so that the order in which calls are queued can be followed to
 what they do.
 */
module CrossThreadCalls {
  import opened Basics
  import W = WakeupProtocol
  import T = TimerModel
  import Buffers
  import C = TcpConnections

  // What a queued task does: AddTimerInLoop, CancelInLoop, SendInLoop, or something else
  datatype Work =
    | AddTimer(id: T.TimerId)
    | CancelTimer(id: T.TimerId)
    | SendMessage(s: C.Sending)
    | Other

  // One action on the connection's output, and the task that took it; None is the loop's own thread
  datatype Entry = Entry(action: C.Action, task: Option<nat>)

  // `work` says what each task does, by its number; `log` is what has happened to
  // the output while the connection was open
  datatype State = State(
    loop: W.State,
    queue: T.Queue,
    work: seq<Work>,
    connected: bool,
    log: seq<Entry>)

  // Timers and output are touched directly on the loop's thread alone, but for the
  // `new` in AddTimer; the steps allow this at any time
  datatype Step =
    | Protocol(step: W.Step)
    | QueueWork(work: Work)
    | QueueLocal
    | RunNext(clock: nat)
    | OnTimers(timerStep: T.Step)
    | OnOutput(action: C.Action)
    | Disconnect

  predicate Init(s: State) {
    W.Init(s.loop) && s.queue == T.INIT && s.work == [] && s.connected && s.log == []
  }

  // The insertion of timer id is queued and has not run
  predicate Queued(s: State, id: T.TimerId) {
    exists i | |s.loop.done| <= i < |s.work| :: s.work[i] == AddTimer(id)
  }

  // AddTimer has created the timer and not yet inserted it
  predicate Uninserted(q: T.Queue, id: T.TimerId) {
    T.Exists(q, id) && id.timer in q.adding
  }

  // AddTimer has created the timer, and its insertion is no longer to come
  predicate Settled(q: T.Queue, id: T.TimerId) {
    T.Genuine(q, id) && !Uninserted(q, id)
  }

  // Each AddTimer inserts its timer once: by a task if called on another thread, else directly
  predicate Enabled(s: State, step: Step) {
    match step
    case Protocol(p) => W.Enabled(s.loop, p) && !p.RemotePush? && !p.LocalPush? && !p.RunTask?
    case QueueWork(w) => w.AddTimer? ==> Uninserted(s.queue, w.id) && !Queued(s, w.id)
    case QueueLocal => W.Enabled(s.loop, W.LocalPush)
    case RunNext(clock) => W.Enabled(s.loop, W.RunTask) && clock < T.TWO_63 / 2
    case OnTimers(t) =>
      && T.Enabled(s.queue, t)
      && (t.AddInLoop? && t.timer in s.queue.heap ==> !Queued(s, T.IdOf(s.queue.heap, t.timer)))
    case OnOutput(_) => s.connected
    case Disconnect => true
  }

  // A step that could not be taken is passed over; there is none
  function Take(q: T.Queue, t: T.Step): T.Queue {
    if T.Enabled(q, t) && T.AssertsHold(q, t) then T.Apply(q, t) else q
  }

  // The task that RunNext runs
  function Next(s: State): Work {
    if s.loop.batch != [] && s.loop.batch[0].id < |s.work| then s.work[s.loop.batch[0].id] else Other
  }

  // What a step does to the timers
  function TimerStep(s: State, step: Step): Option<T.Step> {
    match step
    case OnTimers(t) => Some(t)
    case RunNext(clock) =>
      (match Next(s)
       case AddTimer(id) => Some(T.AddInLoop(id.timer, clock))
       case CancelTimer(id) => Some(T.Cancel(id))
       case _ => None)
    case _ => None
  }

  // What a step does to the output; a message is dropped once the connection is closed
  function Logged(s: State, step: Step): seq<Entry> {
    match step
    case OnOutput(a) => [Entry(a, None)]
    case RunNext(_) =>
      if s.connected && Next(s).SendMessage? then [Entry(C.DoSend(Next(s).s), Some(s.loop.batch[0].id))] else []
    case _ => []
  }

  function LoopStep(step: Step): Option<W.Step> {
    match step
    case Protocol(p) => Some(p)
    case QueueWork(_) => Some(W.RemotePush)
    case QueueLocal => Some(W.LocalPush)
    case RunNext(_) => Some(W.RunTask)
    case _ => None
  }

  function Apply(s: State, step: Step): State
    requires Enabled(s, step)
  {
    State(
      if LoopStep(step).Some? then W.Apply(s.loop, LoopStep(step).value) else s.loop,
      if TimerStep(s, step).Some? then Take(s.queue, TimerStep(s, step).value) else s.queue,
      s.work + (if step.QueueWork? then [step.work] else if step.QueueLocal? then [Other] else []),
      s.connected && !step.Disconnect?,
      s.log + Logged(s, step))
  }

  predicate IsRun(states: seq<State>, steps: seq<Step>) {
    && |states| == |steps| + 1 && Init(states[0])
    && (forall i | 0 <= i < |steps| :: Enabled(states[i], steps[i]) && states[i + 1] == Apply(states[i], steps[i]))
  }

  // ----- timers, one step at a time -----------------------------------------

  // Reset leaves timers alone that have not been inserted, and creates none
  lemma {:induction false} ResetLeavesUninserted(q: T.Queue, id: T.TimerId)
    requires T.Core(q, {}) && q.ran == |q.batch|
    ensures T.BatchInHeap(q)
    ensures var r := T.ResetAll(q);
            && r.adding == q.adding && r.issued == q.issued
            && (T.Exists(r, id) ==> T.Exists(q, id)) && (Uninserted(q, id) ==> Uninserted(r, id))
    decreases |q.batch|
  {
    T.ResetAllKeeps(q);
    if q.batch != [] {
      T.ResetOneKeeps(q);
      ResetOneLeavesUninserted(q, id);
      ResetLeavesUninserted(T.ResetOne(q), id);
    }
  }

  lemma ResetOneLeavesUninserted(q: T.Queue, id: T.TimerId)
    requires T.Core(q, {}) && q.batch != [] && T.BatchInHeap(q)
    ensures var r := T.ResetOne(q);
            && r.adding == q.adding && r.issued == q.issued
            && (T.Exists(r, id) ==> T.Exists(q, id)) && (Uninserted(q, id) ==> Uninserted(r, id))
  {
    hide T.HeapAgrees, T.IndexesAgree, T.FreedAgrees, T.FiredAgrees, T.SpacingAgrees, T.InsertEntry;
    assert q.batch[0] in q.batch;
  }

  lemma EndLeavesUninserted(q: T.Queue, clock: nat, id: T.TimerId)
    requires T.Inv(q) && T.Enabled(q, T.End(clock)) && T.BatchInHeap(q)
    ensures var r := T.Ended(q, clock);
            && r.adding == q.adding && r.issued == q.issued
            && (T.Exists(r, id) ==> T.Exists(q, id)) && (Uninserted(q, id) ==> Uninserted(r, id))
  {
    hide T.Core, T.ResetAll, T.Arm;
    T.EndCore(q);
    ResetLeavesUninserted(q.(calling := false), id);
  }

  lemma CancelLeavesUninserted(q: T.Queue, other: T.TimerId, id: T.TimerId)
    requires T.Inv(q) && T.AssertsHold(q, T.Cancel(other))
    ensures var r := T.CancelInLoop(q, other);
            && r.adding == q.adding && r.issued == q.issued
            && (T.Exists(r, id) ==> T.Exists(q, id)) && (Uninserted(q, id) ==> Uninserted(r, id))
  {
    hide T.FreedAgrees, T.FiredAgrees, T.SpacingAgrees, T.EraseEntry, T.SizesAgree;
  }

  lemma UninsertedIsGenuine(q: T.Queue, id: T.TimerId)
    requires T.Inv(q)
    ensures Uninserted(q, id) ==> T.Genuine(q, id)
  {}

  // A settled timer stays so, and one not yet inserted waits for its own insertion
  lemma TimersMove(q: T.Queue, t: T.Step, id: T.TimerId)
    requires T.Inv(q) && T.Enabled(q, t) && T.AssertsHold(q, t)
    ensures Settled(q, id) ==> Settled(T.Apply(q, t), id)
    ensures Uninserted(q, id) && !(t.AddInLoop? && t.timer == id.timer) ==> Uninserted(T.Apply(q, t), id)
    ensures Uninserted(q, id) && t.AddInLoop? && t.timer == id.timer ==> Settled(T.Apply(q, t), id)
  {
    hide T.Core, T.SizesAgree, T.Ended, T.CancelInLoop, T.LowerBound, T.InsertEntry, T.IdsOf, T.Arm;
    UninsertedIsGenuine(q, id);
    match t
    case Cancel(other) => CancelLeavesUninserted(q, other, id);
    case End(clock) => EndLeavesUninserted(q, clock, id);
    case _ =>
  }

  // ----- the invariant ------------------------------------------------------

  // Of the first `done` tasks every insertion has settled its timer, of the others none has
  predicate WorkAgrees(q: T.Queue, work: seq<Work>, done: nat) {
    && (forall i | 0 <= i < done && i < |work| && work[i].AddTimer? :: Settled(q, work[i].id))
    && (forall i | done <= i < |work| && work[i].AddTimer? :: Uninserted(q, work[i].id))
    && (forall i, j | done <= i < j < |work| && work[i].AddTimer? :: work[j] != work[i])
  }

  predicate InLog(log: seq<Entry>, task: nat) {
    exists k | 0 <= k < |log| :: log[k].task == Some(task)
  }

  // The messages queued by other threads are logged in order, and none is skipped while the connection is open
  predicate LogAgrees(log: seq<Entry>, work: seq<Work>, done: nat, connected: bool) {
    && (forall k | 0 <= k < |log| && log[k].task.Some? ::
          && log[k].task.value < done && log[k].task.value < |work| && work[log[k].task.value].SendMessage?
          && log[k].action == C.DoSend(work[log[k].task.value].s))
    && (forall k, m | 0 <= k < m < |log| && log[k].task.Some? && log[m].task.Some? ::
          log[k].task.value < log[m].task.value)
    && (forall i, m | 0 <= i < |work| && work[i].SendMessage? && 0 <= m < |log| && log[m].task.Some? &&
                      i < log[m].task.value :: InLog(log, i))
    && (connected ==> forall i | 0 <= i < done && i < |work| && work[i].SendMessage? :: InLog(log, i))
  }

  ghost predicate Inv(s: State) {
    && W.Inv(s.loop) && T.Inv(s.queue) && |s.work| == |s.loop.pushed|
    && WorkAgrees(s.queue, s.work, |s.loop.done|)
    && LogAgrees(s.log, s.work, |s.loop.done|, s.connected)
  }

  // The task at the head of the batch is the first that has not run
  lemma HeadIsNext(l: W.State)
    requires W.Inv(l) && l.batch != []
    ensures l.batch[0].id == |l.done| < |l.pushed|
  {
    assert l.pushed[|l.done|] == (l.done + l.batch + l.tasks)[|l.done|] == l.batch[0];
  }

  // The loop's part of a step: only RunNext finishes a task, and only the two queueing steps add one
  lemma LoopMoves(s: State, step: Step)
    requires W.Inv(s.loop) && Enabled(s, step)
    ensures var l := Apply(s, step).loop;
            && W.Inv(l)
            && |l.done| == |s.loop.done| + One(step.RunNext?)
            && |l.pushed| == |s.loop.pushed| + One(step.QueueWork? || step.QueueLocal?)
  {
    if LoopStep(step).Some? {
      W.StepKeeps(s.loop, LoopStep(step).value);
    }
  }

  // The timers' part: every step asked of them can be taken
  lemma TimersCanMove(s: State, step: Step)
    requires Inv(s) && Enabled(s, step) && TimerStep(s, step).Some?
    ensures var t := TimerStep(s, step).value;
            && T.Enabled(s.queue, t) && T.AssertsHold(s.queue, t)
            && Apply(s, step).queue == T.Apply(s.queue, t) && T.Inv(Apply(s, step).queue)
  {
    hide T.Inv, T.AssertsHold, T.Apply, LogAgrees, W.Inv;
    if step.RunNext? {
      HeadIsNext(s.loop);
    }
    var t := TimerStep(s, step).value;
    T.AssertsFollow(s.queue, t);
    T.StepKeeps(s.queue, t);
  }

  // A direct step on the timers leaves the queued insertions to come
  lemma DirectWork(s: State, t: T.Step)
    requires Inv(s) && Enabled(s, OnTimers(t)) && T.AssertsHold(s.queue, t)
    ensures WorkAgrees(T.Apply(s.queue, t), s.work, |s.loop.done|)
  {
    hide T.Inv, T.Enabled, T.AssertsHold, T.Apply, LogAgrees, W.Inv, Settled;
    forall i | 0 <= i < |s.work| && s.work[i].AddTimer?
      ensures if i < |s.loop.done| then Settled(T.Apply(s.queue, t), s.work[i].id)
              else Uninserted(T.Apply(s.queue, t), s.work[i].id)
    {
      TimersMove(s.queue, t, s.work[i].id);
    }
  }

  // A task settles its own timer and no other
  lemma TaskWork(s: State, clock: nat)
    requires Inv(s) && Enabled(s, RunNext(clock))
    ensures WorkAgrees(Apply(s, RunNext(clock)).queue, s.work, |s.loop.done| + 1)
  {
    hide T.Inv, T.Enabled, T.AssertsHold, T.Apply, LogAgrees, W.Inv, Settled;
    HeadIsNext(s.loop);
    var n, step := |s.loop.done|, TimerStep(s, RunNext(clock));
    if step.Some? {
      TimersCanMove(s, RunNext(clock));
      forall i | 0 <= i < |s.work| && s.work[i].AddTimer?
        ensures if i <= n then Settled(T.Apply(s.queue, step.value), s.work[i].id)
                else Uninserted(T.Apply(s.queue, step.value), s.work[i].id)
      {
        TimersMove(s.queue, step.value, s.work[i].id);
      }
    }
  }

  lemma LogIsLeft(log: seq<Entry>, work: seq<Work>, done: nat, connected: bool, w: Work)
    requires LogAgrees(log, work, done, connected) && done <= |work|
    ensures LogAgrees(log, work, done, false) && LogAgrees(log, work + [w], done, connected)
    ensures done < |work| && !(connected && work[done].SendMessage?) ==> LogAgrees(log, work, done + 1, connected)
  {}

  lemma LogGrows(log: seq<Entry>, work: seq<Work>, done: nat, connected: bool, e: Entry)
    requires LogAgrees(log, work, done, connected) && done <= |work|
    ensures e.task == None ==> LogAgrees(log + [e], work, done, connected)
    ensures connected && done < |work| && work[done].SendMessage? && e == Entry(C.DoSend(work[done].s), Some(done)) ==>
              LogAgrees(log + [e], work, done + 1, connected)
  {
    forall i: nat | InLog(log, i) ensures InLog(log + [e], i) {
      var k :| 0 <= k < |log| && log[k].task == Some(i);
      assert (log + [e])[k] == log[k];
    }
    assert (log + [e])[|log|] == e;
    assert e.task.Some? ==> InLog(log + [e], e.task.value);
  }

  lemma LogKeeps(s: State, step: Step)
    requires Inv(s) && Enabled(s, step)
    ensures var r := Apply(s, step); LogAgrees(r.log, r.work, |r.loop.done|, r.connected)
  {
    hide T.Inv, WorkAgrees, W.Inv, W.Apply, Take, LogAgrees;
    LoopMoves(s, step);
    LoopIsOrdered(s.loop);
    var r, done := Apply(s, step), |s.loop.done|;
    assert s.log + [] == s.log && s.work + [] == s.work;
    match step
    case OnOutput(a) => LogGrows(s.log, s.work, done, s.connected, Entry(a, None));
    case QueueWork(w) => LogIsLeft(s.log, s.work, done, s.connected, w);
    case RunNext(_) =>
      HeadIsNext(s.loop);
      LogIsLeft(s.log, s.work, done, s.connected, Other);
      if Logged(s, step) != [] {
        LogGrows(s.log, s.work, done, s.connected, Logged(s, step)[0]);
      }
    case _ => LogIsLeft(s.log, s.work, done, s.connected, Other);
  }

  lemma LoopIsOrdered(l: W.State)
    requires W.Inv(l)
    ensures |l.done| <= |l.pushed|
  {
    assert |l.done + l.batch + l.tasks| == |l.pushed|;
  }

  lemma StepKeeps(s: State, step: Step)
    requires Inv(s) && Enabled(s, step)
    ensures Inv(Apply(s, step))
  {
    hide T.Inv, W.Inv, LogAgrees, W.Apply, W.Enabled, T.Enabled, T.AssertsHold, T.Apply, Settled, Uninserted;
    LoopMoves(s, step);
    LoopIsOrdered(s.loop);
    LogKeeps(s, step);
    if TimerStep(s, step).Some? {
      TimersCanMove(s, step);
    }
    match step
    case OnTimers(t) => DirectWork(s, t);
    case RunNext(clock) => TaskWork(s, clock);
    case QueueWork(w) => QueuedWork(s, w);
    case _ => assert s.work + [] == s.work;
  }

  lemma QueuedWork(s: State, w: Work)
    requires Inv(s) && Enabled(s, QueueWork(w))
    ensures WorkAgrees(s.queue, s.work + [w], |s.loop.done|)
  {
    hide T.Inv, LogAgrees, Settled, Uninserted;
    LoopIsOrdered(s.loop);
  }

  lemma InitInv(s: State)
    requires Init(s)
    ensures Inv(s)
  {
    hide T.Inv, T.INIT;
    T.InitInv();
  }

  lemma {:induction false} RunKeepsInv(states: seq<State>, steps: seq<Step>, n: nat)
    requires IsRun(states, steps) && n < |states|
    ensures Inv(states[n])
  {
    hide Inv, Enabled, Apply, Init;
    if n == 0 {
      InitInv(states[0]);
    } else {
      RunKeepsInv(states, steps, n - 1);
      assert Enabled(states[n - 1], steps[n - 1]);
      StepKeeps(states[n - 1], steps[n - 1]);
    }
  }

  // ----- a queued Cancel is never lost --------------------------------------

  // The timer is settled, or will be by one of the first k tasks
  predicate SettledBy(s: State, id: T.TimerId, k: nat) {
    Settled(s.queue, id) || exists i | 0 <= i < k && i < |s.work| :: s.work[i] == AddTimer(id)
  }

  // AddTimer has returned id to its caller: on the loop's thread it inserts first, on another it queues first
  predicate Returned(s: State, id: T.TimerId) {
    SettledBy(s, id, |s.work|)
  }

  lemma StepSettles(s: State, step: Step, id: T.TimerId, k: nat)
    requires Inv(s) && Enabled(s, step) && SettledBy(s, id, k)
    ensures SettledBy(Apply(s, step), id, k) && s.work <= Apply(s, step).work
  {
    hide Inv, T.Apply, T.AssertsHold, W.Apply, Settled, Take;
    if TimerStep(s, step).Some? && Settled(s.queue, id) {
      TimersCanMove(s, step);
      InvOfTimers(s);
      TimersMove(s.queue, TimerStep(s, step).value, id);
    } else if !Settled(s.queue, id) {
      var i :| 0 <= i < k && i < |s.work| && s.work[i] == AddTimer(id);
      assert Apply(s, step).work[i] == AddTimer(id);
    }
  }

  lemma InvOfTimers(s: State)
    requires Inv(s)
    ensures T.Inv(s.queue)
  {}

  lemma {:induction false} StaysReturned(states: seq<State>, steps: seq<Step>, p: nat, n: nat, id: T.TimerId, k: nat)
    requires IsRun(states, steps) && p <= n < |states| && SettledBy(states[p], id, k)
    ensures SettledBy(states[n], id, k) && states[p].work <= states[n].work
    decreases n
  {
    hide Inv, Enabled, Apply, SettledBy, Init;
    if p < n {
      StaysReturned(states, steps, p, n - 1, id, k);
      RunKeepsInv(states, steps, n - 1);
      assert Enabled(states[n - 1], steps[n - 1]);
      StepSettles(states[n - 1], steps[n - 1], id, k);
    }
  }

  // What the first tasks had to settle is settled when they have run
  lemma SettledWhenRun(s: State, id: T.TimerId, k: nat)
    requires Inv(s) && SettledBy(s, id, k) && k <= |s.loop.done|
    ensures Settled(s.queue, id)
  {
    hide T.Inv, W.Inv, LogAgrees, Settled, Uninserted;
  }

  // A Cancel queued by another thread, of any timer whose AddTimer has returned,
  // takes effect when its task runs
  lemma QueuedCancelDooms(states: seq<State>, steps: seq<Step>, p: nat, n: nat, id: T.TimerId)
    requires IsRun(states, steps) && p < n < |steps|
    requires steps[p] == QueueWork(CancelTimer(id)) && Returned(states[p], id)
    requires steps[n].RunNext? && states[n].loop.batch != [] && states[n].loop.batch[0].id == |states[p].work|
    ensures T.Enabled(states[n].queue, T.Cancel(id)) && T.AssertsHold(states[n].queue, T.Cancel(id))
    ensures states[n + 1].queue == T.Apply(states[n].queue, T.Cancel(id)) && T.Doomed(states[n + 1].queue, id)
    ensures T.Genuine(states[n].queue, id) && !Uninserted(states[n].queue, id)
  {
    hide Inv, T.Apply, T.AssertsHold, T.Doomed, T.Genuine, W.Apply, Init, SettledBy, Take;
    var k := |states[p].work|;
    assert states[p + 1] == Apply(states[p], steps[p]);
    RunKeepsInv(states, steps, n);
    StaysReturned(states, steps, p, n, id, k);
    StaysWork(states, steps, p + 1, n);
    assert states[p + 1].work[k] == CancelTimer(id);
    HeadOf(states[n]);
    SettledWhenRun(states[n], id, k);
    TimersCanMove(states[n], steps[n]);
    InvOfTimers(states[n]);
    T.CancelDooms(states[n].queue, id);
  }

  lemma HeadOf(s: State)
    requires Inv(s) && s.loop.batch != []
    ensures s.loop.batch[0].id == |s.loop.done| < |s.work|
  {
    HeadIsNext(s.loop);
  }

  lemma {:induction false} StaysWork(states: seq<State>, steps: seq<Step>, p: nat, n: nat)
    requires IsRun(states, steps) && p <= n < |states|
    ensures states[p].work <= states[n].work
    decreases n
  {
    hide Enabled, Take, W.Apply;
    if p < n {
      StaysWork(states, steps, p, n - 1);
      assert states[n] == Apply(states[n - 1], steps[n - 1]);
    }
  }

  lemma {:induction false} DoomedForever(states: seq<State>, steps: seq<Step>, m: nat, n: nat, id: T.TimerId)
    requires IsRun(states, steps) && m <= n < |states| && T.Doomed(states[m].queue, id)
    ensures T.StaysDoomed(states[m].queue, states[n].queue, id)
    decreases n
  {
    hide Inv, T.Apply, T.AssertsHold, T.Allowance, T.Doomed, T.Runs, T.Exists, W.Apply, Init, Take, Enabled;
    if m < n {
      DoomedForever(states, steps, m, n - 1, id);
      RunKeepsInv(states, steps, n - 1);
      var s, step := states[n - 1], steps[n - 1];
      assert Enabled(s, step) && states[n] == Apply(s, step);
      if TimerStep(s, step).Some? {
        TimersCanMove(s, step);
        InvOfTimers(s);
        T.StepDooms(s.queue, TimerStep(s, step).value, id);
      }
    }
  }

  // So a timer cancelled from another thread is never pending again once that
  // task has run.  It never runs again if the task found no batch running, and
  // else at most once more, if its turn in that batch was to come.
  lemma QueuedCancelIsNeverLost(states: seq<State>, steps: seq<Step>, p: nat, n: nat, m: nat, id: T.TimerId)
    requires IsRun(states, steps) && p < n < m < |states|
    requires steps[p] == QueueWork(CancelTimer(id)) && Returned(states[p], id)
    requires steps[n].RunNext? && states[n].loop.batch != [] && states[n].loop.batch[0].id == |states[p].work|
    ensures var q, r := states[n].queue, states[m].queue;
            && !(T.Exists(r, id) && T.EntryOf(r.heap, id.timer) in r.timers)
            && T.Runs(r.fired, id.sequence) <= T.Runs(q.fired, id.sequence) + One(T.ToRun(q, id))
            && (!q.calling ==> !T.Exists(r, id) && T.Runs(r.fired, id.sequence) == T.Runs(q.fired, id.sequence))
  {
    QueuedCancelDooms(states, steps, p, n, id);
    RunKeepsInv(states, steps, n);
    RunKeepsInv(states, steps, m);
    InvOfTimers(states[n]);
    InvOfTimers(states[m]);
    hide Inv, T.Inv, Enabled, Init, Apply, T.Runs, T.AssertsHold, Settled;
    T.CancelDooms(states[n].queue, id);
    T.CancelAllowance(states[n].queue, id);
    DoomedForever(states, steps, n + 1, m, id);
    T.DoomedIsNotPending(states[m].queue, id);
  }

  // Cancel on the loop's own thread is a direct call, which a queued task cannot
  // precede: it is lost exactly when the insertion is still queued
  lemma DirectCancelIsLost(states: seq<State>, steps: seq<Step>, n: nat, id: T.TimerId)
    requires IsRun(states, steps) && n < |steps| && steps[n] == OnTimers(T.Cancel(id)) && Returned(states[n], id)
    ensures T.Doomed(states[n + 1].queue, id) <==> !Queued(states[n], id)
  {
    hide T.Inv, W.Inv, LogAgrees, T.Apply, T.AssertsHold, T.Doomed, W.Apply, Init;
    RunKeepsInv(states, steps, n);
    TimersCanMove(states[n], steps[n]);
    QueuedIsGenuine(states[n], id);
    T.CancelDooms(states[n].queue, id);
  }

  lemma QueuedIsGenuine(s: State, id: T.TimerId)
    requires Inv(s) && Returned(s, id)
    ensures T.Genuine(s.queue, id) && (Queued(s, id) <==> Uninserted(s.queue, id))
  {}

  // ----- messages from other threads keep their order -----------------------

  function Actions(log: seq<Entry>): seq<C.Action> {
    seq(|log|, i requires 0 <= i < |log| => log[i].action)
  }

  // The messages that get through in the first k entries
  function Sent(log: seq<Entry>, k: nat): seq<seq<Buffers.Byte>>
    requires k <= |log|
  {
    C.Through(Actions(log[..k]), 0)
  }

  // The message of entry k gets through
  predicate Passes(log: seq<Entry>, k: nat)
    requires k < |log|
  {
    C.Passed(log[k].action, C.Waiting(Actions(log[..k]), 0)) != []
  }

  lemma SentAppend(log: seq<Entry>, k: nat)
    requires k < |log|
    ensures Sent(log, k + 1) == Sent(log, k) + C.Passed(log[k].action, C.Waiting(Actions(log[..k]), 0))
  {
    C.RunAppend(Actions(log[..k]), log[k].action, 0);
    assert Actions(log[..k + 1]) == Actions(log[..k]) + [log[k].action];
  }

  lemma {:induction false} SentIsPrefix(log: seq<Entry>, k: nat, m: nat)
    requires k <= m <= |log|
    ensures Sent(log, k) <= Sent(log, m)
    decreases m
  {
    hide Sent;
    if k < m {
      SentIsPrefix(log, k, m - 1);
      SentAppend(log, m - 1);
    }
  }

  // Of two messages queued one after the other, if the second has reached the
  // connection so has the first, before it; and in the stream of messages that
  // get through, each that does comes at its place, the first before the second.
  lemma SendsKeepTheirOrder(states: seq<State>, steps: seq<Step>, n: nat, i: nat, j: nat) returns (x: nat, y: nat)
    requires IsRun(states, steps) && n < |states| && i < j < |states[n].work|
    requires states[n].work[i].SendMessage? && InLog(states[n].log, j)
    ensures var log, work := states[n].log, states[n].work;
            && x < y < |log| && work[j].SendMessage?
            && log[x] == Entry(C.DoSend(work[i].s), Some(i)) && log[y] == Entry(C.DoSend(work[j].s), Some(j))
            && var sent, u, v := Sent(log, |log|), |Sent(log, x)|, |Sent(log, y)|;
               && u <= v <= |sent|
               && (Passes(log, x) ==> u < v && sent[u] == work[i].s.dat)
               && (Passes(log, y) ==> v < |sent| && sent[v] == work[j].s.dat)
  {
    hide T.Inv, W.Inv, WorkAgrees, Sent, Passes, Enabled, Apply, Init;
    RunKeepsInv(states, steps, n);
    var log := states[n].log;
    y :| 0 <= y < |log| && log[y].task == Some(j);
    assert InLog(log, i);
    x :| 0 <= x < |log| && log[x].task == Some(i);
    SentInOrder(log, x, y);
  }

  lemma SentInOrder(log: seq<Entry>, x: nat, y: nat)
    requires x < y < |log| && log[x].action.DoSend? && log[y].action.DoSend?
    ensures var sent, u, v := Sent(log, |log|), |Sent(log, x)|, |Sent(log, y)|;
            && u <= v <= |sent|
            && (Passes(log, x) ==> u < v && sent[u] == log[x].action.s.dat)
            && (Passes(log, y) ==> v < |sent| && sent[v] == log[y].action.s.dat)
  {
    hide Sent;
    SentAppend(log, x);
    SentAppend(log, y);
    SentIsPrefix(log, x + 1, y);
    SentIsPrefix(log, y + 1, |log|);
  }

  // While the connection is open no message is passed over: each whose task has run has reached it
  lemma NoSendIsPassedOver(states: seq<State>, steps: seq<Step>, n: nat, i: nat)
    requires IsRun(states, steps) && n < |states| && states[n].connected
    requires i < |states[n].work| && states[n].work[i].SendMessage?
    ensures InLog(states[n].log, i) <==> i < |states[n].loop.done|
  {
    hide T.Inv, W.Inv, WorkAgrees;
    RunKeepsInv(states, steps, n);
  }

  // What happens to the output keeps its place in the log; after the connection is closed nothing is added
  lemma {:induction false} LogIsKept(states: seq<State>, steps: seq<Step>, m: nat, n: nat)
    requires IsRun(states, steps) && m <= n < |states|
    ensures states[m].log <= states[n].log && (states[n].connected ==> states[m].connected)
    ensures !states[m].connected ==> states[n].log == states[m].log
    decreases n
  {
    hide W.Apply, W.Enabled, Take;
    if m < n {
      LogIsKept(states, steps, m, n - 1);
      assert Enabled(states[n - 1], steps[n - 1]) && states[n] == Apply(states[n - 1], steps[n - 1]);
    }
  }

  lemma OutputIsLogged(states: seq<State>, steps: seq<Step>, i: nat, n: nat)
    requires IsRun(states, steps) && i < n < |states|
    ensures steps[i].OnOutput? ==>
              |states[i].log| < |states[n].log| && states[n].log[|states[i].log|] == Entry(steps[i].action, None)
    ensures steps[i].Disconnect? ==> !states[n].connected && states[n].log == states[i].log
  {
    hide W.Apply, W.Enabled, Take;
    assert Enabled(states[i], steps[i]) && states[i + 1] == Apply(states[i], steps[i]);
    LogIsKept(states, steps, i + 1, n);
  }
}
