/**
 The life of a server connection, from accept to the reuse of its descriptor
 (src/tcp_server.cc, src/tcp_connection.cc, src/epoller.cc).

 Accept runs on the server's loop, reading and closing on the connection's home
 loop, and removal hops between the two as queued tasks.  The system is a state
 machine: one step per action that another thread can observe.  A connection is
 destroyed, and its descriptor becomes free for the next accept, once nothing
 holds a strong reference to it.

 The steps never assume what the C++ code asserts: `AssertsHold` collects those
 assertions and the bounds of its indexes, a failed one may lead anywhere, and the
 main theorem says exactly at which steps one can fail.
 */
module ConnectionLifetime {
  import opened Basics
  import opened ConnStates

  type ConnId = nat
  type LoopId = nat

  // The loop that owns the TCPServer and its acceptors.
  const SERVER: LoopId := 0

  // The size of Epoller::channels_, which never grows, and the first size of the server's table, which does
  const POLLER_SIZE: nat := 1024 * 1024
  const TABLE_SIZE: nat := 1024 * 1024

  // Where a connection is in its life.  It refines state_, splitting
  // DISCONNECTING by which thread moves next; no step branches on more than
  // `StateOf` it.
  datatype Phase = Opening | Up | Closing | Removing | Destroying | Gone

  function StateOf(p: Phase): ConnState {
    match p
    case Opening => Connecting
    case Up => Connected
    case Closing | Removing | Destroying => Disconnecting
    case Gone => Disconnected
  }

  datatype Conn = Conn(fd: nat, home: LoopId, phase: Phase)

  // A queued closure; each one owns a strong reference to its connection.
  // `Carry` stands for those that do not touch the life cycle: SendInLoop,
  // ShutdownWriteInLoop, write-complete and high-water-mark callbacks.
  datatype Task =
    | Establish(conn: ConnId)
    | ForceClose(conn: ConnId)
    | Carry(conn: ConnId)
    | Remove(conn: ConnId)
    | Destroy(conn: ConnId)

  // An occupied entry of channels_; `watched` says that the event mask is non-empty.
  datatype Slot = Slot(conn: ConnId, watched: bool)

  type Conns = map<ConnId, Conn>
  type Channels = map<(LoopId, nat), Slot>

  // Per loop: the task queue, the unexecuted and the executed part of the batch
  // being drained (both keep their references until the batch ends), the rest of
  // the channels reported by the last poll, and the connection whose HandleClose
  // is on the stack.  `forcing` holds the calls of ForceClose that have tested
  // state_ and not yet queued their task, `users` the references held by
  // application code.  The three multisets record every HandleClose,
  // disconnection callback and removal.
  datatype State = State(
    queue: seq<seq<Task>>,
    batch: seq<seq<Task>>,
    ran: seq<seq<Task>>,
    active: seq<seq<ConnId>>,
    closing: seq<Option<ConnId>>,
    channels: Channels,
    conns: Conns,
    live: set<ConnId>,
    nextId: ConnId,
    table: map<nat, ConnId>,
    tableSize: nat,
    count: int,
    users: set<ConnId>,
    forcing: multiset<ConnId>,
    closes: multiset<ConnId>,
    notices: multiset<ConnId>,
    removals: multiset<ConnId>)
  {
    // The loops are numbered; every per-loop field has one entry for each.
    predicate Sized() {
      0 < |queue| == |batch| == |ran| == |active| == |closing|
    }

    predicate IsLoop(l: LoopId) {
      Sized() && l < |queue|
    }

    predicate Known(c: ConnId) {
      c in conns && IsLoop(conns[c].home)
    }
  }

  datatype Step =
    | Accept(fd: nat, home: LoopId)
    | Poll(loop: LoopId, report: seq<ConnId>)
    | DispatchData(loop: LoopId)
    | DispatchClose(loop: LoopId, writes: bool) // end of file or hang-up; whether HandleWrite follows
    | FinishClose(loop: LoopId)
    | Swap(loop: LoopId)
    | RunTask(loop: LoopId)
    | EndBatch(loop: LoopId)
    | ForceCheck(conn: ConnId)
    | ForcePush(conn: ConnId)
    | PushCarry(conn: ConnId)
    | UserTake(conn: ConnId)
    | UserDrop(conn: ConnId)
    | Release(conn: ConnId)

  // TCPServer::TCPServer and EventLoopThreadPool::Start
  predicate Init(s: State) {
    && s.Sized()
    && (forall l | 0 <= l < |s.queue| ::
          s.queue[l] == [] && s.batch[l] == [] && s.ran[l] == [] && s.active[l] == [] && s.closing[l] == None)
    && s.channels == map[] && s.conns == map[] && s.live == {} && s.nextId == 0
    && s.table == map[] && s.tableSize == TABLE_SIZE && s.count == 0
    && s.users == {} && s.forcing == multiset{}
    && s.closes == multiset{} && s.notices == multiset{} && s.removals == multiset{}
  }

  // ----- references ---------------------------------------------------------

  predicate InTable(s: State, c: ConnId) {
    c in s.conns && s.conns[c].fd in s.table && s.table[s.conns[c].fd] == c
  }

  predicate Carries(tasks: seq<Task>, c: ConnId) {
    exists t | t in tasks :: t.conn == c
  }

  predicate LoopHolds(s: State, l: LoopId, c: ConnId)
    requires s.IsLoop(l)
  {
    || s.closing[l] == Some(c)
    || Carries(s.queue[l], c) || Carries(s.batch[l], c) || Carries(s.ran[l], c)
  }

  predicate Referenced(s: State, c: ConnId)
    requires s.Sized()
  {
    || InTable(s, c) || c in s.users || c in s.forcing
    || (exists l | 0 <= l < |s.queue| :: LoopHolds(s, l, c))
  }

  // ----- the actions of the source ------------------------------------------

  function Push(s: State, l: LoopId, t: Task): State
    requires s.IsLoop(l)
  {
    s.(queue := s.queue[l := s.queue[l] + [t]])
  }

  function Advance(conns: Conns, c: ConnId, p: Phase): Conns
    requires c in conns
  {
    conns[c := conns[c].(phase := p)]
  }

  // TCPConnection::ConnectionEstablished
  function Established(s: State, c: ConnId): State
    requires s.Known(c)
  {
    s.(conns := Advance(s.conns, c, Up),
       channels := s.channels[(s.conns[c].home, s.conns[c].fd) := Slot(c, true)])
  }

  // TCPConnection::HandleClose up to the disconnection callback
  function CloseBegun(s: State, c: ConnId): State
    requires s.Known(c)
  {
    s.(conns := Advance(s.conns, c, Closing),
       channels := s.channels[(s.conns[c].home, s.conns[c].fd) := Slot(c, false)],
       closing := s.closing[s.conns[c].home := Some(c)],
       closes := s.closes + multiset{c})
  }

  // TCPConnection::ConnectionDestroy
  function Destroyed(s: State, c: ConnId): State
    requires s.Known(c)
  {
    s.(conns := Advance(s.conns, c, Gone), channels := s.channels - {(s.conns[c].home, s.conns[c].fd)})
  }

  // TCPServer::OnConnectionRemoveInLoop; RunInLoop is a direct call on the server's own loop
  function Removed(s: State, c: ConnId): State
    requires s.Known(c)
  {
    var t := s.(conns := Advance(s.conns, c, Destroying), table := s.table - {s.conns[c].fd},
                count := s.count - 1, removals := s.removals + multiset{c});
    if s.conns[c].home == SERVER then Destroyed(t, c) else Push(t, s.conns[c].home, Destroy(c))
  }

  // The rest of HandleClose: the disconnection callback, then TCPServer::OnConnectionRemove
  function CloseFinished(s: State, c: ConnId): State
    requires s.Known(c)
  {
    var t := s.(conns := Advance(s.conns, c, Removing), closing := s.closing[s.conns[c].home := None],
                notices := s.notices + multiset{c});
    if s.conns[c].home == SERVER then Removed(t, c) else Push(t, SERVER, Remove(c))
  }

  // TCPServer::OnNewConnection with AddConnListItem
  function Accepted(s: State, fd: nat, home: LoopId): State
    requires s.IsLoop(home)
  {
    var c := s.nextId;
    var t := s.(conns := s.conns[c := Conn(fd, home, Opening)], live := s.live + {c}, nextId := c + 1,
                tableSize := if s.tableSize <= fd then 2 * s.tableSize else s.tableSize,
                table := s.table[fd := c], count := s.count + 1);
    if home == SERVER then Established(t, c) else Push(t, home, Establish(c))
  }

  // One task of the batch
  function TaskRun(s: State, t: Task): State
    requires s.Known(t.conn)
  {
    match t
    case Establish(c) => Established(s, c)
    case ForceClose(c) => // ForceCloseInLoop
      var st := StateOf(s.conns[c].phase);
      if st.Disconnecting? || st.Disconnected? then s else CloseBegun(s, c)
    case Carry(_) => s
    case Remove(c) => Removed(s, c)
    case Destroy(c) => Destroyed(s, c)
  }

  // ----- when a step can happen ---------------------------------------------

  // No HandleClose is on the stack of the loop's thread
  predicate Idle(s: State, l: LoopId) {
    s.IsLoop(l) && s.closing[l] == None
  }

  predicate Watched(s: State, l: LoopId, c: ConnId) {
    c in s.conns && (l, s.conns[c].fd) in s.channels && s.channels[(l, s.conns[c].fd)] == Slot(c, true)
  }

  predicate Distinct(cs: seq<ConnId>) {
    forall i, j | 0 <= i < j < |cs| :: cs[i] != cs[j]
  }

  predicate Enabled(s: State, step: Step) {
    match step
    case Accept(fd, home) =>
      // the kernel hands out a descriptor that is not open
      && Idle(s, SERVER) && s.IsLoop(home) && 0 < fd
      && (forall c | c in s.live && c in s.conns :: s.conns[c].fd != fd)
    case Poll(l, report) =>
      && Idle(s, l) && s.batch[l] == [] && s.active[l] == []
      && Distinct(report) && (forall c | c in report :: Watched(s, l, c))
    case DispatchData(l) => Idle(s, l) && s.active[l] != []
    case DispatchClose(l, _) => Idle(s, l) && s.active[l] != []
    case FinishClose(l) => s.IsLoop(l) && s.closing[l].Some?
    case Swap(l) => Idle(s, l) && s.active[l] == [] && s.batch[l] == [] && s.ran[l] == []
    case RunTask(l) => Idle(s, l) && s.batch[l] != []
    case EndBatch(l) => Idle(s, l) && s.batch[l] == []
    case ForceCheck(c) => s.Known(c) && Referenced(s, c)
    case ForcePush(c) => s.Known(c) && c in s.forcing
    case PushCarry(c) => s.Known(c) && Referenced(s, c)
    case UserTake(c) => s.Known(c) && Referenced(s, c)
    case UserDrop(c) => c in s.users
    case Release(c) => s.Sized() && c in s.live && !Referenced(s, c)
  }

  // ----- what the source asserts at each step -------------------------------

  // DisableAll on a kAdded channel, Epoller::UpdateChannel
  predicate MayDisable(s: State, l: LoopId, c: ConnId) {
    s.Known(c) && s.conns[c].home == l && Watched(s, l, c)
  }

  // AssertInLoopThread, and Epoller::RemoveChannel on a kDel channel
  predicate MayDestroy(s: State, l: LoopId, c: ConnId) {
    && s.Known(c) && s.conns[c].home == l
    && (l, s.conns[c].fd) in s.channels && s.channels[(l, s.conns[c].fd)] == Slot(c, false)
  }

  // AssertInLoopThread, the "not exist" branch of DelConnListItem, and the inlined destruction
  predicate MayRemove(s: State, l: LoopId, c: ConnId) {
    l == SERVER && InTable(s, c) && s.Known(c) && (s.conns[c].home == SERVER ==> MayDestroy(s, l, c))
  }

  // AssertInLoopThread, the index of Epoller::UpdateChannel and its "already add" branch
  predicate MayEstablish(s: State, l: LoopId, c: ConnId) {
    s.Known(c) && s.conns[c].home == l && s.conns[c].fd < POLLER_SIZE && (l, s.conns[c].fd) !in s.channels
  }

  // The raw Channel* in the active list is alive, and HandleRead finds CONNECTED
  predicate Dispatchable(s: State, l: LoopId, c: ConnId) {
    c in s.live && s.Known(c) && StateOf(s.conns[c].phase) == Connected && s.conns[c].home == l
  }

  predicate TaskAssertsHold(s: State, l: LoopId, t: Task) {
    match t
    case Establish(c) => MayEstablish(s, l, c)
    case ForceClose(c) =>
      && s.Known(c) && s.conns[c].home == l && StateOf(s.conns[c].phase) != Connecting
      && (StateOf(s.conns[c].phase) == Connected ==> MayDisable(s, l, c))
    case Carry(c) => s.Known(c) && s.conns[c].home == l
    case Remove(c) => MayRemove(s, l, c)
    case Destroy(c) => MayDestroy(s, l, c)
  }

  predicate AssertsHold(s: State, step: Step)
    requires Enabled(s, step)
  {
    match step
    case Accept(fd, home) =>
      // the destructor of a connection that AddConnListItem turns away, which is still
      // CONNECTING, the index of AddConnListItem, its "already exist" branch, and the
      // index and the slot of the pollers
      && fd < 2 * s.tableSize && (home == SERVER ==> fd < POLLER_SIZE)
      && fd !in s.table && (forall l | 0 <= l < |s.queue| :: (l, fd) !in s.channels)
    case DispatchData(l) => Dispatchable(s, l, s.active[l][0])
    case DispatchClose(l, writes) =>
      // HandleWrite asserts CONNECTED, which the close has just ended
      Dispatchable(s, l, s.active[l][0]) && MayDisable(s, l, s.active[l][0]) && !writes
    case FinishClose(l) =>
      var c := s.closing[l].value;
      s.Known(c) && s.conns[c].home == l && (l == SERVER ==> MayRemove(s, l, c))
    case RunTask(l) => TaskAssertsHold(s, l, s.batch[l][0])
    case Release(c) => c in s.conns && StateOf(s.conns[c].phase) == Disconnected // ~TCPConnection
    case _ => true
  }

  // ----- what each step does ------------------------------------------------

  function Apply(s: State, step: Step): State
    requires Enabled(s, step) && AssertsHold(s, step)
  {
    match step
    case Accept(fd, home) => Accepted(s, fd, home)
    case Poll(l, report) => s.(active := s.active[l := report])
    case DispatchData(l) => s.(active := s.active[l := s.active[l][1..]])
    case DispatchClose(l, _) => CloseBegun(s.(active := s.active[l := s.active[l][1..]]), s.active[l][0])
    case FinishClose(l) => CloseFinished(s, s.closing[l].value)
    case Swap(l) => s.(batch := s.batch[l := s.queue[l]], queue := s.queue[l := []])
    case RunTask(l) => TaskRun(Popped(s, l), s.batch[l][0])
    case EndBatch(l) => s.(ran := s.ran[l := []])
    case ForceCheck(c) =>
      if StateOf(s.conns[c].phase) == Connected then s.(forcing := s.forcing + multiset{c}) else s
    case ForcePush(c) => Push(s.(forcing := s.forcing - multiset{c}), s.conns[c].home, ForceClose(c))
    case PushCarry(c) => Push(s, s.conns[c].home, Carry(c))
    case UserTake(c) => s.(users := s.users + {c})
    case UserDrop(c) => s.(users := s.users - {c})
    case Release(c) => s.(live := s.live - {c})
  }

  function Popped(s: State, l: LoopId): State
    requires s.IsLoop(l) && s.batch[l] != []
  {
    s.(batch := s.batch[l := s.batch[l][1..]], ran := s.ran[l := s.ran[l] + [s.batch[l][0]]])
  }

  // ----- which steps fit ----------------------------------------------------

  // A connection being established fits into its poller
  predicate TaskFits(s: State, t: Task) {
    t.Establish? && t.conn in s.conns ==> s.conns[t.conn].fd < POLLER_SIZE
  }

  // The descriptor fits into the tables, and a closing dispatch runs no write handler after it
  predicate Fits(s: State, step: Step) {
    match step
    case Accept(fd, home) => fd < 2 * s.tableSize && (home == SERVER ==> fd < POLLER_SIZE)
    case DispatchClose(_, writes) => !writes
    case RunTask(l) => s.IsLoop(l) && s.batch[l] != [] ==> TaskFits(s, s.batch[l][0])
    case _ => true
  }

  // ----- the invariant ------------------------------------------------------

  predicate At(conns: Conns, c: ConnId, p: Phase) {
    c in conns && conns[c].phase == p
  }

  ghost predicate ConnsAgree(loops: nat, conns: Conns, live: set<ConnId>, nextId: ConnId) {
    && (forall c: ConnId :: c in conns <==> c < nextId)
    && live <= conns.Keys
    && (forall c | c in conns :: conns[c].home < loops)
    && (forall c, d | c in live && d in live && conns[c].fd == conns[d].fd :: c == d)
    && (forall c | c in conns && c !in live :: conns[c].phase == Gone)
    && (forall c | c in conns && conns[c].home == SERVER :: !Remote(conns[c].phase))
  }

  // The phases in which another loop has a task to run; on the server's own loop they pass in one step
  predicate Remote(p: Phase) {
    p.Opening? || p.Removing? || p.Destroying?
  }

  // The server's table lists exactly the connections that have not been removed
  predicate TableAgrees(conns: Conns, live: set<ConnId>, table: map<nat, ConnId>, tableSize: nat) {
    && TABLE_SIZE <= tableSize
    && (forall fd | fd in table ::
          && fd < tableSize && table[fd] in live && table[fd] in conns && conns[table[fd]].fd == fd
          && !conns[table[fd]].phase.Destroying? && !conns[table[fd]].phase.Gone?)
    && (forall c | c in conns && !conns[c].phase.Destroying? && !conns[c].phase.Gone? ::
          conns[c].fd in table && table[conns[c].fd] == c)
  }

  // The pollers' tables hold exactly the established and not yet destroyed connections
  predicate ChannelsAgree(conns: Conns, live: set<ConnId>, channels: Channels) {
    && (forall k | k in channels ::
          && channels[k].conn in live && channels[k].conn in conns
          && k == (conns[channels[k].conn].home, conns[channels[k].conn].fd)
          && !conns[channels[k].conn].phase.Opening? && !conns[channels[k].conn].phase.Gone?
          && channels[k].watched == conns[channels[k].conn].phase.Up?)
    && (forall c | c in conns && !conns[c].phase.Opening? && !conns[c].phase.Gone? ::
          (conns[c].home, conns[c].fd) in channels && channels[(conns[c].home, conns[c].fd)].conn == c)
  }

  predicate ClosingAgrees(conns: Conns, closing: seq<Option<ConnId>>) {
    && (forall l | 0 <= l < |closing| && closing[l].Some? ::
          At(conns, closing[l].value, Closing) && conns[closing[l].value].home == l)
    && (forall c | c in conns && conns[c].phase == Closing ::
          conns[c].home < |closing| && closing[conns[c].home] == Some(c))
  }

  // A reported channel stays connected until its turn: nothing closes it while the report is worked off
  predicate ActiveAgrees(conns: Conns, active: seq<seq<ConnId>>, batch: seq<seq<Task>>) {
    && |active| == |batch|
    && (forall l | 0 <= l < |active| :: Distinct(active[l]) && (active[l] != [] ==> batch[l] == []))
    && (forall l, i | 0 <= l < |active| && 0 <= i < |active[l]| ::
          At(conns, active[l][i], Up) && conns[active[l][i]].home == l)
  }

  function Pending(queue: seq<Task>, batch: seq<Task>): multiset<Task> {
    multiset(queue) + multiset(batch)
  }

  // The life-cycle task t is due on loop l
  predicate Due(conns: Conns, l: LoopId, t: Task) {
    match t
    case Establish(c) => At(conns, c, Opening) && conns[c].home == l
    case Remove(c) => At(conns, c, Removing) && l == SERVER
    case Destroy(c) => At(conns, c, Destroying) && conns[c].home == l
    case _ => false
  }

  // A task that any holder of a reference may queue
  predicate Neutral(t: Task) {
    t.ForceClose? || t.Carry?
  }

  predicate Placed(conns: Conns, l: LoopId, t: Task) {
    t.conn in conns && conns[t.conn].home == l && (t.ForceClose? ==> !conns[t.conn].phase.Opening?)
  }

  // Every step of the life cycle is queued once, on the right loop, exactly when it is due
  ghost predicate LoopTasksAgree(conns: Conns, pending: multiset<Task>, l: LoopId) {
    && (forall t | !Neutral(t) :: pending[t] == One(Due(conns, l, t)))
    && (forall t | Neutral(t) && t in pending :: Placed(conns, l, t))
  }

  ghost predicate TasksAgree(conns: Conns, queue: seq<seq<Task>>, batch: seq<seq<Task>>) {
    && |queue| == |batch|
    && (forall l | 0 <= l < |queue| :: LoopTasksAgree(conns, Pending(queue[l], batch[l]), l))
  }

  // HandleClose, the disconnection callback and the removal have run once each, or not yet
  ghost predicate HistoryAgrees(conns: Conns, closes: multiset<ConnId>, notices: multiset<ConnId>,
                                removals: multiset<ConnId>)
  {
    forall c: ConnId ::
      && closes[c] == One(c in conns && !conns[c].phase.Opening? && !conns[c].phase.Up?)
      && notices[c] == One(At(conns, c, Removing) || At(conns, c, Destroying) || At(conns, c, Gone))
      && removals[c] == One(At(conns, c, Destroying) || At(conns, c, Gone))
  }

  ghost predicate ForcingAgrees(conns: Conns, forcing: multiset<ConnId>) {
    forall c | c in forcing :: c in conns && !conns[c].phase.Opening?
  }

  ghost predicate Inv(s: State) {
    && s.Sized()
    && ConnsAgree(|s.queue|, s.conns, s.live, s.nextId)
    && TableAgrees(s.conns, s.live, s.table, s.tableSize) && s.count == |s.table|
    && ChannelsAgree(s.conns, s.live, s.channels)
    && ClosingAgrees(s.conns, s.closing)
    && ActiveAgrees(s.conns, s.active, s.batch)
    && TasksAgree(s.conns, s.queue, s.batch)
    && HistoryAgrees(s.conns, s.closes, s.notices, s.removals)
    && ForcingAgrees(s.conns, s.forcing)
  }

  // ----- every step keeps the invariant -------------------------------------

  lemma InitInv(s: State)
    requires Init(s)
    ensures Inv(s)
  {
    forall l | 0 <= l < |s.queue| ensures LoopTasksAgree(s.conns, Pending(s.queue[l], s.batch[l]), l) {
      assert Pending(s.queue[l], s.batch[l]) == multiset{};
    }
  }

  // A task taken from a batch is neutral or due, and its connection is where the task expects it
  lemma TaskIsDue(s: State, l: LoopId)
    requires Inv(s) && s.IsLoop(l) && s.batch[l] != []
    ensures var t := s.batch[l][0]; if Neutral(t) then Placed(s.conns, l, t) else Due(s.conns, l, t)
    ensures s.Known(s.batch[l][0].conn)
  {
    hide TableAgrees, ChannelsAgree, ClosingAgrees, ActiveAgrees, HistoryAgrees, ForcingAgrees;
    assert s.batch[l][0] in Pending(s.queue[l], s.batch[l]);
    assert LoopTasksAgree(s.conns, Pending(s.queue[l], s.batch[l]), l);
  }

  lemma TaskAssertsFollow(s: State, l: LoopId)
    requires Inv(s) && s.IsLoop(l) && s.batch[l] != []
    ensures TaskAssertsHold(s, l, s.batch[l][0]) <==> TaskFits(s, s.batch[l][0])
    ensures !Neutral(s.batch[l][0]) ==> s.batch[l][0].conn in s.live
    ensures s.batch[l][0].Remove? ==> s.conns[s.batch[l][0].conn].home != SERVER
  {
    hide ActiveAgrees, HistoryAgrees, ForcingAgrees, ClosingAgrees, TasksAgree;
    TaskIsDue(s, l);
  }

  // A connection is held until it is destroyed: by the table, then by the queued Destroy
  lemma HeldUntilGone(s: State, c: ConnId)
    requires Inv(s) && c in s.conns && s.conns[c].phase != Gone
    ensures Referenced(s, c)
  {
    hide ChannelsAgree, ClosingAgrees, ActiveAgrees, HistoryAgrees, ForcingAgrees;
    if s.conns[c].phase == Destroying {
      var l := s.conns[c].home;
      assert LoopTasksAgree(s.conns, Pending(s.queue[l], s.batch[l]), l);
      assert Due(s.conns, l, Destroy(c));
      assert Destroy(c) in s.queue[l] || Destroy(c) in s.batch[l];
      assert LoopHolds(s, l, c);
    }
  }

  lemma AcceptAssertsFollow(s: State, fd: nat)
    requires Inv(s) && forall c | c in s.live && c in s.conns :: s.conns[c].fd != fd
    ensures fd !in s.table && forall l: LoopId :: (l, fd) !in s.channels
  {
    hide ClosingAgrees, ActiveAgrees, TasksAgree, HistoryAgrees, ForcingAgrees;
  }

  lemma DispatchAssertsFollow(s: State, l: LoopId)
    requires Inv(s) && s.IsLoop(l) && s.active[l] != []
    ensures Dispatchable(s, l, s.active[l][0]) && MayDisable(s, l, s.active[l][0])
  {
    hide TableAgrees, ClosingAgrees, TasksAgree, HistoryAgrees, ForcingAgrees;
    assert At(s.conns, s.active[l][0], Up);
  }

  lemma FinishAssertsFollow(s: State, l: LoopId)
    requires Inv(s) && s.IsLoop(l) && s.closing[l].Some?
    ensures var c := s.closing[l].value;
            && At(s.conns, c, Closing) && c in s.live && s.Known(c) && s.conns[c].home == l
            && (l == SERVER ==> MayRemove(s, l, c))
  {
    hide ActiveAgrees, TasksAgree, HistoryAgrees, ForcingAgrees;
  }

  lemma AssertsFollow(s: State, step: Step)
    requires Inv(s) && Enabled(s, step)
    ensures AssertsHold(s, step) <==> Fits(s, step)
  {
    hide Inv, TaskAssertsHold, TaskFits, Referenced, MayRemove, MayDisable, Dispatchable;
    match step
    case Accept(fd, _) => AcceptAssertsFollow(s, fd);
    case DispatchData(l) => DispatchAssertsFollow(s, l);
    case DispatchClose(l, _) => DispatchAssertsFollow(s, l);
    case FinishClose(l) => FinishAssertsFollow(s, l);
    case RunTask(l) => TaskAssertsFollow(s, l);
    case Release(c) => ReleaseAssertsFollow(s, c);
    case _ =>
  }

  lemma ReleaseAssertsFollow(s: State, c: ConnId)
    requires Inv(s) && c in s.live && !Referenced(s, c)
    ensures c in s.conns && s.conns[c].phase == Gone
  {
    assert c in s.conns;
    hide ConnsAgree, TableAgrees, ChannelsAgree, ClosingAgrees, ActiveAgrees, TasksAgree, HistoryAgrees, ForcingAgrees;
    if s.conns[c].phase != Gone {
      HeldUntilGone(s, c);
    }
  }

  // --- moving connection c to phase q leaves each part of the invariant that
  //     does not tell the two phases apart

  lemma AdvanceConns(loops: nat, conns: Conns, live: set<ConnId>, nextId: ConnId, c: ConnId, q: Phase)
    requires ConnsAgree(loops, conns, live, nextId) && c in live && (conns[c].home == SERVER ==> !Remote(q))
    ensures ConnsAgree(loops, Advance(conns, c, q), live, nextId)
  {}

  predicate NotActive(active: seq<seq<ConnId>>, c: ConnId) {
    forall l | 0 <= l < |active| :: c !in active[l]
  }

  lemma AdvanceActive(conns: Conns, active: seq<seq<ConnId>>, batch: seq<seq<Task>>, c: ConnId, q: Phase)
    requires ActiveAgrees(conns, active, batch) && c in conns
    requires conns[c].phase.Up? ==> NotActive(active, c)
    ensures ActiveAgrees(Advance(conns, c, q), active, batch)
  {}

  lemma AdvanceTable(conns: Conns, live: set<ConnId>, table: map<nat, ConnId>, tableSize: nat, c: ConnId, q: Phase)
    requires TableAgrees(conns, live, table, tableSize) && c in conns
    requires (conns[c].phase.Destroying? || conns[c].phase.Gone?) == (q.Destroying? || q.Gone?)
    ensures TableAgrees(Advance(conns, c, q), live, table, tableSize)
  {}

  lemma AdvanceForcing(conns: Conns, forcing: multiset<ConnId>, c: ConnId, q: Phase)
    requires ForcingAgrees(conns, forcing) && c in conns && !q.Opening?
    ensures ForcingAgrees(Advance(conns, c, q), forcing)
  {}

  lemma AdvanceClosing(conns: Conns, closing: seq<Option<ConnId>>, c: ConnId, q: Phase)
    requires ClosingAgrees(conns, closing) && c in conns && !conns[c].phase.Closing? && !q.Closing?
    ensures ClosingAgrees(Advance(conns, c, q), closing)
  {}

  lemma AdvanceChannels(conns: Conns, live: set<ConnId>, channels: Channels, c: ConnId, q: Phase)
    requires ChannelsAgree(conns, live, channels) && c in conns
    requires conns[c].phase.Closing? || conns[c].phase.Removing? || conns[c].phase.Destroying?
    requires q.Closing? || q.Removing? || q.Destroying?
    ensures ChannelsAgree(Advance(conns, c, q), live, channels)
  {}

  // The task that is due on loop l while connection c is in phase q
  function Owed(conns: Conns, c: ConnId, q: Phase, l: LoopId): multiset<Task>
    requires c in conns
  {
    match q
    case Opening => if conns[c].home == l then multiset{Establish(c)} else multiset{}
    case Removing => if SERVER == l then multiset{Remove(c)} else multiset{}
    case Destroying => if conns[c].home == l then multiset{Destroy(c)} else multiset{}
    case _ => multiset{}
  }

  lemma OwedIsDue(conns: Conns, c: ConnId, q: Phase, l: LoopId, u: Task)
    requires c in conns && !Neutral(u)
    ensures Owed(conns, c, q, l)[u] == if u.conn == c then One(Due(Advance(conns, c, q), l, u)) else 0
  {}

  lemma MoveLoopTasks(conns: Conns, pending: multiset<Task>, c: ConnId, q: Phase, l: LoopId)
    requires LoopTasksAgree(conns, pending, l) && c in conns && !q.Opening?
    ensures LoopTasksAgree(Advance(conns, c, q), pending - Owed(conns, c, conns[c].phase, l) + Owed(conns, c, q, l), l)
  {
    var conns', pending' := Advance(conns, c, q), pending - Owed(conns, c, conns[c].phase, l) + Owed(conns, c, q, l);
    assert Advance(conns, c, conns[c].phase) == conns;
    forall u | !Neutral(u) ensures pending'[u] == One(Due(conns', l, u)) {
      hide Owed;
      assert pending[u] == One(Due(conns, l, u));
      OwedIsDue(conns, c, conns[c].phase, l, u);
      OwedIsDue(conns, c, q, l, u);
      assert u.conn != c ==> Due(conns', l, u) == Due(conns, l, u);
      hide Due;
    }
    forall u | Neutral(u) && u in pending' ensures Placed(conns', l, u) {
      assert u in pending;
    }
  }

  // Queues that drop the task owed by the old phase and gain the one owed by the new
  ghost predicate Moved(conns: Conns, c: ConnId, q: Phase, queue: seq<seq<Task>>, batch: seq<seq<Task>>,
                        queue': seq<seq<Task>>, batch': seq<seq<Task>>)
    requires c in conns && |queue| == |batch|
  {
    && |queue'| == |batch'| == |queue|
    && (forall l | 0 <= l < |queue| ::
          Pending(queue'[l], batch'[l]) ==
          Pending(queue[l], batch[l]) - Owed(conns, c, conns[c].phase, l) + Owed(conns, c, q, l))
  }

  lemma MoveTasks(conns: Conns, c: ConnId, q: Phase, queue: seq<seq<Task>>, batch: seq<seq<Task>>,
                  queue': seq<seq<Task>>, batch': seq<seq<Task>>)
    requires TasksAgree(conns, queue, batch) && c in conns && !q.Opening?
    requires Moved(conns, c, q, queue, batch, queue', batch')
    ensures TasksAgree(Advance(conns, c, q), queue', batch')
  {
    hide LoopTasksAgree;
    forall l | 0 <= l < |queue| ensures LoopTasksAgree(Advance(conns, c, q), Pending(queue'[l], batch'[l]), l) {
      MoveLoopTasks(conns, Pending(queue[l], batch[l]), c, q, l);
    }
  }

  // --- HandleClose

  lemma CloseChannels(conns: Conns, live: set<ConnId>, channels: Channels, c: ConnId)
    requires ChannelsAgree(conns, live, channels) && At(conns, c, Up)
    ensures ChannelsAgree(Advance(conns, c, Closing), live, channels[(conns[c].home, conns[c].fd) := Slot(c, false)])
  {}

  lemma CloseClosing(conns: Conns, closing: seq<Option<ConnId>>, c: ConnId)
    requires ClosingAgrees(conns, closing) && At(conns, c, Up)
    requires conns[c].home < |closing| && closing[conns[c].home] == None
    ensures ClosingAgrees(Advance(conns, c, Closing), closing[conns[c].home := Some(c)])
  {}

  lemma CloseHistory(conns: Conns, closes: multiset<ConnId>, notices: multiset<ConnId>, removals: multiset<ConnId>,
                     c: ConnId)
    requires HistoryAgrees(conns, closes, notices, removals) && At(conns, c, Up)
    ensures HistoryAgrees(Advance(conns, c, Closing), closes + multiset{c}, notices, removals)
  {}

  lemma CloseBegunKeeps(s: State, c: ConnId)
    requires Inv(s) && At(s.conns, c, Up) && c in s.live && s.Known(c) && s.closing[s.conns[c].home] == None
    requires NotActive(s.active, c)
    ensures Inv(CloseBegun(s, c))
  {
    hide ConnsAgree, TableAgrees, ChannelsAgree, ClosingAgrees, ActiveAgrees, TasksAgree, HistoryAgrees, ForcingAgrees;
    AdvanceConns(|s.queue|, s.conns, s.live, s.nextId, c, Closing);
    AdvanceTable(s.conns, s.live, s.table, s.tableSize, c, Closing);
    CloseChannels(s.conns, s.live, s.channels, c);
    CloseClosing(s.conns, s.closing, c);
    AdvanceActive(s.conns, s.active, s.batch, c, Closing);
    MoveTasks(s.conns, c, Closing, s.queue, s.batch, s.queue, s.batch);
    CloseHistory(s.conns, s.closes, s.notices, s.removals, c);
    AdvanceForcing(s.conns, s.forcing, c, Closing);
  }

  // --- the end of HandleClose

  lemma QuitClosing(conns: Conns, closing: seq<Option<ConnId>>, c: ConnId, q: Phase)
    requires ClosingAgrees(conns, closing) && At(conns, c, Closing) && !q.Closing? && conns[c].home < |closing|
    ensures ClosingAgrees(Advance(conns, c, q), closing[conns[c].home := None])
  {}

  lemma NoticeHistory(conns: Conns, closes: multiset<ConnId>, notices: multiset<ConnId>, removals: multiset<ConnId>,
                      c: ConnId)
    requires HistoryAgrees(conns, closes, notices, removals) && At(conns, c, Closing)
    ensures HistoryAgrees(Advance(conns, c, Removing), closes, notices + multiset{c}, removals)
    ensures HistoryAgrees(Advance(conns, c, Gone), closes, notices + multiset{c}, removals + multiset{c})
  {}

  lemma RemoveTable(conns: Conns, live: set<ConnId>, table: map<nat, ConnId>, tableSize: nat, c: ConnId, q: Phase)
    requires TableAgrees(conns, live, table, tableSize) && c in conns && (q.Destroying? || q.Gone?)
    requires !conns[c].phase.Destroying? && !conns[c].phase.Gone?
    ensures TableAgrees(Advance(conns, c, q), live, table - {conns[c].fd}, tableSize)
    ensures |table - {conns[c].fd}| == |table| - 1
  {
    assert (table - {conns[c].fd}).Keys == table.Keys - {conns[c].fd};
  }

  lemma DestroyChannels(conns: Conns, live: set<ConnId>, channels: Channels, c: ConnId)
    requires ChannelsAgree(conns, live, channels) && c in conns
    requires !conns[c].phase.Opening? && !conns[c].phase.Gone?
    ensures ChannelsAgree(Advance(conns, c, Gone), live, channels - {(conns[c].home, conns[c].fd)})
  {}

  lemma FinishedHere(s: State, c: ConnId)
    requires s.Known(c) && s.conns[c].home == SERVER
    ensures CloseFinished(s, c) ==
            s.(conns := Advance(s.conns, c, Gone), closing := s.closing[SERVER := None],
               table := s.table - {s.conns[c].fd}, count := s.count - 1,
               channels := s.channels - {(SERVER, s.conns[c].fd)},
               notices := s.notices + multiset{c}, removals := s.removals + multiset{c})
  {
    assert CloseFinished(s, c).conns == Advance(s.conns, c, Gone);
  }

  lemma CloseFinishedHere(s: State, c: ConnId)
    requires Inv(s) && At(s.conns, c, Closing) && c in s.live && s.Known(c) && s.conns[c].home == SERVER
    ensures Inv(CloseFinished(s, c))
  {
    hide CloseFinished;
    hide ConnsAgree, TableAgrees, ChannelsAgree, ClosingAgrees, ActiveAgrees, TasksAgree, HistoryAgrees, ForcingAgrees;
    FinishedHere(s, c);
    AdvanceConns(|s.queue|, s.conns, s.live, s.nextId, c, Gone);
    RemoveTable(s.conns, s.live, s.table, s.tableSize, c, Gone);
    DestroyChannels(s.conns, s.live, s.channels, c);
    QuitClosing(s.conns, s.closing, c, Gone);
    AdvanceActive(s.conns, s.active, s.batch, c, Gone);
    MoveTasks(s.conns, c, Gone, s.queue, s.batch, s.queue, s.batch);
    AdvanceForcing(s.conns, s.forcing, c, Gone);
    NoticeHistory(s.conns, s.closes, s.notices, s.removals, c);
  }

  lemma CloseFinishedAway(s: State, c: ConnId)
    requires Inv(s) && At(s.conns, c, Closing) && c in s.live && s.Known(c) && s.conns[c].home != SERVER
    ensures Inv(CloseFinished(s, c))
  {
    hide ConnsAgree, TableAgrees, ChannelsAgree, ClosingAgrees, ActiveAgrees, TasksAgree, HistoryAgrees, ForcingAgrees;
    AdvanceConns(|s.queue|, s.conns, s.live, s.nextId, c, Removing);
    AdvanceTable(s.conns, s.live, s.table, s.tableSize, c, Removing);
    AdvanceChannels(s.conns, s.live, s.channels, c, Removing);
    QuitClosing(s.conns, s.closing, c, Removing);
    AdvanceActive(s.conns, s.active, s.batch, c, Removing);
    FinishTasks(s.conns, c, s.queue, s.batch);
    AdvanceForcing(s.conns, s.forcing, c, Removing);
    NoticeHistory(s.conns, s.closes, s.notices, s.removals, c);
  }

  // --- the tasks of a batch

  lemma PopActive(conns: Conns, active: seq<seq<ConnId>>, batch: seq<seq<Task>>, l: LoopId)
    requires ActiveAgrees(conns, active, batch) && l < |batch| && batch[l] != []
    ensures active[l] == [] && ActiveAgrees(conns, active, batch[l := batch[l][1..]])
  {}

  lemma PopPending(queue: seq<Task>, batch: seq<Task>)
    requires batch != []
    ensures Pending(queue, batch[1..]) == Pending(queue, batch) - multiset{batch[0]}
  {
    assert batch == [batch[0]] + batch[1..];
  }

  // The task owed by the old phase has been taken from the batch of loop l, and
  // the one owed by the new phase, if any, queued on loop k
  lemma PopDueTask(conns: Conns, c: ConnId, q: Phase, queue: seq<seq<Task>>, batch: seq<seq<Task>>, l: LoopId)
    requires TasksAgree(conns, queue, batch) && |queue| == |batch| && c in conns && !Remote(q)
    requires l < |batch| && batch[l] != [] && Owed(conns, c, conns[c].phase, l) == multiset{batch[l][0]}
    ensures TasksAgree(Advance(conns, c, q), queue, batch[l := batch[l][1..]])
  {
    hide TasksAgree, Pending;
    var batch' := batch[l := batch[l][1..]];
    forall i | 0 <= i < |queue|
      ensures Pending(queue[i], batch'[i]) ==
              Pending(queue[i], batch[i]) - Owed(conns, c, conns[c].phase, i) + Owed(conns, c, q, i)
    {
      if i == l {
        PopPending(queue[l], batch[l]);
      } else {
        assert Owed(conns, c, conns[c].phase, i) == multiset{};
      }
    }
    MoveTasks(conns, c, q, queue, batch, queue, batch');
  }

  lemma PushPending(queue: seq<Task>, batch: seq<Task>, t: Task)
    ensures Pending(queue + [t], batch) == Pending(queue, batch) + multiset{t}
  {}

  lemma RemoveTasks(conns: Conns, c: ConnId, queue: seq<seq<Task>>, batch: seq<seq<Task>>)
    requires TasksAgree(conns, queue, batch) && |queue| == |batch| && At(conns, c, Removing)
    requires SERVER < |batch| && batch[SERVER] != [] && batch[SERVER][0] == Remove(c)
    requires SERVER != conns[c].home < |queue|
    ensures var home := conns[c].home;
            TasksAgree(Advance(conns, c, Destroying), queue[home := queue[home] + [Destroy(c)]],
                       batch[SERVER := batch[SERVER][1..]])
  {
    hide TasksAgree, Pending;
    var home := conns[c].home;
    var queue', batch' := queue[home := queue[home] + [Destroy(c)]], batch[SERVER := batch[SERVER][1..]];
    forall i | 0 <= i < |queue|
      ensures Pending(queue'[i], batch'[i]) ==
              Pending(queue[i], batch[i]) - Owed(conns, c, Removing, i) + Owed(conns, c, Destroying, i)
    {
      if i == SERVER {
        PopPending(queue[i], batch[i]);
      } else if i == home {
        PushPending(queue[i], batch[i], Destroy(c));
      }
    }
    MoveTasks(conns, c, Destroying, queue, batch, queue', batch');
  }

  lemma FinishTasks(conns: Conns, c: ConnId, queue: seq<seq<Task>>, batch: seq<seq<Task>>)
    requires TasksAgree(conns, queue, batch) && |queue| == |batch| && At(conns, c, Closing) && SERVER < |queue|
    ensures TasksAgree(Advance(conns, c, Removing), queue[SERVER := queue[SERVER] + [Remove(c)]], batch)
  {
    hide TasksAgree, Pending;
    PushPending(queue[SERVER], batch[SERVER], Remove(c));
    MoveTasks(conns, c, Removing, queue, batch, queue[SERVER := queue[SERVER] + [Remove(c)]], batch);
  }

  lemma EstablishChannels(conns: Conns, live: set<ConnId>, channels: Channels, c: ConnId)
    requires ChannelsAgree(conns, live, channels) && At(conns, c, Opening) && c in live
    requires (conns[c].home, conns[c].fd) !in channels
    ensures ChannelsAgree(Advance(conns, c, Up), live, channels[(conns[c].home, conns[c].fd) := Slot(c, true)])
  {}

  lemma QuietHistory(conns: Conns, closes: multiset<ConnId>, notices: multiset<ConnId>, removals: multiset<ConnId>,
                     c: ConnId, q: Phase)
    requires HistoryAgrees(conns, closes, notices, removals) && c in conns
    requires (conns[c].phase.Opening? && q.Up?) || (conns[c].phase.Destroying? && q.Gone?)
    ensures HistoryAgrees(Advance(conns, c, q), closes, notices, removals)
  {}

  lemma RemoveHistory(conns: Conns, closes: multiset<ConnId>, notices: multiset<ConnId>, removals: multiset<ConnId>,
                      c: ConnId)
    requires HistoryAgrees(conns, closes, notices, removals) && At(conns, c, Removing)
    ensures HistoryAgrees(Advance(conns, c, Destroying), closes, notices, removals + multiset{c})
  {}

  lemma EstablishKeeps(s: State, l: LoopId, c: ConnId)
    requires Inv(s) && s.IsLoop(l) && s.batch[l] != [] && s.batch[l][0] == Establish(c)
    requires s.Known(c) && c in s.live && At(s.conns, c, Opening)
    requires s.conns[c].home == l && (l, s.conns[c].fd) !in s.channels
    ensures Inv(Established(Popped(s, l), c))
  {
    hide ConnsAgree, TableAgrees, ChannelsAgree, ClosingAgrees, ActiveAgrees, TasksAgree, HistoryAgrees, ForcingAgrees;
    var t := Popped(s, l);
    PopDueTask(s.conns, c, Up, s.queue, s.batch, l);
    PopActive(s.conns, s.active, s.batch, l);
    AdvanceActive(s.conns, s.active, t.batch, c, Up);
    AdvanceConns(|s.queue|, s.conns, s.live, s.nextId, c, Up);
    AdvanceTable(s.conns, s.live, s.table, s.tableSize, c, Up);
    EstablishChannels(s.conns, s.live, s.channels, c);
    AdvanceClosing(s.conns, s.closing, c, Up);
    AdvanceForcing(s.conns, s.forcing, c, Up);
    QuietHistory(s.conns, s.closes, s.notices, s.removals, c, Up);
  }

  lemma RemoveKeeps(s: State, l: LoopId, c: ConnId)
    requires Inv(s) && s.IsLoop(l) && s.batch[l] != [] && s.batch[l][0] == Remove(c)
    requires s.Known(c) && c in s.live && At(s.conns, c, Removing) && s.conns[c].home != SERVER && l == SERVER
    ensures Inv(Removed(Popped(s, l), c))
  {
    hide ConnsAgree, TableAgrees, ChannelsAgree, ClosingAgrees, ActiveAgrees, TasksAgree, HistoryAgrees, ForcingAgrees;
    var t := Removed(Popped(s, l), c);
    RemoveTasks(s.conns, c, s.queue, s.batch);
    PopActive(s.conns, s.active, s.batch, l);
    AdvanceActive(s.conns, s.active, t.batch, c, Destroying);
    AdvanceConns(|s.queue|, s.conns, s.live, s.nextId, c, Destroying);
    RemoveTable(s.conns, s.live, s.table, s.tableSize, c, Destroying);
    AdvanceChannels(s.conns, s.live, s.channels, c, Destroying);
    AdvanceClosing(s.conns, s.closing, c, Destroying);
    AdvanceForcing(s.conns, s.forcing, c, Destroying);
    RemoveHistory(s.conns, s.closes, s.notices, s.removals, c);
  }

  lemma DestroyKeeps(s: State, l: LoopId, c: ConnId)
    requires Inv(s) && s.IsLoop(l) && s.batch[l] != [] && s.batch[l][0] == Destroy(c)
    requires s.Known(c) && c in s.live && At(s.conns, c, Destroying) && s.conns[c].home == l
    ensures Inv(Destroyed(Popped(s, l), c))
  {
    hide ConnsAgree, TableAgrees, ChannelsAgree, ClosingAgrees, ActiveAgrees, TasksAgree, HistoryAgrees, ForcingAgrees;
    var t := Popped(s, l);
    PopDueTask(s.conns, c, Gone, s.queue, s.batch, l);
    PopActive(s.conns, s.active, s.batch, l);
    AdvanceActive(s.conns, s.active, t.batch, c, Gone);
    AdvanceConns(|s.queue|, s.conns, s.live, s.nextId, c, Gone);
    AdvanceTable(s.conns, s.live, s.table, s.tableSize, c, Gone);
    DestroyChannels(s.conns, s.live, s.channels, c);
    AdvanceClosing(s.conns, s.closing, c, Gone);
    AdvanceForcing(s.conns, s.forcing, c, Gone);
    QuietHistory(s.conns, s.closes, s.notices, s.removals, c, Gone);
  }

  // Queueing or dequeuing a task outside the life cycle
  lemma PopTasks(conns: Conns, queue: seq<seq<Task>>, batch: seq<seq<Task>>, l: LoopId)
    requires TasksAgree(conns, queue, batch) && l < |queue| && batch[l] != [] && Neutral(batch[l][0])
    ensures TasksAgree(conns, queue, batch[l := batch[l][1..]])
  {
    PopPending(queue[l], batch[l]);
    assert LoopTasksAgree(conns, Pending(queue[l], batch[l]), l);
    assert LoopTasksAgree(conns, Pending(queue[l], batch[l][1..]), l);
    hide LoopTasksAgree;
  }

  lemma PushTasks(conns: Conns, queue: seq<seq<Task>>, batch: seq<seq<Task>>, l: LoopId, t: Task)
    requires TasksAgree(conns, queue, batch) && l < |queue| && Neutral(t) && Placed(conns, l, t)
    ensures TasksAgree(conns, queue[l := queue[l] + [t]], batch)
  {
    assert Pending(queue[l] + [t], batch[l]) == Pending(queue[l], batch[l]) + multiset{t};
    assert LoopTasksAgree(conns, Pending(queue[l], batch[l]), l);
    assert LoopTasksAgree(conns, Pending(queue[l] + [t], batch[l]), l);
    hide LoopTasksAgree;
  }

  lemma SwapTasks(conns: Conns, queue: seq<seq<Task>>, batch: seq<seq<Task>>, l: LoopId)
    requires TasksAgree(conns, queue, batch) && l < |queue| && batch[l] == []
    ensures TasksAgree(conns, queue[l := []], batch[l := queue[l]])
  {
    hide LoopTasksAgree;
    assert Pending([], queue[l]) == Pending(queue[l], []);
  }

  lemma NeutralTaskKeeps(s: State, l: LoopId)
    requires Inv(s) && s.IsLoop(l) && s.batch[l] != [] && Neutral(s.batch[l][0])
    ensures Inv(Popped(s, l)) && Popped(s, l).active[l] == []
  {
    hide ConnsAgree, TableAgrees, ChannelsAgree, ClosingAgrees, ActiveAgrees, TasksAgree, HistoryAgrees, ForcingAgrees;
    PopTasks(s.conns, s.queue, s.batch, l);
    PopActive(s.conns, s.active, s.batch, l);
  }

  // --- accepting a connection

  function With(conns: Conns, c: ConnId, fd: nat, home: LoopId, p: Phase): Conns {
    conns[c := Conn(fd, home, p)]
  }

  lemma AcceptConns(loops: nat, conns: Conns, live: set<ConnId>, c: ConnId, fd: nat, home: LoopId, p: Phase)
    requires ConnsAgree(loops, conns, live, c) && home < loops && (home == SERVER ==> !Remote(p))
    requires forall d | d in live && d in conns :: conns[d].fd != fd
    ensures ConnsAgree(loops, With(conns, c, fd, home, p), live + {c}, c + 1)
    ensures c !in conns
  {}

  lemma AcceptTable(conns: Conns, live: set<ConnId>, table: map<nat, ConnId>, tableSize: nat, tableSize': nat,
                    c: ConnId, fd: nat, home: LoopId, p: Phase)
    requires TableAgrees(conns, live, table, tableSize) && c !in conns && fd !in table
    requires tableSize <= tableSize' && fd < tableSize' && (p.Opening? || p.Up?)
    ensures TableAgrees(With(conns, c, fd, home, p), live + {c}, table[fd := c], tableSize')
  {}

  lemma AcceptCount(table: map<nat, ConnId>, fd: nat, c: ConnId)
    requires fd !in table
    ensures |table[fd := c]| == |table| + 1
  {
    assert table[fd := c].Keys == table.Keys + {fd};
  }

  lemma AcceptChannels(conns: Conns, live: set<ConnId>, channels: Channels, c: ConnId, fd: nat, home: LoopId)
    requires ChannelsAgree(conns, live, channels) && c !in conns && (home, fd) !in channels
    ensures ChannelsAgree(With(conns, c, fd, home, Opening), live + {c}, channels)
    ensures ChannelsAgree(With(conns, c, fd, home, Up), live + {c}, channels[(home, fd) := Slot(c, true)])
  {}

  lemma AcceptActive(conns: Conns, closing: seq<Option<ConnId>>, active: seq<seq<ConnId>>, batch: seq<seq<Task>>,
                     c: ConnId, fd: nat, home: LoopId, p: Phase)
    requires ClosingAgrees(conns, closing) && ActiveAgrees(conns, active, batch)
    requires c !in conns && (p.Opening? || p.Up?)
    ensures ClosingAgrees(With(conns, c, fd, home, p), closing)
    ensures ActiveAgrees(With(conns, c, fd, home, p), active, batch)
  {}

  lemma AcceptHistory(s: State, c: ConnId, fd: nat, home: LoopId, p: Phase)
    requires HistoryAgrees(s.conns, s.closes, s.notices, s.removals) && ForcingAgrees(s.conns, s.forcing)
    requires c !in s.conns && (p.Opening? || p.Up?)
    ensures HistoryAgrees(With(s.conns, c, fd, home, p), s.closes, s.notices, s.removals)
    ensures ForcingAgrees(With(s.conns, c, fd, home, p), s.forcing)
  {}

  lemma AcceptLoopTasks(conns: Conns, pending: multiset<Task>, l: LoopId, c: ConnId, fd: nat, home: LoopId, p: Phase)
    requires LoopTasksAgree(conns, pending, l) && c !in conns && (p.Opening? || p.Up?)
    ensures LoopTasksAgree(With(conns, c, fd, home, p),
                           if p.Opening? && home == l then pending + multiset{Establish(c)} else pending, l)
  {
    var conns' := With(conns, c, fd, home, p);
    forall u | !Neutral(u)
      ensures Due(conns', l, u) == (Due(conns, l, u) || (p.Opening? && home == l && u == Establish(c)))
    {}
    assert !Due(conns, l, Establish(c));
  }

  lemma AcceptTasks(conns: Conns, queue: seq<seq<Task>>, batch: seq<seq<Task>>, c: ConnId, fd: nat, home: LoopId)
    requires TasksAgree(conns, queue, batch) && |queue| == |batch| && c !in conns && home < |queue|
    ensures TasksAgree(With(conns, c, fd, home, Up), queue, batch)
    ensures TasksAgree(With(conns, c, fd, home, Opening), queue[home := queue[home] + [Establish(c)]], batch)
  {
    hide LoopTasksAgree;
    var queue' := queue[home := queue[home] + [Establish(c)]];
    forall l | 0 <= l < |queue|
      ensures LoopTasksAgree(With(conns, c, fd, home, Up), Pending(queue[l], batch[l]), l)
      ensures LoopTasksAgree(With(conns, c, fd, home, Opening), Pending(queue'[l], batch[l]), l)
    {
      AcceptLoopTasks(conns, Pending(queue[l], batch[l]), l, c, fd, home, Up);
      AcceptLoopTasks(conns, Pending(queue[l], batch[l]), l, c, fd, home, Opening);
      assert Pending(queue[home] + [Establish(c)], batch[home]) ==
             Pending(queue[home], batch[home]) + multiset{Establish(c)};
    }
  }

  lemma AcceptedShape(s: State, fd: nat)
    requires s.IsLoop(SERVER)
    ensures Accepted(s, fd, SERVER) ==
            s.(conns := With(s.conns, s.nextId, fd, SERVER, Up), live := s.live + {s.nextId}, nextId := s.nextId + 1,
               tableSize := if s.tableSize <= fd then 2 * s.tableSize else s.tableSize,
               table := s.table[fd := s.nextId], count := s.count + 1,
               channels := s.channels[(SERVER, fd) := Slot(s.nextId, true)])
  {
    assert Accepted(s, fd, SERVER).conns == With(s.conns, s.nextId, fd, SERVER, Up);
  }

  lemma AcceptedHere(s: State, fd: nat, home: LoopId)
    requires Inv(s) && s.IsLoop(home) && 0 < fd < 2 * s.tableSize && home == SERVER
    requires forall c | c in s.live && c in s.conns :: s.conns[c].fd != fd
    requires fd !in s.table && (home, fd) !in s.channels
    ensures Inv(Accepted(s, fd, home))
  {
    hide Accepted, With;
    hide ConnsAgree, TableAgrees, ChannelsAgree, ClosingAgrees, ActiveAgrees, TasksAgree, HistoryAgrees, ForcingAgrees;
    var t, c := Accepted(s, fd, home), s.nextId;
    AcceptedShape(s, fd);
    AcceptConns(|s.queue|, s.conns, s.live, c, fd, home, Up);
    AcceptTable(s.conns, s.live, s.table, s.tableSize, t.tableSize, c, fd, home, Up);
    AcceptCount(s.table, fd, c);
    AcceptChannels(s.conns, s.live, s.channels, c, fd, home);
    AcceptActive(s.conns, s.closing, s.active, s.batch, c, fd, home, Up);
    AcceptHistory(s, c, fd, home, Up);
    AcceptTasks(s.conns, s.queue, s.batch, c, fd, home);
  }

  lemma AcceptedAway(s: State, fd: nat, home: LoopId)
    requires Inv(s) && s.IsLoop(home) && 0 < fd < 2 * s.tableSize && home != SERVER
    requires forall c | c in s.live && c in s.conns :: s.conns[c].fd != fd
    requires fd !in s.table && (home, fd) !in s.channels
    ensures Inv(Accepted(s, fd, home))
  {
    hide ConnsAgree, TableAgrees, ChannelsAgree, ClosingAgrees, ActiveAgrees, TasksAgree, HistoryAgrees, ForcingAgrees;
    var t, c := Accepted(s, fd, home), s.nextId;
    assert t.conns == With(s.conns, c, fd, home, Opening);
    AcceptConns(|s.queue|, s.conns, s.live, c, fd, home, Opening);
    AcceptTable(s.conns, s.live, s.table, s.tableSize, t.tableSize, c, fd, home, Opening);
    AcceptCount(s.table, fd, c);
    AcceptChannels(s.conns, s.live, s.channels, c, fd, home);
    AcceptActive(s.conns, s.closing, s.active, s.batch, c, fd, home, Opening);
    AcceptHistory(s, c, fd, home, Opening);
    AcceptTasks(s.conns, s.queue, s.batch, c, fd, home);
  }

  // --- polling, dispatching and releasing

  lemma PollActive(s: State, l: LoopId, report: seq<ConnId>)
    requires Inv(s) && Enabled(s, Poll(l, report))
    ensures ActiveAgrees(s.conns, s.active[l := report], s.batch)
  {
    hide ConnsAgree, TableAgrees, ClosingAgrees, TasksAgree, HistoryAgrees, ForcingAgrees;
    forall i | 0 <= i < |report| ensures At(s.conns, report[i], Up) && s.conns[report[i]].home == l {
      assert Watched(s, l, report[i]);
    }
  }

  lemma DispatchActive(conns: Conns, active: seq<seq<ConnId>>, batch: seq<seq<Task>>, l: LoopId)
    requires ActiveAgrees(conns, active, batch) && l < |active| && active[l] != []
    ensures ActiveAgrees(conns, active[l := active[l][1..]], batch)
    ensures NotActive(active[l := active[l][1..]], active[l][0])
  {}

  lemma ReleaseAgrees(s: State, c: ConnId)
    requires Inv(s) && c in s.conns && s.conns[c].phase == Gone
    ensures Inv(s.(live := s.live - {c}))
  {
    hide ClosingAgrees, ActiveAgrees, TasksAgree, HistoryAgrees, ForcingAgrees;
  }

  lemma RunTaskKeeps(s: State, l: LoopId)
    requires Inv(s) && Enabled(s, RunTask(l)) && AssertsHold(s, RunTask(l))
    ensures Inv(Apply(s, RunTask(l)))
  {
    hide ConnsAgree, TableAgrees, ChannelsAgree, ClosingAgrees, ActiveAgrees, TasksAgree, HistoryAgrees, ForcingAgrees;
    TaskIsDue(s, l);
    TaskAssertsFollow(s, l);
    match s.batch[l][0]
    case Establish(c) => EstablishKeeps(s, l, c);
    case Remove(c) => RemoveKeeps(s, l, c);
    case Destroy(c) => DestroyKeeps(s, l, c);
    case Carry(c) => NeutralTaskKeeps(s, l);
    case ForceClose(c) =>
      NeutralTaskKeeps(s, l);
      if StateOf(s.conns[c].phase) == Connected { ForceCloseKeeps(Popped(s, l), l, c); }
  }

  lemma ForceCloseKeeps(s: State, l: LoopId, c: ConnId)
    requires Inv(s) && s.Known(c) && At(s.conns, c, Up) && s.conns[c].home == l
    requires s.closing[l] == None && s.active[l] == []
    ensures Inv(CloseBegun(s, c))
  {
    assert c in s.live;
    assert NotActive(s.active, c);
    hide ConnsAgree, TableAgrees, ChannelsAgree, ClosingAgrees, ActiveAgrees, TasksAgree, HistoryAgrees, ForcingAgrees;
    CloseBegunKeeps(s, c);
  }

  lemma DispatchCloseKeeps(s: State, l: LoopId)
    requires Inv(s) && Enabled(s, DispatchClose(l, false)) && AssertsHold(s, DispatchClose(l, false))
    ensures Inv(Apply(s, DispatchClose(l, false)))
  {
    hide ConnsAgree, TableAgrees, ChannelsAgree, ClosingAgrees, ActiveAgrees, TasksAgree, HistoryAgrees, ForcingAgrees;
    DispatchActive(s.conns, s.active, s.batch, l);
    var t := s.(active := s.active[l := s.active[l][1..]]);
    CloseBegunKeeps(t, s.active[l][0]);
  }

  lemma FinishCloseKeeps(s: State, l: LoopId)
    requires Inv(s) && Enabled(s, FinishClose(l)) && AssertsHold(s, FinishClose(l))
    ensures Inv(Apply(s, FinishClose(l)))
  {
    hide Inv;
    FinishAssertsFollow(s, l);
    var c := s.closing[l].value;
    if l == SERVER { CloseFinishedHere(s, c); } else { CloseFinishedAway(s, c); }
  }

  lemma PushKeeps(s: State, l: LoopId, t: Task)
    requires Inv(s) && s.IsLoop(l) && Neutral(t) && Placed(s.conns, l, t)
    ensures Inv(Push(s, l, t))
  {
    hide ConnsAgree, TableAgrees, ChannelsAgree, ClosingAgrees, ActiveAgrees, TasksAgree, HistoryAgrees, ForcingAgrees;
    PushTasks(s.conns, s.queue, s.batch, l, t);
  }

  lemma ForcingShrinks(conns: Conns, forcing: multiset<ConnId>, c: ConnId)
    requires ForcingAgrees(conns, forcing) && c in forcing
    ensures ForcingAgrees(conns, forcing - multiset{c}) && c in conns && !conns[c].phase.Opening?
  {}

  lemma ForcePushKeeps(s: State, c: ConnId)
    requires Inv(s) && Enabled(s, ForcePush(c))
    ensures Inv(Apply(s, ForcePush(c)))
  {
    hide ConnsAgree, TableAgrees, ChannelsAgree, ClosingAgrees, ActiveAgrees, TasksAgree, HistoryAgrees, ForcingAgrees;
    ForcingShrinks(s.conns, s.forcing, c);
    PushKeeps(s.(forcing := s.forcing - multiset{c}), s.conns[c].home, ForceClose(c));
  }

  lemma StepKeeps(s: State, step: Step)
    requires Inv(s) && Enabled(s, step) && AssertsHold(s, step)
    ensures Inv(Apply(s, step))
  {
    hide ConnsAgree, TableAgrees, ChannelsAgree, ClosingAgrees, ActiveAgrees, TasksAgree, HistoryAgrees, ForcingAgrees;
    hide TaskAssertsHold, TaskRun;
    match step
    case Accept(fd, home) => if home == SERVER { AcceptedHere(s, fd, home); } else { AcceptedAway(s, fd, home); }
    case Poll(l, report) => PollActive(s, l, report);
    case DispatchData(l) => DispatchActive(s.conns, s.active, s.batch, l);
    case DispatchClose(l, _) => DispatchCloseKeeps(s, l);
    case FinishClose(l) => FinishCloseKeeps(s, l);
    case Swap(l) => SwapKeeps(s, l);
    case RunTask(l) => RunTaskKeeps(s, l);
    case EndBatch(l) =>
    case ForceCheck(c) => ForceCheckKeeps(s, c);
    case ForcePush(c) => ForcePushKeeps(s, c);
    case PushCarry(c) => PushKeeps(s, s.conns[c].home, Carry(c));
    case UserTake(c) =>
    case UserDrop(c) =>
    case Release(c) => ReleaseAgrees(s, c);
  }

  lemma SwapActive(s: State, l: LoopId)
    requires Inv(s) && Enabled(s, Swap(l))
    ensures ActiveAgrees(s.conns, s.active, s.batch[l := s.queue[l]])
  {
    hide ConnsAgree, TableAgrees, ChannelsAgree, ClosingAgrees, TasksAgree, HistoryAgrees, ForcingAgrees;
  }

  lemma SwapKeeps(s: State, l: LoopId)
    requires Inv(s) && Enabled(s, Swap(l))
    ensures Inv(Apply(s, Swap(l)))
  {
    SwapActive(s, l);
    hide ConnsAgree, TableAgrees, ChannelsAgree, ClosingAgrees, ActiveAgrees, TasksAgree, HistoryAgrees, ForcingAgrees;
    SwapTasks(s.conns, s.queue, s.batch, l);
  }

  lemma ForceCheckKeeps(s: State, c: ConnId)
    requires Inv(s) && Enabled(s, ForceCheck(c))
    ensures Inv(Apply(s, ForceCheck(c)))
  {
    hide ConnsAgree, TableAgrees, ChannelsAgree, ClosingAgrees, ActiveAgrees, TasksAgree, HistoryAgrees;
  }

  // ----- runs ---------------------------------------------------------------

  // Any interleaving from an initial state.  A step whose assertion fails may lead anywhere.
  predicate IsRun(states: seq<State>, steps: seq<Step>) {
    && |states| == |steps| + 1 && Init(states[0])
    && (forall i | 0 <= i < |steps| ::
          && Enabled(states[i], steps[i])
          && (AssertsHold(states[i], steps[i]) ==> states[i + 1] == Apply(states[i], steps[i])))
  }

  // The first n steps fit
  predicate Fitting(states: seq<State>, steps: seq<Step>, n: nat) {
    n <= |steps| < |states| && forall i | 0 <= i < n :: Fits(states[i], steps[i])
  }

  lemma {:induction false} RunKeepsInv(states: seq<State>, steps: seq<Step>, n: nat)
    requires IsRun(states, steps) && Fitting(states, steps, n)
    ensures Inv(states[n])
  {
    if n == 0 {
      InitInv(states[0]);
    } else {
      RunKeepsInv(states, steps, n - 1);
      AssertsFollow(states[n - 1], steps[n - 1]);
      StepKeeps(states[n - 1], steps[n - 1]);
    }
  }

  // Whatever the interleaving, the first assertion of the source to fail fails at
  // a step that does not fit, and at every such step one fails
  lemma NoAssertFails(states: seq<State>, steps: seq<Step>, n: nat)
    requires IsRun(states, steps) && n < |steps| && Fitting(states, steps, n)
    ensures AssertsHold(states[n], steps[n]) <==> Fits(states[n], steps[n])
    ensures Fits(states[n], steps[n]) ==> states[n + 1] == Apply(states[n], steps[n])
  {
    RunKeepsInv(states, steps, n);
    AssertsFollow(states[n], steps[n]);
  }

  // A recycled descriptor never meets a leftover: when the kernel hands it out
  // again, its slot is free in the server's table and in every poller.
  lemma RecycledSlotsAreFree(states: seq<State>, steps: seq<Step>, n: nat, l: LoopId)
    requires IsRun(states, steps) && n < |steps| && Fitting(states, steps, n) && steps[n].Accept?
    ensures steps[n].fd !in states[n].table && (l, steps[n].fd) !in states[n].channels
  {
    RunKeepsInv(states, steps, n);
    AcceptAssertsFollow(states[n], steps[n].fd);
  }

  // A registered channel belongs to a connection that is alive, referenced, and
  // the only one with that descriptor; the server's count is exact.
  lemma RegisteredHasLiveOwner(states: seq<State>, steps: seq<Step>, n: nat, l: LoopId, fd: nat)
    requires IsRun(states, steps) && Fitting(states, steps, n) && (l, fd) in states[n].channels
    ensures var s := states[n];
            var c := s.channels[(l, fd)].conn;
            && s.Sized() && c in s.live && Referenced(s, c) && c in s.conns
            && s.conns[c].fd == fd && s.conns[c].home == l
            && (forall d | d in s.live && d in s.conns && s.conns[d].fd == fd :: d == c)
            && s.count == |s.table|
  {
    RunKeepsInv(states, steps, n);
    HeldUntilGone(states[n], states[n].channels[(l, fd)].conn);
  }

  // HandleClose, the disconnection callback and the removal run at most once, in
  // this order, under racing ForceClose calls, end of file and hang-up; when the
  // connection is gone each has run exactly once.
  lemma ClosesOnce(states: seq<State>, steps: seq<Step>, n: nat, c: ConnId)
    requires IsRun(states, steps) && Fitting(states, steps, n)
    ensures var s := states[n]; s.removals[c] <= s.notices[c] <= s.closes[c] <= 1
    ensures c in states[n].conns && StateOf(states[n].conns[c].phase) == Disconnected ==> states[n].removals[c] == 1
  {
    RunKeepsInv(states, steps, n);
  }

  function Rank(st: ConnState): nat {
    match st
    case Connecting => 0
    case Connected => 1
    case Disconnecting => 2
    case Disconnected => 3
  }

  // Connection c keeps its descriptor and its loop, and its state_ moves forward by at most `steps`
  predicate Advances(conns: Conns, conns': Conns, c: ConnId, steps: nat) {
    && c in conns && c in conns' && conns'[c].fd == conns[c].fd && conns'[c].home == conns[c].home
    && Rank(StateOf(conns[c].phase)) <= Rank(StateOf(conns'[c].phase)) <= Rank(StateOf(conns[c].phase)) + steps
  }

  lemma TaskAdvances(s: State, t: Task, l: LoopId, c: ConnId)
    requires s.Known(t.conn) && c in s.conns
    requires if Neutral(t) then Placed(s.conns, l, t) else Due(s.conns, l, t)
    ensures Advances(s.conns, TaskRun(s, t).conns, c, 1)
  {}

  lemma FinishAdvances(s: State, d: ConnId, c: ConnId)
    requires s.Known(d) && At(s.conns, d, Closing) && c in s.conns
    ensures Advances(s.conns, CloseFinished(s, d).conns, c, 1)
  {}

  lemma NextIdIsNew(s: State)
    requires Inv(s)
    ensures s.nextId !in s.conns
  {}

  lemma StepAdvances(s: State, step: Step, c: ConnId)
    requires Inv(s) && Enabled(s, step) && AssertsHold(s, step) && c in s.conns
    ensures Advances(s.conns, Apply(s, step).conns, c, 1)
  {
    hide Inv, TaskRun, TaskAssertsHold, CloseFinished, Referenced, MayRemove;
    match step
    case RunTask(l) =>
      TaskIsDue(s, l);
      TaskAdvances(Popped(s, l), s.batch[l][0], l, c);
    case FinishClose(l) =>
      FinishAssertsFollow(s, l);
      FinishAdvances(s, s.closing[l].value, c);
    case Accept(_, _) => NextIdIsNew(s);
    case _ =>
  }

  // state_ only moves CONNECTING, CONNECTED, DISCONNECTING, DISCONNECTED, one
  // at a time, and a connection keeps its descriptor and its loop
  lemma {:induction false} StateOnlyAdvances(states: seq<State>, steps: seq<Step>, m: nat, n: nat, c: ConnId)
    requires IsRun(states, steps) && m <= n && Fitting(states, steps, n) && c in states[m].conns
    ensures Advances(states[m].conns, states[n].conns, c, n - m)
    decreases n
  {
    hide Inv, Enabled, AssertsHold, Apply, Init;
    if m < n {
      StateOnlyAdvances(states, steps, m, n - 1, c);
      RunKeepsInv(states, steps, n - 1);
      NoAssertFails(states, steps, n - 1);
      StepAdvances(states[n - 1], steps[n - 1], c);
    }
  }

  // ----- when everything fits -----------------------------------------------

  // Every connection stems from an accept with the descriptor and the loop it has
  lemma {:induction false} StemsFromAccept(states: seq<State>, steps: seq<Step>, n: nat, c: ConnId) returns (i: nat)
    requires IsRun(states, steps) && Fitting(states, steps, n) && c in states[n].conns
    ensures i < n && steps[i] == Accept(states[n].conns[c].fd, states[n].conns[c].home)
  {
    if c in states[n - 1].conns {
      i := StemsFromAccept(states, steps, n - 1, c);
      StateOnlyAdvances(states, steps, n - 1, n, c);
    } else {
      i := n - 1;
      NoAssertFails(states, steps, n - 1);
      NewConnIsAccepted(states[n - 1], steps[n - 1], c);
    }
  }

  lemma NewConnIsAccepted(s: State, step: Step, c: ConnId)
    requires Enabled(s, step) && AssertsHold(s, step) && c !in s.conns && c in Apply(s, step).conns
    ensures step == Accept(Apply(s, step).conns[c].fd, Apply(s, step).conns[c].home)
  {
    hide TaskRun, CloseFinished, Referenced, Watched;
    match step
    case RunTask(l) => TaskKeepsConns(Popped(s, l), s.batch[l][0]);
    case FinishClose(l) => FinishKeepsConns(s, s.closing[l].value);
    case _ =>
  }

  lemma TaskKeepsConns(s: State, t: Task)
    requires s.Known(t.conn)
    ensures TaskRun(s, t).conns.Keys == s.conns.Keys
  {}

  lemma FinishKeepsConns(s: State, c: ConnId)
    requires s.Known(c)
    ensures CloseFinished(s, c).conns.Keys == s.conns.Keys
  {}

  // What a caller can see to, step by step: descriptors within the pollers' fixed
  // size, and no report that carries end of file together with writability
  predicate Ordinary(step: Step) {
    (step.Accept? ==> step.fd < POLLER_SIZE) && (step.DispatchClose? ==> !step.writes)
  }

  // Then every step fits, so all that is proved here holds throughout
  lemma {:induction false} OrdinaryRunsFit(states: seq<State>, steps: seq<Step>, n: nat)
    requires IsRun(states, steps) && n <= |steps| && forall i | 0 <= i < n :: Ordinary(steps[i])
    ensures Fitting(states, steps, n)
  {
    if n > 0 {
      OrdinaryRunsFit(states, steps, n - 1);
      RunKeepsInv(states, steps, n - 1);
      var s, step := states[n - 1], steps[n - 1];
      if step.RunTask? && s.IsLoop(step.loop) && s.batch[step.loop] != [] && s.batch[step.loop][0].Establish? {
        var c := s.batch[step.loop][0].conn;
        if c in s.conns {
          var i := StemsFromAccept(states, steps, n - 1, c);
          assert Ordinary(steps[i]);
        }
      }
      assert Ordinary(step) && TABLE_SIZE <= s.tableSize;
    }
  }

  predicate PollersInBounds(s: State) {
    forall k | k in s.channels :: k.1 < POLLER_SIZE
  }

  // No poller is indexed out of bounds while every step fits
  lemma {:induction false} PollersSuffice(states: seq<State>, steps: seq<Step>, n: nat)
    requires IsRun(states, steps) && Fitting(states, steps, n)
    ensures PollersInBounds(states[n])
  {
    if n > 0 {
      PollersSuffice(states, steps, n - 1);
      NoAssertFails(states, steps, n - 1);
      StepInBounds(states[n - 1], steps[n - 1]);
    }
  }

  lemma StepInBounds(s: State, step: Step)
    requires Enabled(s, step) && AssertsHold(s, step) && PollersInBounds(s)
    ensures PollersInBounds(Apply(s, step))
  {
    hide CloseFinished, Referenced, TaskRun;
    match step
    case RunTask(l) => TaskInBounds(s, l);
    case FinishClose(l) => FinishInBounds(s, s.closing[l].value);
    case _ =>
  }

  lemma TaskInBounds(s: State, l: LoopId)
    requires s.IsLoop(l) && s.batch[l] != [] && TaskAssertsHold(s, l, s.batch[l][0]) && PollersInBounds(s)
    ensures PollersInBounds(TaskRun(Popped(s, l), s.batch[l][0]))
  {}

  lemma FinishInBounds(s: State, c: ConnId)
    requires s.Known(c) && PollersInBounds(s)
    ensures PollersInBounds(CloseFinished(s, c))
  {}

  // A larger descriptor that the server's table still takes is registered out of bounds: on the server's
  // own loop at once, and on another exactly when it is established
  lemma PollersOverrun(s: State, fd: nat, home: LoopId)
    requires Inv(s) && s.IsLoop(home) && PollersInBounds(s)
    ensures var t := Accepted(s, fd, home);
            && (PollersInBounds(t) <==> home != SERVER || fd < POLLER_SIZE)
            && (PollersInBounds(Established(t, s.nextId)) <==> fd < POLLER_SIZE)
  {
    var t := Accepted(s, fd, home);
    assert (home, fd) in Established(t, s.nextId).channels;
    assert home == SERVER ==> (home, fd) in t.channels;
  }

  // ----- what is queued is carried out --------------------------------------

  // The tasks that loop l has run from step `from` up to step n
  function Executed(states: seq<State>, steps: seq<Step>, l: LoopId, from: nat, n: nat): seq<Task>
    requires from <= n <= |steps| < |states|
    decreases n
  {
    if from == n then []
    else
      var s := states[n - 1];
      Executed(states, steps, l, from, n - 1) +
      if steps[n - 1] == RunTask(l) && s.IsLoop(l) && s.batch[l] != [] then [s.batch[l][0]] else []
  }

  // All tasks ever queued in loop l: those that have run, the rest of the batch, and the queue
  function History(states: seq<State>, steps: seq<Step>, l: LoopId, n: nat): seq<Task>
    requires n <= |steps| < |states| && states[n].IsLoop(l)
  {
    Executed(states, steps, l, 0, n) + (states[n].batch[l] + states[n].queue[l])
  }

  // The tasks that a step queues in loop l
  function Queues(s: State, step: Step, l: LoopId): seq<Task> {
    match step
    case Accept(_, home) => if l == home != SERVER then [Establish(s.nextId)] else []
    case FinishClose(k) =>
      if l == SERVER != k && s.IsLoop(k) && s.closing[k].Some? then [Remove(s.closing[k].value)] else []
    case RunTask(k) => if s.IsLoop(k) && s.batch[k] != [] then QueuedByTask(s, s.batch[k][0], l) else []
    case ForcePush(c) => if c in s.conns && s.conns[c].home == l then [ForceClose(c)] else []
    case PushCarry(c) => if c in s.conns && s.conns[c].home == l then [Carry(c)] else []
    case _ => []
  }

  function QueuedByTask(s: State, t: Task, l: LoopId): seq<Task> {
    if t.Remove? && t.conn in s.conns && l == s.conns[t.conn].home != SERVER then [Destroy(t.conn)] else []
  }

  // A step keeps the loops, takes a task only by running it, and queues others only at the end
  lemma StepOfQueue(s: State, step: Step, l: LoopId)
    requires Enabled(s, step) && AssertsHold(s, step) && s.IsLoop(l)
    ensures var t := Apply(s, step);
            && t.IsLoop(l) && |t.queue| == |s.queue|
            && (step == Swap(l) ==> s.batch[l] == [] && t.batch[l] == s.queue[l] && t.queue[l] == [])
            && (step != Swap(l) ==> t.queue[l] == s.queue[l] + Queues(s, step, l))
            && (step == RunTask(l) ==> s.batch[l] != [] && t.batch[l] == s.batch[l][1..])
            && (step != Swap(l) && step != RunTask(l) ==> t.batch[l] == s.batch[l])
  {
    hide Referenced, Watched, TaskRun, CloseFinished, Accepted;
    assert s.queue[l] + [] == s.queue[l];
    match step
    case Accept(fd, home) => AcceptOfQueue(s, fd, home, l);
    case RunTask(k) => TaskOfQueue(Popped(s, k), s.batch[k][0], l);
    case FinishClose(k) => FinishOfQueue(s, s.closing[k].value, l);
    case _ =>
  }

  lemma TaskOfQueue(s: State, t: Task, l: LoopId)
    requires s.Known(t.conn) && s.IsLoop(l)
    ensures var r := TaskRun(s, t);
            && r.IsLoop(l) && |r.queue| == |s.queue| && r.batch == s.batch
            && r.queue[l] == s.queue[l] + QueuedByTask(s, t, l)
            && r.ran == s.ran && r.active == s.active
  {}

  lemma AcceptOfQueue(s: State, fd: nat, home: LoopId, l: LoopId)
    requires s.IsLoop(home) && s.IsLoop(l)
    ensures var r := Accepted(s, fd, home);
            && r.IsLoop(l) && |r.queue| == |s.queue| && r.batch == s.batch
            && r.queue[l] == s.queue[l] + (if l == home != SERVER then [Establish(s.nextId)] else [])
            && r.ran == s.ran && r.active == s.active
  {}

  lemma FinishOfQueue(s: State, c: ConnId, l: LoopId)
    requires s.Known(c) && s.IsLoop(l)
    ensures var r := CloseFinished(s, c);
            && r.IsLoop(l) && |r.queue| == |s.queue| && r.batch == s.batch
            && r.queue[l] == s.queue[l] + (if l == SERVER != s.conns[c].home then [Remove(c)] else [])
            && r.ran == s.ran && r.active == s.active
  {}

  // A step adds to the tasks of a loop exactly what it queues there
  lemma HistoryGrows(states: seq<State>, steps: seq<Step>, l: LoopId, n: nat)
    requires IsRun(states, steps) && n < |steps| && Fitting(states, steps, n + 1) && states[n].IsLoop(l)
    ensures states[n + 1].IsLoop(l)
    ensures History(states, steps, l, n + 1) == History(states, steps, l, n) + Queues(states[n], steps[n], l)
  {
    hide Inv, Enabled, AssertsHold, Apply, Fits, Init, Queues;
    NoAssertFails(states, steps, n);
    assert Enabled(states[n], steps[n]);
    StepOfQueue(states[n], steps[n], l);
    SwapQueuesNothing(states[n], l);
    var s, t, step := states[n], states[n + 1], steps[n];
    if step == Swap(l) {
      assert t.batch[l] + t.queue[l] == s.batch[l] + s.queue[l];
    } else if step == RunTask(l) {
      assert s.batch[l] == [s.batch[l][0]] + t.batch[l];
    }
  }

  lemma SwapQueuesNothing(s: State, l: LoopId)
    ensures Queues(s, Swap(l), l) == []
  {
  }

  // No task is lost, run twice or overtaken, in any loop
  lemma {:induction false} NoTaskIsLost(states: seq<State>, steps: seq<Step>, l: LoopId, m: nat, n: nat)
    requires IsRun(states, steps) && m <= n && Fitting(states, steps, n) && states[m].IsLoop(l)
    ensures states[n].IsLoop(l) && History(states, steps, l, m) <= History(states, steps, l, n)
    decreases n
  {
    hide Inv, Enabled, AssertsHold, Apply, Fits, Init, History;
    if m < n {
      NoTaskIsLost(states, steps, l, m, n - 1);
      HistoryGrows(states, steps, l, n - 1);
    }
  }

  // The reference that a task holds is dropped when its batch ends: what a loop
  // holds on to is exactly what it has run since
  lemma {:induction false} RanSinceBatchEnd(states: seq<State>, steps: seq<Step>, l: LoopId, e: nat, n: nat)
    requires IsRun(states, steps) && e <= n && Fitting(states, steps, n) && states[n].IsLoop(l)
    requires e == 0 || steps[e - 1] == EndBatch(l)
    requires forall i | e <= i < n :: steps[i] != EndBatch(l)
    ensures states[n].ran[l] == Executed(states, steps, l, e, n)
    decreases n
  {
    hide Inv, Enabled, AssertsHold, Apply, Fits, Referenced;
    if 0 < n {
      NoAssertFails(states, steps, n - 1);
      assert Enabled(states[n - 1], steps[n - 1]);
      LoopsStay(states[n - 1], steps[n - 1]);
      StepOfRan(states[n - 1], steps[n - 1], l);
      if e < n {
        RanSinceBatchEnd(states, steps, l, e, n - 1);
      }
    }
  }

  lemma LoopsStay(s: State, step: Step)
    requires Enabled(s, step) && AssertsHold(s, step) && Apply(s, step).Sized()
    ensures s.Sized() && |Apply(s, step).queue| == |s.queue|
  {
    hide Referenced, Watched;
  }

  lemma StepOfRan(s: State, step: Step, l: LoopId)
    requires Enabled(s, step) && AssertsHold(s, step) && s.IsLoop(l) && Apply(s, step).IsLoop(l)
    ensures Apply(s, step).ran[l] ==
            if step == EndBatch(l) then []
            else if step == RunTask(l) && s.batch[l] != [] then s.ran[l] + [s.batch[l][0]]
            else s.ran[l]
  {
    hide Referenced, Watched, TaskRun, CloseFinished;
    match step
    case RunTask(k) => TaskOfQueue(Popped(s, k), s.batch[k][0], l);
    case FinishClose(k) => FinishOfQueue(s, s.closing[k].value, l);
    case _ =>
  }

  // --- forced closes

  // Step i is a ForceClose that finds c CONNECTED
  predicate FindsConnected(s: State, step: Step, c: ConnId) {
    step == ForceCheck(c) && c in s.conns && StateOf(s.conns[c].phase) == Connected
  }

  function ForceChecks(states: seq<State>, steps: seq<Step>, c: ConnId, n: nat): nat
    requires n <= |steps| < |states|
  {
    if n == 0 then 0 else ForceChecks(states, steps, c, n - 1) + One(FindsConnected(states[n - 1], steps[n - 1], c))
  }

  function ForcePushes(steps: seq<Step>, c: ConnId, n: nat): nat
    requires n <= |steps|
  {
    if n == 0 then 0 else ForcePushes(steps, c, n - 1) + One(steps[n - 1] == ForcePush(c))
  }

  lemma StepOfForcing(s: State, step: Step, c: ConnId)
    requires Enabled(s, step) && AssertsHold(s, step)
    ensures Apply(s, step).forcing[c] + One(step == ForcePush(c)) == s.forcing[c] + One(FindsConnected(s, step, c))
  {
    hide Referenced, Watched;
  }

  // Every call of ForceClose that finds c CONNECTED queues one task, once it gets there
  lemma {:induction false} ForceClosesAreQueued(states: seq<State>, steps: seq<Step>, c: ConnId, n: nat)
    requires IsRun(states, steps) && Fitting(states, steps, n)
    ensures states[n].forcing[c] + ForcePushes(steps, c, n) == ForceChecks(states, steps, c, n)
  {
    if n > 0 {
      hide Inv, Enabled, AssertsHold, Apply, Fits, FindsConnected;
      ForceClosesAreQueued(states, steps, c, n - 1);
      NoAssertFails(states, steps, n - 1);
      assert Enabled(states[n - 1], steps[n - 1]);
      StepOfForcing(states[n - 1], steps[n - 1], c);
    }
  }

  // The task, when it runs, closes a connection that is CONNECTED, and leaves any other alone
  lemma ForceCloseRuns(states: seq<State>, steps: seq<Step>, i: nat, l: LoopId, c: ConnId)
    requires IsRun(states, steps) && i < |steps| && Fitting(states, steps, i + 1)
    requires steps[i] == RunTask(l) && states[i].IsLoop(l) && states[i].batch[l] != []
    requires states[i].batch[l][0] == ForceClose(c)
    ensures c in states[i].conns && c in states[i + 1].conns && states[i + 1].IsLoop(l)
    ensures var s, t := states[i], states[i + 1];
            if StateOf(s.conns[c].phase) == Connected then
              && StateOf(t.conns[c].phase) == Disconnecting && t.closing[l] == Some(c)
              && t.closes[c] == 1 && s.closes[c] == 0
              && (l, t.conns[c].fd) in t.channels && t.channels[(l, t.conns[c].fd)] == Slot(c, false)
            else
              t.conns == s.conns && t.closes == s.closes && StateOf(s.conns[c].phase) != Connecting
  {
    hide Inv, AssertsHold, TaskRun, Fits, Referenced;
    RunKeepsInv(states, steps, i);
    RunKeepsInv(states, steps, i + 1);
    NoAssertFails(states, steps, i);
    TaskIsDue(states[i], l);
    ForceCloseTask(Popped(states[i], l), l, c);
    ClosedOnce(states[i], c);
    ClosedOnce(states[i + 1], c);
  }

  lemma ForceCloseTask(s: State, l: LoopId, c: ConnId)
    requires s.Known(c) && s.conns[c].home == l && StateOf(s.conns[c].phase) != Connecting
    ensures var t := TaskRun(s, ForceClose(c));
            && c in t.conns && t.IsLoop(l)
            && if StateOf(s.conns[c].phase) == Connected then
                 && StateOf(t.conns[c].phase) == Disconnecting && t.closing[l] == Some(c)
                 && t.conns[c].fd == s.conns[c].fd
                 && (l, s.conns[c].fd) in t.channels && t.channels[(l, s.conns[c].fd)] == Slot(c, false)
               else t.conns == s.conns && t.closes == s.closes
  {}

  lemma ClosedOnce(s: State, c: ConnId)
    requires Inv(s)
    ensures c in s.conns ==> s.closes[c] == One(Rank(Disconnecting) <= Rank(StateOf(s.conns[c].phase)))
  {
    hide ConnsAgree, TableAgrees, ChannelsAgree, ClosingAgrees, ActiveAgrees, TasksAgree, ForcingAgrees;
  }

  lemma {:induction false} ExecutedAt(states: seq<State>, steps: seq<Step>, l: LoopId, n: nat, k: nat) returns (i: nat)
    requires n <= |steps| < |states| && k < |Executed(states, steps, l, 0, n)|
    ensures i < n && steps[i] == RunTask(l) && states[i].IsLoop(l) && states[i].batch[l] != []
    ensures |Executed(states, steps, l, 0, i)| == k
    ensures Executed(states, steps, l, 0, n)[k] == states[i].batch[l][0]
  {
    if k < |Executed(states, steps, l, 0, n - 1)| {
      i := ExecutedAt(states, steps, l, n - 1, k);
    } else {
      i := n - 1;
    }
  }

  // A forced close is carried out: the task queued by ForcePush keeps its place in
  // the home loop, and once the loop has run that many tasks the connection has
  // been closed, exactly once.
  lemma ForceCloseCloses(states: seq<State>, steps: seq<Step>, j: nat, n: nat, c: ConnId)
    requires IsRun(states, steps) && j < n && Fitting(states, steps, n) && steps[j] == ForcePush(c)
    ensures states[j].Known(c) && states[n].IsLoop(states[j].conns[c].home)
    ensures var l := states[j].conns[c].home;
            var place := |History(states, steps, l, j)|;
            && place < |History(states, steps, l, n)| && History(states, steps, l, n)[place] == ForceClose(c)
            && (place < |Executed(states, steps, l, 0, n)| ==>
                  && c in states[n].conns && states[n].closes[c] == 1
                  && (StateOf(states[n].conns[c].phase) == Disconnecting ||
                      StateOf(states[n].conns[c].phase) == Disconnected))
  {
    hide Inv, Enabled, AssertsHold, Apply, Fits, Init, History;
    ForcePushAppends(states, steps, j, c);
    var l := states[j].conns[c].home;
    var place := |History(states, steps, l, j)|;
    NoTaskIsLost(states, steps, l, j + 1, n);
    if place < |Executed(states, steps, l, 0, n)| {
      ExecutedFirst(states, steps, l, n);
      ForceCloseHasRun(states, steps, l, n, place, c);
    }
  }

  lemma ExecutedFirst(states: seq<State>, steps: seq<Step>, l: LoopId, n: nat)
    requires n <= |steps| < |states| && states[n].IsLoop(l)
    ensures Executed(states, steps, l, 0, n) <= History(states, steps, l, n)
  {}

  lemma ForceCloseHasRun(states: seq<State>, steps: seq<Step>, l: LoopId, n: nat, place: nat, c: ConnId)
    requires IsRun(states, steps) && Fitting(states, steps, n) && place < |Executed(states, steps, l, 0, n)|
    requires Executed(states, steps, l, 0, n)[place] == ForceClose(c)
    ensures c in states[n].conns && states[n].closes[c] == 1
    ensures StateOf(states[n].conns[c].phase) == Disconnecting || StateOf(states[n].conns[c].phase) == Disconnected
  {
    hide Inv, Enabled, AssertsHold, Apply, Fits, Init;
    var i := ExecutedAt(states, steps, l, n, place);
    ForceCloseRuns(states, steps, i, l, c);
    StateOnlyAdvances(states, steps, i + 1, n, c);
    RunKeepsInv(states, steps, n);
    ClosedOnce(states[n], c);
  }

  lemma ForcePushAppends(states: seq<State>, steps: seq<Step>, j: nat, c: ConnId)
    requires IsRun(states, steps) && j < |steps| && Fitting(states, steps, j + 1) && steps[j] == ForcePush(c)
    ensures states[j].Known(c) && states[j + 1].IsLoop(states[j].conns[c].home)
    ensures var l := states[j].conns[c].home;
            History(states, steps, l, j + 1) == History(states, steps, l, j) + [ForceClose(c)]
  {
    hide Inv, AssertsHold, Apply, Fits, Init, QueuedByTask, History;
    assert Enabled(states[j], steps[j]);
    HistoryGrows(states, steps, states[j].conns[c].home, j);
  }

  // --- references of application code

  lemma StepOfUsers(s: State, step: Step, c: ConnId)
    requires Enabled(s, step) && AssertsHold(s, step)
    ensures c in Apply(s, step).users <==> step == UserTake(c) || (c in s.users && step != UserDrop(c))
  {
    hide Referenced, Watched;
  }

  predicate TakenAt(steps: seq<Step>, c: ConnId, i: nat, n: nat)
    requires n <= |steps|
  {
    i < n && steps[i] == UserTake(c) && forall k | i < k < n :: steps[k] != UserDrop(c)
  }

  predicate Taken(steps: seq<Step>, c: ConnId, n: nat)
    requires n <= |steps|
  {
    exists i | 0 <= i < n :: TakenAt(steps, c, i, n)
  }

  // The application holds exactly the references it has taken and not dropped since
  lemma {:induction false} UsersHold(states: seq<State>, steps: seq<Step>, c: ConnId, n: nat)
    requires IsRun(states, steps) && Fitting(states, steps, n)
    ensures c in states[n].users <==> Taken(steps, c, n)
  {
    hide Inv, Enabled, AssertsHold, Apply, Fits;
    assert n == 0 ==> !Taken(steps, c, n);
    if n > 0 {
      UsersHold(states, steps, c, n - 1);
      NoAssertFails(states, steps, n - 1);
      assert Enabled(states[n - 1], steps[n - 1]);
      StepOfUsers(states[n - 1], steps[n - 1], c);
      TakenSoFar(steps, c, n);
    }
  }

  lemma TakenSoFar(steps: seq<Step>, c: ConnId, n: nat)
    requires 0 < n <= |steps|
    ensures Taken(steps, c, n) <==>
            steps[n - 1] == UserTake(c) || (Taken(steps, c, n - 1) && steps[n - 1] != UserDrop(c))
  {
    assert forall i: nat :: TakenAt(steps, c, i, n) <==>
      (i == n - 1 && steps[i] == UserTake(c)) || (TakenAt(steps, c, i, n - 1) && steps[n - 1] != UserDrop(c));
    assert steps[n - 1] == UserTake(c) ==> TakenAt(steps, c, n - 1, n);
  }

  // --- reports

  // The connections whose events loop l has dispatched from step `from` up to step n
  function DispatchedOn(states: seq<State>, steps: seq<Step>, l: LoopId, from: nat, n: nat): seq<ConnId>
    requires from <= n <= |steps| < |states|
    decreases n
  {
    if from == n then []
    else
      var s, step := states[n - 1], steps[n - 1];
      DispatchedOn(states, steps, l, from, n - 1) +
      if (step == DispatchData(l) || step == DispatchClose(l, false)) && s.IsLoop(l) && s.active[l] != []
      then [s.active[l][0]] else []
  }

  lemma StepOfActive(s: State, step: Step, l: LoopId)
    requires Enabled(s, step) && AssertsHold(s, step) && s.IsLoop(l) && Apply(s, step).IsLoop(l)
    ensures Apply(s, step).active[l] ==
            if step == DispatchData(l) || step == DispatchClose(l, false) then s.active[l][1..]
            else if step.Poll? && step.loop == l then step.report
            else s.active[l]
  {
    hide Referenced, Watched, TaskRun, CloseFinished;
    match step
    case RunTask(k) => TaskOfQueue(Popped(s, k), s.batch[k][0], l);
    case FinishClose(k) => FinishOfQueue(s, s.closing[k].value, l);
    case _ =>
  }

  // The connections of a report are dispatched in order, each once
  lemma {:induction false} ReportIsWorkedOff(states: seq<State>, steps: seq<Step>, l: LoopId, p: nat, n: nat)
    requires IsRun(states, steps) && p < n && Fitting(states, steps, n) && states[n].IsLoop(l)
    requires steps[p].Poll? && steps[p].loop == l
    requires forall i | p < i < n :: !(steps[i].Poll? && steps[i].loop == l)
    ensures DispatchedOn(states, steps, l, p + 1, n) + states[n].active[l] == steps[p].report
    decreases n
  {
    hide Inv, AssertsHold, Apply, Fits, Referenced;
    NoAssertFails(states, steps, n - 1);
    assert Enabled(states[n - 1], steps[n - 1]);
    LoopsStay(states[n - 1], steps[n - 1]);
    StepOfActive(states[n - 1], steps[n - 1], l);
    if p + 1 < n {
      ReportIsWorkedOff(states, steps, l, p, n - 1);
    }
  }

  // A dispatch that meets end of file or hang-up closes the connection
  lemma DispatchCloses(states: seq<State>, steps: seq<Step>, i: nat, l: LoopId)
    requires IsRun(states, steps) && i < |steps| && Fitting(states, steps, i + 1) && steps[i] == DispatchClose(l, false)
    ensures states[i].IsLoop(l) && states[i + 1].IsLoop(l) && states[i].active[l] != []
    ensures var c, t := states[i].active[l][0], states[i + 1];
            && c in t.conns && StateOf(t.conns[c].phase) == Disconnecting && t.closing[l] == Some(c)
            && states[i].closes[c] == 0 && t.closes[c] == 1
  {
    hide Inv, Fits, Referenced, Watched;
    RunKeepsInv(states, steps, i);
    RunKeepsInv(states, steps, i + 1);
    NoAssertFails(states, steps, i);
    DispatchAssertsFollow(states[i], l);
    ClosedOnce(states[i], states[i].active[l][0]);
    ClosedOnce(states[i + 1], states[i].active[l][0]);
  }

  // Every loop can always move on
  lemma NeverStuck(states: seq<State>, steps: seq<Step>, n: nat, l: LoopId) returns (step: Step)
    requires IsRun(states, steps) && n < |states| && states[n].IsLoop(l)
    ensures Enabled(states[n], step)
    ensures var s := states[n];
            step == if s.closing[l].Some? then FinishClose(l)
                    else if s.active[l] != [] then DispatchData(l)
                    else if s.batch[l] != [] then RunTask(l)
                    else if s.ran[l] == [] && s.queue[l] != [] then Swap(l)
                    else EndBatch(l)
  {
    var s := states[n];
    step := if s.closing[l].Some? then FinishClose(l)
            else if s.active[l] != [] then DispatchData(l)
            else if s.batch[l] != [] then RunTask(l)
            else if s.ran[l] == [] && s.queue[l] != [] then Swap(l)
            else EndBatch(l);
  }

  // ----- runs that do happen ------------------------------------------------

  // A server with one loop, nothing accepted yet
  function Fresh(): State {
    State([[]], [[]], [[]], [[]], [None], map[], map[], {}, 0, map[], TABLE_SIZE, 0, {}, multiset{},
          multiset{}, multiset{}, multiset{})
  }

  // The second connection, in use, after a first one with the same descriptor is gone
  function Recycled(): State {
    Fresh().(conns := map[0 := Conn(5, SERVER, Gone), 1 := Conn(5, SERVER, Up)], live := {1}, nextId := 2,
             table := map[5 := 1], count := 1, channels := map[(SERVER, 5) := Slot(1, true)],
             closes := multiset{0}, notices := multiset{0}, removals := multiset{0})
  }

  // A connection is accepted and reported
  lemma FirstLife(s1: State, s2: State)
    requires s1 == Fresh().(conns := map[0 := Conn(5, SERVER, Up)], live := {0}, nextId := 1, table := map[5 := 0],
                            count := 1, channels := map[(SERVER, 5) := Slot(0, true)])
    requires s2 == s1.(active := [[0]])
    ensures Goes(Fresh(), Accept(5, SERVER), s1) && Goes(s1, Poll(SERVER, [0]), s2)
  {}

  // Its peer closes it
  lemma LifeEnds(s2: State, s3: State)
    requires s2 == Fresh().(conns := map[0 := Conn(5, SERVER, Up)], live := {0}, nextId := 1, table := map[5 := 0],
                            count := 1, channels := map[(SERVER, 5) := Slot(0, true)], active := [[0]])
    requires s3 == s2.(conns := map[0 := Conn(5, SERVER, Closing)], channels := map[(SERVER, 5) := Slot(0, false)],
                       closing := [Some(0)], closes := multiset{0}, active := [[]])
    ensures Goes(s2, DispatchClose(SERVER, false), s3)
  {
    assert s2.active[0][1..] == [];
    assert s2.active[0 := []] == [[]];
    assert s2.closing[0 := Some(0)] == [Some(0)];
  }

  // It is removed and destroyed
  lemma LifeIsOver(s3: State, s4: State)
    requires s4 == Fresh().(conns := map[0 := Conn(5, SERVER, Gone)], live := {0}, nextId := 1, closes := multiset{0},
                            notices := multiset{0}, removals := multiset{0})
    requires s3 == s4.(conns := map[0 := Conn(5, SERVER, Closing)], channels := map[(SERVER, 5) := Slot(0, false)],
                       table := map[5 := 0], count := 1, closing := [Some(0)], notices := multiset{},
                       removals := multiset{})
    ensures Goes(s3, FinishClose(SERVER), s4)
  {}

  // It is released, and the next one gets its descriptor
  lemma SecondLife(s4: State, s5: State)
    requires s5 == Fresh().(conns := map[0 := Conn(5, SERVER, Gone)], nextId := 1, closes := multiset{0},
                            notices := multiset{0}, removals := multiset{0})
    requires s4 == s5.(live := {0})
    ensures Goes(s4, Release(0), s5) && Goes(s5, Accept(5, SERVER), Recycled())
  {}

  predicate Goes(s: State, step: Step, t: State) {
    Enabled(s, step) && AssertsHold(s, step) && Fits(s, step) && Apply(s, step) == t
  }

  // A descriptor is used, closed by the peer, released and handed out again
  lemma DescriptorIsReused() returns (states: seq<State>, steps: seq<Step>)
    ensures IsRun(states, steps) && Fitting(states, steps, |steps|) && states[|steps|] == Recycled()
    ensures steps[0] == steps[|steps| - 1] == Accept(5, SERVER)
  {
    hide Enabled, AssertsHold, Fits, Apply;
    steps := [Accept(5, SERVER), Poll(SERVER, [0]), DispatchClose(SERVER, false), FinishClose(SERVER), Release(0),
              Accept(5, SERVER)];
    var s5 := Fresh().(conns := map[0 := Conn(5, SERVER, Gone)], nextId := 1, closes := multiset{0},
                       notices := multiset{0}, removals := multiset{0});
    var s4 := s5.(live := {0});
    var s1 := Fresh().(conns := map[0 := Conn(5, SERVER, Up)], live := {0}, nextId := 1, table := map[5 := 0],
                       count := 1, channels := map[(SERVER, 5) := Slot(0, true)]);
    var s2 := s1.(active := [[0]]);
    var s3 := s1.(conns := map[0 := Conn(5, SERVER, Closing)], channels := map[(SERVER, 5) := Slot(0, false)],
                  closing := [Some(0)], closes := multiset{0});
    states := [Fresh(), s1, s2, s3, s4, s5, Recycled()];
    FirstLife(s1, s2);
    LifeEnds(s2, s3);
    LifeIsOver(s3, s4);
    SecondLife(s4, s5);
    assert forall i | 0 <= i < 6 :: Goes(states[i], steps[i], states[i + 1]);
  }

  // A descriptor that the server's table takes and a poller does not: the very first step does not fit
  lemma PollerOverrunHappens() returns (s: State, step: Step)
    ensures Init(s) && Enabled(s, step) && step.Accept? && step.fd < 2 * s.tableSize && !AssertsHold(s, step)
    ensures !PollersInBounds(Accepted(s, step.fd, step.home))
  {
    s, step := Fresh(), Accept(POLLER_SIZE, SERVER);
    assert (SERVER, POLLER_SIZE) in Accepted(s, POLLER_SIZE, SERVER).channels;
  }
}
