# Verified model of a reactor network library

The library gives each thread one event loop: an epoll wrapper, a timer queue, a cross-thread task queue, buffered TCP
connections, a server that spreads connections over several loops, and a client connector that retries.  The system
calls are thin; the difficulty is the bookkeeping around them.  This project models that bookkeeping and proves what it
keeps over every run.

To verify the whole project: `dafny verify dfyconfig.toml`.

| module | what it models |
|---|---|
| `ConnectionLifetime` | accept, close, removal and destruction of a connection across loops, as a step system with task queues, strong references and descriptor reuse |
| `TimerModel`, `TimerQueues` | the timer queue as a state machine with re-entrant callbacks, and the class of the source, proved to take its steps |
| `WakeupProtocol` | the concurrent protocol of task queue, wakeup flag, eventfd and quit flag |
| `Buffers` | the byte buffer, its space bound, the typed integers, and the overlapping move of `MakeSpace` |
| `TcpConnections` | the data path of a connection on top of `Buffers`, and the dispatch of its events |
| `Epollers` | channels, the poller's tables and counters, and the kernel's interest set |
| `TcpConnectors` | the connector's state machine with its back-off |
| `ConnectionTables` | the server's table of connections by descriptor |
| `CrossThreadCalls` | AddTimer, Cancel and Send called on another thread: the task queue, the timers and a connection's output together |
| `Basics`, `ConnStates` | shared definitions |

How the models are built:

- Code that runs on one thread and changes an object is a class with the fields of the source, the results of system
  calls being parameters.  Where a property is about whole runs, ghost fields hold the history (bytes consumed and
  appended, messages accepted, steps taken, sockets open) and the class invariant states the property, so it holds after
  any sequence of calls.
- Code whose threads interleave is a state machine over values: one step per action that another thread can observe.  A
  run is any sequence of enabled steps.  What the source asserts is never assumed: `AssertsHold` collects the assertions
  of a step, a step whose assertion fails may lead to any state, and the theorems prove that none fails, or exactly at
  which steps one does.

## Findings

Where the code does not do what its comments or names promise, the model follows the code, and a member states exactly
when the promise holds.

- `MakeSpace` calls `std::copy_backward` with the destination in front of the source.  Copied element by element this is
  right for every content if and only if the ranges do not overlap or the data is in place already
  (`Buffers.BackwardCompactionIsSafe`).  The `Buffer` class takes it as the memmove that libraries perform for `char`.
- A readable and writable report whose read meets end of file runs `HandleWrite` on a closed connection and fails its
  assertion, exactly then (`TcpConnections.TcpConnection.HandleEvent`, with the short run
  `TcpConnections.EndOfFileMeetsPendingOutput`).  Over the life of connections across loops such a report is one of the
  three ways in which an assertion or an index of the source can fail; the other two are descriptors too large for a
  table (`ConnectionLifetime.NoAssertFails`, `Fits`).
- A failed direct send drops its message whole, also on EAGAIN; an empty message sent while output is pending announces
  write-complete early, and nothing else does (`TcpConnections.TcpConnection.Send`).
- `ShutdownWriteInLoop` does not test the state: after a close it shuts the write side on unsent output
  (`TcpConnections.TcpConnection.ShutdownWriteInLoop`, with the short run `TcpConnections.ShutdownAfterClose`).
- A `Cancel` that overtakes the queued `AddTimerInLoop` of its own timer is lost; every other one takes effect
  (`TimerModel.CancelDooms`, with the run `TimerModel.LostCancelFires`).  That is a direct call on the loop's own
  thread, exactly while the insertion is queued; a `Cancel` from another thread is never lost
  (`CrossThreadCalls.DirectCancelIsLost`, `QueuedCancelIsNeverLost`).
- A `Quit` made before `Loop` is lost, and no other, and a task queued by the loop's thread before `Loop` is slept on exactly when the
  uninitialised flag `need_wakup_` is false (`WakeupProtocol.OnlyEarlyQuitIsLost`, `EarlyTaskNeedsTheFlag`,
  `EarlyTaskIsSleptOn`).
- `TCPConnector::StopInLoop` loses the descriptor of a socket that is still connecting, exactly then
  (`TcpConnectors.TcpConnector.Stop`, with the short run `TcpConnectors.StopWhileConnecting`).
- `AddConnListItem` lets a descriptor equal to the doubled size through to the index
  (`ConnectionTables.ConnectionTable.AddConnListItem`).  A connection with a larger one is turned away and destroyed in
  CONNECTING, which its destructor asserts against, exactly then (`ConnectionTables.OnNewConnection`).
- The server's table grows but the pollers' tables do not: a descriptor from 1048576 up that the server accepts is
  registered out of bounds (`ConnectionLifetime.PollersSuffice`, `PollersOverrun`, `PollerOverrunHappens`).

## Model

| member | source | states |
|---|---|---|
| `ConnectionLifetime.NoAssertFails` | src/tcp_server.cc:132-236 | over every interleaving of accepts, closes, racing ForceClose calls and queued tasks, an assertion or an index of server, connection or poller fails at a step if and only if the step does not fit: a descriptor too large for a table, or a write handler called after the close in the same dispatch |
| `ConnectionLifetime.OrdinaryRunsFit` | src/epoller.cc:118-125 | if every accepted descriptor is below the pollers' size and no report carries end of file with writability, every step of the run fits, so nothing ever fails |
| `ConnectionLifetime.RecycledSlotsAreFree` | src/tcp_server.cc:198-219 | whenever a new connection gets a recycled descriptor, its slot is free in the server's table and in every loop's channel table |
| `ConnectionLifetime.RegisteredHasLiveOwner` | src/epoller.cc:128-154 | a registered channel belongs to a connection that is alive, strongly referenced and the only live one with that descriptor; the server's count is exact |
| `ConnectionLifetime.ClosesOnce` | src/tcp_connection.cc:341-371 | HandleClose, the disconnection callback and the removal each run at most once, in that order, and exactly once by the time the connection is destroyed |
| `ConnectionLifetime.ForceCloseCloses` | src/tcp_connection.cc:103-114 | over every run, the task of a ForceClose keeps its place in the home loop, and once the loop has run that far the connection is DISCONNECTING or DISCONNECTED, closed exactly once |
| `ConnectionLifetime.ForceCloseRuns` | src/tcp_connection.cc:248-262 | the task closes a CONNECTED connection: HandleClose is on the stack of its loop and its channel is no longer watched; any other connection it leaves alone |
| `ConnectionLifetime.ForceClosesAreQueued` | src/tcp_connection.cc:108-111 | every ForceClose that finds CONNECTED queues one task or is still about to |
| `ConnectionLifetime.DispatchCloses` | src/tcp_connection.cc:281-285 | a dispatch that meets end of file or hang-up closes the connection |
| `ConnectionLifetime.ReportIsWorkedOff` | src/event_loop.cc:131-141 | the connections of a report are dispatched in order, each once |
| `ConnectionLifetime.HistoryGrows` | src/tcp_server.cc:170-196 | each step adds to the tasks of each loop exactly the Establish, Remove, Destroy, ForceClose or other task that the code queues there |
| `ConnectionLifetime.NoTaskIsLost` | src/event_loop.cc:348-366 | in every loop, the tasks that have run, the rest of the batch and the queue only ever grow at the end: none is lost, repeated or overtaken |
| `ConnectionLifetime.RanSinceBatchEnd` | src/event_loop.cc:348-366 | a loop holds on to exactly the tasks it has run since its last batch ended, so their references then drop |
| `ConnectionLifetime.UsersHold` | src/tcp_connection.cc:34-42 | application code holds exactly the references it has taken and not dropped since |
| `ConnectionLifetime.NeverStuck` | src/event_loop.cc:129-150 | every loop can always move on |
| `ConnectionLifetime.StateOnlyAdvances` | src/tcp_connection.cc:124-150 | between any two points of a run state_ only moves forward through the four states, at most one per step, and descriptor and loop never change |
| `ConnectionLifetime.RunKeepsInv` | src/tcp_server.cc:132-236 | every state of every run satisfies the invariant tying phases, tables, references, queued tasks and history together |
| `ConnectionLifetime.StepKeeps` | src/tcp_connection.cc:341-371 | every step of the life cycle keeps that invariant |
| `ConnectionLifetime.AssertsFollow` | src/tcp_server.cc:198-236 | under the invariant the assertions of the next step hold if and only if it fits; the "already exist" and "not exist" branches are unreachable |
| `ConnectionLifetime.HeldUntilGone` | src/tcp_server.cc:177-196 | until it is destroyed a connection is held by the table or by the queued ConnectionDestroy |
| `ConnectionLifetime.ReleaseAssertsFollow` | src/tcp_connection.cc:34-42 | when the last reference to a connection in the table's care drops, it is DISCONNECTED, as the destructor asserts |
| `ConnectionLifetime.StemsFromAccept` | src/tcp_server.cc:132-168 | every connection of a run stems from an accept with its very descriptor and loop |
| `ConnectionLifetime.PollersSuffice` | src/epoller.cc:118-125 | while every step fits, no run indexes a poller out of bounds |
| `ConnectionLifetime.PollersOverrun` | src/epoller.cc:118-125 | registering an accepted connection stays in bounds exactly when its descriptor is below that size |
| `ConnectionLifetime.PollerOverrunHappens` | src/epoller.cc:118-125 | the first accept of a run can already overrun a poller that the server's table does not protect |
| `ConnectionLifetime.DescriptorIsReused` | src/tcp_server.cc:132-196 | a run in which a descriptor is accepted, closed by the peer, released and accepted again |
| `TimerModel.TimeLeftIsExact` | src/timer_queue.cc:30-40 | for any two 64-bit timestamps the timespec is legal and never zero; it encodes the clamped difference exactly when the signed conversion does not distort it |
| `TimerModel.LowerBound` | src/timer_queue.cc:178-200 | splits the ordered index into the entries below the sentry and the rest |
| `TimerModel.InsertEntry` | src/timer_queue.cc:229-253 | std::set insertion: ordered, contents plus the entry, the new first entry |
| `TimerModel.EraseEntry` | src/timer_queue.cc:133-153 | std::set erasure: ordered, contents minus the entry |
| `TimerModel.ExpiredAreDue` | src/timer_queue.cc:178-200 | getExpired takes exactly the entries with expiration at most now, in nondecreasing order |
| `TimerModel.BatchIsDue` | src/timer_queue.cc:178-200 | the start of HandleRead moves exactly the timers due from the indexes into its batch, in nondecreasing order, and changes nothing else |
| `TimerModel.NoAssertFails` | src/timer_queue.cc:120-253 | over every run with re-entrant AddTimer and Cancel no size or search assertion fails and no freed timer is touched |
| `TimerModel.RunKeepsInv` | src/timer_queue.cc:120-253 | every reachable state, mid-batch included, satisfies the queue's invariant |
| `TimerModel.IndexesAlwaysAgree` | src/timer_queue.cc:120-253 | timers_ and active_timers_ hold exactly the same live timers with current expiration and sequence, and the running batch is in neither |
| `TimerModel.OnePlaceOrFreedOnce` | src/timer_queue.cc:107-218 | every timer is in exactly one of add-queued, pending and running batch, or has been freed exactly once; sequence numbers are never shared |
| `TimerModel.ArmedInTime` | src/timer_queue.cc:120-131 | outside HandleRead the timerfd is armed for no later than any pending timer's expiration, or arming time plus 100 microseconds, although Cancel never re-arms |
| `TimerModel.ArmDeadline` | src/timer_queue.cc:54-68 | arming sets the deadline to the later of the expiration and 100 microseconds from now |
| `TimerModel.FiringsAreSpaced` | src/timer.cc:10-20 | no firing is early; only repeating timers fire twice, and their firings are at least an interval apart, hence never twice in one HandleRead |
| `TimerModel.RepeatsUnlessCancelled` | src/timer_queue.cc:202-218 | over every run, a repeating timer that was due is pending again when HandleRead ends, due exactly one interval after the time read, in both indexes, unless it was cancelled in the meantime; every other one is deleted and freed once |
| `TimerModel.EndRenews` | src/timer_queue.cc:202-218 | the same of the end of HandleRead alone, by the set of cancelled identifiers |
| `TimerModel.EndLeavesOthers` | src/timer_queue.cc:202-218 | it changes no timer outside the batch: not its fields, its place or its existence |
| `TimerModel.EndArms` | src/timer_queue.cc:220-226 | it leaves the timerfd armed for exactly the earliest timer, or 100 microseconds from now |
| `TimerModel.AddInserts` | src/timer_queue.cc:120-131 | exactly this timer enters both indexes; the timerfd is armed for exactly its expiration, or 100 microseconds from now, if it is the earliest, and else left |
| `TimerModel.DuringBatch` | src/timer_queue.cc:155-176 | while HandleRead runs, its batch and the timers in it do not change, and those noted as cancelled are exactly those cancelled since it began |
| `TimerModel.CancelDooms` | src/timer_queue.cc:133-153 | Cancel of a genuine identifier takes effect if and only if the timer's AddTimerInLoop is not still queued |
| `TimerModel.LostCancelFires` | src/timer_queue.cc:107-153 | a run in which a timer fires after its Cancel was lost |
| `TimerModel.DoomedForever` | src/timer_queue.cc:133-218 | a cancelled timer stays so over any further run, never comes back, and uses up at most the turn it has left |
| `TimerModel.CancelledStaysSilent` | src/timer_queue.cc:133-218 | cancelled outside a batch a timer never runs again; cancelled inside one it is never re-inserted and runs at most once more, only if its turn in that batch is to come |
| `TimerModel.StaleIdIsHarmless` | src/timer_queue.cc:133-153 | cancelling an identifier changes no other timer, even one that now has the same address |
| `TimerModel.PlayIsRun` | src/timer_queue.cc:155-176 | what the class reaches is reached by a run, so all theorems about runs hold of the class |
| `TimerQueues.TimerQueue.constructor` | src/timer_queue.cc:76-88 | an empty queue in the initial state |
| `TimerQueues.TimerQueue.NewTimer` | src/timer.h:14-21 | the identifier returned is genuine and names a timer with the expiration and interval asked for; the batch on the stack is untouched |
| `TimerQueues.TimerQueue.Insert` | src/timer_queue.cc:229-253 | both indexes gain the timer; the result says whether it became the earliest |
| `TimerQueues.TimerQueue.AddTimerInLoop` | src/timer_queue.cc:120-131 | takes the model's step: insertion, and re-arming if the timer is the earliest |
| `TimerQueues.TimerQueue.AddTimer` | src/timer_queue.cc:107-113 | on the loop's thread the timer is pending at once with what was asked for, from inside a callback too, without touching the running batch |
| `TimerQueues.TimerQueue.CancelInLoop` | src/timer_queue.cc:133-153 | takes the model's step: both indexes and the heap, or the cancelled set during a batch |
| `TimerQueues.TimerQueue.GetExpired` | src/timer_queue.cc:178-200 | the loop removes from the second index exactly the timers of the entries split off the first |
| `TimerQueues.TimerQueue.ResetEntry` | src/timer_queue.cc:205-218 | one iteration of Reset: restart and re-insert, or delete |
| `TimerQueues.TimerQueue.Reset` | src/timer_queue.cc:202-227 | the loop performs that for the whole batch and re-arms for the earliest timer left |
| `TimerQueues.TimerQueue.Callback` | src/timer_queue.cc:164-171 | a callback's requests are carried out in order, leave the batch and its timers as they were, and note exactly the cancellations |
| `TimerQueues.TimerQueue.RunBatch` | src/timer_queue.cc:164-171 | the loop runs every callback once, in order, and each makes its requests |
| `TimerQueues.TimerQueue.EndRead` | src/timer_queue.cc:172-175 | what becomes of each timer of the batch, and the deadline of the timerfd |
| `TimerQueues.TimerQueue.HandleRead` | src/timer_queue.cc:155-176 | every timer due runs exactly once, in order of expiration, none before its time, whatever the callbacks add or cancel; a repeating one is pending again one interval later unless a callback cancelled it, any other is deleted; the timerfd is armed for the earliest |
| `WakeupProtocol.StepKeeps` | src/event_loop.cc:119-201 | every step of loop thread or other threads keeps the protocol's invariant and only extends the history |
| `WakeupProtocol.NoLostWakeup` | src/event_loop.cc:186-201 | whenever the loop sleeps with a task from another thread or from a task waiting, or with quit_ set, the eventfd is positive or the thread concerned still owes its Wakeup; a handler's task never waits |
| `WakeupProtocol.PromiseHolds` | src/event_loop.cc:348-366 | what is queued before the swap of an iteration stays accounted for until it has run |
| `WakeupProtocol.RunsBeforeNextSleep` | src/event_loop.cc:129-150 | once Poll has returned, every task queued so far has run before the loop sleeps again or leaves Loop |
| `WakeupProtocol.TasksAreConserved` | src/event_loop.cc:348-366 | executed tasks, rest of the batch and queue are together all tasks ever pushed, in order; each runs at most once, first in first out; out of Loop exactly those pushed before the final swap have run |
| `WakeupProtocol.CallsAreCounted` | src/event_loop.cc:186-191 | every QueueInLoop queues exactly one task, and every execution is of one |
| `WakeupProtocol.OnlyEarlyQuitIsLost` | src/event_loop.cc:119-129 | over every run, a test of the loop ends it if and only if Quit was called, by any thread at any point, since Loop was entered |
| `WakeupProtocol.LoopReturns` | src/event_loop.cc:129-156 | once a test has found a Quit there is no other test, poll or ordinary drain: after one swap and the end of that drain Loop has returned |
| `WakeupProtocol.ReturnsOnlyAfterQuit` | src/event_loop.cc:129-156 | Loop has returned, or is in its last drain, only after such a test |
| `WakeupProtocol.LoopGoesRound` | src/event_loop.cc:129-150 | test, poll, dispatch, one drain and test again, in exactly this order; it polls again exactly if Quit was not called |
| `WakeupProtocol.NeverStuck` | src/event_loop.cc:119-156 | the loop's thread can always move on |
| `WakeupProtocol.QuitIsRemembered` | src/event_loop.cc:158-170 | quit_ is set exactly if Quit was called since Loop was entered |
| `WakeupProtocol.QuitWakesTheLoop` | src/event_loop.cc:158-170 | whenever the loop sleeps after a Quit made since it was entered, a Wakeup is in the eventfd or owed |
| `WakeupProtocol.EventfdCounts` | src/event_loop.cc:271-291 | the eventfd holds exactly the number of wakeups since it was last read, until it saturates |
| `WakeupProtocol.FlagIsExact` | src/event_loop.cc:348-366 | once a drain has ended need_wakup_ says exactly whether one is under way |
| `WakeupProtocol.OwingIsExact` | src/event_loop.cc:186-201 | a Wakeup is owed exactly from the push by another thread until its call of Wakeup |
| `WakeupProtocol.QuittersAreExact` | src/event_loop.cc:158-170 | and for Quit from its first statement to its second |
| `WakeupProtocol.EarlyTaskNeedsTheFlag` | src/event_loop.cc:186-201 | a task queued before Loop by its own thread wakes the first poll exactly when need_wakup_ happens to be set |
| `WakeupProtocol.EarlyTaskIsSleptOn` | src/event_loop.cc:68-78 | a run from the initial state that sleeps on such a task and on a lost Quit |
| `Buffers.EncodeIsModular` | src/buffer.h:136-161 | the bytes, read as a number, are the value modulo the width |
| `Buffers.EncodeDigit` | src/buffer.h:136-161 | byte i of n is the digit of weight 256^(n-1-i) of the value: big-endian, in two's complement |
| `Buffers.UnsignedDigit` | src/buffer.h:53-87 | any bytes are read with these weights |
| `Buffers.FourWidths` | src/buffer.h:136-161 | the four widths hold exactly the values of int8_t, int16_t, int32_t and int64_t |
| `Buffers.DecodeEncode` | src/buffer.h:53-87 | every value of every signed width decodes from its encoding unchanged |
| `Buffers.EncodeDecode` | src/buffer.h:53-87 | any bytes are the encoding of the value they decode to, which is one of the type |
| `Buffers.ReadBackInOrder` | src/buffer.h:136-206 | any sequence of typed appends reads back in order, leaving what follows |
| `Buffers.ArrivesAsIs` | src/buffer.h:260-260 | in a backward copy an element outside the destination written so far arrives unchanged |
| `Buffers.SeparateRangesCompact` | src/buffer.h:257-262 | element-wise copy_backward compacts correctly when the ranges are apart or in place |
| `Buffers.OverlappingRangesCorrupt` | src/buffer.h:257-262 | it loses data whenever the ranges overlap and the last byte differs from the one a shift below |
| `Buffers.BackwardCompactionIsSafe` | src/buffer.h:257-262 | it is right for every content if and only if the ranges do not overlap or nothing moves |
| `Buffers.Buffer.constructor` | src/buffer.h:18-23 | an empty byte queue |
| `Buffers.Buffer.ReadableBytes` | src/buffer.h:28-31 | the number of readable bytes |
| `Buffers.Buffer.FindCRLF` | src/buffer.h:38-51 | the first CRLF from the start on, or none exactly when there is none |
| `Buffers.Buffer.Retrieve` | src/buffer.h:89-105 | moves exactly n bytes from the front of the readable ones to the consumed ones |
| `Buffers.Buffer.RetrieveAsString` | src/buffer.h:116-122 | returns exactly the bytes it consumes |
| `Buffers.Buffer.MakeSpace` | src/buffer.h:245-263 | compaction or growth keeps the readable bytes and makes room; the exact new size |
| `Buffers.Buffer.EnsureWritableBytes` | src/buffer.h:265-271 | room for n bytes within twice the largest live content |
| `Buffers.Buffer.Append` | src/buffer.h:170-178 | consumed plus readable bytes stay all bytes appended; storage stays within max(1024, 2M) for live content at most M |
| `Buffers.Buffer.ReadFd` | src/buffer.cc:14-51 | the split read appends exactly the bytes received, in order, and nothing on failure |
| `Buffers.Buffer.AppendInt` | src/buffer.h:136-161 | appends the bytes of the value, most significant first, digit by digit |
| `Buffers.Buffer.ReadInt` | src/buffer.h:180-206 | returns the value of the type whose bytes are in front, most significant first, and consumes exactly these, with the history and the peak kept |
| `TcpConnections.StreamConserves` | src/tcp_connection.cc:152-177 | a message sent in part and buffered for the rest keeps its place in the stream |
| `TcpConnections.TcpConnection.ConnectionEstablished` | src/tcp_connection.cc:124-139 | CONNECTED and reading, with nothing sent |
| `TcpConnections.TcpConnection.SendMostPossible` | src/tcp_connection.cc:185-215 | sends directly only with nothing buffered (its assertion), and says how much remains |
| `TcpConnections.TcpConnection.SendDatQueueInBuffer` | src/tcp_connection.cc:217-233 | appends, turns write interest on, and warns exactly at the high-water mark |
| `TcpConnections.TcpConnection.Send` | src/tcp_connection.cc:152-177 | a message is accepted whole unless its direct send fails, then it is dropped whole; write interest stays on exactly while output is buffered; early write-complete exactly for an empty message behind others |
| `TcpConnections.TcpConnection.HandleWrite` | src/tcp_connection.cc:299-329 | the kernel takes a prefix of the buffer; write-complete is queued exactly when this drains it |
| `TcpConnections.TcpConnection.Run` | src/tcp_connection.cc:152-329 | over every run with any partial sends, bytes handed to the kernel followed by the buffer are exactly the messages that get through, uncut and in order; the bytes left buffered, their peak and the notices queued are as the references compute them from lengths alone |
| `TcpConnections.TcpConnection.Act` | src/tcp_connection.cc:152-319 | one action of such a run: the message that passes, the bytes left buffered, the peak and the notice queued |
| `TcpConnections.TcpConnection.WriteCompleteMeansDrained` | src/tcp_connection.cc:162-173 | a write-complete notice means an empty buffer if and only if it is not for an empty message behind others |
| `TcpConnections.RunAppend` | src/tcp_connection.cc:152-329 | how messages, buffered bytes and peak of a run grow by one action |
| `TcpConnections.TcpConnection.ShutdownWriteInLoop` | src/tcp_connection.cc:235-246 | until the connection is closed the write side is shut exactly when nothing is buffered; on unsent output exactly after a close |
| `TcpConnections.TcpConnection.HandleClose` | src/tcp_connection.cc:341-371 | in any state: DISCONNECTING, no interest left, and the disconnection and removal callbacks called once more |
| `TcpConnections.TcpConnection.ForceCloseInLoop` | src/tcp_connection.cc:248-262 | closes a connection that is not closed yet, and leaves any other alone |
| `TcpConnections.TcpConnection.ConnectionDestroy` | src/tcp_connection.cc:141-150 | DISCONNECTED, from any state |
| `TcpConnections.TcpConnection.HandleRead` | src/tcp_connection.cc:264-297 | the input grows by exactly what was received and shrinks by what the callback consumes, with its history; end of file closes; the callback and its sends run exactly when data came; messages, buffered bytes, peak and notices by the references |
| `TcpConnections.TcpConnection.HandleEvent` | src/channel.cc:75-129 | the assertion of HandleWrite holds in a dispatch except exactly on end of file with writability and neither hang-up nor error; case by case, what is read, sent by the callback and written: a writable event hands the kernel a prefix of the buffer and announces write-complete exactly if that drains it; the write side is not shut |
| `TcpConnections.EndOfFileMeetsPendingOutput` | src/channel.cc:107-125 | a short run to the failing assertion |
| `TcpConnections.ShutdownAfterClose` | src/tcp_connection.cc:235-246 | a short run that shuts the write side on a byte never sent |
| `Epollers.OccupyOne` | src/epoller.cc:305-318 | filling an empty slot adds one to the count |
| `Epollers.VacateOne` | src/epoller.cc:320-344 | emptying an occupied slot takes one from the count |
| `Epollers.VisitedIsPrefix` | src/event_loop.cc:131-141 | the iteration of Loop up to the first null is exactly the prefix before it |
| `Epollers.Epoller.constructor` | src/epoller.cc:25-42 | empty tables that agree with an empty kernel set |
| `Epollers.Epoller.KernelIsExact` | src/poller.cc:31-52 | the kernel watches exactly the registered channels with a non-empty mask, for exactly these events |
| `Epollers.Epoller.Ctl` | src/epoller.cc:286-303 | epoll_ctl fails exactly on EEXIST or ENOENT |
| `Epollers.Epoller.AddChannelListItem` | src/epoller.cc:305-318 | the count and the largest descriptor stay exact |
| `Epollers.Epoller.DelChannelListItem` | src/epoller.cc:320-344 | the downward search finds the largest descriptor left, or 0 |
| `Epollers.Epoller.UpdateNew` | src/epoller.cc:128-154 | a new channel is registered, its ADD being legal |
| `Epollers.Epoller.UpdateRegistered` | src/epoller.cc:155-209 | MOD, DEL or ADD is legal and leaves statuses and kernel in agreement |
| `Epollers.Epoller.UpdateChannel` | src/epoller.cc:110-209 | the kernel's entry becomes the channel's mask, or goes if that is empty |
| `Epollers.Epoller.SetEvents` | src/channel.h:35-39 | every change of a mask keeps table, statuses and kernel in agreement |
| `Epollers.Epoller.RemoveChannel` | src/epoller.cc:211-243 | table and kernel forget the channel; its DEL is legal; a new channel is left alone |
| `Epollers.Epoller.HasChannel` | src/poller.cc:11-28 | whether the slot is occupied; its assertions fail for a channel of the loop exactly if it is new and another one is registered for its descriptor |
| `Epollers.Epoller.ReportedAreWatched` | src/epoller.cc:245-265 | a channel the kernel reports has a non-empty mask, so the spurious branch is unreachable |
| `Epollers.Epoller.FillActiveChannel` | src/epoller.cc:245-265 | the null is in bounds; watched channels are entered in order, spurious ones counted and skipped |
| `Epollers.Epoller.Poll` | src/epoller.cc:53-90 | whatever earlier polls left, Loop visits exactly the reported channels, in order, with their events, and none is spurious |
| `TcpConnectors.BackoffIsCappedDoubling` | src/tcp_connector.cc:182-196 | the n-th delay is min(1000 * 2^n, 30000) milliseconds, that is 1, 2, 4, 8, 16 and then 30 seconds |
| `TcpConnectors.TcpConnector.constructor` | src/tcp_connector.cc:15-25 | disconnected, no channel, no timer |
| `TcpConnectors.TcpConnector.Connect` | src/tcp_connector.cc:87-125 | CONNECTING with the new channel, or the socket closed and a retry set; channel_ was null |
| `TcpConnectors.TcpConnector.Retry` | src/tcp_connector.cc:182-196 | while running exactly one timer with the next delay of the back-off |
| `TcpConnectors.TcpConnector.Start` | src/tcp_connector.cc:33-39 | CONNECTING, or a retry pending |
| `TcpConnectors.TcpConnector.TimerFires` | src/tcp_connector.cc:60-69 | the assertions of StartInLoop and Connecting hold when the retry timer fires |
| `TcpConnectors.TcpConnector.Restart` | src/tcp_connector.cc:49-58 | the back-off starts again at one second |
| `TcpConnectors.TcpConnector.RemoveAndResetChannel` | src/tcp_connector.cc:198-205 | unregistered, with one deferred reset |
| `TcpConnectors.TcpConnector.ResetChannel` | src/tcp_connector.cc:207-211 | channel_ is null again |
| `TcpConnectors.TcpConnector.HandleWrite` | src/tcp_connector.cc:127-163 | connected, or closed with a retry; never a waiting channel and a retry timer together, and no socket is lost |
| `TcpConnectors.TcpConnector.HandleError` | src/tcp_connector.cc:165-180 | while connecting the socket is closed and a retry set; else nothing happens |
| `TcpConnectors.TcpConnector.Stop` | src/tcp_connector.cc:41-85 | no timer and no registration left; a descriptor is lost exactly when it finds CONNECTING |
| `TcpConnectors.StopWhileConnecting` | src/tcp_connector.cc:41-85 | a short run that loses a descriptor |
| `ConnectionTables.StoreEntry` | src/tcp_server.cc:216-218 | storing adds one entry and one to the count |
| `ConnectionTables.ClearEntry` | src/tcp_server.cc:231-233 | clearing removes one entry and one from the count |
| `ConnectionTables.GrowKeepsEntries` | src/tcp_server.cc:200-201 | doubling keeps every entry |
| `ConnectionTables.ConnectionTable.AddConnListItem` | src/tcp_server.cc:198-219 | stored, turned away, slot taken, or index past the end, each exactly when; the count stays exact |
| `ConnectionTables.ConnectionTable.DelConnListItem` | src/tcp_server.cc:221-236 | the entry is gone and the count exact |
| `ConnectionTables.AddThenDelete` | src/tcp_server.cc:198-236 | for every descriptor, stored or not, deleting what was added restores the table |
| `ConnectionTables.OnNewConnection` | src/tcp_server.cc:157-168 | the connection is dropped in a state other than DISCONNECTED, which its destructor asserts, exactly when the table is full |
| `CrossThreadCalls.QueuedCancelIsNeverLost` | src/timer_queue.cc:107-118 | over every run, a timer whose AddTimer had returned when another thread cancelled it is never pending again once that task has run, and runs at most the one turn it has left in a running batch |
| `CrossThreadCalls.QueuedCancelDooms` | src/timer_queue.cc:107-118 | the task of such a Cancel always finds the insertion done, so it takes effect |
| `CrossThreadCalls.DirectCancelIsLost` | src/event_loop.cc:172-184 | a Cancel on the loop's own thread takes effect if and only if the insertion is not still queued |
| `CrossThreadCalls.DoomedForever` | src/timer_queue.cc:133-218 | a cancelled timer stays so over the joint run of queue and timers |
| `CrossThreadCalls.SendsKeepTheirOrder` | src/tcp_connection.cc:56-78 | over every run, messages sent one after the other from another thread reach the connection in that order, none before an earlier one, and stand in that order in the stream |
| `CrossThreadCalls.NoSendIsPassedOver` | src/tcp_connection.cc:179-183 | while the connection is open a queued message has reached it exactly if its task has run |
| `CrossThreadCalls.LogIsKept` | src/tcp_connection.cc:152-183 | what happened to the output keeps its place; after the close nothing is added |
| `CrossThreadCalls.OutputIsLogged` | src/tcp_connection.cc:152-183 | every action on the loop's own thread has its place, and a close ends the log |
| `CrossThreadCalls.TimersCanMove` | src/timer_queue.cc:120-153 | every queued insertion and cancellation finds its assertions true when its task runs |
| `CrossThreadCalls.RunKeepsInv` | src/event_loop.cc:186-201 | every state of every joint run satisfies the invariant tying queued calls, timers and output together |

## Left out

- TCPServer::Stop and the shutdown of the loop threads: Stop ends the worker loops before it uses their connections.
- src/connector.cc: an older copy of the connector that the client does not use.
- UDP receiver, worker and packet queue; Acceptor, Socket, InetAddress, DatagramSocket and the choice of loop by the thread pool: I/O plumbing or easy members.
- System calls, error texts, logging, signals and socket options: results of calls are parameters or nondeterministic steps.
- Memory-model effects of volatile and unsynchronised flags: steps are sequentially consistent.
- Loop and DoPendingTasks as methods, and the connection's life as objects: threads interleave inside them, so both are step systems over values; in-place update and object identity are not captured there.
- Liveness: that Poll returns, and that tasks eventually run, is not claimed; only that they run before the next sleep.
- Timestamps: one clock for Now and the timerfd, below 2^62 microseconds; expirations below 2^63; `TimeLeftIsExact` alone covers all 64-bit values.
- ~TimerQueue, which deletes the pending timers; the timer callbacks' effects other than requests to their own queue.
- ConnectionLifetime.NoAssertFails: the failing assertion of a write handler after a close is counted to the closing step itself.
- CrossThreadCalls: one loop and the output of one connection; that a thread queues its calls in program order is taken from the sequence of its steps.
- Buffers.Buffer.MakeSpace: copy_backward is taken as memmove; the element-wise reading is covered by `BackwardCompactionIsSafe`.
- TcpConnectors: one Start, Restart only after a connection closed, and the deferred ResetChannel run before a later event; without these the assertions of the source can fail.
- Epollers: descriptors below the fixed table size, and channels whose slot is free when first enabled, as `ConnectionLifetime` proves for connections.
- Peek, RetrieveUntil, RetrieveAll and the string overloads of Buffer, EventsToString, DumpChannels and DumpConnections as printing: easy members.
