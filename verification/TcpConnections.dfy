/**
 The data path of a TCP connection (src/tcp_connection.cc) and the dispatch of
 its events (src/channel.cc).

 A message is sent directly while nothing is buffered, else appended to the
 output buffer, which is drained whenever the socket is writable.  The results
 of the system calls are parameters.  The object's invariant is the conservation
 of the stream over every run: the bytes handed to the kernel followed by the
 output buffer are exactly the accepted messages, whole and in order.
 */
module TcpConnections {
  import opened Basics
  import opened ConnStates
  import opened Buffers

  // Closures queued in the owner loop
  datatype Notice = WriteComplete | HighWater(size: nat)

  function Flatten(messages: seq<seq<Byte>>): seq<Byte> {
    if messages == [] then [] else Flatten(messages[..|messages| - 1]) + messages[|messages| - 1]
  }

  lemma FlattenAppend(messages: seq<seq<Byte>>, m: seq<Byte>)
    ensures Flatten(messages + [m]) == Flatten(messages) + m
  {
    assert (messages + [m])[..|messages|] == messages;
  }

  // A message of which the first k bytes are sent directly, which only happens
  // with nothing buffered, and the rest is buffered keeps its place in the stream
  lemma StreamConserves(stream: seq<Byte>, buffered: seq<Byte>, messages: seq<seq<Byte>>, m: seq<Byte>, k: nat)
    requires stream + buffered == Flatten(messages) && k <= |m| && (0 < k ==> buffered == [])
    ensures (stream + m[..k]) + (buffered + m[k..]) == Flatten(messages + [m])
  {
    FlattenAppend(messages, m);
    assert m == m[..k] + m[k..];
    assert (stream + m[..k]) + (buffered + m[k..]) == stream + buffered + m;
  }

  // A message for Send, and what ::send will return if it is called: -1 or the number of bytes taken
  datatype Sending = Sending(dat: seq<Byte>, result: int)

  predicate Plausible(s: Sending) {
    -1 <= s.result <= |s.dat|
  }

  // A run of the output path: messages sent, and writable events of which the kernel takes up to `take` bytes
  datatype Action = DoSend(s: Sending) | DoWrite(take: int)

  // Which messages of a run get through, computed from the number of buffered
  // bytes alone: all but those that find nothing buffered and a failing send
  function Through(actions: seq<Action>, pending: nat): seq<seq<Byte>> {
    if actions == [] then []
    else Passed(actions[0], pending) + Through(actions[1..], Left(actions[0], pending))
  }

  function Passed(action: Action, pending: nat): seq<seq<Byte>> {
    if action.DoSend? && (0 < pending || 0 <= action.s.result) then [action.s.dat] else []
  }

  // How many bytes stay buffered after the action
  function Left(action: Action, pending: nat): nat {
    match action
    case DoSend(s) =>
      if 0 < pending then pending + |s.dat| else if 0 <= s.result <= |s.dat| then |s.dat| - s.result else 0
    case DoWrite(take) => if take <= 0 then pending else if take < pending then pending - take else 0
  }

  // How many bytes stay buffered after a run
  function Waiting(actions: seq<Action>, pending: nat): nat {
    if actions == [] then pending else Waiting(actions[1..], Left(actions[0], pending))
  }

  // The most that is ever buffered in a run
  function Highest(actions: seq<Action>, pending: nat): int {
    if actions == [] then pending else Max(pending, Highest(actions[1..], Left(actions[0], pending)))
  }

  // One more action after a run
  lemma {:induction false} RunAppend(actions: seq<Action>, action: Action, pending: nat)
    ensures Waiting(actions + [action], pending) == Left(action, Waiting(actions, pending))
    ensures Through(actions + [action], pending) ==
            Through(actions, pending) + Passed(action, Waiting(actions, pending))
    ensures Highest(actions + [action], pending) == Max(Highest(actions, pending), Waiting(actions + [action], pending))
  {
    hide Left, Passed;
    if actions == [] {
      assert actions + [action] == [action];
    } else {
      RunAppend(actions[1..], action, Left(actions[0], pending));
      assert (actions + [action])[1..] == actions[1..] + [action];
    }
  }

  // What the read callback sends, one message after the other
  function SendsOf(sends: seq<Sending>): (actions: seq<Action>)
    ensures |actions| == |sends| && forall i | 0 <= i < |sends| :: actions[i] == DoSend(sends[i])
  {
    seq(|sends|, i requires 0 <= i < |sends| => DoSend(sends[i]))
  }

  // What the read callback does: consumes input and sends messages
  datatype Reply = Reply(consumes: nat, sends: seq<Sending>)

  predicate Possible(reply: Reply) {
    forall i | 0 <= i < |reply.sends| :: Plausible(reply.sends[i])
  }

  function Arrived(result: ReadResult): seq<Byte> {
    if result.Received? then result.bytes else []
  }

  // The callback is called only if something has arrived
  function Replied(result: ReadResult, reply: Reply): seq<Action> {
    if Arrived(result) != [] then SendsOf(reply.sends) else []
  }

  function Eaten(result: ReadResult, reply: Reply): nat {
    if Arrived(result) != [] then reply.consumes else 0
  }

  // What the read handler gets from the socket in a dispatch; if it is not called, nothing, as on an error
  function Seen(ev: Events, result: ReadResult): ReadResult {
    if !ev.hangup && !ev.error && ev.readable then result else Failed
  }

  // The dispatch gets to the write handler, which finds the connection open
  predicate Writes(ev: Events, result: ReadResult) {
    !ev.hangup && !ev.error && ev.writable && Seen(ev, result) != Received([])
  }

  // What one dispatch does to the output
  function Dispatched(ev: Events, result: ReadResult, reply: Reply, take: int): seq<Action> {
    Replied(Seen(ev, result), reply) + if Writes(ev, result) then [DoWrite(take)] else []
  }

  // The bits of revents_ that HandleEvent_ looks at
  datatype Events = Events(hangup: bool, error: bool, readable: bool, writable: bool)

  class TcpConnection {
    var state: ConnState
    var reading: bool         // kReadEvent in the channel's events_
    var writing: bool         // kWriteEvent in the channel's events_
    const output: Buffer
    const input: Buffer
    var notices: seq<Notice>
    var shut: bool            // the write side of the socket
    const notifies: bool      // write_complete_cb_ is set
    const warns: bool         // high_water_mark_cb_ is set
    const overstock: nat
    var closes: nat           // how often disconnection_cb_ and remove_cb_ have been called

    ghost var stream: seq<Byte>            // what the kernel has taken
    ghost var accepted: seq<seq<Byte>>     // the messages whose send did not fail

    ghost predicate Valid()
      reads this, output, output.storage, input, input.storage
    {
      && output != input && output.storage != input.storage
      && output.Valid() && input.Valid()
      && stream + output.Readable() == Flatten(accepted)
      && (state == Connecting ==> output.Readable() == [])
      && (state == Connecting || state == Connected ==> closes == 0) && (state == Disconnecting ==> 0 < closes)
      && (closes == 0 ==> (writing <==> output.Readable() != []))
      && (0 < closes ==> !writing && !reading)
    }

    constructor (notifies: bool, warns: bool, overstock: nat)
      ensures Valid() && state == Connecting && stream == [] && accepted == [] && notices == [] && !shut && closes == 0
      ensures this.notifies == notifies && this.warns == warns && this.overstock == overstock
      ensures output.Readable() == [] && input.Readable() == [] && input.appended == []
      ensures fresh(output) && fresh(output.storage) && fresh(input) && fresh(input.storage)
    {
      state, reading, writing, shut, notices, closes := Connecting, false, false, false, [], 0;
      output := new Buffer();
      input := new Buffer();
      this.notifies, this.warns, this.overstock := notifies, warns, overstock;
      stream, accepted := [], [];
    }

    method ConnectionEstablished()
      requires Valid() && state == Connecting
      modifies this`state, this`reading
      ensures Valid() && state == Connected && reading
    {
      state, reading := Connected, true;
    }

    // -1 if the direct send failed, else how much of dat remains to be buffered
    method SendMostPossible(dat: seq<Byte>, result: int) returns (remain: int)
      requires Valid() && state == Connected && Plausible(Sending(dat, result))
      modifies this`stream
      ensures remain == if writing then |dat| else if result < 0 then -1 else |dat| - result
      ensures stream == old(stream) + if 0 <= remain then dat[..|dat| - remain] else []
    {
      var wlen := 0;
      if !writing {
        assert output.Readable() == []; // the assertion of the source
        wlen := result;
        if wlen < 0 {
          return -1;
        }
        stream := stream + dat[..wlen];
      }
      remain := |dat| - wlen;
    }

    method SendDatQueueInBuffer(dat: seq<Byte>)
      requires output != input && output.storage != input.storage && output.Valid() && input.Valid()
      modifies this`notices, this`writing, output, output.storage
      ensures output.Valid() && writing && (output.storage == old(output.storage) || fresh(output.storage))
      ensures output.Readable() == old(output.Readable()) + dat
      ensures output.peak == Max(old(output.peak), |output.Readable()|)
      ensures notices == old(notices) +
                if warns && overstock <= |output.Readable()| then [HighWater(|output.Readable()|)] else []
    {
      var waiting := output.ReadableBytes();
      if overstock <= waiting + |dat| && warns {
        notices := notices + [HighWater(waiting + |dat|)];
      }
      output.Append(dat);
      if !writing {
        writing := true;
      }
    }

    // _Send, on the owner loop.  A failed direct send drops the whole message,
    // whatever the error; every other message is accepted whole.
    method Send(s: Sending)
      requires Valid() && Plausible(s)
      modifies this`stream, this`accepted, this`notices, this`writing, output, output.storage
      ensures Valid() && (output.storage == old(output.storage) || fresh(output.storage))
      ensures var taken := state == Connected && (old(writing) || 0 <= s.result);
              var complete := taken && if old(writing) then s.dat == [] else s.result == |s.dat|;
              && accepted == old(accepted) + (if taken then [s.dat] else [])
              && stream == old(stream) + (if taken && !old(writing) then s.dat[..s.result] else [])
              && output.Readable() == old(output.Readable()) +
                   (if !taken then [] else if old(writing) then s.dat else s.dat[s.result..])
              && notices == old(notices) +
                   (if complete then (if notifies then [WriteComplete] else [])
                    else if taken && warns && overstock <= |output.Readable()| then [HighWater(|output.Readable()|)]
                    else [])
              && output.peak == Max(old(output.peak), |output.Readable()|)
              // write-complete comes with output still pending exactly for an empty message behind others
              && (complete && output.Readable() != [] <==>
                  state == Connected && s.dat == [] && old(output.Readable()) != [])
    {
      hide Flatten, Buffer.Readable;
      if state != Connected {
        return;
      }
      ghost var pending := output.Readable();
      var remain := SendMostPossible(s.dat, s.result);
      if remain == -1 {
        return;
      }
      var rest := s.dat[|s.dat| - remain..];
      assert rest == if writing then s.dat else s.dat[s.result..];
      assert pending + rest != [] <==> pending != [] || rest != [];
      StreamConserves(old(stream), pending, accepted, s.dat, |s.dat| - remain);
      accepted := accepted + [s.dat];
      FinishSend(rest);
    }

    // The rest of _Send: buffer what remains of an accepted message, or announce that it is out
    method FinishSend(rest: seq<Byte>)
      requires output != input && output.storage != input.storage && output.Valid() && input.Valid()
      requires state == Connected && closes == 0 && (writing <==> output.Readable() != [])
      requires stream + (output.Readable() + rest) == Flatten(accepted)
      modifies this`notices, this`writing, output, output.storage
      ensures Valid() && (output.storage == old(output.storage) || fresh(output.storage))
      ensures output.Readable() == old(output.Readable()) + rest
      ensures notices == old(notices) +
                if rest == [] then (if notifies then [WriteComplete] else [])
                else if warns && overstock <= |output.Readable()| then [HighWater(|output.Readable()|)] else []
      ensures output.peak == Max(old(output.peak), |output.Readable()|)
    {
      hide Flatten;
      if |rest| != 0 {
        SendDatQueueInBuffer(rest);
        return;
      }
      assert output.Readable() + rest == output.Readable();
      if notifies {
        notices := notices + [WriteComplete];
      }
    }

    // What one action leaves in the owner loop's queue, by the number of buffered bytes alone
    function Announced(action: Action, pending: nat): seq<Notice> {
      match action
      case DoSend(s) =>
        var complete := if 0 < pending then s.dat == [] else s.result == |s.dat|;
        if Passed(action, pending) == [] then []
        else if complete then (if notifies then [WriteComplete] else [])
        else if warns && overstock <= Left(action, pending) then [HighWater(Left(action, pending))]
        else []
      case DoWrite(take) => if notifies && 0 < pending <= take then [WriteComplete] else []
    }

    // What a run leaves there
    function Announcements(actions: seq<Action>, pending: nat): seq<Notice> {
      if actions == [] then []
      else Announced(actions[0], pending) + Announcements(actions[1..], Left(actions[0], pending))
    }

    lemma {:induction false} AnnouncementsAppend(actions: seq<Action>, action: Action, pending: nat)
      ensures Announcements(actions + [action], pending) ==
              Announcements(actions, pending) + Announced(action, Waiting(actions, pending))
    {
      hide Left, Announced;
      if actions == [] {
        assert actions + [action] == [action];
      } else {
        AnnouncementsAppend(actions[1..], action, Left(actions[0], pending));
        assert (actions + [action])[1..] == actions[1..] + [action];
      }
    }

    // Write-complete means that nothing is left to write, except exactly for an
    // empty message behind others
    lemma WriteCompleteMeansDrained(action: Action, pending: nat)
      requires WriteComplete in Announced(action, pending)
      ensures Left(action, pending) == 0 <==> !(0 < pending && action.DoSend? && action.s.dat == [])
    {}

    // The socket is writable; the source asserts CONNECTED
    method HandleWrite(result: int)
      requires Valid() && state == Connected && -1 <= result <= |output.Readable()|
      modifies this`stream, this`notices, this`writing, output
      ensures Valid() && output.storage == old(output.storage) && output.peak == old(output.peak)
      ensures var n := if 0 < result then result else 0;
              stream == old(stream) + old(output.Readable())[..n] && output.Readable() == old(output.Readable())[n..]
      // write-complete is queued exactly when this drains the buffer
      ensures notices == old(notices) +
                if notifies && 0 < result && output.Readable() == [] then [WriteComplete] else []
    {
      var readable := output.ReadableBytes();
      if 0 < result {
        ghost var was := output.Readable();
        assert was == was[..result] + was[result..];
        assert stream + was == stream + was[..result] + was[result..];
        stream := stream + was[..result];
        output.Retrieve(result);
        if readable == result {
          writing := false;
          if notifies {
            notices := notices + [WriteComplete];
          }
        }
      }
    }

    // Over a whole run, the stream and the buffer together are the messages that
    // get through, none cut, repeated or out of order.
    method Run(actions: seq<Action>)
      requires Valid() && state == Connected
      requires forall i | 0 <= i < |actions| && actions[i].DoSend? :: Plausible(actions[i].s)
      modifies this`stream, this`accepted, this`notices, this`writing, output, output.storage
      ensures Valid() && (output.storage == old(output.storage) || fresh(output.storage)) && old(stream) <= stream
      ensures accepted == old(accepted) + Through(actions, |old(output.Readable())|)
      ensures stream + output.Readable() == Flatten(old(accepted) + Through(actions, |old(output.Readable())|))
      ensures |output.Readable()| == Waiting(actions, |old(output.Readable())|)
      ensures output.peak == Max(old(output.peak), Highest(actions, |old(output.Readable())|))
      ensures notices == old(notices) + Announcements(actions, |old(output.Readable())|)
    {
      hide Flatten, Left, Passed, Plausible, Announced;
      for i := 0 to |actions|
        invariant Valid() && (output.storage == old(output.storage) || fresh(output.storage)) && old(stream) <= stream
        invariant old(accepted) + Through(actions, |old(output.Readable())|) ==
                  accepted + Through(actions[i..], |output.Readable()|)
        invariant Waiting(actions, |old(output.Readable())|) == Waiting(actions[i..], |output.Readable()|)
        invariant Max(old(output.peak), Highest(actions, |old(output.Readable())|)) ==
                  Max(output.peak, Highest(actions[i..], |output.Readable()|))
        invariant old(notices) + Announcements(actions, |old(output.Readable())|) ==
                  notices + Announcements(actions[i..], |output.Readable()|)
      {
        ghost var rest := actions[i..];
        assert rest[1..] == actions[i + 1..] && rest[0] == actions[i];
        Act(actions[i]);
      }
    }

    method Act(action: Action)
      requires Valid() && state == Connected && (action.DoSend? ==> Plausible(action.s))
      modifies this`stream, this`accepted, this`notices, this`writing, output, output.storage
      ensures Valid() && (output.storage == old(output.storage) || fresh(output.storage))
      ensures accepted == old(accepted) + Passed(action, |old(output.Readable())|) && old(stream) <= stream
      ensures |output.Readable()| == Left(action, |old(output.Readable())|)
      ensures output.peak == Max(old(output.peak), |output.Readable()|)
      ensures notices == old(notices) + Announced(action, |old(output.Readable())|)
      ensures action.DoWrite? ==>
                var n := Min(Max(action.take, 0), |old(output.Readable())|);
                && stream == old(stream) + old(output.Readable())[..n]
                && output.Readable() == old(output.Readable())[n..]
    {
      hide Flatten;
      match action
      case DoSend(s) => Send(s);
      case DoWrite(take) =>
        var n := output.ReadableBytes();
        HandleWrite(if take < 0 then -1 else if n < take then n else take);
    }

    // There is no test of state_: until the connection is closed the write side
    // is shut only with nothing buffered, after that also on what is left there.
    method ShutdownWriteInLoop()
      requires Valid()
      modifies this`shut
      ensures Valid() && shut == (old(shut) || !writing)
      ensures closes == 0 && !old(shut) ==> (shut <==> output.Readable() == [])
      ensures shut && !old(shut) && output.Readable() != [] <==>
              !old(shut) && output.Readable() != [] && 0 < closes
    {
      if !writing {
        shut := true;
      }
    }

    // There is no test of state_ here either
    method HandleClose()
      requires Valid()
      modifies this`state, this`reading, this`writing, this`closes
      ensures Valid() && state == Disconnecting && !reading && !writing && closes == old(closes) + 1
    {
      state, reading, writing := Disconnecting, false, false;
      closes := closes + 1;
    }

    method ForceCloseInLoop()
      requires Valid()
      modifies this`state, this`reading, this`writing, this`closes
      ensures var first := old(state) == Connecting || old(state) == Connected;
              && Valid() && state == (if first then Disconnecting else old(state))
              && closes == old(closes) + One(first)
    {
      if state == Disconnecting || state == Disconnected {
        return;
      }
      HandleClose();
    }

    // Also of a connection that was never closed
    method ConnectionDestroy()
      requires Valid()
      modifies this`state
      ensures Valid() && state == Disconnected
    {
      state := Disconnected;
    }

    // The read callback consumes some of the input
    method ConsumeInput(n: nat)
      requires Valid()
      modifies input
      ensures Valid() && input.storage == old(input.storage)
      ensures var k := Min(n, |old(input.Readable())|);
              && input.Readable() == old(input.Readable())[k..]
              && input.consumed == old(input.consumed) + old(input.Readable())[..k]
      ensures input.appended == old(input.appended) && input.peak == old(input.peak)
    {
      var have := input.ReadableBytes();
      input.Retrieve(Min(n, have));
    }

    // The actions have been taken, from the given messages, notices, number of buffered bytes and its peak
    ghost predicate OutputAfter(actions: seq<Action>, messages: seq<seq<Byte>>, before: seq<Notice>, pending: nat,
                                peak: nat)
      requires output.InBounds()
      reads `accepted, `notices, output, output.storage
    {
      && accepted == messages + Through(actions, pending)
      && notices == before + Announcements(actions, pending)
      && |output.Readable()| == Waiting(actions, pending) && output.peak == Max(peak, Highest(actions, pending))
    }

    // The result has been read, and the callback has replied, from the given history of the input
    ghost predicate InputAfter(result: ReadResult, reply: Reply, was: seq<Byte>, consumed: seq<Byte>,
                               appended: seq<Byte>, peak: nat)
      requires input.InBounds()
      reads input, input.storage
    {
      var have := was + Arrived(result);
      var k := Min(Eaten(result, reply), |have|);
      && input.Readable() == have[k..] && input.consumed == consumed + have[..k]
      && input.appended == appended + Arrived(result) && input.peak == Max(peak, |have|)
    }

    lemma NothingHappened(reply: Reply)
      requires Valid()
      ensures OutputAfter([], accepted, notices, |output.Readable()|, output.peak)
      ensures InputAfter(Failed, reply, input.Readable(), input.consumed, input.appended, input.peak)
    {}

    // The source asserts CONNECTED.  The read callback does what `reply` says.
    method HandleRead(result: ReadResult, reply: Reply)
      requires Valid() && state == Connected && Possible(reply)
      requires result.Received? ==> |result.bytes| <= input.storage.Length - input.writeIndex + EXTRA_SIZE
      modifies this`state, this`reading, this`writing, this`closes, this`notices, this`stream, this`accepted
      modifies output, output.storage, input, input.storage
      ensures Valid() && (output.storage == old(output.storage) || fresh(output.storage)) && old(stream) <= stream
      ensures state == (if result == Received([]) then Disconnecting else Connected)
      ensures closes == old(closes) + One(result == Received([]))
      ensures input.storage == old(input.storage) || fresh(input.storage)
      ensures OutputAfter(Replied(result, reply), old(accepted), old(notices), |old(output.Readable())|,
                          old(output.peak))
      ensures InputAfter(result, reply, old(input.Readable()), old(input.consumed), old(input.appended),
                         old(input.peak))
      ensures result.Failed? || result.bytes == [] ==>
                && stream == old(stream) && output.Readable() == old(output.Readable())
                && notices == old(notices) && accepted == old(accepted)
                && input.Readable() == old(input.Readable()) && input.consumed == old(input.consumed)
                && input.appended == old(input.appended)
      ensures result.Received? && result.bytes != [] ==>
                var have, pending := old(input.Readable()) + result.bytes, |old(output.Readable())|;
                var k := Min(reply.consumes, |have|);
                && input.Readable() == have[k..] && input.consumed == old(input.consumed) + have[..k]
                && input.appended == old(input.appended) + result.bytes
                && accepted == old(accepted) + Through(SendsOf(reply.sends), pending)
                && notices == old(notices) + Announcements(SendsOf(reply.sends), pending)
                && |output.Readable()| == Waiting(SendsOf(reply.sends), pending)
    {
      hide Flatten, Buffer.Readable;
      var rlen := input.ReadFd(result);
      if 0 < rlen {
        ConsumeInput(reply.consumes);
        Run(SendsOf(reply.sends));
      } else if rlen == 0 {
        HandleClose();
      }
    }

    // The writable event, after the actions of the same dispatch
    method WriteAfter(take: int, ghost actions: seq<Action>, ghost messages: seq<seq<Byte>>,
                      ghost before: seq<Notice>, ghost pending: nat, ghost peak: nat)
      requires Valid() && state == Connected && OutputAfter(actions, messages, before, pending, peak)
      modifies this`stream, this`accepted, this`notices, this`writing, output, output.storage
      ensures Valid() && (output.storage == old(output.storage) || fresh(output.storage)) && old(stream) <= stream
      ensures OutputAfter(actions + [DoWrite(take)], messages, before, pending, peak)
      ensures var was := |old(output.Readable())|;
              var n := Min(Max(take, 0), was);
              && stream == old(stream) + old(output.Readable())[..n]
              && output.Readable() == old(output.Readable())[n..] && accepted == old(accepted)
              && notices == old(notices) + if notifies && 0 < n == was then [WriteComplete] else []
    {
      hide Flatten, Through, Waiting, Highest, Announcements, Left;
      RunAppend(actions, DoWrite(take), pending);
      AnnouncementsAppend(actions, DoWrite(take), pending);
      Act(DoWrite(take));
    }

    // Channel::HandleEvent_: hang-up and error end the dispatch, a readable socket
    // does not, so HandleWrite may follow a HandleRead that has closed the
    // connection.  Its assertion holds except exactly then: end of file together
    // with writability, and neither hang-up nor error.  `take` is how much the
    // kernel would accept, negative for an error.
    method HandleEvent(ev: Events, result: ReadResult, reply: Reply, take: int) returns (asserted: bool)
      requires Valid() && state == Connected && Possible(reply)
      requires result.Received? ==> |result.bytes| <= input.storage.Length - input.writeIndex + EXTRA_SIZE
      modifies this`state, this`reading, this`writing, this`closes, this`notices, this`stream, this`accepted
      modifies output, output.storage, input, input.storage
      ensures Valid() && (output.storage == old(output.storage) || fresh(output.storage)) && old(stream) <= stream
      ensures asserted <==>
              !(ev.readable && ev.writable && result == Received([]) && !ev.hangup && !ev.error)
      ensures var closed := ev.hangup || Seen(ev, result) == Received([]);
              state == (if closed then Disconnecting else Connected) && closes == old(closes) + One(closed)
      ensures input.storage == old(input.storage) || fresh(input.storage)
      ensures OutputAfter(Dispatched(ev, result, reply, take), old(accepted), old(notices), |old(output.Readable())|,
                          old(output.peak))
      ensures InputAfter(Seen(ev, result), reply, old(input.Readable()), old(input.consumed), old(input.appended),
                         old(input.peak))
      // and, case by case, what that comes to
      ensures var normal := !ev.hangup && !ev.error;
              var called := normal && ev.readable && result.Received? && result.bytes != [];
              var written := normal && ev.writable && !(ev.readable && result == Received([]));
              var was, n := old(output.Readable()), Min(Max(take, 0), |old(output.Readable())|);
              && (!called ==>
                    && input.Readable() == old(input.Readable()) && input.consumed == old(input.consumed)
                    && input.appended == old(input.appended) && accepted == old(accepted))
              && (!called && !written ==>
                    stream == old(stream) && output.Readable() == was && notices == old(notices))
              && (!called && written ==>
                    && stream == old(stream) + was[..n] && output.Readable() == was[n..]
                    && notices == old(notices) + (if notifies && 0 < n == |was| then [WriteComplete] else []))
      ensures !ev.hangup && !ev.error && ev.readable && result.Received? && result.bytes != [] ==>
                var have, was := old(input.Readable()) + result.bytes, |old(output.Readable())|;
                var k, sends := Min(reply.consumes, |have|), SendsOf(reply.sends);
                var pending := Waiting(sends, was);
                && input.Readable() == have[k..] && input.consumed == old(input.consumed) + have[..k]
                && input.appended == old(input.appended) + result.bytes
                && accepted == old(accepted) + Through(sends, was)
                && |output.Readable()| ==
                     (if !ev.writable then pending else if take <= 0 then pending else pending - Min(take, pending))
                && notices == old(notices) + Announcements(sends, was) +
                     (if notifies && ev.writable && 0 < pending <= take then [WriteComplete] else [])
    {
      hide Flatten, OutputAfter, InputAfter, Buffer.Readable;
      NothingHappened(reply);
      assert !Writes(ev, result) ==> Dispatched(ev, result, reply, take) == Replied(Seen(ev, result), reply);
      ghost var messages, before, pending, peak := accepted, notices, |output.Readable()|, output.peak;
      if ev.hangup {
        HandleClose();
        return true;
      }
      if ev.error {
        return true; // HandleError only logs
      }
      if ev.readable {
        HandleRead(result, reply);
      }
      if ev.writable {
        if state != Connected {
          return false; // assert(CONNECTED == state_) in HandleWrite
        }
        WriteAfter(take, Replied(Seen(ev, result), reply), messages, before, pending, peak);
      }
      asserted := true;
    }
  }

  // A short run to that assertion: one message taken in part leaves write interest
  // on, then the peer closes its end, and one report carries both events.
  method EndOfFileMeetsPendingOutput() returns (asserted: bool)
    ensures !asserted
  {
    var conn := new TcpConnection(false, false, 0);
    conn.ConnectionEstablished();
    conn.Send(Sending([1, 2], 1));
    asserted := conn.HandleEvent(Events(false, false, true, conn.writing), Received([]), Reply(0, []), 0);
  }

  // A short run that shuts the write side on a byte that was never sent: the
  // connection is closed between the request and its task
  method ShutdownAfterClose() returns (conn: TcpConnection)
    ensures conn.Valid() && conn.shut && conn.output.Readable() == [2]
  {
    conn := new TcpConnection(false, false, 0);
    conn.ConnectionEstablished();
    conn.Send(Sending([1, 2], 1));
    conn.ForceCloseInLoop();
    conn.ShutdownWriteInLoop();
  }
}
