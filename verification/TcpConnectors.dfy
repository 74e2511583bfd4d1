/**
 The client's connector (src/tcp_connector.cc): a state machine that opens a
 socket, waits for it to become writable, and retries with a capped back-off.

 The results of the system calls are parameters.  `resets` counts the deferred
 ResetChannel tasks.  They run at the end of the loop iteration that queued them,
 so an event of a later iteration (the retry timer, the end of a connection, a
 new Start) finds none; this is what the preconditions `resets == 0` say.
 */
module TcpConnectors {
  import opened Basics

  const INIT_RETRY_DELAY: nat := 1000
  const MAX_RETRY_DELAY: nat := 30 * 1000

  datatype ConnectorState = Disconnected | Connecting | Connected

  // The outcome of a writable event: SO_ERROR set, connected to itself, or established
  datatype Outcome = SocketError | SelfConnection | Established

  function Power2(n: nat): nat { if n == 0 then 1 else 2 * Power2(n - 1) }

  // The n-th delay as the code computes it, by repeated doubling
  function Backoff(n: nat): nat {
    if n == 0 then INIT_RETRY_DELAY else Min(Backoff(n - 1) * 2, MAX_RETRY_DELAY)
  }

  // The n-th delay is 1000 * 2^n milliseconds, capped at 30 seconds; it is a
  // whole number of seconds, so the division for TimerAfter loses nothing
  lemma {:induction false} BackoffIsCappedDoubling(n: nat)
    ensures Backoff(n) == Min(1000 * Power2(n), 30000) && Backoff(n) / 1000 * 1000 == Backoff(n)
    ensures Backoff(n) == if n < 5 then [1000, 2000, 4000, 8000, 16000][n] else 30000
  {
    if n > 0 {
      BackoffIsCappedDoubling(n - 1);
    }
  }

  class TcpConnector {
    var running: bool
    var state: ConnectorState
    var channel: Option<nat>   // channel_, by its descriptor
    var registered: bool       // that channel is in the poller
    var retryDelay: nat
    var timers: nat            // retry timers set and neither run nor cancelled
    var resets: nat            // ResetChannel tasks queued

    ghost var delays: seq<nat> // the retry delays in milliseconds, since construction or Restart
    ghost var open: set<nat>   // sockets created, neither closed nor handed over
    ghost var leaked: set<nat> // those of them that Stop has dropped

    ghost predicate Valid()
      reads this
    {
      && (state == Connecting <==> registered)
      && (registered ==> channel.Some? && resets == 0 && timers == 0)
      && resets <= 1 && (resets == 1 <==> channel.Some? && !registered)
      && timers <= 1 && (timers == 1 ==> state == Disconnected)
      && retryDelay == Backoff(|delays|) && (forall i | 0 <= i < |delays| :: delays[i] == Backoff(i))
      && open == leaked + (if registered then {channel.value} else {})
      && (registered ==> channel.value !in leaked)
    }

    constructor ()
      ensures Valid() && state == Disconnected && channel == None && timers == 0 && delays == [] && open == {} == leaked
    {
      running, state, channel, registered := false, Disconnected, None, false;
      retryDelay, timers, resets := INIT_RETRY_DELAY, 0, 0;
      delays, open, leaked := [], {}, {};
    }

    // A new socket fd; `waits` says that connect returned 0, EINTR, EINPROGRESS or
    // EISCONN.  The assertions of Connecting are the first precondition.
    method Connect(fd: nat, waits: bool)
      requires Valid() && state == Disconnected && channel == None && timers == 0 && running && fd !in open
      modifies this
      ensures Valid() && running && resets == 0 && leaked == old(leaked)
      ensures if waits then
                state == Connecting && channel == Some(fd) && open == old(open) + {fd} && delays == old(delays)
              else state == Disconnected && channel == None && open == old(open) && Retried(old(delays))
    {
      open := open + {fd};
      if waits {
        state, channel, registered := Connecting, Some(fd), true;
      } else {
        open := open - {fd};
        Retry();
      }
    }

    // A retry timer is set, with the next delay of the back-off
    ghost predicate Retried(before: seq<nat>)
      reads this
    {
      timers == 1 && delays == before + [Min(1000 * Power2(|before|), 30000)]
    }

    method Retry()
      requires !registered && timers == 0 && retryDelay == Backoff(|delays|)
      requires forall i | 0 <= i < |delays| :: delays[i] == Backoff(i)
      modifies this`state, this`timers, this`delays, this`retryDelay
      ensures state == Disconnected && retryDelay == Backoff(|delays|)
      ensures forall i | 0 <= i < |delays| :: delays[i] == Backoff(i)
      ensures if running then Retried(old(delays)) else timers == 0 && delays == old(delays)
    {
      state := Disconnected;
      if running {
        BackoffIsCappedDoubling(|delays|);
        timers := timers + 1;
        delays := delays + [retryDelay / 1000 * 1000];
        retryDelay := Min(retryDelay * 2, MAX_RETRY_DELAY);
      }
    }

    // Start, on the loop's thread
    method Start(fd: nat, waits: bool)
      requires Valid() && state == Disconnected && timers == 0 && resets == 0 && fd !in open
      modifies this
      ensures Valid() && running && state != Connected && (state == Connecting <==> waits) && resets == 0
      ensures open == old(open) + (if waits then {fd} else {}) && leaked == old(leaked)
      ensures if waits then channel == Some(fd) && delays == old(delays) else Retried(old(delays))
    {
      running := true;
      Connect(fd, waits);
    }

    // The retry timer runs StartInLoop; its assertion and those of Connecting hold
    method TimerFires(fd: nat, waits: bool)
      requires Valid() && timers == 1 && resets == 0 && fd !in open
      modifies this
      ensures Valid() && state == if running && waits then Connecting else Disconnected
      ensures running == old(running) && leaked == old(leaked) && resets == 0
      ensures open == old(open) + (if running && waits then {fd} else {})
      ensures if running && !waits then Retried(old(delays)) else timers == 0 && delays == old(delays)
    {
      assert state == Disconnected && channel == None;
      timers := 0;
      if running {
        Connect(fd, waits);
      }
    }

    // Restart, once the connection handed over has been closed; the back-off starts again
    method Restart(fd: nat, waits: bool)
      requires Valid() && state == Connected && resets == 0 && fd !in open
      modifies this
      ensures Valid() && running && state != Connected && (state == Connecting <==> waits) && leaked == old(leaked)
      ensures open == old(open) + (if waits then {fd} else {})
      ensures if waits then channel == Some(fd) && delays == [] else Retried([]) && delays == [1000]
    {
      running, state, retryDelay := true, Disconnected, INIT_RETRY_DELAY;
      delays := [];
      Connect(fd, waits);
    }

    method RemoveAndResetChannel()
      requires registered && channel.Some?
      modifies this`registered, this`resets
      ensures !registered && resets == old(resets) + 1
    {
      registered := false;
      resets := resets + 1;
    }

    // The deferred task
    method ResetChannel()
      requires Valid() && resets == 1
      modifies this`channel, this`resets
      ensures Valid() && channel == None && resets == 0
    {
      channel, resets := None, 0;
    }

    // The socket is writable; the source asserts CONNECTING
    method HandleWrite(outcome: Outcome)
      requires Valid() && state == Connecting
      modifies this
      ensures Valid() && open == leaked == old(leaked) && resets == 1 && !registered && running == old(running)
      ensures state == if outcome == Established then Connected else Disconnected
      ensures outcome != Established && running ==> Retried(old(delays))
      ensures outcome == Established || !running ==> timers == 0 && delays == old(delays)
    {
      var fd := channel.value;
      RemoveAndResetChannel();
      open := open - {fd}; // closed, or handed to new_conn_cb_
      if outcome != Established {
        Retry();
        return;
      }
      state := Connected;
    }

    method HandleError()
      requires Valid()
      modifies this
      ensures Valid() && leaked == old(leaked) && running == old(running)
      ensures old(state) == Connecting ==>
                && state == Disconnected && open == leaked && resets == 1
                && if running then Retried(old(delays)) else timers == 0 && delays == old(delays)
      ensures old(state) != Connecting ==>
                && state == old(state) && open == old(open) && timers == old(timers)
                && delays == old(delays) && channel == old(channel)
    {
      if state == Connecting {
        var fd := channel.value;
        RemoveAndResetChannel();
        open := open - {fd};
        Retry();
      }
    }

    // Stop, on the loop's thread.  The waiting socket is not closed: one
    // descriptor is lost exactly when Stop finds the connector connecting.
    method Stop()
      requires Valid()
      modifies this
      ensures Valid() && !running && timers == 0 && open == old(open) && !registered
      ensures state == if old(state) == Connecting then Disconnected else old(state)
      ensures leaked == old(leaked) + if old(state) == Connecting then {old(channel).value} else {}
      ensures leaked != old(leaked) <==> old(state) == Connecting
      ensures delays == old(delays) && channel == old(channel)
    {
      running := false;
      timers := 0;
      if state == Connecting {
        state := Disconnected;
        leaked := leaked + {channel.value};
        RemoveAndResetChannel();
      }
    }
  }

  // A short run that loses a descriptor
  method StopWhileConnecting() returns (c: TcpConnector)
    ensures c.Valid() && c.state == Disconnected && !c.registered && c.leaked == {3} && 3 in c.open
  {
    c := new TcpConnector();
    c.Start(3, true);
    c.Stop();
  }
}
