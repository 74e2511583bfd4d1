/**
 The poller and its channels (src/epoller.cc, src/poller.h, src/poller.cc, src/channel.h).

 Each channel is new, added or deleted; the table is indexed by descriptor; and
 the kernel keeps the interest set.  The object's invariant ties the three
 together, so that every epoll_ctl the code issues is legal.
 */
module Epollers {
  import opened Basics

  datatype Status = New | Added | Del

  // events_: kReadEvent and kWriteEvent
  datatype Mask = Mask(read: bool, write: bool)

  const NONE := Mask(false, false)

  const INIT_ACTIVE_CHANNEL_SIZE: nat := 512
  const INIT_TOTAL_CHANNEL_SIZE: nat := 1024 * 1024

  datatype Op = CtlAdd | CtlMod | CtlDel

  // An entry of the epoll set: the events watched, and the pointer stored with them
  datatype Interest = Interest(events: Mask, channel: Channel)

  // ----- the channel table --------------------------------------------------

  function Occupied(channels: seq<Channel?>): set<nat> {
    set i: nat | i < |channels| && channels[i] != null
  }

  // m is the largest registered descriptor, or 0 if there is none
  predicate IsMaxFd(channels: seq<Channel?>, m: nat) {
    && m < |channels| && (m == 0 || channels[m] != null)
    && (forall i | m < i < |channels| :: channels[i] == null)
  }

  lemma OccupyOne(channels: seq<Channel?>, fd: nat, c: Channel)
    requires fd < |channels| && channels[fd] == null
    ensures Occupied(channels[fd := c]) == Occupied(channels) + {fd}
    ensures |Occupied(channels[fd := c])| == |Occupied(channels)| + 1
  {
    assert Occupied(channels[fd := c]) == Occupied(channels) + {fd};
  }

  lemma VacateOne(channels: seq<Channel?>, fd: nat)
    requires fd < |channels| && channels[fd] != null
    ensures |Occupied(channels[fd := null])| == |Occupied(channels)| - 1
  {
    assert Occupied(channels[fd := null]) == Occupied(channels) - {fd};
  }

  // The channels that Loop visits: those before the first null
  function Visited(active: seq<Channel?>): seq<Channel> {
    if active == [] || active[0] == null then [] else [active[0]] + Visited(active[1..])
  }

  lemma {:induction false} VisitedIsPrefix(active: seq<Channel?>, n: nat)
    requires n < |active| && active[n] == null && forall i | 0 <= i < n :: active[i] != null
    ensures Visited(active) == active[..n]
  {
    if n > 0 {
      VisitedIsPrefix(active[1..], n - 1);
      assert active[..n] == [active[0]] + active[1..][..n - 1];
    }
  }

  class Channel {
    const fd: nat
    var events: Mask
    var revents: int
    var status: Status

    constructor (fd: nat)
      requires 0 < fd
      ensures this.fd == fd && events == NONE && status == New
    {
      this.fd, events, revents, status := fd, NONE, 0, New;
    }
  }

  // An entry of the list filled in by epoll_wait
  datatype Report = Report(channel: Channel, events: int)

  class Epoller {
    var channels: seq<Channel?>
    var activeChannels: seq<Channel?>
    var eventListSize: nat
    var channelNums: nat
    var curMaxFd: nat
    var egen: nat
    var kernel: map<nat, Interest>
    ghost var known: set<Channel> // the channels created for this loop

    // Channel c, with `events` as its mask, agrees with the table and the kernel
    ghost predicate Agrees(c: Channel, events: Mask)
      reads `channels, `kernel, c`status
    {
      && 0 < c.fd < |channels|
      && match c.status
         case New => channels[c.fd] != c
         case Added =>
           channels[c.fd] == c && events != NONE && c.fd in kernel && kernel[c.fd] == Interest(events, c)
         case Del => channels[c.fd] == c && events == NONE && c.fd !in kernel
    }

    ghost predicate TableValid()
      reads this
    {
      && |channels| == INIT_TOTAL_CHANNEL_SIZE
      && (forall i | 0 <= i < |channels| && channels[i] != null :: channels[i] in known && channels[i].fd == i)
      && (forall fd | fd in kernel :: fd < |channels| && channels[fd] != null && kernel[fd].channel == channels[fd])
      && channelNums == |Occupied(channels)| && IsMaxFd(channels, curMaxFd)
      && 0 < eventListSize == |activeChannels|
    }

    ghost predicate Valid()
      reads this, known
    {
      TableValid() && forall c | c in known :: Agrees(c, c.events)
    }

    // Valid, but for the mask of c, which has just changed from `events`
    ghost predicate ValidBefore(c: Channel, events: Mask)
      reads this, known
    {
      && TableValid() && c in known && Agrees(c, events)
      && forall d | d in known && d != c :: Agrees(d, d.events)
    }

    constructor ()
      ensures Valid() && known == {} && kernel == map[] && |channels| == 1024 * 1024 && |activeChannels| == 512
    {
      channels := seq(INIT_TOTAL_CHANNEL_SIZE, _ => null);
      activeChannels := seq(INIT_ACTIVE_CHANNEL_SIZE, _ => null);
      eventListSize, channelNums, curMaxFd, egen := INIT_ACTIVE_CHANNEL_SIZE, 0, 0, 0;
      kernel, known := map[], {};
      new;
      assert Occupied(channels) == {};
    }

    // The kernel watches exactly the registered channels with a non-empty mask, for exactly these events
    lemma KernelIsExact(fd: nat)
      requires Valid()
      ensures fd in kernel <==> fd < |channels| && channels[fd] != null && channels[fd].events != NONE
      ensures fd in kernel ==> kernel[fd] == Interest(channels[fd].events, channels[fd])
    {
      if fd < |channels| && channels[fd] != null {
        assert Agrees(channels[fd], channels[fd].events);
      }
    }

    // epoll_ctl, failing only with EEXIST or ENOENT
    method Ctl(op: Op, c: Channel) returns (ok: bool)
      modifies this`kernel
      ensures ok <==> (op == CtlAdd <==> c.fd !in old(kernel))
      ensures kernel == if !ok then old(kernel) else if op == CtlDel then old(kernel) - {c.fd}
                        else old(kernel)[c.fd := Interest(c.events, c)]
    {
      ok := (op == CtlAdd) == (c.fd !in kernel);
      if ok {
        kernel := if op == CtlDel then kernel - {c.fd} else kernel[c.fd := Interest(c.events, c)];
      }
    }

    method AddChannelListItem(c: Channel)
      requires 0 < c.fd < |channels| && channels[c.fd] == null
      requires channelNums == |Occupied(channels)| && IsMaxFd(channels, curMaxFd)
      modifies this`channels, this`channelNums, this`curMaxFd
      ensures channels == old(channels)[c.fd := c]
      ensures channelNums == |Occupied(channels)| && IsMaxFd(channels, curMaxFd)
    {
      OccupyOne(channels, c.fd, c);
      channels := channels[c.fd := c];
      channelNums := channelNums + 1;
      if curMaxFd < c.fd {
        curMaxFd := c.fd;
      }
    }

    method DelChannelListItem(c: Channel)
      requires 0 < c.fd < |channels| && channels[c.fd] != null && channels[0] == null
      requires channelNums == |Occupied(channels)| && IsMaxFd(channels, curMaxFd)
      modifies this`channels, this`channelNums, this`curMaxFd
      ensures channels == old(channels)[c.fd := null]
      ensures channelNums == |Occupied(channels)| && IsMaxFd(channels, curMaxFd)
    {
      VacateOne(channels, c.fd);
      assert c.fd in Occupied(channels);
      channels := channels[c.fd := null];
      channelNums := channelNums - 1;
      if curMaxFd == c.fd {
        var i := c.fd - 1;
        while i > 0 && channels[i] == null
          invariant 0 <= i < c.fd
          invariant forall j | i < j < |channels| :: channels[j] == null
        {
          i := i - 1;
        }
        curMaxFd := i;
      }
    }

    // A new channel; the source asserts that its slot is empty
    method UpdateNew(c: Channel)
      requires ValidBefore(c, c.events) && c.status == New && channels[c.fd] == null
      modifies this`channels, this`channelNums, this`curMaxFd, this`kernel, c`status
      ensures Valid() && channels == old(channels)[c.fd := c]
      ensures kernel == if c.events == NONE then old(kernel) - {c.fd} else old(kernel)[c.fd := Interest(c.events, c)]
    {
      hide Occupied, IsMaxFd;
      if c.events != NONE {
        var ok := Ctl(CtlAdd, c);
        assert ok;
        c.status := Added;
      } else {
        c.status := Del;
      }
      AddChannelListItem(c);
      assert forall d | d in known && d != c :: old(Agrees(d, d.events));
    }

    // A channel in the table; the source asserts that it is the one in its slot
    method UpdateRegistered(c: Channel, ghost before: Mask)
      requires ValidBefore(c, before) && c.status != New
      modifies this`kernel, c`status
      ensures Valid() && channels[c.fd] == c
      ensures kernel == if c.events == NONE then old(kernel) - {c.fd} else old(kernel)[c.fd := Interest(c.events, c)]
    {
      hide Occupied, IsMaxFd;
      if c.status == Added {
        var ok := Ctl(if c.events != NONE then CtlMod else CtlDel, c);
        assert ok;
        if c.events == NONE {
          c.status := Del;
        }
      } else if c.events != NONE {
        var ok := Ctl(CtlAdd, c);
        assert ok;
        c.status := Added;
      }
      assert forall d | d in known && d != c :: old(Agrees(d, d.events));
    }

    // A channel whose mask has changed; every epoll_ctl issued is legal
    method UpdateChannel(c: Channel, ghost before: Mask)
      requires ValidBefore(c, before) && (c.status == New ==> channels[c.fd] == null)
      modifies this`channels, this`channelNums, this`curMaxFd, this`kernel, c`status
      ensures Valid() && channels == old(channels)[c.fd := c]
      ensures kernel == if c.events == NONE then old(kernel) - {c.fd} else old(kernel)[c.fd := Interest(c.events, c)]
    {
      if c.status == New {
        UpdateNew(c);
      } else {
        UpdateRegistered(c, before);
      }
    }

    // Channel::EnableReading, EnableWriting, DisableReading, DisableWriting and DisableAll
    method SetEvents(c: Channel, events: Mask)
      requires Valid() && c in known && (c.status == New ==> channels[c.fd] == null)
      modifies this`channels, this`channelNums, this`curMaxFd, this`kernel, c`status, c`events
      ensures Valid() && c.events == events && channels == old(channels)[c.fd := c]
      ensures kernel == if events == NONE then old(kernel) - {c.fd} else old(kernel)[c.fd := Interest(events, c)]
    {
      ghost var before := c.events;
      c.events := events;
      assert forall d | d in known && d != c :: old(Agrees(d, d.events));
      assert Agrees(c, before);
      UpdateChannel(c, before);
    }

    // The source asserts that a registered channel is the one in its slot, and
    // that its status matches its mask
    method RemoveChannel(c: Channel)
      requires Valid() && c in known
      modifies this`channels, this`channelNums, this`curMaxFd, this`kernel, c`status
      ensures Valid() && c.status == New && channels[c.fd] != c
      ensures old(c.status) == New ==> channels == old(channels) && kernel == old(kernel)
      ensures old(c.status) != New ==> channels == old(channels)[c.fd := null] && kernel == old(kernel) - {c.fd}
    {
      hide Occupied, IsMaxFd;
      if c.status != New {
        assert channels[c.fd] == c && Agrees(c, c.events);
        if c.events != NONE {
          var ok := Ctl(CtlDel, c);
          assert ok;
        }
        c.status := New;
        DelChannelListItem(c);
        assert forall d | d in known && d != c :: old(Agrees(d, d.events));
      }
    }

    // A channel constructed for this loop
    method NewChannel(fd: nat) returns (c: Channel)
      requires Valid() && 0 < fd < |channels|
      modifies this`known
      ensures Valid() && fresh(c) && known == old(known) + {c} && c.fd == fd && c.status == New && c.events == NONE
    {
      hide Occupied, IsMaxFd;
      c := new Channel(fd);
      assert forall d | d in known :: Agrees(d, d.events);
      known := known + {c};
    }

    // Poller::HasChannel.  Its two assertions, that the descriptor is in bounds
    // and that the slot holds this channel or nothing, fail for a channel of this
    // loop exactly if it is new and another one is registered for its descriptor.
    method HasChannel(c: Channel) returns (has: bool, asserted: bool)
      ensures has <==> c.fd < |channels| && channels[c.fd] != null
      ensures asserted <==> c.fd < |channels| && (has ==> channels[c.fd] == c)
      ensures Valid() && c in known ==> (has && asserted <==> c.status != New)
      ensures Valid() && c in known ==> (!asserted <==> c.status == New && channels[c.fd] != null)
    {
      assert Valid() && c in known ==> Agrees(c, c.events);
      if |channels| <= c.fd {
        return false, false;
      }
      has := channels[c.fd] != null;
      asserted := has ==> channels[c.fd] == c;
    }

    // What the kernel may report: watched channels, each once
    ghost predicate Reportable(report: seq<Report>)
      reads this
    {
      && AllDistinct(report)
      && (forall i | 0 <= i < |report| ::
            report[i].channel.fd in kernel && kernel[report[i].channel.fd].channel == report[i].channel)
    }

    lemma ReportedAreWatched(report: seq<Report>)
      requires Valid() && Reportable(report)
      ensures forall i | 0 <= i < |report| :: report[i].channel.events != NONE
    {
      forall i | 0 <= i < |report| ensures report[i].channel.events != NONE {
        KernelIsExact(report[i].channel.fd);
      }
    }

    // A channel with an empty mask is a spurious notification: it is counted, and its place left as it was
    method FillActiveChannel(report: seq<Report>)
      requires AllDistinct(report) && |report| < |activeChannels|
      modifies this`activeChannels, this`egen, Channels(report)`revents
      ensures |activeChannels| == |old(activeChannels)| && activeChannels[|report|] == null
      ensures forall i | 0 <= i < |report| && report[i].channel.events != NONE ::
                activeChannels[i] == report[i].channel && report[i].channel.revents == report[i].events
      ensures forall i | 0 <= i < |report| && report[i].channel.events == NONE ::
                activeChannels[i] == old(activeChannels)[i]
      ensures egen == old(egen) <==> forall i | 0 <= i < |report| :: report[i].channel.events != NONE
    {
      var i := 0;
      while i < |report|
        invariant 0 <= i <= |report| && |activeChannels| == |old(activeChannels)| && old(egen) <= egen
        invariant egen == old(egen) <==> forall j | 0 <= j < i :: report[j].channel.events != NONE
        invariant forall j | 0 <= j < i && report[j].channel.events != NONE ::
                    activeChannels[j] == report[j].channel && report[j].channel.revents == report[j].events
        invariant forall j | 0 <= j < |report| && (i <= j || report[j].channel.events == NONE) ::
                    activeChannels[j] == old(activeChannels)[j]
      {
        var c := report[i].channel;
        if c.events != NONE {
          c.revents := report[i].events;
          activeChannels := activeChannels[i := c];
        } else {
          egen := egen + 1;
        }
        i := i + 1;
      }
      activeChannels := activeChannels[i := null];
    }

    // Loop visits the channels of the report, in order, with the reported events
    ghost predicate Visits(report: seq<Report>)
      reads `activeChannels, Channels(report)`revents
    {
      && |Visited(activeChannels)| == |report|
      && (forall i | 0 <= i < |report| ::
            Visited(activeChannels)[i] == report[i].channel && report[i].channel.revents == report[i].events)
    }

    // epoll_wait gives at most as many events as its list has room for; None is
    // an error.  A full list is doubled, and the active list with it, so the null
    // behind the last channel is always in bounds.  Whatever earlier polls left
    // in the active list, Loop visits exactly the reported channels, in order,
    // and none of them is spurious.
    method Poll(result: Option<seq<Report>>)
      requires Valid()
      requires result.Some? ==> Reportable(result.value) && |result.value| <= eventListSize
      modifies this`activeChannels, this`eventListSize, this`egen
      modifies (if result.Some? then Channels(result.value) else {})`revents
      ensures Valid() && egen == old(egen)
      ensures Visits(if result.Some? then result.value else [])
      ensures eventListSize ==
              old(eventListSize) * if result.Some? && |result.value| == old(eventListSize) then 2 else 1
    {
      hide Occupied, IsMaxFd, Visited;
      activeChannels := activeChannels[0 := null];
      if result.Some? && 0 < |result.value| {
        ReportedAreWatched(result.value);
        var size := eventListSize;
        if |result.value| == size {
          eventListSize := size * 2;
          activeChannels := seq(size * 2, _ => null);
        }
        FillActiveChannel(result.value);
        VisitedIsPrefix(activeChannels, |result.value|);
        assert forall i | 0 <= i < |result.value| :: activeChannels[..|result.value|][i] == result.value[i].channel;
      } else {
        VisitedIsPrefix(activeChannels, 0);
      }
    }
  }

  function Channels(report: seq<Report>): set<Channel> {
    set i | 0 <= i < |report| :: report[i].channel
  }

  predicate AllDistinct(report: seq<Report>) {
    forall i, j | 0 <= i < j < |report| :: report[i].channel != report[j].channel
  }
}
