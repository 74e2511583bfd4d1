/**
 The server's connection table (src/tcp_server.cc), a vector indexed by
 descriptor with a count beside it.  Connections are numbers; null is None.
 */
module ConnectionTables {
  import opened Basics
  import opened ConnStates

  const CONN_SIZE: nat := 1024 * 1024

  // What AddConnListItem does: stores the connection, turns it away ("already
  // max"), finds the slot taken (assert), or indexes one past the end
  datatype Added = Stored | Full | Taken | OutOfBounds

  type Slots = seq<Option<nat>>

  function Grown(slots: Slots): Slots {
    slots + seq(|slots|, _ => None)
  }

  // The table as a map from descriptors to connections
  function Entries(slots: Slots): map<nat, nat> {
    map fd: nat | fd < |slots| && slots[fd].Some? :: slots[fd].value
  }

  lemma StoreEntry(slots: Slots, fd: nat, conn: nat)
    requires fd < |slots| && slots[fd] == None
    ensures Entries(slots[fd := Some(conn)]) == Entries(slots)[fd := conn]
    ensures |Entries(slots[fd := Some(conn)])| == |Entries(slots)| + 1
  {
    assert Entries(slots[fd := Some(conn)]) == Entries(slots)[fd := conn];
    assert Entries(slots)[fd := conn].Keys == Entries(slots).Keys + {fd};
  }

  lemma ClearEntry(slots: Slots, fd: nat)
    requires fd < |slots| && slots[fd].Some?
    ensures Entries(slots[fd := None]) == Entries(slots) - {fd}
    ensures |Entries(slots[fd := None])| == |Entries(slots)| - 1
  {
    assert Entries(slots[fd := None]) == Entries(slots) - {fd};
    assert (Entries(slots) - {fd}).Keys == Entries(slots).Keys - {fd};
  }

  lemma GrowKeepsEntries(slots: Slots)
    ensures Entries(Grown(slots)) == Entries(slots)
  {}

  class ConnectionTable {
    var list: Slots
    var count: int

    // DumpConnections
    ghost predicate Valid()
      reads this
    {
      0 < |list| && count == |Entries(list)|
    }

    constructor ()
      ensures Valid() && Entries(list) == map[] && |list| == 1024 * 1024
    {
      list := seq(CONN_SIZE, _ => None);
      count := 0;
      new;
      assert Entries(list) == map[];
    }

    // Doubling happens once.  The bound test lets the size itself through, so a
    // descriptor is stored in bounds exactly when it is below twice the old size.
    method AddConnListItem(fd: nat, conn: nat) returns (r: Added)
      requires Valid()
      modifies this
      ensures Valid() && |list| == if old(|list|) <= fd then 2 * old(|list|) else old(|list|)
      ensures r == OutOfBounds <==> fd == 2 * old(|list|)
      ensures r == Full <==> 2 * old(|list|) < fd
      ensures r == Taken <==> fd in old(Entries(list))
      ensures r == Stored ==> fd < 2 * old(|list|)
      ensures Entries(list) == if r == Stored then old(Entries(list))[fd := conn] else old(Entries(list))
    {
      GrowKeepsEntries(list);
      if |list| <= fd {
        list := Grown(list);
      }
      if |list| < fd {
        return Full;
      }
      if |list| == fd {
        return OutOfBounds;
      }
      if list[fd].Some? {
        return Taken;
      }
      StoreEntry(list, fd, conn);
      list, count := list[fd := Some(conn)], count + 1;
      r := Stored;
    }

    // The source asserts that the slot is occupied
    method DelConnListItem(fd: nat)
      requires Valid() && fd in Entries(list)
      modifies this
      ensures Valid() && |list| == old(|list|) && Entries(list) == old(Entries(list)) - {fd}
    {
      ClearEntry(list, fd);
      list, count := list[fd := None], count - 1;
    }
  }

  // OnNewConnection: if the table turns the connection away, the function returns
  // and the last reference to it drops.  `dropped` is the state it is in then; the
  // destructor asserts DISCONNECTED, which fails exactly when the table is full.
  method OnNewConnection(t: ConnectionTable, fd: nat, conn: nat) returns (r: Added, dropped: Option<ConnState>)
    requires t.Valid()
    modifies t
    ensures t.Valid()
    ensures r == Full <==> 2 * old(|t.list|) < fd
    ensures (dropped.Some? && dropped.value != Disconnected) <==> r == Full
    ensures r == Full ==> Entries(t.list) == old(Entries(t.list)) && t.count == old(t.count)
  {
    var state := Connecting;
    r := t.AddConnListItem(fd, conn);
    dropped := if r == Full then Some(state) else None;
  }

  // Whatever the descriptor, deleting what was added leaves the table as it was
  method AddThenDelete(t: ConnectionTable, fd: nat, conn: nat) returns (r: Added)
    requires t.Valid()
    modifies t
    ensures t.Valid() && Entries(t.list) == old(Entries(t.list)) && t.count == old(t.count)
    ensures r == Stored <==> fd < 2 * old(|t.list|) && fd !in old(Entries(t.list))
  {
    r := t.AddConnListItem(fd, conn);
    if r == Stored {
      t.DelConnListItem(fd);
      assert old(Entries(t.list))[fd := conn] - {fd} == old(Entries(t.list));
    }
  }
}
