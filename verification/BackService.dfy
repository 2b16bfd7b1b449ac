/** `BackService` and the part of `BackendConn` it works with, as objects. */
module BackServices {

  import opened ThriftMessage
  import opened ConnPool

  const TEST_PRODUCT_NAME := "test"

  /** An address as found in the registry. */
  datatype Address = Address(text: string)

  class Conn {
    const addr: Address
    var index: int
    var active: bool          // IsConnActive
    var offline: bool         // IsMarkOffline
    var inputClosed: bool

    constructor (addr: Address)
      ensures this.addr == addr && index == INVALID_ARRAY_INDEX && !active && !offline && !inputClosed
    {
      this.addr, index, active, offline, inputClosed := addr, INVALID_ARRAY_INDEX, false, false, false;
    }
  }

  /** The addresses one watch round works with: those read without an error that name a port, or,
      for the test product, any. */
  method AddressMap(endpoints: seq<Option<Address>>, product: string) returns (found: set<Address>)
    ensures forall a :: a in found <==> Some(a) in endpoints && (':' in a.text || product == "test")
  {
    found := {};
    for i := 0 to |endpoints|
      invariant forall a :: a in found <==> Some(a) in endpoints[..i] && (':' in a.text || product == "test")
    {
      assert endpoints[..i + 1] == endpoints[..i] + [endpoints[i]];
      if endpoints[i].Some? {
        var frontend := endpoints[i].value;
        if ':' in frontend.text {
          found := found + {frontend};
        } else if product == TEST_PRODUCT_NAME {
          found := found + {frontend};
        }
      }
    }
    assert endpoints[..|endpoints|] == endpoints;
  }

  /** The pool after `conn` stopped being active, if it was. */
  ghost function Deactivated(p: Pool<Conn>, conn: Conn, was: bool): Pool<Conn>
    requires InRange(p, conn)
  {
    if was then StateChanged(p, conn, false) else p
  }

  lemma DeactivatedConns(p: Pool<Conn>, conn: Conn, was: bool)
    requires WellFormed(p) && conn in p.index
    ensures forall c :: c in Deactivated(p, conn, was).conns <==> c in p.conns && !(c == conn && was)
  {
    StateChangedRefinesSet(p, conn, false);
    assert forall c :: c in p.conns <==> c in Members(p);
    assert forall c :: c in StateChanged(p, conn, false).conns <==> c in Members(StateChanged(p, conn, false));
  }

  class BackService {
    var activeConns: seq<Conn>
    var currentConnIndex: nat
    var addr2Conn: map<Address, Conn>
    ghost var known: set<Conn>     // every connection ever created for this service

    ghost function PoolView(): Pool<Conn>
      reads this`activeConns, this`known, known`index
    {
      Pool(activeConns, map c | c in known :: c.index)
    }

    ghost function ServiceView(): Service<Conn>
      reads this, known
    {
      Service(PoolView(), set c | c in known && c.active, set c | c in known && c.offline)
    }

    /** `WellFormed(PoolView())`, said of the fields. */
    ghost predicate Valid()
      reads this`activeConns, this`known, known`index
    {
      && (forall i :: 0 <= i < |activeConns| ==> activeConns[i] in known && activeConns[i].index == i)
      && (forall c :: c in known && c !in activeConns ==> c.index == INVALID_ARRAY_INDEX)
    }

    lemma ValidIsWellFormed()
      ensures Valid() <==> WellFormed(PoolView())
    {
      var p := PoolView();
      assert forall c :: c in known ==> c in p.index && p.index[c] == c.index;
    }

    /** Every connection ever created is in the map under its address, or marked offline. */
    ghost predicate Accounted()
      reads this, known
    {
      && (forall a :: a in addr2Conn ==> addr2Conn[a] in known && addr2Conn[a].addr == a)
      && (forall c :: c in known ==> c.offline || (c.addr in addr2Conn && addr2Conn[c.addr] == c))
    }

    constructor ()
      ensures Valid() && Accounted() && activeConns == [] && addr2Conn == map[] && known == {}
    {
      activeConns, currentConnIndex, addr2Conn, known := [], 0, map[], {};
    }

    method StateChanged(conn: Conn)
      requires Valid() && conn in known
      modifies this`activeConns, known`index
      ensures Valid() && InRange(old(PoolView()), conn)
      ensures PoolView() == ConnPool.StateChanged(old(PoolView()), conn, conn.active)
    {
      if conn.active {
        if conn.index == INVALID_ARRAY_INDEX {
          conn.index := |activeConns|;
          activeConns := activeConns + [conn];
        }
      } else {
        if conn.index != INVALID_ARRAY_INDEX {
          SwapRemove(conn);
        }
      }
    }

    method SwapRemove(conn: Conn)
      requires Valid() && conn in known && conn.index != INVALID_ARRAY_INDEX
      modifies this`activeConns, known`index
      ensures Valid() && InRange(old(PoolView()), conn)
      ensures PoolView() == ConnPool.StateChanged(old(PoolView()), conn, false)
    {
      ghost var before, at := activeConns, conn.index;
      var lastIndex := |activeConns| - 1;
      if lastIndex != conn.index {
        var lastConn := activeConns[lastIndex];
        activeConns := activeConns[conn.index := lastConn];
        lastConn.index := conn.index;
      }
      conn.index := INVALID_ARRAY_INDEX;
      activeConns := activeConns[..lastIndex];
      SwapOutMembers(before, at);
    }

    method MarkConnActiveOK(conn: Conn)
      requires Valid() && conn in known
      modifies this`activeConns, known`index, conn`active
      ensures Valid() && conn.active && InRange(old(PoolView()), conn)
      ensures PoolView() == ConnPool.StateChanged(old(PoolView()), conn, true)
    {
      conn.active := true;
      StateChanged(conn);
    }

    method MarkConnActiveFalse(conn: Conn)
      requires Valid() && conn in known
      modifies this`activeConns, known`index, conn`active
      ensures Valid() && !conn.active && InRange(old(PoolView()), conn)
      ensures PoolView() == Deactivated(old(PoolView()), conn, old(conn.active))
    {
      if conn.active {
        conn.active := false;
        StateChanged(conn);
      }
    }

    /** Only the first call does anything. */
    method MarkOffline(conn: Conn)
      requires Valid() && conn in known
      modifies this`activeConns, known`index, conn`active, conn`offline, conn`inputClosed
      ensures Valid() && conn.offline && InRange(old(PoolView()), conn)
      ensures PoolView() == Deactivated(old(PoolView()), conn, old(conn.active) && !old(conn.offline))
      ensures conn.active == (old(conn.active) && old(conn.offline))
      ensures conn.inputClosed == (old(conn.inputClosed) || !old(conn.offline))
    {
      if !conn.offline {
        conn.offline := true;
        MarkConnActiveFalse(conn);
        conn.inputClosed := true;
      }
    }

    /** The view of a service in which `conn`, and nothing else, was marked offline. */
    lemma OfflineView(before: Service<Conn>, conn: Conn)
      requires conn in known && InRange(before.pool, conn) && before.active <= known && before.offline <= known
      requires PoolView() == Deactivated(before.pool, conn, Removable(before, conn))
      requires forall c :: c in known ==> (c.offline <==> c in before.offline || c == conn)
      requires forall c :: c in known ==> (c.active <==> c in before.active && !(c == conn && Removable(before, conn)))
      ensures ServiceView() == ConnPool.MarkOffline(before, conn)
    {
    }

    /** Round robin over the pool; `null` when it is empty. */
    method NextBackendConn() returns (conn: Conn?)
      modifies this`currentConnIndex
      ensures activeConns == [] ==> conn == null && currentConnIndex == old(currentConnIndex)
      ensures activeConns != [] ==>
        && conn == activeConns[Pick(old(currentConnIndex), |activeConns|).0]
        && currentConnIndex == Pick(old(currentConnIndex), |activeConns|).1
    {
      if |activeConns| == 0 {
        conn := null;
      } else {
        if currentConnIndex >= |activeConns| {
          currentConnIndex := 0;
        }
        conn := activeConns[currentConnIndex];
        currentConnIndex := currentConnIndex + 1;
      }
    }

    /** The body of the loop of `Stop`. */
    method StopTurn()
      requires Valid() && activeConns != []
      modifies this`activeConns, known`index, known`active, known`offline, known`inputClosed
      ensures Valid() && InRange(old(PoolView()), old(activeConns[0]))
      ensures ServiceView() == ConnPool.MarkOffline(old(ServiceView()), old(activeConns[0]))
      ensures forall c :: c in known ==> c.inputClosed == (old(c.inputClosed) || (c.offline && !old(c.offline)))
      ensures forall c :: c in known && old(c.offline) ==> c.offline
    {
      ghost var before := ServiceView();
      var conn := activeConns[0];
      MarkOffline(conn);
      OfflineView(before, conn);
    }

    /** The loop of `Stop`, for so many turns at most. */
    method StopLoop(turns: nat)
      requires Valid()
      modifies this`activeConns, known`index, known`active, known`offline, known`inputClosed
      ensures Valid() && WellFormed(old(PoolView())) && ServiceView() == StopTurns(old(ServiceView()), turns)
      ensures forall c :: c in known ==> c.inputClosed == (old(c.inputClosed) || (c.offline && !old(c.offline)))
    {
      var i := 0;
      ghost var start := ServiceView();
      ValidIsWellFormed();
      while |activeConns| > 0 && i < turns
        invariant i <= turns && Valid()
        invariant WellFormed(ServiceView().pool) && StopTurns(ServiceView(), turns - i) == StopTurns(start, turns)
        invariant forall c :: c in known && old(c.offline) ==> c.offline
        invariant forall c :: c in known ==> c.inputClosed == (old(c.inputClosed) || (c.offline && !old(c.offline)))
      {
        ghost var before := ServiceView();
        MarkOfflineSets(before, activeConns[0]);
        StopTurn();
        i := i + 1;
      }
    }

    /** `Stop` need not end (`StopTerminatesIff`).  If every pooled connection is active and not
        offline, as many turns as there are connections empty the pool. */
    method Stop(turns: nat)
      requires Valid()
      modifies this`activeConns, known`index, known`active, known`offline, known`inputClosed
      ensures Valid() && WellFormed(old(PoolView())) && ServiceView() == StopTurns(old(ServiceView()), turns)
      ensures forall c :: c in known ==> c.inputClosed == (old(c.inputClosed) || (c.offline && !old(c.offline)))
      ensures old(forall c :: c in activeConns ==> c.active && !c.offline) && turns >= |old(activeConns)| ==>
        activeConns == []
    {
      ghost var start := ServiceView();
      ghost var easy := forall c :: c in activeConns ==> c.active && !c.offline;
      StopLoop(turns);
      if easy && turns >= |start.pool.conns| {
        RemovableAllGo(start, turns);
      }
    }

    /** One watch round: connect to new addresses, and to known ones whose connection went
        offline; drop the rest.  Dropped connections leave the pool with their input closed;
        nothing changes for the others. */
    method Reconcile(found: set<Address>)
      requires Valid() && Accounted()
      modifies this`activeConns, this`addr2Conn, this`known, known
      ensures Valid() && Accounted() && old(known) <= known && fresh(known - old(known))
      ensures addr2Conn.Keys == found
      ensures forall a :: a in found && a in old(addr2Conn) && !old(addr2Conn[a].offline) ==>
        addr2Conn[a] == old(addr2Conn[a])
      ensures forall a :: a in found ==> !addr2Conn[a].offline
      ensures forall c :: c in old(known) ==>
        if c.addr !in found && !old(c.offline) then c.offline && !c.active && c.inputClosed
        else c.offline == old(c.offline) && c.active == old(c.active) && c.inputClosed == old(c.inputClosed)
      ensures forall c :: c in activeConns <==>
        c in old(activeConns) && !(c.addr !in found && old(c.active) && !old(c.offline))
    {
      Connect(found);
      Disconnect(found);
    }

    /** The body of the first loop: keep an online connection, else make a new one. */
    method ConnectTo(addr: Address)
      requires Valid() && Accounted()
      modifies this`addr2Conn, this`known
      ensures Valid() && Accounted() && addr in addr2Conn && !addr2Conn[addr].offline
      ensures addr2Conn == old(addr2Conn)[addr := addr2Conn[addr]]
      ensures known == old(known) + {addr2Conn[addr]}
      ensures if addr in old(addr2Conn) && !old(addr2Conn[addr].offline) then addr2Conn[addr] == old(addr2Conn[addr])
              else fresh(addr2Conn[addr])
    {
      if !(addr in addr2Conn && !addr2Conn[addr].offline) {
        var conn := new Conn(addr);
        known := known + {conn};
        addr2Conn := addr2Conn[addr := conn];
      }
    }

    method Connect(found: set<Address>)
      requires Valid() && Accounted()
      modifies this`addr2Conn, this`known
      ensures Valid() && Accounted() && old(known) <= known && fresh(known - old(known))
      ensures addr2Conn.Keys == old(addr2Conn.Keys) + found
      ensures forall a :: a in old(addr2Conn) && (a !in found || !old(addr2Conn[a].offline)) ==>
        addr2Conn[a] == old(addr2Conn[a])
      ensures forall a :: a in found ==> !addr2Conn[a].offline
    {
      var todo := found;
      ghost var start := addr2Conn;
      ghost var online := set a | a in start && !start[a].offline;
      while todo != {}
        invariant Valid() && Accounted() && old(known) <= known && fresh(known - old(known)) && todo <= found
        invariant forall a :: a in addr2Conn <==> a in start || (a in found && a !in todo)
        invariant forall a :: a in start && (a in online || a !in found || a in todo) ==> addr2Conn[a] == start[a]
        invariant forall a :: a in found && a !in todo ==> !addr2Conn[a].offline
        decreases todo
      {
        var addr :| addr in todo;
        todo := todo - {addr};
        ConnectTo(addr);
      }
    }

    /** The body of the second loop for an address that is gone. */
    method Drop(addr: Address)
      requires Valid() && Accounted() && addr in addr2Conn
      modifies this`activeConns, this`addr2Conn, known
      ensures Valid() && Accounted() && addr2Conn == old(addr2Conn) - {addr}
      ensures forall c :: c in known ==>
        if c.addr == addr && !old(c.offline) then c.offline && !c.active && c.inputClosed
        else c.offline == old(c.offline) && c.active == old(c.active) && c.inputClosed == old(c.inputClosed)
      ensures forall c :: c in activeConns <==>
        c in old(activeConns) && !(c.addr == addr && old(c.active) && !old(c.offline))
    {
      ghost var before := PoolView();
      var conn := addr2Conn[addr];
      ValidIsWellFormed();
      MarkOffline(conn);
      DeactivatedConns(before, conn, old(conn.active) && !old(conn.offline));
      addr2Conn := addr2Conn - {addr};
    }

    method Disconnect(found: set<Address>)
      requires Valid() && Accounted() && found <= addr2Conn.Keys
      modifies this`activeConns, this`addr2Conn, known
      ensures Valid() && Accounted()
      ensures addr2Conn.Keys == found && forall a :: a in found ==> addr2Conn[a] == old(addr2Conn[a])
      ensures forall c :: c in known ==>
        if c.addr !in found && !old(c.offline) then c.offline && !c.active && c.inputClosed
        else c.offline == old(c.offline) && c.active == old(c.active) && c.inputClosed == old(c.inputClosed)
      ensures forall c :: c in activeConns <==>
        c in old(activeConns) && !(c.addr !in found && old(c.active) && !old(c.offline))
    {
      var todo := addr2Conn.Keys;
      while todo != {}
        invariant Valid() && Accounted()
        invariant todo <= old(addr2Conn.Keys) && addr2Conn.Keys == found + todo
        invariant forall a :: a in addr2Conn ==> addr2Conn[a] == old(addr2Conn[a])
        invariant forall c :: c in known ==>
          if c.addr !in found && c.addr !in todo && !old(c.offline) then c.offline && !c.active && c.inputClosed
          else c.offline == old(c.offline) && c.active == old(c.active) && c.inputClosed == old(c.inputClosed)
        invariant forall c :: c in activeConns <==>
          c in old(activeConns) && !(c.addr !in found && c.addr !in todo && old(c.active) && !old(c.offline))
        decreases todo
      {
        var addr :| addr in todo;
        todo := todo - {addr};
        if addr !in found {
          Drop(addr);
        }
      }
    }
  }
}
