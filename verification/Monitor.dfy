/** The monitor's mutable objects; every method is proved against its step on the books. */
module Monitor {
  import opened Addresses
  import opened Books

  class NodeInfo {
    var requestCount: int
    var sentBytes: int
    var receivedBytes: int
    var activeConns: int
    var totalConns: int

    function Value(): Node
      reads this
    {
      Node(requestCount, sentBytes, receivedBytes, activeConns, totalConns)
    }

    constructor ()
      ensures Value() == EMPTY_NODE
    {
      requestCount, sentBytes, receivedBytes, activeConns, totalConns := 0, 0, 0, 0, 0;
    }

    method ReflectRequest(received: int, sent: int)
      modifies this
      ensures Value() == Reflected(old(Value()), received, sent)
    {
      receivedBytes := receivedBytes + received;
      sentBytes := sentBytes + sent;
      requestCount := requestCount + 1;
    }

    method AddTotalConns(cnt: int)
      modifies this
      ensures Value() == old(Value()).(total := old(totalConns) + cnt)
    {
      totalConns := totalConns + cnt;
    }

    method AddActiveConns(cnt: int)
      modifies this
      ensures Value() == old(Value()).(active := old(activeConns) + cnt)
    {
      activeConns := activeConns + cnt;
    }
  }

  class RemoteNodeMap {
    var m: map<string, NodeInfo>

    /** Different hosts have different node objects. */
    ghost predicate Valid()
      reads this
    {
      forall h, k | h in m && k in m && h != k :: m[h] != m[k]
    }

    ghost function Nodes(): map<string, Node>
      reads this, m.Values
    {
      map h | h in m :: m[h].Value()
    }

    /** Nodes are added, as new objects, but never replaced. */
    twostate predicate Grown()
      reads this
    {
      && (forall h | h in old(m) :: h in m && m[h] == old(m)[h])
      && (forall h | h in m && h !in old(m) :: fresh(m[h]))
    }

    constructor ()
      ensures Valid() && m == map[]
    {
      m := map[];
    }

    method Create(host: string)
      requires Valid() && host !in m
      modifies this
      ensures Valid() && Grown() && host in m && Nodes() == old(Nodes())[host := EMPTY_NODE]
    {
      var node := new NodeInfo();
      m := m[host := node];
    }

    lemma NodeSet(host: string, before: map<string, Node>)
      requires Valid() && host in m && before.Keys == m.Keys
      requires forall h | h in m && h != host :: m[h].Value() == before[h]
      ensures Nodes() == before[host := m[host].Value()]
    {
    }

    method AddTotalConns(host: string, cnt: int)
      requires Valid()
      modifies this, m.Values
      ensures Valid() && Grown() && host in m
      ensures var n := if host in old(Nodes()) then old(Nodes())[host] else EMPTY_NODE;
        Nodes() == old(Nodes())[host := n.(total := n.total + cnt)]
    {
      if host !in m {
        Create(host);
      }
      ghost var before := Nodes();
      m[host].AddTotalConns(cnt);
      NodeSet(host, before);
    }

    method AddActiveConns(host: string, cnt: int)
      requires Valid() && host in m
      modifies m.Values
      ensures Valid()
      ensures var n := old(Nodes())[host]; Nodes() == old(Nodes())[host := n.(active := n.active + cnt)]
    {
      ghost var before := Nodes();
      m[host].AddActiveConns(cnt);
      NodeSet(host, before);
    }

    method ReflectRequest(host: string, received: int, sent: int)
      requires Valid() && host in m
      modifies m.Values
      ensures Valid() && Nodes() == old(Nodes())[host := Reflected(old(Nodes())[host], received, sent)]
    {
      ghost var before := Nodes();
      m[host].ReflectRequest(received, sent);
      NodeSet(host, before);
    }
  }

  class ConnectionMonitor {
    var total: int                      // cw.total
    var active: int                     // cw.active
    const remoteNodes: RemoteNodeMap
    const own: NodeInfo                 // store.node
    var elbs: map<string, NodeInfo?>    // store.node.ELBs
    var csMaps: map<string, ConnState>
    var fired: set<nat>                 // the sync.Once of tracked connections

    /** Each ELBs entry is the very object of the remote node, or null for a host that had none, and
        store.node is none of them. */
    ghost predicate Valid()
      reads this, remoteNodes
    {
      && remoteNodes.Valid()
      && (forall h | h in remoteNodes.m :: remoteNodes.m[h] != own)
      && (forall h | h in elbs && elbs[h] != null :: h in remoteNodes.m && elbs[h] == remoteNodes.m[h])
    }

    ghost function View(): Ledger
      reads this, own, remoteNodes, remoteNodes.m.Values
    {
      Ledger(total, active, remoteNodes.Nodes(), own.Value(), elbs.Keys, csMaps, fired)
    }

    constructor ()
      ensures Valid() && View() == Ledger(0, 0, map[], EMPTY_NODE, {}, map[], {})
      ensures fresh(own) && fresh(remoteNodes)
    {
      total, active, elbs, csMaps, fired := 0, 0, map[], map[], {};
      own := new NodeInfo();
      remoteNodes := new RemoteNodeMap();
    }

    /** atomic.AddInt64(&cw.total, cnt) and remoteNodes.addTotalConns(host, cnt). */
    method CountTotalConns(host: string, cnt: int)
      requires Valid()
      modifies this`total, remoteNodes, remoteNodes.m.Values
      ensures Valid() && View() == CountTotal(old(View()), host, cnt) && remoteNodes.Grown()
    {
      ghost var was := View();
      total := total + cnt;
      remoteNodes.AddTotalConns(host, cnt);
      assert own.Value() == was.own;
      assert remoteNodes.Nodes() == CountTotal(was, host, cnt).nodes;
    }

    /** atomic.AddInt64(&cw.active, cnt) and remoteNodes.addActiveConns(host, cnt). */
    method CountActiveConns(host: string, cnt: int)
      requires Valid() && host in remoteNodes.m
      modifies this`active, remoteNodes.m.Values
      ensures Valid() && View() == CountActive(old(View()), host, cnt)
    {
      ghost var was := View();
      active := active + cnt;
      remoteNodes.AddActiveConns(host, cnt);
      assert own.Value() == was.own;
      assert remoteNodes.Nodes() == CountActive(was, host, cnt).nodes;
    }

    /** csMaps.set: a changed or new entry. */
    method SetEntry(key: string, cs: ConnState)
      requires Valid()
      modifies this`csMaps
      ensures Valid() && View() == old(View()).(cs := old(csMaps)[key := cs])
    {
      csMaps := csMaps[key := cs];
    }

    /** csMaps.del. */
    method DeleteEntry(key: string)
      requires Valid()
      modifies this`csMaps
      ensures Valid() && View() == old(View()).(cs := old(csMaps) - {key})
    {
      csMaps := csMaps - {key};
    }

    /** The first half of Accept and of a new HTTP connection: a stale entry is dropped first. */
    method Renew(conn: Conn)
      requires Valid()
      modifies this`csMaps
      ensures Valid() && View() == old(View()).(cs := old(csMaps)[conn.key := ConnState(conn, New, New)])
    {
      if conn.key in csMaps {
        DeleteEntry(conn.key);
      }
      SetEntry(conn.key, ConnState(conn, New, New));
    }

    method OnStateChange(conn: Conn, state: NetState)
      requires Valid()
      modifies this, remoteNodes, remoteNodes.m.Values
      ensures Valid() && View() == Books.OnStateChange(old(View()), conn, state) && remoteNodes.Grown()
    {
      if state == New {
        Renew(conn);
        CountTotalConns(conn.host, 1);
        return;
      }
      if conn.key in csMaps {
        Change(conn, state);
      }
    }

    /** A state other than New of a connection that has an entry. */
    method Change(conn: Conn, state: NetState)
      requires Valid() && state != New && conn.key in csMaps
      modifies this, remoteNodes, remoteNodes.m.Values
      ensures Valid() && View() == Books.OnStateChange(old(View()), conn, state) && remoteNodes.Grown()
    {
      var cs := csMaps[conn.key];
      SetEntry(conn.key, cs.(prevState := cs.curState, curState := state));
      match state
      case Hijacked =>
        CountTotalConns(conn.host, -1);
      case Closed =>
        CountTotalConns(conn.host, -1);
        DeleteEntry(conn.key);
      case _ =>
    }

    method Accept(conn: Conn)
      requires Valid()
      modifies this, remoteNodes, remoteNodes.m.Values
      ensures Valid() && View() == Register(old(View()), conn) && remoteNodes.Grown()
    {
      Renew(conn);
      CountTotalConns(conn.host, 1);
    }

    /** Close of a tracked connection, any number of times. */
    method Close(conn: Conn)
      requires Valid()
      modifies this, remoteNodes, remoteNodes.m.Values
      ensures Valid() && View() == Release(old(View()), conn.id, conn.host) && remoteNodes.Grown()
    {
      ReleaseOnce(conn.id, conn.host);
    }

    /** once.Do around the release: only the first call for a connection counts. */
    method ReleaseOnce(id: nat, host: string)
      requires Valid()
      modifies this`total, this`fired, remoteNodes, remoteNodes.m.Values
      ensures Valid() && View() == Release(old(View()), id, host) && remoteNodes.Grown()
    {
      if id !in fired {
        fired := fired + {id};
        CountTotalConns(host, -1);
      }
    }

    /** getByRemoteAddr: some key with the prefix, in no particular order; [] when there is none. */
    method GetByRemoteAddr(remoteAddr: string) returns (found: seq<string>)
      ensures |found| <= 1
      ensures found != [] ==> found[0] in csMaps && remoteAddr + "->" <= found[0]
      ensures found == [] ==> forall k | k in csMaps :: !(remoteAddr + "->" <= k)
    {
      var todo := csMaps.Keys;
      while todo != {}
        invariant todo <= csMaps.Keys
        invariant forall k | k in csMaps && k !in todo :: !(remoteAddr + "->" <= k)
        decreases todo
      {
        var key :| key in todo;
        if remoteAddr + "->" <= key {
          return [key];
        }
        todo := todo - {key};
      }
      return [];
    }

    method Disconnect(remoteAddr: string, proto: string) returns (found: seq<string>)
      requires Valid()
      modifies this, remoteNodes, remoteNodes.m.Values
      ensures Valid() && remoteNodes.Grown() && |found| <= 1
      ensures found == [] ==> View() == old(View()) && forall k | k in csMaps :: !(remoteAddr + "->" <= k)
      ensures found != [] ==>
                && found[0] in old(csMaps) && remoteAddr + "->" <= found[0]
                && var conn := old(csMaps)[found[0]].conn;
                   View() == Books.Disconnect(old(View()), ExtractIPAddress(remoteAddr),
                                              ConnKey(remoteAddr, conn.local), proto, found[0])
    {
      found := GetByRemoteAddr(remoteAddr);
      if found == [] {
        return;
      }
      var cs := csMaps[found[0]];
      var key, host := ConnKey(remoteAddr, cs.conn.local), ExtractIPAddress(remoteAddr);
      DisconnectEntry(cs, host, key, proto, found[0]);
    }

    method DisconnectEntry(cs: ConnState, host: string, key: string, proto: string, found: string)
      requires Valid() && found in csMaps && csMaps[found] == cs
      modifies this, remoteNodes, remoteNodes.m.Values
      ensures Valid() && View() == Books.Disconnect(old(View()), host, key, proto, found) && remoteNodes.Grown()
    {
      if IsGrpc(proto) {
        if cs.conn.tracked {
          ReleaseOnce(cs.conn.id, host);
        }
      } else if proto != "h2c" && cs.curState != Closed {
        CountTotalConns(host, -1);
      }
      DeleteEntry(key);
    }

    /** The accounting of a finished default-handler request. */
    method ReflectRequest(host: string, received: int, sent: int, isLambda: bool)
      requires Valid() && (!isLambda ==> host in remoteNodes.m)
      modifies own, remoteNodes.m.Values
      ensures Valid() && View() == Reflect(old(View()), host, received, sent, isLambda)
    {
      own.ReflectRequest(received, sent);
      if !isLambda {
        remoteNodes.ReflectRequest(host, received, sent);
      }
    }

    /** handlerWrapper around a default-handler request: the active counts go up and, whatever the request
        was, down again. */
    method ServeRequest(host: string, received: int, sent: int, isLambda: bool)
      requires Valid() && host in remoteNodes.m
      modifies this`active, own, remoteNodes.m.Values
      ensures Valid() && View() == Reflect(old(View()), host, received, sent, isLambda)
    {
      ActiveComesBack(View(), host, received, sent, isLambda);
      CountActiveConns(host, 1);
      ReflectRequest(host, received, sent, isLambda);
      CountActiveConns(host, -1);
    }

    /** A request that came through a load balancer links its node into ELBs. */
    method LinkELB(host: string)
      requires Valid()
      modifies this`elbs
      ensures Valid() && View() == old(View()).(elbs := old(elbs.Keys) + {host})
      ensures elbs[host] == if host in remoteNodes.m then remoteNodes.m[host] else null
    {
      elbs := elbs[host := if host in remoteNodes.m then remoteNodes.m[host] else null];
    }

    method UpdateNode()
      requires Valid()
      modifies own
      ensures Valid() && View() == Books.UpdateNode(old(View()))
    {
      own.activeConns := active;
      own.totalConns := total;
    }
  }
}
