/**
 The counters of the monitor and every event that changes them, each as one atomic step:
 connection states, the h2c re-count, gRPC accept and close, forced disconnects, handler
 entry and exit, and the accounting of a finished request.
 */
module Books {
  import opened Addresses

  datatype Node = Node(requests: int, sent: int, received: int, active: int, total: int)

  const EMPTY_NODE := Node(0, 0, 0, 0, 0)

  datatype NetState = New | Active | Idle | Hijacked | Closed

  /** A connection; `key` and `host` are made from its addresses, and `tracked` marks the
      connections wrapped by the gRPC listener. */
  datatype Conn = Conn(id: nat, remote: string, local: string, key: string, host: string, tracked: bool)

  predicate Proper(conn: Conn) {
    '>' !in conn.remote && conn.key == ConnKey(conn.remote, conn.local) && conn.host == ExtractIPAddress(conn.remote)
  }

  datatype ConnState = ConnState(conn: Conn, prevState: NetState, curState: NetState)

  /** cw.total, cw.active, remoteNodes, store.node, the keys of its ELBs, csMaps, and the
      connections whose sync.Once has fired. */
  datatype Ledger = Ledger(
    total: int, active: int, nodes: map<string, Node>, own: Node, elbs: set<string>,
    cs: map<string, ConnState>, fired: set<nat>)

  function NodeAt(b: Ledger, host: string): Node {
    if host in b.nodes then b.nodes[host] else EMPTY_NODE
  }

  /** cw.total and the node's total together; the node is created on first use. */
  function CountTotal(b: Ledger, host: string, d: int): Ledger {
    var n := NodeAt(b, host);
    b.(total := b.total + d, nodes := b.nodes[host := n.(total := n.total + d)])
  }

  /** cw.active and the node's active count together; the node must exist. */
  function CountActive(b: Ledger, host: string, d: int): Ledger {
    var n := NodeAt(b, host);
    b.(active := b.active + d, nodes := b.nodes[host := n.(active := n.active + d)])
  }

  function Register(b: Ledger, conn: Conn): Ledger {
    CountTotal(b.(cs := b.cs[conn.key := ConnState(conn, New, New)]), conn.host, 1)
  }

  function OnStateChange(b: Ledger, conn: Conn, state: NetState): Ledger {
    if state.New? then Register(b, conn)
    else if conn.key !in b.cs then b
    else
      var cs := b.cs[conn.key];
      var b' := b.(cs := b.cs[conn.key := cs.(prevState := cs.curState, curState := state)]);
      match state
      case Hijacked => CountTotal(b', conn.host, -1)
      case Closed => CountTotal(b', conn.host, -1).(cs := b'.cs - {conn.key})
      case _ => b'
  }

  /** The once-guarded release of a tracked connection. */
  function Release(b: Ledger, id: nat, host: string): Ledger {
    if id in b.fired then b else CountTotal(b.(fired := b.fired + {id}), host, -1)
  }

  predicate IsGrpc(proto: string) {
    proto == "grpc" || proto == "grpcs"
  }

  /** Protocols whose total is counted by OnStateChange alone. */
  predicate IsPlainHttp(proto: string) {
    !IsGrpc(proto) && proto != "h2c"
  }

  /** disconnect, given the entry that getByRemoteAddr found; `host` and `key` are made from
      the address that was looked for. */
  function Disconnect(b: Ledger, host: string, key: string, proto: string, found: string): Ledger
    requires found in b.cs
  {
    var cs := b.cs[found];
    var b1 := if IsGrpc(proto) && cs.conn.tracked then Release(b, cs.conn.id, host) else b;
    var b2 := if IsPlainHttp(proto) && !cs.curState.Closed? then CountTotal(b1, host, -1) else b1;
    b2.(cs := b2.cs - {key})
  }

  /** For addresses without '>' the entry found by prefix is one of the address looked for. */
  lemma FoundByPrefix(conn: Conn, remote: string)
    requires Proper(conn) && '>' !in remote && remote + "->" <= conn.key
    ensures conn.remote == remote && conn.host == ExtractIPAddress(remote) && conn.key == ConnKey(remote, conn.local)
  {
    PrefixLookup(conn.remote, conn.local, remote);
  }

  /** A finished default-handler request; in Lambda there is no remote node. */
  function Reflect(b: Ledger, host: string, received: int, sent: int, isLambda: bool): Ledger {
    var b' := b.(own := Reflected(b.own, received, sent));
    if isLambda then b' else b'.(nodes := b.nodes[host := Reflected(NodeAt(b, host), received, sent)])
  }

  function Reflected(n: Node, received: int, sent: int): Node {
    n.(requests := n.requests + 1, sent := n.sent + sent, received := n.received + received)
  }

  function UpdateNode(b: Ledger): Ledger {
    b.(own := b.own.(active := b.active, total := b.total))
  }

  /** The active counts that a handler raises and lowers around a request come back to what they were. */
  lemma ActiveComesBack(b: Ledger, host: string, received: int, sent: int, isLambda: bool)
    requires host in b.nodes
    ensures CountActive(Reflect(CountActive(b, host, 1), host, received, sent, isLambda), host, -1)
            == Reflect(b, host, received, sent, isLambda)
  {
  }

  // ---- sums over the nodes ----

  ghost function Sum(nodes: map<string, Node>, field: Node -> int): int {
    if nodes == map[] then 0
    else
      var host :| host in nodes;
      field(nodes[host]) + Sum(nodes - {host}, field)
  }

  lemma {:induction false} SumWithout(nodes: map<string, Node>, field: Node -> int, host: string)
    requires host in nodes
    ensures Sum(nodes, field) == field(nodes[host]) + Sum(nodes - {host}, field)
    decreases |nodes|
  {
    var first :| first in nodes && Sum(nodes, field) == field(nodes[first]) + Sum(nodes - {first}, field);
    if first != host {
      SumWithout(nodes - {first}, field, host);
      SumWithout(nodes - {host}, field, first);
      assert nodes - {first} - {host} == nodes - {host} - {first};
    }
  }

  /** Setting one node changes the sum by the change at that node. */
  lemma SumUpdate(nodes: map<string, Node>, field: Node -> int, host: string, n: Node)
    requires field(EMPTY_NODE) == 0
    ensures Sum(nodes[host := n], field)
            == Sum(nodes, field) + field(n) - field(if host in nodes then nodes[host] else EMPTY_NODE)
  {
    SumWithout(nodes[host := n], field, host);
    assert nodes[host := n] - {host} == nodes - {host};
    if host in nodes {
      SumWithout(nodes, field, host);
    } else {
      assert nodes - {host} == nodes;
    }
  }
}
