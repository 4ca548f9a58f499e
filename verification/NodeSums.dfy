/** The sums over the nodes, in every run whatsoever. */
module NodeSums {
  import opened Books
  import opened Connections
  import opened AccountingRuns

  function Total(): Node -> int { (n: Node) => n.total }
  function ActiveConns(): Node -> int { (n: Node) => n.active }
  function Requests(): Node -> int { (n: Node) => n.requests }
  function SentBytes(): Node -> int { (n: Node) => n.sent }
  function ReceivedBytes(): Node -> int { (n: Node) => n.received }

  /** cw.total and cw.active are the sums over remoteNodes, and outside Lambda the request
      figures of the nodes add up to those of store.node. */
  ghost predicate Balanced(b: Ledger, isLambda: bool) {
    && Sum(b.nodes, Total()) == b.total && Sum(b.nodes, ActiveConns()) == b.active
    && (!isLambda ==>
          && Sum(b.nodes, Requests()) == b.own.requests
          && Sum(b.nodes, SentBytes()) == b.own.sent && Sum(b.nodes, ReceivedBytes()) == b.own.received)
  }

  lemma SetNode(b: Ledger, host: string, n: Node)
    ensures var was := NodeAt(b, host); var nodes := b.nodes[host := n];
      && Sum(nodes, Total()) == Sum(b.nodes, Total()) + n.total - was.total
      && Sum(nodes, ActiveConns()) == Sum(b.nodes, ActiveConns()) + n.active - was.active
      && Sum(nodes, Requests()) == Sum(b.nodes, Requests()) + n.requests - was.requests
      && Sum(nodes, SentBytes()) == Sum(b.nodes, SentBytes()) + n.sent - was.sent
      && Sum(nodes, ReceivedBytes()) == Sum(b.nodes, ReceivedBytes()) + n.received - was.received
  {
    SumUpdate(b.nodes, Total(), host, n);
    SumUpdate(b.nodes, ActiveConns(), host, n);
    SumUpdate(b.nodes, Requests(), host, n);
    SumUpdate(b.nodes, SentBytes(), host, n);
    SumUpdate(b.nodes, ReceivedBytes(), host, n);
  }

  lemma CountTotalBalances(b: Ledger, host: string, d: int, isLambda: bool)
    requires Balanced(b, isLambda)
    ensures Balanced(CountTotal(b, host, d), isLambda)
  {
    SetNode(b, host, CountTotal(b, host, d).nodes[host]);
  }

  lemma CountActiveBalances(b: Ledger, host: string, d: int, isLambda: bool)
    requires Balanced(b, isLambda)
    ensures Balanced(CountActive(b, host, d), isLambda)
  {
    SetNode(b, host, CountActive(b, host, d).nodes[host]);
  }

  /** A finished request keeps the balance, and so does publishing the counters in store.node. */
  lemma ReflectBalances(b: Ledger, host: string, received: int, sent: int, isLambda: bool)
    requires Balanced(b, isLambda)
    ensures Balanced(Reflect(b, host, received, sent, isLambda), isLambda)
    ensures Balanced(UpdateNode(b), isLambda)
    ensures UpdateNode(b).own.total == Sum(b.nodes, Total()) && UpdateNode(b).own.active == Sum(b.nodes, ActiveConns())
  {
    if !isLambda {
      SetNode(b, host, Reflected(NodeAt(b, host), received, sent));
    }
  }

  /** Every event, a wrongly counted disconnect included, changes both sides alike. */
  lemma EventBalances(s: Sys, e: Event, isLambda: bool)
    requires Balanced(s.books, isLambda) && Possible(s, e) && (e.Finishes? ==> e.onLambda == isLambda)
    ensures Balanced(Happen(s, e).books, isLambda)
  {
    var b := s.books;
    match e
    case HttpNew(conn) =>
      CountTotalBalances(b.(cs := b.cs[conn.key := ConnState(conn, New, New)]), conn.host, 1, isLambda);
    case GrpcAccept(conn) =>
      CountTotalBalances(b.(cs := b.cs[conn.key := ConnState(conn, New, New)]), conn.host, 1, isLambda);
    case HttpState(id, state) =>
      var conn := s.conns[id].conn;
      if conn.key in b.cs {
        var cs := b.cs[conn.key];
        var changed := cs.(prevState := cs.curState, curState := state);
        CountTotalBalances(b.(cs := b.cs[conn.key := changed]), conn.host, -1, isLambda);
      }
    case RaisedEnds(_) =>
    case H2cBegins(id) => CountTotalBalances(b, s.conns[id].conn.host, 1, isLambda);
    case H2cEnds(id) => CountTotalBalances(b, s.conns[id].conn.host, -1, isLambda);
    case GrpcClose(id) => CountTotalBalances(b.(fired := b.fired + {id}), s.conns[id].conn.host, -1, isLambda);
    case Disconnects(_, found) =>
      var conn := b.cs[found].conn;
      CountTotalBalances(b, conn.host, -1, isLambda);
      CountTotalBalances(b.(fired := b.fired + {conn.id}), conn.host, -1, isLambda);
    case Enters(_, id) => CountActiveBalances(b, s.conns[id].conn.host, 1, isLambda);
    case Finishes(req, received, sent, _) =>
      ReflectBalances(b, s.conns[s.reqs[req]].conn.host, received, sent, isLambda);
    case Leaves(req) => CountActiveBalances(b, s.conns[s.reqs[req]].conn.host, -1, isLambda);
  }

  /** So they agree after every run, however its disconnects are counted. */
  lemma {:induction false} RunBalances(s: Sys, events: seq<Event>, s': Sys, isLambda: bool)
    requires Balanced(s.books, isLambda) && Run(s, events, s')
    requires forall e | e in events && e.Finishes? :: e.onLambda == isLambda
    ensures Balanced(s'.books, isLambda)
    decreases |events|
  {
    if events != [] {
      EventBalances(s, events[0], isLambda);
      RunBalances(Happen(s, events[0]), events[1..], s', isLambda);
    }
  }

  lemma NodesAddUp(events: seq<Event>, s: Sys, isLambda: bool)
    requires Run(Start(), events, s)
    requires forall e | e in events && e.Finishes? :: e.onLambda == isLambda
    ensures Sum(s.books.nodes, Total()) == s.books.total && Sum(s.books.nodes, ActiveConns()) == s.books.active
    ensures !isLambda ==> Sum(s.books.nodes, Requests()) == s.books.own.requests
    ensures !isLambda ==> Sum(s.books.nodes, SentBytes()) == s.books.own.sent
    ensures !isLambda ==> Sum(s.books.nodes, ReceivedBytes()) == s.books.own.received
  {
    RunBalances(Start(), events, s, isLambda);
  }
}
