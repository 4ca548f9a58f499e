/** Runs in which every remote address keeps to one listener at a time: the counters stay right. */
module Listeners {
  import opened Books
  import opened Connections
  import opened Accounting
  import opened AccountingRuns

  /** A request with this protocol can be running on the connection while it lasts. */
  predicate Serves(info: Info, proto: string) {
    if info.conn.tracked then info.phase.Open? && IsGrpc(proto)
    else (info.phase.Open? && IsPlainHttp(proto)) || (info.phase.Serving? && proto == "h2c")
  }

  /** What a request that has outlived its connection may find: an entry of its own listener, which for
      plain HTTP is not hijacked; in h2c its own entry, so that the address has not been reused. */
  predicate OutlivesWell(info: Info, proto: string, cs: ConnState) {
    if info.conn.tracked then IsGrpc(proto) && cs.conn.key == info.conn.key
    else
      || (IsPlainHttp(proto) && cs.conn.key == info.conn.key && !cs.curState.Hijacked?)
      || (proto == "h2c" && cs.conn.id == info.conn.id)
  }

  /** A disconnect asked for by a request of connection id, which looks for its own remote address. */
  predicate AskedBy(s: Sys, id: nat, proto: string, found: string)
    requires id in s.conns && found in s.books.cs
  {
    && s.conns[id].conn.remote + "->" <= found
    && if s.conns[id].phase.Over? then OutlivesWell(s.conns[id], proto, s.books.cs[found])
       else Serves(s.conns[id], proto)
  }

  /** A connection arrives while its remote address is in use at no other listener: no connection of the
      address is going on there, and no entry of the address is left there. A local address belongs
      either to the gRPC listener or to an HTTP listener. */
  predicate MayArrive(s: Sys, conn: Conn) {
    && Proper(conn)
    && (forall i | i in s.conns && s.conns[i].conn.key == conn.key :: s.conns[i].conn.tracked == conn.tracked)
    && (forall i | i in s.conns && s.conns[i].conn.remote == conn.remote && !s.conns[i].phase.Over? ::
          s.conns[i].conn.key == conn.key)
    && (forall key | key in s.books.cs && s.books.cs[key].conn.remote == conn.remote :: key == conn.key)
  }

  ghost predicate Ordinary(s: Sys, e: Event) {
    match e
    case HttpNew(conn) => MayArrive(s, conn)
    case GrpcAccept(conn) => MayArrive(s, conn)
    case Disconnects(proto, found) => found in s.books.cs && exists id :: id in s.conns && AskedBy(s, id, proto, found)
    case _ => true
  }

  ghost predicate OrdinaryRun(s: Sys, events: seq<Event>, s': Sys)
    decreases |events|
  {
    if events == [] then s == s'
    else Possible(s, events[0]) && Ordinary(s, events[0]) && OrdinaryRun(Happen(s, events[0]), events[1..], s')
  }

  // ---- what ordinary events keep ----

  predicate SameKind(s: Sys, i: nat, j: nat)
    requires i in s.conns && j in s.conns
  {
    s.conns[i].conn.key == s.conns[j].conn.key ==> s.conns[i].conn.tracked == s.conns[j].conn.tracked
  }

  /** Every entry of the address of a connection that is going on is at that connection's listener. */
  predicate KeepsToItself(s: Sys, id: nat)
    requires id in s.conns
  {
    !s.conns[id].phase.Over? ==>
      forall key | key in s.books.cs && s.books.cs[key].conn.remote == s.conns[id].conn.remote ::
        key == s.conns[id].conn.key
  }

  ghost predicate Apart(s: Sys) {
    && (forall id | id in s.conns :: Proper(s.conns[id].conn) && KeepsToItself(s, id))
    && (forall i, j | i in s.conns && j in s.conns :: SameKind(s, i, j))
  }

  /** The entry that the lookup of an asking request finds is at the asking connection's listener. */
  lemma FindsItsListener(s: Sys, id: nat, found: string, cs: ConnState)
    requires found in s.books.cs && cs == s.books.cs[found] && id in s.conns && Placed(s) && Apart(s)
    requires s.conns[id].conn.remote + "->" <= found
    ensures cs.conn.id in s.conns && s.conns[cs.conn.id].conn == cs.conn && cs.conn.key == found
    ensures cs.conn.remote == s.conns[id].conn.remote
    ensures !s.conns[id].phase.Over? ==> found == s.conns[id].conn.key && cs.conn.id == id
    ensures cs.conn.key == s.conns[id].conn.key ==> cs.conn.tracked == s.conns[id].conn.tracked
  {
    assert EntryFits(s, found) && ConnFits(s, id);
    assert Proper(s.conns[id].conn) && Proper(s.conns[cs.conn.id].conn);
    FoundByPrefix(cs.conn, s.conns[id].conn.remote);
    assert KeepsToItself(s, id) && SameKind(s, id, cs.conn.id);
  }

  /** What a fitting entry says about its connection, for every way a request can ask. */
  lemma AskingIsApt(info: Info, proto: string, cs: ConnState, phase: Phase)
    requires EntryOk(cs, cs.conn.key, phase)
    requires cs.conn.id == info.conn.id ==> phase == info.phase && cs.conn == info.conn
    requires cs.conn.key == info.conn.key ==> cs.conn.tracked == info.conn.tracked
    requires if info.phase.Over? then OutlivesWell(info, proto, cs)
             else Serves(info, proto) && cs.conn.id == info.conn.id
    ensures OpenHttp(cs) <==> IsPlainHttp(proto)
  {
  }

  lemma AskedIsApt(s: Sys, id: nat, proto: string, found: string, cs: ConnState)
    requires found in s.books.cs && cs == s.books.cs[found] && id in s.conns
    requires AskedBy(s, id, proto, found)
    requires Placed(s) && Apart(s)
    ensures OpenHttp(cs) <==> IsPlainHttp(proto)
  {
    FindsItsListener(s, id, found, cs);
    assert EntryFits(s, found) && ConnFits(s, id);
    AskingIsApt(s.conns[id], proto, cs, s.conns[cs.conn.id].phase);
  }

  lemma ArrivalKeepsApart(s: Sys, s': Sys, conn: Conn)
    requires Apart(s) && MayArrive(s, conn) && conn.id !in s.conns
    requires s'.conns == s.conns[conn.id := Info(conn, Open, true)]
    requires s'.books.cs == s.books.cs[conn.key := ConnState(conn, New, New)]
    ensures Apart(s')
  {
    forall id | id in s'.conns ensures Proper(s'.conns[id].conn) && KeepsToItself(s', id) {
      if id != conn.id {
        assert Proper(s.conns[id].conn) && KeepsToItself(s, id);
      }
    }
    forall i, j | i in s'.conns && j in s'.conns ensures SameKind(s', i, j) {
      if i != conn.id && j != conn.id {
        assert SameKind(s, i, j);
      }
    }
  }

  /** Neither a new connection nor a new entry, and no connection begins again. */
  ghost predicate Shrinks(s: Sys, s': Sys) {
    && (forall id | id in s'.conns ::
          && id in s.conns && s'.conns[id].conn == s.conns[id].conn
          && (s.conns[id].phase.Over? ==> s'.conns[id].phase.Over?))
    && (forall key | key in s'.books.cs :: key in s.books.cs && s'.books.cs[key].conn == s.books.cs[key].conn)
  }

  lemma ShrinkingKeepsApart(s: Sys, s': Sys)
    requires Apart(s) && Shrinks(s, s')
    ensures Apart(s')
  {
    forall id | id in s'.conns ensures Proper(s'.conns[id].conn) && KeepsToItself(s', id) {
      assert Proper(s.conns[id].conn) && KeepsToItself(s, id);
    }
    forall i, j | i in s'.conns && j in s'.conns ensures SameKind(s', i, j) {
      assert SameKind(s, i, j);
    }
  }

  lemma StateShrinks(s: Sys, id: nat, state: NetState)
    requires Possible(s, HttpState(id, state))
    ensures Shrinks(s, Happen(s, HttpState(id, state)))
  {
  }

  lemma DisconnectShrinks(s: Sys, proto: string, found: string)
    requires Possible(s, Disconnects(proto, found))
    ensures Shrinks(s, Happen(s, Disconnects(proto, found)))
  {
  }

  lemma OtherShrinks(s: Sys, e: Event)
    requires Possible(s, e) && !e.HttpNew? && !e.GrpcAccept? && !e.HttpState? && !e.Disconnects?
    ensures Shrinks(s, Happen(s, e))
  {
  }

  lemma StaysApart(s: Sys, e: Event)
    requires Apart(s) && Possible(s, e) && Ordinary(s, e)
    ensures Apart(Happen(s, e))
  {
    match e
    case HttpNew(conn) => ArrivalKeepsApart(s, Happen(s, e), conn);
    case GrpcAccept(conn) => ArrivalKeepsApart(s, Happen(s, e), conn);
    case HttpState(id, state) => StateShrinks(s, id, state); ShrinkingKeepsApart(s, Happen(s, e));
    case Disconnects(proto, found) => DisconnectShrinks(s, proto, found); ShrinkingKeepsApart(s, Happen(s, e));
    case _ => OtherShrinks(s, e); ShrinkingKeepsApart(s, Happen(s, e));
  }

  // ---- whole runs ----

  /** In every such run each forced disconnect is counted correctly. */
  lemma {:induction false} OrdinaryRunsAreApt(s: Sys, events: seq<Event>, s': Sys)
    requires Inv(s) && Apart(s) && OrdinaryRun(s, events, s')
    ensures AptRun(s, events, s')
    decreases |events|
  {
    if events != [] {
      var e := events[0];
      if e.Disconnects? {
        var id :| id in s.conns && AskedBy(s, id, e.proto, e.found);
        AskedIsApt(s, id, e.proto, e.found, s.books.cs[e.found]);
      }
      EventKeeps(s, e);
      StaysApart(s, e);
      OrdinaryRunsAreApt(Happen(s, e), events[1..], s');
    }
  }

  lemma OrdinaryRunsCountRight(events: seq<Event>, s: Sys)
    requires OrdinaryRun(Start(), events, s)
    ensures AptRun(Start(), events, s)
    ensures s.books.total == |Live(s)| && s.books.active == |s.reqs|
    ensures forall h :: NodeAt(s.books, h).total == |LiveAt(s, h)| && NodeAt(s.books, h).active == |RunningAt(s, h)|
  {
    StartRight();
    OrdinaryRunsAreApt(Start(), events, s);
    CountsAreExact(events, s);
  }
}
