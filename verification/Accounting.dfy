/** The books stay right over every run, and exactly when a forced disconnect upsets them. */
module Accounting {
  import opened Books
  import opened Connections

  // ---- an event touches one connection and at most one entry ----

  /** s' differs from s in connection `id` and the entry under its key only. */
  ghost predicate Touches(s: Sys, s': Sys, id: nat) {
    && id in s'.conns && s'.conns == s.conns[id := s'.conns[id]]
    && (id in s.conns ==> s'.conns[id].conn == s.conns[id].conn)
    && (forall k | k != s'.conns[id].conn.key :: k in s'.books.cs <==> k in s.books.cs)
    && (forall k | k != s'.conns[id].conn.key && k in s.books.cs :: s'.books.cs[k] == s.books.cs[k])
    && (forall i | i != id :: i in s'.books.fired <==> i in s.books.fired)
    && s.books.nodes.Keys <= s'.books.nodes.Keys
  }

  /** The touched connection fits again, and its entry is as before or its own. */
  ghost predicate Settled(s: Sys, s': Sys, id: nat)
    requires id in s'.conns
  {
    var key := s'.conns[id].conn.key;
    && ConnFits(s', id)
    && (key in s'.books.cs ==> EntryFits(s', key))
    && (((key in s'.books.cs <==> key in s.books.cs) && (key in s.books.cs ==> s'.books.cs[key] == s.books.cs[key]))
        || Alone(s, key, id))
  }

  lemma TouchKeepsConns(s: Sys, s': Sys, id: nat, i: nat)
    requires Placed(s) && Touches(s, s', id) && Settled(s, s', id) && i in s'.conns
    requires s'.conns[id].phase.Over? || Alone(s, s'.conns[id].conn.key, id)
    ensures ConnFits(s', i)
  {
    if i != id {
      assert ConnFits(s, i);
      forall j | j in s'.conns && j != i && s'.conns[j].conn.key == s.conns[i].conn.key && !s.conns[i].phase.Over?
        ensures s'.conns[j].phase.Over?
      {
      }
    }
  }

  lemma TouchKeeps(s: Sys, s': Sys, id: nat)
    requires Placed(s) && Touches(s, s', id) && Settled(s, s', id)
    requires s'.conns[id].phase.Over? || Alone(s, s'.conns[id].conn.key, id)
    requires forall r | r in s'.reqs :: s'.reqs[r] in s'.conns
    ensures Placed(s')
  {
    forall i | i in s'.conns ensures ConnFits(s', i) {
      TouchKeepsConns(s, s', id, i);
    }
    forall key | key in s'.books.cs ensures EntryFits(s', key) {
      if key != s'.conns[id].conn.key {
        assert EntryFits(s, key);
      }
    }
    forall i | i in s'.books.fired ensures i in s'.conns {
      assert i != id ==> i in s.books.fired;
    }
  }

  lemma ArrivalPlaced(s: Sys, e: Event)
    requires Placed(s) && Possible(s, e) && (e.HttpNew? || e.GrpcAccept?)
    ensures Placed(Happen(s, e))
  {
    var s', id := Happen(s, e), e.conn.id;
    assert id !in s.books.fired;
    assert Settled(s, s', id);
    TouchKeeps(s, s', id);
  }

  lemma StateTouches(s: Sys, id: nat, state: NetState, s': Sys)
    requires Possible(s, HttpState(id, state)) && s' == Happen(s, HttpState(id, state))
    ensures Touches(s, s', id) && s'.reqs == s.reqs
  {
    assert s'.conns == s.conns[id := s'.conns[id]];
  }

  lemma StateSettles(s: Sys, id: nat, state: NetState, s': Sys)
    requires Placed(s) && Possible(s, HttpState(id, state)) && s' == Happen(s, HttpState(id, state))
    ensures id in s'.conns && Settled(s, s', id)
    ensures s'.conns[id].phase.Over? || Alone(s, s'.conns[id].conn.key, id)
  {
    assert ConnFits(s, id);
    if s.conns[id].conn.key in s.books.cs {
      assert EntryFits(s, s.conns[id].conn.key);
    }
  }

  lemma StatePlaced(s: Sys, id: nat, state: NetState)
    requires Placed(s) && Possible(s, HttpState(id, state))
    ensures Placed(Happen(s, HttpState(id, state)))
  {
    var s' := Happen(s, HttpState(id, state));
    StateTouches(s, id, state, s');
    StateSettles(s, id, state, s');
    TouchKeeps(s, s', id);
  }

  predicate IsPhaseEvent(e: Event) {
    e.RaisedEnds? || e.H2cBegins? || e.H2cEnds? || e.GrpcClose?
  }

  lemma PhaseTouches(s: Sys, e: Event, s': Sys)
    requires Possible(s, e) && IsPhaseEvent(e) && s' == Happen(s, e)
    ensures Touches(s, s', e.id) && s'.reqs == s.reqs
  {
  }

  lemma PhaseSettles(s: Sys, e: Event, s': Sys)
    requires Placed(s) && Possible(s, e) && IsPhaseEvent(e) && s' == Happen(s, e)
    ensures e.id in s'.conns && Settled(s, s', e.id)
    ensures s'.conns[e.id].phase.Over? || Alone(s, s'.conns[e.id].conn.key, e.id)
  {
    assert ConnFits(s, e.id);
    if s.conns[e.id].conn.key in s.books.cs {
      assert EntryFits(s, s.conns[e.id].conn.key);
    }
  }

  lemma PhasePlaced(s: Sys, e: Event)
    requires Placed(s) && Possible(s, e) && IsPhaseEvent(e)
    ensures Placed(Happen(s, e))
  {
    var s' := Happen(s, e);
    PhaseTouches(s, e, s');
    PhaseSettles(s, e, s');
    TouchKeeps(s, s', e.id);
  }

  lemma DisconnectTouches(s: Sys, proto: string, found: string, id: nat, s': Sys)
    requires Placed(s) && Possible(s, Disconnects(proto, found)) && s' == Happen(s, Disconnects(proto, found))
    requires id == s.books.cs[found].conn.id
    ensures Touches(s, s', id) && s'.reqs == s.reqs
  {
    assert EntryFits(s, found);
    assert s'.conns == s.conns[id := s'.conns[id]];
  }

  lemma DisconnectSettles(s: Sys, proto: string, found: string, id: nat, s': Sys)
    requires Placed(s) && Possible(s, Disconnects(proto, found)) && s' == Happen(s, Disconnects(proto, found))
    requires id == s.books.cs[found].conn.id
    ensures id in s'.conns && Settled(s, s', id)
    ensures s'.conns[id].phase.Over? || Alone(s, s'.conns[id].conn.key, id)
  {
    assert EntryFits(s, found) && ConnFits(s, id);
  }

  lemma DisconnectPlaced(s: Sys, proto: string, found: string)
    requires Placed(s) && Possible(s, Disconnects(proto, found))
    ensures Placed(Happen(s, Disconnects(proto, found)))
  {
    var s', id := Happen(s, Disconnects(proto, found)), s.books.cs[found].conn.id;
    DisconnectTouches(s, proto, found, id, s');
    DisconnectSettles(s, proto, found, id, s');
    TouchKeeps(s, s', id);
  }

  lemma RequestPlaced(s: Sys, e: Event)
    requires Placed(s) && Possible(s, e) && (e.Enters? || e.Leaves?)
    ensures Placed(Happen(s, e))
  {
    var s' := Happen(s, e);
    forall i | i in s'.conns ensures ConnFits(s', i) {
      assert ConnFits(s, i);
    }
    forall key | key in s'.books.cs ensures EntryFits(s', key) {
      assert EntryFits(s, key);
    }
  }

  // ---- the totals ----

  /** Turning one connection's liveness on or off changes the numbers of live connections by one. */
  lemma LiveChanges(s: Sys, s': Sys, id: nat, h: string)
    requires id in s'.conns && s'.conns == s.conns[id := s'.conns[id]]
    requires id in s.conns ==> s'.conns[id].conn == s.conns[id].conn
    ensures var was, now := id in s.conns && s.conns[id].live, s'.conns[id].live;
      var d := (if now then 1 else 0) - (if was then 1 else 0);
      && |Live(s')| == |Live(s)| + d
      && |LiveAt(s', h)| == |LiveAt(s, h)| + (if s'.conns[id].conn.host == h then d else 0)
  {
    SameButOne(Live(s), Live(s'), id);
    SameButOne(LiveAt(s, h), LiveAt(s', h), id);
  }

  lemma SameButOne(a: set<nat>, b: set<nat>, x: nat)
    requires forall y | y != x :: y in a <==> y in b
    ensures |b| == |a| + (if x in b then 1 else 0) - (if x in a then 1 else 0)
  {
    assert a - {x} == b - {x};
    assert x in a ==> |a - {x}| == |a| - 1;
    assert x in b ==> |b - {x}| == |b| - 1;
    assert x !in a ==> a - {x} == a;
    assert x !in b ==> b - {x} == b;
  }

  /** The totals stay right when the books change by what the connection's liveness changes by. */
  lemma TotalsFollow(s: Sys, s': Sys, id: nat, d: int)
    requires TotalsRight(s)
    requires id in s'.conns && s'.conns == s.conns[id := s'.conns[id]]
    requires id in s.conns ==> s'.conns[id].conn == s.conns[id].conn
    requires d == (if s'.conns[id].live then 1 else 0) - (if id in s.conns && s.conns[id].live then 1 else 0)
    requires s'.books.total == s.books.total + d
    requires forall h :: NodeAt(s'.books, h).total
                         == NodeAt(s.books, h).total + (if h == s'.conns[id].conn.host then d else 0)
    ensures TotalsRight(s')
  {
    LiveChanges(s, s', id, "");
    forall h ensures NodeAt(s'.books, h).total == |LiveAt(s', h)| {
      LiveChanges(s, s', id, h);
    }
  }

  lemma ActivesStay(s: Sys, s': Sys, id: nat)
    requires ActivesRight(s) && Placed(s) && s'.reqs == s.reqs
    requires id in s'.conns && s'.conns == s.conns[id := s'.conns[id]]
    requires id in s.conns ==> s'.conns[id].conn == s.conns[id].conn
    requires s'.books.active == s.books.active
    requires forall h :: NodeAt(s'.books, h).active == NodeAt(s.books, h).active
    ensures ActivesRight(s')
  {
    forall h ensures NodeAt(s'.books, h).active == |RunningAt(s', h)| {
      assert RunningAt(s', h) == RunningAt(s, h);
    }
  }

  predicate IsConnEvent(e: Event) {
    !e.Enters? && !e.Finishes? && !e.Leaves? && !e.Disconnects?
  }

  function Subject(e: Event): nat
    requires IsConnEvent(e)
  {
    match e
    case HttpNew(conn) => conn.id
    case HttpState(id, _) => id
    case RaisedEnds(id) => id
    case H2cBegins(id) => id
    case H2cEnds(id) => id
    case GrpcAccept(conn) => conn.id
    case GrpcClose(id) => id
  }

  /** The total and one host's total move by d, the active counts not at all. */
  predicate BooksMove(b: Ledger, b': Ledger, host: string, d: int) {
    && b'.total == b.total + d && b'.active == b.active
    && (b'.nodes == b.nodes[host := NodeAt(b, host).(total := NodeAt(b, host).total + d)]
        || (d == 0 && b'.nodes == b.nodes))
  }

  /** What an event adds to the books is what it adds to the live connections. */
  predicate Follows(s: Sys, s': Sys, id: nat) {
    && id in s'.conns && s'.conns == s.conns[id := s'.conns[id]] && s'.reqs == s.reqs
    && (id in s.conns ==> s'.conns[id].conn == s.conns[id].conn)
    && BooksMove(s.books, s'.books, s'.conns[id].conn.host,
                 (if s'.conns[id].live then 1 else 0) - (if id in s.conns && s.conns[id].live then 1 else 0))
  }

  lemma ArrivalFollows(s: Sys, e: Event, s': Sys)
    requires Placed(s) && Possible(s, e) && (e.HttpNew? || e.GrpcAccept?) && s' == Happen(s, e)
    ensures Follows(s, s', e.conn.id)
  {
  }

  lemma StateFollows(s: Sys, id: nat, state: NetState, s': Sys)
    requires Placed(s) && Possible(s, HttpState(id, state)) && s' == Happen(s, HttpState(id, state))
    ensures Follows(s, s', id)
  {
    assert ConnFits(s, id);
    if s.conns[id].conn.key in s.books.cs {
      assert EntryFits(s, s.conns[id].conn.key);
    }
    assert s'.conns == s.conns[id := s'.conns[id]];
  }

  lemma PhaseFollows(s: Sys, e: Event, s': Sys)
    requires Placed(s) && Possible(s, e) && IsPhaseEvent(e) && s' == Happen(s, e)
    ensures Follows(s, s', e.id)
  {
    assert ConnFits(s, e.id);
  }

  lemma ConnEventFollows(s: Sys, e: Event)
    requires Placed(s) && Possible(s, e) && IsConnEvent(e)
    ensures Follows(s, Happen(s, e), Subject(e))
  {
    if e.HttpNew? || e.GrpcAccept? {
      ArrivalFollows(s, e, Happen(s, e));
    } else if e.HttpState? {
      StateFollows(s, e.id, e.state, Happen(s, e));
    } else {
      PhaseFollows(s, e, Happen(s, e));
    }
  }

  lemma ConnEventCounts(s: Sys, e: Event)
    requires Placed(s) && TotalsRight(s) && ActivesRight(s) && Possible(s, e) && IsConnEvent(e)
    ensures TotalsRight(Happen(s, e)) && ActivesRight(Happen(s, e))
  {
    var s', id := Happen(s, e), Subject(e);
    ConnEventFollows(s, e);
    var d := (if s'.conns[id].live then 1 else 0) - (if id in s.conns && s.conns[id].live then 1 else 0);
    MoveFollows(s, s', id, d);
  }

  lemma MoveFollows(s: Sys, s': Sys, id: nat, d: int)
    requires Placed(s) && TotalsRight(s) && ActivesRight(s) && s'.reqs == s.reqs
    requires id in s'.conns && s'.conns == s.conns[id := s'.conns[id]]
    requires id in s.conns ==> s'.conns[id].conn == s.conns[id].conn
    requires d == (if s'.conns[id].live then 1 else 0) - (if id in s.conns && s.conns[id].live then 1 else 0)
    requires BooksMove(s.books, s'.books, s'.conns[id].conn.host, d)
    ensures TotalsRight(s') && ActivesRight(s')
  {
    TotalsFollow(s, s', id, d);
    ActivesStay(s, s', id);
  }

  /** What a forced disconnect adds to the books, and what it adds to the live connections. */
  lemma DisconnectDelta(s: Sys, proto: string, found: string, cs: ConnState, s': Sys) returns (dBooks: int, dLive: int)
    requires Placed(s) && Possible(s, Disconnects(proto, found)) && s' == Happen(s, Disconnects(proto, found))
    requires cs == s.books.cs[found]
    ensures var id := cs.conn.id;
      && id in s.conns && id in s'.conns && s'.conns == s.conns[id := s'.conns[id]] && s'.reqs == s.reqs
      && s'.conns[id].conn == s.conns[id].conn
      && dLive == (if s'.conns[id].live then 1 else 0) - (if s.conns[id].live then 1 else 0)
      && BooksMove(s.books, s'.books, s'.conns[id].conn.host, dBooks)
    ensures dBooks == dLive <==> (OpenHttp(cs) <==> IsPlainHttp(proto))
  {
    var id := cs.conn.id;
    assert EntryFits(s, found) && ConnFits(s, id);
    assert s'.conns == s.conns[id := s'.conns[id]];
    dBooks := s'.books.total - s.books.total;
    dLive := (if s'.conns[id].live then 1 else 0) - (if s.conns[id].live then 1 else 0);
  }

  /** The totals are right after a change if and only if both sides change alike. */
  lemma MoveIff(s: Sys, s': Sys, id: nat, dBooks: int, dLive: int)
    requires Placed(s) && TotalsRight(s) && ActivesRight(s) && s'.reqs == s.reqs && id in s.conns
    requires id in s'.conns && s'.conns == s.conns[id := s'.conns[id]] && s'.conns[id].conn == s.conns[id].conn
    requires dLive == (if s'.conns[id].live then 1 else 0) - (if s.conns[id].live then 1 else 0)
    requires BooksMove(s.books, s'.books, s'.conns[id].conn.host, dBooks)
    ensures TotalsRight(s') <==> dBooks == dLive
    ensures s'.books.total == |Live(s')| <==> dBooks == dLive
    ensures ActivesRight(s')
  {
    LiveChanges(s, s', id, "");
    ActivesStay(s, s', id);
    if dBooks == dLive {
      TotalsFollow(s, s', id, dLive);
    }
  }

  /** One forced disconnect keeps the count right, in total and for every host, exactly when it takes one
      off the total itself just in the case that the entry it found is an open HTTP connection. */
  lemma DisconnectKeepsIff(s: Sys, proto: string, found: string)
    requires Inv(s) && Possible(s, Disconnects(proto, found))
    ensures var s' := Happen(s, Disconnects(proto, found)); var apt := Apt(s, Disconnects(proto, found));
      (TotalsRight(s') <==> apt) && (s'.books.total == |Live(s')| <==> apt) && ActivesRight(s')
  {
    var s', cs := Happen(s, Disconnects(proto, found)), s.books.cs[found];
    var dBooks, dLive := DisconnectDelta(s, proto, found, cs, s');
    MoveIff(s, s', cs.conn.id, dBooks, dLive);
  }

  lemma RequestTotals(s: Sys, e: Event)
    requires TotalsRight(s) && Possible(s, e) && (e.Enters? || e.Leaves?)
    ensures TotalsRight(Happen(s, e))
  {
    var s' := Happen(s, e);
    assert Live(s') == Live(s);
    forall h ensures NodeAt(s'.books, h).total == |LiveAt(s', h)| {
      assert LiveAt(s', h) == LiveAt(s, h);
    }
  }

  lemma RequestActives(s: Sys, e: Event)
    requires Placed(s) && ActivesRight(s) && Possible(s, e) && (e.Enters? || e.Leaves?)
    ensures ActivesRight(Happen(s, e))
  {
    var s' := Happen(s, e);
    forall h ensures NodeAt(s'.books, h).active == |RunningAt(s', h)| {
      RunningChanges(s, e, h);
    }
    SameButOne(s.reqs.Keys, s'.reqs.Keys, e.req);
  }

  lemma RequestCounts(s: Sys, e: Event)
    requires Inv(s) && Possible(s, e) && (e.Enters? || e.Leaves?)
    ensures TotalsRight(Happen(s, e)) && ActivesRight(Happen(s, e))
  {
    RequestTotals(s, e);
    RequestActives(s, e);
  }

  lemma RunningChanges(s: Sys, e: Event, h: string)
    requires Placed(s) && Possible(s, e) && (e.Enters? || e.Leaves?)
    ensures var host := s.conns[if e.Enters? then e.id else s.reqs[e.req]].conn.host;
      |RunningAt(Happen(s, e), h)| == |RunningAt(s, h)| + (if h != host then 0 else if e.Enters? then 1 else -1)
  {
    var s' := Happen(s, e);
    SameButOne(RunningAt(s, h), RunningAt(s', h), e.req);
  }

  /** A finished request is accounted for at a node that exists; no connection counter moves. */
  lemma FinishKeeps(s: Sys, e: Event)
    requires Inv(s) && Possible(s, e) && e.Finishes?
    ensures Inv(Happen(s, e))
  {
    FinishPlaced(s, e);
    FinishCounts(s, e);
  }

  lemma FinishPlaced(s: Sys, e: Event)
    requires Placed(s) && Possible(s, e) && e.Finishes?
    ensures Placed(Happen(s, e))
  {
    var s' := Happen(s, e);
    assert ConnFits(s, s.reqs[e.req]);
    forall i | i in s'.conns ensures ConnFits(s', i) {
      assert ConnFits(s, i);
    }
    forall key | key in s'.books.cs ensures EntryFits(s', key) {
      assert EntryFits(s, key);
    }
  }

  lemma FinishCounts(s: Sys, e: Event)
    requires TotalsRight(s) && ActivesRight(s) && Possible(s, e) && e.Finishes?
    ensures TotalsRight(Happen(s, e)) && ActivesRight(Happen(s, e))
  {
    var s' := Happen(s, e);
    assert Live(s') == Live(s);
    forall h ensures NodeAt(s'.books, h).total == |LiveAt(s', h)| && NodeAt(s'.books, h).active == |RunningAt(s', h)| {
      assert LiveAt(s', h) == LiveAt(s, h) && RunningAt(s', h) == RunningAt(s, h);
    }
  }

  // ---- the entries ----

  /** A forced disconnect, gRPC ones included, removes the entry it found and leaves all others. */
  lemma DisconnectRemovesEntry(s: Sys, proto: string, found: string)
    requires Placed(s) && Possible(s, Disconnects(proto, found))
    ensures var cs, cs' := s.books.cs, Happen(s, Disconnects(proto, found)).books.cs;
      found !in cs' && forall key | key != found :: (key in cs' <==> key in cs) && (key in cs ==> cs'[key] == cs[key])
  {
    assert EntryFits(s, found);
  }

  /** What a forced disconnect takes off the total: for gRPC the tracked connection it found, if that was
      still counted; for h2c nothing; for every other protocol one, whatever it found. */
  lemma DisconnectTakes(s: Sys, proto: string, found: string)
    requires Placed(s) && Possible(s, Disconnects(proto, found))
    ensures var id, s' := s.books.cs[found].conn.id, Happen(s, Disconnects(proto, found));
      var taken := s.books.total - s'.books.total;
      id in s.conns &&
      if proto == "grpc" || proto == "grpcs" then
        taken == (if s.conns[id].conn.tracked && s.conns[id].live then 1 else 0)
        && (s.conns[id].conn.tracked ==> !s'.conns[id].live)
      else if proto == "h2c" then taken == 0
      else taken == 1
  {
    assert EntryFits(s, found);
    assert ConnFits(s, s.books.cs[found].conn.id);
  }

  /** A reported state is recorded in the connection's entry with the one before it; a closed connection
      has no entry. */
  lemma StateIsRecorded(s: Sys, id: nat, state: NetState)
    requires Placed(s) && Possible(s, HttpState(id, state))
    ensures var key, cs, cs' := s.conns[id].conn.key, s.books.cs, Happen(s, HttpState(id, state)).books.cs;
      && (key in cs && !state.Closed? ==>
            key in cs' && cs'[key] == ConnState(cs[key].conn, cs[key].curState, state) && cs'[key].conn.id == id)
      && (state.Closed? ==> key !in cs')
  {
    assert ConnFits(s, id);
  }

  // ---- whole runs ----

  lemma EventKeeps(s: Sys, e: Event)
    requires Inv(s) && Possible(s, e) && Apt(s, e)
    ensures Inv(Happen(s, e))
  {
    match e
    case HttpNew(_) => ArrivalPlaced(s, e); ConnEventCounts(s, e);
    case GrpcAccept(_) => ArrivalPlaced(s, e); ConnEventCounts(s, e);
    case HttpState(id, state) => StatePlaced(s, id, state); ConnEventCounts(s, e);
    case RaisedEnds(_) => PhasePlaced(s, e); ConnEventCounts(s, e);
    case H2cBegins(_) => PhasePlaced(s, e); ConnEventCounts(s, e);
    case H2cEnds(_) => PhasePlaced(s, e); ConnEventCounts(s, e);
    case GrpcClose(_) => PhasePlaced(s, e); ConnEventCounts(s, e);
    case Disconnects(proto, found) =>
      DisconnectPlaced(s, proto, found);
      DisconnectKeepsIff(s, proto, found);
    case Enters(_, _) => RequestPlaced(s, e); RequestCounts(s, e);
    case Finishes(_, _, _, _) => FinishKeeps(s, e);
    case Leaves(_) => RequestPlaced(s, e); RequestCounts(s, e);
  }
}
