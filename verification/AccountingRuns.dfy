/** Whole runs of connections and requests: what the counters say at every moment. */
module AccountingRuns {
  import opened Books
  import opened Connections
  import opened Accounting

  /** The events can happen in this order from s, ending in s'. */
  predicate Run(s: Sys, events: seq<Event>, s': Sys)
    decreases |events|
  {
    if events == [] then s == s'
    else Possible(s, events[0]) && Run(Happen(s, events[0]), events[1..], s')
  }

  /** A run in which every forced disconnect finds an entry that it counts correctly. */
  predicate AptRun(s: Sys, events: seq<Event>, s': Sys)
    decreases |events|
  {
    if events == [] then s == s'
    else Possible(s, events[0]) && Apt(s, events[0]) && AptRun(Happen(s, events[0]), events[1..], s')
  }

  lemma StartRight()
    ensures Inv(Start())
  {
    assert Live(Start()) == {};
    forall h ensures LiveAt(Start(), h) == {} && RunningAt(Start(), h) == {} {}
  }

  lemma {:induction false} RunKeeps(s: Sys, events: seq<Event>, s': Sys)
    requires Inv(s) && AptRun(s, events, s')
    ensures Inv(s')
    decreases |events|
  {
    if events != [] {
      EventKeeps(s, events[0]);
      RunKeeps(Happen(s, events[0]), events[1..], s');
    }
  }

  /** At every moment the totals are the numbers of live connections and the active counts the
      numbers of running handlers, in total and per host; no entry rests in Closed; and every
      host that an active-count update can name has its node. */
  lemma CountsAreExact(events: seq<Event>, s: Sys)
    requires AptRun(Start(), events, s)
    ensures s.books.total == |Live(s)| && s.books.active == |s.reqs|
    ensures forall h :: NodeAt(s.books, h).total == |LiveAt(s, h)| && NodeAt(s.books, h).active == |RunningAt(s, h)|
    ensures forall key | key in s.books.cs :: !s.books.cs[key].curState.Closed?
    ensures forall id | id in s.conns :: s.conns[id].conn.host in s.books.nodes
    ensures forall r | r in s.reqs :: s.reqs[r] in s.conns && s.conns[s.reqs[r]].conn.host in s.books.nodes
  {
    StartRight();
    RunKeeps(Start(), events, s);
    forall key | key in s.books.cs ensures !s.books.cs[key].curState.Closed? {
      assert EntryFits(s, key);
    }
    forall id | id in s.conns ensures s.conns[id].conn.host in s.books.nodes {
      assert ConnFits(s, id);
    }
  }

  /** Once every connection has ended and every handler has returned, all counters are back at zero. */
  lemma AllEndedMeansZero(events: seq<Event>, s: Sys)
    requires AptRun(Start(), events, s) && s.reqs == map[]
    requires forall id | id in s.conns :: s.conns[id].phase.Over?
    ensures s.books.total == 0 && s.books.active == 0
    ensures forall h :: NodeAt(s.books, h).total == 0 && NodeAt(s.books, h).active == 0
  {
    CountsAreExact(events, s);
    StartRight();
    RunKeeps(Start(), events, s);
    forall id | id in s.conns ensures !s.conns[id].live {
      assert ConnFits(s, id);
    }
    assert Live(s) == {};
    forall h ensures NodeAt(s.books, h).total == 0 && NodeAt(s.books, h).active == 0 {
      assert LiveAt(s, h) == {} && RunningAt(s, h) == {};
    }
  }

  // ---- what may happen ----

  lemma EventPlaced(s: Sys, e: Event)
    requires Placed(s) && Possible(s, e)
    ensures Placed(Happen(s, e))
  {
    match e
    case HttpNew(_) => ArrivalPlaced(s, e);
    case GrpcAccept(_) => ArrivalPlaced(s, e);
    case HttpState(id, state) => StatePlaced(s, id, state);
    case RaisedEnds(_) => PhasePlaced(s, e);
    case H2cBegins(_) => PhasePlaced(s, e);
    case H2cEnds(_) => PhasePlaced(s, e);
    case GrpcClose(_) => PhasePlaced(s, e);
    case Disconnects(proto, found) => DisconnectPlaced(s, proto, found);
    case Enters(_, _) => RequestPlaced(s, e);
    case Finishes(_, _, _, _) => FinishPlaced(s, e);
    case Leaves(_) => RequestPlaced(s, e);
  }

  /** However its disconnects are counted, a run leaves entries and connections in order. */
  lemma {:induction false} PlacedAlong(s: Sys, events: seq<Event>, s': Sys)
    requires Placed(s) && Run(s, events, s')
    ensures Placed(s')
    decreases |events|
  {
    if events != [] {
      EventPlaced(s, events[0]);
      PlacedAlong(Happen(s, events[0]), events[1..], s');
    }
  }

  /** After every run: a new connection may arrive at an address pair that is free, a plain connection that is
      going on may change to any state, a hijacked one may end or be served by h2c and then end, and a tracked
      one may be closed any number of times; any entry may be hit by a disconnect of any protocol. */
  lemma ConnectionsAreOpen(events: seq<Event>, s: Sys, conn: Conn, id: nat, key: string, proto: string)
    requires Run(Start(), events, s)
    ensures conn.id !in s.conns ==>
              (forall i | i in s.conns && s.conns[i].conn.key == conn.key :: s.conns[i].phase.Over?) ==>
              Possible(s, if conn.tracked then GrpcAccept(conn) else HttpNew(conn))
    ensures id in s.conns && !s.conns[id].conn.tracked ==>
              match s.conns[id].phase
              case Open => forall state: NetState | state != New :: Possible(s, HttpState(id, state))
              case Raised => Possible(s, RaisedEnds(id)) && Possible(s, H2cBegins(id))
              case Serving => Possible(s, H2cEnds(id))
              case Over => true
    ensures id in s.conns && s.conns[id].conn.tracked ==> Possible(s, GrpcClose(id))
    ensures key in s.books.cs ==> Possible(s, Disconnects(proto, key))
  {
    StartRight();
    PlacedAlong(Start(), events, s);
    if key in s.books.cs {
      assert EntryFits(s, key);
    }
  }

  /** Each of these ends its connection, which is then not to be counted; the end of a hijacked connection
      that h2c does not serve changes nothing in the books. */
  lemma EndedIsOver(s: Sys, e: Event)
    requires Placed(s) && Possible(s, e)
    requires e.RaisedEnds? || e.H2cEnds? || e.GrpcClose? || (e.HttpState? && e.state.Closed?)
    ensures e.id in Happen(s, e).conns
    ensures Happen(s, e).conns[e.id].phase.Over? && !Happen(s, e).conns[e.id].live
    ensures e.RaisedEnds? ==> Happen(s, e).books == s.books
  {
    assert ConnFits(s, e.id);
  }

  /** A request may begin on any connection, and a running one may finish and return. */
  lemma RequestsAreOpen(events: seq<Event>, s: Sys, req: nat, id: nat, received: int, sent: int, onLambda: bool)
    requires Run(Start(), events, s)
    ensures req !in s.reqs && id in s.conns ==> Possible(s, Enters(req, id))
    ensures req in s.reqs ==> Possible(s, Finishes(req, received, sent, onLambda)) && Possible(s, Leaves(req))
  {
    StartRight();
    PlacedAlong(Start(), events, s);
  }

  // ---- exactly which runs are counted right ----

  /** cw.total is the number of live connections before, between and after the events. */
  ghost predicate CountedThroughout(s: Sys, events: seq<Event>)
    decreases |events|
  {
    && s.books.total == |Live(s)|
    && (events != [] ==> Possible(s, events[0]) && CountedThroughout(Happen(s, events[0]), events[1..]))
  }

  lemma {:induction false} CountedIff(s: Sys, events: seq<Event>, s': Sys)
    requires Inv(s) && Run(s, events, s')
    ensures CountedThroughout(s, events) <==> AptRun(s, events, s')
    decreases |events|
  {
    if events != [] {
      var e := events[0];
      if Apt(s, e) {
        EventKeeps(s, e);
        CountedIff(Happen(s, e), events[1..], s');
      } else {
        DisconnectKeepsIff(s, e.proto, e.found);
      }
    }
  }

  /** The total stays right throughout a run if and only if every forced disconnect of the run is
      counted correctly. */
  lemma CountedRightIff(events: seq<Event>, s: Sys)
    requires Run(Start(), events, s)
    ensures CountedThroughout(Start(), events) <==> AptRun(Start(), events, s)
  {
    StartRight();
    CountedIff(Start(), events, s);
  }
}
