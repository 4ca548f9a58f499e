/** The request figures of the monitor are sums over the finished requests of a run. */
module RequestFigures {
  import opened Books
  import opened Connections
  import opened AccountingRuns

  datatype Figures = Figures(requests: int, sent: int, received: int)

  const NONE := Figures(0, 0, 0)

  /** The figures of one finished request. */
  function One(e: Event): Figures
    requires e.Finishes?
  {
    Figures(1, e.sent, e.received)
  }

  function Plus(f: Figures, g: Figures): Figures {
    Figures(f.requests + g.requests, f.sent + g.sent, f.received + g.received)
  }

  /** How many requests finish in these events, and what they send and receive. */
  function Finished(events: seq<Event>): Figures {
    if events == [] then NONE
    else if events[0].Finishes? then Plus(One(events[0]), Finished(events[1..]))
    else Finished(events[1..])
  }

  /** The event finishes, outside Lambda, a request of a connection from the host. */
  predicate FinishesAt(s: Sys, e: Event, host: string)
    requires Possible(s, e)
  {
    e.Finishes? && !e.onLambda && s.conns[s.reqs[e.req]].conn.host == host
  }

  /** What the event adds to the figures of the host. */
  function Share(s: Sys, e: Event, host: string): Figures
    requires Possible(s, e)
  {
    if FinishesAt(s, e, host) then One(e) else NONE
  }

  /** The same as Finished for the requests of one host. */
  function FinishedAt(s: Sys, events: seq<Event>, host: string): Figures
    decreases |events|
  {
    if events == [] || !Possible(s, events[0]) then NONE
    else Plus(Share(s, events[0], host), FinishedAt(Happen(s, events[0]), events[1..], host))
  }

  function FiguresOf(n: Node): Figures {
    Figures(n.requests, n.sent, n.received)
  }

  lemma OwnStep(s: Sys, e: Event)
    requires Possible(s, e)
    ensures FiguresOf(Happen(s, e).books.own)
            == if e.Finishes? then Plus(FiguresOf(s.books.own), One(e)) else FiguresOf(s.books.own)
  {
  }

  lemma OthersCountNothing(s: Sys, e: Event, host: string)
    requires Possible(s, e) && !e.Finishes?
    ensures FiguresOf(NodeAt(Happen(s, e).books, host)) == FiguresOf(NodeAt(s.books, host))
  {
  }

  lemma RequestCounts(b: Ledger, b': Ledger, at: string, e: Event, host: string, f: Figures)
    requires e.Finishes? && b' == Reflect(b, at, e.received, e.sent, e.onLambda)
    requires f == if host == at && !e.onLambda then Figures(1, e.sent, e.received) else Figures(0, 0, 0)
    ensures FiguresOf(NodeAt(b', host)) == Plus(FiguresOf(NodeAt(b, host)), f)
  {
  }

  lemma ShareOfFinish(s: Sys, e: Event, host: string) returns (at: string, f: Figures)
    requires Possible(s, e) && e.Finishes?
    ensures Happen(s, e).books == Reflect(s.books, at, e.received, e.sent, e.onLambda)
    ensures f == Share(s, e, host)
    ensures f == if host == at && !e.onLambda then Figures(1, e.sent, e.received) else Figures(0, 0, 0)
  {
    at := s.conns[s.reqs[e.req]].conn.host;
    f := Share(s, e, host);
  }

  lemma FinishCounts(s: Sys, e: Event, m: Sys, host: string)
    requires Possible(s, e) && e.Finishes? && m == Happen(s, e)
    ensures FiguresOf(NodeAt(m.books, host)) == Plus(FiguresOf(NodeAt(s.books, host)), Share(s, e, host))
  {
    var at, f := ShareOfFinish(s, e, host);
    RequestCounts(s.books, m.books, at, e, host, f);
  }

  lemma HostStep(s: Sys, e: Event, m: Sys, host: string)
    requires Possible(s, e) && m == Happen(s, e)
    ensures FiguresOf(NodeAt(m.books, host)) == Plus(FiguresOf(NodeAt(s.books, host)), Share(s, e, host))
  {
    if e.Finishes? {
      FinishCounts(s, e, m, host);
    } else {
      OthersCountNothing(s, e, host);
    }
  }

  lemma {:induction false} OwnAlong(s: Sys, events: seq<Event>, s': Sys)
    requires Run(s, events, s')
    ensures FiguresOf(s'.books.own) == Plus(FiguresOf(s.books.own), Finished(events))
    decreases |events|
  {
    if events != [] {
      OwnStep(s, events[0]);
      OwnAlong(Happen(s, events[0]), events[1..], s');
    }
  }

  /** The first event of a run, with the state after it. */
  lemma HostFirst(s: Sys, events: seq<Event>, s': Sys, host: string) returns (m: Sys, f: Figures)
    requires events != [] && Run(s, events, s')
    ensures Run(m, events[1..], s')
    ensures FiguresOf(NodeAt(m.books, host)) == Plus(FiguresOf(NodeAt(s.books, host)), f)
    ensures FinishedAt(s, events, host) == Plus(f, FinishedAt(m, events[1..], host))
  {
    m := Happen(s, events[0]);
    f := Share(s, events[0], host);
    HostStep(s, events[0], m, host);
  }

  lemma Chained(x: Figures, y: Figures, z: Figures, f: Figures, rest: Figures, all: Figures)
    requires y == Plus(x, f) && z == Plus(y, rest) && all == Plus(f, rest)
    ensures z == Plus(x, all)
  {
  }

  lemma {:induction false} HostAlong(s: Sys, events: seq<Event>, s': Sys, host: string)
    requires Run(s, events, s')
    ensures FiguresOf(NodeAt(s'.books, host)) == Plus(FiguresOf(NodeAt(s.books, host)), FinishedAt(s, events, host))
    decreases |events|
  {
    if events == [] {
      assert s == s' && FinishedAt(s, events, host) == NONE;
    } else {
      var m, f := HostFirst(s, events, s', host);
      HostAlong(m, events[1..], s', host);
      Chained(FiguresOf(NodeAt(s.books, host)), FiguresOf(NodeAt(m.books, host)), FiguresOf(NodeAt(s'.books, host)),
              f, FinishedAt(m, events[1..], host), FinishedAt(s, events, host));
    }
  }

  /** After every run the server has counted each finished request once, with what it sent and received. */
  lemma OwnFigures(events: seq<Event>, s: Sys)
    requires Run(Start(), events, s)
    ensures s.books.own.requests == Finished(events).requests
    ensures s.books.own.sent == Finished(events).sent && s.books.own.received == Finished(events).received
  {
    OwnAlong(Start(), events, s);
  }

  /** And so has every remote node for the requests of its host, outside Lambda. */
  lemma HostFigures(events: seq<Event>, s: Sys, host: string)
    requires Run(Start(), events, s)
    ensures var n, f := NodeAt(s.books, host), FinishedAt(Start(), events, host);
      n.requests == f.requests && n.sent == f.sent && n.received == f.received
  {
    HostAlong(Start(), events, s, host);
  }

  /** Every running request can finish, with any figures, and is then counted. */
  lemma FinishIsCounted(s: Sys, req: nat, received: int, sent: int, onLambda: bool) returns (m: Sys)
    requires req in s.reqs && s.reqs[req] in s.conns
    ensures Run(s, [Finishes(req, received, sent, onLambda)], m)
    ensures m.books.own.requests == s.books.own.requests + 1
    ensures m.books.own.sent == s.books.own.sent + sent && m.books.own.received == s.books.own.received + received
  {
    var e := Finishes(req, received, sent, onLambda);
    m := Happen(s, e);
    OwnStep(s, e);
    assert [e][1..] == [];
  }
}
