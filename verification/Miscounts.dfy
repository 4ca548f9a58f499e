/** Runs that end with no connection and no request left but a total that is not zero. */
module Miscounts {
  import opened Addresses
  import opened Books
  import opened Connections
  import opened AccountingRuns

  /** Every connection has ended and every request has returned. */
  ghost predicate AllOver(s: Sys) {
    s.reqs == map[] && forall id | id in s.conns :: s.conns[id].phase.Over?
  }

  // ---- the effect of single events on what the runs below need ----

  lemma Before(s: Sys, e: Event, m: Sys, rest: seq<Event>, s': Sys)
    requires Run(s, [e], m) && Run(m, rest, s')
    ensures Run(s, [e] + rest, s')
  {
    assert [e][1..] == [];
    assert ([e] + rest)[1..] == rest;
  }

  lemma TwoBefore(s: Sys, e: Event, m: Sys, e': Event, m': Sys, rest: seq<Event>, s': Sys)
    requires Run(s, [e], m) && Run(m, [e'], m') && Run(m', rest, s')
    ensures Run(s, [e, e'] + rest, s')
  {
    Before(m, e', m', rest, s');
    Before(s, e, m, [e'] + rest, s');
    assert [e] + ([e'] + rest) == [e, e'] + rest;
  }

  lemma OneStep(s: Sys, e: Event)
    requires Possible(s, e)
    ensures Run(s, [e], Happen(s, e))
  {
    assert [e][1..] == [];
  }

  lemma Arrives(s: Sys, conn: Conn) returns (e: Event, s': Sys)
    requires conn.id !in s.conns && Alone(s, conn.key, conn.id)
    ensures e == (if conn.tracked then GrpcAccept(conn) else HttpNew(conn)) && Run(s, [e], s')
    ensures s'.books.total == s.books.total + 1 && s'.books.fired == s.books.fired && s'.reqs == s.reqs
    ensures s'.conns == s.conns[conn.id := Info(conn, Open, true)]
    ensures s'.books.cs == s.books.cs[conn.key := ConnState(conn, New, New)]
  {
    e := if conn.tracked then GrpcAccept(conn) else HttpNew(conn);
    s' := Happen(s, e);
    OneStep(s, e);
  }

  lemma Closes(s: Sys, conn: Conn) returns (s': Sys)
    requires conn.id in s.conns && s.conns[conn.id].conn == conn && !conn.tracked && s.conns[conn.id].phase.Open?
    ensures Run(s, [HttpState(conn.id, Closed)], s')
    ensures s'.books.total == s.books.total - if conn.key in s.books.cs then 1 else 0
    ensures s'.books.fired == s.books.fired && s'.reqs == s.reqs && s'.books.cs == s.books.cs - {conn.key}
    ensures s'.conns == s.conns[conn.id := Info(conn, Over, false)]
  {
    s' := Happen(s, HttpState(conn.id, Closed));
    OneStep(s, HttpState(conn.id, Closed));
  }

  /** The connection is hijacked and served by h2c: the total goes down and up again. */
  lemma Hijacks(s: Sys, conn: Conn) returns (m: Sys, s': Sys)
    requires conn.id in s.conns && s.conns[conn.id].conn == conn && !conn.tracked && s.conns[conn.id].phase.Open?
    requires conn.key in s.books.cs && s.books.cs[conn.key].conn == conn
    ensures Run(s, [HttpState(conn.id, Hijacked)], m) && Run(m, [H2cBegins(conn.id)], s')
    ensures s'.books.total == s.books.total && s'.books.fired == s.books.fired && s'.reqs == s.reqs
    ensures s'.conns == s.conns[conn.id := Info(conn, Serving, true)]
    ensures s'.books.cs.Keys == s.books.cs.Keys && conn.key in s'.books.cs
    ensures s'.books.cs[conn.key].conn == conn && s'.books.cs[conn.key].curState == Hijacked
  {
    m := Happen(s, HttpState(conn.id, Hijacked));
    OneStep(s, HttpState(conn.id, Hijacked));
    s' := H2cStarts(m, conn);
  }

  lemma H2cStarts(s: Sys, conn: Conn) returns (s': Sys)
    requires conn.id in s.conns && s.conns[conn.id] == Info(conn, Raised, false) && !conn.tracked
    ensures Run(s, [H2cBegins(conn.id)], s')
    ensures s'.books.total == s.books.total + 1 && s'.books.fired == s.books.fired && s'.reqs == s.reqs
    ensures s'.conns == s.conns[conn.id := Info(conn, Serving, true)] && s'.books.cs == s.books.cs
  {
    s' := Happen(s, H2cBegins(conn.id));
    OneStep(s, H2cBegins(conn.id));
  }

  lemma H2cStops(s: Sys, conn: Conn) returns (s': Sys)
    requires conn.id in s.conns && s.conns[conn.id].conn == conn && s.conns[conn.id].phase.Serving? && !conn.tracked
    ensures Run(s, [H2cEnds(conn.id)], s')
    ensures s'.books.total == s.books.total - 1 && s'.books.fired == s.books.fired && s'.reqs == s.reqs
    ensures s'.conns == s.conns[conn.id := Info(conn, Over, false)] && s'.books.cs == s.books.cs
  {
    s' := Happen(s, H2cEnds(conn.id));
    OneStep(s, H2cEnds(conn.id));
  }

  lemma TrackedCloses(s: Sys, conn: Conn) returns (s': Sys)
    requires conn.id in s.conns && s.conns[conn.id].conn == conn && conn.tracked && conn.id !in s.books.fired
    ensures Run(s, [GrpcClose(conn.id)], s')
    ensures s'.books.total == s.books.total - 1 && s'.reqs == s.reqs && s'.books.cs == s.books.cs
    ensures s'.conns == s.conns[conn.id := Info(conn, Over, false)]
  {
    s' := Happen(s, GrpcClose(conn.id));
    OneStep(s, GrpcClose(conn.id));
  }

  lemma Starts(s: Sys, req: nat, id: nat) returns (s': Sys)
    requires req !in s.reqs && id in s.conns
    ensures Run(s, [Enters(req, id)], s') && s'.reqs == s.reqs[req := id] && s'.conns == s.conns
    ensures s'.books.total == s.books.total && s'.books.cs == s.books.cs && s'.books.fired == s.books.fired
  {
    s' := Happen(s, Enters(req, id));
    OneStep(s, Enters(req, id));
  }

  lemma Returns(s: Sys, req: nat) returns (s': Sys)
    requires req in s.reqs && s.reqs[req] in s.conns
    ensures Run(s, [Leaves(req)], s') && s'.reqs == s.reqs - {req} && s'.conns == s.conns
    ensures s'.books.total == s.books.total
  {
    s' := Happen(s, Leaves(req));
    OneStep(s, Leaves(req));
  }

  /** The disconnect of an HTTP request that is not h2c takes one off whatever it finds, and ends the
      counting of an open HTTP connection only. */
  lemma PlainDisconnects(s: Sys, conn: Conn, proto: string) returns (s': Sys)
    requires IsPlainHttp(proto) && conn.key in s.books.cs && conn.id in s.conns && s.conns[conn.id].conn == conn
    requires s.books.cs[conn.key].conn == conn && !s.books.cs[conn.key].curState.Closed?
    requires !OpenHttp(s.books.cs[conn.key])
    ensures Run(s, [Disconnects(proto, conn.key)], s')
    ensures s'.books.total == s.books.total - 1 && s'.books.fired == s.books.fired && s'.reqs == s.reqs
    ensures s'.conns == s.conns && s'.books.cs == s.books.cs - {conn.key}
  {
    s' := Happen(s, Disconnects(proto, conn.key));
    OneStep(s, Disconnects(proto, conn.key));
  }

  /** The disconnect of an h2c request takes nothing off. */
  lemma H2cDisconnects(s: Sys, conn: Conn) returns (s': Sys)
    requires conn.key in s.books.cs && conn.id in s.conns && s.conns[conn.id] == Info(conn, Open, true)
    requires s.books.cs[conn.key] == ConnState(conn, New, New) && !conn.tracked
    ensures Run(s, [Disconnects("h2c", conn.key)], s')
    ensures s'.books.total == s.books.total && s'.books.fired == s.books.fired && s'.reqs == s.reqs
    ensures s'.conns == s.conns[conn.id := Info(conn, Open, false)] && s'.books.cs == s.books.cs - {conn.key}
  {
    s' := Happen(s, Disconnects("h2c", conn.key));
    OneStep(s, Disconnects("h2c", conn.key));
  }

  /** Connections with the same remote address find each other's entries. */
  lemma SharedAddressIsFound(a: Conn, b: Conn)
    requires Proper(a) && Proper(b) && a.remote == b.remote
    ensures a.remote + "->" <= b.key
  {
    PrefixLookup(b.remote, b.local, a.remote);
  }

  // ---- the runs ----

  lemma BothArrive(a: Conn, b: Conn) returns (s1: Sys, s2: Sys)
    requires a.key != b.key && a.id != b.id && !a.tracked && b.tracked
    ensures Run(Start(), [HttpNew(a)], s1) && Run(s1, [GrpcAccept(b)], s2)
    ensures s2.conns == map[a.id := Info(a, Open, true), b.id := Info(b, Open, true)] && s2.reqs == map[]
    ensures s2.books.total == 2 && s2.books.fired == {}
    ensures s2.books.cs == map[a.key := ConnState(a, New, New), b.key := ConnState(b, New, New)]
  {
    var e, e';
    e, s1 := Arrives(Start(), a);
    e', s2 := Arrives(s1, b);
  }

  /** One client port used for an HTTP and a gRPC connection at the same time: the HTTP request's
      disconnect finds the gRPC entry, and when both connections have ended the total is -1. */
  lemma SharedRemoteAddressUpsetsCount(a: Conn, b: Conn) returns (events: seq<Event>, s: Sys)
    requires a.remote + "->" <= b.key && a.key != b.key && a.id != b.id && !a.tracked && b.tracked
    ensures events == [HttpNew(a), GrpcAccept(b), Disconnects("http", b.key), HttpState(a.id, Closed), GrpcClose(b.id)]
    ensures Run(Start(), events, s) && AllOver(s) && s.books.total == -1
  {
    var s1, s2 := BothArrive(a, b);
    var s3 := PlainDisconnects(s2, b, "http");
    var s4 := Closes(s3, a);
    s := TrackedCloses(s4, b);
    events := [GrpcClose(b.id)];
    TwoBefore(s2, Disconnects("http", b.key), s3, HttpState(a.id, Closed), s4, events, s);
    events := [Disconnects("http", b.key), HttpState(a.id, Closed)] + events;
    TwoBefore(Start(), HttpNew(a), s1, GrpcAccept(b), s2, events, s);
    events := [HttpNew(a), GrpcAccept(b)] + events;
  }

  lemma GrpcLeavesEntry(b: Conn) returns (s1: Sys, s2: Sys)
    requires b.tracked
    ensures Run(Start(), [GrpcAccept(b)], s1) && Run(s1, [GrpcClose(b.id)], s2)
    ensures s2.conns == map[b.id := Info(b, Over, false)] && s2.reqs == map[]
    ensures s2.books.total == 0 && s2.books.cs == map[b.key := ConnState(b, New, New)]
  {
    var e;
    e, s1 := Arrives(Start(), b);
    s2 := TrackedCloses(s1, b);
  }

  /** The same without any overlap: a gRPC connection leaves its entry behind when it closes, and a later
      HTTP connection from its address finds it. */
  lemma StaleEntryUpsetsCount(a: Conn, b: Conn) returns (events: seq<Event>, s: Sys)
    requires a.remote + "->" <= b.key && a.key != b.key && a.id != b.id && !a.tracked && b.tracked
    ensures events == [GrpcAccept(b), GrpcClose(b.id), HttpNew(a), Disconnects("http", b.key), HttpState(a.id, Closed)]
    ensures Run(Start(), events, s) && AllOver(s) && s.books.total == -1
  {
    var s1, s2 := GrpcLeavesEntry(b);
    var e, s3 := Arrives(s2, a);
    var s4 := PlainDisconnects(s3, b, "http");
    s := Closes(s4, a);
    events := [HttpState(a.id, Closed)];
    TwoBefore(s2, HttpNew(a), s3, Disconnects("http", b.key), s4, events, s);
    events := [HttpNew(a), Disconnects("http", b.key)] + events;
    TwoBefore(Start(), GrpcAccept(b), s1, GrpcClose(b.id), s2, events, s);
    events := [GrpcAccept(b), GrpcClose(b.id)] + events;
  }

  /** Only the ended connection o is known, and its request is still running; the total is right. */
  ghost predicate Outlived(s: Sys, o: Conn, req: nat) {
    && s.conns == map[o.id := Info(o, Over, false)] && s.reqs == map[req := o.id]
    && s.books.total == 0 && s.books.fired == {}
  }

  lemma H2cRequestMeets(s: Sys, o: Conn, c: Conn, req: nat) returns (events: seq<Event>, s': Sys)
    requires Outlived(s, o, req) && o.key == c.key && o.id != c.id && !c.tracked
    ensures events == [HttpNew(c), Disconnects("h2c", c.key), HttpState(c.id, Closed), Leaves(req)]
    ensures Run(s, events, s') && AllOver(s') && s'.books.total == 1
  {
    var e, s1 := Arrives(s, c);
    var s2 := H2cDisconnects(s1, c);
    var s3 := Closes(s2, c);
    s' := Returns(s3, req);
    events := [Leaves(req)];
    TwoBefore(s1, Disconnects("h2c", c.key), s2, HttpState(c.id, Closed), s3, events, s');
    events := [Disconnects("h2c", c.key), HttpState(c.id, Closed)] + events;
    Before(s, HttpNew(c), s1, events, s');
    events := [HttpNew(c)] + events;
  }

  /** From the moment at which o is served by h2c. */
  lemma H2cRequestOutlives(s: Sys, o: Conn, c: Conn, req: nat) returns (events: seq<Event>, s': Sys)
    requires s.conns == map[o.id := Info(o, Serving, true)] && s.reqs == map[]
    requires s.books.total == 1 && s.books.fired == {}
    requires o.key == c.key && o.id != c.id && !o.tracked && !c.tracked
    ensures events == [Enters(req, o.id), H2cEnds(o.id),
                       HttpNew(c), Disconnects("h2c", c.key), HttpState(c.id, Closed), Leaves(req)]
    ensures Run(s, events, s') && AllOver(s') && s'.books.total == 1
  {
    var s1 := Starts(s, req, o.id);
    var s2 := H2cStops(s1, o);
    events, s' := H2cRequestMeets(s2, o, c, req);
    TwoBefore(s, Enters(req, o.id), s1, H2cEnds(o.id), s2, events, s');
    events := [Enters(req, o.id), H2cEnds(o.id)] + events;
  }

  /** An h2c request outlives its connection o, whose address pair is then used by the HTTP connection c:
      the request's disconnect closes c without taking it off the total, which stays at 1. */
  lemma OutlivingH2cRequestUpsetsCount(o: Conn, c: Conn, req: nat) returns (events: seq<Event>, s: Sys)
    requires o.remote + "->" <= c.key && o.key == c.key && o.id != c.id && !o.tracked && !c.tracked
    ensures events == [HttpNew(o), HttpState(o.id, Hijacked), H2cBegins(o.id), Enters(req, o.id), H2cEnds(o.id),
                       HttpNew(c), Disconnects("h2c", c.key), HttpState(c.id, Closed), Leaves(req)]
    ensures Run(Start(), events, s) && AllOver(s) && s.books.total == 1
  {
    var e, s1 := Arrives(Start(), o);
    var s2, s3 := Hijacks(s1, o);
    events, s := H2cRequestOutlives(s3, o, c, req);
    TwoBefore(s1, HttpState(o.id, Hijacked), s2, H2cBegins(o.id), s3, events, s);
    events := [HttpState(o.id, Hijacked), H2cBegins(o.id)] + events;
    Before(Start(), HttpNew(o), s1, events, s);
    events := [HttpNew(o)] + events;
  }

  /** The connection c is served by h2c when the request finds its hijacked entry. */
  lemma H2RequestMeets(s: Sys, o: Conn, c: Conn, req: nat) returns (events: seq<Event>, s': Sys)
    requires o.id != c.id && !c.tracked && s.reqs == map[req := o.id] && s.books.total == 1
    requires s.conns == map[o.id := Info(o, Over, false), c.id := Info(c, Serving, true)]
    requires c.key in s.books.cs && s.books.cs[c.key].conn == c && s.books.cs[c.key].curState == Hijacked
    ensures events == [Disconnects("h2", c.key), H2cEnds(c.id), Leaves(req)]
    ensures Run(s, events, s') && AllOver(s') && s'.books.total == -1
  {
    var s1 := PlainDisconnects(s, c, "h2");
    var s2 := H2cStops(s1, c);
    s' := Returns(s2, req);
    events := [Leaves(req)];
    TwoBefore(s, Disconnects("h2", c.key), s1, H2cEnds(c.id), s2, events, s');
    events := [Disconnects("h2", c.key), H2cEnds(c.id)] + events;
  }

  lemma HijackedMeets(s: Sys, o: Conn, c: Conn, req: nat) returns (events: seq<Event>, s': Sys)
    requires o.id != c.id && !c.tracked && s.reqs == map[req := o.id] && s.books.total == 1
    requires s.conns == map[o.id := Info(o, Over, false), c.id := Info(c, Open, true)]
    requires c.key in s.books.cs && s.books.cs[c.key].conn == c
    ensures events == [HttpState(c.id, Hijacked), H2cBegins(c.id),
                       Disconnects("h2", c.key), H2cEnds(c.id), Leaves(req)]
    ensures Run(s, events, s') && AllOver(s') && s'.books.total == -1
  {
    var s1, s2 := Hijacks(s, c);
    events, s' := H2RequestMeets(s2, o, c, req);
    TwoBefore(s, HttpState(c.id, Hijacked), s1, H2cBegins(c.id), s2, events, s');
    events := [HttpState(c.id, Hijacked), H2cBegins(c.id)] + events;
  }

  lemma H2cTakesOver(s: Sys, o: Conn, c: Conn, req: nat) returns (events: seq<Event>, s': Sys)
    requires Outlived(s, o, req) && o.key == c.key && o.id != c.id && !c.tracked
    ensures events == [HttpNew(c), HttpState(c.id, Hijacked), H2cBegins(c.id),
                       Disconnects("h2", c.key), H2cEnds(c.id), Leaves(req)]
    ensures Run(s, events, s') && AllOver(s') && s'.books.total == -1
  {
    var e, s1 := Arrives(s, c);
    events, s' := HijackedMeets(s1, o, c, req);
    Before(s, HttpNew(c), s1, events, s');
    events := [HttpNew(c)] + events;
  }

  lemma H2RequestOutlives(o: Conn, req: nat) returns (s1: Sys, s2: Sys, s3: Sys)
    requires !o.tracked
    ensures Run(Start(), [HttpNew(o)], s1) && Run(s1, [Enters(req, o.id)], s2)
    ensures Run(s2, [HttpState(o.id, Closed)], s3) && Outlived(s3, o, req)
  {
    var e;
    e, s1 := Arrives(Start(), o);
    s2 := Starts(s1, req, o.id);
    s3 := Closes(s2, o);
  }

  /** A request of HTTP/2 over TLS outlives its connection o, whose address pair is then used by a
      connection c that is served by h2c: the request's disconnect takes c off the total, and so does the
      end of c. (A request of HTTP/1 has always returned before its connection is closed.) */
  lemma OutlivingH2RequestUpsetsCount(o: Conn, c: Conn, req: nat) returns (events: seq<Event>, s: Sys)
    requires o.remote + "->" <= c.key && o.key == c.key && o.id != c.id && !o.tracked && !c.tracked
    ensures events == [HttpNew(o), Enters(req, o.id), HttpState(o.id, Closed), HttpNew(c), HttpState(c.id, Hijacked),
                       H2cBegins(c.id), Disconnects("h2", c.key), H2cEnds(c.id), Leaves(req)]
    ensures Run(Start(), events, s) && AllOver(s) && s.books.total == -1
  {
    var s1, s2, s3 := H2RequestOutlives(o, req);
    events, s := H2cTakesOver(s3, o, c, req);
    TwoBefore(s1, Enters(req, o.id), s2, HttpState(o.id, Closed), s3, events, s);
    events := [Enters(req, o.id), HttpState(o.id, Closed)] + events;
    Before(Start(), HttpNew(o), s1, events, s);
    events := [HttpNew(o)] + events;
  }
}
