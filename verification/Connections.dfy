/**
 The life of connections and requests around the monitor's books: which events can happen
 when, and which connections are live and counted, independently of how the code counts them.
 */
module Connections {
  import opened Books

  /** Raised: hijacked and not (yet) served by h2c. Over: the connection has ended, so its
      address pair may be reused. */
  datatype Phase = Open | Raised | Serving | Over

  /** `live` says that the connection is to be counted. */
  datatype Info = Info(conn: Conn, phase: Phase, live: bool)

  /** `reqs` maps running handlers to the connection of their request. */
  datatype Sys = Sys(books: Ledger, conns: map<nat, Info>, reqs: map<nat, nat>)

  datatype Event =
    | HttpNew(conn: Conn) | HttpState(id: nat, state: NetState)
    | RaisedEnds(id: nat) | H2cBegins(id: nat) | H2cEnds(id: nat)
    | GrpcAccept(conn: Conn) | GrpcClose(id: nat)
    | Disconnects(proto: string, found: string)
    | Enters(req: nat, id: nat) | Finishes(req: nat, received: int, sent: int, onLambda: bool) | Leaves(req: nat)

  function Start(): Sys {
    Sys(Ledger(0, 0, map[], EMPTY_NODE, {}, map[], {}), map[], map[])
  }

  /** No other connection with this key is still going on. */
  predicate Alone(s: Sys, key: string, id: nat) {
    forall i | i in s.conns && i != id && s.conns[i].conn.key == key :: s.conns[i].phase.Over?
  }

  predicate InPhase(s: Sys, id: nat, phase: Phase, tracked: bool) {
    id in s.conns && s.conns[id].phase == phase && s.conns[id].conn.tracked == tracked
  }

  predicate Possible(s: Sys, e: Event) {
    match e
    case HttpNew(conn) => conn.id !in s.conns && !conn.tracked && Alone(s, conn.key, conn.id)
    case HttpState(id, state) => InPhase(s, id, Open, false) && !state.New?
    case RaisedEnds(id) => InPhase(s, id, Raised, false)
    case H2cBegins(id) => InPhase(s, id, Raised, false)
    case H2cEnds(id) => InPhase(s, id, Serving, false)
    case GrpcAccept(conn) => conn.id !in s.conns && conn.tracked && Alone(s, conn.key, conn.id)
    case GrpcClose(id) => id in s.conns && s.conns[id].conn.tracked
    case Disconnects(_, found) => found in s.books.cs && s.books.cs[found].conn.id in s.conns
    case Enters(req, id) => req !in s.reqs && id in s.conns
    case Finishes(req, _, _, _) => req in s.reqs && s.reqs[req] in s.conns
    case Leaves(req) => req in s.reqs && s.reqs[req] in s.conns
  }

  /** An entry of an HTTP connection that has neither been hijacked nor closed. */
  predicate OpenHttp(cs: ConnState) {
    !cs.conn.tracked && (cs.curState.New? || cs.curState.Active? || cs.curState.Idle?)
  }

  /** Whether a disconnect closes, and thereby ends the counting of, the connection it found: a hijacked
      connection is not counted by its entry, and outside gRPC a tracked connection is left alone. */
  predicate EndsCounting(proto: string, cs: ConnState) {
    OpenHttp(cs) || (cs.conn.tracked && IsGrpc(proto))
  }

  function HttpStateEvent(s: Sys, id: nat, state: NetState): Sys
    requires id in s.conns
  {
    var info := s.conns[id];
    var s' := s.(books := OnStateChange(s.books, info.conn, state));
    match state
    case Hijacked => s'.(conns := s.conns[id := info.(phase := Raised, live := false)])
    case Closed => s'.(conns := s.conns[id := info.(phase := Over, live := false)])
    case _ => s'
  }

  function DisconnectEvent(s: Sys, proto: string, found: string): Sys
    requires found in s.books.cs && s.books.cs[found].conn.id in s.conns
  {
    var cs := s.books.cs[found];
    var id := cs.conn.id;
    s.(books := Disconnect(s.books, cs.conn.host, cs.conn.key, proto, found),
       conns := if EndsCounting(proto, cs) then s.conns[id := s.conns[id].(live := false)] else s.conns)
  }

  function Happen(s: Sys, e: Event): Sys
    requires Possible(s, e)
  {
    match e
    case HttpNew(conn) =>
      s.(books := OnStateChange(s.books, conn, New), conns := s.conns[conn.id := Info(conn, Open, true)])
    case HttpState(id, state) => HttpStateEvent(s, id, state)
    case RaisedEnds(id) => s.(conns := s.conns[id := s.conns[id].(phase := Over)])
    case H2cBegins(id) =>
      s.(books := CountTotal(s.books, s.conns[id].conn.host, 1),
         conns := s.conns[id := s.conns[id].(phase := Serving, live := true)])
    case H2cEnds(id) =>
      s.(books := CountTotal(s.books, s.conns[id].conn.host, -1),
         conns := s.conns[id := s.conns[id].(phase := Over, live := false)])
    case GrpcAccept(conn) =>
      s.(books := Register(s.books, conn), conns := s.conns[conn.id := Info(conn, Open, true)])
    case GrpcClose(id) =>
      s.(books := Release(s.books, id, s.conns[id].conn.host),
         conns := s.conns[id := s.conns[id].(phase := Over, live := false)])
    case Disconnects(proto, found) => DisconnectEvent(s, proto, found)
    case Enters(req, id) =>
      s.(books := CountActive(s.books, s.conns[id].conn.host, 1), reqs := s.reqs[req := id])
    case Finishes(req, received, sent, onLambda) =>
      s.(books := Reflect(s.books, s.conns[s.reqs[req]].conn.host, received, sent, onLambda))
    case Leaves(req) =>
      s.(books := CountActive(s.books, s.conns[s.reqs[req]].conn.host, -1), reqs := s.reqs - {req})
  }

  // ---- invariant ----

  /** An entry of csMaps against the phase of its connection; none rests in Closed. */
  predicate EntryOk(cs: ConnState, key: string, phase: Phase) {
    && cs.conn.key == key && !cs.curState.Closed?
    && (cs.conn.tracked ==> cs.curState.New?)
    && (OpenHttp(cs) ==> phase.Open?)
    && (cs.curState.Hijacked? ==> !phase.Open?)
  }

  /** Whether a connection is counted, from its phase, its entry and its once flag. */
  predicate CountOk(info: Info, present: bool, fired: bool) {
    if info.conn.tracked then
      (info.live <==> !fired) && (info.phase.Open? || (info.phase.Over? && fired))
    else
      match info.phase
      case Open => info.live <==> present
      case Raised => !info.live
      case Serving => info.live
      case Over => !info.live
  }

  predicate EntryFits(s: Sys, key: string)
    requires key in s.books.cs
  {
    var cs := s.books.cs[key];
    cs.conn.id in s.conns && s.conns[cs.conn.id].conn == cs.conn && EntryOk(cs, key, s.conns[cs.conn.id].phase)
  }

  predicate ConnFits(s: Sys, id: nat)
    requires id in s.conns
  {
    var info := s.conns[id];
    && info.conn.id == id && info.conn.host in s.books.nodes
    && CountOk(info, info.conn.key in s.books.cs, id in s.books.fired)
    && (!info.phase.Over? ==>
          Alone(s, info.conn.key, id)
          && (info.conn.key in s.books.cs ==> s.books.cs[info.conn.key].conn.id == id))
  }

  ghost predicate Placed(s: Sys) {
    && (forall key | key in s.books.cs :: EntryFits(s, key))
    && (forall id | id in s.conns :: ConnFits(s, id))
    && (forall r | r in s.reqs :: s.reqs[r] in s.conns)
    && s.books.fired <= s.conns.Keys
  }

  function Live(s: Sys): set<nat> {
    set id | id in s.conns && s.conns[id].live
  }

  function LiveAt(s: Sys, host: string): set<nat> {
    set id | id in s.conns && s.conns[id].live && s.conns[id].conn.host == host
  }

  function RunningAt(s: Sys, host: string): set<nat> {
    set r | r in s.reqs && s.reqs[r] in s.conns && s.conns[s.reqs[r]].conn.host == host
  }

  /** The counters are exactly the numbers of live connections and running handlers,
      in total and for every remote host. */
  ghost predicate TotalsRight(s: Sys) {
    s.books.total == |Live(s)| && forall h :: NodeAt(s.books, h).total == |LiveAt(s, h)|
  }

  ghost predicate ActivesRight(s: Sys) {
    s.books.active == |s.reqs| && forall h :: NodeAt(s.books, h).active == |RunningAt(s, h)|
  }

  ghost predicate Inv(s: Sys) {
    Placed(s) && TotalsRight(s) && ActivesRight(s)
  }

  /** The condition under which a forced disconnect is counted correctly: it takes one off the
      total itself exactly when it found an open HTTP connection. */
  predicate Apt(s: Sys, e: Event) {
    e.Disconnects? ==> (e.found in s.books.cs && (OpenHttp(s.books.cs[e.found]) <==> IsPlainHttp(e.proto)))
  }
}
