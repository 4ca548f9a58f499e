/**
 The WebSocket hub as a state machine. The hub offers a broadcast to one client at a time,
 and the pumps of the clients take, flag and send between any two of those offers.
 */
module HubProtocol {
  const QUEUE: nat := 256

  /** A queued message; fromHub marks broadcasts, the others are direct replies of readPump. */
  datatype Item = Item(text: string, fromHub: bool)

  /** A client. `flagged` is its closed flag; `put` and `taken` are the history of its channel,
      `closes` says how often the channel was closed, `start` the length of the log at registration. */
  datatype Member = Member(
    color: string, queue: seq<Item>, open: bool, flagged: bool,
    put: seq<Item>, taken: seq<Item>, closes: nat, start: nat)

  /** members: every client that was ever registered; todo: the clients that the broadcast
      in progress, the last of the log, has still to be offered to. */
  datatype State = State(members: map<nat, Member>, clients: set<nat>, log: seq<string>, todo: set<nat>)

  datatype Step =
    | Register(id: nat, color: string) | Unregister(id: nat)
    | Broadcast(message: string) | Offer(id: nat)
    | Take(id: nat) | Flag(id: nat) | Direct(id: nat, message: string)

  const START := State(map[], {}, [], {})

  function Joined(color: string, start: nat): Member {
    Member(color, [], true, false, [], [], 0, start)
  }

  function Put(m: Member, item: Item): Member {
    m.(queue := m.queue + [item], put := m.put + [item])
  }

  function Shut(m: Member): Member {
    m.(open := false, closes := m.closes + 1)
  }

  predicate Overflows(m: Member) {
    !m.flagged && |m.queue| >= QUEUE
  }

  /** One turn of the broadcast loop: skip a flagged client, else send or, when full, close. */
  function Offered(m: Member, message: string): Member {
    if m.flagged then m else if |m.queue| < QUEUE then Put(m, Item(message, true)) else Shut(m)
  }

  function Taken(m: Member): Member
    requires m.queue != []
  {
    m.(queue := m.queue[1..], taken := m.taken + [m.queue[0]])
  }

  /** The hub serves its three channels only between two broadcasts. */
  predicate Enabled(s: State, step: Step) {
    match step
    case Register(id, _) => s.todo == {} && id !in s.members
    case Unregister(id) => s.todo == {} && id in s.members
    case Broadcast(_) => s.todo == {}
    case Offer(id) => id in s.todo && id in s.members && s.log != []
    case Take(id) => id in s.members && s.members[id].queue != []
    case Flag(id) => id in s.members
    case Direct(id, _) => id in s.members && s.members[id].open && |s.members[id].queue| < QUEUE
  }

  function With(s: State, id: nat, m: Member): State {
    s.(members := s.members[id := m])
  }

  function Apply(s: State, step: Step): State
    requires Enabled(s, step)
  {
    match step
    case Register(id, color) => With(s, id, Joined(color, |s.log|)).(clients := s.clients + {id})
    case Unregister(id) =>
      if id in s.clients then With(s, id, Shut(s.members[id])).(clients := s.clients - {id}) else s
    case Broadcast(message) => s.(log := s.log + [message], todo := s.clients)
    case Offer(id) =>
      With(s, id, Offered(s.members[id], s.log[|s.log| - 1])).(
        clients := if Overflows(s.members[id]) then s.clients - {id} else s.clients,
        todo := s.todo - {id})
    case Take(id) => With(s, id, Taken(s.members[id]))
    case Flag(id) => With(s, id, s.members[id].(flagged := true))
    case Direct(id, message) => With(s, id, Put(s.members[id], Item(message, false)))
  }

  predicate Run(s: State, steps: seq<Step>, s': State)
    decreases |steps|
  {
    if steps == [] then s == s'
    else Enabled(s, steps[0]) && Run(Apply(s, steps[0]), steps[1..], s')
  }

  // ---- invariant ----

  /** The broadcasts among the items, in order. */
  function Broadcasts(items: seq<Item>): seq<string> {
    if items == [] then []
    else
      var last := items[|items| - 1];
      Broadcasts(items[..|items| - 1]) + if last.fromHub then [last.text] else []
  }

  /** The channel is open exactly while the client is registered, and was closed once otherwise;
      the queue is bounded and first in, first out. */
  predicate ChannelOk(m: Member, registered: bool) {
    && m.open == registered && m.closes == (if m.open then 0 else 1)
    && |m.queue| <= QUEUE && m.taken + m.queue == m.put
  }

  /** The broadcasts put in the queue are a contiguous piece of the log from `start`, and all of
      the log but `pending` messages for a registered client without the flag. */
  predicate HistoryOk(m: Member, log: seq<string>, registered: bool, pending: nat) {
    var got := Broadcasts(m.put);
    && m.start + |got| <= |log| && got == log[m.start..m.start + |got|]
    && (registered && !m.flagged ==> m.start + |got| + pending == |log|)
  }

  predicate Fits(s: State, id: nat)
    requires id in s.members
  {
    && ChannelOk(s.members[id], id in s.clients)
    && HistoryOk(s.members[id], s.log, id in s.clients, if id in s.todo then 1 else 0)
  }

  ghost predicate Inv(s: State) {
    && s.todo <= s.clients && s.clients <= s.members.Keys
    && (s.todo != {} ==> s.log != [])
    && forall id | id in s.members :: Fits(s, id)
  }
}
