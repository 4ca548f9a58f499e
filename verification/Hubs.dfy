/** The hub's loop body and the clients' pumps as methods on mutable objects. */
module Hubs {
  import opened HubProtocol
  import opened HubSafety
  import Colours

  class Client {
    ghost const id: nat         // its name in the state machine
    const color: string
    var send: seq<string>       // the buffered channel
    var open: bool              // the channel has not been closed
    var closed: bool            // the flag set by the pumps
    ghost var queue: seq<Item>  // send, with the broadcasts marked
    ghost var put: seq<Item>
    ghost var taken: seq<Item>
    ghost var closes: nat
    ghost var start: nat

    /** The marked queue holds the texts of the channel. */
    ghost predicate Valid()
      reads this
    {
      |send| == |queue| && forall k | 0 <= k < |send| :: send[k] == queue[k].text
    }

    ghost function Value(): Member
      reads this
    {
      Member(color, queue, open, closed, put, taken, closes, start)
    }

    constructor (ghost id: nat, color: string)
      ensures Valid() && Value() == Joined(color, 0) && this.id == id
    {
      this.id := id;
      this.color := color;
      send, open, closed := [], true, false;
      queue, put, taken, closes, start := [], [], [], 0, 0;
    }

    /** c.send <- message; the caller must know that the channel is open and has room. */
    method Send(message: string, ghost fromHub: bool)
      requires Valid() && open && |send| < 256
      modifies this
      ensures Valid() && Value() == Put(old(Value()), Item(message, fromHub))
    {
      send := send + [message];
      queue := queue + [Item(message, fromHub)];
      put := put + [Item(message, fromHub)];
    }

    /** close(c.send), which panics on a closed channel. */
    method Close()
      requires Valid() && open
      modifies this
      ensures Valid() && Value() == Shut(old(Value()))
    {
      open := false;
      closes := closes + 1;
    }

    /** <-c.send with a message in the buffer; a closed channel still hands out what it holds. */
    method Receive() returns (message: string)
      requires Valid() && send != []
      modifies this
      ensures Valid() && message == old(send)[0] && Value() == Taken(old(Value()))
    {
      message, send := send[0], send[1..];
      taken, queue := taken + [queue[0]], queue[1..];
    }

    /** A pump that fails marks its client. */
    method SetClosed()
      requires Valid()
      modifies this
      ensures Valid() && Value() == old(Value()).(flagged := true)
    {
      closed := true;
    }

    /** One turn of writePump: a message and all that is queued behind it become one frame. */
    method WriteFrame() returns (frame: seq<string>)
      requires Valid() && send != []
      modifies this
      ensures Valid() && frame == old(send) && send == []
      ensures Value() == old(Value()).(queue := [], taken := old(taken + queue))
    {
      ghost var all := queue;
      var message := Receive();
      frame := [message];
      var n := |send|;
      for i := 0 to n
        invariant Valid() && 1 + n == |all|
        invariant frame == old(send)[..i + 1] && send == old(send)[i + 1..]
        invariant queue == all[i + 1..] && taken == old(taken) + all[..i + 1]
        invariant open == old(open) && closed == old(closed) && put == old(put)
        invariant closes == old(closes) && start == old(start)
      {
        message := Receive();
        frame := frame + [message];
      }
      assert all[..n + 1] == all;
    }
  }

  ghost predicate Naming(known: set<Client>, byId: map<nat, Client>) {
    && (forall c | c in known :: c.id in byId && byId[c.id] == c)
    && (forall i | i in byId :: byId[i] in known && byId[i].id == i)
  }

  lemma NamingGrows(known: set<Client>, byId: map<nat, Client>, client: Client)
    requires Naming(known, byId) && client.id !in byId
    ensures Naming(known + {client}, byId[client.id := client])
  {
  }

  class Hub {
    var clients: set<Client>
    ghost var log: seq<string>
    ghost var known: set<Client>   // every client that was ever registered
    ghost var byId: map<nat, Client>

    /** The invariant of the state machine, between two broadcasts, for every known client. */
    ghost predicate Valid()
      reads this`clients, this`known, this`log, known
    {
      && clients <= known
      && forall c | c in known :: c.Valid() && ClientOk(c, 0)
    }

    ghost predicate ClientOk(c: Client, pending: nat)
      reads this`clients, this`log, c
    {
      ChannelOk(c.Value(), c in clients) && HistoryOk(c.Value(), log, c in clients, pending)
    }

    constructor ()
      ensures Valid() && clients == {} && known == {} && log == [] && View() == START
    {
      clients, known, log, byId := {}, {}, [], map[];
    }

    method Register(client: Client)
      requires Valid() && client !in known
      requires client.Valid() && client.Value() == Joined(client.color, 0)
      modifies this`clients, this`known, client
      ensures Valid() && log == old(log)
      ensures clients == old(clients) + {client} && known == old(known) + {client}
      ensures client.Value() == Joined(client.color, |log|)
    {
      client.start := |log|;
      clients := clients + {client};
      known := known + {client};
      assert log[|log|..|log|] == [];
      forall c | c in known ensures c.Valid() && ClientOk(c, 0) {
        if c != client {
          assert old(c.Valid() && ClientOk(c, 0)) && c.Value() == old(c.Value());
        }
      }
    }

    method Unregister(client: Client)
      requires Valid() && client in known
      modifies this`clients, client
      ensures Valid() && log == old(log) && known == old(known) && clients == old(clients) - {client}
      ensures client.Value() == if client in old(clients) then Shut(old(client.Value())) else old(client.Value())
    {
      if client in clients {
        clients := clients - {client};
        client.Close();
      }
      forall c | c in known ensures c.Valid() && ClientOk(c, 0) {
        assert old(c.Valid() && ClientOk(c, 0));
        assert c != client ==> c.Value() == old(c.Value());
      }
    }

    /** One turn of the broadcast loop. */
    method Offer(client: Client, message: string)
      requires client in clients && client.Valid() && client.open
      modifies this`clients, client
      ensures clients == if Overflows(old(client.Value())) then old(clients) - {client} else old(clients)
      ensures client.Valid() && client.Value() == Offered(old(client.Value()), message)
    {
      if !client.closed {
        if |client.send| < 256 {
          client.Send(message, true);
        } else {
          client.Close();
          clients := clients - {client};
        }
      }
    }

    /** The loop over the clients, in any order. */
    method OfferAll(message: string)
      requires forall c | c in clients :: c.Valid() && c.open
      modifies this`clients, clients
      ensures forall c | c in old(clients) :: c.Valid() && c.Value() == Offered(old(c.Value()), message)
      ensures forall c :: c in clients <==> c in old(clients) && !Overflows(old(c.Value()))
    {
      var todo := clients;
      while todo != {}
        invariant todo <= clients <= old(clients)
        invariant forall c | c in todo :: c.Valid() && c.open && c.Value() == old(c.Value())
        invariant forall c | c in old(clients) - todo :: c.Valid() && c.Value() == Offered(old(c.Value()), message)
        invariant forall c | c in old(clients) - todo :: c in clients <==> !Overflows(old(c.Value()))
        decreases todo
      {
        var client :| client in todo;
        todo := todo - {client};
        Offer(client, message);
      }
    }

    /** A broadcast reaches the registered clients; those that are full are closed and dropped. */
    method Broadcast(message: string)
      requires Valid()
      modifies this`log, this`clients, clients
      ensures Valid() && log == old(log) + [message] && known == old(known)
      ensures forall c | c in old(clients) :: c.Value() == Offered(old(c.Value()), message)
      ensures forall c :: c in clients <==> c in old(clients) && !Overflows(old(c.Value()))
    {
      log := log + [message];
      assert forall c | c in clients :: old(ClientOk(c, 0)) && c.Valid() && c.open;
      OfferAll(message);
      forall c | c in known ensures c.Valid() && ClientOk(c, 0) {
        assert old(c.Valid() && ClientOk(c, 0));
        LogGrows(old(c.Value()), old(log), message, c in old(clients));
        if c in old(clients) {
          OfferKeeps(old(c.Value()), log);
        }
      }
    }

    /** What a pump does between two broadcasts keeps the invariant. */
    twostate lemma PumpKeeps(client: Client, message: string)
      requires old(Valid()) && client in known && unchanged(this) && client.Valid()
      requires forall c | c in known && c != client :: unchanged(c)
      requires Pumped(old(client.Value()), client.Value(), message)
      ensures Valid()
    {
      forall c | c in known ensures c.Valid() && ClientOk(c, 0) {
        assert old(c.Valid() && ClientOk(c, 0));
        if c == client {
          var was, now := old(c.Value()), c.Value();
          if now.taken != was.taken {
            TakeKeeps(was, log, c in clients, 0);
          } else if now.put != was.put {
            DirectKeeps(was, message, log, 0);
          }
        }
      }
    }

    /** A pump that fails marks its client. */
    method Mark(client: Client)
      requires Valid() && client in known
      modifies client
      ensures Valid() && client.Value() == old(client.Value()).(flagged := true)
    {
      client.SetClosed();
      forall c | c in known ensures c.Valid() && ClientOk(c, 0) {
        assert old(c.Valid() && ClientOk(c, 0));
      }
    }

    /** The end of readPump, with nothing in between: the client is marked, the others are told, it leaves.
        The message that tells them is not put in its own queue, and its channel is closed once. */
    method EndOfReading(client: Client, message: string)
      requires Valid() && client in known
      modifies this, clients, client
      ensures Valid() && client !in clients && known == old(known) && log == old(log) + [message]
      ensures client.put == old(client.put) && client.closes == 1
      ensures forall c | c in old(clients) && c != client :: c.Value() == Offered(old(c.Value()), message)
    {
      Mark(client);
      Broadcast(message);
      assert client.put == old(client.put);
      Unregister(client);
      assert ClientOk(client, 0);
    }

    /** Picking a colour and registering with it, as one step. */
    method Connect(random: nat, ghost id: nat) returns (client: Client)
      requires Valid()
      modifies this
      ensures Valid() && fresh(client) && log == old(log)
      ensures clients == old(clients) + {client} && known == old(known) + {client}
      ensures Colours.Picked(client.color, set c | c in old(clients) :: c.color)
      ensures client.id == id && client.Value() == Joined(client.color, |log|)
    {
      var colors := ColorsInUse();
      var color := Colours.GetRandomColor(colors, random);
      assert (set x | x in colors) == set c | c in clients :: c.color;
      client := new Client(id, color);
      Register(client);
    }

    method ColorsInUse() returns (colors: seq<string>)
      ensures forall x :: x in colors <==> exists c :: c in clients && c.color == x
    {
      colors := [];
      var todo := clients;
      while todo != {}
        invariant todo <= clients
        invariant forall x :: x in colors <==> exists c :: c in clients - todo && c.color == x
        decreases todo
      {
        var client :| client in todo;
        todo := todo - {client};
        ghost var was := colors;
        colors := colors + [client.color];
        forall x ensures x in colors <==> exists c :: c in clients - todo && c.color == x {
          if x == client.color {
            assert client in clients - todo;
          }
          if c :| c in clients - todo && c.color == x {
            assert c == client || c in clients - (todo + {client});
          }
        }
      }
    }

    // ---- the hub and the state machine ----

    /** The known clients have different names. */
    ghost predicate Named()
      reads this`known, this`byId
    {
      Naming(known, byId)
    }

    /** The hub as a state of the state machine, between two broadcasts. */
    ghost function View(): State
      reads this, known
    {
      State(map i | i in byId && byId[i] in known :: byId[i].Value(),
            (set i | i in byId && byId[i] in clients), log, {})
    }

    lemma ViewIs(s: State)
      requires Named() && clients <= known && s.members.Keys == byId.Keys && s.log == log && s.todo == {}
      requires forall i | i in byId :: s.members[i] == byId[i].Value()
      requires forall i :: i in s.clients <==> i in byId && byId[i] in clients
      ensures View() == s
    {
      assert View().members == s.members;
      assert View().clients == s.clients;
    }

    lemma ViewAt(i: nat)
      requires Named() && i in byId
      ensures i in View().members && View().members[i] == byId[i].Value()
      ensures i in View().clients <==> byId[i] in clients
    {
    }

    lemma ViewShape()
      requires Named()
      ensures View().members.Keys == byId.Keys
      ensures forall i :: i in View().clients <==> i in byId && byId[i] in clients
    {
    }

    /** The three cases of the hub's loop, each as the steps of the state machine that it is. */
    method ServeRegister(client: Client)
      requires Valid() && Named() && client !in known && client.id !in byId
      requires client.Valid() && client.Value() == Joined(client.color, 0)
      modifies this, client
      ensures Valid() && Named() && Enabled(old(View()), Step.Register(client.id, client.color))
      ensures View() == Apply(old(View()), Step.Register(client.id, client.color))
    {
      ghost var was, names, were := View(), byId, clients;
      ViewShape();
      forall i | i in names ensures names[i] != client && was.members[i] == names[i].Value() {
        ViewAt(i);
      }
      Join(client);
      RegisterView(was, names, were, client);
    }

    method Join(client: Client)
      requires Valid() && Named() && client !in known && client.id !in byId
      requires client.Valid() && client.Value() == Joined(client.color, 0)
      modifies this, client
      ensures Valid() && Named() && clients == old(clients) + {client} && clients <= known
      ensures byId == old(byId)[client.id := client] && log == old(log)
      ensures client.Value() == Joined(client.color, |log|)
    {
      NamingGrows(known, byId, client);
      Register(client);
      byId := byId[client.id := client];
    }

    /** The view after a client has joined, from that before. */
    lemma RegisterView(was: State, names: map<nat, Client>, were: set<Client>, client: Client)
      requires Named() && clients <= known && client.id !in names && byId == names[client.id := client]
      requires clients == were + {client} && client.Value() == Joined(client.color, |log|)
      requires was.members.Keys == names.Keys && was.log == log && was.todo == {}
      requires forall i | i in names :: names[i] != client && was.members[i] == names[i].Value()
      requires forall i :: i in was.clients <==> i in names && names[i] in were
      ensures Enabled(was, Step.Register(client.id, client.color))
      ensures View() == Apply(was, Step.Register(client.id, client.color))
    {
      ViewIs(Apply(was, Step.Register(client.id, client.color)));
    }

    method ServeUnregister(client: Client)
      requires Valid() && Named() && client in known
      modifies this`clients, client
      ensures Valid() && Named() && Enabled(old(View()), Step.Unregister(client.id))
      ensures View() == Apply(old(View()), Step.Unregister(client.id))
    {
      ghost var was := View();
      ViewShape();
      ViewAt(client.id);
      Unregister(client);
      ghost var now := View();
      ViewShape();
      ViewAt(client.id);
      forall i | i in byId && i != client.id ensures i in now.members && now.members[i] == was.members[i] {
        ViewAt(i);
      }
      forall i ensures i in now.clients <==> i in was.clients && i != client.id {
        assert i in byId && byId[i] == client ==> i == client.id;
      }
      IsUnregister(was, now, client.id);
    }

    method ServeBroadcast(message: string) returns (ghost steps: seq<Step>)
      requires Valid() && Named()
      modifies this`log, this`clients, clients
      ensures Valid() && Named() && steps != [] && steps[0] == Step.Broadcast(message)
      ensures (forall k | 0 < k < |steps| :: steps[k].Offer?) && Run(old(View()), steps, View())
    {
      ghost var was := View();
      Broadcast(message);
      ghost var now := View();
      forall i | i in byId
        ensures i in now.members && i in was.members
        ensures now.members[i] == if i in was.clients then Offered(was.members[i], message) else was.members[i]
        ensures i in now.clients <==> i in was.clients && !Overflows(was.members[i])
      {
        ViewAt(i);
      }
      steps := IsBroadcast(was, now, message);
    }

    method ServeMark(client: Client)
      requires Valid() && Named() && client in known
      modifies client
      ensures Valid() && Named() && Enabled(old(View()), Flag(client.id))
      ensures View() == Apply(old(View()), Flag(client.id))
    {
      ghost var was := View();
      Mark(client);
      ViewIs(Apply(was, Flag(client.id)));
    }
  }
}
