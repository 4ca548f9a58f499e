/** What the hub keeps in every run: open channels, bounded queues, and ordered delivery. */
module HubSafety {
  import opened HubProtocol

  lemma {:induction false} BroadcastsJoin(a: seq<Item>, b: seq<Item>)
    ensures Broadcasts(a + b) == Broadcasts(a) + Broadcasts(b)
  {
    if b == [] {
      assert a + b == a;
    } else {
      var n := |b| - 1;
      BroadcastsJoin(a, b[..n]);
      assert (a + b)[..|a + b| - 1] == a + b[..n];
    }
  }

  lemma PutOne(m: Member, item: Item)
    ensures Broadcasts(Put(m, item).put) == Broadcasts(m.put) + if item.fromHub then [item.text] else []
  {
    BroadcastsJoin(m.put, [item]);
    assert [item][..0] == [];
  }

  lemma PutKeepsChannel(m: Member, item: Item)
    requires ChannelOk(m, true) && |m.queue| < QUEUE
    ensures ChannelOk(Put(m, item), true)
  {
    assert m.taken + (m.queue + [item]) == (m.taken + m.queue) + [item];
  }

  lemma TakeKeepsChannel(m: Member, registered: bool)
    requires ChannelOk(m, registered) && m.queue != []
    ensures ChannelOk(Taken(m), registered)
  {
    assert m.queue == [m.queue[0]] + m.queue[1..];
    assert m.taken + [m.queue[0]] + m.queue[1..] == m.taken + m.queue;
  }

  /** A broadcast that starts is one more pending message for everybody. */
  lemma LogGrows(m: Member, log: seq<string>, message: string, registered: bool)
    requires HistoryOk(m, log, registered, 0)
    ensures HistoryOk(m, log + [message], registered, if registered then 1 else 0)
  {
    var got := Broadcasts(m.put);
    assert (log + [message])[m.start..m.start + |got|] == log[m.start..m.start + |got|];
  }

  lemma RoomKeeps(m: Member, log: seq<string>)
    requires log != [] && ChannelOk(m, true) && HistoryOk(m, log, true, 1) && !m.flagged && |m.queue| < QUEUE
    ensures ChannelOk(Put(m, Item(log[|log| - 1], true)), true)
    ensures HistoryOk(Put(m, Item(log[|log| - 1], true)), log, true, 0)
  {
    var message := log[|log| - 1];
    PutKeepsChannel(m, Item(message, true));
    PutOne(m, Item(message, true));
    assert log[m.start..] == log[m.start..|log| - 1] + [message];
  }

  /** A client that is skipped or closed keeps what it was put. */
  lemma NoRoomKeeps(m: Member, log: seq<string>)
    requires ChannelOk(m, true) && HistoryOk(m, log, true, 1)
    ensures m.flagged ==> HistoryOk(m, log, true, 0)
    ensures !m.flagged ==> ChannelOk(Shut(m), false) && HistoryOk(Shut(m), log, false, 0)
  {
  }

  /** The pending message is queued, skipped for good, or costs the client its registration. */
  lemma OfferKeeps(m: Member, log: seq<string>)
    requires log != [] && ChannelOk(m, true) && HistoryOk(m, log, true, 1)
    ensures ChannelOk(Offered(m, log[|log| - 1]), !Overflows(m))
    ensures HistoryOk(Offered(m, log[|log| - 1]), log, !Overflows(m), 0)
  {
    if !m.flagged && |m.queue| < QUEUE {
      RoomKeeps(m, log);
    } else {
      NoRoomKeeps(m, log);
    }
  }

  lemma TakeKeeps(m: Member, log: seq<string>, registered: bool, pending: nat)
    requires ChannelOk(m, registered) && HistoryOk(m, log, registered, pending) && m.queue != []
    ensures ChannelOk(Taken(m), registered) && HistoryOk(Taken(m), log, registered, pending)
  {
    TakeKeepsChannel(m, registered);
  }

  lemma DirectKeeps(m: Member, message: string, log: seq<string>, pending: nat)
    requires ChannelOk(m, true) && HistoryOk(m, log, true, pending) && |m.queue| < QUEUE
    ensures ChannelOk(Put(m, Item(message, false)), true)
    ensures HistoryOk(Put(m, Item(message, false)), log, true, pending)
  {
    PutKeepsChannel(m, Item(message, false));
    PutOne(m, Item(message, false));
  }

  /** What a pump does: it takes a message, sets the flag, or sends a direct reply. */
  predicate Pumped(was: Member, now: Member, message: string) {
    || (was.queue != [] && now == Taken(was))
    || now == was.(flagged := true)
    || (was.open && |was.queue| < QUEUE && now == Put(was, Item(message, false)))
  }

  /** A step leaves the clients it does not name as they are, apart from the growing log. */
  lemma OthersKeep(s: State, step: Step, id: nat)
    requires Inv(s) && Enabled(s, step) && id in s.members && (step.Broadcast? || step.id != id)
    ensures id in Apply(s, step).members && Fits(Apply(s, step), id)
  {
    assert Fits(s, id);
    if step.Broadcast? {
      LogGrows(s.members[id], s.log, step.message, id in s.clients);
    }
  }

  lemma NamedKeeps(s: State, step: Step)
    requires Inv(s) && Enabled(s, step) && !step.Broadcast?
    ensures step.id in Apply(s, step).members && Fits(Apply(s, step), step.id)
  {
    match step
    case Offer(id) =>
      assert Fits(s, id);
      OfferKeeps(s.members[id], s.log);
    case Take(id) =>
      assert Fits(s, id);
      TakeKeeps(s.members[id], s.log, id in s.clients, if id in s.todo then 1 else 0);
    case Direct(id, message) =>
      assert Fits(s, id);
      DirectKeeps(s.members[id], message, s.log, if id in s.todo then 1 else 0);
    case _ => ComesOrGoes(s, step);
  }

  lemma ComesOrGoes(s: State, step: Step)
    requires Inv(s) && Enabled(s, step) && (step.Register? || step.Unregister? || step.Flag?)
    ensures step.id in Apply(s, step).members && Fits(Apply(s, step), step.id)
  {
    assert step.id in s.members ==> Fits(s, step.id);
  }

  lemma StepKeeps(s: State, step: Step)
    requires Inv(s) && Enabled(s, step)
    ensures Inv(Apply(s, step))
  {
    var s' := Apply(s, step);
    forall id | id in s'.members ensures Fits(s', id) {
      if step.Broadcast? || step.id != id {
        OthersKeep(s, step, id);
      } else {
        NamedKeeps(s, step);
      }
    }
  }

  lemma {:induction false} RunKeeps(s: State, steps: seq<Step>, s': State)
    requires Inv(s) && Run(s, steps, s')
    ensures Inv(s')
    decreases |steps|
  {
    if steps != [] {
      StepKeeps(s, steps[0]);
      RunKeeps(Apply(s, steps[0]), steps[1..], s');
    }
  }

  // ---- main results, for every run from the start ----

  /** A channel is open exactly while its client is registered (so no send and no close of the hub
      meets a closed channel), it is closed at most once, and no queue holds more than 256 messages. */
  lemma ChannelsSafe(steps: seq<Step>, s: State, id: nat)
    requires Run(START, steps, s) && id in s.members
    ensures s.members[id].open <==> id in s.clients
    ensures s.members[id].closes == if id in s.clients then 0 else 1
    ensures |s.members[id].queue| <= 256
  {
    RunKeeps(START, steps, s);
    assert Fits(s, id);
  }

  /** What a client's writePump has taken is, in order, what was put in its queue; the broadcasts
      among it are a contiguous piece of the log that begins at the client's registration. */
  lemma DeliveredInOrder(steps: seq<Step>, s: State, id: nat)
    requires Run(START, steps, s) && id in s.members
    ensures var m := s.members[id]; var n := |Broadcasts(m.taken)|;
      && m.taken <= m.put
      && m.start + n <= |s.log| && Broadcasts(m.taken) == s.log[m.start..m.start + n]
  {
    RunKeeps(START, steps, s);
    assert Fits(s, id);
    var m := s.members[id];
    BroadcastsJoin(m.taken, m.queue);
    var got, n := Broadcasts(m.put), |Broadcasts(m.taken)|;
    assert got[..n] == Broadcasts(m.taken);
    assert s.log[m.start..m.start + |got|][..n] == s.log[m.start..m.start + n];
  }

  /** Between two broadcasts a registered client without the flag has been put, with nothing missing
      and nothing twice, every broadcast since its registration. */
  lemma NothingMissed(steps: seq<Step>, s: State, id: nat)
    requires Run(START, steps, s) && s.todo == {} && id in s.clients
    ensures id in s.members && s.members[id].start <= |s.log|
    ensures !s.members[id].flagged ==> Broadcasts(s.members[id].put) == s.log[s.members[id].start..]
  {
    RunKeeps(START, steps, s);
    assert Fits(s, id);
  }

  lemma LeavesBy(s: State, step: Step, id: nat)
    requires Inv(s) && Enabled(s, step) && id in s.clients && id !in Apply(s, step).clients
    ensures id in s.members
    ensures step == Unregister(id) || (step == Offer(id) && |s.members[id].queue| == 256 && !s.members[id].flagged)
  {
    assert Fits(s, id);
  }

  /** A client that is gone at the end of a run left in one of its steps: by unregistering, or by
      a broadcast that found 256 messages in its queue and its flag not set. */
  lemma {:induction false} WhyItLeft(s: State, steps: seq<Step>, s': State, id: nat) returns (k: nat, m: State)
    requires Inv(s) && Run(s, steps, s') && id in s.clients && id !in s'.clients
    ensures k < |steps| && Run(s, steps[..k], m) && id in m.clients && id in m.members
    ensures steps[k] == Unregister(id)
            || (steps[k] == Offer(id) && |m.members[id].queue| == 256 && !m.members[id].flagged)
    decreases |steps|
  {
    var next := Apply(s, steps[0]);
    if id in next.clients {
      StepKeeps(s, steps[0]);
      var j;
      j, m := WhyItLeft(next, steps[1..], s', id);
      k := j + 1;
      assert steps[..k][1..] == steps[1..][..j] && steps[..k][0] == steps[0];
      assert steps[k] == steps[1..][j];
    } else {
      LeavesBy(s, steps[0], id);
      k, m := 0, s;
    }
  }

  /** From one state of a run to a later one: the log and every client's history only grow, the flag
      stays set, the colour and the start stay, and a client that left never comes back. */
  predicate Later(s: State, s': State, id: nat)
    requires id in s.members
  {
    && s.log <= s'.log && id in s'.members
    && s.members[id].put <= s'.members[id].put && s.members[id].taken <= s'.members[id].taken
    && s'.members[id].start == s.members[id].start && s'.members[id].color == s.members[id].color
    && (s.members[id].flagged ==> s'.members[id].flagged)
    && (id in s'.clients ==> id in s.clients)
  }

  lemma StepIsLater(s: State, step: Step, id: nat)
    requires Enabled(s, step) && id in s.members
    ensures Later(s, Apply(s, step), id)
  {
  }

  lemma {:induction false} RunIsLater(s: State, steps: seq<Step>, s': State, id: nat)
    requires Run(s, steps, s') && id in s.members
    ensures Later(s, s', id)
    decreases |steps|
  {
    if steps != [] {
      StepIsLater(s, steps[0], id);
      RunIsLater(Apply(s, steps[0]), steps[1..], s', id);
    }
  }

  /** Once a client carries the flag no further broadcast reaches it; its queue only drains. */
  lemma {:induction false} FlaggedGetsNothing(s: State, steps: seq<Step>, s': State, id: nat)
    requires Run(s, steps, s') && id in s.members && (s.members[id].flagged || id !in s.clients)
    requires Inv(s)
    ensures id in s'.members && Broadcasts(s'.members[id].put) == Broadcasts(s.members[id].put)
    decreases |steps|
  {
    if steps != [] {
      var step := steps[0];
      if step.Direct? && step.id == id {
        PutOne(s.members[id], Item(step.message, false));
      }
      StepIsLater(s, step, id);
      StepKeeps(s, step);
      FlaggedGetsNothing(Apply(s, step), steps[1..], s', id);
    }
  }

  /** Two clients agree on the order: wherever both were put a broadcast of the log, it is the same. */
  lemma ClientsAgree(steps: seq<Step>, s: State, i: nat, j: nat, k: nat)
    requires Run(START, steps, s) && i in s.members && j in s.members
    requires s.members[i].start <= k < s.members[i].start + |Broadcasts(s.members[i].put)|
    requires s.members[j].start <= k < s.members[j].start + |Broadcasts(s.members[j].put)|
    ensures Broadcasts(s.members[i].put)[k - s.members[i].start] == Broadcasts(s.members[j].put)[k - s.members[j].start]
  {
    RunKeeps(START, steps, s);
    BroadcastAt(s, i, k);
    BroadcastAt(s, j, k);
  }

  lemma BroadcastAt(s: State, id: nat, k: nat)
    requires Inv(s) && id in s.members
    requires s.members[id].start <= k < s.members[id].start + |Broadcasts(s.members[id].put)|
    ensures k < |s.log| && Broadcasts(s.members[id].put)[k - s.members[id].start] == s.log[k]
  {
    assert Fits(s, id);
    var start, got := s.members[id].start, Broadcasts(s.members[id].put);
    assert got[k - start] == s.log[start..start + |got|][k - start];
  }

  // ---- a broadcast without interruption ----

  /** The state after the message in progress has been offered to all clients that still wait for it. */
  function AllOffered(s: State): State
    requires s.log != []
  {
    State(map i | i in s.members :: if i in s.todo then Offered(s.members[i], s.log[|s.log| - 1]) else s.members[i],
          (set i | i in s.clients && !(i in s.todo && i in s.members && Overflows(s.members[i]))), s.log, {})
  }

  lemma OfferOne(s: State, id: nat)
    requires s.log != [] && id in s.todo && s.todo <= s.members.Keys
    ensures Enabled(s, Offer(id)) && AllOffered(Apply(s, Offer(id))) == AllOffered(s)
  {
    var s1 := Apply(s, Offer(id));
    assert AllOffered(s1).members == AllOffered(s).members;
    assert AllOffered(s1).clients == AllOffered(s).clients;
  }

  /** Whatever the order of the offers, the loop ends in that state. */
  lemma {:induction false} OfferRun(s: State) returns (steps: seq<Step>)
    requires s.log != [] && s.todo <= s.members.Keys
    ensures Run(s, steps, AllOffered(s)) && forall k | 0 <= k < |steps| :: steps[k].Offer?
    decreases |s.todo|
  {
    if s.todo == {} {
      steps := [];
      assert AllOffered(s).members == s.members && AllOffered(s).clients == s.clients;
    } else {
      var id :| id in s.todo;
      OfferOne(s, id);
      var more := OfferRun(Apply(s, Offer(id)));
      steps := [Offer(id)] + more;
      assert steps[1..] == more;
    }
  }

  lemma BroadcastRun(s: State, message: string) returns (steps: seq<Step>, s': State)
    requires s.todo == {} && s.clients <= s.members.Keys
    ensures Run(s, steps, s') && steps != [] && steps[0] == Broadcast(message)
    ensures forall k | 0 < k < |steps| :: steps[k].Offer?
    ensures s'.members.Keys == s.members.Keys && s'.log == s.log + [message] && s'.todo == {}
    ensures forall i | i in s.members ::
              s'.members[i] == if i in s.clients then Offered(s.members[i], message) else s.members[i]
    ensures forall i :: i in s'.clients <==> i in s.clients && !Overflows(s.members[i])
  {
    var s1 := Apply(s, Broadcast(message));
    var more := OfferRun(s1);
    steps, s' := [Broadcast(message)] + more, AllOffered(s1);
    assert steps[1..] == more;
  }

  lemma IsBroadcast(s: State, s': State, message: string) returns (steps: seq<Step>)
    requires s.todo == {} && s.clients <= s.members.Keys
    requires s'.members.Keys == s.members.Keys && s'.log == s.log + [message] && s'.todo == {}
    requires forall i | i in s.members ::
               s'.members[i] == if i in s.clients then Offered(s.members[i], message) else s.members[i]
    requires s'.clients <= s.members.Keys
    requires forall i | i in s.members :: i in s'.clients <==> i in s.clients && !Overflows(s.members[i])
    ensures Run(s, steps, s') && steps != [] && steps[0] == Broadcast(message)
    ensures forall k | 0 < k < |steps| :: steps[k].Offer?
  {
    var s1;
    steps, s1 := BroadcastRun(s, message);
    assert s1.members == s'.members && s1.clients == s'.clients;
  }

  lemma IsRegister(s: State, s': State, id: nat, color: string)
    requires s.todo == {} && id !in s.members && s'.todo == {} && s'.log == s.log
    requires s'.members.Keys == s.members.Keys + {id} && s'.members[id] == Joined(color, |s.log|)
    requires forall i | i in s.members :: s'.members[i] == s.members[i]
    requires forall i :: i in s'.clients <==> i in s.clients || i == id
    ensures Enabled(s, Register(id, color)) && s' == Apply(s, Register(id, color))
  {
    assert s'.members == Apply(s, Register(id, color)).members;
    assert s'.clients == Apply(s, Register(id, color)).clients;
  }

  lemma IsUnregister(s: State, s': State, id: nat)
    requires s.todo == {} && id in s.members && s'.todo == {} && s'.log == s.log
    requires s'.members.Keys == s.members.Keys && forall i :: i in s'.clients <==> i in s.clients && i != id
    requires s'.members[id] == if id in s.clients then Shut(s.members[id]) else s.members[id]
    requires forall i | i in s.members && i != id :: s'.members[i] == s.members[i]
    ensures Enabled(s, Unregister(id)) && s' == Apply(s, Unregister(id))
  {
    assert s'.members == Apply(s, Unregister(id)).members;
    assert s'.clients == Apply(s, Unregister(id)).clients;
  }
}
