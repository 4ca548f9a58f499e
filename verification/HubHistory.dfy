/** What the hub's clients have been given, told by the steps of a run alone. */
module HubHistory {
  import opened HubProtocol
  import opened HubSafety

  /** The messages that are broadcast in these steps. */
  function Messages(steps: seq<Step>): seq<string> {
    if steps == [] then []
    else (if steps[0].Broadcast? then [steps[0].message] else []) + Messages(steps[1..])
  }

  /** The direct replies to a client in these steps. */
  function Replies(steps: seq<Step>, id: nat): seq<string> {
    if steps == [] then []
    else (if steps[0].Direct? && steps[0].id == id then [steps[0].message] else []) + Replies(steps[1..], id)
  }

  /** How many messages a client's pump takes in these steps. */
  function Takes(steps: seq<Step>, id: nat): nat {
    if steps == [] then 0 else (if steps[0] == Take(id) then 1 else 0) + Takes(steps[1..], id)
  }

  /** The items that are no broadcasts, in order. */
  function Directs(items: seq<Item>): seq<string> {
    if items == [] then []
    else
      var last := items[|items| - 1];
      Directs(items[..|items| - 1]) + if last.fromHub then [] else [last.text]
  }

  // ---- the steps of a run, one by one ----

  lemma {:induction false} SplitAt(s: State, steps: seq<Step>, s': State, k: nat) returns (m: State)
    requires Run(s, steps, s') && k < |steps|
    ensures Run(s, steps[..k], m) && Enabled(m, steps[k]) && Run(Apply(m, steps[k]), steps[k + 1..], s')
    decreases |steps|
  {
    if k == 0 {
      m := s;
    } else {
      m := SplitAt(Apply(s, steps[0]), steps[1..], s', k - 1);
      assert steps[..k][1..] == steps[1..][..k - 1] && steps[..k][0] == steps[0];
      assert steps[1..][k..] == steps[k + 1..];
    }
  }

  lemma LogStep(s: State, step: Step)
    requires Enabled(s, step)
    ensures Apply(s, step).log == s.log + if step.Broadcast? then [step.message] else []
  {
  }

  lemma LogFirst(s: State, steps: seq<Step>, s': State) returns (m: State, said: seq<string>)
    requires steps != [] && Run(s, steps, s')
    ensures Run(m, steps[1..], s') && m.log == s.log + said && Messages(steps) == said + Messages(steps[1..])
  {
    m := Apply(s, steps[0]);
    LogStep(s, steps[0]);
    said := if steps[0].Broadcast? then [steps[0].message] else [];
  }

  lemma {:induction false} LogAlong(s: State, steps: seq<Step>, s': State)
    requires Run(s, steps, s')
    ensures s'.log == s.log + Messages(steps)
    decreases |steps|
  {
    if steps == [] {
      assert s.log + [] == s.log;
    } else {
      var m, said := LogFirst(s, steps, s');
      LogAlong(m, steps[1..], s');
      assert s.log + said + Messages(steps[1..]) == s.log + (said + Messages(steps[1..]));
    }
  }

  lemma DirectsOne(items: seq<Item>, item: Item)
    ensures Directs(items + [item]) == Directs(items) + if item.fromHub then [] else [item.text]
  {
    assert (items + [item])[..|items|] == items;
  }

  /** What one step adds to the history of a client. */
  lemma MemberStep(s: State, step: Step, id: nat)
    requires Enabled(s, step) && id in s.members
    ensures var m, m' := s.members[id], Apply(s, step).members[id];
      && (m'.flagged <==> m.flagged || step == Flag(id))
      && |m'.taken| == |m.taken| + (if step == Take(id) then 1 else 0)
      && Directs(m'.put) == Directs(m.put) + (if step.Direct? && step.id == id then [step.message] else [])
      && m'.color == m.color && m'.start == m.start
  {
    var m := s.members[id];
    if step.Offer? {
      DirectsOne(m.put, Item(s.log[|s.log| - 1], true));
    } else if step.Direct? {
      DirectsOne(m.put, Item(step.message, false));
    }
  }

  /** The history of a client over a run. */
  lemma {:induction false} MemberAlong(s: State, steps: seq<Step>, s': State, id: nat)
    requires Run(s, steps, s') && id in s.members
    ensures id in s'.members
    ensures var m, m' := s.members[id], s'.members[id];
      && (m'.flagged <==> m.flagged || Flag(id) in steps)
      && |m'.taken| == |m.taken| + Takes(steps, id)
      && Directs(m'.put) == Directs(m.put) + Replies(steps, id)
      && m'.color == m.color && m'.start == m.start
    decreases |steps|
  {
    if steps != [] {
      var step := steps[0];
      MemberStep(s, step, id);
      MemberAlong(Apply(s, step), steps[1..], s', id);
      assert steps == [step] + steps[1..];
    }
  }

  // ---- registering ----

  lemma RegisterStep(s: State, id: nat, color: string)
    requires Enabled(s, Register(id, color))
    ensures var s' := Apply(s, Register(id, color));
      id in s'.clients && id in s'.members && s'.members[id] == Joined(color, |s.log|) && s'.log == s.log
  {
  }

  /** After a client has registered in step k: it has the colour it came with, its flag says whether a pump
      has marked it since, it has taken and been sent directly what the later steps say, and while it is
      unmarked and registered it has been put, between two broadcasts, exactly all later broadcasts. */
  lemma RegisteredHistory(steps: seq<Step>, s: State, k: nat, id: nat, color: string)
    requires Run(START, steps, s) && k < |steps| && steps[k] == Register(id, color)
    ensures id in s.members
    ensures var m, later := s.members[id], steps[k + 1..];
      && m.color == color && (m.flagged <==> Flag(id) in later)
      && |m.taken| == Takes(later, id) && Directs(m.put) == Replies(later, id)
      && (s.todo == {} && id in s.clients && !m.flagged ==> Broadcasts(m.put) == Messages(later))
  {
    var m := SplitAt(START, steps, s, k);
    var later := steps[k + 1..];
    var s1 := Apply(m, steps[k]);
    RegisterStep(m, id, color);
    MemberAlong(s1, later, s, id);
    assert Directs(s1.members[id].put) == [] && [] + Replies(later, id) == Replies(later, id);
    LogAlong(s1, later, s);
    if s.todo == {} && id in s.clients && !s.members[id].flagged {
      NothingMissed(steps, s, id);
      assert (s1.log + Messages(later))[|s1.log|..] == Messages(later);
    }
  }

  /** A client that has neither unregistered nor been found full since it registered is still there. */
  lemma StaysUnlessItLeaves(steps: seq<Step>, s: State, k: nat, id: nat, color: string)
    requires Run(START, steps, s) && k < |steps| && steps[k] == Register(id, color)
    requires Unregister(id) !in steps[k + 1..] && Offer(id) !in steps[k + 1..]
    ensures id in s.clients
  {
    var m := SplitAt(START, steps, s, k);
    RegisterStep(m, id, color);
    RunKeeps(START, steps[..k], m);
    StepKeeps(m, steps[k]);
    if id !in s.clients {
      var j, m' := WhyItLeft(Apply(m, steps[k]), steps[k + 1..], s, id);
    }
  }

  // ---- unregistering ----

  lemma UnregisterStep(s: State, id: nat)
    requires Enabled(s, Unregister(id))
    ensures id in Apply(s, Unregister(id)).members && id !in Apply(s, Unregister(id)).clients
    ensures Apply(s, Unregister(id)).members[id].put == s.members[id].put
  {
  }

  /** A client that unregisters in step k is gone for good: its channel is closed, once, and no later
      broadcast is put in its queue. */
  lemma UnregisteredIsGone(steps: seq<Step>, s: State, k: nat, id: nat)
    requires Run(START, steps, s) && k < |steps| && steps[k] == Unregister(id)
    ensures id in s.members && id !in s.clients && !s.members[id].open && s.members[id].closes == 1
    ensures |Broadcasts(s.members[id].put)| <= |Messages(steps[..k])|
  {
    var m := SplitAt(START, steps, s, k);
    var s1 := Apply(m, steps[k]);
    UnregisterStep(m, id);
    RunKeeps(START, steps[..k], m);
    StepKeeps(m, steps[k]);
    assert Fits(m, id);
    LogAlong(START, steps[..k], m);
    assert m.log == Messages(steps[..k]);
    FlaggedGetsNothing(s1, steps[k + 1..], s, id);
    RunIsLater(s1, steps[k + 1..], s, id);
    ChannelsSafe(steps, s, id);
  }

  /** A client that is marked in step k is put no later broadcast either. */
  lemma MarkedGetsNothing(steps: seq<Step>, s: State, k: nat, id: nat)
    requires Run(START, steps, s) && k < |steps| && steps[k] == Flag(id)
    ensures id in s.members && s.members[id].flagged
    ensures |Broadcasts(s.members[id].put)| <= |Messages(steps[..k])|
  {
    var m := SplitAt(START, steps, s, k);
    var s1 := Apply(m, steps[k]);
    RunKeeps(START, steps[..k], m);
    StepKeeps(m, steps[k]);
    assert Fits(m, id);
    LogAlong(START, steps[..k], m);
    assert m.log == Messages(steps[..k]);
    FlaggedGetsNothing(s1, steps[k + 1..], s, id);
    RunIsLater(s1, steps[k + 1..], s, id);
  }

  // ---- what clients and pumps may do ----

  /** Between two broadcasts the hub serves every request; at any time a client may be marked, a waiting
      message taken, and a reply sent into an open channel with room; a broadcast is offered to all. */
  lemma StepsAreOpen(steps: seq<Step>, s: State, id: nat, text: string)
    requires Run(START, steps, s)
    ensures s.todo == {} ==> Enabled(s, Broadcast(text)) && (id !in s.members ==> Enabled(s, Register(id, text)))
    ensures s.todo == {} && id in s.members ==> Enabled(s, Unregister(id))
    ensures id in s.members ==> Enabled(s, Flag(id)) && (s.members[id].queue != [] ==> Enabled(s, Take(id)))
    ensures id in s.clients ==> id in s.members && (|s.members[id].queue| < 256 ==> Enabled(s, Direct(id, text)))
    ensures id in s.todo ==> Enabled(s, Offer(id))
  {
    RunKeeps(START, steps, s);
    if id in s.clients {
      assert Fits(s, id);
    }
  }
}
