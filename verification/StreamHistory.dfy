/** What a call has received and what it returns, told by the steps of its run alone. */
module StreamHistory {
  import opened HandlerProgram
  import opened StreamProtocol
  import opened StreamSafety
  import opened StreamTheorems

  // ---- the input of BidiStream ----

  /** The requests that Recv has returned in these steps. */
  function Received(steps: seq<Step>): seq<Plan> {
    if steps == [] then []
    else (if steps[0].Recv? then [steps[0].plan] else []) + Received(steps[1..])
  }

  /** The requests of handlers, of the main loop and of the receiver, in the order of their arrival. */
  function Requests(s: State): seq<Plan> {
    s.plans
    + (if s.main.Spawning? then [s.main.plan] else [])
    + (if s.receiver.Offering? then [s.receiver.plan] else [])
  }

  lemma RequestsStep(s: State, step: Step)
    requires Enabled(s, step) && s.mode.BidiStream?
    ensures Apply(s, step).mode.BidiStream?
    ensures Requests(Apply(s, step)) == Requests(s) + if step.Recv? then [step.plan] else []
  {
  }

  /** No request is lost, made up or reordered on its way from Recv to its handler. */
  lemma {:induction false} RequestsAlong(s: State, steps: seq<Step>, s': State)
    requires s.mode.BidiStream? && Run(s, steps, s')
    ensures Requests(s') == Requests(s) + Received(steps)
    decreases |steps|
  {
    if steps != [] {
      var step := steps[0];
      RequestsStep(s, step);
      RequestsAlong(Apply(s, step), steps[1..], s');
    }
  }

  predicate RecvFailedIn(s: State) {
    s.receiver.Failing? || s.receiver.Quit?
  }

  lemma ReceiverStep(s: State, step: Step)
    requires Enabled(s, step)
    ensures Apply(s, step).receiver.Closed? <==> s.receiver.Closed? || step.RecvEof?
    ensures RecvFailedIn(Apply(s, step)) <==> RecvFailedIn(s) || step.RecvErr?
  {
  }

  /** The receiver has closed recvChan exactly when Recv has met the end of the input, and has failed
      exactly when a Recv has. */
  lemma {:induction false} ReceiverAlong(s: State, steps: seq<Step>, s': State)
    requires Run(s, steps, s')
    ensures s'.receiver.Closed? <==> s.receiver.Closed? || RecvEof in steps
    ensures RecvFailedIn(s') <==> RecvFailedIn(s) || RecvErr in steps
    decreases |steps|
  {
    if steps != [] {
      ReceiverStep(s, steps[0]);
      ReceiverAlong(Apply(s, steps[0]), steps[1..], s');
      assert steps == [steps[0]] + steps[1..];
    }
  }

  /** In every run the requests that are known anywhere are exactly those received. */
  lemma RequestsAreReceived(steps: seq<Step>, s: State)
    requires Run(StartBidiStream(), steps, s)
    ensures Requests(s) == Received(steps)
  {
    RequestsAlong(StartBidiStream(), steps, s);
    assert Requests(StartBidiStream()) == [];
    assert [] + Received(steps) == Received(steps);
  }

  lemma AllSpawned(s: State)
    requires s.main.Returned? && s.receiver.Closed?
    ensures Requests(s) == s.plans
  {
    assert s.plans + [] + [] == s.plans;
  }

  /** A BidiStream call that returns nil has met the end of its input and no failed Recv, and what it
      has answered are exactly the requests it has received. */
  lemma NilHistory(steps: seq<Step>, s: State)
    requires Run(StartBidiStream(), steps, s) && s.main == Returned(Nil)
    ensures RecvEof in steps && RecvErr !in steps
    ensures s.plans == Received(steps)
    ensures |s.sent| == TotalResponses(Received(steps))
    ensures forall h | 0 <= h < |s.plans| :: Count(s.sent, h) == Responses(Received(steps)[h])
  {
    assert Reachable(s);
    NilMeansComplete(s);
    ReceiverAlong(StartBidiStream(), steps, s);
    RequestsAreReceived(steps, s);
    AllSpawned(s);
  }

  // ---- a failed Recv ----

  lemma FailedRecvStep(s: State, step: Step)
    requires Inv(s) && RecvFailedIn(s) && !s.sendClosed && s.main != Returned(Nil) && Enabled(s, step)
    ensures RecvFailedIn(Apply(s, step)) && !Apply(s, step).sendClosed && Apply(s, step).main != Returned(Nil)
  {
    StepKeeps(s, step);
  }

  lemma {:induction false} FailedRecvAlong(s: State, steps: seq<Step>, s': State)
    requires Inv(s) && RecvFailedIn(s) && !s.sendClosed && s.main != Returned(Nil) && Run(s, steps, s')
    ensures Inv(s') && RecvFailedIn(s') && !s'.sendClosed && s'.main != Returned(Nil)
    decreases |steps|
  {
    if steps != [] {
      FailedRecvStep(s, steps[0]);
      StepKeeps(s, steps[0]);
      FailedRecvAlong(Apply(s, steps[0]), steps[1..], s');
    }
  }

  /** After a failed Recv, for ever: sendChan is not closed and the call does not return nil. */
  lemma FailedRecvPreventsNil(s: State, steps: seq<Step>, s': State)
    requires Reachable(s) && Enabled(s, RecvErr) && Run(Apply(s, RecvErr), steps, s')
    ensures !s'.sendClosed && s'.main != Returned(Nil)
  {
    ReachableInv(s);
    StepKeeps(s, RecvErr);
    FailedRecvAlong(Apply(s, RecvErr), steps, s');
  }

  // ---- where a result comes from ----

  predicate AnyFails(plans: seq<Plan>) {
    exists h :: 0 <= h < |plans| && plans[h].Respond? && plans[h].fails
  }

  /** Every result has its cause: an action that fails, a Send that was lost, a Recv that failed; or the
      regular end. */
  lemma ResultHasCause(s: State)
    requires Reachable(s) && s.main.Returned?
    ensures match s.main.result
      case Nil => s.sendClosed && s.receiver.Closed?
      case ActionFailed => AnyFails(s.plans)
      case SendFailed => SendLost(s)
      case RecvFailed => RecvFailedIn(s)
  {
    ReachableInv(s);
  }

  /** So a call in which nothing but a Recv fails returns that failure. */
  lemma FailedRecvIsReturned(steps: seq<Step>, s: State)
    requires Run(StartBidiStream(), steps, s) && s.main.Returned?
    requires RecvErr in steps && !SendLost(s) && !AnyFails(s.plans)
    ensures s.main.result == RecvFailed
  {
    assert Reachable(s);
    ReceiverAlong(StartBidiStream(), steps, s);
    ResultHasCause(s);
  }

  // ---- what the outside world may do ----

  /** While the process lives, a pending Recv may return a request, the end of the input or an error, and a
      pending Send may succeed or fail. */
  lemma OutcomesAreOpen(s: State, plan: Plan)
    requires !s.crashed
    ensures s.receiver.Reading? ==> Enabled(s, Recv(plan)) && Enabled(s, RecvEof) && Enabled(s, RecvErr)
    ensures s.sender.Holding? ==> Enabled(s, SendOk) && Enabled(s, SendErr)
  {
  }

  /** A value can be put on errChan while its one place is free in ServerStream, while the main loop looks in
      BidiStream. */
  predicate ErrChanFree(s: State) {
    if s.mode.ServerStream? then |s.errBuf| < 1 else s.main.Listening? || s.main.Waiting? || s.main.Closing?
  }

  /** A handler waits for nothing but an idle sender, with a response, and errChan, with an error; for a
      response sendChan has then not been closed. */
  lemma HandlersCanStep(s: State, h: nat)
    requires Reachable(s) && !s.crashed && At(s, h)
    ensures match s.rest[h][0]
      case Add => Enabled(s, Account(h))
      case Done => Enabled(s, Account(h))
      case Send => s.sender.Idle? ==> Enabled(s, HandOver(h))
      case Put(_) => ErrChanFree(s) ==> Enabled(s, HandlerPut(h))
      case Panic => Enabled(s, CrashAt(h))
  {
    ReachableInv(s);
    CloseIsSafe(s);
  }

  /** Sender and receiver wait for nothing but messages, the end of their input, and errChan. */
  lemma SenderCanStep(s: State)
    requires !s.crashed
    ensures s.sender.Acked? ==> Enabled(s, SenderDone)
    ensures s.sender.Idle? && s.sendClosed ==> Enabled(s, SeeClose)
    ensures ErrChanFree(s) ==>
              && (s.sender.Broken? ==> Enabled(s, SenderPut)) && (s.sender.Finishing? ==> Enabled(s, SenderNil))
              && (s.receiver.Failing? ==> Enabled(s, ReceiverPut))
  {
  }

  /** The main loop takes whichever comes: a request, the end of the input, an error, the end of the wait. */
  lemma MainCanStep(s: State)
    requires !s.crashed
    ensures s.main.Listening? && s.receiver.Offering? ==> Enabled(s, Take)
    ensures s.main.Listening? && s.receiver.Closed? ==> Enabled(s, SeeEof)
    ensures s.main.Spawning? ==> Enabled(s, Spawn)
    ensures s.main.Waiting? && s.waiter.Fired? ==> Enabled(s, TakeWaitDone)
    ensures s.main.Closing? ==> Enabled(s, CloseChan)
    ensures s.main.Waiting? || s.main.Draining? ==> (s.errBuf != [] ==> Enabled(s, TakeErr))
    ensures s.waiter.Blocked? && s.cnt == 0 ==> Enabled(s, WaitEnds)
  {
  }

  /** A BidiStream call whose first Recv fails does return that error. */
  lemma FailedRecvCanBeReturned() returns (steps: seq<Step>, s: State)
    ensures steps == [RecvErr, ReceiverPut]
    ensures Run(StartBidiStream(), steps, s) && s.main == Returned(RecvFailed)
  {
    var s1 := Apply(StartBidiStream(), RecvErr);
    s := Apply(s1, ReceiverPut);
    steps := [RecvErr, ReceiverPut];
    assert steps[1..] == [ReceiverPut] && [ReceiverPut][1..] == [];
    assert Run(s1, [ReceiverPut], s);
  }
}
