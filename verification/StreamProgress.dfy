/** Progress of the streaming calls, and exactly when a call can end in nil. */
module StreamProgress {
  import opened HandlerProgram
  import opened StreamProtocol
  import opened StreamSafety
  import opened StreamTheorems

  // ---- no deadlock ----

  lemma HandlerCanMove(s: State) returns (step: Step)
    requires Inv(s) && !s.crashed && s.main.Waiting? && s.cnt > 0
    ensures Enabled(s, step)
  {
    SumBounds(s.rest, 0);
    match s.sender
    case Holding(_) => step := SendOk;
    case Acked => step := SenderDone;
    case Broken => step := if CanPut(s) then SenderPut else TakeErr;
    case Finishing => assert false;
    case Exited(_) => step := TakeErr;
    case Idle =>
      var h := SumPositive(s.rest);
      var op := s.rest[h][0];
      step := if op.Panic? then CrashAt(h)
      else if op.Send? then HandOver(h)
      else if !op.Put? then Account(h)
      else if CanPut(s) then HandlerPut(h) else TakeErr;
  }

  lemma DrainCanMove(s: State) returns (step: Step)
    requires Inv(s) && !s.crashed && s.main.Draining?
    ensures Enabled(s, step)
  {
    SumBounds(s.rest, 0);
    step := if s.errBuf != [] then TakeErr else if s.sender.Idle? then SeeClose else SenderNil;
  }

  lemma CanMove(s: State) returns (step: Step)
    requires Inv(s) && !s.crashed && !s.main.Returned?
    ensures Enabled(s, step)
  {
    match s.main
    case Spawning(_) => step := Spawn;
    case Closing => step := CloseChan;
    case Draining => step := DrainCanMove(s);
    case Waiting =>
      if s.waiter.Fired? {
        step := TakeWaitDone;
      } else if s.cnt == 0 {
        step := WaitEnds;
      } else {
        step := HandlerCanMove(s);
      }
    case Listening =>
      match s.receiver {
        case Reading => step := RecvEof;
        case Offering(_) => step := Take;
        case Failing => step := ReceiverPut;
        case Closed => step := SeeEof;
        case Quit => assert false;
      }
  }

  /** Until the call returns or the process ends some goroutine can always take a step. */
  lemma NeverStuck(s: State) returns (step: Step)
    requires Reachable(s) && !s.crashed && !s.main.Returned?
    ensures Enabled(s, step)
  {
    ReachableInv(s);
    step := CanMove(s);
  }

  // ---- termination once the input has ended ----

  function OpsLeft(rest: seq<seq<Op>>): nat {
    if rest == [] then 0 else |rest[0]| + OpsLeft(rest[1..])
  }

  function SenderFuel(sender: SenderPc): nat {
    match sender
    case Holding(_) => 5
    case Acked => 4
    case Idle => 3
    case Broken => 2
    case Finishing => 2
    case Exited(_) => 0
  }

  function MainFuel(s: State): nat {
    match s.main
    case Spawning(plan) => 7 + 6 * |Program(s.mode, plan)|
    case Listening => 6
    case Waiting => 3
    case Closing => 2
    case Draining => 1
    case Returned(_) => 0
  }

  /** Bounds the number of steps the goroutines can still take together. */
  function Fuel(s: State): nat {
    6 * OpsLeft(s.rest) + SenderFuel(s.sender) + MainFuel(s) + |s.errBuf|
    + (if s.waiter.Blocked? then 1 else 0) + (if s.receiver.Failing? then 2 else 0) + (if s.crashed then 0 else 1)
  }

  predicate InputEnded(s: State) {
    !s.receiver.Reading? && !s.receiver.Offering?
  }

  lemma {:induction false} OpsUpdate(rest: seq<seq<Op>>, h: nat, r: seq<Op>)
    requires h < |rest|
    ensures OpsLeft(rest[h := r]) == OpsLeft(rest) - |rest[h]| + |r|
  {
    if h == 0 {
      assert rest[0 := r][1..] == rest[1..];
    } else {
      assert rest[h := r][1..] == rest[1..][h - 1 := r];
      OpsUpdate(rest[1..], h - 1, r);
    }
  }

  lemma {:induction false} OpsAppend(rest: seq<seq<Op>>, r: seq<Op>)
    ensures OpsLeft(rest + [r]) == OpsLeft(rest) + |r|
  {
    if rest == [] {
      assert (rest + [r])[1..] == [];
    } else {
      assert (rest + [r])[1..] == rest[1..] + [r];
      OpsAppend(rest[1..], r);
    }
  }

  lemma HandlerUsesFuel(s: State, step: Step)
    requires InputEnded(s) && Enabled(s, step)
    requires step.Account? || step.HandOver? || step.HandlerPut?
    ensures InputEnded(Apply(s, step)) && Fuel(Apply(s, step)) < Fuel(s)
  {
    OpsUpdate(s.rest, step.h, s.rest[step.h][1..]);
  }

  lemma OthersUseFuel(s: State, step: Step)
    requires InputEnded(s) && Enabled(s, step)
    requires !step.Account? && !step.HandOver? && !step.HandlerPut? && !step.Spawn? && !IsPut(step)
    ensures InputEnded(Apply(s, step)) && Fuel(Apply(s, step)) < Fuel(s)
  {
  }

  predicate IsPut(step: Step) {
    step.SenderPut? || step.SenderNil? || step.ReceiverPut?
  }

  lemma PutsUseFuel(s: State, step: Step)
    requires InputEnded(s) && Enabled(s, step) && IsPut(step)
    ensures InputEnded(Apply(s, step)) && Fuel(Apply(s, step)) < Fuel(s)
  {
  }

  /** After the input has ended every step of every goroutine uses up fuel. */
  lemma StepUsesFuel(s: State, step: Step)
    requires InputEnded(s) && Enabled(s, step)
    ensures InputEnded(Apply(s, step)) && Fuel(Apply(s, step)) < Fuel(s)
  {
    if step.Account? || step.HandOver? || step.HandlerPut? {
      HandlerUsesFuel(s, step);
    } else if step.Spawn? {
      OpsAppend(s.rest, Program(s.mode, s.main.plan));
    } else if IsPut(step) {
      PutsUseFuel(s, step);
    } else {
      OthersUseFuel(s, step);
    }
  }

  lemma {:induction false} RunUsesFuel(s: State, steps: seq<Step>, s': State)
    requires InputEnded(s) && Run(s, steps, s')
    ensures InputEnded(s') && Fuel(s') + |steps| <= Fuel(s)
    decreases |steps|
  {
    if steps != [] {
      StepUsesFuel(s, steps[0]);
      RunUsesFuel(Apply(s, steps[0]), steps[1..], s');
    }
  }

  /** Every run after the end of the input is finite, and when it can go no further the call has returned
      or a panic has ended the process. */
  lemma CallReturns(s: State, steps: seq<Step>, s': State)
    requires Reachable(s) && InputEnded(s) && Run(s, steps, s')
    ensures |steps| <= Fuel(s)
    ensures (forall step :: !Enabled(s', step)) ==> s'.main.Returned? || s'.crashed
  {
    RunUsesFuel(s, steps, s');
    ReachableRun(s, steps, s');
    if !s'.main.Returned? && !s'.crashed {
      var step := NeverStuck(s');
    }
  }

  // ---- when a call can return nil ----

  /** A request that fails early or panics. */
  predicate Obstructs(plan: Plan) {
    FailsEarly(plan) || plan.Crash?
  }

  /** Nothing has gone wrong yet that could stop the call from returning nil. */
  ghost predicate OnCourse(s: State) {
    && Inv(s) && InputEnded(s) && !s.crashed && !SendLost(s) && (s.first == [] || s.first == [Nil])
    && !s.main.Listening? && !s.main.Spawning?
    && (s.main.Returned? ==> s.main.result == Nil)
    && forall h | 0 <= h < |s.plans| :: !Obstructs(s.plans[h])
  }

  lemma LatePutHasNoToken(s: State, h: nat)
    requires Placed(s) && IsStream(s.mode) && At(s, h) && s.rest[h][0].Put? && !FailsEarly(s.plans[h])
    ensures Tokens(s.rest[h]) == 0
  {
    var plan := s.plans[h];
    var p := Program(s.mode, plan);
    assert s.rest[h][0] in p;
    if plan.Respond? && !plan.fails {
      NoPut(plan.extra);
    } else if plan.Respond? {
      assert s.rest[h] == [Put(ActionFailed)];
      assert s.rest[h][1..] == [];
    }
  }

  predicate Harmless(step: Step) {
    step.Account? || step.HandOver?
    || step in {SendOk, SenderDone, SeeClose, SenderNil, WaitEnds, TakeErr, TakeWaitDone, CloseChan}
  }

  lemma HarmlessStaysOnCourse(s: State, step: Step)
    requires OnCourse(s) && Enabled(s, step) && Harmless(step) && !s.main.Returned?
    ensures OnCourse(Apply(s, step)) && Apply(s, step).plans == s.plans && Apply(s, step).mode == s.mode
  {
    StepKeeps(s, step);
    assert step.TakeErr? ==> s.errBuf[0] == Nil by {
      if step.TakeErr? && s.mode.ServerStream? {
        assert s.errBuf == s.first;
      }
    }
  }

  lemma NextHandlerStep(s: State) returns (step: Step)
    requires OnCourse(s) && s.main.Waiting? && s.cnt > 0 && s.sender.Idle?
    ensures Enabled(s, step) && Harmless(step)
  {
    SumBounds(s.rest, 0);
    var h := SumPositive(s.rest);
    AtHandler(s, h);
    if s.rest[h][0].Put? {
      LatePutHasNoToken(s, h);
    }
    step := if s.rest[h][0].Send? then HandOver(h) else Account(h);
  }

  /** Schedules everything except the error reports of requests that failed on their last repetition. */
  lemma StayOnCourse(s: State) returns (step: Step)
    requires OnCourse(s) && !s.main.Returned?
    ensures Enabled(s, step) && Harmless(step)
  {
    SumBounds(s.rest, 0);
    if s.sender.Holding? {
      step := SendOk;
    } else if s.sender.Acked? {
      step := SenderDone;
    } else if s.main.Closing? {
      step := CloseChan;
    } else if s.main.Draining? {
      step := if s.errBuf != [] then TakeErr else if s.sender.Idle? then SeeClose else SenderNil;
    } else if s.waiter.Fired? {
      step := TakeWaitDone;
    } else if s.cnt == 0 {
      step := WaitEnds;
    } else {
      step := NextHandlerStep(s);
    }
  }

  lemma {:induction false} FinishWithNil(s: State) returns (steps: seq<Step>, s': State)
    requires OnCourse(s)
    ensures Run(s, steps, s') && s'.main == Returned(Nil) && s'.plans == s.plans && s'.mode == s.mode
    decreases Fuel(s)
  {
    if s.main.Returned? {
      steps, s' := [], s;
    } else {
      var step := StayOnCourse(s);
      HarmlessStaysOnCourse(s, step);
      StepUsesFuel(s, step);
      var more;
      more, s' := FinishWithNil(Apply(s, step));
      steps := [step] + more;
      assert steps[1..] == more;
    }
  }

  /** The BidiStream state in which exactly `plans` have been received and no handler has moved. */
  function Loaded(plans: seq<Plan>): State {
    if plans == [] then StartBidiStream()
    else WithHandler(Loaded(plans[..|plans| - 1]), plans[|plans| - 1])
  }

  predicate Receiving(s: State) {
    s.mode.BidiStream? && !s.crashed && s.main.Listening? && s.receiver.Reading?
  }

  lemma LoadOne(s: State, plan: Plan)
    requires Receiving(s)
    ensures Run(s, [Recv(plan), Take, Spawn], WithHandler(s, plan))
  {
    var s1 := s.(receiver := Offering(plan));
    var s2 := s.(main := Spawning(plan));
    var s3 := WithHandler(s, plan);
    assert Apply(s, Recv(plan)) == s1 && Apply(s1, Take) == s2 && Apply(s2, Spawn) == s3;
    assert [Recv(plan), Take, Spawn][1..] == [Take, Spawn];
    assert [Take, Spawn][1..] == [Spawn] && [Spawn][1..] == [];
    assert Run(s3, [], s3);
    assert Run(s2, [Spawn], s3);
    assert Run(s1, [Take, Spawn], s3);
  }

  lemma {:induction false} LoadAll(plans: seq<Plan>) returns (steps: seq<Step>)
    ensures Run(StartBidiStream(), steps, Loaded(plans))
    ensures Loaded(plans).plans == plans && Receiving(Loaded(plans))
    ensures Loaded(plans).first == [] && Loaded(plans).sender == Idle
  {
    if plans == [] {
      steps := [];
    } else {
      var front, plan := plans[..|plans| - 1], plans[|plans| - 1];
      assert front + [plan] == plans;
      steps := LoadAll(front);
      LoadOne(Loaded(front), plan);
      Glue(StartBidiStream(), steps, Loaded(front), [Recv(plan), Take, Spawn], Loaded(plans));
      steps := steps + [Recv(plan), Take, Spawn];
    }
  }

  lemma InputCloses(s: State) returns (s': State)
    requires Inv(s) && Receiving(s)
    ensures s' == s.(receiver := Closed) && Inv(s') && Run(s, [RecvEof], s')
  {
    s' := s.(receiver := Closed);
    assert Apply(s, RecvEof) == s';
    StepKeeps(s, RecvEof);
    assert [RecvEof][1..] == [];
  }

  lemma MainSeesEof(s: State) returns (s': State)
    requires Inv(s) && !s.crashed && s.main.Listening? && s.receiver.Closed?
    ensures s' == s.(main := Waiting, waiter := Blocked) && Inv(s') && Run(s, [SeeEof], s')
  {
    s' := s.(main := Waiting, waiter := Blocked);
    assert Apply(s, SeeEof) == s';
    StepKeeps(s, SeeEof);
    assert [SeeEof][1..] == [];
  }

  /** Ends the input of a freshly loaded call. */
  lemma EndInput(s: State) returns (s1: State, s2: State)
    requires Inv(s) && Receiving(s) && s.first == [] && s.sender == Idle
    requires forall h | 0 <= h < |s.plans| :: !Obstructs(s.plans[h])
    ensures Run(s, [RecvEof], s1) && Run(s1, [SeeEof], s2)
    ensures OnCourse(s2) && s2.plans == s.plans && s2.mode == s.mode
  {
    s1 := InputCloses(s);
    s2 := MainSeesEof(s1);
  }

  ghost predicate CanReturnNil(mode: Mode, plans: seq<Plan>) {
    exists s :: Reachable(s) && s.mode == mode && s.plans == plans && s.main == Returned(Nil)
  }

  lemma StartOnCourse(plan: Plan) returns (s: State)
    requires !Obstructs(plan)
    ensures s == StartServerStream(plan) && s.mode.ServerStream? && s.plans == [plan] && Init(s) && OnCourse(s)
  {
    s := StartServerStream(plan);
    InitHolds(s);
  }

  lemma ServerStreamNil(plan: Plan)
    requires !Obstructs(plan)
    ensures CanReturnNil(ServerStream, [plan])
  {
    var s0 := StartOnCourse(plan);
    var steps, s := FinishWithNil(s0);
    assert Run(s0, steps, s);
    assert Reachable(s);
  }

  lemma FinishLoaded(s: State)
    requires Reachable(s) && Receiving(s) && s.first == [] && s.sender == Idle
    requires forall h | 0 <= h < |s.plans| :: !Obstructs(s.plans[h])
    ensures CanReturnNil(BidiStream, s.plans)
  {
    ReachableInv(s);
    var s1, s2 := EndInput(s);
    ReachableRun(s, [RecvEof], s1);
    ReachableRun(s1, [SeeEof], s2);
    var steps, s3 := FinishWithNil(s2);
    ReachableRun(s2, steps, s3);
  }

  lemma BidiStreamNil(plans: seq<Plan>)
    requires forall h | 0 <= h < |plans| :: !Obstructs(plans[h])
    ensures CanReturnNil(BidiStream, plans)
  {
    var steps := LoadAll(plans);
    assert Reachable(Loaded(plans));
    FinishLoaded(Loaded(plans));
  }

  /** A call can end in nil exactly when no request panics or fails before its last repetition:
      an error on the last repetition can be overtaken by the end of the call. */
  lemma NilIff(mode: Mode, plans: seq<Plan>)
    requires IsStream(mode) && (mode.ServerStream? ==> |plans| == 1)
    ensures CanReturnNil(mode, plans) <==> forall h | 0 <= h < |plans| :: !Obstructs(plans[h])
  {
    if CanReturnNil(mode, plans) {
      var s :| Reachable(s) && s.mode == mode && s.plans == plans && s.main == Returned(Nil);
      NilMeansComplete(s);
    }
    if forall h | 0 <= h < |plans| :: !Obstructs(plans[h]) {
      if mode.BidiStream? {
        BidiStreamNil(plans);
      } else {
        ServerStreamNil(plans[0]);
        assert plans == [plans[0]];
      }
    }
  }

  /** A single failing response in ServerStream: the run in which the client sees nil. */
  lemma LateFailureCanBeOvertaken()
    ensures CanReturnNil(ServerStream, [Respond(0, true)])
  {
    NilIff(ServerStream, [Respond(0, true)]);
  }
}
