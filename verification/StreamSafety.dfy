/** Every step keeps the invariant of StreamProtocol, hence so does every run. */
module StreamSafety {
  import opened HandlerProgram
  import opened StreamProtocol

  lemma {:induction false} SumUpdate(rest: seq<seq<Op>>, h: nat, r: seq<Op>)
    requires h < |rest|
    ensures SumTokens(rest[h := r]) == SumTokens(rest) - Tokens(rest[h]) + Tokens(r)
  {
    if h == 0 {
      assert rest[0 := r][1..] == rest[1..];
    } else {
      assert rest[h := r][1..] == rest[1..][h - 1 := r];
      SumUpdate(rest[1..], h - 1, r);
    }
  }

  lemma {:induction false} SumAppend(rest: seq<seq<Op>>, r: seq<Op>)
    ensures SumTokens(rest + [r]) == SumTokens(rest) + Tokens(r)
  {
    if rest == [] {
      assert (rest + [r])[1..] == [];
    } else {
      assert (rest + [r])[1..] == rest[1..] + [r];
      SumAppend(rest[1..], r);
    }
  }

  lemma {:induction false} SumBounds(rest: seq<seq<Op>>, h: nat)
    requires forall r | r in rest :: Sound(r)
    ensures SumTokens(rest) >= 0
    ensures h < |rest| ==> 0 <= Tokens(rest[h]) <= SumTokens(rest)
  {
    if rest != [] {
      SoundTokens(rest[0]);
      SumBounds(rest[1..], if h == 0 then 0 else h - 1);
    }
  }

  lemma SumPositive(rest: seq<seq<Op>>) returns (h: nat)
    requires forall r | r in rest :: Sound(r)
    requires SumTokens(rest) > 0
    ensures h < |rest| && Tokens(rest[h]) > 0
  {
    if Tokens(rest[0]) > 0 {
      h := 0;
    } else {
      var k := SumPositive(rest[1..]);
      h := k + 1;
    }
  }

  /** Where one handler stands when it executes its next operation. */
  lemma AtHandler(s: State, h: nat)
    requires Placed(s) && Accounted(s) && IsStream(s.mode) && At(s, h)
    ensures var op, tail := s.rest[h][0], s.rest[h][1..];
      && Sound(tail) && IsTail(tail, Program(s.mode, s.plans[h]))
      && Tokens(s.rest[h]) == Weight(op) + Tokens(tail)
      && Sends(s.rest[h]) == (if op.Send? then 1 else 0) + Sends(tail)
      && SumTokens(s.rest[h := tail]) == SumTokens(s.rest) - Weight(op)
      && (!op.Put? ==> s.cnt >= 1) && (op.Panic? <==> s.plans[h].Crash?)
      && (op.Put? ==> op.value == ActionFailed)
      && (FailsEarly(s.plans[h]) && op.Put? ==> s.cnt >= 1)
      && (op.Put? ==> s.plans[h].Respond? && s.plans[h].fails)
      && SumTokens(s.rest[h := tail]) >= 0
  {
    var tail := s.rest[h][1..];
    var p := Program(s.mode, s.plans[h]);
    assert tail == p[|p| - |tail|..];
    SumUpdate(s.rest, h, tail);
    SumBounds(s.rest, h);
    SumBounds(s.rest[h := tail], h);
    assert s.rest[h][0] in p;
    PanicsIff(s.mode, s.plans[h], s.rest[h][0]);
    if s.rest[h][0].Put? {
      if s.plans[h].Respond? && !s.plans[h].fails {
        NoPut(s.plans[h].extra);
      } else if FailsEarly(s.plans[h]) {
        assert s.rest[h] == p;
        ProgramShape(s.mode, s.plans[h]);
      }
    }
  }

  lemma PanicsIff(mode: Mode, plan: Plan, op: Op)
    requires op in Program(mode, plan)
    ensures op.Panic? <==> plan.Crash?
  {
    if plan.Respond? {
      NoPut(plan.extra);
    }
  }

  lemma {:induction false} NoPut(n: nat)
    ensures forall op | op in Repetitions(n) + [Send] :: !op.Put? && !op.Panic?
  {
    if n > 0 {
      NoPut(n - 1);
    }
  }

  lemma CountAppend(sent: seq<Msg>, m: Msg, h: nat)
    ensures Count(sent + [m], h) == Count(sent, h) + (if m.req == h then 1 else 0)
  {
    assert (sent + [m])[..|sent|] == sent;
  }

  lemma {:induction false} CountFresh(sent: seq<Msg>, h: nat)
    requires forall i | 0 <= i < |sent| :: sent[i].req < h
    ensures Count(sent, h) == 0
  {
    if sent != [] {
      CountFresh(sent[..|sent| - 1], h);
    }
  }

  /** Moving one handler past its next operation keeps every handler inside its own program. */
  lemma AdvanceKeeps(s: State, h: nat)
    requires Placed(s) && Accounted(s) && IsStream(s.mode) && At(s, h) && !s.rest[h][0].Panic?
    ensures Placed(Advance(s, h))
  {
    AtHandler(s, h);
    ReplacedIn(s.mode, s.plans, s.rest, h, s.rest[h][1..]);
  }

  lemma ReplacedIn(mode: Mode, plans: seq<Plan>, rest: seq<seq<Op>>, h: nat, r: seq<Op>)
    requires PlacedIn(mode, plans, rest) && h < |rest|
    requires Sound(r) && IsTail(r, Program(mode, plans[h])) && !plans[h].Crash?
    ensures PlacedIn(mode, plans, rest[h := r])
  {
    var next := rest[h := r];
    forall k | 0 <= k < |next|
      ensures Sound(next[k]) && IsTail(next[k], Program(mode, plans[k])) && (plans[k].Crash? ==> next[k] != [])
    {
      assert k != h ==> next[k] == rest[k];
    }
  }

  /** An operation that reports nothing leaves the reports as they are. */
  lemma AdvanceReports(s: State, h: nat)
    requires Placed(s) && Reported(s) && IsStream(s.mode) && At(s, h) && !s.rest[h][0].Put?
    ensures Reported(Advance(s, h))
  {
    var a := Advance(s, h);
    forall k | 0 <= k < |a.rest| && FailsEarly(s.plans[k]) && |a.rest[k]| < 2
      ensures s.first != [] && s.first[0] != Nil
    {
      if k == h {
        AfterTheReport(s.mode, s.plans[h], s.rest[h]);
      }
      assert |s.rest[k]| < 2;
    }
  }

  lemma AfterTheReport(mode: Mode, plan: Plan, r: seq<Op>)
    requires FailsEarly(plan) && IsTail(r, Program(mode, plan)) && r != [] && !r[0].Put?
    ensures |r| < 2
  {
    var p := Program(mode, plan);
    assert p == [Put(ActionFailed), Done];
    assert p[0..] == p;
  }

  /** An operation that hands nothing over leaves the messages as they are. */
  lemma AdvanceDelivers(s: State, h: nat)
    requires Placed(s) && Accounted(s) && Delivered(s) && IsStream(s.mode) && At(s, h) && !s.rest[h][0].Send?
    ensures Delivered(Advance(s, h))
  {
    AtHandler(s, h);
    var a := Advance(s, h);
    forall k | 0 <= k < |s.plans| ensures Sends(a.rest[k]) == Sends(s.rest[k]) {
    }
  }

  lemma AccountKeeps(s: State, h: nat)
    requires Inv(s) && Enabled(s, Account(h))
    ensures Inv(Apply(s, Account(h)))
  {
    AtHandler(s, h);
    AdvanceKeeps(s, h);
    AdvanceReports(s, h);
    AdvanceDelivers(s, h);
    var a, s' := Advance(s, h), Apply(s, Account(h));
    assert s' == a.(cnt := s'.cnt);
    OtherCount(a, s'.cnt);
  }

  /** The count alone matters for the accounting and the phases only. */
  lemma OtherCount(s: State, cnt: nat)
    ensures Placed(s) ==> Placed(s.(cnt := cnt))
    ensures Reported(s) ==> Reported(s.(cnt := cnt))
    ensures Delivered(s) ==> Delivered(s.(cnt := cnt))
  {
  }

  lemma HandOverDelivers(s: State, h: nat)
    requires Placed(s) && Accounted(s) && Delivered(s) && IsStream(s.mode) && Enabled(s, HandOver(h))
    ensures Delivered(Apply(s, HandOver(h)))
  {
    var s' := Apply(s, HandOver(h));
    HandedOver(s, h, s');
    forall k | 0 <= k < |s.plans|
      ensures Known(s'.rest, s'.sent, s'.sender, k) == Known(s.rest, s.sent, s.sender, k)
    {
    }
  }

  /** The message that is handed over has the number of those already sent. */
  lemma HandedOver(s: State, h: nat, s': State)
    requires Placed(s) && Accounted(s) && Delivered(s) && IsStream(s.mode) && Enabled(s, HandOver(h))
    requires s' == Apply(s, HandOver(h))
    ensures Sends(s'.rest[h]) == Sends(s.rest[h]) - 1
    ensures s'.sender == Holding(Msg(h, Count(s.sent, h)))
  {
    AtHandler(s, h);
    ProgramShape(s.mode, s.plans[h]);
    assert Responses(s.plans[h]) == Known(s.rest, s.sent, s.sender, h);
  }

  lemma HandOverReports(s: State, h: nat)
    requires Placed(s) && Reported(s) && IsStream(s.mode) && Enabled(s, HandOver(h))
    ensures Reported(Apply(s, HandOver(h)))
  {
    AdvanceReports(s, h);
  }

  lemma HandOverKeeps(s: State, h: nat)
    requires Inv(s) && Enabled(s, HandOver(h))
    ensures Inv(Apply(s, HandOver(h)))
  {
    AtHandler(s, h);
    AdvanceKeeps(s, h);
    HandOverReports(s, h);
    HandOverDelivers(s, h);
  }

  lemma HandlerPutReports(s: State, h: nat)
    requires Placed(s) && Accounted(s) && Phased(s) && Reported(s) && Enabled(s, HandlerPut(h))
    ensures Reported(Apply(s, HandlerPut(h)))
  {
    AtHandler(s, h);
    if s.mode.ServerStream? {
      BufferedPutReports(s, h);
    } else {
      ReceivedPutReports(s, h);
    }
  }

  lemma BufferedPutReports(s: State, h: nat)
    requires Placed(s) && Phased(s) && Reported(s) && Enabled(s, HandlerPut(h)) && s.mode.ServerStream?
    requires s.rest[h][0].value == ActionFailed && s.plans[h].Respond? && s.plans[h].fails
    requires FailsEarly(s.plans[h]) ==> s.cnt >= 1
    ensures Reported(Apply(s, HandlerPut(h)))
  {
  }

  lemma ReceivedPutReports(s: State, h: nat)
    requires Placed(s) && Phased(s) && Reported(s) && Enabled(s, HandlerPut(h)) && s.mode.BidiStream?
    requires s.rest[h][0].value == ActionFailed && s.plans[h].Respond? && s.plans[h].fails
    requires FailsEarly(s.plans[h]) ==> s.cnt >= 1
    ensures Reported(Apply(s, HandlerPut(h)))
  {
  }

  lemma HandlerPutPhases(s: State, h: nat)
    requires Phased(s) && Enabled(s, HandlerPut(h))
    ensures Phased(Apply(s, HandlerPut(h)))
  {
  }

  lemma HandlerPutDelivers(s: State, h: nat)
    requires Placed(s) && Accounted(s) && Delivered(s) && IsStream(s.mode) && Enabled(s, HandlerPut(h))
    ensures Delivered(Apply(s, HandlerPut(h)))
  {
    AdvanceDelivers(s, h);
  }

  lemma HandlerPutKeeps(s: State, h: nat)
    requires Inv(s) && Enabled(s, HandlerPut(h))
    ensures Inv(Apply(s, HandlerPut(h)))
  {
    HandlerPutReports(s, h);
    HandlerPutPhases(s, h);
    HandlerPutDelivers(s, h);
    HandlerPutPlaced(s, h);
  }

  lemma HandlerPutPlaced(s: State, h: nat)
    requires Placed(s) && Accounted(s) && IsStream(s.mode) && Enabled(s, HandlerPut(h))
    ensures Placed(Apply(s, HandlerPut(h))) && Accounted(Apply(s, HandlerPut(h)))
  {
    AdvanceKeeps(s, h);
    AtHandler(s, h);
  }

  lemma SendOkDelivers(s: State)
    requires Placed(s) && Delivered(s) && Enabled(s, SendOk)
    ensures Delivered(Apply(s, SendOk))
  {
    var m, s' := s.sender.msg, Apply(s, SendOk);
    forall h | 0 <= h < |s.plans|
      ensures Count(s'.sent, h) + Held(s'.sender, h) == Count(s.sent, h) + Held(s.sender, h)
    {
      CountAppend(s.sent, m, h);
    }
    assert s'.sent[..|s.sent|] == s.sent;
    forall i | 0 <= i < |s.sent| ensures s'.sent[..i] == s.sent[..i] && s'.sent[i] == s.sent[i] {}
  }

  lemma SendOkKeeps(s: State)
    requires Inv(s) && Enabled(s, SendOk)
    ensures Inv(Apply(s, SendOk))
  {
    SendOkDelivers(s);
    assert Placed(Apply(s, SendOk));
  }

  lemma SendErrKeeps(s: State)
    requires Inv(s) && Enabled(s, SendErr)
    ensures Inv(Apply(s, SendErr))
  {
  }

  lemma SenderDoneKeeps(s: State)
    requires Inv(s) && Enabled(s, SenderDone)
    ensures Inv(Apply(s, SenderDone))
  {
    SumBounds(s.rest, 0);
  }

  lemma SenderPutKeeps(s: State)
    requires Inv(s) && Enabled(s, SenderPut)
    ensures Inv(Apply(s, SenderPut))
  {
    SumBounds(s.rest, 0);
  }

  lemma SeeCloseKeeps(s: State)
    requires Inv(s) && Enabled(s, SeeClose)
    ensures Inv(Apply(s, SeeClose))
  {
  }

  lemma SenderNilKeeps(s: State)
    requires Inv(s) && Enabled(s, SenderNil)
    ensures Inv(Apply(s, SenderNil))
  {
  }

  lemma ReceiverKeeps(s: State, step: Step)
    requires Inv(s) && Enabled(s, step)
    requires step.Recv? || step in {RecvEof, RecvErr, ReceiverPut}
    ensures Inv(Apply(s, step))
  {
  }

  lemma OneMore(mode: Mode, plans: seq<Plan>, rest: seq<seq<Op>>, plan: Plan)
    requires PlacedIn(mode, plans, rest) && IsStream(mode)
    ensures PlacedIn(mode, plans + [plan], rest + [Program(mode, plan)])
    ensures SumTokens(rest + [Program(mode, plan)]) == SumTokens(rest) + 1
  {
    ProgramShape(mode, plan);
    SumAppend(rest, Program(mode, plan));
  }

  lemma SpawnPlaced(s: State)
    requires Placed(s) && Accounted(s) && Phased(s) && Enabled(s, Spawn)
    ensures Placed(Apply(s, Spawn)) && Accounted(Apply(s, Spawn))
  {
    OneMore(s.mode, s.plans, s.rest, s.main.plan);
  }

  lemma SpawnPhases(s: State)
    requires Phased(s) && Enabled(s, Spawn)
    ensures Phased(Apply(s, Spawn))
  {
  }

  lemma SpawnReports(s: State)
    requires Placed(s) && Phased(s) && Reported(s) && Enabled(s, Spawn)
    ensures Reported(Apply(s, Spawn))
  {
    var plan := s.main.plan;
    assert FailsEarly(plan) ==> |Program(s.mode, plan)| == 2;
  }

  lemma SpawnDelivers(s: State)
    requires Placed(s) && Phased(s) && Delivered(s) && Enabled(s, Spawn)
    ensures Delivered(Apply(s, Spawn))
  {
    ProgramShape(s.mode, s.main.plan);
    CountFresh(s.sent, |s.plans|);
  }

  lemma SpawnKeeps(s: State)
    requires Inv(s) && Enabled(s, Spawn)
    ensures Inv(Apply(s, Spawn))
  {
    SpawnPlaced(s);
    SpawnPhases(s);
    SpawnReports(s);
    SpawnDelivers(s);
  }

  lemma MainKeeps(s: State, step: Step)
    requires Inv(s) && Enabled(s, step) && step in {Take, SeeEof, WaitEnds}
    ensures Inv(Apply(s, step))
  {
  }

  lemma MainEndKeeps(s: State, step: Step)
    requires Inv(s) && Enabled(s, step) && step in {TakeErr, TakeWaitDone, CloseChan}
    ensures Inv(Apply(s, step))
  {
  }

  lemma CrashKeeps(s: State, h: nat)
    requires Inv(s) && Enabled(s, CrashAt(h))
    ensures Inv(Apply(s, CrashAt(h)))
  {
    var s' := Apply(s, CrashAt(h));
    assert Placed(s') && Accounted(s') && Phased(s');
    assert Reported(s') && Delivered(s');
  }

  predicate IsSenderStep(step: Step) {
    step in {SendOk, SendErr, SenderDone, SenderPut, SeeClose, SenderNil}
  }

  lemma SenderKeeps(s: State, step: Step)
    requires Inv(s) && Enabled(s, step) && IsSenderStep(step)
    ensures Inv(Apply(s, step))
  {
    match step
    case SendOk => SendOkKeeps(s);
    case SendErr => SendErrKeeps(s);
    case SenderDone => SenderDoneKeeps(s);
    case SenderPut => SenderPutKeeps(s);
    case SeeClose => SeeCloseKeeps(s);
    case SenderNil => SenderNilKeeps(s);
  }

  lemma HandlerKeeps(s: State, step: Step)
    requires Inv(s) && Enabled(s, step)
    requires step.Account? || step.HandOver? || step.HandlerPut? || step.CrashAt?
    ensures Inv(Apply(s, step))
  {
    match step
    case Account(h) => AccountKeeps(s, h);
    case HandOver(h) => HandOverKeeps(s, h);
    case HandlerPut(h) => HandlerPutKeeps(s, h);
    case CrashAt(h) => CrashKeeps(s, h);
  }

  lemma StepKeeps(s: State, step: Step)
    requires Inv(s) && Enabled(s, step)
    ensures Inv(Apply(s, step))
  {
    if step.Account? || step.HandOver? || step.HandlerPut? || step.CrashAt? {
      HandlerKeeps(s, step);
    } else if IsSenderStep(step) {
      SenderKeeps(s, step);
    } else if step.Recv? || step in {RecvEof, RecvErr, ReceiverPut} {
      ReceiverKeeps(s, step);
    } else if step.Spawn? {
      SpawnKeeps(s);
    } else if step in {Take, SeeEof, WaitEnds} {
      MainKeeps(s, step);
    } else {
      MainEndKeeps(s, step);
    }
  }
}
