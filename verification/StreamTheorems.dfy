/** What the invariant means for whole ServerStream and BidiStream calls, over all interleavings. */
module StreamTheorems {
  import opened HandlerProgram
  import opened StreamProtocol
  import opened StreamSafety

  lemma {:induction false} InvAlong(s: State, steps: seq<Step>, s': State)
    requires Inv(s) && Run(s, steps, s')
    ensures Inv(s')
    decreases |steps|
  {
    if steps != [] {
      StepKeeps(s, steps[0]);
      InvAlong(Apply(s, steps[0]), steps[1..], s');
    }
  }

  lemma InitHolds(s: State)
    requires Init(s)
    ensures Inv(s)
  {
    if s.mode.ServerStream? {
      ProgramShape(s.mode, s.plans[0]);
      assert s.rest == [Program(s.mode, s.plans[0])];
      assert s.rest[1..] == [];
    }
  }

  lemma ReachableInv(s: State)
    requires Reachable(s)
    ensures Inv(s)
  {
    var s0, steps :| Init(s0) && Run(s0, steps, s);
    InitHolds(s0);
    InvAlong(s0, steps, s);
  }

  // ---- closing sendChan ----

  /** sendChan is closed only when every token is back: nothing but error reports is left in
      any handler, so no handler can send on, or take a token for, the closed channel. */
  lemma CloseIsSafe(s: State)
    requires Reachable(s)
    ensures s.cnt == SumTokens(s.rest) + SenderTokens(s.sender)
    ensures s.sendClosed ==> s.cnt == 0 && SenderTokens(s.sender) == 0
    ensures s.sendClosed ==> forall h, op | 0 <= h < |s.rest| && op in s.rest[h] :: op.Put?
  {
    ReachableInv(s);
    SumBounds(s.rest, 0);
    if s.sendClosed {
      forall h, op | 0 <= h < |s.rest| && op in s.rest[h] ensures op.Put? {
        SumBounds(s.rest, h);
        SoundTokens(s.rest[h]);
      }
    }
  }

  lemma {:induction false} Glue(a: State, steps: seq<Step>, b: State, more: seq<Step>, c: State)
    requires Run(a, steps, b) && Run(b, more, c)
    ensures Run(a, steps + more, c)
    decreases |steps|
  {
    if steps == [] {
      assert steps + more == more;
    } else {
      Glue(Apply(a, steps[0]), steps[1..], b, more, c);
      assert (steps + more)[1..] == steps[1..] + more;
    }
  }

  lemma ReachableRun(s: State, steps: seq<Step>, s': State)
    requires Reachable(s) && Run(s, steps, s')
    ensures Reachable(s')
  {
    var s0, before :| Init(s0) && Run(s0, before, s);
    Glue(s0, before, s, steps, s');
  }

  lemma ReachableStep(s: State, step: Step)
    requires Reachable(s) && Enabled(s, step)
    ensures Reachable(Apply(s, step))
  {
    assert [step][1..] == [];
    ReachableRun(s, [step], Apply(s, step));
  }

  lemma ClosedStep(s: State, step: Step)
    requires Reachable(s) && s.sendClosed && Enabled(s, step)
    ensures Apply(s, step).sendClosed && Apply(s, step).sent == s.sent
  {
    CloseIsSafe(s);
  }

  /** Once sendChan is closed it stays closed and the list of sent messages never changes again. */
  lemma {:induction false} NothingAfterClose(s: State, steps: seq<Step>, s': State)
    requires Reachable(s) && s.sendClosed && Run(s, steps, s')
    ensures s'.sendClosed && s'.sent == s.sent && s'.cnt == 0
    decreases |steps|
  {
    CloseIsSafe(s);
    if steps != [] {
      ReachableStep(s, steps[0]);
      ClosedStep(s, steps[0]);
      NothingAfterClose(Apply(s, steps[0]), steps[1..], s');
    }
  }

  // ---- what was sent ----

  function TotalResponses(plans: seq<Plan>): nat {
    if plans == [] then 0 else TotalResponses(plans[..|plans| - 1]) + Responses(plans[|plans| - 1])
  }

  function SumCounts(sent: seq<Msg>, n: nat): nat {
    if n == 0 then 0 else SumCounts(sent, n - 1) + Count(sent, n - 1)
  }

  lemma {:induction false} SumCountsAppend(sent: seq<Msg>, m: Msg, n: nat)
    ensures SumCounts(sent + [m], n) == SumCounts(sent, n) + (if m.req < n then 1 else 0)
  {
    if n > 0 {
      SumCountsAppend(sent, m, n - 1);
      CountAppend(sent, m, n - 1);
    }
  }

  lemma {:induction false} SumCountsNil(n: nat)
    ensures SumCounts([], n) == 0
  {
    if n > 0 {
      SumCountsNil(n - 1);
    }
  }

  lemma {:induction false} SentIsSumOfCounts(sent: seq<Msg>, n: nat)
    requires forall i | 0 <= i < |sent| :: sent[i].req < n
    ensures |sent| == SumCounts(sent, n)
  {
    if sent == [] {
      SumCountsNil(n);
    } else {
      var front, m := sent[..|sent| - 1], sent[|sent| - 1];
      assert sent == front + [m];
      SentIsSumOfCounts(front, n);
      SumCountsAppend(front, m, n);
    }
  }

  lemma {:induction false} TotalIsSumOfCounts(plans: seq<Plan>, sent: seq<Msg>)
    requires forall h | 0 <= h < |plans| :: Count(sent, h) == Responses(plans[h])
    ensures TotalResponses(plans) == SumCounts(sent, |plans|)
  {
    if plans != [] {
      TotalIsSumOfCounts(plans[..|plans| - 1], sent);
    }
  }

  /** A call that gets past the wait has answered every request exactly as often as promised,
      the repetitions of each request in order, and has sent nothing else. */
  lemma ExactResponses(s: State)
    requires Reachable(s) && s.sendClosed
    ensures forall h | 0 <= h < |s.plans| :: Count(s.sent, h) == Responses(s.plans[h])
    ensures |s.sent| == TotalResponses(s.plans)
    ensures forall i | 0 <= i < |s.sent| ::
              s.sent[i].req < |s.plans| && s.sent[i].rep == Count(s.sent[..i], s.sent[i].req)
  {
    ReachableInv(s);
    SumBounds(s.rest, 0);
    forall h | 0 <= h < |s.plans| ensures Count(s.sent, h) == Responses(s.plans[h]) {
      SumBounds(s.rest, h);
      SoundTokens(s.rest[h]);
    }
    SentIsSumOfCounts(s.sent, |s.plans|);
    TotalIsSumOfCounts(s.plans, s.sent);
  }

  // ---- the result of the call ----

  lemma WholeProgram(mode: Mode, plan: Plan, r: seq<Op>)
    requires IsStream(mode) && FailsEarly(plan) && IsTail(r, Program(mode, plan)) && |r| >= 2
    ensures Tokens(r) == 1
  {
    assert r == Program(mode, plan);
    ProgramShape(mode, plan);
  }

  /** A request that fails early has its error on errChan before its last token is released. */
  lemma EarlyFailureBlocks(s: State, h: nat)
    requires Reachable(s) && h < |s.plans| && FailsEarly(s.plans[h])
    ensures s.cnt > 0 || (s.first != [] && s.first[0] != Nil)
    ensures s.main != Returned(Nil)
  {
    ReachableInv(s);
    SumBounds(s.rest, h);
    if |s.rest[h]| >= 2 {
      WholeProgram(s.mode, s.plans[h], s.rest[h]);
    }
  }

  /** A ServerStream call whose request fails early: nothing is handed over or sent, and the first value
      on errChan can only be the error of the action. */
  predicate Quiet(s: State) {
    && s.mode.ServerStream? && |s.plans| == 1 && FailsEarly(s.plans[0])
    && s.sent == [] && (s.sender.Idle? || s.sender.Finishing? || s.sender == Exited(false))
    && (s.first == [] || s.first == [ActionFailed])
  }

  lemma QuietHandler(s: State, step: Step)
    requires Placed(s) && Quiet(s) && Enabled(s, step) && (step.Account? || step.HandOver? || step.HandlerPut?)
    ensures Quiet(Apply(s, step))
  {
    EarlyOperation(s.mode, s.plans[0], s.rest[0]);
  }

  lemma EarlyOperation(mode: Mode, plan: Plan, r: seq<Op>)
    requires FailsEarly(plan) && IsTail(r, Program(mode, plan)) && r != []
    ensures r[0] == Put(ActionFailed) || r[0] == Done
  {
    assert Program(mode, plan) == [Put(ActionFailed), Done];
    assert r[0] in Program(mode, plan);
  }

  lemma QuietStep(s: State, step: Step)
    requires Inv(s) && Quiet(s) && Enabled(s, step)
    ensures Quiet(Apply(s, step))
  {
    if step.Account? || step.HandOver? || step.HandlerPut? {
      QuietHandler(s, step);
    } else if step.SenderNil? {
      SumBounds(s.rest, 0);
      EarlyReportFirst(s);
    }
  }

  lemma EarlyReportFirst(s: State)
    requires Placed(s) && Accounted(s) && Phased(s) && Reported(s)
    requires s.sendClosed && |s.plans| == 1 && FailsEarly(s.plans[0])
    ensures s.first != []
  {
    SumBounds(s.rest, 0);
    if |s.rest[0]| >= 2 {
      WholeProgram(s.mode, s.plans[0], s.rest[0]);
    }
  }

  lemma {:induction false} QuietAlong(s: State, steps: seq<Step>, s': State)
    requires Inv(s) && Quiet(s) && Run(s, steps, s')
    ensures Quiet(s') && Inv(s')
    decreases |steps|
  {
    if steps != [] {
      StepKeeps(s, steps[0]);
      QuietStep(s, steps[0]);
      QuietAlong(Apply(s, steps[0]), steps[1..], s');
    }
  }

  lemma {:induction false} PlansStay(s: State, steps: seq<Step>, s': State)
    requires Inv(s) && s.mode.ServerStream? && Run(s, steps, s')
    ensures s'.mode == s.mode && s'.plans == s.plans
    decreases |steps|
  {
    if steps != [] {
      StepKeeps(s, steps[0]);
      PlansStay(Apply(s, steps[0]), steps[1..], s');
    }
  }

  /** A ServerStream call whose request fails before its last repetition sends nothing, whatever the
      interleaving, and can return nothing but the error of the action. */
  lemma EarlyFailureReturned(s: State)
    requires Reachable(s) && s.mode.ServerStream? && |s.plans| == 1 && FailsEarly(s.plans[0])
    ensures s.sent == []
    ensures s.main.Returned? ==> s.main.result == ActionFailed
  {
    var s0, steps :| Init(s0) && Run(s0, steps, s);
    InitHolds(s0);
    ModeStays(s0, steps, s);
    PlansStay(s0, steps, s);
    QuietAlong(s0, steps, s);
  }

  lemma {:induction false} ModeStays(s: State, steps: seq<Step>, s': State)
    requires Run(s, steps, s')
    ensures s'.mode == s.mode
    decreases |steps|
  {
    if steps != [] {
      ModeStays(Apply(s, steps[0]), steps[1..], s');
    }
  }

  /** The token of a handler that panics is never given back. */
  lemma CrashBlocks(s: State, h: nat)
    requires Placed(s) && Accounted(s) && h < |s.plans| && s.plans[h].Crash?
    ensures s.cnt >= 1
  {
    assert s.rest[h] == [Panic];
    assert [Panic][1..] == [];
    SumBounds(s.rest, h);
  }

  /** A call with a request that panics never closes sendChan and never returns nil. */
  lemma CrashPreventsNil(s: State, h: nat)
    requires Reachable(s) && h < |s.plans| && s.plans[h].Crash?
    ensures s.cnt >= 1 && !s.sendClosed && s.main != Returned(Nil)
  {
    ReachableInv(s);
    CrashBlocks(s, h);
  }

  /** A call that returns nil has received all its input, lost no message, sent exactly what
      was promised, and no request panicked or failed before its last repetition. */
  lemma NilMeansComplete(s: State)
    requires Reachable(s) && s.main == Returned(Nil)
    ensures s.receiver.Closed?
    ensures forall h | 0 <= h < |s.plans| :: !FailsEarly(s.plans[h]) && !s.plans[h].Crash?
    ensures forall h | 0 <= h < |s.plans| :: Count(s.sent, h) == Responses(s.plans[h])
    ensures |s.sent| == TotalResponses(s.plans)
  {
    ReachableInv(s);
    ExactResponses(s);
    CloseIsSafe(s);
    forall h | 0 <= h < |s.plans| ensures !FailsEarly(s.plans[h]) && !s.plans[h].Crash? {
      if FailsEarly(s.plans[h]) {
        EarlyFailureBlocks(s, h);
      }
      if s.plans[h].Crash? {
        CrashPreventsNil(s, h);
      }
    }
  }

  predicate SendLost(s: State) {
    s.sender.Broken? || (s.sender.Exited? && s.sender.lost)
  }

  predicate NothingFailed(s: State) {
    && !SendLost(s) && !s.receiver.Quit?
    && forall h | 0 <= h < |s.plans| :: s.plans[h].Respond? ==> !s.plans[h].fails
  }

  lemma OnlyNilLeft(s: State)
    requires Reported(s) && IsStream(s.mode) && NothingFailed(s) && s.main.Returned?
    ensures s.main.result == Nil && s.sendClosed
  {
    assert s.first != [] ==> s.first == [s.first[0]];
    assert s.main.result == Nil;
  }

  /** When no action, no Send and no Recv fails, the only possible result is nil,
      and then every request has been answered exactly as promised. */
  lemma NoFailureMeansNil(s: State)
    requires Reachable(s) && NothingFailed(s) && s.main.Returned?
    ensures s.main.result == Nil
    ensures |s.sent| == TotalResponses(s.plans)
  {
    ReachableInv(s);
    OnlyNilLeft(s);
    ExactResponses(s);
  }

  lemma LostStep(s: State, step: Step)
    requires SendLost(s) && Enabled(s, step)
    ensures SendLost(Apply(s, step))
  {
  }

  lemma LostSendHolds(s: State)
    requires Reachable(s) && SendLost(s)
    ensures s.cnt >= 1 && !s.sendClosed && s.main != Returned(Nil)
  {
    ReachableInv(s);
    SumBounds(s.rest, 0);
  }

  /** After a failed Send the token of the lost message is never released: the count stays
      positive, sendChan is never closed and the call never returns nil. */
  lemma {:induction false} LostSendBlocksClose(s: State, steps: seq<Step>, s': State)
    requires Reachable(s) && SendLost(s) && Run(s, steps, s')
    ensures SendLost(s') && s'.cnt >= 1 && !s'.sendClosed && s'.main != Returned(Nil)
    decreases |steps|
  {
    LostSendHolds(s);
    if steps != [] {
      ReachableStep(s, steps[0]);
      LostStep(s, steps[0]);
      LostSendBlocksClose(Apply(s, steps[0]), steps[1..], s');
    }
  }
}
