/** Unary and ClientStream: one request, one answer. */
module SingleCalls {
  import opened Strings
  import opened Commands
  import opened HandlerProgram
  import opened GrpcHandler
  import opened WaitGroups

  datatype Outcome = Response | Error(result: Result) | Panicked

  /** What stream.Recv returns: a request, the end of the input, or an error. */
  datatype Received = Message(req: map<string, seq<string>>) | Eof | Failure

  function Combined(req: map<string, seq<string>>): map<string, string> {
    map k | k in req :: Join(req[k], OR_SEPARATOR)
  }

  /** The answer that the commands of a request ask for. */
  function Asked(cmds: Commands): Outcome {
    if EvaluatePanics(cmds) then Panicked
    else if !NeedsAction(cmds) then Response
    else if "noop" in cmds.actions then Error(Nil)
    else if ActionFails(cmds) then Error(ActionFailed)
    else Response
  }

  predicate IsEvent(op: Op) {
    op.Send? || op.Put?
  }

  predicate OneEvent(trace: seq<Op>, k: nat) {
    k < |trace| && IsEvent(trace[k]) && forall j | 0 <= j < |trace| && j != k :: !IsEvent(trace[j])
  }

  function EventOutcome(op: Op): Outcome
    requires IsEvent(op)
  {
    if op.Send? then Response else Error(op.value)
  }

  /** The trace of a handler outside the streaming modes: one event, one token given back. */
  lemma TraceOf(mode: Mode, plan: Plan) returns (k: nat)
    requires !IsStream(mode) && plan in {Noop, Respond(0, true), Respond(0, false)}
    ensures OneEvent(Program(mode, plan), k)
    ensures EventOutcome(Program(mode, plan)[k])
            == if plan.Noop? then Error(Nil) else if plan.fails then Error(ActionFailed) else Response
    ensures |Program(mode, plan)| == if plan == Respond(0, false) then 1 else 2
    ensures forall j | 0 <= j < |Program(mode, plan)| && j != k :: Program(mode, plan)[j] == Done
  {
    assert Repetitions(0) + [Send] == [Send];
    k := if plan == Respond(0, true) then 1 else 0;
  }

  /** The caller's select: whichever of sendChan and errChan gets the handler's event. */
  method Await(trace: seq<Op>, ghost k: nat) returns (outcome: Outcome)
    requires OneEvent(trace, k)
    ensures outcome == EventOutcome(trace[k])
  {
    var i := 0;
    while !IsEvent(trace[i])
      invariant i <= k
      decreases k - i
    {
      i := i + 1;
    }
    outcome := EventOutcome(trace[i]);
  }

  /** One handler run to its end: its only event, and whether it gave back its token itself. */
  method Ask(mode: Mode, env: Env, req: map<string, seq<string>>, random: nat -> string -> nat)
      returns (cmds: Commands, outcome: Outcome, released: bool)
    requires GrpcPatterns(env) && !IsStream(mode)
    ensures Classified(Strict(env, mode), Combined(req), cmds) && outcome == Asked(cmds)
    ensures released <==> outcome.Error?
  {
    var panics, trace;
    cmds, panics, trace := Handler(mode, env, req, random);
    if panics {
      return cmds, Panicked, false;
    }
    ghost var k := TraceOf(mode, PlanOf(cmds, random(0)));
    released := Done in trace;
    outcome := Await(trace, k);
  }

  method Unary(env: Env, req: map<string, seq<string>>, random: nat -> string -> nat)
      returns (cmds: Commands, outcome: Outcome)
    requires GrpcPatterns(env)
    ensures Classified(Strict(env, Mode.Unary), Combined(req), cmds) && outcome == Asked(cmds)
  {
    var released;
    cmds, outcome, released := Ask(Mode.Unary, env, req, random);
  }

  /** The receive loop ends with the first result that is no message. */
  predicate Input(recvs: seq<Received>) {
    recvs != [] && !recvs[|recvs| - 1].Message? && forall i | 0 <= i < |recvs| - 1 :: recvs[i].Message?
  }

  /**
   ClientStream answers the last message only. It takes one token for every receive and gives back
   one: after the handler has ended, the wait group, on which nothing waits, still holds one token
   for every message (and one for a failed receive). A panic ends the process.
   */
  method ClientStream(env: Env, recvs: seq<Received>, random: nat -> string -> nat, sendOk: bool)
      returns (cmds: Commands, outcome: Outcome, held: int)
    requires GrpcPatterns(env) && Input(recvs)
    ensures var n := |recvs| - 1;
      if recvs[n].Failure? then outcome == Error(RecvFailed) && held == |recvs|
      else
        && Classified(Strict(env, Mode.ClientStream), Combined(if n == 0 then map[] else recvs[n - 1].req), cmds)
        && outcome == (if Asked(cmds) == Response && !sendOk then Error(SendFailed) else Asked(cmds))
        && (outcome != Panicked ==> held == n)
  {
    var wg := new WaitGroup();
    var latestReq := map[];
    var i := 0;
    wg.Add(1);
    while recvs[i].Message?
      invariant i < |recvs| && fresh(wg) && wg.Valid() && wg.cnt == i + 1
      invariant latestReq == if i == 0 then map[] else recvs[i - 1].req
      decreases |recvs| - i
    {
      latestReq := recvs[i].req;
      i := i + 1;
      wg.Add(1);
    }
    assert i == |recvs| - 1;
    if recvs[i].Failure? {
      return Commands(map[], [], [], [], []), Error(RecvFailed), wg.cnt;
    }
    var released;
    cmds, outcome, released := Ask(Mode.ClientStream, env, latestReq, random);
    if released {
      wg.Done();
    }
    if outcome.Response? {
      wg.Done();
      if !sendOk {
        outcome := Error(SendFailed);
      }
    }
    held := wg.cnt;
  }
}
