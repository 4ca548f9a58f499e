/**
 What one gRPC handler goroutine does to the channels and the wait group it shares
 with the rest of its RPC, as the list of its visible operations in program order.
 */
module HandlerProgram {

  datatype Mode = Unary | ClientStream | ServerStream | BidiStream

  predicate IsStream(mode: Mode) {
    mode.ServerStream? || mode.BidiStream?
  }

  /** What a request asks for: nothing, one response plus `extra` repetitions, or a random pick that panics.
      `fails` says that its action returns an error (a non-zero status code). */
  datatype Plan = Noop | Respond(extra: nat, fails: bool) | Crash

  /** Values that travel on errChan and become the result of the RPC. */
  datatype Result = Nil | ActionFailed | SendFailed | RecvFailed

  /** One operation on shared state: wg.add(1), wg.done(), a send on sendChan, a send on errChan; or a
      panic, which no handler recovers from and which ends the process. */
  datatype Op = Add | Done | Send | Put(value: Result) | Panic

  /** Number of responses the documentation promises for a request. */
  function Responses(plan: Plan): nat {
    if !plan.Respond? || plan.fails then 0 else 1 + plan.extra
  }

  /** A plan whose action fails while further repetitions are still due. */
  predicate FailsEarly(plan: Plan) {
    plan.Respond? && plan.fails && plan.extra > 0
  }

  function Repetitions(n: nat): seq<Op> {
    if n == 0 then [] else [Add, Send] + Repetitions(n - 1)
  }

  /** The whole program of a handler: every repetition but the last takes its own token
      first, and only the last failing repetition releases its token before reporting. */
  function Program(mode: Mode, plan: Plan): seq<Op> {
    match plan
    case Noop => if IsStream(mode) then [Done] else [Put(Nil), Done]
    case Respond(extra, fails) =>
      if !fails then Repetitions(extra) + [Send]
      else if extra > 0 then [Put(ActionFailed), Done]
      else [Done, Put(ActionFailed)]
    case Crash => [Panic]
  }

  // ---- counting over programs ----

  function Weight(op: Op): int {
    match op
    case Add => -1
    case Done => 1
    case Send => 1
    case Put(_) => 0
    case Panic => 1
  }

  /** Wait-group tokens that running `ops` to its end gives back or hands on with a message. */
  function Tokens(ops: seq<Op>): int {
    if ops == [] then 0 else Weight(ops[0]) + Tokens(ops[1..])
  }

  function Sends(ops: seq<Op>): nat {
    if ops == [] then 0 else (if ops[0].Send? then 1 else 0) + Sends(ops[1..])
  }

  function Puts(ops: seq<Op>): nat {
    if ops == [] then 0 else (if ops[0].Put? then 1 else 0) + Puts(ops[1..])
  }

  /** At every point the rest of the program owns a token unless all that is left are error reports. */
  predicate Sound(ops: seq<Op>) {
    ops == [] ||
    (&& Sound(ops[1..])
     && (if ops[0].Put? then ops[0].value == ActionFailed else Tokens(ops) >= 1))
  }

  lemma {:induction false} SoundTokens(ops: seq<Op>)
    requires Sound(ops)
    ensures Tokens(ops) >= 0
    ensures Tokens(ops) == 0 ==> Sends(ops) == 0 && forall op | op in ops :: op.Put?
  {
    if ops != [] {
      SoundTokens(ops[1..]);
      if ops[0].Put? {
        assert ops == [ops[0]] + ops[1..];
      }
    }
  }

  lemma {:induction false} RepetitionsShape(n: nat)
    ensures Sound(Repetitions(n) + [Send])
    ensures Tokens(Repetitions(n) + [Send]) == 1
    ensures Sends(Repetitions(n) + [Send]) == n + 1
    ensures Puts(Repetitions(n) + [Send]) == 0
    ensures |Repetitions(n)| == 2 * n
  {
    if n == 0 {
      assert Repetitions(0) + [Send] == [Send] && [Send][1..] == [];
    } else {
      RepetitionsShape(n - 1);
      var rest := Repetitions(n - 1) + [Send];
      var tail := [Send] + rest;
      var whole := [Add] + tail;
      assert Repetitions(n) + [Send] == whole;
      assert tail[1..] == rest && whole[1..] == tail;
    }
  }

  /** A stream handler starts with exactly the one token its creator took for it, and its
      program sends exactly the promised number of responses. */
  lemma ProgramShape(mode: Mode, plan: Plan)
    requires IsStream(mode)
    ensures Sound(Program(mode, plan))
    ensures Tokens(Program(mode, plan)) == 1
    ensures Sends(Program(mode, plan)) == Responses(plan)
  {
    match plan
    case Noop => assert [Done][1..] == [];
    case Crash => assert [Panic][1..] == [];
    case Respond(extra, fails) =>
      if !fails {
        RepetitionsShape(extra);
      } else {
        assert [Put(ActionFailed), Done][1..] == [Done];
        assert [Done, Put(ActionFailed)][1..] == [Put(ActionFailed)];
        assert [Done][1..] == [];
        assert [Put(ActionFailed)][1..] == [];
      }
  }

  /** In Unary and ClientStream, where repeat is refused, the handler puts exactly one event
      on sendChan or errChan, unless it panics: the RPC gets its one answer and the handler is never
      left behind. */
  lemma SingleAnswer(mode: Mode, plan: Plan)
    requires !IsStream(mode)
    requires plan.Respond? ==> plan.extra == 0
    ensures Sends(Program(mode, plan)) + Puts(Program(mode, plan)) == if plan.Crash? then 0 else 1
    ensures Sends(Program(mode, plan)) == Responses(plan)
    ensures Put(Nil) in Program(mode, plan) <==> plan.Noop?
  {
    assert [Put(Nil), Done][1..] == [Done];
    assert [Done][1..] == [] == [Send][1..] == [Panic][1..];
    assert [Done, Put(ActionFailed)][1..] == [Put(ActionFailed)];
    assert [Put(ActionFailed)][1..] == [];
    if plan.Respond? {
      assert Repetitions(0) + [Send] == [Send];
      assert Program(mode, plan) == if plan.fails then [Done, Put(ActionFailed)] else [Send];
    }
  }
}
