/**
 The goroutines of one ServerStream or BidiStream call as a step relation: the main loop,
 the receiver, one handler per request, the sender and the goroutine that waits on the
 wait group. They interleave arbitrarily; every channel and wait-group operation is a step.
 */
module StreamProtocol {
  import opened HandlerProgram

  /** Response number `rep` (from 0) to request number `req`. */
  datatype Msg = Msg(req: nat, rep: nat)

  datatype MainPc =
    | Listening               // BidiStream: select on recvChan and errChan
    | Spawning(plan: Plan)    // BidiStream: request received, handler not started yet
    | Waiting                 // select on errChan and waitDone
    | Closing                 // waitDone seen, sendChan not closed yet
    | Draining                // ServerStream: sendChan closed, receiving from errChan
    | Returned(result: Result)

  datatype ReceiverPc = Reading | Offering(plan: Plan) | Failing | Closed | Quit

  datatype SenderPc =
    | Idle                    // receiving from sendChan
    | Holding(msg: Msg)       // about to call Send
    | Acked                   // Send succeeded, wg.done() not called yet
    | Broken                  // Send failed, error not reported yet
    | Finishing               // saw sendChan closed, nil not reported yet
    | Exited(lost: bool)      // lost: a Send failed, so its token is never released

  datatype WaiterPc = NotStarted | Blocked | Fired

  /** `first` and `sent` are history: the first value put on errChan and the messages sent.
      `crashed` says that a panic has ended the process. */
  datatype State = State(
    mode: Mode, main: MainPc, receiver: ReceiverPc, sender: SenderPc, waiter: WaiterPc,
    plans: seq<Plan>, rest: seq<seq<Op>>, cnt: nat, sendClosed: bool,
    errBuf: seq<Result>, first: seq<Result>, sent: seq<Msg>, crashed: bool)

  datatype Step =
    | Account(h: nat) | HandOver(h: nat) | HandlerPut(h: nat)
    | SendOk | SendErr | SenderDone | SenderPut | SeeClose | SenderNil
    | Recv(plan: Plan) | RecvEof | RecvErr | ReceiverPut
    | Take | Spawn | SeeEof
    | WaitEnds | TakeErr | TakeWaitDone | CloseChan
    | CrashAt(h: nat)

  function WithHandler(s: State, plan: Plan): State {
    s.(plans := s.plans + [plan], rest := s.rest + [Program(s.mode, plan)], cnt := s.cnt + 1)
  }

  function StartServerStream(plan: Plan): State {
    WithHandler(State(ServerStream, Waiting, Closed, Idle, Blocked, [], [], 0, false, [], [], [], false), plan)
  }

  function StartBidiStream(): State {
    State(BidiStream, Listening, Reading, Idle, NotStarted, [], [], 0, false, [], [], [], false)
  }

  predicate Init(s: State) {
    if s.mode.ServerStream? then |s.plans| == 1 && s == StartServerStream(s.plans[0])
    else s == StartBidiStream()
  }

  /** errChan has room for one value in ServerStream; in BidiStream the main loop must be selecting on it. */
  predicate CanPut(s: State) {
    if s.mode.ServerStream? then s.errBuf == []
    else s.main.Listening? || s.main.Waiting? || s.main.Closing?
  }

  function PutErr(s: State, r: Result): State {
    var s' := s.(first := if s.first == [] then [r] else s.first);
    if s.mode.ServerStream? then s'.(errBuf := s.errBuf + [r]) else s'.(main := Returned(r))
  }

  /** wg.done() with its guard against going below zero. */
  function WgDone(cnt: nat): nat {
    if cnt > 0 then cnt - 1 else cnt
  }

  predicate At(s: State, h: nat) {
    h < |s.rest| && s.rest[h] != []
  }

  function Advance(s: State, h: nat): State
    requires At(s, h)
  {
    s.(rest := s.rest[h := s.rest[h][1..]])
  }

  predicate Enabled(s: State, step: Step) {
    !s.crashed &&
    match step
    case Account(h) => At(s, h) && (s.rest[h][0].Add? || s.rest[h][0].Done?)
    case HandOver(h) => At(s, h) && s.rest[h][0].Send? && s.sender.Idle? && !s.sendClosed && h < |s.plans|
    case HandlerPut(h) => At(s, h) && s.rest[h][0].Put? && CanPut(s)
    case SendOk => s.sender.Holding?
    case SendErr => s.sender.Holding?
    case SenderDone => s.sender.Acked?
    case SenderPut => s.sender.Broken? && CanPut(s)
    case SeeClose => s.sender.Idle? && s.sendClosed
    case SenderNil => s.sender.Finishing? && CanPut(s)
    case Recv(_) => s.receiver.Reading?
    case RecvEof => s.receiver.Reading?
    case RecvErr => s.receiver.Reading?
    case ReceiverPut => s.receiver.Failing? && CanPut(s)
    case Take => s.main.Listening? && s.receiver.Offering?
    case Spawn => s.main.Spawning?
    case SeeEof => s.main.Listening? && s.receiver.Closed?
    case WaitEnds => s.waiter.Blocked? && s.cnt == 0
    case TakeErr => (s.main.Waiting? || s.main.Draining?) && s.errBuf != []
    case TakeWaitDone => s.main.Waiting? && s.waiter.Fired?
    case CloseChan => s.main.Closing?
    case CrashAt(h) => At(s, h) && s.rest[h][0].Panic?
  }

  function Apply(s: State, step: Step): State
    requires Enabled(s, step)
  {
    match step
    case Account(h) =>
      Advance(s, h).(cnt := if s.rest[h][0].Add? then s.cnt + 1 else WgDone(s.cnt))
    case HandOver(h) =>
      var rep := Sends(Program(s.mode, s.plans[h])) - Sends(s.rest[h]);
      Advance(s, h).(sender := Holding(Msg(h, if rep >= 0 then rep else 0)))
    case HandlerPut(h) => PutErr(Advance(s, h), s.rest[h][0].value)
    case SendOk => s.(sender := Acked, sent := s.sent + [s.sender.msg])
    case SendErr => s.(sender := Broken)
    case SenderDone => s.(sender := Idle, cnt := WgDone(s.cnt))
    case SenderPut => PutErr(s.(sender := Exited(true)), SendFailed)
    case SeeClose => s.(sender := Finishing)
    case SenderNil => PutErr(s.(sender := Exited(false)), Nil)
    case Recv(plan) => s.(receiver := Offering(plan))
    case RecvEof => s.(receiver := Closed)
    case RecvErr => s.(receiver := Failing)
    case ReceiverPut => PutErr(s.(receiver := Quit), RecvFailed)
    case Take => s.(main := Spawning(s.receiver.plan), receiver := Reading)
    case Spawn => WithHandler(s.(main := Listening), s.main.plan)
    case SeeEof => s.(main := Waiting, waiter := Blocked)
    case WaitEnds => s.(waiter := Fired)
    case TakeErr => s.(main := Returned(s.errBuf[0]), errBuf := s.errBuf[1..])
    case TakeWaitDone => s.(main := Closing)
    case CloseChan => s.(sendClosed := true, main := if s.mode.ServerStream? then Draining else Returned(Nil))
    case CrashAt(_) => s.(crashed := true)
  }

  /** Executing `steps` one after the other is possible from s and ends in s'. */
  predicate Run(s: State, steps: seq<Step>, s': State)
    decreases |steps|
  {
    if steps == [] then s == s'
    else Enabled(s, steps[0]) && Run(Apply(s, steps[0]), steps[1..], s')
  }

  ghost predicate Reachable(s: State) {
    exists s0, steps :: Init(s0) && Run(s0, steps, s)
  }

  // ---- the invariant ----

  function SumTokens(rest: seq<seq<Op>>): int {
    if rest == [] then 0 else Tokens(rest[0]) + SumTokens(rest[1..])
  }

  function SenderTokens(sender: SenderPc): nat {
    match sender
    case Idle => 0
    case Holding(_) => 1
    case Acked => 1
    case Broken => 1
    case Finishing => 0
    case Exited(lost) => if lost then 1 else 0
  }

  /** How many of the messages in `sent` answer request h. */
  function Count(sent: seq<Msg>, h: nat): nat {
    if sent == [] then 0
    else Count(sent[..|sent| - 1], h) + (if sent[|sent| - 1].req == h then 1 else 0)
  }

  function Held(sender: SenderPc, h: nat): nat {
    if sender.Holding? && sender.msg.req == h then 1 else 0
  }

  predicate IsTail(r: seq<Op>, p: seq<Op>) {
    |r| <= |p| && r == p[|p| - |r|..]
  }

  /** Every handler is somewhere in its own program; one that panics gets no further. */
  ghost predicate PlacedIn(mode: Mode, plans: seq<Plan>, rest: seq<seq<Op>>) {
    && |rest| == |plans|
    && forall h | 0 <= h < |rest| ::
          && Sound(rest[h]) && IsTail(rest[h], Program(mode, plans[h])) && (plans[h].Crash? ==> rest[h] != [])
  }

  ghost predicate Placed(s: State) {
    PlacedIn(s.mode, s.plans, s.rest)
  }

  /** The wait-group count is exactly the tokens the handlers own plus the one the sender holds. */
  predicate Accounted(s: State) {
    s.cnt == SumTokens(s.rest) + SenderTokens(s.sender)
  }

  ghost predicate Phased(s: State) {
    && IsStream(s.mode)
    && (s.mode.ServerStream? ==>
          |s.plans| == 1 && s.receiver.Closed? && !s.waiter.NotStarted?
          && !s.main.Listening? && !s.main.Spawning?)
    && (s.mode.BidiStream? ==> s.errBuf == [] && !s.main.Draining?)
    && (s.main.Waiting? || s.main.Closing? || s.main.Draining? ==> !s.waiter.NotStarted?)
    && (s.main.Listening? || s.main.Spawning? ==> s.waiter.NotStarted?)
    && (!s.waiter.NotStarted? ==> s.receiver.Closed?)
    && (s.waiter.Fired? ==> s.cnt == 0)
    && (s.main.Closing? ==> s.waiter.Fired?)
    && (s.sendClosed ==> s.waiter.Fired? && (s.main.Draining? || s.main.Returned?))
    && (s.main.Draining? ==> s.sendClosed)
    && (s.sender.Finishing? ==> s.sendClosed)
    && (s.sender.Exited? && !s.sender.lost ==> s.sendClosed)
  }

  /** A request that fails early reports before it releases its token. */
  ghost predicate EarlyReported(plans: seq<Plan>, rest: seq<seq<Op>>, first: seq<Result>) {
    forall h | 0 <= h < |rest| && h < |plans| && FailsEarly(plans[h]) && |rest[h]| < 2 ::
      first != [] && first[0] != Nil
  }

  ghost predicate SomeFails(plans: seq<Plan>) {
    exists h :: 0 <= h < |plans| && plans[h].Respond? && plans[h].fails
  }

  /** Where the values on errChan come from, and which of them main can have returned. */
  ghost predicate Reported(s: State) {
    && |s.first| <= 1
    && (s.mode.ServerStream? && !s.main.Returned? ==> s.errBuf == s.first)
    && (s.mode.ServerStream? && s.main.Returned? ==> s.first == [s.main.result])
    && (s.mode.BidiStream? && s.first != [] ==> s.main == Returned(s.first[0]))
    && (s.main == Returned(Nil) ==> s.sendClosed)
    && (s.mode.BidiStream? && s.main.Returned? && s.first == [] ==> s.main.result == Nil)
    && (s.sender.Exited? ==> s.first != [])
    && (s.receiver.Quit? ==> s.first != [] && s.first[0] != Nil)
    && (s.first == [Nil] ==> s.sendClosed)
    && (s.sender.Exited? && s.sender.lost ==> s.first != [Nil])
    && EarlyReported(s.plans, s.rest, s.first)
    && (s.first == [SendFailed] ==> s.sender == Exited(true))
    && (s.first == [RecvFailed] ==> s.receiver.Quit?)
    && (s.first == [ActionFailed] ==> SomeFails(s.plans))
  }

  /** The messages of a request that are sent, held by the sender or still to be handed over. */
  function Known(rest: seq<seq<Op>>, sent: seq<Msg>, sender: SenderPc, h: nat): nat
    requires h < |rest|
  {
    Count(sent, h) + Held(sender, h) + Sends(rest[h])
  }

  ghost predicate NothingExtra(plans: seq<Plan>, rest: seq<seq<Op>>, sent: seq<Msg>, sender: SenderPc) {
    forall h | 0 <= h < |plans| && h < |rest| :: Responses(plans[h]) >= Known(rest, sent, sender, h)
  }

  ghost predicate NothingLost(plans: seq<Plan>, rest: seq<seq<Op>>, sent: seq<Msg>, sender: SenderPc) {
    forall h | 0 <= h < |plans| && h < |rest| :: Responses(plans[h]) == Known(rest, sent, sender, h)
  }

  /** Every message has the number of those sent before it for the same request. */
  ghost predicate Numbered(n: nat, sent: seq<Msg>) {
    forall i | 0 <= i < |sent| :: sent[i].req < n && sent[i].rep == Count(sent[..i], sent[i].req)
  }

  /** Each message of a request is still to be handed over, held by the sender or sent, once and in order. */
  ghost predicate Delivered(s: State) {
    && (s.sender.Holding? ==> s.sender.msg.req < |s.plans| && s.sender.msg.rep == Count(s.sent, s.sender.msg.req))
    && NothingExtra(s.plans, s.rest, s.sent, s.sender)
    && (!(s.sender.Broken? || (s.sender.Exited? && s.sender.lost)) ==> NothingLost(s.plans, s.rest, s.sent, s.sender))
    && Numbered(|s.plans|, s.sent)
  }

  ghost predicate Inv(s: State) {
    Placed(s) && Accounted(s) && Phased(s) && Reported(s) && Delivered(s)
  }
}
