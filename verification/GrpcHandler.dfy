/** From a gRPC request to the operations its handler goroutine performs. */
module GrpcHandler {
  import opened Strings
  import opened Commands
  import opened HandlerProgram

  const OK := 0
  const UNKNOWN := 2

  /** getCodeClass: the gRPC code with the given number. */
  function GetCodeClass(code: int): int {
    match code
    case 0 => 0
    case 1 => 1
    case 2 => 2
    case 3 => 3
    case 4 => 4
    case 5 => 5
    case 6 => 6
    case 7 => 7
    case 8 => 8
    case 9 => 9
    case 10 => 10
    case 11 => 11
    case 12 => 12
    case 13 => 13
    case 14 => 14
    case 15 => 15
    case 16 => 16
    case _ => UNKNOWN
  }

  /** The seventeen codes are their numbers; every other number is Unknown, whose number is 2. */
  lemma CodeClasses(code: int)
    ensures 0 <= code < 17 ==> GetCodeClass(code) == code
    ensures code < 0 || code >= 17 ==> GetCodeClass(code) == 2
  {
  }

  /** The validator patterns the handler depends on: number ranges, and codes 0 to 16. */
  ghost predicate GrpcPatterns(env: Env) {
    && RangePatterns(env)
    && (forall v | env.accepts("code", v) :: Digits(v) && Value(v) <= 16)
  }

  /** repeat is refused outside the streaming modes, and as a range that starts at 0. */
  predicate RepeatRefused(mode: Mode, v: string) {
    !IsStream(mode) || (|Split(v, "-")| > 1 && Bounds(v).0 == 0)
  }

  /** In the streaming modes only a range whose smaller number is 0 is refused; a single number never is. */
  lemma RefusedIff(mode: Mode, v: string)
    requires IsNumRange(v)
    ensures RepeatRefused(mode, v)
            <==> mode.Unary? || mode.ClientStream? || (Find(v, "-") < |v| && Written(v).0 == 0)
  {
    BoundsWritten(v);
  }

  function Strict(env: Env, mode: Mode): Env {
    env.(accepts := (k, v) => env.accepts(k, v) && !(k == "repeat" && RepeatRefused(mode, v)))
  }

  lemma StrictClasses(env: Env, mode: Mode, input: map<string, string>)
    ensures var strict := Strict(env, mode);
      var refused := "repeat" in KeysOf(env, input, Action) && RepeatRefused(mode, input["repeat"]);
      && KeysOf(strict, input, Action) == KeysOf(env, input, Action) - (if refused then {"repeat"} else {})
      && KeysOf(strict, input, Invalid) == KeysOf(env, input, Invalid) + (if refused then {"repeat"} else {})
      && KeysOf(strict, input, Match) == KeysOf(env, input, Match)
      && KeysOf(strict, input, Unmatch) == KeysOf(env, input, Unmatch)
      && Recognised(strict, input) == Recognised(env, input)
  {
    forall k | k in input
      ensures ClassOf(Strict(env, mode), k, input[k]) == StrictClass(env, mode, k, input[k])
    {
      SameJudgement(env, mode, env.actual(k), input[k]);
      RepeatIsNoCondition();
    }
  }

  lemma RepeatIsNoCondition()
    ensures !IsCondition("repeat") && !IsCondition("code") && !IsCondition("noop")
  {
    assert "if"[0] != "repeat"[0] && "if"[0] != "code"[0] && "if"[0] != "noop"[0];
  }

  function StrictClass(env: Env, mode: Mode, key: string, value: string): Class {
    if key == "repeat" && ClassOf(env, key, value) == Action && RepeatRefused(mode, value) then Invalid
    else ClassOf(env, key, value)
  }

  lemma SameJudgement(env: Env, mode: Mode, actual: string, v: string)
    ensures JudgeActualValue(Strict(env, mode), actual, v) == JudgeActualValue(env, actual, v)
  {
    if Contains(v, OR_SEPARATOR) {
      AnyMatchExists(env, actual, Split(v, OR_SEPARATOR));
      AnyMatchExists(Strict(env, mode), actual, Split(v, OR_SEPARATOR));
    }
  }

  method RemoveRepeat(actions: seq<string>) returns (newActions: seq<string>)
    ensures multiset(newActions) == multiset(actions)["repeat" := 0]
  {
    newActions := [];
    for i := 0 to |actions|
      invariant multiset(newActions) == multiset(actions[..i])["repeat" := 0]
    {
      assert actions[..i + 1] == actions[..i] + [actions[i]];
      if actions[i] != "repeat" {
        newActions := newActions + [actions[i]];
      }
    }
    assert actions[..|actions|] == actions;
  }

  method RefuseRepeat(mode: Mode, repeat: string) returns (isRepeatInvalid: bool)
    requires IsNumRange(repeat)
    ensures isRepeatInvalid == RepeatRefused(mode, repeat)
  {
    isRepeatInvalid := false;
    if mode == Unary || mode == ClientStream {
      isRepeatInvalid := true;
    } else {
      SplitRange(repeat);
      var values := Split(repeat, "-");
      if |values| != 1 {
        var minValue, maxValue := AtoiValue(values[0]), AtoiValue(values[1]);
        if minValue > maxValue {
          minValue, maxValue := maxValue, minValue;
        }
        if minValue == 0 {
          isRepeatInvalid := true;
        }
      }
    }
  }

  lemma RewriteKeeps(mode: Mode, env: Env, input: map<string, string>, cmds: Commands, newActions: seq<string>)
    requires Classified(env, input, cmds)
    requires "repeat" in KeysOf(env, input, Action) && RepeatRefused(mode, input["repeat"])
    requires multiset(newActions) == multiset(cmds.actions)["repeat" := 0]
    ensures Classified(Strict(env, mode), input,
                       cmds.(actions := newActions, invalids := cmds.invalids + ["repeat"]))
  {
    StrictClasses(env, mode, input);
    assert multiset(newActions) == multiset(KeysOf(env, input, Action) - {"repeat"});
  }

  lemma UnrefusedKeeps(mode: Mode, env: Env, input: map<string, string>, cmds: Commands)
    requires Classified(env, input, cmds)
    requires !("repeat" in KeysOf(env, input, Action) && RepeatRefused(mode, input["repeat"]))
    ensures Classified(Strict(env, mode), input, cmds)
  {
    StrictClasses(env, mode, input);
  }

  method RewriteRepeat(mode: Mode, env: Env, cmds: Commands, ghost input: map<string, string>)
      returns (cmds': Commands)
    requires GrpcPatterns(env) && Classified(env, input, cmds)
    ensures Classified(Strict(env, mode), input, cmds')
  {
    ActionsWellTyped(env, input, cmds);
    EmptyBag(cmds.actions, KeysOf(env, input, Action));
    if "repeat" in cmds.actions {
      var isRepeatInvalid := RefuseRepeat(mode, Field(cmds, "repeat"));
      if isRepeatInvalid {
        var newActions := RemoveRepeat(cmds.actions);
        RewriteKeeps(mode, env, input, cmds, newActions);
        return cmds.(actions := newActions, invalids := cmds.invalids + ["repeat"]);
      }
    }
    UnrefusedKeeps(mode, env, input, cmds);
    return cmds;
  }

  /** The rewrite of repeat keeps a classification: the result classifies the request under
      the stricter pattern for repeat, so the lists still partition the recognised keys. */
  method ValidateCommandsForGrpc(mode: Mode, env: Env, mapCmds: map<string, seq<string>>) returns (cmds: Commands)
    requires GrpcPatterns(env)
    ensures Classified(Strict(env, mode), map k | k in mapCmds :: Join(mapCmds[k], OR_SEPARATOR), cmds)
  {
    cmds := ValidateCommands(env, mapCmds);
    ghost var input := map k | k in mapCmds :: Join(mapCmds[k], OR_SEPARATOR);
    cmds := RewriteRepeat(mode, env, cmds, input);
  }

  /** A single number is never refused as a range; 0 then means one response. */
  function Extra(repeat: int): nat {
    if repeat > 1 then repeat - 1 else 0
  }

  /** Whether execGrpcAction returns an error: a code command whose code is not OK. */
  predicate ActionFails(cmds: Commands) {
    "code" in cmds.actions && GetCodeClass(AtoiValue(Field(cmds, "code"))) != OK
  }

  /** Evaluation comes before the decision to act, so a pick that overflows panics in any case. */
  function PlanOf(cmds: Commands, random: string -> nat): Plan
    requires WellTyped(cmds)
  {
    if EvaluatePanics(cmds) then Crash
    else if !NeedsAction(cmds) then Respond(0, false)
    else if "noop" in cmds.actions then Noop
    else
      var repeat := if "repeat" in cmds.actions
                    then AtoiValue(ActionValue("repeat", Field(cmds, "repeat"), random("repeat"))) else 1;
      Respond(Extra(repeat), ActionFails(cmds))
  }

  lemma ActiveRepeat(env: Env, mode: Mode, input: map<string, string>, cmds: Commands)
    requires GrpcPatterns(env) && Classified(Strict(env, mode), input, cmds) && NeedsAction(cmds)
    ensures Field(cmds, "repeat") != "" <==> "repeat" in cmds.actions
    ensures "repeat" in cmds.actions ==> IsStream(mode)
  {
    var strict := Strict(env, mode);
    ActionsWellTyped(strict, input, cmds);
    EmptyBag(cmds.actions, KeysOf(strict, input, Action));
    EmptyBag(cmds.invalids, KeysOf(strict, input, Invalid));
    if "repeat" in cmds.fields {
      assert "repeat" in Recognised(strict, input);
      assert "repeat" !in KeysOf(strict, input, Invalid);
      RepeatIsNoCondition();
      assert "repeat" in KeysOf(strict, input, Action);
    }
    if "repeat" in cmds.actions {
      assert IsNumRange(input["repeat"]);
      assert Field(cmds, "repeat") == input["repeat"] != "";
    }
  }

  lemma ActiveCode(env: Env, mode: Mode, input: map<string, string>, cmds: Commands)
    requires GrpcPatterns(env) && Classified(Strict(env, mode), input, cmds)
    ensures "code" in cmds.actions ==> GetCodeClass(AtoiValue(Field(cmds, "code"))) == AtoiValue(Field(cmds, "code"))
  {
    ActionsWellTyped(Strict(env, mode), input, cmds);
    if "code" in cmds.actions {
      AtoiDigits(input["code"]);
    }
  }

  /** Inside an acted-on request a repeat field is always an active command, and the code
      class of an accepted code is that code. */
  lemma ActiveFields(env: Env, mode: Mode, input: map<string, string>, cmds: Commands)
    requires GrpcPatterns(env) && Classified(Strict(env, mode), input, cmds) && NeedsAction(cmds)
    ensures Field(cmds, "repeat") != "" <==> "repeat" in cmds.actions
    ensures "repeat" in cmds.actions ==> IsStream(mode)
    ensures "code" in cmds.actions ==> GetCodeClass(AtoiValue(Field(cmds, "code"))) == AtoiValue(Field(cmds, "code"))
  {
    ActiveRepeat(env, mode, input, cmds);
    ActiveCode(env, mode, input, cmds);
  }

  /** The documented number of responses, unless evaluation panics: none for an active noop, the chosen repeat (at least
      one) for an active repeat, otherwise one; an action with an error code sends none. */
  lemma PlannedResponses(env: Env, mode: Mode, input: map<string, string>, cmds: Commands, random: string -> nat)
    requires GrpcPatterns(env) && Classified(Strict(env, mode), input, cmds) && WellTyped(cmds)
    ensures var r := Responses(PlanOf(cmds, random));
      if EvaluatePanics(cmds) then r == 0
      else if !NeedsAction(cmds) then r == 1
      else if "noop" in cmds.actions then r == 0
      else if "code" in cmds.actions && AtoiValue(Field(cmds, "code")) != 0 then r == 0
      else if "repeat" !in cmds.actions then r == 1
      else
        var n := AtoiValue(ActionValue("repeat", Field(cmds, "repeat"), random("repeat")));
        r == if n == 0 then 1 else n
  {
    if NeedsAction(cmds) {
      ActiveFields(env, mode, input, cmds);
      if "repeat" in cmds.actions {
        RangeValueInBounds("repeat", Field(cmds, "repeat"), random("repeat"));
      }
    }
  }

  /** What a request leads to: a crash, no answer and no error, an error, or answers. */
  lemma PlanMeaning(env: Env, mode: Mode, input: map<string, string>, cmds: Commands, random: string -> nat)
    requires GrpcPatterns(env) && Classified(Strict(env, mode), input, cmds) && WellTyped(cmds)
    ensures var plan := PlanOf(cmds, random);
      && (plan.Crash? <==> EvaluatePanics(cmds))
      && (plan.Noop? <==> !EvaluatePanics(cmds) && Active(cmds, "noop"))
      && (plan.Respond? ==>
            && (plan.fails <==> Active(cmds, "code") && AtoiValue(Field(cmds, "code")) != 0)
            && (plan.extra > 0 ==> Active(cmds, "repeat"))
            && (Active(cmds, "repeat") ==>
                  var n := AtoiValue(ActionValue("repeat", Field(cmds, "repeat"), random("repeat")));
                  plan.extra == if n == 0 then 0 else n - 1))
  {
    if NeedsAction(cmds) {
      ActiveFields(env, mode, input, cmds);
      if "repeat" in cmds.actions {
        RangeValueInBounds("repeat", Field(cmds, "repeat"), random("repeat"));
      }
    }
  }

  /** A repeat range never overflows, because a range from 0 has been refused. */
  lemma RepeatNeverPanics(env: Env, mode: Mode, input: map<string, string>, cmds: Commands)
    requires GrpcPatterns(env) && Classified(Strict(env, mode), input, cmds)
    ensures "repeat" in cmds.actions ==> !RangePanics(Field(cmds, "repeat"))
  {
    var strict := Strict(env, mode);
    assert GrpcPatterns(strict);
    ActionsWellTyped(strict, input, cmds);
    if "repeat" in cmds.actions {
      RangeIsNat(input["repeat"]);
    }
  }

  /** The repetition loop; `failed` says that the handler returned inside it. */
  method Repeat(cmds: Commands, repeat: int, random: nat -> string -> nat) returns (failed: bool, trace: seq<Op>)
    requires WellTyped(cmds)
    ensures failed <==> ActionFails(cmds) && Extra(repeat) > 0
    ensures trace == if failed then [Put(ActionFailed), Done] else Repetitions(Extra(repeat))
  {
    trace := [];
    var i := 1;
    while i < repeat
      invariant i == 1 || 1 <= i <= repeat
      invariant trace == Repetitions(i - 1)
      invariant i > 1 ==> !ActionFails(cmds)
    {
      if ActionFails(cmds) {
        trace := trace + [Put(ActionFailed)];
        return true, trace + [Done];
      }
      RepetitionsGrow(i - 1);
      trace := trace + [Add];
      trace := trace + [Send];
      var _, _ := Evaluate(cmds, random(i));
      i := i + 1;
    }
    return false, trace;
  }

  /** The part of the handler that runs when the request's actions are carried out.
      `done` says that the handler returned before its last response. */
  method Act(mode: Mode, cmds: Commands, result: map<string, string>, random: nat -> string -> nat)
      returns (done: bool, trace: seq<Op>)
    requires WellTyped(cmds) && NeedsAction(cmds) && !EvaluatePanics(cmds)
    requires Field(cmds, "repeat") != "" <==> "repeat" in cmds.actions
    requires forall k | k in cmds.actions :: k in result && result[k] == ActionValues(cmds, random(0))[k]
    ensures trace + (if done then [] else [Send]) == Program(mode, PlanOf(cmds, random(0)))
  {
    trace := [];
    if "noop" in cmds.actions {
      if mode == Unary || mode == ClientStream {
        trace := trace + [Put(Nil)];
      }
      return true, trace + [Done];
    }
    if Field(cmds, "repeat") != "" {
      var failed;
      failed, trace := Repeat(cmds, AtoiValue(result["repeat"]), random);
      if failed {
        return true, trace;
      }
    }
    if ActionFails(cmds) {
      trace := trace + [Done];
      return true, trace + [Put(ActionFailed)];
    }
    return false, trace;
  }

  /**
   The handler goroutine. `random(i)` is the random source of the i-th evaluation. Its operations are
   exactly the program of the plan: a panic alone when evaluation panics; and in Unary and ClientStream
   no repetitions.
   */
  method Handler(mode: Mode, env: Env, req: map<string, seq<string>>, random: nat -> string -> nat)
      returns (cmds: Commands, panics: bool, trace: seq<Op>)
    requires GrpcPatterns(env)
    ensures Classified(Strict(env, mode), map k | k in req :: Join(req[k], OR_SEPARATOR), cmds)
    ensures WellTyped(cmds)
    ensures panics <==> EvaluatePanics(cmds)
    ensures trace == Program(mode, PlanOf(cmds, random(0)))
    ensures !IsStream(mode) ==> PlanOf(cmds, random(0)) in {Noop, Respond(0, true), Respond(0, false), Crash}
  {
    cmds := ValidateCommandsForGrpc(mode, env, req);
    ghost var input := map k | k in req :: Join(req[k], OR_SEPARATOR);
    assert GrpcPatterns(Strict(env, mode));
    ActionsWellTyped(Strict(env, mode), input, cmds);
    if NeedsAction(cmds) {
      ActiveFields(env, mode, input, cmds);
    }
    var result;
    panics, result := Evaluate(cmds, random(0));
    if panics {
      return cmds, true, [Panic];
    }
    var done := false;
    trace := [];
    if NeedsAction(cmds) {
      done, trace := Act(mode, cmds, result, random);
    }
    if !done {
      trace := trace + [Send];
    }
  }

  lemma {:induction false} RepetitionsGrow(n: nat)
    ensures Repetitions(n + 1) == Repetitions(n) + [Add, Send]
  {
    if n > 0 {
      RepetitionsGrow(n - 1);
    }
  }
}
