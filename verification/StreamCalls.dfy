/** From the commands of the requests of a streaming call to its responses and its result. */
module StreamCalls {
  import opened Strings
  import opened Commands
  import opened HandlerProgram
  import opened StreamProtocol
  import opened StreamTheorems
  import opened StreamProgress
  import opened GrpcHandler

  /** A classified gRPC request and the random choices of its evaluation. */
  datatype Request = Request(input: map<string, string>, cmds: Commands, random: string -> nat)

  ghost predicate Proper(env: Env, mode: Mode, r: Request) {
    Classified(Strict(env, mode), r.input, r.cmds) && WellTyped(r.cmds)
  }

  ghost predicate AllTyped(rs: seq<Request>) {
    forall r | r in rs :: WellTyped(r.cmds)
  }

  ghost predicate AllProper(env: Env, mode: Mode, rs: seq<Request>) {
    AllTyped(rs) && forall r | r in rs :: Proper(env, mode, r)
  }

  /** The repeat that was written, or picked from the written range. */
  function Chosen(r: Request): int
    requires WellTyped(r.cmds) && "repeat" in r.cmds.actions
  {
    AtoiValue(ActionValue("repeat", Field(r.cmds, "repeat"), r.random("repeat")))
  }

  /** An active command asks for a status code other than OK. */
  predicate AsksForError(r: Request) {
    Active(r.cmds, "code") && !Active(r.cmds, "noop") && AtoiValue(Field(r.cmds, "code")) != 0
  }

  /** The request asks for an error code and for more than one response. */
  predicate RepeatsError(r: Request)
    requires WellTyped(r.cmds)
  {
    AsksForError(r) && Active(r.cmds, "repeat") && Chosen(r) > 1
  }

  /** The request's evaluation panics, or it asks for an error code and for more than one response. */
  predicate PreventsNil(r: Request)
    requires WellTyped(r.cmds)
  {
    EvaluatePanics(r.cmds) || RepeatsError(r)
  }

  ghost predicate NonePanics(rs: seq<Request>) {
    forall h | 0 <= h < |rs| :: !EvaluatePanics(rs[h].cmds)
  }

  /** The documented number of responses to a request. */
  function Documented(r: Request): int
    requires WellTyped(r.cmds)
  {
    if Active(r.cmds, "noop") || AsksForError(r) then 0
    else if Active(r.cmds, "repeat") && Chosen(r) != 0 then Chosen(r) else 1
  }

  function TotalDocumented(rs: seq<Request>): int
    requires AllTyped(rs)
  {
    if rs == [] then 0 else TotalDocumented(rs[..|rs| - 1]) + Documented(rs[|rs| - 1])
  }

  /** The plans of the handlers that serve the requests. */
  function Plans(rs: seq<Request>): (plans: seq<Plan>)
    requires AllTyped(rs)
    ensures |plans| == |rs| && forall h | 0 <= h < |rs| :: plans[h] == PlanOf(rs[h].cmds, rs[h].random)
  {
    if rs == [] then [] else Plans(rs[..|rs| - 1]) + [PlanOf(rs[|rs| - 1].cmds, rs[|rs| - 1].random)]
  }

  lemma OneRequest(env: Env, mode: Mode, r: Request)
    requires GrpcPatterns(env) && Proper(env, mode, r)
    ensures PlanOf(r.cmds, r.random).Crash? <==> EvaluatePanics(r.cmds)
    ensures !EvaluatePanics(r.cmds) ==> Responses(PlanOf(r.cmds, r.random)) == Documented(r)
    ensures Obstructs(PlanOf(r.cmds, r.random)) <==> PreventsNil(r)
  {
    PlannedResponses(env, mode, r.input, r.cmds, r.random);
    if NeedsAction(r.cmds) {
      ActiveFields(env, mode, r.input, r.cmds);
    }
  }

  lemma {:induction false} TotalsAgree(env: Env, mode: Mode, rs: seq<Request>)
    requires GrpcPatterns(env) && AllProper(env, mode, rs) && NonePanics(rs)
    ensures TotalResponses(Plans(rs)) == TotalDocumented(rs)
  {
    if rs != [] {
      var front, last := rs[..|rs| - 1], rs[|rs| - 1];
      assert last in rs;
      TotalsAgree(env, mode, front);
      OneRequest(env, mode, last);
      assert Plans(rs)[..|rs| - 1] == Plans(front);
    }
  }

  lemma RequestResponses(env: Env, mode: Mode, rs: seq<Request>, h: nat)
    requires GrpcPatterns(env) && AllProper(env, mode, rs) && h < |rs| && !EvaluatePanics(rs[h].cmds)
    ensures Responses(Plans(rs)[h]) == Documented(rs[h])
  {
    assert rs[h] in rs;
    OneRequest(env, mode, rs[h]);
  }

  lemma CountsAreDocumented(env: Env, mode: Mode, rs: seq<Request>, sent: seq<Msg>)
    requires GrpcPatterns(env) && AllProper(env, mode, rs) && NonePanics(rs)
    requires forall h | 0 <= h < |rs| :: Count(sent, h) == Responses(Plans(rs)[h])
    ensures forall h | 0 <= h < |rs| :: Count(sent, h) == Documented(rs[h])
  {
    forall h | 0 <= h < |rs| ensures Count(sent, h) == Documented(rs[h]) {
      RequestResponses(env, mode, rs, h);
    }
  }

  lemma RequestCrashes(env: Env, mode: Mode, rs: seq<Request>, h: nat)
    requires GrpcPatterns(env) && AllProper(env, mode, rs) && h < |rs|
    ensures Plans(rs)[h].Crash? <==> EvaluatePanics(rs[h].cmds)
  {
    assert rs[h] in rs;
    OneRequest(env, mode, rs[h]);
  }

  lemma NoCrashMeansNonePanics(env: Env, mode: Mode, rs: seq<Request>)
    requires GrpcPatterns(env) && AllProper(env, mode, rs)
    requires forall h | 0 <= h < |rs| :: !Plans(rs)[h].Crash?
    ensures NonePanics(rs)
  {
    forall h | 0 <= h < |rs| ensures !EvaluatePanics(rs[h].cmds) {
      RequestCrashes(env, mode, rs, h);
    }
  }

  /** A call that returns nil has sent, in all and for every request, the documented number of responses,
      and the evaluation of none of its requests panics. */
  lemma NilSendsDocumented(env: Env, mode: Mode, rs: seq<Request>, s: State)
    requires GrpcPatterns(env) && AllProper(env, mode, rs)
    requires Reachable(s) && s.mode == mode && s.plans == Plans(rs) && s.main == Returned(Nil)
    ensures |s.sent| == TotalDocumented(rs) && NonePanics(rs)
    ensures forall h | 0 <= h < |rs| :: Count(s.sent, h) == Documented(rs[h])
  {
    NilMeansComplete(s);
    NoCrashMeansNonePanics(env, mode, rs);
    TotalsAgree(env, mode, rs);
    CountsAreDocumented(env, mode, rs, s.sent);
  }

  lemma RequestObstructs(env: Env, mode: Mode, rs: seq<Request>, h: nat)
    requires GrpcPatterns(env) && AllProper(env, mode, rs) && h < |rs|
    ensures Obstructs(Plans(rs)[h]) <==> PreventsNil(rs[h])
  {
    assert rs[h] in rs;
    OneRequest(env, mode, rs[h]);
  }

  lemma NonePrevents(env: Env, mode: Mode, rs: seq<Request>)
    requires GrpcPatterns(env) && AllProper(env, mode, rs)
    requires forall h | 0 <= h < |rs| :: !Obstructs(Plans(rs)[h])
    ensures forall h | 0 <= h < |rs| :: !PreventsNil(rs[h])
  {
    forall h | 0 <= h < |rs| ensures !PreventsNil(rs[h]) {
      RequestObstructs(env, mode, rs, h);
    }
  }

  lemma NoneObstructs(env: Env, mode: Mode, rs: seq<Request>)
    requires GrpcPatterns(env) && AllProper(env, mode, rs)
    requires forall h | 0 <= h < |rs| :: !PreventsNil(rs[h])
    ensures forall h | 0 <= h < |rs| :: !Obstructs(Plans(rs)[h])
  {
    forall h | 0 <= h < |rs| ensures !Obstructs(Plans(rs)[h]) {
      RequestObstructs(env, mode, rs, h);
    }
  }

  /** A streaming call can return nil exactly when for none of its requests evaluation panics, and none
      asks for an error code together with more than one response. */
  lemma CallCanSucceedIff(env: Env, mode: Mode, rs: seq<Request>)
    requires GrpcPatterns(env) && IsStream(mode) && (mode.ServerStream? ==> |rs| == 1)
    requires AllProper(env, mode, rs)
    ensures CanReturnNil(mode, Plans(rs))
            <==> forall h | 0 <= h < |rs| :: !PreventsNil(rs[h])
  {
    NilIff(mode, Plans(rs));
    if CanReturnNil(mode, Plans(rs)) {
      NonePrevents(env, mode, rs);
    }
    if forall h | 0 <= h < |rs| :: !PreventsNil(rs[h]) {
      NoneObstructs(env, mode, rs);
    }
  }

  /** A sleep command that spans all of 0 up to the largest int: the handler panics, and no call with
      this request can return nil. */
  lemma WidestSleepPreventsNil(env: Env, mode: Mode, rs: seq<Request>, h: nat)
    requires GrpcPatterns(env) && IsStream(mode) && (mode.ServerStream? ==> |rs| == 1)
    requires AllProper(env, mode, rs) && h < |rs|
    requires rs[h].input == map["sleep" := "0" + "-" + Itoa(MAX_INT)]
    requires "sleep" in env.keys && env.accepts("sleep", "0" + "-" + Itoa(MAX_INT))
    ensures EvaluatePanics(rs[h].cmds) && !CanReturnNil(mode, Plans(rs))
  {
    assert rs[h] in rs;
    SleepEvaluates(env, mode, rs[h]);
    CallCanSucceedIff(env, mode, rs);
    assert PreventsNil(rs[h]);
  }

  lemma SleepEvaluates(env: Env, mode: Mode, r: Request)
    requires Proper(env, mode, r) && r.input == map["sleep" := "0" + "-" + Itoa(MAX_INT)]
    requires GrpcPatterns(env) && "sleep" in env.keys && env.accepts("sleep", "0" + "-" + Itoa(MAX_INT))
    ensures EvaluatePanics(r.cmds)
  {
    var strict := Strict(env, mode);
    assert "sleep" != "repeat" && !IsCondition("sleep") by {
      assert "sleep"[0] != "repeat"[0] && "sleep"[0] != "if"[0];
    }
    assert "sleep" in KeysOf(strict, r.input, Action);
    EmptyBag(r.cmds.actions, KeysOf(strict, r.input, Action));
    ActionsWellTyped(strict, r.input, r.cmds);
    WidestRangePanics();
    assert ActionPanics(r.cmds, "sleep");
  }
}
