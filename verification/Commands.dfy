/**
 The command language: classifying the commands of a request, evaluating them and
 deciding whether the request's actions are carried out.
 */
module Commands {
  import opened Strings

  const OR_SEPARATOR := " or "

  /** `fields` holds the struct fields that were set; the lists hold command names. */
  datatype Commands = Commands(
    fields: map<string, string>,
    actions: seq<string>, ifMatches: seq<string>, ifUnmatches: seq<string>, invalids: seq<string>)

  /** What classification depends on: the validator's keys and patterns, the request's
      actual values, and CIDR membership (net.ParseIP, net.ParseCIDR and Contains). */
  datatype Env = Env(
    keys: set<string>, accepts: (string, string) -> bool,
    actual: string -> string, inCidr: (string, string) -> bool)

  function Field(cmds: Commands, key: string): string {
    if key in cmds.fields then cmds.fields[key] else ""
  }

  function SetValue(cmds: Commands, key: string, value: string): Commands {
    cmds.(fields := cmds.fields[key := value])
  }

  // ---- conditions ----

  predicate MatchIPValue(env: Env, actual: string, value: string) {
    if Contains(value, "/") then env.inCidr(actual, value) else actual == value
  }

  predicate AnyMatch(env: Env, actual: string, values: seq<string>) {
    values != [] && (MatchIPValue(env, actual, values[0]) || AnyMatch(env, actual, values[1..]))
  }

  predicate JudgeActualValue(env: Env, actual: string, value: string) {
    if Contains(value, OR_SEPARATOR) then AnyMatch(env, actual, Split(value, OR_SEPARATOR))
    else MatchIPValue(env, actual, value)
  }

  lemma {:induction false} AnyMatchExists(env: Env, actual: string, values: seq<string>)
    ensures AnyMatch(env, actual, values) <==> exists v :: v in values && MatchIPValue(env, actual, v)
  {
    if values != [] {
      AnyMatchExists(env, actual, values[1..]);
      assert values == [values[0]] + values[1..];
    }
  }

  /** Repeating a condition means OR: the joined value matches exactly when some listed value does. */
  lemma RepeatedConditionIsOr(env: Env, actual: string, values: seq<string>)
    requires values != [] && forall v | v in values :: ' ' !in v
    ensures JudgeActualValue(env, actual, Join(values, OR_SEPARATOR))
            <==> exists v :: v in values && MatchIPValue(env, actual, v)
  {
    SplitJoin(values, OR_SEPARATOR);
    AnyMatchExists(env, actual, values);
    if |values| == 1 {
      FindNothing(values[0], OR_SEPARATOR);
    } else {
      FindFirst(values[0], OR_SEPARATOR, Join(values[1..], OR_SEPARATOR));
    }
  }

  /** What a condition value asks for: equality, or membership in the addresses of a CIDR. */
  predicate Holds(env: Env, actual: string, v: string) {
    ('/' !in v && v == actual) || ('/' in v && env.inCidr(actual, v))
  }

  lemma MatchMeaning(env: Env, actual: string, v: string)
    ensures MatchIPValue(env, actual, v) <==> Holds(env, actual, v)
  {
    if '/' in v {
      if Find(v, "/") == |v| {
        FindAbsent(v, "/");
      }
    } else {
      FindNothing(v, "/");
    }
  }

  /** A listed condition holds if and only if some value without a slash is the actual value, or some value
      with a slash contains it. */
  lemma ListedCondition(env: Env, actual: string, values: seq<string>)
    requires values != [] && forall v | v in values :: ' ' !in v
    ensures JudgeActualValue(env, actual, Join(values, OR_SEPARATOR))
            <==> exists v :: v in values && Holds(env, actual, v)
  {
    RepeatedConditionIsOr(env, actual, values);
    forall v | v in values ensures MatchIPValue(env, actual, v) <==> Holds(env, actual, v) {
      MatchMeaning(env, actual, v);
    }
  }

  /** Without slashes the actual value must be listed, with slashes in all values one must contain it. */
  lemma PlainAndCidrConditions(env: Env, actual: string, values: seq<string>)
    requires values != [] && forall v | v in values :: ' ' !in v
    ensures (forall v | v in values :: '/' !in v) ==>
              (JudgeActualValue(env, actual, Join(values, OR_SEPARATOR)) <==> actual in values)
    ensures (forall v | v in values :: '/' in v) ==>
              (JudgeActualValue(env, actual, Join(values, OR_SEPARATOR))
               <==> exists v :: v in values && env.inCidr(actual, v))
  {
    ListedCondition(env, actual, values);
    assert forall v | v in values && '/' !in v :: Holds(env, actual, v) <==> v == actual;
    assert forall v | v in values && '/' in v :: Holds(env, actual, v) <==> env.inCidr(actual, v);
  }

  // ---- classification ----

  /** The commands of the two validators; the first are conditions. */
  const CONDITIONS: set<string> := {
    "ifhost", "ifaz", "iftype", "ifhostip", "iftargetip", "ifproxy1ip", "ifproxy2ip", "ifproxy3ip",
    "iflasthopip", "ifclientip"}

  const ACTIONS: set<string> := {
    "cpu", "memory", "sleep", "size", "status", "addheader", "delheader", "chunk", "stdout", "stderr",
    "disconnect", "addtrailer", "deltrailer", "code", "repeat", "dataonly", "noop"}

  lemma ConditionsAreRecognised()
    ensures forall k | k in CONDITIONS :: IsCondition(k)
    ensures forall k | k in ACTIONS :: !IsCondition(k)
  {
    forall k | k in ACTIONS ensures !IsCondition(k) {
      assert |k| > 1 && k[0] != "if"[0];
    }
  }

  predicate IsCondition(key: string) {
    "if" <= key
  }

  datatype Class = Unknown | Invalid | Action | Match | Unmatch

  /** What a single command of a request is, by itself. */
  function ClassOf(env: Env, key: string, value: string): Class {
    if key !in env.keys then Unknown
    else if !env.accepts(key, value) then Invalid
    else if !IsCondition(key) then Action
    else if JudgeActualValue(env, env.actual(key), value) then Match
    else Unmatch
  }

  function KeysOf(env: Env, input: map<string, string>, kind: Class): set<string> {
    set k | k in input && ClassOf(env, k, input[k]) == kind
  }

  function Recognised(env: Env, input: map<string, string>): set<string> {
    set k | k in input && k in env.keys
  }

  /** Each list holds exactly the keys of its class, each once; nothing is said about the order. */
  ghost predicate Classified(env: Env, input: map<string, string>, cmds: Commands) {
    && multiset(cmds.actions) == multiset(KeysOf(env, input, Action))
    && multiset(cmds.ifMatches) == multiset(KeysOf(env, input, Match))
    && multiset(cmds.ifUnmatches) == multiset(KeysOf(env, input, Unmatch))
    && multiset(cmds.invalids) == multiset(KeysOf(env, input, Invalid))
    && cmds.fields == map k | k in Recognised(env, input) :: input[k]
  }

  /** The four lists are duplicate-free, pairwise disjoint and together exactly the recognised keys. */
  lemma ClassesPartition(env: Env, input: map<string, string>, cmds: Commands)
    requires Classified(env, input, cmds)
    ensures multiset(cmds.actions) + multiset(cmds.ifMatches) + multiset(cmds.ifUnmatches) + multiset(cmds.invalids)
            == multiset(Recognised(env, input))
  {
    forall k ensures k in Recognised(env, input) <==>
      k in KeysOf(env, input, Action) || k in KeysOf(env, input, Match)
      || k in KeysOf(env, input, Unmatch) || k in KeysOf(env, input, Invalid) {}
  }

  method CombineValuesWithOr(input: map<string, seq<string>>) returns (output: map<string, string>)
    ensures output == map k | k in input :: Join(input[k], OR_SEPARATOR)
  {
    output := map[];
    var todo := input.Keys;
    while todo != {}
      invariant todo <= input.Keys
      invariant output == map k | k in input.Keys - todo :: Join(input[k], OR_SEPARATOR)
      decreases todo
    {
      var key :| key in todo;
      output := output[key := Join(input[key], OR_SEPARATOR)];
      todo := todo - {key};
    }
  }

  lemma KeysGrow(env: Env, input: map<string, string>, key: string, value: string, kind: Class)
    requires key !in input
    ensures multiset(KeysOf(env, input[key := value], kind)) == multiset(KeysOf(env, input, kind))
            + (if ClassOf(env, key, value) == kind then multiset{key} else multiset{})
  {
    var next := KeysOf(env, input[key := value], kind);
    assert next == KeysOf(env, input, kind) + if ClassOf(env, key, value) == kind then {key} else {};
  }

  /** Appends a command to the list of its class and sets its field. */
  function File(cmds: Commands, key: string, value: string, kind: Class): Commands {
    match kind
    case Unknown => cmds
    case Invalid => SetValue(cmds, key, value).(invalids := cmds.invalids + [key])
    case Action => SetValue(cmds, key, value).(actions := cmds.actions + [key])
    case Match => SetValue(cmds, key, value).(ifMatches := cmds.ifMatches + [key])
    case Unmatch => SetValue(cmds, key, value).(ifUnmatches := cmds.ifUnmatches + [key])
  }

  lemma RecognisedGrow(env: Env, input: map<string, string>, cmds: Commands, key: string, value: string)
    requires cmds.fields == map k | k in Recognised(env, input) :: input[k]
    ensures var next := input[key := value];
      (if key in env.keys then cmds.fields[key := value] else cmds.fields)
      == map k | k in Recognised(env, next) :: next[k]
  {
    assert key !in env.keys ==> Recognised(env, input[key := value]) == Recognised(env, input);
  }

  /** One more key joins exactly one class, or none when it is not recognised. */
  lemma FileKeeps(env: Env, input: map<string, string>, cmds: Commands, key: string, value: string, kind: Class)
    requires Classified(env, input, cmds) && key !in input && kind == ClassOf(env, key, value)
    requires kind == Unknown <==> key !in env.keys
    ensures Classified(env, input[key := value], File(cmds, key, value, kind))
  {
    KeysGrow(env, input, key, value, Action);
    KeysGrow(env, input, key, value, Match);
    KeysGrow(env, input, key, value, Unmatch);
    KeysGrow(env, input, key, value, Invalid);
    RecognisedGrow(env, input, cmds, key, value);
    var next, filed := input[key := value], File(cmds, key, value, kind);
    assert multiset(filed.actions) == multiset(KeysOf(env, next, Action));
    assert multiset(filed.ifMatches) == multiset(KeysOf(env, next, Match));
    assert multiset(filed.ifUnmatches) == multiset(KeysOf(env, next, Unmatch));
    assert multiset(filed.invalids) == multiset(KeysOf(env, next, Invalid));
  }

  /** The body of the validation loop. */
  method ValidateCommand(env: Env, cmds: Commands, key: string, value: string) returns (cmds': Commands)
    ensures cmds' == File(cmds, key, value, ClassOf(env, key, value))
  {
    cmds' := cmds;
    if key in env.keys {
      cmds' := SetValue(cmds, key, value);
      if env.accepts(key, value) {
        if IsCondition(key) {
          if JudgeActualValue(env, env.actual(key), value) {
            cmds' := cmds'.(ifMatches := cmds'.ifMatches + [key]);
          } else {
            cmds' := cmds'.(ifUnmatches := cmds'.ifUnmatches + [key]);
          }
        } else {
          cmds' := cmds'.(actions := cmds'.actions + [key]);
        }
      } else {
        cmds' := cmds'.(invalids := cmds'.invalids + [key]);
      }
    }
  }

  /** The commands filed one after the other in the order of `keys`. */
  function Filed(env: Env, input: map<string, string>, keys: seq<string>): Commands
    requires forall k | k in keys :: k in input
  {
    if keys == [] then Commands(map[], [], [], [], [])
    else
      var last := keys[|keys| - 1];
      File(Filed(env, input, keys[..|keys| - 1]), last, input[last], ClassOf(env, last, input[last]))
  }

  /** The part of a request with these keys. */
  function Part(input: map<string, string>, keys: seq<string>): map<string, string>
    requires forall k | k in keys :: k in input
  {
    if keys == [] then map[]
    else
      var last := keys[|keys| - 1];
      Part(input, keys[..|keys| - 1])[last := input[last]]
  }

  lemma {:induction false} PartValues(input: map<string, string>, keys: seq<string>)
    requires forall k | k in keys :: k in input
    ensures forall k :: k in Part(input, keys) <==> k in keys
    ensures forall k | k in Part(input, keys) :: Part(input, keys)[k] == input[k]
  {
    if keys != [] {
      var front, last := keys[..|keys| - 1], keys[|keys| - 1];
      PartValues(input, front);
      assert keys == front + [last];
    }
  }

  lemma NothingClassified(env: Env)
    ensures Classified(env, map[], Commands(map[], [], [], [], []))
  {
    assert KeysOf(env, map[], Action) == KeysOf(env, map[], Match) == {};
    assert KeysOf(env, map[], Unmatch) == KeysOf(env, map[], Invalid) == {};
  }

  /** Whatever the order, filing classifies. */
  lemma {:induction false} FiledClassifies(env: Env, input: map<string, string>, keys: seq<string>)
    requires NoRepeats(keys) && forall k | k in keys :: k in input
    ensures Classified(env, Part(input, keys), Filed(env, input, keys))
  {
    if keys == [] {
      NothingClassified(env);
    } else {
      var front, last := keys[..|keys| - 1], keys[|keys| - 1];
      FiledClassifies(env, input, front);
      PartValues(input, front);
      FileKeeps(env, Part(input, front), Filed(env, input, front), last, input[last], ClassOf(env, last, input[last]));
    }
  }

  lemma AllFiled(env: Env, input: map<string, string>, keys: seq<string>)
    requires NoRepeats(keys) && forall k :: k in keys <==> k in input
    ensures Classified(env, input, Filed(env, input, keys))
  {
    FiledClassifies(env, input, keys);
    PartValues(input, keys);
    assert Part(input, keys) == input;
  }

  lemma FileNext(env: Env, input: map<string, string>, keys: seq<string>, key: string)
    requires key in input && forall k | k in keys :: k in input
    ensures Filed(env, input, keys + [key])
            == File(Filed(env, input, keys), key, input[key], ClassOf(env, key, input[key]))
  {
    assert (keys + [key])[..|keys|] == keys;
  }

  /** The keys of the map are visited in an arbitrary order; the classification does not depend on it. */
  method ValidateCommands(env: Env, mapCmds: map<string, seq<string>>) returns (cmds: Commands)
    ensures Classified(env, map k | k in mapCmds :: Join(mapCmds[k], OR_SEPARATOR), cmds)
  {
    var input := CombineValuesWithOr(mapCmds);
    cmds := Commands(map[], [], [], [], []);
    var todo := input.Keys;
    ghost var done: seq<string> := [];
    while todo != {}
      invariant NoRepeats(done) && forall k :: k in done <==> k in input && k !in todo
      invariant todo <= input.Keys
      invariant cmds == Filed(env, input, done)
      decreases todo
    {
      var key :| key in todo;
      FileNext(env, input, done, key);
      cmds := ValidateCommand(env, cmds, key, input[key]);
      done, todo := done + [key], todo - {key};
    }
    AllFiled(env, input, done);
  }

  // ---- whether actions are carried out ----

  predicate NeedsAction(cmds: Commands) {
    cmds.actions != [] && cmds.ifUnmatches == [] && cmds.invalids == []
  }

  /** The command is among the actions that are carried out. */
  predicate Active(cmds: Commands, key: string) {
    NeedsAction(cmds) && key in cmds.actions
  }

  lemma EmptyBag(s: seq<string>, keys: set<string>)
    requires multiset(s) == multiset(keys)
    ensures s == [] <==> keys == {}
    ensures forall k :: k in s <==> k in keys
  {
    forall k ensures k in s <==> k in keys {
      assert k in s <==> k in multiset(s);
    }
    if s != [] {
      assert s[0] in s;
    }
  }

  /** Actions are carried out exactly when there is one, every recognised command is valid
      and all conditions match: different conditions mean AND. */
  lemma NeedsActionIff(env: Env, input: map<string, string>, cmds: Commands)
    requires Classified(env, input, cmds)
    ensures NeedsAction(cmds) <==>
      && (exists k :: k in Recognised(env, input) && !IsCondition(k))
      && (forall k | k in Recognised(env, input) :: env.accepts(k, input[k]))
      && (forall k | k in Recognised(env, input) && IsCondition(k) :: JudgeActualValue(env, env.actual(k), input[k]))
  {
    EmptyBag(cmds.actions, KeysOf(env, input, Action));
    EmptyBag(cmds.ifUnmatches, KeysOf(env, input, Unmatch));
    EmptyBag(cmds.invalids, KeysOf(env, input, Invalid));
    if NeedsAction(cmds) {
      assert cmds.actions[0] in KeysOf(env, input, Action);
      forall k | k in Recognised(env, input) ensures env.accepts(k, input[k]) {
        assert k !in KeysOf(env, input, Invalid);
      }
      forall k | k in Recognised(env, input) && IsCondition(k)
        ensures JudgeActualValue(env, env.actual(k), input[k])
      {
        assert k !in KeysOf(env, input, Unmatch);
      }
    } else if (exists k :: k in Recognised(env, input) && !IsCondition(k))
      && forall k | k in Recognised(env, input) :: env.accepts(k, input[k]) {
      var k :| k in Recognised(env, input) && !IsCondition(k);
      assert k in KeysOf(env, input, Action);
    }
  }

  /** The same for the values as they were given: actions are carried out if and only if there is one, every
      recognised command is valid, and of every condition some listed value holds. */
  lemma NeedsActionMeaning(env: Env, query: map<string, seq<string>>, input: map<string, string>, cmds: Commands)
    requires Classified(env, input, cmds)
    requires input.Keys == query.Keys && forall k | k in query :: input[k] == Join(query[k], OR_SEPARATOR)
    requires forall k | k in query && IsCondition(k) :: query[k] != [] && forall v | v in query[k] :: ' ' !in v
    ensures NeedsAction(cmds) <==>
      && (exists k :: k in Recognised(env, input) && !IsCondition(k))
      && (forall k | k in Recognised(env, input) :: env.accepts(k, input[k]))
      && (forall k | k in Recognised(env, input) && IsCondition(k) ::
            exists v :: v in query[k] && Holds(env, env.actual(k), v))
  {
    NeedsActionIff(env, input, cmds);
    forall k | k in Recognised(env, input) && IsCondition(k)
      ensures JudgeActualValue(env, env.actual(k), input[k])
          <==> exists v :: v in query[k] && Holds(env, env.actual(k), v)
    {
      ListedCondition(env, env.actual(k), query[k]);
    }
  }

  // ---- evaluation ----

  predicate IsNumRange(v: string) {
    var i := Find(v, "-");
    if i == |v| then Digits(v) else Digits(v[..i]) && Digits(v[i + 1..])
  }

  /** The bounds of a range of digits, as Atoi reads them, in increasing order. */
  function Bounds(v: string): (int, int) {
    var values := Split(v, "-");
    if |values| == 1 then (AtoiValue(v), AtoiValue(v))
    else
      var lo, hi := AtoiValue(values[0]), AtoiValue(values[1]);
      if lo > hi then (hi, lo) else (lo, hi)
  }

  predicate IsRangeKey(key: string) {
    key == "sleep" || key == "size" || key == "repeat"
  }

  /** rand.Intn(hi - lo + 1) panics when its argument overflows to a negative number. */
  predicate RangePanics(v: string) {
    |Split(v, "-")| > 1 && Bounds(v).1 - Bounds(v).0 + 1 > MAX_INT
  }

  /** `random` stands for the random source: rand.Intn(n) is its value modulo n. */
  function ActionValue(key: string, v: string, random: nat): string
    requires IsRangeKey(key) ==> IsNumRange(v)
  {
    if IsRangeKey(key) then
      if |Split(v, "-")| == 1 then v
      else
        var (lo, hi) := Bounds(v);
        RangeIsNat(v);
        Itoa(lo + random % (hi - lo + 1))
    else if key == "chunk" then "chunked when using HTTP/1.1"
    else v
  }

  lemma SplitRange(v: string)
    requires IsNumRange(v)
    ensures var i := Find(v, "-");
      if i == |v| then Split(v, "-") == [v] else Split(v, "-") == [v[..i], v[i + 1..]]
  {
    var i := Find(v, "-");
    if i < |v| {
      var rest := v[i + 1..];
      assert '-' !in rest;
      FindNothing(rest, "-");
    }
  }

  lemma RangeIsNat(v: string)
    requires IsNumRange(v)
    ensures 0 <= Bounds(v).0 <= Bounds(v).1 <= MAX_INT
    ensures 0 <= AtoiValue(v) || |Split(v, "-")| > 1
  {
    SplitRange(v);
    var i := Find(v, "-");
    if i == |v| {
      AtoiDigits(v);
    } else {
      AtoiDigits(v[..i]);
      AtoiDigits(v[i + 1..]);
    }
  }

  /** The smaller and the larger of the two numbers written in a range (equal for a single number). */
  function Written(v: string): (nat, nat)
    requires IsNumRange(v)
  {
    var i := Find(v, "-");
    if i == |v| then (Value(v), Value(v))
    else
      var a, b := Value(v[..i]), Value(v[i + 1..]);
      if a > b then (b, a) else (a, b)
  }

  lemma BoundsWritten(v: string)
    requires IsNumRange(v)
    ensures Bounds(v) == (Clip(Written(v).0), Clip(Written(v).1))
    ensures Find(v, "-") == |v| <==> |Split(v, "-")| == 1
  {
    SplitRange(v);
    var i := Find(v, "-");
    if i == |v| {
      AtoiDigits(v);
    } else {
      AtoiDigits(v[..i]);
      AtoiDigits(v[i + 1..]);
    }
  }

  lemma ModuloBelow(x: nat, m: nat)
    requires m > 0
    ensures 0 <= x % m < m
  {
  }

  lemma PickInBounds(lo: nat, hi: nat, random: nat)
    requires lo <= hi <= MAX_INT
    ensures lo <= AtoiValue(Itoa(lo + random % (hi - lo + 1))) <= hi
  {
    ModuloBelow(random, hi - lo + 1);
    AtoiItoa(lo + random % (hi - lo + 1));
  }

  lemma SingleValue(key: string, v: string, random: nat)
    requires IsRangeKey(key) && IsNumRange(v) && Find(v, "-") == |v|
    ensures ActionValue(key, v, random) == v && Digits(v) && Written(v) == (Value(v), Value(v))
  {
    SplitRange(v);
  }

  lemma PickedValue(key: string, v: string, random: nat) returns (lo: nat, hi: nat)
    requires IsRangeKey(key) && IsNumRange(v) && Find(v, "-") < |v|
    ensures lo == Clip(Written(v).0) && hi == Clip(Written(v).1) && lo <= hi <= MAX_INT
    ensures ActionValue(key, v, random) == Itoa(lo + random % (hi - lo + 1))
  {
    lo, hi := ClippedBounds(v);
    ValueOfRange(key, v, random, lo, hi);
  }

  lemma ClippedBounds(v: string) returns (lo: nat, hi: nat)
    requires IsNumRange(v)
    ensures Bounds(v) == (lo, hi) && lo == Clip(Written(v).0) && hi == Clip(Written(v).1) && lo <= hi <= MAX_INT
  {
    BoundsWritten(v);
    RangeIsNat(v);
    lo, hi := Bounds(v).0, Bounds(v).1;
  }

  lemma ValueOfRange(key: string, v: string, random: nat, lo: nat, hi: nat)
    requires IsRangeKey(key) && IsNumRange(v) && Find(v, "-") < |v| && lo <= hi && Bounds(v) == (lo, hi)
    ensures ActionValue(key, v, random) == Itoa(lo + random % (hi - lo + 1))
  {
    SplitRange(v);
  }

  /** For either order of the bounds and every random choice the evaluated value reads back
      as a number between the two written ones (as far as an int can hold them). */
  lemma RangeValueInBounds(key: string, v: string, random: nat)
    requires IsRangeKey(key) && IsNumRange(v)
    ensures Clip(Written(v).0) <= AtoiValue(ActionValue(key, v, random)) <= Clip(Written(v).1)
    ensures Digits(ActionValue(key, v, random))
  {
    if Find(v, "-") == |v| {
      SingleValue(key, v, random);
      AtoiDigits(v);
    } else {
      PickedInBounds(key, v, random);
    }
  }

  lemma PickedInBounds(key: string, v: string, random: nat)
    requires IsRangeKey(key) && IsNumRange(v) && Find(v, "-") < |v|
    ensures Clip(Written(v).0) <= AtoiValue(ActionValue(key, v, random)) <= Clip(Written(v).1)
    ensures Digits(ActionValue(key, v, random))
  {
    var lo, hi := PickedValue(key, v, random);
    PickInBounds(lo, hi, random);
  }

  /** Unless the pick panics, every value between the bounds, as far as an int can hold them, is the outcome
      of some random choice. */
  lemma RangeValueReachable(key: string, v: string, n: nat)
    requires IsRangeKey(key) && IsNumRange(v) && !RangePanics(v)
    requires Clip(Written(v).0) <= n <= Clip(Written(v).1)
    ensures exists random: nat :: AtoiValue(ActionValue(key, v, random)) == n
  {
    if Find(v, "-") == |v| {
      SingleValue(key, v, 0);
      AtoiDigits(v);
      assert AtoiValue(ActionValue(key, v, 0)) == n;
    } else {
      PickReaches(key, v, n);
    }
  }

  lemma PickReaches(key: string, v: string, n: nat)
    requires IsRangeKey(key) && IsNumRange(v) && Find(v, "-") < |v|
    requires Clip(Written(v).0) <= n <= Clip(Written(v).1)
    ensures exists random: nat :: AtoiValue(ActionValue(key, v, random)) == n
  {
    var lo, hi := PickedValue(key, v, 0);
    var random: nat := n - lo;
    PickAt(key, v, n, lo, hi, random);
  }

  lemma PickAt(key: string, v: string, n: nat, lo: nat, hi: nat, random: nat)
    requires IsRangeKey(key) && IsNumRange(v) && Find(v, "-") < |v|
    requires lo == Clip(Written(v).0) && hi == Clip(Written(v).1) && lo <= n <= hi && random == n - lo
    ensures AtoiValue(ActionValue(key, v, random)) == n
  {
    var lo', hi' := PickedValue(key, v, random);
    PickExact(lo', hi', random, n);
  }

  lemma PickExact(lo: nat, hi: nat, random: nat, n: nat)
    requires lo <= n <= hi <= MAX_INT && random == n - lo
    ensures AtoiValue(Itoa(lo + random % (hi - lo + 1))) == n
  {
    SmallModulo(random, hi - lo + 1);
    AtoiItoa(n);
  }

  /** Evaluating a range fails exactly when it spans all of 0 up to the largest int or beyond. */
  lemma RangePanicsIff(v: string)
    requires IsNumRange(v)
    ensures RangePanics(v) <==> Find(v, "-") < |v| && Written(v).0 == 0 && Written(v).1 >= MAX_INT
  {
    BoundsWritten(v);
    RangeIsNat(v);
  }

  /** Two texts of digits with a hyphen between them are a range of their values. */
  lemma WrittenPair(a: string, b: string)
    requires Digits(a) && Digits(b)
    ensures IsNumRange(a + "-" + b) && Find(a + "-" + b, "-") == |a|
    ensures Written(a + "-" + b) == if Value(a) > Value(b) then (Value(b), Value(a)) else (Value(a), Value(b))
  {
    var v := a + "-" + b;
    assert '-' !in a;
    FindFirst(a, "-", b);
    assert v[..|a|] == a && v[|a| + 1..] == b;
  }

  /** The decimal texts of 0 and of the largest int with a hyphen between them: a range that panics. */
  lemma WidestRangePanics()
    ensures IsNumRange("0" + "-" + Itoa(MAX_INT)) && RangePanics("0" + "-" + Itoa(MAX_INT))
  {
    ZeroText();
    ValueItoa(MAX_INT);
    WrittenPair("0", Itoa(MAX_INT));
    RangePanicsIff("0" + "-" + Itoa(MAX_INT));
  }

  lemma ZeroText()
    ensures Digits("0") && Value("0") == 0
  {
    assert "0"[..0] == "";
  }

  ghost predicate WellTyped(cmds: Commands) {
    forall k | k in cmds.actions && IsRangeKey(k) :: IsNumRange(Field(cmds, k))
  }

  /** The validator accepts only number ranges for sleep, size and repeat. */
  ghost predicate RangePatterns(env: Env) {
    forall k, v | IsRangeKey(k) && env.accepts(k, v) :: IsNumRange(v)
  }

  lemma ActionsWellTyped(env: Env, input: map<string, string>, cmds: Commands)
    requires RangePatterns(env) && Classified(env, input, cmds)
    ensures WellTyped(cmds)
    ensures forall k | k in cmds.actions :: k in input && env.accepts(k, input[k]) && Field(cmds, k) == input[k]
  {
    EmptyBag(cmds.actions, KeysOf(env, input, Action));
  }

  predicate ActionPanics(cmds: Commands, key: string) {
    IsRangeKey(key) && RangePanics(Field(cmds, key))
  }

  predicate EvaluatePanics(cmds: Commands) {
    exists k :: k in cmds.actions && ActionPanics(cmds, k)
  }

  function ActionValues(cmds: Commands, random: string -> nat): map<string, string>
    requires WellTyped(cmds)
  {
    map k | k in cmds.actions :: ActionValue(k, Field(cmds, k), random(k))
  }

  /** `values` and `failing` are the values of the actions and the actions whose evaluation panics. */
  ghost predicate Outcomes(cmds: Commands, random: string -> nat, values: map<string, string>, failing: set<string>) {
    forall k {:trigger ActionPanics(cmds, k)} | k in cmds.actions ::
      && (IsRangeKey(k) ==> IsNumRange(Field(cmds, k)))
      && (k in failing <==> ActionPanics(cmds, k))
      && k in values && values[k] == ActionValue(k, Field(cmds, k), random(k))
  }

  function Marks(keys: seq<string>, mark: string): map<string, string> {
    map k | k in keys :: mark
  }

  function Overlay(cmds: Commands, values: map<string, string>): map<string, string> {
    var invalid := Marks(cmds.invalids, "invalid");
    if cmds.actions == [] then invalid
    else invalid + Marks(cmds.ifMatches, "matched") + Marks(cmds.ifUnmatches, "unmatched") + values
  }

  /** The result of evaluation as a function of what the lists contain, not of their order. */
  function Evaluated(cmds: Commands, random: string -> nat): map<string, string>
    requires WellTyped(cmds)
  {
    Overlay(cmds, ActionValues(cmds, random))
  }

  /** Setting the fields named in `keys` one after the other. */
  function Assign(base: map<string, string>, keys: seq<string>, values: map<string, string>): map<string, string>
    requires forall k | k in keys :: k in values
  {
    if keys == [] then base
    else
      var last := keys[|keys| - 1];
      Assign(base, keys[..|keys| - 1], values)[last := values[last]]
  }

  lemma {:induction false} AssignPointwise(base: map<string, string>, keys: seq<string>, values: map<string, string>)
    requires forall k | k in keys :: k in values
    ensures var r := Assign(base, keys, values);
      && (forall k :: k in r <==> k in base || k in keys)
      && (forall k | k in r :: r[k] == if k in keys then values[k] else base[k])
  {
    if keys != [] {
      var front, last := keys[..|keys| - 1], keys[|keys| - 1];
      AssignPointwise(base, front, values);
      assert forall k :: k in keys <==> k in front || k == last by {
        assert keys == front + [last];
      }
    }
  }

  lemma AssignNext(base: map<string, string>, keys: seq<string>, values: map<string, string>, i: nat)
    requires i < |keys| && forall k | k in keys :: k in values
    ensures Assign(base, keys[..i + 1], values) == Assign(base, keys[..i], values)[keys[i] := values[keys[i]]]
  {
    assert keys[..i + 1][..i] == keys[..i];
  }

  lemma AssignIsSum(base: map<string, string>, keys: seq<string>, values: map<string, string>)
    requires values.Keys == set k | k in keys
    ensures Assign(base, keys, values) == base + values
  {
    AssignPointwise(base, keys, values);
  }

  method MarkAll(base: map<string, string>, keys: seq<string>, mark: string) returns (result: map<string, string>)
    ensures result == base + Marks(keys, mark)
  {
    result := base;
    ghost var values := Marks(keys, mark);
    for i := 0 to |keys|
      invariant result == Assign(base, keys[..i], values)
    {
      AssignNext(base, keys, values, i);
      result := result[keys[i] := mark];
    }
    assert keys[..|keys|] == keys;
    AssignIsSum(base, keys, values);
  }

  method PickFromRange(key: string, v: string, random: nat) returns (panics: bool, value: string)
    requires IsRangeKey(key) && IsNumRange(v)
    ensures panics <==> RangePanics(v)
    ensures !panics ==> value == ActionValue(key, v, random)
  {
    SplitRange(v);
    var values := Split(v, "-");
    if |values| == 1 {
      return false, v;
    }
    var minValue, maxValue := AtoiValue(values[0]), AtoiValue(values[1]);
    if minValue > maxValue {
      minValue, maxValue := maxValue, minValue;
    }
    RangeIsNat(v);
    if maxValue - minValue + 1 > MAX_INT {
      return true, "";
    }
    return false, Itoa(minValue + random % (maxValue - minValue + 1));
  }

  /** getActionValue of one action: the value, unless the random pick panics. */
  method GetActionValue(cmds: Commands, action: string, random: string -> nat, ghost values: map<string, string>,
                        ghost failing: set<string>) returns (panics: bool, value: string)
    requires Outcomes(cmds, random, values, failing) && action in cmds.actions
    ensures panics <==> action in failing
    ensures !panics ==> action in values && value == values[action]
  {
    assert ActionPanics(cmds, action) <==> action in failing;
    panics, value := false, Field(cmds, action);
    if IsRangeKey(action) {
      panics, value := PickFromRange(action, value, random(action));
    } else if action == "chunk" {
      value := "chunked when using HTTP/1.1";
    }
  }

  method EvaluateActions(base: map<string, string>, cmds: Commands, random: string -> nat,
                         ghost values: map<string, string>, ghost failing: set<string>)
      returns (panics: bool, result: map<string, string>)
    requires Outcomes(cmds, random, values, failing) && values.Keys == set k | k in cmds.actions
    ensures panics <==> exists k :: k in cmds.actions && k in failing
    ensures !panics ==> result == base + values
  {
    panics, result := false, base;
    for i := 0 to |cmds.actions|
      invariant result == Assign(base, cmds.actions[..i], values)
      invariant forall j | 0 <= j < i :: cmds.actions[j] !in failing
    {
      var action := cmds.actions[i];
      var value;
      panics, value := GetActionValue(cmds, action, random, values, failing);
      if panics {
        return true, result;
      }
      AssignNext(base, cmds.actions, values, i);
      result := result[action := value];
    }
    assert cmds.actions[..|cmds.actions|] == cmds.actions;
    AssignIsSum(base, cmds.actions, values);
  }

  function Failing(cmds: Commands): set<string> {
    set k | k in cmds.actions && ActionPanics(cmds, k)
  }

  method Evaluate(cmds: Commands, random: string -> nat) returns (panics: bool, result: map<string, string>)
    requires WellTyped(cmds)
    ensures panics <==> EvaluatePanics(cmds)
    ensures !panics ==> result == Evaluated(cmds, random)
  {
    result := MarkAll(map[], cmds.invalids, "invalid");
    assert map[] + Marks(cmds.invalids, "invalid") == Marks(cmds.invalids, "invalid");
    if |cmds.actions| == 0 {
      return false, result;
    }
    result := MarkAll(result, cmds.ifMatches, "matched");
    result := MarkAll(result, cmds.ifUnmatches, "unmatched");
    panics, result := EvaluateActions(result, cmds, random, ActionValues(cmds, random), Failing(cmds));
  }

  lemma SameMembers(s: seq<string>, t: seq<string>)
    requires multiset(s) == multiset(t)
    ensures s == [] <==> t == []
    ensures forall k :: k in s <==> k in t
  {
    forall k ensures k in s <==> k in t {
      assert k in s <==> k in multiset(s);
    }
    assert |s| == |multiset(s)| == |t|;
  }

  lemma SameMarks(s: seq<string>, t: seq<string>, mark: string)
    requires multiset(s) == multiset(t)
    ensures Marks(s, mark) == Marks(t, mark)
  {
    SameMembers(s, t);
  }

  lemma SameOverlay(c: Commands, d: Commands, values: map<string, string>)
    requires multiset(c.actions) == multiset(d.actions) && multiset(c.ifMatches) == multiset(d.ifMatches)
    requires multiset(c.ifUnmatches) == multiset(d.ifUnmatches) && multiset(c.invalids) == multiset(d.invalids)
    ensures Overlay(c, values) == Overlay(d, values) && NeedsAction(c) == NeedsAction(d)
  {
    SameMembers(c.actions, d.actions);
    SameMembers(c.invalids, d.invalids);
    SameMembers(c.ifUnmatches, d.ifUnmatches);
    SameMarks(c.ifMatches, d.ifMatches, "matched");
    SameMarks(c.ifUnmatches, d.ifUnmatches, "unmatched");
    SameMarks(c.invalids, d.invalids, "invalid");
  }

  lemma SameActionValues(c: Commands, d: Commands, random: string -> nat)
    requires multiset(c.actions) == multiset(d.actions) && c.fields == d.fields && WellTyped(c) && WellTyped(d)
    ensures ActionValues(c, random) == ActionValues(d, random)
    ensures EvaluatePanics(c) == EvaluatePanics(d)
  {
    SameMembers(c.actions, d.actions);
  }

  /** Two classifications of the same request evaluate to the same fields, whatever order
      the keys were visited in. */
  lemma EvaluateIgnoresOrder(env: Env, input: map<string, string>, c: Commands, d: Commands, random: string -> nat)
    requires Classified(env, input, c) && Classified(env, input, d) && WellTyped(c) && WellTyped(d)
    ensures Evaluated(c, random) == Evaluated(d, random)
    ensures NeedsAction(c) == NeedsAction(d) && EvaluatePanics(c) == EvaluatePanics(d)
  {
    SameActionValues(c, d, random);
    SameOverlay(c, d, ActionValues(c, random));
  }

  lemma MarkedFields(env: Env, input: map<string, string>, cmds: Commands, k: string)
    requires Classified(env, input, cmds)
    ensures k in cmds.actions <==> k in input && ClassOf(env, k, input[k]) == Action
    ensures k in cmds.ifMatches <==> k in input && ClassOf(env, k, input[k]) == Match
    ensures k in cmds.ifUnmatches <==> k in input && ClassOf(env, k, input[k]) == Unmatch
    ensures k in cmds.invalids <==> k in input && ClassOf(env, k, input[k]) == Invalid
  {
    EmptyBag(cmds.actions, KeysOf(env, input, Action));
    EmptyBag(cmds.ifMatches, KeysOf(env, input, Match));
    EmptyBag(cmds.ifUnmatches, KeysOf(env, input, Unmatch));
    EmptyBag(cmds.invalids, KeysOf(env, input, Invalid));
  }

  /** The result of a command: refused ones are marked invalid; if there is an action at all, conditions are
      marked by whether they hold, and every action has its value: its own, apart from ranges and chunk. */
  lemma EvaluatedField(env: Env, input: map<string, string>, cmds: Commands, random: string -> nat, k: string)
    requires Classified(env, input, cmds) && WellTyped(cmds)
    ensures var r := Evaluated(cmds, random);
      if k !in Recognised(env, input) then k !in r
      else if !env.accepts(k, input[k]) then k in r && r[k] == "invalid"
      else if cmds.actions == [] then k !in r
      else
        && k in r
        && (IsCondition(k) ==>
              r[k] == if JudgeActualValue(env, env.actual(k), input[k]) then "matched" else "unmatched")
        && (!IsCondition(k) && ((k != "sleep" && k != "size" && k != "repeat") || '-' !in input[k]) ==>
              r[k] == if k == "chunk" then "chunked when using HTTP/1.1" else input[k])
  {
    MarkedFields(env, input, cmds, k);
    if k in cmds.actions {
      FieldValue(env, input, cmds, random, k);
    }
  }

  lemma FieldValue(env: Env, input: map<string, string>, cmds: Commands, random: string -> nat, k: string)
    requires Classified(env, input, cmds) && WellTyped(cmds) && k in cmds.actions && k in Recognised(env, input)
    ensures Evaluated(cmds, random)[k] == ActionValue(k, Field(cmds, k), random(k)) && Field(cmds, k) == input[k]
    ensures IsRangeKey(k) && '-' !in input[k] ==> ActionValue(k, input[k], random(k)) == input[k]
  {
    if IsRangeKey(k) && '-' !in input[k] {
      FindNothing(input[k], "-");
      SingleValue(k, input[k], random(k));
    }
  }

  /** The other values: an active sleep, size or repeat has a value between the two numbers given. */
  lemma EvaluatedRange(env: Env, input: map<string, string>, cmds: Commands, random: string -> nat, k: string)
    requires Classified(env, input, cmds) && WellTyped(cmds) && k in cmds.actions
    requires k == "sleep" || k == "size" || k == "repeat"
    ensures k in input && IsNumRange(input[k]) && k in Evaluated(cmds, random)
    ensures Clip(Written(input[k]).0) <= AtoiValue(Evaluated(cmds, random)[k]) <= Clip(Written(input[k]).1)
  {
    MarkedFields(env, input, cmds, k);
    FieldValue(env, input, cmds, random, k);
    RangeValueInBounds(k, input[k], random(k));
  }
}
