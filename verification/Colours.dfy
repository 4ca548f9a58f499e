/** The colours of connected clients: multiset subtraction, the random pick, and distinctness. */
module Colours {
  import opened Strings
  import opened HubProtocol

  const DEF_COLORS: seq<string> := [
    "aqua", "black", "blue", "fuchsia", "gray", "green", "lime", "maroon",
    "navy", "olive", "purple", "silver", "teal", "white", "yellow"]

  // ---- diffSlice ----

  /** What is left of a when, for each value, its first m[v] occurrences are dropped. */
  function Subtract<T(==)>(a: seq<T>, m: multiset<T>): seq<T> {
    if a == [] then []
    else if a[0] in m then Subtract(a[1..], m[a[0] := m[a[0]] - 1])
    else [a[0]] + Subtract(a[1..], m)
  }

  predicate IsSubsequence<T(==)>(d: seq<T>, a: seq<T>) {
    if d == [] then true
    else if a == [] then false
    else if d[0] == a[0] then IsSubsequence(d[1..], a[1..])
    else IsSubsequence(d, a[1..])
  }

  /** Each value is left max(0, its count in a minus its count in m) times, in the order of a. */
  lemma {:induction false} SubtractIsMultisetDifference<T>(a: seq<T>, m: multiset<T>)
    ensures multiset(Subtract(a, m)) == multiset(a) - m
    ensures IsSubsequence(Subtract(a, m), a)
    decreases |a|
  {
    if a != [] {
      assert a == [a[0]] + a[1..];
      if a[0] in m {
        SubtractIsMultisetDifference(a[1..], m[a[0] := m[a[0]] - 1]);
        Skips(Subtract(a, m), a);
      } else {
        SubtractIsMultisetDifference(a[1..], m);
      }
    }
  }

  lemma {:induction false} Skips<T>(d: seq<T>, a: seq<T>)
    requires a != [] && IsSubsequence(d, a[1..])
    ensures IsSubsequence(d, a)
    decreases |a|, 0
  {
    if d != [] && d[0] == a[0] {
      DropFirst(d, a[1..]);
    }
  }

  lemma {:induction false} DropFirst<T>(d: seq<T>, a: seq<T>)
    requires d != [] && IsSubsequence(d, a)
    ensures IsSubsequence(d[1..], a)
    decreases |a|, 1
  {
    if d[0] == a[0] {
      Skips(d[1..], a);
    } else {
      DropFirst(d, a[1..]);
      Skips(d[1..], a);
    }
  }

  /** The counting map agrees with the multiset m; a count that reaches zero has no key. */
  ghost predicate Counts<T(!new)>(cmpMap: map<T, int>, m: multiset<T>) {
    forall v :: (v in cmpMap <==> v in m) && (v in cmpMap ==> cmpMap[v] == m[v])
  }

  method DiffSlice<T(==, !new)>(slice1: seq<T>, slice2: seq<T>) returns (diff: seq<T>)
    ensures diff == Subtract(slice1, multiset(slice2))
    ensures multiset(diff) == multiset(slice1) - multiset(slice2) && IsSubsequence(diff, slice1)
  {
    diff := [];
    var cmpMap: map<T, int> := map[];
    for i := 0 to |slice2|
      invariant Counts(cmpMap, multiset(slice2[..i]))
    {
      var v := slice2[i];
      assert slice2[..i + 1] == slice2[..i] + [v];
      cmpMap := cmpMap[v := (if v in cmpMap then cmpMap[v] else 0) + 1];
    }
    assert slice2[..|slice2|] == slice2;
    ghost var left := multiset(slice2);
    for i := 0 to |slice1|
      invariant Counts(cmpMap, left)
      invariant Subtract(slice1, multiset(slice2)) == diff + Subtract(slice1[i..], left)
    {
      var v := slice1[i];
      if v !in cmpMap {
        diff := diff + [v];
      } else {
        left := left[v := left[v] - 1];
        if cmpMap[v] == 1 {
          cmpMap := cmpMap - {v};
        } else {
          cmpMap := cmpMap[v := cmpMap[v] - 1];
        }
      }
    }
    SubtractIsMultisetDifference(slice1, multiset(slice2));
  }

  // ---- getRandomColor ----

  /** A colour is taken from the unused ones; only when all are in use may one be shared. */
  predicate Picked(color: string, used: set<string>) {
    PickedFrom(DEF_COLORS, color, used)
  }

  predicate PickedFrom(all: seq<string>, color: string, used: set<string>) {
    color in all && (color in used ==> forall c | c in all :: c in used)
  }

  /** The colours that are not in use, in their order. */
  function Unused(all: seq<string>, used: set<string>): seq<string> {
    if all == [] then []
    else (if all[0] in used then [] else [all[0]]) + Unused(all[1..], used)
  }

  lemma {:induction false} UnusedHas(all: seq<string>, used: set<string>, c: string)
    ensures c in Unused(all, used) <==> c in all && c !in used
  {
    if all != [] {
      UnusedHas(all[1..], used, c);
    }
  }

  lemma {:induction false} LeftIsUnused(all: seq<string>, used: set<string>, m: multiset<string>)
    requires NoRepeats(all) && forall c | c in all :: c in m <==> c in used
    ensures Subtract(all, m) == Unused(all, used)
    decreases |all|
  {
    if all != [] {
      var rest := all[1..];
      assert forall k | 0 <= k < |rest| :: rest[k] == all[k + 1];
      LeftIsUnused(rest, used, if all[0] in m then m[all[0] := m[all[0]] - 1] else m);
    }
  }

  /** The pick from the colours for a random choice: from the unused ones, or from all when none is left. */
  function Choice(all: seq<string>, used: set<string>, random: nat): string
    requires all != []
  {
    var left := Unused(all, used);
    if left == [] then all[random % |all|] else left[random % |left|]
  }

  lemma ChoiceIsPicked(all: seq<string>, used: set<string>, random: nat)
    requires all != []
    ensures PickedFrom(all, Choice(all, used, random), used)
  {
    var left := Unused(all, used);
    forall c ensures c in left <==> c in all && c !in used {
      UnusedHas(all, used, c);
    }
    if left != [] {
      assert left[random % |left|] in left;
    }
  }

  /** Every unused colour is the pick for some random choice, and so is every colour when none is left. */
  lemma EveryColourCanBePicked(all: seq<string>, used: set<string>, c: string) returns (random: nat)
    requires c in all && (c in used ==> forall d | d in all :: d in used)
    ensures Choice(all, used, random) == c
  {
    var left := Unused(all, used);
    forall d ensures d in left <==> d in all && d !in used {
      UnusedHas(all, used, d);
    }
    var from := if left == [] then all else left;
    assert c in from by {
      if left != [] {
        assert left[0] in left;
      }
    }
    random :| 0 <= random < |from| && from[random] == c;
    SmallModulo(random, |from|);
  }

  lemma DefaultColorsDiffer()
    ensures NoRepeats(DEF_COLORS)
  {
    var d := DEF_COLORS;
    forall i, j | 0 <= i < j < |d| ensures d[i] != d[j] {
      assert |d[i]| != |d[j]| || d[i][0] != d[j][0];
    }
  }

  /** The used colours without repetition; random stands for rand.Intn's source. */
  method PickColor(all: seq<string>, colors: seq<string>, random: nat) returns (color: string)
    requires NoRepeats(all) && all != []
    ensures color == Choice(all, (set c | c in colors), random)
  {
    var usedColors := Unique(colors);
    var diffColors := DiffSlice(all, usedColors);
    LeftIsUnused(all, (set c | c in colors), multiset(usedColors));
    color := if diffColors == [] then all[random % |all|] else diffColors[random % |diffColors|];
  }

  method Unique(colors: seq<string>) returns (usedColors: seq<string>)
    ensures NoRepeats(usedColors) && forall c :: c in usedColors <==> c in colors
  {
    usedColors := [];
    for i := 0 to |colors|
      invariant NoRepeats(usedColors)
      invariant forall c :: c in usedColors <==> c in colors[..i]
    {
      if colors[i] !in usedColors {
        usedColors := usedColors + [colors[i]];
      }
    }
  }

  /** The colours of the registered clients are given in any order. */
  method GetRandomColor(colors: seq<string>, random: nat) returns (color: string)
    ensures color == Choice(DEF_COLORS, (set c | c in colors), random) && Picked(color, set c | c in colors)
  {
    DefaultColorsDiffer();
    color := PickColor(DEF_COLORS, colors, random);
    ChoiceIsPicked(DEF_COLORS, (set c | c in colors), random);
  }

  // ---- colours in every run of the hub ----

  function Used(s: State): set<string>
    requires s.clients <= s.members.Keys
  {
    set id | id in s.clients :: s.members[id].color
  }

  /** Every registration picks its colour from the clients registered at that moment, and there
      are never more than `most` clients. */
  ghost predicate ColouredRun(s: State, steps: seq<Step>, s': State, most: nat)
    requires s.clients <= s.members.Keys
    decreases |steps|
  {
    |s.clients| <= most &&
    if steps == [] then s == s'
    else
      Enabled(s, steps[0]) && (steps[0].Register? ==> Picked(steps[0].color, Used(s)))
      && Apply(s, steps[0]).clients <= Apply(s, steps[0]).members.Keys
      && ColouredRun(Apply(s, steps[0]), steps[1..], s', most)
  }

  predicate Distinct(s: State) {
    && s.clients <= s.members.Keys
    && forall i, j | i in s.clients && j in s.clients && i != j :: s.members[i].color != s.members[j].color
  }

  lemma {:induction false} ElementCount<T>(a: seq<T>)
    requires NoRepeats(a)
    ensures |set x | x in a| == |a|
  {
    if a != [] {
      assert forall k | 0 <= k < |a[1..]| :: a[1..][k] == a[k + 1];
      ElementCount(a[1..]);
      assert (set x | x in a) == (set x | x in a[1..]) + {a[0]};
    }
  }

  lemma {:induction false} UsedAtMost(s: State, ids: set<nat>, used: set<string>)
    requires ids <= s.members.Keys && forall c | c in used :: exists id :: id in ids && s.members[id].color == c
    ensures |used| <= |ids|
    decreases |ids|
  {
    if used != {} {
      var c :| c in used;
      var id :| id in ids && s.members[id].color == c;
      UsedAtMost(s, ids - {id}, used - {c});
    }
  }

  /** With fewer than 15 clients some colour is unused, so the pick is one. */
  lemma PickIsFresh(s: State, color: string)
    requires s.clients <= s.members.Keys && |s.clients| < 15 && Picked(color, Used(s))
    ensures color !in Used(s)
  {
    DefaultColorsDiffer();
    ElementCount(DEF_COLORS);
    UsedAtMost(s, s.clients, Used(s));
    var all := set x | x in DEF_COLORS;
    if all <= Used(s) {
      Larger(all, Used(s));
    }
  }

  lemma {:induction false} Larger<T>(a: set<T>, b: set<T>)
    requires a <= b
    ensures |a| <= |b|
  {
    assert b == a + (b - a);
  }

  lemma StepKeepsDistinct(s: State, step: Step)
    requires Distinct(s) && Enabled(s, step) && |Apply(s, step).clients| <= 15
    requires s.todo <= s.clients
    requires step.Register? ==> Picked(step.color, Used(s))
    ensures Distinct(Apply(s, step))
  {
    if step.Register? {
      if step.id !in s.clients {
        assert Apply(s, step).clients - {step.id} == s.clients;
        PickIsFresh(s, step.color);
      }
    }
  }

  /** In every run that never exceeds 15 clients, connected clients have different colours. */
  lemma {:induction false} ColoursStayDistinct(s: State, steps: seq<Step>, s': State)
    requires Distinct(s) && s.todo <= s.clients && ColouredRun(s, steps, s', 15)
    ensures Distinct(s')
    decreases |steps|
  {
    if steps != [] {
      assert |Apply(s, steps[0]).clients| <= 15 by {
        assert ColouredRun(Apply(s, steps[0]), steps[1..], s', 15);
      }
      StepKeepsDistinct(s, steps[0]);
      ColoursStayDistinct(Apply(s, steps[0]), steps[1..], s');
    }
  }

  /** With more clients than colours two of them must share one. */
  lemma SixteenMustShare(s: State)
    requires s.clients <= s.members.Keys && |s.clients| > 15
    requires forall id | id in s.clients :: s.members[id].color in DEF_COLORS
    ensures !Distinct(s)
  {
    if Distinct(s) {
      var all := set x | x in DEF_COLORS;
      FewerThan(s, s.clients, all);
      DefaultColorsDiffer();
      ElementCount(DEF_COLORS);
    }
  }

  lemma {:induction false} FewerThan(s: State, ids: set<nat>, colors: set<string>)
    requires Distinct(s) && ids <= s.clients && forall id | id in ids :: s.members[id].color in colors
    ensures |ids| <= |colors|
    decreases |ids|
  {
    if ids != {} {
      var id :| id in ids;
      FewerThan(s, ids - {id}, colors - {s.members[id].color});
    }
  }
}
