/** The commands Code{n} and Sleep{ms} inside the name of an unregistered gRPC method. */
module MethodNames {
  import opened Strings
  import opened GrpcHandler

  const UNIMPLEMENTED := 12
  const SERVICE := "/elbgrpc.GelboService/"

  predicate IsLower(c: char) { 'a' <= c <= 'z' }

  function LowerRun(s: string): (n: nat)
    ensures n <= |s| && forall k | 0 <= k < n :: IsLower(s[k])
  {
    if s == [] || !IsLower(s[0]) then 0 else 1 + LowerRun(s[1..])
  }

  function DigitRun(s: string): (n: nat)
    ensures n <= |s| && forall k | 0 <= k < n :: IsDigit(s[k])
  {
    if s == [] || !IsDigit(s[0]) then 0 else 1 + DigitRun(s[1..])
  }

  /** The lengths of the two groups of ([A-Z][a-z]+)([0-9]+) matched at the start of s, or zeros. */
  function MatchHere(s: string): (m: (nat, nat))
    ensures m.0 + m.1 <= |s| && (m.1 > 0 ==> m.0 > 1 && Digits(s[m.0..m.0 + m.1]))
  {
    if s == [] || !IsUpper(s[0]) then (0, 0)
    else
      var name := 1 + LowerRun(s[1..]);
      var digits := DigitRun(s[name..]);
      if name > 1 && digits > 0 then (name, digits) else (0, 0)
  }

  /** FindAllStringSubmatch: the matches from left to right, without overlap. */
  function FindAll(s: string): seq<(string, string)>
    decreases |s|
  {
    if s == [] then []
    else
      var (name, digits) := MatchHere(s);
      if digits == 0 then FindAll(s[1..])
      else [(s[..name], s[name..name + digits])] + FindAll(s[name + digits..])
  }

  predicate SetsCode(cmd: (string, string)) {
    ToLower(cmd.0) == "code" && 0 <= AtoiValue(cmd.1) < 17
  }

  predicate SetsSleep(cmd: (string, string)) {
    ToLower(cmd.0) == "sleep"
  }

  /** The last command that sets the code decides it; without one it is Unimplemented. */
  function CodeOf(cmds: seq<(string, string)>): int {
    if cmds == [] then UNIMPLEMENTED
    else
      var last := cmds[|cmds| - 1];
      if SetsCode(last) then AtoiValue(last.1) else CodeOf(cmds[..|cmds| - 1])
  }

  function SleepOf(cmds: seq<(string, string)>): int {
    if cmds == [] then 0
    else
      var last := cmds[|cmds| - 1];
      if SetsSleep(last) then AtoiValue(last.1) else SleepOf(cmds[..|cmds| - 1])
  }

  /** The status code returned and the milliseconds slept before. */
  method UnregisteredMethodHandler(fullMethodName: string) returns (code: int, sleep: int)
    ensures code == CodeOf(FindAll(fullMethodName)) && sleep == SleepOf(FindAll(fullMethodName))
    ensures 0 <= code <= 16
  {
    code, sleep := GetCodeClass(12), 0;
    var cmds := FindAll(fullMethodName);
    for i := 0 to |cmds|
      invariant code == CodeOf(cmds[..i]) && sleep == SleepOf(cmds[..i]) && 0 <= code <= 16
    {
      assert cmds[..i + 1][..i] == cmds[..i];
      var key := ToLower(cmds[i].0);
      var value := AtoiValue(cmds[i].1);
      if key == "code" && value < 17 && value >= 0 {
        code := GetCodeClass(value);
      } else if key == "sleep" {
        sleep := value;
      }
    }
    assert cmds[..|cmds|] == cmds;
  }

  // ---- printing commands and finding them again ----

  predicate CommandName(name: string) {
    |name| > 1 && IsUpper(name[0]) && forall k | 1 <= k < |name| :: IsLower(name[k])
  }

  function Printed(cmds: seq<(string, nat)>): string {
    if cmds == [] then "" else cmds[0].0 + Itoa(cmds[0].1) + Printed(cmds[1..])
  }

  function Texts(cmds: seq<(string, nat)>): seq<(string, string)> {
    if cmds == [] then [] else [(cmds[0].0, Itoa(cmds[0].1))] + Texts(cmds[1..])
  }

  lemma {:induction false} LowerRunStops(a: string, rest: string)
    requires (forall k | 0 <= k < |a| :: IsLower(a[k])) && (rest == [] || !IsLower(rest[0]))
    ensures LowerRun(a + rest) == |a|
  {
    if a == [] {
      assert a + rest == rest;
    } else {
      LowerRunStops(a[1..], rest);
      assert (a + rest)[1..] == a[1..] + rest;
    }
  }

  lemma {:induction false} DigitRunStops(a: string, rest: string)
    requires (forall k | 0 <= k < |a| :: IsDigit(a[k])) && (rest == [] || !IsDigit(rest[0]))
    ensures DigitRun(a + rest) == |a|
  {
    if a == [] {
      assert a + rest == rest;
    } else {
      DigitRunStops(a[1..], rest);
      assert (a + rest)[1..] == a[1..] + rest;
    }
  }

  lemma MatchCommand(name: string, digits: string, rest: string)
    requires CommandName(name) && Digits(digits) && (rest == [] || !IsDigit(rest[0]))
    ensures MatchHere(name + digits + rest) == (|name|, |digits|)
  {
    var s := name + digits + rest;
    assert IsDigit(digits[0]) by { assert digits[0] in digits; }
    assert s[1..] == name[1..] + (digits + rest);
    LowerRunStops(name[1..], digits + rest);
    assert s[|name|..] == digits + rest;
    DigitRunStops(digits, rest);
  }

  lemma FindCommand(name: string, digits: string, rest: string)
    requires CommandName(name) && Digits(digits) && (rest == [] || !IsDigit(rest[0]))
    ensures FindAll(name + digits + rest) == [(name, digits)] + FindAll(rest)
  {
    var s := name + digits + rest;
    MatchCommand(name, digits, rest);
    assert s[..|name|] == name && s[|name|..|name| + |digits|] == digits && s[|name| + |digits|..] == rest;
  }

  lemma {:induction false} PrintedStart(cmds: seq<(string, nat)>)
    requires forall c | c in cmds :: CommandName(c.0)
    ensures Printed(cmds) == [] || IsUpper(Printed(cmds)[0])
  {
    if cmds != [] {
      assert cmds[0] in cmds;
    }
  }

  /** Every list of commands is found again, in order and with its decimal texts. */
  lemma {:induction false} FindPrinted(cmds: seq<(string, nat)>)
    requires forall c | c in cmds :: CommandName(c.0)
    ensures FindAll(Printed(cmds)) == Texts(cmds)
  {
    if cmds != [] {
      assert cmds[0] in cmds;
      PrintedStart(cmds[1..]);
      FindCommand(cmds[0].0, Itoa(cmds[0].1), Printed(cmds[1..]));
      FindPrinted(cmds[1..]);
    }
  }

  /** Whatever the text, what is found are command names and decimal numbers. */
  lemma {:induction false} FoundAreCommands(s: string)
    ensures forall c | c in FindAll(s) :: CommandName(c.0) && Digits(c.1)
    decreases |s|
  {
    if s != [] {
      var (name, digits) := MatchHere(s);
      if digits == 0 {
        FoundAreCommands(s[1..]);
      } else {
        FoundAreCommands(s[name + digits..]);
        MatchIsCommand(s, name, digits);
      }
    }
  }

  lemma MatchIsCommand(s: string, name: nat, digits: nat)
    requires MatchHere(s) == (name, digits) && digits > 0
    ensures CommandName(s[..name]) && Digits(s[name..name + digits])
  {
    forall k | 1 <= k < name ensures IsLower(s[..name][k]) {
      assert s[..name][k] == s[1..][k - 1];
    }
  }

  lemma {:induction false} RunInside(p: string, rest: string)
    requires p != [] && p[|p| - 1] == '/'
    ensures LowerRun(p + rest) < |p|
  {
    if |p| > 1 {
      assert (p + rest)[1..] == p[1..] + rest;
      RunInside(p[1..], rest);
    }
  }

  /** A path prefix without digits that ends in a slash holds no command and does not join one. */
  lemma {:induction false} FindSkips(p: string, rest: string)
    requires (forall c | c in p :: !IsDigit(c)) && (p != [] ==> p[|p| - 1] == '/')
    ensures FindAll(p + rest) == FindAll(rest)
  {
    if p == [] {
      assert p + rest == rest;
    } else {
      var s := p + rest;
      assert s[1..] == p[1..] + rest;
      if |p| > 1 {
        RunInside(p[1..], rest);
        var name := 1 + LowerRun(s[1..]);
        assert s[name] == p[name] && p[name] in p;
        assert s[name..][0] == s[name];
      }
      FindSkips(p[1..], rest);
    }
  }

  lemma ServiceHasNoCommand(rest: string)
    ensures FindAll(SERVICE + rest) == FindAll(rest)
  {
    FindSkips(SERVICE, rest);
  }

  lemma FindInName(cmds: seq<(string, nat)>)
    requires forall c | c in cmds :: CommandName(c.0)
    ensures FindAll(SERVICE + Printed(cmds)) == Texts(cmds)
  {
    ServiceHasNoCommand(Printed(cmds));
    FindPrinted(cmds);
  }

  lemma LowerNames()
    ensures ToLower("Code") == "code" && ToLower("Sleep") == "sleep"
    ensures CommandName("Code") && CommandName("Sleep")
  {
    assert ToLower("Code")[0] == 'c';
  }

  lemma OneText(a: (string, nat))
    ensures Texts([a]) == [(a.0, Itoa(a.1))] && Printed([a]) == a.0 + Itoa(a.1)
  {
    assert Texts([a][1..]) == [];
  }

  lemma TwoTexts(a: (string, nat), b: (string, nat))
    ensures Texts([a, b]) == [(a.0, Itoa(a.1)), (b.0, Itoa(b.1))]
    ensures Printed([a, b]) == a.0 + Itoa(a.1) + b.0 + Itoa(b.1)
  {
    assert [a, b][1..] == [b];
    OneText(b);
    assert a.0 + Itoa(a.1) + (b.0 + Itoa(b.1)) == a.0 + Itoa(a.1) + b.0 + Itoa(b.1);
  }

  /** The name of a method with both commands, in either order, gives back both numbers; a code
      above 16 leaves Unimplemented, which is 12. */
  lemma BothCommands(c: nat, ms: nat)
    ensures var code := if c <= 16 then c else 12;
      var first := FindAll(SERVICE + ("Code" + Itoa(c) + "Sleep" + Itoa(ms)));
      var second := FindAll(SERVICE + ("Sleep" + Itoa(ms) + "Code" + Itoa(c)));
      && CodeOf(first) == CodeOf(second) == code
      && SleepOf(first) == SleepOf(second) == Clip(ms)
  {
    LowerNames();
    AtoiItoa(c);
    AtoiItoa(ms);
    var a, b := ("Code", c), ("Sleep", ms);
    TwoTexts(a, b);
    TwoTexts(b, a);
    FindInName([a, b]);
    FindInName([b, a]);
    TwoDecide((a.0, Itoa(c)), (b.0, Itoa(ms)));
    TwoDecide((b.0, Itoa(ms)), (a.0, Itoa(c)));
  }

  /** Of two codes the last one that is valid decides. */
  lemma TwoCodes(c: nat, d: nat)
    ensures CodeOf(FindAll(SERVICE + ("Code" + Itoa(c) + "Code" + Itoa(d))))
            == if d <= 16 then d else if c <= 16 then c else 12
  {
    LowerNames();
    AtoiItoa(c);
    AtoiItoa(d);
    TwoTexts(("Code", c), ("Code", d));
    FindInName([("Code", c), ("Code", d)]);
    TwoDecide(("Code", Itoa(c)), ("Code", Itoa(d)));
  }

  lemma OneDecides(x: (string, string))
    ensures CodeOf([x]) == (if SetsCode(x) then AtoiValue(x.1) else 12)
    ensures SleepOf([x]) == (if SetsSleep(x) then AtoiValue(x.1) else 0)
  {
    assert [x][..0] == [];
  }

  lemma TwoDecide(x: (string, string), y: (string, string))
    ensures CodeOf([x, y]) == if SetsCode(y) then AtoiValue(y.1)
                              else if SetsCode(x) then AtoiValue(x.1) else 12
    ensures SleepOf([x, y]) == if SetsSleep(y) then AtoiValue(y.1) else if SetsSleep(x) then AtoiValue(x.1) else 0
  {
    assert [x, y][..1] == [x];
    OneDecides(x);
  }

  /** The same for a single command. */
  lemma OneCommand(c: nat, ms: nat)
    ensures var cmds := FindAll(SERVICE + ("Code" + Itoa(c)));
      CodeOf(cmds) == (if c <= 16 then c else 12) && SleepOf(cmds) == 0
    ensures var cmds := FindAll(SERVICE + ("Sleep" + Itoa(ms)));
      CodeOf(cmds) == 12 && SleepOf(cmds) == Clip(ms)
  {
    LowerNames();
    AtoiItoa(c);
    AtoiItoa(ms);
    OneText(("Code", c));
    OneText(("Sleep", ms));
    FindInName([("Code", c)]);
    FindInName([("Sleep", ms)]);
    OneDecides(("Code", Itoa(c)));
    OneDecides(("Sleep", Itoa(ms)));
  }
}
