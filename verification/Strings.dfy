/** The parts of Go's strings and strconv packages that the command language relies on. */
module Strings {

  predicate NoRepeats<T(==)>(a: seq<T>) {
    forall i, j | 0 <= i < j < |a| :: a[i] != a[j]
  }

  lemma SmallModulo(x: nat, m: nat)
    requires x < m
    ensures x % m == x
  {
  }

  const MAX_INT: int := 0x7FFF_FFFF_FFFF_FFFF

  /** First position at which `sep` occurs in `s`, or |s| when it does not occur. */
  function Find(s: string, sep: string): (i: nat)
    requires sep != []
    ensures i <= |s|
    ensures i < |s| ==> i + |sep| <= |s|
  {
    if s == [] || sep <= s then 0 else 1 + Find(s[1..], sep)
  }

  predicate Contains(s: string, sep: string)
    requires sep != []
  {
    Find(s, sep) < |s|
  }

  function Split(s: string, sep: string): (parts: seq<string>)
    requires sep != []
    ensures parts != []
    decreases |s|
  {
    var i := Find(s, sep);
    if i == |s| then [s] else [s[..i]] + Split(s[i + |sep|..], sep)
  }

  function Join(parts: seq<string>, sep: string): string {
    if parts == [] then "" else if |parts| == 1 then parts[0]
    else parts[0] + sep + Join(parts[1..], sep)
  }

  lemma {:induction false} FindNothing(s: string, sep: string)
    requires sep != [] && sep[0] !in s
    ensures Find(s, sep) == |s|
  {
    if s != [] {
      FindNothing(s[1..], sep);
    }
  }

  lemma {:induction false} FindAbsent(a: string, sep: string)
    requires |sep| == 1 && Find(a, sep) == |a|
    ensures sep[0] !in a
  {
    if a != "" {
      FindAbsent(a[1..], sep);
    }
  }

  lemma {:induction false} FindFirst(s: string, sep: string, rest: string)
    requires sep != [] && sep[0] !in s
    ensures Find(s + sep + rest, sep) == |s|
  {
    var t := s + sep + rest;
    if s == [] {
      assert t == sep + rest;
    } else {
      assert t[0] == s[0];
      assert t[1..] == s[1..] + sep + rest;
      FindFirst(s[1..], sep, rest);
    }
  }

  /** Splitting undoes joining whenever no part contains the first character of the separator. */
  lemma {:induction false} SplitJoin(parts: seq<string>, sep: string)
    requires sep != [] && parts != []
    requires forall p | p in parts :: sep[0] !in p
    ensures Split(Join(parts, sep), sep) == parts
  {
    if |parts| == 1 {
      FindNothing(parts[0], sep);
    } else {
      var rest := Join(parts[1..], sep);
      FindFirst(parts[0], sep, rest);
      var whole := parts[0] + sep + rest;
      assert whole[|parts[0]| + |sep|..] == rest && whole[..|parts[0]|] == parts[0];
      assert parts == [parts[0]] + parts[1..];
      SplitJoin(parts[1..], sep);
    }
  }

  predicate IsUpper(c: char) {
    'A' <= c <= 'Z'
  }

  /** strings.ToLower on ASCII letters. */
  function ToLower(s: string): string {
    seq(|s|, i requires 0 <= i < |s| => if IsUpper(s[i]) then s[i] - 'A' + 'a' else s[i])
  }

  // ---- decimal numbers ----

  predicate IsDigit(c: char) {
    '0' <= c <= '9'
  }

  function DigitValue(c: char): nat
    requires IsDigit(c)
  {
    c as int - '0' as int
  }

  predicate Digits(s: string) {
    s != [] && forall c | c in s :: IsDigit(c)
  }

  /** The value of a string of digits, as an unbounded number. */
  function Value(s: string): nat
    requires forall c | c in s :: IsDigit(c)
  {
    if s == [] then 0 else assert s[|s| - 1] in s; 10 * Value(s[..|s| - 1]) + DigitValue(s[|s| - 1])
  }

  function Itoa(n: nat): (s: string)
    ensures Digits(s)
  {
    var last := ['0' + (n % 10) as char];
    if n < 10 then last else Itoa(n / 10) + last
  }

  lemma {:induction false} ValueItoa(n: nat)
    ensures Value(Itoa(n)) == n
  {
    var s := Itoa(n);
    if n >= 10 {
      ValueItoa(n / 10);
      assert s[..|s| - 1] == Itoa(n / 10);
    } else {
      assert s[..|s| - 1] == [];
    }
  }

  /** Result of strconv.Atoi: the number, or the number returned beside a syntax or range error. */
  datatype Parsed = Number(n: int) | Syntax | Range(n: int)

  function AtoiUnsigned(s: string, negative: bool): Parsed {
    if !Digits(s) then Syntax
    else if negative then (if Value(s) > MAX_INT + 1 then Range(-MAX_INT - 1) else Number(0 - Value(s)))
    else if Value(s) > MAX_INT then Range(MAX_INT) else Number(Value(s))
  }

  function Atoi(s: string): Parsed {
    if s != [] && s[0] == '-' then AtoiUnsigned(s[1..], true)
    else if s != [] && s[0] == '+' then AtoiUnsigned(s[1..], false)
    else AtoiUnsigned(s, false)
  }

  /** The number `n` in `n, _ := strconv.Atoi(s)`. */
  function AtoiValue(s: string): int {
    match Atoi(s)
    case Number(n) => n
    case Syntax => 0
    case Range(n) => n
  }

  function Clip(n: int): int {
    if n > MAX_INT then MAX_INT else n
  }

  /** A sign is taken off; a negative number may be one larger than the largest int. */
  lemma AtoiSigned(n: nat)
    ensures Atoi("-" + Itoa(n)) == if n <= MAX_INT + 1 then Number(0 - n) else Range(-MAX_INT - 1)
    ensures Atoi("+" + Itoa(n)) == if n <= MAX_INT then Number(n) else Range(MAX_INT)
  {
    ValueItoa(n);
    var digits := Itoa(n);
    assert ("-" + digits)[1..] == digits && ("+" + digits)[1..] == digits;
  }

  /** A text with a character that is neither a digit nor a leading sign is read as 0. */
  lemma AtoiOther(s: string, i: nat)
    requires i < |s| && !IsDigit(s[i]) && (i > 0 || (s[0] != '-' && s[0] != '+'))
    ensures AtoiValue(s) == 0 && AtoiValue("") == 0
  {
    if i > 0 {
      assert s[1..][i - 1] == s[i];
    }
    assert s[i] in s;
  }

  lemma AtoiPlain(s: string)
    requires Digits(s)
    ensures Atoi(s) == if Value(s) > MAX_INT then Range(MAX_INT) else Number(Value(s))
  {
    assert s[0] in s;
  }

  lemma AtoiDigits(s: string)
    requires Digits(s)
    ensures AtoiValue(s) == Clip(Value(s))
  {
    AtoiPlain(s);
  }

  lemma AtoiItoa(n: nat)
    ensures AtoiValue(Itoa(n)) == Clip(n)
    ensures Atoi(Itoa(n)) == if n <= MAX_INT then Number(n) else Range(MAX_INT)
  {
    ValueItoa(n);
    AtoiPlain(Itoa(n));
  }
}
