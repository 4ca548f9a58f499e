/**
 The random letters of a response body: 63-bit draws are cut into ten 6-bit digits each,
 and digits that do not index a letter are skipped.
 */
module RandomBytes {

  const LETTER_BYTES :=
    "0123456789" + "abcdefghijklm" + "nopqrstuvwxyz" + "ABCDEFGHIJKLM" + "NOPQRSTUVWXYZ"

  /** A random source and the alphabet its digits index: the i-th value of randSrc.Int63(). */
  datatype Source = Source(int63: nat -> nat, letters: string)

  function Shifted(x: nat, times: nat): nat {
    if times == 0 then x else Shifted(x, times - 1) / 64
  }

  /** The p-th 6-bit digit of the whole stream of draws. */
  function Digit(src: Source, p: nat): nat {
    Shifted(src.int63(p / 10), p % 10) % 64
  }

  /** The positions of the digits that index a letter. */
  function Accepting(src: Source): nat -> bool {
    (p: nat) => Digit(src, p) < |src.letters|
  }

  /** With the server's alphabet of 62 letters exactly the digits 62 and 63 are rejected. */
  lemma RejectedDigits(src: Source, p: nat)
    requires src.letters == LETTER_BYTES
    ensures Digit(src, p) < 64
    ensures Accepting(src)(p) <==> Digit(src, p) != 62 && Digit(src, p) != 63
  {
  }

  ghost predicate RecursAfter(accepted: nat -> bool, p: nat) {
    exists q: nat :: p <= q && accepted(q)
  }

  ghost predicate Recurs(accepted: nat -> bool) {
    forall p: nat :: RecursAfter(accepted, p)
  }

  // ---- specification: the first n accepted digits from a position on ----

  ghost predicate IsNext(accepted: nat -> bool, p: nat, q: nat) {
    p <= q && accepted(q) && forall r: nat | p <= r < q :: !accepted(r)
  }

  ghost function FirstAccepted(accepted: nat -> bool, p: nat, bound: nat): (q: nat)
    requires p <= bound && accepted(bound)
    ensures p <= q
    decreases bound - p
  {
    if accepted(p) then p else FirstAccepted(accepted, p + 1, bound)
  }

  lemma {:induction false} FirstIsNext(accepted: nat -> bool, p: nat, bound: nat)
    requires p <= bound && accepted(bound)
    ensures IsNext(accepted, p, FirstAccepted(accepted, p, bound))
    decreases bound - p
  {
    if !accepted(p) {
      FirstIsNext(accepted, p + 1, bound);
    }
  }

  ghost function SomeAccepted(accepted: nat -> bool, p: nat): (bound: nat)
    requires Recurs(accepted)
    ensures p <= bound && accepted(bound)
  {
    assert RecursAfter(accepted, p);
    var bound: nat :| p <= bound && accepted(bound);
    bound
  }

  ghost function NextAccepted(accepted: nat -> bool, p: nat): (q: nat)
    requires Recurs(accepted)
    ensures p <= q
  {
    FirstAccepted(accepted, p, SomeAccepted(accepted, p))
  }

  lemma NextIsNext(accepted: nat -> bool, p: nat)
    requires Recurs(accepted)
    ensures IsNext(accepted, p, NextAccepted(accepted, p))
  {
    FirstIsNext(accepted, p, SomeAccepted(accepted, p));
  }

  /** One past the position of the n-th accepted digit at or after p. */
  ghost function ScanEnd(accepted: nat -> bool, p: nat, n: nat): (q: nat)
    requires Recurs(accepted)
    ensures p + n <= q
  {
    if n == 0 then p else NextAccepted(accepted, ScanEnd(accepted, p, n - 1)) + 1
  }

  /** The n-th letter (from 0) picked when scanning starts at p. */
  ghost function Pick(src: Source, p: nat, n: nat): (c: char)
    requires Recurs(Accepting(src))
  {
    var accepted := Accepting(src);
    var q := NextAccepted(accepted, ScanEnd(accepted, p, n));
    NextIsNext(accepted, ScanEnd(accepted, p, n));
    src.letters[Digit(src, q)]
  }

  /** f(n - 1), ..., f(0). */
  function Backwards(f: nat -> char, n: nat): (s: string)
    ensures |s| == n
  {
    if n == 0 then "" else [f(n - 1)] + Backwards(f, n - 1)
  }

  lemma {:induction false} BackwardsAt(f: nat -> char, n: nat, k: nat)
    requires k < n
    ensures Backwards(f, n)[k] == f(n - 1 - k)
  {
    if k > 0 {
      BackwardsAt(f, n - 1, k - 1);
    }
  }

  ghost function PickFrom(src: Source, p: nat): nat -> char
    requires Recurs(Accepting(src))
  {
    (n: nat) => Pick(src, p, n)
  }

  /** The letters of the first n accepted digits at or after p, last one first. */
  ghost function Picks(src: Source, p: nat, n: nat): (letters: string)
    requires Recurs(Accepting(src))
    ensures |letters| == n
  {
    Backwards(PickFrom(src, p), n)
  }

  ghost function BytesOf(src: Source, draw: nat, n: nat): (bytes: string)
    requires Recurs(Accepting(src))
    ensures |bytes| == n
  {
    Picks(src, 10 * draw, n)
  }

  /** The output is the reverse of the accepted digits' letters, in the order they were drawn. */
  lemma BytesAreReversedPicks(src: Source, draw: nat, n: nat, k: nat)
    requires Recurs(Accepting(src)) && k < n
    ensures BytesOf(src, draw, n)[k] == PickFrom(src, 10 * draw)(n - 1 - k)
  {
    BackwardsAt(PickFrom(src, 10 * draw), n, k);
  }

  lemma {:induction false} BackwardsAll(f: nat -> char, n: nat, letters: string)
    requires forall i: nat :: f(i) in letters
    ensures forall c | c in Backwards(f, n) :: c in letters
  {
    if n > 0 {
      BackwardsAll(f, n - 1, letters);
    }
  }

  lemma BytesAreLetters(src: Source, draw: nat, n: nat)
    requires Recurs(Accepting(src))
    ensures forall c | c in BytesOf(src, draw, n) :: c in src.letters
  {
    var f := PickFrom(src, 10 * draw);
    forall i: nat ensures f(i) in src.letters {
      PickIsLetter(src, 10 * draw, i);
    }
    BackwardsAll(f, n, src.letters);
  }

  lemma PickIsLetter(src: Source, p: nat, n: nat)
    requires Recurs(Accepting(src))
    ensures Pick(src, p, n) in src.letters
  {
    NextIsNext(Accepting(src), ScanEnd(Accepting(src), p, n));
  }

  /** The number of the first draw that is still unused afterwards. */
  ghost function DrawAfter(src: Source, draw: nat, n: nat): nat
    requires Recurs(Accepting(src))
  {
    if n == 0 then draw + 1
    else (ScanEnd(Accepting(src), 10 * draw, n) + 9) / 10
  }

  lemma {:induction false} ScanEndMonotone(accepted: nat -> bool, p: nat, m: nat, n: nat)
    requires Recurs(accepted) && m <= n
    ensures ScanEnd(accepted, p, m) <= ScanEnd(accepted, p, n)
  {
    if m < n {
      ScanEndMonotone(accepted, p, m, n - 1);
    }
  }

  /** The number of accepted positions from p up to but not including q. */
  function CountAccepted(accepted: nat -> bool, p: nat, q: nat): nat {
    if q <= p then 0 else CountAccepted(accepted, p, q - 1) + (if accepted(q - 1) then 1 else 0)
  }

  lemma {:induction false} CountRejected(accepted: nat -> bool, p: nat, m: nat, q: nat)
    requires p <= m <= q && forall r: nat | m <= r < q :: !accepted(r)
    ensures CountAccepted(accepted, p, q) == CountAccepted(accepted, p, m)
    decreases q - m
  {
    if m < q {
      CountRejected(accepted, p, m, q - 1);
    }
  }

  /** Scanning passes over exactly n accepted digits, the last of them just before its end:
      so picks are all the accepted digits, in order, none skipped and none repeated. */
  lemma {:induction false} ScanCounts(accepted: nat -> bool, p: nat, n: nat)
    requires Recurs(accepted)
    ensures CountAccepted(accepted, p, ScanEnd(accepted, p, n)) == n
    ensures n > 0 ==> accepted(ScanEnd(accepted, p, n) - 1)
  {
    if n > 0 {
      ScanCounts(accepted, p, n - 1);
      var m := ScanEnd(accepted, p, n - 1);
      NextIsNext(accepted, m);
      CountRejected(accepted, p, m, NextAccepted(accepted, m));
    }
  }

  // ---- what the bytes are, told by the digits alone ----

  /** The accepted digit that has j accepted ones before it, counted from p on. */
  lemma NextCounts(accepted: nat -> bool, p: nat, j: nat) returns (q: nat)
    requires Recurs(accepted)
    ensures p <= q && accepted(q) && CountAccepted(accepted, p, q) == j
    ensures q == NextAccepted(accepted, ScanEnd(accepted, p, j)) && q + 1 == ScanEnd(accepted, p, j + 1)
  {
    var m := ScanEnd(accepted, p, j);
    q := NextAccepted(accepted, m);
    NextIsNext(accepted, m);
    ScanCounts(accepted, p, j);
    CountRejected(accepted, p, m, q);
  }

  lemma PickOfDigit(src: Source, p: nat, j: nat, q: nat)
    requires Recurs(Accepting(src)) && q == NextAccepted(Accepting(src), ScanEnd(Accepting(src), p, j))
    ensures Digit(src, q) < |src.letters| && PickFrom(src, p)(j) == src.letters[Digit(src, q)]
  {
    NextIsNext(Accepting(src), ScanEnd(Accepting(src), p, j));
  }

  /** Byte k is the letter of the digit, from draw `draw` on, that has n-1-k accepted ones before it. */
  lemma ByteIsDigit(src: Source, draw: nat, n: nat, k: nat) returns (q: nat)
    requires Recurs(Accepting(src)) && k < n
    ensures 10 * draw <= q && Digit(src, q) < |src.letters|
    ensures CountAccepted(Accepting(src), 10 * draw, q) == n - 1 - k
    ensures BytesOf(src, draw, n)[k] == src.letters[Digit(src, q)]
  {
    q := NextCounts(Accepting(src), 10 * draw, n - 1 - k);
    PickOfDigit(src, 10 * draw, n - 1 - k, q);
    BytesAreReversedPicks(src, draw, n, k);
  }

  /** The draw that holds the last letter's digit is the last one used. */
  lemma LastDraw(src: Source, draw: nat, n: nat) returns (q: nat)
    requires Recurs(Accepting(src)) && n > 0
    ensures 10 * draw <= q && Digit(src, q) < |src.letters|
    ensures CountAccepted(Accepting(src), 10 * draw, q) == n - 1
    ensures DrawAfter(src, draw, n) == q / 10 + 1
  {
    var j: nat := n - 1;
    q := NextCounts(Accepting(src), 10 * draw, j);
    PickOfDigit(src, 10 * draw, j, q);
  }

  function Power64(i: nat): nat {
    if i == 0 then 1 else 64 * Power64(i - 1)
  }

  /** The number that the first i digits of a draw make, the first digit being the lowest. */
  function FromDigits(src: Source, draw: nat, i: nat): nat
    requires i <= 10
  {
    if i == 0 then 0 else FromDigits(src, draw, i - 1) + Digit(src, 10 * draw + i - 1) * Power64(i - 1)
  }

  lemma {:induction false} DigitsMakeDraw(src: Source, draw: nat, i: nat)
    requires i <= 10
    ensures src.int63(draw) == FromDigits(src, draw, i) + Shifted(src.int63(draw), i) * Power64(i)
    ensures FromDigits(src, draw, i) < Power64(i)
  {
    if i > 0 {
      DigitsMakeDraw(src, draw, i - 1);
      var x, p := Shifted(src.int63(draw), i - 1), Power64(i - 1);
      assert (10 * draw + i - 1) / 10 == draw && (10 * draw + i - 1) % 10 == i - 1;
      assert Digit(src, 10 * draw + i - 1) == x % 64;
      SplitDigit(x, p);
    }
  }

  lemma SplitDigit(x: nat, p: nat)
    ensures x * p == x % 64 * p + x / 64 * (64 * p)
    ensures x % 64 * p <= 63 * p
  {
    var q, d := x / 64, x % 64;
    assert x == 64 * q + d;
    assert (64 * q + d) * p == d * p + q * (64 * p);
    assert (63 - d) * p >= 0;
  }

  /** The ten digits of a draw are its lowest sixty bits. */
  lemma DigitsAreLowBits(src: Source, draw: nat)
    ensures FromDigits(src, draw, 10) == src.int63(draw) % Power64(10)
  {
    DigitsMakeDraw(src, draw, 10);
    LowPart(src.int63(draw), FromDigits(src, draw, 10), Shifted(src.int63(draw), 10), Power64(10));
  }

  lemma LowPart(x: nat, low: nat, high: nat, p: nat)
    requires x == low + high * p && low < p
    ensures x % p == low
  {
    assert x / p == high by {
      assert high * p <= x < (high + 1) * p;
      Quotient(x, high, p);
    }
  }

  lemma Quotient(x: nat, q: nat, p: nat)
    requires p > 0 && q * p <= x < (q + 1) * p
    ensures x / p == q
  {
    var r := x / p;
    assert r * p <= x < (r + 1) * p;
    if r < q {
      TimesMonotone(r + 1, q, p);
    } else if r > q {
      TimesMonotone(q + 1, r, p);
    }
  }

  lemma TimesMonotone(a: nat, b: nat, p: nat)
    requires a <= b
    ensures a * p <= b * p
  {
  }

  // ---- the sampler ----

  /** `next` draws have been used, `remain` digits of the last one are left in `cache`,
      and p is the position of the next digit. */
  ghost predicate CursorAt(src: Source, next: nat, remain: nat, cache: nat, p: nat) {
    && p + remain == 10 * next && remain <= 10
    && (remain > 0 ==> next > 0 && cache == Shifted(src.int63(next - 1), 10 - remain))
  }

  lemma NextDigit(src: Source, next: nat, remain: nat, cache: nat, p: nat)
    requires CursorAt(src, next, remain, cache, p) && remain > 0
    ensures cache % 64 == Digit(src, p)
    ensures CursorAt(src, next, remain - 1, cache / 64, p + 1)
  {
    assert p / 10 == next - 1 && p % 10 == 10 - remain;
  }

  /** j digits have been picked and everything from there up to p was rejected. */
  ghost predicate Scanning(accepted: nat -> bool, start: nat, j: nat, p: nat)
    requires Recurs(accepted)
  {
    ScanEnd(accepted, start, j) <= p <= NextAccepted(accepted, ScanEnd(accepted, start, j))
  }

  lemma ScanStep(accepted: nat -> bool, start: nat, j: nat, n: nat, p: nat)
    requires Recurs(accepted) && Scanning(accepted, start, j, p) && j < n
    ensures p < ScanEnd(accepted, start, n)
    ensures accepted(p) ==> p == NextAccepted(accepted, ScanEnd(accepted, start, j))
                            && p + 1 == ScanEnd(accepted, start, j + 1) && Scanning(accepted, start, j + 1, p + 1)
    ensures !accepted(p) ==> Scanning(accepted, start, j, p + 1)
  {
    NextIsNext(accepted, ScanEnd(accepted, start, j));
    ScanEndMonotone(accepted, start, j + 1, n);
  }

  /** What holds of the sampler's variables: j letters are picked and the cursor stands at p. */
  ghost predicate Sampling(src: Source, draw: nat, picked: string, next: nat, remain: nat, cache: nat, p: nat)
    requires Recurs(Accepting(src))
  {
    var start := 10 * draw;
    && CursorAt(src, next, remain, cache, p)
    && Scanning(Accepting(src), start, |picked|, p)
    && picked == Picks(src, start, |picked|)
    && (if p == start then next == draw + 1 && picked == "" else remain < 10)
  }

  lemma StartSampling(src: Source, draw: nat)
    requires Recurs(Accepting(src))
    ensures Sampling(src, draw, "", draw + 1, 10, src.int63(draw), 10 * draw)
  {
  }

  lemma Refill(src: Source, draw: nat, picked: string, next: nat, cache: nat, p: nat)
    requires Recurs(Accepting(src)) && Sampling(src, draw, picked, next, 0, cache, p)
    ensures CursorAt(src, next + 1, 10, src.int63(next), p)
    ensures p != 10 * draw
  {
  }

  /** What the digit at the cursor means for the scan. */
  lemma AtDigit(src: Source, start: nat, j: nat, n: nat, next: nat, remain: nat, cache: nat, p: nat)
    requires Recurs(Accepting(src)) && j < n && remain > 0
    requires CursorAt(src, next, remain, cache, p) && Scanning(Accepting(src), start, j, p)
    ensures p < ScanEnd(Accepting(src), start, n)
    ensures cache % 64 < |src.letters| ==>
              Picks(src, start, j + 1) == [src.letters[cache % 64]] + Picks(src, start, j)
              && Scanning(Accepting(src), start, j + 1, p + 1) && p + 1 == ScanEnd(Accepting(src), start, j + 1)
    ensures cache % 64 >= |src.letters| ==> Scanning(Accepting(src), start, j, p + 1)
  {
    NextDigit(src, next, remain, cache, p);
    ScanStep(Accepting(src), start, j, n, p);
    assert Accepting(src)(p) <==> Digit(src, p) < |src.letters|;
  }

  predicate Positioned(start: nat, draw: nat, next: nat, p: nat) {
    p >= start && (p == start ==> next == draw + 1)
  }

  /** One turn of the loop either picks the next letter or passes over a rejected digit. */
  lemma Turn(src: Source, draw: nat, picked: string, n: nat, next: nat, remain: nat, cache: nat, p: nat)
      returns (picked': string)
    requires Recurs(Accepting(src)) && |picked| < n && remain > 0
    requires CursorAt(src, next, remain, cache, p)
    requires Scanning(Accepting(src), 10 * draw, |picked|, p)
    requires picked == Picks(src, 10 * draw, |picked|)
    requires Positioned(10 * draw, draw, next, p)
    ensures p < ScanEnd(Accepting(src), 10 * draw, n)
    ensures picked' == if cache % 64 < |src.letters| then [src.letters[cache % 64]] + picked else picked
    ensures Sampling(src, draw, picked', next, remain - 1, cache / 64, p + 1)
    ensures |picked'| == n ==> p + 1 == ScanEnd(Accepting(src), 10 * draw, n)
  {
    var start, j := 10 * draw, |picked|;
    AtDigit(src, start, j, n, next, remain, cache, p);
    NextDigit(src, next, remain, cache, p);
    if cache % 64 < |src.letters| {
      picked' := [src.letters[cache % 64]] + picked;
      assert |picked'| == j + 1;
    } else {
      picked' := picked;
    }
  }

  lemma Finished(src: Source, draw: nat, picked: string, next: nat, remain: nat, cache: nat, p: nat)
    requires Recurs(Accepting(src)) && Sampling(src, draw, picked, next, remain, cache, p)
    requires p == ScanEnd(Accepting(src), 10 * draw, |picked|)
    ensures picked == BytesOf(src, draw, |picked|)
    ensures next == DrawAfter(src, draw, |picked|)
  {
  }

  method SetByte(b: array<char>, i: nat, c: char)
    requires i < b.Length
    modifies b
    ensures b[i..] == [c] + old(b[i + 1..])
  {
    b[i] := c;
  }

  /** Takes one digit from the cache, drawing 63 new bits first when the cache is used up. */
  method TakeDigit(src: Source, next0: nat, remain0: nat, cache0: nat,
                   ghost draw: nat, ghost picked: string, ghost n: nat, ghost p: nat)
      returns (idx: nat, next: nat, remain: nat, cache: nat, ghost picked': string)
    requires Recurs(Accepting(src)) && |picked| < n
    requires Sampling(src, draw, picked, next0, remain0, cache0, p)
    ensures picked' == if idx < |src.letters| then [src.letters[idx]] + picked else picked
    ensures Sampling(src, draw, picked', next, remain, cache, p + 1)
    ensures p < ScanEnd(Accepting(src), 10 * draw, n)
    ensures |picked'| == n ==> p + 1 == ScanEnd(Accepting(src), 10 * draw, n)
  {
    next, remain, cache := next0, remain0, cache0;
    if remain == 0 {
      Refill(src, draw, picked, next, cache, p);
      cache, remain := src.int63(next), 10;
      next := next + 1;
    }
    picked' := Turn(src, draw, picked, n, next, remain, cache, p);
    idx := cache % 64;
    cache := cache / 64;
    remain := remain - 1;
  }

  /** Fills a buffer of n bytes from the back. */
  method RandBytes(src: Source, draw: nat, n: nat) returns (bytes: string, next: nat)
    requires Recurs(Accepting(src))
    ensures bytes == BytesOf(src, draw, n)
    ensures next == DrawAfter(src, draw, n)
  {
    ghost var p, picked := 10 * draw, "";
    ghost var end := ScanEnd(Accepting(src), p, n);
    StartSampling(src, draw);
    var b := new char[n];
    var i, cache, remain := n - 1, src.int63(draw), 10;
    next := draw + 1;
    while i >= 0
      invariant |picked| <= n && i == n - 1 - |picked|
      invariant Sampling(src, draw, picked, next, remain, cache, p)
      invariant |picked| == n ==> p == end
      invariant b[i + 1..] == picked
      decreases end - p
    {
      var idx;
      idx, next, remain, cache, picked := TakeDigit(src, next, remain, cache, draw, picked, n, p);
      if idx < |src.letters| {
        SetByte(b, i, src.letters[idx]);
        i := i - 1;
      }
      p := p + 1;
    }
    bytes := b[..];
    Finished(src, draw, picked, next, remain, cache, p);
  }
}
