/** Writing a response body of an exact size, buffered or chunked. */
module BodyWriters {
  import opened RandomBytes

  /** A supply of random strings: the n bytes made from draw d on, and the draw after them. */
  datatype Supply = Supply(bytes: (nat, nat) -> string, after: (nat, nat) -> nat)

  /** The supply that RandBytes makes from a random source. */
  ghost predicate Supplies(src: Source, supply: Supply)
    requires Recurs(Accepting(src))
  {
    forall d: nat, n: nat {:trigger BytesOf(src, d, n)} ::
      supply.bytes(d, n) == BytesOf(src, d, n) && supply.after(d, n) == DrawAfter(src, d, n)
  }

  ghost function SupplyOf(src: Source): (supply: Supply)
    requires Recurs(Accepting(src))
    ensures Supplies(src, supply)
  {
    Supply((d: nat, n: nat) => BytesOf(src, d, n), (d: nat, n: nat) => DrawAfter(src, d, n))
  }

  ghost predicate Exact(supply: Supply) {
    forall d: nat, n: nat :: |supply.bytes(d, n)| == n
  }

  // ---- specification ----

  /** The draw at which line k of the filler starts. */
  function LineDraw(supply: Supply, k: nat): nat {
    if k == 0 then 0 else supply.after(LineDraw(supply, k - 1), 99)
  }

  /** The first k filler lines: 99 random letters and a newline each. */
  function Lines(supply: Supply, k: nat): string {
    if k == 0 then "" else Lines(supply, k - 1) + supply.bytes(LineDraw(supply, k - 1), 99) + "\n"
  }

  function Filler(supply: Supply, size: nat): string {
    Lines(supply, size / 100)
    + if size % 100 == 0 then "" else supply.bytes(LineDraw(supply, size / 100), size % 100)
  }

  /** The body of a response of the requested size. */
  function Body(supply: Supply, json: string, size: nat): string {
    var head := json + "\n\n";
    if size <= |head| then head[..size] else head + Filler(supply, size - |head|)
  }

  // ---- the two writers ----

  method NextBytes(src: Source, draw: nat, n: nat, ghost supply: Supply) returns (bytes: string, next: nat)
    requires Recurs(Accepting(src)) && Supplies(src, supply)
    ensures bytes == supply.bytes(draw, n) && next == supply.after(draw, n)
  {
    bytes, next := RandBytes(src, draw, n);
  }

  method WriteResponse(src: Source, respSize: nat, respJSON: string, ghost supply: Supply) returns (out: string)
    requires Recurs(Accepting(src)) && Supplies(src, supply)
    ensures out == Body(supply, respJSON, respSize)
  {
    var head := respJSON + "\n\n";
    if respSize <= |head| {
      return head[..respSize];
    }
    out := head;
    var size := respSize - |head|;
    var loopCount, remainder := size / 100, size % 100;
    var draw := 0;
    for i := 0 to loopCount
      invariant out == head + Lines(supply, i)
      invariant draw == LineDraw(supply, i)
    {
      var line;
      line, draw := NextBytes(src, draw, 99, supply);
      out := out + line;
      out := out + "\n";
    }
    if remainder != 0 {
      var line, _ := NextBytes(src, draw, remainder, supply);
      out := out + line;
    }
  }

  method WriteChunkedResponse(src: Source, respSize: nat, respJSON: string, ghost supply: Supply)
      returns (out: string)
    requires Recurs(Accepting(src)) && Supplies(src, supply)
    ensures out == Body(supply, respJSON, respSize)
  {
    var head := respJSON + "\n\n";
    if respSize <= |head| {
      return head[..respSize];
    }
    out := head;
    var size := respSize - |head|;
    var loopCount, remainder := size / 100, size % 100;
    var draw := 0;
    for i := 0 to loopCount
      invariant out == head + Lines(supply, i)
      invariant draw == LineDraw(supply, i)
    {
      var line;
      line, draw := NextBytes(src, draw, 99, supply);
      out := out + (line + "\n");
    }
    if remainder != 0 {
      var line, _ := NextBytes(src, draw, remainder, supply);
      out := out + line;
    }
  }

  // ---- what the body looks like ----

  lemma {:induction false} LinesLength(supply: Supply, k: nat)
    requires Exact(supply)
    ensures |Lines(supply, k)| == 100 * k
  {
    if k > 0 {
      LinesLength(supply, k - 1);
    }
  }

  /** The body has exactly the requested size. */
  lemma BodyLength(supply: Supply, json: string, size: nat)
    requires Exact(supply)
    ensures |Body(supply, json, size)| == size
  {
    var head := json + "\n\n";
    if size > |head| {
      LinesLength(supply, (size - |head|) / 100);
    }
  }

  ghost predicate Lettered(supply: Supply, letters: string) {
    forall d: nat, n: nat, i: nat | i < |supply.bytes(d, n)| :: supply.bytes(d, n)[i] in letters
  }

  lemma {:induction false} LinesShape(supply: Supply, letters: string, k: nat, p: nat)
    requires Exact(supply) && Lettered(supply, letters) && p < 100 * k
    ensures |Lines(supply, k)| == 100 * k
    ensures if p % 100 == 99 then Lines(supply, k)[p] == '\n' else Lines(supply, k)[p] in letters
  {
    LinesLength(supply, k);
    LinesLength(supply, k - 1);
    var before := 100 * (k - 1);
    if p < before {
      LinesShape(supply, letters, k - 1, p);
    } else if p - before < 99 {
      var line := supply.bytes(LineDraw(supply, k - 1), 99);
      assert Lines(supply, k)[p] == line[p - before];
    }
  }

  lemma FillerShape(supply: Supply, letters: string, size: nat, q: nat)
    requires Exact(supply) && Lettered(supply, letters) && q < size
    ensures |Filler(supply, size)| == size
    ensures if q % 100 == 99 then Filler(supply, size)[q] == '\n' else Filler(supply, size)[q] in letters
  {
    var k, r := size / 100, size % 100;
    LinesLength(supply, k);
    if q < 100 * k {
      LinesShape(supply, letters, k, q);
      assert Filler(supply, size)[q] == Lines(supply, k)[q];
    } else {
      assert Filler(supply, size)[q] == supply.bytes(LineDraw(supply, k), r)[q - 100 * k];
    }
  }

  lemma HeadShape(supply: Supply, json: string, size: nat, p: nat)
    requires Exact(supply) && p < size && p < |json + "\n\n"|
    ensures |Body(supply, json, size)| == size && Body(supply, json, size)[p] == (json + "\n\n")[p]
  {
    BodyLength(supply, json, size);
  }

  lemma TailShape(supply: Supply, json: string, size: nat, p: nat)
    requires Exact(supply) && |json + "\n\n"| <= p < size
    ensures |Body(supply, json, size)| == size
    ensures |Filler(supply, size - |json + "\n\n"|)| == size - |json + "\n\n"|
    ensures Body(supply, json, size)[p] == Filler(supply, size - |json + "\n\n"|)[p - |json + "\n\n"|]
  {
    BodyLength(supply, json, size);
  }

  lemma TailLetter(supply: Supply, letters: string, json: string, size: nat, p: nat)
    requires Exact(supply) && Lettered(supply, letters) && |json + "\n\n"| <= p < size
    ensures |Body(supply, json, size)| == size
    ensures var c := Body(supply, json, size)[p];
      if (p - |json + "\n\n"|) % 100 == 99 then c == '\n' else c in letters
  {
    TailShape(supply, json, size, p);
    FillerShape(supply, letters, size - |json + "\n\n"|, p - |json + "\n\n"|);
  }

  /** A short body is a prefix of the JSON and two newlines; a longer one continues with
      filler in which every hundredth byte is a newline and all others are letters. */
  lemma BodyShape(supply: Supply, letters: string, json: string, size: nat, p: nat)
    requires Exact(supply) && Lettered(supply, letters) && p < size
    ensures |Body(supply, json, size)| == size
    ensures var head := json + "\n\n"; var c := Body(supply, json, size)[p];
      if p < |head| then c == head[p]
      else if (p - |head|) % 100 == 99 then c == '\n' else c in letters
  {
    var n := |json + "\n\n"|;
    if p < n {
      HeadShape(supply, json, size, p);
    } else {
      TailLetter(supply, letters, json, size, p);
    }
  }

  /** Everything RandBytes supplies has the requested length and consists of letters. */
  lemma SupplyQuality(src: Source, supply: Supply)
    requires Recurs(Accepting(src)) && Supplies(src, supply)
    ensures Exact(supply) && Lettered(supply, src.letters)
  {
    forall d: nat, n: nat
      ensures |supply.bytes(d, n)| == n
      ensures forall i: nat | i < |supply.bytes(d, n)| :: supply.bytes(d, n)[i] in src.letters
    {
      BytesLetters(src, supply, d, n);
    }
  }

  lemma BytesLetters(src: Source, supply: Supply, d: nat, n: nat)
    requires Recurs(Accepting(src)) && Supplies(src, supply)
    ensures |supply.bytes(d, n)| == n
    ensures forall c | c in supply.bytes(d, n) :: c in src.letters
  {
    assert supply.bytes(d, n) == BytesOf(src, d, n);
    BytesAreLetters(src, d, n);
  }

  /** Every line of the filler is made from draws after those of the line before. */
  lemma LinesUseFreshDraws(src: Source, supply: Supply, k: nat)
    requires Recurs(Accepting(src)) && Supplies(src, supply)
    ensures LineDraw(supply, k) < LineDraw(supply, k + 1)
  {
    var d := LineDraw(supply, k);
    assert supply.bytes(d, 99) == BytesOf(src, d, 99);
    var q := LastDraw(src, d, 99);
  }

  /** The alphabet has no newline, so the newlines of the filler are exactly its line ends. */
  lemma AlphabetHasNoNewline()
    ensures '\n' !in LETTER_BYTES && |LETTER_BYTES| == 62
  {
    assert '\n' !in "0123456789";
    assert '\n' !in "abcdefghijklm" && '\n' !in "nopqrstuvwxyz";
    assert '\n' !in "ABCDEFGHIJKLM" && '\n' !in "NOPQRSTUVWXYZ";
  }

  lemma ServedByte(supply: Supply, json: string, size: nat, p: nat)
    requires Exact(supply) && Lettered(supply, LETTER_BYTES) && p < size
    ensures |Body(supply, json, size)| == size
    ensures var head := json + "\n\n";
      if p < |head| then Body(supply, json, size)[p] == head[p]
      else Body(supply, json, size)[p] == '\n' <==> (p - |head|) % 100 == 99
  {
    BodyShape(supply, LETTER_BYTES, json, size, p);
    AlphabetHasNoNewline();
  }

  /** With the server's alphabet: a body of the requested size starts with the JSON and two newlines, as
      far as they fit, and behind them exactly every hundredth byte is a newline. */
  lemma ServedBody(src: Source, supply: Supply, json: string, size: nat)
    requires Recurs(Accepting(src)) && Supplies(src, supply) && src.letters == LETTER_BYTES
    ensures |Body(supply, json, size)| == size
    ensures forall p | 0 <= p < size ::
              if p < |json + "\n\n"| then Body(supply, json, size)[p] == (json + "\n\n")[p]
              else Body(supply, json, size)[p] == '\n' <==> (p - |json + "\n\n"|) % 100 == 99
  {
    SupplyQuality(src, supply);
    BodyLength(supply, json, size);
    forall p | 0 <= p < size
      ensures if p < |json + "\n\n"| then Body(supply, json, size)[p] == (json + "\n\n")[p]
              else Body(supply, json, size)[p] == '\n' <==> (p - |json + "\n\n"|) % 100 == 99
    {
      ServedByte(supply, json, size, p);
    }
  }
}
