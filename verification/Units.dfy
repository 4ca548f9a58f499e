/** The unit scaling of byte counts in the readable monitor output. */
module Units {
  import opened Strings

  const UNIT := 1000
  const SUFFIXES := "kMGTPE"

  function Power(e: nat): nat {
    if e == 0 then 1 else UNIT * Power(e - 1)
  }

  /** Below 1000 the number itself, else the divisor and the index of its suffix. */
  datatype Eased = Plain(b: int) | Scaled(b: int, div: int, exp: nat)

  lemma {:induction false} PowerGrows(d: nat, e: nat)
    requires d <= e
    ensures 1 <= Power(d) <= Power(e)
    decreases e
  {
    if d < e {
      PowerGrows(d, e - 1);
    } else if d > 0 {
      PowerGrows(d - 1, d - 1);
    }
  }

  /** No 64-bit number reaches the seventh power. */
  lemma FewPowers(e: nat)
    ensures e > 6 ==> Power(e) > MAX_INT
  {
    assert Power(7) == UNIT * UNIT * UNIT * UNIT * Power(3);
    if e > 6 {
      PowerGrows(7, e);
    }
  }

  /** The units: kilo to exa, each a thousand of the one before. */
  lemma UnitTable()
    ensures Power(1) == 1_000 && Power(2) == 1_000_000 && Power(3) == 1_000_000_000
    ensures Power(4) == 1_000_000_000_000 && Power(5) == 1_000_000_000_000_000
    ensures Power(6) == 1_000_000_000_000_000_000
    ensures SUFFIXES[0] == 'k' && SUFFIXES[1] == 'M' && SUFFIXES[2] == 'G'
    ensures SUFFIXES[3] == 'T' && SUFFIXES[4] == 'P' && SUFFIXES[5] == 'E'
  {
    assert Power(2) == 1_000_000 && Power(4) == UNIT * UNIT * Power(2);
  }

  lemma Divided(b: nat, n: nat, div: nat)
    requires n * div <= b < (n + 1) * div
    ensures n / UNIT * (div * UNIT) <= b < (n / UNIT + 1) * (div * UNIT)
  {
    var q, r := n / UNIT, n % UNIT;
    assert q * (div * UNIT) == (q * UNIT) * div;
    assert (q * UNIT) * div <= n * div by { assert q * UNIT <= n; Times(q * UNIT, n, div); }
    assert (q + 1) * (div * UNIT) == ((q + 1) * UNIT) * div;
    Times(n + 1, (q + 1) * UNIT, div);
  }

  lemma Times(a: int, b: int, c: nat)
    requires a <= b
    ensures a * c <= b * c
  {
  }

  /** The suffix of b: its power of 1000 is the largest one that b reaches. */
  ghost predicate Shows(b: int, exp: nat) {
    Power(exp + 1) <= b < UNIT * Power(exp + 1)
  }

  /** For every text: plain below 1000 (and for what is no number), else a divisor that fits in
      64 bits and a suffix that exists. */
  method EaseReadBytes(sb: string) returns (eased: Eased)
    ensures eased.b == AtoiValue(sb) && (eased.Plain? <==> AtoiValue(sb) < 1000)
    ensures eased.Scaled? ==>
              && Shows(eased.b, eased.exp) && eased.exp < |SUFFIXES|
              && eased.div == Power(eased.exp + 1) <= MAX_INT
  {
    var b := AtoiValue(sb);
    if b < UNIT {
      return Plain(b);
    }
    var div, exp: nat := UNIT, 0;
    var n := b / UNIT;
    while n >= UNIT
      invariant div == Power(exp + 1) && n >= 1 && n * div <= b < (n + 1) * div
      invariant div <= b
      decreases n
    {
      Divided(b, n, div);
      div := div * UNIT;
      exp := exp + 1;
      n := n / UNIT;
      Times(1, n, div);
    }
    Times(n + 1, UNIT, div);
    FewPowers(exp + 1);
    eased := Scaled(b, div, exp);
  }

  /** Larger numbers never show a smaller unit, nor a smaller number of the same unit; in particular
      a number has only one unit. */
  lemma UnitsNeverDecrease(b: nat, c: nat, eb: nat, ec: nat)
    requires b <= c && Shows(b, eb) && Shows(c, ec)
    ensures eb < ec || (eb == ec && b / Power(eb + 1) <= c / Power(ec + 1))
    ensures b == c ==> eb == ec
    ensures 1 <= b / Power(eb + 1) < UNIT
  {
    var d := Power(eb + 1);
    if ec < eb {
      PowerGrows(ec + 2, eb + 1);
    }
    if b == c && eb < ec {
      PowerGrows(eb + 2, ec + 1);
    }
    PowerGrows(0, eb + 1);
    Quotients(b, c, d);
    Quotients(d, b, d);
    assert b / d * d <= b;
    if b / d >= UNIT {
      Times(UNIT, b / d, d);
    }
  }

  lemma Quotients(a: nat, b: nat, d: nat)
    requires a <= b && d >= 1
    ensures a / d <= b / d && d / d == 1
  {
    assert a / d * d <= a && b < (b / d + 1) * d;
    if a / d > b / d {
      Times(b / d + 1, a / d, d);
    }
  }
}
