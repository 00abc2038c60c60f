/** Printing 128-bit integers by long division on two 64-bit words. */
module Int128 {
  const TWO64: int := 0x1_0000_0000_0000_0000
  const TWO127: int := 0x8000_0000_0000_0000_0000_0000_0000_0000
  const TWO128: int := 0x1_0000_0000_0000_0000_0000_0000_0000_0000

  newtype u64 = x: int | 0 <= x < 0x1_0000_0000_0000_0000

  // ----- decimal numerals

  predicate IsDigit(c: char) {
    '0' <= c <= '9'
  }

  predicate IsNumeral(s: string) {
    forall i | 0 <= i < |s| :: IsDigit(s[i])
  }

  /** A numeral as it is usually written: at least one digit and no leading zero, except for zero itself. */
  predicate IsCanonical(s: string) {
    s != "" && IsNumeral(s) && (s[0] == '0' ==> s == "0")
  }

  function Digit(c: char): nat
    requires IsDigit(c)
  {
    (c - '0') as nat
  }

  function Numeral(s: string): nat
    requires IsNumeral(s)
  {
    if s == "" then 0 else 10 * Numeral(s[..|s| - 1]) + Digit(s[|s| - 1])
  }

  function Pow10(n: nat): (p: nat)
    ensures p >= 1
  {
    if n == 0 then 1 else 10 * Pow10(n - 1)
  }

  lemma TimesTen(d: int, p: int)
    ensures d * (10 * p) == 10 * (d * p)
  {
  }

  lemma {:induction false} Prepend(c: char, s: string)
    requires IsDigit(c) && IsNumeral(s)
    ensures IsNumeral([c] + s) && Numeral([c] + s) == Digit(c) * Pow10(|s|) + Numeral(s)
  {
    if s == "" {
      assert [c] + s == [c] && [c][..0] == "";
    } else {
      var init := s[..|s| - 1];
      Prepend(c, init);
      assert ([c] + s)[..|s|] == [c] + init;
      TimesTen(Digit(c), Pow10(|init|));
    }
  }

  lemma {:induction false} NumeralBound(s: string)
    requires IsNumeral(s)
    ensures Numeral(s) < Pow10(|s|)
    ensures s != "" && s[0] != '0' ==> Numeral(s) >= Pow10(|s| - 1)
  {
    if |s| > 0 {
      var init := s[..|s| - 1];
      NumeralBound(init);
      assert |s| > 1 ==> init[0] == s[0];
    }
  }

  lemma LastDigit(x: nat, d: nat, y: nat, e: nat)
    requires 10 * x + d == 10 * y + e && d < 10 && e < 10
    ensures x == y && d == e
  {
  }

  lemma DigitIsOne(c: char, d: char)
    requires IsDigit(c) && IsDigit(d)
    ensures Digit(c) < 10 && (Digit(c) == Digit(d) ==> c == d)
  {
  }

  lemma {:induction false} SameLengthSameValue(a: string, b: string)
    requires IsNumeral(a) && IsNumeral(b) && |a| == |b| && Numeral(a) == Numeral(b)
    ensures a == b
  {
    hide Digit;
    if a != "" {
      var x, c, y, d := a[..|a| - 1], a[|a| - 1], b[..|b| - 1], b[|b| - 1];
      DigitIsOne(c, d);
      DigitIsOne(d, c);
      LastDigit(Numeral(x), Digit(c), Numeral(y), Digit(d));
      SameLengthSameValue(x, y);
      assert a == x + [c] && b == y + [d];
    }
  }

  lemma {:induction false} Pow10Monotone(a: nat, b: nat)
    requires a <= b
    ensures Pow10(a) <= Pow10(b)
  {
    if a < b { Pow10Monotone(a, b - 1); }
  }

  /** A number has one canonical numeral. */
  lemma CanonicalIsUnique(a: string, b: string)
    requires IsCanonical(a) && IsCanonical(b) && Numeral(a) == Numeral(b)
    ensures a == b
  {
    CanonicalLength(a, b);
    CanonicalLength(b, a);
    SameLengthSameValue(a, b);
  }

  lemma CanonicalLength(a: string, b: string)
    requires IsCanonical(a) && IsCanonical(b) && Numeral(a) == Numeral(b)
    ensures |a| <= |b|
  {
    NumeralBound(a);
    NumeralBound(b);
    Pow10Monotone(|b|, if |b| < |a| then |a| - 1 else |b|);
  }

  // ----- the long division

  const TENTH: u64 := 1844674407370955161

  function Words(high: u64, low: u64): int {
    high as int * 0x1_0000_0000_0000_0000 + low as int
  }

  /** One division step; none of its 64-bit sums and products overflows. */
  method DivideBy10(high: u64, low: u64) returns (high': u64, low': u64, digit: u64)
    ensures digit < 10 && Words(high, low) == 10 * Words(high', low') + digit as int
  {
    var highMod := high % 10;
    high' := high / 10;
    var carry := 6 * highMod + low % 10;
    low' := low / 10 + highMod * TENTH + carry / 10;
    digit := carry % 10;
  }

  /** The digits written so far and the two words still hold the number. */
  ghost predicate Written(v: int, rest: int, s: string) {
    IsNumeral(s) && rest >= 0 && v == rest * Pow10(|s|) + Numeral(s) && (rest == 0 && s != "" ==> s[0] != '0')
  }

  function DigitChar(digit: int): (c: char)
    requires 0 <= digit < 10
    ensures IsDigit(c) && Digit(c) == digit
  {
    ('0' as int + digit) as char
  }

  lemma WriteDigit(v: int, rest: int, s: string, rest': int, digit: int)
    requires Written(v, rest, s) && rest > 0 && rest == 10 * rest' + digit && 0 <= digit < 10
    ensures Written(v, rest', [DigitChar(digit)] + s)
  {
    var c := DigitChar(digit);
    Prepend(c, s);
    Distribute(rest', digit, Pow10(|s|));
  }

  lemma Distribute(rest: int, digit: int, p: int)
    ensures (10 * rest + digit) * p == rest * (10 * p) + digit * p
  {
  }

  lemma RoomLeft(rest: int, rest': int, digit: int, p: nat)
    requires 0 < rest < Pow10(p) && rest == 10 * rest' + digit && 0 <= digit < 10
    ensures p > 0 && 0 <= rest' < Pow10(p - 1)
  {
  }

  /** The cells from `p` on hold the digits written so far, and there is room for all that is to come. */
  ghost predicate Progress(v: int, rest: int, buf: seq<char>, p: int) {
    |buf| == 40 && 0 <= p <= 39 && 0 <= rest < Pow10(p) && Written(v, rest, buf[p..39])
  }

  lemma ProgressStep(v: int, rest: int, buf: seq<char>, p: int, rest': int, digit: int)
    requires Progress(v, rest, buf, p) && rest > 0 && rest == 10 * rest' + digit && 0 <= digit < 10
    ensures p > 0 && Progress(v, rest', buf[p - 1 := DigitChar(digit)], p - 1)
  {
    RoomLeft(rest, rest', digit, p);
    WriteDigit(v, rest, buf[p..39], rest', digit);
    assert buf[p - 1 := DigitChar(digit)][p - 1..39] == [DigitChar(digit)] + buf[p..39];
  }

  lemma EmptyWritten(v: int)
    requires v >= 0
    ensures Written(v, v, "")
  {
    assert Numeral("") == 0 && Pow10(0) == 1;
  }

  lemma ProgressStarts(v: int, buf: seq<char>)
    requires |buf| == 40 && 0 <= v < TWO128
    ensures Progress(v, v, buf, 39)
  {
    Fits(v);
    assert buf[39..39] == "";
    EmptyWritten(v);
  }

  lemma ProgressDone(v: int, buf: seq<char>, p: int)
    requires v > 0 && Progress(v, 0, buf, p)
    ensures IsCanonical(buf[p..39]) && Numeral(buf[p..39]) == v
  {
    assert Numeral("") == 0;
  }

  lemma Fits(v: int)
    requires 0 <= v < TWO128
    ensures v < Pow10(39)
  {
    assert Pow10(10) == 1_0000000000;
    assert Pow10(20) == 1_0000000000_0000000000;
    assert Pow10(30) == 1_0000000000_0000000000_0000000000;
    assert Pow10(39) == 1_000000000_0000000000_0000000000_0000000000;
  }

  method PrintUnsigned(v: int) returns (s: string)
    requires 0 <= v < TWO128
    ensures IsCanonical(s) && Numeral(s) == v && |s| <= 39
  {
    if v == 0 {
      return "0";
    }
    var buf := new char[40];
    var p := 40;
    var high, low := (v / TWO64) as u64, (v % TWO64) as u64;
    p := p - 1;
    buf[p] := 0 as char;
    ProgressStarts(v, buf[..]);
    ghost var rest := v;
    while high != 0 || low != 0
      invariant rest == Words(high, low)
      invariant Progress(v, rest, buf[..], p)
      decreases rest
    {
      ghost var was := buf[..];
      var digit;
      high, low, digit := DivideBy10(high, low);
      ProgressStep(v, rest, was, p, Words(high, low), digit as int);
      p := p - 1;
      buf[p] := DigitChar(digit as int);
      assert buf[..] == was[p := DigitChar(digit as int)];
      rest := Words(high, low);
    }
    ProgressDone(v, buf[..], p);
    s := buf[p..39];
  }

  method PrintSigned(v: int) returns (s: string)
    requires -TWO127 <= v < TWO127
    ensures v >= 0 ==> IsCanonical(s) && Numeral(s) == v
    ensures v < 0 ==> |s| > 1 && s[0] == '-' && IsCanonical(s[1..]) && Numeral(s[1..]) == -v
  {
    var uv := v % TWO128;
    if v < 0 {
      uv := (-uv) % TWO128;
      var digits := PrintUnsigned(uv);
      s := "-" + digits;
      assert s[1..] == digits;
    } else {
      s := PrintUnsigned(uv);
    }
  }
}
