/** UTF-8: the validity check against the grammar of section 4 of RFC 3629, and the encoding of wide strings. */
module Utf8 {
  type Byte = b: int | 0 <= b < 256
  type Word = w: int | 0 <= w < 0x1_0000_0000

  // ----- the grammar

  predicate Tail(b: Byte) {
    0x80 <= b <= 0xBF
  }

  predicate Char1(s: seq<Byte>) {
    |s| == 1 && s[0] <= 0x7F
  }

  predicate Char2(s: seq<Byte>) {
    |s| == 2 && 0xC2 <= s[0] <= 0xDF && Tail(s[1])
  }

  predicate Char3(s: seq<Byte>) {
    |s| == 3 && Tail(s[2]) && (
      || (s[0] == 0xE0 && 0xA0 <= s[1] <= 0xBF)
      || (0xE1 <= s[0] <= 0xEC && Tail(s[1]))
      || (s[0] == 0xED && 0x80 <= s[1] <= 0x9F)
      || (0xEE <= s[0] <= 0xEF && Tail(s[1])))
  }

  predicate Char4(s: seq<Byte>) {
    |s| == 4 && Tail(s[2]) && Tail(s[3]) && (
      || (s[0] == 0xF0 && 0x90 <= s[1] <= 0xBF)
      || (0xF1 <= s[0] <= 0xF3 && Tail(s[1]))
      || (s[0] == 0xF4 && 0x80 <= s[1] <= 0x8F))
  }

  predicate IsChar(s: seq<Byte>) {
    Char1(s) || Char2(s) || Char3(s) || Char4(s)
  }

  ghost predicate StartsWithChar(s: seq<Byte>, n: nat) {
    n <= |s| && IsChar(s[..n])
  }

  /** A string of octets is a sequence of characters. */
  ghost predicate Octets(s: seq<Byte>)
    decreases |s|
  {
    s == [] || exists n: nat | 0 < n <= |s| :: StartsWithChar(s, n) && Octets(s[n..])
  }

  lemma CharLength(s: seq<Byte>, n: nat)
    requires StartsWithChar(s, n)
    ensures 1 <= n <= 4
    ensures n == if s[0] <= 0x7F then 1 else if s[0] <= 0xDF then 2 else if s[0] <= 0xEF then 3 else 4
  {
    assert s[..n][0] == s[0];
  }

  lemma PeelChar(s: seq<Byte>, n: nat)
    requires StartsWithChar(s, n)
    ensures Octets(s) <==> Octets(s[n..])
  {
    CharLength(s, n);
    forall m: nat | StartsWithChar(s, m) ensures m == n {
      CharLength(s, m);
    }
  }

  lemma NoCharNoOctets(s: seq<Byte>)
    requires s != [] && forall n: nat | n <= 4 :: !StartsWithChar(s, n)
    ensures !Octets(s)
  {
    forall n: nat | StartsWithChar(s, n) ensures n <= 4 { CharLength(s, n); }
  }

  method IsValidUTF8(s: seq<Byte>) returns (ok: bool)
    ensures ok <==> Octets(s)
  {
    var i := 0;
    assert s[0..] == s;
    while i < |s|
      invariant 0 <= i <= |s|
      invariant Octets(s) <==> Octets(s[i..])
    {
      var at := i;
      ghost var rest := s[at..];
      var lead := s[i];
      i := i + 1;
      var size := 1;
      if lead <= 0x7F {
      } else if lead < 0xC2 {
        NoCharNoOctets(rest);
        return false;
      } else if lead <= 0xDF && i + 1 <= |s| && Tail(s[i]) {
        i, size := i + 1, 2;
      } else if 0xE0 <= lead && lead <= 0xEF && i + 2 <= |s| && Tail(s[i]) && Tail(s[i + 1])
                && (lead != 0xE0 || s[i] >= 0xA0) && (lead != 0xED || s[i] < 0xA0) {
        i, size := i + 2, 3;
      } else if 0xF0 <= lead && lead <= 0xF4 && i + 3 <= |s| && Tail(s[i]) && Tail(s[i + 1]) && Tail(s[i + 2])
                && (lead != 0xF0 || s[i] >= 0x90) && (lead != 0xF4 || s[i] < 0x90) {
        i, size := i + 3, 4;
      } else {
        NoCharNoOctets(rest);
        return false;
      }
      assert StartsWithChar(rest, size);
      PeelChar(rest, size);
      assert rest[size..] == s[i..];
    }
    return true;
  }

  // ----- code points

  /** The Unicode scalar values: code points other than the surrogates. */
  predicate IsScalar(c: int) {
    0 <= c <= 0x10FFFF && !(0xD800 <= c <= 0xDFFF)
  }

  /** The bits of a lead octet and of the tails after it, six more for each tail. */
  function Bits(lead: int, tails: seq<Byte>): int {
    if tails == [] then lead else Bits(lead, tails[..|tails| - 1]) * 0x40 + (tails[|tails| - 1] as int - 0x80)
  }

  predicate AreTails(s: seq<Byte>) {
    forall i | 0 <= i < |s| :: Tail(s[i])
  }

  function LeadMark(size: nat): Byte {
    match size
    case 1 => 0x00
    case 2 => 0xC0
    case 3 => 0xE0
    case _ => 0xF0
  }

  /** The code point the bits of a character spell. */
  function CharValue(s: seq<Byte>): int
    requires IsChar(s)
  {
    Bits(s[0] as int - LeadMark(|s|), s[1..])
  }

  lemma CharValueIsScalar(s: seq<Byte>)
    requires IsChar(s)
    ensures IsScalar(CharValue(s))
    ensures |s| == if CharValue(s) <= 0x7F then 1 else if CharValue(s) <= 0x7FF then 2
                   else if CharValue(s) <= 0xFFFF then 3 else 4
  {
    var lead := s[0] as int - LeadMark(|s|);
    if |s| == 2 {
      assert s[1..] == [s[1]];
      BitsOfOne(lead, s[1]);
    } else if |s| == 3 {
      assert s[1..] == [s[1], s[2]];
      BitsOfTwo(lead, s[1], s[2]);
    } else if |s| == 4 {
      assert s[1..] == [s[1], s[2], s[3]];
      BitsOfThree(lead, s[1], s[2], s[3]);
    }
  }

  lemma BitsOfOne(lead: int, a: Byte)
    ensures Bits(lead, [a]) == lead * 0x40 + (a as int - 0x80)
  {
    assert [a][..0] == [];
  }

  lemma BitsOfTwo(lead: int, a: Byte, b: Byte)
    ensures Bits(lead, [a, b]) == lead * 0x1000 + (a as int - 0x80) * 0x40 + (b as int - 0x80)
  {
    assert [a, b][..1] == [a];
    BitsOfOne(lead, a);
  }

  lemma BitsOfThree(lead: int, a: Byte, b: Byte, c: Byte)
    ensures Bits(lead, [a, b, c]) ==
            lead * 0x40000 + (a as int - 0x80) * 0x1000 + (b as int - 0x80) * 0x40 + (c as int - 0x80)
  {
    assert [a, b, c][..2] == [a, b];
    BitsOfTwo(lead, a, b);
  }

  lemma {:induction false} BitsInjective(lead: int, a: seq<Byte>, lead': int, b: seq<Byte>)
    requires AreTails(a) && AreTails(b) && |a| == |b| && Bits(lead, a) == Bits(lead', b)
    ensures lead == lead' && a == b
  {
    if a != [] {
      BitsInjective(lead, a[..|a| - 1], lead', b[..|b| - 1]);
      assert a == a[..|a| - 1] + [a[|a| - 1]] && b == b[..|b| - 1] + [b[|b| - 1]];
    }
  }

  /** A scalar value has one character only. */
  lemma CharIsUnique(a: seq<Byte>, b: seq<Byte>)
    requires IsChar(a) && IsChar(b) && CharValue(a) == CharValue(b)
    ensures a == b
  {
    CharValueIsScalar(a);
    CharValueIsScalar(b);
    BitsInjective(a[0] as int - LeadMark(|a|), a[1..], b[0] as int - LeadMark(|b|), b[1..]);
    assert a == [a[0]] + a[1..] && b == [b[0]] + b[1..];
  }

  /** `s` spells the code points `cs`. */
  ghost predicate Spells(s: seq<Byte>, cs: seq<int>)
    decreases |cs|
  {
    if cs == [] then s == []
    else exists n: nat | StartsWithChar(s, n) :: CharValue(s[..n]) == cs[0] && Spells(s[n..], cs[1..])
  }

  lemma {:induction false} SpellingIsUnique(s: seq<Byte>, a: seq<int>, b: seq<int>)
    requires Spells(s, a) && Spells(s, b)
    ensures a == b
    decreases |a|
  {
    if a != [] && b != [] {
      var n: nat :| StartsWithChar(s, n) && CharValue(s[..n]) == a[0] && Spells(s[n..], a[1..]);
      var m: nat :| StartsWithChar(s, m) && CharValue(s[..m]) == b[0] && Spells(s[m..], b[1..]);
      CharLength(s, n);
      CharLength(s, m);
      SpellingIsUnique(s[n..], a[1..], b[1..]);
      assert a == [a[0]] + a[1..] && b == [b[0]] + b[1..];
    } else if a != [] {
      var n: nat :| StartsWithChar(s, n);
      CharLength(s, n);
    } else if b != [] {
      var n: nat :| StartsWithChar(s, n);
      CharLength(s, n);
    }
  }

  lemma {:induction false} SpelledIsValid(s: seq<Byte>, cs: seq<int>)
    requires Spells(s, cs)
    ensures Octets(s)
    decreases |cs|
  {
    if cs != [] {
      var n: nat :| StartsWithChar(s, n) && CharValue(s[..n]) == cs[0] && Spells(s[n..], cs[1..]);
      SpelledIsValid(s[n..], cs[1..]);
      PeelChar(s, n);
    }
  }

  lemma {:induction false} ValidIsSpelled(s: seq<Byte>) returns (cs: seq<int>)
    requires Octets(s)
    ensures Spells(s, cs)
    decreases |s|
  {
    if s == [] {
      cs := [];
    } else {
      var n: nat :| 0 < n <= |s| && StartsWithChar(s, n) && Octets(s[n..]);
      var rest := ValidIsSpelled(s[n..]);
      cs := [CharValue(s[..n])] + rest;
      assert cs[1..] == rest;
    }
  }

  const MAX_CODE_POINT_1 := 0x7F
  const MAX_CODE_POINT_2 := 0x7FF
  const MAX_CODE_POINT_3 := 0xFFFF
  const MAX_CODE_POINT_4 := 0x1FFFFF

  function Ascii(s: string): (r: seq<Byte>)
    requires forall i | 0 <= i < |s| :: s[i] <= '~'
    ensures |r| == |s| && forall i | 0 <= i < |r| :: r[i] <= 0x7F
  {
    seq(|s|, i requires 0 <= i < |s| => s[i] as int)
  }

  function HexDigit(d: int): char
    requires 0 <= d < 16
  {
    if d < 10 then ('0' as int + d) as char else ('A' as int + (d - 10)) as char
  }

  function FormatHex(value: nat): (s: string)
    ensures forall i | 0 <= i < |s| :: s[i] <= '~'
  {
    (if value < 16 then "" else FormatHex(value / 16)) + [HexDigit(value % 16)]
  }

  /** The number that a digit stands for. */
  function HexValueOf(c: char): int {
    if '0' <= c <= '9' then c as int - '0' as int else if 'A' <= c <= 'F' then c as int - 'A' as int + 10 else -1
  }

  function ReadHex(s: string): int {
    if s == "" then 0 else 16 * ReadHex(s[..|s| - 1]) + HexValueOf(s[|s| - 1])
  }

  /** The message's number is written in upper-case hexadecimal digits without a leading zero. */
  lemma {:induction false} HexReadsBack(value: nat)
    ensures var s := FormatHex(value);
            && ReadHex(s) == value && s != "" && (value > 0 ==> s[0] != '0')
            && forall i | 0 <= i < |s| :: HexValueOf(s[i]) >= 0
  {
    var s := FormatHex(value);
    assert s[..|s| - 1] == if value < 16 then "" else FormatHex(value / 16);
    if value >= 16 { HexReadsBack(value / 16); }
  }

  function InvalidText(c: nat): (s: seq<Byte>)
    ensures forall i | 0 <= i < |s| :: s[i] <= 0x7F
  {
    Ascii("(Invalid Unicode 0x" + FormatHex(c) + ")")
  }

  /** What becomes of one code point: nothing for NUL, a spelling of up to four bytes, or a message. */
  function Narrow(c: Word): seq<Byte> {
    if c == 0 then []
    else if c <= 0x7F then [c]
    else if c <= 0x7FF then [0xC0 + c / 0x40, 0x80 + c % 0x40]
    else if c <= 0xFFFF then [0xE0 + c / 0x40 / 0x40, 0x80 + c / 0x40 % 0x40, 0x80 + c % 0x40]
    else if c <= 0x1FFFFF then
      [0xF0 + c / 0x40 / 0x40 / 0x40, 0x80 + c / 0x40 / 0x40 % 0x40, 0x80 + c / 0x40 % 0x40, 0x80 + c % 0x40]
    else InvalidText(c)
  }

  function LowBits(c: Word): Byte {
    c % 0x40
  }

  function HighBits(c: Word): Word {
    c / 0x40
  }

  lemma NarrowBytes(c: Word)
    ensures c == 0 ==> Narrow(c) == []
    ensures 0 < c <= 0x7F ==> Narrow(c) == [c]
    ensures 0x7F < c <= 0x7FF ==> HighBits(c) <= 0x1F && Narrow(c) == [0xC0 + HighBits(c), 0x80 + LowBits(c)]
    ensures 0x7FF < c <= 0xFFFF ==>
              var d := HighBits(c);
              && HighBits(d) <= 0xF
              && Narrow(c) == [0xE0 + HighBits(d), 0x80 + LowBits(d), 0x80 + LowBits(c)]
    ensures 0xFFFF < c <= 0x1FFFFF ==>
              var d := HighBits(c);
              var e := HighBits(d);
              && HighBits(e) <= 7
              && Narrow(c) == [0xF0 + HighBits(e), 0x80 + LowBits(e), 0x80 + LowBits(d), 0x80 + LowBits(c)]
    ensures c > 0x1FFFFF ==> Narrow(c) == InvalidText(c)
  {
    hide InvalidText;
  }

  method ChopLowBits6(bits: Word) returns (low: Byte, rest: Word)
    ensures low == LowBits(bits) < 0x40 && rest == HighBits(bits)
  {
    low, rest := bits % 0x40, bits / 0x40;
  }

  /** The bytes before the first NUL, which is at `n`. */
  method FromCString(str: array<Byte>, ghost n: nat) returns (text: seq<Byte>)
    requires n < str.Length && str[n] == 0 && forall i | 0 <= i < n :: str[i] != 0
    ensures text == str[..n]
  {
    var length := 0;
    while str[length] != 0
      invariant 0 <= length <= n
      decreases n - length
    {
      length := length + 1;
    }
    text := str[..length];
  }

  method CodePointToUtf8(codePoint: Word) returns (text: seq<Byte>)
    ensures text == Narrow(codePoint)
  {
    hide InvalidText, Narrow, LowBits, HighBits;
    NarrowBytes(codePoint);
    if codePoint > MAX_CODE_POINT_4 {
      return InvalidText(codePoint);
    }
    var str := new Byte[5](_ => 0);
    var low, rest := 0, codePoint;
    ghost var n := 1;
    if codePoint <= MAX_CODE_POINT_1 {
      str[1] := 0;
      str[0] := codePoint;
      n := if codePoint == 0 then 0 else 1;
      assert str[..n] == Narrow(codePoint);
    } else if codePoint <= MAX_CODE_POINT_2 {
      str[2] := 0;
      low, rest := ChopLowBits6(rest);
      str[1] := 0x80 + low;
      str[0] := 0xC0 + rest;
      n := 2;
      assert str[..n] == Narrow(codePoint);
    } else if codePoint <= MAX_CODE_POINT_3 {
      str[3] := 0;
      low, rest := ChopLowBits6(rest);
      str[2] := 0x80 + low;
      low, rest := ChopLowBits6(rest);
      str[1] := 0x80 + low;
      str[0] := 0xE0 + rest;
      n := 3;
      assert str[..n] == Narrow(codePoint);
    } else {
      str[4] := 0;
      low, rest := ChopLowBits6(rest);
      str[3] := 0x80 + low;
      low, rest := ChopLowBits6(rest);
      str[2] := 0x80 + low;
      low, rest := ChopLowBits6(rest);
      str[1] := 0x80 + low;
      str[0] := 0xF0 + rest;
      n := 4;
      assert str[..n] == Narrow(codePoint);
    }
    text := FromCString(str, n);
  }

  lemma NarrowIsChar(c: Word)
    requires IsScalar(c) && c != 0
    ensures IsChar(Narrow(c))
  {
  }

  /** A scalar value other than NUL becomes the character that spells it. */
  lemma NarrowSpells(c: Word)
    requires IsScalar(c) && c != 0
    ensures IsChar(Narrow(c)) && CharValue(Narrow(c)) == c
  {
    hide IsChar, Bits;
    NarrowIsChar(c);
    var s := Narrow(c);
    if |s| == 2 {
      assert s[1..] == [s[1]];
      BitsOfOne(s[0] - 0xC0, s[1]);
    } else if |s| == 3 {
      assert s[1..] == [s[1], s[2]];
      BitsOfTwo(s[0] - 0xE0, s[1], s[2]);
    } else if |s| == 4 {
      assert s[1..] == [s[1], s[2], s[3]];
      BitsOfThree(s[0] - 0xF0, s[1], s[2], s[3]);
    } else {
      assert s[1..] == [];
      NoTails(c);
    }
  }

  lemma NoTails(lead: int)
    ensures Bits(lead, []) == lead
  {
  }

  lemma SecondOctet(s: seq<Byte>, n: nat)
    requires StartsWithChar(s, n) && |s| > 1
    ensures s[0] <= 0xF4 && (s[0] == 0xED ==> s[1] <= 0x9F) && (s[0] == 0xF4 ==> s[1] <= 0x8F)
  {
    CharLength(s, n);
    assert s[..n][0] == s[0];
    assert n > 1 ==> s[..n][1] == s[1];
  }

  /** Every other number that still fits four bytes becomes bytes no valid text starts with. */
  lemma NarrowOutsideUnicode(c: Word, rest: seq<Byte>)
    requires !IsScalar(c) && c <= 0x1FFFFF
    ensures !Octets(Narrow(c) + rest)
  {
    var s := Narrow(c) + rest;
    forall n: nat | n <= 4 ensures !StartsWithChar(s, n) {
      if StartsWithChar(s, n) { SecondOctet(s, n); }
    }
    NoCharNoOctets(s);
  }

  // ----- wide strings

  /** The wide strings of a platform: 16-bit units holding UTF-16, or 32-bit units holding code points. */
  datatype Wide = Utf16 | Utf32 {
    predicate IsUnit(u: int) {
      0 <= u < if this == Utf16 then 0x1_0000 else 0x1_0000_0000
    }

    predicate IsSurrogatePair(first: int, second: int): (b: bool)
      ensures b ==> first > 0 && second > 0
    {
      this == Utf16 && first / 0x400 == 0xD800 / 0x400 && second / 0x400 == 0xDC00 / 0x400
    }
  }

  predicate AreUnits(wide: Wide, units: seq<int>) {
    forall i | 0 <= i < |units| :: wide.IsUnit(units[i])
  }

  function FromSurrogatePair(first: int, second: int): (c: Word)
    ensures 0x10000 <= c <= 0x10FFFF
  {
    (first % 0x400) * 0x400 + second % 0x400 + 0x10000
  }

  /** The code points a NUL-free wide string is read as; an unpaired surrogate stands for itself. */
  function CodePoints(wide: Wide, units: seq<int>): (cs: seq<Word>)
    requires AreUnits(wide, units)
    decreases |units|
  {
    if units == [] then []
    else if |units| > 1 && wide.IsSurrogatePair(units[0], units[1]) then
      [FromSurrogatePair(units[0], units[1])] + CodePoints(wide, units[2..])
    else
      [units[0]] + CodePoints(wide, units[1..])
  }

  function NarrowAll(cs: seq<Word>): seq<Byte> {
    if cs == [] then [] else Narrow(cs[0]) + NarrowAll(cs[1..])
  }

  /** The place of the first NUL, or the length. */
  function Nul(units: seq<int>): (n: nat)
    ensures n <= |units| && (n < |units| ==> units[n] == 0)
    ensures forall i | 0 <= i < n :: units[i] != 0
  {
    if units == [] || units[0] == 0 then 0 else 1 + Nul(units[1..])
  }

  /** The part of the string that is converted: up to its NUL or as many units as `numChars` allows, which is none if
      it is negative.  Only -1 itself stands for the whole string. */
  function Converted(units: seq<int>, numChars: int): (part: seq<int>)
    ensures part <= units && 0 !in part
  {
    if numChars == -1 || Nul(units) <= numChars then units[..Nul(units)]
    else if numChars < 0 then []
    else units[..numChars]
  }

  /** What is left to convert from unit `i` on. */
  function Rest(wide: Wide, part: seq<int>, i: nat): seq<Byte>
    requires AreUnits(wide, part) && i <= |part|
  {
    NarrowAll(CodePoints(wide, part[i..]))
  }

  lemma RestOfPair(wide: Wide, part: seq<int>, i: nat)
    requires AreUnits(wide, part) && i + 1 < |part| && wide.IsSurrogatePair(part[i], part[i + 1])
    ensures Rest(wide, part, i) == Narrow(FromSurrogatePair(part[i], part[i + 1])) + Rest(wide, part, i + 2)
  {
    assert part[i..][2..] == part[i + 2..];
  }

  lemma RestOfOne(wide: Wide, part: seq<int>, i: nat)
    requires AreUnits(wide, part) && i < |part|
    requires i + 1 < |part| ==> !wide.IsSurrogatePair(part[i], part[i + 1])
    ensures Rest(wide, part, i) == Narrow(part[i]) + Rest(wide, part, i + 1)
  {
    assert part[i..][1..] == part[i + 1..];
    if i + 1 < |part| { assert part[i..][1] == part[i + 1]; }
  }

  /** `units` is the string from its start on as far as it may be read: with its NUL, or, unless the whole string is
      asked for, with at least `numChars` units. */
  method WideStringToUtf8(wide: Wide, units: seq<int>, numChars: int) returns (text: seq<Byte>)
    requires AreUnits(wide, units)
    requires 0 in units || (numChars != -1 && numChars <= |units|)
    ensures text == NarrowAll(CodePoints(wide, Converted(units, numChars)))
  {
    hide FromSurrogatePair, Rest, CodePoints, Narrow, NarrowAll, Wide.IsSurrogatePair;
    var count := if numChars == -1 then Nul(units) else numChars;
    ghost var part := Converted(units, numChars);
    assert AreUnits(wide, part);
    text := [];
    var i := 0;
    while i < count
      invariant 0 <= i <= |part| && (|part| <= count || part == [])
      invariant text + Rest(wide, part, i) == Rest(wide, part, 0)
    {
      var codePoint: Word;
      assert i < |part| ==> part[i] == units[i] && part[i] in part;
      if units[i] == 0 {
        break;
      }
      assert i < |part|;
      if i + 1 < count && wide.IsSurrogatePair(units[i], units[i + 1]) {
        assert units[i + 1] != 0;
        RestOfPair(wide, part, i);
        codePoint := FromSurrogatePair(units[i], units[i + 1]);
        i := i + 1;
      } else {
        RestOfOne(wide, part, i);
        codePoint := units[i];
      }
      var narrow := CodePointToUtf8(codePoint);
      i := i + 1;
      assert text + (narrow + Rest(wide, part, i)) == (text + narrow) + Rest(wide, part, i);
      text := text + narrow;
    }
    NothingLeft(wide, part, i);
  }

  lemma NothingLeft(wide: Wide, part: seq<int>, i: nat)
    requires AreUnits(wide, part) && i == |part|
    ensures Rest(wide, part, i) == [] && Rest(wide, part, 0) == NarrowAll(CodePoints(wide, part))
  {
    assert part[i..] == [] && part[0..] == part;
  }

  // ----- what the conversion preserves

  predicate AreScalars(cs: seq<int>) {
    forall i | 0 <= i < |cs| :: IsScalar(cs[i]) && cs[i] != 0
  }

  /** The well-formed wide string for NUL-free text. */
  function Widen(wide: Wide, cs: seq<int>): (units: seq<int>)
    requires AreScalars(cs)
    ensures AreUnits(wide, units) && 0 !in units
  {
    if cs == [] then []
    else
      var rest := Widen(wide, cs[1..]);
      if wide == Utf16 && cs[0] >= 0x10000 then
        [0xD800 + (cs[0] - 0x10000) / 0x400, 0xDC00 + (cs[0] - 0x10000) % 0x400] + rest
      else [cs[0]] + rest
  }

  lemma {:induction false} WidenedIsReadBack(wide: Wide, cs: seq<int>)
    requires AreScalars(cs)
    ensures CodePoints(wide, Widen(wide, cs)) == cs
  {
    if cs != [] {
      WidenedIsReadBack(wide, cs[1..]);
      var units := Widen(wide, cs);
      if wide == Utf16 && cs[0] >= 0x10000 {
        assert units[2..] == Widen(wide, cs[1..]);
      } else {
        assert units[1..] == Widen(wide, cs[1..]);
      }
    }
  }

  lemma {:induction false} NarrowAllSpells(cs: seq<Word>)
    requires AreScalars(cs)
    ensures Spells(NarrowAll(cs), cs)
  {
    if cs != [] {
      NarrowAllSpells(cs[1..]);
      NarrowSpells(cs[0]);
      var s := NarrowAll(cs);
      var n := |Narrow(cs[0])|;
      assert s[..n] == Narrow(cs[0]) && s[n..] == NarrowAll(cs[1..]);
      assert StartsWithChar(s, n);
    }
  }

  /** Well-formed NUL-free wide text becomes valid UTF-8 that spells the same code points, and no others. */
  lemma WideTextSurvives(wide: Wide, cs: seq<Word>, other: seq<int>)
    requires AreScalars(cs)
    ensures var s := NarrowAll(CodePoints(wide, Widen(wide, cs)));
            Octets(s) && (Spells(s, other) <==> other == cs)
  {
    WidenedIsReadBack(wide, cs);
    NarrowAllSpells(cs);
    var s := NarrowAll(cs);
    SpelledIsValid(s, cs);
    if Spells(s, other) { SpellingIsUnique(s, other, cs); }
  }

  /** The units of any code point, surrogates included. */
  function Spread(wide: Wide, c: int): seq<int> {
    if wide == Utf16 && c >= 0x10000 then [0xD800 + (c - 0x10000) / 0x400, 0xDC00 + (c - 0x10000) % 0x400] else [c]
  }

  function SpreadAll(wide: Wide, cs: seq<int>): seq<int> {
    if cs == [] then [] else Spread(wide, cs[0]) + SpreadAll(wide, cs[1..])
  }

  lemma PairIsLossless(first: int, second: int)
    requires Utf16.IsUnit(first) && Utf16.IsUnit(second) && Utf16.IsSurrogatePair(first, second)
    ensures Spread(Utf16, FromSurrogatePair(first, second)) == [first, second]
  {
  }

  /** Reading loses nothing: the code points read from any units, paired surrogates or not, give these units back. */
  lemma {:induction false} ReadingIsLossless(wide: Wide, units: seq<int>)
    requires AreUnits(wide, units)
    ensures SpreadAll(wide, CodePoints(wide, units)) == units
    decreases |units|
  {
    hide FromSurrogatePair, Spread;
    if |units| > 1 && wide.IsSurrogatePair(units[0], units[1]) {
      ReadingIsLossless(wide, units[2..]);
      PairIsLossless(units[0], units[1]);
      assert units == [units[0], units[1]] + units[2..];
    } else if units != [] {
      ReadingIsLossless(wide, units[1..]);
      OneIsLossless(wide, units[0]);
      assert units == [units[0]] + units[1..];
    }
  }

  lemma OneIsLossless(wide: Wide, unit: int)
    requires wide.IsUnit(unit)
    ensures Spread(wide, unit) == [unit]
  {
  }

  lemma {:induction false} NulAt(part: seq<int>, rest: seq<int>)
    requires 0 !in part
    ensures Nul(part + [0] + rest) == |part|
    decreases |part|
  {
    if part != [] {
      assert (part + [0] + rest)[1..] == part[1..] + [0] + rest;
      NulAt(part[1..], rest);
    }
  }

  /** From end to end: what the conversion makes of well-formed NUL-terminated wide text, asked for as a whole or with
      a limit that it does not reach, spells that text and nothing else. */
  lemma ConvertedTextSurvives(wide: Wide, cs: seq<Word>, rest: seq<int>, numChars: int, other: seq<int>)
    requires AreScalars(cs) && (numChars == -1 || numChars >= |Widen(wide, cs)|)
    ensures var part := Converted(Widen(wide, cs) + [0] + rest, numChars);
            && AreUnits(wide, part)
            && var text := NarrowAll(CodePoints(wide, part));
               Octets(text) && (Spells(text, other) <==> other == cs)
  {
    hide Octets, Spells, NarrowAll, CodePoints, Widen;
    var units := Widen(wide, cs);
    NulAt(units, rest);
    assert (units + [0] + rest)[..|units|] == units;
    WideTextSurvives(wide, cs, other);
  }

  lemma {:induction false} AsciiIsTransparent(s: seq<Byte>, rest: seq<Byte>)
    requires forall i | 0 <= i < |s| :: s[i] <= 0x7F
    ensures Octets(s + rest) <==> Octets(rest)
    decreases |s|
  {
    if s == [] {
      assert s + rest == rest;
    } else {
      AsciiIsTransparent(s[1..], rest);
      assert (s + rest)[1..] == s[1..] + rest;
      assert StartsWithChar(s + rest, 1);
      PeelChar(s + rest, 1);
    }
  }

  predicate SafeCodePoint(c: Word) {
    IsScalar(c) || c > 0x1FFFFF
  }

  /** For any wide string at all, the output is valid UTF-8 exactly when no code point read is an unpaired surrogate
      or lies in the gap between Unicode and the four-byte limit. */
  lemma {:induction false} ValidExactly(cs: seq<Word>)
    ensures Octets(NarrowAll(cs)) <==> forall i | 0 <= i < |cs| :: SafeCodePoint(cs[i])
  {
    if cs != [] {
      var rest := NarrowAll(cs[1..]);
      var s := Narrow(cs[0]) + rest;
      ValidExactly(cs[1..]);
      assert Octets(s) <==> SafeCodePoint(cs[0]) && Octets(rest) by {
        OneNarrowed(cs[0], rest);
      }
      assert (forall i | 0 <= i < |cs| :: SafeCodePoint(cs[i])) <==>
        SafeCodePoint(cs[0]) && forall i | 0 <= i < |cs[1..]| :: SafeCodePoint(cs[1..][i]) by {
        assert forall i | 1 <= i < |cs| :: cs[i] == cs[1..][i - 1];
      }
    }
  }

  lemma OneNarrowed(c: Word, rest: seq<Byte>)
    ensures Octets(Narrow(c) + rest) <==> SafeCodePoint(c) && Octets(rest)
  {
    var s := Narrow(c) + rest;
    if c == 0 {
      assert s == rest;
    } else if c > 0x1FFFFF {
      AsciiIsTransparent(Narrow(c), rest);
    } else if IsScalar(c) {
      NarrowSpells(c);
      var n := |Narrow(c)|;
      assert s[..n] == Narrow(c) && s[n..] == rest;
      PeelChar(s, n);
    } else {
      NarrowOutsideUnicode(c, rest);
    }
  }
}
