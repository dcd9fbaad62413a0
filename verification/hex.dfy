/** Hexadecimal text on the JVM: `String.toLong(16)` / `String.toInt(16)`
    (which delegate to `Long.parseLong` / `Integer.parseInt`) and the `%0Nx`
    conversion of `String.format`. The parsers read each UTF-16 code unit
    with `Character.digit(c, 16)`, a table of the JDK (`digit`); the
    formatter writes ASCII digits only. */
module Hex {
  import opened Wrappers
  import opened JvmNumbers
  import opened KotlinText

  /** The ASCII hexadecimal digits, in either case. */
  predicate IsHexDigit(c: char) {
    '0' <= c <= '9' || 'a' <= c <= 'f' || 'A' <= c <= 'F'
  }

  /** Digits produced by `%x`: lower-case only. */
  predicate IsLowerHexDigit(c: char) {
    '0' <= c <= '9' || 'a' <= c <= 'f'
  }

  predicate AllHex(s: string) {
    forall i :: 0 <= i < |s| ==> IsHexDigit(s[i])
  }

  predicate AllLowerHex(s: string) {
    forall i :: 0 <= i < |s| ==> IsLowerHexDigit(s[i])
  }

  function DigitValue(c: char): (v: nat)
    requires IsHexDigit(c)
    ensures v < 16
  {
    if '0' <= c <= '9' then c as int - '0' as int
    else if 'a' <= c <= 'f' then c as int - 'a' as int + 10
    else c as int - 'A' as int + 10
  }

  function DigitChar(v: nat): (c: char)
    requires v < 16
    ensures IsLowerHexDigit(c) && DigitValue(c) == v
  {
    if v < 10 then ('0' as int + v) as char else ('a' as int + v - 10) as char
  }

  /** The lower-case form of a hex digit. */
  function LowerDigit(c: char): (l: char)
    requires IsHexDigit(c)
    ensures IsLowerHexDigit(l) && DigitValue(l) == DigitValue(c)
    ensures IsLowerHexDigit(c) ==> l == c
  {
    if 'A' <= c <= 'F' then (c as int - 'A' as int + 'a' as int) as char else c
  }

  function LowerHex(s: string): (r: string)
    requires AllHex(s)
    ensures |r| == |s|
    ensures forall i :: 0 <= i < |s| ==> r[i] == LowerDigit(s[i])
  {
    if |s| == 0 then [] else LowerHex(s[..|s| - 1]) + [LowerDigit(s[|s| - 1])]
  }

  function Pow16(w: nat): (p: nat)
    ensures p >= 1
  {
    if w == 0 then 1 else 16 * Pow16(w - 1)
  }

  /** The two widths the core formats with. */
  lemma Pow16Widths()
    ensures Pow16(8) == 0x1_0000_0000
    ensures Pow16(16) == 0x1_0000_0000_0000_0000
  {
    assert Pow16(4) == 0x1_0000 by {
      assert Pow16(2) == 0x100 by { assert Pow16(1) == 16; }
    }
    assert Pow16(8) == 0x1_0000_0000 by {
      assert Pow16(6) == 0x100_0000 by { assert Pow16(5) == 0x10_0000; }
    }
    assert Pow16(12) == 0x1_0000_0000_0000 by {
      assert Pow16(10) == 0x100_0000_0000 by { assert Pow16(9) == 0x10_0000_0000; }
    }
    assert Pow16(16) == 0x1_0000_0000_0000_0000 by {
      assert Pow16(14) == 0x100_0000_0000_0000 by { assert Pow16(13) == 0x10_0000_0000_0000; }
    }
  }

  /** The number a digit string denotes, most significant digit first. */
  function HexValue(s: string): nat
    requires AllHex(s)
  {
    if |s| == 0 then 0 else 16 * HexValue(s[..|s| - 1]) + DigitValue(s[|s| - 1])
  }

  lemma {:induction false} HexValueBound(s: string)
    requires AllHex(s)
    ensures HexValue(s) < Pow16(|s|)
  {
    if |s| > 0 {
      HexValueBound(s[..|s| - 1]);
    }
  }

  /** `%0wx` of a non-negative value below 16^w: exactly `w` lower-case
      digits, zero-padded on the left. */
  function HexFixed(n: nat, w: nat): (r: string)
    requires n < Pow16(w)
    ensures |r| == w && AllLowerHex(r) && AllHex(r)
  {
    if w == 0 then [] else HexFixed(n / 16, w - 1) + [DigitChar(n % 16)]
  }

  lemma AllHexAppend(a: string, b: string)
    requires AllHex(a) && AllHex(b)
    ensures AllHex(a + b)
  {
    forall i | 0 <= i < |a + b|
      ensures IsHexDigit((a + b)[i])
    {
      if i < |a| {
        assert (a + b)[i] == a[i];
      } else {
        assert (a + b)[i] == b[i - |a|];
      }
    }
  }

  /** The value of a concatenation: the high digits shifted past the low ones. */
  lemma {:induction false} HexValueAppend(a: string, b: string)
    requires AllHex(a) && AllHex(b)
    ensures AllHex(a + b)
    ensures HexValue(a + b) == HexValue(a) * Pow16(|b|) + HexValue(b)
  {
    AllHexAppend(a, b);
    if |b| > 0 {
      var b' := b[..|b| - 1];
      var last := b[|b| - 1];
      assert (a + b)[..|a + b| - 1] == a + b';
      assert (a + b)[|a + b| - 1] == last;
      HexValueAppend(a, b');
      assert HexValue(a + b) == 16 * HexValue(a + b') + DigitValue(last);
      assert HexValue(b) == 16 * HexValue(b') + DigitValue(last);
      assert Pow16(|b|) == 16 * Pow16(|b'|);
      ShiftDigit(HexValue(a + b'), HexValue(a), Pow16(|b'|), HexValue(b'), DigitValue(last));
    } else {
      assert a + b == a;
    }
  }

  lemma ShiftDigit(whole: int, high: int, p: int, low: int, digit: int)
    requires whole == high * p + low
    ensures 16 * whole + digit == high * (16 * p) + (16 * low + digit)
  {
  }

  /** Reading back a formatted number gives the number. */
  lemma {:induction false} HexValueOfFixed(n: nat, w: nat)
    requires n < Pow16(w)
    ensures HexValue(HexFixed(n, w)) == n
  {
    if w > 0 {
      var r := HexFixed(n, w);
      assert r[..w - 1] == HexFixed(n / 16, w - 1);
      HexValueOfFixed(n / 16, w - 1);
    }
  }

  /** Formatting the value of a digit string gives its lower-case form, so a
      lower-case digit string is reproduced exactly. */
  lemma {:induction false} HexFixedOfValue(s: string)
    requires AllHex(s)
    ensures HexValue(s) < Pow16(|s|)
    ensures HexFixed(HexValue(s), |s|) == LowerHex(s)
    ensures AllLowerHex(s) ==> HexFixed(HexValue(s), |s|) == s
  {
    HexValueBound(s);
    if |s| > 0 {
      var p := s[..|s| - 1];
      HexFixedOfValue(p);
      var v := HexValue(s);
      assert v / 16 == HexValue(p) && v % 16 == DigitValue(s[|s| - 1]);
      assert DigitChar(v % 16) == LowerDigit(s[|s| - 1]);
      assert LowerHex(s) == LowerHex(p) + [LowerDigit(s[|s| - 1])];
    }
  }

  /** Hex digits are ASCII, so each is one UTF-16 code unit. */
  lemma HexBmp(s: string)
    requires AllHex(s)
    ensures Bmp(s) && Length(s) == |s|
  {
  }

  /** `Character.digit(c, 16)` on ASCII: a hex digit's value, else -1. */
  function AsciiDigit(c: char): int {
    if IsHexDigit(c) then DigitValue(c) else -1
  }

  /** What `Character.digit(c, 16)` returns on every JDK: the ASCII answer
      on ASCII, and the values of the fullwidth digits U+FF10..U+FF19 and
      fullwidth letters A-F (U+FF21..) and a-f (U+FF41..). Other decimal
      digits depend on the JDK's Unicode version. */
  predicate JdkDigits(digit: char -> int) {
    && (forall c: char :: c as int < 0x80 ==> digit(c) == AsciiDigit(c))
    && (forall c: char :: 0xFF10 <= c as int <= 0xFF19 ==> digit(c) == c as int - 0xFF10)
    && (forall c: char :: 0xFF21 <= c as int <= 0xFF26 ==> digit(c) == c as int - 0xFF21 + 10)
    && (forall c: char :: 0xFF41 <= c as int <= 0xFF46 ==> digit(c) == c as int - 0xFF41 + 10)
  }

  /** The digit the parsers read from one character, or -1: a character
      outside the Basic Multilingual Plane is two surrogate units, and a
      surrogate is no digit. `Character.digit` never answers outside 0..15
      for radix 16; such an answer counts as -1. */
  function UnitDigit(digit: char -> int, c: char): (v: int)
    ensures -1 <= v < 16
    ensures v >= 0 ==> c as int < 0x10000 && v == digit(c)
  {
    if c as int < 0x10000 && 0 <= digit(c) < 16 then digit(c) else -1
  }

  predicate AllDigits(s: string, digit: char -> int) {
    forall i :: 0 <= i < |s| ==> UnitDigit(digit, s[i]) >= 0
  }

  /** The number a digit string denotes under the table, most significant first. */
  function DigitsValue(s: string, digit: char -> int): nat
    requires AllDigits(s, digit)
  {
    if |s| == 0 then 0 else 16 * DigitsValue(s[..|s| - 1], digit) + UnitDigit(digit, s[|s| - 1])
  }

  /** Every JDK reads an ASCII digit string at its plain value. */
  lemma {:induction false} AsciiDigitsValue(s: string, digit: char -> int)
    requires JdkDigits(digit) && AllHex(s)
    ensures AllDigits(s, digit) && DigitsValue(s, digit) == HexValue(s)
  {
    forall i | 0 <= i < |s| ensures UnitDigit(digit, s[i]) == DigitValue(s[i]) {
      assert s[i] as int < 0x80;
    }
    if |s| > 0 {
      AsciiDigitsValue(s[..|s| - 1], digit);
    }
  }

  /** Strings whose characters read as the same digits have the same value. */
  lemma {:induction false} SameDigitsValue(s: string, t: string, digit: char -> int)
    requires |s| == |t| && AllDigits(s, digit)
    requires forall i :: 0 <= i < |s| ==> UnitDigit(digit, t[i]) == UnitDigit(digit, s[i])
    ensures AllDigits(t, digit) && DigitsValue(t, digit) == DigitsValue(s, digit)
  {
    if |s| > 0 {
      SameDigitsValue(s[..|s| - 1], t[..|t| - 1], digit);
    }
  }

  /** `Long.parseLong(s, 16)` (with `min`/`max` the `Long` bounds) or
      `Integer.parseInt(s, 16)` (the `Int` bounds): an optional sign, at least
      one digit under `digit`, and a value inside the range; anything else
      is a `NumberFormatException`, here `None`. */
  function ParseSignedHex(s: string, min: int, max: int, digit: char -> int): (r: Option<int>)
    ensures r.Some? ==> min <= r.value <= max
    ensures r.Some? ==> |s| > 0
    ensures r.Some? && s[0] != '-' && s[0] != '+' ==> AllDigits(s, digit) && r.value == DigitsValue(s, digit)
  {
    if |s| == 0 then None
    else
      var negative := s[0] == '-';
      var digits := if s[0] == '-' || s[0] == '+' then s[1..] else s;
      if |digits| == 0 || !AllDigits(digits, digit) then None
      else
        var v: int := if negative then 0 - DigitsValue(digits, digit) as int else DigitsValue(digits, digit);
        if min <= v <= max then Some(v) else None
  }

  /** `toLong(16)` of a part. */
  function ParseLongHex(s: string, digit: char -> int): (r: Option<Int64>)
    ensures r.Some? ==> |s| > 0
  {
    match ParseSignedHex(s, LONG_MIN, LONG_MAX, digit)
    case Some(v) => Some(v)
    case None => None
  }

  /** `toInt(16)` of a part. */
  function ParseIntHex(s: string, digit: char -> int): (r: Option<Int32>)
    ensures r.Some? ==> |s| > 0
  {
    match ParseSignedHex(s, INT_MIN, INT_MAX, digit)
    case Some(v) => Some(v)
    case None => None
  }

  /** An unsigned ASCII digit string in range parses to its value, and the
      parser agrees with `HexValue` on every plain ASCII digit string. */
  lemma ParsePlainDigits(s: string, min: int, max: int, digit: char -> int)
    requires JdkDigits(digit) && |s| > 0 && AllHex(s)
    ensures ParseSignedHex(s, min, max, digit)
      == if min <= HexValue(s) <= max then Some(HexValue(s)) else None
  {
    assert s[0] != '-' && s[0] != '+';
    AsciiDigitsValue(s, digit);
  }

  /** The unsigned reading of a `Long`'s 64-bit pattern. */
  function Unsigned64(v: Int64): (u: nat)
    ensures u < Pow16(16)
    ensures v >= 0 ==> u == v
    ensures v < 0 ==> u == v + 0x1_0000_0000_0000_0000 && u > LONG_MAX
  {
    Pow16Widths();
    if v >= 0 then v else v + 0x1_0000_0000_0000_0000
  }

  /** The unsigned reading of an `Int`'s 32-bit pattern. */
  function Unsigned32(v: Int32): (u: nat)
    ensures u < Pow16(8)
    ensures v >= 0 ==> u == v
    ensures v < 0 ==> u == v + 0x1_0000_0000 && u > INT_MAX
  {
    Pow16Widths();
    if v >= 0 then v else v + 0x1_0000_0000
  }

  /** `%016x` of a `Long`: the 64-bit two's-complement pattern. */
  function FormatLongHex(v: Int64): (r: string)
    ensures |r| == 16 && AllLowerHex(r)
  {
    HexFixed(Unsigned64(v), 16)
  }

  /** `%08x` of an `Int`: the 32-bit two's-complement pattern. */
  function FormatIntHex(v: Int32): (r: string)
    ensures |r| == 8 && AllLowerHex(r)
  {
    HexFixed(Unsigned32(v), 8)
  }

  /** A fixed-width rendering of an in-range value parses back to it. */
  lemma FixedRoundTrip(n: nat, w: nat, min: int, max: int, digit: char -> int)
    requires JdkDigits(digit) && 0 < w && n < Pow16(w) && min <= n <= max
    ensures ParseSignedHex(HexFixed(n, w), min, max, digit) == Some(n)
  {
    HexValueOfFixed(n, w);
    ParsePlainDigits(HexFixed(n, w), min, max, digit);
  }

  /** A non-negative `Long` survives `%016x` followed by `toLong(16)`. */
  lemma LongHexRoundTrip(v: Int64, digit: char -> int)
    requires JdkDigits(digit) && v >= 0
    ensures ParseLongHex(FormatLongHex(v), digit) == Some(v)
  {
    assert Unsigned64(v) == v;
    FixedRoundTrip(v, 16, LONG_MIN, LONG_MAX, digit);
  }

  /** A non-negative `Int` survives `%08x` followed by `toInt(16)`. */
  lemma IntHexRoundTrip(v: Int32, digit: char -> int)
    requires JdkDigits(digit) && v >= 0
    ensures ParseIntHex(FormatIntHex(v), digit) == Some(v)
  {
    FixedRoundTrip(v, 8, INT_MIN, INT_MAX, digit);
  }

  /** A negative value is formatted as a two's-complement pattern whose
      unsigned reading overflows the parser: it does not read back. */
  lemma NegativeLongHexRejected(v: Int64, digit: char -> int)
    requires JdkDigits(digit) && v < 0
    ensures ParseLongHex(FormatLongHex(v), digit) == None
  {
    HexValueOfFixed(Unsigned64(v), 16);
    ParsePlainDigits(FormatLongHex(v), LONG_MIN, LONG_MAX, digit);
  }

  lemma NegativeIntHexRejected(v: Int32, digit: char -> int)
    requires JdkDigits(digit) && v < 0
    ensures ParseIntHex(FormatIntHex(v), digit) == None
  {
    HexValueOfFixed(Unsigned32(v), 8);
    ParsePlainDigits(FormatIntHex(v), INT_MIN, INT_MAX, digit);
  }

  /** The timestamps of the two instance-id test file names. */
  lemma HexLiteral1()
    ensures HexValue("08dc982355adb2b7") == 638552524708491959
  {
    HexLiteralHigh1();
    HexLiteralLow1();
    HexValueAppend("08dc9823", "55adb2b7");
    Pow16Widths();
    assert "08dc9823" + "55adb2b7" == "08dc982355adb2b7";
  }

  lemma HexLiteral2()
    ensures HexValue("08dc9cd35f178af0") == 638557678827178736
  {
    HexLiteralHigh2();
    HexLiteralLow2();
    HexValueAppend("08dc9cd3", "5f178af0");
    Pow16Widths();
    assert "08dc9cd3" + "5f178af0" == "08dc9cd35f178af0";
  }

  lemma HexLiteralHigh1()
    ensures AllHex("08dc9823") && HexValue("08dc9823") == 0x08dc9823
  {
    assert HexFixed(0x08dc9823, 8) == "08dc9823";
    HexValueOfFixed(0x08dc9823, 8);
  }

  lemma HexLiteralLow1()
    ensures AllHex("55adb2b7") && HexValue("55adb2b7") == 0x55adb2b7
  {
    assert HexFixed(0x55adb2b7, 8) == "55adb2b7";
    HexValueOfFixed(0x55adb2b7, 8);
  }

  lemma HexLiteralHigh2()
    ensures AllHex("08dc9cd3") && HexValue("08dc9cd3") == 0x08dc9cd3
  {
    assert HexFixed(0x08dc9cd3, 8) == "08dc9cd3";
    HexValueOfFixed(0x08dc9cd3, 8);
  }

  lemma HexLiteralLow2()
    ensures AllHex("5f178af0") && HexValue("5f178af0") == 0x5f178af0
  {
    assert HexFixed(0x5f178af0, 8) == "5f178af0";
    HexValueOfFixed(0x5f178af0, 8);
  }

  /** The process ids of the two instance-id test file names. */
  lemma HexLiteralProcess1()
    ensures AllHex("00002020") && HexValue("00002020") == 8224
  {
    assert HexFixed(8224, 8) == "00002020";
    HexValueOfFixed(8224, 8);
  }

  lemma HexLiteralProcess2()
    ensures AllHex("00005ff0") && HexValue("00005ff0") == 24560
  {
    assert HexFixed(24560, 8) == "00005ff0";
    HexValueOfFixed(24560, 8);
  }
}
