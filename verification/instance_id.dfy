/** `InstanceID`: the identity of a running veadotube instance, written as
    the name of its instance file, `<edition>-<16 hex digits>-<8 hex digits>`
    (edition, launch time in .NET ticks, process id). */
module InstanceIds {
  import opened Wrappers
  import opened JvmNumbers
  import opened KotlinText
  import opened Hex

  /** An instance id. `kind` is the edition (`type` in the source: mini,
      live, editor, ...); `text` is what `toString` returns. */
  datatype InstanceID = InstanceID(kind: string, timestamp: Int64, process: Int32, text: string)

  /** The fields `equals` and `hashCode` look at; two ids are equal exactly
      when their keys are. */
  datatype IdKey = IdKey(kind: string, timestamp: Int64, process: Int32)

  /** Why construction failed; every case is an `IllegalArgumentException`. */
  datatype IdError =
    | Blank
    | NotThreeParts
    | TimestampLength
    | ProcessLength
    | KindBlank
    | TimestampNotHex
    | ProcessNotHex
    | KindNotLetters
    | TimestampNotPositive
    | ProcessNotPositive

  /** The exception message each failure carries. */
  function Message(e: IdError): string {
    match e
    case Blank => "Instance ID String must not be empty or blank"
    case NotThreeParts => "Instance ID String Invalid: Must be 3 parts, separated by dashes (-)"
    case TimestampLength => "Instance ID String Invalid: 2nd part must be 16 Characters long"
    case ProcessLength => "Instance ID String Invalid: 3nd part must be 8 Characters long"
    case KindBlank => "Instance ID String Invalid: 1nd part must not be blank"
    case TimestampNotHex => "Instance ID String Invalid: 2nd part is not valid Hex Value"
    case ProcessNotHex => "Instance ID String Invalid: 3rd part is not valid Hex Value"
    case KindNotLetters => "Instance ID String Invalid: 1st part contains non-letter characters"
    case TimestampNotPositive => "Timestamp must be greater than 0"
    case ProcessNotPositive => "Process must be greater than 0"
  }

  /** The shape of a well-formed split: three parts, the last two of the
      widths the formatter writes (counted in UTF-16 code units, as
      `String.length` counts), and a non-blank first part. */
  predicate GoodShape(parts: seq<string>) {
    |parts| == 3 && Length(parts[1]) == 16 && Length(parts[2]) == 8 && !IsBlank(parts[0])
  }

  /** `stringFormatCheck(parts)`: the first failing shape check, in source order. */
  function CheckParts(parts: seq<string>): (r: Option<IdError>)
    ensures r.None? <==> GoodShape(parts)
    ensures r.Some? ==> r.value in {NotThreeParts, TimestampLength, ProcessLength, KindBlank}
    ensures |parts| != 3 ==> r == Some(NotThreeParts)
  {
    if |parts| != 3 then Some(NotThreeParts)
    else if Length(parts[1]) != 16 then Some(TimestampLength)
    else if Length(parts[2]) != 8 then Some(ProcessLength)
    else if IsBlank(parts[0]) then Some(KindBlank)
    else None
  }

  /** The public `stringFormatCheck(String)`: trims, splits on `-` and checks
      the shape. A blank string fails as "not three parts". */
  function CheckFormat(s: string): (r: Option<IdError>)
    ensures r.None? <==> GoodShape(Split(Trim(s), '-'))
    ensures IsBlank(s) ==> r == Some(NotThreeParts)
  {
    assert IsBlank(s) ==> Split(Trim(s), '-') == [[]] by {
      if IsBlank(s) {
        SplitNone(Trim(s), '-');
      }
    }
    CheckParts(Split(Trim(s), '-'))
  }

  /** `all { it.isLetter() }`, which visits UTF-16 code units: a character
      outside the Basic Multilingual Plane is two surrogates, and a
      surrogate is no letter. */
  predicate AllLetters(s: string, chars: CharTables) {
    forall i :: 0 <= i < |s| ==> s[i] as int < 0x10000 && chars.isLetter(s[i])
  }

  /** The parsing constructor `InstanceID(instanceIdString)`. `chars` holds
      `Char.isLetter` and `Character.digit`. Checks run in the source's
      order: blank input, shape, timestamp hex, process hex, letters. */
  function Parse(s: string, chars: CharTables): (r: Result<InstanceID, IdError>)
    ensures IsBlank(s) <==> r == Failure(Blank)
    ensures r.Success? ==> r.value.text == Trim(s)
    ensures r.Success? ==> |r.value.kind| > 0 && AllLetters(r.value.kind, chars)
    ensures r.Success? ==> '-' !in r.value.kind && !IsBlank(r.value.kind)
    ensures r.Success? ==> r.value.timestamp >= 0 && r.value.process >= 0
    ensures var parts := Split(Trim(s), '-');
      !IsBlank(s) && CheckParts(parts).Some? ==> r == Failure(CheckParts(parts).value)
    ensures var parts := Split(Trim(s), '-');
      !IsBlank(s) && GoodShape(parts) && ParseLongHex(parts[1], chars.digit).None? ==> r == Failure(TimestampNotHex)
    ensures var parts := Split(Trim(s), '-');
      (!IsBlank(s) && GoodShape(parts) && ParseLongHex(parts[1], chars.digit).Some? &&
       ParseIntHex(parts[2], chars.digit).None?) ==> r == Failure(ProcessNotHex)
    ensures var parts := Split(Trim(s), '-');
      (!IsBlank(s) && GoodShape(parts) && ParseLongHex(parts[1], chars.digit).Some? &&
       ParseIntHex(parts[2], chars.digit).Some? && !(|parts[0]| > 0 && AllLetters(parts[0], chars)))
      ==> r == Failure(KindNotLetters)
  {
    if IsBlank(s) then Failure(Blank)
    else ParseParts(Split(Trim(s), '-'), Trim(s), chars)
  }

  /** The checks after trimming, on the dash-split `parts` of `text`. */
  function ParseParts(parts: seq<string>, text: string, chars: CharTables): (r: Result<InstanceID, IdError>)
    requires forall i :: 0 <= i < |parts| ==> '-' !in parts[i]
    ensures r != Failure(Blank)
    ensures r.Success? <==>
      GoodShape(parts) && ParseLongHex(parts[1], chars.digit).Some? && ParseIntHex(parts[2], chars.digit).Some? &&
      |parts[0]| > 0 && AllLetters(parts[0], chars)
    ensures r.Success? ==>
      r.value == InstanceID(parts[0], ParseLongHex(parts[1], chars.digit).value, ParseIntHex(parts[2], chars.digit).value, text)
    ensures r.Success? ==> r.value.timestamp >= 0 && r.value.process >= 0
    ensures CheckParts(parts).Some? ==> r == Failure(CheckParts(parts).value)
    ensures GoodShape(parts) && ParseLongHex(parts[1], chars.digit).None? ==> r == Failure(TimestampNotHex)
    ensures (GoodShape(parts) && ParseLongHex(parts[1], chars.digit).Some? &&
             ParseIntHex(parts[2], chars.digit).None?) ==> r == Failure(ProcessNotHex)
    ensures (GoodShape(parts) && ParseLongHex(parts[1], chars.digit).Some? &&
             ParseIntHex(parts[2], chars.digit).Some? && !(|parts[0]| > 0 && AllLetters(parts[0], chars)))
      ==> r == Failure(KindNotLetters)
  {
    match CheckParts(parts)
    case Some(e) =>
      assert e != Blank;
      Failure(e)
    case None =>
      match ParseLongHex(parts[1], chars.digit)
      case None => Failure(TimestampNotHex)
      case Some(ts) =>
        match ParseIntHex(parts[2], chars.digit)
        case None => Failure(ProcessNotHex)
        case Some(pr) =>
          if |parts[0]| > 0 && AllLetters(parts[0], chars) then
            NoSignNoNegative(parts[1], LONG_MIN, LONG_MAX, chars.digit);
            NoSignNoNegative(parts[2], INT_MIN, INT_MAX, chars.digit);
            Success(InstanceID(parts[0], ts, pr, text))
          else Failure(KindNotLetters)
  }

  /** A part taken from a split on `-` has no minus sign, so it never
      parses to a negative value. */
  lemma NoSignNoNegative(p: string, min: int, max: int, digit: char -> int)
    requires '-' !in p
    ensures ParseSignedHex(p, min, max, digit).Some? ==> ParseSignedHex(p, min, max, digit).value >= 0
  {
    if |p| > 0 {
      assert p[0] in p;
    }
  }

  /** `FORMAT_STRING.format(type, timestamp, process)`, i.e. `"%s-%016x-%08x"`. */
  function Format(kind: string, timestamp: Int64, process: Int32): (r: string)
    ensures |r| == |kind| + 26
    ensures r[..|kind|] == kind && r[|kind|] == '-' && r[|kind| + 17] == '-'
  {
    kind + "-" + FormatLongHex(timestamp) + "-" + FormatIntHex(process)
  }

  /** `generateStringFromID`: the id's fields formatted again. */
  function GenerateStringFromID(id: InstanceID): string {
    Format(id.kind, id.timestamp, id.process)
  }

  /** `toString`. */
  function ToString(id: InstanceID): string {
    id.text
  }

  /** The field constructor `InstanceID(type, timestamp, process)`. */
  function FromFields(kind: string, timestamp: Int64, process: Int32): (r: Result<InstanceID, IdError>)
    ensures r.Success? <==> timestamp > 0 && process > 0 && !IsBlank(kind)
    ensures timestamp <= 0 ==> r == Failure(TimestampNotPositive)
    ensures timestamp > 0 && process <= 0 ==> r == Failure(ProcessNotPositive)
    ensures timestamp > 0 && process > 0 && IsBlank(kind) ==> r == Failure(Blank)
    ensures r.Success? ==>
      && r.value.kind == kind && r.value.timestamp == timestamp && r.value.process == process
      && ToString(r.value) == GenerateStringFromID(r.value)
  {
    if timestamp <= 0 then Failure(TimestampNotPositive)
    else if process <= 0 then Failure(ProcessNotPositive)
    else if IsBlank(kind) then Failure(Blank)
    else Success(InstanceID(kind, timestamp, process, Format(kind, timestamp, process)))
  }

  function KeyOf(id: InstanceID): IdKey {
    IdKey(id.kind, id.timestamp, id.process)
  }

  /** `equals`: the same edition, timestamp and process; the text is ignored. */
  predicate SameId(a: InstanceID, b: InstanceID) {
    a.timestamp == b.timestamp && a.process == b.process && a.kind == b.kind
  }

  lemma SameIdIsSameKey(a: InstanceID, b: InstanceID)
    ensures SameId(a, b) <==> KeyOf(a) == KeyOf(b)
  {
  }

  /** `Long.hashCode`: the low and high 32-bit halves exclusive-or'ed. */
  function LongHash(v: Int64): Int32 {
    var u := Unsigned64(v);
    var x := (u % 0x1_0000_0000) as bv32 ^ (u / 0x1_0000_0000) as bv32;
    Wrap32(x as int)
  }

  /** `hashCode`, in 32-bit arithmetic. */
  function HashCode(id: InstanceID): Int32 {
    HashStep(HashStep(StringHash(id.kind), LongHash(id.timestamp)), id.process)
  }

  /** Equal ids have equal hash codes. */
  lemma HashConsistentWithEquals(a: InstanceID, b: InstanceID)
    requires SameId(a, b)
    ensures HashCode(a) == HashCode(b)
  {
  }

  /** `compareTo`: by timestamp, then by the text `toString` returns. */
  function CompareTo(a: InstanceID, b: InstanceID): (r: int)
    ensures a.timestamp < b.timestamp ==> r == -1
    ensures a.timestamp > b.timestamp ==> r == 1
    ensures r == 0 <==> a.timestamp == b.timestamp && a.text == b.text
  {
    var c := CompareNumbers(a.timestamp, b.timestamp);
    if c != 0 then c else CompareStrings(ToString(a), ToString(b))
  }

  /** The ordering is antisymmetric. */
  lemma CompareToAntisymmetric(a: InstanceID, b: InstanceID)
    ensures CompareTo(b, a) == -CompareTo(a, b)
  {
    CompareStringsAntisymmetric(a.text, b.text);
  }

  /** `compareTo` is not consistent with `equals`: equal ids whose texts
      differ (for instance in the case of their hex digits) compare non-zero. */
  lemma CompareToInconsistentWithEquals(a: InstanceID, b: InstanceID)
    requires SameId(a, b)
    ensures CompareTo(a, b) == 0 <==> a.text == b.text
  {
  }

  /** Formatting and parsing are inverse: the text the field constructor
      produces parses back to the same id, provided the edition is made of
      letters (and so holds neither `-` nor whitespace). */
  lemma ParseFormatRoundTrip(kind: string, timestamp: Int64, process: Int32, chars: CharTables)
    requires JdkDigits(chars.digit)
    requires FromFields(kind, timestamp, process).Success?
    requires |kind| > 0 && AllLetters(kind, chars)
    requires '-' !in kind && !IsWhitespace(kind[0])
    ensures Parse(ToString(FromFields(kind, timestamp, process).value), chars)
      == FromFields(kind, timestamp, process)
  {
    FormattedParse(kind, timestamp, process, chars);
  }

  /** Formatted text with non-negative fields parses back to those fields. */
  lemma FormattedParse(kind: string, timestamp: Int64, process: Int32, chars: CharTables)
    requires JdkDigits(chars.digit)
    requires timestamp >= 0 && process >= 0
    requires |kind| > 0 && AllLetters(kind, chars)
    requires '-' !in kind && !IsWhitespace(kind[0])
    ensures Parse(Format(kind, timestamp, process), chars)
      == Success(InstanceID(kind, timestamp, process, Format(kind, timestamp, process)))
  {
    FormatSplits(kind, timestamp, process);
    LongHexRoundTrip(timestamp, chars.digit);
    IntHexRoundTrip(process, chars.digit);
    HexBmp(FormatLongHex(timestamp));
    HexBmp(FormatIntHex(process));
    ParseWellShaped(Format(kind, timestamp, process), chars, kind, FormatLongHex(timestamp), FormatIntHex(process));
  }

  /** The formatted text is already trimmed and splits into the edition and
      the two hex fields. */
  lemma FormatSplits(kind: string, timestamp: Int64, process: Int32)
    requires |kind| > 0 && '-' !in kind && !IsWhitespace(kind[0])
    ensures !IsBlank(Format(kind, timestamp, process))
    ensures Trim(Format(kind, timestamp, process)) == Format(kind, timestamp, process)
    ensures Split(Format(kind, timestamp, process), '-')
      == [kind, FormatLongHex(timestamp), FormatIntHex(process)]
  {
    var t1, t2 := FormatLongHex(timestamp), FormatIntHex(process);
    NoDashInHex(t1);
    NoDashInHex(t2);
    ThreePartSplit(kind, t1, t2);
  }

  /** Text made of three dash-free parts, starting and ending with
      non-whitespace, is its own trim and splits back into the parts. */
  lemma ThreePartSplit(k: string, a: string, b: string)
    requires |k| > 0 && |b| > 0 && !IsWhitespace(k[0]) && !IsWhitespace(b[|b| - 1])
    requires '-' !in k && '-' !in a && '-' !in b
    ensures !IsBlank(k + "-" + a + "-" + b)
    ensures Trim(k + "-" + a + "-" + b) == k + "-" + a + "-" + b
    ensures Split(k + "-" + a + "-" + b, '-') == [k, a, b]
  {
    ThreePartTrim(k, a, b);
    ThreePartPieces(k, a, b);
  }

  lemma ThreePartTrim(k: string, a: string, b: string)
    requires |k| > 0 && |b| > 0 && !IsWhitespace(k[0]) && !IsWhitespace(b[|b| - 1])
    ensures !IsBlank(k + "-" + a + "-" + b)
    ensures Trim(k + "-" + a + "-" + b) == k + "-" + a + "-" + b
  {
    var s := k + "-" + a + "-" + b;
    assert s[0] == k[0];
    assert s[|s| - 1] == b[|b| - 1];
    TrimNoSpace(s);
  }

  lemma ThreePartPieces(k: string, a: string, b: string)
    requires '-' !in k && '-' !in a && '-' !in b
    ensures Split(k + "-" + a + "-" + b, '-') == [k, a, b]
  {
    var rest := a + ['-'] + b;
    assert k + ['-'] + rest == k + "-" + a + "-" + b;
    SplitCons(k, '-', rest);
    SplitCons(a, '-', b);
    SplitNone(b, '-');
  }

  /** The accepting path of `Parse`, for text already known to be trimmed
      and split into three good parts. */
  lemma ParseWellShaped(s: string, chars: CharTables, k: string, a: string, b: string)
    requires !IsBlank(s) && Trim(s) == s && Split(s, '-') == [k, a, b]
    requires GoodShape([k, a, b]) && |k| > 0 && AllLetters(k, chars)
    requires ParseLongHex(a, chars.digit).Some? && ParseIntHex(b, chars.digit).Some?
    ensures Parse(s, chars) == Success(InstanceID(k, ParseLongHex(a, chars.digit).value, ParseIntHex(b, chars.digit).value, s))
  {
    assert Parse(s, chars) == ParseParts([k, a, b], s, chars);
  }

  lemma NoDashInHex(t: string)
    requires AllLowerHex(t)
    ensures '-' !in t
  {
    forall i | 0 <= i < |t|
      ensures t[i] != '-'
    {
      assert IsLowerHexDigit(t[i]);
    }
  }

  /** The parsing constructor does not re-check positivity: the text of
      an id with zero timestamp and process is accepted, while the field
      constructor rejects the same fields. */
  lemma ZeroFieldsOnlyParse(kind: string, chars: CharTables)
    requires JdkDigits(chars.digit)
    requires |kind| > 0 && AllLetters(kind, chars)
    requires '-' !in kind && !IsWhitespace(kind[0])
    ensures Parse(Format(kind, 0, 0), chars) == Success(InstanceID(kind, 0, 0, Format(kind, 0, 0)))
    ensures FromFields(kind, 0, 0) == Failure(TimestampNotPositive)
  {
    FormattedParse(kind, 0, 0, chars);
  }

  /** The pieces a successful parse was built from. */
  lemma ParsedParts(s: string, chars: CharTables)
    requires Parse(s, chars).Success?
    ensures var id, parts := Parse(s, chars).value, Split(Trim(s), '-');
      && parts == [id.kind, parts[1], parts[2]] && GoodShape(parts)
      && ParseLongHex(parts[1], chars.digit) == Some(id.timestamp)
      && ParseIntHex(parts[2], chars.digit) == Some(id.process)
  {
    var text := Trim(s);
    var parts := Split(text, '-');
    assert Parse(s, chars) == ParseParts(parts, text, chars);
    SuccessfulParts(parts, text, chars);
  }

  lemma SuccessfulParts(parts: seq<string>, text: string, chars: CharTables)
    requires forall i :: 0 <= i < |parts| ==> '-' !in parts[i]
    requires ParseParts(parts, text, chars).Success?
    ensures var id := ParseParts(parts, text, chars).value;
      && parts == [id.kind, parts[1], parts[2]] && GoodShape(parts)
      && ParseLongHex(parts[1], chars.digit) == Some(id.timestamp)
      && ParseIntHex(parts[2], chars.digit) == Some(id.process)
  {
    assert |parts| == 3;
    assert parts == [parts[0], parts[1], parts[2]];
  }

  /** `generateStringFromID` reproduces `toString` exactly when both hex
      fields of the parsed text were written in lower case (with no sign);
      otherwise the two strings differ although the ids are equal. */
  lemma GenerateReproducesText(s: string, chars: CharTables)
    requires JdkDigits(chars.digit) && Parse(s, chars).Success?
    ensures var id, parts := Parse(s, chars).value, Split(Trim(s), '-');
      GenerateStringFromID(id) == ToString(id) <==> AllLowerHex(parts[1]) && AllLowerHex(parts[2])
  {
    var id, parts := Parse(s, chars).value, Split(Trim(s), '-');
    ParsedParts(s, chars);
    var text := Trim(s);
    if AllLowerHex(parts[1]) && AllLowerHex(parts[2]) {
      FormatLongOfLower(parts[1], id.timestamp, chars.digit);
      FormatIntOfLower(parts[2], id.process, chars.digit);
      JoinSplit(text, '-');
      JoinThree(parts, '-');
    }
    if GenerateStringFromID(id) == ToString(id) {
      assert text[0] == id.kind[0];
      FormatSplits(id.kind, id.timestamp, id.process);
    }
  }

  lemma JoinThree(parts: seq<string>, d: char)
    requires |parts| == 3
    ensures Join(parts, d) == parts[0] + [d] + parts[1] + [d] + parts[2]
  {
    var tail := parts[1..];
    assert tail == [parts[1], parts[2]] && tail[1..] == [parts[2]];
    assert Join(tail[1..], d) == parts[2];
    assert Join(tail, d) == parts[1] + [d] + parts[2];
    assert Join(parts, d) == parts[0] + [d] + (parts[1] + [d] + parts[2]);
  }

  /** A 16-digit lower-case field is what `%016x` writes for its value. */
  lemma FormatLongOfLower(p: string, ts: Int64, digit: char -> int)
    requires JdkDigits(digit) && Length(p) == 16 && AllLowerHex(p) && ParseLongHex(p, digit) == Some(ts)
    ensures FormatLongHex(ts) == p
  {
    LowerDigitsParse(p, LONG_MIN, LONG_MAX, digit);
    HexBmp(p);
    Pow16Widths();
    HexFixedOfValue(p);
  }

  /** An 8-digit lower-case field is what `%08x` writes for its value. */
  lemma FormatIntOfLower(p: string, pr: Int32, digit: char -> int)
    requires JdkDigits(digit) && Length(p) == 8 && AllLowerHex(p) && ParseIntHex(p, digit) == Some(pr)
    ensures FormatIntHex(pr) == p
  {
    LowerDigitsParse(p, INT_MIN, INT_MAX, digit);
    HexBmp(p);
    Pow16Widths();
    HexFixedOfValue(p);
  }

  /** A lower-case digit string parses to its plain value. */
  lemma LowerDigitsParse(p: string, min: int, max: int, digit: char -> int)
    requires JdkDigits(digit) && |p| > 0 && AllLowerHex(p)
    ensures AllHex(p)
    ensures ParseSignedHex(p, min, max, digit) == if min <= HexValue(p) <= max then Some(HexValue(p)) else None
  {
    assert AllHex(p) by {
      forall i | 0 <= i < |p|
        ensures IsHexDigit(p[i])
      {
        assert IsLowerHexDigit(p[i]);
      }
    }
    ParsePlainDigits(p, min, max, digit);
  }

  /** The accepting path of `Parse` on the text of three parts. */
  lemma ParseThreeParts(s: string, k: string, a: string, b: string, chars: CharTables)
    requires s == k + "-" + a + "-" + b
    requires JdkDigits(chars.digit)
    requires |k| > 0 && AllLetters(k, chars) && '-' !in k && !IsWhitespace(k[0])
    requires |a| == 16 && |b| == 8 && AllLowerHex(a) && AllLowerHex(b)
    requires HexValue(a) <= LONG_MAX && HexValue(b) <= INT_MAX
    ensures Parse(s, chars) == Success(InstanceID(k, HexValue(a), HexValue(b), s))
  {
    LowerHexFields(a, b, chars.digit);
    assert !IsBlank(k) by { assert !IsWhitespace(k[0]); }
    ThreePartSplit(k, a, b);
    ParseWellShaped(s, chars, k, a, b);
  }

  /** Lower-case hex fields of the right widths hold no dash, end in a
      digit, and parse to their values when those fit. */
  lemma LowerHexFields(a: string, b: string, digit: char -> int)
    requires JdkDigits(digit) && |a| == 16 && |b| == 8 && AllLowerHex(a) && AllLowerHex(b)
    requires HexValue(a) <= LONG_MAX && HexValue(b) <= INT_MAX
    ensures '-' !in a && '-' !in b && !IsWhitespace(b[7])
    ensures Length(a) == 16 && Length(b) == 8
    ensures ParseLongHex(a, digit) == Some(HexValue(a)) && ParseIntHex(b, digit) == Some(HexValue(b))
  {
    NoDashInHex(a);
    NoDashInHex(b);
    assert IsLowerHexDigit(b[7]);
    LowerDigitsParse(a, LONG_MIN, LONG_MAX, digit);
    LowerDigitsParse(b, INT_MIN, INT_MAX, digit);
    HexBmp(a);
    HexBmp(b);
  }

  /** The first valid file name of the instance-id tests, `s`. */
  lemma TestVector1(s: string, chars: CharTables)
    requires s == "mini-08dc982355adb2b7-00002020"
    requires JdkDigits(chars.digit)
    requires chars.isLetter('m') && chars.isLetter('i') && chars.isLetter('n')
    ensures Parse(s, chars) == Success(InstanceID("mini", 638552524708491959, 8224, s))
  {
    MiniLetters(chars);
    HexLiteral1();
    HexLiteralProcess1();
    VectorPieces1(s);
    ParseThreeParts(s, "mini", "08dc982355adb2b7", "00002020", chars);
  }

  lemma MiniShape()
    ensures '-' !in "mini" && !IsWhitespace("mini"[0])
  {
  }

  /** The pieces of the test vector `s`. */
  lemma VectorPieces1(s: string)
    requires s == "mini-08dc982355adb2b7-00002020"
    ensures s == "mini" + "-" + "08dc982355adb2b7" + "-" + "00002020"
    ensures AllLowerHex("08dc982355adb2b7") && AllLowerHex("00002020")
    ensures '-' !in "mini" && !IsWhitespace("mini"[0])
  {
    VectorSplit1(s);
    LowerDigits1();
    MiniShape();
  }

  lemma VectorSplit1(s: string)
    requires s == "mini-08dc982355adb2b7-00002020"
    ensures s == "mini" + "-" + "08dc982355adb2b7" + "-" + "00002020"
  {
  }

  lemma LowerDigits1()
    ensures AllLowerHex("08dc982355adb2b7") && AllLowerHex("00002020")
  {
  }

  /** The second valid file name of the instance-id tests, `s`. */
  lemma TestVector2(s: string, chars: CharTables)
    requires s == "mini-08dc9cd35f178af0-00005ff0"
    requires JdkDigits(chars.digit)
    requires chars.isLetter('m') && chars.isLetter('i') && chars.isLetter('n')
    ensures Parse(s, chars) == Success(InstanceID("mini", 638557678827178736, 24560, s))
  {
    MiniLetters(chars);
    HexLiteral2();
    HexLiteralProcess2();
    VectorPieces2(s);
    ParseThreeParts(s, "mini", "08dc9cd35f178af0", "00005ff0", chars);
  }

  /** The pieces of the test vector `s`. */
  lemma VectorPieces2(s: string)
    requires s == "mini-08dc9cd35f178af0-00005ff0"
    ensures s == "mini" + "-" + "08dc9cd35f178af0" + "-" + "00005ff0"
    ensures AllLowerHex("08dc9cd35f178af0") && AllLowerHex("00005ff0")
    ensures '-' !in "mini" && !IsWhitespace("mini"[0])
  {
    VectorSplit2(s);
    LowerDigits2();
    MiniShape();
  }

  lemma VectorSplit2(s: string)
    requires s == "mini-08dc9cd35f178af0-00005ff0"
    ensures s == "mini" + "-" + "08dc9cd35f178af0" + "-" + "00005ff0"
  {
  }

  lemma LowerDigits2()
    ensures AllLowerHex("08dc9cd35f178af0") && AllLowerHex("00005ff0")
  {
  }

  lemma MiniLetters(chars: CharTables)
    requires chars.isLetter('m') && chars.isLetter('i') && chars.isLetter('n')
    ensures AllLetters("mini", chars)
  {
  }

  /** `Character.digit` reads fullwidth digits too: the first test name
      with its leading `08` written as U+FF10 U+FF18 parses to the same id
      (with its own text). */
  lemma FullwidthTimestamp(s: string, chars: CharTables)
    requires JdkDigits(chars.digit)
    requires chars.isLetter('m') && chars.isLetter('i') && chars.isLetter('n')
    requires s == "mini-\U{FF10}\U{FF18}dc982355adb2b7-00002020"
    ensures Parse(s, chars) == Success(InstanceID("mini", 638552524708491959, 8224, s))
  {
    var a, b := "\U{FF10}\U{FF18}dc982355adb2b7", "00002020";
    FullwidthPieces(s, a, b);
    FieldLengths(a, b);
    FullwidthDigits(a, "08dc982355adb2b7", chars.digit);
    ProcessField1(b, chars.digit);
    MiniShape();
    MiniLetters(chars);
    ThreePartSplit("mini", a, b);
    ParseWellShaped(s, chars, "mini", a, b);
  }

  /** The pieces of the fullwidth test name `s`. */
  lemma FullwidthPieces(s: string, a: string, b: string)
    requires s == "mini-\U{FF10}\U{FF18}dc982355adb2b7-00002020"
    requires a == "\U{FF10}\U{FF18}dc982355adb2b7" && b == "00002020"
    ensures s == "mini" + "-" + a + "-" + b
    ensures '-' !in a && '-' !in b && !IsWhitespace(b[|b| - 1])
    ensures Bmp(a) && Bmp(b)
  {
  }

  /** The process field of the first test name. */
  lemma ProcessField1(b: string, digit: char -> int)
    requires JdkDigits(digit) && b == "00002020"
    ensures ParseIntHex(b, digit) == Some(8224)
  {
    HexLiteralProcess1();
    ParsePlainDigits(b, INT_MIN, INT_MAX, digit);
  }

  /** The fullwidth timestamp reads as its ASCII twin. */
  lemma FullwidthDigits(a: string, ascii: string, digit: char -> int)
    requires JdkDigits(digit)
    requires a == "\U{FF10}\U{FF18}dc982355adb2b7" && ascii == "08dc982355adb2b7"
    ensures ParseLongHex(a, digit) == Some(638552524708491959)
  {
    HexLiteral1();
    AsciiDigitsValue(ascii, digit);
    assert UnitDigit(digit, a[0]) == 0 == UnitDigit(digit, ascii[0]);
    assert UnitDigit(digit, a[1]) == 8 == UnitDigit(digit, ascii[1]);
    assert a[2..] == ascii[2..];
    SameDigitsValue(ascii, a, digit);
    assert a[0] != '-' && a[0] != '+';
  }

  /** The two test ids order by timestamp, both ways round, and are not equal. */
  lemma TestVectorOrder(s1: string, s2: string, chars: CharTables)
    requires s1 == "mini-08dc982355adb2b7-00002020" && s2 == "mini-08dc9cd35f178af0-00005ff0"
    requires JdkDigits(chars.digit)
    requires chars.isLetter('m') && chars.isLetter('i') && chars.isLetter('n')
    ensures var a, b := Parse(s1, chars), Parse(s2, chars);
      && a.Success? && b.Success? && !SameId(a.value, b.value)
      && CompareTo(a.value, b.value) == -1 && CompareTo(b.value, a.value) == 1
      && CompareTo(a.value, a.value) == 0
  {
    TestVector1(s1, chars);
    TestVector2(s2, chars);
  }

  /** A blank name is rejected with the blank-input message. */
  lemma TestRejectBlank(s: string, chars: CharTables)
    requires s == ""
    ensures Parse(s, chars) == Failure(Blank)
    ensures Message(Parse(s, chars).error) == "Instance ID String must not be empty or blank"
  {
  }

  /** A name whose timestamp ends in `x` is rejected as not hexadecimal. */
  lemma TestRejectBadHex(s: string, chars: CharTables)
    requires JdkDigits(chars.digit)
    requires s == "mini-08dc9cd35f178afx-00005ff0"
    ensures Parse(s, chars) == Failure(TimestampNotHex)
  {
    MiniShape();
    BadHexPieces(s);
    FieldLengths("08dc9cd35f178afx", "00005ff0");
    NoDigitX(chars.digit);
    ParseBadTimestamp(s, "mini", "08dc9cd35f178afx", "00005ff0", 15, chars);
  }

  lemma NoDigitX(digit: char -> int)
    requires JdkDigits(digit)
    ensures UnitDigit(digit, 'x') == -1
  {
    assert digit('x') == AsciiDigit('x');
  }

  /** The pieces of the bad-hex test vector `s`. */
  lemma BadHexPieces(s: string)
    requires s == "mini-08dc9cd35f178afx-00005ff0"
    ensures s == "mini" + "-" + "08dc9cd35f178afx" + "-" + "00005ff0"
    ensures '-' !in "08dc9cd35f178afx" && '-' !in "00005ff0" && !IsWhitespace("00005ff0"[7])
    ensures "08dc9cd35f178afx"[0] != '+' && "08dc9cd35f178afx"[15] == 'x'
  {
  }

  lemma FieldLengths(a: string, b: string)
    requires Bmp(a) && Bmp(b)
    ensures Length(a) == |a| && Length(b) == |b|
  {
  }

  /** The timestamp check fires on well-shaped text whose middle part holds
      a character that is no digit under the table (and that does not start
      with `+`, which would be read as a sign). */
  lemma ParseBadTimestamp(s: string, k: string, a: string, b: string, i: nat, chars: CharTables)
    requires s == k + "-" + a + "-" + b
    requires |k| > 0 && '-' !in k && !IsWhitespace(k[0]) && '-' !in a && '-' !in b
    requires Length(a) == 16 && Length(b) == 8 && |b| > 0 && !IsWhitespace(b[|b| - 1])
    requires i < |a| && a[0] != '+' && UnitDigit(chars.digit, a[i]) < 0
    ensures Parse(s, chars) == Failure(TimestampNotHex)
  {
    ThreePartSplit(k, a, b);
    assert !IsBlank(k) by { assert !IsWhitespace(k[0]); }
    assert a[0] != '-' by { assert a[0] in a; }
    assert !AllDigits(a, chars.digit);
    assert ParseLongHex(a, chars.digit) == None;
  }
}
