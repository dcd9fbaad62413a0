/** JSON string literals as the serialization library writes them: a quote,
    backslash, backspace, form feed, newline, carriage return or tab takes
    its two-character escape, any other control character below U+0020 is
    written `\u` with four lower-case hex digits, and everything else is
    copied. `Unescape` reads string contents back as section 7 of RFC 8259
    describes them. */
module JsonStrings {
  import opened Wrappers
  import opened Hex

  /** A character the encoder copies unchanged. */
  predicate PlainChar(c: char) {
    c != '"' && c != '\\' && c as int >= 0x20
  }

  /** A string the encoder writes verbatim between quotes. */
  predicate PlainJsonString(s: string) {
    forall i :: 0 <= i < |s| ==> PlainChar(s[i])
  }

  /** The text written for one character. */
  function EscapeChar(c: char): (e: string)
    ensures PlainChar(c) <==> e == [c]
    ensures !PlainChar(c) ==> |e| >= 2 && e[0] == '\\'
  {
    if c == '"' then "\\\""
    else if c == '\\' then "\\\\"
    else if c == '\U{8}' then "\\b"
    else if c == '\U{C}' then "\\f"
    else if c == '\n' then "\\n"
    else if c == '\r' then "\\r"
    else if c == '\t' then "\\t"
    else if c as int < 0x20 then "\\u00" + [DigitChar(c as int / 16), DigitChar(c as int % 16)]
    else [c]
  }

  /** The pieces laid end to end. */
  function Concat(pieces: seq<string>): string {
    if |pieces| == 0 then [] else pieces[0] + Concat(pieces[1..])
  }

  /** The contents of the string literal for `s`: each character's text. */
  function Escape(s: string): (r: string)
    ensures |r| >= |s|
    ensures PlainJsonString(s) <==> r == s
  {
    EscapeFacts(s);
    Concat(seq(|s|, i requires 0 <= i < |s| => EscapeChar(s[i])))
  }

  /** Escaping a non-empty string: the first character's text, then the rest. */
  lemma EscapeCons(s: string)
    requires |s| > 0
    ensures Escape(s) == EscapeChar(s[0]) + Escape(s[1..])
  {
    var pieces := seq(|s|, i requires 0 <= i < |s| => EscapeChar(s[i]));
    assert pieces[1..] == seq(|s| - 1, i requires 0 <= i < |s| - 1 => EscapeChar(s[1..][i]));
  }

  /** Escaping never shortens, and changes exactly the strings that are not plain. */
  lemma {:induction false} EscapeFacts(s: string)
    ensures var r := Concat(seq(|s|, i requires 0 <= i < |s| => EscapeChar(s[i])));
      |r| >= |s| && (PlainJsonString(s) <==> r == s)
  {
    var pieces := seq(|s|, i requires 0 <= i < |s| => EscapeChar(s[i]));
    if |s| > 0 {
      var tail := seq(|s| - 1, i requires 0 <= i < |s| - 1 => EscapeChar(s[1..][i]));
      assert pieces[1..] == tail;
      EscapeFacts(s[1..]);
      assert PlainJsonString(s) <==> PlainChar(s[0]) && PlainJsonString(s[1..]) by {
        if PlainChar(s[0]) && PlainJsonString(s[1..]) {
          forall i | 0 <= i < |s| ensures PlainChar(s[i]) {
            if i > 0 {
              assert s[i] == s[1..][i - 1];
            }
          }
        }
      }
      if PlainJsonString(s) {
        assert s == [s[0]] + s[1..];
      }
    }
  }

  /** The whole literal, quotes included. */
  function Quote(s: string): (q: string)
    ensures |q| >= |s| + 2 && q[0] == '"' && q[|q| - 1] == '"'
    ensures PlainJsonString(s) ==> q == "\"" + s + "\""
  {
    "\"" + Escape(s) + "\""
  }

  function Prepend(c: char, rest: Option<string>): Option<string> {
    match rest
    case Some(r) => Some([c] + r)
    case None => None
  }

  /** The characters denoted by the contents of a string literal, or `None`
      when they are not valid JSON: an unescaped quote or control character,
      an unknown escape, or a `\u` escape of a lone surrogate (a surrogate
      pair written as two escapes is not decoded here). */
  function Unescape(t: string): (r: Option<string>)
    decreases |t|
  {
    if |t| == 0 then Some([])
    else if PlainChar(t[0]) then Prepend(t[0], Unescape(t[1..]))
    else if t[0] != '\\' || |t| < 2 then None
    else if t[1] == '"' then Prepend('"', Unescape(t[2..]))
    else if t[1] == '\\' then Prepend('\\', Unescape(t[2..]))
    else if t[1] == '/' then Prepend('/', Unescape(t[2..]))
    else if t[1] == 'b' then Prepend('\U{8}', Unescape(t[2..]))
    else if t[1] == 'f' then Prepend('\U{C}', Unescape(t[2..]))
    else if t[1] == 'n' then Prepend('\n', Unescape(t[2..]))
    else if t[1] == 'r' then Prepend('\r', Unescape(t[2..]))
    else if t[1] == 't' then Prepend('\t', Unescape(t[2..]))
    else if t[1] == 'u' && |t| >= 6 && AllHex(t[2..6]) then
      var v := HexValue(t[2..6]);
      HexValueBound(t[2..6]);
      assert Pow16(4) == 0x10000 by { assert Pow16(2) == 0x100; }
      if 0xD800 <= v < 0xE000 then None else Prepend(v as char, Unescape(t[6..]))
    else None
  }

  /** Decoding one escaped character, then the rest. */
  lemma UnescapeChar(c: char, rest: string)
    ensures Unescape(EscapeChar(c) + rest) == Prepend(c, Unescape(rest))
  {
    var t := EscapeChar(c) + rest;
    if PlainChar(c) {
      assert t[1..] == rest;
    } else if c as int < 0x20 && c !in {'\U{8}', '\U{C}', '\n', '\r', '\t'} {
      UnescapeControl(c, rest);
    } else {
      assert t[2..] == rest;
    }
  }

  /** Decoding a `\u00XX` escape of a control character, then the rest. */
  lemma UnescapeControl(c: char, rest: string)
    requires c as int < 0x20
    ensures Unescape("\\u00" + [DigitChar(c as int / 16), DigitChar(c as int % 16)] + rest) == Prepend(c, Unescape(rest))
  {
    var h := "00" + [DigitChar(c as int / 16), DigitChar(c as int % 16)];
    var t := "\\u00" + [DigitChar(c as int / 16), DigitChar(c as int % 16)] + rest;
    assert Pow16(4) == 0x10000 by { assert Pow16(2) == 0x100; }
    HexValueOfFixed(c as int, 4);
    assert HexFixed(c as int, 4) == h by {
      assert HexFixed(c as int / 256, 2) == "00";
    }
    assert t[2..6] == h && t[6..] == rest;
  }

  /** Decoding undoes encoding: every string survives the round trip. */
  lemma {:induction false} UnescapeEscape(s: string)
    ensures Unescape(Escape(s)) == Some(s)
  {
    if |s| > 0 {
      EscapeCons(s);
      UnescapeEscape(s[1..]);
      UnescapeChar(s[0], Escape(s[1..]));
      assert s == [s[0]] + s[1..];
    }
  }

  /** A quote inside a value is written with a backslash before it. */
  lemma EscapeQuote(s: string)
    requires s == "a\"b"
    ensures Escape(s) == "a\\\"b"
  {
    EscapeCons(s);
    EscapeCons(s[1..]);
    assert s[1..][1..] == "b";
    assert PlainJsonString("b");
  }

  /** A control character without a short escape is written as `\u00XX`. */
  lemma EscapeUnitSeparator(s: string)
    requires s == "\U{1F}"
    ensures Escape(s) == "\\u001f"
  {
    EscapeCons(s);
    assert s[0] as int / 16 == 1 && s[0] as int % 16 == 15;
    assert EscapeChar(s[0]) == "\\u00" + [DigitChar(1), DigitChar(15)];
    assert s[1..] == [];
  }
}
