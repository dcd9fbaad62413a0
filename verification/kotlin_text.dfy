/** The Kotlin/JVM string and array primitives the core relies on:
    `Char.isWhitespace`, `isBlank`, `trim`, `split`, `indexOf`, `distinct`,
    `String.length`, `String.hashCode` and `String.compareTo`. Strings are
    `seq<char>`; where the JVM counts, hashes or compares UTF-16 code units,
    so does the model (`Utf16`). Whitespace, letters, digits and the
    delimiters split on all lie in the Basic Multilingual Plane, so the
    character-wise `Trim`, `Split` and `IsBlank` agree with the unit-wise ones. */
module KotlinText {
  import opened JvmNumbers

  /** `Char.isWhitespace` on the JVM: `Character.isWhitespace` or
      `Character.isSpaceChar`. */
  predicate IsWhitespace(c: char) {
    || '\U{9}' <= c <= '\U{D}'
    || '\U{1C}' <= c <= '\U{20}'
    || c == '\U{A0}' || c == '\U{1680}'
    || '\U{2000}' <= c <= '\U{200A}'
    || c == '\U{2028}' || c == '\U{2029}' || c == '\U{202F}' || c == '\U{205F}'
    || c == '\U{3000}'
  }

  /** The JDK's character tables the core consults, which follow the JDK's
      Unicode version and so are parameters: `Char.isLetter`, and
      `Character.digit(c, 16)`, a digit's value or -1. */
  datatype CharTables = CharTables(isLetter: char -> bool, digit: char -> int)

  /** `CharSequence.isBlank`: empty or whitespace only. */
  predicate IsBlank(s: string) {
    forall i :: 0 <= i < |s| ==> IsWhitespace(s[i])
  }

  /** Number of leading whitespace characters. */
  function LeadingSpace(s: string): (n: nat)
    ensures n <= |s|
    ensures forall i :: 0 <= i < n ==> IsWhitespace(s[i])
    ensures n < |s| ==> !IsWhitespace(s[n])
  {
    if |s| > 0 && IsWhitespace(s[0]) then 1 + LeadingSpace(s[1..]) else 0
  }

  /** Number of trailing whitespace characters. */
  function TrailingSpace(s: string): (n: nat)
    ensures n <= |s|
    ensures forall i :: |s| - n <= i < |s| ==> IsWhitespace(s[i])
    ensures n < |s| ==> !IsWhitespace(s[|s| - n - 1])
  {
    if |s| > 0 && IsWhitespace(s[|s| - 1]) then 1 + TrailingSpace(s[..|s| - 1]) else 0
  }

  /** `String.trim()`: the input without leading and trailing whitespace. */
  function Trim(s: string): (r: string)
    ensures |r| <= |s|
    ensures LeadingSpace(s) + |r| <= |s| && r == s[LeadingSpace(s)..LeadingSpace(s) + |r|]
    ensures IsBlank(s) <==> r == []
    ensures |r| > 0 ==> !IsWhitespace(r[0]) && !IsWhitespace(r[|r| - 1])
  {
    var a := LeadingSpace(s);
    var rest := s[a..];
    var r := rest[..|rest| - TrailingSpace(rest)];
    assert !IsBlank(s) ==> a < |s|;
    r
  }

  /** Trimming a string that neither starts nor ends with whitespace leaves it unchanged. */
  lemma TrimNoSpace(s: string)
    requires |s| > 0 ==> !IsWhitespace(s[0]) && !IsWhitespace(s[|s| - 1])
    ensures Trim(s) == s
  {
  }

  /** `Iterable.indexOf`: position of the first occurrence, or -1. */
  function IndexOf<T(==)>(s: seq<T>, x: T): (r: int)
    ensures -1 <= r < |s|
    ensures r >= 0 ==> s[r] == x && x !in s[..r]
    ensures r == -1 <==> x !in s
  {
    if |s| == 0 then -1
    else if s[0] == x then 0
    else
      var k := IndexOf(s[1..], x);
      assert s[1..][..(if k < 0 then 0 else k)] == s[1..1 + (if k < 0 then 0 else k)];
      if k < 0 then -1 else k + 1
  }

  /** The index of `x` in `a + b` when `x` does not occur in `a`. */
  lemma {:induction false} IndexOfAppend<T>(a: seq<T>, b: seq<T>, x: T)
    requires x !in a
    ensures IndexOf(a + b, x) == if x in b then |a| + IndexOf(b, x) else -1
  {
    if |a| > 0 {
      assert (a + b)[0] == a[0] != x;
      assert (a + b)[1..] == a[1..] + b;
      IndexOfAppend(a[1..], b, x);
    } else {
      assert a + b == b;
    }
  }

  /** `String.split(d)` for a one-character delimiter: the maximal
      delimiter-free pieces between occurrences of `d` (at least one piece). */
  function Split(s: string, d: char): (parts: seq<string>)
    ensures |parts| >= 1
    ensures forall i :: 0 <= i < |parts| ==> d !in parts[i]
    decreases |s|
  {
    var i := IndexOf(s, d);
    if i < 0 then [s] else [s[..i]] + Split(s[i + 1..], d)
  }

  /** Inverse of `Split`: the pieces joined with the delimiter. */
  function Join(parts: seq<string>, d: char): string
    requires |parts| >= 1
  {
    if |parts| == 1 then parts[0] else parts[0] + [d] + Join(parts[1..], d)
  }

  /** Splitting loses nothing: joining the pieces gives back the input. */
  lemma {:induction false} JoinSplit(s: string, d: char)
    ensures Join(Split(s, d), d) == s
    decreases |s|
  {
    var i := IndexOf(s, d);
    if i >= 0 {
      var head, rest := s[..i], s[i + 1..];
      assert s == head + [d] + rest;
      var tail := Split(rest, d);
      assert Split(s, d) == [head] + tail;
      JoinSplit(rest, d);
      JoinCons(head, tail, d);
    }
  }

  /** Joining a piece in front of at least one more. */
  lemma JoinCons(a: string, tail: seq<string>, d: char)
    requires |tail| >= 1
    ensures Join([a] + tail, d) == a + [d] + Join(tail, d)
  {
    assert ([a] + tail)[1..] == tail;
  }

  /** Splitting a delimiter-free head followed by the delimiter. */
  lemma SplitCons(a: string, d: char, rest: string)
    requires d !in a
    ensures Split(a + [d] + rest, d) == [a] + Split(rest, d)
  {
    var s := a + [d] + rest;
    IndexOfAppend(a, [d] + rest, d);
    assert IndexOf([d] + rest, d) == 0;
    assert s[..|a|] == a;
    assert s[|a| + 1..] == rest;
  }

  /** A delimiter-free string splits into itself. */
  lemma SplitNone(a: string, d: char)
    requires d !in a
    ensures Split(a, d) == [a]
  {
  }

  /** `Iterable.distinct()`: first occurrences only, in their original order. */
  function Distinct(s: seq<string>): (r: seq<string>)
    ensures forall x :: x in r <==> x in s
    ensures forall i, j :: 0 <= i < j < |r| ==> r[i] != r[j]
    ensures |r| <= |s|
  {
    DistinctFrom(s, [])
  }

  /** Keeps the elements of `s` that are neither in `seen` nor earlier in `s`. */
  function DistinctFrom(s: seq<string>, seen: seq<string>): (r: seq<string>)
    requires forall i, j :: 0 <= i < j < |seen| ==> seen[i] != seen[j]
    ensures forall x :: x in r <==> x in s && x !in seen
    ensures forall i, j :: 0 <= i < j < |r| ==> r[i] != r[j]
    ensures |r| <= |s|
    decreases |s|
  {
    if |s| == 0 then []
    else if s[0] in seen then DistinctFrom(s[1..], seen)
    else
      var rest := DistinctFrom(s[1..], seen + [s[0]]);
      assert s[0] !in rest;
      [s[0]] + rest
  }

  /** The elements of `r` appear in `s`, first occurrences in `r`'s order. */
  predicate OrderedBy(r: seq<string>, s: seq<string>) {
    forall i, j :: 0 <= i < j < |r| ==> IndexOf(s, r[i]) < IndexOf(s, r[j])
  }

  /** `distinct()` keeps first occurrences in their original order: an
      earlier element of the result occurs first earlier in the input. */
  lemma {:induction false} DistinctFromOrder(s: seq<string>, seen: seq<string>)
    requires forall i, j :: 0 <= i < j < |seen| ==> seen[i] != seen[j]
    ensures OrderedBy(DistinctFrom(s, seen), s)
    decreases |s|
  {
    if |s| > 0 {
      if s[0] in seen {
        DistinctFromOrder(s[1..], seen);
        OrderedTail(s, DistinctFrom(s[1..], seen));
      } else {
        var rest := DistinctFrom(s[1..], seen + [s[0]]);
        DistinctFromOrder(s[1..], seen + [s[0]]);
        OrderedTail(s, rest);
        OrderedCons(s, rest);
      }
    }
  }

  /** An order by first occurrence in the tail is one in the whole sequence
      when the head is not involved. */
  lemma OrderedTail(s: seq<string>, r: seq<string>)
    requires |s| > 0 && OrderedBy(r, s[1..])
    requires forall x :: x in r ==> x in s[1..] && x != s[0]
    ensures OrderedBy(r, s)
  {
    forall x | x in r ensures IndexOf(s, x) == 1 + IndexOf(s[1..], x) {
      IndexOfTail(s, x);
    }
  }

  /** The head of a sequence comes first by first occurrence. */
  lemma OrderedCons(s: seq<string>, r: seq<string>)
    requires |s| > 0 && OrderedBy(r, s)
    requires forall x :: x in r ==> x in s[1..] && x != s[0]
    ensures OrderedBy([s[0]] + r, s)
  {
    var q := [s[0]] + r;
    forall i, j | 0 <= i < j < |q| ensures IndexOf(s, q[i]) < IndexOf(s, q[j]) {
      assert q[j] == r[j - 1] && r[j - 1] in r;
      if i > 0 {
        assert q[i] == r[i - 1];
      }
    }
  }

  /** Past a differing head, the index is one more than in the tail. */
  lemma IndexOfTail<T>(s: seq<T>, x: T)
    requires |s| > 0 && x in s && x != s[0]
    ensures x in s[1..] && IndexOf(s, x) == 1 + IndexOf(s[1..], x)
  {
    assert s == [s[0]] + s[1..];
  }

  // ---------------------------------------------------------------------
  // UTF-16: a JVM `String` is a sequence of 16-bit code units

  /** The code units of one character: the character itself inside the
      Basic Multilingual Plane, else its surrogate pair (high, then low). */
  function Units(c: char): (u: seq<int>)
    ensures |u| == 1 <==> c as int < 0x10000
    ensures |u| == 1 || |u| == 2
    ensures 0xD800 <= u[0] < 0xDC00 <==> |u| == 2
    ensures forall i :: 0 <= i < |u| ==> 0 <= u[i] < 0x10000
  {
    if c as int < 0x10000 then [c as int]
    else
      var v := c as int - 0x10000;
      [0xD800 + v / 0x400, 0xDC00 + v % 0x400]
  }

  /** Different characters have different code units. */
  lemma UnitsInjective(a: char, b: char)
    requires Units(a) == Units(b)
    ensures a == b
  {
    if a as int >= 0x10000 {
      var va, vb := a as int - 0x10000, b as int - 0x10000;
      assert va == 0x400 * (va / 0x400) + va % 0x400;
      assert vb == 0x400 * (vb / 0x400) + vb % 0x400;
      assert va / 0x400 == vb / 0x400 && va % 0x400 == vb % 0x400;
    }
  }

  /** The code units of a string, in order. */
  function Utf16(s: string): (u: seq<int>)
    ensures |u| >= |s|
    ensures forall i :: 0 <= i < |u| ==> 0 <= u[i] < 0x10000
  {
    if |s| == 0 then [] else Units(s[0]) + Utf16(s[1..])
  }

  /** Every character lies in the Basic Multilingual Plane, so each is one code unit. */
  predicate Bmp(s: string) {
    forall i :: 0 <= i < |s| ==> s[i] as int < 0x10000
  }

  /** `String.length`: the number of code units, which is the number of
      characters exactly when all of them lie in the Basic Multilingual Plane. */
  function Length(s: string): (n: nat)
    ensures n >= |s|
    ensures n == |s| <==> Bmp(s)
  {
    LengthBmp(s);
    |Utf16(s)|
  }

  /** Only characters outside the Basic Multilingual Plane add code units. */
  lemma {:induction false} LengthBmp(s: string)
    ensures |Utf16(s)| == |s| <==> Bmp(s)
  {
    if |s| > 0 {
      LengthBmp(s[1..]);
      assert Bmp(s) <==> s[0] as int < 0x10000 && Bmp(s[1..]) by {
        if s[0] as int < 0x10000 && Bmp(s[1..]) {
          forall i | 0 <= i < |s| ensures s[i] as int < 0x10000 {
            if i > 0 {
              assert s[i] == s[1..][i - 1];
            }
          }
        }
      }
    }
  }

  /** The code units determine the string. */
  lemma {:induction false} Utf16Injective(s: string, t: string)
    requires Utf16(s) == Utf16(t)
    ensures s == t
  {
    if |s| > 0 && |t| > 0 {
      var us, ut := Units(s[0]), Units(t[0]);
      assert Utf16(s) == us + Utf16(s[1..]);
      assert Utf16(t) == ut + Utf16(t[1..]);
      assert us[0] == Utf16(s)[0] == ut[0];
      assert us == Utf16(s)[..|us|] && ut == Utf16(t)[..|ut|];
      UnitsInjective(s[0], t[0]);
      assert Utf16(s[1..]) == Utf16(s)[|us|..] && Utf16(t[1..]) == Utf16(t)[|ut|..];
      Utf16Injective(s[1..], t[1..]);
      assert s == [s[0]] + s[1..] && t == [t[0]] + t[1..];
    }
  }

  /** Two strings have the same code units exactly when they are equal. */
  lemma Utf16Equal(s: string, t: string)
    ensures Utf16(s) == Utf16(t) <==> s == t
  {
    if Utf16(s) == Utf16(t) {
      Utf16Injective(s, t);
    }
  }

  /** `h = 31 * h + unit` over code units, in 32-bit arithmetic. */
  function UnitsHash(u: seq<int>): Int32
  {
    if |u| == 0 then 0 else Wrap32(31 * UnitsHash(u[..|u| - 1]) + u[|u| - 1])
  }

  /** `String.hashCode`: the hash of the code units. */
  function StringHash(s: string): Int32
  {
    UnitsHash(Utf16(s))
  }

  /** `compareTo` on code units: the difference of the first differing units,
      else the difference of the lengths. */
  function CompareUnits(u: seq<int>, v: seq<int>): (r: int)
    ensures r == 0 <==> u == v
  {
    if |u| == 0 || |v| == 0 then |u| - |v|
    else if u[0] != v[0] then u[0] - v[0]
    else
      var r := CompareUnits(u[1..], v[1..]);
      assert r == 0 ==> u == [u[0]] + u[1..] == [v[0]] + v[1..] == v;
      r
  }

  /** `String.compareTo`, which compares code units: a character outside the
      Basic Multilingual Plane sorts by its high surrogate. */
  function CompareStrings(s: string, t: string): (r: int)
    ensures r == 0 <==> s == t
  {
    Utf16Equal(s, t);
    CompareUnits(Utf16(s), Utf16(t))
  }

  /** Comparing code units is antisymmetric. */
  lemma {:induction false} CompareUnitsAntisymmetric(u: seq<int>, v: seq<int>)
    ensures CompareUnits(v, u) == -CompareUnits(u, v)
  {
    if |u| > 0 && |v| > 0 && u[0] == v[0] {
      CompareUnitsAntisymmetric(u[1..], v[1..]);
    }
  }

  /** `compareTo` is antisymmetric: swapping the operands negates the result. */
  lemma CompareStringsAntisymmetric(s: string, t: string)
    ensures CompareStrings(t, s) == -CompareStrings(s, t)
  {
    CompareUnitsAntisymmetric(Utf16(s), Utf16(t));
  }

  /** The hash of two code units, which never overflows. */
  lemma PairHash(a: int, b: int)
    requires 0 <= a < 0x10000 && 0 <= b < 0x10000
    ensures UnitsHash([a, b]) == 31 * a + b
  {
    assert [a, b][..1] == [a] && [a][..0] == [];
    assert UnitsHash([a]) == a;
  }

  /** Two different strings with the same `hashCode`. */
  lemma HashCollision()
    ensures "Aa" != "BB" && StringHash("Aa") == StringHash("BB")
  {
    assert Utf16("Aa") == [65, 97] by {
      assert Utf16("Aa") == Units('A') + Utf16("a") && Utf16("a") == Units('a') + Utf16("");
    }
    assert Utf16("BB") == [66, 66] by {
      assert Utf16("BB") == Units('B') + Utf16("B") && Utf16("B") == Units('B') + Utf16("");
    }
    PairHash(65, 97);
    PairHash(66, 66);
  }

  /** One character outside the Basic Multilingual Plane is two code units,
      hashed as two. */
  lemma SurrogatePairHash()
    ensures Length("\U{1F600}") == 2
    ensures StringHash("\U{1F600}") == 31 * 0xD83D + 0xDE00
  {
    assert Units('\U{1F600}') == [0xD83D, 0xDE00];
    assert Utf16("\U{1F600}") == Units('\U{1F600}') + Utf16("");
    PairHash(0xD83D, 0xDE00);
  }

  /** `compareTo` orders by code unit, not by character: U+E000 sorts after
      U+1F600, whose high surrogate is 0xD83D. */
  lemma SurrogateOrder()
    ensures CompareStrings("\U{E000}", "\U{1F600}") > 0
  {
    assert Units('\U{1F600}') == [0xD83D, 0xDE00];
    assert Utf16("\U{1F600}") == Units('\U{1F600}') + Utf16("");
    assert Utf16("\U{E000}") == Units('\U{E000}') + Utf16("");
  }
}
