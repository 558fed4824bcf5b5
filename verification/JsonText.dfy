/**
 Text as UTF-16 code units: string order, JSON string quoting (section 7 of RFC
 8259, with JSON.stringify's escapes) and decimal numerals, each with the reader
 that undoes it.
 */
module JsonText {
  import opened Wrappers

  type Unit = u: int | 0 <= u < 0x1_0000
  type Text = seq<Unit>

  const QUOTE: Unit := 34
  const PLUS: Unit := 43
  const COMMA: Unit := 44
  const MINUS: Unit := 45
  const POINT: Unit := 46
  const ZERO: Unit := 48
  const COLON: Unit := 58
  const OPEN_BRACKET: Unit := 91
  const BACKSLASH: Unit := 92
  const CLOSE_BRACKET: Unit := 93
  const LOWER_E: Unit := 101
  const OPEN_BRACE: Unit := 123
  const CLOSE_BRACE: Unit := 125

  // -------------------------------------------------------------------------
  // The order of Array.prototype.sort on strings
  // -------------------------------------------------------------------------

  predicate Less(a: Text, b: Text) {
    if b == [] then false
    else if a == [] then true
    else if a[0] != b[0] then a[0] < b[0]
    else Less(a[1..], b[1..])
  }

  lemma {:induction false} LessTotal(a: Text, b: Text)
    ensures a == b || Less(a, b) || Less(b, a)
    decreases |a|
  {
    if a != [] && b != [] && a[0] == b[0] {
      LessTotal(a[1..], b[1..]);
      assert a == [a[0]] + a[1..] && b == [b[0]] + b[1..];
    }
  }

  lemma {:induction false} LessTransitive(a: Text, b: Text, c: Text)
    requires Less(a, b) && Less(b, c)
    ensures Less(a, c)
    decreases |a|
  {
    if a != [] && a[0] == b[0] && b[0] == c[0] {
      LessTransitive(a[1..], b[1..], c[1..]);
    }
  }

  lemma {:induction false} LessIrreflexive(a: Text)
    ensures !Less(a, a)
    decreases |a|
  {
    if a != [] {
      LessIrreflexive(a[1..]);
    }
  }

  // -------------------------------------------------------------------------
  // Strings
  // -------------------------------------------------------------------------

  predicate High(u: Unit) { 0xD800 <= u < 0xDC00 }

  predicate Low(u: Unit) { 0xDC00 <= u < 0xE000 }

  function HexUnit(d: int): Unit
    requires 0 <= d < 16
  {
    if d < 10 then 48 + d else 87 + d
  }

  function FromHex(a: int, b: int, c: int, d: int): Unit
    requires 0 <= a < 16 && 0 <= b < 16 && 0 <= c < 16 && 0 <= d < 16
  {
    a * 4096 + b * 256 + c * 16 + d
  }

  function HexValue(u: Unit): (r: Option<int>)
    ensures r.Some? ==> 0 <= r.value < 16
  {
    if 48 <= u <= 57 then Some(u - 48)
    else if 97 <= u <= 102 then Some(u - 87)
    else if 65 <= u <= 70 then Some(u - 55)
    else None
  }

  /** \u and four lower-case digits. */
  function UnicodeEscape(u: Unit): (t: Text)
    ensures |t| == 6
  {
    [BACKSLASH, 117, HexUnit(u / 4096), HexUnit(u / 256 % 16), HexUnit(u / 16 % 16), HexUnit(u % 16)]
  }

  /** The unit a two-character escape stands for, by its letter. */
  function ShortEscape(u: Unit): Option<Unit> {
    if u == QUOTE || u == BACKSLASH then Some(u)
    else if u == 8 then Some(98)
    else if u == 9 then Some(116)
    else if u == 10 then Some(110)
    else if u == 12 then Some(102)
    else if u == 13 then Some(114)
    else None
  }

  function EscapeUnit(u: Unit): Text {
    if ShortEscape(u).Some? then [BACKSLASH, ShortEscape(u).value]
    else if u < 32 || High(u) || Low(u) then UnicodeEscape(u)
    else [u]
  }

  /** Surrogate pairs are kept, lone surrogates escaped. */
  function Escape(s: Text): Text
    decreases |s|
  {
    if s == [] then []
    else if |s| > 1 && High(s[0]) && Low(s[1]) then s[..2] + Escape(s[2..])
    else EscapeUnit(s[0]) + Escape(s[1..])
  }

  function Quote(s: Text): Text {
    [QUOTE] + (Escape(s) + [QUOTE])
  }

  function Unescape(u: Unit): Option<Unit> {
    if u == QUOTE || u == BACKSLASH || u == 47 then Some(u)
    else if u == 98 then Some(8)
    else if u == 116 then Some(9)
    else if u == 110 then Some(10)
    else if u == 102 then Some(12)
    else if u == 114 then Some(13)
    else None
  }

  /** The first unit of a string body and the text after it. */
  function ParseUnit(t: Text): (r: Option<(Unit, Text)>)
    ensures r.Some? ==> |r.value.1| < |t|
  {
    if t == [] || t[0] < 32 || t[0] == QUOTE then None
    else if t[0] != BACKSLASH then Some((t[0], t[1..]))
    else if |t| >= 2 && Unescape(t[1]).Some? then Some((Unescape(t[1]).value, t[2..]))
    else if |t| >= 6 && t[1] == 117 && HexValue(t[2]).Some? && HexValue(t[3]).Some? && HexValue(t[4]).Some? && HexValue(t[5]).Some? then
      Some((FromHex(HexValue(t[2]).value, HexValue(t[3]).value, HexValue(t[4]).value, HexValue(t[5]).value), t[6..]))
    else None
  }

  /** A string body up to its closing quote, and the text after it. */
  function ParseBody(t: Text): (r: Option<(Text, Text)>)
    ensures r.Some? ==> |r.value.1| < |t|
    decreases |t|
  {
    if t == [] then None
    else if t[0] == QUOTE then Some(([], t[1..]))
    else match ParseUnit(t)
      case None => None
      case Some((u, rest)) =>
        match ParseBody(rest)
        case None => None
        case Some((s, after)) => Some(([u] + s, after))
  }

  /** Lone surrogates aside, no shorter text reads as the unit: the two-character escapes are used wherever there is one. */
  lemma EscapesShortest(u: Unit, t: Text)
    requires !High(u) && !Low(u) && ParseUnit(t) == Some((u, []))
    ensures |EscapeUnit(u)| <= |t|
  {
    if |t| >= 2 && t[0] == BACKSLASH && Unescape(t[1]).Some? {
      assert |t[2..]| == 0;
    } else if t[0] == BACKSLASH {
      assert |t[6..]| == 0;
    } else {
      assert |t[1..]| == 0;
    }
  }

  /** Hexadecimal digits are written in lower case. */
  lemma EscapesLowerCase(u: Unit, i: nat)
    requires i < |UnicodeEscape(u)|
    ensures !(65 <= UnicodeEscape(u)[i] <= 70)
  {
  }

  /** The text is the string. */
  predicate Spells(t: Text, s: string) {
    |t| == |s| && forall i :: 0 <= i < |t| ==> t[i] == s[i] as int
  }

  lemma HexDigit(d: int)
    requires 0 <= d < 16
    ensures HexValue(HexUnit(d)) == Some(d)
  {
  }

  lemma HexParts(u: Unit)
    ensures u == u / 4096 * 4096 + u / 256 % 16 * 256 + u / 16 % 16 * 16 + u % 16
    ensures u / 4096 < 16
  {
    assert u / 16 == u / 256 * 16 + u / 16 % 16;
    assert u / 256 == u / 4096 * 16 + u / 256 % 16;
  }

  lemma UnicodeRoundTrip(u: Unit, rest: Text)
    ensures ParseUnit(UnicodeEscape(u) + rest) == Some((u, rest))
  {
    hide HexUnit, HexValue;
    var t := UnicodeEscape(u) + rest;
    HexParts(u);
    HexDigit(u / 4096);
    HexDigit(u / 256 % 16);
    HexDigit(u / 16 % 16);
    HexDigit(u % 16);
    assert t[6..] == rest;
  }

  lemma LiteralUnit(u: Unit, rest: Text)
    requires u >= 32 && u != QUOTE && u != BACKSLASH
    ensures ParseUnit([u] + rest) == Some((u, rest))
  {
    assert ([u] + rest)[1..] == rest;
  }

  lemma UnitRoundTrip(u: Unit, rest: Text)
    ensures ParseUnit(EscapeUnit(u) + rest) == Some((u, rest))
    ensures EscapeUnit(u) != [] && EscapeUnit(u)[0] != QUOTE
  {
    var t := EscapeUnit(u) + rest;
    if ShortEscape(u).Some? {
      assert t[2..] == rest;
    } else if u < 32 || High(u) || Low(u) {
      UnicodeRoundTrip(u, rest);
    } else {
      assert t[1..] == rest;
    }
  }

  lemma BodyEnd(rest: Text)
    ensures ParseBody([QUOTE] + rest) == Some(([], rest))
  {
    assert ([QUOTE] + rest)[1..] == rest;
  }

  lemma BodyStep(t: Text, u: Unit, rest: Text, s: Text, after: Text)
    requires t != [] && t[0] != QUOTE && ParseUnit(t) == Some((u, rest)) && ParseBody(rest) == Some((s, after))
    ensures ParseBody(t) == Some(([u] + s, after))
  {
  }

  /** A kept surrogate pair is read back unit by unit. */
  lemma PairStep(a: Unit, b: Unit, inner: Text, s: Text, after: Text)
    requires High(a) && Low(b) && ParseBody(inner) == Some((s, after))
    ensures ParseBody([a, b] + inner) == Some(([a, b] + s, after))
  {
    hide ParseBody, ParseUnit;
    LiteralUnit(b, inner);
    BodyStep([b] + inner, b, inner, s, after);
    LiteralUnit(a, [b] + inner);
    BodyStep([a] + ([b] + inner), a, [b] + inner, [b] + s, after);
    assert [a] + ([b] + inner) == [a, b] + inner && [a] + ([b] + s) == [a, b] + s;
  }

  lemma {:induction false} BodyRoundTrip(s: Text, rest: Text)
    ensures ParseBody(Escape(s) + ([QUOTE] + rest)) == Some((s, rest))
    decreases |s|
  {
    hide ParseBody, ParseUnit, EscapeUnit;
    var tail := [QUOTE] + rest;
    if s == [] {
      BodyEnd(rest);
      assert Escape(s) + tail == tail;
    } else if |s| > 1 && High(s[0]) && Low(s[1]) {
      BodyRoundTrip(s[2..], rest);
      PairStep(s[0], s[1], Escape(s[2..]) + tail, s[2..], rest);
      assert Escape(s) + tail == [s[0], s[1]] + (Escape(s[2..]) + tail);
      assert s == [s[0], s[1]] + s[2..];
    } else {
      BodyRoundTrip(s[1..], rest);
      var inner := Escape(s[1..]) + tail;
      UnitRoundTrip(s[0], inner);
      assert Escape(s) + tail == EscapeUnit(s[0]) + inner;
      BodyStep(EscapeUnit(s[0]) + inner, s[0], inner, s[1..], rest);
      assert s == [s[0]] + s[1..];
    }
  }

  // -------------------------------------------------------------------------
  // Decimal numerals
  // -------------------------------------------------------------------------

  predicate IsDigit(u: Unit) { ZERO <= u <= 57 }

  predicate AllDigits(t: Text) {
    forall i :: 0 <= i < |t| ==> IsDigit(t[i])
  }

  function Numeral(n: nat): (t: Text)
    ensures |t| >= 1 && AllDigits(t)
    ensures t[0] == ZERO ==> n == 0 && t == [ZERO]
  {
    if n < 10 then [ZERO + n] else Numeral(n / 10) + [ZERO + n % 10]
  }

  /** The number of leading digits. */
  function Span(t: Text): (n: nat)
    ensures n <= |t| && AllDigits(t[..n]) && (n < |t| ==> !IsDigit(t[n]))
    decreases |t|
  {
    if t == [] || !IsDigit(t[0]) then 0
    else
      var n := 1 + Span(t[1..]);
      assert t[..n] == [t[0]] + t[1..][..n - 1];
      n
  }

  function Value(t: Text): nat
    requires AllDigits(t)
    decreases |t|
  {
    if t == [] then 0
    else
      assert IsDigit(t[|t| - 1]);
      10 * Value(t[..|t| - 1]) + (t[|t| - 1] as int - ZERO)
  }

  lemma {:induction false} NumeralValue(n: nat)
    ensures Value(Numeral(n)) == n
  {
    if n >= 10 {
      NumeralValue(n / 10);
      assert Numeral(n)[..|Numeral(n)| - 1] == Numeral(n / 10);
    } else {
      assert Numeral(n)[..0] == [];
    }
  }

  lemma {:induction false} SpanStops(d: Text, rest: Text)
    requires AllDigits(d) && (rest == [] || !IsDigit(rest[0]))
    ensures Span(d + rest) == |d| && (d + rest)[..|d|] == d && (d + rest)[|d|..] == rest
    decreases |d|
  {
    if d == [] {
      assert d + rest == rest;
    } else {
      assert (d + rest)[1..] == d[1..] + rest;
      SpanStops(d[1..], rest);
    }
  }
}
