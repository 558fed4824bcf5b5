/**
 JSON numbers (section 6 of RFC 8259): the text JavaScript prints for a finite
 number, and the reader of every JSON number text that undoes it.
 */
module JsonNumber {
  import opened Wrappers
  import opened JsonText

  /**
   A decimal (-1)^neg * digits * 10^scale. A finite double is represented by its
   shortest decimal digits, which are the ones printed; both zeros are Zero.
   */
  datatype Decimal = Zero | Nonzero(neg: bool, digits: nat, scale: int)

  type Number = x: Decimal | x.Nonzero? ==> x.digits % 10 != 0 witness Zero

  // -------------------------------------------------------------------------
  // Printing
  // -------------------------------------------------------------------------

  function Zeros(n: nat): (t: Text)
    ensures |t| == n && AllDigits(t)
  {
    if n == 0 then [] else Zeros(n - 1) + [ZERO]
  }

  function Fraction(d: Text): Text {
    if d == [] then [] else [POINT] + d
  }

  /** Plain up to 21 integer digits and down to 6 leading zeros, with an exponent beyond. */
  function Magnitude(digits: nat, scale: int): Text {
    var d := Numeral(digits);
    var n := |d| + scale;
    if |d| <= n <= 21 then d + Zeros(n - |d|)
    else if 0 < n <= 21 then d[..n] + Fraction(d[n..])
    else if -6 < n <= 0 then [ZERO] + Fraction(Zeros(-n) + d)
    else
      d[..1] + Fraction(d[1..]) + ExponentText(n)
  }

  function NumberText(x: Number): Text {
    match x
    case Zero => [ZERO]
    case Nonzero(neg, digits, scale) => if neg then [MINUS] + Magnitude(digits, scale) else Magnitude(digits, scale)
  }

  // -------------------------------------------------------------------------
  // Reading
  // -------------------------------------------------------------------------

  /** m * 10^e without trailing zeros in the digits. */
  function Normalise(m: nat, e: int): Number {
    if m == 0 then Zero else if m % 10 == 0 then Normalise(m / 10, e + 1) else Nonzero(false, m, e)
  }

  function Negated(x: Number): Number {
    if x.Zero? then Zero else x.(neg := !x.neg)
  }

  function ReadInteger(t: Text): (r: Option<(Text, Text)>)
    ensures r.Some? ==> |r.value.1| < |t| && AllDigits(r.value.0)
  {
    var n := Span(t);
    if n == 0 || (t[0] == ZERO && n > 1) then None else Some((t[..n], t[n..]))
  }

  function ReadFraction(t: Text): (r: Option<(Text, Text)>)
    ensures r.Some? ==> |r.value.1| <= |t| && AllDigits(r.value.0)
  {
    if t == [] || t[0] != POINT then Some(([], t))
    else
      var n := Span(t[1..]);
      if n == 0 then None else Some((t[1..][..n], t[1..][n..]))
  }

  function ReadExponent(t: Text): (r: Option<(int, Text)>)
    ensures r.Some? ==> |r.value.1| <= |t|
  {
    if t == [] || !(t[0] == LOWER_E || t[0] == 69) then Some((0, t))
    else
      var signed := |t| > 1 && (t[1] == PLUS || t[1] == MINUS);
      var d := if signed then t[2..] else t[1..];
      var n := Span(d);
      if n == 0 then None else Some((if signed && t[1] == MINUS then 0 - Value(d[..n]) else Value(d[..n]), d[n..]))
  }

  function ReadMagnitude(t: Text): (r: Option<(Number, Text)>)
    ensures r.Some? ==> |r.value.1| < |t|
  {
    match ReadInteger(t)
    case None => None
    case Some((whole, afterWhole)) =>
      match ReadFraction(afterWhole)
      case None => None
      case Some((part, afterPart)) =>
        match ReadExponent(afterPart)
        case None => None
        case Some((e, rest)) => Some((Normalise(Value(whole + part), e - |part|), rest))
  }

  function ParseNumber(t: Text): (r: Option<(Number, Text)>)
    ensures r.Some? ==> |r.value.1| < |t|
  {
    if t != [] && t[0] == MINUS then
      match ReadMagnitude(t[1..])
      case None => None
      case Some((x, rest)) => Some((Negated(x), rest))
    else ReadMagnitude(t)
  }

  // -------------------------------------------------------------------------
  // The reader undoes the printer
  // -------------------------------------------------------------------------

  /** What may follow a number: not something that continues it. */
  predicate EndsNumber(t: Text) {
    t == [] || !(IsDigit(t[0]) || t[0] == POINT || t[0] == 69 || t[0] == LOWER_E)
  }

  predicate IsWhole(t: Text) {
    t != [] && AllDigits(t) && (t[0] == ZERO ==> |t| == 1)
  }

  lemma IntegerRead(whole: Text, tail: Text)
    requires IsWhole(whole) && (tail == [] || !IsDigit(tail[0]))
    ensures ReadInteger(whole + tail) == Some((whole, tail))
  {
    SpanStops(whole, tail);
    assert (whole + tail)[0] == whole[0];
  }

  lemma FractionRead(part: Text, tail: Text)
    requires AllDigits(part) && (tail == [] || !(IsDigit(tail[0]) || tail[0] == POINT))
    ensures ReadFraction(Fraction(part) + tail) == Some((part, tail))
    ensures Fraction(part) + tail == [] || !IsDigit((Fraction(part) + tail)[0])
  {
    if part == [] {
      assert Fraction(part) + tail == tail;
    } else {
      assert (Fraction(part) + tail)[1..] == part + tail;
      SpanStops(part, tail);
    }
  }

  lemma DigitsConcat(a: Text, b: Text)
    requires AllDigits(a) && AllDigits(b)
    ensures AllDigits(a + b)
  {
  }

  lemma Assoc(a: Text, b: Text, c: Text)
    ensures a + b + c == a + (b + c)
  {
  }

  lemma Assoc4(a: Text, b: Text, c: Text, d: Text)
    ensures a + b + c + d == a + (b + (c + d))
  {
    Assoc(a + b, c, d);
    Assoc(a, b, c + d);
  }

  lemma FirstDigit(d: Text)
    requires AllDigits(d) && d != []
    ensures IsWhole(d[..1]) && AllDigits(d[1..]) && d[..1] + d[1..] == d
  {
  }

  /** Integer digits, fraction and exponent are read as they were written. */
  lemma ReadParts(whole: Text, part: Text, tail: Text, e: int, rest: Text)
    requires IsWhole(whole) && AllDigits(part) && AllDigits(whole + part)
    requires tail == [] || !(IsDigit(tail[0]) || tail[0] == POINT)
    requires ReadExponent(tail) == Some((e, rest))
    ensures ReadMagnitude(whole + (Fraction(part) + tail)) == Some((Normalise(Value(whole + part), e - |part|), rest))
  {
    hide ReadInteger, ReadFraction, ReadExponent, Normalise, Fraction, Value, AllDigits;
    FractionRead(part, tail);
    IntegerRead(whole, Fraction(part) + tail);
  }

  /** A number without an exponent. */
  lemma ReadPlain(whole: Text, part: Text, rest: Text)
    requires IsWhole(whole) && AllDigits(part) && AllDigits(whole + part) && EndsNumber(rest)
    ensures ReadMagnitude(whole + (Fraction(part) + rest)) == Some((Normalise(Value(whole + part), 0 - |part|), rest))
  {
    hide ReadMagnitude, ReadExponent, Value, Normalise, Fraction, AllDigits, IsWhole, EndsNumber, IsDigit;
    NoExponent(rest);
    ReadParts(whole, part, rest, 0, rest);
  }

  lemma NoExponent(rest: Text)
    requires EndsNumber(rest)
    ensures ReadExponent(rest) == Some((0, rest)) && (rest == [] || !(IsDigit(rest[0]) || rest[0] == POINT))
  {
  }

  function ExponentText(n: int): Text {
    [LOWER_E] + (if n < 1 then [MINUS] + Numeral(1 - n) else [PLUS] + Numeral(n - 1))
  }

  lemma ExponentRead(n: int, rest: Text)
    requires EndsNumber(rest)
    ensures ReadExponent(ExponentText(n) + rest) == Some((n - 1, rest))
    ensures (ExponentText(n) + rest)[0] == LOWER_E
  {
    hide Numeral, Value, AllDigits;
    var t, d := ExponentText(n) + rest, Numeral(if n < 1 then 1 - n else n - 1);
    SpanStops(d, rest);
    NumeralValue(if n < 1 then 1 - n else n - 1);
    assert t[2..] == d + rest;
  }

  lemma {:induction false} LeadingZeros(d: Text, n: nat)
    requires AllDigits(d)
    ensures Value(Zeros(n) + d) == Value(d)
    decreases |d|, n
  {
    if d != [] {
      var k := |d| - 1;
      assert (Zeros(n) + d)[..n + k] == Zeros(n) + d[..k];
      LeadingZeros(d[..k], n);
    } else if n > 0 {
      assert Zeros(n) + d == Zeros(n) && Zeros(n - 1) + d == Zeros(n - 1);
      assert Zeros(n)[..n - 1] == Zeros(n - 1);
      LeadingZeros(d, n - 1);
    }
  }

  lemma NoZeros(d: Text)
    ensures d + Zeros(0) == d
  {
  }

  lemma OneMoreZero(d: Text, n: nat)
    requires AllDigits(d)
    ensures Value(d + Zeros(n + 1)) == 10 * Value(d + Zeros(n))
  {
    assert (d + Zeros(n + 1))[..|d| + n] == d + Zeros(n);
  }

  /** Trailing zeros move into the scale. */
  lemma {:induction false} TrailingZeros(d: Text, n: nat, e: int)
    requires AllDigits(d) && Value(d) > 0
    ensures Value(d + Zeros(n)) > 0 && Normalise(Value(d + Zeros(n)), e) == Normalise(Value(d), e + n)
    decreases n
  {
    hide Value, Zeros;
    if n == 0 {
      NoZeros(d);
    } else {
      TrailingZeros(d, n - 1, e + 1);
      OneMoreZero(d, n - 1);
    }
  }

  /** Digits with zeros behind them. */
  lemma WholeRoundTrip(d: Text, scale: nat, rest: Text)
    requires AllDigits(d) && d != [] && d[0] != ZERO && Value(d) > 0 && EndsNumber(rest)
    ensures ReadMagnitude(d + Zeros(scale) + rest) == Some((Normalise(Value(d), scale), rest))
  {
    hide ReadMagnitude, ReadExponent, Value, Normalise, AllDigits;
    var whole := d + Zeros(scale);
    DigitsConcat(d, Zeros(scale));
    EmptyDigits();
    assert whole + [] == whole && Fraction([]) + rest == rest;
    ReadPlain(whole, [], rest);
    TrailingZeros(d, scale, 0);
  }

  /** Digits with a point among them. */
  lemma PointRoundTrip(d: Text, n: nat, rest: Text)
    requires AllDigits(d) && 0 < n < |d| && d[0] != ZERO && EndsNumber(rest)
    ensures ReadMagnitude(d[..n] + Fraction(d[n..]) + rest) == Some((Normalise(Value(d), n - |d|), rest))
  {
    hide ReadMagnitude, ReadExponent, Value, Normalise;
    assert d[..n] + d[n..] == d;
    ReadPlain(d[..n], d[n..], rest);
    Assoc(d[..n], Fraction(d[n..]), rest);
  }

  /** A point, leading zeros, then the digits. */
  lemma SmallRoundTrip(d: Text, zeros: nat, rest: Text)
    requires AllDigits(d) && EndsNumber(rest)
    ensures ReadMagnitude([ZERO] + Fraction(Zeros(zeros) + d) + rest) == Some((Normalise(Value(d), -(zeros + |d|)), rest))
  {
    hide ReadMagnitude, Value, Normalise, AllDigits, Fraction, Zeros;
    var part := Zeros(zeros) + d;
    SmallValue(d, zeros);
    ReadPlain([ZERO], part, rest);
    Assoc([ZERO], Fraction(part), rest);
  }

  lemma SmallValue(d: Text, zeros: nat)
    requires AllDigits(d)
    ensures AllDigits(Zeros(zeros) + d) && AllDigits([ZERO] + (Zeros(zeros) + d)) && IsWhole([ZERO])
    ensures Value([ZERO] + (Zeros(zeros) + d)) == Value(d)
  {
    DigitsConcat(Zeros(zeros), d);
    ZeroDigit(Zeros(zeros) + d);
    LeadingZeros(d, zeros + 1);
    ZeroFirst(zeros);
    Assoc([ZERO], Zeros(zeros), d);
  }

  lemma ZeroDigit(part: Text)
    requires AllDigits(part)
    ensures IsWhole([ZERO]) && AllDigits([ZERO] + part)
  {
  }

  lemma EmptyDigits()
    ensures AllDigits([])
  {
  }

  lemma ReadScientific(whole: Text, part: Text, n: int, rest: Text)
    requires IsWhole(whole) && AllDigits(part) && AllDigits(whole + part) && EndsNumber(rest)
    ensures ReadMagnitude(whole + Fraction(part) + ExponentText(n) + rest)
            == Some((Normalise(Value(whole + part), n - 1 - |part|), rest))
  {
    hide ReadMagnitude, ReadExponent, Value, Normalise, Fraction, AllDigits, IsWhole, ExponentText, EndsNumber;
    ExponentRead(n, rest);
    ReadParts(whole, part, ExponentText(n) + rest, n - 1, rest);
    Assoc4(whole, Fraction(part), ExponentText(n), rest);
  }

  /** One digit before the point, and an exponent. */
  lemma ScientificRoundTrip(d: Text, n: int, rest: Text)
    requires AllDigits(d) && d != [] && EndsNumber(rest)
    ensures ReadMagnitude(d[..1] + Fraction(d[1..]) + ExponentText(n) + rest) == Some((Normalise(Value(d), n - |d|), rest))
  {
    hide ReadMagnitude, ReadExponent, Value, Normalise, Fraction, AllDigits, IsWhole, ExponentText;
    FirstDigit(d);
    ReadScientific(d[..1], d[1..], n, rest);
  }

  lemma MagnitudeRoundTrip(digits: nat, scale: int, rest: Text)
    requires digits % 10 != 0 && EndsNumber(rest)
    ensures ReadMagnitude(Magnitude(digits, scale) + rest) == Some((Nonzero(false, digits, scale), rest))
    ensures Magnitude(digits, scale) != [] && IsDigit(Magnitude(digits, scale)[0])
  {
    hide ReadMagnitude, Value, Fraction;
    var d := Numeral(digits);
    var n := |d| + scale;
    NumeralValue(digits);
    if |d| <= n <= 21 {
      WholeRoundTrip(d, scale, rest);
    } else if 0 < n <= 21 {
      PointRoundTrip(d, n, rest);
    } else if -6 < n <= 0 {
      SmallRoundTrip(d, -n, rest);
    } else {
      ScientificRoundTrip(d, n, rest);
    }
  }

  lemma {:induction false} ZeroFirst(n: nat)
    ensures [ZERO] + Zeros(n) == Zeros(n + 1)
  {
    if n > 0 {
      ZeroFirst(n - 1);
    }
  }

  /** Every finite number is read back from its text, whatever follows. */
  lemma NumberRoundTrip(x: Number, rest: Text)
    requires EndsNumber(rest)
    ensures ParseNumber(NumberText(x) + rest) == Some((x, rest))
    ensures NumberText(x) != [] && (NumberText(x)[0] == MINUS || IsDigit(NumberText(x)[0]))
  {
    hide ReadMagnitude, Magnitude;
    match x
    case Zero =>
      assert [ZERO] + [] == [ZERO] && Fraction([]) + rest == rest;
      ReadPlain([ZERO], [], rest);
      LeadingZeros([], 1);
      assert Zeros(1) + [] == [ZERO];
    case Nonzero(neg, digits, scale) =>
      MagnitudeRoundTrip(digits, scale, rest);
      var m := Magnitude(digits, scale);
      assert (m + rest)[0] == m[0];
      if neg {
        assert ([MINUS] + m + rest)[1..] == m + rest;
      }
  }
}
