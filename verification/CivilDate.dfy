/**
 The integer conversion of Unix seconds to a UTC timestamp (RFC 3339 section
 5.6), checked against stepping the Gregorian calendar one day at a time (leap
 rule of RFC 3339 Appendix C).
 */
module CivilDate {
  import opened Arithmetic
  import opened Decimal

  datatype Date = Date(year: int, month: int, day: int)

  // -------------------------------------------------------------------------
  // The calendar
  // -------------------------------------------------------------------------

  predicate Leap(year: int) {
    year % 4 == 0 && (year % 100 != 0 || year % 400 == 0)
  }

  function DaysInMonth(year: int, month: int): int {
    if month == 2 then (if Leap(year) then 29 else 28)
    else if month == 4 || month == 6 || month == 9 || month == 11 then 30
    else 31
  }

  predicate Valid(d: Date) {
    1 <= d.month <= 12 && 1 <= d.day <= DaysInMonth(d.year, d.month)
  }

  function NextDay(d: Date): Date {
    if d.day < DaysInMonth(d.year, d.month) then d.(day := d.day + 1)
    else if d.month < 12 then Date(d.year, d.month + 1, 1)
    else Date(d.year + 1, 1, 1)
  }

  const EPOCH: Date := Date(1970, 1, 1)

  /** The date reached from the epoch after n single-day steps. */
  function DateAfter(n: nat): Date {
    if n == 0 then EPOCH else NextDay(DateAfter(n - 1))
  }

  predicate Before(a: Date, b: Date) {
    a.year < b.year || (a.year == b.year && (a.month < b.month || (a.month == b.month && a.day < b.day)))
  }

  // -------------------------------------------------------------------------
  // The source's conversion
  // -------------------------------------------------------------------------

  /** Rust's `/` on i64 truncates toward zero; only the era can be negative here. */
  function TruncDiv(n: int, d: int): int
    requires d > 0
  {
    if n >= 0 then n / d else -((-n) / d)
  }

  function YearOfEra(doe: int): int {
    (doe - doe / 1460 + doe / 36524 - doe / 146096) / 365
  }

  /** Years here begin on 1 March; the day of year is split into months of 153 days per five. */
  function DateOfMarchYear(y: int, doy: int): Date {
    var mp := (5 * doy + 2) / 153;
    var day := doy - (153 * mp + 2) / 5 + 1;
    var month := mp + (if mp < 10 then 3 else -9);
    Date(y + (if month <= 2 then 1 else 0), month, day)
  }

  function Era(z: int): int {
    TruncDiv(if z >= 0 then z else z - 146096, 146097)
  }

  function Civil(days: int): Date {
    var z := days + 719468;
    var era := Era(z);
    var doe := z - era * 146097;
    var yoe := YearOfEra(doe);
    var doy := doe - (365 * yoe + yoe / 4 - yoe / 100);
    DateOfMarchYear(yoe + era * 400, doy)
  }

  function Format(date: Date, seconds: nat): string
    requires date.year >= 0 && date.month >= 0 && date.day >= 0
  {
    Padded(date.year, 4) + "-" + Padded(date.month, 2) + "-" + Padded(date.day, 2)
    + "T" + Padded(seconds / 3600, 2) + ":" + Padded(seconds % 3600 / 60, 2) + ":" + Padded(seconds % 60, 2) + "Z"
  }

  /** claimed_at, for the non-negative epochs its caller admits. */
  function ClaimedAt(epoch: nat): string {
    CivilYearPositive(epoch / 86400);
    Format(Civil(epoch / 86400), epoch % 86400)
  }

  // -------------------------------------------------------------------------
  // Years that begin in March
  // -------------------------------------------------------------------------

  function YearStart(yoe: int): int {
    365 * yoe + yoe / 4 - yoe / 100
  }

  /** A March year ends with the February of the next civil year. */
  function YearLength(y: int): int {
    if Leap(y + 1) then 366 else 365
  }

  /** Year c * 100 + q * 4 + p of an era: 0 <= c < 4 centuries, q < 25 quadrennia, p < 4 years. */
  predicate Split(c: int, q: int, p: int) {
    0 <= c < 4 && 0 <= q < 25 && 0 <= p < 4
  }

  lemma SplitYear(c: int, q: int, p: int)
    requires Split(c, q, p)
    ensures YearStart(100 * c + 4 * q + p) == 36524 * c + 1461 * q + 365 * p
    ensures YearLength(100 * c + 4 * q + p) == if p == 3 && (q < 24 || c == 3) then 366 else 365
  {
    var y := 100 * c + 4 * q + p;
    assert y / 4 == 25 * c + q && y / 100 == c;
    assert (y + 1) % 4 == 0 <==> p == 3;
    assert p == 3 ==> ((y + 1) % 100 == 0 <==> q == 24);
    assert p == 3 && q == 24 ==> ((y + 1) % 400 == 0 <==> c == 3);
  }

  /** The three correction terms of the closed form cancel the leap days passed. */
  lemma SplitFormula(c: int, q: int, p: int, doy: int)
    requires Split(c, q, p) && 0 <= doy < if p == 3 && (q < 24 || c == 3) then 366 else 365
    ensures YearOfEra(36524 * c + 1461 * q + 365 * p + doy) == 100 * c + 4 * q + p
  {
    var doe := 36524 * c + 1461 * q + 365 * p + doy;
    var over := if 24 * c + q + 365 * p + doy >= 1460 then 1 else 0;
    assert doe / 1460 == 25 * c + q + over;
    var last := if doe == 146096 then 1 else 0;
    assert doe / 36524 == c + last && doe / 146096 == last;
    assert doe - doe / 1460 + doe / 36524 - doe / 146096 == 365 * (100 * c + 4 * q + p) + (doy - over);
  }

  /** The closed form finds the year of the era that holds the day. */
  lemma YearOfEraHolds(doe: int)
    requires 0 <= doe < 146097
    ensures 0 <= YearOfEra(doe) < 400
    ensures YearStart(YearOfEra(doe)) <= doe < YearStart(YearOfEra(doe)) + YearLength(YearOfEra(doe))
  {
    var c := if doe / 36524 < 4 then doe / 36524 else 3;
    var w := doe - 36524 * c;
    var q, r := w / 1461, w % 1461;
    var p := if r / 365 < 4 then r / 365 else 3;
    SplitYear(c, q, p);
    SplitFormula(c, q, p, r - 365 * p);
  }

  lemma YearOfEraUnique(yoe: int, doy: int)
    requires 0 <= yoe < 400 && 0 <= doy < YearLength(yoe)
    ensures YearOfEra(YearStart(yoe) + doy) == yoe
    ensures YearStart(yoe) + doy < 146097
  {
    var c, q, p := yoe / 100, yoe % 100 / 4, yoe % 4;
    assert yoe == 100 * c + 4 * q + p;
    SplitYear(c, q, p);
    SplitFormula(c, q, p, doy);
  }

  lemma ModRepeats(n: int, d: int, k: int)
    requires d > 0
    ensures (n + k * d) % d == n % d
  {
    var q, p := n / d, n / d * d;
    assert p <= n < p + d;
    assert (q + k) * d == p + k * d;
    QuotientUnique(n + k * d, d, q + k);
  }

  lemma LeapRepeats(yoe: int, era: int)
    ensures Leap(yoe + era * 400) == Leap(yoe)
  {
    ModRepeats(yoe, 400, era);
    ModRepeats(yoe, 100, 4 * era);
    ModRepeats(yoe, 4, 100 * era);
  }

  /** Truncation is corrected below zero so that the era is the flooring quotient. */
  lemma EraUnique(z: int, era: int)
    requires 0 <= z - era * 146097 < 146097
    ensures Era(z) == era
  {
  }

  lemma EraHolds(z: int)
    ensures 0 <= z - Era(z) * 146097 < 146097
  {
  }

  /** Position of a day: its era, year of the era and day of the March year. */
  lemma Position(days: int) returns (era: int, yoe: int, doy: int)
    ensures 0 <= yoe < 400 && 0 <= doy < YearLength(yoe)
    ensures days + 719468 == era * 146097 + YearStart(yoe) + doy
    ensures Civil(days) == DateOfMarchYear(yoe + era * 400, doy)
  {
    hide Era, TruncDiv, YearOfEra, YearLength, DateOfMarchYear;
    var z := days + 719468;
    era := Era(z);
    EraHolds(z);
    var doe := z - era * 146097;
    YearOfEraHolds(doe);
    yoe := YearOfEra(doe);
    doy := doe - YearStart(yoe);
  }

  lemma PositionDate(days: int, era: int, yoe: int, doy: int)
    requires 0 <= yoe < 400 && 0 <= doy < YearLength(yoe)
    requires days + 719468 == era * 146097 + YearStart(yoe) + doy
    ensures Civil(days) == DateOfMarchYear(yoe + era * 400, doy)
  {
    hide Era, TruncDiv, YearOfEra, YearLength, DateOfMarchYear;
    YearOfEraUnique(yoe, doy);
    YearStartPositive(yoe);
    EraUnique(days + 719468, era);
  }

  lemma YearStartPositive(yoe: int)
    requires 0 <= yoe
    ensures 0 <= YearStart(yoe)
  {
  }

  // -------------------------------------------------------------------------
  // One day at a time
  // -------------------------------------------------------------------------

  lemma MarchYearStep(y: int, doy: int)
    requires 0 <= doy && doy + 1 < YearLength(y)
    ensures DateOfMarchYear(y, doy + 1) == NextDay(DateOfMarchYear(y, doy))
  {
  }

  lemma MarchYearEnd(y: int)
    ensures DateOfMarchYear(y + 1, 0) == NextDay(DateOfMarchYear(y, YearLength(y) - 1))
  {
  }

  lemma YearAfter(yoe: int)
    requires 0 <= yoe < 400
    ensures yoe < 399 ==> YearStart(yoe + 1) == YearStart(yoe) + YearLength(yoe)
    ensures yoe == 399 ==> YearStart(yoe) + YearLength(yoe) == 146097 && YearStart(0) == 0
    ensures YearLength(yoe) >= 365
  {
  }

  /** On every day number, negative ones included, the closed form advances by one calendar day. */
  lemma CivilStep(days: int)
    ensures Civil(days + 1) == NextDay(Civil(days))
  {
    hide Civil, YearStart, DateOfMarchYear, NextDay;
    var era, yoe, doy := Position(days);
    LeapRepeats(yoe + 1, era);
    var y := yoe + era * 400;
    YearAfter(yoe);
    if doy + 1 < YearLength(yoe) {
      PositionDate(days + 1, era, yoe, doy + 1);
      MarchYearStep(y, doy);
    } else {
      MarchYearEnd(y);
      if yoe < 399 {
        YearAfter(yoe + 1);
        PositionDate(days + 1, era, yoe + 1, 0);
      } else {
        YearAfter(0);
        PositionDate(days + 1, era + 1, 0, 0);
      }
    }
  }

  lemma CivilEpoch()
    ensures Civil(0) == EPOCH
  {
    hide Civil;
    PositionDate(0, 4, 369, 306);
  }

  /** The closed form is the date reached by stepping, for every day from the epoch on. */
  lemma {:induction false} CivilIsStepping(days: nat)
    ensures Civil(days) == DateAfter(days)
  {
    hide Civil, NextDay;
    if days > 0 {
      CivilIsStepping(days - 1);
      CivilStep(days - 1);
    } else {
      CivilEpoch();
    }
  }

  lemma {:induction false} SteppingValid(n: nat)
    ensures Valid(DateAfter(n)) && DateAfter(n).year >= 1970
  {
    if n > 0 {
      SteppingValid(n - 1);
    }
  }

  lemma CivilYearPositive(days: nat)
    ensures Valid(Civil(days)) && Civil(days).year >= 1970
  {
    CivilIsStepping(days);
    SteppingValid(days);
  }

  // -------------------------------------------------------------------------
  // Text order is time order
  // -------------------------------------------------------------------------

  lemma {:induction false} LaterDaysFollow(m: nat, n: nat)
    requires m < n
    ensures Before(DateAfter(m), DateAfter(n))
    decreases n
  {
    SteppingValid(n - 1);
    assert Before(DateAfter(n - 1), DateAfter(n));
    if m < n - 1 {
      LaterDaysFollow(m, n - 1);
    }
  }

  datatype Field = Field(value: nat, width: nat, mark: char)

  function Text(fields: seq<Field>): string {
    if fields == [] then "" else Fixed(fields[0].value, fields[0].width) + ([fields[0].mark] + Text(fields[1..]))
  }

  predicate FieldsLess(a: seq<Field>, b: seq<Field>)
    requires |a| == |b|
  {
    a != [] && (a[0].value < b[0].value || (a[0].value == b[0].value && FieldsLess(a[1..], b[1..])))
  }

  predicate SameShape(a: seq<Field>, b: seq<Field>) {
    && |a| == |b|
    && (forall i :: 0 <= i < |a| ==> a[i].width == b[i].width && a[i].mark == b[i].mark)
    && (forall i :: 0 <= i < |a| ==> a[i].value < Pow10(a[i].width) && b[i].value < Pow10(b[i].width))
  }

  lemma {:induction false} TextOrder(a: seq<Field>, b: seq<Field>)
    requires SameShape(a, b)
    ensures LexLess(Text(a), Text(b)) <==> FieldsLess(a, b)
    decreases |a|
  {
    if a != [] {
      TextOrder(a[1..], b[1..]);
      FixedOrder(a[0].value, b[0].value, a[0].width);
      LexConcat([a[0].mark], [b[0].mark], Text(a[1..]), Text(b[1..]));
      LexConcat(Fixed(a[0].value, a[0].width), Fixed(b[0].value, b[0].width),
                [a[0].mark] + Text(a[1..]), [b[0].mark] + Text(b[1..]));
    }
  }

  function Fields(date: Date, seconds: nat): (f: seq<Field>)
    requires date.year >= 0 && date.month >= 0 && date.day >= 0
    ensures |f| == 6
  {
    [Field(date.year, 4, '-'), Field(date.month, 2, '-'), Field(date.day, 2, 'T'),
     Field(seconds / 3600, 2, ':'), Field(seconds % 3600 / 60, 2, ':'), Field(seconds % 60, 2, 'Z')]
  }

  predicate FourDigitYear(date: Date) {
    0 <= date.year <= 9999 && Valid(date)
  }

  lemma FormatIsText(date: Date, seconds: nat)
    requires FourDigitYear(date) && seconds < 86400
    ensures Format(date, seconds) == Text(Fields(date, seconds))
    ensures forall i :: 0 <= i < 6 ==> Fields(date, seconds)[i].value < Pow10(Fields(date, seconds)[i].width)
  {
    hide Padded, Fixed;
    var f := Fields(date, seconds);
    assert Pow10(2) == 100 && Pow10(4) == 10000;
    forall i | 0 <= i < 6
      ensures f[i].value < Pow10(f[i].width) && Padded(f[i].value, f[i].width) == Fixed(f[i].value, f[i].width)
    {
      PaddedIsFixed(f[i].value, f[i].width);
    }
    assert f[5..][1..] == [];
    assert f[4..][1..] == f[5..] && f[3..][1..] == f[4..] && f[2..][1..] == f[3..] && f[1..][1..] == f[2..];
    assert Text(f[5..]) == Padded(f[5].value, 2) + "Z";
    assert Text(f[4..]) == Padded(f[4].value, 2) + (":" + Text(f[5..]));
    assert Text(f[3..]) == Padded(f[3].value, 2) + (":" + Text(f[4..]));
    assert Text(f[2..]) == Padded(f[2].value, 2) + ("T" + Text(f[3..]));
    assert Text(f[1..]) == Padded(f[1].value, 2) + ("-" + Text(f[2..]));
    assert Text(f) == Padded(f[0].value, 4) + ("-" + Text(f[1..]));
  }

  lemma SixFields(f: seq<Field>, g: seq<Field>)
    requires |f| == |g| == 6
    ensures FieldsLess(f, g) <==>
            || f[0].value < g[0].value
            || (f[0].value == g[0].value &&
              (|| f[1].value < g[1].value
               || (f[1].value == g[1].value &&
                 (|| f[2].value < g[2].value
                  || (f[2].value == g[2].value &&
                    (|| f[3].value < g[3].value
                     || (f[3].value == g[3].value &&
                       (|| f[4].value < g[4].value
                        || (f[4].value == g[4].value && f[5].value < g[5].value)))))))))
  {
    assert f[1..][1..] == f[2..] && f[2..][1..] == f[3..] && f[3..][1..] == f[4..] && f[4..][1..] == f[5..];
    assert g[1..][1..] == g[2..] && g[2..][1..] == g[3..] && g[3..][1..] == g[4..] && g[4..][1..] == g[5..];
    assert f[5..][1..] == [] && g[5..][1..] == [];
    assert FieldsLess(f[5..], g[5..]) <==> f[5].value < g[5].value;
    assert FieldsLess(f[4..], g[4..]) <==> f[4].value < g[4].value || (f[4].value == g[4].value && FieldsLess(f[5..], g[5..]));
    assert FieldsLess(f[3..], g[3..]) <==> f[3].value < g[3].value || (f[3].value == g[3].value && FieldsLess(f[4..], g[4..]));
    assert FieldsLess(f[2..], g[2..]) <==> f[2].value < g[2].value || (f[2].value == g[2].value && FieldsLess(f[3..], g[3..]));
    assert FieldsLess(f[1..], g[1..]) <==> f[1].value < g[1].value || (f[1].value == g[1].value && FieldsLess(f[2..], g[2..]));
  }

  /** Hours, minutes and seconds order as the second of the day does. */
  lemma ClockOrder(s: nat, t: nat)
    requires s < t
    ensures s / 3600 < t / 3600
            || (s / 3600 == t / 3600
                && (s % 3600 / 60 < t % 3600 / 60 || (s % 3600 / 60 == t % 3600 / 60 && s % 60 < t % 60)))
  {
    ClockParts(s);
    ClockParts(t);
  }

  lemma ClockParts(s: nat)
    ensures s == 3600 * (s / 3600) + 60 * (s % 3600 / 60) + s % 60
  {
    var h, r := s / 3600, s % 3600;
    var m, x := r / 60, r % 60;
    assert s == 3600 * h + r && r == 60 * m + x;
    QuotientUnique(s, 60, 60 * h + m);
  }

  lemma FieldsOrder(e: nat, e': nat)
    requires e < e'
    ensures var d, d' := DateAfter(e / 86400), DateAfter(e' / 86400);
            && Valid(d) && Valid(d') && d.year >= 0 && d'.year >= 0
            && FieldsLess(Fields(d, e % 86400), Fields(d', e' % 86400))
  {
    hide NextDay, Leap, DaysInMonth;
    var m, n := e / 86400, e' / 86400;
    SteppingValid(m);
    SteppingValid(n);
    SixFields(Fields(DateAfter(m), e % 86400), Fields(DateAfter(n), e' % 86400));
    if m < n {
      LaterDaysFollow(m, n);
    } else {
      ClockOrder(e % 86400, e' % 86400);
    }
  }

  /** The first second of the year 10000. */
  const YEAR_10000: nat := 253402300800

  lemma LastFourDigitDay()
    ensures Civil(2932896) == Date(9999, 12, 31) && Civil(2932897) == Date(10000, 1, 1)
  {
    hide Civil;
    PositionDate(2932896, 24, 399, 305);
    CivilStep(2932896);
  }

  /** Years have four digits exactly before the year 10000. */
  lemma FourDigitYears(e: nat)
    ensures Civil(e / 86400).year <= 9999 <==> e < YEAR_10000
  {
    hide Civil, NextDay;
    var days := e / 86400;
    LastFourDigitDay();
    CivilIsStepping(days);
    CivilIsStepping(2932896);
    CivilIsStepping(2932897);
    if days < 2932896 {
      LaterDaysFollow(days, 2932896);
    } else if days > 2932897 {
      LaterDaysFollow(2932897, days);
    }
  }

  /** Up to the year 9999 timestamps order, as text, exactly as the instants do. */
  lemma TimestampOrder(e: nat, e': nat)
    requires e < YEAR_10000 && e' < YEAR_10000
    ensures LexLess(ClaimedAt(e), ClaimedAt(e')) <==> e < e'
  {
    hide Civil, NextDay, Leap, DaysInMonth, Padded, Fixed;
    FourDigitYears(e);
    FourDigitYears(e');
    CivilIsStepping(e / 86400);
    CivilIsStepping(e' / 86400);
    SteppingValid(e / 86400);
    SteppingValid(e' / 86400);
    var d, d' := DateAfter(e / 86400), DateAfter(e' / 86400);
    var f, g := Fields(d, e % 86400), Fields(d', e' % 86400);
    FormatIsText(d, e % 86400);
    FormatIsText(d', e' % 86400);
    TextOrder(f, g);
    SixFields(f, g);
    SixFields(g, f);
    if e < e' {
      FieldsOrder(e, e');
    } else if e' < e {
      FieldsOrder(e', e);
    }
  }
}
