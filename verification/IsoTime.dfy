/** Time values and their ISO texts (ECMA-262 sections 21.4.1.32 and 21.4.4.36). */
module IsoTime {
  import opened Texts
  import opened Calendar
  import opened Numerals

  const MS_PER_DAY := 86_400_000
  const MAX_TIME := 8_640_000_000_000_000

  /** A finite time value: milliseconds within 100 million days of 1970. */
  type Time = t: int | -8_640_000_000_000_000 <= t <= 8_640_000_000_000_000

  function Year(t: Time): int { DateOf(t / MS_PER_DAY).year }

  const PLUS: Unit := 0x2B
  const MINUS: Unit := 0x2D
  const ZULU: Str := [0x5A]

  /** `-MM-DDTHH:mm:ss.sss` */
  const SHAPE: seq<Column> := [
    Column(0x2D, 2), Column(0x2D, 2), Column(0x54, 2), Column(0x3A, 2), Column(0x3A, 2), Column(0x2E, 3)]

  function ClockFields(c: Date, ms: int): (r: seq<nat>)
    requires RealDate(c) && 0 <= ms < MS_PER_DAY
    ensures |r| == 6
  {
    [c.month + 1, c.day, ms / 3_600_000, ms / 60_000 % 60, ms / 1000 % 60, ms % 1000]
  }

  function Clock(t: Time): (r: seq<nat>)
    ensures |r| == 6
  {
    DateOfIsReal(t / MS_PER_DAY);
    ClockFields(DateOf(t / MS_PER_DAY), t % MS_PER_DAY)
  }

  /** Four digits for the years 0 to 9999, a sign and six digits for all others. */
  function YearText(y: int): Str {
    if 0 <= y <= 9999 then Pad(y, 4)
    else if y > 9999 then [PLUS] + Pad(y, 6)
    else [MINUS] + Pad(-y, 6)
  }

  function ToIso(t: Time): Str {
    YearText(Year(t)) + Print(SHAPE, Clock(t)) + ZULU
  }

  function AfterYear(t: Time): (s: Str) { Print(SHAPE, Clock(t)) + ZULU }

  lemma IsoSplits(t: Time)
    ensures ToIso(t) == YearText(Year(t)) + AfterYear(t)
    ensures AfterYear(t) != [] && AfterYear(t)[0] == MINUS
  {
  }

  // ---------- reading a text back ----------

  function ReadYear(s: Str): Option<(int, Str)> {
    if |s| > 6 && s[0] in {PLUS, MINUS} && AllDigits(s[1..7]) then
      var y: int := Decimal(s[1..7]);
      if s[0] == PLUS then Some((y, s[7..]))
      else if y == 0 then None
      else Some((-y, s[7..]))
    else if |s| > 3 && AllDigits(s[..4]) then Some((Decimal(s[..4]), s[4..]))
    else None
  }

  function Assemble(y: int, v: seq<nat>): int
    requires |v| == 6
  {
    var month: int := v[0];
    MakeDay(y, month - 1, v[1]) * MS_PER_DAY + v[2] * 3_600_000 + v[3] * 60_000 + v[4] * 1000 + v[5]
  }

  /** The full date-time form; months, days and clock fields must be in range. */
  function ReadIso(s: Str): Option<Time> {
    match ReadYear(s)
    case None => None
    case Some((y, rest)) =>
      match Read(SHAPE, rest)
      case None => None
      case Some((v, end)) =>
        var month: int := v[0];
        if end == ZULU && RealDate(Date(y, month - 1, v[1])) && v[2] < 24 && v[3] < 60 && v[4] < 60
           && -MAX_TIME <= Assemble(y, v) <= MAX_TIME
        then Some(Assemble(y, v))
        else None
  }

  lemma Powers()
    ensures Pow10(2) == 100 && Pow10(3) == 1000 && Pow10(4) == 10_000 && Pow10(6) == 1_000_000
  {
    assert Pow10(1) == 10 && Pow10(2) == 100 && Pow10(3) == 1000 && Pow10(4) == 10_000 && Pow10(5) == 100_000;
  }

  lemma YearRange(t: Time)
    ensures -271_821 <= Year(t) <= 275_760
  {
    var d := t / MS_PER_DAY;
    if Year(t) > 275_760 && Year(t) > 275_761 { YearsIncrease(275_761, Year(t)); }
    if Year(t) < -271_821 && Year(t) + 1 < -271_821 { YearsIncrease(Year(t) + 1, -271_821); }
  }

  lemma ClockParts(ms: int)
    requires 0 <= ms < MS_PER_DAY
    ensures ms / 3_600_000 < 24
    ensures ms == ms / 3_600_000 * 3_600_000 + ms / 60_000 % 60 * 60_000 + ms / 1000 % 60 * 1000 + ms % 1000
  {
    var s, m := ms / 1000, ms / 60_000;
    assert m == s / 60 && ms / 3_600_000 == m / 60;
  }

  lemma MonthLengths(y: int, m: int)
    requires 0 <= m < 12
    ensures 28 <= DaysInMonth(y, m) <= 31
  {
  }

  lemma ClockFits(t: Time)
    ensures Fits(SHAPE, Clock(t))
  {
    Powers();
    var c := DateOf(t / MS_PER_DAY);
    DateOfIsReal(t / MS_PER_DAY);
    MonthLengths(c.year, c.month);
    ClockParts(t % MS_PER_DAY);
  }

  lemma AssembleClock(t: Time)
    ensures Assemble(Year(t), Clock(t)) == t
  {
    var d, ms := t / MS_PER_DAY, t % MS_PER_DAY;
    var c, v := DateOf(d), Clock(t);
    DateOfIsReal(d);
    ClockParts(ms);
    assert MakeDay(c.year, v[0] - 1, v[1]) == d;
    assert v[2] * 3_600_000 + v[3] * 60_000 + v[4] * 1000 + v[5] == ms;
  }

  lemma ReadShortYear(y: int, rest: Str)
    requires 0 <= y <= 9999
    ensures ReadYear(Pad(y, 4) + rest) == Some((y, rest))
  {
    Powers();
    var s := Pad(y, 4) + rest;
    assert s[..4] == Pad(y, 4) && s[4..] == rest;
    assert Digit(Pad(y, 4)[0]);
    ValueOfPad(y, 4);
  }

  lemma ReadSignedYear(sign: Unit, n: int, rest: Str)
    requires sign in {PLUS, MINUS} && 0 < n < 1_000_000
    ensures ReadYear([sign] + Pad(n, 6) + rest) == Some((if sign == PLUS then n else -n, rest))
  {
    Powers();
    var s := [sign] + Pad(n, 6) + rest;
    assert s[1..7] == Pad(n, 6) && s[7..] == rest;
    ValueOfPad(n, 6);
  }

  lemma ReadYearText(y: int, rest: Str)
    requires -1_000_000 < y < 1_000_000
    ensures ReadYear(YearText(y) + rest) == Some((y, rest))
  {
    if 0 <= y <= 9999 { ReadShortYear(y, rest); }
    else if y > 9999 { ReadSignedYear(PLUS, y, rest); }
    else { ReadSignedYear(MINUS, -y, rest); }
  }

  /** Reading what `toISOString` prints gives back the instant, for every time value. */
  lemma ReadIsoText(t: Time)
    ensures ReadIso(ToIso(t)) == Some(t)
  {
    YearRange(t);
    ClockFits(t);
    AssembleClock(t);
    IsoSplits(t);
    ReadYearText(Year(t), AfterYear(t));
    ReadPrint(SHAPE, Clock(t), ZULU);
    DateOfIsReal(t / MS_PER_DAY);
    ClockParts(t % MS_PER_DAY);
  }

  // ---------- canonicalTimestamp ----------

  /** `Date.parse`: the full form by the standard, any other text by the engine. */
  function DateParse(s: Str, other: Str -> Option<Time>): Option<Time> {
    if ReadIso(s).Some? then ReadIso(s) else other(s)
  }

  predicate CanonicalTimestamp(s: Str, other: Str -> Option<Time>) {
    s != [] && DateParse(s, other).Some? && ToIso(DateParse(s, other).value) == s
  }

  lemma ParsesPrinted(t: Time, other: Str -> Option<Time>)
    ensures ToIso(t) != [] && DateParse(ToIso(t), other) == Some(t)
  {
    ReadIsoText(t);
    IsoSplits(t);
  }

  /** Accepted texts are exactly the printed ones, whatever the engine does with other texts. */
  lemma CanonicalIffPrinted(s: Str, other: Str -> Option<Time>)
    ensures CanonicalTimestamp(s, other) <==> exists t: Time :: ToIso(t) == s
  {
    if t: Time :| ToIso(t) == s {
      ParsesPrinted(t, other);
      assert CanonicalTimestamp(s, other);
    }
  }

  /** Accepted texts and instants correspond one to one. */
  lemma CanonicalInjective(s: Str, s': Str, other: Str -> Option<Time>)
    requires CanonicalTimestamp(s, other) && CanonicalTimestamp(s', other)
    ensures DateParse(s, other) == DateParse(s', other) <==> s == s'
  {
  }

  // ---------- the order of the texts ----------

  /** Texts of positive extended years come first, then negative years, then the years 0 to 9999. */
  function Era(y: int): int { if y > 9999 then 0 else if y < 0 then 1 else 2 }

  /** Where an instant stands among sorted texts; negative years run backwards. */
  predicate TextBefore(t: Time, u: Time) {
    || Era(Year(t)) < Era(Year(u))
    || (Era(Year(t)) == Era(Year(u)) && Year(t) == Year(u) && t < u)
    || (Era(Year(t)) == Era(Year(u)) && (if Year(t) < 0 then Year(u) < Year(t) else Year(t) < Year(u)))
  }

  lemma LaterDayLaterFields(t: Time, u: Time)
    requires Year(t) == Year(u) && t / MS_PER_DAY < u / MS_PER_DAY
    ensures Precedes(Clock(t), Clock(u))
  {
    EarlierDay(t / MS_PER_DAY, u / MS_PER_DAY);
    var a, b := Clock(t), Clock(u);
    if a[0] < b[0] { PrecedesAt(a, b, 0); } else { PrecedesAt(a, b, 1); }
  }

  lemma LaterClockLaterFields(t: Time, u: Time)
    requires t / MS_PER_DAY == u / MS_PER_DAY && t % MS_PER_DAY < u % MS_PER_DAY
    ensures Precedes(Clock(t), Clock(u))
  {
    var m, n := t % MS_PER_DAY, u % MS_PER_DAY;
    ClockParts(m);
    ClockParts(n);
    var a, b := Clock(t), Clock(u);
    assert a[0] == b[0] && a[1] == b[1];
    if a[2] != b[2] { PrecedesAt(a, b, 2); }
    else if a[3] != b[3] { PrecedesAt(a, b, 3); }
    else if a[4] != b[4] { PrecedesAt(a, b, 4); }
    else { PrecedesAt(a, b, 5); }
  }

  lemma LaterFields(t: Time, u: Time)
    requires Year(t) == Year(u) && t < u
    ensures Precedes(Clock(t), Clock(u))
  {
    if t / MS_PER_DAY == u / MS_PER_DAY { LaterClockLaterFields(t, u); } else { LaterDayLaterFields(t, u); }
  }

  lemma SameYearOrder(t: Time, u: Time)
    requires Year(t) == Year(u) && t < u
    ensures UnitLess(ToIso(t), ToIso(u))
  {
    LaterFields(t, u);
    ClockFits(t);
    ClockFits(u);
    PrintOrder(SHAPE, Clock(t), Clock(u), ZULU);
    IsoSplits(t);
    IsoSplits(u);
    CommonPrefix(YearText(Year(t)), AfterYear(t), AfterYear(u));
  }

  lemma EraTextOrder(y: int, z: int, a: Str, b: Str)
    requires Era(y) < Era(z)
    ensures UnitLess(YearText(y) + a, YearText(z) + b)
  {
    if Era(z) == 2 { assert Digit(Pad(z, 4)[0]); }
    assert (YearText(y) + a)[0] == YearText(y)[0] && (YearText(z) + b)[0] == YearText(z)[0];
  }

  lemma PaddedOrder(prefix: Str, m: nat, n: nat, w: nat, a: Str, b: Str)
    requires m < n < Pow10(w)
    ensures UnitLess(prefix + Pad(m, w) + a, prefix + Pad(n, w) + b)
  {
    PadOrder(m, n, w);
    BlockDecides(Pad(m, w), Pad(n, w), a, b);
    CommonPrefix(prefix, Pad(m, w) + a, Pad(n, w) + b);
    assert prefix + Pad(m, w) + a == prefix + (Pad(m, w) + a) && prefix + Pad(n, w) + b == prefix + (Pad(n, w) + b);
  }

  lemma ShortYearOrder(y: int, z: int, a: Str, b: Str)
    requires 0 <= y < z <= 9999
    ensures UnitLess(YearText(y) + a, YearText(z) + b)
  {
    Powers();
    PadOrder(y, z, 4);
    BlockDecides(Pad(y, 4), Pad(z, 4), a, b);
  }

  lemma SixDigits(n: nat)
    requires n < 1_000_000
    ensures n < Pow10(6)
  {
    Powers();
  }

  lemma SignedYearText(y: int)
    ensures y > 9999 ==> YearText(y) == [PLUS] + Pad(y, 6)
    ensures y < 0 ==> YearText(y) == [MINUS] + Pad(-y, 6)
  {
  }

  lemma LongYearOrder(y: int, z: int, a: Str, b: Str)
    requires 9999 < y < z < 1_000_000
    ensures UnitLess(YearText(y) + a, YearText(z) + b)
  {
    SixDigits(z);
    SignedYearText(y);
    SignedYearText(z);
    PaddedOrder([PLUS], y, z, 6, a, b);
  }

  lemma NegativeYearOrder(y: int, z: int, a: Str, b: Str)
    requires -1_000_000 < z < y < 0
    ensures UnitLess(YearText(y) + a, YearText(z) + b)
  {
    SixDigits(-z);
    SignedYearText(y);
    SignedYearText(z);
    PaddedOrder([MINUS], -y, -z, 6, a, b);
  }

  lemma YearTextOrder(y: int, z: int, a: Str, b: Str)
    requires -1_000_000 < y < 1_000_000 && -1_000_000 < z < 1_000_000
    requires Era(y) < Era(z) || (Era(y) == Era(z) && (if y < 0 then z < y else y < z))
    ensures UnitLess(YearText(y) + a, YearText(z) + b)
  {
    if Era(y) < Era(z) {
      EraTextOrder(y, z, a, b);
    } else if Era(y) == 2 {
      ShortYearOrder(y, z, a, b);
    } else if Era(y) == 1 {
      NegativeYearOrder(y, z, a, b);
    } else {
      LongYearOrder(y, z, a, b);
    }
  }

  lemma TextBeforeSorts(t: Time, u: Time)
    requires TextBefore(t, u)
    ensures UnitLess(ToIso(t), ToIso(u))
  {
    if Year(t) == Year(u) {
      SameYearOrder(t, u);
    } else {
      YearRange(t);
      YearRange(u);
      IsoSplits(t);
      IsoSplits(u);
      YearTextOrder(Year(t), Year(u), AfterYear(t), AfterYear(u));
    }
  }

  lemma YearMonotone(t: Time, u: Time)
    requires t <= u
    ensures Year(t) <= Year(u)
  {
    YearOfMonotone(t / MS_PER_DAY, u / MS_PER_DAY);
  }

  lemma TextBeforeTotal(t: Time, u: Time)
    ensures t == u || TextBefore(t, u) || TextBefore(u, t)
    ensures TextBefore(t, u) ==> !TextBefore(u, t)
  {
  }

  /** The order of two printed texts, for every two instants. */
  lemma TextOrder(t: Time, u: Time)
    ensures UnitLess(ToIso(t), ToIso(u)) <==> TextBefore(t, u)
  {
    TextBeforeTotal(t, u);
    if TextBefore(t, u) {
      TextBeforeSorts(t, u);
    } else if t == u {
      UnitLessIrreflexive(ToIso(t));
    } else {
      TextBeforeSorts(u, t);
      UnitLessAsymmetric(ToIso(u), ToIso(t));
    }
  }

  lemma LaterInCommonEra(t: Time, u: Time)
    requires 0 <= Year(t) <= 9999 && 0 <= Year(u) <= 9999 && t < u
    ensures TextBefore(t, u)
  {
    YearMonotone(t, u);
  }

  /** In the years 0 to 9999 the order of the texts is the order of time. */
  lemma CommonEraOrder(t: Time, u: Time)
    requires 0 <= Year(t) <= 9999 && 0 <= Year(u) <= 9999
    ensures UnitLess(ToIso(t), ToIso(u)) <==> t < u
  {
    TextOrder(t, u);
    TextBeforeTotal(t, u);
    if t < u {
      LaterInCommonEra(t, u);
    } else if u < t {
      LaterInCommonEra(u, t);
    } else {
      UnitLessIrreflexive(ToIso(t));
    }
  }

  // ---------- the format ----------

  lemma PrintFrom(c: seq<Column>, v: seq<nat>, i: nat)
    requires |c| == |v| && i < |c|
    ensures Print(c[i..], v[i..]) == [c[i].sep] + Pad(v[i], c[i].width) + Print(c[i + 1..], v[i + 1..])
  {
    assert c[i..][1..] == c[i + 1..] && v[i..][1..] == v[i + 1..];
  }

  function Field(c: Column, n: nat): Str { [c.sep] + Pad(n, c.width) }

  lemma PrintSix(c: seq<Column>, v: seq<nat>)
    requires |c| == |v| == 6
    ensures Print(c, v) == Field(c[0], v[0]) + (Field(c[1], v[1]) + (Field(c[2], v[2]) + (Field(c[3], v[3])
                             + (Field(c[4], v[4]) + Field(c[5], v[5])))))
  {
    PrintFrom(c, v, 0);
    PrintFrom(c, v, 1);
    PrintFrom(c, v, 2);
    PrintFrom(c, v, 3);
    PrintFrom(c, v, 4);
    PrintFrom(c, v, 5);
    assert c[0..] == c && v[0..] == v && Field(c[5], v[5]) + [] == Field(c[5], v[5]);
  }

  /** Four digits, or a sign and six. */
  lemma YearTextLaw(y: int)
    ensures 0 <= y <= 9999 ==> YearText(y) == Pad(y, 4)
    ensures y > 9999 ==> YearText(y) == S("+") + Pad(y, 6)
    ensures y < 0 ==> YearText(y) == S("-") + Pad(-y, 6)
  {
  }

  /** The printed text, field by field: the civil date of the day, and the clock of the rest of the day. */
  lemma IsoFormat(t: Time)
    ensures var c, ms := DateOf(t / 86_400_000), t % 86_400_000;
      && c.month >= 0 && c.day >= 0
      && ToIso(t) == YearText(c.year)
           + (Dashed(c.month + 1) + (Dashed(c.day) + (S("T") + Pad(ms / 3_600_000, 2)
               + (Colon(ms / 60_000 % 60) + (Colon(ms / 1000 % 60) + (S(".") + Pad(ms % 1000, 3)))))))
           + S("Z")
  {
    var c, ms := DateOf(t / 86_400_000), t % 86_400_000;
    DateOfIsReal(t / 86_400_000);
    PrintSix(SHAPE, ClockFields(c, ms));
    Separators();
  }

  function Dashed(n: nat): Str { S("-") + Pad(n, 2) }
  function Colon(n: nat): Str { S(":") + Pad(n, 2) }

  lemma Separators()
    ensures S("-") == [0x2D] && S("T") == [0x54] && S(":") == [0x3A] && S(".") == [0x2E] && S("Z") == ZULU
  {
  }
}
