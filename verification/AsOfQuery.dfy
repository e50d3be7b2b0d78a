/** The `as_of` query parameter: a calendar date, checked by a trip through `Date.UTC`. */
module AsOfQuery {
  import opened Texts
  import opened Calendar
  import opened Numerals

  datatype AsOf = Absent | Accepted(raw: Str) | BadFormat | BadDate

  const DASH: Unit := 0x2D

  /** `^\d{4}-\d{2}-\d{2}$` */
  predicate DateShaped(s: Str) {
    && |s| == 10 && s[4] == DASH && s[7] == DASH
    && AllDigits(s[..4]) && AllDigits(s[5..7]) && AllDigits(s[8..])
  }

  /** The three numbers as `Date` counts them. */
  function Parts(s: Str): Date
    requires DateShaped(s)
  {
    var month: int := Decimal(s[5..7]);
    Date(Decimal(s[..4]), month - 1, Decimal(s[8..]))
  }

  /** `Date.UTC` reads the years 0 to 99 as 1900 to 1999 (section 21.4.1.30). */
  function FullYear(y: int): int { if 0 <= y <= 99 then 1900 + y else y }

  /** The date that `new Date(Date.UTC(year, month, day))` shows. */
  function UtcTrip(c: Date): Date { DateOf(MakeDay(FullYear(c.year), c.month, c.day)) }

  function QueryAsOf(raw: Option<Str>): AsOf {
    if raw.None? || raw.value == [] then Absent
    else if !DateShaped(raw.value) then BadFormat
    else if UtcTrip(Parts(raw.value)) != Parts(raw.value) then BadDate
    else Accepted(raw.value)
  }

  lemma PartBounds(s: Str)
    requires DateShaped(s)
    ensures 0 <= Parts(s).year <= 9999 && -1 <= Parts(s).month <= 98 && 0 <= Parts(s).day <= 99
  {
    ValueBound(s[..4]);
    ValueBound(s[5..7]);
    ValueBound(s[8..]);
    assert Pow10(1) == 10 && Pow10(2) == 100 && Pow10(3) == 1000;
  }

  /** A two-digit year lands in the twentieth century (or the last days of 1899), never on itself. */
  lemma TwoDigitYearMoves(y: int, month: int, day: int)
    requires 0 <= y <= 99 && -1 <= month <= 98 && 0 <= day <= 99
    ensures UtcTrip(Date(y, month, day)).year >= 1899
  {
    var first := 1900 + y + month / 12;
    if 1899 < first { YearsIncrease(1899, first); }
    if first == 1899 { assert month % 12 == 11; }
    var d := MakeDay(FullYear(y), month, day);
    assert d >= DayFromYear(1899);
    if YearOf(d) + 1 < 1899 { YearsIncrease(YearOf(d) + 1, 1899); }
  }

  /** The trip through `Date.UTC` changes some component unless the date is real and its year has three digits. */
  lemma TripKeepsRealDates(c: Date)
    requires 0 <= c.year <= 9999 && -1 <= c.month <= 98 && 0 <= c.day <= 99
    ensures UtcTrip(c) == c <==> c.year >= 100 && RealDate(c)
  {
    if c.year < 100 {
      TwoDigitYearMoves(c.year, c.month, c.day);
    } else if RealDate(c) {
      DateOfMakeDay(c);
    } else {
      DateOfIsReal(MakeDay(FullYear(c.year), c.month, c.day));
    }
  }

  /** The number that two digits of a text write. */
  function TwoDigits(s: Str, i: nat): int
    requires i + 1 < |s|
  {
    var tens: int, ones: int := s[i], s[i + 1];
    10 * (tens - 0x30) + (ones - 0x30)
  }

  lemma DecimalOfTwo(s: Str)
    requires |s| == 2 && AllDigits(s)
    ensures Decimal(s) == TwoDigits(s, 0)
  {
    assert s[..1][..0] == [];
    assert Decimal(s[..1]) == s[0] - 0x30;
  }

  lemma DecimalOfFour(s: Str)
    requires |s| == 4 && AllDigits(s)
    ensures Decimal(s) == 100 * TwoDigits(s, 0) + TwoDigits(s, 2)
  {
    assert s[..3][..2] == s[..2];
    DecimalOfTwo(s[..2]);
    assert Decimal(s[..3]) == 10 * Decimal(s[..2]) + (s[2] - 0x30);
  }

  lemma PartsAre(s: Str)
    requires DateShaped(s)
    ensures Parts(s) == Date(100 * TwoDigits(s, 0) + TwoDigits(s, 2), TwoDigits(s, 5) - 1, TwoDigits(s, 8))
  {
    DecimalOfFour(s[..4]);
    DecimalOfTwo(s[5..7]);
    DecimalOfTwo(s[8..]);
  }

  /** Four digits, two digits and two digits with dashes between them. */
  predicate WrittenDate(s: Str) {
    && |s| == 10 && s[4] == 0x2D && s[7] == 0x2D
    && forall i | i in {0, 1, 2, 3, 5, 6, 8, 9} :: 0x30 <= s[i] <= 0x39
  }

  lemma ShapeIsWritten(s: Str)
    ensures DateShaped(s) <==> WrittenDate(s)
  {
    if WrittenDate(s) {
      assert AllDigits(s[..4]) && AllDigits(s[5..7]) && AllDigits(s[8..]);
    }
    if DateShaped(s) {
      assert s[0] == s[..4][0] && s[1] == s[..4][1] && s[2] == s[..4][2] && s[3] == s[..4][3];
      assert s[5] == s[5..7][0] && s[6] == s[5..7][1] && s[8] == s[8..][0] && s[9] == s[8..][1];
    }
  }

  lemma AcceptedIffParts(s: Str)
    requires s != []
    ensures QueryAsOf(Some(s)) == Accepted(s) <==> DateShaped(s) && Parts(s).year >= 100 && RealDate(Parts(s))
    ensures QueryAsOf(Some(s)) == BadFormat <==> !DateShaped(s)
  {
    if DateShaped(s) {
      PartBounds(s);
      TripKeepsRealDates(Parts(s));
    }
  }

  /** The year is at least 100, and the month and the day exist in the proleptic Gregorian calendar. */
  predicate CivilDate(y: int, m: int, d: int) {
    && y >= 100 && 1 <= m <= 12
    && 1 <= d <= if m in {4, 6, 9, 11} then 30
                 else if m != 2 then 31
                 else if (y % 4 == 0 && y % 100 != 0) || y % 400 == 0 then 29
                 else 28
  }

  lemma RealIffCivil(y: int, m: int, d: int)
    ensures y >= 100 && RealDate(Date(y, m - 1, d)) <==> CivilDate(y, m, d)
  {
    RealDateLaw(y, m - 1, d);
  }

  /** The numbers of a written date name a date that exists. */
  predicate NamesCivilDate(s: Str)
    requires |s| == 10
  {
    CivilDate(100 * TwoDigits(s, 0) + TwoDigits(s, 2), TwoDigits(s, 5), TwoDigits(s, 8))
  }

  lemma PartsAreCivil(s: Str)
    requires DateShaped(s)
    ensures Parts(s).year >= 100 && RealDate(Parts(s)) <==> NamesCivilDate(s)
  {
    PartsAre(s);
    RealIffCivil(100 * TwoDigits(s, 0) + TwoDigits(s, 2), TwoDigits(s, 5), TwoDigits(s, 8));
  }

  lemma AcceptedIffCivil(s: Str)
    requires DateShaped(s)
    ensures QueryAsOf(Some(s)) == Accepted(s) <==> NamesCivilDate(s)
  {
    PartsAreCivil(s);
    AcceptedIffParts(s);
  }

  /** Accepted exactly: a written date that exists, from the year 100 on. */
  lemma AcceptedIffRealDate(s: Str)
    requires s != []
    ensures QueryAsOf(Some(s)) == Accepted(s) <==> WrittenDate(s) && NamesCivilDate(s)
    ensures QueryAsOf(Some(s)) == BadFormat <==> !WrittenDate(s)
  {
    ShapeIsWritten(s);
    if DateShaped(s) { AcceptedIffCivil(s); }
  }

  /** A missing or empty parameter is no date and no error. */
  lemma AbsentIffEmpty(raw: Option<Str>)
    ensures QueryAsOf(raw) == Absent <==> raw == None || raw == Some([])
  {
  }
}
