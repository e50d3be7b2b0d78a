/** Day numbers and calendar dates of ECMA-262 section 21.4.1: each determines the other. */
module Calendar {
  predicate Leap(y: int) { y % 4 == 0 && (y % 100 != 0 || y % 400 == 0) }

  function DaysInYear(y: int): int { if Leap(y) then 366 else 365 }

  /** The day number of 1 January of a year (section 21.4.1.6). */
  function DayFromYear(y: int): int {
    365 * (y - 1970) + (y - 1969) / 4 - (y - 1901) / 100 + (y - 1601) / 400
  }

  lemma FloorStep4(x: int) ensures (x + 1) / 4 == x / 4 + if (x + 1) % 4 == 0 then 1 else 0 {}
  lemma FloorStep100(x: int) ensures (x + 1) / 100 == x / 100 + if (x + 1) % 100 == 0 then 1 else 0 {}
  lemma FloorStep400(x: int) ensures (x + 1) / 400 == x / 400 + if (x + 1) % 400 == 0 then 1 else 0 {}

  lemma Shift4(y: int) ensures (y - 1968) % 4 == 0 <==> y % 4 == 0 {}
  lemma Shift100(y: int) ensures (y - 1900) % 100 == 0 <==> y % 100 == 0 {}
  lemma Shift400(y: int) ensures (y - 1600) % 400 == 0 <==> y % 400 == 0 {}

  lemma Century(y: int)
    requires y % 100 == 0
    ensures y % 4 == 0
  {
    var q := y / 100;
    assert y == 4 * (25 * q);
  }

  lemma FourCenturies(y: int)
    requires y % 400 == 0
    ensures y % 100 == 0
  {
    var q := y / 400;
    assert y == 100 * (4 * q);
  }

  lemma YearLength(y: int)
    ensures DayFromYear(y + 1) == DayFromYear(y) + DaysInYear(y)
  {
    FloorStep4(y - 1969);
    FloorStep100(y - 1901);
    FloorStep400(y - 1601);
    Shift4(y);
    Shift100(y);
    Shift400(y);
    if y % 100 == 0 { Century(y); }
    if y % 400 == 0 { FourCenturies(y); }
  }

  lemma {:induction false} YearsIncrease(y: int, z: int)
    requires y < z
    ensures DayFromYear(y) + 365 <= DayFromYear(z)
    decreases z - y
  {
    YearLength(z - 1);
    if y < z - 1 { YearsIncrease(y, z - 1); }
  }

  function YearFrom(d: int, y: int): (r: int)
    ensures DayFromYear(r) <= d < DayFromYear(r + 1)
    decreases d < DayFromYear(y), if d < DayFromYear(y) then DayFromYear(y) - d else d - DayFromYear(y)
  {
    YearLength(y);
    YearLength(y - 1);
    if d < DayFromYear(y) then YearFrom(d, y - 1)
    else if d >= DayFromYear(y + 1) then YearFrom(d, y + 1)
    else y
  }

  /** The year a day falls in (section 21.4.1.8). */
  function YearOf(d: int): (r: int)
    ensures DayFromYear(r) <= d < DayFromYear(r + 1)
  {
    YearFrom(d, 1970)
  }

  lemma YearOfUnique(d: int, y: int)
    requires DayFromYear(y) <= d < DayFromYear(y + 1)
    ensures YearOf(d) == y
  {
    if YearOf(d) < y && YearOf(d) + 1 < y { YearsIncrease(YearOf(d) + 1, y); }
    if y < YearOf(d) && y + 1 < YearOf(d) { YearsIncrease(y + 1, YearOf(d)); }
  }

  lemma YearOfMonotone(d: int, e: int)
    requires d <= e
    ensures YearOf(d) <= YearOf(e)
  {
    if YearOf(e) + 1 < YearOf(d) { YearsIncrease(YearOf(e) + 1, YearOf(d)); }
  }

  /** The day of the year on which month `m` (0 to 12) starts. */
  function MonthStart(leap: bool, m: int): int {
    var l := if leap then 1 else 0;
    if m <= 0 then 0
    else if m == 1 then 31
    else if m == 2 then 59 + l
    else if m == 3 then 90 + l
    else if m == 4 then 120 + l
    else if m == 5 then 151 + l
    else if m == 6 then 181 + l
    else if m == 7 then 212 + l
    else if m == 8 then 243 + l
    else if m == 9 then 273 + l
    else if m == 10 then 304 + l
    else if m == 11 then 334 + l
    else 365 + l
  }

  function DaysInMonth(y: int, m: int): int { MonthStart(Leap(y), m + 1) - MonthStart(Leap(y), m) }

  /** Months count from 0, days from 1, as `Date` does. */
  datatype Date = Date(year: int, month: int, day: int)

  /** A date of the proleptic Gregorian calendar. */
  predicate RealDate(c: Date) {
    0 <= c.month < 12 && 1 <= c.day <= DaysInMonth(c.year, c.month)
  }

  function MonthOf(leap: bool, n: int): (m: int)
    requires 0 <= n < MonthStart(leap, 12)
    ensures 0 <= m < 12 && MonthStart(leap, m) <= n < MonthStart(leap, m + 1)
  {
    if n < 31 then 0
    else if n < MonthStart(leap, 2) then 1
    else if n < MonthStart(leap, 3) then 2
    else if n < MonthStart(leap, 4) then 3
    else if n < MonthStart(leap, 5) then 4
    else if n < MonthStart(leap, 6) then 5
    else if n < MonthStart(leap, 7) then 6
    else if n < MonthStart(leap, 8) then 7
    else if n < MonthStart(leap, 9) then 8
    else if n < MonthStart(leap, 10) then 9
    else if n < MonthStart(leap, 11) then 10
    else 11
  }

  /** `getUTCFullYear`, `getUTCMonth` and `getUTCDate` of a day. */
  function DateOf(d: int): (c: Date)
  {
    var y := YearOf(d);
    YearLength(y);
    var n := d - DayFromYear(y);
    var m := MonthOf(Leap(y), n);
    Date(y, m, n - MonthStart(Leap(y), m) + 1)
  }

  /** `MakeDay` (section 21.4.1.28): months and days may overflow in either direction. */
  function MakeDay(year: int, month: int, day: int): int {
    var y := year + month / 12;
    DayFromYear(y) + MonthStart(Leap(y), month % 12) + day - 1
  }

  lemma DateOfIsReal(d: int)
    ensures RealDate(DateOf(d))
    ensures var c := DateOf(d); MakeDay(c.year, c.month, c.day) == d
  {
  }

  lemma MonthsIncrease(leap: bool, m: int, n: int)
    requires 0 <= m < n <= 12
    ensures MonthStart(leap, m) + 28 <= MonthStart(leap, n)
  {
  }

  lemma MonthOfUnique(leap: bool, n: int, m: int)
    requires 0 <= m < 12 && MonthStart(leap, m) <= n < MonthStart(leap, m + 1) && 0 <= n < MonthStart(leap, 12)
    ensures MonthOf(leap, n) == m
  {
    var r := MonthOf(leap, n);
    if r < m && r + 1 < m { MonthsIncrease(leap, r + 1, m); }
    if m < r && m + 1 < r { MonthsIncrease(leap, m + 1, r); }
  }

  lemma MonthOfMonotone(leap: bool, n: int, k: int)
    requires 0 <= n <= k < MonthStart(leap, 12)
    ensures MonthOf(leap, n) <= MonthOf(leap, k)
  {
    if MonthOf(leap, k) + 1 < MonthOf(leap, n) { MonthsIncrease(leap, MonthOf(leap, k) + 1, MonthOf(leap, n)); }
  }

  lemma DayOfYearBounds(c: Date)
    requires RealDate(c)
    ensures var n := MonthStart(Leap(c.year), c.month) + c.day - 1;
            && MonthStart(Leap(c.year), c.month) <= n < MonthStart(Leap(c.year), c.month + 1)
            && 0 <= n < MonthStart(Leap(c.year), 12) == DaysInYear(c.year)
  {
    if c.month + 1 < 12 { MonthsIncrease(Leap(c.year), c.month + 1, 12); }
    if 0 < c.month { MonthsIncrease(Leap(c.year), 0, c.month); }
  }

  /** Every real date is the date of its own day: `MakeDay` and `DateOf` undo each other. */
  lemma DateOfMakeDay(c: Date)
    requires RealDate(c)
    ensures DateOf(MakeDay(c.year, c.month, c.day)) == c
  {
    var d := MakeDay(c.year, c.month, c.day);
    DayOfYearBounds(c);
    YearLength(c.year);
    assert c.month / 12 == 0 && c.month % 12 == c.month;
    YearOfUnique(d, c.year);
    MonthOfUnique(Leap(c.year), d - DayFromYear(c.year), c.month);
  }

  /** Chronological order of dates. */
  predicate Earlier(a: Date, b: Date) {
    a.year < b.year || (a.year == b.year && (a.month < b.month || (a.month == b.month && a.day < b.day)))
  }

  lemma EarlierDay(d: int, e: int)
    requires d < e
    ensures Earlier(DateOf(d), DateOf(e))
  {
    YearOfMonotone(d, e);
    var a, b := DateOf(d), DateOf(e);
    if a.year == b.year {
      YearLength(a.year);
      MonthOfMonotone(Leap(a.year), d - DayFromYear(a.year), e - DayFromYear(a.year));
    }
  }

  // ---------- the civil calendar, in its own numbers ----------

  /** How long the months are: month 0 is January. */
  lemma MonthLengthLaw(y: int, m: int)
    requires 0 <= m < 12
    ensures m in {3, 5, 8, 10} ==> DaysInMonth(y, m) == 30
    ensures m == 1 ==> DaysInMonth(y, m) == if (y % 4 == 0 && y % 100 != 0) || y % 400 == 0 then 29 else 28
    ensures m !in {1, 3, 5, 8, 10} ==> DaysInMonth(y, m) == 31
  {
    if y % 400 == 0 {
      FourCenturies(y);
      Century(y);
    }
  }

  /** Day 0 is 1 January 1970. */
  lemma Epoch()
    ensures MakeDay(1970, 0, 1) == 0
  {
  }

  /** Whether a date exists, in its own numbers. */
  lemma RealDateLaw(y: int, m: int, d: int)
    ensures RealDate(Date(y, m, d)) <==>
      && 0 <= m < 12
      && 1 <= d <= if m in {3, 5, 8, 10} then 30
                   else if m != 1 then 31
                   else if (y % 4 == 0 && y % 100 != 0) || y % 400 == 0 then 29
                   else 28
  {
    if 0 <= m < 12 { MonthLengthLaw(y, m); }
  }

  /** The next day of the month, the first of the next month, or New Year. */
  function Next(c: Date): Date {
    if c.day < DaysInMonth(c.year, c.month) then Date(c.year, c.month, c.day + 1)
    else if c.month < 11 then Date(c.year, c.month + 1, 1)
    else Date(c.year + 1, 0, 1)
  }

  lemma MonthFits(m: int)
    requires 0 <= m < 12
    ensures m / 12 == 0 && m % 12 == m
  {
  }

  lemma NextIsNextDay(c: Date)
    requires RealDate(c)
    ensures RealDate(Next(c))
    ensures MakeDay(Next(c).year, Next(c).month, Next(c).day) == MakeDay(c.year, c.month, c.day) + 1
  {
    MonthFits(c.month);
    if c.day == DaysInMonth(c.year, c.month) {
      if c.month < 11 { FirstOfNextMonth(c); } else { NewYear(c); }
    }
  }

  lemma FirstOfNextMonth(c: Date)
    requires RealDate(c) && c.day == DaysInMonth(c.year, c.month) && c.month < 11
    ensures RealDate(Date(c.year, c.month + 1, 1))
    ensures MakeDay(c.year, c.month + 1, 1) == MakeDay(c.year, c.month, c.day) + 1
  {
    MonthFits(c.month);
    MonthFits(c.month + 1);
    MonthLengthLaw(c.year, c.month + 1);
  }

  lemma NewYear(c: Date)
    requires RealDate(c) && c.day == DaysInMonth(c.year, c.month) && c.month == 11
    ensures MakeDay(c.year + 1, 0, 1) == MakeDay(c.year, c.month, c.day) + 1
  {
    YearLength(c.year);
  }

  /** The day after a date is its civil successor. */
  lemma NextDay(c: Date)
    requires RealDate(c)
    ensures DateOf(MakeDay(c.year, c.month, c.day) + 1) == Next(c)
  {
    NextIsNextDay(c);
    DateOfMakeDay(Next(c));
  }
}
