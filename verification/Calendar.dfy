/**
 The date arithmetic that JavaScript's Date performs, in a zone with a fixed offset from UTC
 (sections 15.9.1.2 to 15.9.1.13 of ECMA-262, edition 5.1).

 Instants are integer milliseconds since the epoch. Dafny's `/` and `%` floor when the divisor
 is positive, which is what the standard's Day, modulo and floor ask for.
 */
module Calendar {

  const MS_PER_DAY: int := 86_400_000

  // ---- Day numbers and years ------------------------------------------------------------

  function Day(t: int): int { t / MS_PER_DAY }

  function TimeWithinDay(t: int): int { t % MS_PER_DAY }

  function MakeDate(day: int, time: int): int { day * MS_PER_DAY + time }

  predicate IsLeap(y: int) { y % 4 == 0 && (y % 100 != 0 || y % 400 == 0) }

  function DaysInYear(y: int): int { if IsLeap(y) then 366 else 365 }

  function DayFromYear(y: int): int {
    365 * (y - 1970) + (y - 1969) / 4 - (y - 1901) / 100 + (y - 1601) / 400
  }

  lemma Fourths(y: int)
    ensures (y - 1968) / 4 == (y - 1969) / 4 + if y % 4 == 0 then 1 else 0
  {
  }

  lemma Hundredths(y: int)
    ensures (y - 1900) / 100 == (y - 1901) / 100 + if y % 100 == 0 then 1 else 0
  {
  }

  lemma FourHundredths(y: int)
    ensures (y - 1600) / 400 == (y - 1601) / 400 + if y % 400 == 0 then 1 else 0
  {
  }

  lemma HundredthsAreFourths(y: int)
    ensures y % 400 == 0 ==> y % 100 == 0
    ensures y % 100 == 0 ==> y % 4 == 0
  {
  }

  lemma YearLength(y: int)
    ensures DayFromYear(y + 1) == DayFromYear(y) + DaysInYear(y)
  {
    Fourths(y);
    Hundredths(y);
    FourHundredths(y);
    HundredthsAreFourths(y);
    DaysAdd(y, (y - 1969) / 4, (y - 1901) / 100, (y - 1601) / 400);
  }

  lemma DaysAdd(y: int, a: int, b: int, c: int)
    requires a == (y - 1969) / 4 && b == (y - 1901) / 100 && c == (y - 1601) / 400
    requires (y - 1968) / 4 == a + if y % 4 == 0 then 1 else 0
    requires (y - 1900) / 100 == b + if y % 100 == 0 then 1 else 0
    requires (y - 1600) / 400 == c + if y % 400 == 0 then 1 else 0
    requires (y % 400 == 0 ==> y % 100 == 0) && (y % 100 == 0 ==> y % 4 == 0)
    ensures DayFromYear(y + 1) == DayFromYear(y) + DaysInYear(y)
  {
    assert DayFromYear(y) == 365 * (y - 1970) + a - b + c;
  }

  /** The largest year, at or after `y`, that has begun by day `d`. */
  function YearFrom(y: int, d: int): (r: int)
    requires DayFromYear(y) <= d
    ensures DayFromYear(r) <= d < DayFromYear(r + 1)
    decreases d - DayFromYear(y)
  {
    YearLength(y);
    if DayFromYear(y + 1) <= d then YearFrom(y + 1, d) else y
  }

  /** YearFromTime on day numbers: the year in which day `d` falls. */
  function YearOf(d: int): (y: int)
    ensures DayFromYear(y) <= d < DayFromYear(y) + DaysInYear(y)
  {
    var guess := 1970 + (if d >= 0 then d / 366 else d / 365 - 1);
    GuessIsEarly(d);
    var y := YearFrom(guess, d);
    YearLength(y);
    y
  }

  lemma GuessIsEarly(d: int)
    ensures DayFromYear(1970 + (if d >= 0 then d / 366 else d / 365 - 1)) <= d
  {
    var k := if d >= 0 then d / 366 else d / 365 - 1;
    assert (k + 1) / 4 - (k + 69) / 100 + (k + 369) / 400 <= (if k >= 0 then k else 1);
  }

  lemma {:induction false} YearsIncrease(y: int, z: int)
    requires y < z
    ensures DayFromYear(y) + DaysInYear(y) <= DayFromYear(z)
    decreases z - y
  {
    YearLength(y);
    if y + 1 < z { YearsIncrease(y + 1, z); }
  }

  lemma YearOfIsUnique(d: int, y: int)
    requires DayFromYear(y) <= d < DayFromYear(y) + DaysInYear(y)
    ensures YearOf(d) == y
  {
    var r := YearOf(d);
    if r < y { YearsIncrease(r, y); }
    if y < r { YearsIncrease(y, r); }
  }

  // ---- Months and dates -----------------------------------------------------------------

  type Month = m: int | 0 <= m <= 11

  /** Days of the year before month `m` (0 is January); month 12 stands for the year's end. */
  function DaysBefore(m: int, leap: bool): int
    requires 0 <= m <= 12
  {
    var l := if leap then 1 else 0;
    if m == 0 then 0 else if m == 1 then 31 else
      l + (if m == 2 then 59 else if m == 3 then 90 else if m == 4 then 120 else if m == 5 then 151
           else if m == 6 then 181 else if m == 7 then 212 else if m == 8 then 243 else if m == 9 then 273
           else if m == 10 then 304 else if m == 11 then 334 else 365)
  }

  function MonthWithin(dayOfYear: int, leap: bool): (m: Month)
    requires 0 <= dayOfYear < DaysBefore(12, leap)
    ensures DaysBefore(m, leap) <= dayOfYear < DaysBefore(m + 1, leap)
  {
    if dayOfYear < DaysBefore(1, leap) then 0
    else if dayOfYear < DaysBefore(2, leap) then 1
    else if dayOfYear < DaysBefore(3, leap) then 2
    else if dayOfYear < DaysBefore(4, leap) then 3
    else if dayOfYear < DaysBefore(5, leap) then 4
    else if dayOfYear < DaysBefore(6, leap) then 5
    else if dayOfYear < DaysBefore(7, leap) then 6
    else if dayOfYear < DaysBefore(8, leap) then 7
    else if dayOfYear < DaysBefore(9, leap) then 8
    else if dayOfYear < DaysBefore(10, leap) then 9
    else if dayOfYear < DaysBefore(11, leap) then 10
    else 11
  }

  function MonthOf(d: int): Month {
    var y := YearOf(d);
    MonthWithin(d - DayFromYear(y), IsLeap(y))
  }

  /** DateFromTime on day numbers: 1 for the first of the month. */
  function DateOf(d: int): (n: int)
    ensures 1 <= n <= 31
  {
    var y := YearOf(d);
    d - DayFromYear(y) - DaysBefore(MonthOf(d), IsLeap(y)) + 1
  }

  /** 0 is Sunday. */
  function WeekDay(d: int): int { (d + 4) % 7 }

  /** MakeDay: `m` may lie outside 0..11 and `date` outside the month. */
  function MakeDay(y: int, m: int, date: int): int {
    var ym := y + m / 12;
    DayFromYear(ym) + DaysBefore(m % 12, IsLeap(ym)) + date - 1
  }

  lemma MakeDayInverts(d: int, k: int)
    ensures MakeDay(YearOf(d), MonthOf(d), DateOf(d) + k) == d + k
  {
    hide DayFromYear, DaysBefore, IsLeap;
  }

  // ---- The proleptic Gregorian calendar, counted day by day -----------------------------

  /** A calendar date; `month` counts from 0. */
  datatype Civil = Civil(year: int, month: Month, date: int)

  function CivilOf(d: int): Civil { Civil(YearOf(d), MonthOf(d), DateOf(d)) }

  function DaysInMonth(y: int, m: Month): int {
    if m == 1 then (if IsLeap(y) then 29 else 28)
    else if m == 3 || m == 5 || m == 8 || m == 10 then 30
    else 31
  }

  /** The next date as anyone counts it, with no day numbers involved. */
  function Tomorrow(c: Civil): Civil {
    if c.date < DaysInMonth(c.year, c.month) then c.(date := c.date + 1)
    else if c.month < 11 then Civil(c.year, c.month + 1, 1)
    else Civil(c.year + 1, 0, 1)
  }

  lemma MonthLength(y: int, m: Month)
    ensures DaysBefore(m + 1, IsLeap(y)) == DaysBefore(m, IsLeap(y)) + DaysInMonth(y, m)
  {
  }

  lemma CivilIsUnique(d: int, c: Civil)
    requires 1 <= c.date <= DaysInMonth(c.year, c.month)
    requires d == DayFromYear(c.year) + DaysBefore(c.month, IsLeap(c.year)) + c.date - 1
    ensures CivilOf(d) == c
  {
    hide DayFromYear, IsLeap;
    MonthLength(c.year, c.month);
    YearOfIsUnique(d, c.year);
  }

  lemma TomorrowIsNextDay(c: Civil)
    requires 1 <= c.date <= DaysInMonth(c.year, c.month)
    ensures var n := Tomorrow(c);
            && 1 <= n.date <= DaysInMonth(n.year, n.month)
            && DayFromYear(n.year) + DaysBefore(n.month, IsLeap(n.year)) + n.date
               == DayFromYear(c.year) + DaysBefore(c.month, IsLeap(c.year)) + c.date + 1
  {
    MonthLength(c.year, c.month);
    YearLength(c.year);
  }

  lemma CivilOfDay(d: int)
    ensures var c := CivilOf(d);
            && 1 <= c.date <= DaysInMonth(c.year, c.month)
            && d == DayFromYear(c.year) + DaysBefore(c.month, IsLeap(c.year)) + c.date - 1
  {
    MonthLength(YearOf(d), MonthOf(d));
  }

  /** Day numbers follow the calendar: this fixes CivilOf on every day, leap years included. */
  lemma DayNumbersCountDates(d: int)
    ensures CivilOf(0) == Civil(1970, 0, 1)
    ensures CivilOf(d + 1) == Tomorrow(CivilOf(d))
  {
    CivilIsUnique(0, Civil(1970, 0, 1));
    CivilOfDay(d);
    TomorrowIsNextDay(CivilOf(d));
    CivilIsUnique(d + 1, Tomorrow(CivilOf(d)));
  }
}
