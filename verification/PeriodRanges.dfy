/**
 The week, month and day ranges of the reports service and of the metrics service.

 Both build their bounds by moving local JavaScript Date objects; `JsDate` is such an object, in a
 zone `offset` milliseconds ahead of UTC. `Range` is the specification of both, and
 `RangeIsUnit` says what it means: exactly the instants of the same local day, week or month.
 */
module PeriodRanges {
  import opened Calendar
  import opened Wrappers

  datatype Period = Hourly | Daily | Weekly | Monthly | Custom

  datatype Interval = Interval(start: int, end: int)

  predicate In(t: int, r: Interval) { r.start <= t < r.end }

  /** The Date constructor reads the years 0 to 99 as 1900 to 1999. */
  function ConstructorYear(y: int): int { if 0 <= y <= 99 then 1900 + y else y }

  class JsDate {
    var t: int
    const offset: int

    constructor Copy(t: int, offset: int)
      ensures this.t == t && this.offset == offset
    {
      this.t := t;
      this.offset := offset;
    }

    constructor FromFields(year: int, month: int, date: int, offset: int)
      ensures t == MakeDate(MakeDay(ConstructorYear(year), month, date), 0) - offset
      ensures this.offset == offset
    {
      this.t := MakeDate(MakeDay(ConstructorYear(year), month, date), 0) - offset;
      this.offset := offset;
    }

    function LocalDay(): int
      reads this
    {
      Day(t + offset)
    }

    function GetDay(): int
      reads this
    {
      WeekDay(LocalDay())
    }

    function GetDate(): int
      reads this
    {
      DateOf(LocalDay())
    }

    function GetMonth(): int
      reads this
    {
      MonthOf(LocalDay())
    }

    function GetFullYear(): int
      reads this
    {
      YearOf(LocalDay())
    }

    method SetDate(date: int)
      modifies this
      ensures t == old(t) + (date - old(GetDate())) * MS_PER_DAY
    {
      MakeDayInverts(LocalDay(), date - GetDate());
      t := MakeDate(MakeDay(GetFullYear(), GetMonth(), date), TimeWithinDay(t + offset)) - offset;
    }

    /** The latest local midnight, on the same local day. */
    method SetMidnight()
      modifies this
      ensures t == MakeDate(old(LocalDay()), 0) - offset
      ensures LocalDay() == old(LocalDay()) && TimeWithinDay(t + offset) == 0
      ensures old(t) - MS_PER_DAY < t <= old(t)
    {
      t := MakeDate(LocalDay(), 0) - offset;
    }
  }

  function Midnight(day: int, offset: int): int { MakeDate(day, 0) - offset }

  function MondayOnOrBefore(day: int): int { day - (day + 3) % 7 }

  /** The first local day of a calendar period, and the first day after it. */
  function DayRange(period: Period, day: int): (int, int)
    requires IsCalendarPeriod(period)
  {
    match period
    case Daily => (day, day + 1)
    case Weekly => (MondayOnOrBefore(day), MondayOnOrBefore(day) + 7)
    case _ =>
      var y := ConstructorYear(YearOf(day));
      (MakeDay(y, MonthOf(day), 1), MakeDay(y, MonthOf(day) + 1, 1))
  }

  function Range(period: Period, t: int, offset: int): Interval
    requires period != Custom
  {
    if !IsCalendarPeriod(period) then Interval(t - MS_PER_DAY, t) else
    var (first, next) := DayRange(period, Day(t + offset));
    Interval(Midnight(first, offset), Midnight(next, offset))
  }

  predicate IsCalendarPeriod(period: Period) { period == Daily || period == Weekly || period == Monthly }

  lemma MondayByOffset(day: int)
    ensures day + (if WeekDay(day) == 0 then -6 else 1 - WeekDay(day)) == MondayOnOrBefore(day)
  {
  }

  lemma MoveThenMidnight(t: int, days: int, offset: int)
    ensures MakeDate(Day(t + days * MS_PER_DAY + offset), 0) - offset == Midnight(Day(t + offset) + days, offset)
    ensures Day(Midnight(days, offset) + offset) == days
  {
  }

  // ---- The two implementations ----------------------------------------------------------

  method ReportPeriodRange(period: Period, t: int, offset: int) returns (r: Result<Interval, string>)
    ensures period in {Weekly, Monthly} ==> r == Success(Range(period, t, offset))
    ensures period !in {Weekly, Monthly} ==> r.Failure?
  {
    hide Day, WeekDay, MondayOnOrBefore, DayFromYear, DaysBefore, YearOf, MonthOf, MakeDay, DaysInMonth, DateOf;
    var d := new JsDate.Copy(t, offset);
    if period == Weekly {
      var dayOfWeek := d.GetDay();
      var mondayOffset := if dayOfWeek == 0 then -6 else 1 - dayOfWeek;
      var rangeStart := new JsDate.Copy(d.t, offset);
      rangeStart.SetDate(d.GetDate() + mondayOffset);
      MondayByOffset(d.LocalDay());
      MoveThenMidnight(t, mondayOffset, offset);
      rangeStart.SetMidnight();
      var rangeEnd := new JsDate.Copy(rangeStart.t, offset);
      rangeEnd.SetDate(rangeStart.GetDate() + 7);
      return Success(Interval(rangeStart.t, rangeEnd.t));
    } else if period == Monthly {
      var rangeStart := new JsDate.FromFields(d.GetFullYear(), d.GetMonth(), 1, offset);
      var rangeEnd := new JsDate.FromFields(d.GetFullYear(), d.GetMonth() + 1, 1, offset);
      return Success(Interval(rangeStart.t, rangeEnd.t));
    } else {
      return Failure("Unsupported report period");
    }
  }

  method MetricsPeriodRange(period: Period, t: int, offset: int) returns (r: Interval)
    ensures r == Range(if period == Custom then Hourly else period, t, offset)
  {
    hide Day, WeekDay, MondayOnOrBefore, DayFromYear, DaysBefore, YearOf, MonthOf, MakeDay, DaysInMonth, DateOf;
    var d := new JsDate.Copy(t, offset);
    if period == Daily {
      var rangeStart := new JsDate.Copy(d.t, offset);
      rangeStart.SetMidnight();
      var rangeEnd := new JsDate.Copy(d.t, offset);
      rangeEnd.SetDate(d.GetDate() + 1);
      MoveThenMidnight(t, 1, offset);
      rangeEnd.SetMidnight();
      return Interval(rangeStart.t, rangeEnd.t);
    } else if period == Weekly {
      var dayOfWeek := d.GetDay();
      var mondayOffset := if dayOfWeek == 0 then -6 else 1 - dayOfWeek;
      var rangeStart := new JsDate.Copy(d.t, offset);
      rangeStart.SetDate(d.GetDate() + mondayOffset);
      MondayByOffset(d.LocalDay());
      MoveThenMidnight(t, mondayOffset, offset);
      rangeStart.SetMidnight();
      var rangeEnd := new JsDate.Copy(rangeStart.t, offset);
      rangeEnd.SetDate(rangeStart.GetDate() + 7);
      return Interval(rangeStart.t, rangeEnd.t);
    } else if period == Monthly {
      var rangeStart := new JsDate.FromFields(d.GetFullYear(), d.GetMonth(), 1, offset);
      var rangeEnd := new JsDate.FromFields(d.GetFullYear(), d.GetMonth() + 1, 1, offset);
      return Interval(rangeStart.t, rangeEnd.t);
    } else {
      var rangeEnd := new JsDate.Copy(d.t, offset);
      var rangeStart := new JsDate.Copy(d.t - MS_PER_DAY, offset);
      return Interval(rangeStart.t, rangeEnd.t);
    }
  }

  // ---- What the ranges are --------------------------------------------------------------

  /** Two days that are the same day, of the same Monday-to-Sunday week, or of the same month. */
  predicate SameUnit(period: Period, d: int, e: int) {
    match period
    case Daily => d == e
    case Weekly => (d + 3) / 7 == (e + 3) / 7
    case Monthly => YearOf(d) == YearOf(e) && MonthOf(d) == MonthOf(e)
    case _ => false
  }

  /** False exactly where the two-digit-year reading of the Date constructor interferes. */
  predicate Supported(period: Period, day: int) {
    period == Monthly ==> !(0 <= YearOf(day) <= 99)
  }

  lemma InMidnights(u: int, first: int, next: int, offset: int)
    ensures In(u, Interval(Midnight(first, offset), Midnight(next, offset))) <==> first <= Day(u + offset) < next
  {
  }

  lemma FirstOfMonth(y: int, m: Month)
    ensures MakeDay(y, m, 1) == DayFromYear(y) + DaysBefore(m, IsLeap(y))
    ensures MakeDay(y, m + 1, 1) == MakeDay(y, m, 1) + DaysInMonth(y, m)
    ensures DaysInMonth(y, m) >= 28
  {
    MonthLength(y, m);
    YearLength(y);
    hide DayFromYear, IsLeap;
    assert (m + 1) / 12 == if m == 11 then 1 else 0;
    assert (m + 1) % 12 == if m == 11 then 0 else m + 1;
  }

  lemma DaysOfMonth(y: int, m: Month, d: int)
    ensures MakeDay(y, m, 1) <= d < MakeDay(y, m + 1, 1) <==> YearOf(d) == y && MonthOf(d) == m
  {
    FirstOfMonth(y, m);
    CivilOfDay(d);
    if MakeDay(y, m, 1) <= d < MakeDay(y, m + 1, 1) {
      CivilIsUnique(d, Civil(y, m, d - MakeDay(y, m, 1) + 1));
    }
  }

  lemma DayRangeIsUnit(period: Period, day: int, e: int)
    requires IsCalendarPeriod(period)
    ensures Supported(period, day) ==>
              (DayRange(period, day).0 <= e < DayRange(period, day).1 <==> SameUnit(period, day, e))
  {
    if period == Monthly { DaysOfMonth(YearOf(day), MonthOf(day), e); }
  }

  /** A range holds exactly the instants of its day, week or month; in particular `t` itself. */
  lemma RangeIsUnit(period: Period, t: int, offset: int)
    requires IsCalendarPeriod(period) && Supported(period, Day(t + offset))
    ensures forall u :: In(u, Range(period, t, offset)) <==> SameUnit(period, Day(t + offset), Day(u + offset))
    ensures In(t, Range(period, t, offset))
  {
    var day := Day(t + offset);
    var (first, next) := DayRange(period, day);
    forall u ensures In(u, Range(period, t, offset)) <==> SameUnit(period, day, Day(u + offset)) {
      DayRangeIsUnit(period, day, Day(u + offset));
      InMidnights(u, first, next, offset);
    }
    assert SameUnit(period, day, day);
  }

  /** Over the years 0 to 99 the monthly range misses its own date, and nowhere else. */
  lemma RangeContainsIffSupported(period: Period, t: int, offset: int)
    requires IsCalendarPeriod(period)
    ensures In(t, Range(period, t, offset)) <==> Supported(period, Day(t + offset))
  {
    hide DayFromYear, DaysBefore, YearOf, MonthOf, MakeDay, DaysInMonth, DateOf;
    var d := Day(t + offset);
    if Supported(period, d) {
      RangeIsUnit(period, t, offset);
    } else {
      DaysOfMonth(1900 + YearOf(d), MonthOf(d), d);
      InMidnights(t, DayRange(period, d).0, DayRange(period, d).1, offset);
    }
  }

  /** Any two ranges of one kind are equal or disjoint. */
  lemma RangesTile(period: Period, t: int, u: int, offset: int)
    requires IsCalendarPeriod(period)
    requires Supported(period, Day(t + offset)) && Supported(period, Day(u + offset))
    ensures var r, q := Range(period, t, offset), Range(period, u, offset);
            if SameUnit(period, Day(t + offset), Day(u + offset)) then r == q
            else r.end <= q.start || q.end <= r.start
  {
    hide DayFromYear, DaysBefore, YearOf, MonthOf, MakeDay, DaysInMonth, DateOf;
    RangeIsUnit(period, t, offset);
    RangeIsUnit(period, u, offset);
    var r, q := Range(period, t, offset), Range(period, u, offset);
    if r.start < q.end && q.start < r.end {
      var common := if r.start < q.start then q.start else r.start;
      assert In(common, r) && In(common, q);
    }
  }

  lemma MonthAfter(y: int, m: Month)
    ensures var (y', m') := if m == 11 then (y + 1, 0) else (y, m + 1);
            MakeDay(y, m + 1, 1) == MakeDay(y', m', 1)
  {
    YearLength(y);
  }

  /** The day after a day, week or month begins the next one. */
  lemma NextUnitStart(period: Period, day: int)
    requires IsCalendarPeriod(period) && Supported(period, day) && Supported(period, DayRange(period, day).1)
    ensures DayRange(period, DayRange(period, day).1).0 == DayRange(period, day).1
  {
    hide DayFromYear, DaysBefore, YearOf, MonthOf, MakeDay, DaysInMonth, DateOf;
    if period == Monthly {
      var y, m := YearOf(day), MonthOf(day);
      var (y', m') := if m == 11 then (y + 1, 0) else (y, m + 1);
      MonthAfter(y, m);
      FirstOfMonth(y', m');
      DaysOfMonth(y', m', MakeDay(y', m', 1));
    } else if period == Weekly {
      MondayAfter(day);
    }
  }

  lemma MondayAfter(day: int)
    ensures MondayOnOrBefore(MondayOnOrBefore(day) + 7) == MondayOnOrBefore(day) + 7
  {
  }

  lemma RangeByDays(period: Period, t: int, offset: int)
    requires IsCalendarPeriod(period)
    ensures var (first, next) := DayRange(period, Day(t + offset));
            && Range(period, t, offset) == Interval(Midnight(first, offset), Midnight(next, offset))
            && Day(Midnight(next, offset) + offset) == next
  {
    hide DayRange;
    MoveThenMidnight(t, DayRange(period, Day(t + offset)).1, offset);
  }

  lemma RangeNotEmpty(period: Period, t: int, offset: int)
    requires IsCalendarPeriod(period) && Supported(period, Day(t + offset))
    ensures Range(period, t, offset).start < Range(period, t, offset).end
  {
    hide Range, Day, Supported;
    RangeIsUnit(period, t, offset);
  }

  /** Each end is the start of the next range, across the ends of years too. */
  lemma EndIsNextStart(period: Period, t: int, offset: int)
    requires IsCalendarPeriod(period) && Supported(period, Day(t + offset))
    requires Supported(period, Day(Range(period, t, offset).end + offset))
    ensures var r := Range(period, t, offset);
            Range(period, r.end, offset).start == r.end && r.start < r.end
  {
    hide Range, DayRange, Supported, Day, Midnight;
    RangeByDays(period, t, offset);
    RangeByDays(period, Range(period, t, offset).end, offset);
    NextUnitStart(period, Day(t + offset));
    RangeNotEmpty(period, t, offset);
  }

  /** A reference date at or after the end of a range has a range that is wholly later. */
  lemma LaterRange(period: Period, t: int, u: int, offset: int)
    requires IsCalendarPeriod(period)
    requires Supported(period, Day(t + offset)) && Supported(period, Day(u + offset))
    requires Range(period, t, offset).end <= u
    ensures Range(period, t, offset).end <= Range(period, u, offset).start
  {
    RangeIsUnit(period, t, offset);
    RangeIsUnit(period, u, offset);
    RangesTile(period, t, u, offset);
  }

  /**
   Weeks are seven whole local days from a Monday (the fifth day of 1970 was one); months run from the 1st
   to the 1st, days from midnight to midnight, and the hourly range is the 24 hours that end at the date.
   */
  lemma RangeShape(t: int, offset: int)
    ensures var w := Range(Weekly, t, offset);
            && w.end - w.start == 7 * 24 * 60 * 60 * 1000
            && WeekDay(Day(w.start + offset)) == 1 && (Day(w.start + offset) - 4) % 7 == 0
            && (w.start + offset) % (24 * 60 * 60 * 1000) == 0
    ensures var d := Range(Daily, t, offset);
            d.start <= t < d.end == d.start + 24 * 60 * 60 * 1000 && (d.start + offset) % (24 * 60 * 60 * 1000) == 0
    ensures Range(Hourly, t, offset) == Interval(t - 24 * 60 * 60 * 1000, t)
    ensures Supported(Monthly, Day(t + offset)) ==>
              var r, day := Range(Monthly, t, offset), Day(t + offset);
              && CivilOf(Day(r.start + offset)) == Civil(YearOf(day), MonthOf(day), 1)
              && TimeWithinDay(r.start + offset) == TimeWithinDay(r.end + offset) == 0
              && r.end == r.start + DaysInMonth(YearOf(day), MonthOf(day)) * MS_PER_DAY
  {
    hide DayFromYear, DaysBefore, YearOf, MonthOf, MakeDay, DaysInMonth, DateOf;
    if Supported(Monthly, Day(t + offset)) {
      var day := Day(t + offset);
      var y, m := YearOf(day), MonthOf(day);
      FirstOfMonth(y, m);
      CivilIsUnique(MakeDay(y, m, 1), Civil(y, m, 1));
    }
  }
}
