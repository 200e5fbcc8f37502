/**
 * Calendar dates and the list of days of a month that the calendar page
 * lays out as its grid: `eachDayOfInterval` from `startOfMonth` to
 * `endOfMonth`.
 *
 * Dates follow the proleptic Gregorian calendar (the one JavaScript's
 * `Date` uses, and ISO 8601 section 3.2.1): a year is a leap year when it
 * is divisible by 4 and not by 100, or divisible by 400.
 */
module CalendarDates {
  import opened MonthNavigation

  /** A calendar day, with the month numbered 1..12 and the day 1..31. */
  datatype Date = Date(year: int, month: int, day: int)

  predicate IsLeapYear(year: int) {
    (year % 4 == 0 && year % 100 != 0) || year % 400 == 0
  }

  /** The length of a month: 31, 30, or 28/29 for February. */
  function DaysInMonth(year: int, month: int): (n: int)
    requires IsMonth(month)
    ensures 28 <= n <= 31
  {
    if month == 2 then (if IsLeapYear(year) then 29 else 28)
    else if month == 4 || month == 6 || month == 9 || month == 11 then 30
    else 31
  }

  /** A day that exists in the calendar. */
  predicate ValidDate(d: Date) {
    IsMonth(d.month) && 1 <= d.day <= DaysInMonth(d.year, d.month)
  }

  /** Chronological order of dates. */
  predicate Before(a: Date, b: Date) {
    a.year < b.year ||
    (a.year == b.year && (a.month < b.month || (a.month == b.month && a.day < b.day)))
  }

  /** The number of days in the first `n` months of a year. */
  function DaysInFirstMonths(year: int, n: int): int
    requires 0 <= n <= 12
  {
    if n == 0 then 0 else DaysInFirstMonths(year, n - 1) + DaysInMonth(year, n)
  }

  /** The month lengths add up to a year of 366 days in a leap year and of
      365 days otherwise: in particular February has 29 days exactly in a
      leap year. */
  lemma {:induction false} YearLength(year: int)
    ensures DaysInFirstMonths(year, 12) == if IsLeapYear(year) then 366 else 365
  {
    var leap := if IsLeapYear(year) then 1 else 0;
    assert DaysInFirstMonths(year, 1) == 31;
    assert DaysInFirstMonths(year, 2) == 59 + leap;
    assert DaysInFirstMonths(year, 3) == 90 + leap;
    assert DaysInFirstMonths(year, 4) == 120 + leap;
    assert DaysInFirstMonths(year, 5) == 151 + leap;
    assert DaysInFirstMonths(year, 6) == 181 + leap;
    assert DaysInFirstMonths(year, 7) == 212 + leap;
    assert DaysInFirstMonths(year, 8) == 243 + leap;
    assert DaysInFirstMonths(year, 9) == 273 + leap;
    assert DaysInFirstMonths(year, 10) == 304 + leap;
    assert DaysInFirstMonths(year, 11) == 334 + leap;
  }

  /** Known month lengths, including the century rules for 2000 and 1900. */
  lemma MonthLengthExamples()
    ensures DaysInMonth(2024, 2) == 29
    ensures DaysInMonth(2023, 2) == 28
    ensures DaysInMonth(2024, 4) == 30
    ensures DaysInMonth(2000, 2) == 29
    ensures DaysInMonth(1900, 2) == 28
  {
  }

  /** The day after `d`: the next day of the same month, or the first day of
      the month that the "next" navigation leads to. */
  function NextDay(d: Date): (r: Date)
    requires ValidDate(d)
    ensures ValidDate(r)
  {
    if d.day < DaysInMonth(d.year, d.month) then Date(d.year, d.month, d.day + 1)
    else
      var next := HandleMonthChange(Next, d.year, d.month);
      Date(next.year, next.month, 1)
  }

  /** `NextDay` is the immediate successor in chronological order: it comes
      after `d` and no existing date lies strictly between the two. */
  lemma NextDayIsSuccessor(d: Date, e: Date)
    requires ValidDate(d) && ValidDate(e)
    ensures Before(d, NextDay(d))
    ensures !(Before(d, e) && Before(e, NextDay(d)))
  {
  }

  /** The full year that `new Date(year, monthIndex)` denotes: the Date
      constructor reads a year in 0..99 as 1900..1999 and keeps any other
      year as given. */
  function ConstructorYear(year: int): (y: int)
    ensures y != year <==> 0 <= year <= 99
    ensures y != year ==> y == year + 1900
    ensures 1900 <= y <= 1999 <==> (0 <= year <= 99 || 1900 <= year <= 1999)
  {
    if 0 <= year <= 99 then 1900 + year else year
  }

  /** `startOfMonth(new Date(year, month - 1))`, at day granularity: day 1 of
      the month in the year the Date constructor gives. */
  function StartOfMonth(year: int, month: int): (d: Date)
    requires IsMonth(month)
    ensures ValidDate(d) && d.year == ConstructorYear(year) && d.month == month
    ensures forall e :: ValidDate(e) && e.year == d.year && e.month == month && e != d ==> Before(d, e)
  {
    Date(ConstructorYear(year), month, 1)
  }

  /** `endOfMonth(start)`, at day granularity: the last day of the month of
      `start`, whose successor is the first day of the next month. */
  function EndOfMonth(start: Date): (d: Date)
    requires ValidDate(start)
    ensures ValidDate(d) && d.year == start.year && d.month == start.month
    ensures forall e :: ValidDate(e) && e.year == d.year && e.month == d.month && e != d ==> Before(e, d)
    ensures NextDay(d) == Date(HandleMonthChange(Next, start.year, start.month).year,
                               HandleMonthChange(Next, start.year, start.month).month, 1)
  {
    Date(start.year, start.month, DaysInMonth(start.year, start.month))
  }

  /** `eachDayOfInterval({start, end})` for an interval inside one month:
      `start`, then each following day, up to and including `end`. */
  function EachDayOfInterval(start: Date, end: Date): (days: seq<Date>)
    requires ValidDate(start) && ValidDate(end)
    requires start.year == end.year && start.month == end.month && start.day <= end.day
    ensures |days| == end.day - start.day + 1
    ensures forall i :: 0 <= i < |days| ==> days[i] == Date(start.year, start.month, start.day + i)
    ensures forall i :: 0 <= i < |days| - 1 ==> days[i + 1] == NextDay(days[i])
    decreases end.day - start.day
  {
    if start == end then [start]
    else [start] + EachDayOfInterval(NextDay(start), end)
  }

  /** The days of the calendar grid for a month: the month's days 1, 2, ...,
      DaysInMonth in ascending order, each followed by the next with no gap,
      in the year the Date constructor gives. */
  function MonthDays(year: int, month: int): (days: seq<Date>)
    requires IsMonth(month)
    ensures |days| == DaysInMonth(ConstructorYear(year), month)
    ensures forall i :: 0 <= i < |days| ==> days[i] == Date(ConstructorYear(year), month, i + 1)
    ensures forall i :: 0 <= i < |days| - 1 ==> days[i + 1] == NextDay(days[i])
  {
    var start := StartOfMonth(year, month);
    var end := EndOfMonth(start);
    EachDayOfInterval(start, end)
  }

  /** The grid of a month is in strictly ascending order and holds exactly
      the existing dates of that month, so each day appears once. */
  lemma {:induction false} MonthDaysAreTheMonth(year: int, month: int)
    requires IsMonth(month)
    ensures forall i, j :: 0 <= i < j < |MonthDays(year, month)| ==>
              Before(MonthDays(year, month)[i], MonthDays(year, month)[j])
    ensures forall d :: d in MonthDays(year, month) <==>
              ValidDate(d) && d.year == ConstructorYear(year) && d.month == month
  {
    var days := MonthDays(year, month);
    forall d | ValidDate(d) && d.year == ConstructorYear(year) && d.month == month
      ensures d in days
    {
      assert days[d.day - 1] == d;
    }
  }

  /** A two-digit year denotes a year of the 1900s: year 0 is 1900, which is
      not a leap year, so its February has 28 days; year 24 is 1924. */
  lemma TwoDigitYears()
    ensures |MonthDays(0, 2)| == 28
    ensures MonthDays(24, 3)[0] == Date(1924, 3, 1)
    ensures |MonthDays(2024, 2)| == 29
  {
    assert ConstructorYear(0) == 1900 && !IsLeapYear(1900);
    assert ConstructorYear(24) == 1924;
    assert ConstructorYear(2024) == 2024 && IsLeapYear(2024);
  }
}
