/**
 * The month navigation of the calendar page: from the month on display,
 * the year and month that the "previous" and "next" links lead to.
 *
 * Months are numbered 1 (January) to 12 (December), as in the page's
 * `month` query parameter.
 */
module MonthNavigation {

  /** The two navigation buttons. */
  datatype Direction = Prev | Next

  /** A calendar month of a year. */
  datatype YearMonth = YearMonth(year: int, month: int)

  /** A real month number. */
  predicate IsMonth(month: int) {
    1 <= month <= 12
  }

  /** The number of months from January of year 0 to `ym`: every month has
      its own place on one line, December of a year is followed by January
      of the next. */
  function MonthIndex(ym: YearMonth): int {
    ym.year * 12 + (ym.month - 1)
  }

  /** The month at a place on that line (Dafny's `/` and `%` are Euclidean,
      so negative places land in negative years with a month in 1..12). */
  function FromIndex(k: int): (ym: YearMonth)
    ensures IsMonth(ym.month)
    ensures MonthIndex(ym) == k
  {
    YearMonth(k / 12, k % 12 + 1)
  }

  /** How far a button moves along the line of months. */
  function Offset(dir: Direction): int {
    if dir == Prev then -1 else 1
  }

  /** The target of a navigation button: `newYear` and `newMonth` as the page
      computes them before building the `/calendar?year=..&month=..` link.
      The computation is total; for a month outside 1..12 it still moves the
      month number by one and keeps the year. */
  function HandleMonthChange(dir: Direction, year: int, month: int): (r: YearMonth)
    ensures year - 1 <= r.year <= year + 1
    ensures IsMonth(month) ==> IsMonth(r.month)
    ensures IsMonth(month) ==> MonthIndex(r) == MonthIndex(YearMonth(year, month)) + Offset(dir)
  {
    if dir == Prev then
      YearMonth(if month == 1 then year - 1 else year, if month == 1 then 12 else month - 1)
    else
      YearMonth(if month == 12 then year + 1 else year, if month == 12 then 1 else month + 1)
  }

  /** A real month is determined by its place on the line of months. */
  lemma IndexRoundTrip(ym: YearMonth)
    requires IsMonth(ym.month)
    ensures FromIndex(MonthIndex(ym)) == ym
  {
  }

  /** The button's target is the month one place before or after, computed
      independently through the line of months. */
  lemma NavigationByIndex(dir: Direction, year: int, month: int)
    requires IsMonth(month)
    ensures HandleMonthChange(dir, year, month)
         == FromIndex(MonthIndex(YearMonth(year, month)) + Offset(dir))
  {
  }

  /** "Previous" undoes "next" and "next" undoes "previous". */
  lemma PrevNextInverse(year: int, month: int)
    requires IsMonth(month)
    ensures HandleMonthChange(Next, HandleMonthChange(Prev, year, month).year,
                              HandleMonthChange(Prev, year, month).month) == YearMonth(year, month)
    ensures HandleMonthChange(Prev, HandleMonthChange(Next, year, month).year,
                              HandleMonthChange(Next, year, month).month) == YearMonth(year, month)
  {
  }

  /** The wrap-around cases at January and December, and an ordinary month. */
  lemma NavigationExamples()
    ensures HandleMonthChange(Prev, 2024, 1) == YearMonth(2023, 12)
    ensures HandleMonthChange(Next, 2024, 12) == YearMonth(2025, 1)
    ensures HandleMonthChange(Next, 2024, 6) == YearMonth(2024, 7)
    ensures HandleMonthChange(Prev, 2024, 6) == YearMonth(2024, 5)
  {
  }
}
