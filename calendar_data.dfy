/**
 * `getCalendarData`: the data the calendar page renders for one month, the
 * month's days and the bookings grouped by day.
 *
 * The bookings come from a database query for the month; the query is
 * outside the model, so they are a parameter here, and what the query
 * promises about them is the predicate `FetchedForMonth`.
 */
module CalendarData {
  import opened MonthNavigation
  import opened CalendarDates
  import opened BookingGrouping

  /** What the month's query returns: bookings whose day is an existing day
      of the requested month, in the year the Date constructor gives (the
      query builds its range with the same `new Date(year, month - 1)`). */
  predicate FetchedForMonth(bookings: seq<Booking>, year: int, month: int) {
    forall i :: 0 <= i < |bookings| ==>
      ValidDate(bookings[i].date) && bookings[i].date.year == ConstructorYear(year)
      && bookings[i].date.month == month
  }

  /** Every day that has bookings is a day of the grid, when the bookings are
      those of the month. */
  lemma {:induction false} GroupedDaysInGrid(bookings: seq<Booking>, year: int, month: int, d: Date)
    requires IsMonth(month)
    requires FetchedForMonth(bookings, year, month)
    requires d in Group(bookings)
    ensures d in MonthDays(year, month)
  {
    GroupIsEntriesOn(bookings, d);
    var i :| 0 <= i < |bookings| && bookings[i].date == d;
    MonthDaysAreTheMonth(year, month);
  }

  /** The month's days and its grouped bookings; on bookings of the month,
      every grouped day is a day of the grid. */
  method GetCalendarData(year: int, month: int, bookings: array<Booking>)
    returns (days: seq<Date>, formatted: Grouped)
    requires IsMonth(month)
    ensures formatted == Group(bookings[..])
    ensures days == MonthDays(year, month)
    ensures FetchedForMonth(bookings[..], year, month) ==> forall d :: d in formatted ==> d in days
  {
    formatted := FormatBookings(bookings);
    var start := StartOfMonth(year, month);
    var end := EndOfMonth(start);
    days := EachDayOfInterval(start, end);
    if FetchedForMonth(bookings[..], year, month) {
      forall d | d in formatted
        ensures d in days
      {
        GroupedDaysInGrid(bookings[..], year, month, d);
      }
    }
  }
}
