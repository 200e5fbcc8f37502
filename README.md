# Booking calendar: month navigation, day grid and booking grouping

This project models the logic behind the monthly booking calendar of a small
scheduling application. For a requested year and month, the calendar page
does three things:

- it lists every day of the month for its grid (`getCalendarData`, using
  `startOfMonth`, `endOfMonth` and `eachDayOfInterval`);
- it groups the month's bookings into a dictionary from day to the list of
  `{time, service, customer}` entries of that day (`formatBookings`);
- it computes the year and month behind the "previous" and "next" buttons
  (`handleMonthChange`).

Modules, one per concern:

- `MonthNavigation` (`month_navigation.dfy`): `HandleMonthChange` as a pure
  function. It is checked against an independent definition that places
  every month on one line (`MonthIndex`, `FromIndex`).
- `CalendarDates` (`calendar_dates.dfy`): proleptic Gregorian dates, month
  lengths, the successor of a day (`NextDay`), and the day list of a month
  (`EachDayOfInterval`, `MonthDays`).
- `BookingGrouping` (`booking_grouping.dfy`): `FormatBookings`, an imperative
  loop that updates a map. It is proved equal to `Group`, the `reduce` of the
  source written as a function. `Group` is in turn proved equal to
  `EntriesOn`, an independent filter definition, and to keep the number of
  entries.
- `CalendarData` (`calendar_data.dfy`): `GetCalendarData`, which combines the
  two. It takes the fetched bookings as a parameter.

`handleMonthChange` does not validate the month. For a month outside 1..12
it still moves the month number by one and keeps the year. The model is
total in the same way, and its properties are proved for months 1..12.

The day grid and the month's query both build their dates with
`new Date(year, month - 1)`. JavaScript's Date constructor reads a year in
0..99 as 1900..1999, so `?year=24` shows the months of 1924.
`ConstructorYear` models that mapping, and the grid uses it.

## Model

| member | source | states |
|---|---|---|
| MonthNavigation.HandleMonthChange | src/app/calendar/components/utils.ts:54-69 | The year moves by at most one. For a month in 1..12, the target month is in 1..12. The place on the line of months moves by exactly -1 for "prev" and +1 for "next". |
| MonthNavigation.IndexRoundTrip | src/app/calendar/components/utils.ts:60-69 | For a month in 1..12, FromIndex recovers the year and month from the month's position on the line. This makes FromIndex a sound reference for NavigationByIndex. |
| MonthNavigation.NavigationByIndex | src/app/calendar/components/utils.ts:60-69 | For a month in 1..12, the target equals the month one place before or after, computed independently with Euclidean division. This covers the January and December wrap-around. |
| MonthNavigation.PrevNextInverse | src/app/calendar/components/utils.ts:60-69 | "next" after "prev" returns to the starting month, and so does "prev" after "next". |
| MonthNavigation.NavigationExamples | src/app/calendar/components/utils.ts:63-68 | prev(2024,1) = (2023,12); next(2024,12) = (2025,1); next(2024,6) = (2024,7); prev(2024,6) = (2024,5). |
| CalendarDates.DaysInMonth | src/app/calendar/components/utils.ts:80 | A month has 28 to 31 days. |
| CalendarDates.YearLength | src/app/calendar/components/utils.ts:79-81 | The twelve month lengths add up to 366 in a leap year and 365 otherwise. A year is a leap year when it is divisible by 4 and not by 100, or divisible by 400. |
| CalendarDates.MonthLengthExamples | src/app/calendar/components/utils.ts:79-81 | February 2024 has 29 days, February 2023 has 28, April 2024 has 30, February 2000 has 29 and February 1900 has 28. |
| CalendarDates.NextDay | src/app/calendar/components/utils.ts:81 | The day after an existing date is an existing date. |
| CalendarDates.NextDayIsSuccessor | src/app/calendar/components/utils.ts:81 | The next day comes after the date, and no existing date lies strictly between the two. This holds across month and year ends. |
| CalendarDates.ConstructorYear | src/app/calendar/components/utils.ts:79 | The Date constructor changes the year exactly when it is in 0..99, and then adds 1900. Every other year is kept as given. So the result is in 1900..1999 exactly when the requested year is in 0..99 or already in 1900..1999. |
| CalendarDates.StartOfMonth | src/app/calendar/components/utils.ts:79 | The start of the month is a day of the requested month in the constructor's year. Every other day of that month comes after it. |
| CalendarDates.EndOfMonth | src/app/calendar/components/utils.ts:80 | The end of the month is a day in the same month as the start date. Every other day of that month comes before it. The day after it is the first day of the month that "next" leads to. |
| CalendarDates.EachDayOfInterval | src/app/calendar/components/utils.ts:81 | The interval has end - start + 1 days. Element i is the start day plus i. Each element is followed by its NextDay. |
| CalendarDates.MonthDays | src/app/calendar/components/utils.ts:79-81 | The grid has DaysInMonth days for the constructor's year and the month. Element i is day i + 1 of that month. Each day is followed by its NextDay, so there are no gaps. |
| CalendarDates.MonthDaysAreTheMonth | src/app/calendar/components/utils.ts:79-81 | The grid is strictly ascending. A date is in the grid if and only if it is an existing date of that month in the constructor's year. |
| CalendarDates.TwoDigitYears | src/app/calendar/components/utils.ts:79-81 | Year 0 gives February 1900, which has 28 days. Year 24 starts March on 1924-03-01. Year 2024 gives a February of 29 days. |
| BookingGrouping.AddBooking | src/app/calendar/components/utils.ts:40-48 | One reduce step. The booking's day becomes a key. Its list is the old list, or an empty list when the day was new, with the booking's entry appended. No other day changes. |
| BookingGrouping.Group | src/app/calendar/components/utils.ts:36-50 | The reduce from the empty dictionary, written as a function. Every key it creates holds at least one entry. |
| BookingGrouping.GroupIsEntriesOn | src/app/calendar/components/utils.ts:36-50 | A day is a key if and only if some booking is for that day. Its list equals the reference filter of that day's entries in input order, and it is never empty. |
| BookingGrouping.BookingPlacement | src/app/calendar/components/utils.ts:44-48 | Every booking's entry sits in its own day's list, at the position given by the number of earlier bookings for that day. A later booking for the same day sits at a later position. |
| BookingGrouping.AddBookingAddsOne | src/app/calendar/components/utils.ts:40-48 | One reduce step raises the total number of entries in the dictionary by exactly one. |
| BookingGrouping.GroupKeepsCount | src/app/calendar/components/utils.ts:36-50 | The lists hold exactly as many entries in total as there are bookings, so grouping loses and duplicates nothing. |
| BookingGrouping.FormatBookings | src/app/calendar/components/utils.ts:33-51 | The loop's result equals the reduce. A key is present if and only if some booking is for that day. Each list is that day's entries in input order and is not empty. The total number of entries equals the number of bookings. Empty input gives the empty map. |
| CalendarData.GroupedDaysInGrid | src/app/calendar/components/utils.ts:75-83 | Suppose every booking falls in the requested month, in the constructor's year, as the query at lines 7-15 selects. Then every day that has bookings is a day of the month's grid. |
| CalendarData.GetCalendarData | src/app/calendar/components/utils.ts:75-83 | Returns the month's day grid and the grouped bookings. When the bookings are those of the month, every grouped day is in the grid. |

## Left out

- `fetchBookings` (src/app/calendar/components/utils.ts:6-30) is a database query through a foreign client, so it is not modelled. Its bookings are a parameter of `GetCalendarData`. Its range filter is stated only as the hypothesis `FetchedForMonth`: every booking's day is an existing day of the requested month.
- The `router.push` call and the link URL (src/app/calendar/components/utils.ts:71) are a navigation side effect. Only the computed year and month are modelled.
- The date-fns `format` calls (src/app/calendar/components/utils.ts:37-38) depend on the local time zone. A booking carries its day as a `Date` value standing for the `yyyy-MM-dd` key, and its time as an opaque string. The model assumes that distinct days give distinct keys.
- Timestamps within a day are not modelled. `startOfMonth`, `endOfMonth` and `eachDayOfInterval` are modelled at day granularity.
- CalendarDates.EachDayOfInterval: only intervals inside one month with start not after end are modelled. Those are the only intervals `getCalendarData` passes to it. The library's behaviour for other intervals is not captured.
- CalendarData.GetCalendarData requires a month in 1..12. JavaScript `Date` normalises other months (`new Date(year, month - 1)`), and that normalisation is not modelled.
- The asynchronous `await` steps are modelled as plain sequential calls.
- JavaScript numbers are doubles. Years and months are modelled as unbounded integers, which agree with them for every realistic calendar year. NaN, and fractional years or months, are not modelled. `parseInt` on non-numeric query text gives NaN, and that value reaches `getCalendarData` and `handleMonthChange`.
- CalendarDates.StartOfMonth, CalendarDates.MonthDays and CalendarData.GetCalendarData do not model the range limit of JavaScript `Date`. A date more than 8.64e15 milliseconds from 1970, about 275,000 years, is an invalid Date. The model instead gives an ordinary calendar month for every year. The mapping of years 0..99 to 1900..1999 is modelled, in `ConstructorYear`.
- src/app/calendar/page.tsx is not part of this model. It holds the rendering, the `parseInt` defaults taken from the current clock, the `isToday` highlight, and the locale-dependent `localeCompare` sort of each day's entries.
