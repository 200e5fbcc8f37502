/**
 * Grouping of a month's bookings by calendar day (`formatBookings`): a
 * dictionary from each day that has bookings to the list of that day's
 * `{time, service, customer}` entries, in the order the bookings arrive.
 *
 * A booking is taken as already formatted: its day stands for the
 * `yyyy-MM-dd` key and its time for the `HH:mm` text of its timestamp.
 */
module BookingGrouping {
  import opened CalendarDates

  /** A booking as fetched: its day, time of day, service name, customer name. */
  datatype Booking = Booking(date: Date, time: string, service: string, customer: string)

  /** One line of a day's list in the calendar grid. */
  datatype Entry = Entry(time: string, service: string, customer: string)

  /** The dictionary from day to that day's entries. */
  type Grouped = map<Date, seq<Entry>>

  function ToEntry(b: Booking): Entry {
    Entry(b.time, b.service, b.customer)
  }

  /** One step of the `reduce`: create the day's list when the day is not yet
      a key, then append the booking's entry to it. No other day changes. */
  function AddBooking(acc: Grouped, b: Booking): (r: Grouped)
    ensures r.Keys == acc.Keys + {b.date}
    ensures forall d :: d in acc && d != b.date ==> r[d] == acc[d]
    ensures b.date in acc ==> r[b.date] == acc[b.date] + [ToEntry(b)]
    ensures b.date !in acc ==> r[b.date] == [ToEntry(b)]
  {
    var acc' := if b.date !in acc then acc[b.date := []] else acc;
    acc'[b.date := acc'[b.date] + [ToEntry(b)]]
  }

  /** The `reduce` over the bookings, starting from the empty dictionary:
      every key it creates holds at least one entry. */
  function Group(bookings: seq<Booking>): (g: Grouped)
    ensures forall d :: d in g ==> g[d] != []
  {
    if bookings == [] then map[]
    else AddBooking(Group(bookings[..|bookings| - 1]), bookings[|bookings| - 1])
  }

  /** Reference definition: the entries of the bookings made for day `d`,
      in input order. */
  function EntriesOn(bookings: seq<Booking>, d: Date): seq<Entry>
  {
    if bookings == [] then []
    else (if bookings[0].date == d then [ToEntry(bookings[0])] else [])
         + EntriesOn(bookings[1..], d)
  }

  /** Some booking is made for day `d`. */
  predicate HasBookingOn(bookings: seq<Booking>, d: Date) {
    exists i :: 0 <= i < |bookings| && bookings[i].date == d
  }

  /** The place of booking `i` in its day's list: the number of earlier
      bookings for the same day. */
  function Rank(bookings: seq<Booking>, i: int): nat
    requires 0 <= i < |bookings|
  {
    |EntriesOn(bookings[..i], bookings[i].date)|
  }

  /** Filtering distributes over concatenation. */
  lemma {:induction false} EntriesOnAppend(a: seq<Booking>, b: seq<Booking>, d: Date)
    ensures EntriesOn(a + b, d) == EntriesOn(a, d) + EntriesOn(b, d)
  {
    if a == [] {
      assert a + b == b;
    } else {
      assert (a + b)[1..] == a[1..] + b;
      EntriesOnAppend(a[1..], b, d);
    }
  }

  /** A day has entries exactly when some booking is made for it. */
  lemma {:induction false} EntriesOnNonEmpty(bookings: seq<Booking>, d: Date)
    ensures EntriesOn(bookings, d) != [] <==> HasBookingOn(bookings, d)
  {
    if bookings != [] {
      EntriesOnNonEmpty(bookings[1..], d);
      if HasBookingOn(bookings, d) && bookings[0].date != d {
        var i :| 0 <= i < |bookings| && bookings[i].date == d;
        assert bookings[1..][i - 1].date == d;
      }
      if HasBookingOn(bookings[1..], d) {
        var i :| 0 <= i < |bookings| - 1 && bookings[1..][i].date == d;
        assert bookings[i + 1].date == d;
      }
    }
  }

  /** The grouping agrees with the reference definition: a day is a key
      exactly when some booking is made for it, and its list is that day's
      entries in input order (so never empty). */
  lemma {:induction false} GroupIsEntriesOn(bookings: seq<Booking>, d: Date)
    ensures d in Group(bookings) <==> HasBookingOn(bookings, d)
    ensures d in Group(bookings) ==> Group(bookings)[d] == EntriesOn(bookings, d) != []
  {
    if bookings != [] {
      var init, last := bookings[..|bookings| - 1], bookings[|bookings| - 1];
      assert bookings == init + [last];
      GroupIsEntriesOn(init, d);
      EntriesOnAppend(init, [last], d);
      assert EntriesOn([last], d) == if last.date == d then [ToEntry(last)] else [] by {
        assert [last][1..] == [];
      }
      EntriesOnNonEmpty(bookings, d);
      EntriesOnNonEmpty(init, d);
    }
  }

  /** Each booking is in its own day's list, at its rank; a later booking of
      the same day comes after it, as `push` appends. */
  lemma {:induction false} BookingPlacement(bookings: seq<Booking>, i: int, j: int)
    requires 0 <= i < |bookings| && 0 <= j < |bookings|
    ensures bookings[i].date in Group(bookings)
    ensures Rank(bookings, i) < |Group(bookings)[bookings[i].date]|
    ensures Group(bookings)[bookings[i].date][Rank(bookings, i)] == ToEntry(bookings[i])
    ensures i < j && bookings[i].date == bookings[j].date ==> Rank(bookings, i) < Rank(bookings, j)
  {
    var d := bookings[i].date;
    GroupIsEntriesOn(bookings, d);
    var before, rest := bookings[..i], bookings[i + 1..];
    assert bookings == before + [bookings[i]] + rest;
    EntriesOnAppend(before + [bookings[i]], rest, d);
    EntriesOnAppend(before, [bookings[i]], d);
    assert EntriesOn([bookings[i]], d) == [ToEntry(bookings[i])] by {
      assert [bookings[i]][1..] == [];
    }
    if i < j && bookings[j].date == d {
      var upToJ, middle := bookings[..j], bookings[i + 1..j];
      assert upToJ == before + [bookings[i]] + middle;
      EntriesOnAppend(before + [bookings[i]], middle, d);
      EntriesOnAppend(before, [bookings[i]], d);
    }
  }

  /** The total length of the lists under the days in `days`. */
  ghost function SumLengths(g: Grouped, days: set<Date>): nat
    requires days <= g.Keys
    decreases days
  {
    if days == {} then 0
    else
      var d :| d in days;
      |g[d]| + SumLengths(g, days - {d})
  }

  /** The total number of entries in the dictionary. */
  ghost function TotalEntries(g: Grouped): nat {
    SumLengths(g, g.Keys)
  }

  /** The sum does not depend on which day it takes first. */
  lemma {:induction false} SumLengthsRemove(g: Grouped, days: set<Date>, d: Date)
    requires days <= g.Keys && d in days
    ensures SumLengths(g, days) == |g[d]| + SumLengths(g, days - {d})
    decreases days
  {
    var e :| e in days && SumLengths(g, days) == |g[e]| + SumLengths(g, days - {e});
    if e != d {
      SumLengthsRemove(g, days - {e}, d);
      SumLengthsRemove(g, days - {d}, e);
      assert days - {e} - {d} == days - {d} - {e};
    }
  }

  /** The sum only reads the lists under the days it sums over. */
  lemma {:induction false} SumLengthsAgree(g: Grouped, h: Grouped, days: set<Date>)
    requires days <= g.Keys && days <= h.Keys
    requires forall d :: d in days ==> g[d] == h[d]
    ensures SumLengths(g, days) == SumLengths(h, days)
    decreases days
  {
    if days != {} {
      var d :| d in days && SumLengths(g, days) == |g[d]| + SumLengths(g, days - {d});
      SumLengthsRemove(h, days, d);
      SumLengthsAgree(g, h, days - {d});
    }
  }

  /** One step of the `reduce` adds exactly one entry. */
  lemma {:induction false} AddBookingAddsOne(acc: Grouped, b: Booking)
    ensures TotalEntries(AddBooking(acc, b)) == TotalEntries(acc) + 1
  {
    var r := AddBooking(acc, b);
    var rest := acc.Keys - {b.date};
    assert r.Keys - {b.date} == rest;
    SumLengthsRemove(r, r.Keys, b.date);
    SumLengthsAgree(r, acc, rest);
    if b.date in acc {
      SumLengthsRemove(acc, acc.Keys, b.date);
    } else {
      assert acc.Keys == rest;
    }
  }

  /** Grouping loses and duplicates nothing: the lists hold as many entries
      as there are bookings. */
  lemma {:induction false} GroupKeepsCount(bookings: seq<Booking>)
    ensures TotalEntries(Group(bookings)) == |bookings|
  {
    if bookings == [] {
      assert Group(bookings).Keys == {};
    } else {
      GroupKeepsCount(bookings[..|bookings| - 1]);
      AddBookingAddsOne(Group(bookings[..|bookings| - 1]), bookings[|bookings| - 1]);
    }
  }

  /** `formatBookings`: walks the bookings once, creating a day's list on the
      first booking of that day and appending each entry to its day's list. */
  method FormatBookings(bookings: array<Booking>) returns (acc: Grouped)
    ensures acc == Group(bookings[..])
    ensures forall d :: d in acc <==> HasBookingOn(bookings[..], d)
    ensures forall d :: d in acc ==> acc[d] == EntriesOn(bookings[..], d) && acc[d] != []
    ensures TotalEntries(acc) == bookings.Length
    ensures bookings.Length == 0 ==> acc == map[]
  {
    acc := map[];
    var i := 0;
    while i < bookings.Length
      invariant 0 <= i <= bookings.Length
      invariant acc == Group(bookings[..i])
    {
      var booking := bookings[i];
      if booking.date !in acc {
        acc := acc[booking.date := []];
      }
      acc := acc[booking.date := acc[booking.date] + [ToEntry(booking)]];
      assert bookings[..i + 1][..i] == bookings[..i];
      i := i + 1;
    }
    assert bookings[..] == bookings[..i];
    forall d
      ensures d in acc <==> HasBookingOn(bookings[..], d)
      ensures d in acc ==> acc[d] == EntriesOn(bookings[..], d) && acc[d] != []
    {
      GroupIsEntriesOn(bookings[..], d);
    }
    GroupKeepsCount(bookings[..]);
  }
}
