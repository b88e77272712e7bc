/**
 * The admin "View Bookings" page (app/admin/view-booking/page.tsx): the search, the
 * inclusive date range on the date part of `bookedAt`, and the sort on the `bookedAt`
 * instant. `new Date(bookedAt).getTime()` is the parameter `timeOf`.
 */
module AdminViewBooking {
  import opened Wrappers
  import opened Text
  import opened DateUtil
  import opened BookingFilters

  datatype Booking = Booking(
    userId: string,
    userName: string,
    bookedSeat: string,
    bookingTime: string,
    bookedAt: string,
    createdAt: string)

  /** The fields the search looks in; the booking's time range is not one of them. */
  function SearchFields(b: Booking): (r: seq<string>)
    ensures |r| == 5
  {
    [b.userId, b.userName, b.bookedSeat, b.bookedAt, b.createdAt]
  }

  /** The search target: the fields separated by single spaces. */
  function SearchTarget(b: Booking): string {
    JoinWithSpaces(SearchFields(b))
  }

  /** The date the range filter compares: `extractDate(booking.bookedAt)`. */
  function BookingDate(b: Booking): (r: string)
    ensures ' ' !in r
    ensures StartsWith(b.bookedAt, r)
  {
    ExtractDate(b.bookedAt)
  }

  /** The filter/sort effect: each booking the search and the date bounds accept, as often
      as it was loaded, newest or oldest `bookedAt` first. */
  method FilterBookings(bookings: seq<Booking>, f: Filters, timeOf: string -> int)
    returns (result: seq<Booking>)
    ensures forall b {:trigger multiset(result)[b]} ::
      multiset(result)[b] ==
        if SearchAccepts(SearchTarget(b), f.searchTerm)
          && OnOrAfter(BookingDate(b), f.startDate)
          && OnOrBefore(BookingDate(b), f.endDate)
        then multiset(bookings)[b] else 0
    ensures |result| <= |bookings|
    ensures f.sortOrder == Newest ==>
      forall i, j :: 0 <= i < j < |result| ==> timeOf(result[i].bookedAt) >= timeOf(result[j].bookedAt)
    ensures f.sortOrder == Oldest ==>
      forall i, j :: 0 <= i < j < |result| ==> timeOf(result[i].bookedAt) <= timeOf(result[j].bookedAt)
  {
    result := FilterAndSort(bookings, f, SearchTarget, BookingDate, (b: Booking) => timeOf(b.bookedAt));
  }

  /** A term found (case-insensitively) in the user id, the user name, the seat, or the
      booked-at or created-at text keeps the booking. */
  lemma {:induction false} EveryFieldIsSearched(b: Booking, term: string, k: nat)
    requires k < |SearchFields(b)|
    requires Contains(ToLower(SearchFields(b)[k]), NormalizedSearch(term))
    ensures SearchAccepts(SearchTarget(b), term)
  {
    FieldOfJoinIsSearched(SearchFields(b), k, term);
  }

  /** The booking's time range plays no part in the filters: two bookings that differ only
      there are kept or dropped together. */
  lemma {:induction false} BookingTimeNotSearched(b: Booking, bookingTime: string, f: Filters)
    ensures var c := b.(bookingTime := bookingTime);
      && (SearchAccepts(SearchTarget(b), f.searchTerm) <==> SearchAccepts(SearchTarget(c), f.searchTerm))
      && BookingDate(b) == BookingDate(c)
  {
  }

  /** For a `bookedAt` of the form "YYYY-MM-DD time" with a four-digit year, the date
      filters compare calendar dates: the bounds are inclusive on both ends. */
  lemma {:induction false} DateRangeIsCalendarRange(b: Booking, d: CalendarDate, time: string, f: Filters)
    requires b.bookedAt == FormatDateYmd(d) + " " + time
    requires 1000 <= d.year <= 9999
    requires f.startDate.Some? ==> 1000 <= f.startDate.value.year <= 9999
    requires f.endDate.Some? ==> 1000 <= f.endDate.value.year <= 9999
    ensures OnOrAfter(BookingDate(b), f.startDate) <==> f.startDate.None? || !DateBefore(d, f.startDate.value)
    ensures OnOrBefore(BookingDate(b), f.endDate) <==> f.endDate.None? || !DateBefore(f.endDate.value, d)
  {
    ExtractFormattedDate(d, time);
    DateBoundsFollowCalendar(d, f.startDate, f.endDate);
  }
}
