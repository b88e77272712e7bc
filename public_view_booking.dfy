/**
 * The public "View Bookings" page (app/public/view-booking/page.tsx): unwrapping the
 * list endpoint's response, the search/date/sort pipeline over the user's bookings,
 * cancelling a booking and clearing the filters.
 *
 * `new Date(booking.start_time)` depends on the runtime's parser and time zone; it is
 * the parameter `parse`, which yields the instant in milliseconds, the local calendar
 * date and the locale date text of a timestamp string.
 */
module PublicViewBooking {
  import opened Wrappers
  import opened Text
  import opened DateUtil
  import opened Lists
  import opened BookingFilters

  datatype NamedRef = NamedRef(id: int, name: string)

  datatype Booking = Booking(
    id: int,
    userId: int,
    resourceId: int,
    bookingType: string,
    startTime: string,
    endTime: string,
    status: string,
    createdAt: string,
    updatedAt: string,
    resource: Option<NamedRef>,
    user: Option<NamedRef>)

  /** What `new Date(text)` gives the page: `getTime()`, the local calendar fields and
      `toLocaleDateString()`. */
  datatype ParsedTime = ParsedTime(time: int, calendar: CalendarDate, localeDate: string)

  /** The `data` member of the list endpoint's response, by shape: an object with an
      `items` member (which may be missing), an array, or anything else. */
  datatype ResponseData =
    | WithItems(items: Option<seq<Booking>>)
    | ArrayData(elements: seq<Booking>)
    | OtherData

  /** `fetchPublicBookings`: the items of a paginated object (none when absent), the
      array itself, or nothing. */
  function UnwrapBookings(data: ResponseData): (r: seq<Booking>)
    ensures data.WithItems? && data.items.Some? ==> r == data.items.value
    ensures data.WithItems? && data.items.None? ==> r == []
    ensures data.ArrayData? ==> r == data.elements
    ensures data.OtherData? ==> r == []
  {
    match data
    case WithItems(items) => items.GetOr([])
    case ArrayData(elements) => elements
    case OtherData => []
  }

  /** `booking.resource?.name || ""`, and likewise for the user. */
  function NameOf(ref: Option<NamedRef>): string {
    if ref.Some? then ref.value.name else ""
  }

  /** The fields the search looks in: seat, locale date, start, end, user and status. */
  function SearchFields(b: Booking, parse: string -> ParsedTime): (r: seq<string>)
    ensures |r| == 6
  {
    [NameOf(b.resource), parse(b.startTime).localeDate, b.startTime, b.endTime, NameOf(b.user), b.status]
  }

  /** The search target: the fields separated by single spaces. */
  function SearchTarget(b: Booking, parse: string -> ParsedTime): string {
    JoinWithSpaces(SearchFields(b, parse))
  }

  /** The date the range filter compares: `formatDateYmd(new Date(booking.start_time))`. */
  function BookingDate(b: Booking, parse: string -> ParsedTime): (r: string)
    ensures r == FormatDateYmd(parse(b.startTime).calendar)
    ensures ' ' !in r
  {
    FormatDateYmd(parse(b.startTime).calendar)
  }

  /** The filter/sort effect over the loaded bookings: the kept bookings are those the
      search, start-date and end-date filters accept, each as often as it was loaded,
      sorted on the start instant. */
  method FilterBookings(bookings: seq<Booking>, f: Filters, parse: string -> ParsedTime)
    returns (result: seq<Booking>)
    ensures forall b {:trigger multiset(result)[b]} ::
      multiset(result)[b] ==
        if SearchAccepts(SearchTarget(b, parse), f.searchTerm)
          && OnOrAfter(BookingDate(b, parse), f.startDate)
          && OnOrBefore(BookingDate(b, parse), f.endDate)
        then multiset(bookings)[b] else 0
    ensures |result| <= |bookings|
    ensures f.sortOrder == Newest ==>
      forall i, j :: 0 <= i < j < |result| ==> parse(result[i].startTime).time >= parse(result[j].startTime).time
    ensures f.sortOrder == Oldest ==>
      forall i, j :: 0 <= i < j < |result| ==> parse(result[i].startTime).time <= parse(result[j].startTime).time
  {
    result := FilterAndSort(bookings, f, b => SearchTarget(b, parse), b => BookingDate(b, parse), (b: Booking) => parse(b.startTime).time);
  }

  /** Every field of the search target is searched: a term found (case-insensitively)
      in the seat name, the locale date, the start or end text, the user name or the
      status keeps the booking. */
  lemma {:induction false} EveryFieldIsSearched(b: Booking, parse: string -> ParsedTime, term: string, k: nat)
    requires k < |SearchFields(b, parse)|
    requires Contains(ToLower(SearchFields(b, parse)[k]), NormalizedSearch(term))
    ensures SearchAccepts(SearchTarget(b, parse), term)
  {
    FieldOfJoinIsSearched(SearchFields(b, parse), k, term);
  }

  /** `current.filter(booking => booking.id !== bookingId)`: every booking with that id
      goes, every other booking stays as often as before. */
  function RemoveById(bookings: seq<Booking>, id: int): (r: seq<Booking>)
    ensures forall b {:trigger multiset(r)[b]} :: multiset(r)[b] == if b.id == id then 0 else multiset(bookings)[b]
    ensures forall b :: b in r <==> b in bookings && b.id != id
    ensures |r| <= |bookings|
  {
    FilterMembers(bookings, (b: Booking) => b.id != id);
    Filter(bookings, (b: Booking) => b.id != id)
  }

  /** Removal keeps the other bookings in order: it works on each part of a list
      separately. */
  lemma {:induction false} RemoveByIdSplits(xs: seq<Booking>, ys: seq<Booking>, id: int)
    ensures RemoveById(xs + ys, id) == RemoveById(xs, id) + RemoveById(ys, id)
  {
    FilterAppend(xs, ys, (b: Booking) => b.id != id);
  }

  /** Removing an id that is absent changes nothing. */
  lemma {:induction false} RemoveAbsentId(xs: seq<Booking>, id: int)
    requires forall b :: b in xs ==> b.id != id
    ensures RemoveById(xs, id) == xs
  {
    if xs != [] {
      assert xs == [xs[0]] + xs[1..];
      RemoveByIdSplits([xs[0]], xs[1..], id);
      RemoveAbsentId(xs[1..], id);
      assert RemoveById([xs[0]], id) == [xs[0]];
    }
  }

  /** Cancelling twice is cancelling once. */
  lemma {:induction false} RemoveByIdIdempotent(xs: seq<Booking>, id: int)
    ensures RemoveById(RemoveById(xs, id), id) == RemoveById(xs, id)
  {
    RemoveAbsentId(RemoveById(xs, id), id);
  }

  /** `handleCancelBooking`, with the outcome of the delete request as `deleted`: on
      success the booking disappears from the list and the message is kept; on failure
      the list is kept and the page shows the failure message. */
  function CancelBooking(bookings: seq<Booking>, errorMessage: Option<string>, id: int, deleted: bool)
    : (r: (seq<Booking>, Option<string>))
    ensures deleted ==> r.0 == RemoveById(bookings, id) && r.1 == errorMessage
    ensures deleted ==> forall b :: b in r.0 ==> b.id != id
    ensures !deleted ==> r.0 == bookings && r.1 == Some("Failed to cancel booking. Please try again.")
  {
    if deleted then (RemoveById(bookings, id), errorMessage)
    else (bookings, Some("Failed to cancel booking. Please try again."))
  }
}
