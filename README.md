# Hot-desking frontend core, modelled in Dafny

This project models the client-side logic of the Ufinity hot-desking frontend, a
Next.js application. Employees use it to book desks. Administrators use it to review
bookings and to lay out the seats of a floor plan. The model covers:

- **Route guard** (`RouteGuard`). The middleware decides from the request path and the
  `authToken`/`userRole` cookies whether a request passes or is redirected to a login
  page or a start page.
- **Sign-in page** (`Login`). It covers the email pattern, the per-field errors, and how
  the login reply becomes a session or a general error. `LoginPage` holds the page
  state.
- **Date helpers** (`DateUtil`). `extractDate`, `formatDateYmd` and `isWeekday` work on
  integer days and on the local calendar fields of a date.
- **Booking page** (`Booking`). It covers the weekend-skipping default dates, the
  start/end hour pickers over a desk's time slots, the defaults chosen when a desk is
  clicked, and the expansion of a recurring request into DAILY or WEEKLY dates.
  `BookingPage` holds the component state and its handlers.
- **Booking lists** (`BookingFilters`, `PublicViewBooking`, `AdminViewBooking`). Both
  "View Bookings" pages share one pipeline: search, start date, end date, then a sort
  on time. The public page also unwraps the list response and cancels bookings.
- **Seat-plan editor** (`ManageSeat`). It turns loaded resources into seats, places a
  new seat, and handles the edit form with its date ranges and change detection. It
  also deletes seats and runs the batch save, which sends deletes, creates and updates
  and reports a summary toast. `SeatEditor` holds the component state.
- **Floor-plan form schema** (`FloorPlanSchema`). Each field has its checks and
  messages, and a valid form yields parsed data.

Helper modules:

- `Wrappers` holds `Option`.
- `Text` holds JavaScript's string operations: white space, `trim`, ASCII `toLowerCase`,
  `includes`/`startsWith`/`endsWith`, `<` on strings, and number formatting with
  `padStart`.
- `Lists` holds `filter` and a stable sort by key.

The model does no I/O. Every network reply is a parameter of the operation that
consumes it: the login reply, the outcome of each delete and of each seat save, and
the cancel result. The same goes for today's date, `Date.now()`, the seat hit test and
the parsing of timestamps by `new Date(...)`. The requests a save would send are
returned as values.

## Model

| member | source | states |
|---|---|---|
| RouteGuard.Middleware | middleware.ts:4-59 | A request passes exactly when it is not a signed-in visitor on their own role's login page, an admin route has a token and the admin role, and a protected public route has a token and the user role. Redirects go only to the two login pages or the two start pages. The asked-for path is carried along only when there is no token. |
| RouteGuard.RoutesAreDisjoint | middleware.ts:12-13 | No path is both an admin route and a protected public route. Neither login page is protected. |
| RouteGuard.SignedInLoginPageRedirects | middleware.ts:18-26 | A visitor with a token and the admin role on /admin/login goes to /admin/view-booking. A visitor with the user role on /public/login goes to /public/dashboard. |
| RouteGuard.AdminRouteGuard | middleware.ts:29-41 | On an admin route: no token redirects to /admin/login with the path remembered. A token of another role redirects there without it. An admin passes. |
| RouteGuard.PublicRouteGuard | middleware.ts:44-56 | The same for protected public routes, with /public/login and the user role. |
| RouteGuard.NoRedirectLoop | middleware.ts:17-56 | Following any redirect with the same cookies is let through, so the guard never redirects twice in a row. |
| RouteGuard.StartPagesPass | middleware.ts:12-13 | The start page a signed-in visitor is sent to is open to that visitor's role. |
| RouteGuard.LoginPagesPass | middleware.ts:12-26 | A login page passes unless the visitor is signed in with that page's role. |
| RouteGuard.LoginPrefixIsUnguarded | middleware.ts:12-13 | Every path that starts with a login page's path passes without a token, because the prefix test exempts it. |
| Login.ValidateEmail | app/public/login/page.tsx:15-18 | An accepted email has no white space and exactly one '@'. |
| Login.ValidateEmailIsPattern | app/public/login/page.tsx:15-18 | `validateEmail` accepts exactly the strings of the form run '@' run '.' run, where each run is non-empty and free of white space and '@'. |
| Login.ValidEmailMatches | app/public/login/page.tsx:16 | Every accepted email matches the pattern. |
| Login.MatchingEmailIsValid | app/public/login/page.tsx:16 | Every string matching the pattern is accepted. |
| Login.EmailError | app/public/login/page.tsx:26-30 | An empty email gets "Email is required". A non-empty invalid one gets "Please enter a valid email address". There is no error exactly when the email is valid. |
| Login.PasswordError | app/public/login/page.tsx:32-34 | There is no error exactly when the password is non-empty. Otherwise the error is "Password is required". |
| Login.ReplyOutcome | app/public/login/page.tsx:54-81 | A non-empty token signs in with that token. A reply without one gives "Invalid response from server". A 401 gives "Invalid email or password". Another API error shows its non-empty message, or else the generic message. A network failure gives the connection message. |
| Login.SubmitOutcome | app/public/login/page.tsx:20-85 | Field errors happen exactly when either field has an error, and they carry both fields' errors. Otherwise the reply decides the outcome. |
| Login.FieldErrorsIgnoreReply | app/public/login/page.tsx:36-39 | With a field error, every reply gives the same outcome: no request is made. |
| Login.LoginPage.Submit | app/public/login/page.tsx:20-85 | Errors are cleared first. With field errors, they are shown and no request is made. A sign-in hands the token to the API client and navigates to /public/view-booking. A general error is shown alone. The email and password are unchanged. |
| DateUtil.DayOfWeekPeriodic | app/lib/utils/date.ts:25-28 | Days a whole number of weeks apart share their weekday and their weekday status. |
| DateUtil.ExtractDate | app/lib/utils/date.ts:6 | The result is the longest space-free prefix: it contains no space, and the input either ends there or continues with a space. |
| DateUtil.ExtractDateOfPrefix | app/lib/utils/date.ts:6 | A space-free text followed by a space and anything else gives back that text. |
| DateUtil.FormatDateYmd | app/lib/utils/date.ts:13-18 | The result has no space. For a four-digit year it is the ten-character YYYY-MM-DD with a 1-based month and zero-padded fields. |
| DateUtil.FormatDateYmdOrder | app/lib/utils/date.ts:13-18 | For four-digit years, string order on the formatted dates is calendar order. |
| DateUtil.FormatDateYmdInjective | app/lib/utils/date.ts:13-18 | For four-digit years, different dates format differently. |
| DateUtil.ExtractFormattedDate | app/lib/utils/date.ts:6-18 | `extractDate` of a formatted date followed by a space and a time is the formatted date. |
| Booking.DefaultSelectedDate | app/public/booking/page.tsx:38-50 | The first selected date is a weekday at most two days after today. It is today on a weekday and the next Monday on a weekend. |
| Booking.DefaultRecurringEndDate | app/public/booking/page.tsx:55-67 | The first recurring end date is exactly a week after the default date, on the same weekday, which is a weekday. |
| Booking.AnyCovers | app/public/booking/page.tsx:189 | True exactly when some slot is available and contains the hour. |
| Booking.FirstCovering | app/public/booking/page.tsx:194 | Finds the first available slot containing the hour, or reports that none does. |
| Booking.IsStartTimeAvailable | app/public/booking/page.tsx:187-190 | An hour is offered as a start exactly when some available slot contains it. Without slots, no hour is offered. |
| Booking.IsEndTimeAvailable | app/public/booking/page.tsx:192-196 | An hour is offered as an end exactly when there is a first available slot containing the start, and the hour is after the start and at most that slot's end. The start is then itself offered. Without slots, no end is offered. |
| Booking.EndTimeStaysInsideSlot | app/public/booking/page.tsx:192-196 | For an offered end, every hour from the start up to the end is an offered start, so the booking stays inside one available slot. |
| Booking.EndAfterStartChange | app/public/booking/page.tsx:612-618 | After a start change, the end is kept if it is still offered for the new start. Otherwise it becomes the next hour. |
| Booking.StartChangeKeepsEndOffered | app/public/booking/page.tsx:612-618 | Picking an offered start always leaves an offered end. |
| Booking.FirstAvailableSlot | app/public/booking/page.tsx:210 | Finds the first slot whose status is available, or reports that none is. |
| Booking.DefaultHours | app/public/booking/page.tsx:210-214 | A desk gets preselected hours exactly when it has an available slot. The start is the first such slot's start. The end is the smaller of one hour later and the slot's end. |
| Booking.DefaultHoursOffered | app/public/booking/page.tsx:210-214 | When that slot is non-empty, the preselected start and end are offered by the pickers and lie inside the slot. |
| Booking.GenerateRecurringDates | app/public/booking/page.tsx:218-248 | A non-recurring request gives just the selected date. DAILY gives, in increasing order, exactly the weekdays from the start to the end. WEEKLY gives exactly the weekdays among start, start+7, ... up to the end. |
| Booking.IncreasingDeterminedByElements | app/public/booking/page.tsx:218-248 | Two strictly increasing date lists with the same elements are equal, so the expansion predicates fix the result. |
| Booking.ReversedRangeIsEmpty | app/public/booking/page.tsx:227 | An end date before the start date gives no dates. |
| Booking.WeeklyFromWeekendIsEmpty | app/public/booking/page.tsx:235-244 | WEEKLY from a weekend start gives no dates at all. |
| Booking.WeeklyHoldsEveryWeek | app/public/booking/page.tsx:235-244 | WEEKLY from a weekday start contains every start+7k up to the end date. |
| Booking.DailyFridayToTuesday | app/public/booking/page.tsx:225-234 | DAILY from a Friday to the next Tuesday gives exactly Friday, Monday and Tuesday. |
| Booking.HoursLabel | app/public/booking/page.tsx:207 | The label is never empty. A non-empty availability text is kept as it is. An absent or empty one becomes "0 hours". |
| Booking.BookingPage.constructor | app/public/booking/page.tsx:31-67 | The page starts with no desk and no modal, 9:00 to 10:00, a weekday date, an end date a week later on a weekday, not recurring, and DAILY. |
| Booking.BookingPage.DeskClick | app/public/booking/page.tsx:198-216 | A booked or unavailable desk changes nothing. Any other desk is selected, fills the modal, takes the default hours when it has an available slot, and opens the modal. Dates and recurrence are unchanged. |
| Booking.BookingPage.ChangeStartTime | app/public/booking/page.tsx:612-618 | The new start is taken, and the end follows `EndAfterStartChange`. An offered start leaves an offered end. Nothing else changes. |
| Booking.BookingPage.CloseModal | app/public/booking/page.tsx:304-310 | The modal closes, the desk is deselected, and the hours and the recurring flag are reset. Dates and pattern are kept. |
| Booking.BookingPage.ConfirmBooking | app/public/booking/page.tsx:250-302 | Without modal data nothing happens. Otherwise the dates are the recurrence expansion of the current state, the message counts them, and the modal is reset as on close. |
| BookingFilters.ClearedFilters | app/public/view-booking/page.tsx:121-126 | Clearing leaves an empty search text, no date bounds and newest first. |
| BookingFilters.NormalizedSearch | app/public/view-booking/page.tsx:80 | The normalized term is empty exactly when the term is all white space, and it is never longer than the term. |
| BookingFilters.JoinSplit | app/public/view-booking/page.tsx:88 | The space-joined search target is any one field with the fields before and after it, joined, on either side. |
| BookingFilters.FieldOfJoinIsSearched | app/admin/view-booking/page.tsx:101-102 | A term found case-insensitively in any one field is found in the joined target. |
| BookingFilters.ApplyFilters | app/public/view-booking/page.tsx:83-107 | Each filter step runs only when it is set. Together they keep each booking the search and both date bounds accept, exactly as often as it occurs, and drop everything else. |
| BookingFilters.FilterAndSort | app/public/view-booking/page.tsx:79-119 | The result holds exactly the accepted bookings with their multiplicities. It is no longer than the input. It is ordered by non-increasing time for newest and non-decreasing time for oldest. |
| BookingFilters.SelectsThree | app/public/view-booking/page.tsx:83-107 | Three filters applied in turn select exactly the bookings accepted by all three. |
| BookingFilters.SelectsSubset | app/public/view-booking/page.tsx:83-107 | A selection is no longer than its input and holds exactly the input's accepted elements. |
| BookingFilters.ClearedFiltersKeepEverything | app/public/view-booking/page.tsx:121-126 | With cleared filters every booking passes, so the list is only sorted. |
| BookingFilters.DateBoundsFollowCalendar | app/public/view-booking/page.tsx:93-107 | For four-digit years, the string bounds are inclusive calendar bounds: on or after the start date, and on or before the end date. |
| Lists.SortBy | app/public/view-booking/page.tsx:109-116 | The sort returns a permutation of its input, in non-decreasing key order. |
| Lists.FilterMembers | app/public/view-booking/page.tsx:131 | An element is in a filtered list exactly when it is in the input and passes the test. |
| Lists.FilterAppend | app/public/view-booking/page.tsx:131 | Filtering a concatenation filters each part, keeping the order. |
| PublicViewBooking.UnwrapBookings | app/public/view-booking/page.tsx:38-47 | An object with items gives its items, or nothing when they are absent. An array gives itself. Anything else gives nothing. |
| PublicViewBooking.FilterBookings | app/public/view-booking/page.tsx:79-119 | The displayed list holds exactly the bookings that pass the search over seat, locale date, start, end, user and status and both date bounds, with their multiplicities. It is ordered by start instant, newest or oldest first. |
| PublicViewBooking.EveryFieldIsSearched | app/public/view-booking/page.tsx:84-90 | A term found in any of the six searched fields keeps the booking. |
| PublicViewBooking.RemoveById | app/public/view-booking/page.tsx:131 | Every booking with the id goes. Every other booking stays as often as before. |
| PublicViewBooking.RemoveByIdSplits | app/public/view-booking/page.tsx:131 | Removal works on each part of a list separately, so the other bookings keep their order. |
| PublicViewBooking.RemoveAbsentId | app/public/view-booking/page.tsx:131 | Removing an id no booking has changes nothing. |
| PublicViewBooking.RemoveByIdIdempotent | app/public/view-booking/page.tsx:131 | Cancelling the same id twice is the same as cancelling it once. |
| PublicViewBooking.CancelBooking | app/public/view-booking/page.tsx:128-136 | A successful delete removes the booking from the list and keeps the message. A failed one keeps the list and shows "Failed to cancel booking. Please try again.". |
| AdminViewBooking.BookingDate | app/admin/view-booking/page.tsx:109 | The date compared is a space-free prefix of `bookedAt`. |
| AdminViewBooking.FilterBookings | app/admin/view-booking/page.tsx:95-132 | The displayed list holds exactly the bookings that pass the search over user id, user name, seat, booked-at and created-at and both date bounds on `bookedAt`'s date, with their multiplicities. It is ordered by the `bookedAt` instant. |
| AdminViewBooking.EveryFieldIsSearched | app/admin/view-booking/page.tsx:99-104 | A term found in any of the five searched fields keeps the booking. |
| AdminViewBooking.BookingTimeNotSearched | app/admin/view-booking/page.tsx:8-15 | The booking's time range plays no part in the search or the date filters. |
| AdminViewBooking.DateRangeIsCalendarRange | app/admin/view-booking/page.tsx:106-120 | For a `bookedAt` of the form "YYYY-MM-DD time", the date filters are inclusive calendar bounds. |
| ManageSeat.ResourceToSeat | app/admin/manage-seat/page.tsx:108-119 | A positioned resource becomes the seat "seat-<id>" with its resource id and position. Its number and description are the resource's name and description, or empty. It has no date ranges and 09:00-17:00. It is blocked unless active, and it is SOLO unless typed. |
| ManageSeat.LoadSeats | app/admin/manage-seat/page.tsx:106-119 | The seats are exactly the converted resources that have both coordinates. Each has a resource id and default hours. |
| ManageSeat.LoadSeatsSplits | app/admin/manage-seat/page.tsx:106-119 | Loading a concatenation loads each part, so the seats keep the resources' order and multiplicity. |
| ManageSeat.LoadSingleResource | app/admin/manage-seat/page.tsx:107-108 | A single resource gives its seat when it has both coordinates, and nothing otherwise. |
| ManageSeat.NewSeat | app/admin/manage-seat/page.tsx:170-181 | A new seat is numbered one past the seat count. It is unblocked, SOLO, open 09:00-17:00, has no resource, and sits at the clicked spot. |
| ManageSeat.Edited | app/admin/manage-seat/page.tsx:204-212 | An edited seat keeps its id, resource and position, and its form is the submitted form. |
| ManageSeat.ApplyForm | app/admin/manage-seat/page.tsx:201-215 | Seats with the form's id take the edited fields and keep their id, resource and position. All other seats, the order and the length are unchanged. |
| ManageSeat.HasChanges | app/admin/manage-seat/page.tsx:263-280 | Nothing is pending without a form and a selected seat. Otherwise a change is pending exactly when a compared field differs. The seat type is not compared. |
| ManageSeat.OpenedFormHasNoChanges | app/admin/manage-seat/page.tsx:156-166 | A form just opened on a seat has no pending changes. |
| ManageSeat.TypeIsNotAChange | app/admin/manage-seat/page.tsx:273-279 | Changing only the seat type is not reported as a change. |
| ManageSeat.SubmitThenReopen | app/admin/manage-seat/page.tsx:197-220 | After a submit, the seat's reopened form is exactly what was submitted and has no pending changes. |
| ManageSeat.AppendDateRange | app/admin/manage-seat/page.tsx:236-241 | Adds one range from today to today at the end and keeps the earlier ranges. |
| ManageSeat.UpdateDateRange | app/admin/manage-seat/page.tsx:244-253 | Only the named field of the indexed range takes the new value. Every other range and field is unchanged. |
| ManageSeat.RemoveDateRange | app/admin/manage-seat/page.tsx:256-260 | The indexed range is removed and the rest keep their order. An index past the end removes nothing. |
| ManageSeat.RemoveUndoesAppend | app/admin/manage-seat/page.tsx:236-260 | Adding a range and then removing the last one restores the list. |
| ManageSeat.RemoveSeat | app/admin/manage-seat/page.tsx:292 | Every seat with the id goes. Every other seat stays as often as before. |
| ManageSeat.RecordDeletion | app/admin/manage-seat/page.tsx:287-289 | The seat's resource id is queued only when it is truthy. |
| ManageSeat.Capacity | app/admin/manage-seat/page.tsx:355 | Capacity is 4 exactly for TEAM seats and 1 otherwise. |
| ManageSeat.PayloadOf | app/admin/manage-seat/page.tsx:351-359 | The body carries the seat's number, description and type, its capacity, the plan's floor and building (or empty), and granularity 15. |
| ManageSeat.SeatRequest | app/admin/manage-seat/page.tsx:349-392 | A seat with a truthy resource id is updated. Any other seat is created. Either way the request carries the payload and the seat's position on the plan. |
| ManageSeat.AfterSave | app/admin/manage-seat/page.tsx:379-391 | Only a new seat whose create succeeded with a truthy id changes, and it takes that id. After the save a seat has a resource exactly when it had one or just got one. |
| ManageSeat.SaveSummary | app/admin/manage-seat/page.tsx:406-412 | Success exactly when nothing failed. Warning exactly when something failed and something succeeded. Error exactly when everything failed. The toast carries the given counts. |
| ManageSeat.RequestsConcat | app/admin/manage-seat/page.tsx:331-401 | The deletes followed by the seat saves are the calls of the whole save, in order. |
| ManageSeat.SendDeletes | app/admin/manage-seat/page.tsx:332-340 | One delete per queued id, in order. The successes are the deletes that succeeded, and successes plus errors equal the number of ids. |
| ManageSeat.SaveSeat | app/admin/manage-seat/page.tsx:348-400 | One seat's request is its update or create, the seat becomes `AfterSave`, and it counts as a success exactly when its call succeeded. |
| ManageSeat.SaveSeats | app/admin/manage-seat/page.tsx:347-401 | One request per seat in order, each seat after its own save, and the successes counted. |
| ManageSeat.SaveSeatPlan | app/admin/manage-seat/page.tsx:328-412 | The calls are all deletes, then one save per seat. Seats take their created ids, and successes and errors add up to the number of calls. With no seats it stops after the deletes, without clearing them and without a toast. Otherwise it clears the queue and shows the summary. |
| ManageSeat.SuccessMeansAllSaved | app/admin/manage-seat/page.tsx:406-407 | A success toast means every delete and every seat save succeeded. |
| ManageSeat.SeatEditor.constructor | app/admin/manage-seat/page.tsx:106-121 | The editor starts with the plan, the loaded seats, no queued deletes and no open form. |
| ManageSeat.SeatEditor.CanvasClick | app/admin/manage-seat/page.tsx:141-194 | Without a plan that has a non-empty image path nothing changes. A hit opens that seat's form. A miss appends a new seat at the spot and opens its form. The plan and the queued deletes are unchanged. |
| ManageSeat.SeatEditor.SubmitForm | app/admin/manage-seat/page.tsx:197-220 | Without a form nothing changes, including whether the form is shown. Otherwise the form is applied to the seats and the form closes. The plan and the queued deletes are unchanged. |
| ManageSeat.SeatEditor.AddDateRange | app/admin/manage-seat/page.tsx:236-241 | The open form gains a range from today to today. Nothing else changes. |
| ManageSeat.SeatEditor.UpdateDateRangeAt | app/admin/manage-seat/page.tsx:244-253 | The open form's indexed range gets the new field value. Nothing else changes. |
| ManageSeat.SeatEditor.RemoveDateRangeAt | app/admin/manage-seat/page.tsx:256-260 | The open form loses the indexed range. Nothing else changes. |
| ManageSeat.SeatEditor.DeleteSeat | app/admin/manage-seat/page.tsx:283-297 | Without a selection nothing changes. Otherwise the seat leaves the list, its truthy resource id is queued, and the form closes. The plan is unchanged. |
| ManageSeat.SeatEditor.SaveAll | app/admin/manage-seat/page.tsx:316-419 | Without a plan nothing is sent. Otherwise the calls are the deletes and seat saves of the old state, and the seats become their saved versions. With seats, the queue is cleared and the toast is the summary of the successful and failed calls. With no seats, the queue stays and there is no toast. The plan, the selection and the form are unchanged. |
| FloorPlanSchema.NameIssues | utils/validation/floorPlanSchema.ts:4-8 | The name passes exactly when its length is between 1 and 255. The required and too-long messages each apply to their case. |
| FloorPlanSchema.OptionalTextIssues | utils/validation/floorPlanSchema.ts:10-20 | An optional text passes when absent, empty or within its limit. Otherwise it gets its single message. |
| FloorPlanSchema.ImageUrlIssues | utils/validation/floorPlanSchema.ts:22-33 | The path passes exactly when it has 1 to 500 characters, starts with /floor-plans/ and ends in .png, .jpg or .jpeg in any case. The directory and format messages appear when those checks fail. |
| FloorPlanSchema.PositiveIssues | utils/validation/floorPlanSchema.ts:35-45 | A width or height passes when absent or positive. |
| FloorPlanSchema.NoIssuesIffValid | utils/validation/floorPlanSchema.ts:3-48 | The form has no failed check exactly when every field is valid. |
| FloorPlanSchema.Validate | utils/validation/floorPlanSchema.ts:3-48 | The form is accepted exactly when it is valid, and a rejection lists at least one issue. Accepted data has the name trimmed, the other fields as given, and `is_active` defaulting to true. |
| FloorPlanSchema.ExtensionIgnoresCase | utils/validation/floorPlanSchema.ts:31 | The extension check gives the same answer on the lower-cased path. |
| FloorPlanSchema.ShortestImagePath | utils/validation/floorPlanSchema.ts:26-33 | A path that passes both refinements has at least 17 characters, because the directory and the extension cannot overlap. |

## Left out

- Dates are integer days and local calendar fields, not JavaScript `Date` objects. The
  booking page formats dates with `toISOString()` (UTC) but tests weekdays with
  `getDay()` (local), and `new Date("YYYY-MM-DD")` is read as UTC midnight. In time
  zones west of UTC this can shift a date by a day. Time zones are not modelled; the
  model uses one calendar throughout.
- Parsing timestamps with `new Date(text)` (`getTime()`, `toLocaleDateString()`, the
  local calendar fields) is the parameter `parse` on the public page and `timeOf` on
  the admin page. An unparsable timestamp's NaN time is not modelled, so the sort
  comparator is assumed to be consistent.
- `Array.prototype.sort` sorts in place. It is modelled as a stable sort that returns
  a new list (`Lists.SortBy`). The permutation and the order are modelled. The
  position of equal keys beyond stability is not.
- Network calls, the OpenAPI client set-up, cookies, `localStorage`, `setAuthData`,
  router navigation other than the target path, `alert` and toast rendering, the
  booking page's mock delay and loading flags are left out. Replies and outcomes are
  parameters.
- `ManageSeat.SeatEditor.CanvasClick`: the 25-pixel hit test over floating-point
  positions is a parameter (`hit`), and a missing image rectangle is not modelled.
- `ManageSeat.SeatEditor.SaveAll`: the source stores a created id by mutating the seat
  object that the state list shares (`seat.resourceId = resourceId`). The model returns
  the updated seats as the new list, so the aliasing is not captured. An update whose
  put succeeds and whose position patch fails is counted once, as one failure, as in
  the source. The patch after a create is folded into the create's outcome.
- `ManageSeat.UpdateDateRange`: requires an index inside the list. The source would
  write past the end and create a sparse array, which the UI never does.
- `Booking.ConfirmationMessage` builds the alert text and carries no contract of its
  own. `ManageSeat.ToastMessage` is likewise only the text of each toast.
- The middleware's `matcher` configuration, which limits where the middleware runs,
  is not modelled.
- zod's issue ordering and the exact shape of its error objects are not modelled. The
  model keeps field order, and within a field the order of the checks.
- `toLowerCase` is modelled on ASCII letters only. Strings are sequences of characters,
  so UTF-16 surrogate pairs are not distinguished.
- The booking page's hover state, desk colours, tooltips, info pop-ups, floor-plan
  rendering and seat statistics are left out. So are the date pickers' own handlers
  and minimum dates, the generic `handleFormChange`, `handleDateTimePickerClick`, and
  the cancel dialog's open/close handlers (`handleStartCancel`, `handleCloseCancel`,
  `handleConfirmCancel`). None of them holds logic beyond setting one state field.
- Loading the floor plan and its resources is modelled only as the conversion of the
  loaded resources (`ManageSeat.LoadSeats`). Load failures and their toasts are left
  out.
