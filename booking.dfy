/**
 * The public booking page (app/public/booking/page.tsx): the weekend-skipping default
 * dates, the start/end hour pickers over a desk's time slots, the defaults chosen when
 * a desk is clicked, and the expansion of a recurring request into its dates.
 * Days are integers (see DateUtil.Day) and hours are integers.
 */
module Booking {
  import opened Wrappers
  import opened DateUtil
  import opened Text

  datatype SlotStatus = Available | Booked

  /** An hour interval `[start, end)` of a desk's day. */
  datatype TimeSlot = TimeSlot(start: int, end: int, status: SlotStatus)

  datatype DeskStatus = DeskAvailable | DeskBooked | DeskUnavailable | PartiallyBooked

  datatype Desk = Desk(
    id: string,
    name: string,
    status: DeskStatus,
    availableHours: Option<string>,
    timeSlots: Option<seq<TimeSlot>>)

  datatype ModalData = ModalData(deskId: string, deskName: string, availableHours: string, timeSlots: Option<seq<TimeSlot>>)

  datatype Pattern = Daily | Weekly

  /** `slot` is available and contains `hour`. */
  predicate Covers(slot: TimeSlot, hour: int) {
    slot.status == Available && slot.start <= hour < slot.end
  }

  /** `timeSlots.some(slot => slot is available and contains hour)`. */
  function AnyCovers(slots: seq<TimeSlot>, hour: int): (r: bool)
    ensures r <==> exists i :: 0 <= i < |slots| && Covers(slots[i], hour)
  {
    if slots == [] then false
    else if Covers(slots[0], hour) then true
    else
      assert forall i :: 1 <= i < |slots| ==> slots[i] == slots[1..][i - 1];
      AnyCovers(slots[1..], hour)
  }

  /** `timeSlots.find(...)` as an index: the first available slot containing `hour`. */
  function FirstCovering(slots: seq<TimeSlot>, hour: int): (r: Option<nat>)
    ensures r.Some? ==> r.value < |slots| && Covers(slots[r.value], hour)
    ensures r.Some? ==> forall j :: 0 <= j < r.value ==> !Covers(slots[j], hour)
    ensures r.None? <==> forall j :: 0 <= j < |slots| ==> !Covers(slots[j], hour)
  {
    if slots == [] then None
    else if Covers(slots[0], hour) then Some(0)
    else
      match FirstCovering(slots[1..], hour)
      case None => None
      case Some(k) => Some(k + 1)
  }

  /** `isStartTimeAvailable`: some available slot contains the hour; false without slots. */
  function IsStartTimeAvailable(hour: int, timeSlots: Option<seq<TimeSlot>>): (r: bool)
    ensures r <==> timeSlots.Some? && exists i :: 0 <= i < |timeSlots.value| && Covers(timeSlots.value[i], hour)
    ensures timeSlots.None? ==> !r
  {
    match timeSlots
    case None => false
    case Some(slots) => AnyCovers(slots, hour)
  }

  /** `isEndTimeAvailable`: `hour` ends a booking that starts at `selectedStart` inside the
      first available slot containing `selectedStart`. */
  function IsEndTimeAvailable(hour: int, selectedStart: int, timeSlots: Option<seq<TimeSlot>>): (r: bool)
    ensures r <==>
      && timeSlots.Some?
      && exists k ::
           && 0 <= k < |timeSlots.value|
           && Covers(timeSlots.value[k], selectedStart)
           && (forall j :: 0 <= j < k ==> !Covers(timeSlots.value[j], selectedStart))
           && selectedStart < hour <= timeSlots.value[k].end
    ensures r ==> IsStartTimeAvailable(selectedStart, timeSlots)
    ensures timeSlots.None? ==> !r
  {
    match timeSlots
    case None => false
    case Some(slots) =>
      match FirstCovering(slots, selectedStart)
      case None => false
      case Some(k) => hour > selectedStart && hour <= slots[k].end
  }

  /** An offered end hour keeps every hour of the booking inside one available slot, so
      every hour from the start up to the end is itself an offered start hour. */
  lemma {:induction false} EndTimeStaysInsideSlot(hour: int, selectedStart: int, timeSlots: Option<seq<TimeSlot>>, t: int)
    requires IsEndTimeAvailable(hour, selectedStart, timeSlots)
    requires selectedStart <= t < hour
    ensures IsStartTimeAvailable(t, timeSlots)
  {
    var slots := timeSlots.value;
    var k := FirstCovering(slots, selectedStart).value;
    assert Covers(slots[k], t);
  }

  /** The end hour after the start-time handler: the current end is kept while it is
      still offered for the new start, otherwise it becomes the hour after. */
  function EndAfterStartChange(endTime: int, newStart: int, timeSlots: Option<seq<TimeSlot>>): (r: int)
    ensures IsEndTimeAvailable(endTime, newStart, timeSlots) ==> r == endTime
    ensures !IsEndTimeAvailable(endTime, newStart, timeSlots) ==> r == newStart + 1
  {
    if !IsEndTimeAvailable(endTime, newStart, timeSlots) then newStart + 1 else endTime
  }

  /** After picking an offered start hour, the end hour shown is always an offered end. */
  lemma {:induction false} StartChangeKeepsEndOffered(endTime: int, newStart: int, timeSlots: Option<seq<TimeSlot>>)
    requires IsStartTimeAvailable(newStart, timeSlots)
    ensures IsEndTimeAvailable(EndAfterStartChange(endTime, newStart, timeSlots), newStart, timeSlots)
  {
    var slots := timeSlots.value;
    var k := FirstCovering(slots, newStart);
    assert k.Some?;
  }

  /** `desk.timeSlots?.find(slot => slot.status === "available")`. */
  function FirstAvailableSlot(timeSlots: Option<seq<TimeSlot>>): (r: Option<nat>)
    ensures r.Some? ==> timeSlots.Some? && r.value < |timeSlots.value|
    ensures r.Some? ==> timeSlots.value[r.value].status == Available
    ensures r.Some? ==> forall j :: 0 <= j < r.value ==> timeSlots.value[j].status != Available
    ensures r.None? ==> timeSlots.None? || forall j :: 0 <= j < |timeSlots.value| ==> timeSlots.value[j].status != Available
  {
    match timeSlots
    case None => None
    case Some(slots) => FirstWithStatus(slots, Available)
  }

  function FirstWithStatus(slots: seq<TimeSlot>, status: SlotStatus): (r: Option<nat>)
    ensures r.Some? ==> r.value < |slots| && slots[r.value].status == status
    ensures r.Some? ==> forall j :: 0 <= j < r.value ==> slots[j].status != status
    ensures r.None? ==> forall j :: 0 <= j < |slots| ==> slots[j].status != status
  {
    if slots == [] then None
    else if slots[0].status == status then Some(0)
    else
      match FirstWithStatus(slots[1..], status)
      case None => None
      case Some(k) => Some(k + 1)
  }

  /** The start and end hours `handleDeskClick` preselects, if the desk has an available
      slot: the slot's start, and one hour later capped at the slot's end. */
  function DefaultHours(desk: Desk): (r: Option<(int, int)>)
    ensures r.Some? <==> FirstAvailableSlot(desk.timeSlots).Some?
    ensures r.Some? ==>
      var slot := desk.timeSlots.value[FirstAvailableSlot(desk.timeSlots).value];
      && r.value.0 == slot.start
      && r.value.1 <= slot.start + 1 && r.value.1 <= slot.end
      && (r.value.1 == slot.start + 1 || r.value.1 == slot.end)
  {
    match FirstAvailableSlot(desk.timeSlots)
    case None => None
    case Some(k) =>
      var slot := desk.timeSlots.value[k];
      Some((slot.start, if slot.start + 1 < slot.end then slot.start + 1 else slot.end))
  }

  /** When the first available slot is not empty, the preselected hours are a one-hour
      booking inside it that the pickers offer: start < end <= slot end. */
  lemma {:induction false} DefaultHoursOffered(desk: Desk)
    requires FirstAvailableSlot(desk.timeSlots).Some?
    requires var slot := desk.timeSlots.value[FirstAvailableSlot(desk.timeSlots).value]; slot.start < slot.end
    ensures var (s, e) := DefaultHours(desk).value;
      && s < e <= desk.timeSlots.value[FirstAvailableSlot(desk.timeSlots).value].end
      && IsStartTimeAvailable(s, desk.timeSlots)
      && IsEndTimeAvailable(e, s, desk.timeSlots)
  {
    var slots := desk.timeSlots.value;
    var k := FirstAvailableSlot(desk.timeSlots).value;
    var s := slots[k].start;
    assert Covers(slots[k], s);
    var c := FirstCovering(slots, s);
    assert c == Some(k);
  }

  /** The initial selected date: today, or the following Monday when today is a weekend. */
  function DefaultSelectedDate(today: Day): (r: Day)
    ensures IsWeekday(r)
    ensures today <= r <= today + 2
    ensures IsWeekday(today) ==> r == today
    ensures !IsWeekday(today) ==> DayOfWeek(r) == MONDAY
  {
    if DayOfWeek(today) == SUNDAY then today + 1
    else if DayOfWeek(today) == SATURDAY then today + 2
    else today
  }

  /** The initial end date of a recurring request: a week after the default date. */
  function DefaultRecurringEndDate(today: Day): (r: Day)
    ensures r - DefaultSelectedDate(today) == 7
    ensures DayOfWeek(r) == DayOfWeek(DefaultSelectedDate(today)) && IsWeekday(r)
  {
    var start := DefaultSelectedDate(today);
    DayOfWeekPeriodic(start, 1);
    start + 7
  }

  ghost predicate StrictlyIncreasing(dates: seq<Day>) {
    forall i, j :: 0 <= i < j < |dates| ==> dates[i] < dates[j]
  }

  /** A DAILY expansion: every weekday from `start` to `end` inclusive, in order. */
  ghost predicate IsDailyExpansion(dates: seq<Day>, start: Day, end: Day) {
    && StrictlyIncreasing(dates)
    && forall d :: d in dates <==> start <= d <= end && IsWeekday(d)
  }

  /** A WEEKLY expansion: the weekdays among `start`, `start + 7`, ... up to `end`, in order. */
  ghost predicate IsWeeklyExpansion(dates: seq<Day>, start: Day, end: Day) {
    && StrictlyIncreasing(dates)
    && forall d :: d in dates <==> start <= d <= end && (d - start) % 7 == 0 && IsWeekday(d)
  }

  /** `generateRecurringDates`: the single selected date, or the DAILY or WEEKLY walk
      from the selected date to the recurring end date keeping only weekdays. */
  method GenerateRecurringDates(isRecurring: bool, pattern: Pattern, selectedDate: Day, recurringEndDate: Day)
    returns (dates: seq<Day>)
    ensures !isRecurring ==> dates == [selectedDate]
    ensures isRecurring && pattern == Daily ==> IsDailyExpansion(dates, selectedDate, recurringEndDate)
    ensures isRecurring && pattern == Weekly ==> IsWeeklyExpansion(dates, selectedDate, recurringEndDate)
  {
    if !isRecurring {
      return [selectedDate];
    }
    dates := [];
    var start, end := selectedDate, recurringEndDate;
    if pattern == Daily {
      var current := start;
      while current <= end
        invariant start <= current
        invariant current <= end + 1 || current == start
        invariant StrictlyIncreasing(dates)
        invariant forall i :: 0 <= i < |dates| ==> dates[i] < current
        invariant forall d :: d in dates <==> start <= d < current && IsWeekday(d)
        decreases end - current
      {
        var dayOfWeek := DayOfWeek(current);
        if dayOfWeek != SUNDAY && dayOfWeek != SATURDAY {
          dates := dates + [current];
        }
        current := current + 1;
      }
    } else {
      var current := start;
      while current <= end
        invariant start <= current && (current - start) % 7 == 0
        invariant current == start || current - 7 <= end
        invariant StrictlyIncreasing(dates)
        invariant forall i :: 0 <= i < |dates| ==> dates[i] < current
        invariant forall d :: d in dates <==> start <= d < current && (d - start) % 7 == 0 && IsWeekday(d)
        decreases end - current
      {
        var dayOfWeek := DayOfWeek(current);
        if dayOfWeek != SUNDAY && dayOfWeek != SATURDAY {
          dates := dates + [current];
        }
        current := current + 7;
      }
      forall d | d in dates ensures d <= end {
        SameResidueGap(d, current, start);
      }
    }
  }

  /** Two days on the same weekday as `start`, the earlier one is a week or more earlier. */
  lemma {:induction false} SameResidueGap(d: int, c: int, start: int)
    requires (d - start) % 7 == 0 && (c - start) % 7 == 0 && d < c
    ensures d <= c - 7
  {
  }

  /** A strictly increasing list is determined by its elements, so the two expansion
      predicates pin down `GenerateRecurringDates`'s result exactly. */
  lemma {:induction false} IncreasingDeterminedByElements(a: seq<Day>, b: seq<Day>)
    requires StrictlyIncreasing(a) && StrictlyIncreasing(b)
    requires forall d :: d in a <==> d in b
    ensures a == b
  {
    FirstIsMember(a);
    FirstIsMember(b);
    if a != [] && b != [] {
      assert a[0] in b && b[0] in a;
      assert a[0] == b[0];
      forall d ensures d in a[1..] <==> d in b[1..] {
        assert a == [a[0]] + a[1..] && b == [b[0]] + b[1..];
        if d in a[1..] {
          var i :| 1 <= i < |a| && a[i] == d;
          assert a[0] < d && d in b;
          var j :| 0 <= j < |b| && b[j] == d;
          assert j != 0 && b[1..][j - 1] == d;
        }
        if d in b[1..] {
          var j :| 1 <= j < |b| && b[j] == d;
          assert b[0] < d && d in a;
          var i :| 0 <= i < |a| && a[i] == d;
          assert i != 0 && a[1..][i - 1] == d;
        }
      }
      IncreasingDeterminedByElements(a[1..], b[1..]);
      assert a == [a[0]] + a[1..] && b == [b[0]] + b[1..];
    }
  }

  lemma {:induction false} FirstIsMember(s: seq<Day>)
    ensures s != [] ==> s[0] in s
  {
  }

  /** A recurring request whose end date is before its start date yields no dates. */
  lemma {:induction false} ReversedRangeIsEmpty(dates: seq<Day>, start: Day, end: Day)
    requires start > end
    requires IsDailyExpansion(dates, start, end) || IsWeeklyExpansion(dates, start, end)
    ensures dates == []
  {
    FirstIsMember(dates);
  }

  /** WEEKLY from a weekend start date yields no dates: every candidate shares its weekday. */
  lemma {:induction false} WeeklyFromWeekendIsEmpty(dates: seq<Day>, start: Day, end: Day)
    requires IsWeeklyExpansion(dates, start, end)
    requires !IsWeekday(start)
    ensures dates == []
  {
    if dates != [] {
      var d := dates[0];
      assert d in dates;
      DayOfWeekPeriodic(start, (d - start) / 7);
    }
  }

  /** WEEKLY from a weekday start date holds every `start + 7k` up to the end date. */
  lemma {:induction false} WeeklyHoldsEveryWeek(dates: seq<Day>, start: Day, end: Day, k: nat)
    requires IsWeeklyExpansion(dates, start, end)
    requires IsWeekday(start) && start + 7 * k <= end
    ensures start + 7 * k in dates
  {
    DayOfWeekPeriodic(start, k);
  }

  /** A DAILY request from a Friday to the next Tuesday books Friday, Monday and Tuesday. */
  lemma {:induction false} DailyFridayToTuesday(dates: seq<Day>, friday: Day)
    requires DayOfWeek(friday) == 5
    requires IsDailyExpansion(dates, friday, friday + 4)
    ensures dates == [friday, friday + 3, friday + 4]
  {
    var expected := [friday, friday + 3, friday + 4];
    forall d ensures d in dates <==> d in expected {
      if friday <= d <= friday + 4 {
        assert DayOfWeek(d) == (5 + (d - friday)) % 7;
      }
    }
    IncreasingDeterminedByElements(dates, expected);
  }

  /** `desk.availableHours || "0 hours"`: an absent or empty label shows "0 hours". */
  function HoursLabel(availableHours: Option<string>): (r: string)
    ensures r != []
    ensures availableHours.Some? && availableHours.value != [] ==> r == availableHours.value
    ensures availableHours.None? || availableHours.value == [] ==> r == "0 hours"
  {
    if availableHours.Some? && availableHours.value != [] then availableHours.value else "0 hours"
  }

  /** The message shown once a booking is confirmed. */
  function ConfirmationMessage(isRecurring: bool, count: nat, deskName: string, startTime: int, endTime: int): string
  {
    var hours := " from " + IntToString(startTime) + ":00 to " + IntToString(endTime) + ":00";
    if isRecurring then NatToString(count) + " recurring bookings confirmed for " + deskName + hours
    else "Booking confirmed for " + deskName + hours
  }

  /** The booking page's component state and the handlers that change it. */
  class BookingPage {
    var selectedDesk: Option<string>
    var showModal: bool
    var modalData: Option<ModalData>
    var startTime: int
    var endTime: int
    var selectedDate: Day
    var isRecurring: bool
    var recurringPattern: Pattern
    var recurringEndDate: Day

    /** The time slots the pickers consult: `modalData?.timeSlots`. */
    function ModalSlots(): (r: Option<seq<TimeSlot>>)
      reads this
      ensures modalData.None? ==> r.None?
      ensures modalData.Some? ==> r == modalData.value.timeSlots
    {
      match modalData
      case None => None
      case Some(m) => m.timeSlots
    }

    /** The initial state on `today`: no desk, 9:00 to 10:00, a weekday date and an end
        date one week later, not recurring, DAILY. */
    constructor(today: Day)
      ensures selectedDesk.None? && !showModal && modalData.None?
      ensures startTime == 9 && endTime == 10
      ensures selectedDate == DefaultSelectedDate(today) && IsWeekday(selectedDate)
      ensures recurringEndDate == selectedDate + 7 && IsWeekday(recurringEndDate)
      ensures !isRecurring && recurringPattern == Daily
    {
      selectedDesk := None;
      showModal := false;
      modalData := None;
      startTime := 9;
      endTime := 10;
      selectedDate := DefaultSelectedDate(today);
      isRecurring := false;
      recurringPattern := Daily;
      recurringEndDate := DefaultRecurringEndDate(today);
    }

    /** `handleDeskClick`: a booked or unavailable desk changes nothing; any other desk is
        selected, its details fill the modal, the first available slot (if any) sets the
        hours, and the modal opens. */
    method DeskClick(desk: Desk)
      modifies this
      ensures desk.status == DeskBooked || desk.status == DeskUnavailable ==>
        && selectedDesk == old(selectedDesk) && showModal == old(showModal) && modalData == old(modalData)
        && startTime == old(startTime) && endTime == old(endTime)
      ensures desk.status != DeskBooked && desk.status != DeskUnavailable ==>
        && selectedDesk == Some(desk.id) && showModal
        && modalData == Some(ModalData(desk.id, desk.name, HoursLabel(desk.availableHours), desk.timeSlots))
        && (DefaultHours(desk).Some? ==> (startTime, endTime) == DefaultHours(desk).value)
        && (DefaultHours(desk).None? ==> startTime == old(startTime) && endTime == old(endTime))
      ensures selectedDate == old(selectedDate) && recurringEndDate == old(recurringEndDate)
      ensures isRecurring == old(isRecurring) && recurringPattern == old(recurringPattern)
    {
      if desk.status == DeskBooked || desk.status == DeskUnavailable {
        return;
      }
      selectedDesk := Some(desk.id);
      modalData := Some(ModalData(desk.id, desk.name, HoursLabel(desk.availableHours), desk.timeSlots));
      match DefaultHours(desk) {
        case None =>
        case Some(hours) =>
          startTime := hours.0;
          endTime := hours.1;
      }
      showModal := true;
    }

    /** The start-hour picker's handler: the new start is taken, and the end is kept only
        while it is still offered for that start. Picking an offered start therefore always
        leaves an offered end. */
    method ChangeStartTime(newStart: int)
      modifies this
      ensures startTime == newStart
      ensures endTime == EndAfterStartChange(old(endTime), newStart, ModalSlots())
      ensures IsStartTimeAvailable(newStart, ModalSlots()) ==> IsEndTimeAvailable(endTime, startTime, ModalSlots())
      ensures selectedDesk == old(selectedDesk) && showModal == old(showModal) && modalData == old(modalData)
      ensures selectedDate == old(selectedDate) && recurringEndDate == old(recurringEndDate)
      ensures isRecurring == old(isRecurring) && recurringPattern == old(recurringPattern)
    {
      var slots := ModalSlots();
      var previousEnd := endTime;
      startTime := newStart;
      if !IsEndTimeAvailable(previousEnd, newStart, slots) {
        endTime := newStart + 1;
      }
      if IsStartTimeAvailable(newStart, slots) {
        StartChangeKeepsEndOffered(previousEnd, newStart, slots);
      }
    }

    /** `handleCloseModal`: the modal closes, the desk is deselected and the hours and the
        recurring flag return to their initial values. */
    method CloseModal()
      modifies this
      ensures !showModal && selectedDesk.None?
      ensures startTime == 9 && endTime == 10 && !isRecurring
      ensures modalData == old(modalData) && selectedDate == old(selectedDate)
      ensures recurringEndDate == old(recurringEndDate) && recurringPattern == old(recurringPattern)
    {
      showModal := false;
      selectedDesk := None;
      startTime := 9;
      endTime := 10;
      isRecurring := false;
    }

    /** `handleConfirmBooking` (the request itself is a mock delay here): without modal data
        nothing happens; otherwise the dates are expanded, the confirmation message is
        built, and the modal is reset as on close. */
    method ConfirmBooking() returns (dates: seq<Day>, message: Option<string>)
      modifies this
      ensures old(modalData).None? ==> message.None? && dates == []
      ensures old(modalData).None? ==>
        && showModal == old(showModal) && selectedDesk == old(selectedDesk)
        && startTime == old(startTime) && endTime == old(endTime) && isRecurring == old(isRecurring)
      ensures old(modalData).Some? ==>
        && (!old(isRecurring) ==> dates == [old(selectedDate)])
        && (old(isRecurring) && old(recurringPattern) == Daily ==> IsDailyExpansion(dates, old(selectedDate), old(recurringEndDate)))
        && (old(isRecurring) && old(recurringPattern) == Weekly ==> IsWeeklyExpansion(dates, old(selectedDate), old(recurringEndDate)))
        && message == Some(ConfirmationMessage(old(isRecurring), |dates|, old(modalData).value.deskName, old(startTime), old(endTime)))
        && !showModal && selectedDesk.None? && startTime == 9 && endTime == 10 && !isRecurring
      ensures modalData == old(modalData) && selectedDate == old(selectedDate)
      ensures recurringEndDate == old(recurringEndDate) && recurringPattern == old(recurringPattern)
    {
      if modalData.None? {
        return [], None;
      }
      dates := GenerateRecurringDates(isRecurring, recurringPattern, selectedDate, recurringEndDate);
      message := Some(ConfirmationMessage(isRecurring, |dates|, modalData.value.deskName, startTime, endTime));
      CloseModal();
    }
  }
}
