/**
 * The admin seat-plan editor (app/admin/manage-seat/page.tsx): seats loaded from the
 * floor plan's resources, a new seat placed on an empty spot, the edit form with its
 * date ranges, change detection, deleting a seat, and the batch save with its summary.
 *
 * Network calls are not made here: each delete and each seat save is given as an
 * abstract outcome, and the requests the save would send are returned as values.
 */
module ManageSeat {
  import opened Wrappers
  import opened Text
  import opened Lists

  datatype DateRange = DateRange(start: string, end: string)

  datatype TimeRange = TimeRange(start: string, end: string)

  /** The resource types a seat can carry; `PARKING` is a backend type that reaches the
      page through a cast. */
  datatype SeatType = Solo | Team | Parking

  datatype Seat = Seat(
    id: string,
    resourceId: Option<int>,
    number: string,
    x: real,
    y: real,
    dateRanges: seq<DateRange>,
    timeRange: TimeRange,
    description: string,
    blocked: bool,
    seatType: SeatType)

  datatype SeatEditForm = SeatEditForm(
    seatId: string,
    number: string,
    dateRanges: seq<DateRange>,
    timeRange: TimeRange,
    description: string,
    blocked: bool,
    seatType: SeatType)

  /** A resource of the floor plan as the resources endpoint returns it. */
  datatype Resource = Resource(
    id: int,
    name: Option<string>,
    positionX: Option<real>,
    positionY: Option<real>,
    description: Option<string>,
    isActive: Option<bool>,
    resourceType: Option<SeatType>)

  /** The loaded floor plan: its id, floor, building and image path, each as the plan
      endpoint returns it. */
  datatype FloorPlanInfo = FloorPlanInfo(id: int, floor: Option<string>, building: Option<string>, imageUrl: Option<string>)

  /** `floorPlan?.image_url` is truthy: the plan has a non-empty image path. */
  predicate HasImage(plan: Option<FloorPlanInfo>) {
    plan.Some? && plan.value.imageUrl.Some? && plan.value.imageUrl.value != []
  }

  /** The opening hours every seat starts with. */
  function DefaultTimeRange(): TimeRange {
    TimeRange("09:00", "17:00")
  }

  /** A resource id the page treats as present: defined and not 0. */
  predicate Truthy(resourceId: Option<int>) {
    resourceId.Some? && resourceId.value != 0
  }

  /** Only resources placed on the plan (both coordinates set) become seats. */
  predicate Positioned(r: Resource) {
    r.positionX.Some? && r.positionY.Some?
  }

  /** The seat a positioned resource becomes. */
  function ResourceToSeat(r: Resource): (s: Seat)
    requires Positioned(r)
    ensures s.id == "seat-" + IntToString(r.id) && s.resourceId == Some(r.id)
    ensures s.x == r.positionX.value && s.y == r.positionY.value
    ensures s.dateRanges == [] && s.timeRange == DefaultTimeRange()
    ensures s.number == r.name.GetOr("") && s.description == r.description.GetOr("")
    ensures s.blocked <==> r.isActive != Some(true)
    ensures r.resourceType.None? ==> s.seatType == Solo
    ensures r.resourceType.Some? ==> s.seatType == r.resourceType.value
  {
    Seat(
      "seat-" + IntToString(r.id), Some(r.id), r.name.GetOr(""),
      r.positionX.value, r.positionY.value,
      [], DefaultTimeRange(), r.description.GetOr(""),
      !(r.isActive == Some(true)), r.resourceType.GetOr(Solo))
  }

  /** Converting resources to seats: the positioned resources, in order, each as its seat. */
  function LoadSeats(resources: seq<Resource>): (seats: seq<Seat>)
    ensures |seats| <= |resources|
    ensures forall s :: s in seats <==> exists r :: r in resources && Positioned(r) && s == ResourceToSeat(r)
    ensures forall s :: s in seats ==> s.dateRanges == [] && s.timeRange == DefaultTimeRange() && s.resourceId.Some?
  {
    if resources == [] then []
    else
      var rest := LoadSeats(resources[1..]);
      assert resources == [resources[0]] + resources[1..];
      if Positioned(resources[0]) then [ResourceToSeat(resources[0])] + rest else rest
  }

  /** Loading keeps the order and the multiplicity of the resources: it works on each part
      of the list separately, and a single resource gives its seat or nothing. */
  lemma {:induction false} LoadSeatsSplits(a: seq<Resource>, b: seq<Resource>)
    ensures LoadSeats(a + b) == LoadSeats(a) + LoadSeats(b)
    decreases |a|
  {
    if a == [] {
      assert a + b == b;
    } else {
      assert (a + b)[0] == a[0] && (a + b)[1..] == a[1..] + b;
      LoadSeatsSplits(a[1..], b);
    }
  }

  lemma {:induction false} LoadSingleResource(r: Resource)
    ensures Positioned(r) ==> LoadSeats([r]) == [ResourceToSeat(r)]
    ensures !Positioned(r) ==> LoadSeats([r]) == []
  {
    assert [r][1..] == [];
  }

  /** The seat placed on an empty spot of the plan: numbered after the seats already
      there, open 09:00 to 17:00, unblocked, SOLO, with no date ranges and no resource. */
  function NewSeat(seatCount: nat, now: int, x: real, y: real): (s: Seat)
    ensures s.number == "Seat " + NatToString(seatCount + 1)
    ensures s.resourceId.None? && !s.blocked && s.seatType == Solo
    ensures s.dateRanges == [] && s.timeRange == DefaultTimeRange() && s.description == []
    ensures s.x == x && s.y == y
  {
    Seat("seat-" + IntToString(now), None, "Seat " + NatToString(seatCount + 1), x, y,
      [], DefaultTimeRange(), "", false, Solo)
  }

  /** The edit form opened on a seat. */
  function FormOf(s: Seat): (f: SeatEditForm)
    ensures f.seatId == s.id
  {
    SeatEditForm(s.id, s.number, s.dateRanges, s.timeRange, s.description, s.blocked, s.seatType)
  }

  /** A seat with the form's six edited fields copied in. */
  function Edited(s: Seat, form: SeatEditForm): (r: Seat)
    ensures r.id == s.id && r.resourceId == s.resourceId && r.x == s.x && r.y == s.y
    ensures FormOf(r) == form.(seatId := s.id)
  {
    s.(number := form.number, dateRanges := form.dateRanges, timeRange := form.timeRange,
       description := form.description, blocked := form.blocked, seatType := form.seatType)
  }

  /** `handleFormSubmit`'s update: the seats whose id is the form's take the edited fields;
      every other seat, the order and the length stay as they were. */
  function ApplyForm(seats: seq<Seat>, form: SeatEditForm): (r: seq<Seat>)
    ensures |r| == |seats|
    ensures forall i :: 0 <= i < |seats| && seats[i].id != form.seatId ==> r[i] == seats[i]
    ensures forall i :: 0 <= i < |seats| && seats[i].id == form.seatId ==>
      && r[i].id == seats[i].id && r[i].resourceId == seats[i].resourceId
      && r[i].x == seats[i].x && r[i].y == seats[i].y
      && FormOf(r[i]) == form
  {
    seq(|seats|, i requires 0 <= i < |seats| => if seats[i].id == form.seatId then Edited(seats[i], form) else seats[i])
  }

  /** `hasChanges`: nothing is pending without a form and a selected seat; otherwise the
      number, the time range, the date ranges, the description or the blocked flag
      differ. The seat type is not compared. */
  function HasChanges(form: Option<SeatEditForm>, selected: Option<Seat>): (r: bool)
    ensures form.None? || selected.None? ==> !r
    ensures form.Some? && selected.Some? ==>
      (r <==> FormOf(selected.value).(seatId := form.value.seatId, seatType := form.value.seatType) != form.value)
  {
    if form.None? || selected.None? then false
    else
      var f, s := form.value, selected.value;
      f.number != s.number || f.timeRange != s.timeRange || f.dateRanges != s.dateRanges
        || f.description != s.description || f.blocked != s.blocked
  }

  /** A form just opened on a seat has nothing to save. */
  lemma {:induction false} OpenedFormHasNoChanges(s: Seat)
    ensures !HasChanges(Some(FormOf(s)), Some(s))
  {
  }

  /** Changing only the type in the form is not reported as a change. */
  lemma {:induction false} TypeIsNotAChange(s: Seat, t: SeatType)
    ensures !HasChanges(Some(FormOf(s).(seatType := t)), Some(s))
  {
  }

  /** After a submit, the seat's reopened form shows exactly what was submitted, so it has
      no pending changes. */
  lemma {:induction false} SubmitThenReopen(seats: seq<Seat>, form: SeatEditForm, i: nat)
    requires i < |seats| && seats[i].id == form.seatId
    ensures FormOf(ApplyForm(seats, form)[i]) == form
    ensures !HasChanges(Some(form), Some(ApplyForm(seats, form)[i]))
  {
  }

  /** `handleAddDateRange`'s new list: one more range, from today to today, at the end. */
  function AppendDateRange(ranges: seq<DateRange>, today: string): (r: seq<DateRange>)
    ensures |r| == |ranges| + 1 && r[..|ranges|] == ranges
    ensures r[|ranges|].start == today && r[|ranges|].end == today
  {
    ranges + [DateRange(today, today)]
  }

  datatype RangeField = StartField | EndField

  /** `handleUpdateDateRange`'s new list: only the named field of the range at `index`
      takes the new value. */
  function UpdateDateRange(ranges: seq<DateRange>, index: nat, field: RangeField, value: string): (r: seq<DateRange>)
    requires index < |ranges|
    ensures |r| == |ranges|
    ensures forall i :: 0 <= i < |ranges| && i != index ==> r[i] == ranges[i]
    ensures field == StartField ==> r[index].start == value && r[index].end == ranges[index].end
    ensures field == EndField ==> r[index].end == value && r[index].start == ranges[index].start
  {
    var old_ := ranges[index];
    ranges[index := if field == StartField then old_.(start := value) else old_.(end := value)]
  }

  /** `handleRemoveDateRange`'s new list, `ranges.filter((_, i) => i !== index)`: the
      range at `index` is gone and the rest keep their order; an index past the end
      removes nothing. */
  function RemoveDateRange(ranges: seq<DateRange>, index: nat): (r: seq<DateRange>)
    ensures index < |ranges| ==> r == ranges[..index] + ranges[index + 1..]
    ensures index >= |ranges| ==> r == ranges
  {
    if ranges == [] then []
    else if index == 0 then ranges[1..]
    else
      assert ranges == [ranges[0]] + ranges[1..];
      [ranges[0]] + RemoveDateRange(ranges[1..], index - 1)
  }

  /** Adding a range and then removing the last one gives back the old list. */
  lemma {:induction false} RemoveUndoesAppend(ranges: seq<DateRange>, today: string)
    ensures RemoveDateRange(AppendDateRange(ranges, today), |ranges|) == ranges
  {
  }

  /** `seats.filter(seat => seat.id !== selectedSeat.id)`. */
  function RemoveSeat(seats: seq<Seat>, id: string): (r: seq<Seat>)
    ensures forall s {:trigger multiset(r)[s]} :: multiset(r)[s] == if s.id == id then 0 else multiset(seats)[s]
    ensures forall s :: s in r <==> s in seats && s.id != id
    ensures |r| <= |seats|
  {
    FilterMembers(seats, (s: Seat) => s.id != id);
    Filter(seats, (s: Seat) => s.id != id)
  }

  /** The ids to delete on save after deleting `s`: its resource id is recorded only when
      it is truthy. */
  function RecordDeletion(deleted: seq<int>, s: Seat): (r: seq<int>)
    ensures Truthy(s.resourceId) ==> r == deleted + [s.resourceId.value]
    ensures !Truthy(s.resourceId) ==> r == deleted
  {
    if Truthy(s.resourceId) then deleted + [s.resourceId.value] else deleted
  }

  /** The capacity sent for a seat: four for a TEAM seat, one otherwise. */
  function Capacity(t: SeatType): (c: nat)
    ensures c == 4 <==> t == Team
    ensures c == 1 <==> t != Team
  {
    if t == Team then 4 else 1
  }

  datatype ResourcePayload = ResourcePayload(
    name: string,
    description: string,
    seatType: SeatType,
    capacity: nat,
    floor: string,
    building: string,
    timeSlotGranularity: nat)

  datatype Position = Position(floorPlanId: int, x: real, y: real)

  /** The requests the save sends, in order: deletes, then one update (with its position)
      per seat that has a resource, or one create (with its position) per seat that has
      none. */
  datatype SaveRequest =
    | DeleteResource(resourceId: int)
    | UpdateResource(resourceId: int, payload: ResourcePayload, position: Position)
    | CreateResource(payload: ResourcePayload, position: Position)

  /** The create/update body for a seat on a floor plan. */
  function PayloadOf(s: Seat, plan: FloorPlanInfo): (p: ResourcePayload)
    ensures p.name == s.number && p.description == s.description && p.seatType == s.seatType
    ensures p.capacity == Capacity(s.seatType) && p.timeSlotGranularity == 15
    ensures p.floor == plan.floor.GetOr("") && p.building == plan.building.GetOr("")
  {
    ResourcePayload(s.number, s.description, s.seatType, Capacity(s.seatType),
      plan.floor.GetOr(""), plan.building.GetOr(""), 15)
  }

  /** The request saving a seat: an update of its resource when it has one, else a create. */
  function SeatRequest(s: Seat, plan: FloorPlanInfo): (r: SaveRequest)
    ensures r.UpdateResource? <==> Truthy(s.resourceId)
    ensures r.CreateResource? <==> !Truthy(s.resourceId)
    ensures !r.DeleteResource? && r.payload == PayloadOf(s, plan) && r.position == Position(plan.id, s.x, s.y)
  {
    if Truthy(s.resourceId) then UpdateResource(s.resourceId.value, PayloadOf(s, plan), Position(plan.id, s.x, s.y))
    else CreateResource(PayloadOf(s, plan), Position(plan.id, s.x, s.y))
  }

  /** How one seat's save ended: it failed, or it succeeded, a create returning the new
      resource's id if the response had one. */
  datatype SaveOutcome = SaveFailed | Saved(createdId: Option<int>)

  /** A seat after its save: a new seat whose create returned a truthy id takes it; every
      other seat is unchanged. */
  function AfterSave(s: Seat, outcome: SaveOutcome): (r: Seat)
    ensures r.(resourceId := s.resourceId) == s
    ensures Truthy(s.resourceId) || outcome.SaveFailed? ==> r == s
    ensures !Truthy(s.resourceId) && outcome.Saved? && Truthy(outcome.createdId) ==> r.resourceId == outcome.createdId
    ensures Truthy(r.resourceId) <==> Truthy(s.resourceId) || (outcome.Saved? && Truthy(outcome.createdId))
  {
    if !Truthy(s.resourceId) && outcome.Saved? && Truthy(outcome.createdId) then s.(resourceId := outcome.createdId)
    else s
  }

  function CountTrue(bs: seq<bool>): (n: nat)
    ensures n <= |bs|
  {
    if bs == [] then 0 else CountTrue(bs[..|bs| - 1]) + (if bs[|bs| - 1] then 1 else 0)
  }

  function CountSaved(outcomes: seq<SaveOutcome>): (n: nat)
    ensures n <= |outcomes|
  {
    if outcomes == [] then 0 else CountSaved(outcomes[..|outcomes| - 1]) + (if outcomes[|outcomes| - 1].Saved? then 1 else 0)
  }

  /** The toast after a save, with the counts its text shows. */
  datatype Toast = SuccessToast(saved: nat) | WarningToast(saved: nat, failed: nat) | ErrorToast

  /** The text each toast shows. */
  function ToastMessage(t: Toast): string {
    match t
    case SuccessToast(saved) => "Successfully saved " + NatToString(saved) + " changes!"
    case WarningToast(saved, failed) => "Saved " + NatToString(saved) + " changes, " + NatToString(failed) + " failed"
    case ErrorToast => "Failed to save changes"
  }

  /** The toast after a save: success when nothing failed, a warning when some calls
      succeeded and some failed, an error when everything failed; the counts shown are
      the ones given. */
  function SaveSummary(successCount: nat, errorCount: nat): (t: Toast)
    ensures t.SuccessToast? <==> errorCount == 0
    ensures t.WarningToast? <==> errorCount > 0 && successCount > 0
    ensures t.ErrorToast? <==> errorCount > 0 && successCount == 0
    ensures !t.ErrorToast? ==> t.saved == successCount
    ensures t.WarningToast? ==> t.failed == errorCount
  {
    if errorCount == 0 then SuccessToast(successCount)
    else if successCount > 0 then WarningToast(successCount, errorCount)
    else ErrorToast
  }

  /** The calls of a save in the order they are made: a delete per queued id, then a
      create or update per seat. */
  predicate RequestsFor(requests: seq<SaveRequest>, deletedResourceIds: seq<int>, seats: seq<Seat>, plan: FloorPlanInfo) {
    && |requests| == |deletedResourceIds| + |seats|
    && (forall i :: 0 <= i < |deletedResourceIds| ==> requests[i] == DeleteResource(deletedResourceIds[i]))
    && (forall i :: 0 <= i < |seats| ==> requests[|deletedResourceIds| + i] == SeatRequest(seats[i], plan))
  }

  /** Every seat after its own save. */
  predicate SavedFrom(savedSeats: seq<Seat>, seats: seq<Seat>, outcomes: seq<SaveOutcome>)
    requires |outcomes| == |seats|
  {
    |savedSeats| == |seats| && forall i :: 0 <= i < |seats| ==> savedSeats[i] == AfterSave(seats[i], outcomes[i])
  }

  /** The deletes followed by the seat saves are the calls of the whole save. */
  lemma {:induction false} RequestsConcat(deletes: seq<SaveRequest>, saves: seq<SaveRequest>,
                                          deletedResourceIds: seq<int>, seats: seq<Seat>, plan: FloorPlanInfo)
    requires RequestsFor(deletes, deletedResourceIds, [], plan)
    requires |saves| == |seats| && forall i :: 0 <= i < |seats| ==> saves[i] == SeatRequest(seats[i], plan)
    ensures RequestsFor(deletes + saves, deletedResourceIds, seats, plan)
  {
    var requests := deletes + saves;
    assert forall i :: 0 <= i < |deletes| ==> requests[i] == deletes[i];
    assert forall i :: 0 <= i < |saves| ==> requests[|deletes| + i] == saves[i];
  }

  /** The body of `handleSaveAll` once a floor plan is loaded. The deletes are sent and
      counted; with no seats left it stops there, without clearing the deleted ids and
      without a toast. Otherwise every seat is saved and counted, new seats take their
      created ids, the deleted ids are cleared and the summary toast is shown. */
  method SaveSeatPlan(seats: seq<Seat>, deletedResourceIds: seq<int>, plan: FloorPlanInfo,
                      deleteOk: seq<bool>, outcomes: seq<SaveOutcome>)
    returns (requests: seq<SaveRequest>, savedSeats: seq<Seat>, successCount: nat, errorCount: nat,
             clearDeleted: bool, toast: Option<Toast>)
    requires |deleteOk| == |deletedResourceIds| && |outcomes| == |seats|
    ensures RequestsFor(requests, deletedResourceIds, seats, plan)
    ensures SavedFrom(savedSeats, seats, outcomes)
    ensures successCount == CountTrue(deleteOk) + CountSaved(outcomes)
    ensures successCount + errorCount == |deletedResourceIds| + |seats|
    ensures seats == [] ==> !clearDeleted && toast.None?
    ensures seats != [] ==> clearDeleted && toast == Some(SaveSummary(successCount, errorCount))
  {
    var deletes, deleted, deleteErrors := SendDeletes(deletedResourceIds, deleteOk, plan);
    if |seats| == 0 {
      assert CountSaved(outcomes) == 0;
      return deletes, seats, deleted, deleteErrors, false, None;
    }
    var saves, saved, saveErrors;
    saves, savedSeats, saved, saveErrors := SaveSeats(seats, plan, outcomes);
    RequestsConcat(deletes, saves, deletedResourceIds, seats, plan);
    requests := deletes + saves;
    successCount, errorCount := deleted + saved, deleteErrors + saveErrors;
    clearDeleted := true;
    toast := Some(SaveSummary(successCount, errorCount));
  }

  /** The first loop of the save: one delete per queued id, counted by its outcome. */
  method SendDeletes(deletedResourceIds: seq<int>, deleteOk: seq<bool>, plan: FloorPlanInfo)
    returns (requests: seq<SaveRequest>, successCount: nat, errorCount: nat)
    requires |deleteOk| == |deletedResourceIds|
    ensures RequestsFor(requests, deletedResourceIds, [], plan)
    ensures successCount == CountTrue(deleteOk) && successCount + errorCount == |deletedResourceIds|
  {
    successCount, errorCount := 0, 0;
    requests := [];
    var i := 0;
    while i < |deletedResourceIds|
      invariant 0 <= i <= |deletedResourceIds|
      invariant |requests| == i
      invariant forall k :: 0 <= k < i ==> requests[k] == DeleteResource(deletedResourceIds[k])
      invariant successCount == CountTrue(deleteOk[..i]) && successCount + errorCount == i
    {
      requests := requests + [DeleteResource(deletedResourceIds[i])];
      assert deleteOk[..i + 1][..i] == deleteOk[..i];
      if deleteOk[i] {
        successCount := successCount + 1;
      } else {
        errorCount := errorCount + 1;
      }
      i := i + 1;
    }
    assert deleteOk[..i] == deleteOk;
  }

  /** The second loop of the save: one create or update per seat, counted by its
      outcome, a created id stored on its seat. */
  method SaveSeats(seats: seq<Seat>, plan: FloorPlanInfo, outcomes: seq<SaveOutcome>)
    returns (requests: seq<SaveRequest>, savedSeats: seq<Seat>, successCount: nat, errorCount: nat)
    requires |outcomes| == |seats|
    ensures |requests| == |seats| && forall i :: 0 <= i < |seats| ==> requests[i] == SeatRequest(seats[i], plan)
    ensures SavedFrom(savedSeats, seats, outcomes)
    ensures successCount == CountSaved(outcomes) && successCount + errorCount == |seats|
  {
    successCount, errorCount := 0, 0;
    requests, savedSeats := [], [];
    var j := 0;
    while j < |seats|
      invariant 0 <= j <= |seats|
      invariant |requests| == j && |savedSeats| == j
      invariant forall k :: 0 <= k < j ==> requests[k] == SeatRequest(seats[k], plan)
      invariant forall k :: 0 <= k < j ==> savedSeats[k] == AfterSave(seats[k], outcomes[k])
      invariant successCount == CountSaved(outcomes[..j]) && successCount + errorCount == j
    {
      var request, seat, ok := SaveSeat(seats[j], plan, outcomes[j]);
      assert outcomes[..j + 1][..j] == outcomes[..j];
      assert CountSaved(outcomes[..j + 1]) == CountSaved(outcomes[..j]) + (if ok then 1 else 0);
      AppendKeepsPrefix(requests, request);
      AppendKeepsPrefix(savedSeats, seat);
      requests := requests + [request];
      savedSeats := savedSeats + [seat];
      if ok {
        successCount := successCount + 1;
      } else {
        errorCount := errorCount + 1;
      }
      j := j + 1;
    }
    assert outcomes[..j] == outcomes;
  }

  lemma {:induction false} AppendKeepsPrefix<T>(xs: seq<T>, x: T)
    ensures |xs + [x]| == |xs| + 1 && (xs + [x])[|xs|] == x
    ensures forall k :: 0 <= k < |xs| ==> (xs + [x])[k] == xs[k]
  {
  }

  /** One seat's save: an update of a seat that has a resource, a create of one that has
      none; a create that succeeds with a truthy id gives the seat that id. */
  method SaveSeat(seat: Seat, plan: FloorPlanInfo, outcome: SaveOutcome)
    returns (request: SaveRequest, saved: Seat, ok: bool)
    ensures request == SeatRequest(seat, plan)
    ensures saved == AfterSave(seat, outcome)
    ensures ok <==> outcome.Saved?
  {
    request := SeatRequest(seat, plan);
    saved := seat;
    match outcome {
      case SaveFailed =>
        ok := false;
      case Saved(createdId) =>
        if !Truthy(seat.resourceId) && Truthy(createdId) {
          saved := seat.(resourceId := createdId);
        }
        ok := true;
    }
  }

  /** Success is reported only when every call succeeded: then the count is the number
      of deletes plus the number of seats. */
  lemma {:induction false} SuccessMeansAllSaved(deleteOk: seq<bool>, outcomes: seq<SaveOutcome>, errorCount: nat)
    requires CountTrue(deleteOk) + CountSaved(outcomes) + errorCount == |deleteOk| + |outcomes|
    requires SaveSummary(CountTrue(deleteOk) + CountSaved(outcomes), errorCount).SuccessToast?
    ensures forall i :: 0 <= i < |deleteOk| ==> deleteOk[i]
    ensures forall i :: 0 <= i < |outcomes| ==> outcomes[i].Saved?
  {
    AllTrueWhenFull(deleteOk);
    AllSavedWhenFull(outcomes);
  }

  lemma {:induction false} AllTrueWhenFull(bs: seq<bool>)
    ensures CountTrue(bs) == |bs| ==> forall i :: 0 <= i < |bs| ==> bs[i]
  {
    if bs != [] {
      AllTrueWhenFull(bs[..|bs| - 1]);
    }
  }

  lemma {:induction false} AllSavedWhenFull(outcomes: seq<SaveOutcome>)
    ensures CountSaved(outcomes) == |outcomes| ==> forall i :: 0 <= i < |outcomes| ==> outcomes[i].Saved?
  {
    if outcomes != [] {
      AllSavedWhenFull(outcomes[..|outcomes| - 1]);
    }
  }

  /** The editor's component state and its handlers. */
  class SeatEditor {
    var floorPlan: Option<FloorPlanInfo>
    var seats: seq<Seat>
    var deletedResourceIds: seq<int>
    var selectedSeat: Option<Seat>
    var editForm: Option<SeatEditForm>
    var showForm: bool

    /** The editor after loading `plan` and its resources. */
    constructor(plan: FloorPlanInfo, resources: seq<Resource>)
      ensures floorPlan == Some(plan) && seats == LoadSeats(resources)
      ensures deletedResourceIds == [] && selectedSeat.None? && editForm.None? && !showForm
    {
      floorPlan := Some(plan);
      seats := LoadSeats(resources);
      deletedResourceIds := [];
      selectedSeat := None;
      editForm := None;
      showForm := false;
    }

    /** `handleCanvasClick` once the hit test has run: `hit` is the index of the seat under
        the pointer, if any. That seat is opened in the form; otherwise a new seat is
        appended at the spot and opened. Without a floor plan that has an image path
        nothing happens. */
    method CanvasClick(hit: Option<nat>, now: int, x: real, y: real)
      requires hit.Some? ==> hit.value < |seats|
      modifies this
      ensures !HasImage(floorPlan) ==>
        && seats == old(seats) && selectedSeat == old(selectedSeat) && editForm == old(editForm)
        && showForm == old(showForm)
      ensures HasImage(floorPlan) && hit.Some? ==>
        && seats == old(seats) && selectedSeat == Some(seats[hit.value])
        && editForm == Some(FormOf(seats[hit.value])) && showForm
      ensures HasImage(floorPlan) && hit.None? ==>
        && seats == old(seats) + [NewSeat(|old(seats)|, now, x, y)]
        && selectedSeat == Some(seats[|seats| - 1]) && editForm == Some(FormOf(seats[|seats| - 1])) && showForm
      ensures floorPlan == old(floorPlan) && deletedResourceIds == old(deletedResourceIds)
    {
      if !HasImage(floorPlan) {
        return;
      }
      match hit {
        case Some(k) =>
          selectedSeat := Some(seats[k]);
          editForm := Some(FormOf(seats[k]));
        case None =>
          var seat := NewSeat(|seats|, now, x, y);
          seats := seats + [seat];
          selectedSeat := Some(seat);
          editForm := Some(FormOf(seat));
      }
      showForm := true;
    }

    /** `handleFormSubmit`: the form is applied to the seat it was opened on and closed. */
    method SubmitForm()
      modifies this
      ensures old(editForm).None? ==>
        seats == old(seats) && editForm.None? && selectedSeat == old(selectedSeat) && showForm == old(showForm)
      ensures old(editForm).Some? ==>
        && seats == ApplyForm(old(seats), old(editForm).value)
        && !showForm && selectedSeat.None? && editForm.None?
      ensures floorPlan == old(floorPlan) && deletedResourceIds == old(deletedResourceIds)
    {
      if editForm.None? {
        return;
      }
      seats := ApplyForm(seats, editForm.value);
      showForm := false;
      selectedSeat := None;
      editForm := None;
    }

    /** `handleAddDateRange`, with today's date given. */
    method AddDateRange(today: string)
      modifies this
      ensures old(editForm).None? ==> editForm.None?
      ensures old(editForm).Some? ==>
        editForm == Some(old(editForm).value.(dateRanges := AppendDateRange(old(editForm).value.dateRanges, today)))
      ensures seats == old(seats) && selectedSeat == old(selectedSeat) && deletedResourceIds == old(deletedResourceIds)
      ensures floorPlan == old(floorPlan) && showForm == old(showForm)
    {
      if editForm.None? {
        return;
      }
      var form := editForm.value;
      editForm := Some(form.(dateRanges := AppendDateRange(form.dateRanges, today)));
    }

    /** `handleUpdateDateRange` for a row of the form's date-range list. */
    method UpdateDateRangeAt(index: nat, field: RangeField, value: string)
      requires editForm.Some? ==> index < |editForm.value.dateRanges|
      modifies this
      ensures old(editForm).None? ==> editForm.None?
      ensures old(editForm).Some? ==>
        editForm == Some(old(editForm).value.(dateRanges := UpdateDateRange(old(editForm).value.dateRanges, index, field, value)))
      ensures seats == old(seats) && selectedSeat == old(selectedSeat) && deletedResourceIds == old(deletedResourceIds)
      ensures floorPlan == old(floorPlan) && showForm == old(showForm)
    {
      if editForm.None? {
        return;
      }
      var form := editForm.value;
      editForm := Some(form.(dateRanges := UpdateDateRange(form.dateRanges, index, field, value)));
    }

    /** `handleRemoveDateRange`. */
    method RemoveDateRangeAt(index: nat)
      modifies this
      ensures old(editForm).None? ==> editForm.None?
      ensures old(editForm).Some? ==>
        editForm == Some(old(editForm).value.(dateRanges := RemoveDateRange(old(editForm).value.dateRanges, index)))
      ensures seats == old(seats) && selectedSeat == old(selectedSeat) && deletedResourceIds == old(deletedResourceIds)
      ensures floorPlan == old(floorPlan) && showForm == old(showForm)
    {
      if editForm.None? {
        return;
      }
      var form := editForm.value;
      editForm := Some(form.(dateRanges := RemoveDateRange(form.dateRanges, index)));
    }

    /** `handleDeleteSeat`: the selected seat leaves the list, its truthy resource id is
        queued for deletion, and the form closes. */
    method DeleteSeat()
      modifies this
      ensures old(selectedSeat).None? ==>
        && seats == old(seats) && deletedResourceIds == old(deletedResourceIds)
        && selectedSeat == old(selectedSeat) && editForm == old(editForm) && showForm == old(showForm)
      ensures old(selectedSeat).Some? ==>
        && seats == RemoveSeat(old(seats), old(selectedSeat).value.id)
        && deletedResourceIds == RecordDeletion(old(deletedResourceIds), old(selectedSeat).value)
        && !showForm && selectedSeat.None? && editForm.None?
      ensures floorPlan == old(floorPlan)
    {
      if selectedSeat.None? {
        return;
      }
      var s := selectedSeat.value;
      deletedResourceIds := RecordDeletion(deletedResourceIds, s);
      seats := RemoveSeat(seats, s.id);
      showForm := false;
      selectedSeat := None;
      editForm := None;
    }

    /** `handleSaveAll` with the outcome of every call given: nothing happens without a
        floor plan; otherwise the seats take their created ids and the deleted ids are
        cleared unless no seat was left to save. */
    method SaveAll(deleteOk: seq<bool>, outcomes: seq<SaveOutcome>) returns (requests: seq<SaveRequest>, toast: Option<Toast>)
      requires |deleteOk| == |deletedResourceIds| && |outcomes| == |seats|
      modifies this
      ensures old(floorPlan).None? ==> requests == [] && toast.None? && seats == old(seats)
      ensures old(floorPlan).None? || old(seats) == [] ==> deletedResourceIds == old(deletedResourceIds)
      ensures old(floorPlan).Some? && old(seats) != [] ==>
        && deletedResourceIds == []
        && toast == Some(SaveSummary(CountTrue(deleteOk) + CountSaved(outcomes),
                                     |old(deletedResourceIds)| + |old(seats)| - CountTrue(deleteOk) - CountSaved(outcomes)))
      ensures old(floorPlan).Some? && old(seats) == [] ==> toast.None?
      ensures old(floorPlan).Some? ==> RequestsFor(requests, old(deletedResourceIds), old(seats), old(floorPlan).value)
      ensures old(floorPlan).Some? ==> SavedFrom(seats, old(seats), outcomes)
      ensures floorPlan == old(floorPlan) && selectedSeat == old(selectedSeat) && editForm == old(editForm)
      ensures showForm == old(showForm)
    {
      if floorPlan.None? {
        return [], None;
      }
      var savedSeats, successCount, errorCount, clearDeleted;
      requests, savedSeats, successCount, errorCount, clearDeleted, toast :=
        SaveSeatPlan(seats, deletedResourceIds, floorPlan.value, deleteOk, outcomes);
      seats := savedSeats;
      if clearDeleted {
        deletedResourceIds := [];
      }
    }
  }
}
