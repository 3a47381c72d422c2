/**
 * The left column of the event form: category and location pickers, the
 * price input, and the time-slot list with its two-step delete and the
 * add/edit dialogs. It owns only dialog and picker state; every change to
 * the event goes through the callbacks it is given, which the model
 * returns as a list of calls.
 */
module LeftColumn {
  import opened Wrappers
  import opened Strings
  import opened Lists
  import opened Clock
  import opened EventForm

  /** The callbacks the column calls. */
  datatype Call =
    | DeleteSlot(index: int)
    | EditSlot(index: int, slot: FormTimeSlot)
    | AddSlot(seats: int, startTime: Instant, endTime: Instant)
    | SelectDate(date: Option<Instant>)
    | Change(change: FieldChange)

  /** `handleCategoryChange(category)`: `formData.categories || []` with
   *  the category toggled. */
  function CategoryChange(categories: Option<seq<string>>, category: string): (r: Call)
    ensures var current := categories.GetOr([]);
      (category !in current ==> r == Change(SetCategories(current + [category]))) &&
      (category in current ==> r == Change(SetCategories(Without(current, category))))
  {
    Change(SetCategories(Toggle(categories.GetOr([]), category)))
  }

  /** Choosing a category twice, starting from a list without it, gives the
   *  list back. */
  lemma CategoryChangeTwice(categories: seq<string>, category: string)
    requires category !in categories
    ensures CategoryChange(Some(CategoryChange(Some(categories), category).change.categories), category)
      == Change(SetCategories(categories))
  {
    ToggleTwice(categories, category);
  }

  /** Whether a known location matches the search text, ignoring case. */
  predicate Matches(location: string, search: string)
  {
    IncludesIgnoringCase(location, search)
  }

  /** `filteredLocations`: the known locations matching the search, in
   *  their order. */
  function FilterLocations(locations: seq<string>, search: string): (r: seq<string>)
    ensures forall l :: l in r <==> l in locations && Matches(l, search)
  {
    Filter(locations, l => Matches(l, search))
  }

  /** The filter keeps the order of the known locations. */
  lemma FilterLocationsAppend(a: seq<string>, b: seq<string>, search: string)
    ensures FilterLocations(a + b, search) == FilterLocations(a, search) + FilterLocations(b, search)
  {
    FilterAppend(a, b, l => Matches(l, search));
  }

  /** An empty search keeps every known location. */
  lemma EmptySearchKeepsAll(locations: seq<string>)
    ensures FilterLocations(locations, "") == locations
  {
    forall i | 0 <= i < |locations| ensures Matches(locations[i], "") {
      EmptyTermIncluded(locations[i]);
    }
    FilterKeepsAll(locations, l => Matches(l, ""));
  }

  /** The "new location" hint under the location input. */
  predicate NewLocationHint(location: string, locations: seq<string>)
  {
    location != "" && location !in locations
  }

  /** A location picked from the filtered list never shows the hint. */
  lemma PickedLocationIsKnown(locations: seq<string>, search: string, i: nat)
    requires i < |FilterLocations(locations, search)|
    ensures !NewLocationHint(FilterLocations(locations, search)[i], locations)
  {
  }

  /** `handlePriceChange`: `parseFloat(value) || 0`, with `parsed` the
   *  number `parseFloat` yields (None: NaN). */
  function PriceChange(parsed: Option<real>): (r: Call)
    ensures parsed.None? ==> r == Change(SetPrice(0.0))
    ensures parsed.Some? ==> r == Change(SetPrice(parsed.value))
  {
    Change(SetPrice(if parsed.Some? && parsed.value != 0.0 then parsed.value else 0.0))
  }

  /** `handleAddTimeSlot(slot)`: forwards the slot and clears the date
   *  only when a date is selected. */
  function AddTimeSlot(selectedDate: Option<Instant>, seats: int, startTime: Instant, endTime: Instant): (calls: seq<Call>)
    ensures selectedDate.Some? ==> calls == [AddSlot(seats, startTime, endTime), SelectDate(None)]
    ensures selectedDate.None? ==> calls == []
  {
    if selectedDate.Some? then [AddSlot(seats, startTime, endTime), SelectDate(None)] else []
  }

  /** The slot the edit dialog is open for. */
  datatype Editing = Editing(index: int, slot: FormTimeSlot)

  /** Editing through the column keeps the slot's date and, when it had
   *  one, its id; seats and times are the dialog's. */
  lemma EditKeepsDateAndId(slots: seq<FormTimeSlot>, index: nat, seats: int, startTime: Instant, endTime: Instant)
    requires index < |slots|
    ensures var r := ReplaceAt(slots, index, FormTimeSlot(None, slots[index].date, startTime, endTime, seats));
      r[index] == FormTimeSlot(if Truthy(slots[index].id) then slots[index].id else None,
        slots[index].date, startTime, endTime, seats)
  {
  }

  class LeftColumnState {
    var deleteConfirmOpen: bool
    var selectedSlotIndex: Option<int>
    var editingSlot: Option<Editing>
    var locations: seq<string>
    var locationOpen: bool
    var locationSearch: string

    constructor()
      ensures !deleteConfirmOpen && selectedSlotIndex.None? && editingSlot.None?
      ensures locations == [] && !locationOpen && locationSearch == ""
    {
      deleteConfirmOpen := false;
      selectedSlotIndex := None;
      editingSlot := None;
      locations := [];
      locationOpen := false;
      locationSearch := "";
    }

    /** The mount effect: the locations `getUniqueLocations` resolves to, or
     *  [] when it throws (None). */
    method LocationsLoaded(result: Option<seq<string>>)
      modifies this
      ensures locations == result.GetOr([])
      ensures deleteConfirmOpen == old(deleteConfirmOpen) && selectedSlotIndex == old(selectedSlotIndex)
      ensures editingSlot == old(editingSlot) && locationOpen == old(locationOpen) && locationSearch == old(locationSearch)
    {
      locations := result.GetOr([]);
    }

    function FilteredLocations(): seq<string>
      reads this
    {
      FilterLocations(locations, locationSearch)
    }

    method SetLocationSearch(search: string)
      modifies this
      ensures locationSearch == search
      ensures deleteConfirmOpen == old(deleteConfirmOpen) && selectedSlotIndex == old(selectedSlotIndex)
      ensures editingSlot == old(editingSlot) && locations == old(locations) && locationOpen == old(locationOpen)
    {
      locationSearch := search;
    }

    /** `handleLocationSelect(location)`: the location is set, the picker
     *  closes and the search text is cleared. */
    method LocationSelect(location: string) returns (calls: seq<Call>)
      modifies this
      ensures calls == [Change(SetLocation(location))]
      ensures !locationOpen && locationSearch == ""
      ensures deleteConfirmOpen == old(deleteConfirmOpen) && selectedSlotIndex == old(selectedSlotIndex)
      ensures editingSlot == old(editingSlot) && locations == old(locations)
    {
      calls := [Change(SetLocation(location))];
      locationOpen := false;
      locationSearch := "";
    }

    /** `handleDeleteClick(index)`: the first step only records the index
     *  and opens the confirmation. */
    method DeleteClick(index: int)
      modifies this
      ensures selectedSlotIndex == Some(index) && deleteConfirmOpen
      ensures editingSlot == old(editingSlot) && locations == old(locations)
      ensures locationOpen == old(locationOpen) && locationSearch == old(locationSearch)
    {
      selectedSlotIndex := Some(index);
      deleteConfirmOpen := true;
    }

    /** The confirmation's `onOpenChange`; closing it keeps the index. */
    method DeleteDialogOpenChange(open: bool)
      modifies this
      ensures deleteConfirmOpen == open
      ensures selectedSlotIndex == old(selectedSlotIndex) && editingSlot == old(editingSlot)
      ensures locations == old(locations) && locationOpen == old(locationOpen) && locationSearch == old(locationSearch)
    {
      deleteConfirmOpen := open;
    }

    /** `handleDeleteConfirm`: the second step deletes only when an index
     *  is recorded and `onDeleteTimeSlot` is given, then closes the
     *  confirmation and forgets the index; otherwise nothing happens. */
    method DeleteConfirm(hasDeleteHandler: bool) returns (calls: seq<Call>)
      modifies this
      ensures old(selectedSlotIndex).Some? && hasDeleteHandler ==>
        calls == [DeleteSlot(old(selectedSlotIndex).value)] && !deleteConfirmOpen && selectedSlotIndex.None?
      ensures !(old(selectedSlotIndex).Some? && hasDeleteHandler) ==> calls == [] && unchanged(this)
      ensures editingSlot == old(editingSlot) && locations == old(locations)
      ensures locationOpen == old(locationOpen) && locationSearch == old(locationSearch)
    {
      calls := [];
      if selectedSlotIndex.Some? && hasDeleteHandler {
        calls := [DeleteSlot(selectedSlotIndex.value)];
        deleteConfirmOpen := false;
        selectedSlotIndex := None;
      }
    }

    /** `handleEditClick(index, slot)`: opens the edit dialog on the slot. */
    method EditClick(index: int, slot: FormTimeSlot)
      modifies this
      ensures editingSlot == Some(Editing(index, slot))
      ensures deleteConfirmOpen == old(deleteConfirmOpen) && selectedSlotIndex == old(selectedSlotIndex)
      ensures locations == old(locations) && locationOpen == old(locationOpen) && locationSearch == old(locationSearch)
    {
      editingSlot := Some(Editing(index, slot));
    }

    /** The edit dialog's `onClose`. */
    method EditClose()
      modifies this
      ensures editingSlot.None?
      ensures deleteConfirmOpen == old(deleteConfirmOpen) && selectedSlotIndex == old(selectedSlotIndex)
      ensures locations == old(locations) && locationOpen == old(locationOpen) && locationSearch == old(locationSearch)
    {
      editingSlot := None;
    }

    /** `handleEditSubmit(slot)`: without an open edit nothing happens.
     *  Otherwise the dialog's seats and times go to `onEditTimeSlot` with
     *  the date of `timeSlots[index]`, and the edit closes. An index past
     *  the current list makes `.date` throw (`crashed`), before any call. */
    method EditSubmit(timeSlots: seq<FormTimeSlot>, seats: int, startTime: Instant, endTime: Instant)
      returns (calls: seq<Call>, crashed: bool)
      modifies this
      ensures old(editingSlot).None? ==> calls == [] && !crashed && unchanged(this)
      ensures old(editingSlot).Some? && !(0 <= old(editingSlot).value.index < |timeSlots|) ==>
        calls == [] && crashed && unchanged(this)
      ensures old(editingSlot).Some? && 0 <= old(editingSlot).value.index < |timeSlots| ==>
        var i := old(editingSlot).value.index;
        calls == [EditSlot(i, FormTimeSlot(None, timeSlots[i].date, startTime, endTime, seats))] &&
        !crashed && editingSlot.None?
      ensures deleteConfirmOpen == old(deleteConfirmOpen) && selectedSlotIndex == old(selectedSlotIndex)
      ensures locations == old(locations) && locationOpen == old(locationOpen) && locationSearch == old(locationSearch)
    {
      calls := [];
      crashed := false;
      if editingSlot.Some? {
        var i := editingSlot.value.index;
        if !(0 <= i < |timeSlots|) {
          crashed := true;
          return;
        }
        calls := [EditSlot(i, FormTimeSlot(None, timeSlots[i].date, startTime, endTime, seats))];
        editingSlot := None;
      }
    }
  }
}
