/**
 * The event page: the date text of a slot, the slot list's seat
 * predicates, the full-screen image viewer, and the booking steps from
 * choosing a slot to the registration call. The description is drawn by
 * `RichText.Render` with `RichText.DetailStyle`.
 */
module EventsDetail {
  import opened Wrappers
  import opened Strings
  import opened RichText

  // ----- dates ---------------------------------------------------------------

  /** The local calendar fields of a `Date`: `getDate()`, the zero-based
   *  `getMonth()` and `getFullYear()`. */
  datatype CalendarDate = CalendarDate(day: nat, month: nat, year: int)

  /** What a `Date` can hold: a day of 1 to 31 and a month of 0 to 11. */
  predicate ValidCalendarDate(d: CalendarDate)
  {
    1 <= d.day <= 31 && d.month < 12
  }

  /** `formatDate(iso)`: dd.mm.yyyy with the day and the one-based month
   *  padded to two digits. The fields are those of `new Date(iso)`; None
   *  stands for an invalid date, whose fields all print as "NaN". */
  function FormatDate(date: Option<CalendarDate>): (r: string)
    requires date.Some? ==> ValidCalendarDate(date.value)
    ensures date.None? ==> r == "NaN.NaN.NaN"
    ensures date.Some? ==>
      |r| >= 7 && r[2] == '.' && r[5] == '.' &&
      AllDigits(r[..2]) && DigitsValue(r[..2]) == date.value.day &&
      AllDigits(r[3..5]) && DigitsValue(r[3..5]) == date.value.month + 1 &&
      r[6..] == IntToString(date.value.year) && ParseInt(r[6..]) == Some(date.value.year)
  {
    match date
    case None => "NaN.NaN.NaN"
    case Some(d) =>
      var r := Pad2(d.day) + "." + Pad2(d.month + 1) + "." + IntToString(d.year);
      assert r[..2] == Pad2(d.day) && r[3..5] == Pad2(d.month + 1) && r[6..] == IntToString(d.year);
      Pad2Value(d.day);
      Pad2Value(d.month + 1);
      ParseIntToString(d.year);
      NatToStringNonEmpty(if d.year < 0 then -d.year else d.year);
      r
  }

  lemma NatToStringNonEmpty(n: nat)
    ensures |NatToString(n)| >= 1
  {
  }

  /** Two valid dates print alike only when they are the same date. */
  lemma FormatDateInjective(a: CalendarDate, b: CalendarDate)
    requires ValidCalendarDate(a) && ValidCalendarDate(b)
    requires FormatDate(Some(a)) == FormatDate(Some(b))
    ensures a == b
  {
    var r := FormatDate(Some(a));
    assert ParseInt(r[6..]) == Some(a.year) && ParseInt(r[6..]) == Some(b.year);
  }

  // ----- slots ---------------------------------------------------------------

  /** A `TimeSlot` as the page reads it. */
  datatype Slot = Slot(id: string, availableSeats: int, isAvailable: bool)

  /** The "Only N left!" badge. */
  predicate LowSeats(s: Slot)
  {
    0 < s.availableSeats <= 3
  }

  /** The slot card reacts to a click, and its button is enabled. */
  predicate Clickable(s: Slot, bookingLoading: bool)
  {
    s.isAvailable && s.availableSeats != 0 && !bookingLoading
  }

  /** The button's text. */
  function SlotLabel(s: Slot, selected: bool): (r: string)
    ensures r == "Sold Out" <==> !(s.isAvailable && s.availableSeats > 0)
  {
    if s.isAvailable && s.availableSeats > 0 then
      (if selected then "✓ Selected" else "Select Slot")
    else "Sold Out"
  }

  /** The two tests differ in one place only: an available slot with a
   *  negative seat count reads "Sold Out" and still takes clicks. */
  lemma SoldOutClickable(s: Slot, selected: bool)
    ensures (SlotLabel(s, selected) == "Sold Out" && Clickable(s, false)) <==> (s.isAvailable && s.availableSeats < 0)
  {
  }

  /** A slot with the low-seats badge is bookable unless a booking runs. */
  lemma LowSeatsClickable(s: Slot, bookingLoading: bool)
    requires LowSeats(s) && s.isAvailable
    ensures Clickable(s, bookingLoading) <==> !bookingLoading
    ensures SlotLabel(s, false) == "Select Slot"
  {
  }

  /** `timeSlots.find(slot => slot.id === id)`. */
  function FindSlot(slots: seq<Slot>, id: Option<string>): (r: Option<Slot>)
    ensures r.Some? <==> exists i :: 0 <= i < |slots| && Some(slots[i].id) == id
    ensures r.Some? ==> r.value in slots && Some(r.value.id) == id
  {
    if |slots| == 0 then None
    else if Some(slots[0].id) == id then Some(slots[0])
    else
      assert forall i :: 1 <= i < |slots| ==> slots[i] == slots[1..][i - 1];
      FindSlot(slots[1..], id)
  }

  /** `find` gives the first slot with the id. */
  lemma {:induction false} FindSlotFirst(slots: seq<Slot>, id: Option<string>, i: nat)
    requires i < |slots| && Some(slots[i].id) == id
    requires forall k :: 0 <= k < i ==> Some(slots[k].id) != id
    ensures FindSlot(slots, id) == Some(slots[i])
  {
    if i > 0 {
      FindSlotFirst(slots[1..], id, i - 1);
    }
  }

  /** The seat dialog's `maxSlots`: the selected slot's seats, or 1 when
   *  there is no such slot or its count is 0. */
  function MaxSlots(slots: seq<Slot>, selectedId: Option<string>): (r: int)
    ensures FindSlot(slots, selectedId).None? ==> r == 1
    ensures FindSlot(slots, selectedId).Some? ==>
      r == if FindSlot(slots, selectedId).value.availableSeats == 0 then 1 else FindSlot(slots, selectedId).value.availableSeats
  {
    var s := FindSlot(slots, selectedId);
    if s.Some? && s.value.availableSeats != 0 then s.value.availableSeats else 1
  }

  /** A slot that could be clicked gives a positive maximum when its count
   *  is positive. */
  lemma MaxSlotsOfChosen(slots: seq<Slot>, i: nat)
    requires i < |slots| && forall k :: 0 <= k < |slots| && k != i ==> slots[k].id != slots[i].id
    requires slots[i].availableSeats > 0
    ensures MaxSlots(slots, Some(slots[i].id)) == slots[i].availableSeats
  {
    FindSlotFirst(slots, Some(slots[i].id), i);
  }

  // ----- images --------------------------------------------------------------

  /** `[coverImage, ...galleryImages]`. */
  function AllImages(coverImage: string, galleryImages: seq<string>): (r: seq<string>)
    ensures |r| == |galleryImages| + 1 && r[0] == coverImage && r[1..] == galleryImages
  {
    [coverImage] + galleryImages
  }

  /** `(i + 1) % n` for a non-negative i. */
  function NextIndex(i: nat, n: nat): (r: nat)
    requires n > 0
    ensures r < n
    ensures i < n - 1 ==> r == i + 1
    ensures i == n - 1 ==> r == 0
  {
    (i + 1) % n
  }

  /** `(i - 1 + n) % n` for a non-negative i; the dividend is never
   *  negative, so JavaScript's remainder and Dafny's agree. */
  function PrevIndex(i: nat, n: nat): (r: nat)
    requires n > 0
    ensures r < n
    ensures 0 < i <= n ==> r == i - 1
    ensures i == 0 ==> r == n - 1
  {
    (i - 1 + n) % n
  }

  /** Previous undoes Next and Next undoes Previous on the images. */
  lemma PrevNextInverse(i: nat, n: nat)
    requires i < n
    ensures PrevIndex(NextIndex(i, n), n) == i
    ensures NextIndex(PrevIndex(i, n), n) == i
  {
  }

  // ----- the page ------------------------------------------------------------

  datatype EventData = EventData(id: string, coverImage: string, galleryImages: seq<string>, timeSlots: seq<Slot>, description: Parsed)

  /** How `getEvent` ended: the event, or the message of the error thrown. */
  datatype LoadOutcome = Loaded(event: EventData) | LoadFailed(message: string)

  /** How `registerForEvent` ended: a booking id, a response without
   *  `success` (with its `message`), or a throw (with the message when it
   *  is an `Error`). */
  datatype BookingOutcome = Booked(bookingId: string) | Rejected(message: Option<string>) | Threw(error: Option<string>)

  /** What the page shows. */
  datatype View = Spinner | ErrorView(message: string) | EventView(event: EventData)

  const DefaultBookingError := "Failed to register for event"

  /** The message `handleBookingConfirm` stores for a failed booking. */
  function BookingError(outcome: BookingOutcome): (r: string)
    requires !outcome.Booked?
    ensures outcome.Rejected? ==> r == if Truthy(outcome.message) then outcome.message.value else DefaultBookingError
    ensures outcome.Threw? ==> r == outcome.error.GetOr(DefaultBookingError)
  {
    match outcome
    case Rejected(m) => if Truthy(m) then m.value else DefaultBookingError
    case Threw(e) => e.GetOr(DefaultBookingError)
  }

  /** A navigation or the registration call the page starts. */
  datatype Effect =
    | Navigate(path: string)
    | Register(eventId: string, timeSlotId: string, slotCount: int)
    | ConfirmationPageAfterDelay(bookingId: string)

  class EventPage {
    const eventId: string
    var isAuthenticated: bool
    var eventData: Option<EventData>
    var isLoading: bool
    var error: Option<string>
    var selectedTimeSlotId: Option<string>
    var showSlotSelection: bool
    var showBookingConfirmation: bool
    var selectedSlotCount: int
    var isBookingLoading: bool
    var fullscreenImage: Option<nat>
    var allImages: seq<string>
    var showConfetti: bool

    /** The open image, when there is one, is one of the images, so the
     *  viewer's `allImages[fullscreenImage]` is defined. This is not kept
     *  as an invariant: a newly loaded event with fewer images leaves the
     *  index where it was. */
    predicate ViewerInRange()
      reads this
    {
      fullscreenImage.Some? ==> fullscreenImage.value < |allImages|
    }

    /** The render gate: the spinner while loading, the error card when
     *  there is an error or no event, and the page otherwise. */
    function CurrentView(): (v: View)
      reads this
      ensures isLoading ==> v == Spinner
      ensures !isLoading && v.EventView? <==> !isLoading && !Truthy(error) && eventData.Some?
      ensures v.ErrorView? ==> v.message == if Truthy(error) then error.value else "Failed to load event data"
    {
      if isLoading then Spinner
      else if Truthy(error) || eventData.None? then
        ErrorView(if Truthy(error) then error.value else "Failed to load event data")
      else EventView(eventData.value)
    }

    constructor(id: string)
      ensures ViewerInRange()
      ensures eventId == id && !isAuthenticated && eventData.None? && isLoading && error.None?
      ensures selectedTimeSlotId.None? && !showSlotSelection && !showBookingConfirmation
      ensures selectedSlotCount == 1 && !isBookingLoading && fullscreenImage.None? && allImages == [] && !showConfetti
    {
      eventId := id;
      isAuthenticated := false;
      eventData := None;
      isLoading := true;
      error := None;
      selectedTimeSlotId := None;
      showSlotSelection := false;
      showBookingConfirmation := false;
      selectedSlotCount := 1;
      isBookingLoading := false;
      fullscreenImage := None;
      allImages := [];
      showConfetti := false;
    }

    /** `checkAuthStatus`: whether `getCurrentUser` resolved. */
    method AuthChecked(signedIn: bool)
      modifies this
      ensures showSlotSelection == old(showSlotSelection) && showBookingConfirmation == old(showBookingConfirmation) && selectedSlotCount == old(selectedSlotCount)
      ensures isBookingLoading == old(isBookingLoading) && showConfetti == old(showConfetti)
      ensures isAuthenticated == signedIn
      ensures eventData == old(eventData) && isLoading == old(isLoading) && error == old(error)
      ensures selectedTimeSlotId == old(selectedTimeSlotId) && fullscreenImage == old(fullscreenImage) && allImages == old(allImages)
    {
      isAuthenticated := signedIn;
    }

    /** `fetchEventData`, with the image effect that follows a new event:
     *  the images become the cover and then the gallery. The viewer's
     *  index is left as it was, even when it now falls past the images. */
    method EventLoaded(outcome: LoadOutcome)
      modifies this
      ensures showBookingConfirmation == old(showBookingConfirmation) && isBookingLoading == old(isBookingLoading) && showConfetti == old(showConfetti)
      ensures !isLoading
      ensures fullscreenImage == old(fullscreenImage)
      ensures outcome.Loaded? && old(fullscreenImage).Some? && old(fullscreenImage).value >= |allImages| ==> !ViewerInRange()
      ensures outcome.Loaded? ==>
        eventData == Some(outcome.event) && error.None? &&
        allImages == AllImages(outcome.event.coverImage, outcome.event.galleryImages)
      ensures outcome.LoadFailed? ==> error == Some(outcome.message) && eventData == old(eventData) && allImages == old(allImages)
      ensures isAuthenticated == old(isAuthenticated) && selectedTimeSlotId == old(selectedTimeSlotId)
      ensures showSlotSelection == old(showSlotSelection) && selectedSlotCount == old(selectedSlotCount)
    {
      isLoading := false;
      match outcome
      case Loaded(event) =>
        eventData := Some(event);
        error := None;
        allImages := AllImages(event.coverImage, event.galleryImages);
      case LoadFailed(message) =>
        error := Some(message);
    }

    /** A click on an image opens the viewer on it. */
    method OpenImage(index: nat)
      modifies this
      ensures isAuthenticated == old(isAuthenticated) && eventData == old(eventData) && isLoading == old(isLoading)
      ensures error == old(error) && showBookingConfirmation == old(showBookingConfirmation) && selectedSlotCount == old(selectedSlotCount)
      ensures isBookingLoading == old(isBookingLoading) && showConfetti == old(showConfetti)
      requires index < |allImages|
      ensures ViewerInRange()
      ensures fullscreenImage == Some(index) && allImages == old(allImages)
      ensures selectedTimeSlotId == old(selectedTimeSlotId) && showSlotSelection == old(showSlotSelection)
    {
      fullscreenImage := Some(index);
    }

    /** `handleNextImage` / `handlePrevImage`: no-ops without an open
     *  image; otherwise the index moves by one around the images. */
    method StepImage(forward: bool)
      modifies this
      ensures isAuthenticated == old(isAuthenticated) && selectedSlotCount == old(selectedSlotCount) && showConfetti == old(showConfetti)
      ensures allImages == old(allImages) && eventData == old(eventData) && selectedTimeSlotId == old(selectedTimeSlotId)
      ensures old(fullscreenImage).None? || |allImages| == 0 ==> fullscreenImage == old(fullscreenImage)
      ensures old(fullscreenImage).Some? && |allImages| > 0 ==> fullscreenImage == Some(
        if forward then NextIndex(old(fullscreenImage).value, |allImages|) else PrevIndex(old(fullscreenImage).value, |allImages|))
      ensures old(fullscreenImage).Some? && |allImages| > 0 ==> ViewerInRange()
      ensures showSlotSelection == old(showSlotSelection) && showBookingConfirmation == old(showBookingConfirmation)
      ensures isBookingLoading == old(isBookingLoading) && error == old(error) && isLoading == old(isLoading)
    {
      if fullscreenImage.Some? && |allImages| > 0 {
        var i := fullscreenImage.value;
        fullscreenImage := Some(if forward then NextIndex(i, |allImages|) else PrevIndex(i, |allImages|));
      }
    }

    /** The key handler: the arrows step and Escape closes, only while an
     *  image is open. */
    method KeyDown(key: string)
      modifies this
      ensures isAuthenticated == old(isAuthenticated) && isLoading == old(isLoading) && error == old(error)
      ensures selectedSlotCount == old(selectedSlotCount) && isBookingLoading == old(isBookingLoading) && showConfetti == old(showConfetti)
      ensures allImages == old(allImages)
      ensures old(fullscreenImage).None? ==> fullscreenImage.None?
      ensures old(fullscreenImage).Some? ==>
        fullscreenImage == (
          if key == "ArrowRight" && |allImages| > 0 then Some(NextIndex(old(fullscreenImage).value, |allImages|))
          else if key == "ArrowLeft" && |allImages| > 0 then Some(PrevIndex(old(fullscreenImage).value, |allImages|))
          else if key == "Escape" then None
          else old(fullscreenImage))
      ensures old(ViewerInRange()) ==> ViewerInRange()
      ensures allImages == old(allImages) && eventData == old(eventData) && selectedTimeSlotId == old(selectedTimeSlotId)
      ensures showSlotSelection == old(showSlotSelection) && showBookingConfirmation == old(showBookingConfirmation)
    {
      if fullscreenImage.Some? {
        if key == "ArrowRight" {
          StepImage(true);
        }
        if key == "ArrowLeft" {
          StepImage(false);
        }
        if key == "Escape" {
          fullscreenImage := None;
        }
      }
    }

    /** The viewer's `onOpenChange(false)` and its close button. */
    method CloseImage()
      modifies this
      ensures isAuthenticated == old(isAuthenticated) && eventData == old(eventData) && isLoading == old(isLoading)
      ensures error == old(error) && showBookingConfirmation == old(showBookingConfirmation) && selectedSlotCount == old(selectedSlotCount)
      ensures isBookingLoading == old(isBookingLoading) && showConfetti == old(showConfetti)
      ensures fullscreenImage.None? && allImages == old(allImages)
      ensures ViewerInRange()
      ensures selectedTimeSlotId == old(selectedTimeSlotId) && showSlotSelection == old(showSlotSelection)
    {
      fullscreenImage := None;
    }

    /** A click on a slot card: ignored unless the slot is clickable; a
     *  visitor who is not signed in is sent to the login page and nothing
     *  is selected; otherwise the slot is selected and the seat dialog
     *  opens. */
    method SlotClick(slot: Slot) returns (effects: seq<Effect>)
      modifies this
      ensures error == old(error) && isLoading == old(isLoading) && showConfetti == old(showConfetti)
      ensures !old(Clickable(slot, isBookingLoading)) ==> effects == [] && unchanged(this)
      ensures old(Clickable(slot, isBookingLoading)) && !isAuthenticated ==>
        effects == [Navigate("/login?redirect=/events/" + eventId)] && unchanged(this)
      ensures old(Clickable(slot, isBookingLoading)) && isAuthenticated ==>
        effects == [] && selectedTimeSlotId == Some(slot.id) && showSlotSelection &&
        showBookingConfirmation == old(showBookingConfirmation) && isBookingLoading == old(isBookingLoading)
      ensures isAuthenticated == old(isAuthenticated) && fullscreenImage == old(fullscreenImage) && allImages == old(allImages)
      ensures eventData == old(eventData) && selectedSlotCount == old(selectedSlotCount)
    {
      effects := [];
      if !Clickable(slot, isBookingLoading) {
        return;
      }
      if !isAuthenticated {
        effects := [Navigate("/login?redirect=/events/" + eventId)];
        return;
      }
      selectedTimeSlotId := Some(slot.id);
      showSlotSelection := true;
    }

    /** The seat dialog's `onClose`: ignored while a booking runs;
     *  otherwise the dialog closes and the selection is dropped. */
    method SlotDialogClose()
      modifies this
      ensures isAuthenticated == old(isAuthenticated) && eventData == old(eventData) && isLoading == old(isLoading)
      ensures error == old(error) && showConfetti == old(showConfetti)
      ensures old(isBookingLoading) ==> unchanged(this)
      ensures !old(isBookingLoading) ==> !showSlotSelection && selectedTimeSlotId.None?
      ensures showBookingConfirmation == old(showBookingConfirmation) && selectedSlotCount == old(selectedSlotCount)
      ensures isBookingLoading == old(isBookingLoading) && fullscreenImage == old(fullscreenImage) && allImages == old(allImages)
    {
      if !isBookingLoading {
        showSlotSelection := false;
        selectedTimeSlotId := None;
      }
    }

    /** The dialog's maximum for the current selection. */
    function CurrentMaxSlots(): int
      reads this
    {
      MaxSlots(if eventData.Some? then eventData.value.timeSlots else [], selectedTimeSlotId)
    }

    /** `handleSlotCountConfirm(count)`: the count is kept and the
     *  confirmation replaces the seat dialog. */
    method SlotCountConfirm(count: int)
      modifies this
      ensures isAuthenticated == old(isAuthenticated) && isLoading == old(isLoading) && error == old(error)
      ensures showConfetti == old(showConfetti)
      ensures selectedSlotCount == count && !showSlotSelection && showBookingConfirmation
      ensures selectedTimeSlotId == old(selectedTimeSlotId) && isBookingLoading == old(isBookingLoading)
      ensures fullscreenImage == old(fullscreenImage) && allImages == old(allImages) && eventData == old(eventData)
    {
      selectedSlotCount := count;
      showSlotSelection := false;
      showBookingConfirmation := true;
    }

    /** `handleBookingConfirm`: nothing without a selected slot id.
     *  Otherwise the registration is sent with the slot and the count; a
     *  booking raises the confetti and schedules the confirmation page,
     *  a failure stores its message; either way the loading flag drops and
     *  the confirmation closes. */
    method BookingConfirm(outcome: BookingOutcome) returns (effects: seq<Effect>)
      modifies this
      ensures isAuthenticated == old(isAuthenticated)
      ensures !Truthy(old(selectedTimeSlotId)) ==> effects == [] && unchanged(this)
      ensures Truthy(old(selectedTimeSlotId)) ==>
        !isBookingLoading && !showBookingConfirmation &&
        var register := Register(eventId, old(selectedTimeSlotId).value, old(selectedSlotCount));
        (outcome.Booked? ==>
          effects == [register, ConfirmationPageAfterDelay(outcome.bookingId)] &&
          showConfetti && error == old(error)) &&
        (!outcome.Booked? ==>
          effects == [register] && error == Some(BookingError(outcome)) &&
          showConfetti == old(showConfetti))
      ensures selectedTimeSlotId == old(selectedTimeSlotId) && selectedSlotCount == old(selectedSlotCount)
      ensures showSlotSelection == old(showSlotSelection) && fullscreenImage == old(fullscreenImage)
      ensures allImages == old(allImages) && eventData == old(eventData) && isLoading == old(isLoading)
    {
      if !Truthy(selectedTimeSlotId) {
        return [];
      }
      isBookingLoading := true;
      effects := [Register(eventId, selectedTimeSlotId.value, selectedSlotCount)];
      if outcome.Booked? {
        showConfetti := true;
        effects := effects + [ConfirmationPageAfterDelay(outcome.bookingId)];
      } else {
        error := Some(BookingError(outcome));
      }
      isBookingLoading := false;
      showBookingConfirmation := false;
    }
  }
}
