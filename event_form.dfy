/**
 * The event-authoring form: the time-slot list and its wire copy, the
 * cover and gallery image bookkeeping, and the submission check that
 * decides between creating and updating an event.
 *
 * Storage, the event API and the signed-in user are not modelled: each
 * handler is given the outcome of the calls it makes, and reports the
 * calls it made.
 */
module EventForm {
  import opened Wrappers
  import opened Strings
  import opened Clock
  import opened RichText
  import opened Lists

  // ----- data ------------------------------------------------------------

  /** A slot as the form edits it: `date`, `startTime` and `endTime` are
   *  instants; `id` is set once the backend has assigned one. */
  datatype FormTimeSlot = FormTimeSlot(id: Option<string>, date: Instant, startTime: Instant, endTime: Instant, seats: int)

  /** `d.toISOString()`: kept as the instant it denotes. */
  datatype IsoTime = Iso(instant: Instant)

  /** A slot as it is sent: start and end as ISO strings, `id` present only
   *  when the form slot's id is truthy. */
  datatype WireSlot = WireSlot(id: Option<string>, date: Instant, seats: int, startTime: IsoTime, endTime: IsoTime)

  /** The fields of `EventFormData` the form holds before submission. */
  datatype FormData = FormData(
    title: string,
    description: string,
    location: string,
    categories: seq<string>,
    pricePerSeat: real,
    timeSlots: seq<WireSlot>,
    coverImage: Option<string>,
    galleryImages: seq<string>)

  const InitialData: FormData := FormData("", "", "", [], 0.0, [], None, [])

  datatype Status = Draft | Published

  /** What `saveEvent`/`updateEvent` receive. */
  datatype EventPayload = EventPayload(data: FormData, status: Status, coachId: string, coachName: string)

  datatype Mode = Create | Edit

  /** A file picked in an upload input. */
  datatype FileInfo = FileInfo(name: string, mimeType: string, size: int)

  // ----- image validation ------------------------------------------------

  const MaxFileSize: int := 5 * 1024 * 1024
  const AllowedFileTypes: seq<string> := ["image/jpeg", "image/png", "image/webp"]
  const TypeError: string := "Invalid file type. Please upload a JPEG, PNG, or WebP image."
  const SizeError: string := "File is too large. Maximum size is 5MB."

  /** `validateImage(file)`: the type is checked before the size; None is
   *  `null`, the file is accepted. */
  function ValidateImage(f: FileInfo): (r: Option<string>)
    ensures f.mimeType !in AllowedFileTypes ==> r == Some(TypeError)
    ensures f.mimeType in AllowedFileTypes && f.size > MaxFileSize ==> r == Some(SizeError)
    ensures r.None? <==> f.mimeType in AllowedFileTypes && f.size <= MaxFileSize
  {
    if f.mimeType !in AllowedFileTypes then Some(TypeError)
    else if f.size > MaxFileSize then Some(SizeError)
    else None
  }

  /** A file of exactly 5 MiB is accepted; one byte more is not. */
  lemma SizeBoundary(name: string)
    ensures ValidateImage(FileInfo(name, "image/png", 5242880)).None?
    ensures ValidateImage(FileInfo(name, "image/png", 5242881)) == Some(SizeError)
  {
  }

  /** `files.map(validateImage).filter(Boolean)[0]`: the first file's error. */
  function FirstError(files: seq<FileInfo>): (r: Option<string>)
    ensures r.None? <==> forall i :: 0 <= i < |files| ==> ValidateImage(files[i]).None?
    ensures r.Some? ==> exists i :: 0 <= i < |files| && ValidateImage(files[i]) == r &&
                                 forall j :: 0 <= j < i ==> ValidateImage(files[j]).None?
  {
    if |files| == 0 then None
    else if ValidateImage(files[0]).Some? then ValidateImage(files[0])
    else
      var r := FirstError(files[1..]);
      assert forall i :: 1 <= i < |files| ==> files[i] == files[1..][i - 1];
      if r.Some? then
        var i :| 0 <= i < |files[1..]| && ValidateImage(files[1..][i]) == r &&
                 forall j :: 0 <= j < i ==> ValidateImage(files[1..][j]).None?;
        assert ValidateImage(files[i + 1]) == r;
        r
      else r
  }

  // ----- slot lists ------------------------------------------------------

  /** One slot's wire form. */
  function WireOf(s: FormTimeSlot): (w: WireSlot)
    ensures w.id == (if Truthy(s.id) then s.id else None)
    ensures w.date == s.date && w.seats == s.seats
    ensures w.startTime.instant == s.startTime && w.endTime.instant == s.endTime
  {
    WireSlot(if Truthy(s.id) then s.id else None, s.date, s.seats, Iso(s.startTime), Iso(s.endTime))
  }

  /** The conversion every slot mutation applies to the whole list. */
  function ToWire(slots: seq<FormTimeSlot>): (r: seq<WireSlot>)
    ensures |r| == |slots|
    ensures forall i :: 0 <= i < |slots| ==> r[i] == WireOf(slots[i])
  {
    if |slots| == 0 then [] else [WireOf(slots[0])] + ToWire(slots[1..])
  }

  lemma ToWireAppend(a: seq<FormTimeSlot>, b: seq<FormTimeSlot>)
    ensures ToWire(a + b) == ToWire(a) + ToWire(b)
  {
  }

  /** `slots.map((slot, i) => i === index ? {...updated, ...(slot.id ?
   *  {id: slot.id} : {})} : slot)`. */
  function ReplaceAt(slots: seq<FormTimeSlot>, index: int, updated: FormTimeSlot): (r: seq<FormTimeSlot>)
    ensures |r| == |slots|
    ensures forall i :: 0 <= i < |slots| && i != index ==> r[i] == slots[i]
    ensures 0 <= index < |slots| ==>
      r[index] == updated.(id := if Truthy(slots[index].id) then slots[index].id else updated.id)
  {
    seq(|slots|, i requires 0 <= i < |slots| =>
      if i == index then updated.(id := if Truthy(slots[i].id) then slots[i].id else updated.id) else slots[i])
  }

  /** Editing a slot that has an id never changes or loses that id. */
  lemma EditKeepsId(slots: seq<FormTimeSlot>, index: int, updated: FormTimeSlot)
    requires 0 <= index < |slots| && Truthy(slots[index].id)
    ensures ToWire(ReplaceAt(slots, index, updated))[index].id == slots[index].id
  {
  }

  // ----- form changes ----------------------------------------------------

  /** The `onFormChange(field, value)` calls the form's inputs make. */
  datatype FieldChange =
    | SetTitle(title: string)
    | SetDescription(description: string)
    | SetLocation(location: string)
    | SetCategories(categories: seq<string>)
    | SetPrice(price: real)

  /** `{...prev, [field]: value}`. */
  function ApplyChange(d: FormData, c: FieldChange): (r: FormData)
    ensures r.timeSlots == d.timeSlots && r.coverImage == d.coverImage && r.galleryImages == d.galleryImages
    ensures c.SetTitle? ==> r == d.(title := c.title)
    ensures c.SetDescription? ==> r == d.(description := c.description)
    ensures c.SetLocation? ==> r == d.(location := c.location)
    ensures c.SetCategories? ==> r == d.(categories := c.categories)
    ensures c.SetPrice? ==> r == d.(pricePerSeat := c.price)
  {
    match c
    case SetTitle(t) => d.(title := t)
    case SetDescription(s) => d.(description := s)
    case SetLocation(l) => d.(location := l)
    case SetCategories(cs) => d.(categories := cs)
    case SetPrice(p) => d.(pricePerSeat := p)
  }

  // ----- submission rules ------------------------------------------------

  const TitleMessage: string := "Title must be at least 20 characters long"
  const DescriptionMessage: string := "Description must be at least 100 characters long"
  const SlotsMessage: string := "At least one time slot must be created"
  const GalleryMessage: string := "At least one gallery image must be uploaded"
  const CoverMessage: string := "A cover image must be selected"
  const LocationMessage: string := "Location must be provided"
  const CategoryMessage: string := "At least one category must be selected"
  const PriceMessage: string := "Price per seat must be greater than 0"

  /** The eight messages, in the order the rules are checked. */
  const AllMessages: seq<string> := [TitleMessage, DescriptionMessage, SlotsMessage, GalleryMessage,
    CoverMessage, LocationMessage, CategoryMessage, PriceMessage]

  /** Which rules a form breaks, in the same order: the conditions of the
   *  eight checks of `handleSubmit`. `descriptionText` is the flattened
   *  description; `slotCount` the number of form slots. */
  function Violations(d: FormData, descriptionText: string, slotCount: nat): (v: seq<bool>)
    ensures |v| == |AllMessages|
  {
    [ Utf16Length(d.title) < 20,
      Utf16Length(descriptionText) < 100,
      slotCount == 0,
      |d.galleryImages| == 0,
      !Truthy(d.coverImage),
      Trim(d.location) == "",
      |d.categories| == 0,
      d.pricePerSeat <= 0.0 ]
  }

  /** The first n items whose flag is set, in their order. */
  function KeepUpTo(flags: seq<bool>, items: seq<string>, n: nat): seq<string>
    requires n <= |flags| == |items|
  {
    if n == 0 then [] else KeepUpTo(flags, items, n - 1) + Flagged(flags[n - 1], items[n - 1])
  }

  /** The message of one rule, when it is broken. */
  function Flagged(broken: bool, message: string): (r: seq<string>)
    ensures r == [] <==> !broken
  {
    if broken then [message] else []
  }

  /** The number of set flags among the first n. */
  function CountUpTo(flags: seq<bool>, n: nat): nat
    requires n <= |flags|
  {
    if n == 0 then 0 else CountUpTo(flags, n - 1) + (if flags[n - 1] then 1 else 0)
  }

  /** `validationErrors` after the eight checks. */
  function Messages(d: FormData, descriptionText: string, slotCount: nat): seq<string>
  {
    KeepUpTo(Violations(d, descriptionText, slotCount), AllMessages, |AllMessages|)
  }

  lemma AllMessagesDistinct()
    ensures Distinct(AllMessages)
  {
  }

  lemma {:induction false} KeepLength(flags: seq<bool>, items: seq<string>, n: nat)
    requires n <= |flags| == |items|
    ensures |KeepUpTo(flags, items, n)| == CountUpTo(flags, n)
  {
    if n > 0 {
      KeepLength(flags, items, n - 1);
    }
  }

  /** A kept item is one of the first n items, and its flag is set. */
  lemma {:induction false} KeepOnlySet(flags: seq<bool>, items: seq<string>, n: nat, m: string)
    requires n <= |flags| == |items| && m in KeepUpTo(flags, items, n)
    ensures exists j :: 0 <= j < n && flags[j] && items[j] == m
  {
    if !(flags[n - 1] && items[n - 1] == m) {
      KeepOnlySet(flags, items, n - 1, m);
    }
  }

  /** With distinct items, an item is not kept before its own position. */
  lemma {:induction false} KeepBefore(flags: seq<bool>, items: seq<string>, n: nat, i: nat)
    requires n <= i < |flags| == |items| && Distinct(items)
    ensures items[i] !in KeepUpTo(flags, items, n)
  {
    if n > 0 {
      KeepBefore(flags, items, n - 1, i);
      assert items[n - 1] != items[i];
    }
  }

  /** With distinct items, item i is kept among the first n iff its flag is
   *  set, and then it stands after exactly the kept items before it. */
  lemma {:induction false} KeepPosition(flags: seq<bool>, items: seq<string>, n: nat, i: nat)
    requires n <= |flags| == |items| && Distinct(items) && i < n
    ensures items[i] in KeepUpTo(flags, items, n) <==> flags[i]
    ensures flags[i] ==>
      CountUpTo(flags, i) < |KeepUpTo(flags, items, n)| && KeepUpTo(flags, items, n)[CountUpTo(flags, i)] == items[i]
  {
    KeepLength(flags, items, i);
    if n == i + 1 {
      KeepBefore(flags, items, i, i);
    } else {
      KeepPosition(flags, items, n - 1, i);
      KeepLength(flags, items, n - 1);
      assert items[i] != items[n - 1];
    }
  }

  /** Counting set flags further on counts a set flag more. */
  lemma {:induction false} CountGrows(flags: seq<bool>, i: nat, j: nat)
    requires i < j <= |flags| && flags[i]
    ensures CountUpTo(flags, i) < CountUpTo(flags, j)
  {
    if j > i + 1 {
      CountGrows(flags, i, j - 1);
    }
  }

  /** Every broken rule is reported, and only broken rules are: a message
   *  is listed iff its rule fails. */
  lemma MessageIffBroken(d: FormData, descriptionText: string, slotCount: nat, i: nat)
    requires i < |AllMessages|
    ensures AllMessages[i] in Messages(d, descriptionText, slotCount) <==> Violations(d, descriptionText, slotCount)[i]
  {
    AllMessagesDistinct();
    KeepPosition(Violations(d, descriptionText, slotCount), AllMessages, |AllMessages|, i);
  }

  /** Messages keep the rule order: when rules i < j both fail, the message
   *  of rule i comes before the message of rule j. */
  lemma MessagesInRuleOrder(d: FormData, descriptionText: string, slotCount: nat, i: nat, j: nat)
    requires i < j < |AllMessages|
    requires Violations(d, descriptionText, slotCount)[i] && Violations(d, descriptionText, slotCount)[j]
    ensures exists p, q ::
      0 <= p < q < |Messages(d, descriptionText, slotCount)| &&
      Messages(d, descriptionText, slotCount)[p] == AllMessages[i] &&
      Messages(d, descriptionText, slotCount)[q] == AllMessages[j]
  {
    var v := Violations(d, descriptionText, slotCount);
    AllMessagesDistinct();
    KeepPosition(v, AllMessages, |AllMessages|, i);
    KeepPosition(v, AllMessages, |AllMessages|, j);
    CountGrows(v, i, j);
    var p, q := CountUpTo(v, i), CountUpTo(v, j);
    assert Messages(d, descriptionText, slotCount)[p] == AllMessages[i];
  }

  /** The form passes exactly when every rule holds. */
  lemma NoMessagesIffValid(d: FormData, descriptionText: string, slotCount: nat)
    ensures Messages(d, descriptionText, slotCount) == [] <==>
      Utf16Length(d.title) >= 20 && Utf16Length(descriptionText) >= 100 && slotCount > 0 && |d.galleryImages| > 0 &&
      Truthy(d.coverImage) && Trim(d.location) != "" && |d.categories| > 0 && d.pricePerSeat > 0.0
  {
    var v := Violations(d, descriptionText, slotCount);
    var m := KeepUpTo(v, AllMessages, |AllMessages|);
    if m != [] {
      KeepOnlySet(v, AllMessages, |AllMessages|, m[0]);
    } else {
      AllMessagesDistinct();
      forall i | 0 <= i < |AllMessages|
        ensures !v[i]
      {
        KeepPosition(v, AllMessages, |AllMessages|, i);
      }
      assert !v[0] && !v[1] && !v[2] && !v[3] && !v[4] && !v[5] && !v[6] && !v[7];
    }
  }

  /** The text the description rule measures: "" for an empty description,
   *  otherwise the run texts of the parsed document joined with no
   *  separator. None when the description does not parse (the check
   *  throws). */
  function DescriptionText(description: string, parsed: Parsed): Option<string>
  {
    if description == "" then Some("")
    else match parsed
      case Malformed => None
      case Json(root) => Some(PlainText(root))
  }

  // ----- submission ------------------------------------------------------

  /** The signed-in user `getCurrentUser` returns. */
  datatype User = User(userId: string, username: string)

  datatype SaveCall = CreateEvent(payload: EventPayload) | UpdateEvent(eventId: string, payload: EventPayload)

  /** How `handleSubmit` ends: with the validation messages (nothing is
   *  called), with a thrown error before any save call (an unparsable
   *  description, no current user), or after the save call, successful
   *  (and the page moves to '/my-events') or not. */
  datatype SubmitOutcome =
    | Invalid(messages: seq<string>)
    | Failed
    | Saved(call: SaveCall)
    | SaveFailed(call: SaveCall)

  /** The call a valid form leads to: an update iff the form is in edit mode
   *  with an event id. */
  function SaveCallFor(mode: Mode, eventId: Option<string>, payload: EventPayload): (c: SaveCall)
    ensures c.UpdateEvent? <==> mode == Edit && Truthy(eventId)
    ensures c.payload == payload
    ensures c.UpdateEvent? ==> Some(c.eventId) == eventId
  {
    if mode == Edit && Truthy(eventId) then UpdateEvent(eventId.value, payload) else CreateEvent(payload)
  }

  // ----- the form's state -----------------------------------------------

  /** The storage calls the image handlers make, in order. */
  datatype StorageCall = Upload(file: FileInfo) | Delete(url: string)

  class EventFormState {
    var selectedDate: Option<Instant>
    var timeSlots: seq<FormTimeSlot>
    var formData: FormData
    var coverImagePreview: string
    var galleryPreviews: seq<string>
    var isSubmitting: bool
    var isUploading: bool
    const mode: Mode
    const eventId: Option<string>

    /** Between handlers the wire slots mirror the form slots and there is
     *  one gallery preview per uploaded gallery image. */
    predicate Valid()
      reads this
    {
      formData.timeSlots == ToWire(timeSlots) && |galleryPreviews| == |formData.galleryImages|
    }

    constructor(mode: Mode, eventId: Option<string>)
      ensures Valid()
      ensures this.mode == mode && this.eventId == eventId
      ensures selectedDate.None? && timeSlots == [] && formData == InitialData
      ensures coverImagePreview == "" && galleryPreviews == [] && !isSubmitting && !isUploading
    {
      this.mode := mode;
      this.eventId := eventId;
      selectedDate := None;
      timeSlots := [];
      formData := InitialData;
      coverImagePreview := "";
      galleryPreviews := [];
      isSubmitting := false;
      isUploading := false;
    }

    /** The edit-mode load: the stored slots become form slots (their date
     *  is their start), the wire list is rebuilt from them, and the
     *  previews start from the stored images. Nothing happens outside edit
     *  mode or when the fetch fails. */
    method Load(loaded: Option<StoredEvent>)
      modifies this
      requires Valid()
      ensures Valid()
      ensures !(mode == Edit && Truthy(eventId)) || loaded.None? ==>
        timeSlots == old(timeSlots) && formData == old(formData) &&
        coverImagePreview == old(coverImagePreview) && galleryPreviews == old(galleryPreviews)
      ensures mode == Edit && Truthy(eventId) && loaded.Some? ==>
        timeSlots == FormSlotsOf(loaded.value.timeSlots) &&
        formData == FormData(loaded.value.title, loaded.value.description, loaded.value.location,
          loaded.value.eventTypes, loaded.value.pricePerSeat, ToWire(timeSlots),
          loaded.value.coverImage, loaded.value.galleryImages.GetOr([])) &&
        coverImagePreview == loaded.value.coverImage.GetOr("") &&
        galleryPreviews == formData.galleryImages
      ensures selectedDate == old(selectedDate) && isSubmitting == old(isSubmitting) && isUploading == old(isUploading)
    {
      if mode == Edit && Truthy(eventId) && loaded.Some? {
        var ev := loaded.value;
        timeSlots := FormSlotsOf(ev.timeSlots);
        formData := FormData(ev.title, ev.description, ev.location, ev.eventTypes, ev.pricePerSeat,
          ToWire(timeSlots), ev.coverImage, ev.galleryImages.GetOr([]));
        coverImagePreview := ev.coverImage.GetOr("");
        galleryPreviews := ev.galleryImages.GetOr([]);
      }
    }

    method DateSelect(date: Option<Instant>)
      modifies this
      requires Valid()
      ensures Valid()
      ensures selectedDate == date
      ensures timeSlots == old(timeSlots) && formData == old(formData)
      ensures coverImagePreview == old(coverImagePreview) && galleryPreviews == old(galleryPreviews)
      ensures isSubmitting == old(isSubmitting) && isUploading == old(isUploading)
    {
      selectedDate := date;
    }

    /** `handleAddTimeSlot`: without a selected date nothing happens;
     *  otherwise an id-less slot on that date is appended and the date is
     *  cleared. */
    method AddTimeSlot(seats: int, startTime: Instant, endTime: Instant)
      modifies this
      requires Valid()
      ensures Valid()
      ensures old(selectedDate).None? ==>
        timeSlots == old(timeSlots) && formData == old(formData) && selectedDate.None?
      ensures old(selectedDate).Some? ==>
        timeSlots == old(timeSlots) + [FormTimeSlot(None, old(selectedDate).value, startTime, endTime, seats)] &&
        formData == old(formData).(timeSlots := ToWire(timeSlots)) && selectedDate.None?
      ensures coverImagePreview == old(coverImagePreview) && galleryPreviews == old(galleryPreviews)
      ensures isSubmitting == old(isSubmitting) && isUploading == old(isUploading)
    {
      if selectedDate.Some? {
        timeSlots := timeSlots + [FormTimeSlot(None, selectedDate.value, startTime, endTime, seats)];
        formData := formData.(timeSlots := ToWire(timeSlots));
        selectedDate := None;
      }
    }

    /** `handleDeleteTimeSlot(index)`: exactly the slot at `index` goes. */
    method DeleteTimeSlot(index: int)
      modifies this
      requires Valid()
      ensures Valid()
      ensures timeSlots == RemoveAt(old(timeSlots), index)
      ensures formData == old(formData).(timeSlots := ToWire(timeSlots))
      ensures selectedDate == old(selectedDate)
      ensures coverImagePreview == old(coverImagePreview) && galleryPreviews == old(galleryPreviews)
      ensures isSubmitting == old(isSubmitting) && isUploading == old(isUploading)
    {
      timeSlots := RemoveAt(timeSlots, index);
      formData := formData.(timeSlots := ToWire(timeSlots));
    }

    /** `handleEditTimeSlot(index, updated)`: only the slot at `index`
     *  changes, and it keeps its id when it had one. */
    method EditTimeSlot(index: int, updated: FormTimeSlot)
      modifies this
      requires Valid()
      ensures Valid()
      ensures timeSlots == ReplaceAt(old(timeSlots), index, updated)
      ensures formData == old(formData).(timeSlots := ToWire(timeSlots))
      ensures selectedDate == old(selectedDate)
      ensures coverImagePreview == old(coverImagePreview) && galleryPreviews == old(galleryPreviews)
      ensures isSubmitting == old(isSubmitting) && isUploading == old(isUploading)
    {
      timeSlots := ReplaceAt(timeSlots, index, updated);
      formData := formData.(timeSlots := ToWire(timeSlots));
    }

    /** `handleFormChange(field, value)`. */
    method FormChange(c: FieldChange)
      modifies this
      requires Valid()
      ensures Valid()
      ensures formData == ApplyChange(old(formData), c)
      ensures timeSlots == old(timeSlots) && selectedDate == old(selectedDate)
      ensures coverImagePreview == old(coverImagePreview) && galleryPreviews == old(galleryPreviews)
      ensures isSubmitting == old(isSubmitting) && isUploading == old(isUploading)
    {
      formData := ApplyChange(formData, c);
    }

    /** `handleCoverImageUpload`. `preview` is the object URL of the file,
     *  `uploaded` the URL the upload returns (None: it throws), `deleteOk`
     *  whether deleting the previous cover succeeds. The old cover is
     *  deleted only after the upload has returned, and `coverImage` is set
     *  last; on any failure the preview is reset to "" and `coverImage`
     *  keeps its value. */
    method UploadCover(file: Option<FileInfo>, preview: string, uploaded: Option<string>, deleteOk: bool)
      returns (calls: seq<StorageCall>, rejected: Option<string>)
      modifies this
      requires Valid()
      ensures Valid()
      ensures file.None? ==> calls == [] && rejected.None? && unchanged(this)
      ensures file.Some? && ValidateImage(file.value).Some? ==>
        calls == [] && rejected == ValidateImage(file.value) && unchanged(this)
      ensures file.Some? && ValidateImage(file.value).None? ==>
        rejected.None? && !isUploading &&
        (if uploaded.None? then
           calls == [Upload(file.value)] && coverImagePreview == "" && formData == old(formData)
         else if Truthy(old(formData.coverImage)) && !deleteOk then
           calls == [Upload(file.value), Delete(old(formData.coverImage).value)] &&
           coverImagePreview == "" && formData == old(formData)
         else
           calls == [Upload(file.value)] + (if Truthy(old(formData.coverImage)) then [Delete(old(formData.coverImage).value)] else []) &&
           coverImagePreview == preview && formData == old(formData).(coverImage := uploaded))
      ensures timeSlots == old(timeSlots) && selectedDate == old(selectedDate)
      ensures galleryPreviews == old(galleryPreviews) && isSubmitting == old(isSubmitting)
    {
      calls := [];
      rejected := None;
      if file.None? {
        return;
      }
      var error := ValidateImage(file.value);
      if error.Some? {
        rejected := error;
        return;
      }
      isUploading := true;
      coverImagePreview := preview;
      calls := calls + [Upload(file.value)];
      if uploaded.None? {
        coverImagePreview := "";
        isUploading := false;
        return;
      }
      if Truthy(formData.coverImage) {
        calls := calls + [Delete(formData.coverImage.value)];
        if !deleteOk {
          coverImagePreview := "";
          isUploading := false;
          return;
        }
      }
      formData := formData.(coverImage := uploaded);
      isUploading := false;
    }

    /** `handleGalleryUpload`. `previews` are the files' object URLs and
     *  `uploaded` the URLs `Promise.all` resolves to, one per file (None:
     *  an upload fails). A batch with any invalid file reports the first
     *  file's error and changes nothing; otherwise the previews are
     *  appended, and on success the URLs follow in file order, while on
     *  failure the appended previews are removed again. */
    method GalleryUpload(files: seq<FileInfo>, previews: seq<string>, uploaded: Option<seq<string>>)
      returns (calls: seq<StorageCall>, rejected: Option<string>)
      modifies this
      requires Valid()
      requires |previews| == |files|
      requires uploaded.Some? ==> |uploaded.value| == |files|
      ensures Valid()
      ensures |files| == 0 || FirstError(files).Some? ==>
        calls == [] && rejected == FirstError(files) && unchanged(this)
      ensures |files| > 0 && FirstError(files).None? ==>
        rejected.None? && !isUploading &&
        |calls| == |files| && (forall i :: 0 <= i < |files| ==> calls[i] == Upload(files[i])) &&
        (if uploaded.Some? then
           galleryPreviews == old(galleryPreviews) + previews &&
           formData == old(formData).(galleryImages := old(formData.galleryImages) + uploaded.value)
         else
           galleryPreviews == old(galleryPreviews) && formData == old(formData))
      ensures timeSlots == old(timeSlots) && selectedDate == old(selectedDate)
      ensures coverImagePreview == old(coverImagePreview) && isSubmitting == old(isSubmitting)
    {
      calls := [];
      rejected := None;
      if |files| == 0 {
        return;
      }
      rejected := FirstError(files);
      if rejected.Some? {
        return;
      }
      isUploading := true;
      galleryPreviews := galleryPreviews + previews;
      calls := UploadCalls(files);
      if uploaded.Some? {
        formData := formData.(galleryImages := formData.galleryImages + uploaded.value);
      } else {
        galleryPreviews := galleryPreviews[..|galleryPreviews| - |files|];
      }
      isUploading := false;
    }

    /** `handleDeleteCoverImage`: the remote delete runs only when there is
     *  a cover; when it fails nothing changes. */
    method DeleteCover(deleteOk: bool) returns (calls: seq<StorageCall>)
      modifies this
      requires Valid()
      ensures Valid()
      ensures calls == if Truthy(old(formData.coverImage)) then [Delete(old(formData.coverImage).value)] else []
      ensures Truthy(old(formData.coverImage)) && !deleteOk ==> unchanged(this)
      ensures !(Truthy(old(formData.coverImage)) && !deleteOk) ==>
        coverImagePreview == "" && formData == old(formData).(coverImage := None)
      ensures timeSlots == old(timeSlots) && selectedDate == old(selectedDate)
      ensures galleryPreviews == old(galleryPreviews)
      ensures isSubmitting == old(isSubmitting) && isUploading == old(isUploading)
    {
      calls := [];
      if Truthy(formData.coverImage) {
        calls := [Delete(formData.coverImage.value)];
        if !deleteOk {
          return;
        }
      }
      coverImagePreview := "";
      formData := formData.(coverImage := None);
    }

    /** `handleDeleteGalleryImage(index)`: the remote delete runs only when
     *  `galleryImages[index]` exists; when it fails nothing changes;
     *  otherwise the same index leaves both lists. */
    method DeleteGalleryImage(index: int, deleteOk: bool) returns (calls: seq<StorageCall>)
      modifies this
      requires Valid()
      ensures Valid()
      ensures var imgs := old(formData.galleryImages);
        calls == if 0 <= index < |imgs| && imgs[index] != "" then [Delete(imgs[index])] else []
      ensures calls != [] && !deleteOk ==> unchanged(this)
      ensures !(calls != [] && !deleteOk) ==>
        galleryPreviews == RemoveAt(old(galleryPreviews), index) &&
        formData == old(formData).(galleryImages := RemoveAt(old(formData.galleryImages), index))
      ensures timeSlots == old(timeSlots) && selectedDate == old(selectedDate)
      ensures coverImagePreview == old(coverImagePreview)
      ensures isSubmitting == old(isSubmitting) && isUploading == old(isUploading)
    {
      calls := [];
      if 0 <= index < |formData.galleryImages| && formData.galleryImages[index] != "" {
        calls := [Delete(formData.galleryImages[index])];
        if !deleteOk {
          return;
        }
      }
      galleryPreviews := RemoveAt(galleryPreviews, index);
      formData := formData.(galleryImages := RemoveAt(formData.galleryImages, index));
    }

    /** `handleSubmit(status)`. `parsed` is what `JSON.parse` gives on the
     *  description, `user` what `getCurrentUser` returns (None: it throws),
     *  `saveOk` whether the save call succeeds. Any message stops the
     *  submission before the user is fetched; `isSubmitting` is false
     *  afterwards in every case. */
    method Submit(status: Status, parsed: Parsed, user: Option<User>, saveOk: bool) returns (outcome: SubmitOutcome)
      modifies this
      requires Valid()
      ensures Valid()
      ensures var text := DescriptionText(old(formData.description), parsed);
        if text.None? then outcome == Failed
        else if Messages(old(formData), text.value, |old(timeSlots)|) != [] then
          outcome == Invalid(Messages(old(formData), text.value, |old(timeSlots)|))
        else if user.None? then outcome == Failed
        else
          var call := SaveCallFor(mode, eventId, EventPayload(old(formData), status, user.value.userId, user.value.username));
          outcome == (if saveOk then Saved(call) else SaveFailed(call))
      ensures !isSubmitting
      ensures timeSlots == old(timeSlots) && formData == old(formData) && selectedDate == old(selectedDate)
      ensures coverImagePreview == old(coverImagePreview) && galleryPreviews == old(galleryPreviews)
      ensures isUploading == old(isUploading)
    {
      var text := DescriptionText(formData.description, parsed);
      if text.None? {
        isSubmitting := false;
        return Failed;
      }
      var messages := CheckRules(formData, text.value, |timeSlots|);
      if messages != [] {
        isSubmitting := false;
        return Invalid(messages);
      }
      isSubmitting := true;
      if user.None? {
        isSubmitting := false;
        return Failed;
      }
      var payload := EventPayload(formData, status, user.value.userId, user.value.username);
      var call := SaveCallFor(mode, eventId, payload);
      outcome := if saveOk then Saved(call) else SaveFailed(call);
      isSubmitting := false;
    }
  }

  /** The rule checks of `handleSubmit`: each check pushes its message when
   *  its condition holds, in rule order. */
  method CheckRules(d: FormData, descriptionText: string, slotCount: nat) returns (messages: seq<string>)
    ensures messages == Messages(d, descriptionText, slotCount)
  {
    var v := Violations(d, descriptionText, slotCount);
    messages := CheckFlags(v);
  }

  /** The eight pushes, given which rules are broken. */
  method CheckFlags(v: seq<bool>) returns (messages: seq<string>)
    requires |v| == |AllMessages|
    ensures messages == KeepUpTo(v, AllMessages, |AllMessages|)
  {
    messages := [];
    messages := CheckRule(messages, v[0], AllMessages[0]);
    KeepStep(v, AllMessages, 0);
    messages := CheckRule(messages, v[1], AllMessages[1]);
    KeepStep(v, AllMessages, 1);
    messages := CheckRule(messages, v[2], AllMessages[2]);
    KeepStep(v, AllMessages, 2);
    messages := CheckRule(messages, v[3], AllMessages[3]);
    KeepStep(v, AllMessages, 3);
    messages := CheckRule(messages, v[4], AllMessages[4]);
    KeepStep(v, AllMessages, 4);
    messages := CheckRule(messages, v[5], AllMessages[5]);
    KeepStep(v, AllMessages, 5);
    messages := CheckRule(messages, v[6], AllMessages[6]);
    KeepStep(v, AllMessages, 6);
    messages := CheckRule(messages, v[7], AllMessages[7]);
    KeepStep(v, AllMessages, 7);
  }

  /** Keeping among one more item adds that item's message when flagged. */
  lemma KeepStep(flags: seq<bool>, items: seq<string>, n: nat)
    requires n < |flags| == |items|
    ensures KeepUpTo(flags, items, n + 1) == KeepUpTo(flags, items, n) + Flagged(flags[n], items[n])
  {
  }

  /** One check: push the message when the rule is broken. */
  method CheckRule(messages: seq<string>, broken: bool, message: string) returns (r: seq<string>)
    ensures r == messages + Flagged(broken, message)
  {
    r := messages;
    if broken {
      r := r + [message];
    }
  }

  /** One upload call per file, in file order. */
  function UploadCalls(files: seq<FileInfo>): (r: seq<StorageCall>)
    ensures |r| == |files| && forall i :: 0 <= i < |files| ==> r[i] == Upload(files[i])
  {
    seq(|files|, i requires 0 <= i < |files| => Upload(files[i]))
  }

  // ----- the edit-mode load ----------------------------------------------

  /** A slot as the backend returns it. */
  datatype StoredSlot = StoredSlot(id: Option<string>, startTime: Instant, endTime: Instant, totalSeats: int)

  /** The fields of a fetched event the form reads. */
  datatype StoredEvent = StoredEvent(
    title: string,
    description: string,
    location: string,
    eventTypes: seq<string>,
    pricePerSeat: real,
    coverImage: Option<string>,
    galleryImages: Option<seq<string>>,
    timeSlots: seq<StoredSlot>)

  /** Fetched slots as form slots: each dated at its start, with its total
   *  seats. */
  function FormSlotsOf(stored: seq<StoredSlot>): (r: seq<FormTimeSlot>)
    ensures |r| == |stored|
    ensures forall i :: 0 <= i < |stored| ==>
      r[i] == FormTimeSlot(stored[i].id, stored[i].startTime, stored[i].startTime, stored[i].endTime, stored[i].totalSeats)
  {
    seq(|stored|, i requires 0 <= i < |stored| =>
      FormTimeSlot(stored[i].id, stored[i].startTime, stored[i].startTime, stored[i].endTime, stored[i].totalSeats))
  }
}
