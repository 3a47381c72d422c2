# Events marketplace front-end: a Dafny model of its component logic

The system is a Next.js front-end for an events marketplace. Organizers
(called coaches in the code) author events with time slots, images and a
rich-text description. Visitors search events through Algolia, open an
event page, pick a slot and a seat count, and book. They then manage the
invitees on a confirmation page. The front-end also holds the sign-up and
password-reset forms, a route guard and a middleware that protect the
authoring pages, the coach profile editor, the coach listing, a favourite
button and a statistics hook.

This project models the deterministic logic inside those components.

- **Stateful components are classes.** Each React component whose handlers
  update state becomes a Dafny `class` with those state variables as fields.
  Each handler becomes a method, and its `ensures` states the whole new state.
- **External calls become inputs and outputs.** A network, storage or auth
  call is an input to the handler: the outcome the call resolved to. A call
  the handler starts is returned as an output (`calls`, `effects`,
  `requests`, `navigation`).
- **Pure helpers are functions.** Filters, clamps, renderers and message
  lists become functions. Their properties are stated as contracts or
  lemmas.

Shared modules:

- `Wrappers`: `Option` and JavaScript truthiness of optional strings.
- `Strings`: ASCII case mapping, `includes`, `startsWith`, `trim`,
  `split`/`join`, number printing and `parseInt`.
- `Lists`: order-preserving `filter`, removing every occurrence of a value,
  toggling membership, removing by index.
- `Clock`: times as integer local minutes. It covers the day, the hour and
  minute, `setHours`, and "HH:MM" formatting and parsing.
- `RichText`: the rich-text document tree (blocks of inline runs with
  marks). It covers the plain-text flattener, the space-joined excerpt
  pieces, and the paragraph/heading HTML renderer with a proof that
  stripping the tags gives back the runs' text. It also covers the
  first-run extractor.
- `PasswordRules`: the four character classes of the password checklist,
  their conjunction, and the submit check order.

Component modules follow the source files one for one. Some behaviour of
the source is modelled as written, and the contracts state it:

- The middleware matches path prefixes, so `/settings-x` is protected. It
  never consults the list of coach-only paths.
- A favourite button whose flag fell behind the stored list appends the
  event a second time.
- The event page's slot button is still clickable when the slot reports a
  negative seat count, although its label reads "Sold Out".
- The route guard leaves `authorized` unchanged when a later check
  redirects.
- The coach listing throws while drawing a description that starts with
  '{' but does not hold a first run.
- "Apply filters" starts one search with the old page number, and the
  page effect then starts a second search when the page changed.
- The time-slot dialog passes an end time at or before the start time
  unchanged.
- The event page's image viewer keeps its index when a newly loaded event
  has fewer images, so the index can point past the image list.

## Model

| member | source | states |
|---|---|---|
| EventForm.ValidateImage | src/components/event-form.tsx:31-43 | a type outside jpeg/png/webp gives the type error before size is looked at; the size error only above 5 MiB; no error iff the type is allowed and size ≤ 5 MiB |
| EventForm.SizeBoundary | src/components/event-form.tsx:31-43 | exactly 5·1024·1024 bytes is accepted and one byte more is rejected with the size error |
| EventForm.FirstError | src/components/event-form.tsx:264-279 | no error iff every file of the batch validates; otherwise the reported error is the one of the first failing file |
| EventForm.WireOf | src/components/event-form.tsx:163-171 | the wire slot carries the id only when it is truthy, copies date and seats, and holds start and end as instants |
| EventForm.ToWire | src/components/event-form.tsx:159-171 | the wire list has the form list's length and order, slot by slot |
| EventForm.ToWireAppend | src/components/event-form.tsx:159-171 | converting a concatenation is the concatenation of the conversions |
| EventForm.ReplaceAt | src/components/event-form.tsx:192-196 | only index i changes; the old slot's id is kept when it had one; an out-of-range index changes nothing |
| EventForm.EditKeepsId | src/components/event-form.tsx:192-207 | after an edit the wire slot at that index still has the old id |
| EventForm.ApplyChange | src/components/event-form.tsx:210-212 | a field change sets exactly that field of the form data and leaves slots and images alone |
| EventForm.Violations | src/components/event-form.tsx:363-423 | one flag per validation rule, in the fixed rule order; the title and text lengths count UTF-16 code units |
| EventForm.MessageIffBroken | src/components/event-form.tsx:363-423 | a rule's message is listed iff that rule is broken |
| EventForm.MessagesInRuleOrder | src/components/event-form.tsx:363-423 | two broken rules appear in the message list in rule order |
| EventForm.NoMessagesIffValid | src/components/event-form.tsx:363-432 | the message list is empty iff title ≥ 20 and text ≥ 100 UTF-16 code units, a slot, a gallery image, a cover, a non-blank location, a category and a positive price are all present |
| EventForm.AllMessagesDistinct | src/components/event-form.tsx:369-421 | the eight messages are pairwise different |
| EventForm.CheckRules | src/components/event-form.tsx:365-423 | the pushing loop produces exactly the specified message list |
| EventForm.CheckRule | src/components/event-form.tsx:369-371 | one rule appends its message iff broken |
| EventForm.SaveCallFor | src/components/event-form.tsx:446-452 | update iff mode is edit and the event id is truthy, with that id; create otherwise; the payload is passed unchanged |
| EventForm.UploadCalls | src/components/event-form.tsx:285-289 | one upload per file, in file order |
| EventForm.FormSlotsOf | src/components/event-form.tsx:98-104 | loaded slots become form slots one for one, keeping id, date and seats |
| EventForm.EventFormState.constructor | src/components/event-form.tsx:61-80 | no date, no slots, initial form data, empty previews, not busy |
| EventForm.EventFormState.Load | src/components/event-form.tsx:86-146 | in edit mode with a loaded event the form, slots and previews take the stored values (previews equal to the stored images); otherwise nothing changes |
| EventForm.EventFormState.DateSelect | src/components/event-form.tsx:148-150 | sets the selected date only |
| EventForm.EventFormState.AddTimeSlot | src/components/event-form.tsx:152-174 | no date: nothing changes; otherwise one id-less slot dated the selected date is appended, the wire list rebuilt and the date cleared |
| EventForm.EventFormState.DeleteTimeSlot | src/components/event-form.tsx:176-190 | removes exactly index i (out of range: no change) and rebuilds the wire list |
| EventForm.EventFormState.EditTimeSlot | src/components/event-form.tsx:192-208 | replaces index i keeping its id and rebuilds the wire list |
| EventForm.EventFormState.FormChange | src/components/event-form.tsx:210-212 | the form data becomes the field change applied to it |
| EventForm.EventFormState.UploadCover | src/components/event-form.tsx:214-262 | invalid file: only the error; otherwise upload, then delete the old cover, then set the new URL; any failure keeps the old cover and resets the preview to "" |
| EventForm.EventFormState.GalleryUpload | src/components/event-form.tsx:264-312 | an empty or invalid batch changes nothing; otherwise previews and URLs grow in step in file order, and a failure removes the batch's previews and keeps the images |
| EventForm.EventFormState.DeleteCover | src/components/event-form.tsx:314-333 | a delete call only for a truthy cover; a failed call changes nothing; otherwise cover and preview are cleared |
| EventForm.EventFormState.DeleteGalleryImage | src/components/event-form.tsx:335-361 | a delete call only when the index holds an image; a failed call changes nothing; otherwise that index goes from both lists |
| EventForm.EventFormState.Submit | src/components/event-form.tsx:363-470 | any message stops before any call; with none and a user the create or update call carries form data, status and the user's id and name; busy flag cleared |
| LeftColumn.CategoryChange | src/components/left-column.tsx:151-157 | a present category loses every occurrence, an absent one is appended; other categories keep their order |
| LeftColumn.CategoryChangeTwice | src/components/left-column.tsx:151-157 | toggling an absent category twice restores the list |
| LeftColumn.FilterLocations | src/components/left-column.tsx:147-149 | exactly the locations whose lower-cased text contains the lower-cased search |
| LeftColumn.FilterLocationsAppend | src/components/left-column.tsx:147-149 | the filter keeps the locations' order |
| LeftColumn.EmptySearchKeepsAll | src/components/left-column.tsx:147-149 | an empty search keeps every location |
| LeftColumn.PickedLocationIsKnown | src/components/left-column.tsx:254-258 | a location picked from the filtered list never shows the "new location" hint |
| LeftColumn.PriceChange | src/components/left-column.tsx:159-162 | an unparsable price stores 0, a parsed one stores its value |
| LeftColumn.AddTimeSlot | src/components/left-column.tsx:123-130 | forwards the slot and clears the date only when a date is selected |
| LeftColumn.EditKeepsDateAndId | src/components/left-column.tsx:113-121 | the edited slot keeps the date and the id of the slot at that index |
| LeftColumn.LeftColumnState.constructor | src/components/left-column.tsx:63-71 | dialogs closed, nothing selected or edited, no locations, empty search |
| LeftColumn.LeftColumnState.LocationsLoaded | src/components/left-column.tsx:74-84 | the locations become the fetched list, or empty on failure |
| LeftColumn.LeftColumnState.SetLocationSearch | src/components/left-column.tsx:205-205 | sets the search text only |
| LeftColumn.LeftColumnState.LocationSelect | src/components/left-column.tsx:140-144 | sets the location, closes the picker and clears the search |
| LeftColumn.LeftColumnState.DeleteClick | src/components/left-column.tsx:93-96 | records the index and opens the dialog, nothing else |
| LeftColumn.LeftColumnState.DeleteDialogOpenChange | src/components/left-column.tsx:378-378 | sets whether the dialog is open |
| LeftColumn.LeftColumnState.DeleteConfirm | src/components/left-column.tsx:98-104 | calls the delete handler only with a recorded index and a handler, then clears the index and closes |
| LeftColumn.LeftColumnState.EditClick | src/components/left-column.tsx:106-111 | records the slot being edited |
| LeftColumn.LeftColumnState.EditClose | src/components/left-column.tsx:371-371 | clears the slot being edited |
| LeftColumn.LeftColumnState.EditSubmit | src/components/left-column.tsx:113-121 | nothing without a slot being edited; otherwise forwards the new seats and times with that slot's date and clears the editing state |
| TimeSlotModal.InitialFields | src/components/time-slot-modal.tsx:37-46 | editing: the seat text parses back to the seats and the time texts parse back to the start and end hour and minute; adding: all "" |
| TimeSlotModal.SlotOf | src/components/time-slot-modal.tsx:55-69 | start and end fall on the base date's day, at the hour and minute parsed from "HH:MM" |
| TimeSlotModal.EditRoundTrip | src/components/time-slot-modal.tsx:26-69 | submitting an unchanged edit reproduces the seats and the start, and the end when it was on the start's day |
| TimeSlotModal.EndBeforeStartPasses | src/components/time-slot-modal.tsx:49-69 | an end before the start is passed on as it is |
| TimeSlotModal.TimeSlotDialog.constructor | src/components/time-slot-modal.tsx:26-34 | the fields start from the initial values |
| TimeSlotModal.TimeSlotDialog.ResetEffect | src/components/time-slot-modal.tsx:37-47 | the fields are reset from the initial values |
| TimeSlotModal.TimeSlotDialog.SetSeats | src/components/time-slot-modal.tsx:98-98 | sets the seat text only |
| TimeSlotModal.TimeSlotDialog.SetStartTime | src/components/time-slot-modal.tsx:109-109 | sets the start text only |
| TimeSlotModal.TimeSlotDialog.SetEndTime | src/components/time-slot-modal.tsx:119-119 | sets the end text only |
| TimeSlotModal.TimeSlotDialog.Submit | src/components/time-slot-modal.tsx:49-78 | ignored under the button's disabled condition; otherwise submits the slot anchored to the base date, then clears the fields when adding and keeps them when editing |
| Clock.DayStart | src/components/time-slot-modal.tsx:58-63 | the midnight at or before an instant |
| Clock.SetHoursFields | src/components/time-slot-modal.tsx:62-63 | setHours keeps the day and gives the hour and minute asked for |
| Clock.SetHoursOwn | src/components/time-slot-modal.tsx:62-63 | setting an instant's own hour and minute gives it back |
| Clock.FormatTime | src/components/time-slot-modal.tsx:40-41 | 24-hour "HH:MM" text |
| Clock.ParseTime | src/components/time-slot-modal.tsx:55-56 | "HH:MM" split on ':' gives an hour below 24 and a minute below 60 |
| Clock.ParseFormatTime | src/components/time-slot-modal.tsx:40-56 | parsing the formatted time gives back the hour and minute |
| EventsSearch.SetChecked | src/components/events-search.tsx:152-157 | an existing type keeps its place and takes the new value; a new one goes last |
| EventsSearch.SelectedTypes | src/components/events-search.tsx:68-70 | a type is selected iff some entry for it is checked |
| EventsSearch.SetCheckedKeys | src/components/events-search.tsx:152-157 | the key order after a change is the old order, plus the new key at the end |
| EventsSearch.SetCheckedSelects | src/components/events-search.tsx:152-157 | keys stay unique, and afterwards a type is selected iff it is the one just checked or another that was selected |
| EventsSearch.TypeTerms | src/components/events-search.tsx:75-75 | one `eventTypes:"T"` term per checked type, in order |
| EventsSearch.Clauses | src/components/events-search.tsx:65-91 | types, location, price, date in that order; type clause iff a type is checked, location iff set and not "any", price always, date iff set |
| EventsSearch.OneTypeClause | src/components/events-search.tsx:72-77 | one checked type gives `(eventTypes:"T")` |
| EventsSearch.ResetFilterString | src/components/events-search.tsx:160-168 | the reset filters give the price clause for [0, 200] alone |
| EventsSearch.TotalPages | src/components/events-search.tsx:199-199 | the ceiling of hits over the 9 hits per page |
| EventsSearch.NextPageHasHits | src/components/events-search.tsx:442-442 | an enabled Next leads to a page that holds hits |
| EventsSearch.MinEdit | src/components/events-search.tsx:307-310 | the minimum becomes v (unparsable: 0) and the maximum max(v + 1, hi), so max > min |
| EventsSearch.MaxEdit | src/components/events-search.tsx:320-324 | the maximum becomes max(lo + 1, v) and the minimum stays, so max > min |
| EventsSearch.UnparsableIsZero | src/components/events-search.tsx:307-324 | text that is not a number counts as 0 in both inputs |
| EventsSearch.TypeLabel | src/components/events-search.tsx:256-256 | the label has the type's length; for a type without spaces, its space-separated words are the `_`-separated parts, each with an upper-case first letter and a lower-case rest |
| EventsSearch.SeatSumAppend | src/components/events-search.tsx:380-380 | the seat sum of a concatenation is the sum of the sums |
| EventsSearch.BigSlotNotAlmostFull | src/components/events-search.tsx:380-380 | with no negative counts, one slot with more than five seats rules out "Almost Full!" |
| EventsSearch.SumAtLeast | src/components/events-search.tsx:380-380 | with no negative counts the sum is at least each slot's seats |
| EventsSearch.NonNegativeSum | src/components/events-search.tsx:380-380 | with no negative counts the sum is not negative |
| EventsSearch.SearchPage.CurrentRequest | src/components/events-search.tsx:97-106 | the request asks for page `currentPage - 1` with 9 hits per page |
| EventsSearch.SearchPage.constructor | src/components/events-search.tsx:26-40 | empty query, no types, no location, price [0, 200], no date, page 1 |
| EventsSearch.SearchPage.EventTypeChange | src/components/events-search.tsx:152-157 | only the checked map changes, as `SetChecked` says |
| EventsSearch.SearchPage.MinPriceInput | src/components/events-search.tsx:307-310 | the range becomes the minimum edit and stays ordered |
| EventsSearch.SearchPage.MaxPriceInput | src/components/events-search.tsx:320-324 | the range becomes the maximum edit and stays ordered |
| EventsSearch.SearchPage.SliderChange | src/components/events-search.tsx:294-294 | the range becomes the slider's values |
| EventsSearch.SearchPage.SetFields | src/components/events-search.tsx:26-30 | sets query, location and date only |
| EventsSearch.SearchPage.Search | src/components/events-search.tsx:179-196 | one request from the current state, loading raised |
| EventsSearch.SearchPage.ApplyFilters | src/components/events-search.tsx:146-149 | the page returns to 1; the request carries the old page, and a second request for page 1 follows when the page changed |
| EventsSearch.SearchPage.ResetFilters | src/components/events-search.tsx:160-176 | every filter and the page return to their initial values, and the search runs on them |
| EventsSearch.SearchPage.ClearFilters | src/components/events-search.tsx:160-168 | the setters of the reset, and the loading flag raised |
| EventsSearch.SearchPage.Paginate | src/components/events-search.tsx:431-442 | a disabled button does nothing; otherwise the page moves by one and that page is searched |
| EventsSearch.SearchPage.HandleResponse | src/components/events-search.tsx:111-131 | a result gives its hits and `nbHits` (0 when missing); a throw or missing result empties the grid; loading cleared |
| Algolia.ParseDescription | src/lib/algolia.ts:39-57 | a doc gives the first min(100, length) characters of its space-joined run texts followed by "...", malformed input the same of the description itself; other JSON is returned unchanged |
| Algolia.LongTextCut | src/lib/algolia.ts:43-55 | a text longer than 100 characters becomes exactly its first 100 characters followed by "..." |
| Algolia.ShortDocKept | src/lib/algolia.ts:43-50 | a doc whose joined text is at most 100 characters keeps all of it |
| Algolia.EmptyRunKeepsSpaces | src/lib/algolia.ts:46-48 | a run without text still adds an empty piece, so two spaces appear |
| Algolia.InsertSorted | src/lib/algolia.ts:132-132 | inserting into a strictly sorted list keeps it strictly sorted and adds exactly the new element |
| Algolia.InsertAll | src/lib/algolia.ts:82-84 | the result is sorted, duplicate-free, and holds exactly the elements given |
| Algolia.PageCount | src/lib/algolia.ts:121-121 | the ceiling of `nbHits` (0 when missing) over 1000 |
| Algolia.HitLocations | src/lib/algolia.ts:114-118 | exactly the non-empty string locations of the hits |
| Algolia.TruthyStrings | src/lib/algolia.ts:114-118 | the collected list holds the same locations as the hit set |
| Algolia.BrowseConsistentTotal | src/lib/algolia.ts:94-130 | with a consistent total and non-empty pages the loop reads exactly the pages up to the page count |
| Algolia.BrowseOnlyHits | src/lib/algolia.ts:111-118 | every collected location is non-empty and occurs as a hit on a page read |
| Algolia.UniqueLocations | src/lib/algolia.ts:60-138 | facet keys are returned sorted and duplicate-free without browsing; otherwise the browse result, sorted and duplicate-free, or [] on a throw |
| RichText.PlainText | src/components/event-form.tsx:374-382 | the run texts concatenated with no separator, a missing text counting as "" |
| RichText.BlocksTextAppend | src/components/event-form.tsx:374-382 | the flattened text of a concatenation of blocks is the concatenation |
| RichText.PiecesText | src/lib/algolia.ts:45-49 | one excerpt piece per run, and the pieces concatenate to the flattened text |
| RichText.PiecesSkipEmpty | src/lib/algolia.ts:46-48 | a block without content adds no piece |
| RichText.RenderBlock | src/components/events-detail.tsx:316-329 | a block renders unless it is a heading without a first run, which throws |
| RichText.RenderBlocks | src/components/events-detail.tsx:316-329 | the blocks render iff none of them throws |
| RichText.Render | src/components/booking-confirmation.tsx:235-248 | a document renders iff it parses, has content and no heading throws |
| RichText.OtherBlockEmpty | src/components/events-detail.tsx:316-329 | a block that is neither paragraph nor heading renders as "" |
| RichText.EmptyDocRenders | src/components/booking-confirmation.tsx:235-235 | the fallback document `{"content":[]}` renders as "" |
| RichText.StripRender | src/components/events-detail.tsx:316-329 | stripping the tags from the rendered blocks gives the visible text of each block |
| RichText.ParagraphsShowPlainText | src/components/events-detail.tsx:316-329 | for paragraphs, the rendered HTML without tags is the runs' text |
| RichText.VisibleParagraphs | src/components/events-detail.tsx:316-329 | paragraphs show exactly the flattened text |
| RichText.FirstRunOnly | src/components/coach-page-client.tsx:45-45 | only the first run of the first block is taken |
| EventsDetail.FormatDate | src/components/events-detail.tsx:57-63 | dd.mm.yyyy with day and month zero-padded to two digits, "NaN.NaN.NaN" for an invalid date |
| EventsDetail.FormatDateInjective | src/components/events-detail.tsx:57-63 | two dates with the same text are the same date |
| EventsDetail.SlotLabel | src/components/events-detail.tsx:441-445 | "Sold Out" iff the slot is not available with seats left |
| EventsDetail.SoldOutClickable | src/components/events-detail.tsx:396-445 | a "Sold Out" slot is clickable iff it is available with a negative seat count |
| EventsDetail.LowSeatsClickable | src/components/events-detail.tsx:384-445 | a low-seat available slot is clickable iff no booking loads, and is labelled "Select Slot" |
| EventsDetail.FindSlot | src/components/events-detail.tsx:500-500 | finds a slot iff one has the id, and returns one with that id |
| EventsDetail.FindSlotFirst | src/components/events-detail.tsx:500-500 | the slot found is the first one with the id |
| EventsDetail.MaxSlots | src/components/events-detail.tsx:500-500 | the selected slot's seats, falling back to 1 when it is missing or has 0 seats |
| EventsDetail.MaxSlotsOfChosen | src/components/events-detail.tsx:500-500 | with unique ids the maximum is the chosen slot's seats |
| EventsDetail.AllImages | src/components/events-detail.tsx:93-97 | the cover followed by the gallery in order |
| EventsDetail.NextIndex | src/components/events-detail.tsx:190-194 | (i + 1) mod n, within [0, n) |
| EventsDetail.PrevIndex | src/components/events-detail.tsx:196-200 | (i − 1 + n) mod n, within [0, n) |
| EventsDetail.PrevNextInverse | src/components/events-detail.tsx:190-200 | Next and Previous undo each other |
| EventsDetail.BookingError | src/components/events-detail.tsx:163-173 | a rejected booking shows its message or the fallback; a throw shows the error's message or the fallback |
| EventsDetail.EventPage.CurrentView | src/components/events-detail.tsx:214-236 | spinner while loading; the event iff no error and an event; otherwise the error or "Failed to load event data" |
| EventsDetail.EventPage.constructor | src/components/events-detail.tsx:78-91 | not signed in, loading, nothing selected, count 1, no image open |
| EventsDetail.EventPage.AuthChecked | src/components/events-detail.tsx:124-131 | sets whether the user is signed in; every other field unchanged |
| EventsDetail.EventPage.EventLoaded | src/components/events-detail.tsx:93-122 | a loaded event is stored with its images (cover, then gallery) and no error; a failure stores the message; loading cleared; the viewer index is kept, and falls out of range when the new list is shorter; every other field unchanged |
| EventsDetail.EventPage.OpenImage | src/components/events-detail.tsx:251-251 | opens the image at that index, which is then in range; every other field unchanged |
| EventsDetail.EventPage.StepImage | src/components/events-detail.tsx:190-200 | nothing when no image is open or the list is empty; otherwise the next or previous index around the list, which is in range even when the old index was not; every other field unchanged |
| EventsDetail.EventPage.KeyDown | src/components/events-detail.tsx:202-212 | arrows step (not on an empty list) and Escape closes, only while an image is open; an index in range stays in range; every other field unchanged |
| EventsDetail.EventPage.CloseImage | src/components/events-detail.tsx:506-506 | closes the image, leaving nothing out of range; every other field unchanged |
| EventsDetail.EventPage.SlotClick | src/components/events-detail.tsx:180-188 | an unclickable slot does nothing; signed out: only the redirect to the login page; otherwise the slot is selected and the seat dialog opens; every other field unchanged |
| EventsDetail.EventPage.SlotDialogClose | src/components/events-detail.tsx:493-498 | ignored while a booking loads; otherwise closes the dialog and clears the selection; every other field unchanged |
| EventsDetail.EventPage.SlotCountConfirm | src/components/events-detail.tsx:133-137 | stores the count and moves from the seat dialog to the confirmation; every other field unchanged |
| EventsDetail.EventPage.BookingConfirm | src/components/events-detail.tsx:139-178 | nothing without a selected slot; otherwise one register call, the redirect and confetti on success, the error otherwise, and loading and confirmation cleared either way; every other field unchanged |
| SlotSelectionModal.TypedCount | src/components/slot-selection-modal.tsx:52-52 | `parseInt(v) \|\| 1`: the parsed value, or 1 when it is unparsable or 0 |
| SlotSelectionModal.ClampCount | src/components/slot-selection-modal.tsx:52-52 | min(max(1, v), maxSlots): in range kept, larger becomes maxSlots, within [1, maxSlots] when maxSlots ≥ 1 |
| SlotSelectionModal.ClampShownCount | src/components/slot-selection-modal.tsx:52-52 | re-entering the shown count keeps it |
| SlotSelectionModal.UnparsableIsOne | src/components/slot-selection-modal.tsx:52-52 | unparsable input and 0 give 1 |
| SlotSelectionModal.SlotDialog.constructor | src/components/slot-selection-modal.tsx:30-30 | the count starts at 1 |
| SlotSelectionModal.SlotDialog.Change | src/components/slot-selection-modal.tsx:52-52 | the count becomes the clamped input |
| SlotSelectionModal.SlotDialog.Confirm | src/components/slot-selection-modal.tsx:32-34 | passes the current count unchanged |
| BookingConfirmation.FormatCoachName | src/components/booking-confirmation.tsx:24-29 | keeps the length; the space-separated words of the result are the name's words, each with an upper-case first letter and a lower-case rest |
| BookingConfirmation.FormatCoachNameIdempotent | src/components/booking-confirmation.tsx:24-29 | formatting twice is formatting once |
| BookingConfirmation.CoachHeading | src/components/booking-confirmation.tsx:276-276 | "" without a name, otherwise the formatted name |
| BookingConfirmation.SectionDoc | src/components/booking-confirmation.tsx:235-235 | a missing text is rendered from the empty document |
| BookingConfirmation.MissingSectionEmpty | src/components/booking-confirmation.tsx:281-294 | a missing description or bio renders as "" |
| BookingConfirmation.SectionShowsText | src/components/booking-confirmation.tsx:235-248 | paragraphs render to HTML whose text is the runs' text |
| BookingConfirmation.ConfirmationPage.constructor | src/components/booking-confirmation.tsx:61-67 | no attendees, no confirmation, loading |
| BookingConfirmation.ConfirmationPage.Loaded | src/components/booking-confirmation.tsx:72-88 | the confirmation is stored and its invitees, when present, become the attendees; a failure stores the error |
| BookingConfirmation.ConfirmationPage.SetNewAttendee | src/components/booking-confirmation.tsx:62-62 | sets the input only |
| BookingConfirmation.ConfirmationPage.AddAttendee | src/components/booking-confirmation.tsx:90-127 | nothing without input or confirmation; a listed email is refused without a call; otherwise one call, and success appends and clears the input; a duplicate-free list stays duplicate-free |
| BookingConfirmation.ConfirmationPage.RemoveAttendee | src/components/booking-confirmation.tsx:129-157 | one call; success removes every entry equal to the email; failure keeps the list |
| PasswordRules.ValidatePassword | src/components/signup-form.tsx:28-35 | each flag holds iff the password has a character of its class |
| PasswordRules.HasCharIn | src/components/signup-form.tsx:30-33 | the regular-expression test: some character of the class occurs |
| PasswordRules.SpecialClass | src/components/signup-form.tsx:33-33 | space, ~, ` and letters and digits are not special |
| PasswordRules.ShortPasswordPasses | src/components/signup-form.tsx:37-44 | length is not checked: "Aa1!" passes |
| PasswordRules.ValidExtends | src/components/signup-form.tsx:37-44 | a valid password stays valid when extended |
| PasswordRules.SubmitError | src/components/signup-form.tsx:79-87 | no error iff requirements are met and the passwords match; requirements are reported before the mismatch |
| PasswordRules.FailureMessage | src/components/signup-form.tsx:96-96 | the error's message when truthy, else the fallback |
| SignupForm.SetField | src/components/signup-form.tsx:102-107 | only the field named by the input changes; the role is kept |
| SignupForm.WithoutConfirmation | src/components/signup-form.tsx:92-92 | the payload keeps every field but the confirmation |
| SignupForm.ConfirmationNotSent | src/components/signup-form.tsx:92-93 | the confirmation field never reaches the payload |
| SignupForm.SignupPage.constructor | src/components/signup-form.tsx:52-63 | empty fields with role "user", no error, not loading, not complete |
| SignupForm.SignupPage.Change | src/components/signup-form.tsx:102-107 | the form data becomes `SetField` of it |
| SignupForm.SignupPage.SetRole | src/components/signup-form.tsx:133-143 | the role becomes "user" or "coach" |
| SignupForm.SignupPage.Submit | src/components/signup-form.tsx:75-100 | a failed check sets its message and makes no call; otherwise one sign-up call without the confirmation, success completes, failure sets the error, loading cleared |
| ForgotPasswordForm.TickNValue | src/components/forgot-password-form.tsx:76-86 | k ticks take the cooldown to max(0, c − k) |
| ForgotPasswordForm.ResendOpensAfterCooldown | src/components/forgot-password-form.tsx:96-105 | resend opens exactly after 45 ticks |
| ForgotPasswordForm.ResendLabel | src/components/forgot-password-form.tsx:231-231 | "Resend code" iff the cooldown is not positive, else with the seconds left |
| ForgotPasswordForm.ResetButtonMatchesChecks | src/components/forgot-password-form.tsx:123-317 | an enabled reset button means both checks pass, and both passing while idle enables it |
| ForgotPasswordForm.ResetForm.constructor | src/components/forgot-password-form.tsx:56-64 | empty fields, no code sent, cooldown 0 |
| ForgotPasswordForm.ResetForm.SetInputs | src/components/forgot-password-form.tsx:56-59 | sets the four inputs only |
| ForgotPasswordForm.ResetForm.Tick | src/components/forgot-password-form.tsx:76-86 | the cooldown drops by one only while positive, never below 0 |
| ForgotPasswordForm.ResetForm.SendCode | src/components/forgot-password-form.tsx:88-102 | one call; success marks the code sent with cooldown 45; failure sets the error and keeps the step |
| ForgotPasswordForm.ResetForm.ResendCode | src/components/forgot-password-form.tsx:104-117 | ignored while the cooldown is positive; otherwise one call, and success restarts the cooldown at 45 |
| ForgotPasswordForm.ResetForm.ResetPassword | src/components/forgot-password-form.tsx:119-143 | a failed check sets its message with no call; otherwise one confirm call, success completes the reset |
| ForgotPasswordForm.ResetForm.BackToSend | src/components/forgot-password-form.tsx:325-325 | returns to the send step |
| Middleware.AnyPrefix | src/middleware.ts:23-23 | some listed path is a prefix of the pathname |
| Middleware.IsProtected | src/middleware.ts:6-23 | protected iff the path starts with "/create" or "/settings" |
| Middleware.Handle | src/middleware.ts:16-36 | a redirect to /login carrying the pathname iff the path is protected and the token is missing or empty; otherwise pass through |
| Middleware.PrefixNotSegment | src/middleware.ts:23-23 | "/settings-x" and "/createaccount" are protected |
| Middleware.AnyTokenPasses | src/middleware.ts:20-35 | any non-empty token passes, whatever it holds |
| Middleware.EmptyTokenIsMissing | src/middleware.ts:20-23 | an empty token counts as none |
| RouteGuard.LoginTarget | src/components/route-guard.tsx:18-44 | the redirect target with `?redirect=` and the current path, "/login" by default |
| RouteGuard.Guard.constructor | src/components/route-guard.tsx:15-23 | not authorized |
| RouteGuard.Guard.Render | src/components/route-guard.tsx:80-92 | the spinner iff loading; the children iff not loading and authorized |
| RouteGuard.Guard.Check | src/components/route-guard.tsx:25-78 | no decision while loading; a session failure de-authorizes; no user or tokens goes to the login target; a failed role check goes to "/"; otherwise authorized |
| RouteGuard.EmptyListRejectsAll | src/components/route-guard.tsx:53-54 | an empty role list admits nobody |
| RouteGuard.ExactlyIsSingleton | src/components/route-guard.tsx:53-57 | a single role means the same as the list holding it |
| CoachProfileForm.InitialFormData | src/components/coach-profile-form.tsx:27-32 | missing fields default to "" and [] |
| CoachProfileForm.InitialEditorContent | src/components/coach-profile-form.tsx:34-44 | content iff a description is present and parses, and then its tree |
| CoachProfileForm.AddOnEnter | src/components/coach-profile-form.tsx:64-73 | Enter with non-blank input appends the trimmed input and clears it; otherwise nothing changes |
| CoachProfileForm.AddKeepsClean | src/components/coach-profile-form.tsx:64-73 | every entry stays trimmed and non-blank after an add |
| CoachProfileForm.RemoveKeepsClean | src/components/coach-profile-form.tsx:75-80 | every entry stays trimmed and non-blank after a removal |
| CoachProfileForm.DuplicatesAccepted | src/components/coach-profile-form.tsx:67-70 | an entry already listed is appended again |
| CoachProfileForm.AddThenRemove | src/components/coach-profile-form.tsx:64-80 | removing the entry just added restores the list |
| CoachProfileForm.ProfileForm.constructor | src/components/coach-profile-form.tsx:27-47 | the initial form data and editor content, empty inputs |
| CoachProfileForm.ProfileForm.SetTagline | src/components/coach-profile-form.tsx:113-113 | sets the tagline only |
| CoachProfileForm.ProfileForm.SetInputs | src/components/coach-profile-form.tsx:124-178 | sets the two inputs and the editor content |
| CoachProfileForm.ProfileForm.ExpertiseKey | src/components/coach-profile-form.tsx:64-73 | the expertise list and input follow `AddOnEnter`; the certifications are untouched |
| CoachProfileForm.ProfileForm.RemoveExpertise | src/components/coach-profile-form.tsx:75-80 | removes exactly index i (out of range: no change) |
| CoachProfileForm.ProfileForm.CertificationKey | src/components/coach-profile-form.tsx:82-91 | the certification list and input follow `AddOnEnter`; the expertise is untouched |
| CoachProfileForm.ProfileForm.RemoveCertification | src/components/coach-profile-form.tsx:93-98 | removes exactly index i (out of range: no change) |
| CoachProfileForm.ProfileForm.Submit | src/components/coach-profile-form.tsx:49-62 | one payload with the form data and the serialized content, or "" without content |
| CoachesListing.AnyAreaMatches | src/components/coaches-listing.tsx:41-41 | some area of expertise contains the term, ignoring case |
| CoachesListing.FilteredCoaches | src/components/coaches-listing.tsx:39-42 | exactly the coaches whose name or some area contains the term, ignoring case |
| CoachesListing.FilteredCoachesAppend | src/components/coaches-listing.tsx:39-39 | the filter keeps the fetched order |
| CoachesListing.EmptyTermShowsAll | src/components/coaches-listing.tsx:39-42 | an empty term shows every coach |
| CoachesListing.NoneFoundIff | src/components/coaches-listing.tsx:156-160 | the empty message shows iff no coach matches |
| CoachesListing.DescriptionShown | src/components/coaches-listing.tsx:127-131 | no line iff empty; not starting with '{': shown as it is; starting with '{': the first run's text, or a throw when it does not parse or has no first run |
| CoachPageClient.ParsedBio | src/components/coach-page-client.tsx:40-50 | "" for a missing bio, the first run's text for a document, the bio itself when it does not parse |
| CoachPageClient.LaterRunsHidden | src/components/coach-page-client.tsx:45-45 | later runs and blocks never appear |
| CoachPageClient.MissingStepEmpty | src/components/coach-page-client.tsx:43-45 | a missing block or run gives "" |
| FavoriteButton.StoredFavorites | src/components/favorite-button.tsx:18-18 | the stored list, or [] when nothing is stored |
| FavoriteButton.Favorite.constructor | src/components/favorite-button.tsx:17-21 | the flag is the event's membership in the stored list |
| FavoriteButton.Favorite.Click | src/components/favorite-button.tsx:23-43 | a favourite loses every occurrence and the flag clears; otherwise the event is appended and the flag set; in sync it is a membership toggle, and afterwards the flag matches the list written |
| FavoriteButton.StaleFlagDuplicates | src/components/favorite-button.tsx:34-41 | appending to a list that already holds the event leaves it twice |
| Statistics.SlotsSumAppend | src/hooks/useStatistics.ts:36-40 | the slot sum of a concatenation is the sum of the sums |
| Statistics.EventsSumAppend | src/hooks/useStatistics.ts:34-41 | the event sum of a concatenation is the sum of the sums |
| Statistics.SlotsSumNonNegative | src/hooks/useStatistics.ts:36-40 | with no negative counts, one event's slot total is not negative |
| Statistics.EventsSumNonNegative | src/hooks/useStatistics.ts:34-41 | with no negative counts in any slot, the sum over all events (those without slots adding 0) is not negative |
| Statistics.TotalNonNegative | src/hooks/useStatistics.ts:13-65 | the hook's `totalRegistrations` is never negative when no stored count is negative, whatever the responses |
| Statistics.MissingCountsAsZero | src/hooks/useStatistics.ts:34-41 | a slot without a count and an event without slots add nothing |
| Statistics.FetchStatistics | src/hooks/useStatistics.ts:13-65 | the nested loops give the counts (0 for an unsuccessful call) and the sum of booked slots; a throw gives all zeros; loading cleared |
| Strings.Lower | src/components/left-column.tsx:148-148 | ASCII `toLowerCase`, character by character |
| Strings.Trim | src/components/coach-profile-form.tsx:65-69 | the input with exactly its leading and trailing white space dropped: only white space around it, no white space at its ends, and empty iff the input is blank |
| Strings.Utf16Length | src/components/event-form.tsx:369-369 | JavaScript's `length`: between the character count and twice it, and the character count when no character is above U+FFFF |
| Strings.Utf16LengthAppend | src/components/event-form.tsx:383-383 | code units add up over a concatenation |
| Strings.SplitJoin | src/components/booking-confirmation.tsx:24-29 | joining the split parts gives back the text, one part more than separators, no part holding the separator |
| Strings.JoinSplit | src/components/booking-confirmation.tsx:24-29 | splitting joined separator-free parts gives the parts back |
| Strings.ParseIntToString | src/components/slot-selection-modal.tsx:52-52 | `parseInt` of a printed integer gives it back |
| Strings.ParseIntNoDigit | src/components/slot-selection-modal.tsx:52-52 | text starting with a non-digit, non-sign, non-space character is not a number |
| Strings.TitleWordsSplit | src/components/booking-confirmation.tsx:24-29 | splitting a title-cased text on spaces gives the capitalized pieces, when the pieces hold no space |
| Strings.CapitalizeTwice | src/components/booking-confirmation.tsx:27-27 | capitalizing a word twice is capitalizing it once |
| Strings.TitleWordsSpaces | src/components/booking-confirmation.tsx:24-29 | title-casing keeps the word count and is idempotent |
| Lists.Toggle | src/components/left-column.tsx:151-157 | membership flips for the value and stays for every other value |
| Lists.ToggleTwice | src/components/left-column.tsx:151-157 | toggling an absent value twice restores the list |
| Lists.Without | src/components/booking-confirmation.tsx:136-136 | the value is gone and every other value keeps its membership |
| Lists.WithoutAppended | src/components/favorite-button.tsx:23-43 | removing a value just appended to a list that lacked it gives the list back; this covers a second favourite click and removing a just-added invitee (booking-confirmation.tsx 90-157) |
| Lists.RemoveAt | src/components/coach-profile-form.tsx:78-78 | the list without index i, unchanged for an index out of range |

## Left out

- Network, storage and auth calls (Amplify, the REST helpers, Algolia's transport, S3 uploads, `localStorage`) are not modelled. Their outcomes are parameters of the handlers, and the calls a handler starts are its outputs.
- `router.push`, `window.location` and the two-second redirect timer are returned as effects. They are not executed.
- Toasts and console logging are not modelled. They carry no state the model reads.
- Concurrency is not modelled: overlapping async handlers, the `Promise.all` of the gallery upload, and stale closures. Each handler is one atomic step with a chosen outcome.
- `JSON.parse` and `JSON.stringify` are not modelled. A parse result is an input `Parsed` (a tree, or malformed), and stringify is a function parameter. JSON values that are not objects, such as `null` or numbers, are not distinguished from a tree with missing fields.
- A stored description or bio that is the JSON text `null` is not modelled. Reading a field of `null` throws, so `parseDescription` falls to its catch branch and returns the truncated text, `parsedBio` returns the raw bio, and the HTML renderers and the coach listing throw.
- `Date` parsing and formatting across time zones and daylight saving time are not modelled. Times are integer local minutes, and `toISOString` is the identity on that instant.
- Clock.FormatTime: assumes the locale writes `hour12: false` times as "HH:MM" with hours 00-23, a ':' separator and ASCII digits. Other locales can give "24:05" (h24 hour cycle), "14.30" or other digits, which the time-slot dialog would then read differently; TimeSlotModal.EditRoundTrip holds under this assumption.
- The Intl date formatting of the event page (`formatDateTime`, the selected-slot text) and of the confirmation page (`formatEventDate`, `formatEventTime`) is left out. It depends on locale data.
- `parseFloat` of the price input is a parameter (`Option<real>`), and prices are reals. Floating-point rounding is not modelled.
- Case mapping covers ASCII only. Non-ASCII `toUpperCase`/`toLowerCase` is not modelled.
- Algolia.ParseDescription: cuts at 100 characters (Unicode scalar values). `substring(0, 100)` counts UTF-16 code units, so text with characters above U+FFFF is cut earlier in the source, and can end in half a surrogate pair, which a Dafny string cannot hold.
- Algolia.LongTextCut: states the cut for texts longer than 100 characters, not 100 UTF-16 code units, for the reason given for ParseDescription.
- Algolia.ShortDocKept: states that a doc text of at most 100 characters is kept whole; in the source that holds only up to 100 UTF-16 code units, for the reason given for ParseDescription.
- Strings.ParseInt: a "0x" or "0X" prefix reads as 0 followed by a non-digit, so "0x1A" gives 0. JavaScript's `parseInt` with no radix reads that prefix as hexadecimal and gives 26. The texts parsed here come from the browser's number inputs and `toString`, whose values never carry that prefix.
- The title-casing of event types and coach names takes the first character as a whole character. `charAt(0)` and `slice(1)` split a character above U+FFFF into its two code units, which differs only for such characters that have a case mapping.
- Algolia.Less: compares strings by Unicode scalar values. The default `sort` compares UTF-16 code units, and the two orders differ between characters above U+FFFF and those in U+E000-U+FFFF.
- Pressing Enter in the coach profile's expertise or certification field while it is blank calls no `preventDefault`, so the browser submits the form. That submission is not modelled: `AddOnEnter` only leaves the list unchanged.
- URL encoding of query parameters is not modelled, in the middleware's redirect URL and the booking redirect.
- Values of the wrong runtime type, such as a non-number `bookedSlots` or a non-string `location` hit, are not modelled. The `typeof` check on the coach profile's initial description is not modelled either: the description is always a string here.
- The delete button of the event form (`handleDelete`, event-form.tsx:472-500) is not modelled. It is a single API call followed by a page change.
- The description and location forwarding handlers of the left column (left-column.tsx:132-138) are not modelled. They pass their argument straight to `onFormChange`, and `FormChange` models the receiving side.
- The per-slot end-after-start check of the event form's submit compares two invalid dates. It never adds a message, so the model has no such rule.
- EventForm.EventFormState.GalleryUpload: requires one preview per file and, on success, one URL per file. The source derives them that way from the file list.
- TimeSlotModal.TimeSlotDialog.SetStartTime: requires "" or a well-formed "HH:MM" value, which the browser's time input guarantees. SetEndTime has the same requirement.
- EventsSearch.SearchPage.SliderChange: requires the two thumbs in order, which the slider component keeps.
- Presentational components, animation and floating-point geometry are not part of this model.
