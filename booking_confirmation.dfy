/**
 * The booking confirmation page: the organizer's name in title case, the
 * two rich-text sections drawn with `RichText.PlainStyle`, and the invitee
 * list with its add and remove calls.
 */
module BookingConfirmation {
  import opened Wrappers
  import opened Strings
  import opened Lists
  import opened RichText

  // ----- the organizer -------------------------------------------------------

  /** `formatCoachName(name)`: the words of the result are the words of
   *  the name, each with its first letter upper-cased and the rest
   *  lower-cased (ASCII), and the length is kept. */
  function FormatCoachName(name: string): (r: string)
    ensures |r| == |name|
    ensures Split(r, ' ') == CapitalizeAll(Split(name, ' '))
  {
    TitleWordsLength(name, ' ');
    TitleWordsSplit(name, ' ');
    TitleWords(name, ' ')
  }

  /** Formatting a formatted name changes nothing. */
  lemma FormatCoachNameIdempotent(name: string)
    ensures FormatCoachName(FormatCoachName(name)) == FormatCoachName(name)
  {
    TitleWordsSpaces(name);
  }

  /** The heading: the formatted name, or "" without one. */
  function CoachHeading(name: Option<string>): (r: string)
    ensures !Truthy(name) ==> r == ""
    ensures Truthy(name) ==> |r| == |name.value| && r == FormatCoachName(name.value)
  {
    if Truthy(name) then FormatCoachName(name.value) else ""
  }

  // ----- rich text -----------------------------------------------------------

  /** `JSON.parse(text || '{"content":[]}')`, where `parsed` is what
   *  `JSON.parse` gives on `text` itself. */
  function SectionDoc(text: Option<string>, parsed: Parsed): (r: Parsed)
    ensures Truthy(text) ==> r == parsed
    ensures !Truthy(text) ==> r == Json(EmptyDoc)
  {
    if Truthy(text) then parsed else Json(EmptyDoc)
  }

  /** The description or the bio as HTML; None when drawing it throws. */
  function Section(text: Option<string>, parsed: Parsed): Option<string>
  {
    Render(PlainStyle, SectionDoc(text, parsed))
  }

  /** A missing description or bio is drawn as nothing. */
  lemma MissingSectionEmpty(text: Option<string>, parsed: Parsed)
    requires !Truthy(text)
    ensures Section(text, parsed) == Some("")
  {
    EmptyDocRenders(PlainStyle);
  }

  /** Drawn paragraphs show exactly the document's text once the markup is
   *  stripped, as on the event page. */
  lemma SectionShowsText(text: Option<string>, root: Node)
    requires Truthy(text) && root.content.Some?
    requires forall i :: 0 <= i < |root.content.value| ==>
      WellFormedBlock(root.content.value[i]) && root.content.value[i].nodeType == "paragraph"
    ensures Section(text, Json(root)).Some?
    ensures StripTags(Section(text, Json(root)).value, false) == BlocksText(root.content.value)
  {
    StylesFree();
    ParagraphsShowPlainText(PlainStyle, root.content.value);
  }

  // ----- invitees ------------------------------------------------------------

  datatype Confirmation = Confirmation(id: string, invitees: Option<seq<string>>)

  /** The calls the page makes to the booking API. */
  datatype Call = AddInvitee(confirmationId: string, email: string) | RemoveInvitee(confirmationId: string, email: string)

  /** The toasts. */
  datatype Notice = NoNotice | AlreadyAdded | Added | AddFailed | Removed | RemoveFailed

  const LoadError := "Failed to load event data. Please try again later."

  class ConfirmationPage {
    var attendees: seq<string>
    var newAttendee: string
    var confirmation: Option<Confirmation>
    var isLoading: bool
    var error: Option<string>
    var isAddingAttendee: bool
    var removingAttendee: Option<string>

    constructor()
      ensures attendees == [] && newAttendee == "" && confirmation.None? && isLoading && error.None?
      ensures !isAddingAttendee && removingAttendee.None?
    {
      attendees := [];
      newAttendee := "";
      confirmation := None;
      isLoading := true;
      error := None;
      isAddingAttendee := false;
      removingAttendee := None;
    }

    /** The fetch effect: the confirmation, whose invitees, when present,
     *  become the list (None: the fetch threw). */
    method Loaded(result: Option<Confirmation>)
      modifies this
      ensures !isLoading
      ensures result.Some? ==>
        confirmation == result && error == old(error) &&
        attendees == result.value.invitees.GetOr(old(attendees))
      ensures result.None? ==> error == Some(LoadError) && confirmation == old(confirmation) && attendees == old(attendees)
      ensures newAttendee == old(newAttendee) && isAddingAttendee == old(isAddingAttendee) && removingAttendee == old(removingAttendee)
    {
      if result.Some? {
        confirmation := result;
        if result.value.invitees.Some? {
          attendees := result.value.invitees.value;
        }
      } else {
        error := Some(LoadError);
      }
      isLoading := false;
    }

    method SetNewAttendee(text: string)
      modifies this
      ensures newAttendee == text
      ensures attendees == old(attendees) && confirmation == old(confirmation) && isLoading == old(isLoading)
      ensures error == old(error) && isAddingAttendee == old(isAddingAttendee) && removingAttendee == old(removingAttendee)
    {
      newAttendee := text;
    }

    /** `handleAddAttendee`, with `succeeded` the outcome of `addInvitee`.
     *  Nothing happens with an empty input or no confirmation; an email
     *  already listed is refused without a call; otherwise the call is
     *  made, and only on success the email is appended and the input
     *  cleared. A list without repeats stays without repeats. */
    method AddAttendee(succeeded: bool) returns (calls: seq<Call>, notice: Notice)
      modifies this
      ensures old(newAttendee) == "" || old(confirmation).None? ==> calls == [] && notice == NoNotice && unchanged(this)
      ensures old(newAttendee) != "" && old(confirmation).Some? && old(newAttendee) in old(attendees) ==>
        calls == [] && notice == AlreadyAdded && unchanged(this)
      ensures old(newAttendee) != "" && old(confirmation).Some? && old(newAttendee) !in old(attendees) ==>
        calls == [AddInvitee(old(confirmation).value.id, old(newAttendee))] && !isAddingAttendee &&
        (succeeded ==> attendees == old(attendees) + [old(newAttendee)] && newAttendee == "" && notice == Added) &&
        (!succeeded ==> attendees == old(attendees) && newAttendee == old(newAttendee) && notice == AddFailed)
      ensures Distinct(old(attendees)) ==> Distinct(attendees)
      ensures confirmation == old(confirmation) && isLoading == old(isLoading) && error == old(error)
      ensures removingAttendee == old(removingAttendee)
    {
      calls, notice := [], NoNotice;
      if newAttendee == "" || confirmation.None? {
        return;
      }
      if newAttendee in attendees {
        notice := AlreadyAdded;
        return;
      }
      isAddingAttendee := true;
      calls := [AddInvitee(confirmation.value.id, newAttendee)];
      if succeeded {
        if Distinct(attendees) {
          DistinctAppend(attendees, newAttendee);
        }
        attendees := attendees + [newAttendee];
        newAttendee := "";
        notice := Added;
      } else {
        notice := AddFailed;
      }
      isAddingAttendee := false;
    }

    /** `handleRemoveAttendee(email)`, with `succeeded` the outcome of
     *  `removeInvitee`: nothing without a confirmation; on success every
     *  entry equal to the email goes and the others keep their order; on
     *  failure the list stays. */
    method RemoveAttendee(email: string, succeeded: bool) returns (calls: seq<Call>, notice: Notice)
      modifies this
      ensures old(confirmation).None? ==> calls == [] && notice == NoNotice && unchanged(this)
      ensures old(confirmation).Some? ==>
        calls == [RemoveInvitee(old(confirmation).value.id, email)] && removingAttendee.None? &&
        (succeeded ==> attendees == Without(old(attendees), email) && notice == Removed) &&
        (!succeeded ==> attendees == old(attendees) && notice == RemoveFailed)
      ensures Distinct(old(attendees)) ==> Distinct(attendees)
      ensures newAttendee == old(newAttendee) && confirmation == old(confirmation) && isLoading == old(isLoading)
      ensures error == old(error) && isAddingAttendee == old(isAddingAttendee)
    {
      calls, notice := [], NoNotice;
      if confirmation.None? {
        return;
      }
      removingAttendee := Some(email);
      calls := [RemoveInvitee(confirmation.value.id, email)];
      if succeeded {
        if Distinct(attendees) {
          WithoutDistinct(attendees, email);
        }
        attendees := Without(attendees, email);
        notice := Removed;
      } else {
        notice := RemoveFailed;
      }
      removingAttendee := None;
    }
  }
}
