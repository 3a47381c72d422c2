/**
 * The coach profile form: the tagline, two lists edited by typing an entry
 * and pressing Enter or by clicking an entry's remove button, and the rich
 * description whose editor content is serialised on submit.
 */
module CoachProfileForm {
  import opened Wrappers
  import opened Strings
  import opened Lists
  import opened RichText

  /** `CoachProfileFormData`. */
  datatype ProfileData = ProfileData(tagline: string, areasOfExpertise: seq<string>, certifications: seq<string>, description: string)

  /** The `initialData` prop with the fields it may lack. */
  datatype InitialData = InitialData(
    tagline: Option<string>, areasOfExpertise: Option<seq<string>>,
    certifications: Option<seq<string>>, description: Option<string>)

  /** The form's first state: each missing or empty text becomes "" and
   *  each missing list []. */
  function InitialFormData(initial: Option<InitialData>): (r: ProfileData)
    ensures initial.None? ==> r == ProfileData("", [], [], "")
    ensures initial.Some? ==>
      r.tagline == (if Truthy(initial.value.tagline) then initial.value.tagline.value else "") &&
      r.areasOfExpertise == initial.value.areasOfExpertise.GetOr([]) &&
      r.certifications == initial.value.certifications.GetOr([]) &&
      r.description == (if Truthy(initial.value.description) then initial.value.description.value else "")
  {
    if initial.None? then ProfileData("", [], [], "")
    else
      var d := initial.value;
      ProfileData(
        if Truthy(d.tagline) then d.tagline.value else "",
        d.areasOfExpertise.GetOr([]),
        d.certifications.GetOr([]),
        if Truthy(d.description) then d.description.value else "")
  }

  /** The editor's first content, where `parsed` is what `JSON.parse` gives
   *  on the initial description: none without a description or when it
   *  does not parse. */
  function InitialEditorContent(initial: Option<InitialData>, parsed: Parsed): (r: Option<Node>)
    ensures r.Some? <==> initial.Some? && Truthy(initial.value.description) && parsed.Json?
    ensures r.Some? ==> r.value == parsed.root
  {
    if initial.Some? && Truthy(initial.value.description) && parsed.Json? then Some(parsed.root) else None
  }

  /** An entry a list holds after it was added by the form: not empty and
   *  without white space at either end. */
  predicate Clean(entry: string)
  {
    |entry| > 0 && !IsSpace(entry[0]) && !IsSpace(entry[|entry| - 1])
  }

  predicate AllClean(entries: seq<string>)
  {
    forall i :: 0 <= i < |entries| ==> Clean(entries[i])
  }

  /** A list and the text typed for it. */
  datatype ListEdit = ListEdit(entries: seq<string>, input: string)

  /** `addExpertise` and `addCertification`: Enter with a non-blank input
   *  appends the trimmed input and clears it; anything else changes
   *  nothing. No check for an entry already listed is made. */
  function AddOnEnter(e: ListEdit, key: string): (r: ListEdit)
    ensures key == "Enter" && !IsBlank(e.input) ==>
      r.entries == e.entries + [Trim(e.input)] && r.input == "" && Clean(Trim(e.input))
    ensures key != "Enter" || IsBlank(e.input) ==> r == e
  {
    if key == "Enter" && Trim(e.input) != "" then ListEdit(e.entries + [Trim(e.input)], "") else e
  }

  /** Adding and removing keep a list of clean entries clean. */
  lemma AddKeepsClean(e: ListEdit, key: string)
    requires AllClean(e.entries)
    ensures AllClean(AddOnEnter(e, key).entries)
  {
  }

  lemma RemoveKeepsClean(entries: seq<string>, index: int)
    requires AllClean(entries)
    ensures AllClean(RemoveAt(entries, index))
  {
    if 0 <= index < |entries| {
      var r := RemoveAt(entries, index);
      assert forall i :: 0 <= i < |r| ==> r[i] == (if i < index then entries[i] else entries[i + 1]);
    }
  }

  /** An entry already listed is added once more. */
  lemma DuplicatesAccepted(e: ListEdit)
    requires Trim(e.input) in e.entries && !IsBlank(e.input)
    ensures |AddOnEnter(e, "Enter").entries| == |e.entries| + 1
    ensures AddOnEnter(e, "Enter").entries[|e.entries|] in e.entries
  {
  }

  /** Removing the entry just added gives the list back. */
  lemma AddThenRemove(e: ListEdit)
    requires !IsBlank(e.input)
    ensures RemoveAt(AddOnEnter(e, "Enter").entries, |e.entries|) == e.entries
  {
    var r := AddOnEnter(e, "Enter").entries;
    assert r[..|e.entries|] == e.entries;
  }

  class ProfileForm {
    var formData: ProfileData
    var editorContent: Option<Node>
    var newExpertise: string
    var newCertification: string
    var isLoading: bool

    constructor(initial: Option<InitialData>, parsed: Parsed)
      ensures formData == InitialFormData(initial) && editorContent == InitialEditorContent(initial, parsed)
      ensures newExpertise == "" && newCertification == "" && !isLoading
    {
      formData := InitialFormData(initial);
      editorContent := InitialEditorContent(initial, parsed);
      newExpertise := "";
      newCertification := "";
      isLoading := false;
    }

    method SetTagline(text: string)
      modifies this
      ensures formData == old(formData).(tagline := text)
      ensures editorContent == old(editorContent) && newExpertise == old(newExpertise)
      ensures newCertification == old(newCertification) && isLoading == old(isLoading)
    {
      formData := formData.(tagline := text);
    }

    /** The two entry inputs' `onChange`, and the editor's. */
    method SetInputs(expertise: string, certification: string, content: Option<Node>)
      modifies this
      ensures newExpertise == expertise && newCertification == certification && editorContent == content
      ensures formData == old(formData) && isLoading == old(isLoading)
    {
      newExpertise, newCertification, editorContent := expertise, certification, content;
    }

    /** A key on the expertise input; the certifications stay as they are. */
    method ExpertiseKey(key: string)
      modifies this
      ensures ListEdit(formData.areasOfExpertise, newExpertise) == AddOnEnter(ListEdit(old(formData).areasOfExpertise, old(newExpertise)), key)
      ensures formData.tagline == old(formData).tagline && formData.certifications == old(formData).certifications
      ensures formData.description == old(formData).description
      ensures editorContent == old(editorContent) && newCertification == old(newCertification) && isLoading == old(isLoading)
    {
      var r := AddOnEnter(ListEdit(formData.areasOfExpertise, newExpertise), key);
      formData := formData.(areasOfExpertise := r.entries);
      newExpertise := r.input;
    }

    /** `removeExpertise(index)`; the certifications stay as they are. */
    method RemoveExpertise(index: int)
      modifies this
      ensures formData == old(formData).(areasOfExpertise := RemoveAt(old(formData).areasOfExpertise, index))
      ensures editorContent == old(editorContent) && newExpertise == old(newExpertise)
      ensures newCertification == old(newCertification) && isLoading == old(isLoading)
    {
      formData := formData.(areasOfExpertise := RemoveAt(formData.areasOfExpertise, index));
    }

    /** A key on the certification input; the expertise list stays. */
    method CertificationKey(key: string)
      modifies this
      ensures ListEdit(formData.certifications, newCertification) == AddOnEnter(ListEdit(old(formData).certifications, old(newCertification)), key)
      ensures formData.tagline == old(formData).tagline && formData.areasOfExpertise == old(formData).areasOfExpertise
      ensures formData.description == old(formData).description
      ensures editorContent == old(editorContent) && newExpertise == old(newExpertise) && isLoading == old(isLoading)
    {
      var r := AddOnEnter(ListEdit(formData.certifications, newCertification), key);
      formData := formData.(certifications := r.entries);
      newCertification := r.input;
    }

    /** `removeCertification(index)`; the expertise list stays. */
    method RemoveCertification(index: int)
      modifies this
      ensures formData == old(formData).(certifications := RemoveAt(old(formData).certifications, index))
      ensures editorContent == old(editorContent) && newExpertise == old(newExpertise)
      ensures newCertification == old(newCertification) && isLoading == old(isLoading)
    {
      formData := formData.(certifications := RemoveAt(formData.certifications, index));
    }

    /** `handleSubmit`, with `stringify` standing for `JSON.stringify`: the
     *  form with the description replaced by the serialised editor content,
     *  or "" without content. A failing `onSubmit` is only logged. */
    method Submit(stringify: Node -> string) returns (calls: seq<ProfileData>)
      modifies this
      ensures |calls| == 1
      ensures calls[0].tagline == old(formData).tagline
      ensures calls[0].areasOfExpertise == old(formData).areasOfExpertise
      ensures calls[0].certifications == old(formData).certifications
      ensures old(editorContent).None? ==> calls[0].description == ""
      ensures old(editorContent).Some? ==> calls[0].description == stringify(old(editorContent).value)
      ensures !isLoading && formData == old(formData) && editorContent == old(editorContent)
      ensures newExpertise == old(newExpertise) && newCertification == old(newCertification)
    {
      isLoading := true;
      var description := if editorContent.Some? then stringify(editorContent.value) else "";
      calls := [formData.(description := description)];
      isLoading := false;
    }
  }
}
