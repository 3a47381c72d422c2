/**
 * The organizers page: the case-insensitive search over names and areas of
 * expertise, the card's description line, and the "no organizers found"
 * message.
 */
module CoachesListing {
  import opened Wrappers
  import opened Strings
  import opened Lists
  import opened RichText

  /** The fields of a `Coach` the listing reads. */
  datatype Coach = Coach(id: string, name: string, areasOfExpertise: seq<string>, description: string)

  /** `areas.some(exp => exp.toLowerCase().includes(term))`. */
  function AnyAreaMatches(areas: seq<string>, term: string): (r: bool)
    ensures r <==> exists i :: 0 <= i < |areas| && IncludesIgnoringCase(areas[i], term)
  {
    if |areas| == 0 then false
    else if IncludesIgnoringCase(areas[0], term) then true
    else
      assert forall i :: 1 <= i < |areas| ==> areas[i] == areas[1..][i - 1];
      AnyAreaMatches(areas[1..], term)
  }

  /** Whether a coach's card is shown for the search term. */
  predicate Shown(coach: Coach, term: string)
  {
    IncludesIgnoringCase(coach.name, term) || AnyAreaMatches(coach.areasOfExpertise, term)
  }

  /** `filteredCoaches`: exactly the coaches matching the term. */
  function FilteredCoaches(coaches: seq<Coach>, term: string): (r: seq<Coach>)
    ensures forall c :: c in r <==> c in coaches && Shown(c, term)
    ensures |r| <= |coaches|
  {
    Filter(coaches, c => Shown(c, term))
  }

  /** The filter keeps the fetched order. */
  lemma FilteredCoachesAppend(a: seq<Coach>, b: seq<Coach>, term: string)
    ensures FilteredCoaches(a + b, term) == FilteredCoaches(a, term) + FilteredCoaches(b, term)
  {
    FilterAppend(a, b, c => Shown(c, term));
  }

  /** An empty term shows every coach. */
  lemma EmptyTermShowsAll(coaches: seq<Coach>)
    ensures FilteredCoaches(coaches, "") == coaches
  {
    forall i | 0 <= i < |coaches| ensures Shown(coaches[i], "") {
      EmptyTermIncluded(coaches[i].name);
    }
    FilterKeepsAll(coaches, c => Shown(c, ""));
  }

  /** The "no organizers found" message shows iff no coach matches. */
  lemma NoneFoundIff(coaches: seq<Coach>, term: string)
    ensures FilteredCoaches(coaches, term) == [] <==> forall i :: 0 <= i < |coaches| ==> !Shown(coaches[i], term)
  {
    var r := FilteredCoaches(coaches, term);
    if r != [] {
      assert r[0] in r;
    }
  }

  /** What the card's description line holds: no line, a text, or an
   *  error thrown while drawing it. */
  datatype DescriptionLine = NoLine | Line(text: string) | RenderThrows

  /** `content[0].content[0]` exists. */
  predicate HasFirstRun(root: Node)
  {
    root.content.Some? && |root.content.value| > 0 &&
    root.content.value[0].content.Some? && |root.content.value[0].content.value| > 0
  }

  /** The description rule, where `parsed` is what `JSON.parse` gives on
   *  the description. An empty description draws no line; one starting
   *  with '{' draws the first run's text of its first block, and throws
   *  when that run is missing or the text does not parse (the lookup has
   *  no optional chaining); any other description is drawn as it is. */
  function DescriptionShown(description: string, parsed: Parsed): (v: DescriptionLine)
    ensures description == "" <==> v == NoLine
    ensures description != "" && !StartsWith(description, "{") ==> v == Line(description)
    ensures StartsWith(description, "{") ==>
      (v.RenderThrows? <==> parsed.Malformed? || !HasFirstRun(parsed.root))
    ensures StartsWith(description, "{") && v.Line? ==> parsed.Json? && v.text == FirstRunText(parsed.root)
  {
    if description == "" then NoLine
    else if !StartsWith(description, "{") then Line(description)
    else if parsed.Malformed? || !HasFirstRun(parsed.root) then RenderThrows
    else Line(parsed.root.content.value[0].content.value[0].text.GetOr(""))
  }
}
