/**
 * The event search page: the filter sidebar, the Algolia filter string it
 * builds, the page arithmetic of the result grid, and the card badges.
 *
 * The search itself is not modelled: each handler returns the requests it
 * starts, and `HandleResponse` takes what a request resolved to.
 */
module EventsSearch {
  import opened Wrappers
  import opened Strings

  const EventTypes: seq<string> :=
    ["SEMINAR", "NETWORKING", "TEAM_BUILDING", "BEACH_CLEANUP", "REFORESTATION", "WILDLIFE_CONSERVATION"]

  const EventsPerPage: nat := 9

  // ----- the checked event types ---------------------------------------------

  /** One `[type, isSelected]` entry of `selectedEventTypes`, kept in the
   *  object's insertion order. */
  datatype Entry = Entry(key: string, checked: bool)

  /** `Object.keys(selected)`. */
  function Keys(es: seq<Entry>): (r: seq<string>)
    ensures |r| == |es| && forall i :: 0 <= i < |es| ==> r[i] == es[i].key
  {
    seq(|es|, i requires 0 <= i < |es| => es[i].key)
  }

  /** An object holds each key once. */
  predicate UniqueKeys(es: seq<Entry>)
  {
    forall i, j :: 0 <= i < j < |es| ==> es[i].key != es[j].key
  }

  /** `{...prev, [key]: checked}`: an existing key keeps its place and
   *  takes the new value; a new key goes last. */
  function SetChecked(es: seq<Entry>, key: string, checked: bool): (r: seq<Entry>)
    ensures |r| == |es| || r == es + [Entry(key, checked)]
  {
    if |es| == 0 then [Entry(key, checked)]
    else if es[0].key == key then [Entry(key, checked)] + es[1..]
    else [es[0]] + SetChecked(es[1..], key, checked)
  }

  /** `Object.entries(selected).filter(([_, s]) => s).map(([t]) => t)`. */
  function SelectedTypes(es: seq<Entry>): (r: seq<string>)
    ensures forall t :: t in r <==> exists i :: 0 <= i < |es| && es[i].key == t && es[i].checked
  {
    if |es| == 0 then []
    else
      var rest := SelectedTypes(es[1..]);
      assert forall i :: 1 <= i < |es| ==> es[i] == es[1..][i - 1];
      (if es[0].checked then [es[0].key] else []) + rest
  }

  lemma UniqueTail(es: seq<Entry>)
    requires |es| > 0 && UniqueKeys(es)
    ensures UniqueKeys(es[1..])
    ensures forall i :: 0 <= i < |es[1..]| ==> es[1..][i].key != es[0].key
  {
    forall i, j | 0 <= i < j < |es[1..]| ensures es[1..][i].key != es[1..][j].key {
      assert es[1..][i] == es[i + 1] && es[1..][j] == es[j + 1];
    }
  }

  /** The keys after `SetChecked`: the old keys, followed by the key set
   *  when it is new. */
  lemma {:induction false} SetCheckedKeys(es: seq<Entry>, key: string, checked: bool)
    ensures Keys(SetChecked(es, key, checked)) == if key in Keys(es) then Keys(es) else Keys(es) + [key]
  {
    var r := SetChecked(es, key, checked);
    if |es| == 0 {
      assert Keys(r) == [key];
    } else if es[0].key == key {
      assert Keys(es)[0] == key;
      assert Keys(r) == Keys(es) by {
        forall i | 0 < i < |es| ensures Keys(r)[i] == Keys(es)[i] {
          assert r[i] == es[1..][i - 1];
        }
      }
    } else {
      var rest := SetChecked(es[1..], key, checked);
      SetCheckedKeys(es[1..], key, checked);
      KeysCons(es[0], rest);
      KeysCons(es[0], es[1..]);
      assert [es[0]] + es[1..] == es;
    }
  }

  lemma KeysCons(e: Entry, es: seq<Entry>)
    ensures Keys([e] + es) == [e.key] + Keys(es)
  {
    assert forall i :: 0 < i <= |es| ==> ([e] + es)[i] == es[i - 1];
  }

  /** `SetChecked` leaves every entry of another key where it was. */
  lemma {:induction false} SetCheckedOthers(es: seq<Entry>, key: string, checked: bool, i: nat)
    requires i < |SetChecked(es, key, checked)| && SetChecked(es, key, checked)[i].key != key
    ensures i < |es| && SetChecked(es, key, checked)[i] == es[i]
  {
    if |es| > 0 && es[0].key != key && i > 0 {
      SetCheckedOthers(es[1..], key, checked, i - 1);
    }
  }

  /** With unique keys, every entry of the key set holds the new value. */
  lemma {:induction false} SetCheckedValue(es: seq<Entry>, key: string, checked: bool, i: nat)
    requires UniqueKeys(es)
    requires i < |SetChecked(es, key, checked)| && SetChecked(es, key, checked)[i].key == key
    ensures SetChecked(es, key, checked)[i].checked == checked
  {
    if |es| > 0 && i > 0 {
      UniqueTail(es);
      if es[0].key != key {
        SetCheckedValue(es[1..], key, checked, i - 1);
      }
    }
  }

  /** `SetChecked` keeps the keys unique. */
  lemma SetCheckedUnique(es: seq<Entry>, key: string, checked: bool)
    requires UniqueKeys(es)
    ensures UniqueKeys(SetChecked(es, key, checked))
  {
    var r := SetChecked(es, key, checked);
    SetCheckedKeys(es, key, checked);
    forall i, j | 0 <= i < j < |r| ensures r[i].key != r[j].key {
      assert Keys(r)[i] == r[i].key && Keys(r)[j] == r[j].key;
      if j < |es| {
        assert Keys(r)[j] == Keys(es)[j] && Keys(r)[i] == Keys(es)[i];
      } else {
        assert key !in Keys(es) && Keys(r)[j] == key;
        assert Keys(r)[i] == Keys(es)[i];
      }
    }
  }

  /** `handleEventTypeChange(type, checked)` keeps the keys unique, and
   *  afterwards a type is selected iff it is the one just set to checked
   *  or another type that was already selected. */
  lemma SetCheckedSelects(es: seq<Entry>, key: string, checked: bool, t: string)
    requires UniqueKeys(es)
    ensures UniqueKeys(SetChecked(es, key, checked))
    ensures t in SelectedTypes(SetChecked(es, key, checked)) <==> if t == key then checked else t in SelectedTypes(es)
  {
    var r := SetChecked(es, key, checked);
    SetCheckedUnique(es, key, checked);
    SetCheckedKeys(es, key, checked);
    if t == key {
      if checked {
        assert key in Keys(r);
        var i :| 0 <= i < |Keys(r)| && Keys(r)[i] == key;
        SetCheckedValue(es, key, checked, i);
        assert r[i].key == t && r[i].checked;
      } else {
        forall i | 0 <= i < |r| && r[i].key == key ensures !r[i].checked {
          SetCheckedValue(es, key, checked, i);
        }
      }
    } else {
      if t in SelectedTypes(es) {
        var i :| 0 <= i < |es| && es[i].key == t && es[i].checked;
        assert Keys(r)[i] == Keys(es)[i];
        SetCheckedOthers(es, key, checked, i);
        assert r[i].key == t && r[i].checked;
      }
      if t in SelectedTypes(r) {
        var i :| 0 <= i < |r| && r[i].key == t && r[i].checked;
        SetCheckedOthers(es, key, checked, i);
        assert es[i].key == t && es[i].checked;
      }
    }
  }

  // ----- the filter string ---------------------------------------------------

  /** The sidebar's filter values. `dateTimestamp` stands for
   *  `new Date(selectedDate).getTime()`, read only when a date is set. */
  datatype Filters = Filters(types: seq<Entry>, location: string, priceLo: int, priceHi: int, date: string)

  function TypeTerm(t: string): string
  {
    "eventTypes:\"" + t + "\""
  }

  function TypeTerms(types: seq<string>): (r: seq<string>)
    ensures |r| == |types| && forall i :: 0 <= i < |types| ==> r[i] == TypeTerm(types[i])
  {
    seq(|types|, i requires 0 <= i < |types| => TypeTerm(types[i]))
  }

  /** `(eventTypes:"T1" OR eventTypes:"T2" …)`. */
  function TypeClause(types: seq<string>): (r: string)
    ensures |r| > 0 && r[0] == '('
  {
    "(" + Join(TypeTerms(types), " OR ") + ")"
  }

  function LocationClause(location: string): (r: string)
    ensures |r| > 0 && r[0] == 'l'
  {
    "location:\"" + location + "\""
  }

  function PriceClause(lo: int, hi: int): (r: string)
    ensures |r| > 0 && r[0] == 'p'
  {
    "pricePerSeat >= " + IntToString(lo) + " AND pricePerSeat <= " + IntToString(hi)
  }

  function DateClause(timestamp: int): (r: string)
    ensures |r| > 0 && r[0] == 't'
  {
    "timeSlots.startTime >= " + IntToString(timestamp)
  }

  predicate HasLocation(f: Filters)
  {
    f.location != "" && f.location != "any"
  }

  /** The filter clauses of `searchEvents`, in the order types, location,
   *  price, date: the type clause leads iff a type is checked, the location
   *  clause is present iff a real location is chosen, the price clause is
   *  always there, and the date clause ends the list iff a date is set. */
  function Clauses(f: Filters, dateTimestamp: int): (r: seq<string>)
    ensures var types := SelectedTypes(f.types);
      var before := (if |types| > 0 then 1 else 0) + (if HasLocation(f) then 1 else 0);
      |r| == before + 1 + (if f.date != "" then 1 else 0) &&
      (r[0] == TypeClause(types) <==> |types| > 0) &&
      (LocationClause(f.location) in r <==> HasLocation(f)) &&
      r[before] == PriceClause(f.priceLo, f.priceHi) &&
      (r[|r| - 1] == DateClause(dateTimestamp) <==> f.date != "")
  {
    var types := SelectedTypes(f.types);
    var lead := if |types| > 0 then [TypeClause(types)] else [];
    var location := if HasLocation(f) then [LocationClause(f.location)] else [];
    var tail := [PriceClause(f.priceLo, f.priceHi)] + (if f.date != "" then [DateClause(dateTimestamp)] else []);
    assert LocationClause(f.location) !in lead && LocationClause(f.location) !in tail;
    lead + location + tail
  }

  /** `filters.join(' AND ')`. */
  function FilterString(f: Filters, dateTimestamp: int): string
  {
    Join(Clauses(f, dateTimestamp), " AND ")
  }

  /** The only checked type gives the clause of that one type. */
  lemma OneTypeClause(t: string)
    ensures TypeClause(SelectedTypes([Entry(t, true)])) == "(eventTypes:\"" + t + "\")"
  {
    assert SelectedTypes([Entry(t, true)]) == [t];
  }

  // ----- pages ---------------------------------------------------------------

  /** `Math.ceil(totalHits / eventsPerPage)`. */
  function TotalPages(totalHits: nat): (r: nat)
    ensures (r - 1) * EventsPerPage < totalHits <= r * EventsPerPage || (r == 0 && totalHits == 0)
  {
    (totalHits + EventsPerPage - 1) / EventsPerPage
  }

  predicate PrevDisabled(currentPage: int)
  {
    currentPage == 1
  }

  predicate NextDisabled(currentPage: int, totalHits: nat)
  {
    currentPage >= TotalPages(totalHits)
  }

  /** Following an enabled Next asks for a page that holds hits. */
  lemma NextPageHasHits(currentPage: int, totalHits: nat)
    requires currentPage >= 1 && !NextDisabled(currentPage, totalHits)
    ensures currentPage * EventsPerPage < totalHits
  {
  }

  // ----- price inputs --------------------------------------------------------

  /** The minimum input: `v = parseInt(text) || 0` gives `[v, max(v + 1, hi)]`. */
  function MinEdit(lo: int, hi: int, text: string): (r: (int, int))
    ensures r.0 == ParseInt(text).GetOr(0)
    ensures r.1 > r.0
    ensures r.0 < hi ==> r.1 == hi
  {
    var v := ParseInt(text).GetOr(0);
    (v, if v + 1 > hi then v + 1 else hi)
  }

  /** The maximum input: `v = parseInt(text) || 0` gives `[lo, max(lo + 1, v)]`. */
  function MaxEdit(lo: int, hi: int, text: string): (r: (int, int))
    ensures r.0 == lo
    ensures r.1 > r.0
    ensures ParseInt(text).GetOr(0) > lo ==> r.1 == ParseInt(text).GetOr(0)
  {
    var v := ParseInt(text).GetOr(0);
    (lo, if lo + 1 > v then lo + 1 else v)
  }

  /** Text that is not a number counts as 0. */
  lemma UnparsableIsZero(lo: int, hi: int, text: string)
    requires ParseInt(text).None?
    ensures MinEdit(lo, hi, text).0 == 0
    ensures MaxEdit(lo, hi, text) == (lo, if lo + 1 > 0 then lo + 1 else 0)
  {
  }

  // ----- cards ---------------------------------------------------------------

  /** `type.split('_').map(Capitalize).join(' ')`: the label has the
   *  type's length, and for a type without spaces its space-separated
   *  words are the capitalized `_`-separated parts of the type. */
  function TypeLabel(t: string): (r: string)
    ensures |r| == |t|
    ensures ' ' !in t ==> Split(r, ' ') == CapitalizeAll(Split(t, '_'))
  {
    TitleWordsLength(t, '_');
    assert ' ' !in t ==> Split(TitleWords(t, '_'), ' ') == CapitalizeAll(Split(t, '_')) by {
      if ' ' !in t { TitleWordsSplit(t, '_'); }
    }
    TitleWords(t, '_')
  }

  /** `slots.reduce((total, slot) => total + slot.availableSeats, 0)`. */
  function SeatSum(seats: seq<int>): int
  {
    if |seats| == 0 then 0 else SeatSum(seats[..|seats| - 1]) + seats[|seats| - 1]
  }

  lemma {:induction false} SeatSumAppend(a: seq<int>, b: seq<int>)
    ensures SeatSum(a + b) == SeatSum(a) + SeatSum(b)
    decreases |b|
  {
    if |b| > 0 {
      SeatSumAppend(a, b[..|b| - 1]);
      assert (a + b)[..|a + b| - 1] == a + b[..|b| - 1];
    } else {
      assert a + b == a;
    }
  }

  /** The "Almost Full!" badge. */
  predicate AlmostFull(seats: seq<int>)
  {
    SeatSum(seats) <= 5
  }

  /** With no negative counts, one slot with more than five seats rules the
   *  badge out. */
  lemma {:induction false} BigSlotNotAlmostFull(seats: seq<int>, i: nat)
    requires i < |seats| && seats[i] > 5
    requires forall k :: 0 <= k < |seats| ==> seats[k] >= 0
    ensures !AlmostFull(seats)
  {
    SumAtLeast(seats, i);
  }

  lemma {:induction false} SumAtLeast(seats: seq<int>, i: nat)
    requires i < |seats|
    requires forall k :: 0 <= k < |seats| ==> seats[k] >= 0
    ensures SeatSum(seats) >= seats[i]
  {
    var n := |seats|;
    NonNegativeSum(seats[..n - 1]);
    if i < n - 1 {
      SumAtLeast(seats[..n - 1], i);
    }
  }

  lemma {:induction false} NonNegativeSum(seats: seq<int>)
    requires forall k :: 0 <= k < |seats| ==> seats[k] >= 0
    ensures SeatSum(seats) >= 0
  {
    if |seats| > 0 {
      NonNegativeSum(seats[..|seats| - 1]);
    }
  }

  // ----- the page ------------------------------------------------------------

  /** A hit as the grid reads it. */
  datatype EventHit = EventHit(id: string, eventTypes: seq<string>, availableSeats: seq<int>)

  /** The search call's params. */
  datatype Request = Request(query: string, filters: string, page: int, hitsPerPage: nat)

  /** What `searchClient.search` resolved to: a throw, a response without
   *  `results[0]`, or the first result. */
  datatype SearchResponse = SearchThrew | NoResult | Result(hits: seq<EventHit>, nbHits: Option<nat>)

  class SearchPage {
    var searchQuery: string
    var selectedEventTypes: seq<Entry>
    var selectedLocation: string
    var priceLo: int
    var priceHi: int
    var selectedDate: string
    var currentPage: int
    var events: seq<EventHit>
    var totalHits: nat
    var loading: bool

    /** Type keys are unique, the price range is ordered, and pages are
     *  counted from 1. */
    predicate Valid()
      reads this
    {
      UniqueKeys(selectedEventTypes) && priceLo < priceHi && currentPage >= 1
    }

    function CurrentFilters(): Filters
      reads this
    {
      Filters(selectedEventTypes, selectedLocation, priceLo, priceHi, selectedDate)
    }

    /** The request `searchEvents` makes from the current state. */
    function CurrentRequest(dateTimestamp: int): (r: Request)
      reads this
      ensures r.page == currentPage - 1 && r.hitsPerPage == EventsPerPage
    {
      Request(searchQuery, FilterString(CurrentFilters(), dateTimestamp), currentPage - 1, EventsPerPage)
    }

    constructor()
      ensures Valid()
      ensures searchQuery == "" && selectedEventTypes == [] && selectedLocation == ""
      ensures priceLo == 0 && priceHi == 200 && selectedDate == "" && currentPage == 1
      ensures events == [] && totalHits == 0 && loading
    {
      searchQuery := "";
      selectedEventTypes := [];
      selectedLocation := "";
      priceLo := 0;
      priceHi := 200;
      selectedDate := "";
      currentPage := 1;
      events := [];
      totalHits := 0;
      loading := true;
    }

    /** `handleEventTypeChange(type, checked)`. */
    method EventTypeChange(t: string, checked: bool)
      modifies this
      requires Valid()
      ensures Valid()
      ensures selectedEventTypes == SetChecked(old(selectedEventTypes), t, checked)
      ensures forall u :: u in SelectedTypes(selectedEventTypes) <==>
        if u == t then checked else u in SelectedTypes(old(selectedEventTypes))
      ensures searchQuery == old(searchQuery) && selectedLocation == old(selectedLocation)
      ensures priceLo == old(priceLo) && priceHi == old(priceHi) && selectedDate == old(selectedDate)
      ensures currentPage == old(currentPage) && events == old(events) && totalHits == old(totalHits) && loading == old(loading)
    {
      forall u {
        SetCheckedSelects(selectedEventTypes, t, checked, u);
      }
      SetCheckedSelects(selectedEventTypes, t, checked, t);
      selectedEventTypes := SetChecked(selectedEventTypes, t, checked);
    }

    /** The minimum price input. */
    method MinPriceInput(text: string)
      modifies this
      requires Valid()
      ensures Valid()
      ensures (priceLo, priceHi) == MinEdit(old(priceLo), old(priceHi), text)
      ensures searchQuery == old(searchQuery) && selectedEventTypes == old(selectedEventTypes)
      ensures selectedLocation == old(selectedLocation) && selectedDate == old(selectedDate)
      ensures currentPage == old(currentPage) && events == old(events) && totalHits == old(totalHits) && loading == old(loading)
    {
      var r := MinEdit(priceLo, priceHi, text);
      priceLo, priceHi := r.0, r.1;
    }

    /** The maximum price input. */
    method MaxPriceInput(text: string)
      modifies this
      requires Valid()
      ensures Valid()
      ensures (priceLo, priceHi) == MaxEdit(old(priceLo), old(priceHi), text)
      ensures searchQuery == old(searchQuery) && selectedEventTypes == old(selectedEventTypes)
      ensures selectedLocation == old(selectedLocation) && selectedDate == old(selectedDate)
      ensures currentPage == old(currentPage) && events == old(events) && totalHits == old(totalHits) && loading == old(loading)
    {
      var r := MaxEdit(priceLo, priceHi, text);
      priceLo, priceHi := r.0, r.1;
    }

    /** The range slider; it keeps its two thumbs at least one step apart. */
    method SliderChange(lo: int, hi: int)
      modifies this
      requires Valid() && lo < hi
      ensures Valid()
      ensures priceLo == lo && priceHi == hi
      ensures searchQuery == old(searchQuery) && selectedEventTypes == old(selectedEventTypes)
      ensures selectedLocation == old(selectedLocation) && selectedDate == old(selectedDate)
      ensures currentPage == old(currentPage) && events == old(events) && totalHits == old(totalHits) && loading == old(loading)
    {
      priceLo, priceHi := lo, hi;
    }

    /** The search box, the location select and the date input. */
    method SetFields(query: string, location: string, date: string)
      modifies this
      requires Valid()
      ensures Valid()
      ensures searchQuery == query && selectedLocation == location && selectedDate == date
      ensures selectedEventTypes == old(selectedEventTypes) && priceLo == old(priceLo) && priceHi == old(priceHi)
      ensures currentPage == old(currentPage) && events == old(events) && totalHits == old(totalHits) && loading == old(loading)
    {
      searchQuery, selectedLocation, selectedDate := query, location, date;
    }

    /** A search started from the current state (the form submit, and the
     *  clear-search effect once the query is ""). */
    method Search(dateTimestamp: int) returns (requests: seq<Request>)
      modifies this
      requires Valid()
      ensures Valid()
      ensures requests == [old(CurrentRequest(dateTimestamp))] && loading
      ensures searchQuery == old(searchQuery) && selectedEventTypes == old(selectedEventTypes)
      ensures selectedLocation == old(selectedLocation) && priceLo == old(priceLo) && priceHi == old(priceHi)
      ensures selectedDate == old(selectedDate) && currentPage == old(currentPage)
      ensures events == old(events) && totalHits == old(totalHits)
    {
      requests := [CurrentRequest(dateTimestamp)];
      loading := true;
    }

    /** `handleApplyFilters`: the page goes back to 1, but the search it
     *  starts still sees the old page; when the page changed, the page
     *  effect then searches page 1 again. */
    method ApplyFilters(dateTimestamp: int) returns (requests: seq<Request>)
      modifies this
      requires Valid()
      ensures Valid()
      ensures currentPage == 1 && loading
      ensures requests == [old(CurrentRequest(dateTimestamp))] +
        (if old(currentPage) != 1 then [CurrentRequest(dateTimestamp)] else [])
      ensures CurrentRequest(dateTimestamp).page == 0
      ensures searchQuery == old(searchQuery) && selectedEventTypes == old(selectedEventTypes)
      ensures selectedLocation == old(selectedLocation) && priceLo == old(priceLo) && priceHi == old(priceHi)
      ensures selectedDate == old(selectedDate) && events == old(events) && totalHits == old(totalHits)
    {
      var first := CurrentRequest(dateTimestamp);
      var changed := currentPage != 1;
      currentPage := 1;
      requests := [first] + (if changed then [CurrentRequest(dateTimestamp)] else []);
      loading := true;
    }

    /** `handleResetFilters` and the effects it triggers: every filter and
     *  the page return to their initial values, and the search runs on
     *  them (twice when the page changed). */
    method ResetFilters(dateTimestamp: int) returns (requests: seq<Request>)
      modifies this
      requires Valid()
      ensures Valid()
      ensures searchQuery == "" && selectedEventTypes == [] && selectedLocation == ""
      ensures priceLo == 0 && priceHi == 200 && selectedDate == "" && currentPage == 1
      ensures requests == (if old(currentPage) != 1 then [CurrentRequest(dateTimestamp)] else []) + [CurrentRequest(dateTimestamp)]
      ensures events == old(events) && totalHits == old(totalHits) && loading
    {
      var changed := currentPage != 1;
      ClearFilters();
      var request := CurrentRequest(dateTimestamp);
      requests := (if changed then [request] else []) + [request];
    }

    /** The setters of `handleResetFilters`, and the search flag its
     *  effect raises. */
    method ClearFilters()
      modifies this
      ensures Valid()
      ensures searchQuery == "" && selectedEventTypes == [] && selectedLocation == ""
      ensures priceLo == 0 && priceHi == 200 && selectedDate == "" && currentPage == 1
      ensures events == old(events) && totalHits == old(totalHits) && loading
    {
      searchQuery := "";
      selectedEventTypes := [];
      selectedLocation := "";
      priceLo, priceHi := 0, 200;
      selectedDate := "";
      currentPage := 1;
      loading := true;
    }

    /** The Previous and Next buttons: a disabled button does nothing;
     *  otherwise the page moves and the page effect searches it. */
    method Paginate(forward: bool, dateTimestamp: int) returns (requests: seq<Request>)
      modifies this
      requires Valid()
      ensures Valid()
      ensures var disabled := if forward then NextDisabled(old(currentPage), old(totalHits)) else PrevDisabled(old(currentPage));
        (disabled ==> requests == [] && unchanged(this)) &&
        (!disabled ==>
          currentPage == (if forward then old(currentPage) + 1 else old(currentPage) - 1) &&
          requests == [CurrentRequest(dateTimestamp)] && loading &&
          events == old(events) && totalHits == old(totalHits))
      ensures searchQuery == old(searchQuery) && selectedEventTypes == old(selectedEventTypes)
      ensures selectedLocation == old(selectedLocation) && priceLo == old(priceLo) && priceHi == old(priceHi)
      ensures selectedDate == old(selectedDate)
    {
      var disabled := if forward then NextDisabled(currentPage, totalHits) else PrevDisabled(currentPage);
      if disabled {
        return [];
      }
      currentPage := if forward then currentPage + 1 else currentPage - 1;
      requests := [CurrentRequest(dateTimestamp)];
      loading := true;
    }

    /** The end of `searchEvents`: the first result's hits and
     *  `nbHits || 0`; a throw or a missing result empties the grid. */
    method HandleResponse(response: SearchResponse)
      modifies this
      requires Valid()
      ensures Valid()
      ensures response.Result? ==> events == response.hits && totalHits == response.nbHits.GetOr(0)
      ensures !response.Result? ==> events == [] && totalHits == 0
      ensures !loading
      ensures searchQuery == old(searchQuery) && selectedEventTypes == old(selectedEventTypes)
      ensures selectedLocation == old(selectedLocation) && priceLo == old(priceLo) && priceHi == old(priceHi)
      ensures selectedDate == old(selectedDate) && currentPage == old(currentPage)
    {
      loading := false;
      match response
      case Result(hits, nbHits) =>
        events := hits;
        totalHits := nbHits.GetOr(0);
      case _ =>
        events := [];
        totalHits := 0;
    }
  }

  /** The filter string of the initial filters: the price clause alone. */
  lemma ResetFilterString(dateTimestamp: int)
    ensures FilterString(Filters([], "", 0, 200, ""), dateTimestamp) == PriceClause(0, 200)
  {
    assert Clauses(Filters([], "", 0, 200, ""), dateTimestamp) == [PriceClause(0, 200)];
  }
}
