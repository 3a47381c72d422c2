/**
 * The search-index helpers: the card excerpt of a stored description and
 * the list of distinct event locations.
 *
 * The search client is not modelled. A caller supplies the facet query's
 * response and the responses the browse loop would receive to its page
 * requests 0, 1, 2, ... in order.
 */
module Algolia {
  import opened Wrappers
  import opened Strings
  import opened RichText

  // ----- card excerpt ----------------------------------------------------

  /** A parsed value that the excerpt treats as an editor document:
   *  `type === 'doc'` and a `content` array. */
  predicate IsDoc(p: Parsed)
  {
    p.Json? && p.root.nodeType == "doc" && p.root.content.Some?
  }

  /** The runs' texts of a document, joined with single spaces. */
  function DocText(root: Node): string
  {
    match root.content
    case None => ""
    case Some(bs) => Join(Pieces(bs), " ")
  }

  /** `parseDescription(description)`, `p` being what `JSON.parse` gave on
   *  `description`. A document becomes the first 100 characters of its
   *  space-joined run texts followed by "..."; a string that fails to parse
   *  becomes its own first 100 characters followed by "..."; any other JSON
   *  value leaves the description as it is. */
  function ParseDescription(description: string, p: Parsed): (r: string)
    ensures IsDoc(p) || p.Malformed? ==> 3 <= |r| <= 103 && r[|r| - 3..] == "..."
    ensures IsDoc(p) ==> |r| == (if |DocText(p.root)| < 100 then |DocText(p.root)| else 100) + 3
    ensures p.Malformed? ==> |r| == (if |description| < 100 then |description| else 100) + 3
    ensures IsDoc(p) ==> StartsWith(DocText(p.root), r[..|r| - 3])
    ensures p.Malformed? ==> StartsWith(description, r[..|r| - 3])
    ensures p.Json? && !IsDoc(p) ==> r == description
  {
    match p
    case Malformed => Prefix(description, 100) + "..."
    case Json(root) =>
      if IsDoc(p) then Prefix(DocText(root), 100) + "..." else description
  }

  /** An excerpt is cut only when the text is longer than 100 characters:
   *  a short document keeps its whole text. */
  lemma ShortDocKept(description: string, p: Parsed)
    requires IsDoc(p) && |DocText(p.root)| <= 100
    ensures ParseDescription(description, p) == DocText(p.root) + "..."
  {
  }

  /** A longer text is cut after its first 100 characters. */
  lemma LongTextCut(description: string, p: Parsed)
    ensures IsDoc(p) && |DocText(p.root)| > 100 ==>
      ParseDescription(description, p) == DocText(p.root)[..100] + "..."
    ensures p.Malformed? && |description| > 100 ==>
      ParseDescription(description, p) == description[..100] + "..."
  {
  }

  /** A run without text still stands between two spaces: the runs "a",
   *  (none), "b" of one paragraph join to "a  b". */
  lemma EmptyRunKeepsSpaces(a: Node, gap: Node, b: Node)
    requires a.text == Some("a") && b.text == Some("b") && gap.text.None?
    ensures Join(Pieces([Node("paragraph", None, None, None, Some([a, gap, b]))]), " ") == "a  b"
  {
    var blk := Node("paragraph", None, None, None, Some([a, gap, b]));
    assert RunPieces([a, gap, b]) == ["a", "", "b"];
    assert [blk][1..] == [];
    var ps: seq<string> := ["a", "", "b"];
    assert Pieces([blk]) == ps + Pieces([]);
    assert Pieces([blk]) == ps;
    assert ps[1..] == ["", "b"] && ps[1..][1..] == ["b"];
    assert Join(["", "b"], " ") == "" + " " + "b";
    assert Join(ps, " ") == "a" + " " + Join(["", "b"], " ");
  }

  // ----- string order ----------------------------------------------------

  /** The order of `Array.prototype.sort` without a comparator:
   *  lexicographic on characters. */
  predicate Less(a: string, b: string)
  {
    if |a| == 0 then |b| > 0
    else if |b| == 0 then false
    else if a[0] != b[0] then a[0] < b[0]
    else Less(a[1..], b[1..])
  }

  lemma {:induction false} LessIrreflexive(a: string)
    ensures !Less(a, a)
  {
    if |a| > 0 {
      LessIrreflexive(a[1..]);
    }
  }

  lemma {:induction false} LessTransitive(a: string, b: string, c: string)
    requires Less(a, b) && Less(b, c)
    ensures Less(a, c)
  {
    if |a| > 0 && |b| > 0 && |c| > 0 && a[0] == b[0] && b[0] == c[0] {
      LessTransitive(a[1..], b[1..], c[1..]);
    }
  }

  lemma {:induction false} LessTotal(a: string, b: string)
    requires a != b
    ensures Less(a, b) || Less(b, a)
  {
    if |a| > 0 && |b| > 0 && a[0] == b[0] {
      assert a == [a[0]] + a[1..] && b == [b[0]] + b[1..];
      LessTotal(a[1..], b[1..]);
    }
  }

  /** Sorted in that order and free of duplicates. */
  predicate StrictlySorted(s: seq<string>)
  {
    forall i, j :: 0 <= i < j < |s| ==> Less(s[i], s[j])
  }

  /** The strings a listing holds. */
  function Elems(s: seq<string>): set<string>
  {
    set x | x in s
  }

  lemma ElemsCons(s: seq<string>)
    requires |s| > 0
    ensures Elems(s) == {s[0]} + Elems(s[1..])
  {
    assert s == [s[0]] + s[1..];
  }

  /** A string below the head of a sorted listing goes in front of it. */
  lemma InsertFront(s: seq<string>, x: string)
    requires StrictlySorted(s) && |s| > 0 && Less(x, s[0])
    ensures StrictlySorted([x] + s)
    ensures Elems([x] + s) == Elems(s) + {x}
  {
    forall j | 0 <= j < |s| ensures Less(x, s[j]) {
      if j > 0 { LessTransitive(x, s[0], s[j]); }
    }
    ElemsCons([x] + s);
    assert ([x] + s)[1..] == s;
  }

  /** The head of a sorted listing stays in front of the rest once a
   *  larger string is added to the rest. */
  lemma InsertBehind(s: seq<string>, x: string, t: seq<string>)
    requires StrictlySorted(s) && |s| > 0 && Less(s[0], x)
    requires StrictlySorted(t) && Elems(t) == Elems(s[1..]) + {x}
    ensures StrictlySorted([s[0]] + t)
    ensures Elems([s[0]] + t) == Elems(s) + {x}
  {
    forall j | 0 <= j < |t| ensures Less(s[0], t[j]) {
      assert t[j] in Elems(t);
      if t[j] != x {
        assert t[j] in Elems(s[1..]);
        var k :| 0 <= k < |s[1..]| && s[1..][k] == t[j];
        assert s[k + 1] == t[j];
      }
    }
    var r := [s[0]] + t;
    assert forall i :: 1 <= i < |r| ==> r[i] == t[i - 1];
    ElemsCons(s);
    ElemsCons(r);
    assert r[1..] == t;
  }

  /** `set.add(x)` on a set kept as its sorted listing. */
  function InsertSorted(s: seq<string>, x: string): (r: seq<string>)
    requires StrictlySorted(s)
    ensures StrictlySorted(r)
    ensures Elems(r) == Elems(s) + {x}
  {
    if |s| == 0 then [x]
    else if s[0] == x then
      ElemsCons(s);
      s
    else if Less(x, s[0]) then
      InsertFront(s, x);
      [x] + s
    else
      LessTotal(x, s[0]);
      var t := InsertSorted(s[1..], x);
      InsertBehind(s, x, t);
      [s[0]] + t
  }

  // ----- distinct locations ----------------------------------------------

  /** The facet query's outcome: a thrown error, a response without
   *  `results[0]`, or a result with its `facets.location` keys (None when
   *  `facets` or `facets.location` is missing). */
  datatype FacetResponse = FacetThrew | NoFacetResult | FacetResult(locationKeys: Option<seq<string>>)

  /** One hit's `location`: None when it is missing or not a string. */
  type Hit = Option<string>

  /** One browse page's outcome: a thrown error, a response without
   *  `results[0]`, or a result with its hits and `nbHits`. */
  datatype PageResponse = PageThrew | NoPageResult | PageResult(hits: seq<Hit>, nbHits: Option<nat>)

  const HitsPerPage: nat := 1000

  /** `Math.ceil((nbHits || 0) / hitsPerPage)`. */
  function PageCount(nbHits: Option<nat>): (r: nat)
    ensures r * HitsPerPage >= nbHits.GetOr(0)
    ensures r > 0 ==> (r - 1) * HitsPerPage < nbHits.GetOr(0)
  {
    (nbHits.GetOr(0) + HitsPerPage - 1) / HitsPerPage
  }

  /** The locations a page adds: the truthy strings among its hits. */
  function HitLocations(hits: seq<Hit>): (r: set<string>)
    ensures forall x :: x in r <==> exists i :: 0 <= i < |hits| && hits[i] == Some(x) && x != ""
  {
    if |hits| == 0 then {}
    else
      var rest := HitLocations(hits[1..]);
      assert forall x, i :: 1 <= i < |hits| && hits[i] == Some(x) ==> hits[1..][i - 1] == Some(x);
      (if Truthy(hits[0]) then {hits[0].value} else {}) + rest
  }

  /** How the browse loop ends: with the locations it collected, with a
   *  thrown error, or by asking for a page beyond the supplied responses. */
  datatype BrowseOutcome = Collected(locations: set<string>) | BrowseThrew | OutOfResponses

  /** The browse loop from request `page` on: it stops at a thrown error, a
   *  response without a result, a page without hits, or the last page that
   *  `nbHits` announces. */
  function Browse(pages: seq<PageResponse>, page: nat): (r: BrowseOutcome)
    decreases |pages| - page
  {
    if page >= |pages| then OutOfResponses
    else match pages[page]
      case PageThrew => BrowseThrew
      case NoPageResult => Collected({})
      case PageResult(hits, nbHits) =>
        if |hits| == 0 then Collected({})
        else if page < PageCount(nbHits) - 1 then Prepend(HitLocations(hits), Browse(pages, page + 1))
        else Collected(HitLocations(hits))
  }

  /** Locations collected before the rest of the loop ran. */
  function Prepend(earlier: set<string>, rest: BrowseOutcome): BrowseOutcome
  {
    match rest
    case Collected(more) => Collected(earlier + more)
    case other => other
  }

  /** The pages the loop reads when every response reports the same
   *  `nbHits` and carries hits: it reads exactly `max(1, ceil(nbHits/1000))`
   *  of them, from `page` on. */
  function LocationsOfPages(pages: seq<PageResponse>, from: nat, to: nat): set<string>
    requires from <= to <= |pages|
    requires (forall i :: from <= i < to ==> pages[i].PageResult?)
    decreases |pages| - from
  {
    if from == to then {} else HitLocations(pages[from].hits) + LocationsOfPages(pages, from + 1, to)
  }

  /** The number of pages read when every response reports `total` hits. */
  function PagesRead(total: nat): (r: nat)
    ensures r >= 1
  {
    if PageCount(Some(total)) == 0 then 1 else PageCount(Some(total))
  }

  lemma {:induction false} BrowseConsistentTotal(pages: seq<PageResponse>, page: nat, total: nat)
    requires page < PagesRead(total) <= |pages|
    requires forall i :: page <= i < PagesRead(total) ==>
      pages[i].PageResult? && |pages[i].hits| > 0 && pages[i].nbHits == Some(total)
    ensures Browse(pages, page) == Collected(LocationsOfPages(pages, page, PagesRead(total)))
    decreases |pages| - page
  {
    if page + 1 < PagesRead(total) {
      BrowseConsistentTotal(pages, page + 1, total);
    }
  }

  /** Every location the loop collects is a non-empty string of some hit it
   *  received. */
  lemma {:induction false} BrowseOnlyHits(pages: seq<PageResponse>, page: nat, x: string)
    requires Browse(pages, page).Collected? && x in Browse(pages, page).locations
    ensures x != ""
    ensures exists i, j ::
      page <= i < |pages| && pages[i].PageResult? && 0 <= j < |pages[i].hits| && pages[i].hits[j] == Some(x)
    decreases |pages| - page
  {
    var resp := pages[page];
    if x in HitLocations(resp.hits) {
      var j :| 0 <= j < |resp.hits| && resp.hits[j] == Some(x) && x != "";
    } else {
      BrowseOnlyHits(pages, page + 1, x);
    }
  }

  /** `Array.from(locations).sort()` for the set `locations`. */
  predicate IsListing(r: seq<string>, locations: set<string>)
  {
    StrictlySorted(r) && Elems(r) == locations
  }

  function InsertAll(acc: seq<string>, xs: seq<string>): (r: seq<string>)
    requires StrictlySorted(acc)
    ensures IsListing(r, Elems(acc) + Elems(xs))
    decreases |xs|
  {
    if |xs| == 0 then acc
    else
      ElemsCons(xs);
      InsertAll(InsertSorted(acc, xs[0]), xs[1..])
  }

  /** `getUniqueLocations()`. With location facets the keys are returned,
   *  sorted, without browsing. Otherwise (no result, no facets, or a thrown
   *  facet query) the browse loop runs; what it collected is returned
   *  sorted, and a thrown error during browsing gives []. The result is None
   *  exactly when the loop would ask for more pages than `pages` holds. */
  method UniqueLocations(facets: FacetResponse, pages: seq<PageResponse>) returns (r: Option<seq<string>>)
    ensures facets.FacetResult? && facets.locationKeys.Some? ==>
      r.Some? && IsListing(r.value, Elems(facets.locationKeys.value))
    ensures !(facets.FacetResult? && facets.locationKeys.Some?) ==>
      match Browse(pages, 0)
      case Collected(locs) => r.Some? && IsListing(r.value, locs)
      case BrowseThrew => r == Some([])
      case OutOfResponses => r.None?
  {
    if facets.FacetResult? && facets.locationKeys.Some? {
      var keys := facets.locationKeys.value;
      var listing := InsertAll([], keys);
      return Some(listing);
    }
    var acc: seq<string> := [];
    var page: nat := 0;
    var hasMore := true;
    while hasMore
      invariant page <= |pages|
      invariant StrictlySorted(acc)
      invariant hasMore ==> Browse(pages, 0) == Prepend(Elems(acc), Browse(pages, page))
      invariant !hasMore ==> Browse(pages, 0) == Collected(Elems(acc))
      decreases |pages| - page, hasMore
    {
      if page >= |pages| {
        return None;
      }
      match pages[page]
      case PageThrew =>
        return Some([]);
      case NoPageResult =>
        hasMore := false;
      case PageResult(hits, nbHits) =>
        if |hits| > 0 {
          var locs := TruthyStrings(hits);
          acc := InsertAll(acc, locs);
          hasMore := page < PageCount(nbHits) - 1;
          page := page + 1;
        } else {
          hasMore := false;
        }
    }
    return Some(acc);
  }

  /** The truthy strings among the hits, in hit order. */
  function TruthyStrings(hits: seq<Hit>): (r: seq<string>)
    ensures Elems(r) == HitLocations(hits)
  {
    if |hits| == 0 then []
    else
      var head := if Truthy(hits[0]) then [hits[0].value] else [];
      var rest := TruthyStrings(hits[1..]);
      assert Elems(head + rest) == Elems(head) + Elems(rest);
      head + rest
  }
}
