/**
 * The serialized rich-text documents the editor stores in an event's
 * description and in a coach's bio: a root object whose `content` holds the
 * blocks (paragraphs, headings, ...), each block's `content` holding the
 * inline text runs, each run with an optional `text` and optional `marks`.
 *
 * `JSON.parse` is not modelled: a caller supplies what parsing the stored
 * string gave, `Malformed` when it throws.
 *
 * This module holds the walks over that tree that several components share:
 * the flattened plain text, the space-joined excerpt pieces, the HTML
 * renderer (with the class attributes as a parameter, since the event page
 * and the booking page differ only there) and the "first run" extractor.
 */
module RichText {
  import opened Wrappers
  import opened Strings

  datatype Mark = Mark(markType: string)

  /** One node of the tree. `level` stands for `attrs.level`; an absent
   *  `type` is written "" (it never equals any of the names compared with). */
  datatype Node = Node(
    nodeType: string,
    text: Option<string>,
    marks: Option<seq<Mark>>,
    level: Option<int>,
    content: Option<seq<Node>>)

  /** The outcome of `JSON.parse` on a stored string. */
  datatype Parsed = Malformed | Json(root: Node)

  /** What `JSON.parse('{"content":[]}')` gives. */
  const EmptyDoc: Node := Node("", None, None, None, Some([]))

  // ----- plain text ------------------------------------------------------

  /** `run.text || ''`. */
  function RunText(run: Node): string
  {
    if Truthy(run.text) then run.text.value else ""
  }

  /** The texts of a block's runs, joined with no separator; a block without
   *  `content` gives "". */
  function BlockText(b: Node): string
  {
    match b.content
    case None => ""
    case Some(runs) => RunsText(runs)
  }

  function RunsText(runs: seq<Node>): string
  {
    if |runs| == 0 then "" else RunText(runs[0]) + RunsText(runs[1..])
  }

  /** The plain text of a sequence of blocks: their texts joined with no
   *  separator. */
  function BlocksText(bs: seq<Node>): string
  {
    if |bs| == 0 then "" else BlockText(bs[0]) + BlocksText(bs[1..])
  }

  /** The validation flattener: "" for a root without `content`. */
  function PlainText(root: Node): string
  {
    match root.content
    case None => ""
    case Some(bs) => BlocksText(bs)
  }

  lemma {:induction false} RunsTextAppend(a: seq<Node>, b: seq<Node>)
    ensures RunsText(a + b) == RunsText(a) + RunsText(b)
  {
    if |a| == 0 {
      assert a + b == b;
    } else {
      assert (a + b)[1..] == a[1..] + b;
      RunsTextAppend(a[1..], b);
    }
  }

  lemma {:induction false} BlocksTextAppend(a: seq<Node>, b: seq<Node>)
    ensures BlocksText(a + b) == BlocksText(a) + BlocksText(b)
  {
    if |a| == 0 {
      assert a + b == b;
    } else {
      assert (a + b)[1..] == a[1..] + b;
      BlocksTextAppend(a[1..], b);
    }
  }

  // ----- excerpt pieces --------------------------------------------------

  /** One piece per run of every block that has `content`; a block without
   *  `content` contributes none. */
  function Pieces(bs: seq<Node>): (r: seq<string>)
  {
    if |bs| == 0 then []
    else
      (match bs[0].content case None => [] case Some(runs) => RunPieces(runs))
      + Pieces(bs[1..])
  }

  function RunPieces(runs: seq<Node>): (r: seq<string>)
    ensures |r| == |runs|
    ensures forall i :: 0 <= i < |runs| ==> r[i] == RunText(runs[i])
  {
    if |runs| == 0 then [] else [RunText(runs[0])] + RunPieces(runs[1..])
  }

  /** Number of runs over all blocks that have `content`. */
  function RunCount(bs: seq<Node>): nat
  {
    if |bs| == 0 then 0
    else (match bs[0].content case None => 0 case Some(runs) => |runs|) + RunCount(bs[1..])
  }

  /** Each run gives exactly one piece, even a run without text, and the
   *  pieces, concatenated, are the flattened plain text. */
  lemma {:induction false} PiecesText(bs: seq<Node>)
    ensures |Pieces(bs)| == RunCount(bs)
    ensures Concat(Pieces(bs)) == BlocksText(bs)
  {
    if |bs| > 0 {
      PiecesText(bs[1..]);
      var head := match bs[0].content case None => [] case Some(runs) => RunPieces(runs);
      ConcatAppend(head, Pieces(bs[1..]));
      if bs[0].content.Some? {
        RunPiecesText(bs[0].content.value);
      }
    }
  }

  lemma {:induction false} RunPiecesText(runs: seq<Node>)
    ensures Concat(RunPieces(runs)) == RunsText(runs)
  {
    if |runs| > 0 {
      RunPiecesText(runs[1..]);
      assert RunPieces(runs)[1..] == RunPieces(runs[1..]);
    }
  }

  /** A block without `content` adds nothing to the pieces. */
  lemma {:induction false} PiecesSkipEmpty(a: seq<Node>, b: Node, c: seq<Node>)
    requires b.content.None?
    ensures Pieces(a + [b] + c) == Pieces(a + c)
  {
    if |a| == 0 {
      assert a + [b] + c == [b] + c;
      assert ([b] + c)[1..] == c;
      assert a + c == c;
    } else {
      PiecesSkipEmpty(a[1..], b, c);
      assert (a + [b] + c)[1..] == a[1..] + [b] + c;
      assert (a + c)[1..] == a[1..] + c;
    }
  }

  // ----- HTML rendering --------------------------------------------------

  /** The class attributes the two renderers put on the tags they emit. */
  datatype Style = Style(paragraphAttrs: string, strongAttrs: string, headingAttrs: string)

  /** The event page's renderer. */
  const DetailStyle: Style := Style(
    ClassAttr(["text-muted-foreground", "leading-relaxed", "mb-4"]),
    ClassAttr(["text-foreground"]),
    ClassAttr(["text-foreground", "font-bold", "mb-3", "mt-6"]))

  /** ` class="c1 c2 ..."`. */
  function ClassAttr(classes: seq<string>): string
  {
    " class=\"" + Join(classes, " ") + "\""
  }

  /** The booking page's renderer: the same tags without attributes. */
  const PlainStyle: Style := Style("", "", "")

  function Tag(inner: string): string
  {
    "<" + inner + ">"
  }

  /** A value of type `string | undefined` placed in a template literal. */
  function Interpolate(o: Option<string>): string
  {
    match o
    case None => "undefined"
    case Some(s) => s
  }

  /** `marks?.some(m => m.type === 'bold')`. */
  predicate IsBold(run: Node)
  {
    run.marks.Some? && exists i :: 0 <= i < |run.marks.value| && run.marks.value[i].markType == "bold"
  }

  /** A bold run goes inside `<strong>` (a missing text reads "undefined");
   *  any other run is its bare text, which `join('')` turns into "" when
   *  missing. */
  function RenderRun(st: Style, run: Node): string
  {
    if IsBold(run) then Tag("strong" + st.strongAttrs) + Interpolate(run.text) + Tag("/strong")
    else run.text.GetOr("")
  }

  function RenderRuns(st: Style, runs: seq<Node>): string
  {
    if |runs| == 0 then "" else RenderRun(st, runs[0]) + RenderRuns(st, runs[1..])
  }

  /** `content?.[0].text` on a heading throws when `content` is an empty
   *  array. */
  predicate HeadingThrows(b: Node)
  {
    b.nodeType == "heading" && b.content == Some([])
  }

  /** The number in `<hN>`: `attrs?.level` in a template literal. */
  function LevelText(b: Node): string
  {
    match b.level
    case None => "undefined"
    case Some(n) => IntToString(n)
  }

  /** The HTML of one block; None when rendering it throws. */
  function RenderBlock(st: Style, b: Node): (r: Option<string>)
    ensures r.None? <==> HeadingThrows(b)
  {
    if b.nodeType == "paragraph" then
      var inner := match b.content case None => "undefined" case Some(runs) => RenderRuns(st, runs);
      Some(Tag("p" + st.paragraphAttrs) + inner + Tag("/p"))
    else if b.nodeType == "heading" then
      match b.content
      case None =>
        Some(Tag("h" + LevelText(b) + st.headingAttrs) + "undefined" + Tag("/h" + LevelText(b)))
      case Some(runs) =>
        if |runs| == 0 then None
        else Some(Tag("h" + LevelText(b) + st.headingAttrs) + Interpolate(runs[0].text) + Tag("/h" + LevelText(b)))
    else Some("")
  }

  /** The blocks' HTML joined with no separator; None when any block throws. */
  function RenderBlocks(st: Style, bs: seq<Node>): (r: Option<string>)
    ensures r.None? <==> exists i :: 0 <= i < |bs| && HeadingThrows(bs[i])
  {
    if |bs| == 0 then Some("")
    else
      var head := RenderBlock(st, bs[0]);
      var tail := RenderBlocks(st, bs[1..]);
      assert forall i :: 1 <= i < |bs| ==> bs[i] == bs[1..][i - 1];
      if head.None? || tail.None? then None else Some(head.value + tail.value)
  }

  /** `JSON.parse(s).content.map(...).join('')`; None when parsing fails,
   *  when the root has no `content`, or when a heading has empty content. */
  function Render(st: Style, p: Parsed): (r: Option<string>)
    ensures r.None? <==>
      p.Malformed? || p.root.content.None? ||
      exists i :: 0 <= i < |p.root.content.value| && HeadingThrows(p.root.content.value[i])
  {
    match p
    case Malformed => None
    case Json(root) =>
      match root.content
      case None => None
      case Some(bs) => RenderBlocks(st, bs)
  }

  /** A block type other than paragraph and heading renders as nothing. */
  lemma OtherBlockEmpty(st: Style, b: Node)
    requires b.nodeType != "paragraph" && b.nodeType != "heading"
    ensures RenderBlock(st, b) == Some("")
  {
  }

  /** A document with no blocks renders as the empty string. */
  lemma EmptyDocRenders(st: Style)
    ensures Render(st, Json(EmptyDoc)) == Some("")
  {
  }

  // ----- what a reader sees ----------------------------------------------

  predicate NoBrackets(s: string)
  {
    '<' !in s && '>' !in s
  }

  /** The visible text of an HTML string: every character outside `<...>`.
   *  `inTag` says whether the scan starts inside a tag. */
  function StripTags(s: string, inTag: bool): string
  {
    if |s| == 0 then ""
    else if inTag then StripTags(s[1..], s[0] != '>')
    else if s[0] == '<' then StripTags(s[1..], true)
    else [s[0]] + StripTags(s[1..], false)
  }

  /** Whether the scan of `StripTags` ends inside a tag. */
  function EndsInTag(s: string, inTag: bool): bool
  {
    if |s| == 0 then inTag
    else if inTag then EndsInTag(s[1..], s[0] != '>')
    else EndsInTag(s[1..], s[0] == '<')
  }

  lemma {:induction false} StripAppend(a: string, b: string, inTag: bool)
    ensures StripTags(a + b, inTag) == StripTags(a, inTag) + StripTags(b, EndsInTag(a, inTag))
    ensures EndsInTag(a + b, inTag) == EndsInTag(b, EndsInTag(a, inTag))
  {
    if |a| == 0 {
      assert a + b == b;
    } else {
      assert (a + b)[0] == a[0];
      assert (a + b)[1..] == a[1..] + b;
      var next := if inTag then a[0] != '>' else a[0] == '<';
      StripAppend(a[1..], b, next);
    }
  }

  /** Text without angle brackets is shown as it is. */
  lemma {:induction false} StripPlain(s: string)
    requires NoBrackets(s)
    ensures StripTags(s, false) == s
    ensures !EndsInTag(s, false)
  {
    if |s| > 0 {
      StripPlain(s[1..]);
    }
  }

  lemma {:induction false} StripInside(s: string)
    requires NoBrackets(s)
    ensures StripTags(s, true) == ""
    ensures EndsInTag(s, true)
  {
    if |s| > 0 {
      StripInside(s[1..]);
    }
  }

  /** A tag is invisible and leaves the scan outside tags. */
  lemma StripTag(inner: string)
    requires NoBrackets(inner)
    ensures StripTags(Tag(inner), false) == ""
    ensures !EndsInTag(Tag(inner), false)
  {
    assert Tag(inner) == "<" + (inner + ">");
    StripAppend("<", inner + ">", false);
    StripAppend(inner, ">", true);
    StripInside(inner);
  }

  lemma {:induction false} StripConcat3(a: string, b: string, c: string)
    requires !EndsInTag(a, false) && !EndsInTag(b, false)
    ensures StripTags(a + b + c, false) == StripTags(a, false) + StripTags(b, false) + StripTags(c, false)
    ensures EndsInTag(a + b + c, false) == EndsInTag(c, false)
  {
    StripAppend(a + b, c, false);
    StripAppend(a, b, false);
  }

  lemma NoBracketsLevel(b: Node)
    ensures NoBrackets(LevelText(b))
  {
    if b.level.Some? {
      var n := b.level.value;
      var d := NatToString(if n < 0 then -n else n);
      assert forall i :: 0 <= i < |d| ==> d[i] != '<' && d[i] != '>';
      assert NoBrackets(d);
      assert NoBrackets("-");
    }
  }

  predicate StyleFree(st: Style)
  {
    NoBrackets(st.paragraphAttrs) && NoBrackets(st.strongAttrs) && NoBrackets(st.headingAttrs)
  }

  lemma {:induction false} JoinFree(words: seq<string>)
    requires forall i :: 0 <= i < |words| ==> NoBrackets(words[i])
    ensures NoBrackets(Join(words, " "))
  {
    if |words| > 1 {
      JoinFree(words[1..]);
    }
  }

  lemma ClassAttrFree(classes: seq<string>)
    requires forall i :: 0 <= i < |classes| ==> NoBrackets(classes[i])
    ensures NoBrackets(ClassAttr(classes))
  {
    JoinFree(classes);
  }

  lemma ParagraphAttrFree()
    ensures NoBrackets(DetailStyle.paragraphAttrs)
  {
    assert NoBrackets("text-muted-foreground");
    assert NoBrackets("leading-relaxed") && NoBrackets("mb-4");
    ClassAttrFree(["text-muted-foreground", "leading-relaxed", "mb-4"]);
  }

  lemma StrongAttrFree()
    ensures NoBrackets(DetailStyle.strongAttrs)
  {
    assert NoBrackets("text-foreground");
    ClassAttrFree(["text-foreground"]);
  }

  lemma HeadingAttrFree()
    ensures NoBrackets(DetailStyle.headingAttrs)
  {
    assert NoBrackets("text-foreground");
    assert NoBrackets("font-bold") && NoBrackets("mb-3") && NoBrackets("mt-6");
    ClassAttrFree(["text-foreground", "font-bold", "mb-3", "mt-6"]);
  }

  /** Neither renderer's attributes contain an angle bracket. */
  lemma StylesFree()
    ensures StyleFree(DetailStyle) && StyleFree(PlainStyle)
  {
    ParagraphAttrFree();
    StrongAttrFree();
    HeadingAttrFree();
  }

  /** Text the renderers are expected to show: every run has a text free of
   *  angle brackets, and every paragraph and heading has `content`, a heading
   *  at least one run. */
  predicate WellFormedBlock(b: Node)
  {
    b.content.Some? &&
    (b.nodeType == "heading" ==> |b.content.value| > 0) &&
    forall i :: 0 <= i < |b.content.value| ==>
      b.content.value[i].text.Some? && NoBrackets(b.content.value[i].text.value)
  }

  /** What a reader sees of a block: a paragraph's run texts, a heading's
   *  first run text, nothing of any other block. */
  function VisibleText(b: Node): string
    requires WellFormedBlock(b)
  {
    if b.nodeType == "paragraph" then RunsText(b.content.value)
    else if b.nodeType == "heading" then b.content.value[0].text.value
    else ""
  }

  lemma StripRun(st: Style, run: Node)
    requires NoBrackets(st.strongAttrs)
    requires run.text.Some? && NoBrackets(run.text.value)
    ensures StripTags(RenderRun(st, run), false) == RunText(run)
    ensures !EndsInTag(RenderRun(st, run), false)
  {
    var t := run.text.value;
    StripPlain(t);
    if IsBold(run) {
      StripTag("strong" + st.strongAttrs);
      StripTag("/strong");
      StripConcat3(Tag("strong" + st.strongAttrs), t, Tag("/strong"));
    }
  }

  lemma {:induction false} StripRuns(st: Style, runs: seq<Node>)
    requires NoBrackets(st.strongAttrs)
    requires forall i :: 0 <= i < |runs| ==> runs[i].text.Some? && NoBrackets(runs[i].text.value)
    ensures StripTags(RenderRuns(st, runs), false) == RunsText(runs)
    ensures !EndsInTag(RenderRuns(st, runs), false)
  {
    if |runs| > 0 {
      StripRun(st, runs[0]);
      StripRuns(st, runs[1..]);
      StripAppend(RenderRun(st, runs[0]), RenderRuns(st, runs[1..]), false);
    }
  }

  /** Stripping the tags from a block's HTML leaves its visible text. */
  lemma StripBlock(st: Style, b: Node)
    requires StyleFree(st) && WellFormedBlock(b)
    ensures RenderBlock(st, b).Some?
    ensures StripTags(RenderBlock(st, b).value, false) == VisibleText(b)
    ensures !EndsInTag(RenderBlock(st, b).value, false)
  {
    var runs := b.content.value;
    if b.nodeType == "paragraph" {
      StripRuns(st, runs);
      StripTag("p" + st.paragraphAttrs);
      StripTag("/p");
      StripConcat3(Tag("p" + st.paragraphAttrs), RenderRuns(st, runs), Tag("/p"));
    } else if b.nodeType == "heading" {
      NoBracketsLevel(b);
      StripTag("h" + LevelText(b) + st.headingAttrs);
      StripTag("/h" + LevelText(b));
      StripPlain(runs[0].text.value);
      StripConcat3(Tag("h" + LevelText(b) + st.headingAttrs), runs[0].text.value, Tag("/h" + LevelText(b)));
    }
  }

  function VisibleBlocks(bs: seq<Node>): string
    requires forall i :: 0 <= i < |bs| ==> WellFormedBlock(bs[i])
  {
    if |bs| == 0 then "" else VisibleText(bs[0]) + VisibleBlocks(bs[1..])
  }

  /** The reader sees, block after block, the visible text of each: the
   *  renderer drops no text and shows nothing but text and tags. */
  lemma {:induction false} StripRender(st: Style, bs: seq<Node>)
    requires StyleFree(st)
    requires forall i :: 0 <= i < |bs| ==> WellFormedBlock(bs[i])
    ensures RenderBlocks(st, bs).Some?
    ensures StripTags(RenderBlocks(st, bs).value, false) == VisibleBlocks(bs)
    ensures !EndsInTag(RenderBlocks(st, bs).value, false)
  {
    if |bs| > 0 {
      StripBlock(st, bs[0]);
      StripRender(st, bs[1..]);
      StripAppend(RenderBlock(st, bs[0]).value, RenderBlocks(st, bs[1..]).value, false);
    }
  }

  /** For a document of paragraphs only, what the event page shows is
   *  exactly the text the form's description check counts. */
  lemma {:induction false} ParagraphsShowPlainText(st: Style, bs: seq<Node>)
    requires StyleFree(st)
    requires forall i :: 0 <= i < |bs| ==> WellFormedBlock(bs[i]) && bs[i].nodeType == "paragraph"
    ensures RenderBlocks(st, bs).Some?
    ensures StripTags(RenderBlocks(st, bs).value, false) == BlocksText(bs)
  {
    StripRender(st, bs);
    VisibleParagraphs(bs);
  }

  lemma {:induction false} VisibleParagraphs(bs: seq<Node>)
    requires forall i :: 0 <= i < |bs| ==> WellFormedBlock(bs[i]) && bs[i].nodeType == "paragraph"
    ensures VisibleBlocks(bs) == BlocksText(bs)
  {
    if |bs| > 0 {
      VisibleParagraphs(bs[1..]);
    }
  }

  // ----- first run -------------------------------------------------------

  /** `content?.[0]?.content?.[0]?.text || ''`. */
  function FirstRunText(root: Node): string
  {
    if root.content.Some? && |root.content.value| > 0
      && root.content.value[0].content.Some? && |root.content.value[0].content.value| > 0
    then RunText(root.content.value[0].content.value[0])
    else ""
  }

  /** Only the first run of the first block is ever looked at: any later
   *  blocks and runs can be added without changing the result. */
  lemma FirstRunOnly(root: Node, b: Node, run: Node, moreRuns: seq<Node>, moreBlocks: seq<Node>)
    requires root.content == Some([b.(content := Some([run] + moreRuns))] + moreBlocks)
    ensures FirstRunText(root) == RunText(run)
  {
  }
}
