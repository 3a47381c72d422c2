/**
 * The coach page's bio: the text of the first run of the first block of
 * the stored rich-text document.
 */
module CoachPageClient {
  import opened Wrappers
  import opened RichText

  /** `parsedBio`, where `parsed` is what `JSON.parse` gives on the bio:
   *  "" for an empty bio, the first run's text (or "") for a document,
   *  and the bio itself when it does not parse. */
  function ParsedBio(bio: Option<string>, parsed: Parsed): (r: string)
    ensures !Truthy(bio) ==> r == ""
    ensures Truthy(bio) && parsed.Malformed? ==> r == bio.value
    ensures Truthy(bio) && parsed.Json? ==> r == FirstRunText(parsed.root)
  {
    if !Truthy(bio) then ""
    else if parsed.Malformed? then bio.value
    else FirstRunText(parsed.root)
  }

  /** Whatever follows the first run of the first block, it never shows. */
  lemma LaterRunsHidden(bio: string, root: Node, b: Node, run: Node, moreRuns: seq<Node>, moreBlocks: seq<Node>)
    requires bio != ""
    requires root.content == Some([b.(content := Some([run] + moreRuns))] + moreBlocks)
    ensures ParsedBio(Some(bio), Json(root)) == RunText(run)
  {
    FirstRunOnly(root, b, run, moreRuns, moreBlocks);
  }

  /** A document without blocks, or whose first block has no runs, gives "". */
  lemma MissingStepEmpty(bio: string, root: Node)
    requires bio != ""
    requires root.content.None? || root.content == Some([]) ||
      (|root.content.value| > 0 && (root.content.value[0].content.None? || root.content.value[0].content == Some([])))
    ensures ParsedBio(Some(bio), Json(root)) == ""
  {
  }
}
