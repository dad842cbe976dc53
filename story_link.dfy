/**
 * The link normaliser `clean_story_link`: a story URL is cut back to the
 * first path segment made only of digits (the site's story id), dropping any
 * chapter or page segments after it. A URL with no such segment is kept as
 * it is (the script only logs a warning).
 */
module StoryLink {
  import opened Wrappers
  import opened Strings

  /** The position of the first all-digit segment, if there is one. */
  function FirstNumeric(segs: seq<string>): (r: Option<nat>)
    ensures r.Some? ==> r.value < |segs| && IsNumeric(segs[r.value])
    ensures r.Some? ==> forall j :: 0 <= j < r.value ==> !IsNumeric(segs[j])
    ensures r.None? <==> forall j :: 0 <= j < |segs| ==> !IsNumeric(segs[j])
  {
    if segs == [] then None
    else if IsNumeric(segs[0]) then Some(0)
    else match FirstNumeric(segs[1..])
      case None => None
      case Some(k) => Some(k + 1)
  }

  /** An all-digit segment with none before it is the first one. */
  lemma FirstNumericAt(segs: seq<string>, i: nat)
    requires i < |segs| && IsNumeric(segs[i])
    requires forall j :: 0 <= j < i ==> !IsNumeric(segs[j])
    ensures FirstNumeric(segs) == Some(i)
  {
  }

  /** What `clean_story_link(link)` returns. */
  function CleanLink(link: string): string
  {
    var segs := Split(link);
    var first := FirstNumeric(segs);
    if first.Some? then Join(segs[..first.value + 1]) else link
  }

  /** Once the first numeric segment is known, the result is the join up to it. */
  lemma CleanLinkCuts(link: string, segs: seq<string>, i: nat)
    requires Split(link) == segs && FirstNumeric(segs) == Some(i)
    ensures CleanLink(link) == Join(segs[..i + 1])
  {
  }

  /**
   * The loop of `clean_story_link`: scan the `/`-segments in order and return
   * the join of those up to the first numeric one, or the link itself.
   */
  method CleanStoryLink(link: string) returns (r: string)
    ensures r == CleanLink(link)
  {
    var strings := Split(link);
    for i := 0 to |strings|
      invariant forall j :: 0 <= j < i ==> !IsNumeric(strings[j])
    {
      if IsNumeric(strings[i]) {
        return Join(strings[..i + 1]);
      }
    }
    return link;
  }

  /** When some segment is numeric, the result consists of exactly the
      input's segments up to and including the first numeric one; otherwise
      the link comes back unchanged. */
  lemma CleanLinkSegments(link: string)
    ensures var segs := Split(link);
            var r := Split(CleanLink(link));
            (exists i :: 0 <= i < |segs| && IsNumeric(segs[i])) ==>
              && |r| <= |segs| && r == segs[..|r|]
              && IsNumeric(r[|r| - 1])
              && (forall j :: 0 <= j < |r| - 1 ==> !IsNumeric(r[j]))
    ensures (forall i :: 0 <= i < |Split(link)| ==> !IsNumeric(Split(link)[i])) ==> CleanLink(link) == link
  {
    var segs := Split(link);
    match FirstNumeric(segs)
    case Some(i) =>
      var kept := segs[..i + 1];
      CleanLinkCuts(link, segs, i);
      SplitSegmentsNoSlash(link);
      SplitJoin(kept);
      assert Split(CleanLink(link)) == kept && |kept| == i + 1;
    case None =>
      assert CleanLink(link) == link;
  }

  /** The normalised link is a prefix of the raw one. */
  lemma CleanLinkIsPrefix(link: string)
    ensures CleanLink(link) <= link
  {
    var segs := Split(link);
    match FirstNumeric(segs)
    case Some(i) =>
      JoinPrefix(segs, i + 1);
      JoinSplit(link);
    case None =>
  }

  /** Normalising an already normalised link changes nothing. */
  lemma CleanLinkIdempotent(link: string)
    ensures CleanLink(CleanLink(link)) == CleanLink(link)
  {
    var segs := Split(link);
    match FirstNumeric(segs)
    case Some(i) =>
      var kept := segs[..i + 1];
      var r := Join(kept);
      CleanLinkCuts(link, segs, i);
      SplitSegmentsNoSlash(link);
      SplitJoin(kept);
      FirstNumericAt(kept, i);
      CleanLinkCuts(r, kept, i);
      assert kept[..i + 1] == kept;
    case None =>
  }

  /** A link without line breaks normalises to a link without line breaks. */
  lemma CleanLinkNoLineBreak(link: string)
    requires NoLineBreak(link)
    ensures NoLineBreak(CleanLink(link))
  {
    CleanLinkIsPrefix(link);
    var r := CleanLink(link);
    forall k | 0 <= k < |r| ensures !IsLineBreak(r[k]) {
      assert r[k] == link[k];
    }
  }
}
