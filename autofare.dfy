/**
 * The earlier script: the stories are the mailbox links as found (no
 * normalisation, no retry ledger, no success counter); each is looked up,
 * exported to a fixed scratch path, updated and written back.
 */
module AutoFare {
  import opened Wrappers
  import opened Strings
  import opened Classification
  import opened Batch

  /**
   * This script's `download_story`: the same three markers in the same
   * order, but the "already contains" branch only logs (queueing was still a
   * TODO), so the verdict depends on the printed text alone.
   */
  function DownloadStory(output: string): (ok: bool)
    ensures ok <==> !Contains(output, MoreThanSource) && !Contains(output, AlreadyContains)
                    && !Contains(output, NoStoryUrl)
  {
    if Contains(output, MoreThanSource) then false
    else if Contains(output, AlreadyContains) then false
    else if Contains(output, NoStoryUrl) then false
    else true
  }

  /** Both scripts accept exactly the same fetcher texts. */
  lemma SameVerdictAsLater(output: string)
    ensures DownloadStory(output) <==> Success(Classify(output))
  {
  }

  /** `story_urls`: the mail links, or nothing when the mail search raised. */
  function StoryUrls(mail: Option<seq<string>>): seq<string>
  {
    if mail.Some? then mail.value else []
  }

  /**
   * The script's top level. `searched` logs the URLs looked up in the
   * catalog, in order, and `added` the ids passed to `db.add_format`.
   */
  method Run(mail: Option<seq<string>>, c: Collaborators) returns (searched: seq<string>, added: seq<int>)
    ensures searched == StoryUrls(mail)
    ensures mail.None? ==> searched == [] && added == []
    ensures added == Written(c, searched, |searched|)
    ensures |added| <= |searched|
  {
    var storyUrls := [];
    if mail.Some? {
      storyUrls := mail.value;
    }
    searched, added := [], [];
    for i := 0 to |storyUrls|
      invariant searched == storyUrls[..i]
      invariant added == Written(c, storyUrls, i)
    {
      var s := storyUrls[i];
      Advance(c, storyUrls, i);
      searched := searched + [s];
      var calibreId := CalibreId(c.search(s));
      if calibreId == NotFound {
        continue;
      }
      if !c.exports(calibreId) {
        continue;
      }
      var ok := DownloadStory(c.fetchOutput(i));
      if !ok {
        continue;
      }
      added := added + [calibreId];
    }
    assert storyUrls[..|storyUrls|] == storyUrls;
    WrittenCount(c, storyUrls, |storyUrls|);
  }
}
