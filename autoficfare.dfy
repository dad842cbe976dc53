/**
 * The current script: drain the retry ledger, add the normalised links found
 * in the mailbox, then for each story look it up in the catalog, export its
 * EPUB, let the fetcher update it, queue it for retry when the site had
 * nothing new, and write it back when the fetcher reported no problem.
 */
module AutoFicFare {
  import opened Wrappers
  import opened Strings
  import opened Classification
  import opened StoryLink
  import opened RetryLedger
  import opened Batch

  /**
   * `download_story(epub_path, retry_url)`, with the text `cli.main` printed
   * given as `output`. True exactly when no marker occurs; the URL is queued
   * exactly when the site had nothing new.
   */
  method DownloadStory(ledger: Ledger, output: string, retryUrl: string) returns (ok: bool)
    modifies ledger
    ensures ok <==> Success(Classify(output))
    ensures ledger.file == if Requeues(Classify(output)) then AppendLine(old(ledger.file), retryUrl)
                           else old(ledger.file)
  {
    if Contains(output, MoreThanSource) {
      // more chapters locally: warned about only
    } else if Contains(output, AlreadyContains) {
      ledger.Append(retryUrl);
    } else if Contains(output, NoStoryUrl) {
      // nothing to update from: warned about only
    } else {
      return true;
    }
    return false;
  }

  /** `list(map(clean_story_link, links))`. */
  function CleanAll(links: seq<string>): seq<string>
  {
    seq(|links|, k requires 0 <= k < |links| => CleanLink(links[k]))
  }

  /**
   * The work list: the ledger's entries as read, then the normalised mail
   * links; `None` stands for a mail search that raised.
   */
  function StoryUrls(pending: seq<string>, mail: Option<seq<string>>): seq<string>
  {
    pending + if mail.Some? then CleanAll(mail.value) else []
  }

  /** Ledger entries come first and are not normalised; a failed mail search
      leaves only them; every mail link is normalised, and only once. */
  lemma StoryUrlsShape(pending: seq<string>, mail: Option<seq<string>>)
    ensures var urls := StoryUrls(pending, mail);
            && urls[..|pending|] == pending
            && (mail.None? ==> urls == pending)
            && (mail.Some? ==> |urls| == |pending| + |mail.value|)
            && (forall k :: |pending| <= k < |urls| ==> CleanLink(urls[k]) == urls[k])
  {
    var urls := StoryUrls(pending, mail);
    forall k | |pending| <= k < |urls| ensures CleanLink(urls[k]) == urls[k] {
      CleanLinkIdempotent(mail.value[k - |pending|]);
    }
  }

  /** The k-th mail link becomes the k-th URL after the ledger entries,
      normalised. */
  lemma StoryUrlsMailAt(pending: seq<string>, links: seq<string>, k: nat)
    requires k < |links|
    ensures StoryUrls(pending, Some(links))[|pending| + k] == CleanLink(links[k])
  {
    assert StoryUrls(pending, Some(links)) == pending + CleanAll(links);
  }

  /** Normalised break-free links stay break-free. */
  lemma CleanAllNoLineBreak(links: seq<string>)
    requires AllNoLineBreak(links)
    ensures AllNoLineBreak(CleanAll(links))
  {
    var cleaned := CleanAll(links);
    forall k | 0 <= k < |cleaned| ensures NoLineBreak(cleaned[k]) {
      assert NoLineBreak(links[k]);
      CleanLinkNoLineBreak(links[k]);
    }
  }

  /** With break-free ledger entries and mail links, every URL of the run is
      break-free. */
  lemma StoryUrlsNoLineBreak(pending: seq<string>, mail: Option<seq<string>>)
    requires AllNoLineBreak(pending)
    requires mail.Some? ==> AllNoLineBreak(mail.value)
    ensures AllNoLineBreak(StoryUrls(pending, mail))
  {
    var cleaned := if mail.Some? then CleanAll(mail.value) else [];
    if mail.Some? {
      CleanAllNoLineBreak(mail.value);
    }
    var urls := pending + cleaned;
    forall k | 0 <= k < |urls| ensures NoLineBreak(urls[k]) {
      if k < |pending| {
        assert urls[k] == pending[k];
      } else {
        assert urls[k] == cleaned[k - |pending|];
      }
    }
  }

  /** `list(map(clean_story_link, links))`, one call per link in order. */
  method CleanStoryLinks(links: seq<string>) returns (cleaned: seq<string>)
    ensures cleaned == CleanAll(links)
  {
    cleaned := [];
    for k := 0 to |links|
      invariant |cleaned| == k
      invariant forall j :: 0 <= j < k ==> cleaned[j] == CleanLink(links[j])
    {
      var link := CleanStoryLink(links[k]);
      cleaned := cleaned + [link];
    }
  }

  /** Drain the retry file, then append the normalised mail links. */
  method AssembleStoryUrls(ledger: Ledger, mail: Option<seq<string>>) returns (storyUrls: seq<string>)
    modifies ledger
    ensures storyUrls == StoryUrls(old(ledger.Pending()), mail)
    ensures ledger.file == None
  {
    storyUrls := [];
    var retried := ledger.LoadAndClear();
    storyUrls := storyUrls + retried;
    if mail.Some? {
      var cleaned := CleanStoryLinks(mail.value);
      storyUrls := storyUrls + cleaned;
    }
  }

  /**
   * The body of the `for` loop for the i-th story `url`: look it up, export
   * it, update it. `added` is the id passed to `db.add_format`, if any.
   */
  method UpdateStory(ledger: Ledger, c: Collaborators, url: string, i: nat) returns (added: Option<int>)
    modifies ledger
    ensures var step := StepAt(c, url, i);
            added == if step.Fetched? && Success(step.outcome) then Some(step.id) else None
    ensures var step := StepAt(c, url, i);
            ledger.file == if step.Fetched? && Requeues(step.outcome) then AppendLine(old(ledger.file), url)
                           else old(ledger.file)
  {
    var calibreId := CalibreId(c.search(url));
    if calibreId == NotFound {
      return None;
    }
    if !c.exports(calibreId) {
      return None;
    }
    var ok := DownloadStory(ledger, c.fetchOutput(i), url);
    if !ok {
      return None;
    }
    return Some(calibreId);
  }

  /**
   * The `for` loop: `added` logs the ids passed to `db.add_format`, in call
   * order, and `successful` is `successful_updates`.
   */
  method UpdateStories(ledger: Ledger, c: Collaborators, storyUrls: seq<string>)
    returns (successful: nat, added: seq<int>)
    modifies ledger
    ensures added == Written(c, storyUrls, |storyUrls|)
    ensures successful == |added| <= |storyUrls|
    ensures ledger.file == AppendAll(old(ledger.file), Deferred(c, storyUrls, |storyUrls|))
  {
    successful, added := 0, [];
    for i := 0 to |storyUrls|
      invariant added == Written(c, storyUrls, i)
      invariant successful == |added|
      invariant ledger.file == AppendAll(old(ledger.file), Deferred(c, storyUrls, i))
    {
      Advance(c, storyUrls, i);
      ghost var queued := Deferred(c, storyUrls, i);
      var calibreId := UpdateStory(ledger, c, storyUrls[i], i);
      if Defers(c, storyUrls, i) {
        AppendAllSnoc(old(ledger.file), queued, storyUrls[i]);
        assert Deferred(c, storyUrls, i + 1) == queued + [storyUrls[i]];
      } else {
        assert Deferred(c, storyUrls, i + 1) == queued;
      }
      if calibreId.None? {
        continue;
      }
      added := added + [calibreId.value];
      successful := successful + 1;
    }
    WrittenCount(c, storyUrls, |storyUrls|);
  }

  /** What a run leaves behind besides the ledger. */
  datatype Report = Report(storyUrls: seq<string>, added: seq<int>, successful: nat)

  /**
   * One run of the script. Afterwards the ledger holds exactly the URLs
   * deferred during this run, in processing order: entries it held before
   * survive only when deferred again.
   */
  method Run(ledger: Ledger, mail: Option<seq<string>>, c: Collaborators) returns (report: Report)
    modifies ledger
    ensures report.storyUrls == StoryUrls(old(ledger.Pending()), mail)
    ensures report.added == Written(c, report.storyUrls, |report.storyUrls|)
    ensures report.successful == |report.added| <= |report.storyUrls|
    ensures ledger.file == AppendAll(None, Deferred(c, report.storyUrls, |report.storyUrls|))
    ensures (mail.Some? ==> AllNoLineBreak(mail.value)) ==>
              ledger.Pending() == Deferred(c, report.storyUrls, |report.storyUrls|)
  {
    var storyUrls := AssembleStoryUrls(ledger, mail);
    var successful, added := UpdateStories(ledger, c, storyUrls);
    report := Report(storyUrls, added, successful);
    if mail.Some? ==> AllNoLineBreak(mail.value) {
      StoryUrlsNoLineBreak(old(ledger.Pending()), mail);
      DeferredNoLineBreak(c, storyUrls, |storyUrls|);
      AppendAllLines(None, Deferred(c, storyUrls, |storyUrls|));
    }
  }

  /**
   * A run starting from no retry file whose mail search finds one link: the
   * story is skipped when the catalog lacks it, queued when the site had
   * nothing new, and written back when the update went through.
   */
  method SingleStoryRun(link: string, c: Collaborators)
    returns (successful: nat, attempted: nat, added: seq<int>, retried: seq<string>)
    requires NoLineBreak(link)
    ensures attempted == 1
    ensures var step := StepAt(c, CleanLink(link), 0);
            && (step == NotInLibrary ==> successful == 0 && added == [] && retried == [])
            && (step.Fetched? && Requeues(step.outcome) ==>
                  successful == 0 && added == [] && retried == [CleanLink(link)])
            && (step.Fetched? && Success(step.outcome) ==>
                  successful == 1 && added == [step.id] && retried == [])
  {
    var ledger := new Ledger(None);
    var url := CleanLink(link);
    assert CleanAll([link]) == [url];
    assert StoryUrls(ledger.Pending(), Some([link])) == [url];
    assert AllNoLineBreak([link]);
    var report := Run(ledger, Some([link]), c);
    Advance(c, [url], 0);
    successful, attempted, added := report.successful, |report.storyUrls|, report.added;
    retried := ledger.Pending();
  }

  /** Two runs with no retry file and an empty mailbox: nothing is looked
      up, nothing written, nothing queued. */
  method QuietRunsTwice(c: Collaborators) returns (first: Report, second: Report, retried: seq<string>)
    ensures first == Report([], [], 0) && second == Report([], [], 0)
    ensures retried == []
  {
    var ledger := new Ledger(None);
    first := Run(ledger, Some([]), c);
    second := Run(ledger, Some([]), c);
    retried := ledger.Pending();
  }

  /** A queued URL is retried as written, even when the mail search fails. */
  method RetryWithoutMail(url: string, c: Collaborators) returns (report: Report)
    requires NoLineBreak(url)
    ensures report.storyUrls == [url]
  {
    var ledger := new Ledger(Some(Serialize([url])));
    ParseSerialize([url]);
    report := Run(ledger, None, c);
  }
}
