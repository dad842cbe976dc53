/**
 * What the update loop decides for each story URL, stated once for both
 * versions of the script. The collaborators the script calls out to are
 * parameters: the catalog search, the EPUB export and the text the fetcher
 * prints.
 */
module Batch {
  import opened Classification
  import opened RetryLedger

  /** The id `next(iter(...), -1)` falls back to when the search finds nothing. */
  const NotFound := -1

  /** `int(next(iter(db.search(...)), -1))`: the first hit, or `NotFound`. */
  function CalibreId(hits: seq<int>): int
  {
    if hits == [] then NotFound else hits[0]
  }

  /** The outside world, as seen from the loop. */
  datatype Collaborators = Collaborators(
    search: string -> seq<int>,  // ids the catalog finds for a URL identifier
    exports: int -> bool,        // whether exporting that id's EPUB yields a file
    fetchOutput: nat -> string)  // what the fetcher prints for the i-th story of the run

  /** Where the loop leaves one story. */
  datatype Step =
    | NotInLibrary                      // lookup gave -1: skipped
    | ExportFailed                      // no EPUB could be exported: skipped
    | Fetched(id: int, outcome: Outcome)  // the fetcher ran; its text was classified

  /** The fate of `url`, the i-th story of the run. */
  function StepAt(c: Collaborators, url: string, i: nat): Step
  {
    var id := CalibreId(c.search(url));
    if id == NotFound then NotInLibrary
    else if !c.exports(id) then ExportFailed
    else Fetched(id, Classify(c.fetchOutput(i)))
  }

  /** The i-th story is written back to the catalog. */
  predicate WritesBack(c: Collaborators, work: seq<string>, i: nat)
    requires i < |work|
  {
    var step := StepAt(c, work[i], i);
    step.Fetched? && Success(step.outcome)
  }

  /** The i-th story is queued in the retry ledger. */
  predicate Defers(c: Collaborators, work: seq<string>, i: nat)
    requires i < |work|
  {
    var step := StepAt(c, work[i], i);
    step.Fetched? && Requeues(step.outcome)
  }

  /** The ids written back while processing the first `n` stories, in order. */
  function Written(c: Collaborators, work: seq<string>, n: nat): seq<int>
    requires n <= |work|
  {
    if n == 0 then []
    else Written(c, work, n - 1) + (if WritesBack(c, work, n - 1) then [StepAt(c, work[n - 1], n - 1).id] else [])
  }

  /** The URLs queued for retry while processing the first `n` stories, in order. */
  function Deferred(c: Collaborators, work: seq<string>, n: nat): seq<string>
    requires n <= |work|
  {
    if n == 0 then []
    else Deferred(c, work, n - 1) + (if Defers(c, work, n - 1) then [work[n - 1]] else [])
  }

  /** Processing one more story extends the writes and the queue by at most
      that story. */
  lemma Advance(c: Collaborators, work: seq<string>, i: nat)
    requires i < |work|
    ensures var step := StepAt(c, work[i], i);
            && Written(c, work, i + 1) ==
                 Written(c, work, i) + (if step.Fetched? && step.outcome == Updated then [step.id] else [])
            && Deferred(c, work, i + 1) ==
                 Deferred(c, work, i) + (if step.Fetched? && step.outcome == NoNewChapters then [work[i]] else [])
  {
  }

  /** The positions below `n` at which `p` holds. */
  ghost function Positions(p: nat -> bool, n: nat): set<nat>
  {
    set i: nat | i < n && p(i)
  }

  /** Looking at one more position adds that position exactly when `p` holds
      there. */
  lemma PositionsStep(p: nat -> bool, n: nat)
    ensures |Positions(p, n + 1)| == |Positions(p, n)| + if p(n) then 1 else 0
  {
    var before := Positions(p, n);
    assert n !in before;
    if p(n) {
      assert Positions(p, n + 1) == before + {n};
    } else {
      assert Positions(p, n + 1) == before;
    }
  }

  /** Whether the story at a position of the work list is written back. */
  ghost function WritesAt(c: Collaborators, work: seq<string>): nat -> bool
  {
    (i: nat) => i < |work| && WritesBack(c, work, i)
  }

  /** Whether the story at a position of the work list is queued for retry. */
  ghost function DefersAt(c: Collaborators, work: seq<string>): nat -> bool
  {
    (i: nat) => i < |work| && Defers(c, work, i)
  }

  /** One write per story that was found, exported and updated; never more
      writes than stories. */
  lemma {:induction false} WrittenCount(c: Collaborators, work: seq<string>, n: nat)
    requires n <= |work|
    ensures |Written(c, work, n)| == |Positions(WritesAt(c, work), n)|
    ensures |Written(c, work, n)| <= n
  {
    if n > 0 {
      WrittenCount(c, work, n - 1);
      PositionsStep(WritesAt(c, work), n - 1);
      assert WritesAt(c, work)(n - 1) == WritesBack(c, work, n - 1);
    }
  }

  /** One ledger entry per story whose fetch found nothing new. */
  lemma {:induction false} DeferredCount(c: Collaborators, work: seq<string>, n: nat)
    requires n <= |work|
    ensures |Deferred(c, work, n)| == |Positions(DefersAt(c, work), n)|
  {
    if n > 0 {
      DeferredCount(c, work, n - 1);
      PositionsStep(DefersAt(c, work), n - 1);
      assert DefersAt(c, work)(n - 1) == Defers(c, work, n - 1);
    }
  }

  /** An id is written back exactly when some story resolved to it, was
      exported, and its fetch was classified as an update. */
  lemma {:induction false} WrittenMembers(c: Collaborators, work: seq<string>, n: nat, id: int)
    requires n <= |work|
    ensures id in Written(c, work, n) <==>
              exists i :: 0 <= i < n && StepAt(c, work[i], i) == Fetched(id, Updated)
  {
    if n > 0 {
      WrittenMembers(c, work, n - 1, id);
      if StepAt(c, work[n - 1], n - 1) == Fetched(id, Updated) {
        assert WritesBack(c, work, n - 1);
      }
    }
  }

  /** A URL is queued exactly when it is the URL of some story whose fetch
      found nothing new. */
  lemma {:induction false} DeferredMembers(c: Collaborators, work: seq<string>, n: nat, url: string)
    requires n <= |work|
    ensures url in Deferred(c, work, n) <==>
              exists i :: 0 <= i < n && work[i] == url && Defers(c, work, i)
  {
    if n > 0 {
      DeferredMembers(c, work, n - 1, url);
    }
  }

  /** No story is both written back and queued. */
  lemma WrittenOrDeferred(c: Collaborators, work: seq<string>, i: nat)
    requires i < |work|
    ensures !(WritesBack(c, work, i) && Defers(c, work, i))
  {
  }

  /** Queued URLs are URLs of the run, so they have no line breaks when the
      run's URLs have none. */
  lemma {:induction false} DeferredNoLineBreak(c: Collaborators, work: seq<string>, n: nat)
    requires n <= |work|
    requires AllNoLineBreak(work)
    ensures AllNoLineBreak(Deferred(c, work, n))
  {
    if n > 0 {
      DeferredNoLineBreak(c, work, n - 1);
    }
  }
}
