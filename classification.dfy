/**
 * How `download_story` reads the text the fetcher printed: three markers,
 * tested in a fixed order, the first one present deciding the outcome; text
 * carrying none of them counts as an update.
 */
module Classification {
  import opened Strings

  /** The local book has more chapters than the site. */
  const MoreThanSource := "chapters, more than source:"
  /** The site has nothing new yet. */
  const AlreadyContains := "already contains"
  /** The book carries no source URL to update from. */
  const NoStoryUrl := "No story url found in epub to update"

  datatype Outcome =
    | MoreChaptersLocally  // warned about, not retried
    | NoNewChapters        // queued for retry on the next run
    | NoSourceUrl          // warned about, not retried
    | Updated              // the book was updated and is written back

  /** The outcome for which `download_story` returns True. */
  predicate Success(o: Outcome)
  {
    o == Updated
  }

  /** The outcome for which `download_story` queues the URL for retry. */
  predicate Requeues(o: Outcome)
  {
    o == NoNewChapters
  }

  /** The if/elif chain of `download_story`. */
  function Classify(output: string): Outcome
  {
    if Contains(output, MoreThanSource) then MoreChaptersLocally
    else if Contains(output, AlreadyContains) then NoNewChapters
    else if Contains(output, NoStoryUrl) then NoSourceUrl
    else Updated
  }

  /** "chapters, more than source:" wins over "already contains", which wins
      over "No story url found in epub to update"; success means that none of
      the three occurs. */
  lemma ClassifyPriority(output: string)
    ensures Contains(output, MoreThanSource) ==> Classify(output) == MoreChaptersLocally
    ensures Classify(output) == NoNewChapters <==>
              !Contains(output, MoreThanSource) && Contains(output, AlreadyContains)
    ensures Classify(output) == NoSourceUrl <==>
              && !Contains(output, MoreThanSource) && !Contains(output, AlreadyContains)
              && Contains(output, NoStoryUrl)
    ensures Success(Classify(output)) <==>
              !Contains(output, MoreThanSource) && !Contains(output, AlreadyContains)
              && !Contains(output, NoStoryUrl)
  {
  }

  /** The markers as a priority-ordered table: pattern and the outcome it selects. */
  const Rules: seq<(string, Outcome)> :=
    [(MoreThanSource, MoreChaptersLocally), (AlreadyContains, NoNewChapters), (NoStoryUrl, NoSourceUrl)]

  /** The outcome of the first rule whose pattern occurs; `Updated` if none does. */
  function FirstMatch(rules: seq<(string, Outcome)>, output: string): (o: Outcome)
    ensures o == Updated || exists k :: 0 <= k < |rules| && rules[k].1 == o
  {
    if rules == [] then Updated
    else if Contains(output, rules[0].0) then rules[0].1
    else FirstMatch(rules[1..], output)
  }

  /** The chain in the script and the priority table agree on every text. */
  lemma ClassifyIsFirstMatch(output: string)
    ensures Classify(output) == FirstMatch(Rules, output)
  {
    var r1, r2 := Rules[1..], Rules[2..];
    assert r1[1..] == r2 && r2[1..] == [];
    assert FirstMatch(r2, output) == if Contains(output, NoStoryUrl) then NoSourceUrl else Updated;
    assert FirstMatch(r1, output) ==
             if Contains(output, AlreadyContains) then NoNewChapters else FirstMatch(r2, output);
  }

  /** When several markers occur, the earlier one in the table wins. */
  lemma EarlierMarkerWins(output: string, i: nat, j: nat)
    requires i < j < |Rules|
    requires Contains(output, Rules[i].0) && Contains(output, Rules[j].0)
    ensures Classify(output) != Rules[j].1
  {
  }

  /** A text with no recognised marker is taken as a successful update. */
  lemma UnmarkedIsUpdated(output: string)
    requires forall k :: 0 <= k < |Rules| ==> !Contains(output, Rules[k].0)
    ensures Classify(output) == Updated
  {
    assert !Contains(output, Rules[0].0) && !Contains(output, Rules[1].0) && !Contains(output, Rules[2].0);
  }

  /** Only text that says the site had nothing new is queued for retry. */
  lemma RequeuesOnlyAlreadyContains(output: string)
    ensures Requeues(Classify(output)) <==>
              Contains(output, AlreadyContains) && !Contains(output, MoreThanSource)
  {
  }
}
