# autoficfare, modelled in Dafny

autoficfare keeps a Calibre library of fan-fiction EPUBs up to date. The
fan-fiction sites send update notices by mail. Each run of the script works
in four steps:

1. It drains a retry ledger, the file `retry.txt`, which holds one story
   URL per line and is deleted once read.
2. It appends the story links found in the mailbox. Each link is
   normalised by `clean_story_link`, which cuts it after its first
   all-digit path segment.
3. For every URL it looks the story up in the Calibre catalog, exports the
   EPUB and lets FanFicFare fetch the new chapters. It then classifies the
   text the fetcher printed:
   - "chapters, more than source:" means the local book is ahead (warned
     about only);
   - "already contains" means the site has nothing new yet. The URL is
     appended to the retry ledger;
   - "No story url found in epub to update" means there is nothing to
     update from (warned about only);
   - anything else is a successful update. The EPUB is written back to the
     catalog and `successful_updates` is incremented.
4. It reports `successful_updates` against the number of URLs.

The earlier script `autofare.py` does the same without a ledger, without
link normalisation and without a counter.

The project models this core:

- `strings.dfy` (module `Strings`) holds the Python string operations the
  scripts use, as recursive functions with their algebra. These are
  `str.split("/")`, `"/".join`, `isnumeric`, the `in` substring test and
  `splitlines()`.
- `story_link.dfy` (module `StoryLink`) holds `clean_story_link`. It is
  written as a specification function and as the source's search loop,
  which is proved equal to the function.
- `classification.dfy` (module `Classification`) holds the marker
  priority of `download_story`. Its partner is a priority table of rules.
- `retry_ledger.dfy` (module `RetryLedger`) holds the retry file as a class.
  Its state is the file's text, and `None` stands for a missing file. It has
  the append used by `download_story` and the load-and-delete done at the
  start of a run.
- `batch.dfy` (module `Batch`) holds the per-story decision shared by both
  scripts, along with `Written` and `Deferred`. These functions specify
  which ids a run writes back and which URLs it queues.
- `autoficfare.dfy` (module `AutoFicFare`) holds `download_story`, the
  work-list assembly and the update loop. These are methods proved against
  the `Batch` and `RetryLedger` functions. It also has three small runs built
  on the top level.
- `autofare.dfy` (module `AutoFare`) holds the earlier script's
  `download_story` and its loop.

Calibre and the fetcher are passed in as values of type
`Batch.Collaborators`:

- the catalog search, as a function from URL to ids;
- whether an id's EPUB can be exported;
- the text the fetcher prints for the i-th story of the run.

The mailbox's result is a separate `mail` argument of type
`Option<seq<string>>`, where `None` is a mail search that raised.

## Model

| member | source | states |
|---|---|---|
| Strings.Split | autoficfare.py:90 | `str.split("/")` always yields at least one segment |
| Strings.SplitSegmentsNoSlash | autoficfare.py:90 | no segment produced by the split contains a slash |
| Strings.Join | autoficfare.py:93 | definition of `"/".join`; characterised by Strings.JoinSplit, Strings.SplitJoin and Strings.JoinPrefix |
| Strings.IsNumeric | autoficfare.py:92 | definition of `str.isnumeric`: non-empty and every character an ASCII digit; used by StoryLink.FirstNumeric |
| Strings.Contains | autoficfare.py:75-81 | definition of the `in` substring test: the pattern starts at some position of the text; used by Classification.ClassifyPriority |
| Strings.JoinSplit | autoficfare.py:90-93 | `"/".join` undoes `split("/")` on every string |
| Strings.SplitNoSlash | autoficfare.py:90 | a string without slashes splits into itself alone |
| Strings.SplitCons | autoficfare.py:90 | splitting `a + "/" + t` with a slash-free `a` yields `a` followed by the segments of `t` |
| Strings.SplitJoin | autoficfare.py:90-93 | splitting the join of one or more slash-free segments gives those segments back |
| Strings.JoinPrefix | autoficfare.py:93 | joining the first k segments gives a prefix of joining them all |
| Strings.SplitLinesFrom | autoficfare.py:101 | no line produced by `splitlines()` contains a line boundary |
| Strings.SplitLines | autoficfare.py:101 | no line produced by `splitlines()` contains a line boundary |
| Strings.SplitLinesLine | autoficfare.py:101 | a line ended by "\n" is split off whole, and the rest is split on its own |
| Strings.SplitLinesAfterNewline | autoficfare.py:101 | after a newline-terminated prefix, the lines of a concatenation are the prefix's lines followed by the suffix's |
| StoryLink.FirstNumeric | autoficfare.py:91-93 | finds the first all-digit segment: the found index is numeric and none before it is; nothing is found exactly when no segment is numeric |
| StoryLink.FirstNumericAt | autoficfare.py:91-93 | a numeric segment with no numeric segment before it is the one found |
| StoryLink.CleanLink | autoficfare.py:88-95 | definition of `clean_story_link`; characterised by StoryLink.CleanLinkSegments, StoryLink.CleanLinkIsPrefix, StoryLink.CleanLinkIdempotent and StoryLink.CleanLinkNoLineBreak |
| StoryLink.CleanStoryLink | autoficfare.py:88-95 | the enumerate loop with its early return computes the normalised link |
| StoryLink.CleanLinkSegments | autoficfare.py:88-95 | if some segment is numeric, the result's segments are a prefix of the link's segments, end in the first numeric segment and have no numeric segment before it; otherwise the link is returned unchanged |
| StoryLink.CleanLinkIsPrefix | autoficfare.py:90-95 | the normalised link is a prefix of the input |
| StoryLink.CleanLinkIdempotent | autoficfare.py:90-95 | normalising an already normalised link changes nothing |
| StoryLink.CleanLinkNoLineBreak | autoficfare.py:88-95 | normalising never introduces a line boundary |
| Classification.Classify | autoficfare.py:75-84 | definition of the if/elif chain of `download_story`; characterised by Classification.ClassifyPriority and Classification.ClassifyIsFirstMatch |
| Classification.ClassifyPriority | autoficfare.py:75-85 | "chapters, more than source:" wins over "already contains", which wins over "No story url found in epub to update"; the update succeeds exactly when none of the three occurs |
| Classification.FirstMatch | autoficfare.py:75-84 | a first-match over a rule table yields `Updated` or the outcome of one of its rules |
| Classification.ClassifyIsFirstMatch | autoficfare.py:75-84 | the if/elif chain equals first-match over the priority table on every text |
| Classification.EarlierMarkerWins | autoficfare.py:75-82 | when two markers occur, the later rule's outcome is never chosen |
| Classification.UnmarkedIsUpdated | autoficfare.py:83-84 | text with no marker counts as an update |
| Classification.RequeuesOnlyAlreadyContains | autoficfare.py:75-80 | the retry outcome is chosen exactly when "already contains" occurs and "chapters, more than source:" does not |
| RetryLedger.Serialize | autoficfare.py:79-80 | definition of the text left by writing each URL as `url + "\n"`; characterised by RetryLedger.ParseSerialize and RetryLedger.SerializeSnoc |
| RetryLedger.AppendLine | autoficfare.py:79-80 | definition of one mode "a" write of `url + "\n"`, creating a missing file; characterised by RetryLedger.AppendLineLines |
| RetryLedger.AppendAll | autoficfare.py:79-80 | definition of several appends in order; characterised by RetryLedger.AppendAllFromAbsent, RetryLedger.AppendAllTerminated and RetryLedger.AppendAllLines |
| RetryLedger.ParseSerialize | autoficfare.py:99-101 | `splitlines()` of URLs written one per line gives those URLs back in order, when they have no line boundaries |
| RetryLedger.SerializeSnoc | autoficfare.py:79-80 | one more entry adds `url + "\n"` at the end of the text |
| RetryLedger.AppendAllFromAbsent | autoficfare.py:79-80 | appending to a missing file creates it with exactly the serialised entries, and appending nothing leaves it missing |
| RetryLedger.AppendLineLines | autoficfare.py:79-80 | appending a break-free URL to a newline-terminated file adds exactly that entry at the end |
| RetryLedger.AppendAllTerminated | autoficfare.py:79-80 | the appends keep a newline-terminated file newline-terminated |
| RetryLedger.AppendAllLast | autoficfare.py:79-80 | the last of several appends adds its URL after the entries of the earlier ones |
| RetryLedger.AppendAllLines | autoficfare.py:79-80 | appending break-free URLs one by one adds them all, in order, after the existing entries |
| RetryLedger.Ledger.constructor | autoficfare.py:99 | the ledger starts out holding the file as found, or no file |
| RetryLedger.Ledger.Append | autoficfare.py:79-80 | mode "a" write: the file becomes its old text plus `url + "\n"` and is created if missing; on a well-formed file a break-free URL becomes the new last entry |
| RetryLedger.Ledger.LoadAndClear | autoficfare.py:99-102 | returns the file's lines, or nothing when it is missing, and the file is gone afterwards |
| RetryLedger.AppendThenLoadTwice | autoficfare.py:79-102 | two appends then two loads: the first load returns both URLs in append order, the second returns nothing |
| Batch.CalibreId | autoficfare.py:120 | definition of `next(iter(db.search(...)), -1)`: the first hit, or -1 when there is none |
| Batch.StepAt | autoficfare.py:120-136 | definition of where the loop leaves one story: not found, export failed, or fetched with the classified outcome |
| Batch.Written | autoficfare.py:118-143 | definition of the ids passed to `add_format`, in order; characterised by Batch.WrittenMembers and Batch.WrittenCount |
| Batch.Deferred | autoficfare.py:118-136 | definition of the URLs queued for retry, in order; characterised by Batch.DeferredMembers, Batch.DeferredCount and Batch.DeferredNoLineBreak |
| Batch.WrittenCount | autoficfare.py:117-143 | there is one write per position whose story was found, exported and updated, so never more writes than stories |
| Batch.DeferredCount | autoficfare.py:118-136 | there is one queued URL per position whose fetch found nothing new |
| Batch.WrittenMembers | autoficfare.py:118-143 | an id is written back exactly when some story resolved to it, was exported, and was classified as updated |
| Batch.DeferredMembers | autoficfare.py:118-136 | a URL is queued exactly when it is the URL of some story whose fetch found nothing new |
| Batch.WrittenOrDeferred | autoficfare.py:136-140 | no story is both written back and queued |
| Batch.DeferredNoLineBreak | autoficfare.py:118-136 | queued URLs are URLs of the run, so they are break-free when the run's URLs are |
| AutoFicFare.DownloadStory | autoficfare.py:69-85 | returns True exactly when the text shows a successful update; appends `retry_url` to the ledger exactly when the site had nothing new, and leaves the ledger unchanged otherwise |
| AutoFicFare.CleanAll | autoficfare.py:111 | definition of `list(map(clean_story_link, ...))`; characterised by AutoFicFare.StoryUrlsMailAt and AutoFicFare.CleanAllNoLineBreak |
| AutoFicFare.StoryUrls | autoficfare.py:98-114 | definition of the work list; characterised by AutoFicFare.StoryUrlsShape and AutoFicFare.StoryUrlsMailAt |
| AutoFicFare.StoryUrlsShape | autoficfare.py:98-114 | the ledger entries come first and are not normalised; a failed mail search leaves only them; otherwise there is one URL per mail link after them, each already normalised |
| AutoFicFare.StoryUrlsMailAt | autoficfare.py:111-112 | the k-th mail link, normalised, is the k-th work-list URL after the ledger entries |
| AutoFicFare.CleanAllNoLineBreak | autoficfare.py:111 | normalising break-free mail links keeps them break-free |
| AutoFicFare.StoryUrlsNoLineBreak | autoficfare.py:98-114 | the work list is break-free when the ledger entries and mail links are |
| AutoFicFare.CleanStoryLinks | autoficfare.py:111-112 | `map(clean_story_link, ...)` normalises each link in order |
| AutoFicFare.AssembleStoryUrls | autoficfare.py:98-114 | the work list is the ledger's entries followed by the normalised mail links, and the retry file is deleted |
| AutoFicFare.UpdateStory | autoficfare.py:118-143 | one loop pass: `add_format` gets the id exactly when the story was found, exported and updated; the URL is queued exactly when the site had nothing new |
| AutoFicFare.UpdateStories | autoficfare.py:117-143 | the ids written back are exactly the `Written` ones, in order; `successful_updates` counts them and is at most the number of stories; the ledger gains exactly the deferred URLs in processing order |
| AutoFicFare.Run | autoficfare.py:98-146 | after a run the ledger holds exactly this run's deferred URLs in processing order, so earlier entries survive only if deferred again; the work list, writes and count are as above |
| AutoFicFare.SingleStoryRun | autoficfare.py:98-146 | one mail link and no retry file: 0/1 with nothing queued when the story is not in the catalog; 0/1 with the link queued when the site had nothing new; 1/1 with the id written back when the update went through |
| AutoFicFare.QuietRunsTwice | autoficfare.py:98-146 | with no retry file and an empty mailbox, two runs look nothing up, write nothing and queue nothing |
| AutoFicFare.RetryWithoutMail | autoficfare.py:98-114 | a queued URL is retried as written even when the mail search raises |
| AutoFare.StoryUrls | autofare.py:71-75 | definition of `story_urls`: the mail links as found, or none when the mail search raised; stated by AutoFare.Run |
| AutoFare.DownloadStory | autofare.py:54-68 | returns True exactly when none of the three markers occurs; "already contains" queues nothing |
| AutoFare.SameVerdictAsLater | autofare.py:59-68 | both scripts accept exactly the same fetcher texts |
| AutoFare.Run | autofare.py:70-101 | the mail links are searched as given, in order, or nothing is searched when the mail search raises; `add_format` gets exactly the `Written` ids, never more than there are links |

## Left out

- FanFicFare's `cli.main` (autoficfare.py:73, autofare.py:57) is an external fetcher. Only the text it prints matters, and that text is an input: `Collaborators.fetchOutput`, indexed by the story's position in the work list. Indexing by position is more general than indexing by URL, since the same URL can appear twice.
- The model assumes that opening the library with `db(calibre_path).new_api` (autoficfare.py:107), `cli.main` (autoficfare.py:73), `db.search` (autoficfare.py:120) and `db.add_format` (autoficfare.py:140) return normally. In the code these calls sit outside any `try`; the only per-story `try` is the export at autoficfare.py:126-133. So an exception in any of them ends the script, and the model does not capture that abort. By then autoficfare.py:102 has already deleted `retry.txt`; if opening the library raises, the whole ledger is lost before any entry is processed. The ledger entries and mail links the loop has not reached are then lost: they are neither processed nor queued again. The model covers only runs that finish. `autofare.py` has the same gap at lines 82, 95 and 100, but it has no ledger to lose.
- `geturls.get_urls_from_imap` (autoficfare.py:111-112, autofare.py:73) is network I/O. Its result is an `Option<seq<string>>`, where `None` is a search that raised.
- The Calibre calls `search`, `format`, `copy_format_to` and `add_format` are abstract values. Searching is a function from URL to ids. Exporting is a predicate on ids, covering both a `None` path and an exception. Writing back is the sequence of ids passed to `add_format`.
- The `get_metadata` calls (autoficfare.py:125 and 141) only feed log messages and are not modelled. If they raised for a found id, the script would stop. The model assumes they do not raise.
- The Calibre query string is not modelled: the search function receives the URL itself. `int(...)` on the first hit is taken as the hit.
- Configuration parsing, the `exit` paths, the `Log` class, temporary directories, `os.chdir` and `redirect_stdout` are printing and process plumbing. They have no effect on the modelled state.
- `os.path.isfile` and `os.remove` are the ledger's `None` state. Failures of the file system itself are not modelled.
- The plugin hook is not modelled. The script never invokes it; a comment at autoficfare.py:144 leaves it for later. So no metadata pairs are collected.
- `str.isnumeric` is modelled as "non-empty and every character an ASCII digit". Unicode digits and numerals that Python also accepts are not modelled.
- There is no anti-bot challenge outcome, nor an "unrecognised" outcome. The code has only the three markers, and any other text counts as a successful update; the model follows the code.
- The ledger round trip (`RetryLedger.AppendAllLines`, `RetryLedger.Ledger.Append`) holds only for URLs without line boundaries, added to a file that is missing or ends in "\n". Appending to a file with no final newline would merge two lines. This is stated as a precondition of the round trip, not of the append.
- AutoFicFare.Run: the statement that the ledger's entries equal the deferred URLs holds only when the mail links have no line boundaries. Ledger entries always do, since they come from `splitlines()`. Without that condition, `Run` still states the exact file text.
- AutoFare.Run: the fixed scratch path `temp.epub` that every export overwrites is not modelled. Each story's export stands on its own.
