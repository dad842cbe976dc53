/**
 * The retry ledger `retry.txt`: one URL per line, appended one
 * `url + "\n"` at a time while a run defers stories, read back with
 * `splitlines()` and deleted at the start of the next run.
 */
module RetryLedger {
  import opened Wrappers
  import opened Strings

  /** The text a list of URLs leaves in the file. */
  function Serialize(urls: seq<string>): string
  {
    if urls == [] then "" else urls[0] + "\n" + Serialize(urls[1..])
  }

  predicate AllNoLineBreak(urls: seq<string>)
  {
    forall k :: 0 <= k < |urls| ==> NoLineBreak(urls[k])
  }

  /** Text the program itself wrote: empty, or ending in a newline. */
  predicate Terminated(text: string)
  {
    text == [] || text[|text| - 1] == '\n'
  }

  /** The text of the file, an absent file reading as empty. */
  function TextOf(file: Option<string>): string
  {
    if file.Some? then file.value else ""
  }

  /** The entries a load yields: the file's lines, none when it is absent. */
  function Lines(file: Option<string>): seq<string>
  {
    if file.Some? then SplitLines(file.value) else []
  }

  /** `open(RETRY_FILE, "a").write(url + "\n")`: creates the file if needed. */
  function AppendLine(file: Option<string>, url: string): Option<string>
  {
    Some(TextOf(file) + url + "\n")
  }

  /** Several appends, in order. */
  function AppendAll(file: Option<string>, urls: seq<string>): Option<string>
  {
    if urls == [] then file
    else AppendLine(AppendAll(file, urls[..|urls| - 1]), urls[|urls| - 1])
  }

  /** Appending a list and then one more URL is appending the longer list. */
  lemma AppendAllSnoc(file: Option<string>, urls: seq<string>, u: string)
    ensures AppendAll(file, urls + [u]) == AppendLine(AppendAll(file, urls), u)
  {
    assert (urls + [u])[..|urls|] == urls;
  }

  /** Writing URLs without line breaks and reading them back gives the same
      URLs in the same order. */
  lemma {:induction false} ParseSerialize(urls: seq<string>)
    requires AllNoLineBreak(urls)
    ensures SplitLines(Serialize(urls)) == urls
  {
    if urls != [] {
      SplitLinesLine([], urls[0], Serialize(urls[1..]));
      ParseSerialize(urls[1..]);
      assert [] + urls[0] == urls[0];
    }
  }

  /** One more entry adds one more terminated line at the end. */
  lemma {:induction false} SerializeSnoc(urls: seq<string>, u: string)
    ensures Serialize(urls + [u]) == Serialize(urls) + u + "\n"
  {
    if urls == [] {
      assert Serialize([u]) == u + "\n" + Serialize([]);
    } else {
      assert (urls + [u])[1..] == urls[1..] + [u];
      SerializeSnoc(urls[1..], u);
    }
  }

  /** Appending to an absent file writes exactly the serialised entries. */
  lemma {:induction false} AppendAllFromAbsent(urls: seq<string>)
    ensures AppendAll(None, urls) == if urls == [] then None else Some(Serialize(urls))
  {
    if urls != [] {
      var init := urls[..|urls| - 1];
      var u := urls[|urls| - 1];
      AppendAllFromAbsent(init);
      SerializeSnoc(init, u);
      assert init + [u] == urls;
      if init == [] {
        assert AppendAll(None, init) == None;
        assert Serialize([]) == "";
        assert TextOf(None) + u + "\n" == Serialize([]) + u + "\n";
      }
    }
  }

  /** Appending a break-free URL to a terminated file adds exactly that entry. */
  lemma AppendLineLines(file: Option<string>, url: string)
    requires file.None? || Terminated(file.value)
    requires NoLineBreak(url)
    ensures Lines(AppendLine(file, url)) == Lines(file) + [url]
  {
    var t := TextOf(file);
    var w := url + "\n";
    SplitLinesLine([], url, []);
    assert w == url + "\n" + [];
    assert [] + url == url;
    if t == [] {
      assert t + url + "\n" == w;
      assert SplitLines(t) == [];
    } else {
      SplitLinesAfterNewline(t, w, []);
      assert t + url + "\n" == t + w;
    }
  }

  /** Whatever was there before, an append leaves a terminated file. */
  lemma AppendAllTerminated(file: Option<string>, urls: seq<string>)
    requires file.None? || Terminated(file.value)
    ensures var f := AppendAll(file, urls); f.None? || Terminated(f.value)
  {
    if urls != [] {
      var text := TextOf(AppendAll(file, urls[..|urls| - 1])) + urls[|urls| - 1] + "\n";
      assert text[|text| - 1] == '\n';
    }
  }

  /** The last of several appends adds its URL after the others' entries. */
  lemma AppendAllLast(file: Option<string>, urls: seq<string>)
    requires file.None? || Terminated(file.value)
    requires urls != [] && NoLineBreak(urls[|urls| - 1])
    ensures Lines(AppendAll(file, urls)) ==
              Lines(AppendAll(file, urls[..|urls| - 1])) + [urls[|urls| - 1]]
  {
    AppendAllTerminated(file, urls[..|urls| - 1]);
    AppendLineLines(AppendAll(file, urls[..|urls| - 1]), urls[|urls| - 1]);
  }

  /** Appending break-free URLs one by one to a terminated file adds them
      all, in order, after the entries already there. */
  lemma {:induction false} AppendAllLines(file: Option<string>, urls: seq<string>)
    requires file.None? || Terminated(file.value)
    requires AllNoLineBreak(urls)
    ensures Lines(AppendAll(file, urls)) == Lines(file) + urls
  {
    if urls != [] {
      var init := urls[..|urls| - 1];
      assert AllNoLineBreak(init);
      AppendAllLines(file, init);
      AppendAllLast(file, urls);
      assert init + [urls[|urls| - 1]] == urls;
    }
  }

  /** The retry file, held as its text; `None` when it does not exist. */
  class Ledger {
    var file: Option<string>

    /** The ledger as found at the start of a run. */
    constructor (existing: Option<string>)
      ensures file == existing
    {
      file := existing;
    }

    /** The URLs a load would return now. */
    function Pending(): seq<string>
      reads this
    {
      Lines(file)
    }

    /** The file is absent or was last written by `Append`. */
    predicate WellFormed()
      reads this
    {
      file.None? || Terminated(file.value)
    }

    /** The retry branch of `download_story`: append `url + "\n"`. */
    method Append(url: string)
      modifies this
      ensures file == AppendLine(old(file), url)
      ensures WellFormed()
      ensures old(WellFormed()) && NoLineBreak(url) ==> Pending() == old(Pending()) + [url]
    {
      if old(WellFormed()) && NoLineBreak(url) {
        AppendLineLines(file, url);
      }
      file := AppendLine(file, url);
    }

    /** Read every line of the file if it exists, then delete it. */
    method LoadAndClear() returns (lines: seq<string>)
      modifies this
      ensures lines == old(Pending())
      ensures AllNoLineBreak(lines)
      ensures file == None && Pending() == []
    {
      lines := [];
      if file.Some? {
        lines := lines + SplitLines(file.value);
        file := None;
      }
    }
  }

  /** Two appends, then two loads: the first returns both URLs in append
      order, the second finds the file gone and returns nothing. */
  method AppendThenLoadTwice(u1: string, u2: string) returns (first: seq<string>, second: seq<string>)
    requires NoLineBreak(u1) && NoLineBreak(u2)
    ensures first == [u1, u2]
    ensures second == []
  {
    var ledger := new Ledger(None);
    ledger.Append(u1);
    ledger.Append(u2);
    first := ledger.LoadAndClear();
    second := ledger.LoadAndClear();
  }
}
