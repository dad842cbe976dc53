/**
 * The handful of Python string operations the scripts rely on, as functions
 * on `seq<char>`: `str.split("/")`, `"/".join(...)`, `str.isnumeric()`,
 * the substring test `pat in text` and `str.splitlines()`.
 */
module Strings {

  /* ---------- str.split("/") and "/".join(...) ---------- */

  /** Python's `s.split("/")`; never empty. */
  function Split(s: string): (segs: seq<string>)
    ensures |segs| >= 1
  {
    if s == [] then [""]
    else
      var rest := Split(s[1..]);
      if s[0] == '/' then [""] + rest
      else [[s[0]] + rest[0]] + rest[1..]
  }

  /** No segment of a split holds a '/'. */
  lemma {:induction false} SplitSegmentsNoSlash(s: string)
    ensures forall k :: 0 <= k < |Split(s)| ==> '/' !in Split(s)[k]
  {
    if s != [] {
      SplitSegmentsNoSlash(s[1..]);
      var rest := Split(s[1..]);
      if s[0] != '/' {
        assert '/' !in [s[0]] + rest[0];
      }
    }
  }

  /** Python's `"/".join(segs)`. */
  function Join(segs: seq<string>): string
  {
    if |segs| == 0 then ""
    else if |segs| == 1 then segs[0]
    else segs[0] + "/" + Join(segs[1..])
  }

  /** Joining the pieces of a split gives back the original string. */
  lemma {:induction false} JoinSplit(s: string)
    ensures Join(Split(s)) == s
  {
    if s != [] {
      var rest := Split(s[1..]);
      JoinSplit(s[1..]);
      if s[0] == '/' {
        assert Split(s) == [""] + rest;
        assert Join(Split(s)) == "" + "/" + Join(rest);
      } else {
        var segs := [[s[0]] + rest[0]] + rest[1..];
        assert Split(s) == segs;
        if |rest| == 1 {
          assert Join(segs) == [s[0]] + rest[0];
        } else {
          assert segs[1..] == rest[1..];
          assert Join(segs) == [s[0]] + rest[0] + "/" + Join(rest[1..]);
          assert Join(rest) == rest[0] + "/" + Join(rest[1..]);
        }
        assert [s[0]] + s[1..] == s;
      }
    }
  }

  /** A string without '/' splits into itself. */
  lemma {:induction false} SplitNoSlash(a: string)
    requires '/' !in a
    ensures Split(a) == [a]
  {
    if a != [] {
      SplitNoSlash(a[1..]);
      assert [a[0]] + a[1..] == a;
    }
  }

  /** Splitting `a + "/" + t` with `a` free of '/' peels `a` off first. */
  lemma {:induction false} SplitCons(a: string, t: string)
    requires '/' !in a
    ensures Split(a + "/" + t) == [a] + Split(t)
  {
    var s := a + "/" + t;
    if a == [] {
      assert s[0] == '/' && s[1..] == t;
    } else {
      assert s[0] == a[0] && s[1..] == a[1..] + "/" + t;
      SplitCons(a[1..], t);
      assert [a[0]] + a[1..] == a;
    }
  }

  /** Splitting a join of slash-free segments gives back the segments. */
  lemma {:induction false} SplitJoin(segs: seq<string>)
    requires |segs| >= 1
    requires forall k :: 0 <= k < |segs| ==> '/' !in segs[k]
    ensures Split(Join(segs)) == segs
  {
    if |segs| == 1 {
      SplitNoSlash(segs[0]);
    } else {
      SplitJoin(segs[1..]);
      SplitCons(segs[0], Join(segs[1..]));
      assert [segs[0]] + segs[1..] == segs;
    }
  }

  /** Joining the first `k` segments gives a prefix of joining them all. */
  lemma {:induction false} JoinPrefix(segs: seq<string>, k: nat)
    requires 1 <= k <= |segs|
    ensures Join(segs[..k]) <= Join(segs)
  {
    if k == |segs| {
      assert segs[..k] == segs;
    } else {
      if k == 1 {
        assert segs[..k] == [segs[0]];
        assert Join(segs) == segs[0] + ("/" + Join(segs[1..]));
      } else {
        JoinPrefix(segs[1..], k - 1);
        assert segs[..k][1..] == segs[1..][..k - 1];
        var p := Join(segs[1..][..k - 1]);
        var q := Join(segs[1..]);
        assert Join(segs[..k]) == segs[0] + "/" + p;
        assert Join(segs) == segs[0] + "/" + q;
        assert p <= q;
        assert q == p + q[|p|..];
        assert Join(segs) == (segs[0] + "/" + p) + q[|p|..];
      }
    }
  }

  /* ---------- str.isnumeric() ---------- */

  /** `s.isnumeric()`, restricted to ASCII digits: non-empty, digits only. */
  predicate IsNumeric(s: string)
  {
    |s| > 0 && forall k :: 0 <= k < |s| ==> '0' <= s[k] <= '9'
  }

  /* ---------- pat in text ---------- */

  /** Python's `pat in text`: `pat` occurs somewhere in `text`. */
  predicate Contains(text: string, pat: string)
  {
    exists i :: 0 <= i <= |text| && pat <= text[i..]
  }

  /* ---------- str.splitlines() ---------- */

  /** The characters Python's `str.splitlines()` treats as line boundaries. */
  predicate IsLineBreak(c: char)
  {
    c == '\n' || c == '\r' || c == '\U{000B}' || c == '\U{000C}' || c == '\U{001C}'
    || c == '\U{001D}' || c == '\U{001E}' || c == '\U{0085}' || c == '\U{2028}' || c == '\U{2029}'
  }

  predicate NoLineBreak(s: string)
  {
    forall k :: 0 <= k < |s| ==> !IsLineBreak(s[k])
  }

  /**
   * Splits `s` at line boundaries, `cur` being the part of the current line
   * already read. "\r\n" is one boundary; a final boundary opens no new line.
   */
  function SplitLinesFrom(s: string, cur: string): (lines: seq<string>)
    requires NoLineBreak(cur)
    ensures forall k :: 0 <= k < |lines| ==> NoLineBreak(lines[k])
    decreases |s|
  {
    if s == [] then (if cur == [] then [] else [cur])
    else if s[0] == '\r' && |s| > 1 && s[1] == '\n' then [cur] + SplitLinesFrom(s[2..], [])
    else if IsLineBreak(s[0]) then [cur] + SplitLinesFrom(s[1..], [])
    else SplitLinesFrom(s[1..], cur + [s[0]])
  }

  /** Python's `s.splitlines()`. */
  function SplitLines(s: string): (lines: seq<string>)
    ensures forall k :: 0 <= k < |lines| ==> NoLineBreak(lines[k])
  {
    SplitLinesFrom(s, [])
  }

  /** A break-free line terminated by "\n" is read as one line. */
  lemma {:induction false} SplitLinesLine(cur: string, u: string, t: string)
    requires NoLineBreak(cur) && NoLineBreak(u)
    ensures SplitLinesFrom(u + "\n" + t, cur) == [cur + u] + SplitLinesFrom(t, [])
    decreases |u|
  {
    var s := u + "\n" + t;
    if u == [] {
      assert s[0] == '\n' && s[1..] == t;
      assert cur + u == cur;
    } else {
      assert s[0] == u[0] && !IsLineBreak(u[0]);
      assert s[1..] == u[1..] + "\n" + t;
      SplitLinesLine(cur + [u[0]], u[1..], t);
      assert cur + [u[0]] + u[1..] == cur + u;
    }
  }

  /** Text ending in "\n" is read to its end before whatever follows it. */
  lemma {:induction false} SplitLinesAfterNewline(t: string, w: string, cur: string)
    requires NoLineBreak(cur)
    requires |t| > 0 && t[|t| - 1] == '\n'
    ensures SplitLinesFrom(t + w, cur) == SplitLinesFrom(t, cur) + SplitLinesFrom(w, [])
    decreases |t|
  {
    var s := t + w;
    assert s[0] == t[0];
    if t[0] == '\r' && |t| > 1 && t[1] == '\n' {
      assert s[1] == t[1] && s[2..] == t[2..] + w;
      if |t| > 2 {
        SplitLinesAfterNewline(t[2..], w, []);
      } else {
        assert t[2..] == [];
      }
    } else if IsLineBreak(t[0]) {
      assert !(s[0] == '\r' && |s| > 1 && s[1] == '\n');
      assert s[1..] == t[1..] + w;
      if |t| > 1 {
        SplitLinesAfterNewline(t[1..], w, []);
      } else {
        assert t[1..] == [];
      }
    } else {
      assert |t| > 1;
      assert s[1..] == t[1..] + w;
      SplitLinesAfterNewline(t[1..], w, cur + [t[0]]);
    }
  }
}
