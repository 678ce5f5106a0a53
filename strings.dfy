/**
 * The Python `str` built-ins the filler relies on: `in`, `find`, `rfind`,
 * `strip`/`lstrip`/`rstrip` with a character set, and `replace`.
 */
module Strings {

  /** `pat` occurs in `s` starting at index `i`. */
  predicate OccursAt(s: string, pat: string, i: int) {
    0 <= i && i + |pat| <= |s| && s[i..i + |pat|] == pat
  }

  /** Python's `pat in s` on strings. */
  predicate Contains(s: string, pat: string) {
    exists i :: 0 <= i <= |s| - |pat| && OccursAt(s, pat, i)
  }

  /** No occurrence of `pat` starts at an index in [from, to). */
  predicate NoneBetween(s: string, pat: string, from: int, to: int) {
    forall j :: from <= j < to ==> !OccursAt(s, pat, j)
  }

  /** Every character of `s` is in `cs`. */
  predicate AllIn(s: string, cs: set<char>) {
    forall i :: 0 <= i < |s| ==> s[i] in cs
  }

  /** `s.find(pat, from)`: the first occurrence at or after `from`, or -1. */
  function FindFrom(s: string, pat: string, from: nat): (r: int)
    requires from <= |s|
    ensures r == -1 || from <= r <= |s| - |pat|
    decreases |s| - from
  {
    if from + |pat| > |s| then -1
    else if s[from..from + |pat|] == pat then from
    else FindFrom(s, pat, from + 1)
  }

  /** find from `from` gives an occurrence with none before it, or -1 when there is none at all. */
  lemma {:induction false} FindFromFirst(s: string, pat: string, from: nat)
    requires from <= |s|
    ensures var r := FindFrom(s, pat, from);
      && (r == -1 || OccursAt(s, pat, r))
      && NoneBetween(s, pat, from, if r == -1 then |s| + 1 else r)
    decreases |s| - from
  {
    if from + |pat| <= |s| && s[from..from + |pat|] != pat {
      FindFromFirst(s, pat, from + 1);
    }
  }

  /** `s.find(pat)`: the index of the first occurrence of `pat`, or -1 when there is none. */
  function Find(s: string, pat: string): (r: int)
    ensures r == -1 || 0 <= r <= |s| - |pat|
  {
    FindFrom(s, pat, 0)
  }

  /** find gives -1 exactly when the pattern does not occur, and otherwise its first occurrence. */
  lemma FindFirst(s: string, pat: string)
    ensures Find(s, pat) == -1 <==> !Contains(s, pat)
    ensures Find(s, pat) != -1 ==> OccursAt(s, pat, Find(s, pat)) && NoneBetween(s, pat, 0, Find(s, pat))
  {
    FindFromFirst(s, pat, 0);
  }

  /** `s.rfind(c)`: the index of the last `c` in `s`, or -1 when there is none. */
  function RFind(s: string, c: char): (r: int)
    ensures -1 <= r < |s|
    ensures r >= 0 ==> s[r] == c
    ensures forall j :: r < j < |s| ==> s[j] != c
  {
    if |s| == 0 then -1
    else if s[|s| - 1] == c then |s| - 1
    else RFind(s[..|s| - 1], c)
  }

  /** `s.lstrip(chars)`. */
  function LStrip(s: string, cs: set<char>): (r: string)
    ensures |r| <= |s| && r == s[|s| - |r|..]
    ensures AllIn(s[..|s| - |r|], cs)
    ensures r == [] || r[0] !in cs
  {
    if |s| > 0 && s[0] in cs then
      var r := LStrip(s[1..], cs);
      assert s[1..][|s| - 1 - |r|..] == s[|s| - |r|..];
      assert forall i :: 1 <= i < |s| - |r| ==> s[i] == s[1..][..|s| - 1 - |r|][i - 1];
      r
    else
      s
  }

  /** `s.rstrip(chars)`. */
  function RStrip(s: string, cs: set<char>): (r: string)
    ensures |r| <= |s| && r == s[..|r|]
    ensures AllIn(s[|r|..], cs)
    ensures r == [] || r[|r| - 1] !in cs
  {
    if |s| > 0 && s[|s| - 1] in cs then
      var r := RStrip(s[..|s| - 1], cs);
      assert s[..|s| - 1][..|r|] == s[..|r|];
      assert forall i :: |r| <= i < |s| - 1 ==> s[i] == s[..|s| - 1][|r|..][i - |r|];
      r
    else
      s
  }

  /** `s.strip(chars)`: drop the leading and the trailing characters that are in `cs`. */
  function Strip(s: string, cs: set<char>): (r: string)
    ensures |r| <= |s|
    ensures r == [] || (r[0] !in cs && r[|r| - 1] !in cs)
  {
    RStrip(LStrip(s, cs), cs)
  }

  /** `s.replace(pat, rep)`: every non-overlapping occurrence, scanned left to right. */
  function Replace(s: string, pat: string, rep: string): string
    requires |pat| > 0
    decreases |s|
  {
    if |s| < |pat| then s
    else if OccursAt(s, pat, 0) then rep + Replace(s[|pat|..], pat, rep)
    else [s[0]] + Replace(s[1..], pat, rep)
  }

  /** lstrip removes exactly a leading run of `cs` characters and nothing else. */
  lemma {:induction false} LStripExact(a: string, k: string, cs: set<char>)
    requires AllIn(a, cs)
    requires k == [] || k[0] !in cs
    ensures LStrip(a + k, cs) == k
  {
    if a == [] {
      assert a + k == k;
      if k != [] {
        assert LStrip(k, cs) == k;
      }
    } else {
      assert (a + k)[0] == a[0];
      assert (a + k)[1..] == a[1..] + k;
      LStripExact(a[1..], k, cs);
    }
  }

  /** rstrip removes exactly a trailing run of `cs` characters and nothing else. */
  lemma {:induction false} RStripExact(k: string, b: string, cs: set<char>)
    requires AllIn(b, cs)
    requires k == [] || k[|k| - 1] !in cs
    ensures RStrip(k + b, cs) == k
  {
    if b == [] {
      assert k + b == k;
      if k != [] {
        assert RStrip(k, cs) == k;
      }
    } else {
      var s := k + b;
      assert s[|s| - 1] == b[|b| - 1];
      assert s[..|s| - 1] == k + b[..|b| - 1];
      RStripExact(k, b[..|b| - 1], cs);
    }
  }

  /** strip gives back `k` from `k` padded on both sides by characters of `cs`. */
  lemma StripExact(a: string, k: string, b: string, cs: set<char>)
    requires AllIn(a, cs) && AllIn(b, cs)
    requires k == [] || (k[0] !in cs && k[|k| - 1] !in cs)
    ensures Strip(a + k + b, cs) == k
  {
    assert a + k + b == a + (k + b);
    if k == [] {
      assert k + b == b;
      LStripExact(a + b, [], cs);
      assert a + k + b == (a + b) + [];
      RStripExact([], [], cs);
    } else {
      assert (k + b)[0] == k[0];
      LStripExact(a, k + b, cs);
      RStripExact(k, b, cs);
    }
  }

  /** replace leaves a string without any occurrence of the pattern untouched. */
  lemma {:induction false} ReplaceNoOccurrence(s: string, pat: string, rep: string)
    requires |pat| > 0
    requires !Contains(s, pat)
    ensures Replace(s, pat, rep) == s
    decreases |s|
  {
    if |s| >= |pat| {
      assert !OccursAt(s, pat, 0);
      assert !Contains(s[1..], pat) by {
        forall i | 0 <= i <= |s[1..]| - |pat|
          ensures !OccursAt(s[1..], pat, i)
        {
          assert s[1..][i..i + |pat|] == s[i + 1..i + 1 + |pat|];
          assert !OccursAt(s, pat, i + 1);
        }
      }
      ReplaceNoOccurrence(s[1..], pat, rep);
      assert [s[0]] + s[1..] == s;
    }
  }

  /** Where the pattern starts at 0, replace substitutes it and carries on after it. */
  lemma ReplaceAtStart(s: string, pat: string, rep: string)
    requires |pat| > 0 && OccursAt(s, pat, 0)
    ensures Replace(s, pat, rep) == rep + Replace(s[|pat|..], pat, rep)
  {
  }

  /**
   * Text in which the pattern's first character never appears is kept
   * unchanged in front of whatever replace makes of the rest.
   */
  lemma {:induction false} ReplaceKeepsPrefix(a: string, b: string, pat: string, rep: string)
    requires |pat| > 0
    requires forall i :: 0 <= i < |a| ==> a[i] != pat[0]
    ensures Replace(a + b, pat, rep) == a + Replace(b, pat, rep)
    decreases |a|
  {
    if a == [] {
      assert [] + b == b;
    } else {
      var s := a + b;
      if |s| < |pat| {
        assert Replace(b, pat, rep) == b;
      } else {
        assert s[0] == a[0];
        assert !OccursAt(s, pat, 0) by {
          assert s[0..|pat|][0] != pat[0];
        }
        assert s[1..] == a[1..] + b;
        ReplaceKeepsPrefix(a[1..], b, pat, rep);
        assert [a[0]] + a[1..] == a;
      }
    }
  }
}
