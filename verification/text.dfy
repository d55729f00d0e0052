/**
 * The handful of Python `str` operations the summariser relies on:
 * `pat in s`, `s.split(sep)`, `sep.join(parts)`, `s.strip()` and `c * n`.
 * Strings are sequences of Unicode scalar values, as Python's are of code points.
 */
module Text {
  import opened Options

  /** `pat` occurs in `s` starting at index `i`. */
  predicate OccursAt(s: string, pat: string, i: int) {
    0 <= i && i + |pat| <= |s| && s[i..i + |pat|] == pat
  }

  /** No occurrence of `pat` in `s` starts at an index in `[lo, hi)`. */
  predicate NoneStartsIn(s: string, pat: string, lo: int, hi: int) {
    forall j :: lo <= j < hi ==> !OccursAt(s, pat, j)
  }

  /** Leftmost occurrence of `pat` in `s` at or after `from`. */
  function FindFrom(s: string, pat: string, from: nat): (r: Option<nat>)
    requires from <= |s|
    ensures r.Some? ==> from <= r.value && OccursAt(s, pat, r.value) && NoneStartsIn(s, pat, from, r.value)
    ensures r.None? ==> NoneStartsIn(s, pat, from, |s| + 1)
    decreases |s| - from
  {
    if OccursAt(s, pat, from) then Some(from)
    else if from + |pat| >= |s| then None
    else FindFrom(s, pat, from + 1)
  }

  /** Leftmost occurrence of `pat` in `s` (Python's `s.find(pat)`, with None for -1). */
  function Find(s: string, pat: string): (r: Option<nat>)
    ensures r.Some? ==> OccursAt(s, pat, r.value) && NoneStartsIn(s, pat, 0, r.value)
    ensures r.None? ==> NoneStartsIn(s, pat, 0, |s| + 1)
  {
    FindFrom(s, pat, 0)
  }

  /** Python's `pat in s`. */
  predicate Contains(s: string, pat: string) {
    Find(s, pat).Some?
  }

  /** `Contains` is exactly "occurs somewhere". */
  lemma ContainsIff(s: string, pat: string)
    ensures Contains(s, pat) <==> exists i :: OccursAt(s, pat, i)
  {
    if Contains(s, pat) {
      assert OccursAt(s, pat, Find(s, pat).value);
    }
  }

  /**
   * `r` is what precedes the first occurrence of `pat` in `s`, or all of `s`
   * when `pat` does not occur: Python's `s.split(pat)[0]`.
   */
  predicate IsUpTo(s: string, pat: string, r: string) {
    && |r| <= |s|
    && r == s[..|r|]
    && NoneStartsIn(s, pat, 0, |r|)
    && (|r| == |s| || OccursAt(s, pat, |r|))
  }

  /** `IsUpTo` pins its text down: there is only one such prefix. */
  lemma IsUpToUnique(s: string, pat: string, r1: string, r2: string)
    requires IsUpTo(s, pat, r1) && IsUpTo(s, pat, r2)
    ensures r1 == r2
  {
  }

  /** Python's `sep.join(parts)`. */
  function Join(parts: seq<string>, sep: string): string
  {
    if |parts| == 0 then ""
    else if |parts| == 1 then parts[0]
    else parts[0] + sep + Join(parts[1..], sep)
  }

  /** Python's `s.split(sep)` for a non-empty separator. */
  function Split(s: string, sep: string): (r: seq<string>)
    requires |sep| > 0
    ensures |r| >= 1
    ensures IsUpTo(s, sep, r[0])
    ensures |r| >= 2 <==> Contains(s, sep)
    ensures |r| >= 2 ==> OccursAt(s, sep, |r[0]|)
    ensures |r| >= 2 ==> IsUpTo(s[|r[0]| + |sep|..], sep, r[1])
    ensures Join(r, sep) == s
    decreases |s|
  {
    match Find(s, sep)
    case None => [s]
    case Some(i) =>
      var rest := Split(s[i + |sep|..], sep);
      assert s == s[..i] + sep + s[i + |sep|..];
      [s[..i]] + rest
  }

  /** Python's `str.isspace()` for one character: the characters `str.strip()` removes. */
  predicate IsSpace(c: char) {
    || c == ' '
    || ('\t' <= c <= '\r')
    || ('\U{1C}' <= c <= '\U{1F}')
    || c == '\U{85}' || c == '\U{A0}' || c == '\U{1680}'
    || ('\U{2000}' <= c <= '\U{200A}')
    || c == '\U{2028}' || c == '\U{2029}' || c == '\U{202F}' || c == '\U{205F}'
    || c == '\U{3000}'
  }

  predicate AllSpace(s: string) {
    forall i :: 0 <= i < |s| ==> IsSpace(s[i])
  }

  /** Drops leading whitespace. */
  function LStrip(s: string): (r: string)
    ensures |r| <= |s| && r == s[|s| - |r|..]
    ensures AllSpace(s[..|s| - |r|])
    ensures |r| > 0 ==> !IsSpace(r[0])
    decreases |s|
  {
    if |s| > 0 && IsSpace(s[0]) then LStrip(s[1..]) else s
  }

  /** Drops trailing whitespace. */
  function RStrip(s: string): (r: string)
    ensures |r| <= |s| && r == s[..|r|]
    ensures AllSpace(s[|r|..])
    ensures |r| > 0 ==> !IsSpace(r[|r| - 1])
    decreases |s|
  {
    if |s| > 0 && IsSpace(s[|s| - 1]) then RStrip(s[..|s| - 1]) else s
  }

  /** Python's `s.strip()`: `s` minus its leading and trailing whitespace. */
  function Strip(s: string): (r: string)
    ensures |r| <= |s|
    ensures |r| > 0 ==> !IsSpace(r[0]) && !IsSpace(r[|r| - 1])
    ensures |r| == 0 <==> AllSpace(s)
  {
    RStrip(LStrip(s))
  }

  /** `r` is `s` with the whitespace `s[..a]` and `s[a + |r|..]` cut off both ends. */
  ghost predicate StrippedAt(s: string, r: string, a: int) {
    && 0 <= a <= |s| - |r|
    && s[a..a + |r|] == r
    && AllSpace(s[..a])
    && AllSpace(s[a + |r|..])
  }

  /** `Strip` removes whitespace from the two ends and nothing else. */
  lemma StripRemovesOnlyEnds(s: string)
    ensures exists a :: StrippedAt(s, Strip(s), a)
  {
    var l := LStrip(s);
    var r := RStrip(l);
    var a := |s| - |l|;
    assert s[a..a + |r|] == r;
    assert s[a + |r|..] == l[|r|..];
    assert r == Strip(s);
    assert AllSpace(s[a + |r|..]);
    assert StrippedAt(s, r, a);
  }

  /** Stripping twice is stripping once. */
  lemma StripIdempotent(s: string)
    ensures Strip(Strip(s)) == Strip(s)
  {
    var r := Strip(s);
    assert LStrip(r) == r;
    assert RStrip(r) == r;
  }

  /** Python's `c * n` for a one-character `c`: `n` copies, none at all when `n <= 0`. */
  function Repeat(c: char, n: int): (r: string)
    ensures |r| == if n <= 0 then 0 else n
    ensures forall i :: 0 <= i < |r| ==> r[i] == c
    decreases n
  {
    if n <= 0 then "" else Repeat(c, n - 1) + [c]
  }

  /** A word that has a character absent from `text` does not occur in it. */
  lemma MissingCharNotContained(text: string, w: string, j: nat)
    requires j < |w| && w[j] !in text
    ensures !Contains(text, w)
  {
    ContainsIff(text, w);
    forall i | 0 <= i && i + |w| <= |text| ensures !OccursAt(text, w, i) {
      assert text[i..i + |w|][j] == text[i + j];
    }
  }

  /** An occurrence inside a prefix is an occurrence in the whole string. */
  lemma PrefixOccurrence(s: string, r: string, pat: string, j: int)
    requires |r| <= |s| && r == s[..|r|] && OccursAt(r, pat, j)
    ensures OccursAt(s, pat, j)
  {
    assert s[j..j + |pat|] == r[j..j + |pat|];
  }

  /** The text before the first occurrence of a non-empty `pat` does not contain `pat`. */
  lemma UpToExcludes(s: string, pat: string, r: string)
    requires |pat| > 0 && IsUpTo(s, pat, r)
    ensures !Contains(r, pat)
  {
    ContainsIff(r, pat);
    forall j | OccursAt(r, pat, j) ensures false {
      PrefixOccurrence(s, r, pat, j);
    }
  }

  /** A text without the character `c` splits on `c` into itself alone. */
  lemma SplitWithout(s: string, c: char)
    requires c !in s
    ensures Split(s, [c]) == [s]
  {
    MissingCharNotContained(s, [c], 0);
  }

  /** In `p + [c] + rest` with `c` not in `p`, the first `c` is the one after `p`. */
  lemma FirstSeparator(p: string, c: char, rest: string)
    requires c !in p
    ensures Find(p + [c] + rest, [c]) == Some(|p|)
  {
    var s := p + [c] + rest;
    assert OccursAt(s, [c], |p|) by { assert s[|p|..|p| + 1] == [c]; }
    forall j | 0 <= j < |p| ensures !OccursAt(s, [c], j) {
      assert s[j..j + 1][0] == s[j] == p[j];
    }
  }

  /** Splitting `p + [c] + rest` on `c`, with `c` not in `p`, yields `p` and then the pieces of `rest`. */
  lemma SplitStep(p: string, c: char, rest: string)
    requires c !in p
    ensures Split(p + [c] + rest, [c]) == [p] + Split(rest, [c])
  {
    var s := p + [c] + rest;
    FirstSeparator(p, c, rest);
    assert s[..|p|] == p;
    assert s[|p| + 1..] == rest;
  }

  /**
   * `s.split(c)` undoes `c.join(lines)` for a one-character separator that no
   * line contains: the joined text reads back as the same lines.
   */
  lemma {:induction false} SplitJoin(lines: seq<string>, c: char)
    requires |lines| >= 1
    requires forall k :: 0 <= k < |lines| ==> c !in lines[k]
    ensures Split(Join(lines, [c]), [c]) == lines
    decreases |lines|
  {
    if |lines| == 1 {
      SplitWithout(lines[0], c);
    } else {
      var rest := Join(lines[1..], [c]);
      assert Join(lines, [c]) == lines[0] + [c] + rest;
      SplitStep(lines[0], c, rest);
      SplitJoin(lines[1..], c);
      assert lines == [lines[0]] + lines[1..];
    }
  }

  /** Where line `k` starts in `sep.join(lines)`: after each earlier line and its separator. */
  function LineStart(lines: seq<string>, sep: string, k: nat): nat
    requires k <= |lines|
  {
    if k == 0 then 0 else LineStart(lines, sep, k - 1) + |lines[k - 1]| + |sep|
  }

  /** Dropping the first line moves every later line's start back by that line and one separator. */
  lemma {:induction false} LineStartShift(lines: seq<string>, sep: string, k: nat)
    requires 1 <= k <= |lines|
    ensures LineStart(lines, sep, k) == |lines[0]| + |sep| + LineStart(lines[1..], sep, k - 1)
    decreases k
  {
    if k > 1 {
      LineStartShift(lines, sep, k - 1);
      assert lines[1..][k - 2] == lines[k - 1];
    }
  }

  /** An occurrence in `rest` is an occurrence in `a + rest`, shifted by `|a|`. */
  lemma OccursShift(a: string, rest: string, pat: string, i: int)
    requires OccursAt(rest, pat, i)
    ensures OccursAt(a + rest, pat, |a| + i)
  {
    assert (a + rest)[|a| + i..|a| + i + |pat|] == rest[i..i + |pat|];
  }

  /** `a + sep + rest` opens with `a`, and `sep` follows it. */
  lemma HeadLayout(a: string, sep: string, rest: string)
    ensures OccursAt(a + sep + rest, a, 0)
    ensures OccursAt(a + sep + rest, sep, |a|)
  {
    assert (a + sep + rest)[..|a|] == a;
    assert (a + sep + rest)[|a|..|a| + |sep|] == sep;
  }

  /**
   * `sep.join(lines)` lays the lines end to end, whatever they contain: line `k`
   * occurs at `LineStart`, a separator follows every line but the last, and the
   * text ends with the last line.
   */
  lemma {:induction false} JoinLayout(lines: seq<string>, sep: string, k: nat)
    requires k < |lines|
    ensures OccursAt(Join(lines, sep), lines[k], LineStart(lines, sep, k))
    ensures k + 1 < |lines| ==> OccursAt(Join(lines, sep), sep, LineStart(lines, sep, k) + |lines[k]|)
    ensures k + 1 == |lines| ==> |Join(lines, sep)| == LineStart(lines, sep, k) + |lines[k]|
    decreases k
  {
    if |lines| == 1 {
      assert Join(lines, sep)[..|lines[0]|] == lines[0];
    } else {
      var rest := Join(lines[1..], sep);
      assert Join(lines, sep) == lines[0] + sep + rest;
      if k == 0 {
        HeadLayout(lines[0], sep, rest);
      } else {
        JoinLayout(lines[1..], sep, k - 1);
        LineStartShift(lines, sep, k);
        var at := LineStart(lines[1..], sep, k - 1);
        assert lines[1..][k - 1] == lines[k];
        OccursShift(lines[0] + sep, rest, lines[k], at);
        if k + 1 < |lines| {
          OccursShift(lines[0] + sep, rest, sep, at + |lines[k]|);
        }
      }
    }
  }
}
