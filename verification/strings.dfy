/**
 * The parts of Python's `str` API that the session parser relies on:
 * `in` on substrings, `split(sep)`, `rsplit(sep, 1)`, `strip()` and `rstrip(chars)`.
 * Python strings are sequences of code points, like Dafny's `string`.
 */
module Strings {
  import opened Wrappers

  /** The characters for which Python's `str.isspace()` holds; `strip()` with no argument removes these. */
  const Whitespace: set<char> := {
    '\U{9}', '\U{A}', '\U{B}', '\U{C}', '\U{D}',
    '\U{1C}', '\U{1D}', '\U{1E}', '\U{1F}', ' ',
    '\U{85}', '\U{A0}', '\U{1680}',
    '\U{2000}', '\U{2001}', '\U{2002}', '\U{2003}', '\U{2004}', '\U{2005}',
    '\U{2006}', '\U{2007}', '\U{2008}', '\U{2009}', '\U{200A}',
    '\U{2028}', '\U{2029}', '\U{202F}', '\U{205F}', '\U{3000}'
  }

  // ---------------------------------------------------------------------------
  // rstrip / lstrip / strip

  /** The length of what is left of `s[..to]` once trailing characters of `chars` are cut. */
  function TrailingStart(s: string, chars: set<char>, to: nat): (n: nat)
    requires to <= |s|
    ensures n <= to
    ensures n == 0 || s[n - 1] !in chars
    ensures forall i :: n <= i < to ==> s[i] in chars
  {
    if 0 < to && s[to - 1] in chars then TrailingStart(s, chars, to - 1) else to
  }

  /** The index of the first character at or after `from` that is not one of `chars`. */
  function LeadingEnd(s: string, chars: set<char>, from: nat): (n: nat)
    requires from <= |s|
    ensures from <= n <= |s|
    ensures n == |s| || s[n] !in chars
    ensures forall i :: from <= i < n ==> s[i] in chars
    decreases |s| - from
  {
    if from < |s| && s[from] in chars then LeadingEnd(s, chars, from + 1) else from
  }

  /** `s.rstrip(chars)`: the longest prefix of `s` that does not end in one of `chars`. */
  function RStrip(s: string, chars: set<char>): (r: string)
    ensures |r| <= |s| && r == s[..|r|]
    ensures r == [] || r[|r| - 1] !in chars
    ensures forall i :: |r| <= i < |s| ==> s[i] in chars
  {
    s[..TrailingStart(s, chars, |s|)]
  }

  /** Neither end of `s` is one of `chars`. */
  predicate IsStripped(s: string, chars: set<char>) {
    s == [] || (s[0] !in chars && s[|s| - 1] !in chars)
  }

  /** `s.strip(chars)`: both ends cut; `Strip(s, Whitespace)` is `s.strip()`. */
  function Strip(s: string, chars: set<char>): (r: string)
    ensures IsStripped(r, chars)
    ensures |r| <= |s|
  {
    var n := LeadingEnd(s, chars, 0);
    var m := TrailingStart(s, chars, |s|);
    if m <= n then [] else s[n..m]
  }

  /**
   * What `Strip` keeps is one stretch of `s`: everything before it and everything after
   * it is in `chars`, and it is empty only when every character of `s` is.
   */
  lemma StripCuts(s: string, chars: set<char>)
    ensures var r := Strip(s, chars);
            var n := LeadingEnd(s, chars, 0);
            && n + |r| <= |s| && r == s[n..n + |r|]
            && (forall i :: 0 <= i < n ==> s[i] in chars)
            && (forall i :: n + |r| <= i < |s| ==> s[i] in chars)
            && (r == [] <==> forall i :: 0 <= i < |s| ==> s[i] in chars)
  {
    var n := LeadingEnd(s, chars, 0);
    var m := TrailingStart(s, chars, |s|);
    if n < m {
      assert s[n] !in chars;
    } else {
      assert forall i :: 0 <= i < |s| ==> s[i] in chars by {
        forall i | 0 <= i < |s| ensures s[i] in chars {
          if i >= n { assert m <= i; }
        }
      }
    }
  }

  /** Stripping what is already stripped changes nothing, so `Strip` is idempotent. */
  lemma StripOfStripped(s: string, chars: set<char>)
    requires IsStripped(s, chars)
    ensures Strip(s, chars) == s
  {
    assert LeadingEnd(s, chars, 0) == 0;
    assert TrailingStart(s, chars, |s|) == |s|;
  }

  lemma StripIdempotent(s: string, chars: set<char>)
    ensures Strip(Strip(s, chars), chars) == Strip(s, chars)
  {
    StripOfStripped(Strip(s, chars), chars);
  }

  /** Appending one character of `chars` does not change what `rstrip` keeps. */
  lemma RStripAppended(s: string, c: char, chars: set<char>)
    requires c in chars
    requires s == [] || s[|s| - 1] !in chars
    ensures RStrip(s + [c], chars) == s
  {
    assert (s + [c])[..|s|] == s;
    assert RStrip(s, chars) == s;
  }

  // ---------------------------------------------------------------------------
  // substring search

  /** `pat` occurs in `s` starting at index `i`. */
  predicate OccursAt(s: string, pat: string, i: int) {
    0 <= i && i + |pat| <= |s| && s[i..i + |pat|] == pat
  }

  /** Python's `pat in s`. */
  predicate Contains(s: string, pat: string) {
    exists i | 0 <= i <= |s| :: OccursAt(s, pat, i)
  }

  /** Every character of an occurrence is the corresponding character of the pattern. */
  lemma OccursAtChar(s: string, pat: string, i: int, k: int)
    requires OccursAt(s, pat, i) && 0 <= k < |pat|
    ensures s[i + k] == pat[k]
  {
    assert s[i..i + |pat|][k] == s[i + k];
  }

  /** One mismatching character rules out an occurrence. */
  lemma NotOccursAt(s: string, pat: string, i: int, k: int)
    requires 0 <= k < |pat|
    requires 0 <= i + k < |s| ==> s[i + k] != pat[k]
    ensures !OccursAt(s, pat, i)
  {
    if OccursAt(s, pat, i) {
      OccursAtChar(s, pat, i, k);
    }
  }

  /** An occurrence inside a prefix is an occurrence in the whole string, and back. */
  lemma OccursInPrefix(s: string, pat: string, n: int, i: int)
    requires 0 <= n <= |s| && i + |pat| <= n
    ensures OccursAt(s[..n], pat, i) <==> OccursAt(s, pat, i)
  {
    if 0 <= i {
      assert s[..n][i..i + |pat|] == s[i..i + |pat|];
    }
  }

  /** An occurrence inside a suffix `s[n..]` is an occurrence in `s`, shifted by `n`. */
  lemma OccursInSuffix(s: string, pat: string, n: int, i: int)
    requires 0 <= n <= |s|
    ensures OccursAt(s[n..], pat, i) <==> (0 <= i && OccursAt(s, pat, n + i))
  {
    if 0 <= i && i + |pat| <= |s| - n {
      assert s[n..][i..i + |pat|] == s[n + i..n + i + |pat|];
    }
  }

  /** The leftmost index at or after `from` where `pat` occurs, as `str.find(pat, from)` finds it. */
  function FirstOccurrenceFrom(s: string, pat: string, from: nat): (r: Option<nat>)
    requires pat != []
    ensures r.Some? ==> from <= r.value && OccursAt(s, pat, r.value)
    ensures r.Some? ==> forall j :: from <= j < r.value ==> !OccursAt(s, pat, j)
    ensures r.None? ==> forall j :: from <= j ==> !OccursAt(s, pat, j)
    decreases |s| - from
  {
    if |s| < from + |pat| then None
    else if OccursAt(s, pat, from) then Some(from)
    else FirstOccurrenceFrom(s, pat, from + 1)
  }

  /** The rightmost index below `end` where `pat` occurs. */
  function LastOccurrenceBefore(s: string, pat: string, end: nat): (r: Option<nat>)
    ensures r.Some? ==> r.value < end && OccursAt(s, pat, r.value)
    ensures r.Some? ==> forall j :: r.value < j < end ==> !OccursAt(s, pat, j)
    ensures r.None? ==> forall j :: j < end ==> !OccursAt(s, pat, j)
    decreases end
  {
    if end == 0 then None
    else if OccursAt(s, pat, end - 1) then Some(end - 1)
    else LastOccurrenceBefore(s, pat, end - 1)
  }

  /** The rightmost occurrence of `pat` in `s`, the one `s.rsplit(pat, 1)` cuts at. */
  function LastOccurrence(s: string, pat: string): (r: Option<nat>)
    ensures r.Some? ==> OccursAt(s, pat, r.value) && forall j :: r.value < j ==> !OccursAt(s, pat, j)
    ensures r.None? <==> !Contains(s, pat)
  {
    LastOccurrenceBefore(s, pat, |s| + 1)
  }

  // ---------------------------------------------------------------------------
  // split / join

  /** `sep.join(parts)`. */
  function Join(parts: seq<string>, sep: string): string
  {
    if |parts| == 0 then []
    else if |parts| == 1 then parts[0]
    else parts[0] + sep + Join(parts[1..], sep)
  }

  /**
   * `s.split(sep)`: cut at every leftmost, non-overlapping occurrence of `sep`.
   * The pieces join back to `s`, no piece contains the separator, and no separator
   * starts inside any piece but the last (each cut is the first occurrence left).
   */
  function Split(s: string, sep: string): (parts: seq<string>)
    requires sep != []
    ensures |parts| >= 1
    ensures Join(parts, sep) == s
    ensures forall i :: 0 <= i < |parts| ==> !Contains(parts[i], sep)
    ensures forall i :: 0 <= i < |parts| - 1 ==> SeparatorFree(parts[i], sep)
    decreases |s|
  {
    match FirstOccurrenceFrom(s, sep, 0)
    case None => [s]
    case Some(i) =>
      var head, rest := s[..i], Split(s[i + |sep|..], sep);
      forall j | 0 <= j <= |head| ensures !OccursAt(head, sep, j) {
        if j + |sep| <= i { OccursInPrefix(s, sep, i, j); }
      }
      assert s == head + sep + s[i + |sep|..];
      assert SeparatorFree(head, sep) by {
        assert head + sep == s[..i + |sep|];
        forall j | 0 <= j < |head| ensures !OccursAt(head + sep, sep, j) {
          OccursInPrefix(s, sep, i + |sep|, j);
        }
      }
      [head] + rest
  }

  /**
   * No occurrence of `sep` starts inside `p`, not even one that runs on into a
   * separator written after `p`.
   */
  predicate SeparatorFree(p: string, sep: string) {
    forall j :: 0 <= j < |p| ==> !OccursAt(p + sep, sep, j)
  }

  /** Splitting what was joined from separator-free pieces gives the pieces back. */
  lemma {:induction false} SplitJoin(parts: seq<string>, sep: string)
    requires sep != [] && parts != []
    requires forall i :: 0 <= i < |parts| ==> SeparatorFree(parts[i], sep)
    ensures Split(Join(parts, sep), sep) == parts
  {
    var p := parts[0];
    assert SeparatorFree(p, sep);
    if |parts| == 1 {
      forall j | 0 <= j ensures !OccursAt(p, sep, j) {
        if j + |sep| <= |p| {
          OccursInPrefix(p + sep, sep, |p|, j);
          assert (p + sep)[..|p|] == p;
        }
      }
      assert FirstOccurrenceFrom(p, sep, 0).None?;
    } else {
      var rest := Join(parts[1..], sep);
      var s := p + sep + rest;
      assert OccursAt(s, sep, |p|) by {
        assert s[|p|..|p| + |sep|] == sep;
      }
      forall j | 0 <= j < |p| ensures !OccursAt(s, sep, j) {
        OccursInPrefix(s, sep, |p| + |sep|, j);
        assert s[..|p| + |sep|] == p + sep;
      }
      assert FirstOccurrenceFrom(s, sep, 0) == Some(|p|);
      assert s[|p| + |sep|..] == rest;
      SplitJoin(parts[1..], sep);
    }
  }
}
