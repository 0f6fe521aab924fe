/** The few QString and C-string operations the edit session relies on:
    trimming, prefix tests, removal of every occurrence of a marker, and the
    cut at the first NUL that happens when a std::string is passed on as a
    `const char *`. Strings are sequences of Unicode characters. */
module Text {

  /** QChar::isSpace in Qt 4: the ASCII controls TAB..CR and the characters
      of the Unicode categories Zs, Zl and Zp in the Unicode data Qt 4 ships
      (the space, NBSP, U+1680, U+180E, U+2000..U+200A, U+2028, U+2029,
      U+202F, U+205F and U+3000). */
  predicate IsSpace(c: char) {
    c == ' ' || ('\t' <= c <= '\r') || c == '\U{00A0}'
    || c == '\U{1680}' || c == '\U{180E}' || ('\U{2000}' <= c <= '\U{200A}')
    || c == '\U{2028}' || c == '\U{2029}' || c == '\U{202F}' || c == '\U{205F}'
    || c == '\U{3000}'
  }

  predicate AllSpace(s: string) {
    forall k :: 0 <= k < |s| ==> IsSpace(s[k])
  }

  /** `mid` is `s` with the all-space `lead` and `trail` taken off its ends. */
  predicate SpacePadded(s: string, lead: string, mid: string, trail: string) {
    s == lead + mid + trail && AllSpace(lead) && AllSpace(trail)
  }

  /** Neither end of `s` is white space. */
  predicate IsTrimmed(s: string) {
    s == [] || (!IsSpace(s[0]) && !IsSpace(s[|s| - 1]))
  }

  lemma AllSpaceCons(c: char, t: string)
    requires IsSpace(c) && AllSpace(t)
    ensures AllSpace([c] + t)
  {
    forall k | 0 <= k < |[c] + t|
      ensures IsSpace(([c] + t)[k])
    {
      if k > 0 {
        assert ([c] + t)[k] == t[k - 1];
      }
    }
  }

  lemma AllSpaceSnoc(t: string, c: char)
    requires AllSpace(t) && IsSpace(c)
    ensures AllSpace(t + [c])
  {
    forall k | 0 <= k < |t + [c]|
      ensures IsSpace((t + [c])[k])
    {
      if k < |t| {
        assert (t + [c])[k] == t[k];
      }
    }
  }

  function TrimStart(s: string): (r: string)
    ensures |r| <= |s| && r == s[|s| - |r|..]
    ensures AllSpace(s[..|s| - |r|])
    ensures r == [] || !IsSpace(r[0])
    decreases |s|
  {
    if s != [] && IsSpace(s[0]) then
      var r := TrimStart(s[1..]);
      var lead := s[1..][..|s| - 1 - |r|];
      AllSpaceCons(s[0], lead);
      assert s[..|s| - |r|] == [s[0]] + lead;
      assert s[1..][|s| - 1 - |r|..] == s[|s| - |r|..];
      r
    else
      assert s[..0] == [];
      s
  }

  function TrimEnd(s: string): (r: string)
    ensures r <= s
    ensures AllSpace(s[|r|..])
    ensures r == [] || !IsSpace(r[|r| - 1])
    decreases |s|
  {
    if s != [] && IsSpace(s[|s| - 1]) then
      var r := TrimEnd(s[..|s| - 1]);
      var trail := s[..|s| - 1][|r|..];
      AllSpaceSnoc(trail, s[|s| - 1]);
      assert s[|r|..] == trail + [s[|s| - 1]];
      r
    else
      assert s[|s|..] == [];
      s
  }

  /** QString::trimmed: the string without its leading and trailing white
      space. */
  function Trimmed(s: string): (r: string)
    ensures IsTrimmed(r)
    ensures IsTrimmed(s) ==> r == s
  {
    var t := TrimStart(s);
    assert t == [] || !IsSpace(t[0]);
    TrimEnd(t)
  }

  /** A string is its part before a suffix `t`, then a prefix `r` of `t`,
      then the rest of `t`. */
  lemma SplitAroundPrefix(s: string, t: string, r: string)
    requires |t| <= |s| && t == s[|s| - |t|..] && r <= t
    ensures s == s[..|s| - |t|] + r + t[|r|..]
  {
    assert t == r + t[|r|..];
    assert s == s[..|s| - |t|] + s[|s| - |t|..];
  }

  /** The trimmed text is the middle part of `s` around which only white
      space was removed; with IsTrimmed this pins it down. */
  lemma TrimmedIsSpacePadded(s: string)
    ensures exists lead, trail :: SpacePadded(s, lead, Trimmed(s), trail)
  {
    var t := TrimStart(s);
    var r := TrimEnd(t);
    assert Trimmed(s) == r;
    SplitAroundPrefix(s, t, r);
    assert SpacePadded(s, s[..|s| - |t|], r, t[|r|..]);
  }

  /** The trimmed text is a fixed point of trimming. */
  lemma TrimmedIdempotent(s: string)
    ensures Trimmed(Trimmed(s)) == Trimmed(s)
  {
  }

  /** QString::startsWith. */
  predicate StartsWith(s: string, p: string) {
    |p| <= |s| && s[..|p|] == p
  }

  /** `p` occurs somewhere in `s`. */
  predicate Contains(s: string, p: string)
    decreases |s|
  {
    StartsWith(s, p) || (s != [] && Contains(s[1..], p))
  }

  /** QString::remove(const QString &): scanning from the left, every
      occurrence of `p` is cut out and the scan resumes right after it, so
      occurrences that only arise from joining the remaining pieces stay. */
  function RemoveAll(s: string, p: string): (r: string)
    requires p != []
    ensures |r| <= |s|
    decreases |s|
  {
    if |s| < |p| then s
    else if StartsWith(s, p) then RemoveAll(s[|p|..], p)
    else [s[0]] + RemoveAll(s[1..], p)
  }

  lemma {:induction false} ShortNeverContains(s: string, p: string)
    requires |s| < |p|
    ensures !Contains(s, p)
    decreases |s|
  {
    if s != [] {
      ShortNeverContains(s[1..], p);
    }
  }

  /** Removal leaves a string without the marker as it is ... */
  lemma {:induction false} RemoveAllWithout(s: string, p: string)
    requires p != [] && !Contains(s, p)
    ensures RemoveAll(s, p) == s
    decreases |s|
  {
    if |s| >= |p| {
      RemoveAllWithout(s[1..], p);
      assert s == [s[0]] + s[1..];
    }
  }

  /** ... and makes any string that holds the marker strictly shorter. */
  lemma {:induction false} RemoveAllShrinks(s: string, p: string)
    requires p != [] && Contains(s, p)
    ensures |RemoveAll(s, p)| < |s|
    decreases |s|
  {
    if |s| < |p| {
      ShortNeverContains(s, p);
    } else if !StartsWith(s, p) {
      RemoveAllShrinks(s[1..], p);
    }
  }

  /** A leading occurrence is removed and the scan goes on behind it. */
  lemma RemoveAllLeading(p: string, t: string)
    requires p != []
    ensures RemoveAll(p + t, p) == RemoveAll(t, p)
  {
    assert StartsWith(p + t, p);
    assert (p + t)[|p|..] == t;
  }

  /** Removing every occurrence of the marker from the marker followed by `t`
      gives back `t` exactly when `t` does not hold the marker itself. */
  lemma RemoveLeadingRoundTrip(p: string, t: string)
    requires p != []
    ensures RemoveAll(p + t, p) == t <==> !Contains(t, p)
  {
    RemoveAllLeading(p, t);
    if Contains(t, p) {
      RemoveAllShrinks(t, p);
    } else {
      RemoveAllWithout(t, p);
    }
  }

  /** What reaches a QString built from `s.c_str()`: the characters before
      the first NUL. */
  function CString(s: string): (r: string)
    ensures r <= s
    ensures '\0' !in r
    ensures |r| < |s| ==> s[|r|] == '\0'
    decreases |s|
  {
    if s == [] || s[0] == '\0' then []
    else [s[0]] + CString(s[1..])
  }

  /** The cut changes a string exactly when it holds a NUL. */
  lemma CStringKeeps(s: string)
    ensures CString(s) == s <==> '\0' !in s
  {
  }
}
