/** The string operations both route handlers rely on: the `replace(/^@/, "")`
    handle normalisation, substring search (`includes`, the CSS `*=` attribute
    match) and `String.prototype.replace` with a string pattern, which rewrites
    only the first occurrence. */
module Text {
  import opened Wrappers

  /** `s.replace(/^@/, "")`: the regular expression is anchored at the start and
      has no `g` flag, so at most one '@' goes, and only a leading one. */
  function StripLeadingAt(s: string): (r: string)
    ensures r == s || "@" + r == s
    ensures r != s <==> |s| > 0 && s[0] == '@'
  {
    if |s| > 0 && s[0] == '@' then s[1..] else s
  }

  /** `searchParams.get("handle")?.replace(/^@/, "")`: a missing parameter stays missing. */
  function NormaliseHandle(param: Option<string>): (r: Option<string>)
    ensures r.Some? <==> param.Some?
    ensures r.Some? ==> r.value == param.value || "@" + r.value == param.value
    ensures r.Some? ==> (r.value != param.value <==> |param.value| > 0 && param.value[0] == '@')
  {
    match param
    case None => None
    case Some(s) => Some(StripLeadingAt(s))
  }

  /** Prepending one '@' and normalising gives back the handle, whatever it starts with. */
  lemma StripAfterPrepend(h: string)
    ensures StripLeadingAt("@" + h) == h
  {
  }

  /** Only one '@' is dropped: "@@x" becomes "@x". */
  lemma StripOnlyOne(x: string)
    ensures StripLeadingAt("@@" + x) == "@" + x
  {
    assert ("@@" + x)[1..] == "@" + x;
  }

  /** A normalised handle is empty exactly when the raw one was "" or "@". */
  lemma NormalisedEmpty(s: string)
    ensures StripLeadingAt(s) == "" <==> s == "" || s == "@"
  {
    if |s| > 0 && s[0] == '@' && s[1..] == "" {
      assert s == [s[0]] + s[1..];
    }
  }

  /** `pat` occurs in `s` starting at index `i`. */
  predicate OccursAt(s: string, pat: string, i: nat)
  {
    i + |pat| <= |s| && s[i..i + |pat|] == pat
  }

  /** `s.includes(pat)`. */
  predicate Contains(s: string, pat: string)
  {
    exists i: nat | i <= |s| :: OccursAt(s, pat, i)
  }

  /** `i` is the leftmost occurrence of `pat` in `s`. */
  predicate FirstOccurrence(s: string, pat: string, i: nat)
  {
    OccursAt(s, pat, i) && forall j: nat :: j < i ==> !OccursAt(s, pat, j)
  }

  /** Left-to-right search for `pat` from index `k` on. */
  function FindFrom(s: string, pat: string, k: nat): (r: Option<nat>)
    decreases |s| - k
    ensures r.Some? ==> k <= r.value && OccursAt(s, pat, r.value)
    ensures r.Some? ==> forall j: nat :: k <= j < r.value ==> !OccursAt(s, pat, j)
    ensures r.None? ==> forall j: nat :: k <= j ==> !OccursAt(s, pat, j)
  {
    if |s| < k + |pat| then None
    else if s[k..k + |pat|] == pat then Some(k)
    else FindFrom(s, pat, k + 1)
  }

  /** `s.indexOf(pat)`, with `None` for -1. */
  function IndexOf(s: string, pat: string): (r: Option<nat>)
    ensures r.Some? ==> FirstOccurrence(s, pat, r.value)
    ensures r.None? <==> !Contains(s, pat)
  {
    FindFrom(s, pat, 0)
  }

  /** A string that contains `pat` has a leftmost occurrence of it. */
  lemma FirstOccurrenceExists(s: string, pat: string)
    requires Contains(s, pat)
    ensures exists i: nat :: FirstOccurrence(s, pat, i)
  {
    var r := IndexOf(s, pat);
    assert FirstOccurrence(s, pat, r.value);
  }

  /** The leftmost occurrence is unique. */
  lemma FirstOccurrenceUnique(s: string, pat: string, i: nat, j: nat)
    requires FirstOccurrence(s, pat, i) && FirstOccurrence(s, pat, j)
    ensures i == j
  {
  }

  /** `s.replace(pat, rep)` with a string pattern: the first occurrence of `pat`
      is replaced and everything before and after it is kept; a string without
      `pat` is returned unchanged. JavaScript also expands `$&`, `$$`, `` $` ``
      and `$'` inside `rep`; that is not modelled, so this is exact only for a
      `rep` without '$', as the "_400x400" the profile route uses is. */
  function ReplaceFirst(s: string, pat: string, rep: string): (r: string)
    ensures !Contains(s, pat) ==> r == s
    ensures forall i: nat :: FirstOccurrence(s, pat, i) ==> r == s[..i] + rep + s[i + |pat|..]
  {
    match IndexOf(s, pat)
    case None => s
    case Some(i) =>
      assert forall k: nat :: FirstOccurrence(s, pat, k) ==> k == i by {
        forall k: nat | FirstOccurrence(s, pat, k) ensures k == i {
          FirstOccurrenceUnique(s, pat, i, k);
        }
      }
      s[..i] + rep + s[i + |pat|..]
  }

  /** An occurrence is the leftmost one when no earlier position starts with
      the first two characters of `pat`. */
  lemma FirstOccurrenceByLeadingPair(s: string, pat: string, i: nat)
    requires |pat| >= 2 && OccursAt(s, pat, i)
    requires forall j :: 0 <= j < i ==> s[j] != pat[0] || s[j + 1] != pat[1]
    ensures FirstOccurrence(s, pat, i)
  {
    forall j: nat | j < i ensures !OccursAt(s, pat, j) {
      assert s[j..j + |pat|][0] == s[j] && s[j..j + |pat|][1] == s[j + 1];
    }
  }

  /** A string without the first character of `pat` does not contain `pat`. */
  lemma NotContainedByFirstChar(s: string, pat: string)
    requires |pat| > 0
    requires forall j :: 0 <= j < |s| ==> s[j] != pat[0]
    ensures !Contains(s, pat)
  {
    forall j: nat | j <= |s| ensures !OccursAt(s, pat, j) {
      if j + |pat| <= |s| {
        assert s[j..j + |pat|][0] == s[j];
      }
    }
  }

  /** Whatever stood after the replaced occurrence is still there, so later
      occurrences of `pat` survive. */
  lemma ReplaceFirstKeepsSuffix(s: string, pat: string, rep: string, i: nat)
    requires FirstOccurrence(s, pat, i)
    ensures |ReplaceFirst(s, pat, rep)| == |s| - |pat| + |rep|
    ensures ReplaceFirst(s, pat, rep)[i + |rep|..] == s[i + |pat|..]
    ensures ReplaceFirst(s, pat, rep)[..i] == s[..i]
  {
    var r := ReplaceFirst(s, pat, rep);
    assert r == s[..i] + rep + s[i + |pat|..];
    assert r[..i] == s[..i];
    assert r[i + |rep|..] == s[i + |pat|..];
  }
}
