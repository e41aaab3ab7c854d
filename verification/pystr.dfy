/**
 * The Python `str` operations the section extractor is built from:
 * `str.isspace`, `str.strip`, and the leftmost literal occurrence of a
 * pattern, which is where `re.search` places a match whose pattern begins
 * with a literal and whose remainder always succeeds.
 */
module PyStr {
  import opened Wrappers

  /** `c.isspace()` in CPython: bidirectional class WS, B or S, or general category Zs. */
  predicate IsSpace(c: char) {
    || c == '\t' || c == '\n' || c == '\U{000B}' || c == '\U{000C}' || c == '\r'
    || ('\U{001C}' <= c <= '\U{001F}')
    || c == ' ' || c == '\U{0085}' || c == '\U{00A0}' || c == '\U{1680}'
    || ('\U{2000}' <= c <= '\U{200A}')
    || c == '\U{2028}' || c == '\U{2029}' || c == '\U{202F}' || c == '\U{205F}' || c == '\U{3000}'
  }

  /** The first index at or after i that holds no whitespace, or |s|. */
  function SkipSpaces(s: string, i: nat): (a: nat)
    requires i <= |s|
    ensures i <= a <= |s|
    decreases |s| - i
  {
    if i < |s| && IsSpace(s[i]) then SkipSpaces(s, i + 1) else i
  }

  /** `SkipSpaces` passes over whitespace only and stops at the first non-whitespace character. */
  lemma {:induction false} SkipSpacesSpec(s: string, i: nat)
    requires i <= |s|
    ensures SkipSpaces(s, i) < |s| ==> !IsSpace(s[SkipSpaces(s, i)])
    ensures forall k :: i <= k < SkipSpaces(s, i) ==> IsSpace(s[k])
    decreases |s| - i
  {
    if i < |s| && IsSpace(s[i]) {
      SkipSpacesSpec(s, i + 1);
    }
  }

  /** Walking back from j, no further than lo: the first end position not preceded by whitespace. */
  function BackSpaces(s: string, lo: nat, j: nat): (b: nat)
    requires lo <= j <= |s|
    ensures lo <= b <= j
    decreases j
  {
    if lo < j && IsSpace(s[j - 1]) then BackSpaces(s, lo, j - 1) else j
  }

  /** `BackSpaces` passes back over whitespace only and stops after a non-whitespace character. */
  lemma {:induction false} BackSpacesSpec(s: string, lo: nat, j: nat)
    requires lo <= j <= |s|
    ensures lo < BackSpaces(s, lo, j) ==> !IsSpace(s[BackSpaces(s, lo, j) - 1])
    ensures forall k :: BackSpaces(s, lo, j) <= k < j ==> IsSpace(s[k])
    decreases j
  {
    if lo < j && IsSpace(s[j - 1]) {
      BackSpacesSpec(s, lo, j - 1);
    }
  }

  /**
   * s[a..b] is what is left of s once whitespace is stripped from both ends:
   * everything outside it is whitespace and, unless it is empty, it starts and
   * ends with a non-whitespace character.
   */
  ghost predicate StrippedSlice(s: string, a: int, b: int) {
    && 0 <= a <= b <= |s|
    && (forall k :: 0 <= k < a ==> IsSpace(s[k]))
    && (forall k :: b <= k < |s| ==> IsSpace(s[k]))
    && (a < b ==> !IsSpace(s[a]) && !IsSpace(s[b - 1]))
  }

  /** Where the slice kept by `s.strip()` starts. */
  function StripStart(s: string): nat {
    SkipSpaces(s, 0)
  }

  /** Where the slice kept by `s.strip()` ends. */
  function StripEnd(s: string): nat {
    BackSpaces(s, SkipSpaces(s, 0), |s|)
  }

  /** `s.strip()` with no argument: no longer than s, with no whitespace at either end. */
  function Strip(s: string): (r: string)
    ensures |r| <= |s|
    ensures IsStripped(r)
  {
    StripSpec(s);
    s[StripStart(s)..StripEnd(s)]
  }

  /** `strip` keeps exactly the stripped slice of s. */
  lemma StripSpec(s: string)
    ensures StrippedSlice(s, StripStart(s), StripEnd(s))
  {
    SkipSpacesSpec(s, 0);
    BackSpacesSpec(s, SkipSpaces(s, 0), |s|);
  }

  /** No whitespace at either end. */
  predicate IsStripped(s: string) {
    s != [] ==> !IsSpace(s[0]) && !IsSpace(s[|s| - 1])
  }

  /** The stripped slice of a string is unique, so `Strip` is the only way to strip. */
  lemma StripUnique(s: string, a: int, b: int)
    requires StrippedSlice(s, a, b)
    ensures Strip(s) == s[a..b]
  {
    var a', b' := StripStart(s), StripEnd(s);
    StripSpec(s);
    assert a < b ==> a' <= a && b <= b';
    assert a' < b' ==> a <= a' && b' <= b;
  }

  /** Stripping twice is stripping once (`call_gemini` strips, then `pedir_seccion` strips again). */
  lemma StripIdempotent(s: string)
    ensures Strip(Strip(s)) == Strip(s)
  {
    var r := Strip(s);
    StripSpec(s);
    StripUnique(r, 0, |r|);
  }

  /** Whitespace appended to a string does not survive `strip`. */
  lemma StripIgnoresTrailingSpace(s: string, c: char)
    requires IsSpace(c)
    ensures Strip(s + [c]) == Strip(s)
  {
    var a, b := StripStart(s), StripEnd(s);
    var s' := s + [c];
    StripSpec(s);
    assert StrippedSlice(s', a, b);
    StripUnique(s', a, b);
    assert s'[a..b] == s[a..b];
  }

  /** `pat` occurs in `s` starting at index `i`. */
  predicate OccursAt(pat: string, s: string, i: int) {
    0 <= i && i + |pat| <= |s| && s[i..i + |pat|] == pat
  }

  /**
   * The leftmost index at or after `from` where `pat` occurs in `s`, or None
   * when it occurs nowhere from there on.
   */
  function FindFirst(pat: string, s: string, from: nat): (r: Option<nat>)
    requires from <= |s|
    ensures r.Some? ==> from <= r.value && r.value + |pat| <= |s|
    decreases |s| - from
  {
    if OccursAt(pat, s, from) then Some(from)
    else if from == |s| then None
    else FindFirst(pat, s, from + 1)
  }

  /** `FindFirst` finds an occurrence with none before it, and reports None only when there is none at all. */
  lemma {:induction false} FindFirstSpec(pat: string, s: string, from: nat)
    requires from <= |s|
    ensures FindFirst(pat, s, from).Some? ==> OccursAt(pat, s, FindFirst(pat, s, from).value)
    ensures FindFirst(pat, s, from).Some? ==>
      forall j :: from <= j < FindFirst(pat, s, from).value ==> !OccursAt(pat, s, j)
    ensures FindFirst(pat, s, from).None? ==> forall j :: from <= j ==> !OccursAt(pat, s, j)
    decreases |s| - from
  {
    if !OccursAt(pat, s, from) && from < |s| {
      FindFirstSpec(pat, s, from + 1);
    }
  }

  /** Any occurrence with nothing before it is the one `FindFirst` returns. */
  lemma {:induction false} FindFirstIsLeftmost(pat: string, s: string, from: nat, k: nat)
    requires from <= k && OccursAt(pat, s, k)
    requires forall j :: from <= j < k ==> !OccursAt(pat, s, j)
    ensures from <= |s| && FindFirst(pat, s, from) == Some(k)
    decreases k - from
  {
    if from < k {
      FindFirstIsLeftmost(pat, s, from + 1, k);
    }
  }

  /** An occurrence in the left part of a concatenation. */
  lemma OccursInLeft(pat: string, a: string, b: string, j: int)
    requires 0 <= j && j + |pat| <= |a|
    ensures OccursAt(pat, a + b, j) <==> OccursAt(pat, a, j)
  {
    assert (a + b)[j..j + |pat|] == a[j..j + |pat|];
  }

  /** An occurrence in the right part of a concatenation. */
  lemma OccursInRight(pat: string, a: string, b: string, j: int)
    requires |a| <= j
    ensures OccursAt(pat, a + b, j) <==> OccursAt(pat, b, j - |a|)
  {
    if j + |pat| <= |a + b| {
      assert (a + b)[j..j + |pat|] == b[j - |a|..j - |a| + |pat|];
    }
  }
}
