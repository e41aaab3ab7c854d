/**
 * The section extractor `_extr` of `generar_bloques`: for a tag name TAG it runs
 * `re.search(r"\[TAG]\n(.*?)(?=\[|$)", texto, re.S)` and returns group 1
 * stripped, or "" when there is no match.
 *
 * The model follows the regular expression step by step: the match starts at
 * the leftmost occurrence of the literal line "[TAG]\n" (the lazy group that
 * follows always succeeds, so the first place the literal fits is the match),
 * and the group stops at the first position where the lookahead `(?=\[|$)`
 * holds. Without MULTILINE, `$` holds at the end of the text and also just
 * before a newline that ends the text.
 */
module TagExtraction {
  import opened Wrappers
  import opened PyStr

  /**
   * A tag the pattern treats as plain text whose own characters cannot be
   * mistaken for the brackets around it: it holds neither '[' nor ']'. The
   * tags the prompts use, upper-case letters and underscores, all qualify.
   */
  predicate IsTagName(t: string) {
    forall k :: 0 <= k < |t| ==> t[k] != '[' && t[k] != ']'
  }

  /** The literal line `[TAG]` plus newline that opens a section. */
  function Opening(tag: string): (o: string)
    ensures |o| == |tag| + 3 && o[0] == '['
  {
    "[" + tag + "]\n"
  }

  /** The lookahead `(?=\[|$)` at position p, for a pattern compiled with DOTALL and without MULTILINE. */
  predicate LookaheadAt(s: string, p: int)
    requires 0 <= p <= |s|
  {
    p == |s| || s[p] == '[' || (p == |s| - 1 && s[p] == '\n')
  }

  /** Where the lazy group `(.*?)` that starts at i ends: the first position where the lookahead holds. */
  function GroupEnd(s: string, i: nat): (e: nat)
    requires i <= |s|
    ensures i <= e <= |s| && LookaheadAt(s, e)
    ensures forall p :: i <= p < e ==> !LookaheadAt(s, p)
    decreases |s| - i
  {
    if LookaheadAt(s, i) then i else GroupEnd(s, i + 1)
  }

  /** The first '[' at or after i, or the end of the text. */
  function NextBracket(s: string, i: nat): (e: nat)
    requires i <= |s|
    ensures i <= e <= |s| && (e == |s| || s[e] == '[')
    ensures forall p :: i <= p < e ==> s[p] != '['
    decreases |s| - i
  {
    if i == |s| || s[i] == '[' then i else NextBracket(s, i + 1)
  }

  /**
   * `_extr(tag)` over the response text `texto`. Whatever the text, the value
   * never holds a '[' and has no whitespace at either end.
   */
  function Extract(texto: string, tag: string): (r: string)
    ensures NoBracket(r) && IsStripped(r)
  {
    match FindFirst(Opening(tag), texto, 0)
    case None => ""
    case Some(at) => Captured(texto, at + |Opening(tag)|)
  }

  /** Group 1 of a match whose opening line ends at i, stripped. */
  function Captured(texto: string, i: nat): (r: string)
    requires i <= |texto|
    ensures NoBracket(r) && IsStripped(r)
  {
    CapturedShape(texto, i);
    Strip(texto[i..GroupEnd(texto, i)])
  }

  /** No '[' anywhere in s. */
  predicate NoBracket(s: string) {
    forall k :: 0 <= k < |s| ==> s[k] != '['
  }

  /** With a match at k, `Extract` is the stripped group that starts after the opening line. */
  lemma ExtractAt(texto: string, tag: string, k: nat) returns (start: nat)
    requires FindFirst(Opening(tag), texto, 0) == Some(k)
    ensures start == k + |Opening(tag)| <= |texto|
    ensures Extract(texto, tag) == Captured(texto, start)
  {
    start := k + |Opening(tag)|;
    assert FindFirst(Opening(tag), texto, 0).value + |Opening(tag)| <= |texto|;
  }

  /** The stripped group captured from position i holds no '[' and has no whitespace at either end. */
  lemma CapturedShape(texto: string, i: nat)
    requires i <= |texto|
    ensures NoBracket(Strip(texto[i..GroupEnd(texto, i)])) && IsStripped(Strip(texto[i..GroupEnd(texto, i)]))
  {
    var group := texto[i..GroupEnd(texto, i)];
    GroupHasNoBracket(texto, i);
    StripKeepsNoBracket(group);
  }

  /** The group the regular expression captures never contains '['. */
  lemma GroupHasNoBracket(s: string, i: nat)
    requires i <= |s|
    ensures NoBracket(s[i..GroupEnd(s, i)])
  {
    var e := GroupEnd(s, i);
    forall k | 0 <= k < e - i ensures s[i..e][k] != '[' {
      assert !LookaheadAt(s, i + k);
    }
  }

  /** Stripping a text free of '[' leaves it free of '['. */
  lemma StripKeepsNoBracket(s: string)
    requires NoBracket(s)
    ensures NoBracket(Strip(s))
  {
    var r, a := Strip(s), StripStart(s);
    StripSpec(s);
    forall k | 0 <= k < |r| ensures r[k] != '[' {
      assert r[k] == s[a + k];
    }
  }

  /**
   * The `$` that fires just before a final newline cuts one newline off the
   * group, and `strip` would have removed it anyway: the group may as well run
   * to the next '[' or the end of the text.
   */
  lemma {:induction false} GroupEndAsNextBracket(s: string, i: nat)
    requires i <= |s|
    ensures Strip(s[i..GroupEnd(s, i)]) == Strip(s[i..NextBracket(s, i)])
  {
    var e, n := GroupEnd(s, i), NextBracket(s, i);
    if e != n {
      assert LookaheadAt(s, n);
      assert e == |s| - 1 && s[e] == '\n' && n == |s|;
      assert s[i..n] == s[i..e] + ['\n'];
      StripIgnoresTrailingSpace(s[i..e], '\n');
    }
  }

  /** Without the opening line anywhere in the text, extraction yields "" and never fails. */
  lemma ExtractAbsent(texto: string, tag: string)
    requires forall j :: !OccursAt(Opening(tag), texto, j)
    ensures Extract(texto, tag) == ""
  {
    FindFirstSpec(Opening(tag), texto, 0);
  }

  /**
   * With the opening line present, extraction yields the stripped text that
   * follows its leftmost occurrence, up to the next '[' or the end of the text.
   */
  lemma ExtractPresent(texto: string, tag: string, k: nat)
    requires OccursAt(Opening(tag), texto, k)
    requires forall j :: 0 <= j < k ==> !OccursAt(Opening(tag), texto, j)
    ensures var start := k + |Opening(tag)|;
            Extract(texto, tag) == Strip(texto[start..NextBracket(texto, start)])
  {
    FindFirstIsLeftmost(Opening(tag), texto, 0, k);
    ExtractAtMatch(texto, tag, k);
  }

  /** `Extract` once the leftmost occurrence of the opening line is known. */
  lemma ExtractAtMatch(texto: string, tag: string, k: nat)
    requires FindFirst(Opening(tag), texto, 0) == Some(k)
    ensures var start := k + |Opening(tag)|;
            Extract(texto, tag) == Strip(texto[start..NextBracket(texto, start)])
  {
    var start := ExtractAt(texto, tag, k);
    GroupEndAsNextBracket(texto, start);
  }

  /** The extracted value is a contiguous piece of the response text. */
  lemma ExtractIsInfix(texto: string, tag: string)
    ensures exists i :: OccursAt(Extract(texto, tag), texto, i)
  {
    match FindFirst(Opening(tag), texto, 0)
    case None =>
      assert Extract(texto, tag) == [];
      assert OccursAt(Extract(texto, tag), texto, 0);
    case Some(k) =>
      var i := ExtractOccursAfterMatch(texto, tag, k);
  }

  /** With a match at k, the extracted value sits in the text after the opening line; i is where. */
  lemma ExtractOccursAfterMatch(texto: string, tag: string, k: nat) returns (i: nat)
    requires FindFirst(Opening(tag), texto, 0) == Some(k)
    ensures OccursAt(Extract(texto, tag), texto, i)
  {
    var start := k + |Opening(tag)|;
    ExtractAtMatch(texto, tag, k);
    i := StripOfSliceOccurs(Extract(texto, tag), texto, start, NextBracket(texto, start));
  }

  /** A string that is the stripped slice s[i..j] occurs in s; p is where. */
  lemma StripOfSliceOccurs(r: string, s: string, i: nat, j: nat) returns (p: nat)
    requires i <= j <= |s| && r == Strip(s[i..j])
    ensures OccursAt(r, s, p)
  {
    var t := s[i..j];
    var a, b := StripStart(t), StripEnd(t);
    StripSpec(t);
    forall m | 0 <= m < b - a ensures t[a..b][m] == s[i + a..i + b][m] {
      assert t[a + m] == s[i + a + m];
    }
    assert t[a..b] == s[i + a..i + b];
    p := i + a;
  }

  /** An opening line cannot start before a '[' and run over it: the tag itself holds no '['. */
  lemma NoOccurrenceAcrossBracket(tag: string, a: string, b: string, j: int)
    requires IsTagName(tag)
    requires b != [] && b[0] == '['
    requires 0 <= j < |a|
    requires !OccursAt(Opening(tag), a, j)
    ensures !OccursAt(Opening(tag), a + b, j)
  {
    var o := Opening(tag);
    if j + |o| <= |a| {
      OccursInLeft(o, a, b, j);
    } else if j + |o| <= |a + b| {
      var m := |a| - j;
      assert (a + b)[j..j + |o|][m] == '[';
      assert o[m] == if m <= |tag| then tag[m - 1] else if m == |tag| + 1 then ']' else '\n';
    }
  }

  /**
   * Locality: the value extracted for a tag depends only on its own section.
   * Whatever comes before (as long as the tag's opening line does not occur
   * there) and whatever comes after (as long as it starts at a '[') does not
   * change it.
   */
  lemma ExtractOfSection(pre: string, tag: string, body: string, post: string)
    requires IsTagName(tag)
    requires forall j :: !OccursAt(Opening(tag), pre, j)
    requires forall k :: 0 <= k < |body| ==> body[k] != '['
    requires post == [] || post[0] == '['
    ensures Extract(pre + Opening(tag) + body + post, tag) == Strip(body)
  {
    var o := Opening(tag);
    var head := pre + o;
    var texto := head + body + post;
    assert texto == pre + o + body + post;
    LeftmostAfter(pre, tag, body + post);
    assert pre + (o + (body + post)) == texto;
    FindFirstIsLeftmost(o, texto, 0, |pre|);
    ExtractAtMatch(texto, tag, |pre|);
    NextBracketAfterBody(head, body, post);
    assert texto[|head|..|head| + |body|] == body;
  }

  /** The opening line right after `pre` is the leftmost one when `pre` holds none. */
  lemma LeftmostAfter(pre: string, tag: string, rest: string)
    requires IsTagName(tag)
    requires forall j :: !OccursAt(Opening(tag), pre, j)
    ensures OccursAt(Opening(tag), pre + (Opening(tag) + rest), |pre|)
    ensures forall j :: 0 <= j < |pre| ==> !OccursAt(Opening(tag), pre + (Opening(tag) + rest), j)
  {
    var o := Opening(tag);
    OccursInRight(o, pre, o + rest, |pre|);
    assert (o + rest)[..|o|] == o;
    forall j | 0 <= j < |pre|
      ensures !OccursAt(o, pre + (o + rest), j)
    {
      NoOccurrenceAcrossBracket(tag, pre, o + rest, j);
    }
  }

  /** A body free of '[' followed by nothing or by a '[' ends where the next '[' is. */
  lemma NextBracketAfterBody(head: string, body: string, post: string)
    requires forall k :: 0 <= k < |body| ==> body[k] != '['
    requires post == [] || post[0] == '['
    ensures NextBracket(head + body + post, |head|) == |head| + |body|
  {
    var texto := head + body + post;
    var n := NextBracket(texto, |head|);
    assert forall p :: |head| <= p < |head| + |body| ==> texto[p] == body[p - |head|];
    if |head| + |body| < |texto| {
      assert texto[|head| + |body|] == post[0];
    }
  }
}
