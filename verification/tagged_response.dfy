/**
 * The reply format the prompt of `generar_bloques` asks the model for: each
 * section is a tag line `[TAG]` followed by its content, one section after
 * another, in any order. Reading such a reply back by looking the tag up in
 * the list of (tag, content) pairs is the reference against which the
 * regular-expression extractor is proved.
 */
module TaggedResponse {
  import opened PyStr
  import opened TagExtraction

  /** One section of a reply: its tag name and the text under the tag line. */
  datatype Section = Section(tag: string, content: string)

  /** A section as it appears in the reply text; its content carries its own line breaks. */
  function Piece(sec: Section): string {
    Opening(sec.tag) + sec.content
  }

  /** The reply text made of the given sections, in order. */
  function Render(secs: seq<Section>): string
    decreases |secs|
  {
    if secs == [] then "" else Render(secs[..|secs| - 1]) + Piece(secs[|secs| - 1])
  }

  /** A section the extractor can read back: a proper tag name, and content without '['. */
  predicate WellFormedSection(sec: Section) {
    IsTagName(sec.tag) && forall k :: 0 <= k < |sec.content| ==> sec.content[k] != '['
  }

  /** A reply whose sections are all well formed; a tag may label more than one section. */
  predicate WellFormed(secs: seq<Section>) {
    forall i :: 0 <= i < |secs| ==> WellFormedSection(secs[i])
  }

  /** The reference reading: the stripped content under the first section with this tag, or "". */
  function Lookup(secs: seq<Section>, tag: string): string
    decreases |secs|
  {
    if secs == [] then ""
    else if secs[0].tag == tag then Strip(secs[0].content)
    else Lookup(secs[1..], tag)
  }

  /** Rendering distributes over concatenation of section lists. */
  lemma {:induction false} RenderAppend(a: seq<Section>, b: seq<Section>)
    ensures Render(a + b) == Render(a) + Render(b)
    decreases |b|
  {
    if b == [] {
      assert a + b == a;
    } else {
      var ab, b', last := a + b, b[..|b| - 1], b[|b| - 1];
      assert ab[..|ab| - 1] == a + b';
      assert ab[|ab| - 1] == last;
      assert Render(ab) == Render(a + b') + Piece(last);
      RenderAppend(a, b');
      assert Render(b) == Render(b') + Piece(last);
    }
  }

  /** A sequence is what comes before an element, the element, and what comes after. */
  lemma SplitAround<T>(xs: seq<T>, i: nat)
    requires i < |xs|
    ensures xs == xs[..i] + ([xs[i]] + xs[i + 1..])
  {
  }

  /** A reply is the text before a section, the section, and the text after it. */
  lemma RenderSplit(secs: seq<Section>, i: nat)
    requires i < |secs|
    ensures Render(secs) == Render(secs[..i]) + Piece(secs[i]) + Render(secs[i + 1..])
  {
    var before, after := secs[..i], secs[i + 1..];
    SplitAround(secs, i);
    RenderAppend(before, [secs[i]] + after);
    RenderAppend([secs[i]], after);
    assert Render([secs[i]]) == Piece(secs[i]);
  }

  /** A non-empty reply starts at a '['. */
  lemma RenderStartsWithBracket(secs: seq<Section>)
    requires secs != []
    ensures |Render(secs)| > 0 && Render(secs)[0] == '['
  {
    RenderAppend([secs[0]], secs[1..]);
    assert [secs[0]] + secs[1..] == secs;
    assert Render([secs[0]]) == Piece(secs[0]);
  }

  /** Past its first character, a well-formed section holds no '['. */
  lemma PieceBracketOnlyFirst(sec: Section)
    requires WellFormedSection(sec)
    ensures forall k :: 0 < k < |Piece(sec)| ==> Piece(sec)[k] != '['
  {
    var p, n := Piece(sec), |sec.tag|;
    forall k | 0 < k < |p| ensures p[k] != '[' {
      if k <= n { assert p[k] == sec.tag[k - 1]; }
      else if k < n + 3 { assert p[k] == "]\n"[k - n - 1]; }
      else { assert p[k] == sec.content[k - n - 3]; }
    }
  }

  /** The only place an opening line can occur inside a well-formed section is its own start. */
  lemma PieceOccurrence(tag: string, sec: Section, m: int)
    requires IsTagName(tag) && WellFormedSection(sec)
    ensures OccursAt(Opening(tag), Piece(sec), m) ==> m == 0 && tag == sec.tag
  {
    var o, p := Opening(tag), Piece(sec);
    PieceBracketOnlyFirst(sec);
    if OccursAt(o, p, m) {
      assert p[m] == o[0];
      assert OccursAt(Opening(sec.tag), p, 0);
      TagLineDeterminesTag(tag, sec.tag, p);
    }
  }

  /** Two opening lines of proper tag names that start the same text name the same tag. */
  lemma TagLineDeterminesTag(t: string, u: string, s: string)
    requires IsTagName(t) && IsTagName(u)
    requires OccursAt(Opening(t), s, 0) && OccursAt(Opening(u), s, 0)
    ensures t == u
  {
    var ot, ou := Opening(t), Opening(u);
    assert s[|t| + 1] == ot[|t| + 1] == ']';
    assert s[|u| + 1] == ou[|u| + 1] == ']';
    assert forall k :: 1 <= k <= |t| ==> s[k] == ot[k] == t[k - 1];
    assert forall k :: 1 <= k <= |u| ==> s[k] == ou[k] == u[k - 1];
    assert |t| == |u|;
    assert t == s[1..|t| + 1] == u;
  }

  /** A tag that labels none of the sections has no opening line anywhere in the reply. */
  lemma {:induction false} NoOccurrenceInRendered(secs: seq<Section>, tag: string)
    requires forall i :: 0 <= i < |secs| ==> WellFormedSection(secs[i]) && secs[i].tag != tag
    requires IsTagName(tag)
    ensures forall j :: !OccursAt(Opening(tag), Render(secs), j)
    decreases |secs|
  {
    var o := Opening(tag);
    if secs != [] {
      var init, last := secs[..|secs| - 1], secs[|secs| - 1];
      NoOccurrenceInRendered(init, tag);
      var r, p := Render(init), Piece(last);
      PieceBracketOnlyFirst(last);
      forall j
        ensures !OccursAt(o, r + p, j)
      {
        if 0 <= j < |r| {
          NoOccurrenceAcrossBracket(tag, r, p, j);
        } else if |r| <= j {
          OccursInRight(o, r, p, j);
          PieceOccurrence(tag, last, j - |r|);
        }
      }
    }
  }

  /** Looking up the tag of a section that no earlier section carries finds that section. */
  lemma {:induction false} LookupAt(secs: seq<Section>, i: nat)
    requires i < |secs|
    requires forall a :: 0 <= a < i ==> secs[a].tag != secs[i].tag
    ensures Lookup(secs, secs[i].tag) == Strip(secs[i].content)
    decreases i
  {
    if i > 0 {
      assert secs[0].tag != secs[i].tag;
      assert secs[1..][i - 1] == secs[i];
      assert forall a :: 0 <= a < i - 1 ==> secs[1..][a] == secs[a + 1];
      LookupAt(secs[1..], i - 1);
    }
  }

  /** The first section carrying a tag, when some section carries it. */
  lemma {:induction false} FirstTagged(secs: seq<Section>, tag: string, j: nat) returns (i: nat)
    requires j < |secs| && secs[j].tag == tag
    ensures i <= j && secs[i].tag == tag
    ensures forall a :: 0 <= a < i ==> secs[a].tag != tag
    decreases j
  {
    if secs[0].tag == tag {
      i := 0;
    } else {
      assert secs[1..][j - 1] == secs[j];
      var i' := FirstTagged(secs[1..], tag, j - 1);
      i := i' + 1;
      forall a | 0 <= a < i ensures secs[a].tag != tag {
        if a > 0 { assert secs[a] == secs[1..][a - 1]; }
      }
    }
  }

  /** Looking up a tag no section carries yields "". */
  lemma {:induction false} LookupMissing(secs: seq<Section>, tag: string)
    requires forall i :: 0 <= i < |secs| ==> secs[i].tag != tag
    ensures Lookup(secs, tag) == ""
    decreases |secs|
  {
    if secs != [] {
      LookupMissing(secs[1..], tag);
    }
  }

  /**
   * Reading a well-formed reply with the extractor agrees with the reference
   * reading, whatever the order of its sections: a present tag yields the
   * stripped content of the first section carrying it, and a missing tag
   * yields "".
   */
  lemma ExtractRendered(secs: seq<Section>, tag: string)
    requires WellFormed(secs)
    requires IsTagName(tag)
    ensures Extract(Render(secs), tag) == Lookup(secs, tag)
  {
    if j :| 0 <= j < |secs| && secs[j].tag == tag {
      var i := FirstTagged(secs, tag, j);
      ExtractRenderedAt(secs, i);
      LookupAt(secs, i);
    } else {
      NoOccurrenceInRendered(secs, tag);
      ExtractAbsent(Render(secs), tag);
      LookupMissing(secs, tag);
    }
  }

  /**
   * The extractor reads back the stripped content of each section of a
   * well-formed reply that is the first to carry its tag.
   */
  lemma ExtractRenderedAt(secs: seq<Section>, i: nat)
    requires WellFormed(secs) && i < |secs|
    requires forall a :: 0 <= a < i ==> secs[a].tag != secs[i].tag
    ensures Extract(Render(secs), secs[i].tag) == Strip(secs[i].content)
  {
    var before, after := secs[..i], secs[i + 1..];
    RenderSplit(secs, i);
    NoOccurrenceInRendered(before, secs[i].tag);
    if after != [] {
      RenderStartsWithBracket(after);
    }
    ExtractOfPiece(Render(before), secs[i], Render(after));
  }

  /** A section whose tag line is the first in the text and whose body ends at a '[' or the end reads back its content. */
  lemma ExtractOfPiece(pre: string, sec: Section, post: string)
    requires WellFormedSection(sec)
    requires forall j :: !OccursAt(Opening(sec.tag), pre, j)
    requires post == [] || post[0] == '['
    ensures Extract(pre + Piece(sec) + post, sec.tag) == Strip(sec.content)
  {
    assert pre + Piece(sec) + post == pre + Opening(sec.tag) + sec.content + post;
    ExtractOfSection(pre, sec.tag, sec.content, post);
  }

  /**
   * No cross-contamination: dropping one section from a well-formed reply
   * leaves what is extracted for every other tag unchanged.
   */
  lemma ExtractIgnoresOtherSection(secs: seq<Section>, k: nat, tag: string)
    requires WellFormed(secs) && k < |secs|
    requires IsTagName(tag) && tag != secs[k].tag
    ensures Extract(Render(secs[..k] + secs[k + 1..]), tag) == Extract(Render(secs), tag)
  {
    RemoveKeepsWellFormed(secs, k);
    ExtractRendered(secs[..k] + secs[k + 1..], tag);
    ExtractRendered(secs, tag);
    LookupAfterRemoval(secs, k, tag);
  }

  /** Dropping a section keeps a reply well formed. */
  lemma RemoveKeepsWellFormed(secs: seq<Section>, k: nat)
    requires WellFormed(secs) && k < |secs|
    ensures WellFormed(secs[..k] + secs[k + 1..])
  {
    var rest := secs[..k] + secs[k + 1..];
    assert forall i :: 0 <= i < |rest| ==> rest[i] == if i < k then secs[i] else secs[i + 1];
  }

  /** Dropping a section does not change the lookup of any other tag. */
  lemma {:induction false} LookupAfterRemoval(secs: seq<Section>, k: nat, tag: string)
    requires k < |secs| && tag != secs[k].tag
    ensures Lookup(secs[..k] + secs[k + 1..], tag) == Lookup(secs, tag)
    decreases k
  {
    var rest := secs[..k] + secs[k + 1..];
    if k == 0 {
      assert rest == secs[1..];
    } else {
      assert rest[0] == secs[0];
      if secs[0].tag != tag {
        assert rest[1..] == secs[1..][..k - 1] + secs[1..][k..];
        LookupAfterRemoval(secs[1..], k - 1, tag);
      }
    }
  }
}
