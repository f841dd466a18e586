/**
 * Header sections (utils/result_parser.py:451-506): each of the four fields
 * starts after the earliest occurrence of one of its own header variants and
 * runs to the earliest later occurrence of any other field's header variant.
 */
module ParserSections {
  import opened Wrappers
  import opened PyStrings
  import opened ParserText

  datatype Field = Summary | KeyTopics | SentimentAnalysis | ActionItems

  /** The fields in the order the parser looks for them. */
  const Fields: seq<Field> := [Summary, KeyTopics, SentimentAnalysis, ActionItems]

  /** The header variants of each field, in the order they are tried. */
  function Variants(f: Field): seq<string> {
    match f
    case Summary => ["Executive Summary:", "Summary:", "# Summary", "## Summary"]
    case KeyTopics => ["Key Topics:", "Topics:", "# Key Topics", "## Key Topics"]
    case SentimentAnalysis => ["Sentiment Analysis:", "# Sentiment Analysis", "## Sentiment Analysis"]
    case ActionItems => ["Action Items:", "Recommendations:", "# Action Items", "## Action Items"]
  }

  /** The variants of every field other than `f`, in field order. */
  function OtherVariants(f: Field): seq<string> {
    (if f != Summary then Variants(Summary) else []) +
    (if f != KeyTopics then Variants(KeyTopics) else []) +
    (if f != SentimentAnalysis then Variants(SentimentAnalysis) else []) +
    (if f != ActionItems then Variants(ActionItems) else [])
  }

  /**
   * The index of the variant that occurs earliest in `text`; among variants
   * that first occur at the same position, the one listed first.
   */
  function EarliestVariant(text: string, vs: seq<string>): (r: Option<nat>)
    ensures r.Some? ==> r.value < |vs| && FindFrom(text, vs[r.value], 0) >= 0
  {
    if vs == [] then None
    else
      var best := EarliestVariant(text, vs[..|vs| - 1]);
      var pos := FindFrom(text, vs[|vs| - 1], 0);
      if pos != -1 && (best.None? || pos < FindFrom(text, vs[..|vs| - 1][best.value], 0)) then Some(|vs| - 1)
      else if best.Some? then Some(best.value)
      else None
  }

  /** Where each variant first occurs, or -1. */
  function FirstPositions(text: string, vs: seq<string>): (r: seq<int>)
    ensures |r| == |vs|
  {
    if vs == [] then [] else FirstPositions(text, vs[..|vs| - 1]) + [FindFrom(text, vs[|vs| - 1], 0)]
  }

  /** The index of the least non-negative entry; the first such on a tie. */
  function Earliest(ps: seq<int>): (r: Option<nat>)
    ensures r.Some? ==> r.value < |ps|
  {
    if ps == [] then None
    else
      var best := Earliest(ps[..|ps| - 1]);
      var pos := ps[|ps| - 1];
      if pos != -1 && (best.None? || pos < ps[..|ps| - 1][best.value]) then Some(|ps| - 1)
      else best
  }

  lemma {:induction false} EarliestOrder(ps: seq<int>)
    requires forall j :: 0 <= j < |ps| ==> ps[j] >= -1
    ensures var r := Earliest(ps);
            r.Some? ==> (ps[r.value] >= 0 &&
                         (forall j :: 0 <= j < r.value ==> ps[j] == -1 || ps[j] > ps[r.value]) &&
                         (forall j :: r.value < j < |ps| ==> ps[j] == -1 || ps[j] >= ps[r.value]))
    ensures Earliest(ps).None? <==> forall j :: 0 <= j < |ps| ==> ps[j] == -1
    decreases |ps|
  {
    if ps != [] {
      var init := ps[..|ps| - 1];
      assert forall j :: 0 <= j < |init| ==> init[j] == ps[j];
      EarliestOrder(init);
    }
  }

  lemma {:induction false} FirstPositionsAt(text: string, vs: seq<string>)
    ensures forall j :: 0 <= j < |vs| ==> FirstPositions(text, vs)[j] == FindFrom(text, vs[j], 0)
    decreases |vs|
  {
    if vs != [] {
      var init := vs[..|vs| - 1];
      FirstPositionsAt(text, init);
      assert forall j :: 0 <= j < |init| ==> init[j] == vs[j];
    }
  }

  /** The variant search is the search for the earliest first position. */
  lemma {:induction false} EarliestVariantIsEarliest(text: string, vs: seq<string>)
    ensures EarliestVariant(text, vs) == Earliest(FirstPositions(text, vs))
    decreases |vs|
  {
    if vs != [] {
      var init := vs[..|vs| - 1];
      var ps := FirstPositions(text, vs);
      EarliestVariantIsEarliest(text, init);
      assert ps[..|vs| - 1] == FirstPositions(text, init);
      var best := EarliestVariant(text, init);
      if best.Some? {
        FirstPositionsAt(text, init);
        assert FirstPositions(text, init)[best.value] == FindFrom(text, init[best.value], 0);
      }
    }
  }

  /**
   * The variant chosen occurs no later than any other, and strictly earlier
   * than any listed before it.
   */
  lemma EarliestVariantOrder(text: string, vs: seq<string>)
    ensures var r := EarliestVariant(text, vs);
            r.Some? ==> forall j :: 0 <= j < r.value ==>
              FindFrom(text, vs[j], 0) == -1 || FindFrom(text, vs[j], 0) > FindFrom(text, vs[r.value], 0)
    ensures var r := EarliestVariant(text, vs);
            r.Some? ==> forall j :: r.value < j < |vs| ==>
              FindFrom(text, vs[j], 0) == -1 || FindFrom(text, vs[j], 0) >= FindFrom(text, vs[r.value], 0)
  {
    EarliestVariantIsEarliest(text, vs);
    FirstPositionsAt(text, vs);
    EarliestOrder(FirstPositions(text, vs));
  }

  /** No variant is chosen exactly when none occurs. */
  lemma EarliestVariantAbsent(text: string, vs: seq<string>)
    ensures EarliestVariant(text, vs).None? <==> forall j :: 0 <= j < |vs| ==> FindFrom(text, vs[j], 0) == -1
  {
    EarliestVariantIsEarliest(text, vs);
    FirstPositionsAt(text, vs);
    EarliestOrder(FirstPositions(text, vs));
  }

  /** The earliest occurrence at or after `from` of any of `hs`, or the end of the text. */
  function CutAt(text: string, hs: seq<string>, from: nat): (r: nat)
    requires from <= |text|
    ensures from <= r <= |text|
    ensures forall k :: 0 <= k < |hs| ==> FindFrom(text, hs[k], from) == -1 || FindFrom(text, hs[k], from) >= r
    ensures r == |text| || exists k :: 0 <= k < |hs| && FindFrom(text, hs[k], from) == r
  {
    if hs == [] then |text|
    else
      var before := CutAt(text, hs[..|hs| - 1], from);
      var pos := FindFrom(text, hs[|hs| - 1], from);
      assert forall k :: 0 <= k < |hs| - 1 ==> hs[..|hs| - 1][k] == hs[k];
      if pos != -1 && pos < before then pos else before
  }

  /** Where the section of `f` starts and ends in `text`, when one of its headers occurs. */
  function SectionSpan(text: string, f: Field): (r: Option<(nat, nat)>)
    ensures r.Some? ==> r.value.0 <= r.value.1 <= |text|
  {
    var c := EarliestVariant(text, Variants(f));
    if c.None? then None
    else
      var header := Variants(f)[c.value];
      var start := FindFrom(text, header, 0) + |header|;
      Some((start, CutAt(text, OtherVariants(f), start)))
  }

  datatype SectionValue = Text(text: string) | Items(items: seq<string>)

  /** The stripped body, or its bullet points for the two list fields. */
  function SectionValueOf(f: Field, body: string): SectionValue {
    if f == KeyTopics || f == ActionItems then Items(BulletPoints(Strip(body)))
    else Text(Strip(body))
  }

  /** The sections found for the fields `fs`. */
  function SectionsOf(text: string, fs: seq<Field>): (r: map<Field, SectionValue>)
    ensures forall f :: f in r <==> f in fs && SectionSpan(text, f).Some?
    ensures forall f :: f in r ==> (r[f].Items? <==> f == KeyTopics || f == ActionItems)
  {
    if fs == [] then map[]
    else
      var before := SectionsOf(text, fs[..|fs| - 1]);
      var f := fs[|fs| - 1];
      var span := SectionSpan(text, f);
      assert forall g :: g in fs <==> g in fs[..|fs| - 1] || g == f;
      if span.Some? then before[f := SectionValueOf(f, text[span.value.0..span.value.1])] else before
  }

  /** The sections of one more field: the earlier ones, and its own when its header occurs. */
  lemma SectionsOfStep(text: string, fs: seq<Field>, i: nat)
    requires i < |fs|
    ensures var span := SectionSpan(text, fs[i]);
            SectionsOf(text, fs[..i + 1]) ==
              if span.Some? then SectionsOf(text, fs[..i])[fs[i] := SectionValueOf(fs[i], text[span.value.0..span.value.1])]
              else SectionsOf(text, fs[..i])
  {
    assert fs[..i + 1][..i] == fs[..i];
  }

  function ParseSections(text: string): (r: map<Field, SectionValue>)
    ensures forall f :: f in r ==> (r[f].Items? <==> f == KeyTopics || f == ActionItems)
  {
    SectionsOf(text, Fields)
  }

  method ParseSectionsWithHeaders(text: string) returns (sections: map<Field, SectionValue>)
    ensures sections == ParseSections(text)
  {
    sections := map[];
    for i := 0 to |Fields|
      invariant sections == SectionsOf(text, Fields[..i])
    {
      SectionsOfStep(text, Fields, i);
      var found, value := ParseSection(text, Fields[i]);
      if found {
        sections := sections[Fields[i] := value];
      }
    }
    assert Fields[..|Fields|] == Fields;
  }

  /** One round of the loop over the fields: find the header, cut the section, convert it. */
  method ParseSection(text: string, sectionKey: Field) returns (found: bool, value: SectionValue)
    ensures found <==> SectionSpan(text, sectionKey).Some?
    ensures found ==> var (a, b) := SectionSpan(text, sectionKey).value;
                      value == SectionValueOf(sectionKey, text[a..b])
  {
    var headerPatterns := Variants(sectionKey);
    var startPos, matchedHeader := FindSectionStart(text, headerPatterns);
    ghost var span := SectionSpan(text, sectionKey);
    found := startPos != -1;
    value := Text("");
    if found {
      var sectionStart := startPos + |matchedHeader|;
      assert sectionStart == span.value.0;
      var sectionEnd := FindSectionEnd(text, OtherVariants(sectionKey), sectionStart);
      assert sectionEnd == span.value.1;
      var sectionText := Strip(text[sectionStart..sectionEnd]);
      if sectionKey == KeyTopics || sectionKey == ActionItems {
        var items := ExtractBulletPoints(sectionText);
        value := Items(items);
      } else {
        value := Text(sectionText);
      }
    }
  }

  /** The scan for the earliest header of one field. */
  method FindSectionStart(text: string, headerPatterns: seq<string>) returns (startPos: int, matchedHeader: string)
    ensures var c := EarliestVariant(text, headerPatterns);
            if c.None? then startPos == -1
            else matchedHeader == headerPatterns[c.value] && startPos == FindFrom(text, matchedHeader, 0)
  {
    startPos := -1;
    matchedHeader := "";
    for k := 0 to |headerPatterns|
      invariant var c := EarliestVariant(text, headerPatterns[..k]);
                if c.None? then startPos == -1
                else matchedHeader == headerPatterns[c.value] && startPos == FindFrom(text, matchedHeader, 0)
    {
      assert headerPatterns[..k + 1][..k] == headerPatterns[..k];
      var header := headerPatterns[k];
      if Contains(text, header) {
        var headerPos := FindFrom(text, header, 0);
        if startPos == -1 || headerPos < startPos {
          startPos := headerPos;
          matchedHeader := header;
        }
      }
    }
    assert headerPatterns[..|headerPatterns|] == headerPatterns;
  }

  /** The scan for the earliest other header after the section start. */
  method FindSectionEnd(text: string, endPatterns: seq<string>, sectionStart: nat) returns (sectionEnd: nat)
    requires sectionStart <= |text|
    ensures sectionEnd == CutAt(text, endPatterns, sectionStart)
  {
    sectionEnd := |text|;
    for k := 0 to |endPatterns|
      invariant sectionEnd == CutAt(text, endPatterns[..k], sectionStart)
    {
      assert endPatterns[..k + 1][..k] == endPatterns[..k];
      var endPos := FindFrom(text, endPatterns[k], sectionStart);
      if endPos != -1 && endPos < sectionEnd {
        sectionEnd := endPos;
      }
    }
    assert endPatterns[..|endPatterns|] == endPatterns;
  }

  /** A field has a section exactly when one of its header variants occurs in the text. */
  lemma SectionPresent(text: string, f: Field)
    ensures f in ParseSections(text) <==> exists h :: h in Variants(f) && Contains(text, h)
  {
    assert f in Fields;
    EarliestVariantNone(text, Variants(f));
  }

  lemma EarliestVariantNone(text: string, vs: seq<string>)
    ensures EarliestVariant(text, vs).None? <==> forall h :: h in vs ==> !Contains(text, h)
  {
    EarliestVariantAbsent(text, vs);
    if exists h :: h in vs && Contains(text, h) {
      var h :| h in vs && Contains(text, h);
      var j :| 0 <= j < |vs| && vs[j] == h;
      assert FindFrom(text, vs[j], 0) != -1;
    } else {
      forall j | 0 <= j < |vs|
        ensures FindFrom(text, vs[j], 0) == -1
      {
        assert vs[j] in vs;
      }
    }
  }

  /** No header of another field occurs inside a section: it ends at the first one. */
  lemma SectionExcludesOtherHeaders(text: string, f: Field, h: string)
    requires SectionSpan(text, f).Some? && h in OtherVariants(f)
    ensures var (a, b) := SectionSpan(text, f).value;
            forall k :: a <= k < b ==> !OccursAt(text, h, k)
  {
    var (a, b) := SectionSpan(text, f).value;
    CutAtExcludes(text, OtherVariants(f), a, h);
  }

  lemma CutAtExcludes(text: string, hs: seq<string>, from: nat, h: string)
    requires from <= |text| && h in hs
    ensures forall k :: from <= k < CutAt(text, hs, from) ==> !OccursAt(text, h, k)
  {
    var j :| 0 <= j < |hs| && hs[j] == h;
    assert FindFrom(text, hs[j], from) == -1 || FindFrom(text, hs[j], from) >= CutAt(text, hs, from);
  }

  /** A section runs to the end of the text or stops exactly where another field's header occurs. */
  lemma SectionStopsAtHeader(text: string, f: Field)
    requires SectionSpan(text, f).Some?
    ensures var (a, b) := SectionSpan(text, f).value;
            b == |text| || exists h :: h in OtherVariants(f) && OccursAt(text, h, b)
  {
    var (a, b) := SectionSpan(text, f).value;
    CutAtStops(text, OtherVariants(f), a);
  }

  lemma CutAtStops(text: string, hs: seq<string>, from: nat)
    requires from <= |text|
    ensures var r := CutAt(text, hs, from);
            r == |text| || exists h :: h in hs && OccursAt(text, h, r)
  {
    var r := CutAt(text, hs, from);
    if r != |text| {
      var k :| 0 <= k < |hs| && FindFrom(text, hs[k], from) == r;
      assert OccursAt(text, hs[k], r);
    }
  }

  /** A section starts right after the header that occurs earliest; no header of the field occurs before it. */
  lemma SectionStartsAfterEarliestHeader(text: string, f: Field)
    requires SectionSpan(text, f).Some?
    ensures exists h :: h in Variants(f) &&
              SectionSpan(text, f).value.0 == FindFrom(text, h, 0) + |h| &&
              forall g :: g in Variants(f) && Contains(text, g) ==> FindFrom(text, g, 0) >= FindFrom(text, h, 0)
  {
    EarliestVariantFirst(text, Variants(f));
  }

  lemma EarliestVariantFirst(text: string, vs: seq<string>)
    requires EarliestVariant(text, vs).Some?
    ensures var h := vs[EarliestVariant(text, vs).value];
            forall g :: g in vs && Contains(text, g) ==> FindFrom(text, g, 0) >= FindFrom(text, h, 0)
  {
    var h := vs[EarliestVariant(text, vs).value];
    EarliestVariantOrder(text, vs);
    forall g | g in vs && Contains(text, g)
      ensures FindFrom(text, g, 0) >= FindFrom(text, h, 0)
    {
      var j :| 0 <= j < |vs| && vs[j] == g;
    }
  }
}
