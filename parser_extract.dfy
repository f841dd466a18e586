/**
 * The list extractors of utils/result_parser.py: numbered items with
 * descriptions, the "Comprehensive Set" and structured-list formats, and
 * topics derived from action items.
 *
 * Each extractor is a specification function over the text and a method
 * with the source's loop, proved to compute that function.
 */
module ParserExtract {
  import opened Wrappers
  import opened PyStrings
  import opened ParserPatterns
  import opened LineParsing

  // ---------------------------------------------------------------------
  // utils/result_parser.py:250-287  extract_numbered_items_with_descriptions

  /** `description.split('.')[0].strip()`: the first sentence, without its period. */
  function SentenceHead(desc: string): (r: string)
    ensures '.' !in r
    ensures |r| <= |desc|
  {
    var part := Split(desc, ".")[0];
    NotContainsChar(part, '.');
    StripKeepsOut(part, '.');
    assert |part| <= |desc| by {
      SplitHead(desc, ".");
    }
    Strip(part)
  }

  /** The first sentence, cut to its first 97 characters plus "..." when longer than 100. */
  function FirstSentence(desc: string): (r: string)
    ensures |r| <= 100
    ensures |SentenceHead(desc)| <= 100 ==> r == SentenceHead(desc)
    ensures |SentenceHead(desc)| > 100 ==>
              |r| == 100 && r[..97] == SentenceHead(desc)[..97] && r[97..] == "..."
  {
    var s := SentenceHead(desc);
    if |s| > 100 then s[..97] + "..." else s
  }

  /** One numbered item: "Title: first sentence", or the bare title when the description is blank. */
  function FormatNumbered(m: Match): (r: string)
    ensures StartsWith(r, Strip(Group(m, 0)))
    ensures |r| <= |Strip(Group(m, 0))| + 102
    ensures AllSpace(Group(m, 1)) ==> r == Strip(Group(m, 0))
    ensures !AllSpace(Group(m, 1)) ==>
              r == Strip(Group(m, 0)) + ": " + FirstSentence(Strip(Group(m, 1)))
  {
    var title := Strip(Group(m, 0));
    var desc := Strip(Group(m, 1));
    StripEmpty(Group(m, 1));
    if desc != [] then title + ": " + FirstSentence(desc) else title
  }

  function FormatAllNumbered(ms: seq<Match>): (r: seq<string>)
    ensures |r| == |ms|
  {
    if ms == [] then [] else FormatAllNumbered(ms[..|ms| - 1]) + [FormatNumbered(ms[|ms| - 1])]
  }

  /** One item per numbered-heading match, in text order. */
  function NumberedItems(text: string): (r: seq<string>)
    ensures |r| == |FindAll(NumberedItem, text)|
  {
    FormatAllNumbered(FindAll(NumberedItem, text))
  }

  method ExtractNumberedItemsWithDescriptions(text: string) returns (items: seq<string>)
    ensures items == NumberedItems(text)
  {
    var matches := FindAll(NumberedItem, text);
    items := [];
    for k := 0 to |matches|
      invariant items == FormatAllNumbered(matches[..k])
    {
      var title := Strip(Group(matches[k], 0));
      var description := Strip(Group(matches[k], 1));
      var item;
      if description != [] {
        var firstSentence := SentenceHead(description);
        if |firstSentence| > 100 {
          firstSentence := firstSentence[..97] + "...";
        }
        item := title + ": " + firstSentence;
      } else {
        item := title;
      }
      assert item == FormatNumbered(matches[k]) by {
        StripEmpty(Group(matches[k], 1));
      }
      assert matches[..k + 1][..k] == matches[..k];
      items := items + [item];
    }
    assert matches[..|matches|] == matches;
  }

  /** The numbered-item extractor finds nothing exactly when no numbered heading matches anywhere. */
  lemma NumberedItemsEmpty(text: string)
    ensures NumberedItems(text) == [] <==> forall j: nat :: j < |text| ==> MatchAt(NumberedItem, text, j).None?
  {
    FindAllEmpty(NumberedItem, text);
  }

  // ---------------------------------------------------------------------
  // utils/result_parser.py:289-318  extract_comprehensive_items

  /** "title: first sentence of detail" when the detail is not blank, else the title. */
  function FormatWithDetail(title: string, detail: string): (r: string)
    ensures StartsWith(r, Strip(title))
    ensures AllSpace(detail) ==> r == Strip(title)
    ensures !AllSpace(detail) ==> r == Strip(title) + ": " + SentenceHead(Strip(detail))
  {
    StripEmpty(detail);
    var d := Strip(detail);
    if d != [] then Strip(title) + ": " + SentenceHead(d) else Strip(title)
  }

  /** Each match formatted from its title (group 0) and the detail in group `g`. */
  function FormatAllWithDetail(ms: seq<Match>, g: nat): (r: seq<string>)
    ensures |r| == |ms|
  {
    if ms == [] then []
    else FormatAllWithDetail(ms[..|ms| - 1], g) + [FormatWithDetail(Group(ms[|ms| - 1], 0), Group(ms[|ms| - 1], g))]
  }

  /** One item per "Comprehensive Set" entry: its title and the first sentence of its Implementation Guidance. */
  function ComprehensiveItems(text: string): (r: seq<string>)
    ensures |r| == |FindAll(ComprehensiveItem, text)|
  {
    FormatAllWithDetail(FindAll(ComprehensiveItem, text), 2)
  }

  method ExtractComprehensiveItems(text: string) returns (actionItems: seq<string>)
    ensures actionItems == ComprehensiveItems(text)
  {
    var matches := FindAll(ComprehensiveItem, text);
    actionItems := FormatEachWithDetail(matches, 2);
  }

  /** The loop shared by the Comprehensive Set and Context/Action/Benefit formats. */
  method FormatEachWithDetail(matches: seq<Match>, g: nat) returns (actionItems: seq<string>)
    ensures actionItems == FormatAllWithDetail(matches, g)
  {
    actionItems := [];
    for k := 0 to |matches|
      invariant actionItems == FormatAllWithDetail(matches[..k], g)
    {
      var title := Strip(Group(matches[k], 0));
      var detail := Strip(Group(matches[k], g));
      var actionItem;
      if detail != [] {
        actionItem := title + ": " + SentenceHead(detail);
      } else {
        actionItem := title;
      }
      assert actionItem == FormatWithDetail(Group(matches[k], 0), Group(matches[k], g)) by {
        StripEmpty(Group(matches[k], g));
      }
      assert matches[..k + 1][..k] == matches[..k];
      actionItems := actionItems + [actionItem];
    }
    assert matches[..|matches|] == matches;
  }

  // ---------------------------------------------------------------------
  // utils/result_parser.py:320-375  extract_action_items_from_structured_list

  function StrippedTitles(ms: seq<Match>): (r: seq<string>)
    ensures |r| == |ms|
  {
    if ms == [] then [] else StrippedTitles(ms[..|ms| - 1]) + [Strip(Group(ms[|ms| - 1], 0))]
  }

  /** The first of the three list formats that matches anywhere decides the items. */
  function StructuredListItems(text: string): (r: seq<string>)
  {
    var m1 := FindAll(ActionBenefitItem, text);
    if m1 != [] then FormatAllWithDetail(m1, 2)
    else
      var m2 := FindAll(ThreeLabelItem, text);
      if m2 != [] then StrippedTitles(m2)
      else StrippedTitles(FindAll(BoldTitle, text))
  }

  method ExtractActionItemsFromStructuredList(text: string) returns (actionItems: seq<string>)
    ensures actionItems == StructuredListItems(text)
  {
    var matches1 := FindAll(ActionBenefitItem, text);
    if matches1 != [] {
      actionItems := FormatEachWithDetail(matches1, 2);
      return;
    }
    var matches2 := FindAll(ThreeLabelItem, text);
    if matches2 != [] {
      actionItems := StripEachTitle(matches2);
      return;
    }
    var matches3 := FindAll(BoldTitle, text);
    actionItems := StripEachTitle(matches3);
  }

  method StripEachTitle(matches: seq<Match>) returns (titles: seq<string>)
    ensures titles == StrippedTitles(matches)
  {
    titles := [];
    for k := 0 to |matches|
      invariant titles == StrippedTitles(matches[..k])
    {
      assert matches[..k + 1][..k] == matches[..k];
      titles := titles + [Strip(Group(matches[k], 0))];
    }
    assert matches[..|matches|] == matches;
  }

  /** The structured-list extractor finds items exactly when one of its three patterns matches somewhere. */
  lemma StructuredListEmpty(text: string)
    ensures StructuredListItems(text) == [] <==>
      forall j: nat :: j < |text| ==>
        MatchAt(ActionBenefitItem, text, j).None? && MatchAt(ThreeLabelItem, text, j).None? &&
        MatchAt(BoldTitle, text, j).None?
  {
    FindAllEmpty(ActionBenefitItem, text);
    FindAllEmpty(ThreeLabelItem, text);
    FindAllEmpty(BoldTitle, text);
  }

  // ---------------------------------------------------------------------
  // utils/result_parser.py:377-406  extract_topics_from_action_items

  /** The topic part of one item: before the first ':', else ' - ', else '(', stripped. */
  function TopicOf(item: string): string
  {
    var mainPart :=
      if Contains(item, ":") then Strip(Split(item, ":")[0])
      else if Contains(item, " - ") then Strip(Split(item, " - ")[0])
      else if Contains(item, "(") then Strip(Split(item, "(")[0])
      else item;
    Strip(mainPart)
  }

  /** The topic part of every item, in item order. */
  function TopicParts(items: seq<string>): (r: seq<string>)
    ensures |r| == |items|
  {
    MapLines(TopicOf, items)
  }

  /** The distinct non-empty strings of `parts`, each kept where it first appears. */
  function FirstOccurrences(parts: seq<string>): seq<string>
  {
    if parts == [] then []
    else
      var before := FirstOccurrences(parts[..|parts| - 1]);
      var p := parts[|parts| - 1];
      if p != [] && p !in before then before + [p] else before
  }

  function Topics(items: seq<string>): seq<string> {
    FirstOccurrences(TopicParts(items))
  }

  method ExtractTopicsFromActionItems(actionItems: seq<string>) returns (topics: seq<string>)
    ensures topics == Topics(actionItems)
  {
    topics := [];
    for k := 0 to |actionItems|
      invariant topics == Topics(actionItems[..k])
    {
      var item := actionItems[k];
      var mainPart := item;
      if Contains(item, ":") {
        mainPart := Strip(Split(item, ":")[0]);
      } else if Contains(item, " - ") {
        mainPart := Strip(Split(item, " - ")[0]);
      } else if Contains(item, "(") {
        mainPart := Strip(Split(item, "(")[0]);
      }
      var topic := Strip(mainPart);
      ghost var parts := TopicParts(actionItems[..k + 1]);
      assert actionItems[..k + 1][..k] == actionItems[..k];
      assert parts[..k] == TopicParts(actionItems[..k]) && parts[k] == topic;
      if topic != [] && topic !in topics {
        topics := topics + [topic];
      }
    }
    assert actionItems[..|actionItems|] == actionItems;
  }

  /** Topics are non-empty and pairwise distinct, and never outnumber the items. */
  lemma TopicsDistinct(items: seq<string>)
    ensures |Topics(items)| <= |items|
    ensures forall k :: 0 <= k < |Topics(items)| ==> Topics(items)[k] != []
    ensures forall i, j :: 0 <= i < j < |Topics(items)| ==> Topics(items)[i] != Topics(items)[j]
  {
    FirstOccurrencesDistinct(TopicParts(items));
  }

  lemma {:induction false} FirstOccurrencesDistinct(parts: seq<string>)
    ensures |FirstOccurrences(parts)| <= |parts|
    ensures forall k :: 0 <= k < |FirstOccurrences(parts)| ==> FirstOccurrences(parts)[k] != []
    ensures forall i, j :: 0 <= i < j < |FirstOccurrences(parts)| ==>
              FirstOccurrences(parts)[i] != FirstOccurrences(parts)[j]
    decreases |parts|
  {
    if parts != [] {
      FirstOccurrencesDistinct(parts[..|parts| - 1]);
    }
  }

  /** A string is a topic exactly when it is the non-empty topic part of some item. */
  lemma TopicsMembership(items: seq<string>, t: string)
    ensures t in Topics(items) <==> t != [] && exists k :: 0 <= k < |items| && TopicOf(items[k]) == t
  {
    FirstOccurrencesMembership(TopicParts(items), t);
    MapLinesAt(TopicOf, items);
    var parts := TopicParts(items);
    if t in parts {
      var k :| 0 <= k < |parts| && parts[k] == t;
      assert TopicOf(items[k]) == t;
    }
  }

  lemma {:induction false} FirstOccurrencesMembership(parts: seq<string>, t: string)
    ensures t in FirstOccurrences(parts) <==> t != [] && t in parts
    decreases |parts|
  {
    if parts != [] {
      FirstOccurrencesMembership(parts[..|parts| - 1], t);
      assert parts == parts[..|parts| - 1] + [parts[|parts| - 1]];
    }
  }

  /** The index of the first occurrence of `t` in `parts`, or `|parts|` when there is none. */
  function IndexOf(parts: seq<string>, t: string): (k: nat)
    ensures k <= |parts|
    ensures k < |parts| ==> parts[k] == t
    ensures forall j :: 0 <= j < k ==> parts[j] != t
    ensures k == |parts| <==> t !in parts
  {
    if parts == [] then 0
    else if parts[0] == t then 0
    else 1 + IndexOf(parts[1..], t)
  }

  /** Topics come in the order in which they first appear among the items. */
  lemma TopicsFirstSeenOrder(items: seq<string>, i: nat, j: nat)
    requires i < j < |Topics(items)|
    ensures IndexOf(TopicParts(items), Topics(items)[i]) < IndexOf(TopicParts(items), Topics(items)[j]) < |items|
  {
    FirstOccurrencesOrder(TopicParts(items), i, j);
  }

  lemma {:induction false} FirstOccurrencesOrder(parts: seq<string>, i: nat, j: nat)
    requires i < j < |FirstOccurrences(parts)|
    ensures IndexOf(parts, FirstOccurrences(parts)[i]) < IndexOf(parts, FirstOccurrences(parts)[j]) < |parts|
    decreases |parts|
  {
    var fo := FirstOccurrences(parts);
    var init := parts[..|parts| - 1];
    var before := FirstOccurrences(init);
    FirstOccurrencesMembership(parts, fo[i]);
    FirstOccurrencesMembership(parts, fo[j]);
    FirstOccurrencesMembership(init, fo[i]);
    IndexOfPrefix(parts, fo[i]);
    IndexOfPrefix(parts, fo[j]);
    if j < |before| {
      FirstOccurrencesOrder(init, i, j);
    } else {
      FirstOccurrencesMembership(init, fo[j]);
    }
  }

  /** Where `t` first occurs in `parts`, given where it first occurs in all but the last element. */
  lemma {:induction false} IndexOfPrefix(parts: seq<string>, t: string)
    requires parts != []
    ensures var f := IndexOf(parts[..|parts| - 1], t);
            IndexOf(parts, t) == if f < |parts| - 1 then f
                                 else if parts[|parts| - 1] == t then |parts| - 1
                                 else |parts|
    decreases |parts|
  {
    if parts[0] != t && |parts| > 1 {
      IndexOfPrefix(parts[1..], t);
      assert parts[1..][..|parts| - 2] == parts[..|parts| - 1][1..];
    }
  }
}
