/**
 * The crew-output parser (utils/result_parser.py:5-245, 659-694): the
 * cascade of detectors that turns one free-text answer into a record with a
 * summary, key topics, a sentiment analysis and action items, plus the
 * optional fact-check, research and translation fields, and the default
 * fill that completes a record.
 */
module ResultParser {
  import opened Wrappers
  import opened PyStrings
  import opened ParserPatterns
  import opened ParserExtract
  import opened ParserText
  import opened ParserAgents
  import opened ParserSections
  import opened ParserExtras

  // ---------------------------------------------------------------------
  // utils/result_parser.py:231-245  split_intro_and_items

  /** `^\d+\.\s+\*\*` under MULTILINE: a numbered bold heading at a line start. */
  predicate NumberedHeadingAt(t: string, q: nat) {
    (q == 0 || (q <= |t| && t[q - 1] == '\n')) && NumHeadEnd(t, q).Some?
  }

  /** `re.search`: the first heading at or after `q`. */
  function HeadingFrom(t: string, q: nat): (r: Option<nat>)
    requires q <= |t|
    ensures r.Some? ==> q <= r.value < |t| && NumberedHeadingAt(t, r.value)
    ensures r.Some? ==> forall k: nat :: q <= k < r.value ==> !NumberedHeadingAt(t, k)
    ensures r.None? ==> forall k: nat :: q <= k <= |t| ==> !NumberedHeadingAt(t, k)
    decreases |t| - q
  {
    if NumberedHeadingAt(t, q) then Some(q)
    else if q == |t| then None
    else HeadingFrom(t, q + 1)
  }

  /** Where the first numbered heading of the stripped text starts. */
  function FirstHeading(text: string): (r: Option<nat>)
  {
    HeadingFrom(Strip(text), 0)
  }

  /**
   * The intro before the first numbered heading and the rest, both stripped.
   * The offset is found in the stripped text but used on `text` itself.
   */
  function SplitIntroAndItems(text: string): (r: (string, string))
    ensures FirstHeading(text).None? ==> r == ("", text)
  {
    var m := FirstHeading(text);
    StripShorter(text);
    if m.Some? then (Strip(text[..m.value]), Strip(text[m.value..]))
    else ("", text)
  }

  /** The split the heading search describes: both halves taken from the stripped text. */
  function SplitStripped(text: string): (string, string) {
    var t := Strip(text);
    var m := FirstHeading(text);
    if m.Some? then (Strip(t[..m.value]), Strip(t[m.value..])) else ("", text)
  }

  /** Without leading whitespace the offset means the same in both strings, so the split is the intended one. */
  lemma SplitAgreesWithoutLeadingSpace(text: string)
    requires text == [] || !IsSpace(text[0])
    ensures SplitIntroAndItems(text) == SplitStripped(text)
  {
    var m := FirstHeading(text);
    if m.Some? {
      var t := Strip(text);
      var a := RunEnd(text, 0, IsSpace);
      assert a == 0;
      var b := RunStart(text, |text|, IsSpace);
      assert t == text[..b];
      var x := t[m.value..];
      assert text[..m.value] == t[..m.value];
      assert x != [] && !IsSpace(x[0]) && !IsSpace(x[|x| - 1]) by {
        assert NumHeadEnd(t, m.value).Some?;
        assert x[0] == t[m.value];
        assert x[|x| - 1] == text[b - 1];
      }
      var y := text[m.value..];
      assert y == x + text[b..];
      StripOfTrimmed(x, text[b..]);
      StripOfTrimmed(x, []);
      assert x + [] == x;
    }
  }

  /** A string that starts and ends with non-whitespace, followed by whitespace, strips to itself. */
  lemma StripOfTrimmed(x: string, w: string)
    requires x != [] && !IsSpace(x[0]) && !IsSpace(x[|x| - 1]) && AllSpace(w)
    ensures Strip(x + w) == x
  {
    var s := x + w;
    assert s[0] == x[0];
    assert RunEnd(s, 0, IsSpace) == 0;
    var b := RunStart(s, |s|, IsSpace);
    assert s[|x| - 1] == x[|x| - 1];
    assert b == |x|;
    assert s[0..b] == x;
  }

  /** With leading whitespace the offset lands inside the intro: the cut is shifted by the whitespace removed. */
  lemma SplitShiftedByLeadingSpace()
    ensures SplitIntroAndItems("  Intro\n1. **A**") == ("Intr", "o\n1. **A**")
  {
    var text := "  Intro\n1. **A**";
    ShiftExampleHeading();
    assert text[..6] == "  Intr";
    assert text[6..] == "o\n1. **A**";
    ShiftExampleHalves();
  }

  lemma ShiftExampleHeading()
    ensures FirstHeading("  Intro\n1. **A**") == Some(6)
  {
    var text := "  Intro\n1. **A**";
    var t := "Intro\n1. **A**";
    assert RunEnd(text, 0, IsSpace) == 2;
    assert RunStart(text, |text|, IsSpace) == |text|;
    assert Strip(text) == t;
    assert NumHeadEnd(t, 6) == Some(11) by {
      assert RunEnd(t, 6, IsDigit) == 7;
      assert RunEnd(t, 8, IsSpace) == 9;
      assert t[9..11] == "**";
    }
    assert NumberedHeadingAt(t, 6);
    forall q: nat | q < 6 ensures !NumberedHeadingAt(t, q) {
      assert !IsDigit(t[q]);
    }
    assert HeadingFrom(t, 0) == Some(6);
  }

  lemma ShiftExampleHalves()
    ensures Strip("  Intr") == "Intr"
    ensures Strip("o\n1. **A**") == "o\n1. **A**"
  {
    assert RunEnd("  Intr", 0, IsSpace) == 2;
    assert RunStart("  Intr", 6, IsSpace) == 6;
    assert RunEnd("o\n1. **A**", 0, IsSpace) == 0;
    assert RunStart("o\n1. **A**", 10, IsSpace) == 10;
  }

  // ---------------------------------------------------------------------
  // utils/result_parser.py:165-228  generate_summary_from_items, generate_sentiment_*

  const SummaryOpening :=
    "This podcast discusses important " +
    "insights and recommendations related to "
  const SummaryMiddle :=
    ". The content explores practical " +
    "applications and strategies for " +
    "implementing these concepts in various " +
    "contexts. The "
  const SummaryClosing :=
    " action items provide a roadmap for " +
    "leveraging the podcast's key themes and " +
    "insights effectively."

  /** The first three topics joined by ", ", and how many more there are. */
  function TopicText(topics: seq<string>): (r: string)
    ensures |topics| <= 3 ==> r == Join(topics, ", ")
    ensures |topics| > 3 ==> r == Join(topics[..3], ", ") + ", and " + NatToString(|topics| - 3) + " other areas"
  {
    var first := SlicePrefix(topics, 3);
    if |topics| > 3 then
      assert first == topics[..3];
      Join(first, ", ") + (", and " + NatToString(|topics| - 3) + " other areas")
    else
      assert first == topics;
      Join(first, ", ") + ""
  }

  function SummaryFromItems(items: seq<string>): (r: string)
    ensures StartsWith(r, SummaryOpening + TopicText(Topics(items)) + SummaryMiddle)
    ensures EndsWith(r, NatToString(|items|) + SummaryClosing)
  {
    var s := SummaryOpening + TopicText(Topics(items)) + SummaryMiddle + NatToString(|items|) + SummaryClosing;
    assert s == (SummaryOpening + TopicText(Topics(items)) + SummaryMiddle) + (NatToString(|items|) + SummaryClosing);
    s
  }

  /** The generated summary names each of the first three topics. */
  lemma SummaryNamesFirstTopics(items: seq<string>, k: nat)
    requires k < 3 && k < |Topics(items)|
    ensures Contains(SummaryFromItems(items), Topics(items)[k])
  {
    var topics := Topics(items);
    var x := topics[k];
    var text := TopicText(topics);
    TopicTextNames(topics, k);
    ContainsExtendLeft(SummaryOpening, text, x);
    ContainsExtendRight(SummaryOpening + text, SummaryMiddle, x);
    ContainsExtendRight(SummaryOpening + text + SummaryMiddle, NatToString(|items|), x);
    ContainsExtendRight(SummaryOpening + text + SummaryMiddle + NatToString(|items|), SummaryClosing, x);
  }

  lemma TopicTextNames(topics: seq<string>, k: nat)
    requires k < 3 && k < |topics|
    ensures Contains(TopicText(topics), topics[k])
  {
    var first := SlicePrefix(topics, 3);
    assert first[k] == topics[k];
    JoinContainsPart(first, ", ", k);
    if |topics| > 3 {
      ContainsExtendRight(Join(first, ", "), ", and " + NatToString(|topics| - 3) + " other areas", topics[k]);
    } else {
      ContainsExtendRight(Join(first, ", "), "", topics[k]);
    }
  }

  /** What occurs in a string occurs in it with anything appended. */
  lemma ContainsExtendRight(a: string, c: string, x: string)
    requires Contains(a, x)
    ensures Contains(a + c, x)
  {
    var i := FindFrom(a, x, 0);
    assert (a + c)[i..i + |x|] == a[i..i + |x|];
    ContainsAt(a + c, x, i);
  }

  /** What occurs in a string occurs in it with anything prepended. */
  lemma ContainsExtendLeft(a: string, b: string, x: string)
    requires Contains(b, x)
    ensures Contains(a + b, x)
  {
    var i := FindFrom(b, x, 0);
    assert (a + b)[|a| + i..|a| + i + |x|] == b[i..i + |x|];
    ContainsAt(a + b, x, |a| + i);
  }

  const IntroSentiment :=
    "The discussion presents a balanced and " +
    "informative exploration of the topic " +
    "with a professional tone. There's an " +
    "emphasis on practical application and " +
    "strategic implementation, reflecting a " +
    "solutions-oriented approach. The " +
    "content is delivered with clarity and " +
    "expertise, suggesting confidence in the " +
    "recommendations provided."
  const ItemsSentiment :=
    "The discussion maintains a professional " +
    "and constructive tone throughout, " +
    "focusing on practical solutions and " +
    "strategic approaches. There's a " +
    "balanced perspective that acknowledges " +
    "challenges while offering actionable " +
    "recommendations. The speakers " +
    "demonstrate expertise and enthusiasm " +
    "for the subject matter, presenting " +
    "ideas with confidence and clarity."

  function SentimentFromIntro(introText: string): string { IntroSentiment }

  function SentimentFromItems(items: seq<string>): string { ItemsSentiment }

  /** Neither sentiment generator looks at its argument. */
  lemma SentimentIgnoresInput(a: string, b: string, xs: seq<string>, ys: seq<string>)
    ensures SentimentFromIntro(a) == SentimentFromIntro(b) != []
    ensures SentimentFromItems(xs) == SentimentFromItems(ys) != []
  {
  }

  // ---------------------------------------------------------------------
  // The record

  datatype Parsed = Parsed(summary: string, keyTopics: seq<string>, sentimentAnalysis: string,
                           actionItems: seq<string>, extras: Extras)

  const NoExtras := Extras(None, None, None)

  /** The record every parse starts from, with the summary possibly already set. */
  function Initial(summary: string): Parsed { Parsed(summary, [], "", [], NoExtras) }

  /** The record of an early return: items, their topics and the generated texts. */
  function FromItems(items: seq<string>): Parsed {
    Parsed(SummaryFromItems(items), Topics(items), SentimentFromItems(items), items, NoExtras)
  }

  // utils/result_parser.py:659-694  ensure_complete_structure

  const DefaultSummary :=
    "This podcast explores important " +
    "concepts related to cultural heritage, " +
    "educational content, and accessibility. " +
    "It discusses strategies for enhancing " +
    "engagement with traditional narratives " +
    "and improving their relevance in " +
    "contemporary contexts."
  const DefaultTopics: seq<string> := ["Cultural Heritage", "Educational Content", "Translation Access", "Content Development", "Community Engagement"]
  const DefaultSentiment :=
    "The discussion presents a balanced and " +
    "constructive approach to the subject " +
    "matter. The tone is professional and " +
    "solutions-oriented, with emphasis on " +
    "practical implementation and strategic " +
    "planning. The content demonstrates " +
    "expertise and enthusiasm for enhancing " +
    "access to cultural materials."
  const DefaultActionItems: seq<string> := [
    "Improve Access to Translations: Invest " +
    "in high-quality translations that " +
    "capture nuances",
    "Develop Educational Programs: Create " +
    "content focused on historical and " +
    "cultural aspects",
    "Enhance Digital Accessibility: Utilize " +
    "modern platforms for broader " +
    "distribution",
    "Create Community Engagement: Develop " +
    "interactive experiences for diverse " +
    "audiences",
    "Implement Cross-Cultural Partnerships: " +
    "Collaborate with cultural institutions"]

  /** Exactly the empty canonical fields replaced by the fixed defaults. */
  function Completed(p: Parsed): (r: Parsed)
    ensures r.summary != [] && r.keyTopics != [] && r.sentimentAnalysis != [] && r.actionItems != []
    ensures r.summary == (if p.summary == [] then DefaultSummary else p.summary)
    ensures r.keyTopics == (if p.keyTopics == [] then DefaultTopics else p.keyTopics)
    ensures r.sentimentAnalysis == (if p.sentimentAnalysis == [] then DefaultSentiment else p.sentimentAnalysis)
    ensures r.actionItems == (if p.actionItems == [] then DefaultActionItems else p.actionItems)
    ensures r.extras == p.extras
  {
    Parsed(
      if p.summary != [] then p.summary else DefaultSummary,
      if p.keyTopics != [] then p.keyTopics else DefaultTopics,
      if p.sentimentAnalysis != [] then p.sentimentAnalysis else DefaultSentiment,
      if p.actionItems != [] then p.actionItems else DefaultActionItems,
      p.extras)
  }

  /** Completing a complete record changes nothing. */
  lemma CompletedIdempotent(p: Parsed)
    ensures Completed(Completed(p)) == Completed(p)
  {
  }

  // utils/result_parser.py:100-128  the agent stage

  /** The agent outputs mapped onto the record; the Executive Summarizer wins over the Content Analyzer. */
  function AgentStage(p: Parsed, outputs: map<string, string>): (r: Parsed)
    ensures r.extras == p.extras
    ensures ExecutiveSummarizer in outputs ==> r.summary == outputs[ExecutiveSummarizer]
    ensures ExecutiveSummarizer !in outputs && ContentAnalyzer !in outputs ==> r.summary == p.summary
    ensures p.keyTopics != [] ==> r.keyTopics == p.keyTopics
  {
    if outputs == map[] then p
    else
      var summary :=
        if ExecutiveSummarizer in outputs then outputs[ExecutiveSummarizer]
        else if ContentAnalyzer in outputs then outputs[ContentAnalyzer]
        else p.summary;
      var sentiment := if SentimentAnalyzer in outputs then outputs[SentimentAnalyzer] else p.sentimentAnalysis;
      if ActionItemExtractor in outputs then
        var actionText := outputs[ActionItemExtractor];
        var items := NumberedItems(actionText);
        var actions := if items != [] then items else ActionItemsFromText(actionText);
        p.(summary := summary, sentimentAnalysis := sentiment, actionItems := actions,
           keyTopics := if p.keyTopics == [] then Topics(actions) else p.keyTopics)
      else p.(summary := summary, sentimentAnalysis := sentiment)
  }

  // utils/result_parser.py:130-148  the header stage

  predicate AllEmpty(p: Parsed) {
    p.summary == [] && p.keyTopics == [] && p.sentimentAnalysis == [] && p.actionItems == []
  }

  /** `sections[f]` for a text field, or `otherwise` when the key is absent. */
  function TextOr(sections: map<Field, SectionValue>, f: Field, otherwise: string): string {
    if f in sections && sections[f].Text? then sections[f].text else otherwise
  }

  /** `sections[f]` for a list field, or `otherwise` when the key is absent. */
  function ItemsOr(sections: map<Field, SectionValue>, f: Field, otherwise: seq<string>): seq<string> {
    if f in sections && sections[f].Items? then sections[f].items else otherwise
  }

  /** The header sections, consulted only when the four fields are all still empty. */
  function HeaderStage(p: Parsed, text: string): (r: Parsed)
    ensures !AllEmpty(p) ==> r == p
    ensures r.extras == p.extras
  {
    if !AllEmpty(p) then p
    else
      var sections := ParseSections(text);
      Parsed(
        TextOr(sections, Summary, p.summary),
        ItemsOr(sections, KeyTopics, p.keyTopics),
        TextOr(sections, SentimentAnalysis, p.sentimentAnalysis),
        ItemsOr(sections, ActionItems, p.actionItems),
        p.extras)
  }

  // utils/result_parser.py:150-153  merging the additional fields

  /** Each additional field is added only where the record has none yet. */
  function MergeExtras(p: Parsed, e: Extras): (r: Parsed)
    ensures r.summary == p.summary && r.keyTopics == p.keyTopics
    ensures r.sentimentAnalysis == p.sentimentAnalysis && r.actionItems == p.actionItems
    ensures p.extras.factCheck.Some? ==> r.extras.factCheck == p.extras.factCheck
    ensures p.extras.research.Some? ==> r.extras.research == p.extras.research
    ensures p.extras.translations.Some? ==> r.extras.translations == p.extras.translations
    ensures p.extras == NoExtras ==> r.extras == e
  {
    p.(extras := Extras(
      if p.extras.factCheck.None? then e.factCheck else p.extras.factCheck,
      if p.extras.research.None? then e.research else p.extras.research,
      if p.extras.translations.None? then e.translations else p.extras.translations))
  }

  // utils/result_parser.py:155-160  cross-field synthesis

  /** Summary and sentiment generated from the action items, only where they are empty and items exist. */
  function Synthesized(p: Parsed): (r: Parsed)
    ensures r.actionItems == p.actionItems && r.keyTopics == p.keyTopics && r.extras == p.extras
    ensures p.actionItems != [] ==> r.summary != [] && r.sentimentAnalysis != []
    ensures p.actionItems == [] || p.summary != [] ==> r.summary == p.summary
    ensures p.actionItems == [] || p.sentimentAnalysis != [] ==> r.sentimentAnalysis == p.sentimentAnalysis
  {
    var summary := if p.actionItems != [] && p.summary == [] then SummaryFromItems(p.actionItems) else p.summary;
    var sentiment := if p.actionItems != [] && p.sentimentAnalysis == [] then SentimentFromItems(p.actionItems) else p.sentimentAnalysis;
    p.(summary := summary, sentimentAnalysis := sentiment)
  }

  // ---------------------------------------------------------------------
  // utils/result_parser.py:5-163  parse_crew_result

  /** Stage 1 applies when there is an intro and the rest contains "1. **". */
  predicate IntroStageApplies(raw: string) {
    var split := SplitIntroAndItems(raw);
    split.0 != [] && Contains(split.1, "1. **")
  }

  function IntroItems(raw: string): seq<string> {
    if IntroStageApplies(raw) then NumberedItems(SplitIntroAndItems(raw).1) else []
  }

  /** The summary the later stages start from: the intro when stage 1 applied without items. */
  function IntroSummary(raw: string): string {
    if IntroStageApplies(raw) then SplitIntroAndItems(raw).0 else ""
  }

  function LeadItems(raw: string): seq<string> {
    var stripped := Strip(raw);
    if StartsWith(stripped, "1. **") || NumHeadEnd(stripped, 0).Some? then NumberedItems(raw) else []
  }

  function PrioritizedItems(raw: string): seq<string> {
    if Contains(raw, "Prioritized Action Items") || Contains(Lower(raw), "prioritized list") then StructuredListItems(raw) else []
  }

  function ComprehensiveStageItems(raw: string): seq<string> {
    if Contains(raw, "Comprehensive Set") then ComprehensiveItems(raw) else []
  }

  /** One of the four list detectors found items, and the parse returned before the later stages. */
  predicate ReturnsEarly(raw: string) {
    IntroItems(raw) != [] || LeadItems(raw) != [] || PrioritizedItems(raw) != [] || ComprehensiveStageItems(raw) != []
  }

  /** Agents, headers, additional fields, synthesis and defaults, in that order. */
  function LateStages(raw: string): Parsed {
    var afterAgents := AgentStage(Initial(IntroSummary(raw)), AgentOutputs(raw));
    var afterHeaders := HeaderStage(afterAgents, raw);
    Completed(Synthesized(MergeExtras(afterHeaders, ExtraFields(raw))))
  }

  /** The record stage 1 returns: the intro as summary, the list as action items. */
  function IntroResult(raw: string): Parsed {
    var intro := SplitIntroAndItems(raw).0;
    var items := IntroItems(raw);
    Parsed(intro, Topics(items), SentimentFromIntro(intro), items, NoExtras)
  }

  /** The items of the first of stages 2 to 4 that found any. */
  function ListStageItems(raw: string): seq<string> {
    if LeadItems(raw) != [] then LeadItems(raw)
    else if PrioritizedItems(raw) != [] then PrioritizedItems(raw)
    else ComprehensiveStageItems(raw)
  }

  function ParseResult(raw: string): Parsed {
    if IntroItems(raw) != [] then IntroResult(raw)
    else if ListStageItems(raw) != [] then FromItems(ListStageItems(raw))
    else LateStages(raw)
  }

  /** An early return carries its items, their topics and non-empty texts, and skips extras and defaults. */
  lemma EarlyReturnShape(raw: string)
    requires ReturnsEarly(raw)
    ensures var r := ParseResult(raw);
            r.actionItems != [] && r.keyTopics == Topics(r.actionItems) &&
            r.summary != [] && r.sentimentAnalysis != [] && r.extras == NoExtras
  {
  }

  /** Every other parse ends with all four fields non-empty and the additional fields of the text. */
  lemma LateResultComplete(raw: string)
    requires !ReturnsEarly(raw)
    ensures var r := ParseResult(raw);
            r.summary != [] && r.keyTopics != [] && r.sentimentAnalysis != [] && r.actionItems != [] &&
            r.extras == ExtraFields(raw)
  {
    var afterAgents := AgentStage(Initial(IntroSummary(raw)), AgentOutputs(raw));
    assert afterAgents.extras == NoExtras;
    assert HeaderStage(afterAgents, raw).extras == NoExtras;
  }

  /** Summary, sentiment and action items are never empty; key topics can be empty only after an early return. */
  lemma ParsedFieldsNonEmpty(raw: string)
    ensures var r := ParseResult(raw);
            r.summary != [] && r.sentimentAnalysis != [] && r.actionItems != [] &&
            (r.keyTopics == [] ==> ReturnsEarly(raw))
  {
    if ReturnsEarly(raw) {
      EarlyReturnShape(raw);
    } else {
      LateResultComplete(raw);
    }
  }

  /** Without an early return, a non-empty Executive Summarizer output is the summary. */
  lemma ExecutiveSummarizerWins(raw: string)
    requires !ReturnsEarly(raw)
    requires ExecutiveSummarizer in AgentOutputs(raw) && AgentOutputs(raw)[ExecutiveSummarizer] != []
    ensures ParseResult(raw).summary == AgentOutputs(raw)[ExecutiveSummarizer]
  {
    var afterAgents := AgentStage(Initial(IntroSummary(raw)), AgentOutputs(raw));
    assert !AllEmpty(afterAgents);
  }

  /** Without an early return or a summarizer, a non-empty Content Analyzer output is the summary. */
  lemma ContentAnalyzerSummary(raw: string)
    requires !ReturnsEarly(raw)
    requires ExecutiveSummarizer !in AgentOutputs(raw)
    requires ContentAnalyzer in AgentOutputs(raw) && AgentOutputs(raw)[ContentAnalyzer] != []
    ensures ParseResult(raw).summary == AgentOutputs(raw)[ContentAnalyzer]
  {
    var afterAgents := AgentStage(Initial(IntroSummary(raw)), AgentOutputs(raw));
    assert afterAgents.summary == AgentOutputs(raw)[ContentAnalyzer];
    assert !AllEmpty(afterAgents);
  }

  /** When nothing before the header stage found anything, the summary section, if non-empty, is the summary. */
  lemma HeaderSummaryUsed(raw: string)
    requires !ReturnsEarly(raw) && IntroSummary(raw) == [] && AgentOutputs(raw) == map[]
    requires TextOr(ParseSections(raw), Summary, "") != []
    ensures ParseResult(raw).summary == TextOr(ParseSections(raw), Summary, "")
  {
  }

  // ---------------------------------------------------------------------
  // The `structured_result` dictionary, updated in place

  class ResultRecord {
    var summary: string
    var keyTopics: seq<string>
    var sentimentAnalysis: string
    var actionItems: seq<string>
    /** The optional keys; `None` is a key the dictionary does not have. */
    var factCheck: Option<FactCheck>
    var research: Option<string>
    var translations: Option<map<string, string>>

    constructor ()
      ensures Snapshot() == Initial("")
    {
      summary := "";
      keyTopics := [];
      sentimentAnalysis := "";
      actionItems := [];
      factCheck := None;
      research := None;
      translations := None;
    }

    function Snapshot(): Parsed
      reads this
    {
      Parsed(summary, keyTopics, sentimentAnalysis, actionItems, Extras(factCheck, research, translations))
    }
  }

  method EnsureCompleteStructure(structuredResult: ResultRecord)
    modifies structuredResult
    ensures structuredResult.Snapshot() == Completed(old(structuredResult.Snapshot()))
  {
    if structuredResult.summary == [] {
      structuredResult.summary := DefaultSummary;
    }
    if structuredResult.keyTopics == [] {
      structuredResult.keyTopics := DefaultTopics;
    }
    if structuredResult.sentimentAnalysis == [] {
      structuredResult.sentimentAnalysis := DefaultSentiment;
    }
    if structuredResult.actionItems == [] {
      structuredResult.actionItems := DefaultActionItems;
    }
  }

  method ParseCrewResult(rawResult: string) returns (structuredResult: ResultRecord)
    ensures fresh(structuredResult)
    ensures structuredResult.Snapshot() == ParseResult(rawResult)
  {
    structuredResult := new ResultRecord();
    var done := RunIntroStage(structuredResult, rawResult);
    if done {
      return;
    }
    done := RunListStages(structuredResult, rawResult);
    if done {
      return;
    }
    RunLateStages(structuredResult, rawResult);
  }

  /** Stage 1: an intro paragraph followed by a numbered list; `done` when it returned. */
  method RunIntroStage(structuredResult: ResultRecord, rawResult: string) returns (done: bool)
    requires structuredResult.Snapshot() == Initial("")
    modifies structuredResult
    ensures done <==> IntroItems(rawResult) != []
    ensures done ==> structuredResult.Snapshot() == IntroResult(rawResult)
    ensures !done ==> structuredResult.Snapshot() == Initial(IntroSummary(rawResult))
  {
    var split := SplitIntroAndItems(rawResult);
    var introParagraph := split.0;
    var itemsSection := split.1;
    done := false;
    if introParagraph != [] && Contains(itemsSection, "1. **") {
      assert IntroStageApplies(rawResult);
      structuredResult.summary := introParagraph;
      var items := ExtractNumberedItemsWithDescriptions(itemsSection);
      assert items == IntroItems(rawResult);
      if items != [] {
        FillFromIntro(structuredResult, introParagraph, items);
        done := true;
      } else {
        assert structuredResult.Snapshot() == Initial(introParagraph);
      }
    } else {
      assert !IntroStageApplies(rawResult);
    }
  }

  /** The tail of stage 1: the list, its topics and the intro-based sentiment. */
  method FillFromIntro(structuredResult: ResultRecord, introParagraph: string, items: seq<string>)
    requires structuredResult.Snapshot().extras == NoExtras
    modifies structuredResult
    ensures structuredResult.Snapshot() ==
            Parsed(introParagraph, Topics(items), SentimentFromIntro(introParagraph), items, NoExtras)
  {
    structuredResult.summary := introParagraph;
    structuredResult.actionItems := items;
    structuredResult.keyTopics := ExtractTopicsFromActionItems(items);
    structuredResult.sentimentAnalysis := SentimentFromIntro(introParagraph);
  }

  /** Stages 2 to 4: a leading numbered list, a prioritized list, a comprehensive set; `done` when one returned. */
  method RunListStages(structuredResult: ResultRecord, rawResult: string) returns (done: bool)
    requires structuredResult.Snapshot().extras == NoExtras
    modifies structuredResult
    ensures done <==> ListStageItems(rawResult) != []
    ensures done ==> structuredResult.Snapshot() == FromItems(ListStageItems(rawResult))
    ensures !done ==> structuredResult.Snapshot() == old(structuredResult.Snapshot())
  {
    done := false;
    var stripped := Strip(rawResult);
    if StartsWith(stripped, "1. **") || NumHeadEnd(stripped, 0).Some? {
      var items := ExtractNumberedItemsWithDescriptions(rawResult);
      if items != [] {
        FillFromItems(structuredResult, items);
        return true;
      }
    }
    if Contains(rawResult, "Prioritized Action Items") || Contains(Lower(rawResult), "prioritized list") {
      var actionItems := ExtractActionItemsFromStructuredList(rawResult);
      if actionItems != [] {
        FillFromItems(structuredResult, actionItems);
        return true;
      }
    }
    if Contains(rawResult, "Comprehensive Set") {
      var actionItems := ExtractComprehensiveItems(rawResult);
      if actionItems != [] {
        FillFromItems(structuredResult, actionItems);
        return true;
      }
    }
  }

  /** Steps 3 to 7 of the cascade, on a record that holds at most the intro as summary. */
  method RunLateStages(structuredResult: ResultRecord, rawResult: string)
    requires structuredResult.Snapshot() == Initial(IntroSummary(rawResult))
    modifies structuredResult
    ensures structuredResult.Snapshot() == LateStages(rawResult)
  {
    var agentOutputs := ExtractAgentOutputs(rawResult);
    ApplyAgentOutputs(structuredResult, agentOutputs);
    if AllEmpty(structuredResult.Snapshot()) {
      var parsedSections := ParseSectionsWithHeaders(rawResult);
      ApplySections(structuredResult, parsedSections);
    }
    var additionalFields := ExtractAdditionalFields(rawResult);
    MergeAdditionalFields(structuredResult, additionalFields);
    SynthesizeMissingFields(structuredResult);
    EnsureCompleteStructure(structuredResult);
  }

  /** The shared tail of stages 2 to 4: items, their topics, and generated summary and sentiment. */
  method FillFromItems(structuredResult: ResultRecord, items: seq<string>)
    requires structuredResult.Snapshot().extras == NoExtras
    modifies structuredResult
    ensures structuredResult.Snapshot() == FromItems(items)
  {
    structuredResult.actionItems := items;
    structuredResult.keyTopics := ExtractTopicsFromActionItems(items);
    structuredResult.summary := SummaryFromItems(items);
    structuredResult.sentimentAnalysis := SentimentFromItems(items);
  }

  method ApplyAgentOutputs(structuredResult: ResultRecord, agentOutputs: map<string, string>)
    modifies structuredResult
    ensures structuredResult.Snapshot() == AgentStage(old(structuredResult.Snapshot()), agentOutputs)
  {
    if agentOutputs == map[] {
      return;
    }
    if ExecutiveSummarizer in agentOutputs {
      structuredResult.summary := agentOutputs[ExecutiveSummarizer];
    } else if ContentAnalyzer in agentOutputs {
      structuredResult.summary := agentOutputs[ContentAnalyzer];
    }
    if SentimentAnalyzer in agentOutputs {
      structuredResult.sentimentAnalysis := agentOutputs[SentimentAnalyzer];
    }
    if ActionItemExtractor in agentOutputs {
      var actionText := agentOutputs[ActionItemExtractor];
      var items := ExtractNumberedItemsWithDescriptions(actionText);
      if items != [] {
        structuredResult.actionItems := items;
      } else {
        var actionItems := ExtractActionItemsFromText(actionText);
        structuredResult.actionItems := actionItems;
      }
      if structuredResult.keyTopics == [] {
        structuredResult.keyTopics := ExtractTopicsFromActionItems(structuredResult.actionItems);
      }
    }
  }

  method ApplySections(structuredResult: ResultRecord, parsedSections: map<Field, SectionValue>)
    requires forall f :: f in parsedSections ==> (parsedSections[f].Items? <==> f == KeyTopics || f == ActionItems)
    modifies structuredResult
    ensures var p := old(structuredResult.Snapshot());
            structuredResult.Snapshot() == Parsed(
              TextOr(parsedSections, Summary, p.summary),
              ItemsOr(parsedSections, KeyTopics, p.keyTopics),
              TextOr(parsedSections, SentimentAnalysis, p.sentimentAnalysis),
              ItemsOr(parsedSections, ActionItems, p.actionItems),
              p.extras)
  {
    if Summary in parsedSections {
      structuredResult.summary := parsedSections[Summary].text;
    }
    if KeyTopics in parsedSections {
      structuredResult.keyTopics := parsedSections[KeyTopics].items;
    }
    if SentimentAnalysis in parsedSections {
      structuredResult.sentimentAnalysis := parsedSections[SentimentAnalysis].text;
    }
    if ActionItems in parsedSections {
      structuredResult.actionItems := parsedSections[ActionItems].items;
    }
  }

  method MergeAdditionalFields(structuredResult: ResultRecord, additionalFields: Extras)
    modifies structuredResult
    ensures structuredResult.Snapshot() == MergeExtras(old(structuredResult.Snapshot()), additionalFields)
  {
    if additionalFields.factCheck.Some? && structuredResult.factCheck.None? {
      structuredResult.factCheck := additionalFields.factCheck;
    }
    if additionalFields.research.Some? && structuredResult.research.None? {
      structuredResult.research := additionalFields.research;
    }
    if additionalFields.translations.Some? && structuredResult.translations.None? {
      structuredResult.translations := additionalFields.translations;
    }
  }

  method SynthesizeMissingFields(structuredResult: ResultRecord)
    modifies structuredResult
    ensures structuredResult.Snapshot() == Synthesized(old(structuredResult.Snapshot()))
  {
    if structuredResult.actionItems != [] && structuredResult.summary == [] {
      structuredResult.summary := SummaryFromItems(structuredResult.actionItems);
    }
    if structuredResult.actionItems != [] && structuredResult.sentimentAnalysis == [] {
      structuredResult.sentimentAnalysis := SentimentFromItems(structuredResult.actionItems);
    }
  }
}
