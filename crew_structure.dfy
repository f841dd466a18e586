/**
 * The older header-splitting parser of the podcast crew
 * (agents/crew.py:95-147): each field is the text after its header, cut at
 * the one header expected to follow it; nothing is filled in by default.
 */
module CrewStructure {
  import opened PyStrings

  datatype Structured = Structured(summary: string, keyTopics: seq<string>, sentimentAnalysis: string, actionItems: seq<string>)

  const SummaryHeader := "Executive Summary:"
  const TopicsHeader := "Key Topics:"
  const SentimentHeader := "Sentiment Analysis:"
  const ActionsHeader := "Action Items:"

  /** `raw.split(header)[1]`, when the header occurs. */
  function SecondPart(raw: string, header: string): string
    requires header != [] && Contains(raw, header)
  {
    SplitSecond(raw, header);
    Split(raw, header)[1]
  }

  /** `line.strip("- ").strip()` for every non-blank line, in order. */
  function CleanLines(lines: seq<string>): (r: seq<string>)
    ensures |r| <= |lines|
  {
    if lines == [] then []
    else
      var line := lines[|lines| - 1];
      CleanLines(lines[..|lines| - 1]) + (if Strip(line) != [] then [Strip(StripDashSpace(line))] else [])
  }

  function StructureResults(raw: string): (r: Structured)
    ensures !Contains(raw, SummaryHeader) ==> r.summary == []
    ensures !Contains(raw, TopicsHeader) ==> r.keyTopics == []
    ensures !Contains(raw, SentimentHeader) ==> r.sentimentAnalysis == []
    ensures !Contains(raw, ActionsHeader) ==> r.actionItems == []
  {
    var summary :=
      if Contains(raw, SummaryHeader) then Strip(Split(SecondPart(raw, SummaryHeader), TopicsHeader)[0]) else "";
    var topics :=
      if Contains(raw, TopicsHeader) then
        var topicsText := Strip(Split(SecondPart(raw, TopicsHeader), SentimentHeader)[0]);
        CleanLines(Split(topicsText, "\n"))
      else [];
    var sentiment :=
      if Contains(raw, SentimentHeader) then Strip(Split(SecondPart(raw, SentimentHeader), ActionsHeader)[0]) else "";
    var actions :=
      if Contains(raw, ActionsHeader) then CleanLines(Split(Strip(SecondPart(raw, ActionsHeader)), "\n")) else [];
    Structured(summary, topics, sentiment, actions)
  }

  /** What follows the first occurrence of `header`. */
  function After(s: string, header: string): string
    requires Contains(s, header)
  {
    s[FindFrom(s, header, 0) + |header|..]
  }

  /** What precedes the first occurrence of `sep`, or all of `s`. */
  function Before(s: string, sep: string): (r: string)
    requires sep != []
    ensures StartsWith(s, r)
    ensures !Contains(r, sep)
  {
    var i := FindFrom(s, sep, 0);
    if i < 0 then s
    else
      assert !Contains(s[..i], sep) by {
        var j := FindFrom(s[..i], sep, 0);
        if j != -1 {
          assert s[..i][j..j + |sep|] == s[j..j + |sep|];
          assert j < i && OccursAt(s, sep, j);
          assert false;
        }
      }
      s[..i]
  }

  /** A header's segment: from after its first occurrence up to its next one. */
  function Segment(raw: string, header: string): string
    requires header != [] && Contains(raw, header)
  {
    Before(After(raw, header), header)
  }

  lemma SecondPartIsSegment(raw: string, header: string)
    requires header != [] && Contains(raw, header)
    ensures SecondPart(raw, header) == Segment(raw, header)
  {
    SplitSecond(raw, header);
    SplitHead(After(raw, header), header);
  }

  /** The summary is the summary segment cut before the first "Key Topics:", stripped. */
  lemma SummaryIsSegmentBeforeTopics(raw: string)
    requires Contains(raw, SummaryHeader)
    ensures StructureResults(raw).summary == Strip(Before(Segment(raw, SummaryHeader), TopicsHeader))
  {
    SecondPartIsSegment(raw, SummaryHeader);
    SplitHead(Segment(raw, SummaryHeader), TopicsHeader);
  }

  /** The sentiment is its segment cut before the first "Action Items:", stripped. */
  lemma SentimentIsSegmentBeforeActions(raw: string)
    requires Contains(raw, SentimentHeader)
    ensures StructureResults(raw).sentimentAnalysis == Strip(Before(Segment(raw, SentimentHeader), ActionsHeader))
  {
    SecondPartIsSegment(raw, SentimentHeader);
    SplitHead(Segment(raw, SentimentHeader), ActionsHeader);
  }

  /** The topics are the cleaned non-blank lines of their segment cut before "Sentiment Analysis:". */
  lemma TopicsAreSegmentLines(raw: string)
    requires Contains(raw, TopicsHeader)
    ensures StructureResults(raw).keyTopics ==
            CleanLines(Split(Strip(Before(Segment(raw, TopicsHeader), SentimentHeader)), "\n"))
  {
    SecondPartIsSegment(raw, TopicsHeader);
    SplitHead(Segment(raw, TopicsHeader), SentimentHeader);
  }

  /** The action items are the cleaned non-blank lines of their whole segment. */
  lemma ActionsAreSegmentLines(raw: string)
    requires Contains(raw, ActionsHeader)
    ensures StructureResults(raw).actionItems == CleanLines(Split(Strip(Segment(raw, ActionsHeader)), "\n"))
  {
    SecondPartIsSegment(raw, ActionsHeader);
  }

  /**
   * Only "Key Topics:" ends the summary: when its segment holds no "Key Topics:",
   * every other header in it stays part of the summary.
   */
  lemma SummaryKeepsOtherHeaders(raw: string)
    requires Contains(raw, SummaryHeader) && !Contains(Segment(raw, SummaryHeader), TopicsHeader)
    ensures StructureResults(raw).summary == Strip(Segment(raw, SummaryHeader))
  {
    SummaryIsSegmentBeforeTopics(raw);
  }

  /** One cleaned entry per non-blank line: blank lines are the only ones dropped. */
  lemma {:induction false} CleanLinesCount(lines: seq<string>)
    ensures |CleanLines(lines)| == |NonBlankLines(lines)|
    decreases |lines|
  {
    if lines != [] {
      CleanLinesCount(lines[..|lines| - 1]);
    }
  }

  function NonBlankLines(lines: seq<string>): seq<string> {
    if lines == [] then []
    else NonBlankLines(lines[..|lines| - 1]) + (if AllSpace(lines[|lines| - 1]) then [] else [lines[|lines| - 1]])
  }

  /** A line of dashes is not blank, so it gives an empty topic. */
  lemma DashLineGivesEmptyTopic()
    ensures CleanLines(["---"]) == [""]
  {
    var line := "---";
    assert RunEnd(line, 0, IsSpace) == 0;
    assert RunStart(line, 3, IsSpace) == 3;
    assert Strip(line) == line;
    assert RunEnd(line, 0, c => c == '-' || c == ' ') == 3;
    assert StripDashSpace(line) == [];
    assert ["---"][..0] == [];
  }
}
