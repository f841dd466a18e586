/**
 * The line parsing of the researcher agent (agents/definitions/researcher.py):
 * sources and research topics read off the model's answer line by line. The
 * answer is a parameter.
 */
module Researcher {
  import opened Wrappers
  import opened PyStrings
  import opened LineParsing

  /** `s[1:]` */
  function DropFirst(s: string): string {
    if s == [] then [] else s[1..]
  }

  /** A stripped line starting with "- " or "* ". */
  predicate IsBullet(t: string) {
    StartsWith(t, "- ") || StartsWith(t, "* ")
  }

  // ---------------------------------------------------------------------
  // find_related_sources

  /** What one line of the answer contributes as a source. */
  function SourceOf(line: string): Option<string> {
    var t := Strip(line);
    if IsBullet(t) then Some(t[2..])
    else if StartsWith(t, "[") && Contains(line, "]") then
      var parts := Split(t, "]");
      if |parts| > 1 then Some(DropFirst(parts[0])) else None
    else None
  }

  function Sources(result: string): seq<string> {
    CollectLines(SourceOf, Split(Strip(result), "\n"))
  }

  method FindRelatedSources(result: string) returns (sources: seq<string>)
    ensures sources == Sources(result)
  {
    var lines := Split(Strip(result), "\n");
    sources := [];
    for k := 0 to |lines|
      invariant sources == CollectLines(SourceOf, lines[..k])
    {
      CollectLinesStep(SourceOf, lines, k);
      var source := SourceOf(lines[k]);
      if source.Some? {
        sources := sources + [source.value];
      }
    }
    assert lines[..|lines|] == lines;
  }

  /** A bullet line contributes the stripped line without its two-character marker. */
  lemma BulletSource(line: string)
    requires IsBullet(Strip(line))
    ensures SourceOf(line) == Some(Strip(line)[2..])
  {
  }

  /**
   * A line in link form contributes the text between its leading '[' and its
   * first ']', which holds no ']'.
   */
  lemma LinkSource(line: string)
    requires !IsBullet(Strip(line)) && StartsWith(Strip(line), "[") && Contains(Strip(line), "]")
    ensures var t := Strip(line);
            var e := FindFrom(t, "]", 0);
            1 <= e && SourceOf(line) == Some(t[1..e]) && ']' !in t[1..e]
  {
    var t := Strip(line);
    var e := FindFrom(t, "]", 0);
    FirstCloseBracket(t);
    StripCharIn(line, ']');
    CharContained(line, ']');
    SplitHead(t, "]");
    SplitSecond(t, "]");
    assert t[..e][1..] == t[1..e];
  }

  /** In a text starting with '[', the first ']' comes after it, with no ']' in between. */
  lemma FirstCloseBracket(t: string)
    requires StartsWith(t, "[") && Contains(t, "]")
    ensures var e := FindFrom(t, "]", 0);
            1 <= e < |t| && t[e] == ']' && ']' !in t[1..e]
  {
    var e := FindFrom(t, "]", 0);
    assert t[e] == t[e..e + 1][0];
    assert t[0] == t[..1][0];
    forall j | 1 <= j < e
      ensures t[j] != ']'
    {
      NotAtChar(t, ']', j);
    }
  }

  lemma NotAtChar(t: string, c: char, j: nat)
    requires j < |t| && !OccursAt(t, [c], j)
    ensures t[j] != c
  {
    assert t[j..j + 1] == [t[j]];
  }

  /** A character of the stripped line is a character of the line. */
  lemma StripCharIn(line: string, c: char)
    requires c in Strip(line)
    ensures c in line
  {
    var a := RunEnd(line, 0, IsSpace);
    var b := RunStart(line, |line|, IsSpace);
    assert Strip(line) == line[a..b];
  }

  /** A character of `s` is contained in `s` as a one-character text. */
  lemma CharContained(s: string, c: char)
    requires c in s
    ensures Contains(s, [c])
  {
    var k :| 0 <= k < |s| && s[k] == c;
    assert s[k..k + 1] == [c];
    ContainsAt(s, [c], k);
  }

  /** A line that is neither a bullet nor starts with '[' contributes nothing. */
  lemma OtherLinesIgnored(line: string)
    requires !IsBullet(Strip(line)) && !StartsWith(Strip(line), "[")
    ensures SourceOf(line) == None
  {
  }

  // ---------------------------------------------------------------------
  // extract_key_topics_for_research

  /** `line.split(':')[0]`: the raw text before the first ':'. */
  function BeforeColon(line: string): string {
    Split(line, ":")[0]
  }

  /** What one line contributes as a topic. */
  function ResearchTopicOf(line: string): Option<string> {
    var t := Strip(line);
    if IsBullet(t) then Some(t[2..])
    else if Contains(line, ":") && |BeforeColon(line)| < 30 then Some(Strip(BeforeColon(line)))
    else None
  }

  function ResearchTopics(result: string): seq<string> {
    CollectLines(ResearchTopicOf, Split(Strip(result), "\n"))
  }

  /** All topic lines are read, then only the first `maxTopics` topics are kept. */
  method ExtractKeyTopicsForResearch(result: string, maxTopics: int) returns (topics: seq<string>)
    ensures topics == SlicePrefix(ResearchTopics(result), maxTopics)
  {
    var lines := Split(Strip(result), "\n");
    var all := [];
    for k := 0 to |lines|
      invariant all == CollectLines(ResearchTopicOf, lines[..k])
    {
      CollectLinesStep(ResearchTopicOf, lines, k);
      var line := lines[k];
      var t := Strip(line);
      if StartsWith(t, "- ") || StartsWith(t, "* ") {
        all := all + [t[2..]];
      } else if Contains(line, ":") && |Split(line, ":")[0]| < 30 {
        all := all + [Strip(Split(line, ":")[0])];
      }
    }
    assert lines[..|lines|] == lines;
    topics := SlicePrefix(all, maxTopics);
  }

  /** A non-bullet line with a short label before its first ':' contributes that label, stripped. */
  lemma LabelTopic(line: string)
    requires !IsBullet(Strip(line)) && Contains(line, ":")
    ensures var c := FindFrom(line, ":", 0);
            ResearchTopicOf(line) == if c < 30 then Some(Strip(line[..c])) else None
  {
    SplitHead(line, ":");
  }

  /** At most `maxTopics` topics come back, and they are the first ones found. */
  lemma TopicsCapped(result: string, maxTopics: nat)
    ensures var all := ResearchTopics(result);
            var r := SlicePrefix(all, maxTopics);
            |r| <= maxTopics && r == all[..|r|] && (|all| <= maxTopics ==> r == all)
  {
  }
}
