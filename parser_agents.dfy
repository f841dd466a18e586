/**
 * Agent outputs (utils/result_parser.py:408-449): the final answer of each
 * "# Agent:" block keyed by the agent's name, or, when the text has no such
 * block, the output of each "TASK COMPLETED:" block keyed by the agent its
 * description points to.
 */
module ParserAgents {
  import opened Wrappers
  import opened PyStrings
  import opened ParserPatterns

  const ExecutiveSummarizer := "Executive Summarizer"
  const SentimentAnalyzer := "Sentiment Analyzer"
  const ActionItemExtractor := "Action Item Extractor"
  const ContentAnalyzer := "Content Analyzer"

  predicate IsKnownAgent(name: string) {
    name == ExecutiveSummarizer || name == SentimentAnalyzer ||
    name == ActionItemExtractor || name == ContentAnalyzer
  }

  /** The name an agent block is filed under: its first group, stripped. */
  function AgentName(m: Match): string { Strip(Group(m, 0)) }

  /** What is filed: the block's second group, stripped. */
  function AgentContent(m: Match): string { Strip(Group(m, 1)) }

  /** The agent blocks as a dictionary; a later block of the same agent replaces an earlier one. */
  function AgentMap(ms: seq<Match>): map<string, string> {
    if ms == [] then map[]
    else AgentMap(ms[..|ms| - 1])[AgentName(ms[|ms| - 1]) := AgentContent(ms[|ms| - 1])]
  }

  /** An agent is filed exactly when some block names it. */
  lemma {:induction false} AgentMapKeys(ms: seq<Match>)
    ensures forall name :: name in AgentMap(ms) <==> exists k :: 0 <= k < |ms| && AgentName(ms[k]) == name
    decreases |ms|
  {
    if ms != [] {
      AgentMapKeys(ms[..|ms| - 1]);
      assert forall k :: 0 <= k < |ms| - 1 ==> ms[..|ms| - 1][k] == ms[k];
    }
  }

  /**
   * The agent a task description belongs to, tried in the order summary,
   * sentiment, action items, analysis, on the lower-cased description.
   */
  function TaskAgent(desc: string): (r: Option<string>)
    ensures r.Some? ==> IsKnownAgent(r.value)
    ensures r.None? <==> !Contains(Lower(desc), "summariz") && !Contains(Lower(desc), "sentiment") &&
                         !Contains(Lower(desc), "action item") && !Contains(Lower(desc), "analyze")
    ensures Contains(Lower(desc), "summariz") ==> r == Some(ExecutiveSummarizer)
  {
    var d := Lower(desc);
    if Contains(d, "summariz") then Some(ExecutiveSummarizer)
    else if Contains(d, "sentiment") then Some(SentimentAnalyzer)
    else if Contains(d, "action item") then Some(ActionItemExtractor)
    else if Contains(d, "analyze") then Some(ContentAnalyzer)
    else None
  }

  function TaskAgentOf(m: Match): Option<string> { TaskAgent(Strip(Group(m, 0))) }

  /** Blocks filed by `key`, a later block replacing an earlier one; blocks without a key are dropped. */
  function FileBy(key: Match -> Option<string>, ms: seq<Match>): map<string, string> {
    if ms == [] then map[]
    else
      var before := FileBy(key, ms[..|ms| - 1]);
      var m := ms[|ms| - 1];
      if key(m).Some? then before[key(m).value := AgentContent(m)] else before
  }

  /** A name is filed exactly when some block's key is that name. */
  lemma {:induction false} FileByKeys(key: Match -> Option<string>, ms: seq<Match>, name: string)
    ensures name in FileBy(key, ms) <==> exists k :: 0 <= k < |ms| && key(ms[k]) == Some(name)
    decreases |ms|
  {
    if ms != [] {
      var init := ms[..|ms| - 1];
      FileByKeys(key, init, name);
      if exists k :: 0 <= k < |init| && key(init[k]) == Some(name) {
        var k :| 0 <= k < |init| && key(init[k]) == Some(name);
        assert ms[k] == init[k];
      }
      if exists k :: 0 <= k < |ms| && key(ms[k]) == Some(name) {
        var k :| 0 <= k < |ms| && key(ms[k]) == Some(name);
        if k < |init| {
          assert init[k] == ms[k];
        }
      }
    }
  }

  /** The task blocks as a dictionary; blocks whose description names no agent are dropped. */
  function TaskMap(ms: seq<Match>): map<string, string> {
    FileBy(TaskAgentOf, ms)
  }

  /** Only the four known agents are filed, each exactly when some task block points to it. */
  lemma TaskMapKeys(ms: seq<Match>, name: string)
    ensures name in TaskMap(ms) ==> IsKnownAgent(name)
    ensures name in TaskMap(ms) <==> exists k :: 0 <= k < |ms| && TaskAgentOf(ms[k]) == Some(name)
  {
    FileByKeys(TaskAgentOf, ms, name);
  }

  /** The agent outputs of `text`: agent blocks, or task blocks when there are none. */
  function AgentOutputs(text: string): map<string, string> {
    var agents := AgentMap(FindAll(AgentSection, text));
    if agents != map[] then agents else TaskMap(FindAll(TaskSection, text))
  }

  method ExtractAgentOutputs(text: string) returns (outputs: map<string, string>)
    ensures outputs == AgentOutputs(text)
  {
    var matches := FindAll(AgentSection, text);
    outputs := AddAgentOutputs(matches);
    AgentMapEmpty(matches);
    if outputs == map[] {
      var taskMatches := FindAll(TaskSection, text);
      outputs := AddTaskOutputs(taskMatches);
    }
  }

  /** The loop over the agent blocks. */
  method AddAgentOutputs(matches: seq<Match>) returns (outputs: map<string, string>)
    ensures outputs == AgentMap(matches)
  {
    outputs := map[];
    for k := 0 to |matches|
      invariant outputs == AgentMap(matches[..k])
    {
      assert matches[..k + 1][..k] == matches[..k];
      var agentName := Strip(Group(matches[k], 0));
      var content := Strip(Group(matches[k], 1));
      outputs := outputs[agentName := content];
    }
    assert matches[..|matches|] == matches;
  }

  /** The loop over the task blocks, with the description's keywords deciding the agent. */
  method AddTaskOutputs(matches: seq<Match>) returns (outputs: map<string, string>)
    ensures outputs == TaskMap(matches)
  {
    outputs := map[];
    for k := 0 to |matches|
      invariant outputs == TaskMap(matches[..k])
    {
      assert matches[..k + 1][..k] == matches[..k];
      var taskDesc := Strip(Group(matches[k], 0));
      var content := Strip(Group(matches[k], 1));
      var desc := Lower(taskDesc);
      if Contains(desc, "summariz") {
        outputs := outputs[ExecutiveSummarizer := content];
      } else if Contains(desc, "sentiment") {
        outputs := outputs[SentimentAnalyzer := content];
      } else if Contains(desc, "action item") {
        outputs := outputs[ActionItemExtractor := content];
      } else if Contains(desc, "analyze") {
        outputs := outputs[ContentAnalyzer := content];
      }
    }
    assert matches[..|matches|] == matches;
  }

  /** The agent dictionary is empty exactly when there is no agent block. */
  lemma AgentMapEmpty(ms: seq<Match>)
    ensures AgentMap(ms) == map[] <==> ms == []
  {
    if ms != [] {
      assert AgentName(ms[|ms| - 1]) in AgentMap(ms);
    }
  }

  /** The value filed under an agent comes from its last block. */
  lemma {:induction false} LastBlockWins(ms: seq<Match>, k: nat)
    requires k < |ms|
    requires forall j :: k < j < |ms| ==> AgentName(ms[j]) != AgentName(ms[k])
    ensures AgentName(ms[k]) in AgentMap(ms) && AgentMap(ms)[AgentName(ms[k])] == AgentContent(ms[k])
    decreases |ms|
  {
    if k < |ms| - 1 {
      var init := ms[..|ms| - 1];
      assert init[k] == ms[k];
      assert forall j :: k < j < |init| ==> init[j] == ms[j];
      LastBlockWins(init, k);
    }
  }

  /** The same for task blocks: the last block that points to an agent decides its output. */
  lemma {:induction false} LastTaskWins(ms: seq<Match>, k: nat, name: string)
    requires k < |ms| && TaskAgentOf(ms[k]) == Some(name)
    requires forall j :: k < j < |ms| ==> TaskAgentOf(ms[j]) != Some(name)
    ensures name in TaskMap(ms) && TaskMap(ms)[name] == AgentContent(ms[k])
    decreases |ms|
  {
    if k < |ms| - 1 {
      var init := ms[..|ms| - 1];
      assert init[k] == ms[k];
      assert forall j :: k < j < |init| ==> init[j] == ms[j];
      LastTaskWins(init, k, name);
    }
  }

  /**
   * An agent has an output exactly when an agent block names it, or when
   * there is no agent block at all and a task block points to it.
   */
  lemma AgentOutputsKeys(text: string, name: string)
    ensures var agents := FindAll(AgentSection, text);
            var tasks := FindAll(TaskSection, text);
            name in AgentOutputs(text) <==>
              (exists k :: 0 <= k < |agents| && AgentName(agents[k]) == name) ||
              (agents == [] && exists k :: 0 <= k < |tasks| && TaskAgentOf(tasks[k]) == Some(name))
  {
    AgentMapEmpty(FindAll(AgentSection, text));
    AgentMapKeys(FindAll(AgentSection, text));
    TaskMapKeys(FindAll(TaskSection, text), name);
  }
}
