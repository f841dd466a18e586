/**
 * How a task's input is cut down and added to its description
 * (agents/tasks/task_base.py). What `str()` gives for an object is a
 * parameter: the object's rendered text.
 */
module TaskBase {
  import opened Wrappers
  import opened PyStrings

  const DefaultMaxInputLength := 5000

  /**
   * The kinds of input `process_input_data` tells apart, in the order it tests
   * them: a text; anything with a `get` method (every dict among them) and its
   * "output" entry; anything with an `output` attribute, rendered; anything
   * else, rendered. `truthy` is what `bool()` gives for the value.
   */
  datatype InputData =
    | Text(s: string)
    | WithGet(output: Option<string>, truthy: bool)
    | WithOutput(renderedOutput: string, truthy: bool)
    | Other(rendered: string, truthy: bool)

  /** The text that gets truncated. */
  function Underlying(input: InputData): string {
    match input
    case Text(s) => s
    case WithGet(output, _) => output.GetOr("")
    case WithOutput(renderedOutput, _) => renderedOutput
    case Other(rendered, _) => rendered
  }

  /** `bool(input_data)` */
  predicate Truthy(input: InputData) {
    match input
    case Text(s) => s != []
    case WithGet(_, truthy) => truthy
    case WithOutput(_, truthy) => truthy
    case Other(_, truthy) => truthy
  }

  /**
   * `process_input_data`: a prefix of the input's text, of length `maxLength`
   * when the text is longer (a negative limit drops that many characters from
   * the end); a dict without "output" yields "".
   */
  function ProcessInputData(input: InputData, maxLength: int): (r: string)
    ensures var t := Underlying(input);
            |r| <= |t| && r == t[..|r|] &&
            (maxLength >= 0 ==> |r| == if |t| <= maxLength then |t| else maxLength) &&
            (maxLength < 0 ==> |r| == if |t| + maxLength >= 0 then |t| + maxLength else 0)
    ensures input.WithGet? && input.output.None? ==> r == ""
  {
    match input
    case Text(s) => SlicePrefix(s, maxLength)
    case WithGet(output, _) => SlicePrefix(output.GetOr(""), maxLength)
    case WithOutput(renderedOutput, _) => SlicePrefix(renderedOutput, maxLength)
    case Other(rendered, _) => SlicePrefix(rendered, maxLength)
  }

  const InputMarker := "\n\nINPUT:\n"

  /** The description `create_task` hands to the task. */
  function TaskDescription(description: string, input: InputData, maxInputLength: int): (r: string)
    ensures Truthy(input) ==> |r| == |description| + |InputMarker| + |ProcessInputData(input, maxInputLength)|
    ensures |description| <= |r| && r[..|description|] == description
    ensures r == description <==> !Truthy(input)
    ensures Truthy(input) ==> r[|description|..] == InputMarker + ProcessInputData(input, maxInputLength)
  {
    if Truthy(input) then
      var r := description + InputMarker + ProcessInputData(input, maxInputLength);
      assert r[..|description|] == description;
      assert r[|description|..] == InputMarker + ProcessInputData(input, maxInputLength);
      r
    else description
  }

  // ---------------------------------------------------------------------
  // The dict branch of process_input_data, as written; a dict never reaches
  // it, since every dict has `get`.

  /** The section of one entry: the upper-cased key, then its value cut to `share` characters. */
  function Section(entry: (string, string), share: int): string {
    Upper(entry.0) + ":\n" + SlicePrefix(entry.1, share)
  }

  /** One section per entry, in order. */
  function Sections(entries: seq<(string, string)>, share: int): (r: seq<string>)
    ensures |r| == |entries|
  {
    if entries == [] then []
    else Sections(entries[..|entries| - 1], share) + [Section(entries[|entries| - 1], share)]
  }

  lemma {:induction false} SectionsAt(entries: seq<(string, string)>, share: int)
    ensures forall k :: 0 <= k < |entries| ==> Sections(entries, share)[k] == Section(entries[k], share)
    decreases |entries|
  {
    if entries != [] {
      var init := entries[..|entries| - 1];
      SectionsAt(init, share);
      assert forall k :: 0 <= k < |init| ==> init[k] == entries[k];
    }
  }

  /** A section is the key's header followed by at most `share` characters from the start of the value. */
  lemma SectionShape(entry: (string, string), share: nat)
    ensures var section := Section(entry, share);
            var header := Upper(entry.0) + ":\n";
            |header| <= |section| <= |header| + share && section[..|header|] == header &&
            section[|header|..] == entry.1[..|section| - |header|]
  {
    var header := Upper(entry.0) + ":\n";
    var section := Section(entry, share);
    assert section[..|header|] == header && section[|header|..] == SlicePrefix(entry.1, share);
  }

  /**
   * The loop over a dict's entries (key, rendered value): each value gets an
   * equal share, `maxLength // len(input_data)`, of the length, and the
   * sections are joined by blank lines.
   */
  method FormatDictSections(entries: seq<(string, string)>, maxLength: int) returns (r: string)
    ensures entries != [] ==> r == Join(Sections(entries, Floor(maxLength, |entries|)), "\n\n")
    ensures entries == [] ==> r == ""
  {
    var sections: seq<string> := [];
    for k := 0 to |entries|
      invariant entries != [] ==> sections == Sections(entries[..k], Floor(maxLength, |entries|))
      invariant entries == [] ==> sections == []
    {
      assert entries[..k + 1][..k] == entries[..k];
      var key := entries[k].0;
      var content := SlicePrefix(entries[k].1, Floor(maxLength, |entries|));
      assert Section(entries[k], Floor(maxLength, |entries|)) == Upper(key) + ":\n" + content;
      sections := sections + [Upper(key) + ":\n" + content];
    }
    if entries != [] {
      assert entries[..|entries|] == entries;
    }
    r := Join(sections, "\n\n");
  }

  /** Python's `a // b` for a positive `b`. */
  function Floor(a: int, b: int): (q: int)
    requires b > 0
    ensures q * b <= a < q * b + b
  {
    a / b
  }
}
