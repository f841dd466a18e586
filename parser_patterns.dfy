/**
 * The regular expressions of utils/result_parser.py, each written out as a
 * scanner over `seq<char>` that follows the order in which Python's `re`
 * engine tries alternatives: a greedy quantifier tries its longest run first
 * and gives back one character at a time (`LatestIn`), a lazy quantifier
 * tries its shortest extent first (`EarliestIn`, `FirstFrom`).
 *
 * A greedy run such as `\d+` or `[^*]+` that must be followed by a character
 * outside its own class never benefits from giving characters back, so such a
 * run is simply taken whole (`RunEnd`). Where a lazy group is followed by a
 * literal that cannot overlap itself, the earliest occurrence of the literal
 * is the one the engine settles on, because a later one leaves less text for
 * the rest of the pattern.
 *
 * `\d`, `\w`, `[a-zA-Z]` and IGNORECASE are taken over ASCII.
 */
module ParserPatterns {
  import opened Wrappers
  import opened PyStrings

  // ---------------------------------------------------------------------
  // Search order of the regex engine

  /** The least `k` in `[lo, hi]` with `p(k)`. */
  function EarliestIn(lo: nat, hi: nat, p: nat -> bool): (r: Option<nat>)
    ensures r.Some? ==> lo <= r.value <= hi && p(r.value)
    ensures r.Some? ==> forall k :: lo <= k < r.value ==> !p(k)
    ensures r.None? ==> forall k :: lo <= k <= hi ==> !p(k)
    decreases hi - lo
  {
    if lo > hi then None
    else if p(lo) then Some(lo)
    else EarliestIn(lo + 1, hi, p)
  }

  /** The greatest `k` in `[lo, hi]` with `p(k)`. */
  function LatestIn(lo: nat, hi: nat, p: nat -> bool): (r: Option<nat>)
    ensures r.Some? ==> lo <= r.value <= hi && p(r.value)
    ensures r.Some? ==> forall k :: r.value < k <= hi ==> !p(k)
    ensures r.None? ==> forall k :: lo <= k <= hi ==> !p(k)
    decreases hi - lo
  {
    if lo > hi then None
    else if p(hi) then Some(hi)
    else if hi == lo then None
    else LatestIn(lo, hi - 1, p)
  }

  /** The least `k` in `[lo, hi]` with `p(k)`, when `p(hi)` is known to hold. */
  function FirstFrom(lo: nat, hi: nat, p: nat -> bool): (r: nat)
    requires lo <= hi && p(hi)
    ensures lo <= r <= hi && p(r)
    ensures forall k :: lo <= k < r ==> !p(k)
    decreases hi - lo
  {
    if p(lo) then lo else FirstFrom(lo + 1, hi, p)
  }

  // ---------------------------------------------------------------------
  // Character classes and anchors

  predicate NotStar(c: char) { c != '*' }
  predicate NotStarColon(c: char) { c != '*' && c != ':' }
  predicate NotNewline(c: char) { c != '\n' }
  predicate NotOpenBracket(c: char) { c != '[' }

  /** `$` without MULTILINE: the end of the text, or just before a final newline. */
  predicate DollarAt(s: string, q: nat) {
    q == |s| || (q + 1 == |s| && s[q] == '\n')
  }

  /** IGNORECASE match of the lower-case literal `pat` at `i`. */
  predicate CIOccursAt(s: string, pat: string, i: nat) {
    i + |pat| <= |s| && Lower(s[i..i + |pat|]) == pat
  }

  // ---------------------------------------------------------------------
  // Matches

  /** One match: its groups, as `re.findall` returns them, and where it ends. */
  datatype Match = Match(groups: seq<string>, end: nat)

  /** `match[k]`, or "" for a group the pattern does not have. */
  function Group(m: Match, k: nat): string {
    if k < |m.groups| then m.groups[k] else ""
  }

  // ---------------------------------------------------------------------
  // `\d+\.\s+\*\*`, shared by the numbered-list patterns

  /** Where `\d+\.\s+\*\*` matching at `i` ends (just after the two asterisks). */
  function NumHeadEnd(s: string, i: nat): (r: Option<nat>)
    ensures r.Some? ==> i + 4 < r.value + 1 <= |s| + 1 && r.value <= |s|
  {
    if i < |s| && IsDigit(s[i]) then
      var d := RunEnd(s, i, IsDigit);
      if d < |s| && s[d] == '.' then
        var w := RunEnd(s, d + 1, IsSpace);
        if w > d + 1 && OccursAt(s, "**", w) then Some(w + 2) else None
      else None
    else None
  }

  /** The lookahead `(?=\d+\.\s+\*\*|$)` that ends a numbered item. */
  predicate NumberedStop(s: string, q: nat) {
    NumHeadEnd(s, q).Some? || DollarAt(s, q)
  }

  // ---------------------------------------------------------------------
  // utils/result_parser.py:267  `\d+\.\s+\*\*([^*:]+)\*\*:\s*(.*?)(?=\d+\.\s+\*\*|$)`

  function MatchNumberedAt(s: string, i: nat): (r: Option<Match>)
    ensures r.Some? ==> i < r.value.end <= |s|
  {
    var h := NumHeadEnd(s, i);
    if h.None? then None
    else
      var k := h.value;
      var m := RunEnd(s, k, NotStarColon);
      if m > k && OccursAt(s, "**:", m) then
        var d := RunEnd(s, m + 3, IsSpace);
        var q := FirstFrom(d, |s|, (q: nat) => NumberedStop(s, q));
        Some(Match([s[k..m], s[d..q]], q))
      else None
  }

  // ---------------------------------------------------------------------
  // utils/result_parser.py:302 (Context / Implementation Guidance / Expected Benefit)

  const ContextLabel := "- **Context**:"
  const GuidanceLabel := "- **Implementation Guidance**:"
  const BenefitLabel := "- **Expected Benefit**:"

  /** `\d+\.\s+\*\*([^*]+)\*\*\s+- \*\*Context\*\*:`: the title and where the context starts. */
  function TitleAndContext(s: string, i: nat): (r: Option<(string, nat)>)
    ensures r.Some? ==> i < r.value.1 <= |s|
  {
    var h := NumHeadEnd(s, i);
    if h.None? then None
    else
      var k := h.value;
      var m := RunEnd(s, k, NotStar);
      if m > k && OccursAt(s, "**", m) then
        var w := RunEnd(s, m + 2, IsSpace);
        if w > m + 2 && OccursAt(s, ContextLabel, w) then Some((s[k..m], w + |ContextLabel|))
        else None
      else None
  }

  function MatchComprehensiveAt(s: string, i: nat): (r: Option<Match>)
    ensures r.Some? ==> i < r.value.end <= |s|
  {
    var tc := TitleAndContext(s, i);
    if tc.None? then None
    else
      var c0 := tc.value.1;
      var g := FindFrom(s, GuidanceLabel, c0);
      if g < 0 then None
      else
        var g0 := g + |GuidanceLabel|;
        var b := FindFrom(s, BenefitLabel, g0);
        if b < 0 then None
        else
          var b0 := b + |BenefitLabel|;
          var q := FirstFrom(b0, |s|, (q: nat) => NumberedStop(s, q));
          Some(Match([tc.value.0, s[c0..g], s[g0..b], s[b0..q]], q))
  }

  // ---------------------------------------------------------------------
  // utils/result_parser.py:336 (Context / Action [Item] / Benefit)

  const BenefitOnlyLabel := "- **Benefit**:"

  /** `- \*\*Action(?:\s*Item)?\*\*:` at `p`: where it ends. */
  function ActionLabelEnd(s: string, p: nat): (r: Option<nat>)
    ensures r.Some? ==> p < r.value <= |s|
  {
    if OccursAt(s, "- **Action", p) then
      var x := p + 10;
      var y := RunEnd(s, x, IsSpace);
      if OccursAt(s, "Item**:", y) then Some(y + 7)
      else if OccursAt(s, "**:", x) then Some(x + 3)
      else None
    else None
  }

  function MatchActionBenefitAt(s: string, i: nat): (r: Option<Match>)
    ensures r.Some? ==> i < r.value.end <= |s|
  {
    var tc := TitleAndContext(s, i);
    if tc.None? then None
    else
      var c0 := tc.value.1;
      var a := EarliestIn(c0, |s|, (p: nat) => ActionLabelEnd(s, p).Some?);
      if a.None? then None
      else
        var a0 := ActionLabelEnd(s, a.value).value;
        var b := FindFrom(s, BenefitOnlyLabel, a0);
        if b < 0 then None
        else
          var b0 := b + |BenefitOnlyLabel|;
          var q := FirstFrom(b0, |s|, (q: nat) => NumberedStop(s, q));
          Some(Match([tc.value.0, s[c0..a.value], s[a0..b], s[b0..q]], q))
  }

  // ---------------------------------------------------------------------
  // utils/result_parser.py:355 (three generic `- **Label**:` sub-bullets)

  /** `- \*\*([^:*]+)\*\*:` at `p`: where it ends. */
  function LabelEnd(s: string, p: nat): (r: Option<nat>)
    ensures r.Some? ==> p + 7 < r.value <= |s|
  {
    if OccursAt(s, "- **", p) then
      var k := p + 4;
      var m := RunEnd(s, k, NotStarColon);
      if m > k && OccursAt(s, "**:", m) then Some(m + 3) else None
    else None
  }

  /** Where the lazy `(.*?)` before the next `- **Label**:` stops: that label's start. */
  function NextLabel(s: string, from: nat): (r: Option<nat>)
    ensures r.Some? ==> from <= r.value && LabelEnd(s, r.value).Some?
  {
    EarliestIn(from, |s|, (p: nat) => LabelEnd(s, p).Some?)
  }

  /** The label text of a `- **Label**:` token at `p`. */
  function LabelText(s: string, p: nat): string
    requires LabelEnd(s, p).Some?
  {
    s[p + 4..LabelEnd(s, p).value - 3]
  }

  function MatchThreeLabelsAt(s: string, i: nat): (r: Option<Match>)
    ensures r.Some? ==> i < r.value.end <= |s|
  {
    var h := NumHeadEnd(s, i);
    if h.None? then None
    else
      var k := h.value;
      var m := RunEnd(s, k, NotStar);
      if m > k && OccursAt(s, "**", m) then
        var w := RunEnd(s, m + 2, IsSpace);
        if w > m + 2 && LabelEnd(s, w).Some? then
          var e1 := LabelEnd(s, w).value;
          var p2 := NextLabel(s, e1);
          if p2.None? then None
          else
            var e2 := LabelEnd(s, p2.value).value;
            var p3 := NextLabel(s, e2);
            if p3.None? then None
            else
              var e3 := LabelEnd(s, p3.value).value;
              var q := FirstFrom(e3, |s|, (q: nat) => NumberedStop(s, q));
              Some(Match([s[k..m], LabelText(s, w), s[e1..p2.value], LabelText(s, p2.value),
                          s[e2..p3.value], LabelText(s, p3.value), s[e3..q]], q))
        else None
      else None
  }

  // ---------------------------------------------------------------------
  // utils/result_parser.py:366  `\d+\.\s+\*\*([^*]+)\*\*`

  function MatchBoldTitleAt(s: string, i: nat): (r: Option<Match>)
    ensures r.Some? ==> i < r.value.end <= |s|
  {
    var h := NumHeadEnd(s, i);
    if h.None? then None
    else
      var k := h.value;
      var m := RunEnd(s, k, NotStar);
      if m > k && OccursAt(s, "**", m) then Some(Match([s[k..m]], m + 2)) else None
  }

  // ---------------------------------------------------------------------
  // utils/result_parser.py:421
  // `#\s*Agent:\s*([^\n]+)(?:.+?)##\s*Final Answer:\s*([^\n](?:.+?))` with DOTALL.
  // The pattern ends in a lazy `.+?`, which takes exactly one character, so the
  // content group is always exactly two characters long.

  /** `##\s*Final Answer:\s*[^\n].` at `p`: where the two-character content starts. */
  function FinalAnswerAt(s: string, p: nat): (r: Option<nat>)
    ensures r.Some? ==> p < r.value && r.value + 2 <= |s|
  {
    if !OccursAt(s, "##", p) then None
    else
      var f := RunEnd(s, p + 2, IsSpace);
      if !OccursAt(s, "Final Answer:", f) then None
      else
        var g := f + 13;
        var c := RunEnd(s, g, IsSpace);
        LatestIn(g, c, (y: nat) => y + 2 <= |s| && s[y] != '\n')
  }

  /** The lazy filler `(?:.+?)` after a name ending at `n`: the first Final Answer after it. */
  function FillerEnd(s: string, n: nat): (r: Option<nat>)
    ensures r.Some? ==> n < r.value && FinalAnswerAt(s, r.value).Some?
  {
    EarliestIn(n + 1, |s|, (p: nat) => FinalAnswerAt(s, p).Some?)
  }

  /** `([^\n]+)` starting at `x`, given back one character at a time: the name's end. */
  function NameEnd(s: string, x: nat): (r: Option<nat>)
    ensures r.Some? ==> x < r.value <= |s| && FillerEnd(s, r.value).Some?
  {
    if x >= |s| then None
    else
      var l := RunEnd(s, x, NotNewline);
      LatestIn(x + 1, l, (n: nat) => FillerEnd(s, n).Some?)
  }

  function MatchAgentAt(s: string, i: nat): (r: Option<Match>)
    ensures r.Some? ==> i < r.value.end <= |s|
  {
    if !(i < |s| && s[i] == '#') then None
    else
      var w := RunEnd(s, i + 1, IsSpace);
      if !OccursAt(s, "Agent:", w) then None
      else
        var a := w + 6;
        var b := RunEnd(s, a, IsSpace);
        var x := LatestIn(a, b, (x: nat) => NameEnd(s, x).Some?);
        if x.None? then None
        else
          var n := NameEnd(s, x.value).value;
          var p := FillerEnd(s, n).value;
          var y := FinalAnswerAt(s, p).value;
          Some(Match([s[x.value..n], s[y..y + 2]], y + 2))
  }

  // ---------------------------------------------------------------------
  // utils/result_parser.py:432  `TASK COMPLETED:([^[]+)\]:\s*(.+?)(?=\[|\Z)` with DOTALL

  /** `\]:\s*(.+?)(?=\[|\Z)` at `n`: the content's start and end. */
  function TaskTail(s: string, n: nat): (r: Option<(nat, nat)>)
    ensures r.Some? ==> n + 2 <= r.value.0 < r.value.1 <= |s|
  {
    if !OccursAt(s, "]:", n) then None
    else
      var c := RunEnd(s, n + 2, IsSpace);
      var y := LatestIn(n + 2, c, (y: nat) => y < |s|);
      if y.None? then None
      else
        var e := FirstFrom(y.value + 1, |s|, (e: nat) => e == |s| || (e < |s| && s[e] == '['));
        Some((y.value, e))
  }

  function MatchTaskAt(s: string, i: nat): (r: Option<Match>)
    ensures r.Some? ==> i < r.value.end <= |s|
  {
    if !OccursAt(s, "TASK COMPLETED:", i) then None
    else
      var a := i + 15;
      var m := RunEnd(s, a, NotOpenBracket);
      var n := LatestIn(a + 1, m, (n: nat) => TaskTail(s, n).Some?);
      if n.None? then None
      else
        var t := TaskTail(s, n.value).value;
        Some(Match([s[a..n.value], s[t.0..t.1]], t.1))
  }

  // ---------------------------------------------------------------------
  // utils/result_parser.py:539  re.sub(r'\*\*([^*]+)\*\*', r'\1', line)

  /** `\*\*([^*]+)\*\*` at `i`: where the inner text ends. */
  function BoldAt(s: string, i: nat): (r: Option<nat>)
    ensures r.Some? ==> i + 2 < r.value && r.value + 2 <= |s|
  {
    if OccursAt(s, "**", i) then
      var k := RunEnd(s, i + 2, NotStar);
      if k > i + 2 && OccursAt(s, "**", k) then Some(k) else None
    else None
  }

  function UnwrapBoldFrom(s: string, i: nat): string
    requires i <= |s|
    decreases |s| - i
  {
    if i == |s| then []
    else
      var b := BoldAt(s, i);
      if b.Some? then s[i + 2..b.value] + UnwrapBoldFrom(s, b.value + 2)
      else [s[i]] + UnwrapBoldFrom(s, i + 1)
  }

  /** Every `**text**` run replaced by its text. */
  function UnwrapBold(s: string): string {
    UnwrapBoldFrom(s, 0)
  }

  /** Unwrapping bold runs deletes asterisks and nothing else. */
  lemma {:induction false} UnwrapBoldOnlyDropsStars(s: string, i: nat)
    requires i <= |s|
    ensures RemoveChar(UnwrapBoldFrom(s, i), '*') == RemoveChar(s[i..], '*')
    decreases |s| - i, 1
  {
    if i == |s| {
    } else if BoldAt(s, i).Some? {
      DropsStarsAtBold(s, i, BoldAt(s, i).value);
    } else {
      DropsStarsAtPlain(s, i);
    }
  }

  lemma {:induction false} DropsStarsAtBold(s: string, i: nat, k: nat)
    requires BoldAt(s, i) == Some(k)
    ensures RemoveChar(UnwrapBoldFrom(s, i), '*') == RemoveChar(s[i..], '*')
    decreases |s| - i, 0
  {
    UnwrapBoldOnlyDropsStars(s, k + 2);
    UnwrapBoldStep(s, i, k);
  }

  lemma {:induction false} DropsStarsAtPlain(s: string, i: nat)
    requires i < |s| && BoldAt(s, i).None?
    ensures RemoveChar(UnwrapBoldFrom(s, i), '*') == RemoveChar(s[i..], '*')
    decreases |s| - i, 0
  {
    UnwrapBoldOnlyDropsStars(s, i + 1);
    UnwrapPlainStep(s, i);
  }

  lemma UnwrapBoldStep(s: string, i: nat, k: nat)
    requires BoldAt(s, i) == Some(k)
    requires RemoveChar(UnwrapBoldFrom(s, k + 2), '*') == RemoveChar(s[k + 2..], '*')
    ensures RemoveChar(UnwrapBoldFrom(s, i), '*') == RemoveChar(s[i..], '*')
  {
    var x := s[i + 2..k];
    var rest := UnwrapBoldFrom(s, k + 2);
    UnwrapAtBold(s, i, k);
    calc {
      RemoveChar(x + rest, '*');
      { RemoveCharConcat(x, rest, '*'); }
      RemoveChar(x, '*') + RemoveChar(rest, '*');
      RemoveChar(x, '*') + RemoveChar(s[k + 2..], '*');
      { DropBoldMarkers(x, s[k + 2..]); }
      RemoveChar("**" + x + "**" + s[k + 2..], '*');
      { BoldSplit(s, i, k); }
      RemoveChar(s[i..], '*');
    }
  }

  lemma UnwrapAtBold(s: string, i: nat, k: nat)
    requires BoldAt(s, i) == Some(k)
    ensures UnwrapBoldFrom(s, i) == s[i + 2..k] + UnwrapBoldFrom(s, k + 2)
  {
  }

  lemma UnwrapPlainStep(s: string, i: nat)
    requires i < |s| && BoldAt(s, i).None?
    requires RemoveChar(UnwrapBoldFrom(s, i + 1), '*') == RemoveChar(s[i + 1..], '*')
    ensures RemoveChar(UnwrapBoldFrom(s, i), '*') == RemoveChar(s[i..], '*')
  {
    assert UnwrapBoldFrom(s, i) == [s[i]] + UnwrapBoldFrom(s, i + 1);
    assert s[i..] == [s[i]] + s[i + 1..];
    RemoveCharConcat([s[i]], UnwrapBoldFrom(s, i + 1), '*');
    RemoveCharConcat([s[i]], s[i + 1..], '*');
  }

  lemma BoldSplit(s: string, i: nat, k: nat)
    requires BoldAt(s, i) == Some(k)
    ensures s[i..] == "**" + s[i + 2..k] + "**" + s[k + 2..]
  {
    assert s[i..i + 2] == "**" && s[k..k + 2] == "**";
    assert s[i..] == s[i..i + 2] + s[i + 2..k] + s[k..k + 2] + s[k + 2..];
  }

  lemma DropBoldMarkers(x: string, rest: string)
    ensures RemoveChar("**" + x + "**" + rest, '*') == RemoveChar(x, '*') + RemoveChar(rest, '*')
  {
    var stars := "**";
    assert RemoveChar(stars, '*') == [] by {
      assert stars[1..][1..] == [];
    }
    assert "**" + x + "**" + rest == stars + (x + (stars + rest));
    RemoveCharConcat(stars, x + (stars + rest), '*');
    RemoveCharConcat(x, stars + rest, '*');
    RemoveCharConcat(stars, rest, '*');
  }

  // ---------------------------------------------------------------------
  // utils/result_parser.py:565-567  `^\d+\.` and `^\d+\.\s*(.+?)(?=^\d+\.|\Z)` (MULTILINE, DOTALL)

  /** `^\d+\.` at `i`: where it ends. */
  function LineNumberEnd(s: string, i: nat): (r: Option<nat>)
    ensures r.Some? ==> i < r.value <= |s|
  {
    if i < |s| && (i == 0 || s[i - 1] == '\n') && IsDigit(s[i]) then
      var d := RunEnd(s, i, IsDigit);
      if d < |s| && s[d] == '.' then Some(d + 1) else None
    else None
  }

  function MatchLineItemAt(s: string, i: nat): (r: Option<Match>)
    ensures r.Some? ==> i < r.value.end <= |s|
  {
    var h := LineNumberEnd(s, i);
    if h.None? then None
    else
      var e0 := h.value;
      var c := RunEnd(s, e0, IsSpace);
      var y := LatestIn(e0, c, (y: nat) => y < |s|);
      if y.None? then None
      else
        var e := FirstFrom(y.value + 1, |s|, (e: nat) => e == |s| || LineNumberEnd(s, e).Some?);
        Some(Match([s[y.value..e]], e))
  }

  // ---------------------------------------------------------------------
  // utils/result_parser.py:584  re.split(r'\n\s*\n', text)

  /** `\n\s*\n` at `i`: where the separator ends. */
  function BlankLineEnd(s: string, i: nat): (r: Option<nat>)
    ensures r.Some? ==> i + 2 <= r.value <= |s|
    ensures r.Some? ==> forall k :: i <= k < r.value ==> IsSpace(s[k])
  {
    if i < |s| && s[i] == '\n' then
      var c := RunEnd(s, i + 1, IsSpace);
      var j := LatestIn(i + 1, c - 1, (j: nat) => j < |s| && s[j] == '\n');
      if j.Some? then Some(j.value + 1) else None
    else None
  }

  function SplitBlankLinesFrom(s: string, start: nat, pos: nat): (r: seq<string>)
    requires start <= pos <= |s|
    ensures |r| >= 1
    decreases |s| - pos
  {
    if pos == |s| then [s[start..]]
    else
      var e := BlankLineEnd(s, pos);
      if e.Some? then [s[start..pos]] + SplitBlankLinesFrom(s, e.value, e.value)
      else SplitBlankLinesFrom(s, start, pos + 1)
  }

  function SplitBlankLines(s: string): seq<string> {
    SplitBlankLinesFrom(s, 0, 0)
  }

  // ---------------------------------------------------------------------
  // utils/result_parser.py:606, 637
  // `fact check results?:(.*?)(?=\n\s*\n\s*[a-zA-Z]+ [a-zA-Z]+:|$)` and the same for
  // `research insights?:`, both with DOTALL and IGNORECASE.

  /** `\n\s*\n\s*[a-zA-Z]+ [a-zA-Z]+:` at `q`. */
  predicate TwoWordHeaderAt(s: string, q: nat) {
    q < |s| && s[q] == '\n' &&
    var c := RunEnd(s, q + 1, IsSpace);
    Contains(s[q + 1..c], "\n") &&
    var l1 := RunEnd(s, c, IsAsciiLetter);
    l1 > c && l1 < |s| && s[l1] == ' ' &&
    var l2 := RunEnd(s, l1 + 1, IsAsciiLetter);
    l2 > l1 + 1 && l2 < |s| && s[l2] == ':'
  }

  predicate SectionStop(s: string, q: nat) {
    TwoWordHeaderAt(s, q) || DollarAt(s, q)
  }

  /** `<label>s?:` at `i` (IGNORECASE): where the body starts. */
  function LabelBodyStart(s: string, lab: string, i: nat): (r: Option<nat>)
    ensures r.Some? ==> i < r.value <= |s|
  {
    if CIOccursAt(s, lab, i) then
      var j := i + |lab|;
      if j + 1 < |s| && (s[j] == 's' || s[j] == 'S') && s[j + 1] == ':' then Some(j + 2)
      else if j < |s| && s[j] == ':' then Some(j + 1)
      else None
    else None
  }

  /** `re.search` for the labelled section: the body of its first match. */
  function SearchLabelledSection(s: string, lab: string): (r: Option<string>)
  {
    var i := EarliestIn(0, |s|, (i: nat) => LabelBodyStart(s, lab, i).Some?);
    if i.None? then None
    else
      var b := LabelBodyStart(s, lab, i.value).value;
      var q := FirstFrom(b, |s|, (q: nat) => SectionStop(s, q));
      Some(s[b..q])
  }

  // ---------------------------------------------------------------------
  // utils/result_parser.py:615  `claim:(.*?)status:(.*?)(?=claim:|$)` (DOTALL, IGNORECASE)

  function MatchClaimAt(t: string, i: nat): (r: Option<Match>)
    ensures r.Some? ==> i < r.value.end <= |t|
  {
    if !CIOccursAt(t, "claim:", i) then None
    else
      var a := i + 6;
      var st := EarliestIn(a, |t|, (k: nat) => CIOccursAt(t, "status:", k));
      if st.None? then None
      else
        var b := st.value + 7;
        var q := FirstFrom(b, |t|, (q: nat) => CIOccursAt(t, "claim:", q) || DollarAt(t, q));
        Some(Match([t[a..st.value], t[b..q]], q))
  }

  // ---------------------------------------------------------------------
  // utils/result_parser.py:646  `(\w+) translation:(.*?)(?=\w+ translation:|$)` (DOTALL, IGNORECASE)

  /** `\w+ translation:` at `q`: where the word ends. */
  function TranslationHeadAt(s: string, q: nat): (r: Option<nat>)
    ensures r.Some? ==> q < r.value && r.value + 13 <= |s|
  {
    if q < |s| && IsWordChar(s[q]) then
      var w := RunEnd(s, q, IsWordChar);
      if CIOccursAt(s, " translation:", w) then Some(w) else None
    else None
  }

  function MatchTranslationAt(s: string, i: nat): (r: Option<Match>)
    ensures r.Some? ==> i < r.value.end <= |s|
  {
    var w := TranslationHeadAt(s, i);
    if w.None? then None
    else
      var a := w.value + 13;
      var q := FirstFrom(a, |s|, (q: nat) => TranslationHeadAt(s, q).Some? || DollarAt(s, q));
      Some(Match([s[i..w.value], s[a..q]], q))
  }

  // ---------------------------------------------------------------------
  // re.findall / re.finditer

  /** The patterns that the parser runs through `findall` or `finditer`. */
  datatype Pattern =
    | NumberedItem       // utils/result_parser.py:267
    | ComprehensiveItem  // utils/result_parser.py:302
    | ActionBenefitItem  // utils/result_parser.py:336
    | ThreeLabelItem     // utils/result_parser.py:355
    | BoldTitle          // utils/result_parser.py:366
    | NumberedLine       // utils/result_parser.py:567
    | AgentSection       // utils/result_parser.py:421
    | TaskSection        // utils/result_parser.py:432
    | ClaimStatus        // utils/result_parser.py:615
    | Translation        // utils/result_parser.py:646

  /** The match of pattern `p` that starts at position `i`, if any. */
  function MatchAt(p: Pattern, s: string, i: nat): (r: Option<Match>)
    ensures r.Some? ==> i < r.value.end <= |s|
  {
    match p
    case NumberedItem => MatchNumberedAt(s, i)
    case ComprehensiveItem => MatchComprehensiveAt(s, i)
    case ActionBenefitItem => MatchActionBenefitAt(s, i)
    case ThreeLabelItem => MatchThreeLabelsAt(s, i)
    case BoldTitle => MatchBoldTitleAt(s, i)
    case NumberedLine => MatchLineItemAt(s, i)
    case AgentSection => MatchAgentAt(s, i)
    case TaskSection => MatchTaskAt(s, i)
    case ClaimStatus => MatchClaimAt(s, i)
    case Translation => MatchTranslationAt(s, i)
  }

  /** The non-overlapping matches from position `i` on: after a match the scan resumes at its end. */
  function ScanFrom(matchAt: nat -> Option<Match>, n: nat, i: nat): seq<Match>
    requires i <= n
    requires forall j: nat :: j < n && matchAt(j).Some? ==> j < matchAt(j).value.end <= n
    decreases n - i
  {
    if i == n then []
    else
      var m := matchAt(i);
      if m.Some? then [m.value] + ScanFrom(matchAt, n, m.value.end)
      else ScanFrom(matchAt, n, i + 1)
  }

  /** Pattern `p` as a matcher over the positions of `s`. */
  function Matcher(p: Pattern, s: string): nat -> Option<Match> {
    (j: nat) => MatchAt(p, s, j)
  }

  function FindAll(p: Pattern, s: string): seq<Match> {
    ScanFrom(Matcher(p, s), |s|, 0)
  }

  /** The scan comes back empty exactly when there is a match at no position. */
  lemma {:induction false} ScanEmpty(matchAt: nat -> Option<Match>, n: nat, i: nat)
    requires i <= n
    requires forall j: nat :: j < n && matchAt(j).Some? ==> j < matchAt(j).value.end <= n
    ensures ScanFrom(matchAt, n, i) == [] <==> forall j: nat :: i <= j < n ==> matchAt(j).None?
    decreases n - i
  {
    if i < n && matchAt(i).None? {
      ScanEmpty(matchAt, n, i + 1);
    }
  }

  /** `findall` comes back empty exactly when the pattern matches at no position. */
  lemma FindAllEmpty(p: Pattern, s: string)
    ensures FindAll(p, s) == [] <==> forall j: nat :: j < |s| ==> MatchAt(p, s, j).None?
  {
    var m := Matcher(p, s);
    ScanEmpty(m, |s|, 0);
    forall j: nat | j < |s| ensures m(j) == MatchAt(p, s, j) {
    }
  }
}
