/**
 * Bullet points and free-text action items (utils/result_parser.py:508-590):
 * the fall-back extractors used when an agent's answer or a header section
 * is not a numbered list with bold titles.
 */
module ParserText {
  import opened Wrappers
  import opened PyStrings
  import opened ParserPatterns
  import opened ParserExtract

  // ---------------------------------------------------------------------
  // utils/result_parser.py:508-545  extract_bullet_points

  predicate IsBulletMarker(c: char) { c == '-' || c == '*' || c == '•' }

  /** A stripped line that starts with '-', '*', '•' or one of "1." to "9.". */
  predicate IsBulletLine(line: string) {
    |line| >= 1 && (IsBulletMarker(line[0]) || (|line| >= 2 && '1' <= line[0] <= '9' && line[1] == '.'))
  }

  /** A bullet line without its marker: one character, or everything up to the first '.'. */
  function MarkerRemoved(line: string): (r: string)
    requires IsBulletLine(line)
    ensures !IsBulletMarker(line[0]) ==> r == Strip(line[2..])
  {
    if IsBulletMarker(line[0]) then Strip(line[1..])
    else
      var d := FindFrom(line, ".", 0);
      assert line[1..2] == ".";
      assert OccursAt(line, ".", 1);
      assert d == 1;
      Strip(line[d + 1..])
  }

  /** What one line contributes: its text without marker and bold markup, if it is a bullet and not blank. */
  function BulletOf(line: string): (r: Option<string>)
    ensures r.Some? ==> r.value != []
    ensures r.Some? ==> IsBulletLine(Strip(line))
  {
    var l := Strip(line);
    if IsBulletLine(l) then
      var clean := UnwrapBold(MarkerRemoved(l));
      if clean != [] then Some(clean) else None
    else None
  }

  function BulletsOf(lines: seq<string>): (r: seq<string>)
    ensures |r| <= |lines|
    ensures forall k :: 0 <= k < |r| ==> r[k] != []
  {
    if lines == [] then []
    else
      var b := BulletOf(lines[|lines| - 1]);
      BulletsOf(lines[..|lines| - 1]) + (if b.Some? then [b.value] else [])
  }

  /** The bullet points of `text`, one per bullet line, in line order. */
  function BulletPoints(text: string): (r: seq<string>)
  {
    BulletsOf(Split(text, "\n"))
  }

  method ExtractBulletPoints(text: string) returns (bulletPoints: seq<string>)
    ensures bulletPoints == BulletPoints(text)
  {
    var lines := Split(text, "\n");
    bulletPoints := [];
    for k := 0 to |lines|
      invariant bulletPoints == BulletsOf(lines[..k])
    {
      assert lines[..k + 1][..k] == lines[..k];
      var line := Strip(lines[k]);
      if line == [] {
        continue;
      }
      if IsBulletLine(line) {
        var cleanLine;
        if IsBulletMarker(line[0]) {
          cleanLine := Strip(line[1..]);
        } else {
          cleanLine := Strip(line[FindFrom(line, ".", 0) + 1..]);
        }
        cleanLine := UnwrapBold(cleanLine);
        if cleanLine != [] {
          bulletPoints := bulletPoints + [cleanLine];
        }
      }
    }
    assert lines[..|lines|] == lines;
  }

  /** A bullet's text is the line after its marker, with only asterisks removed. */
  lemma BulletKeepsText(line: string)
    requires BulletOf(line).Some?
    ensures RemoveChar(BulletOf(line).value, '*') == RemoveChar(MarkerRemoved(Strip(line)), '*')
  {
    UnwrapBoldOnlyDropsStars(MarkerRemoved(Strip(line)), 0);
  }

  /** A line starting with two digits, such as "10. x", is never a bullet. */
  lemma TwoDigitLineIsNotBullet(line: string)
    requires var l := Strip(line); |l| >= 2 && IsDigit(l[0]) && IsDigit(l[1])
    ensures BulletOf(line).None?
  {
  }

  // ---------------------------------------------------------------------
  // utils/result_parser.py:547-590  extract_action_items_from_text

  /** Every piece stripped, blank pieces dropped. */
  function NonBlankStripped(pieces: seq<string>): (r: seq<string>)
    ensures |r| <= |pieces|
    ensures forall k :: 0 <= k < |r| ==> r[k] != []
  {
    if pieces == [] then []
    else
      var p := Strip(pieces[|pieces| - 1]);
      NonBlankStripped(pieces[..|pieces| - 1]) + (if p != [] then [p] else [])
  }

  function FirstGroups(ms: seq<Match>): (r: seq<string>)
    ensures |r| == |ms|
  {
    if ms == [] then [] else FirstGroups(ms[..|ms| - 1]) + [Group(ms[|ms| - 1], 0)]
  }

  /** `^\d+\.` on the stripped text. */
  predicate StartsWithNumber(text: string) {
    LineNumberEnd(Strip(text), 0).Some?
  }

  /** The items of a list whose lines start "N.", each stripped. */
  function NumberedLineItems(text: string): seq<string> {
    NonBlankStripped(FirstGroups(FindAll(NumberedLine, text)))
  }

  /** Paragraphs separated by blank lines, each stripped. */
  function Paragraphs(text: string): seq<string> {
    NonBlankStripped(SplitBlankLines(text))
  }

  /** The first non-empty result of: numbered items, "N." lines, bullet points, paragraphs. */
  function ActionItemsFromText(text: string): (r: seq<string>)
  {
    var items := NumberedItems(text);
    if items != [] then items
    else
      var lineItems := if StartsWithNumber(text) then NumberedLineItems(text) else [];
      if lineItems != [] then lineItems
      else
        var bullets := BulletPoints(text);
        if bullets != [] then bullets
        else Paragraphs(text)
  }

  method ExtractActionItemsFromText(text: string) returns (actionItems: seq<string>)
    ensures actionItems == ActionItemsFromText(text)
  {
    var items := ExtractNumberedItemsWithDescriptions(text);
    if items != [] {
      return items;
    }
    actionItems := [];
    if LineNumberEnd(Strip(text), 0).Some? {
      var matches := FindAll(NumberedLine, text);
      actionItems := AppendNonBlank(actionItems, FirstGroups(matches));
      if actionItems != [] {
        return;
      }
    }
    var bulletPoints := ExtractBulletPoints(text);
    if bulletPoints != [] {
      return bulletPoints;
    }
    var paragraphs := SplitBlankLines(text);
    actionItems := AppendNonBlank(actionItems, paragraphs);
  }

  /** The loop that strips each piece and appends the non-blank ones. */
  method AppendNonBlank(acc: seq<string>, pieces: seq<string>) returns (r: seq<string>)
    ensures r == acc + NonBlankStripped(pieces)
  {
    r := acc;
    for k := 0 to |pieces|
      invariant r == acc + NonBlankStripped(pieces[..k])
    {
      assert pieces[..k + 1][..k] == pieces[..k];
      var item := Strip(pieces[k]);
      if item != [] {
        r := r + [item];
      }
    }
    assert pieces[..|pieces|] == pieces;
  }

  /** Free text yields no action items exactly when it is blank. */
  lemma ActionItemsFromTextEmpty(text: string)
    ensures ActionItemsFromText(text) == [] <==> AllSpace(text)
  {
    if AllSpace(text) {
      NumberedItemsEmpty(text);
      assert forall j: nat :: j < |text| ==> MatchAt(NumberedItem, text, j).None? by {
        forall j: nat | j < |text| ensures MatchAt(NumberedItem, text, j).None? {
          assert !IsDigit(text[j]) by {
            assert IsSpace(text[j]);
          }
        }
      }
      StripEmpty(text);
      BlankTextHasNoBullets(text);
      BlankTextHasNoParagraphs(text);
    } else {
      ParagraphsOfNonBlank(text);
    }
  }

  lemma BlankTextHasNoBullets(text: string)
    requires AllSpace(text)
    ensures BulletPoints(text) == []
  {
    var lines := Split(text, "\n");
    JoinAllSpace(lines, "\n");
    BlankLinesHaveNoBullets(lines);
  }

  lemma {:induction false} BlankLinesHaveNoBullets(lines: seq<string>)
    requires forall k :: 0 <= k < |lines| ==> AllSpace(lines[k])
    ensures BulletsOf(lines) == []
    decreases |lines|
  {
    if lines != [] {
      BlankLinesHaveNoBullets(lines[..|lines| - 1]);
      StripEmpty(lines[|lines| - 1]);
    }
  }

  lemma BlankTextHasNoParagraphs(text: string)
    requires AllSpace(text)
    ensures Paragraphs(text) == []
  {
    var pieces := SplitBlankLines(text);
    SplitBlankLinesKeepsText(text, 0, 0);
    assert text[0..] == text;
    NonSpaceEmpty(text);
    ConcatAllSpace(pieces);
    NonBlankStrippedEmpty(pieces);
  }

  lemma ParagraphsOfNonBlank(text: string)
    requires !AllSpace(text)
    ensures Paragraphs(text) != []
  {
    var pieces := SplitBlankLines(text);
    SplitBlankLinesKeepsText(text, 0, 0);
    assert text[0..] == text;
    NonSpaceEmpty(text);
    ConcatAllSpace(pieces);
    NonBlankStrippedEmpty(pieces);
  }

  /** Stripping and dropping blanks leaves nothing exactly when every piece is blank. */
  lemma {:induction false} NonBlankStrippedEmpty(pieces: seq<string>)
    ensures NonBlankStripped(pieces) == [] <==> forall k :: 0 <= k < |pieces| ==> AllSpace(pieces[k])
    decreases |pieces|
  {
    if pieces != [] {
      NonBlankStrippedEmpty(pieces[..|pieces| - 1]);
      StripEmpty(pieces[|pieces| - 1]);
      assert forall k :: 0 <= k < |pieces| - 1 ==> pieces[k] == pieces[..|pieces| - 1][k];
    }
  }

  /** Splitting at blank lines drops only whitespace. */
  lemma {:induction false} SplitBlankLinesKeepsText(s: string, start: nat, pos: nat)
    requires start <= pos <= |s|
    ensures NonSpace(Concat(SplitBlankLinesFrom(s, start, pos))) == NonSpace(s[start..])
    decreases |s| - pos, 1
  {
    if pos == |s| {
      var piece := s[start..];
      assert [piece][1..] == [];
      assert Concat([piece]) == piece + Concat([]);
      assert piece + [] == piece;
    } else if BlankLineEnd(s, pos).Some? {
      KeepsTextAtSeparator(s, start, pos);
    } else {
      SplitBlankLinesKeepsText(s, start, pos + 1);
    }
  }

  lemma {:induction false} KeepsTextAtSeparator(s: string, start: nat, pos: nat)
    requires start <= pos < |s| && BlankLineEnd(s, pos).Some?
    ensures NonSpace(Concat(SplitBlankLinesFrom(s, start, pos))) == NonSpace(s[start..])
    decreases |s| - pos, 0
  {
    var e := BlankLineEnd(s, pos).value;
    var rest := SplitBlankLinesFrom(s, e, e);
    SplitBlankLinesKeepsText(s, e, e);
    assert SplitBlankLinesFrom(s, start, pos) == [s[start..pos]] + rest;
    assert Concat([s[start..pos]] + rest) == s[start..pos] + Concat(rest) by {
      assert ([s[start..pos]] + rest)[1..] == rest;
    }
    NonSpaceConcat(s[start..pos], Concat(rest));
    assert s[start..] == s[start..pos] + s[pos..e] + s[e..];
    assert AllSpace(s[pos..e]);
    SpacesAround([], s[start..pos], s[pos..e]);
    NonSpaceConcat(s[start..pos] + s[pos..e], s[e..]);
    NonSpaceConcat(s[start..pos], s[pos..e]);
    NonSpaceOfSpaces(s[pos..e]);
  }
}
