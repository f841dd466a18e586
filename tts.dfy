/**
 * Preparing text for speech synthesis (api/tts.py): the length cap applied
 * before a request, and the chunker that packs paragraphs greedily and cuts
 * oversize chunks after sentence ends.
 */
module Tts {
  import opened PyStrings

  const MaxSpeechInput := 4000
  const TruncationSuffix := "... (summary truncated for audio conversion)"

  /** The text sent for synthesis: long text keeps its first 4000 characters and gains a fixed suffix. */
  function SpeechInput(text: string): (r: string)
    ensures |text| <= MaxSpeechInput ==> r == text
    ensures |text| > MaxSpeechInput ==>
              |r| == MaxSpeechInput + |TruncationSuffix| && StartsWith(r, text[..MaxSpeechInput]) &&
              EndsWith(r, TruncationSuffix)
    ensures |r| <= MaxSpeechInput + |TruncationSuffix|
  {
    if |text| > MaxSpeechInput then text[..MaxSpeechInput] + TruncationSuffix else text
  }

  const ParagraphBreak := "\n\n"
  const SentenceEnds := [". ", "! ", "? "]

  /** The packer's state: the chunks closed so far and the chunk being filled. */
  datatype PackState = PackState(chunks: seq<string>, current: string)

  /**
   * One paragraph: it joins the current chunk when the two lengths, not
   * counting the separator, stay within `max`; otherwise the current chunk
   * is closed (stripped) if it is non-empty and the paragraph starts the next.
   */
  function PackStep(st: PackState, paragraph: string, max: int): PackState {
    if |st.current| + |paragraph| > max then
      PackState(if st.current != [] then st.chunks + [Strip(st.current)] else st.chunks, paragraph)
    else
      PackState(st.chunks, if st.current != [] then st.current + ParagraphBreak + paragraph else paragraph)
  }

  function PackFrom(paragraphs: seq<string>, max: int): PackState
    decreases |paragraphs|
  {
    if paragraphs == [] then PackState([], "")
    else PackStep(PackFrom(paragraphs[..|paragraphs| - 1], max), paragraphs[|paragraphs| - 1], max)
  }

  /** The packed chunks, with the last one closed if it is non-empty. */
  function Packed(paragraphs: seq<string>, max: int): seq<string> {
    var st := PackFrom(paragraphs, max);
    if st.current != [] then st.chunks + [Strip(st.current)] else st.chunks
  }

  /** Whether some sentence end is a suffix of `s`. */
  predicate EndsWithAny(s: string, ends: seq<string>) {
    exists j :: 0 <= j < |ends| && EndsWith(s, ends[j])
  }

  /** The first `k` characters of `chunk` end with ". ", "! " or "? ". */
  predicate SentenceEndAt(chunk: string, k: nat)
    requires k <= |chunk|
  {
    k >= 2 && chunk[k - 1] == ' ' && (chunk[k - 2] == '.' || chunk[k - 2] == '!' || chunk[k - 2] == '?')
  }

  /**
   * The sentence splitter's state: the pieces cut so far, and where the open
   * piece starts.
   */
  datatype SentenceSplit = SentenceSplit(pieces: seq<string>, start: nat)

  /**
   * The splitter after the first `k` characters: the open piece is cut
   * (stripped) when a sentence ends at `k` and the piece has reached `max`.
   */
  function SentenceState(chunk: string, max: int, k: nat): (st: SentenceSplit)
    requires k <= |chunk|
    ensures st.start <= k
    decreases k
  {
    if k == 0 then SentenceSplit([], 0)
    else
      var prev := SentenceState(chunk, max, k - 1);
      if SentenceEndAt(chunk, k) && k - prev.start >= max then SentenceSplit(prev.pieces + [Strip(chunk[prev.start..k])], k)
      else prev
  }

  /** An oversize chunk cut into pieces, the remainder last. */
  function SentencePieces(chunk: string, max: int): seq<string> {
    var st := SentenceState(chunk, max, |chunk|);
    if st.start < |chunk| then st.pieces + [Strip(chunk[st.start..])] else st.pieces
  }

  /** Chunks within `max` pass unchanged; longer ones are cut after sentence ends. */
  function Refine(chunks: seq<string>, max: int): seq<string>
    decreases |chunks|
  {
    if chunks == [] then []
    else
      var chunk := chunks[|chunks| - 1];
      Refine(chunks[..|chunks| - 1], max) + (if |chunk| <= max then [chunk] else SentencePieces(chunk, max))
  }

  /** The chunks for a text: the text itself when it fits, else the packed and refined paragraphs. */
  function ChunkText(text: string, max: int): seq<string> {
    if |text| <= max then [text] else Refine(Packed(Split(text, ParagraphBreak), max), max)
  }

  method ChunkTextForTts(text: string, max: int) returns (finalChunks: seq<string>)
    ensures finalChunks == ChunkText(text, max)
  {
    if |text| <= max {
      return [text];
    }
    var chunks := PackParagraphs(Split(text, ParagraphBreak), max);
    finalChunks := [];
    for k := 0 to |chunks|
      invariant finalChunks == Refine(chunks[..k], max)
    {
      assert chunks[..k + 1][..k] == chunks[..k];
      var chunk := chunks[k];
      if |chunk| <= max {
        finalChunks := finalChunks + [chunk];
      } else {
        var pieces := SplitOnSentences(chunk, max);
        finalChunks := finalChunks + pieces;
      }
    }
    assert chunks[..|chunks|] == chunks;
  }

  /** The greedy paragraph packer. */
  method PackParagraphs(paragraphs: seq<string>, max: int) returns (chunks: seq<string>)
    ensures chunks == Packed(paragraphs, max)
  {
    chunks := [];
    var currentChunk := "";
    for k := 0 to |paragraphs|
      invariant PackState(chunks, currentChunk) == PackFrom(paragraphs[..k], max)
    {
      assert paragraphs[..k + 1][..k] == paragraphs[..k];
      var paragraph := paragraphs[k];
      if |currentChunk| + |paragraph| > max {
        if currentChunk != [] {
          chunks := chunks + [Strip(currentChunk)];
        }
        currentChunk := paragraph;
      } else {
        if currentChunk != [] {
          currentChunk := currentChunk + ParagraphBreak + paragraph;
        } else {
          currentChunk := paragraph;
        }
      }
    }
    assert paragraphs[..|paragraphs|] == paragraphs;
    if currentChunk != [] {
      chunks := chunks + [Strip(currentChunk)];
    }
  }

  /**
   * The per-character splitter. The running sentence restarts after every
   * sentence end, so testing its suffix is testing the suffix of everything read.
   */
  method SplitOnSentences(chunk: string, max: int) returns (pieces: seq<string>)
    ensures pieces == SentencePieces(chunk, max)
  {
    pieces := [];
    var currentSentence := "";
    var currentSubChunk := "";
    for k := 0 to |chunk|
      invariant SentenceState(chunk, max, k).pieces == pieces
      invariant currentSubChunk == chunk[SentenceState(chunk, max, k).start..k]
      invariant currentSentence == [] ==> k == 0 || chunk[k - 1] == ' '
      invariant currentSentence != [] ==> k > 0 && currentSentence[|currentSentence| - 1] == chunk[k - 1]
    {
      ghost var st := SentenceState(chunk, max, k);
      var c := chunk[k];
      SentenceEndAgrees(chunk, k, currentSentence);
      assert chunk[st.start..k + 1] == chunk[st.start..k] + [c];
      currentSentence := currentSentence + [c];
      currentSubChunk := currentSubChunk + [c];
      var isSentenceEnd := EndsWithSentenceEnd(currentSentence);
      if isSentenceEnd {
        if |currentSubChunk| >= max {
          assert SentenceState(chunk, max, k + 1) == SentenceSplit(st.pieces + [Strip(chunk[st.start..k + 1])], k + 1);
          pieces := pieces + [Strip(currentSubChunk)];
          currentSubChunk := "";
        } else {
          assert SentenceState(chunk, max, k + 1) == st;
        }
        currentSentence := "";
      } else {
        assert SentenceState(chunk, max, k + 1) == st;
      }
    }
    ghost var st := SentenceState(chunk, max, |chunk|);
    assert currentSubChunk == chunk[st.start..];
    if currentSubChunk != [] {
      pieces := pieces + [Strip(currentSubChunk)];
    }
  }

  /** The loop over the sentence ends, stopping at the first that is a suffix. */
  method EndsWithSentenceEnd(sentence: string) returns (isSentenceEnd: bool)
    ensures isSentenceEnd <==> EndsWithAny(sentence, SentenceEnds)
  {
    isSentenceEnd := false;
    var j := 0;
    while j < |SentenceEnds| && !isSentenceEnd
      invariant 0 <= j <= |SentenceEnds|
      invariant isSentenceEnd <==> exists i :: 0 <= i < j && EndsWith(sentence, SentenceEnds[i])
    {
      if EndsWith(sentence, SentenceEnds[j]) {
        isSentenceEnd := true;
      }
      j := j + 1;
    }
  }

  /**
   * The running sentence, extended by the next character, ends a sentence
   * exactly when everything read so far does, and then that character is a space.
   */
  lemma SentenceEndAgrees(chunk: string, k: nat, sentence: string)
    requires k < |chunk|
    requires sentence == [] ==> k == 0 || chunk[k - 1] == ' '
    requires sentence != [] ==> k > 0 && sentence[|sentence| - 1] == chunk[k - 1]
    ensures EndsWithAny(sentence + [chunk[k]], SentenceEnds) <==> SentenceEndAt(chunk, k + 1)
  {
    var s := sentence + [chunk[k]];
    if |s| >= 2 {
      assert s[|s| - 2..] == [chunk[k - 1], chunk[k]];
    }
    if SentenceEndAt(chunk, k + 1) {
      var j := if chunk[k - 1] == '.' then 0 else if chunk[k - 1] == '!' then 1 else 2;
      assert EndsWith(s, SentenceEnds[j]);
    }
  }

  /** Testing the running sentence is testing all that was read: the suffix check of the source. */
  lemma SentenceEndIsSuffix(chunk: string, k: nat)
    requires k <= |chunk|
    ensures SentenceEndAt(chunk, k) <==> EndsWithAny(chunk[..k], SentenceEnds)
  {
    var p := chunk[..k];
    if k >= 2 {
      assert p[k - 2..] == [chunk[k - 2], chunk[k - 1]];
    }
    if SentenceEndAt(chunk, k) {
      var j := if chunk[k - 2] == '.' then 0 else if chunk[k - 2] == '!' then 1 else 2;
      assert EndsWith(p, SentenceEnds[j]);
    }
  }

  // ---------------------------------------------------------------------------
  // Properties

  /** Text that fits is returned as the one chunk, unchanged. */
  lemma ShortTextIsOneChunk(text: string, max: int)
    requires |text| <= max
    ensures ChunkText(text, max) == [text]
  {
  }

  /** Joining paragraphs with whitespace adds no visible character. */
  lemma {:induction false} NonSpaceJoin(parts: seq<string>, sep: string)
    requires AllSpace(sep)
    ensures NonSpace(Join(parts, sep)) == NonSpace(Concat(parts))
    decreases |parts|
  {
    if |parts| == 1 {
      assert parts == [parts[0]];
      ConcatSingle(parts[0]);
    } else if |parts| > 1 {
      var rest := Join(parts[1..], sep);
      calc {
        NonSpace(Join(parts, sep));
        { assert Join(parts, sep) == parts[0] + (sep + rest); }
        NonSpace(parts[0] + (sep + rest));
        { NonSpaceConcat(parts[0], sep + rest); }
        NonSpace(parts[0]) + NonSpace(sep + rest);
        { NonSpaceConcat(sep, rest); NonSpaceOfSpaces(sep); }
        NonSpace(parts[0]) + NonSpace(rest);
        { NonSpaceJoin(parts[1..], sep); }
        NonSpace(parts[0]) + NonSpace(Concat(parts[1..]));
        { NonSpaceConcat(parts[0], Concat(parts[1..])); }
        NonSpace(Concat(parts));
      }
    }
  }

  lemma {:induction false} ConcatOfAppend(a: seq<string>, b: seq<string>)
    ensures Concat(a + b) == Concat(a) + Concat(b)
    decreases |a|
  {
    if a == [] {
      assert a + b == b;
    } else {
      assert (a + b)[1..] == a[1..] + b;
      ConcatOfAppend(a[1..], b);
    }
  }

  lemma ConcatSingle(s: string)
    ensures Concat([s]) == s
  {
    assert [s][1..] == [];
  }

  /** NonSpace of a list with one more string. */
  lemma NonSpaceConcatAppend(pieces: seq<string>, last: string)
    ensures NonSpace(Concat(pieces + [last])) == NonSpace(Concat(pieces)) + NonSpace(last)
  {
    ConcatAppend(pieces, last);
    NonSpaceConcat(Concat(pieces), last);
  }

  /** One packing step keeps the visible text: the paragraph's characters follow the state's. */
  lemma PackStepKeepsText(st: PackState, p: string, max: int)
    ensures var next := PackStep(st, p, max);
            NonSpace(Concat(next.chunks)) + NonSpace(next.current) ==
            NonSpace(Concat(st.chunks)) + NonSpace(st.current) + NonSpace(p)
  {
    var next := PackStep(st, p, max);
    if |st.current| + |p| > max {
      if st.current != [] {
        assert next.chunks == st.chunks + [Strip(st.current)];
        NonSpaceConcatAppend(st.chunks, Strip(st.current));
        NonSpaceStrip(st.current);
      }
    } else if st.current != [] {
      assert next.current == st.current + ParagraphBreak + p;
      NonSpaceConcat(st.current + ParagraphBreak, p);
      NonSpaceConcat(st.current, ParagraphBreak);
      NonSpaceOfSpaces(ParagraphBreak);
    }
  }

  /** Packing keeps the visible text: closed chunks then the open one read as the paragraphs do. */
  lemma {:induction false} PackKeepsText(paragraphs: seq<string>, max: int)
    ensures var st := PackFrom(paragraphs, max);
            NonSpace(Concat(st.chunks)) + NonSpace(st.current) == NonSpace(Concat(paragraphs))
    decreases |paragraphs|
  {
    if paragraphs != [] {
      var init := paragraphs[..|paragraphs| - 1];
      var p := paragraphs[|paragraphs| - 1];
      PackKeepsText(init, max);
      PackStepKeepsText(PackFrom(init, max), p, max);
      assert paragraphs == init + [p];
      NonSpaceConcatAppend(init, p);
    }
  }

  lemma PackedKeepsText(paragraphs: seq<string>, max: int)
    ensures NonSpace(Concat(Packed(paragraphs, max))) == NonSpace(Concat(paragraphs))
  {
    var st := PackFrom(paragraphs, max);
    PackKeepsText(paragraphs, max);
    if st.current != [] {
      NonSpaceConcatAppend(st.chunks, Strip(st.current));
      NonSpaceStrip(st.current);
    }
  }

  /** Cutting off `chunk[start..k]` after pieces holding `chunk[..start]` leaves pieces holding `chunk[..k]`. */
  lemma CutKeepsText(chunk: string, pieces: seq<string>, start: nat, k: nat)
    requires start <= k <= |chunk|
    requires NonSpace(Concat(pieces)) == NonSpace(chunk[..start])
    ensures NonSpace(Concat(pieces + [Strip(chunk[start..k])])) == NonSpace(chunk[..k])
  {
    var piece := chunk[start..k];
    calc {
      NonSpace(Concat(pieces + [Strip(piece)]));
      { NonSpaceConcatAppend(pieces, Strip(piece)); }
      NonSpace(Concat(pieces)) + NonSpace(Strip(piece));
      { NonSpaceStrip(piece); }
      NonSpace(chunk[..start]) + NonSpace(piece);
      { NonSpaceConcat(chunk[..start], piece); }
      NonSpace(chunk[..start] + piece);
      { assert chunk[..k] == chunk[..start] + piece; }
      NonSpace(chunk[..k]);
    }
  }

  /** The splitter keeps the visible text of what it has cut off. */
  lemma {:induction false} SentenceStateKeepsText(chunk: string, max: int, k: nat)
    requires k <= |chunk|
    ensures var st := SentenceState(chunk, max, k);
            NonSpace(Concat(st.pieces)) == NonSpace(chunk[..st.start])
    decreases k
  {
    if k > 0 {
      var prev := SentenceState(chunk, max, k - 1);
      SentenceStateKeepsText(chunk, max, k - 1);
      if SentenceEndAt(chunk, k) && k - prev.start >= max {
        CutKeepsText(chunk, prev.pieces, prev.start, k);
      }
    }
  }

  lemma SentencePiecesKeepText(chunk: string, max: int)
    ensures NonSpace(Concat(SentencePieces(chunk, max))) == NonSpace(chunk)
  {
    var st := SentenceState(chunk, max, |chunk|);
    SentenceStateKeepsText(chunk, max, |chunk|);
    if st.start < |chunk| {
      var rest := chunk[st.start..];
      NonSpaceConcatAppend(st.pieces, Strip(rest));
      NonSpaceStrip(rest);
      assert chunk == chunk[..st.start] + rest;
      NonSpaceConcat(chunk[..st.start], rest);
    } else {
      assert chunk[..st.start] == chunk;
    }
  }

  /** What the refining pass makes of one chunk keeps its visible text. */
  lemma RefinedChunkKeepsText(chunk: string, max: int)
    ensures NonSpace(Concat(if |chunk| <= max then [chunk] else SentencePieces(chunk, max))) == NonSpace(chunk)
  {
    if |chunk| <= max {
      ConcatSingle(chunk);
    } else {
      SentencePiecesKeepText(chunk, max);
    }
  }

  lemma {:induction false} RefineKeepsText(chunks: seq<string>, max: int)
    ensures NonSpace(Concat(Refine(chunks, max))) == NonSpace(Concat(chunks))
    decreases |chunks|
  {
    if chunks != [] {
      var init := chunks[..|chunks| - 1];
      var chunk := chunks[|chunks| - 1];
      var head := Refine(init, max);
      var tail := if |chunk| <= max then [chunk] else SentencePieces(chunk, max);
      calc {
        NonSpace(Concat(Refine(chunks, max)));
        NonSpace(Concat(head + tail));
        { ConcatOfAppend(head, tail); }
        NonSpace(Concat(head) + Concat(tail));
        { NonSpaceConcat(Concat(head), Concat(tail)); }
        NonSpace(Concat(head)) + NonSpace(Concat(tail));
        { RefineKeepsText(init, max); RefinedChunkKeepsText(chunk, max); }
        NonSpace(Concat(init)) + NonSpace(chunk);
        { NonSpaceConcatAppend(init, chunk); }
        NonSpace(Concat(init + [chunk]));
        { assert chunks == init + [chunk]; }
        NonSpace(Concat(chunks));
      }
    }
  }

  /**
   * The chunks, read in order, hold exactly the text's non-whitespace
   * characters in the same order: nothing is lost, duplicated or moved.
   */
  lemma ChunksKeepText(text: string, max: int)
    ensures NonSpace(Concat(ChunkText(text, max))) == NonSpace(text)
  {
    if |text| <= max {
      ConcatSingle(text);
    } else {
      var paragraphs := Split(text, ParagraphBreak);
      RefineKeepsText(Packed(paragraphs, max), max);
      PackedKeepsText(paragraphs, max);
      NonSpaceJoin(paragraphs, ParagraphBreak);
    }
  }

  /**
   * The open chunk of the packer stays within `max + 2` (the separator is not
   * counted when deciding) unless it is a single paragraph.
   */
  lemma {:induction false} PackStateBound(paragraphs: seq<string>, max: int)
    requires max >= 0
    ensures var st := PackFrom(paragraphs, max);
            |st.current| <= max + 2 || st.current in paragraphs
    ensures var st := PackFrom(paragraphs, max);
            forall c :: c in st.chunks ==> |c| <= max + 2 || exists p :: p in paragraphs && c == Strip(p)
    decreases |paragraphs|
  {
    if paragraphs != [] {
      var init := paragraphs[..|paragraphs| - 1];
      var p := paragraphs[|paragraphs| - 1];
      var st := PackFrom(init, max);
      PackStateBound(init, max);
      assert paragraphs == init + [p];
      assert p in paragraphs;
      assert forall q :: q in init ==> q in paragraphs;
      if |st.current| + |p| > max {
        if st.current != [] {
          StripShorter(st.current);
        }
      } else if st.current != [] {
        assert |st.current + ParagraphBreak + p| == |st.current| + 2 + |p|;
      }
    }
  }

  /**
   * Every packed chunk is at most `max + 2` long, or is a single paragraph
   * (stripped) that was already too long on its own.
   */
  lemma PackedChunkBound(paragraphs: seq<string>, max: int)
    requires max >= 0
    ensures forall c :: c in Packed(paragraphs, max) ==> |c| <= max + 2 || exists p :: p in paragraphs && c == Strip(p)
  {
    var st := PackFrom(paragraphs, max);
    PackStateBound(paragraphs, max);
    if st.current != [] {
      StripShorter(st.current);
    }
  }

  /** When every packed chunk fits, the refining pass changes nothing. */
  lemma {:induction false} ShortChunksPass(chunks: seq<string>, max: int)
    requires forall k :: 0 <= k < |chunks| ==> |chunks[k]| <= max
    ensures Refine(chunks, max) == chunks
    decreases |chunks|
  {
    if chunks != [] {
      var init := chunks[..|chunks| - 1];
      assert forall k :: 0 <= k < |init| ==> init[k] == chunks[k];
      ShortChunksPass(init, max);
      assert chunks == init + [chunks[|chunks| - 1]];
    }
  }

  /**
   * A cut is made only once the open piece has reached `max`: so the pieces
   * cut from the first `k` characters number at most `k / max`.
   */
  lemma {:induction false} CutsNeedMax(chunk: string, max: int, k: nat)
    requires k <= |chunk|
    ensures var st := SentenceState(chunk, max, k);
            |st.pieces| * max <= st.start
    decreases k
  {
    if k > 0 {
      var prev := SentenceState(chunk, max, k - 1);
      CutsNeedMax(chunk, max, k - 1);
      if SentenceEndAt(chunk, k) && k - prev.start >= max {
        OneMoreCut(|prev.pieces|, max, prev.start, k - prev.start);
      } else {
        assert SentenceState(chunk, max, k) == prev;
      }
    }
  }

  /** Every cut, and so the start of every piece, sits right after a sentence end. */
  lemma {:induction false} CutsAtSentenceEnds(chunk: string, max: int, k: nat)
    requires k <= |chunk|
    ensures var st := SentenceState(chunk, max, k);
            st.start == 0 || SentenceEndAt(chunk, st.start)
    decreases k
  {
    if k > 0 {
      CutsAtSentenceEnds(chunk, max, k - 1);
    }
  }

  lemma OneMoreCut(n: nat, max: int, before: int, piece: int)
    requires n * max <= before && max <= piece
    ensures (n + 1) * max <= before + piece
  {
    assert (n + 1) * max == n * max + max;
  }

  /** A chunk with no sentence end is not cut: it comes back whole, however long. */
  lemma {:induction false} NoSentenceEndNoCut(chunk: string, max: int, k: nat)
    requires k <= |chunk|
    requires forall i :: 0 < i <= k ==> !SentenceEndAt(chunk, i)
    ensures SentenceState(chunk, max, k) == SentenceSplit([], 0)
    decreases k
  {
    if k > 0 {
      NoSentenceEndNoCut(chunk, max, k - 1);
    }
  }

  lemma NoSentenceEndWhole(chunk: string, max: int)
    requires chunk != []
    requires forall i :: 0 < i <= |chunk| ==> !SentenceEndAt(chunk, i)
    ensures SentencePieces(chunk, max) == [Strip(chunk)]
  {
    NoSentenceEndNoCut(chunk, max, |chunk|);
    assert chunk[0..] == chunk;
  }
}
