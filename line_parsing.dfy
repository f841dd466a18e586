/**
 * The loop shape shared by the line parsers of the agents: go through the
 * lines in order and append what each line contributes, if anything.
 */
module LineParsing {
  import opened Wrappers

  /** What the lines contribute, in line order; `f` says what one line contributes. */
  function CollectLines(f: string -> Option<string>, lines: seq<string>): (r: seq<string>)
    ensures |r| <= |lines|
  {
    if lines == [] then []
    else
      var item := f(lines[|lines| - 1]);
      CollectLines(f, lines[..|lines| - 1]) + (if item.Some? then [item.value] else [])
  }

  /** One more line adds its contribution at the end. */
  lemma CollectLinesStep(f: string -> Option<string>, lines: seq<string>, k: nat)
    requires k < |lines|
    ensures CollectLines(f, lines[..k + 1]) ==
            CollectLines(f, lines[..k]) + (if f(lines[k]).Some? then [f(lines[k]).value] else [])
  {
    assert lines[..k + 1][..k] == lines[..k];
  }

  /** Contributions keep line order: two runs of lines give theirs in turn. */
  lemma {:induction false} CollectLinesConcat(f: string -> Option<string>, a: seq<string>, b: seq<string>)
    ensures CollectLines(f, a + b) == CollectLines(f, a) + CollectLines(f, b)
    decreases |b|
  {
    if b == [] {
      assert a + b == a;
    } else {
      var init := b[..|b| - 1];
      var item := f(b[|b| - 1]);
      var tail := if item.Some? then [item.value] else [];
      CollectLinesConcat(f, a, init);
      assert (a + b)[..|a + b| - 1] == a + init && (a + b)[|a + b| - 1] == b[|b| - 1];
      calc {
        CollectLines(f, a + b);
        CollectLines(f, a + init) + tail;
        CollectLines(f, a) + CollectLines(f, init) + tail;
      }
    }
  }

  /** An item is collected exactly when some line contributes it. */
  lemma {:induction false} CollectLinesExact(f: string -> Option<string>, lines: seq<string>, x: string)
    ensures x in CollectLines(f, lines) <==> exists k :: 0 <= k < |lines| && f(lines[k]) == Some(x)
    decreases |lines|
  {
    if lines != [] {
      var init := lines[..|lines| - 1];
      CollectLinesExact(f, init, x);
      if x in CollectLines(f, init) {
        var k :| 0 <= k < |init| && f(init[k]) == Some(x);
        assert lines[k] == init[k];
      }
      if exists k :: 0 <= k < |lines| && f(lines[k]) == Some(x) {
        var k :| 0 <= k < |lines| && f(lines[k]) == Some(x);
        if k < |init| {
          assert init[k] == lines[k];
        }
      }
    }
  }

  /** Nothing is collected exactly when no line contributes. */
  lemma {:induction false} CollectLinesNone(f: string -> Option<string>, lines: seq<string>)
    ensures CollectLines(f, lines) == [] <==> forall k :: 0 <= k < |lines| ==> f(lines[k]).None?
    decreases |lines|
  {
    if lines != [] {
      var init := lines[..|lines| - 1];
      CollectLinesNone(f, init);
      assert forall k :: 0 <= k < |init| ==> init[k] == lines[k];
    }
  }

  /** When every line contributes, there is one item per line. */
  lemma {:induction false} CollectLinesAll(f: string -> Option<string>, lines: seq<string>)
    requires forall k :: 0 <= k < |lines| ==> f(lines[k]).Some?
    ensures |CollectLines(f, lines)| == |lines|
    ensures forall k :: 0 <= k < |lines| ==> CollectLines(f, lines)[k] == f(lines[k]).value
    decreases |lines|
  {
    if lines != [] {
      var init := lines[..|lines| - 1];
      assert forall k :: 0 <= k < |init| ==> init[k] == lines[k];
      CollectLinesAll(f, init);
    }
  }

  /** `f` applied to every string, in order. */
  function MapLines<T>(f: string -> T, lines: seq<string>): (r: seq<T>)
    ensures |r| == |lines|
  {
    if lines == [] then [] else MapLines(f, lines[..|lines| - 1]) + [f(lines[|lines| - 1])]
  }

  lemma MapLinesStep<T>(f: string -> T, lines: seq<string>, k: nat)
    requires k < |lines|
    ensures MapLines(f, lines[..k + 1]) == MapLines(f, lines[..k]) + [f(lines[k])]
  {
    assert lines[..k + 1][..k] == lines[..k];
  }

  lemma {:induction false} MapLinesAt<T>(f: string -> T, lines: seq<string>)
    ensures forall k :: 0 <= k < |lines| ==> MapLines(f, lines)[k] == f(lines[k])
    decreases |lines|
  {
    if lines != [] {
      var init := lines[..|lines| - 1];
      MapLinesAt(f, init);
      assert forall k :: 0 <= k < |init| ==> init[k] == lines[k];
    }
  }
}
