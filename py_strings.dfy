/**
 * The parts of Python's `str` API that the modelled code uses, with Python's
 * semantics on `seq<char>`: `strip`, `find`, `in`, `split`, `join`,
 * `startswith`, `endswith`, `lower`, `upper`, slicing and `str(int)`.
 */
module PyStrings {

  /** `str.isspace()` on one character; also what `\s` matches in a `re` pattern. */
  predicate IsSpace(c: char) {
    var n := c as int;
    (9 <= n <= 13) || (28 <= n <= 32) || n == 0x85 || n == 0xA0 || n == 0x1680
    || (0x2000 <= n <= 0x200A) || n == 0x2028 || n == 0x2029 || n == 0x202F
    || n == 0x205F || n == 0x3000
  }

  predicate IsDigit(c: char) { '0' <= c <= '9' }

  predicate IsAsciiLetter(c: char) { ('a' <= c <= 'z') || ('A' <= c <= 'Z') }

  /** What `\w` matches, restricted to ASCII. */
  predicate IsWordChar(c: char) { IsAsciiLetter(c) || IsDigit(c) || c == '_' }

  /** End of the longest run of characters satisfying `p` that starts at `i`. */
  function RunEnd(s: string, i: nat, p: char -> bool): (j: nat)
    requires i <= |s|
    ensures i <= j <= |s|
    ensures forall k :: i <= k < j ==> p(s[k])
    ensures j == |s| || !p(s[j])
    decreases |s| - i
  {
    if i < |s| && p(s[i]) then RunEnd(s, i + 1, p) else i
  }

  /** Start of the longest run of characters satisfying `p` that ends at `j`. */
  function RunStart(s: string, j: nat, p: char -> bool): (i: nat)
    requires j <= |s|
    ensures i <= j
    ensures forall k :: i <= k < j ==> p(s[k])
    ensures i == 0 || !p(s[i - 1])
    decreases j
  {
    if j > 0 && p(s[j - 1]) then RunStart(s, j - 1, p) else j
  }

  /** `s.strip(chars)` where `p` says which characters are stripped. */
  function StripBy(s: string, p: char -> bool): string {
    var a := RunEnd(s, 0, p);
    if a == |s| then [] else s[a..RunStart(s, |s|, p)]
  }

  /** `s.strip()` */
  function Strip(s: string): string {
    StripBy(s, IsSpace)
  }

  /** `s.strip("- ")` */
  function StripDashSpace(s: string): string {
    StripBy(s, c => c == '-' || c == ' ')
  }

  predicate AllSpace(s: string) {
    forall k :: 0 <= k < |s| ==> IsSpace(s[k])
  }

  /** The non-whitespace characters of `s`, in order. */
  function NonSpace(s: string): string {
    if s == [] then [] else (if IsSpace(s[0]) then [] else [s[0]]) + NonSpace(s[1..])
  }

  lemma {:induction false} NonSpaceConcat(a: string, b: string)
    ensures NonSpace(a + b) == NonSpace(a) + NonSpace(b)
    decreases |a|
  {
    if a != [] {
      assert (a + b)[1..] == a[1..] + b;
      NonSpaceConcat(a[1..], b);
    } else {
      assert a + b == b;
    }
  }

  lemma {:induction false} NonSpaceOfSpaces(s: string)
    requires AllSpace(s)
    ensures NonSpace(s) == []
    decreases |s|
  {
    if s != [] {
      NonSpaceOfSpaces(s[1..]);
    }
  }

  lemma SpacesAround(a: string, b: string, c: string)
    requires AllSpace(a) && AllSpace(c)
    ensures NonSpace(a + b + c) == NonSpace(b)
  {
    NonSpaceOfSpaces(a);
    NonSpaceOfSpaces(c);
    NonSpaceConcat(a, b);
    NonSpaceConcat(a + b, c);
  }

  /** Stripping whitespace never removes a non-whitespace character. */
  lemma NonSpaceStrip(s: string)
    ensures NonSpace(Strip(s)) == NonSpace(s)
  {
    var a := RunEnd(s, 0, IsSpace);
    if a == |s| {
      assert s == s[..a];
      NonSpaceOfSpaces(s);
    } else {
      var b := RunStart(s, |s|, IsSpace);
      assert s == s[..a] + s[a..b] + s[b..];
      assert AllSpace(s[..a]);
      assert AllSpace(s[b..]);
      SpacesAround(s[..a], s[a..b], s[b..]);
    }
  }

  /** `s.strip()` is empty exactly when `s` is all whitespace. */
  lemma StripEmpty(s: string)
    ensures Strip(s) == [] <==> AllSpace(s)
  {
  }

  /** `s.strip()` only removes characters, so it introduces none. */
  lemma StripKeepsOut(s: string, c: char)
    requires c !in s
    ensures c !in Strip(s)
  {
  }

  lemma StripShorter(s: string)
    ensures |Strip(s)| <= |s|
  {
  }

  /** Stripping twice is stripping once. */
  lemma StripIdempotent(s: string)
    ensures Strip(Strip(s)) == Strip(s)
  {
    var a := RunEnd(s, 0, IsSpace);
    if a < |s| {
      var b := RunStart(s, |s|, IsSpace);
      var t := s[a..b];
      assert t[0] == s[a];
      assert t[|t| - 1] == s[b - 1];
      assert RunEnd(t, 0, IsSpace) == 0;
      assert RunStart(t, |t|, IsSpace) == |t|;
      assert t[0..|t|] == t;
    }
  }

  lemma {:induction false} NonSpaceEmpty(s: string)
    ensures NonSpace(s) == [] <==> AllSpace(s)
    decreases |s|
  {
    if s != [] {
      NonSpaceEmpty(s[1..]);
      assert AllSpace(s) <==> IsSpace(s[0]) && AllSpace(s[1..]);
    }
  }

  predicate OccursAt(s: string, pat: string, i: nat) {
    i + |pat| <= |s| && s[i..i + |pat|] == pat
  }

  /** `s.find(pat, start)`: the first occurrence at or after `start`, or -1. */
  function FindFrom(s: string, pat: string, start: nat): (r: int)
    ensures r == -1 || (start <= r && OccursAt(s, pat, r))
    ensures forall k :: start <= k && (r == -1 || k < r) ==> !OccursAt(s, pat, k)
    decreases |s| - start
  {
    if start + |pat| > |s| then -1
    else if OccursAt(s, pat, start) then start
    else FindFrom(s, pat, start + 1)
  }

  /** `pat in s` */
  predicate Contains(s: string, pat: string) {
    FindFrom(s, pat, 0) != -1
  }

  lemma ContainsAt(s: string, pat: string, i: nat)
    requires OccursAt(s, pat, i)
    ensures Contains(s, pat)
  {
  }

  /** A one-character separator absent from `s` means the character is absent. */
  lemma NotContainsChar(s: string, c: char)
    requires !Contains(s, [c])
    ensures c !in s
  {
    if c in s {
      var k :| 0 <= k < |s| && s[k] == c;
      assert s[k..k + 1] == [c];
      ContainsAt(s, [c], k);
    }
  }

  predicate StartsWith(s: string, prefix: string) {
    |prefix| <= |s| && s[..|prefix|] == prefix
  }

  predicate EndsWith(s: string, suffix: string) {
    |suffix| <= |s| && s[|s| - |suffix|..] == suffix
  }

  /** `sep.join(parts)` */
  function Join(parts: seq<string>, sep: string): string
    decreases |parts|
  {
    if |parts| == 0 then ""
    else if |parts| == 1 then parts[0]
    else parts[0] + sep + Join(parts[1..], sep)
  }

  /** Every part occurs in the joined string. */
  lemma {:induction false} JoinContainsPart(parts: seq<string>, sep: string, k: nat)
    requires k < |parts|
    ensures Contains(Join(parts, sep), parts[k])
    decreases |parts|
  {
    var j := Join(parts, sep);
    if k == 0 {
      assert OccursAt(j, parts[0], 0) by {
        if |parts| > 1 {
          assert j == parts[0] + (sep + Join(parts[1..], sep));
        }
      }
      ContainsAt(j, parts[0], 0);
    } else {
      var rest := Join(parts[1..], sep);
      JoinContainsPart(parts[1..], sep, k - 1);
      var i := FindFrom(rest, parts[k], 0);
      var off := |parts[0] + sep|;
      assert j == parts[0] + sep + rest;
      assert j[off + i..off + i + |parts[k]|] == rest[i..i + |parts[k]|];
      ContainsAt(j, parts[k], off + i);
    }
  }

  /** The pieces of an all-whitespace join are all whitespace. */
  lemma {:induction false} JoinAllSpace(parts: seq<string>, sep: string)
    requires AllSpace(Join(parts, sep))
    ensures forall k :: 0 <= k < |parts| ==> AllSpace(parts[k])
    decreases |parts|
  {
    if |parts| > 1 {
      var j := Join(parts, sep);
      assert j == parts[0] + (sep + Join(parts[1..], sep));
      assert AllSpace(parts[0]) by {
        forall k | 0 <= k < |parts[0]| ensures IsSpace(parts[0][k]) {
          assert parts[0][k] == j[k];
        }
      }
      assert AllSpace(Join(parts[1..], sep)) by {
        var rest := Join(parts[1..], sep);
        forall k | 0 <= k < |rest| ensures IsSpace(rest[k]) {
          assert rest[k] == j[|parts[0]| + |sep| + k];
        }
      }
      JoinAllSpace(parts[1..], sep);
      assert forall k :: 1 <= k < |parts| ==> parts[k] == parts[1..][k - 1];
    }
  }

  /** `s.split(sep)` for a non-empty separator: the pieces between occurrences. */
  function Split(s: string, sep: string): (parts: seq<string>)
    requires sep != []
    ensures |parts| >= 1
    ensures Join(parts, sep) == s
    ensures forall k :: 0 <= k < |parts| ==> !Contains(parts[k], sep)
    decreases |s|
  {
    var i := FindFrom(s, sep, 0);
    if i < 0 then [s]
    else
      var rest := Split(s[i + |sep|..], sep);
      assert s == s[..i] + sep + s[i + |sep|..];
      assert !Contains(s[..i], sep) by {
        var j := FindFrom(s[..i], sep, 0);
        if j != -1 {
          assert s[..i][j..j + |sep|] == s[j..j + |sep|];
          assert j < i && OccursAt(s, sep, j);
          assert false;
        }
      }
      [s[..i]] + rest
  }

  /** `s.split(sep)[0]`: the text before the first `sep`, or all of `s`. */
  lemma SplitHead(s: string, sep: string)
    requires sep != []
    ensures var i := FindFrom(s, sep, 0);
            Split(s, sep)[0] == if i < 0 then s else s[..i]
  {
  }

  /** The second piece of a split is what follows the first separator, up to the next one. */
  lemma SplitSecond(s: string, sep: string)
    requires sep != [] && Contains(s, sep)
    ensures var i := FindFrom(s, sep, 0);
            |Split(s, sep)| >= 2 && Split(s, sep)[1] == Split(s[i + |sep|..], sep)[0]
  {
  }

  predicate IsNonSpace(c: char) { !IsSpace(c) }

  /** `s.split()`: the maximal runs of non-whitespace characters. */
  function Words(s: string): seq<string> {
    WordsFrom(s, 0)
  }

  function WordsFrom(s: string, i: nat): (ws: seq<string>)
    requires i <= |s|
    ensures forall k :: 0 <= k < |ws| ==> ws[k] != []
    decreases |s| - i
  {
    var a := RunEnd(s, i, IsSpace);
    if a == |s| then []
    else
      var b := RunEnd(s, a, IsNonSpace);
      [s[a..b]] + WordsFrom(s, b)
  }

  /** A word of `s.split()`: non-empty, with no whitespace in it. */
  predicate IsWord(w: string) {
    w != [] && forall j :: 0 <= j < |w| ==> IsNonSpace(w[j])
  }

  /** Every piece `split()` gives is a word. */
  lemma {:induction false} WordsFromAreWords(s: string, i: nat)
    requires i <= |s|
    ensures forall k :: 0 <= k < |WordsFrom(s, i)| ==> IsWord(WordsFrom(s, i)[k])
    decreases |s| - i
  {
    var a := RunEnd(s, i, IsSpace);
    if a < |s| {
      var b := RunEnd(s, a, IsNonSpace);
      WordsFromAreWords(s, b);
      assert forall j :: 0 <= j < b - a ==> s[a..b][j] == s[a + j];
    }
  }

  /** A word at `i`, followed by a space or the end, is where the runs of `split()` start and stop. */
  lemma WordRuns(s: string, i: nat, w: string)
    requires IsWord(w) && i + |w| <= |s| && s[i..i + |w|] == w
    requires i + |w| == |s| || s[i + |w|] == ' '
    ensures RunEnd(s, i, IsSpace) == i && RunEnd(s, i, IsNonSpace) == i + |w|
  {
    assert s[i] == w[0];
    forall j | i <= j < i + |w|
      ensures IsNonSpace(s[j])
    {
      assert s[j] == s[i..i + |w|][j - i];
    }
  }

  /** Words joined by one space: the first word, a space, then the others joined. */
  lemma JoinHead(ws: seq<string>)
    requires |ws| > 1 && forall k :: 0 <= k < |ws| ==> IsWord(ws[k])
    ensures var rest := Join(ws[1..], " ");
            Join(ws, " ") == ws[0] + " " + rest && IsWord(ws[1]) && rest != [] && rest[0] == ws[1][0]
  {
    var rest := Join(ws[1..], " ");
    if |ws| > 2 {
      assert rest == ws[1..][0] + " " + Join(ws[1..][1..], " ");
    }
  }

  /** `split()` at a word followed by a space or the end takes that word and goes on after it. */
  lemma WordsFromWord(s: string, i: nat, w: string)
    requires IsWord(w) && i + |w| <= |s| && s[i..i + |w|] == w
    requires i + |w| == |s| || s[i + |w|] == ' '
    ensures WordsFrom(s, i) == [w] + WordsFrom(s, i + |w|)
  {
    WordRuns(s, i, w);
  }

  /** `split()` skips a whitespace character. */
  lemma WordsFromSpace(s: string, i: nat)
    requires i < |s| && IsSpace(s[i])
    ensures WordsFrom(s, i) == WordsFrom(s, i + 1)
  {
    assert RunEnd(s, i, IsSpace) == RunEnd(s, i + 1, IsSpace);
  }

  /** Splitting words joined by single spaces gives the words back, read from position `i`. */
  lemma {:induction false} WordsOfJoinFrom(s: string, i: nat, ws: seq<string>)
    requires i <= |s| && s[i..] == Join(ws, " ")
    requires forall k :: 0 <= k < |ws| ==> IsWord(ws[k])
    ensures WordsFrom(s, i) == ws
    decreases |ws|, 1
  {
    if ws == [] {
      assert RunEnd(s, i, IsSpace) == i;
    } else if |ws| == 1 {
      WordsOfLastWord(s, i, ws[0]);
    } else {
      WordsOfJoinCons(s, i, ws);
    }
  }

  /** The case of two words or more: the first word, then the others after the space. */
  lemma {:induction false} WordsOfJoinCons(s: string, i: nat, ws: seq<string>)
    requires |ws| > 1 && i <= |s| && s[i..] == Join(ws, " ")
    requires forall k :: 0 <= k < |ws| ==> IsWord(ws[k])
    ensures WordsFrom(s, i) == ws
    decreases |ws|, 0
  {
    var w, tail := ws[0], ws[1..];
    JoinHead(ws);
    JoinParts(s, i, w, Join(tail, " "));
    WordsOfWordThenSpace(s, i, w);
    WordsOfJoinFrom(s, i + |w| + 1, tail);
    assert ws == [w] + tail;
  }

  lemma WordsOfLastWord(s: string, i: nat, w: string)
    requires IsWord(w) && i <= |s| && s[i..] == w
    ensures WordsFrom(s, i) == [w]
  {
    assert s[i..i + |w|] == w;
    WordsFromWord(s, i, w);
    assert RunEnd(s, |s|, IsSpace) == |s|;
  }

  lemma WordsOfWordThenSpace(s: string, i: nat, w: string)
    requires IsWord(w) && i + |w| < |s| && s[i..i + |w|] == w && s[i + |w|] == ' '
    ensures WordsFrom(s, i) == [w] + WordsFrom(s, i + |w| + 1)
  {
    WordsFromWord(s, i, w);
    WordsFromSpace(s, i + |w|);
  }

  lemma JoinParts(s: string, i: nat, w: string, rest: string)
    requires i <= |s| && s[i..] == w + " " + rest
    ensures i + |w| < |s| && s[i..i + |w|] == w && s[i + |w|] == ' ' && s[i + |w| + 1..] == rest
  {
    assert s[i..][..|w|] == w;
    assert s[i..][|w|] == ' ';
    assert s[i..][|w| + 1..] == rest;
  }

  /** `" ".join(ws).split() == ws` for words `ws`. */
  lemma WordsOfJoin(ws: seq<string>)
    requires forall k :: 0 <= k < |ws| ==> IsWord(ws[k])
    ensures Words(Join(ws, " ")) == ws
  {
    var s := Join(ws, " ");
    assert s[0..] == s;
    WordsOfJoinFrom(s, 0, ws);
  }

  function LowerChar(c: char): char {
    if 'A' <= c <= 'Z' then (c as int + 32) as char else c
  }

  function UpperChar(c: char): char {
    if 'a' <= c <= 'z' then (c as int - 32) as char else c
  }

  /** `s.lower()`, on ASCII letters. */
  function Lower(s: string): (r: string)
    ensures |r| == |s|
  {
    seq(|s|, k requires 0 <= k < |s| => LowerChar(s[k]))
  }

  /** `s.upper()`, on ASCII letters. */
  function Upper(s: string): (r: string)
    ensures |r| == |s|
  {
    seq(|s|, k requires 0 <= k < |s| => UpperChar(s[k]))
  }

  /** Python's `s[:n]`, including a negative `n`, which counts from the end. */
  function SlicePrefix<T>(s: seq<T>, n: int): (r: seq<T>)
    ensures |r| <= |s| && r == s[..|r|]
    ensures n >= 0 ==> |r| == if n <= |s| then n else |s|
    ensures n < 0 ==> |r| == if |s| + n >= 0 then |s| + n else 0
  {
    if n >= 0 then (if n <= |s| then s[..n] else s)
    else if |s| + n >= 0 then s[..|s| + n]
    else []
  }

  /** `s.replace(c, '')` for a one-character `c`. */
  function RemoveChar(s: string, c: char): (r: string)
    ensures |r| <= |s|
  {
    if s == [] then [] else (if s[0] == c then [] else [s[0]]) + RemoveChar(s[1..], c)
  }

  /** No `c` is left. */
  lemma {:induction false} RemoveCharRemoves(s: string, c: char)
    ensures c !in RemoveChar(s, c)
    decreases |s|
  {
    if s != [] {
      RemoveCharRemoves(s[1..], c);
    }
  }

  lemma {:induction false} RemoveCharConcat(a: string, b: string, c: char)
    ensures RemoveChar(a + b, c) == RemoveChar(a, c) + RemoveChar(b, c)
    decreases |a|
  {
    if a == [] {
      assert a + b == b;
    } else {
      var head := if a[0] == c then [] else [a[0]];
      calc {
        RemoveChar(a + b, c);
        { assert (a + b)[0] == a[0] && (a + b)[1..] == a[1..] + b; }
        head + RemoveChar(a[1..] + b, c);
        { RemoveCharConcat(a[1..], b, c); }
        head + (RemoveChar(a[1..], c) + RemoveChar(b, c));
        RemoveChar(a, c) + RemoveChar(b, c);
      }
    }
  }

  /** `str(n)` for a natural number. */
  function NatToString(n: nat): (r: string)
    ensures r != []
    decreases n
  {
    var d := ['0', '1', '2', '3', '4', '5', '6', '7', '8', '9'];
    if n < 10 then [d[n]] else NatToString(n / 10) + [d[n % 10]]
  }

  /** All pieces concatenated, as `"".join(pieces)`. */
  function Concat(pieces: seq<string>): string
    decreases |pieces|
  {
    if pieces == [] then "" else pieces[0] + Concat(pieces[1..])
  }

  /** The pieces of an all-whitespace concatenation are all whitespace, and conversely. */
  lemma {:induction false} ConcatAllSpace(pieces: seq<string>)
    ensures NonSpace(Concat(pieces)) == [] <==> forall k :: 0 <= k < |pieces| ==> AllSpace(pieces[k])
    decreases |pieces|
  {
    if pieces != [] {
      ConcatAllSpace(pieces[1..]);
      NonSpaceConcat(pieces[0], Concat(pieces[1..]));
      NonSpaceEmpty(pieces[0]);
      assert forall k :: 1 <= k < |pieces| ==> pieces[k] == pieces[1..][k - 1];
    }
  }

  lemma {:induction false} ConcatAppend(pieces: seq<string>, last: string)
    ensures Concat(pieces + [last]) == Concat(pieces) + last
    decreases |pieces|
  {
    if pieces == [] {
      assert [] + [last] == [last];
    } else {
      assert (pieces + [last])[1..] == pieces[1..] + [last];
      ConcatAppend(pieces[1..], last);
    }
  }
}
