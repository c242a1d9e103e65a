/** Where one string occurs in another, and where the lines of a text start and stop: `indexOf` and
    `lastIndexOf` of ECMA-262, with what survives when a text is cut, prefixed or split into lines. A
    string without newlines never occurs across one, which is what ties positions in a text to its
    lines. The block rewriter is built on these facts. */
module Occurrences {
  import opened Wrappers
  import opened Text

  /** `p` occurs in `s` at position `i`. */
  predicate At(s: string, p: string, i: int) {
    0 <= i && i + |p| <= |s| && s[i..i + |p|] == p
  }

  ghost predicate Contains(s: string, p: string) {
    exists i :: At(s, p, i)
  }

  /** `s.indexOf(p, from)`. */
  function IndexOf(s: string, p: string, from: nat): (r: Option<nat>)
    ensures r.Some? ==> from <= r.value && r.value + |p| <= |s|
    decreases |s| - from
  {
    if from + |p| > |s| then None else if At(s, p, from) then Some(from) else IndexOf(s, p, from + 1)
  }

  lemma {:induction false} IndexOfIsLeast(s: string, p: string, from: nat, i: int)
    requires from <= i && At(s, p, i)
    ensures IndexOf(s, p, from).Some? && from <= IndexOf(s, p, from).value <= i
    ensures At(s, p, IndexOf(s, p, from).value)
    decreases i - from
  {
    if !At(s, p, from) {
      IndexOfIsLeast(s, p, from + 1, i);
    }
  }

  lemma {:induction false} IndexOfOccurs(s: string, p: string, from: nat)
    requires IndexOf(s, p, from).Some?
    ensures from <= IndexOf(s, p, from).value && At(s, p, IndexOf(s, p, from).value)
    decreases |s| - from
  {
    if !At(s, p, from) {
      IndexOfOccurs(s, p, from + 1);
    }
  }

  /** Occurrences within a common prefix are common. */
  lemma {:induction false} AtPrefix(x: string, y: string, n: nat, p: string, i: nat)
    requires n <= |x| && n <= |y| && x[..n] == y[..n] && i + |p| <= n
    ensures At(x, p, i) == At(y, p, i)
  {
    assert x[i..i + |p|] == x[..n][i..i + |p|];
    assert y[i..i + |p|] == y[..n][i..i + |p|];
  }

  lemma {:induction false} PartOfPart(s: string, a: nat, b: nat, i: nat, j: nat)
    requires a <= b <= |s| && i <= j <= b - a
    ensures s[a..b][i..j] == s[a + i..a + j]
  {
    assert |s[a..b][i..j]| == j - i;
    forall k | 0 <= k < j - i
      ensures s[a..b][i..j][k] == s[a + i..a + j][k]
    {
      assert s[a..b][i..j][k] == s[a..b][i + k];
    }
  }

  /** An occurrence in a part is an occurrence in the whole, and the other way when it lies in that part. */
  lemma {:induction false} AtPart(s: string, a: nat, b: nat, p: string, i: nat)
    requires a <= b <= |s| && i + |p| <= b - a
    ensures At(s[a..b], p, i) == At(s, p, a + i)
  {
    PartOfPart(s, a, b, i, i + |p|);
  }

  lemma {:induction false} AtEnd(a: string, b: string, c: string)
    ensures At(a + b + c, b, |a|)
  {
    assert (a + b + c)[|a|..|a| + |b|] == b;
  }

  /** A shared prefix holds the same first occurrence... */
  lemma {:induction false} IndexOfShared(x: string, y: string, n: nat, p: string, from: nat, i: nat)
    requires n <= |x| && n <= |y| && x[..n] == y[..n]
    requires IndexOf(x, p, from) == Some(i) && i + |p| <= n
    ensures IndexOf(y, p, from) == Some(i)
    decreases i - from
  {
    AtPrefix(x, y, n, p, from);
    if from < i {
      IndexOfShared(x, y, n, p, from + 1, i);
    }
  }

  /** A first occurrence within a part is the first one there. */
  lemma {:induction false} IndexOfPart(text: string, p: string, a: nat, b: nat, from: nat, i: nat)
    requires a <= from && from <= i && i + |p| <= b <= |text| && IndexOf(text, p, from) == Some(i)
    ensures IndexOf(text[a..b], p, from - a) == Some(i - a)
    decreases i - from
  {
    AtPart(text, a, b, p, from - a);
    if from < i {
      IndexOfPart(text, p, a, b, from + 1, i);
    }
  }

  /** Nothing between the start marker and the line of the first end marker has the end marker. */
  lemma {:induction false} MiddleLacks(c: string, end: string, s: nat, e: nat, a: nat, b: nat)
    requires IndexOf(c, end, s) == Some(e) && s <= a <= b <= e && b <= |c| && end != ""
    ensures !Contains(c[a..b], end)
  {
    forall i | At(c[a..b], end, i)
      ensures false
    {
      AtPart(c, a, b, end, i);
      IndexOfIsLeast(c, end, s, a + i);
    }
  }

  // ---------------------------------------------------------------------------
  // Lines
  // ---------------------------------------------------------------------------

  /** `text.lastIndexOf("\n", i) + 1`. */
  function LineStart(text: string, i: nat): (n: nat)
    ensures n <= i + 1
  {
    if i < |text| && text[i] == NL then i + 1 else if i == 0 then 0 else LineStart(text, i - 1)
  }

  /** Just past the first newline from `e` on, or the end of the text. */
  function LineEnd(text: string, e: nat): (n: nat)
    ensures e <= |text| ==> n <= |text|
  {
    match IndexOf(text, [NL], e)
    case None => |text|
    case Some(n) => n + 1
  }

  /** Where the line with position `e` stops. */
  function LineStop(text: string, e: nat): (n: nat)
    requires e <= |text|
    ensures e <= n <= |text|
  {
    match IndexOf(text, [NL], e)
    case None => |text|
    case Some(m) => m
  }

  /** ...and the same line starts. */
  lemma {:induction false} LineStartShared(x: string, y: string, n: nat, i: nat)
    requires i < n <= |x| && n <= |y| && x[..n] == y[..n]
    ensures LineStart(x, i) == LineStart(y, i)
  {
    assert x[i] == x[..n][i] && y[i] == y[..n][i];
    if x[i] != NL && i > 0 {
      LineStartShared(x, y, n, i - 1);
    }
  }

  lemma {:induction false} LineStartFacts(text: string, i: nat)
    requires i < |text| && text[i] != NL
    ensures LineStart(text, i) <= i && OneLine(text[LineStart(text, i)..i])
    ensures LineStart(text, i) == 0 || text[LineStart(text, i) - 1] == NL
  {
    if i > 0 && text[i - 1] != NL {
      LineStartFacts(text, i - 1);
      var n := LineStart(text, i);
      assert text[n..i] == text[n..i - 1] + [text[i - 1]];
    }
  }

  lemma {:induction false} LineStartAfter(text: string, i: nat, j: nat)
    requires j < i < |text| && text[j] == NL
    ensures LineStart(text, i) > j
  {
    if text[i] != NL && j + 1 < i {
      LineStartAfter(text, i - 1, j);
    }
  }

  lemma {:induction false} LineEndsAt(r: string, e: nat, c: nat, stop: nat)
    requires c <= e <= stop <= |r| && OneLine(r[c..stop]) && (stop == |r| || r[stop] == NL)
    ensures LineEnd(r, e) == if stop == |r| then stop else stop + 1
    decreases stop - e
  {
    if e < stop {
      assert r[e] == r[c..stop][e - c];
      LineEndsAt(r, e + 1, c, stop);
    }
  }

  /** No newline stands between a position and where its line stops. */
  lemma {:induction false} ToLineStop(text: string, e: nat)
    requires e <= |text|
    ensures OneLine(text[e..LineStop(text, e)])
  {
    var stop := LineStop(text, e);
    if NL in text[e..stop] {
      var i :| 0 <= i < stop - e && text[e..stop][i] == NL;
      assert At(text, [NL], e + i);
      IndexOfIsLeast(text, [NL], e, e + i);
    }
  }

  lemma {:induction false} NoNewlines(s: string, a: nat, b: nat)
    requires a <= b <= |s| && OneLine(s[a..b])
    ensures forall k :: a <= k < b ==> s[k] != NL
  {
    forall k | a <= k < b
      ensures s[k] != NL
    {
      assert s[a..b][k - a] == s[k];
    }
  }

  lemma {:induction false} CutAtNewline(text: string, n: nat, m: nat)
    requires n <= m < |text| && text[m] == NL
    ensures text[n..] == text[n..m] + [NL] + text[m + 1..]
  {
    assert text[n..] == text[n..m] + text[m..];
    assert text[m..] == [NL] + text[m + 1..];
  }

  // ---------------------------------------------------------------------------
  // Occurrences and lines
  // ---------------------------------------------------------------------------

  /** An occurrence of a string without newlines does not run across a newline. */
  lemma {:induction false} AtNewline(s: string, p: string, i: nat, k: nat)
    requires At(s, p, i) && OneLine(p) && i <= k < |s| && s[k] == NL
    ensures i + |p| <= k
  {
    assert s[i..i + |p|] == p;
    assert forall j :: i <= j < i + |p| ==> s[j] == p[j - i];
  }

  lemma {:induction false} PartContains(s: string, a: nat, b: nat, p: string)
    requires a <= b <= |s| && Contains(s[a..b], p)
    ensures Contains(s, p)
  {
    var i :| At(s[a..b], p, i);
    AtPart(s, a, b, p, i);
    assert At(s, p, a + i);
  }

  lemma {:induction false} ContainedInPart(s: string, p: string, k: nat, i: int)
    requires p != "" && OneLine(p) && k < |s| && s[k] == NL && At(s, p, i)
    ensures Contains(s[0..k], p) || Contains(s[k + 1..|s|], p)
  {
    if i <= k {
      AtNewline(s, p, i, k);
      AtPart(s, 0, k, p, i);
      assert At(s[0..k], p, i);
    } else {
      AtPart(s, k + 1, |s|, p, i - k - 1);
      assert At(s[k + 1..|s|], p, i - k - 1);
    }
  }

  lemma {:induction false} ContainsAcrossNewline(x: string, y: string, p: string)
    requires p != "" && OneLine(p)
    ensures Contains(x + [NL] + y, p) <==> Contains(x, p) || Contains(y, p)
  {
    var s := x + [NL] + y;
    assert s[0..|x|] == x && s[|x| + 1..|s|] == y;
    if Contains(x, p) {
      PartContains(s, 0, |x|, p);
    }
    if Contains(y, p) {
      PartContains(s, |x| + 1, |s|, p);
    }
    if i :| At(s, p, i) {
      ContainedInPart(s, p, |x|, i);
    }
  }

  lemma {:induction false} LineContains(ls: seq<Line>, k: nat, p: string)
    requires k < |ls| && p != "" && OneLine(p) && Contains(ls[k], p)
    ensures Contains(Join(ls), p)
  {
    if |ls| > 1 {
      ContainsAcrossNewline(ls[0], Join(ls[1..]), p);
      if k > 0 {
        LineContains(ls[1..], k - 1, p);
      }
    }
  }

  lemma {:induction false} NoLineContains(s: string, p: string)
    requires p != "" && OneLine(p) && !Contains(s, p)
    ensures forall k :: 0 <= k < |Split(s)| ==> !Contains(Split(s)[k], p)
  {
    forall k | 0 <= k < |Split(s)|
      ensures !Contains(Split(s)[k], p)
    {
      if Contains(Split(s)[k], p) {
        LineContains(Split(s), k, p);
      }
    }
  }

  lemma {:induction false} MarkerBeforeStop(text: string, p: string, e: nat)
    requires At(text, p, e) && OneLine(p)
    ensures e + |p| <= LineStop(text, e)
  {
    if IndexOf(text, [NL], e).Some? {
      IndexOfOccurs(text, [NL], e);
      AtNewline(text, p, e, LineStop(text, e));
    }
  }

  lemma {:induction false} LastLine(c: string, end: string, e: nat)
    requires end != "" && OneLine(end) && At(c, end, e) && OneLine(c[e..])
    ensures LineStart(c, e) <= e && OneLine(c[LineStart(c, e)..]) && Contains(c[LineStart(c, e)..], end)
    ensures LineStart(c, e) == 0 || c[LineStart(c, e) - 1] == NL
  {
    assert c[e] == end[0];
    LineStartFacts(c, e);
    var m := LineStart(c, e);
    assert c[m..] == c[m..e] + c[e..];
    AtPart(c, m, |c|, end, e - m);
    assert c[m..|c|] == c[m..];
    assert At(c[m..], end, e - m);
  }

  // ---------------------------------------------------------------------------
  // Blocks of lines between two markers
  // ---------------------------------------------------------------------------

  predicate Markers(start: string, end: string) {
    start != "" && end != "" && OneLine(start) && OneLine(end)
  }

  /** Lines that run from the first one with the start marker to the first one after it with the end marker. */
  ghost predicate IsBlock(block: seq<Line>, start: string, end: string) {
    && |block| > 0
    && Contains(block[0], start)
    && Contains(block[|block| - 1], end)
    && forall k :: 0 < k < |block| - 1 ==> !Contains(block[k], end)
  }

  ghost predicate LastHasEnd(ls: seq<Line>, end: string) {
    |ls| > 0 && Contains(ls[|ls| - 1], end) && forall k :: 0 <= k < |ls| - 1 ==> !Contains(ls[k], end)
  }

  lemma {:induction false} BlockCons(first: Line, ls: seq<Line>, start: string, end: string)
    requires Contains(first, start) && LastHasEnd(ls, end)
    ensures IsBlock([first] + ls, start, end)
  {
    var block := [first] + ls;
    assert block[|block| - 1] == ls[|ls| - 1];
    assert forall k :: 0 < k < |block| - 1 ==> block[k] == ls[k - 1];
  }

  lemma {:induction false} FirstAndLastLines(first: Line, follow: string, start: string, end: string)
    requires OneLine(first) && Contains(first, start) && LastHasEnd(Split(follow), end)
    ensures IsBlock(Split(first + [NL] + follow), start, end)
  {
    SplitAtNewline(first, follow);
    BlockCons(first, Split(follow), start, end);
  }

  lemma {:induction false} OnlyLine(c: string, start: string, end: string, s: nat, e: nat)
    requires IndexOf(c, [NL], 0) == None && At(c, start, s) && At(c, end, e)
    ensures IsBlock(Split(c), start, end)
  {
    if NL in c {
      var i :| 0 <= i < |c| && c[i] == NL;
      IndexOfIsLeast(c, [NL], 0, i);
    }
    SplitOneLine(c);
    assert Contains(c, start) && Contains(c, end);
  }

  lemma {:induction false} FirstLine(c: string, start: string, s: nat, j: nat)
    requires start != "" && OneLine(start) && At(c, start, s) && OneLine(c[..s]) && IndexOf(c, [NL], 0) == Some(j)
    ensures s < j < |c| && c[j] == NL && OneLine(c[..j]) && Contains(c[..j], start)
  {
    IndexOfOccurs(c, [NL], 0);
    assert c[j] == NL;
    NoNewlines(c, 0, s);
    AtNewline(c, start, s, j);
    AtPart(c, 0, j, start, s);
    assert c[0..j] == c[..j];
    assert At(c[..j], start, s);
    if NL in c[..j] {
      var i :| 0 <= i < j && c[..j][i] == NL;
      assert At(c, [NL], i);
      IndexOfIsLeast(c, [NL], 0, i);
    }
  }

  lemma {:induction false} LastAndMiddle(middle: string, last: Line, end: string)
    requires end != "" && OneLine(end) && OneLine(last) && Contains(last, end) && !Contains(middle, end)
    ensures LastHasEnd(Split(middle + [NL] + last), end)
  {
    SplitConcat(middle, last);
    SplitOneLine(last);
    NoLineContains(middle, end);
  }

  /** Of the lines after the one that ends at `j`, the last one has the end marker and the others do not. */
  lemma {:induction false} LastLines(c: string, end: string, s: nat, e: nat, j: nat)
    requires end != "" && OneLine(end) && s <= j < e && e + |end| <= |c| && c[j] == NL
    requires IndexOf(c, end, s) == Some(e) && At(c, end, e) && OneLine(c[e..])
    ensures LastHasEnd(Split(c[j + 1..]), end)
  {
    LastLine(c, end, e);
    LineStartAfter(c, e, j);
    LastLinesFrom(c, end, s, e, j, LineStart(c, e));
  }

  lemma {:induction false} LastLinesFrom(c: string, end: string, s: nat, e: nat, j: nat, m: nat)
    requires end != "" && OneLine(end) && IndexOf(c, end, s) == Some(e)
    requires s <= j < m <= e && e <= |c| && c[m - 1] == NL && OneLine(c[m..]) && Contains(c[m..], end)
    ensures LastHasEnd(Split(c[j + 1..]), end)
  {
    if m == j + 1 {
      SplitOneLine(c[m..]);
    } else {
      CutAtNewline(c, j + 1, m - 1);
      MiddleLacks(c, end, s, e, j + 1, m - 1);
      LastAndMiddle(c[j + 1..m - 1], c[m..], end);
    }
  }

  /** A text whose first line has the start marker and whose last line has the first end marker after it. */
  lemma {:induction false} BlockLines(c: string, start: string, end: string, s: nat, e: nat)
    requires Markers(start, end) && At(c, start, s) && OneLine(c[..s])
    requires IndexOf(c, end, s) == Some(e) && OneLine(c[e..])
    ensures IsBlock(Split(c), start, end)
  {
    IndexOfOccurs(c, end, s);
    match IndexOf(c, [NL], 0)
    case None =>
      OnlyLine(c, start, end, s, e);
    case Some(j) =>
      FirstLine(c, start, s, j);
      NoNewlines(c, e, |c|);
      CutAtNewline(c, 0, j);
      assert c == c[0..] && c[0..j] == c[..j];
      LastLines(c, end, s, e, j);
      FirstAndLastLines(c[..j], c[j + 1..], start, end);
  }
}
