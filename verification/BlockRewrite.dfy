/** The generated-block rewriter of the documentation scripts, and what rewriting a rewritten text does
    (scripts/sync-moonshot-docs.ts). */
module BlockRewrite {
  import opened Wrappers
  import opened Sequences
  import opened Text
  import opened Occurrences

  // ---------------------------------------------------------------------------
  // replaceBlockLines
  // ---------------------------------------------------------------------------

  datatype Missing = StartMarker | EndMarker

  function Slice(s: string, a: nat, b: nat): string
    requires a <= |s| && b <= |s|
  {
    if a <= b then s[a..b] else ""
  }

  function Indented(indent: string, lines: seq<string>): (r: seq<string>)
    ensures |r| == |lines| && forall k :: 0 <= k < |r| ==> r[k] == indent + lines[k]
  {
    seq(|lines|, k requires 0 <= k < |lines| => indent + lines[k])
  }

  function Rendered(indent: string, start: string, end: string, lines: seq<string>): seq<string> {
    [indent + start] + (Indented(indent, lines) + [indent + end])
  }

  function Rewrite(text: string, start: string, end: string, lines: seq<string>): Result<string, Missing> {
    match IndexOf(text, start, 0)
    case None => Err(StartMarker)
    case Some(s) =>
      match IndexOf(text, end, s)
      case None => Err(EndMarker)
      case Some(e) =>
        var lineStart, lineEnd := LineStart(text, s), LineEnd(text, e);
        var indent := Slice(text, lineStart, s);
        var before, after := text[..lineStart], text[lineEnd..];
        var replacement := Join(Rendered(indent, start, end, lines));
        Ok(if after == "" then before + replacement else before + replacement + [NL] + after)
  }

  // ---------------------------------------------------------------------------
  // Rewriting twice
  // ---------------------------------------------------------------------------

  /** What stands between the start marker and the last line of the block. */
  function Framed(indent: string, lines: seq<string>): string {
    if lines == [] then [NL] else [NL] + (indent + lines[0]) + Framed(indent, lines[1..])
  }

  lemma {:induction false} JoinCons(first: string, ls: seq<string>)
    requires |ls| > 0
    ensures Join([first] + ls) == first + [NL] + Join(ls)
  {
    assert ([first] + ls)[1..] == ls;
  }

  lemma {:induction false} IndentedCons(indent: string, lines: seq<string>)
    requires lines != []
    ensures Indented(indent, lines) == [indent + lines[0]] + Indented(indent, lines[1..])
  {
  }

  lemma {:induction false} JoinFramed(indent: string, lines: seq<string>, last: string)
    ensures [NL] + Join(Indented(indent, lines) + [last]) == Framed(indent, lines) + last
  {
    if lines == [] {
      assert Indented(indent, lines) + [last] == [last];
    } else {
      IndentedCons(indent, lines);
      var first, rest := indent + lines[0], Indented(indent, lines[1..]) + [last];
      Regroup([first], Indented(indent, lines[1..]), [last]);
      JoinCons(first, rest);
      JoinFramed(indent, lines[1..], last);
      Regroup([NL], first, [NL] + Join(rest));
      Regroup([NL] + first, Framed(indent, lines[1..]), last);
      Regroup(first, [NL], Join(rest));
    }
  }

  lemma {:induction false} JoinRendered(indent: string, start: string, end: string, lines: seq<string>)
    ensures Join(Rendered(indent, start, end, lines)) == indent + start + Framed(indent, lines) + (indent + end)
  {
    JoinCons(indent + start, Indented(indent, lines) + [indent + end]);
    JoinFramed(indent, lines, indent + end);
    Regroup(indent + start, [NL], Join(Indented(indent, lines) + [indent + end]));
    Regroup(indent + start, Framed(indent, lines), indent + end);
  }

  /** The end marker stands in the framed lines exactly when it stands in one of them. */
  lemma {:induction false} FramedContains(x: string, indent: string, lines: seq<string>, p: string)
    requires p != "" && OneLine(p)
    ensures Contains(x + Framed(indent, lines), p) <==>
            Contains(x, p) || exists k :: 0 <= k < |lines| && Contains(indent + lines[k], p)
    decreases lines
  {
    if lines == [] {
      ContainsAcrossNewline(x, "", p);
      assert x + [NL] + "" == x + Framed(indent, lines);
      assert !Contains("", p);
    } else {
      var y := indent + lines[0] + Framed(indent, lines[1..]);
      assert x + Framed(indent, lines) == x + [NL] + y;
      ContainsAcrossNewline(x, y, p);
      FramedContains(indent + lines[0], indent, lines[1..], p);
      forall k | 1 <= k < |lines|
        ensures lines[k] == lines[1..][k - 1]
      {
      }
    }
  }

  /** The line in `[c, stop)` has the end marker, so the search from `s` on ends in it, unless the marker
      already stands before that line. */
  lemma {:induction false} EndMarkerFound(r: string, end: string, s: nat, c: nat, stop: nat, m: nat)
    requires end != "" && OneLine(end)
    requires s < c <= m && m + |end| <= stop <= |r| && r[c - 1] == NL && OneLine(r[c..stop]) && At(r, end, m)
    requires stop == |r| || r[stop] == NL
    ensures IndexOf(r, end, s).Some?
    ensures Contains(r[s..c], end) ==> LineEnd(r, IndexOf(r, end, s).value) <= c
    ensures !Contains(r[s..c], end) ==> LineEnd(r, IndexOf(r, end, s).value) == if stop == |r| then stop else stop + 1
  {
    IndexOfIsLeast(r, end, s, m);
    var e := IndexOf(r, end, s).value;
    if Contains(r[s..c], end) {
      var i :| At(r[s..c], end, i);
      AtPart(r, s, c, end, i);
      IndexOfIsLeast(r, end, s, s + i);
      AtNewline(r, end, e, c - 1);
      IndexOfIsLeast(r, [NL], e, c - 1);
    } else {
      MarkerNotBefore(r, end, s, c, e);
      LineEndsAt(r, e, c, stop);
    }
  }

  lemma {:induction false} MarkerNotBefore(r: string, end: string, s: nat, c: nat, e: nat)
    requires OneLine(end) && s < c <= |r| && r[c - 1] == NL && !Contains(r[s..c], end) && At(r, end, e) && s <= e
    ensures e >= c
  {
    if e < c {
      AtNewline(r, end, e, c - 1);
      AtPart(r, s, c, end, e - s);
    }
  }

  lemma {:induction false} FramedEnds(indent: string, lines: seq<string>)
    ensures var f := Framed(indent, lines); f != "" && f[|f| - 1] == NL
  {
    if lines != [] {
      FramedEnds(indent, lines[1..]);
    }
  }

  /** What stands before the first start marker on its line. */
  function IndentOf(text: string, start: string): string {
    match IndexOf(text, start, 0)
    case None => ""
    case Some(s) => Slice(text, LineStart(text, s), s)
  }

  lemma {:induction false} StartFacts(text: string, start: string, s: nat)
    requires start != "" && OneLine(start) && IndexOf(text, start, 0) == Some(s)
    ensures At(text, start, s) && LineStart(text, s) <= s
    ensures OneLine(IndentOf(text, start)) && text[LineStart(text, s)..s] == IndentOf(text, start)
    ensures text[..LineStart(text, s)] + IndentOf(text, start) == text[..s]
  {
    IndexOfOccurs(text, start, 0);
    assert text[s] == start[0];
    LineStartFacts(text, s);
  }

  /** What `Rewrite` puts after the block. */
  function Tail(text: string, end: string, s: nat): (tail: string)
    ensures tail == "" || (|tail| > 1 && tail[0] == NL)
  {
    match IndexOf(text, end, s)
    case None => ""
    case Some(e) => if text[LineEnd(text, e)..] == "" then "" else [NL] + text[LineEnd(text, e)..]
  }

  /** A rewritten text: what stood before the start marker, the block, and what stood after its last line. */
  lemma {:induction false} RewriteSpelled(text: string, start: string, end: string, lines: seq<string>, s: nat)
    requires Markers(start, end) && Rewrite(text, start, end, lines).Ok? && IndexOf(text, start, 0) == Some(s)
    ensures var indent := IndentOf(text, start);
            Rewrite(text, start, end, lines)
            == Ok(text[..s] + (start + Framed(indent, lines)) + (indent + end) + Tail(text, end, s))
  {
    StartFacts(text, start, s);
    var indent, n := IndentOf(text, start), LineStart(text, s);
    JoinRendered(indent, start, end, lines);
    BlockSpelled(text[..n], indent, start, Framed(indent, lines), indent + end, text[LineEnd(text, IndexOf(text, end, s).value)..]);
  }

  lemma {:induction false} BlockSpelled(before: string, indent: string, start: string, framed: string, last: string, after: string)
    ensures var block := indent + start + framed + last;
            (if after == "" then before + block else before + block + [NL] + after)
            == before + indent + (start + framed) + last + if after == "" then "" else [NL] + after
  {
    assert before + (indent + start + framed + last) == before + indent + (start + framed) + last;
  }

  /** The second pass finds the same start marker on the same line, hence renders the same block. */
  lemma {:induction false} SameBlockAgain(text: string, start: string, end: string, lines: seq<string>, s: nat, rest: string, e: nat)
    requires Markers(start, end) && IndexOf(text, start, 0) == Some(s) && At(text, start, s) && LineStart(text, s) <= s
    requires var r := text[..s] + start + rest; IndexOf(r, end, s) == Some(e) && LineEnd(r, e) <= |r|
    ensures var r, n, indent := text[..s] + start + rest, LineStart(text, s), IndentOf(text, start);
            var before := text[..n] + Join(Rendered(indent, start, end, lines));
            var after := r[LineEnd(r, e)..];
            Rewrite(r, start, end, lines) == Ok(if after == "" then before else before + [NL] + after)
  {
    var r, m := text[..s] + start + rest, s + |start|;
    assert text[..m] == text[..s] + start == r[..m];
    IndexOfShared(text, r, m, start, 0, s);
    LineStartShared(text, r, m, s);
    var n := LineStart(text, s);
    assert r[..n] == text[..n];
    assert r[n..s] == text[n..s];
  }

  /** The text put together again is the same exactly when the block found ends where it was put. */
  lemma {:induction false} AgainIff(r: string, stop: nat, tail: string, before: string, n: nat, c: nat)
    requires c < stop <= |r| && before == r[..stop] && tail == r[stop..] && (tail == "" || (|tail| > 1 && tail[0] == NL))
    requires n <= c || n == (if tail == "" then stop else stop + 1)
    ensures (if r[n..] == "" then before else before + [NL] + r[n..]) == r <==> n > c
  {
    if n > c && tail != "" {
      assert tail == [NL] + r[n..];
    }
    if n <= c {
      assert |before + [NL] + r[n..]| > |r|;
    }
  }

  lemma {:induction false} EndMarkerInBlock(p: string, x: string, indent: string, end: string, tail: string)
    requires end != "" && OneLine(end) && OneLine(indent)
    requires |x| > 0 && x[|x| - 1] == NL && (tail == "" || tail[0] == NL)
    ensures var r, c := p + x + (indent + end) + tail, |p + x|;
            var e, stop := IndexOf(r, end, |p|), c + |indent + end|;
            && e.Some?
            && (Contains(x, end) ==> LineEnd(r, e.value) <= c)
            && (!Contains(x, end) ==> LineEnd(r, e.value) == if tail == "" then stop else stop + 1)
  {
    var r, c := p + x + (indent + end) + tail, |p + x|;
    var stop := c + |indent + end|;
    assert r[|p|..c] == x;
    assert r[c..stop] == indent + end;
    AtEnd(p + x + indent, end, tail);
    assert r == p + x + indent + end + tail;
    EndMarkerFound(r, end, |p|, c, stop, c + |indent|);
  }

  lemma {:induction false} BlockSlices(p: string, start: string, framed: string, last: string, tail: string)
    ensures p + (start + framed) + last + tail == p + start + (framed + last + tail)
    ensures (p + (start + framed) + last + tail)[..|p + start + framed + last|] == p + start + framed + last
    ensures (p + (start + framed) + last + tail)[|p + start + framed + last|..] == tail
  {
  }

  lemma {:induction false} BlockPrefix(text: string, n: nat, s: nat, indent: string, start: string, framed: string, end: string)
    requires n <= s <= |text| && text[n..s] == indent
    ensures text[..n] + (indent + start + framed + (indent + end)) == text[..s] + start + framed + (indent + end)
  {
    assert text[..s] == text[..n] + indent;
  }

  /** Rewriting a rewritten text changes nothing exactly when the end marker occurs neither in the start
      marker nor in a generated line with its indent. */
  lemma {:induction false} RewritingIsIdempotentIff(text: string, start: string, end: string, lines: seq<string>, r: string)
    requires Markers(start, end) && Rewrite(text, start, end, lines) == Ok(r)
    ensures Rewrite(r, start, end, lines) == Ok(r) <==>
            !Contains(start, end) && !exists k :: 0 <= k < |lines| && Contains(IndentOf(text, start) + lines[k], end)
  {
    var indent, framed := IndentOf(text, start), Framed(IndentOf(text, start), lines);
    var s := IndexOf(text, start, 0).value;
    StartFacts(text, start, s);
    RewriteSpelled(text, start, end, lines, s);
    FramedContains(start, indent, lines, end);
    SecondPassIff(text, start, end, lines, s, indent, framed, Tail(text, end, s), r);
  }

  lemma {:induction false} SecondPassIff(text: string, start: string, end: string, lines: seq<string>, s: nat,
                                         indent: string, framed: string, tail: string, r: string)
    requires Markers(start, end) && OneLine(indent) && (tail == "" || (|tail| > 1 && tail[0] == NL))
    requires IndexOf(text, start, 0) == Some(s) && At(text, start, s) && LineStart(text, s) <= s
    requires indent == IndentOf(text, start) == text[LineStart(text, s)..s] && framed == Framed(indent, lines)
    requires r == text[..s] + (start + framed) + (indent + end) + tail
    ensures Rewrite(r, start, end, lines) == Ok(r) <==> !Contains(start + framed, end)
  {
    FramedEnds(indent, lines);
    EndMarkerInBlock(text[..s], start + framed, indent, end, tail);
    var e := IndexOf(r, end, s).value;
    BlockSlices(text[..s], start, framed, indent + end, tail);
    SameBlockAgain(text, start, end, lines, s, framed + (indent + end) + tail, e);
    JoinRendered(indent, start, end, lines);
    BlockPrefix(text, LineStart(text, s), s, indent, start, framed, end);
    AgainIff(r, s + |start| + |framed| + |indent + end|, tail, text[..s] + start + framed + (indent + end), LineEnd(r, e), s + |start + framed|);
  }

  // ---------------------------------------------------------------------------
  // Which lines change
  // ---------------------------------------------------------------------------

  /** The rewriter fails exactly when a marker is missing. */
  lemma {:induction false} RewriteFailsIff(text: string, start: string, end: string, lines: seq<string>)
    ensures Rewrite(text, start, end, lines) == Err(StartMarker) <==> !Contains(text, start)
    ensures Rewrite(text, start, end, lines) == Err(EndMarker) <==>
            Contains(text, start) && !exists i :: i >= IndexOf(text, start, 0).value && At(text, end, i)
  {
    if Contains(text, start) {
      var i :| At(text, start, i);
      IndexOfIsLeast(text, start, 0, i);
      var s := IndexOf(text, start, 0).value;
      if j :| j >= s && At(text, end, j) {
        IndexOfIsLeast(text, end, s, j);
      } else if IndexOf(text, end, s).Some? {
        IndexOfOccurs(text, end, s);
      }
    } else if IndexOf(text, start, 0).Some? {
      IndexOfOccurs(text, start, 0);
    }
  }

  /** The lines before the one that starts at `n`. */
  function HeadLines(text: string, n: nat): seq<Line>
    requires n <= |text|
  {
    if n == 0 then [] else Split(text[..n - 1])
  }

  /** The lines after the one that has position `e`. */
  function RestLines(text: string, e: nat): seq<Line> {
    match IndexOf(text, [NL], e)
    case None => []
    case Some(m) => Split(text[m + 1..])
  }

  /** What follows the lines before the block leaves them as they are. */
  lemma {:induction false} HeadStays(text: string, n: nat, follow: string, whole: string)
    requires n <= |text| && (n == 0 || text[n - 1] == NL) && whole == text[..n] + follow
    ensures Split(whole) == HeadLines(text, n) + Split(follow)
  {
    if n == 0 {
      assert whole == follow;
    } else {
      assert whole == text[..n - 1] + [NL] + follow;
      SplitConcat(text[..n - 1], follow);
    }
  }

  lemma {:induction false} WholeText(text: string, n: nat)
    requires n <= |text|
    ensures text == text[..n] + text[n..]
  {
  }

  /** The text from `n` on consists of the line with position `e`, what is before it, and what is after it. */
  lemma {:induction false} FollowLines(text: string, n: nat, e: nat)
    requires n <= e <= |text|
    ensures Split(text[n..]) == Split(text[n..LineStop(text, e)]) + RestLines(text, e)
  {
    match IndexOf(text, [NL], e)
    case None =>
      assert text[n..LineStop(text, e)] == text[n..];
    case Some(m) =>
      IndexOfOccurs(text, [NL], e);
      assert text[m] == NL;
      CutAtNewline(text, n, m);
      SplitConcat(text[n..m], text[m + 1..]);
  }

  lemma {:induction false} TextLines(text: string, n: nat, e: nat)
    requires n <= e <= |text| && (n == 0 || text[n - 1] == NL)
    ensures Split(text) == HeadLines(text, n) + Split(text[n..LineStop(text, e)]) + RestLines(text, e)
  {
    WholeText(text, n);
    HeadStays(text, n, text[n..], text);
    FollowLines(text, n, e);
    Regroup(HeadLines(text, n), Split(text[n..LineStop(text, e)]), RestLines(text, e));
  }

  lemma {:induction false} RewrittenLines(text: string, n: nat, replacement: string, after: string)
    requires n <= |text| && (n == 0 || text[n - 1] == NL)
    ensures var r := if after == "" then text[..n] + replacement else text[..n] + replacement + [NL] + after;
            Split(r) == HeadLines(text, n) + Split(replacement) + if after == "" then [] else Split(after)
  {
    if after == "" {
      HeadStays(text, n, replacement, text[..n] + replacement);
    } else {
      Regroup(text[..n], replacement, [NL] + after);
      Regroup(replacement, [NL], after);
      Regroup(text[..n] + replacement, [NL], after);
      HeadStays(text, n, replacement + [NL] + after, text[..n] + replacement + [NL] + after);
      SplitConcat(replacement, after);
      Regroup(HeadLines(text, n), Split(replacement), Split(after));
    }
  }

  /** A final newline leaves one empty line after the block, and nothing else does. */
  lemma {:induction false} RestIsAfter(text: string, e: nat)
    requires e <= |text| && LineEnd(text, e) <= |text|
    ensures var after := text[LineEnd(text, e)..];
            (if after == "" then [] else Split(after)) == if RestLines(text, e) == [""] then [] else RestLines(text, e)
  {
    OnlyEmpty(text[LineEnd(text, e)..]);
  }

  lemma {:induction false} OnlyEmpty(s: string)
    ensures Split(s) == [""] <==> s == ""
  {
    assert Join([""]) == "";
  }

  /** The positions of the markers, counted from the start of the block's first line. */
  lemma {:induction false} MarkersInBlock(text: string, start: string, end: string, s: nat, e: nat, n: nat, stop: nat)
    requires At(text, start, s) && At(text, end, e) && IndexOf(text, end, s) == Some(e)
    requires n <= s <= e && s + |start| <= stop && e + |end| <= stop <= |text|
    ensures At(text[n..stop], start, s - n) && IndexOf(text[n..stop], end, s - n) == Some(e - n)
  {
    IndexOfPart(text, end, n, stop, s, e);
    AtPart(text, n, stop, start, s - n);
  }

  lemma {:induction false} BlockOfText(text: string, start: string, end: string, s: nat, e: nat, n: nat, stop: nat)
    requires Markers(start, end) && At(text, start, s) && At(text, end, e) && IndexOf(text, end, s) == Some(e)
    requires n <= s && OneLine(text[n..s]) && stop == LineStop(text, e)
    ensures IsBlock(Split(text[n..stop]), start, end)
  {
    MarkerBeforeStop(text, end, e);
    ToLineStop(text, e);
    StartInBlock(text, start, end, s, e, stop);
    MarkersInBlock(text, start, end, s, e, n, stop);
    PartOfPart(text, n, stop, 0, s - n);
    PartOfPart(text, n, stop, e - n, stop - n);
    BlockLines(text[n..stop], start, end, s - n, e - n);
  }

  lemma {:induction false} StartInBlock(text: string, start: string, end: string, s: nat, e: nat, stop: nat)
    requires At(text, start, s) && OneLine(start) && s <= e <= |text| && stop == LineStop(text, e)
    ensures s + |start| <= stop
  {
    if IndexOf(text, [NL], e).Some? {
      IndexOfOccurs(text, [NL], e);
      AtNewline(text, start, s, stop);
    }
  }

  /** The rewriter replaces whole lines: those before the block and those after it survive in order. When
      nothing but a final newline follows the block, that newline is dropped. */
  lemma {:induction false} OnlyTheBlockChanges(text: string, start: string, end: string, lines: seq<string>, r: string)
      returns (head: seq<Line>, block: seq<Line>, rest: seq<Line>)
    requires Markers(start, end) && Rewrite(text, start, end, lines) == Ok(r)
    ensures Split(text) == head + block + rest && IsBlock(block, start, end)
    ensures forall k :: 0 <= k < |head| ==> !Contains(head[k], start)
    ensures Split(r) == head + Split(Join(Rendered(IndentOf(text, start), start, end, lines))) + if rest == [""] then [] else rest
  {
    var s := IndexOf(text, start, 0).value;
    var e := IndexOf(text, end, s).value;
    IndexOfOccurs(text, start, 0);
    IndexOfOccurs(text, end, s);
    assert text[s] == start[0];
    LineStartFacts(text, s);
    var n := LineStart(text, s);
    head, block, rest := HeadLines(text, n), Split(text[n..LineStop(text, e)]), RestLines(text, e);
    BlockOfText(text, start, end, s, e, n, LineStop(text, e));
    HeadLacks(text, start, s, n);
    TextLines(text, n, e);
    LinesAfterwards(text, start, end, lines, r, s, e);
  }

  lemma {:induction false} HeadLacks(text: string, start: string, s: nat, n: nat)
    requires start != "" && OneLine(start) && IndexOf(text, start, 0) == Some(s) && n <= s
    ensures forall k :: 0 <= k < |HeadLines(text, n)| ==> !Contains(HeadLines(text, n)[k], start)
  {
    if n > 0 {
      MiddleLacks(text, start, 0, s, 0, n - 1);
      assert text[0..n - 1] == text[..n - 1];
      NoLineContains(text[..n - 1], start);
    }
  }

  lemma {:induction false} LinesAfterwards(text: string, start: string, end: string, lines: seq<string>, r: string, s: nat, e: nat)
    requires IndexOf(text, start, 0) == Some(s) && IndexOf(text, end, s) == Some(e)
    requires Rewrite(text, start, end, lines) == Ok(r)
    requires LineStart(text, s) == 0 || text[LineStart(text, s) - 1] == NL
    ensures Split(r) == HeadLines(text, LineStart(text, s)) + Split(Join(Rendered(IndentOf(text, start), start, end, lines)))
                        + if RestLines(text, e) == [""] then [] else RestLines(text, e)
  {
    RewrittenLines(text, LineStart(text, s), Join(Rendered(IndentOf(text, start), start, end, lines)), text[LineEnd(text, e)..]);
    RestIsAfter(text, e);
  }

  // ---------------------------------------------------------------------------
  // What the block becomes
  // ---------------------------------------------------------------------------

  /** The start marker, the generated lines and the end marker, each on a line of its own behind the indentation. */
  predicate Renders(block: seq<Line>, indent: string, start: string, end: string, lines: seq<string>) {
    && |block| == |lines| + 2
    && block[0] == indent + start && block[|lines| + 1] == indent + end
    && forall k :: 0 <= k < |lines| ==> block[k + 1] == indent + lines[k]
  }

  lemma {:induction false} RenderedLines(indent: string, start: string, end: string, lines: seq<string>)
    requires OneLine(indent) && OneLine(start) && OneLine(end) && AllOneLine(lines)
    ensures Renders(Split(Join(Rendered(indent, start, end, lines))), indent, start, end, lines)
  {
    SplitJoin(Rendered(indent, start, end, lines));
  }

  lemma {:induction false} SplitFront(a: string, s: string)
    requires OneLine(a)
    ensures a <= Split(a + s)[0]
  {
    if a == "" {
      assert a + s == s;
    } else {
      assert (a + s)[1..] == a[1..] + s;
      SplitFront(a[1..], s);
      assert a == [a[0]] + a[1..];
    }
  }

  lemma {:induction false} FirstIsPrefix(s: string)
    ensures Split(s)[0] <= s
  {
    if s != "" && s[0] != NL {
      FirstIsPrefix(s[1..]);
      assert s == [s[0]] + s[1..];
    }
  }

  lemma {:induction false} OneLineJoin(a: string, b: string)
    requires OneLine(a) && OneLine(b)
    ensures OneLine(a + b)
  {
  }

  /** The first marker of a text, with no newline before it, is the first one on its first line. */
  lemma {:induction false} FirstOnFirstLine(c: string, start: string, i: nat)
    requires IndexOf(c, start, 0) == Some(i) && OneLine(c[..i]) && OneLine(start)
    ensures var first := Split(c)[0];
            i + |start| <= |first| && IndexOf(first, start, 0) == Some(i) && first[..i] == c[..i]
  {
    IndexOfOccurs(c, start, 0);
    var marked := c[..i] + start;
    OneLineJoin(c[..i], start);
    assert c == marked + c[i + |start|..];
    SplitFront(marked, c[i + |start|..]);
    FirstIsPrefix(c);
    IndexOfShared(c, Split(c)[0], |Split(c)[0]|, start, 0, i);
  }

  /** The first start marker of the text is the first one on the block's first line, behind the indentation. */
  lemma {:induction false} IndentStands(text: string, start: string, s: nat, n: nat, stop: nat)
    requires OneLine(start) && IndexOf(text, start, 0) == Some(s) && n <= s && s + |start| <= stop <= |text|
    requires OneLine(text[n..s])
    ensures var first := Split(text[n..stop])[0];
            IndexOf(first, start, 0) == Some(s - n) && s - n <= |first| && first[..s - n] == text[n..s]
  {
    FromLater(text, start, n, s);
    IndexOfPart(text, start, n, stop, n, s);
    PartOfPart(text, n, stop, 0, s - n);
    FirstOnFirstLine(text[n..stop], start, s - n);
  }

  lemma {:induction false} FromLater(text: string, p: string, n: nat, s: nat)
    requires IndexOf(text, p, 0) == Some(s) && n <= s
    ensures IndexOf(text, p, n) == Some(s)
  {
    IndexOfOccurs(text, p, 0);
    IndexOfIsLeast(text, p, n, s);
    IndexOfIsLeast(text, p, 0, IndexOf(text, p, n).value);
  }

  /** What stands in the block's place: its markers and the generated lines, indented as its first line was. */
  lemma {:induction false} BlockIsRendered(text: string, start: string, end: string, lines: seq<string>, r: string)
      returns (head: seq<Line>, block: seq<Line>, rest: seq<Line>, written: seq<Line>)
    requires Markers(start, end) && AllOneLine(lines) && Rewrite(text, start, end, lines) == Ok(r)
    ensures Split(text) == head + block + rest && IsBlock(block, start, end)
    ensures forall k :: 0 <= k < |head| ==> !Contains(head[k], start)
    ensures Split(r) == head + written + if rest == [""] then [] else rest
    ensures block != [] && IndexOf(block[0], start, 0).Some?
    ensures Renders(written, block[0][..IndexOf(block[0], start, 0).value], start, end, lines)
  {
    var s := IndexOf(text, start, 0).value;
    var e := IndexOf(text, end, s).value;
    IndexOfOccurs(text, start, 0);
    IndexOfOccurs(text, end, s);
    StartFacts(text, start, s);
    LineStartFacts(text, s);
    var n, stop, indent := LineStart(text, s), LineStop(text, e), IndentOf(text, start);
    head, block, rest := HeadLines(text, n), Split(text[n..stop]), RestLines(text, e);
    written := Split(Join(Rendered(indent, start, end, lines)));
    BlockOfText(text, start, end, s, e, n, stop);
    StartInBlock(text, start, end, s, e, stop);
    IndentStands(text, start, s, n, stop);
    RenderedLines(indent, start, end, lines);
    HeadLacks(text, start, s, n);
    TextLines(text, n, e);
    LinesAfterwards(text, start, end, lines, r, s, e);
  }
}
