/** The text around a patch's body lines: the begin and end markers, the `<<EOF` wrapping some models add, the line
    ends, and the white space in which the text may stand. Whatever of these a text has, the parser takes out
    exactly the body lines; where the lines end in a bare line feed, each loses one carriage return, and where
    they end in carriage return and line feed, none is lost. */
module PatchEnvelope {
  import opened Wrappers
  import opened Text
  import opened PatchText

  datatype Wrapping = Unwrapped | Heredoc(opener: Line, closer: Line)

  predicate GoodWrapping(w: Wrapping) {
    w.Heredoc? ==> IsHeredocStart(w.opener) && EndsWithEof(w.closer) && OneLine(w.closer)
  }

  function Marked(body: seq<Line>): seq<Line> {
    [BEGIN_PATCH] + body + [END_PATCH]
  }

  function Document(body: seq<Line>, w: Wrapping): seq<Line> {
    match w case Unwrapped => Marked(body) case Heredoc(opener, closer) => [opener] + Marked(body) + [closer]
  }

  /** Every line but the last with a carriage return. */
  function WithCrs(ls: seq<Line>): (r: seq<Line>)
    ensures |r| == |ls|
  {
    if |ls| <= 1 then ls else [ls[0] + "\r"] + WithCrs(ls[1..])
  }

  /** The text of the lines, ended by LF or by CR LF. */
  function Rendered(ls: seq<Line>, crlf: bool): string {
    Join(if crlf then WithCrs(ls) else ls)
  }

  ghost predicate AllSpace(s: string) {
    forall k :: 0 <= k < |s| ==> IsSpace(s[k])
  }

  lemma {:induction false} TrimStartPadded(pad: string, s: string)
    requires AllSpace(pad) && s != "" && !IsSpace(s[0])
    ensures TrimStart(pad + s) == s
  {
    if pad == "" {
      assert pad + s == s;
    } else {
      assert (pad + s)[1..] == pad[1..] + s;
      TrimStartPadded(pad[1..], s);
    }
  }

  lemma {:induction false} TrimEndPadded(s: string, pad: string)
    requires AllSpace(pad) && s != "" && !IsSpace(s[|s| - 1])
    ensures TrimEnd(s + pad) == s
  {
    if pad == "" {
      assert s + pad == s;
    } else {
      var shorter := pad[..|pad| - 1];
      assert (s + pad)[..|s + pad| - 1] == s + shorter;
      TrimEndPadded(s, shorter);
    }
  }

  /** White space around a text is taken off. */
  lemma {:induction false} TrimPadded(before: string, s: string, after: string)
    requires AllSpace(before) && AllSpace(after) && s != "" && !IsSpace(s[0]) && !IsSpace(s[|s| - 1])
    ensures Trim(before + s + after) == s
  {
    TrimEndPadded(before + s, after);
    TrimStartPadded(before, s);
  }

  lemma {:induction false} JoinEnds(ls: seq<Line>)
    requires |ls| > 0 && ls[0] != "" && ls[|ls| - 1] != ""
    ensures var s := Join(ls);
            s != "" && s[0] == ls[0][0] && s[|s| - 1] == ls[|ls| - 1][|ls[|ls| - 1]| - 1]
    decreases |ls|
  {
    if |ls| > 1 {
      JoinLast(ls[1..]);
    }
  }

  lemma {:induction false} JoinLast(ls: seq<Line>)
    requires |ls| > 0 && ls[|ls| - 1] != ""
    ensures var s, last := Join(ls), ls[|ls| - 1]; s != "" && s[|s| - 1] == last[|last| - 1]
    decreases |ls|
  {
    if |ls| > 1 {
      JoinLast(ls[1..]);
    }
  }

  lemma {:induction false} CrsDropped(ls: seq<Line>)
    requires AllOneLine(ls)
    ensures DropCrs(WithCrs(ls)) == ls && AllOneLine(WithCrs(ls))
    ensures |ls| > 0 ==> WithCrs(ls)[|ls| - 1] == ls[|ls| - 1]
  {
    if |ls| > 1 {
      CrsDropped(ls[1..]);
      assert OneLine(ls[0]);
      assert (ls[0] + "\r")[..|ls[0]|] == ls[0];
    }
  }

  /** The lines the parser gets to see: as written with CR LF, one carriage return poorer with LF. */
  lemma {:induction false} RenderedLines(ls: seq<Line>, crlf: bool)
    requires |ls| > 0 && AllOneLine(ls)
    ensures PatchLines(Rendered(ls, crlf)) == if crlf then ls else DropCrs(ls)
  {
    if crlf {
      CrsDropped(ls);
      SplitJoin(WithCrs(ls));
    } else {
      SplitJoin(ls);
    }
  }

  function MapWithoutCr(ls: seq<Line>): seq<Line> {
    if |ls| == 0 then [] else [WithoutCr(ls[0])] + MapWithoutCr(ls[1..])
  }

  lemma {:induction false} DropCrsConcat(ls: seq<Line>, tail: seq<Line>)
    requires |tail| > 0
    ensures DropCrs(ls + tail) == MapWithoutCr(ls) + DropCrs(tail)
  {
    if |ls| == 0 {
      assert ls + tail == tail;
    } else {
      DropCrsConcat(ls[1..], tail);
      assert (ls + tail)[1..] == ls[1..] + tail;
    }
  }

  lemma {:induction false} HeredocStartFacts(opener: Line)
    requires IsHeredocStart(opener)
    ensures opener != "" && opener[0] == '<' && WithoutCr(opener) == opener && OneLine(opener)
    ensures Trim(opener) != BEGIN_PATCH
  {
    assert opener[0] == '<' && BEGIN_PATCH[0] == '*';
    assert opener[|opener| - 1] == 'F' || opener[|opener| - 1] == '\'' || opener[|opener| - 1] == '"';
    TrimHead(opener);
  }

  lemma {:induction false} MarkedStrict(body: seq<Line>)
    ensures StrictError(Marked(body)).None? && Marked(body)[1..|body| + 1] == body
  {
    TrimFixed(BEGIN_PATCH);
    TrimFixed(END_PATCH);
  }

  /** Both forms of a document give up the lines between the markers. */
  lemma {:induction false} DocumentEnclosed(body: seq<Line>, w: Wrapping)
    requires GoodWrapping(w)
    ensures Enclosed(Document(body, w)) == Ok(Marked(body))
  {
    MarkedStrict(body);
    if w.Heredoc? {
      var lines := Document(body, w);
      HeredocStartFacts(w.opener);
      assert lines[0] == w.opener && lines[|lines| - 1] == w.closer;
      assert lines[1..|lines| - 1] == Marked(body);
    }
  }

  lemma {:induction false} DocumentLines(body: seq<Line>, w: Wrapping)
    requires GoodWrapping(w)
    ensures DropCrs(Document(body, w)) == Document(MapWithoutCr(body), w)
  {
    DropCrsConcat([BEGIN_PATCH] + body, [END_PATCH]);
    MapHead(BEGIN_PATCH, body);
    assert WithoutCr(BEGIN_PATCH) == BEGIN_PATCH && WithoutCr(END_PATCH) == END_PATCH;
    if w.Heredoc? {
      HeredocStartFacts(w.opener);
      DropCrsConcat([w.opener] + Marked(body), [w.closer]);
      MapHead(w.opener, Marked(body));
      MapConcat([BEGIN_PATCH] + body, [END_PATCH]);
      MapHead(END_PATCH, []);
    }
  }

  lemma {:induction false} MapHead(x: Line, ls: seq<Line>)
    ensures MapWithoutCr([x] + ls) == [WithoutCr(x)] + MapWithoutCr(ls)
  {
    assert ([x] + ls)[1..] == ls;
  }

  lemma {:induction false} MapConcat(a: seq<Line>, b: seq<Line>)
    ensures MapWithoutCr(a + b) == MapWithoutCr(a) + MapWithoutCr(b)
  {
    if |a| == 0 {
      assert a + b == b;
    } else {
      assert (a + b)[0] == a[0] && (a + b)[1..] == a[1..] + b;
      MapConcat(a[1..], b);
      assert MapWithoutCr(a + b) == [WithoutCr(a[0])] + (MapWithoutCr(a[1..]) + MapWithoutCr(b));
    }
  }

  lemma {:induction false} DocumentOneLine(body: seq<Line>, w: Wrapping)
    requires GoodWrapping(w) && AllOneLine(body)
    ensures AllOneLine(Document(body, w))
  {
    var ls := Document(body, w);
    assert OneLine(BEGIN_PATCH) && OneLine(END_PATCH);
    if w.Heredoc? {
      HeredocStartFacts(w.opener);
    }
    forall k | 0 <= k < |ls| ensures OneLine(ls[k]) {
      if w.Unwrapped? && 0 < k < |ls| - 1 {
        assert ls[k] == body[k - 1];
      } else if w.Heredoc? && 1 < k < |ls| - 2 {
        assert ls[k] == body[k - 2];
      }
    }
  }

  lemma {:induction false} DocumentEnds(body: seq<Line>, w: Wrapping, crlf: bool)
    requires GoodWrapping(w) && AllOneLine(body)
    ensures AllOneLine(Document(body, w))
    ensures var s := Rendered(Document(body, w), crlf); s != "" && !IsSpace(s[0]) && !IsSpace(s[|s| - 1])
  {
    DocumentOneLine(body, w);
    var ls := Document(body, w);
    if w.Heredoc? {
      HeredocStartFacts(w.opener);
      assert w.closer[|w.closer| - 1] == "EOF"[2];
    }
    CrsDropped(ls);
    JoinEnds(if crlf then WithCrs(ls) else ls);
  }

  /** The text of a document, wherever it stands in white space, parses as its body lines do; lines
      ended by a bare LF lose one carriage return. */
  lemma {:induction false} DocumentParses(body: seq<Line>, w: Wrapping, crlf: bool, before: string, after: string)
    requires GoodWrapping(w) && AllOneLine(body) && AllSpace(before) && AllSpace(after)
    ensures Parse(before + Rendered(Document(body, w), crlf) + after)
         == ParseHunks(LexAll(if crlf then body else MapWithoutCr(body)))
  {
    var seen := if crlf then body else MapWithoutCr(body);
    DocumentEnds(body, w, crlf);
    TrimPadded(before, Rendered(Document(body, w), crlf), after);
    RenderedLines(Document(body, w), crlf);
    DocumentLines(body, w);
    DocumentEnclosed(seen, w);
    MarkedStrict(seen);
  }
}
