/** Written patches as texts: parsing undoes printing. */
module PatchRoundTrip {
  import opened Wrappers
  import opened Text
  import opened PatchText
  import opened PatchPrinter
  import opened PatchSpelling
  import opened PatchEnvelope

  /** A path comes back from its header line exactly when it is not empty and ends in a visible character. */
  lemma {:induction false} PathSurvivesIff(path: string)
    ensures IntroOf(Trim(ADD_FILE + path)) == AddIntro(path) <==> GoodPath(path)
  {
    var line := ADD_FILE + path;
    if GoodPath(path) {
      MarkerLine(ADD_FILE, path);
    } else {
      assert IsSpace(line[|line| - 1]);
      assert TrimEnd(line) == TrimEnd(line[..|line| - 1]);
      TrimEndFacts(line[..|line| - 1]);
      TrimStartFacts(TrimEnd(line));
      assert |Trim(line)| < |line|;
    }
  }

  /** Parse undoes print: a script written with CR LF, bare or in `<<EOF`, is read back as the hunks it
      stands for, whatever its lines hold besides newlines. */
  lemma {:induction false} ParseUndoesPrint(hs: seq<HunkScript>, w: Wrapping, before: string, after: string)
    requires GoodScript(hs) && AllOneLine(PatchBody(hs)) && GoodWrapping(w) && AllSpace(before) && AllSpace(after)
    ensures Parse(before + Rendered(Document(PatchBody(hs), w), true) + after) == Ok(HunksOf(hs))
  {
    DocumentParses(PatchBody(hs), w, true, before, after);
    WrittenLinesParse(hs);
  }

  // ---------------------------------------------------------------------------
  // Bare line feeds
  // ---------------------------------------------------------------------------

  function StripEdit(e: Edit): Edit {
    match e
    case Keep(t) => Keep(WithoutCr(t)) case KeepEmpty => e
    case Remove(t) => Remove(WithoutCr(t)) case Insert(t) => Insert(WithoutCr(t))
  }

  function StripEdits(edits: seq<Edit>): (r: seq<Edit>)
    ensures |r| == |edits|
  {
    if |edits| == 0 then [] else [StripEdit(edits[0])] + StripEdits(edits[1..])
  }

  function StripContext(context: Option<Line>): Option<Line> {
    match context case None => None case Some(t) => Some(WithoutCr(t))
  }

  function StripChunk(c: ChunkScript): ChunkScript {
    ChunkScript(StripContext(c.context), StripEdits(c.edits), c.isEndOfFile)
  }

  function StripChunks(cs: seq<ChunkScript>): (r: seq<ChunkScript>)
    ensures |r| == |cs|
  {
    if |cs| == 0 then [] else [StripChunk(cs[0])] + StripChunks(cs[1..])
  }

  function StripHunk(h: HunkScript): HunkScript {
    match h
    case Add(path, contents) => Add(path, MapWithoutCr(contents))
    case Delete(_) => h
    case Update(path, movePath, bare, chunks) => Update(path, movePath, bare, StripChunks(chunks))
  }

  /** The script without the carriage return that ends a context or body line. */
  function StripCrs(hs: seq<HunkScript>): seq<HunkScript> {
    if |hs| == 0 then [] else [StripHunk(hs[0])] + StripCrs(hs[1..])
  }

  lemma {:induction false} WithoutCrAfter(marker: string, text: string)
    requires |marker| > 0 && marker[|marker| - 1] != '\r'
    ensures WithoutCr(marker + text) == marker + WithoutCr(text)
  {
    var line := marker + text;
    if |text| > 0 {
      assert line[|line| - 1] == text[|text| - 1];
      assert line[..|line| - 1] == marker + text[..|text| - 1];
    }
  }

  lemma {:induction false} PathLineKept(marker: string, path: string)
    requires |marker| > 0 && GoodPath(path)
    ensures WithoutCr(marker + path) == marker + path
  {
    assert (marker + path)[|marker + path| - 1] == path[|path| - 1];
  }

  lemma {:induction false} StripEditLines(edits: seq<Edit>)
    ensures MapWithoutCr(EditLines(edits)) == EditLines(StripEdits(edits))
  {
    if |edits| > 0 {
      StripEditLines(edits[1..]);
      StripEditLine(edits[0]);
    }
  }

  lemma {:induction false} StripEditLine(e: Edit)
    ensures WithoutCr(EditLine(e)) == EditLine(StripEdit(e))
  {
    match e
    case Keep(t) => WithoutCrAfter(" ", t);
    case KeepEmpty =>
    case Remove(t) => WithoutCrAfter("-", t);
    case Insert(t) => WithoutCrAfter("+", t);
  }

  lemma {:induction false} StripBodyLines(c: ChunkScript)
    ensures MapWithoutCr(BodyLines(c)) == BodyLines(StripChunk(c))
    ensures WithoutCr(HeaderLine(c)) == HeaderLine(StripChunk(c))
  {
    StripEditLines(c.edits);
    if c.isEndOfFile {
      MapConcat(EditLines(c.edits), [END_OF_FILE]);
      MapHead(END_OF_FILE, []);
      assert [END_OF_FILE] + [] == [END_OF_FILE];
    } else {
      assert EditLines(c.edits) + [] == EditLines(c.edits);
    }
    if c.context.Some? {
      WithoutCrAfter(CONTEXT, c.context.value);
    }
  }

  lemma {:induction false} StripChunkLines(cs: seq<ChunkScript>)
    ensures MapWithoutCr(ChunkLines(cs)) == ChunkLines(StripChunks(cs))
  {
    if |cs| > 0 {
      StripChunkLines(cs[1..]);
      StripBodyLines(cs[0]);
      MapConcat([HeaderLine(cs[0])] + BodyLines(cs[0]), ChunkLines(cs[1..]));
      MapHead(HeaderLine(cs[0]), BodyLines(cs[0]));
    }
  }

  lemma {:induction false} StripPlusLines(contents: seq<Line>)
    ensures MapWithoutCr(PlusLinesOf(contents)) == PlusLinesOf(MapWithoutCr(contents))
  {
    if |contents| > 0 {
      StripPlusLines(contents[1..]);
      WithoutCrAfter("+", contents[0]);
    }
  }

  lemma {:induction false} StripUpdateLines(bare: bool, cs: seq<ChunkScript>)
    ensures MapWithoutCr(UpdateLines(bare, cs)) == UpdateLines(bare, StripChunks(cs))
  {
    if bare && |cs| > 0 {
      StripBodyLines(cs[0]);
      StripChunkLines(cs[1..]);
      MapConcat(BodyLines(cs[0]), ChunkLines(cs[1..]));
    } else {
      StripChunkLines(cs);
    }
  }

  lemma {:induction false} StripHunkLines(h: HunkScript)
    requires GoodHunk(h)
    ensures MapWithoutCr(HunkLines(h)) == HunkLines(StripHunk(h))
  {
    match h {
      case Add(path, contents) =>
        PathLineKept(ADD_FILE, path);
        MapHead(ADD_FILE + path, PlusLinesOf(contents));
        StripPlusLines(contents);
      case Delete(path) =>
        PathLineKept(DELETE_FILE, path);
        MapHead(DELETE_FILE + path, []);
        assert [DELETE_FILE + path] + [] == [DELETE_FILE + path];
      case Update(path, movePath, bare, chunks) =>
        PathLineKept(UPDATE_FILE, path);
        MapConcat([UPDATE_FILE + path] + MoveLines(movePath), UpdateLines(bare, chunks));
        MapHead(UPDATE_FILE + path, MoveLines(movePath));
        StripMoveLines(movePath);
        StripUpdateLines(bare, chunks);
    }
  }

  lemma {:induction false} StripMoveLines(movePath: Option<string>)
    requires movePath.Some? ==> GoodPath(movePath.value)
    ensures MapWithoutCr(MoveLines(movePath)) == MoveLines(movePath)
  {
    if movePath.Some? {
      PathLineKept(MOVE_TO, movePath.value);
      MapHead(MOVE_TO + movePath.value, []);
      assert [MOVE_TO + movePath.value] + [] == [MOVE_TO + movePath.value];
    }
  }

  lemma {:induction false} StripBody(hs: seq<HunkScript>)
    requires GoodScript(hs)
    ensures MapWithoutCr(PatchBody(hs)) == PatchBody(StripCrs(hs)) && GoodScript(StripCrs(hs))
  {
    if |hs| > 0 {
      StripHunkLines(hs[0]);
      StripBody(hs[1..]);
      MapConcat(HunkLines(hs[0]), PatchBody(hs[1..]));
      StripGood(hs[0]);
      assert StripCrs(hs)[1..] == StripCrs(hs[1..]);
    }
  }

  lemma {:induction false} TrimWithoutCr(line: Line)
    ensures Trim(WithoutCr(line)) == Trim(line)
  {
  }

  lemma {:induction false} StripNoneEmpty(cs: seq<ChunkScript>)
    requires NoneEmpty(cs)
    ensures NoneEmpty(StripChunks(cs))
  {
    if |cs| > 0 {
      StripNoneEmpty(cs[1..]);
      assert StripChunks(cs)[1..] == StripChunks(cs[1..]);
    }
  }

  lemma {:induction false} StripGood(h: HunkScript)
    requires GoodHunk(h)
    ensures GoodHunk(StripHunk(h))
  {
    if h.Update? {
      StripNoneEmpty(h.chunks);
      if h.bare {
        var e := h.chunks[0].edits[0];
        StripEditLine(e);
        TrimWithoutCr(EditLine(e));
      }
    }
  }

  /** Written with bare line feeds, a script is read back without the carriage returns that end its lines. */
  lemma {:induction false} LfDropsCrs(hs: seq<HunkScript>, w: Wrapping, before: string, after: string)
    requires GoodScript(hs) && AllOneLine(PatchBody(hs)) && GoodWrapping(w) && AllSpace(before) && AllSpace(after)
    ensures Parse(before + Rendered(Document(PatchBody(hs), w), false) + after) == Ok(HunksOf(StripCrs(hs)))
  {
    DocumentParses(PatchBody(hs), w, false, before, after);
    StripBody(hs);
    WrittenLinesParse(StripCrs(hs));
  }

  lemma {:induction false} SidesTell(edits: seq<Edit>)
    requires OldSide(StripEdits(edits)) == OldSide(edits) && NewSide(StripEdits(edits)) == NewSide(edits)
    ensures StripEdits(edits) == edits
  {
    if |edits| > 0 {
      var e, rest := edits[0], edits[1..];
      var s := StripEdit(e);
      assert StripEdits(edits)[1..] == StripEdits(rest);
      HeadsEqual(OldPart(EditKind(s)), OldSide(StripEdits(rest)), OldPart(EditKind(e)), OldSide(rest));
      HeadsEqual(NewPart(EditKind(s)), NewSide(StripEdits(rest)), NewPart(EditKind(e)), NewSide(rest));
      SidesTell(rest);
      assert s == e by {
        assert e.Keep? || e.Remove? ==> OldPart(EditKind(s))[0] == OldPart(EditKind(e))[0];
        assert e.Insert? ==> NewPart(EditKind(s))[0] == NewPart(EditKind(e))[0];
      }
      assert edits == [e] + rest;
    }
  }

  lemma {:induction false} HeadsEqual(a: seq<Line>, b: seq<Line>, c: seq<Line>, d: seq<Line>)
    requires a + b == c + d && |a| == |c|
    ensures a == c && b == d
  {
    assert (a + b)[..|a|] == a && (c + d)[..|c|] == c;
    assert (a + b)[|a|..] == b && (c + d)[|c|..] == d;
  }

  lemma {:induction false} ChunksTell(cs: seq<ChunkScript>)
    requires ChunksOf(StripChunks(cs)) == ChunksOf(cs)
    ensures StripChunks(cs) == cs
  {
    if |cs| > 0 {
      var c, s := cs[0], StripChunk(cs[0]);
      assert StripChunks(cs)[1..] == StripChunks(cs[1..]);
      assert ChunkOf(s) == ChunkOf(c) by {
        assert ChunksOf(StripChunks(cs))[0] == ChunksOf(cs)[0];
      }
      SidesTell(c.edits);
      assert ChunksOf(StripChunks(cs[1..])) == ChunksOf(StripChunks(cs))[1..];
      assert ChunksOf(cs[1..]) == ChunksOf(cs)[1..];
      ChunksTell(cs[1..]);
      assert cs == [c] + cs[1..];
    }
  }

  lemma {:induction false} TerminatedTells(contents: seq<Line>)
    ensures |Terminated(MapWithoutCr(contents))| <= |Terminated(contents)|
    ensures |Terminated(MapWithoutCr(contents))| == |Terminated(contents)| ==> MapWithoutCr(contents) == contents
  {
    if |contents| > 0 {
      TerminatedTells(contents[1..]);
      assert MapWithoutCr(contents)[1..] == MapWithoutCr(contents[1..]);
      assert contents == [contents[0]] + contents[1..];
    }
  }

  lemma {:induction false} HunksTell(hs: seq<HunkScript>)
    requires HunksOf(StripCrs(hs)) == HunksOf(hs)
    ensures StripCrs(hs) == hs
  {
    if |hs| > 0 {
      var h, s := hs[0], StripHunk(hs[0]);
      assert StripCrs(hs)[1..] == StripCrs(hs[1..]);
      assert HunkOf(s) == HunkOf(h) by {
        assert HunksOf(StripCrs(hs))[0] == HunksOf(hs)[0];
      }
      if h.Add? {
        TerminatedTells(h.contents);
      } else if h.Update? {
        ChunksTell(h.chunks);
      }
      assert HunksOf(StripCrs(hs[1..])) == HunksOf(StripCrs(hs))[1..];
      assert HunksOf(hs[1..]) == HunksOf(hs)[1..];
      HunksTell(hs[1..]);
      assert hs == [h] + hs[1..];
    }
  }

  /** With bare line feeds parse undoes print exactly when no written line ends in a carriage return. */
  lemma {:induction false} LfRoundTripIff(hs: seq<HunkScript>, w: Wrapping, before: string, after: string)
    requires GoodScript(hs) && AllOneLine(PatchBody(hs)) && GoodWrapping(w) && AllSpace(before) && AllSpace(after)
    ensures Parse(before + Rendered(Document(PatchBody(hs), w), false) + after) == Ok(HunksOf(hs)) <==> StripCrs(hs) == hs
  {
    LfDropsCrs(hs, w, before, after);
    if HunksOf(StripCrs(hs)) == HunksOf(hs) {
      HunksTell(hs);
    }
  }
}
