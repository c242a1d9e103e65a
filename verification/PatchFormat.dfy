/** What hunks the patch format can express: paths that are one line and end visibly, added contents that are
    empty or end in a newline, and updates with at least one chunk, and at least one line for every chunk. For
    each such hunk there is a script, in the terms of `PatchPrinter`, whose written form has only lines without
    newlines and stands for this hunk. */
module PatchFormat {
  import opened Sequences
  import opened Text
  import opened ApplyPatchUpdate
  import opened PatchText
  import opened PatchPrinter

  predicate LinePath(path: string) {
    GoodPath(path) && OneLine(path)
  }

  predicate ExpressibleChunk(c: Chunk) {
    && (c.changeContext.Some? ==> OneLine(c.changeContext.value))
    && AllOneLine(c.oldLines) && AllOneLine(c.newLines)
    && |c.oldLines| + |c.newLines| > 0
  }

  predicate ExpressibleChunks(cs: seq<Chunk>) {
    |cs| == 0 || (ExpressibleChunk(cs[0]) && ExpressibleChunks(cs[1..]))
  }

  /** The hunks the format can express: paths that are one line and end visibly, added contents that
      are empty or end in a newline, and updates with at least one chunk and one line per chunk. */
  predicate Expressible(h: Hunk) {
    match h
    case AddFile(path, contents) => LinePath(path) && (contents == "" || contents[|contents| - 1] == NL)
    case DeleteFile(path) => LinePath(path)
    case UpdateFile(path, movePath, chunks) =>
      LinePath(path) && (movePath.Some? ==> LinePath(movePath.value)) && |chunks| > 0 && ExpressibleChunks(chunks)
  }

  predicate AllExpressible(hs: seq<Hunk>) {
    |hs| == 0 || (Expressible(hs[0]) && AllExpressible(hs[1..]))
  }

  // ---------------------------------------------------------------------------
  // Everything expressible can be written
  // ---------------------------------------------------------------------------

  function Removals(ls: seq<Line>): seq<Edit> {
    if |ls| == 0 then [] else [Remove(ls[0])] + Removals(ls[1..])
  }

  function Insertions(ls: seq<Line>): seq<Edit> {
    if |ls| == 0 then [] else [Insert(ls[0])] + Insertions(ls[1..])
  }

  function ChunkScriptOf(c: Chunk): ChunkScript {
    ChunkScript(c.changeContext, Removals(c.oldLines) + Insertions(c.newLines), c.isEndOfFile)
  }

  function ChunkScriptsOf(cs: seq<Chunk>): (r: seq<ChunkScript>)
    ensures |r| == |cs|
  {
    if |cs| == 0 then [] else [ChunkScriptOf(cs[0])] + ChunkScriptsOf(cs[1..])
  }

  /** The lines of a text whose every line is terminated. */
  function TerminatedLines(contents: string): seq<Line> {
    Split(contents)[..|Split(contents)| - 1]
  }

  function ScriptOf(h: Hunk): HunkScript {
    match h
    case AddFile(path, contents) => Add(path, TerminatedLines(contents))
    case DeleteFile(path) => Delete(path)
    case UpdateFile(path, movePath, chunks) => Update(path, movePath, false, ChunkScriptsOf(chunks))
  }

  function ScriptsOf(hs: seq<Hunk>): seq<HunkScript> {
    if |hs| == 0 then [] else [ScriptOf(hs[0])] + ScriptsOf(hs[1..])
  }

  lemma {:induction false} RemovalSides(ls: seq<Line>)
    requires AllOneLine(ls)
    ensures OldSide(Removals(ls)) == ls && NewSide(Removals(ls)) == [] && |Removals(ls)| == |ls|
    ensures AllOneLine(EditLines(Removals(ls)))
  {
    if |ls| > 0 {
      RemovalSides(ls[1..]);
      assert OneLine(ls[0]);
      AllOneLineCons("-" + ls[0], EditLines(Removals(ls[1..])));
    }
  }

  lemma {:induction false} InsertionSides(ls: seq<Line>)
    requires AllOneLine(ls)
    ensures NewSide(Insertions(ls)) == ls && OldSide(Insertions(ls)) == [] && |Insertions(ls)| == |ls|
    ensures AllOneLine(EditLines(Insertions(ls)))
  {
    if |ls| > 0 {
      InsertionSides(ls[1..]);
      assert OneLine(ls[0]);
      AllOneLineCons("+" + ls[0], EditLines(Insertions(ls[1..])));
    }
  }

  lemma {:induction false} AllOneLineCons(x: Line, ls: seq<Line>)
    requires OneLine(x) && AllOneLine(ls)
    ensures AllOneLine([x] + ls)
  {
  }

  lemma {:induction false} OldSideConcat(a: seq<Edit>, b: seq<Edit>)
    ensures OldSide(a + b) == OldSide(a) + OldSide(b)
  {
    if |a| == 0 {
      assert a + b == b;
    } else {
      assert (a + b)[0] == a[0] && (a + b)[1..] == a[1..] + b;
      OldSideConcat(a[1..], b);
      Regroup(OldPart(EditKind(a[0])), OldSide(a[1..]), OldSide(b));
    }
  }

  lemma {:induction false} NewSideConcat(a: seq<Edit>, b: seq<Edit>)
    ensures NewSide(a + b) == NewSide(a) + NewSide(b)
  {
    if |a| == 0 {
      assert a + b == b;
    } else {
      assert (a + b)[0] == a[0] && (a + b)[1..] == a[1..] + b;
      NewSideConcat(a[1..], b);
      Regroup(NewPart(EditKind(a[0])), NewSide(a[1..]), NewSide(b));
    }
  }

  lemma {:induction false} EditLinesConcat(a: seq<Edit>, b: seq<Edit>)
    ensures EditLines(a + b) == EditLines(a) + EditLines(b)
  {
    if |a| == 0 {
      assert a + b == b;
    } else {
      EditLinesConcat(a[1..], b);
      assert (a + b)[1..] == a[1..] + b;
    }
  }

  lemma {:induction false} ChunkIsItsScripts(c: Chunk)
    requires ExpressibleChunk(c)
    ensures var s := ChunkScriptOf(c); ChunkOf(s) == c && |s.edits| > 0
  {
    RemovalSides(c.oldLines);
    InsertionSides(c.newLines);
    OldSideConcat(Removals(c.oldLines), Insertions(c.newLines));
    NewSideConcat(Removals(c.oldLines), Insertions(c.newLines));
  }

  lemma {:induction false} ChunkLinesWritable(c: Chunk)
    requires ExpressibleChunk(c)
    ensures var s := ChunkScriptOf(c); AllOneLine([HeaderLine(s)] + BodyLines(s))
  {
    var s := ChunkScriptOf(c);
    RemovalSides(c.oldLines);
    InsertionSides(c.newLines);
    EditLinesConcat(Removals(c.oldLines), Insertions(c.newLines));
    assert OneLine(NO_CONTEXT) && OneLine(CONTEXT) && OneLine(END_OF_FILE);
    assert OneLine(HeaderLine(s));
    assert AllOneLine([END_OF_FILE]);
    OneLineConcat(EditLines(Removals(c.oldLines)), EditLines(Insertions(c.newLines)));
    OneLineConcat(EditLines(s.edits), if c.isEndOfFile then [END_OF_FILE] else []);
    AllOneLineCons(HeaderLine(s), BodyLines(s));
  }

  lemma {:induction false} ChunkWritable(c: Chunk)
    requires ExpressibleChunk(c)
    ensures var s := ChunkScriptOf(c);
            ChunkOf(s) == c && |s.edits| > 0 && AllOneLine([HeaderLine(s)] + BodyLines(s))
  {
    ChunkIsItsScripts(c);
    ChunkLinesWritable(c);
  }

  lemma {:induction false} ChunksWritable(cs: seq<Chunk>)
    requires ExpressibleChunks(cs)
    ensures var s := ChunkScriptsOf(cs); ChunksOf(s) == cs && NoneEmpty(s) && AllOneLine(ChunkLines(s))
  {
    if |cs| > 0 {
      ChunkWritable(cs[0]);
      ChunksWritable(cs[1..]);
      var s := ChunkScriptsOf(cs);
      assert s[1..] == ChunkScriptsOf(cs[1..]);
      OneLineConcat([HeaderLine(s[0])] + BodyLines(s[0]), ChunkLines(s[1..]));
    }
  }

  lemma {:induction false} TerminatedJoin(ls: seq<Line>)
    ensures Terminated(ls) == Join(ls + [""])
  {
    if |ls| > 0 {
      TerminatedJoin(ls[1..]);
      assert (ls + [""])[1..] == ls[1..] + [""];
    } else {
      assert ls + [""] == [""];
    }
  }

  lemma {:induction false} ContentsWritable(contents: string)
    requires contents == "" || contents[|contents| - 1] == NL
    ensures Terminated(TerminatedLines(contents)) == contents && AllOneLine(PlusLinesOf(TerminatedLines(contents)))
  {
    SplitLast(contents);
    LastIsBlank(Split(contents));
    TerminatedJoin(TerminatedLines(contents));
    PlusOneLine(TerminatedLines(contents));
  }

  lemma {:induction false} LastIsBlank(ls: seq<Line>)
    requires |ls| > 0 && ls[|ls| - 1] == "" && AllOneLine(ls)
    ensures ls == ls[..|ls| - 1] + [""] && AllOneLine(ls[..|ls| - 1])
  {
  }

  lemma {:induction false} PlusOneLine(ls: seq<Line>)
    requires AllOneLine(ls)
    ensures AllOneLine(PlusLinesOf(ls))
  {
    if |ls| > 0 {
      PlusOneLine(ls[1..]);
      assert OneLine(ls[0]);
      AllOneLineCons("+" + ls[0], PlusLinesOf(ls[1..]));
    }
  }

  lemma {:induction false} MarkersOneLine(path: string)
    requires OneLine(path)
    ensures OneLine(ADD_FILE + path) && OneLine(DELETE_FILE + path) && OneLine(UPDATE_FILE + path) && OneLine(MOVE_TO + path)
  {
    assert OneLine(ADD_FILE) && OneLine(DELETE_FILE) && OneLine(UPDATE_FILE) && OneLine(MOVE_TO);
  }

  lemma {:induction false} HunkWritable(h: Hunk)
    requires Expressible(h)
    ensures HunkOf(ScriptOf(h)) == h && GoodHunk(ScriptOf(h)) && AllOneLine(HunkLines(ScriptOf(h)))
  {
    MarkersOneLine(h.path);
    match h {
      case AddFile(path, contents) =>
        ContentsWritable(contents);
        AllOneLineCons(ADD_FILE + path, PlusLinesOf(TerminatedLines(contents)));
      case DeleteFile(path) =>
      case UpdateFile(path, movePath, chunks) =>
        ChunksWritable(chunks);
        if movePath.Some? {
          MarkersOneLine(movePath.value);
        }
        AllOneLineCons(UPDATE_FILE + path, MoveLines(movePath));
        OneLineConcat([UPDATE_FILE + path] + MoveLines(movePath), ChunkLines(ChunkScriptsOf(chunks)));
    }
  }

  lemma {:induction false} HunksWritable(hs: seq<Hunk>)
    requires AllExpressible(hs)
    ensures var s := ScriptsOf(hs); HunksOf(s) == hs && GoodScript(s) && AllOneLine(PatchBody(s))
  {
    if |hs| > 0 {
      HunkWritable(hs[0]);
      HunksWritable(hs[1..]);
      var s := ScriptsOf(hs);
      assert s[1..] == ScriptsOf(hs[1..]);
      OneLineConcat(HunkLines(s[0]), PatchBody(s[1..]));
    }
  }
}
