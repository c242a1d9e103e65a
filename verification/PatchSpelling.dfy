/** How the tokens of written lines spell a script, and that the grammar reads the script back from them:
    first that tokens that spell an edit, a body, a chunk, a hunk or a patch parse as what they spell,
    whatever follows them; then that the lines the printer writes are lexed to such tokens. The two halves
    meet in `WrittenLinesParse`. */
module PatchSpelling {
  import opened Wrappers
  import opened Text
  import opened ApplyPatchUpdate
  import opened PatchText
  import opened PatchPrinter

  // ---------------------------------------------------------------------------
  // What the grammar makes of tokens that spell a script
  // ---------------------------------------------------------------------------

  ghost predicate SpellsEdits(toks: seq<Token>, edits: seq<Edit>) {
    if |edits| == 0 then |toks| == 0
    else |toks| > 0 && toks[0].kind == EditKind(edits[0]) && SpellsEdits(toks[1..], edits[1..])
  }

  function BodySize(c: ChunkScript): nat {
    |c.edits| + (if c.isEndOfFile then 1 else 0)
  }

  ghost predicate SpellsBody(toks: seq<Token>, c: ChunkScript) {
    && |toks| == BodySize(c) && SpellsEdits(toks[..|c.edits|], c.edits)
    && (c.isEndOfFile ==> toks[|c.edits|].kind.EndMark?)
  }

  /** A token that begins neither a blank line, nor a new hunk, nor a move. */
  predicate Plain(tok: Token) {
    !tok.blank && !tok.stars && tok.move.None?
  }

  ghost predicate SpellsChunks(toks: seq<Token>, cs: seq<ChunkScript>) {
    if |cs| == 0 then |toks| == 0
    else
      var n := 1 + BodySize(cs[0]);
      && |toks| >= n && Plain(toks[0]) && toks[0].context == Some(cs[0].context) && toks[0].kind.Foreign?
      && SpellsBody(toks[1..n], cs[0])
      && SpellsChunks(toks[n..], cs[1..])
  }

  ghost predicate SpellsBare(toks: seq<Token>, cs: seq<ChunkScript>) {
    && |cs| > 0 && |toks| >= BodySize(cs[0]) > 0 && cs[0].context.None?
    && Plain(toks[0]) && toks[0].context.None?
    && SpellsBody(toks[..BodySize(cs[0])], cs[0])
    && SpellsChunks(toks[BodySize(cs[0])..], cs[1..])
  }

  /** Nothing more, or a token that begins the next hunk. */
  predicate Stops(rest: seq<Token>) {
    |rest| == 0 || (rest[0].stars && !rest[0].blank && rest[0].kind.Foreign?)
  }

  predicate StopsBody(rest: seq<Token>) {
    |rest| == 0 || rest[0].kind.Foreign?
  }

  lemma {:induction false} BodyCons(tok: Token, rest: seq<Token>)
    requires !tok.kind.EndMark? && !tok.kind.Foreign?
    ensures BodyOf([tok] + rest) == Continue(OldPart(tok.kind), NewPart(tok.kind), 1, BodyOf(rest))
  {
    assert ([tok] + rest)[1..] == rest;
  }

  lemma {:induction false} ContinueFront(kind: BodyKind, oldLines: seq<Line>, newLines: seq<Line>, count: nat, rest: Body)
    ensures Continue(OldPart(kind), NewPart(kind), 1, Continue(oldLines, newLines, count, rest))
         == Continue(OldPart(kind) + oldLines, NewPart(kind) + newLines, 1 + count, rest)
  {
    assert OldPart(kind) + (oldLines + rest.oldLines) == OldPart(kind) + oldLines + rest.oldLines;
    assert NewPart(kind) + (newLines + rest.newLines) == NewPart(kind) + newLines + rest.newLines;
  }

  lemma {:induction false} EditsParse(toks: seq<Token>, edits: seq<Edit>, tail: seq<Token>)
    requires SpellsEdits(toks, edits)
    ensures BodyOf(toks + tail) == Continue(OldSide(edits), NewSide(edits), |edits|, BodyOf(tail))
  {
    if |edits| == 0 {
      assert toks + tail == tail;
      ContinueStart(BodyOf(tail));
    } else {
      EditsParse(toks[1..], edits[1..], tail);
      assert toks[0].kind == EditKind(edits[0]);
      BodyCons(toks[0], toks[1..] + tail);
      assert toks + tail == [toks[0]] + (toks[1..] + tail);
      ContinueFront(toks[0].kind, OldSide(edits[1..]), NewSide(edits[1..]), |edits| - 1, BodyOf(tail));
    }
  }

  lemma {:induction false} BodyParses(toks: seq<Token>, c: ChunkScript, rest: seq<Token>)
    requires SpellsBody(toks, c) && |c.edits| > 0 && StopsBody(rest)
    ensures CheckedBody(toks + rest) == Ok(Body(OldSide(c.edits), NewSide(c.edits), c.isEndOfFile, |toks|))
  {
    var n := |c.edits|;
    var tail := toks[n..] + rest;
    EditsParse(toks[..n], c.edits, tail);
    assert toks[..n] + tail == toks + rest;
    assert (toks + rest)[0] == toks[..n][0] && toks[..n][0].kind == EditKind(c.edits[0]);
    assert BodyOf(tail) == Body([], [], c.isEndOfFile, |toks| - n) by {
      if c.isEndOfFile {
        assert tail[0] == toks[n];
      } else {
        assert tail == rest;
      }
    }
    ContinueEnd(OldSide(c.edits), NewSide(c.edits), n, c.isEndOfFile, |toks| - n);
  }

  /** One round of the chunk loop: `front` spells a chunk, `more` the following ones. */
  lemma {:induction false} ChunkThenMore(front: seq<Token>, more: seq<Token>, first: bool, chunk: Chunk, rest: seq<Chunk>, used: nat)
    requires |front| > 0 && !front[0].blank && !front[0].stars
    requires ParseChunk(front + more, first) == Ok(Parsed(chunk, |front|))
    requires ParseChunks(more, false) == Ok(Parsed(rest, used))
    ensures ParseChunks(front + more, first) == Ok(Parsed([chunk] + rest, |front| + used))
  {
    assert (front + more)[|front|..] == more;
  }

  lemma {:induction false} HeadedChunkParses(front: seq<Token>, c: ChunkScript, more: seq<Token>, first: bool)
    requires |front| > 0 && front[0].context == Some(c.context) && SpellsBody(front[1..], c)
    requires |c.edits| > 0 && StopsBody(more)
    ensures ParseChunk(front + more, first) == Ok(Parsed(ChunkOf(c), |front|))
  {
    BodyParses(front[1..], c, more);
    assert (front + more)[1..] == front[1..] + more;
  }

  lemma {:induction false} BareChunkParses(front: seq<Token>, c: ChunkScript, more: seq<Token>)
    requires |front| > 0 && front[0].context.None? && c.context.None? && SpellsBody(front, c)
    requires |c.edits| > 0 && StopsBody(more)
    ensures ParseChunk(front + more, true) == Ok(Parsed(ChunkOf(c), |front|))
  {
    BodyParses(front, c, more);
  }

  lemma {:induction false} FrontAndRest(toks: seq<Token>, n: nat, rest: seq<Token>)
    requires n <= |toks|
    ensures toks + rest == toks[..n] + (toks[n..] + rest)
    ensures n > 0 ==> toks[..n][1..] == toks[1..n]
  {
  }

  lemma {:induction false} ChunksParse(toks: seq<Token>, cs: seq<ChunkScript>, first: bool, rest: seq<Token>)
    requires SpellsChunks(toks, cs) && NoneEmpty(cs) && Stops(rest)
    ensures ParseChunks(toks + rest, first) == Ok(Parsed(ChunksOf(cs), |toks|))
    ensures StopsBody(toks + rest)
    decreases |cs|
  {
    if |cs| == 0 {
      assert toks + rest == rest;
    } else {
      var n := 1 + BodySize(cs[0]);
      var front, more := toks[..n], toks[n..] + rest;
      FrontAndRest(toks, n, rest);
      ChunksParse(toks[n..], cs[1..], false, rest);
      HeadedChunkParses(front, cs[0], more, first);
      ChunkThenMore(front, more, first, ChunkOf(cs[0]), ChunksOf(cs[1..]), |toks| - n);
    }
  }

  lemma {:induction false} BareChunksParse(toks: seq<Token>, cs: seq<ChunkScript>, rest: seq<Token>)
    requires SpellsBare(toks, cs) && NoneEmpty(cs) && Stops(rest)
    ensures ParseChunks(toks + rest, true) == Ok(Parsed(ChunksOf(cs), |toks|))
  {
    var n := BodySize(cs[0]);
    var front, more := toks[..n], toks[n..] + rest;
    ChunksParse(toks[n..], cs[1..], false, rest);
    BareChunkParses(front, cs[0], more);
    ChunkThenMore(front, more, true, ChunkOf(cs[0]), ChunksOf(cs[1..]), |toks| - n);
    FrontAndRest(toks, n, rest);
  }

  ghost predicate SpellsUpdate(toks: seq<Token>, bare: bool, cs: seq<ChunkScript>) {
    if bare then SpellsBare(toks, cs) else SpellsChunks(toks, cs)
  }

  ghost predicate SpellsPlus(toks: seq<Token>, contents: seq<Line>) {
    if |contents| == 0 then |toks| == 0
    else |toks| > 0 && toks[0].kind == Added(contents[0]) && SpellsPlus(toks[1..], contents[1..])
  }

  ghost predicate SpellsHunk(toks: seq<Token>, h: HunkScript) {
    && |toks| > 0 && toks[0].stars && !toks[0].blank && toks[0].kind.Foreign?
    && match h
       case Add(path, contents) => toks[0].intro == AddIntro(path) && SpellsPlus(toks[1..], contents)
       case Delete(path) => toks[0].intro == DeleteIntro(path) && |toks| == 1
       case Update(path, movePath, bare, chunks) =>
         && toks[0].intro == UpdateIntro(path) && |chunks| > 0 && NoneEmpty(chunks)
         && (if movePath.Some?
             then |toks| > 1 && toks[1].move == movePath && SpellsUpdate(toks[2..], bare, chunks)
             else SpellsUpdate(toks[1..], bare, chunks))
  }

  lemma {:induction false} PlusParses(toks: seq<Token>, contents: seq<Line>, rest: seq<Token>)
    requires SpellsPlus(toks, contents) && Stops(rest)
    ensures |toks| == |contents| && PlusLines(toks + rest) == |contents|
    ensures AddedContents(toks + rest) == Terminated(contents)
  {
    if |contents| == 0 {
      assert toks + rest == rest;
    } else {
      PlusParses(toks[1..], contents[1..], rest);
      assert (toks + rest)[1..] == toks[1..] + rest;
      assert toks[0].kind == Added(contents[0]);
    }
  }

  lemma {:induction false} UpdateParses(toks: seq<Token>, bare: bool, cs: seq<ChunkScript>, rest: seq<Token>)
    requires SpellsUpdate(toks, bare, cs) && |cs| > 0 && NoneEmpty(cs) && Stops(rest)
    ensures ParseChunks(toks + rest, true) == Ok(Parsed(ChunksOf(cs), |toks|))
    ensures |toks| > 0 && toks[0].move.None? && |ChunksOf(cs)| > 0
  {
    if bare {
      BareChunksParse(toks, cs, rest);
    } else {
      ChunksParse(toks, cs, true, rest);
    }
  }

  /** A spelled hunk is read back, and exactly its tokens are consumed. */
  lemma {:induction false} AddOrDeleteParses(toks: seq<Token>, h: HunkScript, rest: seq<Token>)
    requires SpellsHunk(toks, h) && Stops(rest) && !h.Update?
    ensures ParseOne(toks + rest) == Ok(Parsed(HunkOf(h), |toks|))
  {
    assert (toks + rest)[1..] == toks[1..] + rest;
    if h.Add? {
      PlusParses(toks[1..], h.contents, rest);
    }
  }

  lemma {:induction false} PlainUpdateParses(toks: seq<Token>, h: HunkScript, rest: seq<Token>)
    requires SpellsHunk(toks, h) && Stops(rest) && h.Update? && h.movePath.None?
    ensures ParseOne(toks + rest) == Ok(Parsed(HunkOf(h), |toks|))
  {
    assert (toks + rest)[1..] == toks[1..] + rest;
    UpdateParses(toks[1..], h.bare, h.chunks, rest);
  }

  lemma {:induction false} MovingUpdateParses(toks: seq<Token>, h: HunkScript, rest: seq<Token>)
    requires SpellsHunk(toks, h) && Stops(rest) && h.Update? && h.movePath.Some?
    ensures ParseOne(toks + rest) == Ok(Parsed(HunkOf(h), |toks|))
  {
    var all := toks + rest;
    assert all[1..] == toks[1..] + rest && all[1..][1..] == toks[2..] + rest;
    UpdateParses(toks[2..], h.bare, h.chunks, rest);
  }

  lemma {:induction false} HunkParses(toks: seq<Token>, h: HunkScript, rest: seq<Token>)
    requires SpellsHunk(toks, h) && Stops(rest)
    ensures ParseOne(toks + rest) == Ok(Parsed(HunkOf(h), |toks|))
  {
    if !h.Update? {
      AddOrDeleteParses(toks, h, rest);
    } else if h.movePath.None? {
      PlainUpdateParses(toks, h, rest);
    } else {
      MovingUpdateParses(toks, h, rest);
    }
  }

  ghost predicate SpellsPatch(toks: seq<Token>, hs: seq<HunkScript>, sizes: seq<nat>) {
    if |hs| == 0 then |toks| == 0 && |sizes| == 0
    else
      && |sizes| > 0 && sizes[0] <= |toks| && SpellsHunk(toks[..sizes[0]], hs[0])
      && SpellsPatch(toks[sizes[0]..], hs[1..], sizes[1..])
  }

  /** Every token is consumed, and the hunks come back in order. */
  lemma {:induction false} PatchParses(toks: seq<Token>, hs: seq<HunkScript>, sizes: seq<nat>)
    requires SpellsPatch(toks, hs, sizes)
    ensures ParseHunks(toks) == Ok(HunksOf(hs))
    ensures Stops(toks)
    decreases |hs|
  {
    if |hs| > 0 {
      var n := sizes[0];
      PatchParses(toks[n..], hs[1..], sizes[1..]);
      HunkParses(toks[..n], hs[0], toks[n..]);
      assert toks == toks[..n] + toks[n..];
    }
  }

  // ---------------------------------------------------------------------------
  // Written scripts spell themselves
  // ---------------------------------------------------------------------------

  lemma {:induction false} EditLex(e: Edit)
    ensures KindOf(EditLine(e)) == EditKind(e)
  {
    assert END_OF_FILE[0] == '*';
  }

  lemma {:induction false} EditsSpelled(edits: seq<Edit>)
    ensures SpellsEdits(LexAll(EditLines(edits)), edits)
  {
    if |edits| > 0 {
      EditLex(edits[0]);
      EditsSpelled(edits[1..]);
      HeadKind(EditLines(edits));
    }
  }

  lemma {:induction false} BodySpelled(c: ChunkScript)
    ensures SpellsBody(LexAll(BodyLines(c)), c)
  {
    var tail := if c.isEndOfFile then [END_OF_FILE] else [];
    EditsSpelled(c.edits);
    LexAllConcat(EditLines(c.edits), tail);
    if c.isEndOfFile {
      HeadKind(tail);
    }
    assert LexAll(BodyLines(c))[..|c.edits|] == LexAll(EditLines(c.edits));
  }

  /** A line that begins with a visible character other than `*` is neither blank nor a move. */
  lemma {:induction false} VisibleLine(line: Line)
    requires line != "" && !IsSpace(line[0]) && line[0] != '*'
    ensures Plain(Lex(line))
  {
    TrimHead(line);
    assert MOVE_TO[0] == '*' && "***"[0] == '*';
  }

  lemma {:induction false} HeaderLex(c: ChunkScript)
    ensures var tok := Lex(HeaderLine(c)); Plain(tok) && tok.context == Some(c.context) && tok.kind.Foreign?
  {
    VisibleLine(HeaderLine(c));
    assert END_OF_FILE[0] == '*';
  }

  lemma {:induction false} ChunksSpelled(cs: seq<ChunkScript>)
    ensures SpellsChunks(LexAll(ChunkLines(cs)), cs)
  {
    if |cs| > 0 {
      var head, body, rest := [HeaderLine(cs[0])], BodyLines(cs[0]), ChunkLines(cs[1..]);
      ChunksSpelled(cs[1..]);
      HeaderLex(cs[0]);
      BodySpelled(cs[0]);
      LexAllConcat(head + body, rest);
      LexAllConcat(head, body);
      LexOne(HeaderLine(cs[0]));
      Pieces(LexAll(head), LexAll(body), LexAll(rest));
    }
  }

  lemma {:induction false} LexOne(line: Line)
    ensures LexAll([line]) == [Lex(line)]
  {
    assert [line][1..] == [];
  }

  lemma {:induction false} Pieces(a: seq<Token>, b: seq<Token>, c: seq<Token>)
    ensures |a| > 0 ==> (a + b + c)[0] == a[0]
    ensures (a + b + c)[|a|..|a| + |b|] == b && (a + b + c)[|a| + |b|..] == c && (a + b + c)[..|a|] == a
    ensures (a + b + c)[|a|..] == b + c
  {
  }

  lemma {:induction false} BareSpelled(cs: seq<ChunkScript>)
    requires |cs| > 0 && GoodBare(cs[0])
    ensures SpellsBare(LexAll(BodyLines(cs[0]) + ChunkLines(cs[1..])), cs)
  {
    var body, rest := BodyLines(cs[0]), ChunkLines(cs[1..]);
    ChunksSpelled(cs[1..]);
    BodySpelled(cs[0]);
    LexAllConcat(body, rest);
    assert body[0] == EditLine(cs[0].edits[0]);
    LexAllHead(body);
    Pieces(LexAll(body), [], LexAll(rest));
    assert LexAll(body) + [] == LexAll(body);
    BareLine(cs[0].edits[0]);
  }

  lemma {:induction false} BareLine(e: Edit)
    requires Trim(EditLine(e)) != "" && !(MOVE_TO <= Trim(EditLine(e)))
    ensures Plain(Lex(EditLine(e))) && Lex(EditLine(e)).context.None?
  {
    var line := EditLine(e);
    assert line != "" ==> line[0] != '*' && line[0] != '@';
    assert "***"[0] == '*' && NO_CONTEXT[0] == CONTEXT[0] == '@';
  }

  lemma {:induction false} UpdateSpelled(bare: bool, cs: seq<ChunkScript>)
    requires |cs| > 0 && (bare ==> GoodBare(cs[0]))
    ensures SpellsUpdate(LexAll(UpdateLines(bare, cs)), bare, cs)
  {
    if bare {
      BareSpelled(cs);
    } else {
      ChunksSpelled(cs);
    }
  }

  lemma {:induction false} PlusSpelled(contents: seq<Line>)
    ensures SpellsPlus(LexAll(PlusLinesOf(contents)), contents)
  {
    if |contents| > 0 {
      PlusSpelled(contents[1..]);
      EditLex(Insert(contents[0]));
      HeadKind(PlusLinesOf(contents));
    }
  }

  /** A marker followed by a path that ends visibly is not changed by trimming. */
  lemma {:induction false} MarkerLine(marker: string, path: string)
    requires |marker| > 0 && !IsSpace(marker[0]) && GoodPath(path)
    ensures Trim(marker + path) == marker + path
    ensures marker <= marker + path && (marker + path)[|marker|..] == path
  {
    TrimFixed(marker + path);
  }

  lemma {:induction false} StarLine(marker: string, path: string)
    requires |marker| > 4 && marker[..4] == "*** " && GoodPath(path) && marker[4] != 'E'
    ensures var tok := Lex(marker + path); tok.stars && !tok.blank && tok.kind.Foreign?
  {
    var line := marker + path;
    assert marker[0] == '*' && marker[1] == '*' && marker[2] == '*' by {
      assert marker[..4][0] == '*' && marker[..4][1] == '*' && marker[..4][2] == '*';
    }
    TrimHead(line);
    assert line[..3] == "***";
    assert END_OF_FILE[4] == 'E';
  }

  /** The header markers share their first four characters, and no other with the end-of-file marker. */
  lemma {:induction false} Markers()
    ensures |ADD_FILE| > 4 && ADD_FILE[..4] == "*** " && ADD_FILE[4] == 'A'
    ensures |DELETE_FILE| > 4 && DELETE_FILE[..4] == "*** " && DELETE_FILE[4] == 'D'
    ensures |UPDATE_FILE| > 4 && UPDATE_FILE[..4] == "*** " && UPDATE_FILE[4] == 'U'
  {
    assert ADD_FILE[0] == DELETE_FILE[0] == UPDATE_FILE[0] == '*';
    assert ADD_FILE[3] == DELETE_FILE[3] == UPDATE_FILE[3] == ' ';
  }

  lemma {:induction false} IntroLine(h: HunkScript)
    requires GoodHunk(h)
    ensures var line := match h case Add(p, _) => ADD_FILE + p case Delete(p) => DELETE_FILE + p case Update(p, _, _, _) => UPDATE_FILE + p;
            IntroOf(Trim(line)) == match h case Add(p, _) => AddIntro(p) case Delete(p) => DeleteIntro(p) case Update(p, _, _, _) => UpdateIntro(p)
  {
    Markers();
    match h {
      case Add(path, _) => MarkerLine(ADD_FILE, path);
      case Delete(path) =>
        MarkerLine(DELETE_FILE, path);
        assert (DELETE_FILE + path)[4] == 'D';
      case Update(path, _, _, _) =>
        MarkerLine(UPDATE_FILE, path);
        assert (UPDATE_FILE + path)[4] == 'U';
    }
  }

  lemma {:induction false} MoveSpelled(path: string)
    requires GoodPath(path)
    ensures Lex(MOVE_TO + path).move == Some(path)
  {
    MarkerLine(MOVE_TO, path);
  }

  lemma {:induction false} UpdateTailSpelled(movePath: Option<string>, bare: bool, chunks: seq<ChunkScript>)
    requires |chunks| > 0 && (bare ==> GoodBare(chunks[0])) && (movePath.Some? ==> GoodPath(movePath.value))
    ensures var toks := LexAll(MoveLines(movePath) + UpdateLines(bare, chunks));
            if movePath.Some?
            then |toks| > 0 && toks[0].move == movePath && SpellsUpdate(toks[1..], bare, chunks)
            else SpellsUpdate(toks, bare, chunks)
  {
    UpdateSpelled(bare, chunks);
    var tail := MoveLines(movePath) + UpdateLines(bare, chunks);
    if movePath.Some? {
      MoveSpelled(movePath.value);
      LexAllHead(tail);
      assert tail[1..] == UpdateLines(bare, chunks);
    } else {
      assert tail == UpdateLines(bare, chunks);
    }
  }

  lemma {:induction false} UpdateFromTail(toks: seq<Token>, h: HunkScript)
    requires h.Update? && |h.chunks| > 0 && NoneEmpty(h.chunks) && |toks| > 0
    requires toks[0].stars && !toks[0].blank && toks[0].kind.Foreign? && toks[0].intro == UpdateIntro(h.path)
    requires if h.movePath.Some?
             then |toks[1..]| > 0 && toks[1..][0].move == h.movePath && SpellsUpdate(toks[1..][1..], h.bare, h.chunks)
             else SpellsUpdate(toks[1..], h.bare, h.chunks)
    ensures SpellsHunk(toks, h)
  {
    assert |toks| > 1 ==> toks[1..][0] == toks[1] && toks[1..][1..] == toks[2..];
  }

  lemma {:induction false} UpdateHeadSpelled(h: HunkScript)
    requires h.Update? && GoodHunk(h)
    ensures var toks := LexAll(HunkLines(h));
            && |toks| > 0 && toks[0].stars && !toks[0].blank && toks[0].kind.Foreign? && toks[0].intro == UpdateIntro(h.path)
            && toks[1..] == LexAll(MoveLines(h.movePath) + UpdateLines(h.bare, h.chunks))
  {
    IntroLine(h);
    LexAllHead(HunkLines(h));
    Markers();
    StarLine(UPDATE_FILE, h.path);
    assert HunkLines(h)[1..] == MoveLines(h.movePath) + UpdateLines(h.bare, h.chunks);
  }

  lemma {:induction false} UpdateHunkSpelled(h: HunkScript)
    requires h.Update? && GoodHunk(h)
    ensures SpellsHunk(LexAll(HunkLines(h)), h)
  {
    UpdateHeadSpelled(h);
    UpdateTailSpelled(h.movePath, h.bare, h.chunks);
    UpdateFromTail(LexAll(HunkLines(h)), h);
  }

  lemma {:induction false} AddHunkSpelled(h: HunkScript)
    requires h.Add? && GoodHunk(h)
    ensures SpellsHunk(LexAll(HunkLines(h)), h)
  {
    IntroLine(h);
    LexAllHead(HunkLines(h));
    Markers();
    StarLine(ADD_FILE, h.path);
    PlusSpelled(h.contents);
    assert HunkLines(h)[1..] == PlusLinesOf(h.contents);
  }

  lemma {:induction false} DeleteHunkSpelled(h: HunkScript)
    requires h.Delete? && GoodHunk(h)
    ensures SpellsHunk(LexAll(HunkLines(h)), h)
  {
    IntroLine(h);
    LexOne(DELETE_FILE + h.path);
    Markers();
    StarLine(DELETE_FILE, h.path);
  }

  lemma {:induction false} HunkSpelled(h: HunkScript)
    requires GoodHunk(h)
    ensures SpellsHunk(LexAll(HunkLines(h)), h)
  {
    match h
    case Add(_, _) => AddHunkSpelled(h);
    case Delete(_) => DeleteHunkSpelled(h);
    case Update(_, _, _, _) => UpdateHunkSpelled(h);
  }

  function Sizes(hs: seq<HunkScript>): seq<nat> {
    if |hs| == 0 then [] else [|HunkLines(hs[0])|] + Sizes(hs[1..])
  }

  lemma {:induction false} PatchSpelled(hs: seq<HunkScript>)
    requires GoodScript(hs)
    ensures SpellsPatch(LexAll(PatchBody(hs)), hs, Sizes(hs))
  {
    if |hs| > 0 {
      HunkSpelled(hs[0]);
      PatchSpelled(hs[1..]);
      LexAllConcat(HunkLines(hs[0]), PatchBody(hs[1..]));
      Pieces(LexAll(HunkLines(hs[0])), [], LexAll(PatchBody(hs[1..])));
      assert LexAll(HunkLines(hs[0])) + [] == LexAll(HunkLines(hs[0]));
    }
  }

  /** Parsing the written lines gives the hunks the script stands for. */
  lemma {:induction false} WrittenLinesParse(hs: seq<HunkScript>)
    requires GoodScript(hs)
    ensures ParseHunks(LexAll(PatchBody(hs))) == Ok(HunksOf(hs))
  {
    PatchSpelled(hs);
    PatchParses(LexAll(PatchBody(hs)), hs, Sizes(hs));
  }
}
