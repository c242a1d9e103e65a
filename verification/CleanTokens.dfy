/** What the parser makes of lines without newlines: every token it sees is clean, in that its path ends visibly
    and its text is one line; bodies, chunks and hunks that are read from clean tokens are then ones the format
    can express. Together with `PatchFormat`, which goes the other way, this decides which lists of hunks come
    out of the parser at all. */
module CleanTokens {
  import opened Text
  import opened ApplyPatchUpdate
  import opened PatchText
  import opened PatchFormat

  predicate CleanKind(kind: BodyKind) {
    AllOneLine(OldPart(kind)) && AllOneLine(NewPart(kind))
  }

  predicate CleanIntro(intro: Intro) {
    match intro case AddIntro(p) => LinePath(p) case DeleteIntro(p) => LinePath(p) case UpdateIntro(p) => LinePath(p) case NoIntro => true
  }

  predicate CleanToken(tok: Token) {
    && CleanKind(tok.kind) && CleanIntro(tok.intro)
    && (tok.move.Some? ==> LinePath(tok.move.value))
    && (tok.context.Some? && tok.context.value.Some? ==> OneLine(tok.context.value.value))
  }

  predicate Clean(toks: seq<Token>) {
    |toks| == 0 || (CleanToken(toks[0]) && Clean(toks[1..]))
  }

  lemma {:induction false} CleanDrop(toks: seq<Token>, n: nat)
    requires Clean(toks) && n <= |toks|
    ensures Clean(toks[n..])
  {
    if n > 0 {
      CleanDrop(toks[1..], n - 1);
      assert toks[1..][n - 1..] == toks[n..];
    }
  }

  lemma {:induction false} TrimOneLine(line: Line)
    requires OneLine(line)
    ensures OneLine(Trim(line)) && (Trim(line) != "" ==> !IsSpace(Trim(line)[|Trim(line)| - 1]))
  {
    TrimEndFacts(line);
    TrimStartFacts(TrimEnd(line));
    var e, t := TrimEnd(line), Trim(line);
    assert forall k :: 0 <= k < |t| ==> t[k] == e[|e| - |t| + k] == line[|e| - |t| + k];
  }

  /** What follows a marker on a trimmed line is a path, because the marker itself ends in a space. */
  lemma {:induction false} MarkedPath(trimmed: Line, marker: string)
    requires OneLine(trimmed) && (trimmed != "" ==> !IsSpace(trimmed[|trimmed| - 1]))
    requires marker <= trimmed && |marker| > 0 && IsSpace(marker[|marker| - 1])
    ensures LinePath(trimmed[|marker|..])
  {
    var path := trimmed[|marker|..];
    assert trimmed[|marker| - 1] == marker[|marker| - 1];
    assert path != "" ==> path[|path| - 1] == trimmed[|trimmed| - 1];
  }

  lemma {:induction false} LexKindClean(line: Line)
    requires OneLine(line)
    ensures CleanKind(KindOf(line))
    ensures var c := ContextOf(line); c.Some? && c.value.Some? ==> OneLine(c.value.value)
  {
    assert OneLine("");
    assert line != "" ==> OneLine(line[1..]);
  }

  lemma {:induction false} LexIntroClean(trimmed: Line)
    requires OneLine(trimmed) && (trimmed != "" ==> !IsSpace(trimmed[|trimmed| - 1]))
    ensures CleanIntro(IntroOf(trimmed)) && (MoveOf(trimmed).Some? ==> LinePath(MoveOf(trimmed).value))
  {
    if ADD_FILE <= trimmed { MarkedPath(trimmed, ADD_FILE); }
    if DELETE_FILE <= trimmed { MarkedPath(trimmed, DELETE_FILE); }
    if UPDATE_FILE <= trimmed { MarkedPath(trimmed, UPDATE_FILE); }
    if MOVE_TO <= trimmed { MarkedPath(trimmed, MOVE_TO); }
  }

  lemma {:induction false} LexClean(lines: seq<Line>)
    requires AllOneLine(lines)
    ensures Clean(LexAll(lines))
  {
    if |lines| > 0 {
      assert OneLine(lines[0]);
      TrimOneLine(lines[0]);
      LexKindClean(lines[0]);
      LexIntroClean(Trim(lines[0]));
      LexClean(lines[1..]);
      LexAllHead(lines);
    }
  }

  lemma {:induction false} BodyClean(toks: seq<Token>)
    requires Clean(toks)
    ensures AllOneLine(BodyOf(toks).oldLines) && AllOneLine(BodyOf(toks).newLines)
  {
    if |toks| > 0 && !toks[0].kind.Foreign? && !toks[0].kind.EndMark? {
      BodyClean(toks[1..]);
      OneLineConcat(OldPart(toks[0].kind), BodyOf(toks[1..]).oldLines);
      OneLineConcat(NewPart(toks[0].kind), BodyOf(toks[1..]).newLines);
    }
  }

  lemma {:induction false} BodyExpressible(toks: seq<Token>)
    requires Clean(toks) && CheckedBody(toks).Ok?
    ensures var b := CheckedBody(toks).value;
            AllOneLine(b.oldLines) && AllOneLine(b.newLines) && |b.oldLines| + |b.newLines| > 0
  {
    BodyClean(toks);
  }

  lemma {:induction false} ChunkExpressible(toks: seq<Token>, first: bool)
    requires |toks| > 0 && Clean(toks) && ParseChunk(toks, first).Ok?
    ensures ExpressibleChunk(ParseChunk(toks, first).value.value)
  {
    if toks[0].context.Some? {
      BodyExpressible(toks[1..]);
    } else {
      BodyExpressible(toks);
    }
  }

  lemma {:induction false} ChunksExpressible(toks: seq<Token>, first: bool)
    requires Clean(toks) && ParseChunks(toks, first).Ok?
    ensures ExpressibleChunks(ParseChunks(toks, first).value.value)
    decreases |toks|
  {
    if |toks| > 0 {
      if toks[0].blank {
        ChunksExpressible(toks[1..], first);
        assert [] + ParseChunks(toks[1..], first).value.value == ParseChunks(toks[1..], first).value.value;
      } else if !toks[0].stars {
        var p := ParseChunk(toks, first).value;
        ChunkExpressible(toks, first);
        CleanDrop(toks, p.consumed);
        ChunksExpressible(toks[p.consumed..], false);
        ConsExpressible(p.value, ParseChunks(toks[p.consumed..], false).value.value);
      }
    }
  }

  lemma {:induction false} ConsExpressible(c: Chunk, cs: seq<Chunk>)
    requires ExpressibleChunk(c) && ExpressibleChunks(cs)
    ensures ExpressibleChunks([c] + cs)
  {
    assert ([c] + cs)[1..] == cs;
  }

  lemma {:induction false} ContentsTerminated(toks: seq<Token>)
    ensures var s := AddedContents(toks); s == "" || s[|s| - 1] == NL
  {
    if |toks| > 0 && toks[0].kind.Added? {
      ContentsTerminated(toks[1..]);
    }
  }

  lemma {:induction false} OneExpressible(toks: seq<Token>)
    requires |toks| > 0 && Clean(toks) && ParseOne(toks).Ok?
    ensures Expressible(ParseOne(toks).value.value)
  {
    var rest := toks[1..];
    ContentsTerminated(rest);
    if toks[0].intro.UpdateIntro? {
      if |rest| > 0 && rest[0].move.Some? {
        ChunksExpressible(rest[1..], true);
      } else {
        ChunksExpressible(rest, true);
      }
    }
  }

  lemma {:induction false} HunksExpressible(toks: seq<Token>)
    requires Clean(toks) && ParseHunks(toks).Ok?
    ensures AllExpressible(ParseHunks(toks).value)
    decreases |toks|
  {
    if |toks| > 0 {
      var p := ParseOne(toks).value;
      OneExpressible(toks);
      CleanDrop(toks, p.consumed);
      HunksExpressible(toks[p.consumed..]);
      var rest := ParseHunks(toks[p.consumed..]).value;
      assert ([p.value] + rest)[1..] == rest;
    }
  }

  lemma {:induction false} DropCrsOneLine(ls: seq<Line>)
    requires AllOneLine(ls)
    ensures AllOneLine(DropCrs(ls))
  {
    if |ls| > 1 {
      DropCrsOneLine(ls[1..]);
      assert OneLine(ls[0]);
      assert OneLine(WithoutCr(ls[0]));
      AllOneLineCons(WithoutCr(ls[0]), DropCrs(ls[1..]));
    }
  }
}
