/** Which error the parser reports (src/agents/apply-patch.ts:252-479). */
module PatchErrors {
  import opened Wrappers
  import opened Text
  import opened ApplyPatchUpdate
  import opened PatchText
  import opened PatchGrammar

  // ---------------------------------------------------------------------------
  // What is wrong
  // ---------------------------------------------------------------------------

  /** Behind its context line, a chunk needs a line of its own. */
  predicate BodyIsWrong(lines: seq<Line>, e: ParseError) {
    if |lines| == 0 || lines[0] == "*** End of File" then e == NoChunkLines
    else !BodyLine(lines[0]) && e == UnexpectedLine
  }

  /** Only the first chunk of a hunk may do without a context line. */
  predicate ChunkIsWrong(lines: seq<Line>, first: bool, e: ParseError) {
    |lines| > 0 &&
    if lines[0] == "@@" || "@@ " <= lines[0] then BodyIsWrong(lines[1..], e)
    else if first then BodyIsWrong(lines, e)
    else e == MissingContext
  }

  /** `lines[..n]` are a proper chunk. */
  ghost predicate ProperChunk(lines: seq<Line>, n: nat, first: bool) {
    exists c :: ChunkTo(lines, n, c, [], first)
  }

  /** Behind proper chunks, a line that neither is blank nor begins with three stars begins a wrong one. */
  ghost predicate ChunksAreWrong(lines: seq<Line>, first: bool, e: ParseError)
    decreases |lines|
  {
    |lines| > 0 &&
    if Trim(lines[0]) == "" then ChunksAreWrong(lines[1..], first, e)
    else
      && !("***" <= lines[0])
      && (ChunkIsWrong(lines, first, e)
          || exists n: nat :: ProperChunk(lines, n, first) && 0 < n <= |lines| && ChunksAreWrong(lines[n..], false, e))
  }

  /** There is no chunk before the end or the next line with three stars. */
  predicate NoChunks(lines: seq<Line>) {
    if |lines| > 0 && Trim(lines[0]) == "" then NoChunks(lines[1..]) else HunkEndsAt(lines)
  }

  /** The lines begin with no header, or with the header of an update whose chunks are wrong or missing. */
  ghost predicate HunkIsWrong(lines: seq<Line>, e: ParseError) {
    && |lines| > 0
    && match IntroOf(Trim(lines[0]))
       case AddIntro(_) => false
       case DeleteIntro(_) => false
       case NoIntro => e == BadHeader
       case UpdateIntro(_) =>
         var rest := if |lines| > 1 && "*** Move to: " <= Trim(lines[1]) then lines[2..] else lines[1..];
         ChunksAreWrong(rest, true, e) || (NoChunks(rest) && e == EmptyUpdate)
  }

  /** `lines[..n]` are a proper hunk. */
  ghost predicate ProperHunk(lines: seq<Line>, n: nat) {
    exists h :: HunkTo(lines, n, h)
  }

  /** Behind proper hunks, the lines begin with a wrong one. */
  ghost predicate PatchIsWrong(lines: seq<Line>, e: ParseError)
    decreases |lines|
  {
    HunkIsWrong(lines, e) || exists n: nat :: ProperHunk(lines, n) && 0 < n <= |lines| && PatchIsWrong(lines[n..], e)
  }

  // ---------------------------------------------------------------------------
  // Chunks
  // ---------------------------------------------------------------------------

  lemma {:induction false} BodyWrongIff(lines: seq<Line>, e: ParseError)
    ensures CheckedBody(LexAll(lines)) == Err(e) <==> BodyIsWrong(lines, e)
  {
    if |lines| > 0 {
      HeadKind(lines);
      KindOfLine(lines[0]);
    }
  }

  lemma {:induction false} ChunkWrongIff(lines: seq<Line>, first: bool, e: ParseError)
    requires |lines| > 0
    ensures ChunkOf(lines, first) == Err(e) <==> ChunkIsWrong(lines, first, e)
  {
    HeadContext(lines);
    BodyWrongIff(lines[1..], e);
    BodyWrongIff(lines, e);
  }

  lemma {:induction false} WrongChunkReads(lines: seq<Line>, first: bool)
    requires |lines| > 0 && Trim(lines[0]) != "" && !("***" <= lines[0]) && ChunkOf(lines, first).Err?
    ensures ChunksOf(lines, first) == Err(ChunkOf(lines, first).error)
  {
    HeadShape(lines);
  }

  lemma {:induction false} ProperChunkIff(lines: seq<Line>, n: nat, first: bool)
    requires |lines| > 0
    ensures ProperChunk(lines, n, first) <==> ChunkOf(lines, first).Ok? && ChunkOf(lines, first).value.consumed == n
  {
    if ProperChunk(lines, n, first) {
      var c :| ChunkTo(lines, n, c, [], first);
      SaidFirstChunkReads(lines, n, c, [], first);
      assert lines + [] == lines;
    }
    if ChunkOf(lines, first).Ok? && ChunkOf(lines, first).value.consumed == n {
      ProperFirst(lines, first, ChunkOf(lines, first).value);
    }
  }

  lemma {:induction false} ProperFirst(lines: seq<Line>, first: bool, p: Parsed<Chunk>)
    requires |lines| > 0 && ChunkOf(lines, first) == Ok(p)
    ensures ProperChunk(lines, p.consumed, first)
  {
    ChunkIsSaid(lines, first, p);
    assert lines[p.consumed..] + [] == lines[p.consumed..];
    assert ChunkTo(lines, p.consumed, p.value, [], first);
  }

  /** The error of what follows the first chunk. */
  lemma {:induction false} NextChunksWrongIff(lines: seq<Line>, first: bool, e: ParseError)
    requires |lines| > 0 && Trim(lines[0]) != "" && !("***" <= lines[0]) && ChunkOf(lines, first).Ok?
    ensures ChunksOf(lines, first) == Err(e) <==> ChunksOf(lines[ChunkOf(lines, first).value.consumed..], false) == Err(e)
  {
    ReadsChunk(lines, first);
  }

  lemma {:induction false} ChunksWrongIff(lines: seq<Line>, first: bool, e: ParseError)
    ensures ChunksOf(lines, first) == Err(e) <==> ChunksAreWrong(lines, first, e)
    decreases |lines|
  {
    if HunkEndsAt(lines) {
      ReadsNoMore(lines, first);
      if |lines| > 0 {
        StarsShow(lines[0]);
      }
    } else if Trim(lines[0]) == "" {
      ReadsBlank(lines, first);
      ChunksWrongIff(lines[1..], first, e);
    } else {
      ChunkWrongIff(lines, first, e);
      if ChunkOf(lines, first).Ok? {
        var n := ChunkOf(lines, first).value.consumed;
        NextChunksWrongIff(lines, first, e);
        ChunksWrongIff(lines[n..], false, e);
        BehindFirstIff(lines, first, e, n);
      } else {
        WrongChunkReads(lines, first);
        NoProperChunk(lines, first);
      }
    }
  }

  lemma {:induction false} BehindFirstIff(lines: seq<Line>, first: bool, e: ParseError, n: nat)
    requires |lines| > 0 && ChunkOf(lines, first).Ok? && n == ChunkOf(lines, first).value.consumed
    ensures 0 < n <= |lines|
    ensures ChunksAreWrong(lines[n..], false, e) <==>
            exists m: nat :: ProperChunk(lines, m, first) && 0 < m <= |lines| && ChunksAreWrong(lines[m..], false, e)
  {
    ProperChunkIff(lines, n, first);
    forall m: nat | ProperChunk(lines, m, first) ensures m == n {
      ProperChunkIff(lines, m, first);
    }
  }

  lemma {:induction false} NoProperChunk(lines: seq<Line>, first: bool)
    requires |lines| > 0 && ChunkOf(lines, first).Err?
    ensures forall m: nat :: !ProperChunk(lines, m, first)
  {
    forall m: nat ensures !ProperChunk(lines, m, first) {
      ProperChunkIff(lines, m, first);
    }
  }

  lemma {:induction false} NoChunksIff(lines: seq<Line>)
    ensures NoChunks(lines) <==> ChunksOf(lines, true).Ok? && |ChunksOf(lines, true).value.value| == 0
    decreases |lines|
  {
    if HunkEndsAt(lines) {
      ReadsNoMore(lines, true);
      if |lines| > 0 {
        StarsShow(lines[0]);
      }
    } else if Trim(lines[0]) == "" {
      ReadsBlank(lines, true);
      NoChunksIff(lines[1..]);
    } else {
      ReadsChunk(lines, true);
    }
  }

  // ---------------------------------------------------------------------------
  // Hunks
  // ---------------------------------------------------------------------------

  lemma {:induction false} UpdateWrongIff(path: string, lines: seq<Line>, e: ParseError)
    ensures var rest := if |lines| > 0 && MOVE_TO <= Trim(lines[0]) then lines[1..] else lines;
            ParseUpdate(path, LexAll(lines)) == Err(e) <==>
            ChunksAreWrong(rest, true, e) || (NoChunks(rest) && e == EmptyUpdate)
  {
    var rest := if |lines| > 0 && MOVE_TO <= Trim(lines[0]) then lines[1..] else lines;
    if |lines| > 0 {
      HeadMove(lines);
    }
    ChunksWrongIff(rest, true, e);
    NoChunksIff(rest);
    UpdateErrors(path, lines, rest);
  }

  lemma {:induction false} UpdateErrors(path: string, lines: seq<Line>, rest: seq<Line>)
    requires rest == if |lines| > 0 && MOVE_TO <= Trim(lines[0]) then lines[1..] else lines
    ensures var r, cs := ParseUpdate(path, LexAll(lines)), ChunksOf(rest, true);
            if cs.Err? then r == Err(cs.error) else if |cs.value.value| == 0 then r == Err(EmptyUpdate) else r.Ok?
  {
    if |lines| > 0 {
      HeadMove(lines);
    }
  }

  lemma {:induction false} HunkWrongIff(lines: seq<Line>, e: ParseError)
    requires |lines| > 0
    ensures ParseOne(LexAll(lines)) == Err(e) <==> HunkIsWrong(lines, e)
  {
    HeadIntro(lines);
    match IntroOf(Trim(lines[0]))
    case AddIntro(_) =>
    case DeleteIntro(_) =>
    case NoIntro =>
    case UpdateIntro(path) =>
      UpdateWrongIff(path, lines[1..], e);
      assert |lines| > 1 ==> lines[1..][1..] == lines[2..];
  }

  lemma {:induction false} ProperHunkIff(lines: seq<Line>, n: nat)
    requires |lines| > 0
    ensures ProperHunk(lines, n) <==> ParseOne(LexAll(lines)).Ok? && ParseOne(LexAll(lines)).value.consumed == n
  {
    if ProperHunk(lines, n) {
      var h :| HunkTo(lines, n, h);
      SaidFirstHunkReads(lines, n, h);
    }
    if ParseOne(LexAll(lines)).Ok? && ParseOne(LexAll(lines)).value.consumed == n {
      HunkIsSaid(lines, ParseOne(LexAll(lines)).value);
    }
  }

  lemma {:induction false} HunksErr(lines: seq<Line>, e: ParseError)
    requires |lines| > 0
    ensures var p := ParseOne(LexAll(lines));
            HunksOf(lines) == Err(e) <==> if p.Ok? then HunksOf(lines[p.value.consumed..]) == Err(e) else p.error == e
  {
    ReadsHunk(lines);
  }

  lemma {:induction false} PatchWrongIff(lines: seq<Line>, e: ParseError)
    ensures HunksOf(lines) == Err(e) <==> PatchIsWrong(lines, e)
    decreases |lines|
  {
    if |lines| > 0 {
      HunkWrongIff(lines, e);
      HunksErr(lines, e);
      var p := ParseOne(LexAll(lines));
      if p.Ok? {
        PatchWrongIff(lines[p.value.consumed..], e);
        BehindHunkIff(lines, e, p.value.consumed);
      } else {
        NoProperHunk(lines);
      }
    }
  }

  lemma {:induction false} BehindHunkIff(lines: seq<Line>, e: ParseError, n: nat)
    requires |lines| > 0 && ParseOne(LexAll(lines)).Ok? && n == ParseOne(LexAll(lines)).value.consumed
    ensures 0 < n <= |lines|
    ensures PatchIsWrong(lines[n..], e) <==>
            exists m: nat :: ProperHunk(lines, m) && 0 < m <= |lines| && PatchIsWrong(lines[m..], e)
  {
    ProperHunkIff(lines, n);
    forall m: nat | ProperHunk(lines, m) ensures m == n {
      ProperHunkIff(lines, m);
    }
  }

  lemma {:induction false} NoProperHunk(lines: seq<Line>)
    requires |lines| > 0 && ParseOne(LexAll(lines)).Err?
    ensures forall m: nat :: !ProperHunk(lines, m)
  {
    forall m: nat ensures !ProperHunk(lines, m) {
      ProperHunkIff(lines, m);
    }
  }

  // ---------------------------------------------------------------------------
  // The text around them
  // ---------------------------------------------------------------------------

  /** The first or the last line is not the marker it should be. */
  predicate MarkersAreWrong(lines: seq<Line>, e: ParseError)
    requires |lines| > 0
  {
    if Trim(lines[0]) != "*** Begin Patch" then e == BadFirstLine
    else Trim(lines[|lines| - 1]) != "*** End Patch" && e == BadLastLine
  }

  /** The lines, out of a here-document if they are in one. */
  function Unwrapped(lines: seq<Line>): (r: seq<Line>)
    requires |lines| > 0
    ensures |r| > 0
  {
    if |lines| >= 4 && lines[0] in ["<<EOF", "<<'EOF'", "<<\"EOF\""] && EndsWithEof(lines[|lines| - 1])
    then lines[1..|lines| - 1] else lines
  }

  /** No text, wrong markers, or a wrong hunk between them. */
  ghost predicate TextIsWrong(trimmed: string, e: ParseError) {
    if trimmed == "" then e == EmptyInput
    else
      var lines := Unwrapped(PatchLines(trimmed));
      MarkersAreWrong(lines, e) || exists body :: Between(lines, body) && PatchIsWrong(body, e)
  }

  lemma {:induction false} MarkersIff(lines: seq<Line>, e: ParseError)
    requires |lines| > 0
    ensures StrictError(lines) == Some(e) <==> MarkersAreWrong(lines, e)
    ensures StrictError(lines) == None ==> Between(lines, lines[1..|lines| - 1])
    ensures StrictError(lines).Some? ==> forall body :: !Between(lines, body)
  {
    if StrictError(lines).None? {
      EnclosedBoth(lines);
    }
  }

  lemma {:induction false} EnclosedIs(lines: seq<Line>)
    requires |lines| > 0
    ensures var inner := Unwrapped(lines);
            Enclosed(lines) == match StrictError(inner) { case None => Ok(inner) case Some(e) => Err(e) }
  {
    if IsHeredocStart(lines[0]) {
      HeredocIsNoMarker(lines[0]);
    }
  }

  lemma {:induction false} LinesWrongIff(lines: seq<Line>, e: ParseError)
    requires |lines| > 0
    ensures MarkersAreWrong(lines, e) || (exists body :: Between(lines, body) && PatchIsWrong(body, e)) <==>
            match StrictError(lines) { case None => |lines| >= 2 && HunksOf(lines[1..|lines| - 1]) == Err(e) case Some(wrong) => wrong == e }
  {
    MarkersIff(lines, e);
    if StrictError(lines).None? {
      PatchWrongIff(lines[1..|lines| - 1], e);
    }
  }

  /** Parsing a text fails with an error exactly when this is what is wrong with it. */
  lemma {:induction false} ParseFailsIff(input: string, e: ParseError)
    ensures Parse(input) == Err(e) <==> TextIsWrong(Trim(input), e)
  {
    if Trim(input) != "" {
      EnclosedIs(PatchLines(Trim(input)));
      LinesWrongIff(Unwrapped(PatchLines(Trim(input))), e);
    }
  }
}
