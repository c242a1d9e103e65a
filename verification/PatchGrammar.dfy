/** What the parser accepts, said on the lines themselves (src/agents/apply-patch.ts:252-479). */
module PatchGrammar {
  import opened Wrappers
  import opened Text
  import opened ApplyPatchUpdate
  import opened PatchText

  // ---------------------------------------------------------------------------
  // Chunk bodies
  // ---------------------------------------------------------------------------

  /** A line inside a chunk: empty, or marked by its first character. */
  predicate BodyLine(line: Line) {
    line == "" || line[0] == ' ' || line[0] == '+' || line[0] == '-'
  }

  predicate AllBodyLines(lines: seq<Line>) {
    forall k :: 0 <= k < |lines| ==> BodyLine(lines[k])
  }

  /** What is to be found in the file: every line but the added ones. */
  function FindLines(lines: seq<Line>): seq<Line> {
    if |lines| == 0 then []
    else
      (if lines[0] == "" then [""] else if lines[0][0] == '+' then [] else [lines[0][1..]]) + FindLines(lines[1..])
  }

  /** What takes its place: every line but the removed ones. */
  function PutLines(lines: seq<Line>): seq<Line> {
    if |lines| == 0 then []
    else
      (if lines[0] == "" then [""] else if lines[0][0] == '-' then [] else [lines[0][1..]]) + PutLines(lines[1..])
  }

  /** One body line or more, and an end-of-file marker behind them if the chunk is flagged. */
  ghost predicate IsBody(lines: seq<Line>, c: Chunk) {
    var n := if c.isEndOfFile then |lines| - 1 else |lines|;
    && n > 0 && AllBodyLines(lines[..n]) && (c.isEndOfFile ==> lines[n] == END_OF_FILE)
    && c.oldLines == FindLines(lines[..n]) && c.newLines == PutLines(lines[..n])
  }

  /** The body goes no further: it is flagged, or no body line and no marker follows. */
  predicate BodyEndsAt(c: Chunk, rest: seq<Line>) {
    c.isEndOfFile || |rest| == 0 || (!BodyLine(rest[0]) && rest[0] != END_OF_FILE)
  }

  // ---------------------------------------------------------------------------
  // Chunks
  // ---------------------------------------------------------------------------

  /** A context line and a body; the first chunk of a hunk may do without the context line. */
  ghost predicate IsChunk(lines: seq<Line>, c: Chunk, first: bool) {
    && |lines| > 0
    && if lines[0] == "@@" then c.changeContext == None && IsBody(lines[1..], c)
       else if "@@ " <= lines[0] then c.changeContext == Some(lines[0][3..]) && IsBody(lines[1..], c)
       else first && c.changeContext == None && IsBody(lines, c)
  }

  /** `lines[..n]` are the first chunk, and `rest` follows all of them. */
  ghost predicate ChunkTo(lines: seq<Line>, n: nat, c: Chunk, rest: seq<Line>, first: bool) {
    0 < n <= |lines| && IsChunk(lines[..n], c, first) && BodyEndsAt(c, lines[n..] + rest)
  }

  /** Chunk behind chunk, with blank lines between them. */
  ghost predicate IsChunks(lines: seq<Line>, cs: seq<Chunk>, rest: seq<Line>, first: bool)
    decreases |lines|
  {
    if |lines| == 0 then |cs| == 0
    else if Trim(lines[0]) == "" then IsChunks(lines[1..], cs, rest, first)
    else
      && !("***" <= lines[0]) && |cs| > 0
      && exists n: nat :: ChunkTo(lines, n, cs[0], rest, first) && IsChunks(lines[n..], cs[1..], rest, false)
  }

  // ---------------------------------------------------------------------------
  // Hunks
  // ---------------------------------------------------------------------------

  predicate AllPlus(lines: seq<Line>) {
    forall k :: 0 <= k < |lines| ==> "+" <= lines[k]
  }

  function PlusText(lines: seq<Line>): string {
    if |lines| == 0 then "" else (if lines[0] == "" then "" else lines[0][1..]) + [NL] + PlusText(lines[1..])
  }

  /** Nothing more, or the next line begins with three stars. */
  predicate HunkEndsAt(rest: seq<Line>) {
    |rest| == 0 || "***" <= rest[0]
  }

  /** The lines are exactly this hunk, when `rest` follows. */
  ghost predicate IsHunk(lines: seq<Line>, h: Hunk, rest: seq<Line>) {
    && |lines| > 0
    && match h
       case AddFile(path, contents) =>
         && Trim(lines[0]) == "*** Add File: " + path && AllPlus(lines[1..]) && contents == PlusText(lines[1..])
         && (|rest| == 0 || !("+" <= rest[0]))
       case DeleteFile(path) => Trim(lines[0]) == "*** Delete File: " + path && |lines| == 1
       case UpdateFile(path, movePath, chunks) =>
         && Trim(lines[0]) == "*** Update File: " + path && |chunks| > 0 && HunkEndsAt(rest) && |lines| > 1
         && match movePath
            case Some(p) => Trim(lines[1]) == "*** Move to: " + p && IsChunks(lines[2..], chunks, rest, true)
            case None => !("*** Move to: " <= Trim(lines[1])) && IsChunks(lines[1..], chunks, rest, true)
  }

  ghost predicate HunkTo(lines: seq<Line>, n: nat, h: Hunk) {
    0 < n <= |lines| && IsHunk(lines[..n], h, lines[n..])
  }

  /** Hunk behind hunk, with nothing between them. */
  ghost predicate IsPatch(lines: seq<Line>, hs: seq<Hunk>)
    decreases |lines|
  {
    if |lines| == 0 then |hs| == 0
    else |hs| > 0 && exists n: nat :: HunkTo(lines, n, hs[0]) && IsPatch(lines[n..], hs[1..])
  }

  // ---------------------------------------------------------------------------
  // The text around them
  // ---------------------------------------------------------------------------

  /** The lines between the begin and the end marker. */
  predicate Between(lines: seq<Line>, body: seq<Line>) {
    && |lines| >= 2 && Trim(lines[0]) == "*** Begin Patch" && Trim(lines[|lines| - 1]) == "*** End Patch"
    && body == lines[1..|lines| - 1]
  }

  /** ... which may stand inside a here-document. */
  predicate Holds(lines: seq<Line>, body: seq<Line>) {
    || Between(lines, body)
    || (|lines| >= 4 && lines[0] in ["<<EOF", "<<'EOF'", "<<\"EOF\""] && EndsWithEof(lines[|lines| - 1])
        && Between(lines[1..|lines| - 1], body))
  }

  // ---------------------------------------------------------------------------
  // Bodies are read as they are said
  // ---------------------------------------------------------------------------

  lemma {:induction false} KindOfLine(line: Line)
    ensures KindOf(line).EndMark? <==> line == END_OF_FILE
    ensures !KindOf(line).EndMark? && !KindOf(line).Foreign? <==> BodyLine(line)
    ensures BodyLine(line) ==> OldPart(KindOf(line)) == FindLines([line]) && NewPart(KindOf(line)) == PutLines([line])
  {
    assert END_OF_FILE[0] == '*';
    assert [line][1..] == [];
    if line == "" {
      assert FindLines([line]) == [""] + [] == [""] && PutLines([line]) == [""] + [] == [""];
    } else if BodyLine(line) {
      assert [line[1..]] + [] == [line[1..]];
    }
  }

  lemma {:induction false} FirstLines(x: Line, lines: seq<Line>)
    ensures FindLines([x] + lines) == FindLines([x]) + FindLines(lines)
    ensures PutLines([x] + lines) == PutLines([x]) + PutLines(lines)
  {
    assert ([x] + lines)[1..] == lines && [x][1..] == [];
    assert FindLines([x]) + FindLines(lines) == FindLines([x] + lines);
    assert PutLines([x]) + PutLines(lines) == PutLines([x] + lines);
  }

  lemma {:induction false} BodyGrows(lines: seq<Line>, b: Body)
    requires |lines| > 0 && BodyLine(lines[0]) && BodyOf(LexAll(lines[1..])) == b
    ensures BodyOf(LexAll(lines))
         == Body(FindLines([lines[0]]) + b.oldLines, PutLines([lines[0]]) + b.newLines, b.isEndOfFile, b.count + 1)
  {
    HeadKind(lines);
    KindOfLine(lines[0]);
  }

  /** The body lines, whatever ends them, are read. */
  lemma {:induction false} BodyReads(lines: seq<Line>, m: nat, eof: bool)
    requires m <= |lines| && AllBodyLines(lines[..m])
    requires if eof then m < |lines| && lines[m] == END_OF_FILE
             else m == |lines| || (!BodyLine(lines[m]) && lines[m] != END_OF_FILE)
    ensures BodyOf(LexAll(lines))
         == Body(FindLines(lines[..m]), PutLines(lines[..m]), eof, if eof then m + 1 else m)
    decreases m
  {
    if m > 0 {
      assert lines[..m] == [lines[0]] + lines[1..][..m - 1];
      AllBodyTail(lines[0], lines[1..][..m - 1]);
      BodyReads(lines[1..], m - 1, eof);
      BodyGrows(lines, BodyOf(LexAll(lines[1..])));
      FirstLines(lines[0], lines[1..][..m - 1]);
    } else if |lines| > 0 {
      HeadKind(lines);
      KindOfLine(lines[0]);
    }
  }

  lemma {:induction false} AllBodyTail(line: Line, lines: seq<Line>)
    requires AllBodyLines([line] + lines)
    ensures BodyLine(line) && AllBodyLines(lines)
  {
    assert forall k :: 0 <= k < |lines| ==> lines[k] == ([line] + lines)[k + 1];
    assert ([line] + lines)[0] == line;
  }

  /** The number of body lines at the front. */
  function Leading(lines: seq<Line>): (m: nat)
    ensures m <= |lines| && AllBodyLines(lines[..m]) && (m < |lines| ==> !BodyLine(lines[m]))
  {
    if |lines| == 0 || !BodyLine(lines[0]) then 0
    else
      var m := Leading(lines[1..]);
      assert lines[..m + 1] == [lines[0]] + lines[1..][..m];
      1 + m
  }

  lemma {:induction false} BodyIsSaid(all: seq<Line>, b: Body, context: Option<Line>)
    requires CheckedBody(LexAll(all)) == Ok(b)
    ensures var c := Chunk(context, b.oldLines, b.newLines, b.isEndOfFile);
            0 < b.count <= |all| && IsBody(all[..b.count], c) && BodyEndsAt(c, all[b.count..])
  {
    var m := Leading(all);
    var eof := m < |all| && all[m] == END_OF_FILE;
    BodyReads(all, m, eof);
    LexAllHead(all);
    KindOfLine(all[0]);
    var n := if eof then m + 1 else m;
    assert all[..n][..m] == all[..m];
  }

  lemma {:induction false} SaidBodyReads(lines: seq<Line>, c: Chunk, rest: seq<Line>)
    requires IsBody(lines, c) && BodyEndsAt(c, rest)
    ensures CheckedBody(LexAll(lines + rest)) == Ok(Body(c.oldLines, c.newLines, c.isEndOfFile, |lines|))
  {
    var all := lines + rest;
    var m := if c.isEndOfFile then |lines| - 1 else |lines|;
    assert all[..m] == lines[..m];
    BodyReads(all, m, c.isEndOfFile);
    LexAllHead(all);
    assert lines[..m][0] == all[0];
    KindOfLine(all[0]);
  }

  // ---------------------------------------------------------------------------
  // Chunks are read as they are said
  // ---------------------------------------------------------------------------

  lemma {:induction false} ChunkIsSaid(all: seq<Line>, first: bool, p: Parsed<Chunk>)
    requires |all| > 0 && ParseChunk(LexAll(all), first) == Ok(p)
    ensures 0 < p.consumed <= |all| && IsChunk(all[..p.consumed], p.value, first) && BodyEndsAt(p.value, all[p.consumed..])
  {
    HeadContext(all);
    if ContextOf(all[0]).Some? {
      ChunkIsSaidAfter(all, first, p);
    } else {
      BodyIsSaid(all, CheckedBody(LexAll(all)).value, None);
    }
  }

  lemma {:induction false} ChunkIsSaidAfter(all: seq<Line>, first: bool, p: Parsed<Chunk>)
    requires |all| > 0 && ContextOf(all[0]).Some?
    requires WithBody(ContextOf(all[0]).value, 1, CheckedBody(LexAll(all[1..]))) == Ok(p)
    ensures 0 < p.consumed <= |all| && IsChunk(all[..p.consumed], p.value, first) && BodyEndsAt(p.value, all[p.consumed..])
  {
    var b := CheckedBody(LexAll(all[1..])).value;
    BodyIsSaid(all[1..], b, ContextOf(all[0]).value);
    assert all[..1 + b.count][1..] == all[1..][..b.count] && all[1..][b.count..] == all[1 + b.count..];
  }

  lemma {:induction false} SaidChunkReads(lines: seq<Line>, c: Chunk, rest: seq<Line>, first: bool)
    requires IsChunk(lines, c, first) && BodyEndsAt(c, rest)
    ensures ParseChunk(LexAll(lines + rest), first) == Ok(Parsed(c, |lines|))
  {
    var all := lines + rest;
    HeadContext(all);
    assert all[0] == lines[0];
    if lines[0] == "@@" || "@@ " <= lines[0] {
      assert all[1..] == lines[1..] + rest;
      SaidBodyReads(lines[1..], c, rest);
    } else {
      SaidBodyReads(lines, c, rest);
    }
  }

  lemma {:induction false} StarsShow(line: Line)
    requires "***" <= line
    ensures Trim(line) != ""
  {
    TrimHead(line);
  }

  /** The chunks the parser reads from the lines. */
  function ChunksOf(lines: seq<Line>, first: bool): Result<Parsed<seq<Chunk>>, ParseError> {
    ParseChunks(LexAll(lines), first)
  }

  function ChunkOf(lines: seq<Line>, first: bool): Result<Parsed<Chunk>, ParseError>
    requires |lines| > 0
  {
    ParseChunk(LexAll(lines), first)
  }

  lemma {:induction false} ReadsBlank(lines: seq<Line>, first: bool)
    requires |lines| > 0 && Trim(lines[0]) == ""
    ensures ChunksOf(lines, first) == Advance([], 1, ChunksOf(lines[1..], first))
  {
    HeadShape(lines);
  }

  lemma {:induction false} ReadsNoMore(lines: seq<Line>, first: bool)
    requires HunkEndsAt(lines)
    ensures ChunksOf(lines, first) == Ok(Parsed([], 0))
  {
    if |lines| > 0 {
      HeadShape(lines);
      StarsShow(lines[0]);
    }
  }

  lemma {:induction false} ReadsChunk(lines: seq<Line>, first: bool)
    requires |lines| > 0 && Trim(lines[0]) != "" && !("***" <= lines[0])
    ensures ChunkOf(lines, first).Err? ==> ChunksOf(lines, first).Err?
    ensures ChunkOf(lines, first).Ok? ==>
              var c := ChunkOf(lines, first).value;
              ChunksOf(lines, first) == Advance([c.value], c.consumed, ChunksOf(lines[c.consumed..], false))
  {
    HeadShape(lines);
    if ChunkOf(lines, first).Ok? {
      LexAllDrop(lines, ChunkOf(lines, first).value.consumed);
    }
  }

  /** These lines are the chunks, and they end there. */
  ghost predicate SaidAs(all: seq<Line>, first: bool, cs: seq<Chunk>, n: nat) {
    n <= |all| && IsChunks(all[..n], cs, all[n..], first) && HunkEndsAt(all[n..])
  }

  lemma {:induction false} ChunksAreSaid(all: seq<Line>, first: bool, cs: seq<Chunk>, n: nat)
    requires ChunksOf(all, first) == Ok(Parsed(cs, n))
    ensures SaidAs(all, first, cs, n)
    decreases |all|
  {
    if HunkEndsAt(all) {
      ReadsNoMore(all, first);
    } else if Trim(all[0]) == "" {
      BlankIsSkipped(all, first, cs, n);
      ChunksAreSaid(all[1..], first, cs, n - 1);
      JoinsBlank(all, first, cs, n - 1);
    } else {
      var c := FirstIsChunk(all, first, cs, n);
      ChunksAreSaid(all[c.consumed..], false, cs[1..], n - c.consumed);
      JoinsChunks(all, first, c, cs, n);
    }
  }

  lemma {:induction false} BlankIsSkipped(all: seq<Line>, first: bool, cs: seq<Chunk>, n: nat)
    requires |all| > 0 && Trim(all[0]) == "" && ChunksOf(all, first) == Ok(Parsed(cs, n))
    ensures n > 0 && ChunksOf(all[1..], first) == Ok(Parsed(cs, n - 1))
  {
    ReadsBlank(all, first);
    var q := ChunksOf(all[1..], first).value;
    assert [] + q.value == q.value;
  }

  lemma {:induction false} FirstIsChunk(all: seq<Line>, first: bool, cs: seq<Chunk>, n: nat) returns (c: Parsed<Chunk>)
    requires !HunkEndsAt(all) && Trim(all[0]) != "" && ChunksOf(all, first) == Ok(Parsed(cs, n))
    ensures |cs| > 0 && cs[0] == c.value && 0 < c.consumed <= n && c.consumed <= |all| && ChunkOf(all, first) == Ok(c)
    ensures ChunksOf(all[c.consumed..], false) == Ok(Parsed(cs[1..], n - c.consumed))
  {
    ReadsChunk(all, first);
    c := ChunkOf(all, first).value;
    var q := ChunksOf(all[c.consumed..], false).value;
    assert ([c.value] + q.value)[1..] == q.value;
  }

  lemma {:induction false} JoinsBlank(all: seq<Line>, first: bool, cs: seq<Chunk>, n: nat)
    requires |all| > 0 && Trim(all[0]) == "" && SaidAs(all[1..], first, cs, n)
    ensures SaidAs(all, first, cs, n + 1)
  {
    assert all[..n + 1][1..] == all[1..][..n] && all[1..][n..] == all[n + 1..];
  }

  lemma {:induction false} JoinsChunks(all: seq<Line>, first: bool, c: Parsed<Chunk>, cs: seq<Chunk>, n: nat)
    requires |cs| > 0 && cs[0] == c.value && 0 < c.consumed <= n && c.consumed <= |all|
    requires Trim(all[0]) != "" && !("***" <= all[0]) && ChunkOf(all, first) == Ok(c)
    requires SaidAs(all[c.consumed..], false, cs[1..], n - c.consumed)
    ensures SaidAs(all, first, cs, n)
  {
    FirstIsSaid(all, first, c, n);
    var m := c.consumed;
    assert all[m..][..n - m] == all[..n][m..] && all[m..][n - m..] == all[n..];
  }

  lemma {:induction false} FirstIsSaid(all: seq<Line>, first: bool, c: Parsed<Chunk>, n: nat)
    requires 0 < c.consumed <= n <= |all| && ChunkOf(all, first) == Ok(c)
    ensures ChunkTo(all[..n], c.consumed, c.value, all[n..], first)
  {
    ChunkIsSaid(all, first, c);
    assert all[..n][..c.consumed] == all[..c.consumed] && all[..n][c.consumed..] + all[n..] == all[c.consumed..];
  }

  /** The parser reads these chunks and stops before `rest`. */
  predicate ReadAs(lines: seq<Line>, cs: seq<Chunk>, rest: seq<Line>, first: bool) {
    ChunksOf(lines + rest, first) == Ok(Parsed(cs, |lines|))
  }

  lemma {:induction false} SaidChunksRead(lines: seq<Line>, cs: seq<Chunk>, rest: seq<Line>, first: bool)
    requires IsChunks(lines, cs, rest, first) && HunkEndsAt(rest)
    ensures ReadAs(lines, cs, rest, first)
    decreases |lines|
  {
    if |lines| == 0 {
      assert lines + rest == rest;
      ReadsNoMore(rest, first);
    } else if Trim(lines[0]) == "" {
      SaidChunksRead(lines[1..], cs, rest, first);
      BlankReads(lines, cs, rest, first);
    } else {
      var n: nat :| ChunkTo(lines, n, cs[0], rest, first) && IsChunks(lines[n..], cs[1..], rest, false);
      SaidChunksRead(lines[n..], cs[1..], rest, false);
      FirstChunkReads(lines, n, cs, rest, first);
    }
  }

  lemma {:induction false} BlankReads(lines: seq<Line>, cs: seq<Chunk>, rest: seq<Line>, first: bool)
    requires |lines| > 0 && Trim(lines[0]) == "" && ReadAs(lines[1..], cs, rest, first)
    ensures ReadAs(lines, cs, rest, first)
  {
    ReadsBlank(lines + rest, first);
    assert (lines + rest)[1..] == lines[1..] + rest;
    assert [] + cs == cs;
  }

  lemma {:induction false} FirstChunkReads(lines: seq<Line>, n: nat, cs: seq<Chunk>, rest: seq<Line>, first: bool)
    requires |cs| > 0 && ChunkTo(lines, n, cs[0], rest, first) && Trim(lines[0]) != "" && !("***" <= lines[0])
    requires ReadAs(lines[n..], cs[1..], rest, false)
    ensures ReadAs(lines, cs, rest, first)
  {
    SaidFirstChunkReads(lines, n, cs[0], rest, first);
    assert (lines + rest)[n..] == lines[n..] + rest;
    ReadsChunk(lines + rest, first);
    assert [cs[0]] + cs[1..] == cs;
  }

  lemma {:induction false} SaidFirstChunkReads(lines: seq<Line>, n: nat, c: Chunk, rest: seq<Line>, first: bool)
    requires ChunkTo(lines, n, c, rest, first)
    ensures ChunkOf(lines + rest, first) == Ok(Parsed(c, n))
  {
    assert lines[..n] + (lines[n..] + rest) == lines + rest;
    SaidChunkReads(lines[..n], c, lines[n..] + rest, first);
  }

  // ---------------------------------------------------------------------------
  // Hunks are read as they are said
  // ---------------------------------------------------------------------------

  /** The number of added lines at the front. */
  function Pluses(lines: seq<Line>): (m: nat)
    ensures m <= |lines| && AllPlus(lines[..m]) && (m < |lines| ==> !("+" <= lines[m]))
  {
    if |lines| == 0 || !("+" <= lines[0]) then 0
    else
      var m := Pluses(lines[1..]);
      assert lines[..m + 1] == [lines[0]] + lines[1..][..m];
      1 + m
  }

  lemma {:induction false} AllPlusTail(line: Line, lines: seq<Line>)
    requires AllPlus([line] + lines)
    ensures AllPlus(lines)
  {
    assert forall k :: 0 <= k < |lines| ==> lines[k] == ([line] + lines)[k + 1];
  }

  lemma {:induction false} PlusesRead(lines: seq<Line>, m: nat)
    requires m <= |lines| && AllPlus(lines[..m]) && (m < |lines| ==> !("+" <= lines[m]))
    ensures PlusLines(LexAll(lines)) == m && AddedContents(LexAll(lines)) == PlusText(lines[..m])
    decreases m
  {
    if |lines| > 0 {
      HeadPlus(lines);
      if m > 0 {
        assert lines[..m][0] == lines[0];
        assert lines[..m] == [lines[0]] + lines[1..][..m - 1];
        AllPlusTail(lines[0], lines[1..][..m - 1]);
        PlusesRead(lines[1..], m - 1);
      }
    }
  }

  /** A trimmed header line shows its path, and which kind it is. */
  lemma {:induction false} HeaderShows(line: Line)
    ensures IntroOf(line).AddIntro? ==> line == ADD_FILE + IntroOf(line).path
    ensures IntroOf(line).DeleteIntro? ==> line == DELETE_FILE + IntroOf(line).path
    ensures IntroOf(line).UpdateIntro? ==> line == UPDATE_FILE + IntroOf(line).path
    ensures MoveOf(line).Some? ==> line == MOVE_TO + MoveOf(line).value
  {
  }

  lemma {:induction false} HeaderIs(line: Line, path: string)
    ensures line == ADD_FILE + path ==> IntroOf(line) == AddIntro(path)
    ensures line == DELETE_FILE + path ==> IntroOf(line) == DeleteIntro(path)
    ensures line == UPDATE_FILE + path ==> IntroOf(line) == UpdateIntro(path)
  {
    if line == DELETE_FILE + path {
      assert line[4] == DELETE_FILE[4] != ADD_FILE[4];
    } else if line == UPDATE_FILE + path {
      assert line[4] == UPDATE_FILE[4] && UPDATE_FILE[4] != ADD_FILE[4] && UPDATE_FILE[4] != DELETE_FILE[4];
    }
  }

  lemma {:induction false} MoveIs(line: Line, target: string)
    requires line == MOVE_TO + target
    ensures MoveOf(line) == Some(target)
  {
  }

  lemma {:induction false} AddIsSaid(all: seq<Line>, path: string)
    requires |all| > 0 && Trim(all[0]) == ADD_FILE + path
    ensures var n := 1 + PlusLines(LexAll(all[1..]));
            HunkTo(all, n, AddFile(path, AddedContents(LexAll(all[1..]))))
  {
    var m := Pluses(all[1..]);
    PlusesRead(all[1..], m);
    assert all[..1 + m][1..] == all[1..][..m];
    assert m < |all[1..]| ==> all[1 + m..][0] == all[1..][m];
  }

  lemma {:induction false} UpdateIsSaid(all: seq<Line>, path: string, p: Parsed<Hunk>)
    requires |all| > 0 && Trim(all[0]) == UPDATE_FILE + path && ParseUpdate(path, LexAll(all[1..])) == Ok(p)
    ensures HunkTo(all, p.consumed, p.value)
  {
    if |all| > 1 {
      HeadMove(all[1..]);
      assert all[1..][1..] == all[2..];
      if MoveOf(Trim(all[1])).Some? {
        HeaderShows(Trim(all[1]));
        MovedIsSaid(all, path, MoveOf(Trim(all[1])).value, p);
      } else {
        PlainIsSaid(all, path, p);
      }
    }
  }

  lemma {:induction false} MovedIsSaid(all: seq<Line>, path: string, target: string, p: Parsed<Hunk>)
    requires |all| > 1 && Trim(all[0]) == UPDATE_FILE + path && Trim(all[1]) == MOVE_TO + target
    requires WithChunks(path, Some(target), 2, ChunksOf(all[2..], true)) == Ok(p)
    ensures HunkTo(all, p.consumed, p.value)
  {
    var n := p.consumed;
    ChunksAreSaid(all[2..], true, p.value.chunks, n - 2);
    assert all[..n][2..] == all[2..][..n - 2] && all[2..][n - 2..] == all[n..];
  }

  lemma {:induction false} PlainIsSaid(all: seq<Line>, path: string, p: Parsed<Hunk>)
    requires |all| > 1 && Trim(all[0]) == UPDATE_FILE + path && MoveOf(Trim(all[1])).None?
    requires WithChunks(path, None, 1, ChunksOf(all[1..], true)) == Ok(p)
    ensures HunkTo(all, p.consumed, p.value)
  {
    var n := p.consumed;
    ChunksAreSaid(all[1..], true, p.value.chunks, n - 1);
    assert all[..n][1..] == all[1..][..n - 1] && all[1..][n - 1..] == all[n..];
    ChunksTakeALine(all[1..][..n - 1], p.value.chunks, all[n..], true);
  }

  lemma {:induction false} ChunksTakeALine(lines: seq<Line>, cs: seq<Chunk>, rest: seq<Line>, first: bool)
    requires IsChunks(lines, cs, rest, first) && |cs| > 0
    ensures |lines| > 0
  {
  }

  /** What the parser takes for a hunk is said by the lines it takes. */
  lemma {:induction false} HunkIsSaid(all: seq<Line>, p: Parsed<Hunk>)
    requires |all| > 0 && ParseOne(LexAll(all)) == Ok(p)
    ensures HunkTo(all, p.consumed, p.value)
  {
    HeadIntro(all);
    HeaderShows(Trim(all[0]));
    match IntroOf(Trim(all[0]))
    case AddIntro(path) => AddIsSaid(all, path);
    case DeleteIntro(path) =>
    case UpdateIntro(path) => UpdateIsSaid(all, path, p);
  }

  lemma {:induction false} SaidAddReads(lines: seq<Line>, h: Hunk, rest: seq<Line>)
    requires IsHunk(lines, h, rest) && h.AddFile?
    ensures ParseOne(LexAll(lines + rest)) == Ok(Parsed(h, |lines|))
  {
    var all := lines + rest;
    HeadIntro(all);
    HeaderIs(Trim(lines[0]), h.path);
    assert all[1..] == lines[1..] + rest && all[1..][..|lines| - 1] == lines[1..];
    PlusesRead(all[1..], |lines| - 1);
  }

  lemma {:induction false} UpdateReads(all: seq<Line>, path: string)
    requires |all| > 0 && Trim(all[0]) == UPDATE_FILE + path
    ensures ParseOne(LexAll(all)) == ParseUpdate(path, LexAll(all[1..]))
  {
    HeadIntro(all);
    HeaderIs(Trim(all[0]), path);
  }

  lemma {:induction false} MovedUpdate(lines: seq<Line>, path: string, target: string, r: Result<Parsed<seq<Chunk>>, ParseError>)
    requires |lines| > 0 && MoveOf(Trim(lines[0])) == Some(target) && ChunksOf(lines[1..], true) == r
    ensures ParseUpdate(path, LexAll(lines)) == WithChunks(path, Some(target), 2, r)
  {
    HeadMove(lines);
  }

  lemma {:induction false} PlainUpdate(lines: seq<Line>, path: string, r: Result<Parsed<seq<Chunk>>, ParseError>)
    requires |lines| > 0 && MoveOf(Trim(lines[0])).None? && ChunksOf(lines, true) == r
    ensures ParseUpdate(path, LexAll(lines)) == WithChunks(path, None, 1, r)
  {
    HeadMove(lines);
  }

  lemma {:induction false} MovedReads(all: seq<Line>, path: string, target: string, chunks: seq<Chunk>, n: nat)
    requires |all| > 1 && Trim(all[0]) == UPDATE_FILE + path && MoveOf(Trim(all[1])) == Some(target)
    requires |chunks| > 0 && ChunksOf(all[2..], true) == Ok(Parsed(chunks, n))
    ensures ParseOne(LexAll(all)) == Ok(Parsed(UpdateFile(path, Some(target), chunks), n + 2))
  {
    UpdateReads(all, path);
    assert all[1..][1..] == all[2..];
    MovedUpdate(all[1..], path, target, Ok(Parsed(chunks, n)));
  }

  lemma {:induction false} PlainReads(all: seq<Line>, path: string, chunks: seq<Chunk>, n: nat)
    requires |all| > 1 && Trim(all[0]) == UPDATE_FILE + path && MoveOf(Trim(all[1])).None?
    requires |chunks| > 0 && ChunksOf(all[1..], true) == Ok(Parsed(chunks, n))
    ensures ParseOne(LexAll(all)) == Ok(Parsed(UpdateFile(path, None, chunks), n + 1))
  {
    UpdateReads(all, path);
    PlainUpdate(all[1..], path, Ok(Parsed(chunks, n)));
  }

  lemma {:induction false} SaidChunksReadAt(lines: seq<Line>, i: nat, cs: seq<Chunk>, rest: seq<Line>)
    requires i <= |lines| && IsChunks(lines[i..], cs, rest, true) && HunkEndsAt(rest)
    ensures ChunksOf((lines + rest)[i..], true) == Ok(Parsed(cs, |lines| - i))
  {
    assert (lines + rest)[i..] == lines[i..] + rest;
    SaidChunksRead(lines[i..], cs, rest, true);
  }

  lemma {:induction false} SaidUpdateReads(lines: seq<Line>, h: Hunk, rest: seq<Line>)
    requires IsHunk(lines, h, rest) && h.UpdateFile?
    ensures ParseOne(LexAll(lines + rest)) == Ok(Parsed(h, |lines|))
  {
    var i := if h.movePath.Some? then 2 else 1;
    SaidChunksReadAt(lines, i, h.chunks, rest);
    if h.movePath.Some? {
      MoveIs(Trim(lines[1]), h.movePath.value);
      MovedReads(lines + rest, h.path, h.movePath.value, h.chunks, |lines| - 2);
    } else {
      PlainReads(lines + rest, h.path, h.chunks, |lines| - 1);
    }
  }

  /** Lines that say a hunk are taken for it, all of them. */
  lemma {:induction false} SaidHunkReads(lines: seq<Line>, h: Hunk, rest: seq<Line>)
    requires IsHunk(lines, h, rest)
    ensures ParseOne(LexAll(lines + rest)) == Ok(Parsed(h, |lines|))
  {
    match h
    case AddFile(_, _) => SaidAddReads(lines, h, rest);
    case DeleteFile(path) =>
      HeadIntro(lines + rest);
      HeaderIs(Trim(lines[0]), path);
    case UpdateFile(_, _, _) => SaidUpdateReads(lines, h, rest);
  }

  // ---------------------------------------------------------------------------
  // Patches are read as they are said
  // ---------------------------------------------------------------------------

  /** The hunks the parser reads from the lines between the markers. */
  function HunksOf(lines: seq<Line>): Result<seq<Hunk>, ParseError> {
    ParseHunks(LexAll(lines))
  }

  lemma {:induction false} ReadsHunk(lines: seq<Line>)
    requires |lines| > 0
    ensures var p := ParseOne(LexAll(lines));
            if p.Ok? then HunksOf(lines) == Front([p.value.value], HunksOf(lines[p.value.consumed..])) else HunksOf(lines).Err?
  {
    var p := ParseOne(LexAll(lines));
    if p.Ok? {
      LexAllDrop(lines, p.value.consumed);
    }
  }

  lemma {:induction false} PatchIsSaid(lines: seq<Line>, hs: seq<Hunk>)
    requires HunksOf(lines) == Ok(hs)
    ensures IsPatch(lines, hs)
    decreases |lines|
  {
    if |lines| > 0 {
      ReadsHunk(lines);
      var p := ParseOne(LexAll(lines)).value;
      HunkIsSaid(lines, p);
      assert ([p.value] + hs[1..])[1..] == hs[1..];
      PatchIsSaid(lines[p.consumed..], hs[1..]);
      assert HunkTo(lines, p.consumed, hs[0]);
    }
  }

  lemma {:induction false} SaidPatchReads(lines: seq<Line>, hs: seq<Hunk>)
    requires IsPatch(lines, hs)
    ensures HunksOf(lines) == Ok(hs)
    decreases |lines|
  {
    if |lines| > 0 {
      var n: nat :| HunkTo(lines, n, hs[0]) && IsPatch(lines[n..], hs[1..]);
      SaidPatchReads(lines[n..], hs[1..]);
      SaidFirstHunkReads(lines, n, hs[0]);
      HunkJoins(lines, n, hs);
    }
  }

  lemma {:induction false} SaidFirstHunkReads(lines: seq<Line>, n: nat, h: Hunk)
    requires HunkTo(lines, n, h)
    ensures ParseOne(LexAll(lines)) == Ok(Parsed(h, n))
  {
    assert lines[..n] + lines[n..] == lines;
    SaidHunkReads(lines[..n], h, lines[n..]);
  }

  lemma {:induction false} HunkJoins(lines: seq<Line>, n: nat, hs: seq<Hunk>)
    requires |hs| > 0 && 0 < n <= |lines| && ParseOne(LexAll(lines)) == Ok(Parsed(hs[0], n)) && HunksOf(lines[n..]) == Ok(hs[1..])
    ensures HunksOf(lines) == Ok(hs)
  {
    ReadsHunk(lines);
    assert [hs[0]] + hs[1..] == hs;
  }

  /** The parser returns these hunks exactly for the lines that say them, with no line left over. */
  lemma {:induction false} HunksReadIff(lines: seq<Line>, hs: seq<Hunk>)
    ensures ParseHunks(LexAll(lines)) == Ok(hs) <==> IsPatch(lines, hs)
  {
    if HunksOf(lines) == Ok(hs) {
      PatchIsSaid(lines, hs);
    }
    if IsPatch(lines, hs) {
      SaidPatchReads(lines, hs);
    }
  }

  lemma {:induction false} HeredocIsNoMarker(line: Line)
    requires IsHeredocStart(line)
    ensures Trim(line) != BEGIN_PATCH
  {
    TrimHead(line);
  }

  lemma {:induction false} EnclosedIffHolds(lines: seq<Line>, body: seq<Line>)
    requires |lines| > 0
    ensures Enclosed(lines).Ok? && Enclosed(lines).value[1..|Enclosed(lines).value| - 1] == body <==> Holds(lines, body)
  {
    if IsHeredocStart(lines[0]) {
      HeredocIsNoMarker(lines[0]);
    }
    if StrictError(lines).None? {
      EnclosedBoth(lines);
    }
  }

  /** The lines say the hunks, between markers and perhaps in a here-document. */
  ghost predicate Says(lines: seq<Line>, hs: seq<Hunk>) {
    exists body :: Holds(lines, body) && IsPatch(body, hs)
  }

  lemma {:induction false} BlankSaysNothing(hs: seq<Hunk>)
    ensures !Says(PatchLines(""), hs)
  {
  }

  lemma {:induction false} SaysIff(lines: seq<Line>, hs: seq<Hunk>)
    requires |lines| > 0
    ensures Says(lines, hs) <==>
            Enclosed(lines).Ok? && IsPatch(Enclosed(lines).value[1..|Enclosed(lines).value| - 1], hs)
  {
    if Says(lines, hs) {
      var body :| Holds(lines, body) && IsPatch(body, hs);
      EnclosedIffHolds(lines, body);
    }
    if Enclosed(lines).Ok? {
      EnclosedIffHolds(lines, Enclosed(lines).value[1..|Enclosed(lines).value| - 1]);
    }
  }

  /** Parsing a text succeeds with these hunks exactly when its lines say them. */
  lemma {:induction false} ParsesIff(input: string, hs: seq<Hunk>)
    ensures Parse(input) == Ok(hs) <==> Says(PatchLines(Trim(input)), hs)
  {
    if Trim(input) == "" {
      BlankSaysNothing(hs);
    } else {
      LinesParseIff(PatchLines(Trim(input)), hs);
    }
  }

  lemma {:induction false} LinesParseIff(lines: seq<Line>, hs: seq<Hunk>)
    requires |lines| > 0
    ensures Enclosed(lines).Ok? && HunksOf(Enclosed(lines).value[1..|Enclosed(lines).value| - 1]) == Ok(hs) <==> Says(lines, hs)
  {
    SaysIff(lines, hs);
    if Enclosed(lines).Ok? {
      HunksReadIff(Enclosed(lines).value[1..|Enclosed(lines).value| - 1], hs);
    }
  }

  // ---------------------------------------------------------------------------
  // No line is passed over
  // ---------------------------------------------------------------------------

  /** The lines the format has a use for. */
  predicate HasRole(line: Line) {
    || Trim(line) == "" || BodyLine(line) || line == END_OF_FILE || line == "@@" || "@@ " <= line
    || ADD_FILE <= Trim(line) || DELETE_FILE <= Trim(line) || UPDATE_FILE <= Trim(line) || MOVE_TO <= Trim(line)
  }

  lemma {:induction false} ChunkLinesHaveRoles(lines: seq<Line>, c: Chunk, first: bool, k: nat)
    requires IsChunk(lines, c, first) && k < |lines|
    ensures HasRole(lines[k])
  {
    if lines[0] == "@@" || "@@ " <= lines[0] {
      if k > 0 {
        BodyLinesHaveRoles(lines[1..], c, k - 1);
      }
    } else {
      BodyLinesHaveRoles(lines, c, k);
    }
  }

  lemma {:induction false} BodyLinesHaveRoles(lines: seq<Line>, c: Chunk, k: nat)
    requires IsBody(lines, c) && k < |lines|
    ensures HasRole(lines[k])
  {
    var n := if c.isEndOfFile then |lines| - 1 else |lines|;
    assert k < n ==> lines[..n][k] == lines[k];
  }

  lemma {:induction false} ChunksLinesHaveRoles(lines: seq<Line>, cs: seq<Chunk>, rest: seq<Line>, first: bool, k: nat)
    requires IsChunks(lines, cs, rest, first) && k < |lines|
    ensures HasRole(lines[k])
    decreases |lines|
  {
    if Trim(lines[0]) == "" {
      if k > 0 {
        ChunksLinesHaveRoles(lines[1..], cs, rest, first, k - 1);
      }
    } else {
      var n: nat :| ChunkTo(lines, n, cs[0], rest, first) && IsChunks(lines[n..], cs[1..], rest, false);
      if k < n {
        ChunkLinesHaveRoles(lines[..n], cs[0], first, k);
      } else {
        ChunksLinesHaveRoles(lines[n..], cs[1..], rest, false, k - n);
      }
    }
  }

  lemma {:induction false} HunkLinesHaveRoles(lines: seq<Line>, h: Hunk, rest: seq<Line>, k: nat)
    requires IsHunk(lines, h, rest) && k < |lines|
    ensures HasRole(lines[k])
  {
    if k > 0 {
      match h
      case AddFile(_, _) => assert lines[1..][k - 1] == lines[k];
      case DeleteFile(_) =>
      case UpdateFile(_, movePath, chunks) =>
        if movePath.Some? {
          if k > 1 {
            ChunksLinesHaveRoles(lines[2..], chunks, rest, true, k - 2);
          }
        } else {
          ChunksLinesHaveRoles(lines[1..], chunks, rest, true, k - 1);
        }
    }
  }

  lemma {:induction false} PatchLinesHaveRoles(lines: seq<Line>, hs: seq<Hunk>, k: nat)
    requires IsPatch(lines, hs) && k < |lines|
    ensures HasRole(lines[k])
    decreases |lines|
  {
    var n: nat :| HunkTo(lines, n, hs[0]) && IsPatch(lines[n..], hs[1..]);
    if k < n {
      HunkLinesHaveRoles(lines[..n], hs[0], lines[n..], k);
    } else {
      PatchLinesHaveRoles(lines[n..], hs[1..], k - n);
    }
  }

  /** A line the format has no use for makes the whole text an error, wherever it stands. */
  lemma {:induction false} StrayLineIsRejected(input: string, body: seq<Line>, k: nat)
    requires Holds(PatchLines(Trim(input)), body) && k < |body| && !HasRole(body[k])
    ensures Parse(input).Err?
  {
    if Parse(input).Ok? {
      ParsesIff(input, Parse(input).value);
      SaysIff(PatchLines(Trim(input)), Parse(input).value);
      EnclosedIffHolds(PatchLines(Trim(input)), body);
      PatchLinesHaveRoles(body, Parse(input).value, k);
    }
  }
}
