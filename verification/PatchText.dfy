/** The parser of the "*** Begin Patch" format (src/agents/apply-patch.ts): lines become tokens, a grammar over
    the tokens says what hunks they stand for and how many lines each of them takes, and the loops of the
    source, which look at the lines themselves, are proved against that grammar. */
module PatchText {
  import opened Wrappers
  import opened Sequences
  import opened Text
  import opened ApplyPatchUpdate

  const BEGIN_PATCH := "*** Begin Patch"
  const END_PATCH := "*** End Patch"
  const ADD_FILE := "*** Add File: "
  const DELETE_FILE := "*** Delete File: "
  const UPDATE_FILE := "*** Update File: "
  const MOVE_TO := "*** Move to: "
  const END_OF_FILE := "*** End of File"
  const CONTEXT := "@@ "
  const NO_CONTEXT := "@@"

  datatype Hunk =
    | AddFile(path: string, contents: string)
    | DeleteFile(path: string)
    | UpdateFile(path: string, movePath: Option<string>, chunks: seq<Chunk>)

  datatype ParseError =
    | EmptyInput | BadFirstLine | BadLastLine | BadHeader | EmptyUpdate | MissingContext | NoChunkLines | UnexpectedLine

  datatype Parsed<T> = Parsed(value: T, consumed: nat)

  // ---------------------------------------------------------------------------
  // What the parser sees in a line
  // ---------------------------------------------------------------------------

  /** A line inside a chunk: kept, removed or added text, the end-of-file marker, or neither. */
  datatype BodyKind = Kept(text: Line) | Removed(text: Line) | Added(text: Line) | EndMark | Foreign

  datatype Intro = AddIntro(path: string) | DeleteIntro(path: string) | UpdateIntro(path: string) | NoIntro

  /** The outcome of every test the parser makes on a single line. */
  datatype Token = Token(
    blank: bool, stars: bool, context: Option<Option<Line>>, kind: BodyKind, intro: Intro, move: Option<string>)

  function KindOf(line: Line): BodyKind {
    if line == END_OF_FILE then EndMark
    else if line == "" then Kept("")
    else if line[0] == ' ' then Kept(line[1..])
    else if line[0] == '+' then Added(line[1..])
    else if line[0] == '-' then Removed(line[1..])
    else Foreign
  }

  function ContextOf(line: Line): Option<Option<Line>> {
    if line == NO_CONTEXT then Some(None)
    else if CONTEXT <= line then Some(Some(line[|CONTEXT|..]))
    else None
  }

  function IntroOf(trimmed: Line): Intro {
    if ADD_FILE <= trimmed then AddIntro(trimmed[|ADD_FILE|..])
    else if DELETE_FILE <= trimmed then DeleteIntro(trimmed[|DELETE_FILE|..])
    else if UPDATE_FILE <= trimmed then UpdateIntro(trimmed[|UPDATE_FILE|..])
    else NoIntro
  }

  function MoveOf(trimmed: Line): Option<string> {
    if MOVE_TO <= trimmed then Some(trimmed[|MOVE_TO|..]) else None
  }

  function Lex(line: Line): Token {
    Token(Trim(line) == "", "***" <= line, ContextOf(line), KindOf(line), IntroOf(Trim(line)), MoveOf(Trim(line)))
  }

  function LexAll(lines: seq<Line>): (r: seq<Token>)
    ensures |r| == |lines|
  {
    if |lines| == 0 then [] else [Lex(lines[0])] + LexAll(lines[1..])
  }

  lemma {:induction false} LexAllDrop(lines: seq<Line>, n: nat)
    requires n <= |lines|
    ensures LexAll(lines)[n..] == LexAll(lines[n..])
  {
    if n > 0 {
      LexAllDrop(lines[1..], n - 1);
      assert lines[1..][n - 1..] == lines[n..];
      assert LexAll(lines)[n..] == LexAll(lines[1..])[n - 1..];
    }
  }

  lemma {:induction false} LexAllHead(lines: seq<Line>)
    requires |lines| > 0
    ensures LexAll(lines)[0] == Lex(lines[0]) && LexAll(lines)[1..] == LexAll(lines[1..])
  {
  }

  lemma {:induction false} LexAllConcat(a: seq<Line>, b: seq<Line>)
    ensures LexAll(a + b) == LexAll(a) + LexAll(b)
  {
    if |a| == 0 {
      assert a + b == b;
    } else {
      assert (a + b)[0] == a[0] && (a + b)[1..] == a[1..] + b;
      LexAllConcat(a[1..], b);
      assert LexAll(a + b) == [Lex(a[0])] + (LexAll(a[1..]) + LexAll(b));
    }
  }

  // ---------------------------------------------------------------------------
  // The grammar
  // ---------------------------------------------------------------------------

  datatype Body = Body(oldLines: seq<Line>, newLines: seq<Line>, isEndOfFile: bool, count: nat)

  function OldPart(kind: BodyKind): seq<Line> {
    match kind case Kept(t) => [t] case Removed(t) => [t] case _ => []
  }

  function NewPart(kind: BodyKind): seq<Line> {
    match kind case Kept(t) => [t] case Added(t) => [t] case _ => []
  }

  /** Body lines up to the first foreign line; an end-of-file marker is taken along. */
  function BodyOf(toks: seq<Token>): (b: Body)
    ensures b.count <= |toks|
  {
    if |toks| == 0 || toks[0].kind.Foreign? then Body([], [], false, 0)
    else if toks[0].kind.EndMark? then Body([], [], true, 1)
    else
      var rest := BodyOf(toks[1..]);
      Body(OldPart(toks[0].kind) + rest.oldLines, NewPart(toks[0].kind) + rest.newLines, rest.isEndOfFile, rest.count + 1)
  }

  /** A body must have at least one line of its own. */
  function CheckedBody(toks: seq<Token>): (r: Result<Body, ParseError>)
    ensures r.Ok? ==> 1 <= r.value.count <= |toks|
  {
    if |toks| == 0 || toks[0].kind.EndMark? then Err(NoChunkLines)
    else if toks[0].kind.Foreign? then Err(UnexpectedLine)
    else Ok(BodyOf(toks))
  }

  function WithBody(context: Option<Line>, header: nat, body: Result<Body, ParseError>): Result<Parsed<Chunk>, ParseError> {
    match body
    case Err(e) => Err(e)
    case Ok(b) => Ok(Parsed(Chunk(context, b.oldLines, b.newLines, b.isEndOfFile), header + b.count))
  }

  function ParseChunk(toks: seq<Token>, allowMissingContext: bool): (r: Result<Parsed<Chunk>, ParseError>)
    requires |toks| > 0
    ensures r.Ok? ==> 1 <= r.value.consumed <= |toks|
  {
    match toks[0].context
    case Some(context) => WithBody(context, 1, CheckedBody(toks[1..]))
    case None => if allowMissingContext then WithBody(None, 0, CheckedBody(toks)) else Err(MissingContext)
  }

  function Advance<T>(front: seq<T>, consumed: nat, r: Result<Parsed<seq<T>>, ParseError>): Result<Parsed<seq<T>>, ParseError> {
    match r case Err(e) => Err(e) case Ok(p) => Ok(Parsed(front + p.value, consumed + p.consumed))
  }

  /** Chunks up to the next line that begins with `***`; blank lines between chunks are skipped. */
  function ParseChunks(toks: seq<Token>, first: bool): (r: Result<Parsed<seq<Chunk>>, ParseError>)
    ensures r.Ok? ==> r.value.consumed <= |toks|
    decreases |toks|
  {
    if |toks| == 0 then Ok(Parsed([], 0))
    else if toks[0].blank then Advance([], 1, ParseChunks(toks[1..], first))
    else if toks[0].stars then Ok(Parsed([], 0))
    else match ParseChunk(toks, first)
      case Err(e) => Err(e)
      case Ok(p) => Advance([p.value], p.consumed, ParseChunks(toks[p.consumed..], false))
  }

  function PlusLines(toks: seq<Token>): (n: nat)
    ensures n <= |toks|
  {
    if |toks| > 0 && toks[0].kind.Added? then 1 + PlusLines(toks[1..]) else 0
  }

  /** The contents of an added file: every line without its marker, with a newline. */
  function AddedContents(toks: seq<Token>): string {
    if |toks| > 0 && toks[0].kind.Added? then toks[0].kind.text + [NL] + AddedContents(toks[1..]) else ""
  }

  function WithChunks(path: string, movePath: Option<string>, before: nat, r: Result<Parsed<seq<Chunk>>, ParseError>): Result<Parsed<Hunk>, ParseError> {
    match r
    case Err(e) => Err(e)
    case Ok(p) =>
      if |p.value| == 0 then Err(EmptyUpdate)
      else Ok(Parsed(UpdateFile(path, movePath, p.value), before + p.consumed))
  }

  function ParseUpdate(path: string, toks: seq<Token>): (r: Result<Parsed<Hunk>, ParseError>)
    ensures r.Ok? ==> 1 <= r.value.consumed <= 1 + |toks|
  {
    if |toks| > 0 && toks[0].move.Some? then WithChunks(path, toks[0].move, 2, ParseChunks(toks[1..], true))
    else WithChunks(path, None, 1, ParseChunks(toks, true))
  }

  function ParseOne(toks: seq<Token>): (r: Result<Parsed<Hunk>, ParseError>)
    requires |toks| > 0
    ensures r.Ok? ==> 1 <= r.value.consumed <= |toks|
  {
    match toks[0].intro
    case AddIntro(path) => Ok(Parsed(AddFile(path, AddedContents(toks[1..])), 1 + PlusLines(toks[1..])))
    case DeleteIntro(path) => Ok(Parsed(DeleteFile(path), 1))
    case UpdateIntro(path) => ParseUpdate(path, toks[1..])
    case NoIntro => Err(BadHeader)
  }

  function Front<T, E>(front: seq<T>, r: Result<seq<T>, E>): Result<seq<T>, E> {
    match r case Err(e) => Err(e) case Ok(xs) => Ok(front + xs)
  }

  function ParseHunks(toks: seq<Token>): Result<seq<Hunk>, ParseError>
    decreases |toks|
  {
    if |toks| == 0 then Ok([])
    else match ParseOne(toks)
      case Err(e) => Err(e)
      case Ok(p) => Front([p.value], ParseHunks(toks[p.consumed..]))
  }

  // ---------------------------------------------------------------------------
  // The envelope
  // ---------------------------------------------------------------------------

  function WithoutCr(line: Line): Line {
    if |line| > 0 && line[|line| - 1] == '\r' then line[..|line| - 1] else line
  }

  /** All lines but the last lose one carriage return before the newline. */
  function DropCrs(ls: seq<Line>): (r: seq<Line>)
    ensures |r| == |ls|
  {
    if |ls| <= 1 then ls else [WithoutCr(ls[0])] + DropCrs(ls[1..])
  }

  /** `text.split(/\r?\n/)`. */
  function PatchLines(text: string): (r: seq<Line>)
    ensures |r| >= 1
  {
    DropCrs(Split(text))
  }

  function StrictError(lines: seq<Line>): Option<ParseError>
    requires |lines| > 0
  {
    if Trim(lines[0]) != BEGIN_PATCH then Some(BadFirstLine)
    else if Trim(lines[|lines| - 1]) != END_PATCH then Some(BadLastLine)
    else None
  }

  predicate IsHeredocStart(line: Line) {
    line == "<<EOF" || line == "<<'EOF'" || line == "<<\"EOF\""
  }

  predicate EndsWithEof(line: Line) {
    |line| >= 3 && line[|line| - 3..] == "EOF"
  }

  /** The lines with their markers, out of the `<<EOF` wrapping when there is one. */
  function Enclosed(lines: seq<Line>): (r: Result<seq<Line>, ParseError>)
    requires |lines| > 0
    ensures r.Ok? ==> |r.value| >= 2
  {
    match StrictError(lines)
    case None => EnclosedBoth(lines); Ok(lines)
    case Some(e) =>
      if |lines| >= 4 && IsHeredocStart(lines[0]) && EndsWithEof(lines[|lines| - 1]) then
        var inner := lines[1..|lines| - 1];
        match StrictError(inner) case None => Ok(inner) case Some(innerError) => Err(innerError)
      else Err(e)
  }

  lemma {:induction false} EnclosedBoth(lines: seq<Line>)
    requires |lines| > 0 && StrictError(lines).None?
    ensures |lines| >= 2
  {
    assert BEGIN_PATCH[4] != END_PATCH[4];
  }

  /** What `parsePatchText` returns. */
  function Parse(input: string): Result<seq<Hunk>, ParseError> {
    var trimmed := Trim(input);
    if trimmed == "" then Err(EmptyInput)
    else match Enclosed(PatchLines(trimmed))
      case Err(e) => Err(e)
      case Ok(lines) => ParseHunks(LexAll(lines[1..|lines| - 1]))
  }

  // ---------------------------------------------------------------------------
  // The parsing loops
  // ---------------------------------------------------------------------------

  function Continue(oldLines: seq<Line>, newLines: seq<Line>, count: nat, rest: Body): Body {
    Body(oldLines + rest.oldLines, newLines + rest.newLines, rest.isEndOfFile, count + rest.count)
  }

  lemma {:induction false} ContinueTwice(oldLines: seq<Line>, newLines: seq<Line>, count: nat, kind: BodyKind, rest: Body)
    ensures Continue(oldLines, newLines, count,
                     Body(OldPart(kind) + rest.oldLines, NewPart(kind) + rest.newLines, rest.isEndOfFile, rest.count + 1))
         == Continue(oldLines + OldPart(kind), newLines + NewPart(kind), count + 1, rest)
  {
    assert oldLines + (OldPart(kind) + rest.oldLines) == oldLines + OldPart(kind) + rest.oldLines;
    assert newLines + (NewPart(kind) + rest.newLines) == newLines + NewPart(kind) + rest.newLines;
  }

  lemma {:induction false} ContinueEnd(oldLines: seq<Line>, newLines: seq<Line>, count: nat, eof: bool, last: nat)
    ensures Continue(oldLines, newLines, count, Body([], [], eof, last)) == Body(oldLines, newLines, eof, count + last)
  {
    assert oldLines + [] == oldLines && newLines + [] == newLines;
  }

  /** The pushes the marker of one body line calls for. */
  method PushLine(oldLines: seq<Line>, newLines: seq<Line>, line: Line) returns (o: seq<Line>, n: seq<Line>)
    requires !KindOf(line).EndMark? && !KindOf(line).Foreign?
    ensures o == oldLines + OldPart(KindOf(line)) && n == newLines + NewPart(KindOf(line))
  {
    o, n := oldLines, newLines;
    if line == "" {
      o, n := o + [""], n + [""];
    } else if line[0] == ' ' {
      o, n := o + [line[1..]], n + [line[1..]];
    } else if line[0] == '+' {
      n := n + [line[1..]];
    } else {
      o := o + [line[1..]];
    }
  }

  lemma {:induction false} HeadKind(lines: seq<Line>)
    requires |lines| > 0
    ensures LexAll(lines)[0].kind == KindOf(lines[0]) && LexAll(lines)[1..] == LexAll(lines[1..])
  {
  }

  /** The whole body, when the first `n` tokens have given these lines. */
  function BodySoFar(oldLines: seq<Line>, newLines: seq<Line>, n: nat, toks: seq<Token>): Body
    requires n <= |toks|
  {
    Continue(oldLines, newLines, n, BodyOf(toks[n..]))
  }

  lemma {:induction false} BodyEnds(oldLines: seq<Line>, newLines: seq<Line>, n: nat, toks: seq<Token>)
    requires n == |toks| || (n < |toks| && toks[n].kind.Foreign?)
    ensures BodySoFar(oldLines, newLines, n, toks) == Body(oldLines, newLines, false, n)
  {
    ContinueEnd(oldLines, newLines, n, false, 0);
  }

  lemma {:induction false} BodyMarked(oldLines: seq<Line>, newLines: seq<Line>, n: nat, toks: seq<Token>)
    requires n < |toks| && toks[n].kind.EndMark?
    ensures BodySoFar(oldLines, newLines, n, toks) == Body(oldLines, newLines, true, n + 1)
  {
    ContinueEnd(oldLines, newLines, n, true, 1);
  }

  lemma {:induction false} BodyGoesOn(oldLines: seq<Line>, newLines: seq<Line>, n: nat, toks: seq<Token>)
    requires n < |toks| && !toks[n].kind.Foreign? && !toks[n].kind.EndMark?
    ensures BodySoFar(oldLines, newLines, n, toks)
         == BodySoFar(oldLines + OldPart(toks[n].kind), newLines + NewPart(toks[n].kind), n + 1, toks)
  {
    assert toks[n..][1..] == toks[n + 1..];
    ContinueTwice(oldLines, newLines, n, toks[n].kind, BodyOf(toks[n + 1..]));
  }

  lemma {:induction false} BodyStarts(toks: seq<Token>)
    ensures BodySoFar([], [], 0, toks) == BodyOf(toks)
  {
    assert toks[0..] == toks;
    ContinueStart(BodyOf(toks));
  }

  lemma {:induction false} KindAt(lines: seq<Line>, n: nat)
    requires n < |lines|
    ensures LexAll(lines)[n].kind == KindOf(lines[n])
    ensures KindOf(lines[n]).EndMark? <==> lines[n] == END_OF_FILE
    ensures KindOf(lines[n]).Foreign? <==>
            lines[n] != END_OF_FILE && lines[n] != "" && lines[n][0] != ' ' && lines[n][0] != '+' && lines[n][0] != '-'
  {
    LexAllDrop(lines, n);
    HeadKind(lines[n..]);
  }

  /** The line loop of `parseUpdateFileChunk`: one line after the other until a foreign one. */
  method ParseBodyLoop(lines: seq<Line>, ghost toks: seq<Token>) returns (r: Result<Body, ParseError>)
    requires toks == LexAll(lines)
    ensures r == CheckedBody(toks)
  {
    var oldLines: seq<Line>, newLines: seq<Line>, parsedLines := [], [], 0;
    BodyStarts(toks);
    while parsedLines < |lines|
      invariant parsedLines <= |lines|
      invariant parsedLines > 0 ==> !toks[0].kind.EndMark? && !toks[0].kind.Foreign?
      invariant BodyOf(toks) == BodySoFar(oldLines, newLines, parsedLines, toks)
    {
      var line := lines[parsedLines];
      KindAt(lines, parsedLines);
      if line == END_OF_FILE {
        if parsedLines == 0 {
          return Err(NoChunkLines);
        }
        BodyMarked(oldLines, newLines, parsedLines, toks);
        return Ok(Body(oldLines, newLines, true, parsedLines + 1));
      }
      if line != "" && line[0] != ' ' && line[0] != '+' && line[0] != '-' {
        if parsedLines == 0 {
          return Err(UnexpectedLine);
        }
        BodyEnds(oldLines, newLines, parsedLines, toks);
        return Ok(Body(oldLines, newLines, false, parsedLines));
      }
      BodyGoesOn(oldLines, newLines, parsedLines, toks);
      oldLines, newLines := PushLine(oldLines, newLines, line);
      parsedLines := parsedLines + 1;
    }
    if parsedLines == 0 {
      return Err(NoChunkLines);
    }
    BodyEnds(oldLines, newLines, parsedLines, toks);
    return Ok(Body(oldLines, newLines, false, parsedLines));
  }

  lemma {:induction false} ContinueStart(rest: Body)
    ensures Continue([], [], 0, rest) == rest
  {
  }

  lemma {:induction false} HeadContext(lines: seq<Line>)
    requires |lines| > 0
    ensures LexAll(lines)[0].context == ContextOf(lines[0]) && LexAll(lines)[1..] == LexAll(lines[1..])
  {
  }

  /** `parseUpdateFileChunk`: the `@@` line, then the body. */
  method ParseUpdateFileChunk(lines: seq<Line>, allowMissingContext: bool, ghost toks: seq<Token>) returns (r: Result<Parsed<Chunk>, ParseError>)
    requires |lines| > 0 && toks == LexAll(lines)
    ensures r == ParseChunk(toks, allowMissingContext)
  {
    HeadContext(lines);
    var changeContext: Option<Line> := None;
    var startIndex := 0;
    if lines[0] == NO_CONTEXT {
      startIndex := 1;
    } else if CONTEXT <= lines[0] {
      changeContext := Some(lines[0][|CONTEXT|..]);
      startIndex := 1;
    } else if !allowMissingContext {
      return Err(MissingContext);
    }
    assert lines[0..] == lines && toks[0..] == toks;
    var body := ParseBodyLoop(lines[startIndex..], toks[startIndex..]);
    if body.Err? {
      return Err(body.error);
    }
    var b := body.value;
    return Ok(Parsed(Chunk(changeContext, b.oldLines, b.newLines, b.isEndOfFile), startIndex + b.count));
  }

  lemma {:induction false} AdvanceTwice<T>(a: seq<T>, m: nat, b: seq<T>, n: nat, r: Result<Parsed<seq<T>>, ParseError>)
    ensures Advance(a, m, Advance(b, n, r)) == Advance(a + b, m + n, r)
  {
    if r.Ok? {
      assert a + (b + r.value.value) == a + b + r.value.value;
    }
  }

  lemma {:induction false} AdvanceEnds(chunks: seq<Chunk>, consumed: nat, r: Result<Parsed<seq<Chunk>>, ParseError>)
    ensures Advance([], 0, r) == r
    ensures Advance(chunks, consumed, Ok(Parsed([], 0))) == Ok(Parsed(chunks, consumed))
    ensures Advance(chunks, consumed, Advance([], 1, r)) == Advance(chunks, consumed + 1, r)
  {
    AdvanceTwice(chunks, consumed, [], 1, r);
    assert chunks + [] == chunks;
    if r.Ok? {
      assert [] + r.value.value == r.value.value;
    }
  }

  lemma {:induction false} HeadShape(lines: seq<Line>)
    requires |lines| > 0
    ensures LexAll(lines)[0].blank == (Trim(lines[0]) == "") && LexAll(lines)[0].stars == ("***" <= lines[0])
    ensures LexAll(lines)[1..] == LexAll(lines[1..])
  {
  }

  /** The result of the chunk loop when `chunks` have been read and `toks` remain. */
  function Remaining(chunks: seq<Chunk>, consumed: nat, toks: seq<Token>, first: bool): Result<Parsed<seq<Chunk>>, ParseError> {
    Advance(chunks, consumed, ParseChunks(toks, first))
  }

  lemma {:induction false} ChunkRound(toks: seq<Token>, first: bool, chunks: seq<Chunk>, consumed: nat, p: Parsed<Chunk>)
    requires |toks| > 0 && !toks[0].blank && !toks[0].stars && ParseChunk(toks, first) == Ok(p)
    ensures Remaining(chunks, consumed, toks, first)
            == Remaining(chunks + [p.value], consumed + p.consumed, toks[p.consumed..], false)
  {
    AdvanceTwice(chunks, consumed, [p.value], p.consumed, ParseChunks(toks[p.consumed..], false));
  }

  lemma {:induction false} BlankRound(toks: seq<Token>, first: bool, chunks: seq<Chunk>, consumed: nat)
    requires |toks| > 0 && toks[0].blank
    ensures Remaining(chunks, consumed, toks, first) == Remaining(chunks, consumed + 1, toks[1..], first)
  {
    AdvanceEnds(chunks, consumed, ParseChunks(toks[1..], first));
  }

  lemma {:induction false} ChunkFails(toks: seq<Token>, first: bool, chunks: seq<Chunk>, consumed: nat, e: ParseError)
    requires |toks| > 0 && !toks[0].blank && !toks[0].stars && ParseChunk(toks, first) == Err(e)
    ensures Remaining(chunks, consumed, toks, first) == Err(e)
  {
  }

  lemma {:induction false} ChunksStop(toks: seq<Token>, first: bool, chunks: seq<Chunk>, consumed: nat)
    requires |toks| == 0 || (!toks[0].blank && toks[0].stars)
    ensures Remaining(chunks, consumed, toks, first) == Ok(Parsed(chunks, consumed))
  {
    AdvanceEnds(chunks, consumed, Err(NoChunkLines));
  }

  lemma {:induction false} ChunksStart(toks: seq<Token>, first: bool)
    ensures Remaining([], 0, toks, first) == ParseChunks(toks, first)
  {
    AdvanceEnds([], 0, ParseChunks(toks, first));
  }

  /** The same in terms of the lines that remain. */
  function Left(chunks: seq<Chunk>, consumed: nat, lines: seq<Line>, first: bool): Result<Parsed<seq<Chunk>>, ParseError> {
    Remaining(chunks, consumed, LexAll(lines), first)
  }

  lemma {:induction false} BlankLine(lines: seq<Line>, first: bool, chunks: seq<Chunk>, consumed: nat)
    requires |lines| > 0 && Trim(lines[0]) == ""
    ensures Left(chunks, consumed, lines, first) == Left(chunks, consumed + 1, lines[1..], first)
  {
    HeadShape(lines);
    BlankRound(LexAll(lines), first, chunks, consumed);
  }

  lemma {:induction false} LinesStop(lines: seq<Line>, first: bool, chunks: seq<Chunk>, consumed: nat)
    requires |lines| == 0 || (Trim(lines[0]) != "" && "***" <= lines[0])
    ensures Left(chunks, consumed, lines, first) == Ok(Parsed(chunks, consumed))
  {
    if |lines| > 0 {
      HeadShape(lines);
    }
    ChunksStop(LexAll(lines), first, chunks, consumed);
  }

  lemma {:induction false} ChunkRead(lines: seq<Line>, first: bool, chunks: seq<Chunk>, consumed: nat, p: Parsed<Chunk>)
    requires |lines| > 0 && Trim(lines[0]) != "" && !("***" <= lines[0]) && ParseChunk(LexAll(lines), first) == Ok(p)
    ensures Left(chunks, consumed, lines, first)
         == Left(chunks + [p.value], consumed + p.consumed, lines[p.consumed..], false)
  {
    HeadShape(lines);
    ChunkRound(LexAll(lines), first, chunks, consumed, p);
    LexAllDrop(lines, p.consumed);
  }

  lemma {:induction false} FailingChunkRead(lines: seq<Line>, first: bool, chunks: seq<Chunk>, consumed: nat, e: ParseError)
    requires |lines| > 0 && Trim(lines[0]) != "" && !("***" <= lines[0]) && ParseChunk(LexAll(lines), first) == Err(e)
    ensures Left(chunks, consumed, lines, first) == Err(e)
  {
    HeadShape(lines);
    ChunkFails(LexAll(lines), first, chunks, consumed, e);
  }

  /** A round of the loop that reads a chunk. */
  method ParseNextChunk(remaining: seq<Line>, first: bool, ghost chunks: seq<Chunk>, ghost consumed: nat)
    returns (p: Result<Parsed<Chunk>, ParseError>)
    requires |remaining| > 0 && Trim(remaining[0]) != "" && !("***" <= remaining[0])
    ensures p.Err? ==> Left(chunks, consumed, remaining, first) == Err(p.error)
    ensures p.Ok? ==>
              && 0 < p.value.consumed <= |remaining|
              && Left(chunks, consumed, remaining, first)
                 == Left(chunks + [p.value.value], consumed + p.value.consumed, remaining[p.value.consumed..], false)
  {
    p := ParseUpdateFileChunk(remaining, first, LexAll(remaining));
    if p.Err? {
      FailingChunkRead(remaining, first, chunks, consumed, p.error);
    } else {
      ChunkRead(remaining, first, chunks, consumed, p.value);
    }
  }

  /** The chunk loop of `parseOneHunk`, over the lines that remain after the header; `first` stands
      for `chunks.length === 0`. */
  method ParseChunkLoop(lines: seq<Line>, ghost toks: seq<Token>) returns (r: Result<Parsed<seq<Chunk>>, ParseError>)
    requires toks == LexAll(lines)
    ensures r == ParseChunks(toks, true)
  {
    ChunksStart(toks, true);
    r := ParseChunksFrom(lines);
  }

  method ParseChunksFrom(lines: seq<Line>) returns (r: Result<Parsed<seq<Chunk>>, ParseError>)
    ensures r == Left([], 0, lines, true)
  {
    var remaining, consumed, chunks: seq<Chunk>, first := lines, 0, [], true;
    while |remaining| > 0
      invariant consumed + |remaining| == |lines|
      invariant Left([], 0, lines, true) == Left(chunks, consumed, remaining, first)
      decreases |remaining|
    {
      if Trim(remaining[0]) == "" {
        BlankLine(remaining, first, chunks, consumed);
        remaining, consumed := remaining[1..], consumed + 1;
        continue;
      }
      if "***" <= remaining[0] {
        break;
      }
      var p := ParseNextChunk(remaining, first, chunks, consumed);
      if p.Err? {
        return Err(p.error);
      }
      chunks, first := chunks + [p.value.value], false;
      consumed, remaining := consumed + p.value.consumed, remaining[p.value.consumed..];
    }
    LinesStop(remaining, first, chunks, consumed);
    return Ok(Parsed(chunks, consumed));
  }

  lemma {:induction false} HeadPlus(lines: seq<Line>)
    requires |lines| > 0
    ensures "+" <= lines[0] <==> LexAll(lines)[0].kind.Added?
    ensures "+" <= lines[0] ==> LexAll(lines)[0].kind.text == lines[0][1..]
    ensures LexAll(lines)[1..] == LexAll(lines[1..])
  {
    HeadKind(lines);
    PlusIsAdded(lines[0]);
  }

  lemma {:induction false} PlusIsAdded(line: Line)
    ensures "+" <= line <==> KindOf(line).Added?
    ensures "+" <= line ==> KindOf(line).text == line[1..]
  {
    assert END_OF_FILE[0] == '*';
  }

  /** The line loop of an add hunk, over the lines after its header. */
  method ParseAddedLines(lines: seq<Line>, ghost toks: seq<Token>) returns (contents: string, consumed: nat)
    requires toks == LexAll(lines)
    ensures contents == AddedContents(toks) && consumed == PlusLines(toks)
  {
    contents, consumed := "", 0;
    assert toks[0..] == toks && "" + AddedContents(toks) == AddedContents(toks);
    while consumed < |lines| && "+" <= lines[consumed]
      invariant consumed <= |lines|
      invariant AddedContents(toks) == contents + AddedContents(toks[consumed..])
      invariant PlusLines(toks) == consumed + PlusLines(toks[consumed..])
    {
      LexAllDrop(lines, consumed);
      HeadPlus(lines[consumed..]);
      assert toks[consumed..][1..] == toks[consumed + 1..];
      RegroupFour(contents, lines[consumed][1..], [NL], AddedContents(toks[consumed + 1..]));
      contents := contents + lines[consumed][1..] + [NL];
      consumed := consumed + 1;
    }
    if consumed < |lines| {
      LexAllDrop(lines, consumed);
      HeadPlus(lines[consumed..]);
    }
    assert contents + "" == contents;
  }

  lemma {:induction false} HeadMove(lines: seq<Line>)
    requires |lines| > 0
    ensures LexAll(lines)[0].move == MoveOf(Trim(lines[0])) && LexAll(lines)[1..] == LexAll(lines[1..])
  {
  }

  /** An update hunk after its header: a move, then the chunks. */
  method ParseUpdateLines(targetPath: string, lines: seq<Line>, ghost toks: seq<Token>) returns (r: Result<Parsed<Hunk>, ParseError>)
    requires toks == LexAll(lines)
    ensures r == ParseUpdate(targetPath, toks)
  {
    var remaining, consumed := lines, 1;
    ghost var rest := toks;
    var movePath: Option<string> := None;
    if |remaining| > 0 {
      HeadMove(lines);
      if MOVE_TO <= Trim(remaining[0]) {
        movePath := Some(Trim(remaining[0])[|MOVE_TO|..]);
        remaining := remaining[1..];
        rest := rest[1..];
        consumed := consumed + 1;
      }
    }
    var chunks := ParseChunkLoop(remaining, rest);
    if chunks.Err? {
      return Err(chunks.error);
    }
    if |chunks.value.value| == 0 {
      return Err(EmptyUpdate);
    }
    return Ok(Parsed(UpdateFile(targetPath, movePath, chunks.value.value), consumed + chunks.value.consumed));
  }

  lemma {:induction false} HeadIntro(lines: seq<Line>)
    requires |lines| > 0
    ensures LexAll(lines)[0].intro == IntroOf(Trim(lines[0])) && LexAll(lines)[1..] == LexAll(lines[1..])
  {
  }

  method ParseOneHunk(lines: seq<Line>, ghost toks: seq<Token>) returns (r: Result<Parsed<Hunk>, ParseError>)
    requires |lines| > 0 && toks == LexAll(lines)
    ensures r == ParseOne(toks)
  {
    var firstLine := Trim(lines[0]);
    HeadIntro(lines);
    if ADD_FILE <= firstLine {
      var contents, added := ParseAddedLines(lines[1..], toks[1..]);
      return Ok(Parsed(AddFile(firstLine[|ADD_FILE|..], contents), 1 + added));
    }
    if DELETE_FILE <= firstLine {
      return Ok(Parsed(DeleteFile(firstLine[|DELETE_FILE|..]), 1));
    }
    if UPDATE_FILE <= firstLine {
      r := ParseUpdateLines(firstLine[|UPDATE_FILE|..], lines[1..], toks[1..]);
      return;
    }
    return Err(BadHeader);
  }

  lemma {:induction false} FrontTwice<T, E>(front: seq<T>, x: T, r: Result<seq<T>, E>)
    ensures Front(front, Front([x], r)) == Front(front + [x], r)
    ensures Front([], r) == r
    ensures Front<T, E>(front, Ok([])) == Ok(front)
  {
    assert front + [] == front;
    if r.Ok? {
      assert [] + r.value == r.value;
      assert front + ([x] + r.value) == front + [x] + r.value;
    }
  }

  /** The main loop: every round takes at least one line off what remains. */
  method ParseHunkLoop(lines: seq<Line>) returns (r: Result<seq<Hunk>, ParseError>)
    ensures r == ParseHunks(LexAll(lines))
  {
    var hunks: seq<Hunk>, remaining := [], lines;
    ghost var toks, rest := LexAll(lines), LexAll(lines);
    FrontTwice([], DeleteFile(""), ParseHunks(toks));
    while |remaining| > 0
      invariant rest == LexAll(remaining)
      invariant ParseHunks(toks) == Front(hunks, ParseHunks(rest))
      decreases |remaining|
    {
      var p := ParseOneHunk(remaining, rest);
      if p.Err? {
        return Err(p.error);
      }
      LexAllDrop(remaining, p.value.consumed);
      FrontTwice(hunks, p.value.value, ParseHunks(rest[p.value.consumed..]));
      hunks := hunks + [p.value.value];
      remaining := remaining[p.value.consumed..];
      rest := rest[p.value.consumed..];
    }
    FrontTwice(hunks, DeleteFile(""), ParseHunks(rest));
    return Ok(hunks);
  }

  method ParsePatchText(input: string) returns (r: Result<seq<Hunk>, ParseError>)
    ensures r == Parse(input)
  {
    var trimmed := Trim(input);
    if trimmed == "" {
      return Err(EmptyInput);
    }
    var validated := Enclosed(PatchLines(trimmed));
    if validated.Err? {
      return Err(validated.error);
    }
    r := ParseHunkLoop(validated.value[1..|validated.value| - 1]);
  }
}
