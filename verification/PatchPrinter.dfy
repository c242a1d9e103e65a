/** Writing patches down, and what the parser makes of them. */
module PatchPrinter {
  import opened Wrappers
  import opened Text
  import opened ApplyPatchUpdate
  import opened PatchText

  /** A line of a chunk as an author writes it. A kept empty line may be written without its marker. */
  datatype Edit = Keep(text: Line) | KeepEmpty | Remove(text: Line) | Insert(text: Line)

  datatype ChunkScript = ChunkScript(context: Option<Line>, edits: seq<Edit>, isEndOfFile: bool)

  datatype HunkScript =
    | Add(path: string, contents: seq<Line>)
    | Delete(path: string)
    | Update(path: string, movePath: Option<string>, bare: bool, chunks: seq<ChunkScript>)

  // ---------------------------------------------------------------------------
  // What a script means
  // ---------------------------------------------------------------------------

  function EditKind(e: Edit): BodyKind {
    match e case Keep(t) => Kept(t) case KeepEmpty => Kept("") case Remove(t) => Removed(t) case Insert(t) => Added(t)
  }

  function OldSide(edits: seq<Edit>): seq<Line> {
    if |edits| == 0 then [] else OldPart(EditKind(edits[0])) + OldSide(edits[1..])
  }

  function NewSide(edits: seq<Edit>): seq<Line> {
    if |edits| == 0 then [] else NewPart(EditKind(edits[0])) + NewSide(edits[1..])
  }

  function ChunkOf(c: ChunkScript): Chunk {
    Chunk(c.context, OldSide(c.edits), NewSide(c.edits), c.isEndOfFile)
  }

  function ChunksOf(cs: seq<ChunkScript>): seq<Chunk> {
    if |cs| == 0 then [] else [ChunkOf(cs[0])] + ChunksOf(cs[1..])
  }

  function Terminated(ls: seq<Line>): string {
    if |ls| == 0 then "" else ls[0] + [NL] + Terminated(ls[1..])
  }

  function HunkOf(h: HunkScript): Hunk {
    match h
    case Add(path, contents) => AddFile(path, Terminated(contents))
    case Delete(path) => DeleteFile(path)
    case Update(path, movePath, _, chunks) => UpdateFile(path, movePath, ChunksOf(chunks))
  }

  function HunksOf(hs: seq<HunkScript>): seq<Hunk> {
    if |hs| == 0 then [] else [HunkOf(hs[0])] + HunksOf(hs[1..])
  }

  // ---------------------------------------------------------------------------
  // How a script is written
  // ---------------------------------------------------------------------------

  function EditLine(e: Edit): Line {
    match e case Keep(t) => " " + t case KeepEmpty => "" case Remove(t) => "-" + t case Insert(t) => "+" + t
  }

  function EditLines(edits: seq<Edit>): (ls: seq<Line>)
    ensures |ls| == |edits|
  {
    if |edits| == 0 then [] else [EditLine(edits[0])] + EditLines(edits[1..])
  }

  /** The body of a chunk, with its end-of-file marker. */
  function BodyLines(c: ChunkScript): seq<Line> {
    EditLines(c.edits) + (if c.isEndOfFile then [END_OF_FILE] else [])
  }

  function HeaderLine(c: ChunkScript): Line {
    match c.context case None => NO_CONTEXT case Some(text) => CONTEXT + text
  }

  function ChunkLines(cs: seq<ChunkScript>): seq<Line> {
    if |cs| == 0 then [] else [HeaderLine(cs[0])] + BodyLines(cs[0]) + ChunkLines(cs[1..])
  }

  function PlusLinesOf(ls: seq<Line>): (r: seq<Line>)
    ensures |r| == |ls|
  {
    if |ls| == 0 then [] else ["+" + ls[0]] + PlusLinesOf(ls[1..])
  }

  function MoveLines(movePath: Option<string>): seq<Line> {
    match movePath case None => [] case Some(path) => [MOVE_TO + path]
  }

  /** The chunks of an update; with `bare`, the first one without its `@@` line. */
  function UpdateLines(bare: bool, chunks: seq<ChunkScript>): seq<Line> {
    if bare && |chunks| > 0 then BodyLines(chunks[0]) + ChunkLines(chunks[1..]) else ChunkLines(chunks)
  }

  function HunkLines(h: HunkScript): seq<Line> {
    match h
    case Add(path, contents) => [ADD_FILE + path] + PlusLinesOf(contents)
    case Delete(path) => [DELETE_FILE + path]
    case Update(path, movePath, bare, chunks) =>
      [UPDATE_FILE + path] + MoveLines(movePath) + UpdateLines(bare, chunks)
  }

  function PatchBody(hs: seq<HunkScript>): seq<Line> {
    if |hs| == 0 then [] else HunkLines(hs[0]) + PatchBody(hs[1..])
  }

  // ---------------------------------------------------------------------------
  // Which scripts can be written
  // ---------------------------------------------------------------------------

  /** A path that survives the trimming of its header line. */
  predicate GoodPath(path: string) {
    path != "" && !IsSpace(path[|path| - 1])
  }

  predicate NoneEmpty(cs: seq<ChunkScript>) {
    |cs| == 0 || (|cs[0].edits| > 0 && NoneEmpty(cs[1..]))
  }

  /** The `@@` line of the first chunk may be left out when there is no context to state, the first
      line is not blank and cannot be taken for a move. */
  predicate GoodBare(c: ChunkScript) {
    |c.edits| > 0 && c.context.None? && Trim(EditLine(c.edits[0])) != "" && !(MOVE_TO <= Trim(EditLine(c.edits[0])))
  }

  predicate GoodHunk(h: HunkScript) {
    match h
    case Add(path, _) => GoodPath(path)
    case Delete(path) => GoodPath(path)
    case Update(path, movePath, bare, chunks) =>
      && GoodPath(path) && (movePath.Some? ==> GoodPath(movePath.value))
      && |chunks| > 0 && NoneEmpty(chunks) && (bare ==> GoodBare(chunks[0]))
  }

  predicate GoodScript(hs: seq<HunkScript>) {
    |hs| == 0 || (GoodHunk(hs[0]) && GoodScript(hs[1..]))
  }
}
