/** Where a chunk goes, by what matches where (src/agents/apply-patch-update.ts). */
module PlacementMeaning {
  import opened Wrappers
  import opened Text
  import opened Splicing
  import opened ApplyPatchUpdate

  // ---------------------------------------------------------------------------
  // What the search finds
  // ---------------------------------------------------------------------------

  /** A search for an end-of-file chunk looks at the end of the file only. */
  function WindowStart(lines: seq<Line>, pattern: seq<Line>, start: nat, eof: bool): nat {
    if eof && |pattern| <= |lines| then |lines| - |pattern| else start
  }

  /** The lines are found at `p`: at the first match of the strictest comparator that matches at all. */
  ghost predicate FoundAt(lines: seq<Line>, pattern: seq<Line>, start: nat, eof: bool, p: nat) {
    if |pattern| == 0 then p == start
    else exists level :: BestMatch(lines, pattern, WindowStart(lines, pattern, start, eof), p, level)
  }

  /** The lines are found nowhere: even the laxest comparator matches nothing. */
  ghost predicate FoundNowhere(lines: seq<Line>, pattern: seq<Line>, start: nat, eof: bool) {
    |pattern| > 0 && Unmatched(lines, pattern, WindowStart(lines, pattern, start, eof), Normalized)
  }

  lemma {:induction false} BestMatchIsUnique(lines: seq<Line>, pattern: seq<Line>, from: nat, p: nat, l: Level, q: nat, m: Level)
    requires BestMatch(lines, pattern, from, p, l) && BestMatch(lines, pattern, from, q, m)
    ensures p == q
  {
    assert l.Rank() == m.Rank();
    assert p == q by {
      assert MatchesAt(lines, pattern, p, l) && MatchesAt(lines, pattern, q, l);
    }
  }

  /** The search returns the place where the lines are found, and nothing when they are found nowhere. */
  lemma {:induction false} SeekIff(lines: seq<Line>, pattern: seq<Line>, start: nat, eof: bool, p: nat)
    ensures Seek(lines, pattern, start, eof) == Some(p) <==> FoundAt(lines, pattern, start, eof, p)
    ensures Seek(lines, pattern, start, eof) == None <==> FoundNowhere(lines, pattern, start, eof)
  {
    if |pattern| > 0 {
      SeekMeaning(lines, pattern, start, eof);
      var from := WindowStart(lines, pattern, start, eof);
      var r := Seek(lines, pattern, start, eof);
      if FoundAt(lines, pattern, start, eof, p) {
        var level :| BestMatch(lines, pattern, from, p, level);
        LaxerMatches(lines, pattern, p, level, Normalized);
        BestMatchIsUnique(lines, pattern, from, p, level, r.value, FoundLevel(lines, pattern, from));
      }
    }
  }

  // ---------------------------------------------------------------------------
  // What a chunk is placed by
  // ---------------------------------------------------------------------------

  /** The search for the chunk's lines starts at `at`: behind its context line, if it has one. */
  ghost predicate StartsAt(lines: seq<Line>, chunk: Chunk, lineIndex: nat, at: nat) {
    match chunk.changeContext
    case None => at == lineIndex
    case Some(context) =>
      if context == "" then at == lineIndex
      else at > 0 && FoundAt(lines, [context], lineIndex, false, at - 1)
  }

  /** A final blank line of both sides is given up. */
  function Shorter(lines: seq<Line>): seq<Line> {
    if BlankAtEnd(lines) then WithoutLast(lines) else lines
  }

  /** The chunk exchanges `rep`, and the next search starts at `next`. */
  ghost predicate GoesTo(lines: seq<Line>, chunk: Chunk, at: nat, p: Placement) {
    if |chunk.oldLines| == 0 then
      p.rep == Replacement(|Shorter(lines)|, 0, chunk.newLines) && p.next == at
    else
      && p.next == p.rep.End()
      && ((Exchanged(chunk.oldLines, chunk.newLines, p.rep) && FoundAt(lines, chunk.oldLines, at, chunk.isEndOfFile, p.rep.start))
          || (BlankAtEnd(chunk.oldLines) && FoundNowhere(lines, chunk.oldLines, at, chunk.isEndOfFile)
              && Exchanged(Shorter(chunk.oldLines), Shorter(chunk.newLines), p.rep)
              && FoundAt(lines, Shorter(chunk.oldLines), at, chunk.isEndOfFile, p.rep.start)))
  }

  predicate Exchanged(oldLines: seq<Line>, newLines: seq<Line>, rep: Replacement) {
    rep.oldLen == |oldLines| && rep.newLines == newLines
  }

  lemma {:induction false} AnchorIff(lines: seq<Line>, chunk: Chunk, lineIndex: nat, at: nat)
    requires lineIndex <= |lines|
    ensures Anchor(lines, chunk, lineIndex) == Ok(at) <==> StartsAt(lines, chunk, lineIndex, at)
  {
    if chunk.changeContext.Some? && chunk.changeContext.value != "" && at > 0 {
      SeekIff(lines, [chunk.changeContext.value], lineIndex, false, at - 1);
    }
  }

  lemma {:induction false} PlacedAsSought(lines: seq<Line>, chunk: Chunk, at: nat, p: Placement)
    requires at <= |lines| && |chunk.oldLines| > 0 && Seek(lines, chunk.oldLines, at, chunk.isEndOfFile).Some?
    ensures PlaceAt(lines, chunk, at) == Ok(p) <==>
            && p.next == p.rep.End() && Exchanged(chunk.oldLines, chunk.newLines, p.rep)
            && Seek(lines, chunk.oldLines, at, chunk.isEndOfFile) == Some(p.rep.start)
  {
  }

  lemma {:induction false} PlacedShorter(lines: seq<Line>, chunk: Chunk, at: nat, p: Placement)
    requires at <= |lines| && |chunk.oldLines| > 0 && Seek(lines, chunk.oldLines, at, chunk.isEndOfFile).None?
    ensures PlaceAt(lines, chunk, at) == Ok(p) <==>
            && BlankAtEnd(chunk.oldLines) && p.next == p.rep.End()
            && Exchanged(Shorter(chunk.oldLines), Shorter(chunk.newLines), p.rep)
            && Seek(lines, Shorter(chunk.oldLines), at, chunk.isEndOfFile) == Some(p.rep.start)
  {
  }

  lemma {:induction false} PlaceAtIff(lines: seq<Line>, chunk: Chunk, at: nat, p: Placement)
    requires at <= |lines|
    ensures PlaceAt(lines, chunk, at) == Ok(p) <==> GoesTo(lines, chunk, at, p)
  {
    if |chunk.oldLines| > 0 {
      SeekIff(lines, chunk.oldLines, at, chunk.isEndOfFile, p.rep.start);
      if Seek(lines, chunk.oldLines, at, chunk.isEndOfFile).Some? {
        PlacedAsSought(lines, chunk, at, p);
      } else {
        PlacedShorter(lines, chunk, at, p);
        SeekIff(lines, Shorter(chunk.oldLines), at, chunk.isEndOfFile, p.rep.start);
      }
    }
  }

  /** The chunk goes there when the search stands at `lineIndex`. */
  ghost predicate Placed(lines: seq<Line>, chunk: Chunk, lineIndex: nat, p: Placement) {
    exists at: nat :: StartsAt(lines, chunk, lineIndex, at) && at <= |lines| && GoesTo(lines, chunk, at, p)
  }

  /** A chunk is placed exactly where its context and its lines say; it fails when there is no such place. */
  lemma {:induction false} PlacementIff(lines: seq<Line>, chunk: Chunk, lineIndex: nat, p: Placement)
    requires lineIndex <= |lines|
    ensures PlaceChunk(lines, chunk, lineIndex) == Ok(p) <==> Placed(lines, chunk, lineIndex, p)
  {
    forall at: nat ensures Anchor(lines, chunk, lineIndex) == Ok(at) <==> StartsAt(lines, chunk, lineIndex, at) {
      AnchorIff(lines, chunk, lineIndex, at);
    }
    forall at: nat | at <= |lines| ensures PlaceAt(lines, chunk, at) == Ok(p) <==> GoesTo(lines, chunk, at, p) {
      PlaceAtIff(lines, chunk, at, p);
    }
  }

  /** One replacement for each chunk; `stands[k]` is where the search stands for chunk `k`. */
  ghost predicate AllPlaced(lines: seq<Line>, chunks: seq<Chunk>, stands: seq<nat>, reps: seq<Replacement>) {
    && |stands| == |chunks| + 1 && |reps| == |chunks|
    && (forall k :: 0 <= k <= |chunks| ==> stands[k] <= |lines|)
    && (forall k :: 0 <= k < |chunks| ==> Placed(lines, chunks[k], stands[k], Placement(reps[k], stands[k + 1])))
  }

  lemma {:induction false} PlacedOneByOne(lines: seq<Line>, chunks: seq<Chunk>, lineIndex: nat) returns (stands: seq<nat>)
    requires lineIndex <= |lines| && PlaceAll(lines, chunks, lineIndex).Ok?
    ensures AllPlaced(lines, chunks, stands, PlaceAll(lines, chunks, lineIndex).value) && stands[0] == lineIndex
  {
    if |chunks| == 0 {
      stands := [lineIndex];
    } else {
      var p := PlaceChunk(lines, chunks[0], lineIndex).value;
      PlacementIff(lines, chunks[0], lineIndex, p);
      var rest := PlacedOneByOne(lines, chunks[1..], p.next);
      stands := [lineIndex] + rest;
      PlacedCons(lines, chunks, lineIndex, p, rest, PlaceAll(lines, chunks[1..], p.next).value);
    }
  }

  lemma {:induction false} PlacedCons(
    lines: seq<Line>, chunks: seq<Chunk>, lineIndex: nat, p: Placement, rest: seq<nat>, reps: seq<Replacement>)
    requires |chunks| > 0 && lineIndex <= |lines| && Placed(lines, chunks[0], lineIndex, p)
    requires AllPlaced(lines, chunks[1..], rest, reps) && rest[0] == p.next
    ensures AllPlaced(lines, chunks, [lineIndex] + rest, [p.rep] + reps)
  {
    forall k | 0 <= k < |chunks|
      ensures Placed(lines, chunks[k], ([lineIndex] + rest)[k], Placement(([p.rep] + reps)[k], ([lineIndex] + rest)[k + 1]))
    {
      if k > 0 {
        assert Placed(lines, chunks[1..][k - 1], rest[k - 1], Placement(reps[k - 1], rest[k]));
      }
    }
  }

  lemma {:induction false} PlacedTail(lines: seq<Line>, chunks: seq<Chunk>, stands: seq<nat>, reps: seq<Replacement>)
    requires |chunks| > 0 && AllPlaced(lines, chunks, stands, reps)
    ensures AllPlaced(lines, chunks[1..], stands[1..], reps[1..])
  {
    forall k | 0 <= k < |chunks[1..]|
      ensures Placed(lines, chunks[1..][k], stands[1..][k], Placement(reps[1..][k], stands[1..][k + 1]))
    {
      assert Placed(lines, chunks[k + 1], stands[k + 1], Placement(reps[k + 1], stands[k + 2]));
    }
  }

  lemma {:induction false} PlacedAreAll(lines: seq<Line>, chunks: seq<Chunk>, stands: seq<nat>, reps: seq<Replacement>)
    requires AllPlaced(lines, chunks, stands, reps)
    ensures PlaceAll(lines, chunks, stands[0]) == Ok(reps)
    decreases |chunks|
  {
    if |chunks| > 0 {
      PlacementIff(lines, chunks[0], stands[0], Placement(reps[0], stands[1]));
      PlacedTail(lines, chunks, stands, reps);
      PlacedAreAll(lines, chunks[1..], stands[1..], reps[1..]);
      assert [reps[0]] + reps[1..] == reps;
    }
  }

  /** The chunks of a hunk are placed one after the other, each where the one before left the search, and
      placing them fails exactly when one of them has no place. */
  lemma {:induction false} PlacementsIff(lines: seq<Line>, chunks: seq<Chunk>, reps: seq<Replacement>)
    ensures PlaceAll(lines, chunks, 0) == Ok(reps) <==>
            exists stands :: AllPlaced(lines, chunks, stands, reps) && stands[0] == 0
  {
    if PlaceAll(lines, chunks, 0).Ok? {
      var stands := PlacedOneByOne(lines, chunks, 0);
    }
    forall stands | AllPlaced(lines, chunks, stands, reps) && stands[0] == 0
      ensures PlaceAll(lines, chunks, 0) == Ok(reps)
    {
      PlacedAreAll(lines, chunks, stands, reps);
    }
  }

  // ---------------------------------------------------------------------------
  // Pure insertions
  // ---------------------------------------------------------------------------

  /** The lines with new ones behind them, or before a blank last one. */
  function Appended(lines: seq<Line>, newLines: seq<Line>): seq<Line> {
    if BlankAtEnd(lines) then WithoutLast(lines) + newLines + [""] else lines + newLines
  }

  /** A chunk without old lines keeps every line and adds its own at the end of the file, wherever the
      search stands. */
  lemma {:induction false} InsertionGoesLast(lines: seq<Line>, chunk: Chunk, lineIndex: nat)
    requires lineIndex <= |lines| && |chunk.oldLines| == 0 && PlaceChunk(lines, chunk, lineIndex).Ok?
    ensures SpliceAt(lines, PlaceChunk(lines, chunk, lineIndex).value.rep) == Appended(lines, chunk.newLines)
  {
    if BlankAtEnd(lines) {
      assert lines[|lines| - 1..] == [""];
    } else {
      assert lines[..|lines|] == lines && lines[|lines|..] == [];
    }
  }

  /** An update by one such chunk adds its lines at the end of the text; it fails only for a context that
      is not there. */
  lemma {:induction false} InsertionAppends(contents: string, chunk: Chunk)
    requires |chunk.oldLines| == 0
    ensures var r := UpdatedText(contents, [chunk]);
            if chunk.changeContext == None || chunk.changeContext == Some("")
               || !FoundNowhere(FileLines(contents), [chunk.changeContext.value], 0, false)
            then r == Ok(FileText(Appended(FileLines(contents), chunk.newLines)))
            else r == Err(ContextNotFound(chunk.changeContext.value))
  {
    var lines := FileLines(contents);
    if chunk.changeContext.Some? {
      SeekIff(lines, [chunk.changeContext.value], 0, false, 0);
    }
    PlaceOne(lines, chunk);
    if PlaceChunk(lines, chunk, 0).Ok? {
      InsertionGoesLast(lines, chunk, 0);
      SpliceOnly(lines, PlaceChunk(lines, chunk, 0).value.rep);
    }
  }

  lemma {:induction false} PlaceOne(lines: seq<Line>, chunk: Chunk)
    ensures PlaceAll(lines, [chunk], 0)
         == var p := PlaceChunk(lines, chunk, 0); if p.Ok? then Ok([p.value.rep]) else Err(p.error)
  {
    assert [chunk][1..] == [];
    var p := PlaceChunk(lines, chunk, 0);
    if p.Ok? {
      assert PlaceAll(lines, [], p.value.next) == Ok([]);
      assert [p.value.rep] + [] == [p.value.rep];
    }
  }

  lemma {:induction false} SpliceOnly(lines: seq<Line>, rep: Replacement)
    ensures BackToFront(lines, SortByStart([rep])) == SpliceAt(lines, rep)
  {
    assert [rep][1..] == [];
    assert SortByStart([]) == [];
    assert SortByStart([rep]) == [rep];
    assert BackToFront(lines, []) == lines;
  }

  // ---------------------------------------------------------------------------
  // Lines and text
  // ---------------------------------------------------------------------------

  /** The lines of a file are the pieces between its newlines; the newline at its end, if any, ends the last. */
  lemma {:induction false} LinesAreRead(contents: string)
    ensures AllOneLine(FileLines(contents))
    ensures Join(if contents == "" || contents[|contents| - 1] == NL then FileLines(contents) + [""] else FileLines(contents)) == contents
  {
    SplitLast(contents);
    var ls := Split(contents);
    if BlankAtEnd(ls) {
      assert ls == WithoutLast(ls) + [""];
    }
  }

  /** What is written reads as those lines, with a final newline: a blank last line stands for it. */
  lemma {:induction false} LinesAreWritten(lines: seq<Line>)
    requires AllOneLine(lines)
    ensures Split(FileText(lines)) == if BlankAtEnd(lines) then lines else lines + [""]
    ensures FileText(lines) == "" || FileText(lines)[|FileText(lines)| - 1] == NL
  {
    var ls := if BlankAtEnd(lines) then lines else lines + [""];
    OneLineConcat(lines, [""]);
    SplitJoin(ls);
    SplitLast(FileText(lines));
  }
}
