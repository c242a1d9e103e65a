/** Applying a unified diff to a file it was applied to before (scripts/postinstall.js): when that changes nothing, when
    it makes the file longer, and when it fails. */
module UnifiedRerun {
  import opened Wrappers
  import opened Sequences
  import opened Text
  import opened UnifiedDiff

  // ---------------------------------------------------------------------------
  // After a sound run every hunk looks applied
  // ---------------------------------------------------------------------------

  /** Each hunk's first change lies at or after the end of the range of the hunk before it: ranges may
      share context lines, but no hunk edits what an earlier one has just written. */
  predicate Ordered(hunks: seq<Hunk>, bound: nat) {
    |hunks| == 0 ||
    (bound <= hunks[0].oldStart + Lead(hunks[0].lines) && Ordered(hunks[1..], hunks[0].oldStart + hunks[0].oldLines))
  }

  /** The conditions on a patch under which its run is examined. */
  predicate Sound(lines: seq<Line>, hunks: seq<Hunk>, offset: int, bound: nat) {
    Ordered(hunks, bound) && AllCounted(hunks) && InsertionsInside(lines, hunks, offset)
  }

  lemma {:induction false} SoundTurn(lines: seq<Line>, hunks: seq<Hunk>, offset: int, bound: nat)
    requires |hunks| > 0 && Sound(lines, hunks, offset, bound) && 1 <= bound + offset
    requires ApplyHunk(lines, hunks[0], offset).Ok?
    ensures var h := hunks[0];
            && Regular(lines, h, offset)
            && Sound(ApplyHunk(lines, h, offset).value, hunks[1..], offset + h.Delta(), h.oldStart + h.oldLines)
            && 0 <= h.Cursor(offset) && h.oldStart + h.oldLines - 1 + (offset + h.Delta()) == h.Cursor(offset) + h.newLines
            && bound - 1 + offset <= h.Cursor(offset) + Lead(h.lines)
  {
    TurnResult(lines, hunks[0], offset);
  }

  /** What lies before the first change of the remaining hunks is never touched. */
  lemma {:induction false} PrefixKept(lines: seq<Line>, hunks: seq<Hunk>, offset: int, bound: nat, b: nat)
    requires Sound(lines, hunks, offset, bound) && 1 <= bound + offset && b <= bound - 1 + offset
    requires Run(lines, hunks, offset).Ok? && b <= |lines|
    ensures var final := Run(lines, hunks, offset).value;
            b <= |final| && final[..b] == lines[..b]
    decreases |hunks|
  {
    if |hunks| > 0 {
      var h, after := hunks[0], ApplyHunk(lines, hunks[0], offset).value;
      SoundTurn(lines, hunks, offset, bound);
      TurnResult(lines, h, offset);
      PrefixKept(after, hunks[1..], offset + h.Delta(), h.oldStart + h.oldLines, b);
      var edge := h.Cursor(offset) + Lead(h.lines);
      assert after[..edge][..b] == after[..b] && lines[..edge][..b] == lines[..b];
    }
  }

  /** Every hunk looks applied at its turn. */
  predicate AllApplied(lines: seq<Line>, hunks: seq<Hunk>, offset: int) {
    |hunks| == 0 || (AlreadyApplied(lines, hunks[0], offset) && AllApplied(lines, hunks[1..], offset + hunks[0].Delta()))
  }

  /** A successful run leaves a file in which every hunk looks applied. */
  lemma {:induction false} RunAppliesAll(lines: seq<Line>, hunks: seq<Hunk>, offset: int, bound: nat)
    requires Sound(lines, hunks, offset, bound) && 1 <= bound + offset
    requires Run(lines, hunks, offset).Ok?
    ensures AllApplied(Run(lines, hunks, offset).value, hunks, offset)
    decreases |hunks|
  {
    if |hunks| > 0 {
      var h, after := hunks[0], ApplyHunk(lines, hunks[0], offset).value;
      var final := Run(lines, hunks, offset).value;
      SoundTurn(lines, hunks, offset, bound);
      TurnResult(lines, h, offset);
      RunAppliesAll(after, hunks[1..], offset + h.Delta(), h.oldStart + h.oldLines);
      var cursor := h.Cursor(offset);
      PrefixKept(after, hunks[1..], offset + h.Delta(), h.oldStart + h.oldLines, cursor + h.newLines);
      SameWindow(final, after, cursor, cursor + h.newLines);
    }
  }

  lemma {:induction false} SameWindow<T>(a: seq<T>, b: seq<T>, i: nat, j: nat)
    requires i <= j <= |a| && j <= |b| && a[..j] == b[..j]
    ensures a[i..j] == b[i..j]
  {
    assert a[..j][i..] == a[i..j] && b[..j][i..] == b[i..j];
  }

  lemma {:induction false} AppliedIsFixed(lines: seq<Line>, hunks: seq<Hunk>, offset: int)
    requires AllApplied(lines, hunks, offset)
    ensures Run(lines, hunks, offset) == Ok(lines)
  {
    if |hunks| > 0 {
      AppliedIsFixed(lines, hunks[1..], offset + hunks[0].Delta());
    }
  }

  // ---------------------------------------------------------------------------
  // Hunks without lines
  // ---------------------------------------------------------------------------

  predicate AllBodied(hunks: seq<Hunk>) {
    forall k :: 0 <= k < |hunks| ==> hunks[k].lines != []
  }

  /** The hunks that have lines. */
  function Bodied(hunks: seq<Hunk>): seq<Hunk> {
    if |hunks| == 0 then [] else (if hunks[0].lines == [] then [] else [hunks[0]]) + Bodied(hunks[1..])
  }

  /** A hunk without lines never changes anything. */
  lemma {:induction false} BodiedRuns(lines: seq<Line>, hunks: seq<Hunk>, offset: int)
    requires AllCounted(hunks)
    ensures Run(lines, hunks, offset) == Run(lines, Bodied(hunks), offset)
    decreases |hunks|
  {
    if |hunks| > 0 {
      var h, rest := hunks[0], hunks[1..];
      var after := ApplyHunk(lines, h, offset);
      if after.Ok? {
        BodiedRuns(after.value, rest, offset + h.Delta());
      }
      if h.lines == [] {
        assert Counted(h) && after == Ok(lines);
        assert [] + Bodied(rest) == Bodied(rest);
      } else {
        assert ([h] + Bodied(rest))[1..] == Bodied(rest);
      }
    }
  }

  lemma {:induction false} BodiedOrdered(hunks: seq<Hunk>, bound: nat, lower: nat)
    requires Ordered(hunks, bound) && AllCounted(hunks) && lower <= bound
    ensures Ordered(Bodied(hunks), lower) && AllCounted(Bodied(hunks)) && AllBodied(Bodied(hunks))
    decreases |hunks|
  {
    if |hunks| > 0 {
      var h, rest := hunks[0], hunks[1..];
      assert Counted(h);
      var end := h.oldStart + h.oldLines;
      if h.lines == [] {
        BodiedOrdered(rest, end, lower);
        assert Bodied(hunks) == Bodied(rest);
      } else {
        BodiedOrdered(rest, end, end);
        assert ([h] + Bodied(rest))[1..] == Bodied(rest);
      }
    }
  }

  // ---------------------------------------------------------------------------
  // Insertions aimed beyond the end
  // ---------------------------------------------------------------------------

  /** The hunk has lines and only adds them. */
  predicate OnlyAdds(h: Hunk) {
    h.lines != [] && forall k :: 0 <= k < |h.lines| ==> Added(h.lines[k])
  }

  predicate AllOnlyAdd(hunks: seq<Hunk>) {
    forall k :: 0 <= k < |hunks| ==> OnlyAdds(hunks[k])
  }

  lemma {:induction false} WithoutOldText(lines: seq<Line>, body: seq<Line>, cursor: int)
    requires OldText(body) == [] && ApplyBody(lines, body, cursor).Ok?
    ensures forall k :: 0 <= k < |body| ==> Added(body[k])
    decreases |body|
  {
    if |body| > 0 {
      WithoutOldText(InsertAt(lines, cursor, body[0][1..]), body[1..], cursor + 1);
      assert body == [body[0]] + body[1..];
    }
  }

  /** Lines added beyond the end are appended. */
  lemma {:induction false} AddedLines(lines: seq<Line>, body: seq<Line>, cursor: int)
    requires forall k :: 0 <= k < |body| ==> Added(body[k])
    ensures var r := ApplyBody(lines, body, cursor);
            && r.Ok? && |r.value| == |lines| + |body| && |NewText(body)| == |body|
            && (cursor > |lines| ==> r.value == lines + NewText(body))
    decreases |body|
  {
    if |body| > 0 {
      AddedLines(InsertAt(lines, cursor, body[0][1..]), body[1..], cursor + 1);
    }
  }

  /** A hunk whose first change is aimed beyond the end can only append. */
  lemma {:induction false} BeyondTurn(lines: seq<Line>, h: Hunk, offset: int)
    requires Counted(h) && h.lines != [] && ApplyHunk(lines, h, offset).Ok?
    requires h.Cursor(offset) + Lead(h.lines) > |lines|
    ensures OnlyAdds(h) && h.oldLines == 0 && h.newLines > 0 && Lead(h.lines) == 0
    ensures ApplyHunk(lines, h, offset) == Ok(lines + NewText(h.lines)) && !AlreadyApplied(lines, h, offset)
  {
    if h.oldLines > 0 {
      TurnResult(lines, h, offset);
      assert false;
    }
    var a, z := CoreSplit(h.lines);
    WithoutOldText(lines, h.lines, h.Cursor(offset));
    AddedLines(lines, h.lines, h.Cursor(offset));
  }

  /** From there on every hunk only appends. */
  lemma {:induction false} BeyondAppends(lines: seq<Line>, hunks: seq<Hunk>, offset: int, bound: nat)
    requires Ordered(hunks, bound) && AllCounted(hunks) && AllBodied(hunks) && bound - 1 + offset > |lines|
    requires Run(lines, hunks, offset).Ok?
    ensures AllOnlyAdd(hunks)
    ensures lines <= Run(lines, hunks, offset).value && |Run(lines, hunks, offset).value| >= |lines| + |hunks|
    decreases |hunks|
  {
    if |hunks| > 0 {
      var h := hunks[0];
      BeyondTurn(lines, h, offset);
      BeyondAppends(lines + NewText(h.lines), hunks[1..], offset + h.Delta(), h.oldStart + h.oldLines);
      assert hunks == [h] + hunks[1..];
    }
  }

  lemma {:induction false} AddsGrow(lines: seq<Line>, hunks: seq<Hunk>, offset: int)
    requires AllOnlyAdd(hunks)
    ensures Run(lines, hunks, offset).Ok? && |Run(lines, hunks, offset).value| >= |lines|
    decreases |hunks|
  {
    if |hunks| > 0 {
      var h := hunks[0];
      AddedLines(lines, h.lines, h.Cursor(offset));
      AddsGrow(ApplyHunk(lines, h, offset).value, hunks[1..], offset + h.Delta());
    }
  }

  /** Run again, over a file that is no longer than the result, one of them appends once more. */
  lemma {:induction false} AppendedAgain(lines: seq<Line>, hunks: seq<Hunk>, offset: int, bound: nat, again: seq<Line>)
    requires Ordered(hunks, bound) && AllCounted(hunks) && AllBodied(hunks) && bound - 1 + offset > |lines|
    requires |hunks| > 0 && Run(lines, hunks, offset).Ok? && |again| <= |Run(lines, hunks, offset).value|
    ensures Run(again, hunks, offset).Ok? && |Run(again, hunks, offset).value| > |again|
    decreases |hunks|
  {
    var h, rest := hunks[0], hunks[1..];
    BeyondTurn(lines, h, offset);
    BeyondAppends(lines, hunks, offset, bound);
    if AlreadyApplied(again, h, offset) {
      AppendedAgain(lines + NewText(h.lines), rest, offset + h.Delta(), h.oldStart + h.oldLines, again);
    } else {
      AddedLines(again, h.lines, h.Cursor(offset));
      AddsGrow(ApplyHunk(again, h, offset).value, rest, offset + h.Delta());
    }
  }

  /** Such a run, too, keeps what lies before the first change of the remaining hunks. */
  lemma {:induction false} BeyondKeeps(lines: seq<Line>, hunks: seq<Hunk>, offset: int, bound: nat, b: nat)
    requires Ordered(hunks, bound) && AllCounted(hunks) && AllBodied(hunks)
    requires 1 <= bound + offset && b <= bound - 1 + offset && b <= |lines|
    requires Run(lines, hunks, offset).Ok? && !InsertionsInside(lines, hunks, offset)
    ensures var final := Run(lines, hunks, offset).value;
            b < |final| && final[..b] == lines[..b]
    decreases |hunks|
  {
    var h, after := hunks[0], ApplyHunk(lines, hunks[0], offset).value;
    var final := Run(lines, hunks, offset).value;
    if h.oldLines == 0 && h.Cursor(offset) > |lines| {
      BeyondAppends(lines, hunks, offset, h.oldStart);
    } else {
      TurnResult(lines, h, offset);
      var edge := h.Cursor(offset) + Lead(h.lines);
      BeyondKeeps(after, hunks[1..], offset + h.Delta(), h.oldStart + h.oldLines, b);
      assert after[..edge][..b] == after[..b] && lines[..edge][..b] == lines[..b];
    }
  }

  /** After an insertion beyond the end, the second run over the result, with or without its last line,
      makes the file longer. */
  lemma {:induction false} BeyondIsRepeated(lines: seq<Line>, hunks: seq<Hunk>, offset: int, bound: nat, again: seq<Line>)
    requires Ordered(hunks, bound) && AllCounted(hunks) && AllBodied(hunks) && 1 <= bound + offset
    requires Run(lines, hunks, offset).Ok? && !InsertionsInside(lines, hunks, offset)
    requires again <= Run(lines, hunks, offset).value && |Run(lines, hunks, offset).value| <= |again| + 1
    ensures Run(again, hunks, offset).Ok? && |Run(again, hunks, offset).value| > |again|
    decreases |hunks|
  {
    var h, after := hunks[0], ApplyHunk(lines, hunks[0], offset).value;
    var final := Run(lines, hunks, offset).value;
    if h.oldLines == 0 && h.Cursor(offset) > |lines| {
      AppendedAgain(lines, hunks, offset, h.oldStart, again);
    } else {
      TurnResult(lines, h, offset);
      var cursor, end := h.Cursor(offset), h.Cursor(offset) + h.newLines;
      BeyondKeeps(after, hunks[1..], offset + h.Delta(), h.oldStart + h.oldLines, end);
      assert again[..end] == final[..end];
      SameWindow(again, after, cursor, end);
      BeyondIsRepeated(after, hunks[1..], offset + h.Delta(), h.oldStart + h.oldLines, again);
    }
  }

  /** Applying a file patch a second time succeeds and changes nothing, exactly when no hunk with lines was
      an insertion aimed beyond the end of the file. */
  lemma {:induction false} RunIsIdempotentIff(lines: seq<Line>, hunks: seq<Hunk>)
    requires Ordered(hunks, 1) && AllCounted(hunks) && Run(lines, hunks, 0).Ok?
    ensures var final := Run(lines, hunks, 0).value;
            Run(final, hunks, 0) == Ok(final) <==> InsertionsInside(lines, Bodied(hunks), 0)
  {
    var final, bodied := Run(lines, hunks, 0).value, Bodied(hunks);
    BodiedRuns(lines, hunks, 0);
    BodiedRuns(final, hunks, 0);
    BodiedOrdered(hunks, 1, 1);
    if InsertionsInside(lines, bodied, 0) {
      RunAppliesAll(lines, bodied, 0, 1);
      AppliedIsFixed(final, bodied, 0);
    } else {
      BeyondIsRepeated(lines, bodied, 0, 1, final);
    }
  }

  /** A file patch leaves lines alone exactly when all its hunks with lines look applied on them. */
  lemma {:induction false} LeftAloneIff(lines: seq<Line>, hunks: seq<Hunk>)
    requires Ordered(hunks, 1) && AllCounted(hunks)
    ensures Run(lines, hunks, 0) == Ok(lines) <==> AllApplied(lines, Bodied(hunks), 0)
  {
    var bodied := Bodied(hunks);
    BodiedRuns(lines, hunks, 0);
    BodiedOrdered(hunks, 1, 1);
    if Run(lines, hunks, 0) == Ok(lines) {
      RunIsIdempotentIff(lines, hunks);
      RunAppliesAll(lines, bodied, 0, 1);
    }
    if AllApplied(lines, bodied, 0) {
      AppliedIsFixed(lines, bodied, 0);
    }
  }

  // ---------------------------------------------------------------------------
  // Insertions at line 0
  // ---------------------------------------------------------------------------

  /** A hunk that adds lines at line 0, as diffs write an insertion at the top, puts its first line before
      the last line of the file and the others at the top: the first splice is at index -1. */
  lemma {:induction false} TopInsertionScatters(lines: seq<Line>, h: Hunk)
    requires Counted(h) && Marked(h.lines) && h.oldStart == 0 && h.oldLines == 0 && h.lines != []
    ensures var text, last := NewText(h.lines), if |lines| == 0 then 0 else |lines| - 1;
            |text| > 0 && ApplyHunk(lines, h, 0) == Ok(text[1..] + lines[..last] + [text[0]] + lines[last..])
  {
    var x, rest := h.lines[0][1..], h.lines[1..];
    var last := if |lines| == 0 then 0 else |lines| - 1;
    AddedHead(h.lines);
    TopTurn(lines, h);
    AddsInFront(InsertAt(lines, -1, x), rest);
    RegroupFour(NewText(rest), lines[..last], [x], lines[last..]);
  }

  lemma {:induction false} TopTurn(lines: seq<Line>, h: Hunk)
    requires h.oldStart == 0 && h.lines != [] && Added(h.lines[0])
    ensures ApplyHunk(lines, h, 0) == ApplyBody(InsertAt(lines, -1, h.lines[0][1..]), h.lines[1..], 0)
  {
  }

  lemma {:induction false} AddsInFront(lines: seq<Line>, body: seq<Line>)
    requires Marked(body) && OldText(body) == []
    ensures ApplyBody(lines, body, 0) == Ok(NewText(body) + lines)
  {
    assert [] + lines == lines && lines[0..] == lines && [] + NewText(body) == NewText(body);
    BodyReplaces([], lines, body);
  }

  lemma {:induction false} AddedHead(body: seq<Line>)
    requires Marked(body) && OldText(body) == [] && body != []
    ensures Added(body[0]) && Marked(body[1..]) && OldText(body[1..]) == []
    ensures NewText(body) == [body[0][1..]] + NewText(body[1..]) && NewText(body)[1..] == NewText(body[1..])
  {
    MarkedHead(body);
  }

  lemma {:induction false} BodyGrowth(lines: seq<Line>, body: seq<Line>, cursor: int)
    requires ApplyBody(lines, body, cursor).Ok?
    ensures |ApplyBody(lines, body, cursor).value| == |lines| + |NewText(body)| - |OldText(body)|
    decreases |body|
  {
    if |body| > 0 {
      if Kept(body[0]) {
        BodyGrowth(lines, body[1..], cursor + 1);
      } else if Removed(body[0]) {
        BodyGrowth(lines[..cursor] + lines[cursor + 1..], body[1..], cursor);
      } else {
        BodyGrowth(InsertAt(lines, cursor, body[0][1..]), body[1..], cursor + 1);
      }
    }
  }

  predicate NoneShrinks(hunks: seq<Hunk>) {
    forall k :: 0 <= k < |hunks| ==> hunks[k].Delta() >= 0
  }

  lemma {:induction false} RunGrows(lines: seq<Line>, hunks: seq<Hunk>, offset: int)
    requires AllCounted(hunks) && NoneShrinks(hunks) && Run(lines, hunks, offset).Ok?
    ensures |Run(lines, hunks, offset).value| >= |lines|
    decreases |hunks|
  {
    if |hunks| > 0 {
      var h := hunks[0];
      if !AlreadyApplied(lines, h, offset) {
        BodyGrowth(lines, h.lines, h.Cursor(offset));
      }
      RunGrows(ApplyHunk(lines, h, offset).value, hunks[1..], offset + h.Delta());
    }
  }

  /** It never looks applied: a patch that begins with it and removes no more than it adds changes every
      file on every run. */
  lemma {:induction false} TopInsertionRepeats(lines: seq<Line>, hunks: seq<Hunk>)
    requires |hunks| > 0 && AllCounted(hunks) && NoneShrinks(hunks)
    requires hunks[0].oldStart == 0 && hunks[0].oldLines == 0 && hunks[0].lines != []
    requires Run(lines, hunks, 0).Ok?
    ensures |Run(lines, hunks, 0).value| > |lines|
  {
    var h := hunks[0];
    assert Counted(h);
    WithoutOldText(lines, h.lines, h.Cursor(0));
    AddedLines(lines, h.lines, h.Cursor(0));
    RunGrows(ApplyHunk(lines, h, 0).value, hunks[1..], h.Delta());
  }

  lemma {:induction false} TwoTurns(lines: seq<Line>, hunks: seq<Hunk>, mid: seq<Line>, offset: int, final: seq<Line>)
    requires |hunks| == 2 && ApplyHunk(lines, hunks[0], 0) == Ok(mid) && offset == hunks[0].Delta()
    requires ApplyHunk(mid, hunks[1], offset) == Ok(final)
    ensures Run(lines, hunks, 0) == Ok(final)
  {
    assert hunks[1..][0] == hunks[1] && hunks[1..][1..] == [];
    assert Run(mid, hunks[1..], offset) == Ok(final);
  }

  const TOP_INSERTION := Hunk(0, 0, 1, 1, ["+x"])
  const TAKE_BACK := Hunk(1, 2, 2, 1, ["-x", " b"])

  lemma {:induction false} TakeBackTexts()
    ensures OldText(TOP_INSERTION.lines) == [] && NewText(TOP_INSERTION.lines) == ["x"] && Marked(TOP_INSERTION.lines)
    ensures OldText(TAKE_BACK.lines) == ["x", "b"] && NewText(TAKE_BACK.lines) == ["b"]
  {
    assert TAKE_BACK.lines == ["-x"] + [" b"] && "+x"[1..] == "x" && "-x"[1..] == "x" && " b"[1..] == "b";
    OldTextConcat(["-x"], [" b"]);
    NewTextConcat(["-x"], [" b"]);
  }

  lemma {:induction false} TakeBackTurns()
    ensures ApplyHunk(["a", "b"], TOP_INSERTION, 0) == Ok(["a", "x", "b"])
    ensures ApplyHunk(["a", "x", "b"], TAKE_BACK, 1) == Ok(["a", "b"])
  {
    TakeBackTexts();
    TopInsertionScatters(["a", "b"], TOP_INSERTION);
    assert ["x"][1..] + ["a", "b"][..1] + ["x"] + ["a", "b"][1..] == ["a", "x", "b"];
    assert ["a", "x", "b"][1..2][0] == "x" && ["a", "x", "b"][1..] == ["x", "b"];
    PerformedIff(["a", "x", "b"], TAKE_BACK, 1);
    assert ["a", "x", "b"][..1] + ["b"] + ["a", "x", "b"][3..] == ["a", "b"];
  }

  /** With a hunk that removes lines behind it, such a patch can leave a file alone: this hunk takes the
      misplaced line back. */
  lemma {:induction false} TopInsertionCanBeTakenBack()
    ensures Run(["a", "b"], [TOP_INSERTION, TAKE_BACK], 0) == Ok(["a", "b"])
  {
    TakeBackTurns();
    TwoTurns(["a", "b"], [TOP_INSERTION, TAKE_BACK], ["a", "x", "b"], 1, ["a", "b"]);
  }

  // ---------------------------------------------------------------------------
  // Witnesses
  // ---------------------------------------------------------------------------

  /** A patch whose hunks all have old lines never aims an insertion beyond the file. */
  lemma {:induction false} OldLinesKeepInside(lines: seq<Line>, hunks: seq<Hunk>, offset: int)
    requires forall k :: 0 <= k < |hunks| ==> hunks[k].oldLines >= 1
    ensures InsertionsInside(lines, hunks, offset)
    decreases |hunks|
  {
    if |hunks| > 0 && ApplyHunk(lines, hunks[0], offset).Ok? {
      OldLinesKeepInside(ApplyHunk(lines, hunks[0], offset).value, hunks[1..], offset + hunks[0].Delta());
    }
  }

  /** An insertion aimed beyond the end is appended, and appended again by the second pass. */
  lemma {:induction false} BeyondEndIsNotIdempotent()
    ensures var h := Hunk(5, 0, 5, 1, ["+x"]);
            && Run(["a"], [h], 0) == Ok(["a", "x"])
            && Run(["a", "x"], [h], 0) == Ok(["a", "x", "x"])
  {
    var h := Hunk(5, 0, 5, 1, ["+x"]);
    assert ["+x"][1..] == [] && "+x"[1..] == "x" && [h][1..] == [];
    assert NewText(["+x"]) == ["x"];
    assert InsertAt(["a"], 4, "x") == ["a", "x"] && InsertAt(["a", "x"], 4, "x") == ["a", "x", "x"];
    assert ApplyBody(["a", "x"], [], 5) == Ok(["a", "x"]) && ApplyBody(["a", "x", "x"], [], 5) == Ok(["a", "x", "x"]);
  }

  const FIRST_EDIT := Hunk(1, 2, 1, 2, ["-a", "+A", " b"])
  const SECOND_EDIT := Hunk(2, 1, 2, 1, ["-b", "+B"])

  lemma {:induction false} EditTexts()
    ensures OldText(FIRST_EDIT.lines) == ["a", "b"] && NewText(FIRST_EDIT.lines) == ["A", "b"]
    ensures OldText(SECOND_EDIT.lines) == ["b"] && NewText(SECOND_EDIT.lines) == ["B"]
  {
    var first, second := FIRST_EDIT.lines, SECOND_EDIT.lines;
    assert first == ["-a"] + (["+A"] + [" b"]) && second == ["-b"] + ["+B"];
    TextsConcat(["-a"], ["+A"] + [" b"]);
    TextsConcat(["+A"], [" b"]);
    TextsConcat(["-b"], ["+B"]);
  }

  lemma {:induction false} FirstEditTurns()
    ensures ApplyHunk(["a", "b"], FIRST_EDIT, 0) == Ok(["A", "b"])
  {
    EditTexts();
    assert ["a", "b"][0..2][0] == "a";
    PerformedIff(["a", "b"], FIRST_EDIT, 0);
    assert [] + ["A", "b"] + [] == ["A", "b"];
  }

  lemma {:induction false} SecondEditTurns()
    ensures ApplyHunk(["A", "b"], SECOND_EDIT, 0) == Ok(["A", "B"])
  {
    EditTexts();
    assert ["A", "b"][1..2][0] == "b";
    PerformedIff(["A", "b"], SECOND_EDIT, 0);
    assert ["A", "b"][..1] + ["B"] + ["A", "b"][2..] == ["A", "B"];
  }

  lemma {:induction false} FirstEditFails()
    ensures ApplyHunk(["A", "B"], FIRST_EDIT, 0) == Err(DeleteMismatch(1))
  {
    EditTexts();
    assert ["A", "B"][0..2][1] == "B";
  }

  /** A hunk that edits an earlier hunk's trailing context makes the second pass fail. */
  lemma {:induction false} EditedContextIsNotIdempotent()
    ensures var hunks := [FIRST_EDIT, SECOND_EDIT];
            && AllCounted(hunks) && !Ordered(hunks, 1)
            && Run(["a", "b"], hunks, 0) == Ok(["A", "B"])
            && Run(["A", "B"], hunks, 0) == Err(DeleteMismatch(1))
  {
    EditTexts();
    FirstEditTurns();
    SecondEditTurns();
    FirstEditFails();
    TwoTurns(["a", "b"], [FIRST_EDIT, SECOND_EDIT], ["A", "b"], 0, ["A", "B"]);
  }

  // ---------------------------------------------------------------------------
  // The file's text
  // ---------------------------------------------------------------------------

  predicate OneLineBodies(hunks: seq<Hunk>) {
    forall k :: 0 <= k < |hunks| ==> AllOneLine(hunks[k].lines)
  }

  lemma {:induction false} BodyKeepsOneLine(lines: seq<Line>, body: seq<Line>, cursor: int)
    requires AllOneLine(lines) && AllOneLine(body) && ApplyBody(lines, body, cursor).Ok?
    ensures AllOneLine(ApplyBody(lines, body, cursor).value)
    decreases |body|
  {
    if |body| > 0 {
      assert OneLine(body[0]);
      if Kept(body[0]) {
        BodyKeepsOneLine(lines, body[1..], cursor + 1);
      } else if Removed(body[0]) {
        BodyKeepsOneLine(lines[..cursor] + lines[cursor + 1..], body[1..], cursor);
      } else {
        BodyKeepsOneLine(InsertAt(lines, cursor, body[0][1..]), body[1..], cursor + 1);
      }
    }
  }

  lemma {:induction false} RunKeepsOneLine(lines: seq<Line>, hunks: seq<Hunk>, offset: int)
    requires AllOneLine(lines) && OneLineBodies(hunks) && Run(lines, hunks, offset).Ok?
    ensures AllOneLine(Run(lines, hunks, offset).value)
    decreases |hunks|
  {
    if |hunks| > 0 {
      var h := hunks[0];
      if !AlreadyApplied(lines, h, offset) {
        BodyKeepsOneLine(lines, h.lines, h.Cursor(offset));
      }
      RunKeepsOneLine(ApplyHunk(lines, h, offset).value, hunks[1..], offset + h.Delta());
    }
  }

  /** Hunks that look applied to no lines at all look applied to a single blank line. */
  lemma {:induction false} AppliedToNothing(hunks: seq<Hunk>, offset: int)
    requires AllApplied([], hunks, offset)
    ensures AllApplied([""], hunks, offset)
  {
    if |hunks| > 0 {
      AppliedToNothing(hunks[1..], offset + hunks[0].Delta());
    }
  }

  /** Some hunk's new text ends at the end of a file of `n` lines. */
  predicate ReachesEnd(hunks: seq<Hunk>, offset: int, n: nat) {
    |hunks| > 0 &&
    (hunks[0].Cursor(offset) + hunks[0].newLines == n || ReachesEnd(hunks[1..], offset + hunks[0].Delta(), n))
  }

  lemma {:induction false} PrefixApplied(lines: seq<Line>, longer: seq<Line>, hunks: seq<Hunk>, offset: int)
    requires lines <= longer && AllApplied(lines, hunks, offset)
    ensures AllApplied(longer, hunks, offset)
  {
    if |hunks| > 0 {
      var h := hunks[0];
      var end := h.Cursor(offset) + |NewText(h.lines)|;
      assert longer[..end] == lines[..end];
      SameWindow(longer, lines, h.Cursor(offset), end);
      PrefixApplied(lines, longer, hunks[1..], offset + h.Delta());
    }
  }

  lemma {:induction false} ShorterApplied(final: seq<Line>, h: Hunk, offset: int)
    requires |final| > 0 && Counted(h) && AlreadyApplied(final, h, offset) && h.Cursor(offset) + h.newLines != |final|
    ensures AlreadyApplied(final[..|final| - 1], h, offset)
  {
    var short, end := final[..|final| - 1], h.Cursor(offset) + h.newLines;
    assert short[..end] == final[..end];
    SameWindow(short, final, h.Cursor(offset), end);
  }

  /** Where no hunk reaches the end, the last line may go. */
  lemma {:induction false} ShorterAllApplied(final: seq<Line>, hunks: seq<Hunk>, offset: int)
    requires |final| > 0 && AllCounted(hunks) && AllApplied(final, hunks, offset) && !ReachesEnd(hunks, offset, |final|)
    ensures AllApplied(final[..|final| - 1], hunks, offset)
  {
    if |hunks| > 0 {
      ShorterApplied(final, hunks[0], offset);
      ShorterAllApplied(final, hunks[1..], offset + hunks[0].Delta());
    }
  }

  /** A hunk that reached the end does not fit the file without its last line, or puts that line back. */
  lemma {:induction false} ShorterTurn(final: seq<Line>, h: Hunk, offset: int)
    requires |final| > 0 && Counted(h) && h.lines != [] && AlreadyApplied(final, h, offset)
    requires h.Cursor(offset) + h.newLines == |final|
    ensures var r := ApplyHunk(final[..|final| - 1], h, offset); r.Ok? ==> final <= r.value
  {
    var short, cursor := final[..|final| - 1], h.Cursor(offset);
    if ApplyHunk(short, h, offset).Ok? {
      if cursor > |short| {
        BeyondTurn(short, h, offset);
        assert false;
      }
      FreshTurn(short, h, offset);
      assert final == final[..cursor] + NewText(h.lines);
      assert short[..cursor] == final[..cursor];
    }
  }

  lemma {:induction false} ShorterRun(final: seq<Line>, hunks: seq<Hunk>, offset: int)
    requires |final| > 0 && AllCounted(hunks) && AllBodied(hunks) && AllApplied(final, hunks, offset)
    requires ReachesEnd(hunks, offset, |final|)
    ensures var r := Run(final[..|final| - 1], hunks, offset); r.Ok? ==> |r.value| >= |final|
    decreases |hunks|
  {
    var h, rest, short := hunks[0], hunks[1..], final[..|final| - 1];
    if h.Cursor(offset) + h.newLines != |final| {
      ShorterApplied(final, h, offset);
      ShorterRun(final, rest, offset + h.Delta());
    } else {
      ShorterTurn(final, h, offset);
      var r := ApplyHunk(short, h, offset);
      if r.Ok? {
        PrefixApplied(final, r.value, rest, offset + h.Delta());
        AppliedIsFixed(r.value, rest, offset + h.Delta());
      }
    }
  }

  /** A file without a final newline is left ending in a blank line, which some hunk has reached: read
      again, that line counts as the final newline of the line before it. */
  predicate LeftOpen(raw: string, hunks: seq<Hunk>, final: seq<Line>) {
    !EndsInNewline(raw) && |final| > 1 && final[|final| - 1] == "" && ReachesEnd(hunks, 0, |final|)
  }

  lemma {:induction false} SameText(a: seq<Line>, b: seq<Line>, trailing: bool)
    requires AllOneLine(a) && AllOneLine(b) && |a| > 0 && |b| > 0
    ensures WriteLines(a, trailing) == WriteLines(b, trailing) <==> a == b
  {
    SplitJoin(a);
    SplitJoin(b);
    var end := if trailing then [NL] else "";
    assert (Join(a) + end)[..|Join(a)|] == Join(a) && (Join(b) + end)[..|Join(b)|] == Join(b);
    assert WriteLines(a, trailing) == WriteLines(b, trailing) ==> |Join(a)| == |Join(b)|;
  }

  /** Where the text is read back as it was written, it is fixed exactly when the lines are. */
  lemma {:induction false} ReadBackAsWritten(raw: string, hunks: seq<Hunk>, final: seq<Line>)
    requires AllOneLine(final) && OneLineBodies(hunks)
    requires |final| > 0 && (EndsInNewline(raw) || |final| == 1 || final[|final| - 1] != "")
    requires Run(final, hunks, 0).Ok? && |Run(final, hunks, 0).value| > 0
    ensures var out := WriteLines(final, EndsInNewline(raw));
            PatchedText(out, hunks) == Ok(out) <==> Run(final, hunks, 0) == Ok(final)
  {
    ReadUndoesWriteIff(final, EndsInNewline(raw));
    RunKeepsOneLine(final, hunks, 0);
    SameText(Run(final, hunks, 0).value, final, EndsInNewline(raw));
  }

  /** A text that ends in a blank line is read back without it. */
  lemma {:induction false} BlankReadsAsNewline(final: seq<Line>)
    requires AllOneLine(final) && |final| > 1 && final[|final| - 1] == ""
    ensures var out, short := WriteLines(final, false), final[..|final| - 1];
            EndsInNewline(out) && ReadLines(out) == short && out == WriteLines(short, true)
  {
    var short := final[..|final| - 1];
    assert final == short + [""];
    JoinSnoc(short, "");
    SplitJoin(final);
    assert Join(final) + "" == Join(final) && Join(short) + [NL] + "" == Join(short) + [NL];
  }

  lemma {:induction false} ShortRereads(hunks: seq<Hunk>, final: seq<Line>)
    requires AllOneLine(final) && |final| > 1 && final[|final| - 1] == "" && OneLineBodies(hunks)
    requires var r := Run(final[..|final| - 1], hunks, 0); r.Ok? ==> |r.value| > 0
    ensures var out, short := WriteLines(final, false), final[..|final| - 1];
            PatchedText(out, hunks) == Ok(out) <==> Run(short, hunks, 0) == Ok(short)
  {
    var short := final[..|final| - 1];
    BlankReadsAsNewline(final);
    var r := Run(short, hunks, 0);
    if r.Ok? {
      RunKeepsOneLine(short, hunks, 0);
      SameText(r.value, short, true);
    }
  }

  /** A file that is left without lines can be patched again. */
  lemma {:induction false} NothingLeft(raw: string, hunks: seq<Hunk>)
    requires Ordered(hunks, 1) && AllCounted(hunks) && AllBodied(hunks) && Run(ReadLines(raw), hunks, 0) == Ok([])
    ensures InsertionsInside(ReadLines(raw), hunks, 0)
    ensures var out := PatchedText(raw, hunks).value; PatchedText(out, hunks) == Ok(out)
  {
    if !InsertionsInside(ReadLines(raw), hunks, 0) {
      BeyondKeeps(ReadLines(raw), hunks, 0, 1, 0);
    }
    RunAppliesAll(ReadLines(raw), hunks, 0, 1);
    AppliedToNothing(hunks, 0);
    AppliedIsFixed([""], hunks, 0);
    ReadBackNothing(EndsInNewline(raw));
  }

  /** A second run of hunks that all have lines. */
  lemma {:induction false} SecondRun(lines: seq<Line>, hunks: seq<Hunk>, final: seq<Line>)
    requires Ordered(hunks, 1) && AllCounted(hunks) && AllBodied(hunks) && Run(lines, hunks, 0) == Ok(final)
    ensures Run(final, hunks, 0).Ok? && |Run(final, hunks, 0).value| >= |final|
    ensures Run(final, hunks, 0) == Ok(final) <==> InsertionsInside(lines, hunks, 0)
  {
    if InsertionsInside(lines, hunks, 0) {
      RunAppliesAll(lines, hunks, 0, 1);
      AppliedIsFixed(final, hunks, 0);
    } else {
      BeyondIsRepeated(lines, hunks, 0, 1, final);
    }
  }

  /** The iff below for hunks that all have lines. */
  lemma {:induction false} BodiedPatchIff(raw: string, hunks: seq<Hunk>)
    requires Ordered(hunks, 1) && AllCounted(hunks) && AllBodied(hunks) && OneLineBodies(hunks)
    requires Run(ReadLines(raw), hunks, 0).Ok?
    ensures var final, out := Run(ReadLines(raw), hunks, 0).value, PatchedText(raw, hunks).value;
            PatchedText(out, hunks) == Ok(out)
            <==> InsertionsInside(ReadLines(raw), hunks, 0) && !LeftOpen(raw, hunks, final)
  {
    var final := Run(ReadLines(raw), hunks, 0).value;
    RunKeepsOneLine(ReadLines(raw), hunks, 0);
    if |final| == 0 {
      NothingLeft(raw, hunks);
    } else if EndsInNewline(raw) || |final| == 1 || final[|final| - 1] != "" {
      SecondRun(ReadLines(raw), hunks, final);
      ReadBackAsWritten(raw, hunks, final);
    } else {
      BlankEndIff(ReadLines(raw), hunks, final);
    }
  }

  lemma {:induction false} BlankEndIff(lines: seq<Line>, hunks: seq<Hunk>, final: seq<Line>)
    requires Ordered(hunks, 1) && AllCounted(hunks) && AllBodied(hunks) && OneLineBodies(hunks)
    requires Run(lines, hunks, 0) == Ok(final) && AllOneLine(final) && |final| > 1 && final[|final| - 1] == ""
    ensures var out := WriteLines(final, false);
            PatchedText(out, hunks) == Ok(out) <==> InsertionsInside(lines, hunks, 0) && !ReachesEnd(hunks, 0, |final|)
  {
    var short := final[..|final| - 1];
    if !InsertionsInside(lines, hunks, 0) {
      BeyondIsRepeated(lines, hunks, 0, 1, short);
    } else {
      RunAppliesAll(lines, hunks, 0, 1);
      if ReachesEnd(hunks, 0, |final|) {
        ShorterRun(final, hunks, 0);
      } else {
        ShorterAllApplied(final, hunks, 0);
        AppliedIsFixed(short, hunks, 0);
      }
    }
    ShortRereads(hunks, final);
  }

  lemma {:induction false} BodiedOneLine(hunks: seq<Hunk>)
    requires OneLineBodies(hunks)
    ensures OneLineBodies(Bodied(hunks))
  {
    if |hunks| > 0 {
      BodiedOneLine(hunks[1..]);
    }
  }

  /** Patching a file's text a second time succeeds and leaves it as it is, exactly when no hunk with lines
      was an insertion aimed beyond the end, and the file was not left open. */
  lemma {:induction false} PatchIsIdempotentIff(raw: string, hunks: seq<Hunk>)
    requires Ordered(hunks, 1) && AllCounted(hunks) && OneLineBodies(hunks)
    requires Run(ReadLines(raw), hunks, 0).Ok?
    ensures var final, out := Run(ReadLines(raw), hunks, 0).value, PatchedText(raw, hunks).value;
            PatchedText(out, hunks) == Ok(out)
            <==> InsertionsInside(ReadLines(raw), Bodied(hunks), 0) && !LeftOpen(raw, Bodied(hunks), final)
  {
    BodiedOrdered(hunks, 1, 1);
    BodiedOneLine(hunks);
    BodiedRuns(ReadLines(raw), hunks, 0);
    BodiedPatchIff(raw, Bodied(hunks));
    BodiedRuns(ReadLines(PatchedText(raw, hunks).value), hunks, 0);
  }

  // ---------------------------------------------------------------------------
  // The same condition on the hunks
  // ---------------------------------------------------------------------------

  /** The last of a hunk's new lines is `x`, and the hunk ends at the end of a file of `n` lines. */
  predicate WritesLast(h: Hunk, offset: int, n: nat, x: Line) {
    var text := NewText(h.lines);
    h.Cursor(offset) + h.newLines == n && |text| > 0 && text[|text| - 1] == x
  }

  predicate SomeWritesLast(hunks: seq<Hunk>, offset: int, n: nat, x: Line) {
    |hunks| > 0 &&
    (WritesLast(hunks[0], offset, n, x) || SomeWritesLast(hunks[1..], offset + hunks[0].Delta(), n, x))
  }

  /** Both files are empty or end in the same line. */
  predicate SameLast(a: seq<Line>, b: seq<Line>) {
    if |a| == 0 then |b| == 0 else |b| > 0 && a[|a| - 1] == b[|b| - 1]
  }

  lemma {:induction false} WrittenReaches(lines: seq<Line>, hunks: seq<Hunk>, offset: int, x: Line)
    requires AllCounted(hunks) && AllApplied(lines, hunks, offset) && SomeWritesLast(hunks, offset, |lines|, x)
    ensures ReachesEnd(hunks, offset, |lines|) && |lines| > 0 && lines[|lines| - 1] == x
  {
    var h := hunks[0];
    if WritesLast(h, offset, |lines|, x) {
      assert Counted(h);
      assert lines[h.Cursor(offset)..|lines|][h.newLines - 1] == x;
    } else {
      WrittenReaches(lines, hunks[1..], offset + h.Delta(), x);
    }
  }

  /** A turn leaves the lines as they are, or keeps the last line, or writes it. */
  lemma {:induction false} LastAfterTurn(lines: seq<Line>, h: Hunk, offset: int)
    requires Regular(lines, h, offset) && ApplyHunk(lines, h, offset).Ok?
    ensures var after, end := ApplyHunk(lines, h, offset).value, h.Cursor(offset) + h.newLines;
            || after == lines
            || (end < |after| && SameLast(lines, after))
            || (end == |after| > 0 && WritesLast(h, offset, |after|, after[|after| - 1]))
  {
    TurnInside(lines, h, offset);
    if !AlreadyApplied(lines, h, offset) {
      FreshTurn(lines, h, offset);
    }
  }

  /** Hunks that begin at the end of the file leave it as it is or write its last line. */
  lemma {:induction false} LastBehindEnd(lines: seq<Line>, hunks: seq<Hunk>, offset: int, bound: nat)
    requires Sound(lines, hunks, offset, bound) && bound - 1 + offset == |lines| && Run(lines, hunks, offset).Ok?
    ensures var final := Run(lines, hunks, offset).value;
            final == lines || (|final| > 0 && SomeWritesLast(hunks, offset, |final|, final[|final| - 1]))
    decreases |hunks|
  {
    if |hunks| > 0 {
      var h, after := hunks[0], ApplyHunk(lines, hunks[0], offset).value;
      SoundTurn(lines, hunks, offset, bound);
      TurnResult(lines, h, offset);
      LastAfterTurn(lines, h, offset);
      EndStays(lines, h, offset);
      LastBehindEnd(after, hunks[1..], offset + h.Delta(), h.oldStart + h.oldLines);
    }
  }

  /** A hunk whose first change is at the end of the file reaches the end. */
  lemma {:induction false} EndStays(lines: seq<Line>, h: Hunk, offset: int)
    requires Regular(lines, h, offset) && ApplyHunk(lines, h, offset).Ok? && h.Cursor(offset) + Lead(h.lines) == |lines|
    ensures h.Cursor(offset) + h.newLines == |ApplyHunk(lines, h, offset).value|
  {
    TurnInside(lines, h, offset);
    var a, z := CoreSplit(h.lines);
    if !AlreadyApplied(lines, h, offset) {
      FreshTurn(lines, h, offset);
    }
  }

  /** The last line of the file is the original one, or some hunk wrote it. */
  lemma {:induction false} LastKeptOrWritten(lines: seq<Line>, hunks: seq<Hunk>, offset: int, bound: nat)
    requires Sound(lines, hunks, offset, bound) && 1 <= bound + offset && Run(lines, hunks, offset).Ok?
    ensures var final := Run(lines, hunks, offset).value;
            SameLast(lines, final) || (|final| > 0 && SomeWritesLast(hunks, offset, |final|, final[|final| - 1]))
    decreases |hunks|
  {
    if |hunks| > 0 {
      var h, after := hunks[0], ApplyHunk(lines, hunks[0], offset).value;
      SoundTurn(lines, hunks, offset, bound);
      LastAfterTurn(lines, h, offset);
      var next, end := offset + h.Delta(), h.oldStart + h.oldLines;
      LastKeptOrWritten(after, hunks[1..], next, end);
      if end - 1 + next == |after| {
        LastBehindEnd(after, hunks[1..], next, end);
      }
    }
  }

  /** A text that is not empty and has no final newline is left open exactly when more than one line remains
      and the new text of some hunk that ends at the end of the file ends in a blank line. */
  lemma {:induction false} LeftOpenIff(raw: string, hunks: seq<Hunk>)
    requires raw != "" && Sound(ReadLines(raw), hunks, 0, 1) && Run(ReadLines(raw), hunks, 0).Ok?
    ensures var final := Run(ReadLines(raw), hunks, 0).value;
            LeftOpen(raw, hunks, final)
            <==> !EndsInNewline(raw) && |final| > 1 && SomeWritesLast(hunks, 0, |final|, "")
  {
    var lines := ReadLines(raw);
    var final := Run(lines, hunks, 0).value;
    RunAppliesAll(lines, hunks, 0, 1);
    LastKeptOrWritten(lines, hunks, 0, 1);
    SplitLast(raw);
    if SomeWritesLast(hunks, 0, |final|, "") {
      WrittenReaches(final, hunks, 0, "");
    } else if |final| > 0 && SomeWritesLast(hunks, 0, |final|, final[|final| - 1]) {
      WrittenReaches(final, hunks, 0, final[|final| - 1]);
    }
  }

  /** Every hunk leaves some text behind. */
  predicate AllLeaveText(hunks: seq<Hunk>) {
    |hunks| == 0 || (hunks[0].newLines > 0 && AllLeaveText(hunks[1..]))
  }

  lemma {:induction false} ReachedIsWritten(lines: seq<Line>, hunks: seq<Hunk>, offset: int)
    requires AllCounted(hunks) && AllApplied(lines, hunks, offset) && AllLeaveText(hunks)
    requires ReachesEnd(hunks, offset, |lines|)
    ensures |lines| > 0 && SomeWritesLast(hunks, offset, |lines|, lines[|lines| - 1])
    decreases |hunks|
  {
    var h := hunks[0];
    if h.Cursor(offset) + h.newLines == |lines| {
      assert Counted(h);
      assert lines[h.Cursor(offset)..|lines|][h.newLines - 1] == lines[|lines| - 1];
    } else {
      ReachedIsWritten(lines, hunks[1..], offset + h.Delta());
    }
  }

  /** The same for any text, the empty one too, where every hunk leaves some text behind. */
  lemma {:induction false} LeftOpenIffWritten(raw: string, hunks: seq<Hunk>)
    requires Sound(ReadLines(raw), hunks, 0, 1) && AllLeaveText(hunks) && Run(ReadLines(raw), hunks, 0).Ok?
    ensures var final := Run(ReadLines(raw), hunks, 0).value;
            LeftOpen(raw, hunks, final)
            <==> !EndsInNewline(raw) && |final| > 1 && SomeWritesLast(hunks, 0, |final|, "")
  {
    var final := Run(ReadLines(raw), hunks, 0).value;
    RunAppliesAll(ReadLines(raw), hunks, 0, 1);
    if SomeWritesLast(hunks, 0, |final|, "") {
      WrittenReaches(final, hunks, 0, "");
    }
    if ReachesEnd(hunks, 0, |final|) {
      ReachedIsWritten(final, hunks, 0);
    }
  }

  predicate AllMarked(hunks: seq<Hunk>) {
    forall k :: 0 <= k < |hunks| ==> Marked(hunks[k].lines)
  }

  lemma {:induction false} MarkedHasText(body: seq<Line>)
    requires Marked(body) && body != []
    ensures |OldText(body)| + |NewText(body)| > 0
  {
    MarkedHead(body);
  }

  /** A hunk with lines that is not skipped leaves some text behind: the one without new text always looks
      applied. */
  lemma {:induction false} UnskippedLeaveText(lines: seq<Line>, hunks: seq<Hunk>, offset: int, bound: nat)
    requires Sound(lines, hunks, offset, bound) && 1 <= bound + offset && AllBodied(hunks) && AllMarked(hunks)
    requires NoneSkipped(lines, hunks, offset) && Run(lines, hunks, offset).Ok?
    ensures AllLeaveText(hunks)
    decreases |hunks|
  {
    if |hunks| > 0 {
      var h := hunks[0];
      SoundTurn(lines, hunks, offset, bound);
      TurnInside(lines, h, offset);
      MarkedHasText(h.lines);
      UnskippedLeaveText(ApplyHunk(lines, h, offset).value, hunks[1..], offset + h.Delta(), h.oldStart + h.oldLines);
    }
  }

  lemma {:induction false} BodiedMarked(hunks: seq<Hunk>)
    requires AllMarked(hunks)
    ensures AllMarked(Bodied(hunks))
  {
    if |hunks| > 0 {
      BodiedMarked(hunks[1..]);
    }
  }

  function TotalDelta(hunks: seq<Hunk>): int {
    if |hunks| == 0 then 0 else hunks[0].Delta() + TotalDelta(hunks[1..])
  }

  /** When nothing is skipped, the headers tell how long the file gets. */
  lemma {:induction false} LengthFromHeaders(lines: seq<Line>, hunks: seq<Hunk>, offset: int)
    requires AllCounted(hunks) && NoneSkipped(lines, hunks, offset) && Run(lines, hunks, offset).Ok?
    ensures |Run(lines, hunks, offset).value| == |lines| + TotalDelta(hunks)
    decreases |hunks|
  {
    if |hunks| > 0 {
      var h := hunks[0];
      if !AlreadyApplied(lines, h, offset) {
        BodyGrowth(lines, h.lines, h.Cursor(offset));
      }
      LengthFromHeaders(ApplyHunk(lines, h, offset).value, hunks[1..], offset + h.Delta());
    }
  }

  predicate AllAimed(hunks: seq<Hunk>, n: int) {
    forall k :: 0 <= k < |hunks| ==> Aimed(hunks[k], n)
  }

  /** ... and which insertions are aimed beyond the end. */
  lemma {:induction false} InsideFromHeaders(lines: seq<Line>, hunks: seq<Hunk>, offset: int)
    requires AllCounted(hunks) && NoneSkipped(lines, hunks, offset) && Run(lines, hunks, offset).Ok?
    ensures InsertionsInside(lines, hunks, offset) <==> AllAimed(hunks, |lines| - offset)
    decreases |hunks|
  {
    if |hunks| > 0 {
      var h := hunks[0];
      if !AlreadyApplied(lines, h, offset) {
        BodyGrowth(lines, h.lines, h.Cursor(offset));
      }
      InsideFromHeaders(ApplyHunk(lines, h, offset).value, hunks[1..], offset + h.Delta());
      assert hunks == [h] + hunks[1..];
    }
  }

  lemma {:induction false} UnskippedCons(lines: seq<Line>, h: Hunk, rest: seq<Hunk>, offset: int)
    ensures NoneSkipped(lines, [h] + rest, offset) <==>
            (AlreadyApplied(lines, h, offset) ==> h.Delta() == 0) &&
            (ApplyHunk(lines, h, offset).Ok? ==>
               NoneSkipped(ApplyHunk(lines, h, offset).value, rest, offset + h.Delta()))
  {
    assert ([h] + rest)[1..] == rest;
  }

  lemma {:induction false} EmptyTurn(lines: seq<Line>, h: Hunk, offset: int)
    requires Counted(h) && h.lines == []
    ensures ApplyHunk(lines, h, offset) == Ok(lines) && h.Delta() == 0
  {
  }

  lemma {:induction false} UnskippedRest(lines: seq<Line>, hunks: seq<Hunk>, offset: int)
    requires |hunks| > 0 && AllCounted(hunks) && NoneSkipped(lines, hunks, offset)
    ensures AllCounted(hunks[1..])
    ensures hunks[0].lines == [] ==> NoneSkipped(lines, hunks[1..], offset)
    ensures var r := ApplyHunk(lines, hunks[0], offset);
            r.Ok? ==> NoneSkipped(r.value, hunks[1..], offset + hunks[0].Delta())
  {
    assert Counted(hunks[0]);
    if hunks[0].lines == [] {
      EmptyTurn(lines, hunks[0], offset);
    }
  }

  lemma {:induction false} UnskippedFirst(lines: seq<Line>, hunks: seq<Hunk>, rest: seq<Hunk>, offset: int)
    requires |hunks| > 0 && NoneSkipped(lines, hunks, offset)
    requires var r := ApplyHunk(lines, hunks[0], offset); r.Ok? ==> NoneSkipped(r.value, rest, offset + hunks[0].Delta())
    ensures NoneSkipped(lines, [hunks[0]] + rest, offset)
  {
    UnskippedCons(lines, hunks[0], rest, offset);
  }

  lemma {:induction false} BodiedUnskipped(lines: seq<Line>, hunks: seq<Hunk>, offset: int)
    requires AllCounted(hunks) && NoneSkipped(lines, hunks, offset)
    ensures NoneSkipped(lines, Bodied(hunks), offset)
    decreases |hunks|
  {
    if |hunks| > 0 {
      var r, rest := ApplyHunk(lines, hunks[0], offset), hunks[1..];
      UnskippedRest(lines, hunks, offset);
      if hunks[0].lines == [] {
        BodiedUnskipped(lines, rest, offset);
        assert Bodied(hunks) == Bodied(rest);
      } else {
        if r.Ok? {
          BodiedUnskipped(r.value, rest, offset + hunks[0].Delta());
        }
        UnskippedFirst(lines, hunks, Bodied(rest), offset);
      }
    }
  }

  /** The condition as the text and the hunks alone give it, for a run that skips nothing: no insertion is
      aimed beyond the end, and not at once the file has no final newline and a hunk whose new text ends in
      a blank line ends where the headers put the end. For an empty file the bodies must be marked. */
  lemma {:induction false} PerformedPatchIsIdempotentIff(raw: string, hunks: seq<Hunk>)
    requires (raw != "" || AllMarked(hunks)) && Ordered(hunks, 1) && AllCounted(hunks) && OneLineBodies(hunks)
    requires Run(ReadLines(raw), hunks, 0).Ok? && NoneSkipped(ReadLines(raw), hunks, 0)
    ensures var out, n := PatchedText(raw, hunks).value, |ReadLines(raw)| + TotalDelta(hunks);
            n >= 0 &&
            (PatchedText(out, hunks) == Ok(out)
             <==> AllAimed(Bodied(hunks), |ReadLines(raw)|) &&
                  (EndsInNewline(raw) || n <= 1 || !SomeWritesLast(Bodied(hunks), 0, n, "")))
  {
    PatchIsIdempotentIff(raw, hunks);
    LengthFromHeaders(ReadLines(raw), hunks, 0);
    PerformedConditions(raw, hunks);
  }

  lemma {:induction false} PerformedConditions(raw: string, hunks: seq<Hunk>)
    requires (raw != "" || AllMarked(hunks)) && Ordered(hunks, 1) && AllCounted(hunks)
    requires Run(ReadLines(raw), hunks, 0).Ok? && NoneSkipped(ReadLines(raw), hunks, 0)
    ensures var lines, final, bodied := ReadLines(raw), Run(ReadLines(raw), hunks, 0).value, Bodied(hunks);
            && (InsertionsInside(lines, bodied, 0) <==> AllAimed(bodied, |lines|))
            && (InsertionsInside(lines, bodied, 0) ==>
                (LeftOpen(raw, bodied, final)
                 <==> !EndsInNewline(raw) && |final| > 1 && SomeWritesLast(bodied, 0, |final|, "")))
  {
    BodiedRuns(ReadLines(raw), hunks, 0);
    BodiedOrdered(hunks, 1, 1);
    BodiedUnskipped(ReadLines(raw), hunks, 0);
    InsideFromHeaders(ReadLines(raw), Bodied(hunks), 0);
    if InsertionsInside(ReadLines(raw), Bodied(hunks), 0) {
      if raw != "" {
        LeftOpenIff(raw, Bodied(hunks));
      } else {
        BodiedMarked(hunks);
        UnskippedLeaveText(ReadLines(raw), Bodied(hunks), 0, 1);
        LeftOpenIffWritten(raw, Bodied(hunks));
      }
    }
  }

  /** No lines at all read back as one blank line. */
  lemma {:induction false} ReadBackNothing(trailing: bool)
    ensures ReadLines(WriteLines([], trailing)) == [""]
  {
    if trailing {
      assert WriteLines([], trailing) == "" + [NL];
      SplitFinalNewline("");
    } else {
      assert WriteLines([], trailing) == "";
    }
  }

  const BLANK_ADDED := Hunk(1, 1, 1, 2, [" a", "+"])

  lemma {:induction false} BlankAddedTurns()
    ensures OldText(BLANK_ADDED.lines) == ["a"] && NewText(BLANK_ADDED.lines) == ["a", ""]
    ensures Run(["a"], [BLANK_ADDED], 0) == Ok(["a", ""])
  {
    var h := BLANK_ADDED;
    assert h.lines == [" a"] + ["+"];
    TextsConcat([" a"], ["+"]);
    assert "+"[1..] == "" && " a"[1..] == "a";
    assert NewText([" a"]) == ["a"] && NewText(["+"]) == [""];
    assert [h][1..] == [];
    PerformedIff(["a"], h, 0);
    assert [] + ["a", ""] + [] == ["a", ""];
  }

  lemma {:induction false} BlankAddedReads()
    ensures ReadLines("a") == ["a"] && ReadLines("a\n") == ["a"]
  {
    SplitOneLine("a");
    assert "a\n" == "a" + [NL];
    SplitFinalNewline("a");
    assert ["a", ""][..1] == ["a"];
  }

  lemma {:induction false} BlankAddedIsSound(lines: seq<Line>)
    ensures Sound(lines, [BLANK_ADDED], 0, 1)
  {
    BlankAddedTurns();
    assert [BLANK_ADDED][1..] == [];
    assert Ordered([BLANK_ADDED], 1);
    OldLinesKeepInside(lines, [BLANK_ADDED], 0);
  }

  lemma {:induction false} TextOfRun(raw: string, hunks: seq<Hunk>, lines: seq<Line>)
    requires Run(ReadLines(raw), hunks, 0) == Ok(lines)
    ensures PatchedText(raw, hunks) == Ok(WriteLines(lines, EndsInNewline(raw)))
  {
  }

  /** Adding a blank line at the end of a file without a final newline adds another one every time. */
  lemma {:induction false} BlankAtEndIsAddedAgain()
    ensures Sound(ReadLines("a"), [BLANK_ADDED], 0, 1)
    ensures PatchedText("a", [BLANK_ADDED]) == Ok("a\n") && PatchedText("a\n", [BLANK_ADDED]) == Ok("a\n\n")
  {
    BlankAddedIsSound(ReadLines("a"));
    BlankAddedReads();
    BlankAddedTurns();
    TextOfRun("a", [BLANK_ADDED], ["a", ""]);
    TextOfRun("a\n", [BLANK_ADDED], ["a", ""]);
    assert ["a", ""][1..] == [""];
    assert Join(["a", ""]) == "a\n";
    assert WriteLines(["a", ""], false) == "a\n" && WriteLines(["a", ""], true) == "a\n\n";
  }
}
