/** Applying unified diffs to a file's lines, the fallback for package managers that do not apply
    patches themselves (scripts/postinstall.js). */
module UnifiedDiff {
  import opened Wrappers
  import opened Sequences
  import opened Text
  import opened Splicing

  datatype Hunk = Hunk(oldStart: nat, oldLines: nat, newStart: nat, newLines: nat, lines: seq<Line>) {
    function Delta(): int { newLines - oldLines }

    /** The index the hunk is applied at when the hunks before it shifted the file by `offset`. */
    function Cursor(offset: int): int { oldStart - 1 + offset }
  }

  datatype HunkError = ContextMismatch(line: int) | DeleteMismatch(line: int) | UnexpectedMarker(raw: Line)

  predicate Kept(raw: Line) { |raw| > 0 && raw[0] == ' ' }
  predicate Added(raw: Line) { |raw| > 0 && raw[0] == '+' }
  predicate Removed(raw: Line) { |raw| > 0 && raw[0] == '-' }

  predicate Marked(body: seq<Line>) {
    forall k :: 0 <= k < |body| ==> Kept(body[k]) || Added(body[k]) || Removed(body[k])
  }

  /** The text a hunk body turns the file into: context and added lines. */
  function NewText(body: seq<Line>): seq<Line> {
    if |body| == 0 then []
    else (if Kept(body[0]) || Added(body[0]) then [body[0][1..]] else []) + NewText(body[1..])
  }

  /** The text a hunk body expects: context and removed lines. */
  function OldText(body: seq<Line>): seq<Line> {
    if |body| == 0 then []
    else (if Kept(body[0]) || Removed(body[0]) then [body[0][1..]] else []) + OldText(body[1..])
  }

  /** The header counts agree with the body. */
  predicate Counted(h: Hunk) {
    |OldText(h.lines)| == h.oldLines && |NewText(h.lines)| == h.newLines
  }

  // ---------------------------------------------------------------------------
  // One hunk
  // ---------------------------------------------------------------------------

  /** `lines[at] === text`: an index outside the array reads as undefined. */
  predicate Reads(lines: seq<Line>, at: int, text: Line) {
    0 <= at < |lines| && lines[at] == text
  }

  /** `lines.splice(at, 0, text)`: a negative index counts from the end, a large one is the end. */
  function InsertAt(lines: seq<Line>, at: int, text: Line): seq<Line> {
    var i := if at < 0 then (if |lines| + at < 0 then 0 else |lines| + at) else if at < |lines| then at else |lines|;
    lines[..i] + [text] + lines[i..]
  }

  function ApplyBody(lines: seq<Line>, body: seq<Line>, cursor: int): Result<seq<Line>, HunkError>
    decreases |body|
  {
    if |body| == 0 then Ok(lines)
    else if Kept(body[0]) then
      if Reads(lines, cursor, body[0][1..]) then ApplyBody(lines, body[1..], cursor + 1)
      else Err(ContextMismatch(cursor + 1))
    else if Removed(body[0]) then
      if Reads(lines, cursor, body[0][1..]) then ApplyBody(lines[..cursor] + lines[cursor + 1..], body[1..], cursor)
      else Err(DeleteMismatch(cursor + 1))
    else if Added(body[0]) then ApplyBody(InsertAt(lines, cursor, body[0][1..]), body[1..], cursor + 1)
    else Err(UnexpectedMarker(body[0]))
  }

  predicate AlreadyApplied(lines: seq<Line>, h: Hunk, offset: int) {
    var cursor, expected := h.Cursor(offset), NewText(h.lines);
    0 <= cursor && cursor + |expected| <= |lines| && lines[cursor..cursor + |expected|] == expected
  }

  function ApplyHunk(lines: seq<Line>, h: Hunk, offset: int): Result<seq<Line>, HunkError> {
    if AlreadyApplied(lines, h, offset) then Ok(lines) else ApplyBody(lines, h.lines, h.Cursor(offset))
  }

  /** One line of the body, with `before` behind the cursor and `after` from the cursor on. */
  lemma {:induction false} BodyHead(before: seq<Line>, after: seq<Line>, body: seq<Line>)
    requires |body| > 0
    ensures var text, rest, r := body[0][if |body[0]| > 0 then 1 else 0..], body[1..], ApplyBody(before + after, body, |before|);
            var found := |after| > 0 && after[0] == text;
            && (Added(body[0]) ==> r == ApplyBody((before + [text]) + after, rest, |before + [text]|))
            && (Kept(body[0]) && found ==> r == ApplyBody((before + [text]) + after[1..], rest, |before + [text]|))
            && (Removed(body[0]) && found ==> r == ApplyBody(before + after[1..], rest, |before|))
            && (r.Ok? ==> Added(body[0]) || ((Kept(body[0]) || Removed(body[0])) && found))
  {
    if Added(body[0]) {
      assert InsertAt(before + after, |before|, body[0][1..]) == before + [body[0][1..]] + after;
    } else if |after| > 0 {
      assert before + after == before + [after[0]] + after[1..];
      assert (before + after)[..|before|] + (before + after)[|before| + 1..] == before + after[1..];
    }
  }

  lemma {:induction false} BodySucceeds(before: seq<Line>, after: seq<Line>, body: seq<Line>)
    ensures ApplyBody(before + after, body, |before|).Ok? <==> Marked(body) && OldText(body) <= after
    decreases |body|
  {
    if |body| > 0 {
      BodyHead(before, after, body);
      MarkedHead(body);
      if Added(body[0]) {
        BodySucceeds(before + [body[0][1..]], after, body[1..]);
      } else if |body[0]| > 0 && |after| > 0 && after[0] == body[0][1..] {
        PrefixHead(after[0], OldText(body[1..]), after);
        if Kept(body[0]) {
          BodySucceeds(before + [after[0]], after[1..], body[1..]);
        } else if Removed(body[0]) {
          BodySucceeds(before, after[1..], body[1..]);
        }
      }
    }
  }

  /** `body` exchanges its old for its new text at the end of `before`. */
  predicate Exchanges(before: seq<Line>, after: seq<Line>, body: seq<Line>)
    requires |OldText(body)| <= |after|
  {
    ApplyBody(before + after, body, |before|) == Ok(before + NewText(body) + after[|OldText(body)|..])
  }

  lemma {:induction false} AddedThen(before: seq<Line>, after: seq<Line>, body: seq<Line>)
    requires |body| > 0 && Added(body[0]) && |OldText(body[1..])| <= |after|
    requires Exchanges(before + [body[0][1..]], after, body[1..])
    ensures |OldText(body)| <= |after| && Exchanges(before, after, body)
  {
    var x, rest := body[0][1..], body[1..];
    BodyHead(before, after, body);
    assert NewText(body) == [x] + NewText(rest) && OldText(body) == [] + OldText(rest) == OldText(rest);
    Regroup(before, [x], NewText(rest));
  }

  lemma {:induction false} KeptThen(before: seq<Line>, after: seq<Line>, body: seq<Line>)
    requires |body| > 0 && Kept(body[0]) && |after| > 0 && after[0] == body[0][1..] && OldText(body[1..]) <= after[1..]
    requires Exchanges(before + [after[0]], after[1..], body[1..])
    ensures |OldText(body)| <= |after| && Exchanges(before, after, body)
  {
    var x, rest := after[0], body[1..];
    BodyHead(before, after, body);
    PrefixHead(x, OldText(rest), after);
    assert NewText(body) == [x] + NewText(rest) && OldText(body) == [x] + OldText(rest);
    Regroup(before, [x], NewText(rest));
  }

  lemma {:induction false} RemovedThen(before: seq<Line>, after: seq<Line>, body: seq<Line>)
    requires |body| > 0 && Removed(body[0]) && |after| > 0 && after[0] == body[0][1..] && OldText(body[1..]) <= after[1..]
    requires Exchanges(before, after[1..], body[1..])
    ensures |OldText(body)| <= |after| && Exchanges(before, after, body)
  {
    var x, rest := after[0], body[1..];
    BodyHead(before, after, body);
    PrefixHead(x, OldText(rest), after);
    assert NewText(body) == [] + NewText(rest) == NewText(rest) && OldText(body) == [x] + OldText(rest);
  }

  lemma {:induction false} BodyResult(before: seq<Line>, after: seq<Line>, body: seq<Line>)
    requires OldText(body) <= after && ApplyBody(before + after, body, |before|).Ok?
    ensures Exchanges(before, after, body)
    decreases |body|
  {
    if |body| > 0 {
      BodyHead(before, after, body);
      if Added(body[0]) {
        BodyResult(before + [body[0][1..]], after, body[1..]);
        AddedThen(before, after, body);
      } else {
        PrefixHead(after[0], OldText(body[1..]), after);
        if Kept(body[0]) {
          BodyResult(before + [after[0]], after[1..], body[1..]);
          KeptThen(before, after, body);
        } else {
          BodyResult(before, after[1..], body[1..]);
          RemovedThen(before, after, body);
        }
      }
    } else {
      assert before + [] + after[0..] == before + after;
    }
  }

  /** Walking a hunk body over the lines `after`, with `before` already behind the cursor, succeeds
      exactly when all markers are known and `after` begins with the old text, which is then
      exchanged for the new one. */
  lemma {:induction false} BodyReplaces(before: seq<Line>, after: seq<Line>, body: seq<Line>)
    ensures var r := ApplyBody(before + after, body, |before|);
            && (r.Ok? <==> Marked(body) && OldText(body) <= after)
            && (r.Ok? ==> r.value == before + NewText(body) + after[|OldText(body)|..])
  {
    BodySucceeds(before, after, body);
    if ApplyBody(before + after, body, |before|).Ok? {
      BodyResult(before, after, body);
    }
  }

  lemma {:induction false} MarkedHead(body: seq<Line>)
    requires |body| > 0
    ensures Marked(body) <==> (Kept(body[0]) || Added(body[0]) || Removed(body[0])) && Marked(body[1..])
  {
  }

  lemma {:induction false} PrefixHead(x: Line, xs: seq<Line>, s: seq<Line>)
    requires |s| > 0 && s[0] == x
    ensures [x] + xs <= s <==> xs <= s[1..]
    ensures xs <= s[1..] ==> s[|xs| + 1..] == s[1..][|xs|..]
  {
    assert s == [x] + s[1..];
    if xs <= s[1..] {
      assert s == [x] + xs + s[1..][|xs|..];
    }
    if [x] + xs <= s {
      assert s[..|xs| + 1][1..] == s[1..][..|xs|];
    }
  }

  // ---------------------------------------------------------------------------
  // A hunk's context and its core
  // ---------------------------------------------------------------------------

  /** The number of context lines a body begins with. */
  function Lead(body: seq<Line>): (n: nat)
    ensures n <= |body|
  {
    if |body| > 0 && Kept(body[0]) then 1 + Lead(body[1..]) else 0
  }

  function WithoutTrail(body: seq<Line>): seq<Line> {
    if |body| > 0 && Kept(body[|body| - 1]) then WithoutTrail(body[..|body| - 1]) else body
  }

  /** The body without its leading and trailing context. */
  function Core(body: seq<Line>): seq<Line> {
    WithoutTrail(body[Lead(body)..])
  }

  lemma {:induction false} LeadBound(body: seq<Line>)
    ensures Lead(body) <= |body| && forall k :: 0 <= k < Lead(body) ==> Kept(body[k])
  {
    if |body| > 0 && Kept(body[0]) {
      LeadBound(body[1..]);
    }
  }

  lemma {:induction false} TrailBound(body: seq<Line>)
    ensures WithoutTrail(body) <= body
    ensures forall k :: |WithoutTrail(body)| <= k < |body| ==> Kept(body[k])
  {
    if |body| > 0 && Kept(body[|body| - 1]) {
      TrailBound(body[..|body| - 1]);
    }
  }

  lemma {:induction false} NewTextConcat(a: seq<Line>, b: seq<Line>)
    ensures NewText(a + b) == NewText(a) + NewText(b)
  {
    if |a| == 0 {
      assert a + b == b;
    } else {
      NewTextConcat(a[1..], b);
      assert (a + b)[0] == a[0] && (a + b)[1..] == a[1..] + b;
      Regroup(if Kept(a[0]) || Added(a[0]) then [a[0][1..]] else [], NewText(a[1..]), NewText(b));
    }
  }

  lemma {:induction false} OldTextConcat(a: seq<Line>, b: seq<Line>)
    ensures OldText(a + b) == OldText(a) + OldText(b)
  {
    if |a| == 0 {
      assert a + b == b;
    } else {
      OldTextConcat(a[1..], b);
      assert (a + b)[0] == a[0] && (a + b)[1..] == a[1..] + b;
      Regroup(if Kept(a[0]) || Removed(a[0]) then [a[0][1..]] else [], OldText(a[1..]), OldText(b));
    }
  }

  lemma {:induction false} TextsConcat(a: seq<Line>, b: seq<Line>)
    ensures NewText(a + b) == NewText(a) + NewText(b)
    ensures OldText(a + b) == OldText(a) + OldText(b)
  {
    NewTextConcat(a, b);
    OldTextConcat(a, b);
  }

  lemma {:induction false} KeptTexts(body: seq<Line>)
    requires forall k :: 0 <= k < |body| ==> Kept(body[k])
    ensures OldText(body) == NewText(body) && |NewText(body)| == |body|
  {
    if |body| > 0 {
      KeptTexts(body[1..]);
    }
  }

  lemma {:induction false} LeadTexts(body: seq<Line>)
    ensures Lead(body) <= |body|
    ensures var front := body[..Lead(body)]; OldText(front) == NewText(front) && |NewText(front)| == |front|
  {
    LeadBound(body);
    KeptTexts(body[..Lead(body)]);
  }

  lemma {:induction false} TrailTexts(body: seq<Line>)
    ensures WithoutTrail(body) <= body
    ensures var back := body[|WithoutTrail(body)|..]; OldText(back) == NewText(back)
  {
    TrailBound(body);
    KeptTexts(body[|WithoutTrail(body)|..]);
  }

  lemma {:induction false} PrefixAndRest<T>(a: seq<T>, s: seq<T>)
    requires a <= s
    ensures s == a + s[|a|..]
  {
  }

  /** A body is its leading context, its core, and its trailing context. */
  lemma {:induction false} BodyParts(body: seq<Line>) returns (front: seq<Line>, back: seq<Line>)
    ensures |front| == Lead(body) && body == front + (Core(body) + back)
    ensures OldText(front) == NewText(front) && OldText(back) == NewText(back) && |NewText(front)| == |front|
  {
    LeadTexts(body);
    front := body[..Lead(body)];
    var rest := body[Lead(body)..];
    TrailTexts(rest);
    back := rest[|Core(body)|..];
    PrefixAndRest(Core(body), rest);
    PrefixAndRest(front, body);
  }

  lemma {:induction false} OldTextOfParts(front: seq<Line>, core: seq<Line>, back: seq<Line>)
    ensures OldText(front + (core + back)) == OldText(front) + OldText(core) + OldText(back)
  {
    OldTextConcat(front, core + back);
    OldTextConcat(core, back);
    Regroup(OldText(front), OldText(core), OldText(back));
  }

  lemma {:induction false} NewTextOfParts(front: seq<Line>, core: seq<Line>, back: seq<Line>)
    ensures NewText(front + (core + back)) == NewText(front) + NewText(core) + NewText(back)
  {
    NewTextConcat(front, core + back);
    NewTextConcat(core, back);
    Regroup(NewText(front), NewText(core), NewText(back));
  }

  /** Old and new text share the context around the core. */
  lemma {:induction false} CoreSplit(body: seq<Line>) returns (a: seq<Line>, z: seq<Line>)
    ensures |a| == Lead(body)
    ensures OldText(body) == a + OldText(Core(body)) + z
    ensures NewText(body) == a + NewText(Core(body)) + z
  {
    var front, back := BodyParts(body);
    OldTextOfParts(front, Core(body), back);
    NewTextOfParts(front, Core(body), back);
    a, z := NewText(front), NewText(back);
  }

  // ---------------------------------------------------------------------------
  // One hunk's turn
  // ---------------------------------------------------------------------------

  /** A hunk with old lines can only succeed at a cursor inside the file. */
  lemma {:induction false} BeyondEndFails(lines: seq<Line>, body: seq<Line>, cursor: int)
    requires cursor > |lines| && |OldText(body)| > 0
    ensures ApplyBody(lines, body, cursor).Err?
    decreases |body|
  {
    if |body| > 0 && Added(body[0]) {
      BeyondEndFails(InsertAt(lines, cursor, body[0][1..]), body[1..], cursor + 1);
    }
  }

  /** The turn of a hunk is regular: the header counts are right, its first change does not lie before
      the file, and a hunk that only adds lines is not aimed beyond the end of the file. */
  predicate Regular(lines: seq<Line>, h: Hunk, offset: int) {
    && Counted(h)
    && 0 <= h.Cursor(offset) + Lead(h.lines)
    && (h.oldLines == 0 ==> h.Cursor(offset) <= |lines|)
  }

  lemma {:induction false} TurnInside(lines: seq<Line>, h: Hunk, offset: int)
    requires Regular(lines, h, offset) && ApplyHunk(lines, h, offset).Ok?
    ensures 0 <= h.Cursor(offset) <= |lines|
  {
    if h.Cursor(offset) > |lines| && |OldText(h.lines)| > 0 {
      BeyondEndFails(lines, h.lines, h.Cursor(offset));
    }
  }

  /** A successful turn that finds the hunk not yet applied exchanges old for new text. */
  lemma {:induction false} FreshTurn(lines: seq<Line>, h: Hunk, offset: int)
    requires 0 <= h.Cursor(offset) <= |lines| && ApplyHunk(lines, h, offset).Ok? && !AlreadyApplied(lines, h, offset)
    ensures var cursor := h.Cursor(offset);
            && OldText(h.lines) <= lines[cursor..]
            && ApplyHunk(lines, h, offset).value
                 == lines[..cursor] + NewText(h.lines) + lines[cursor + |OldText(h.lines)|..]
  {
    var cursor := h.Cursor(offset);
    var before, after := lines[..cursor], lines[cursor..];
    assert before + after == lines;
    BodyReplaces(before, after, h.lines);
    assert after[|OldText(h.lines)|..] == lines[cursor + |OldText(h.lines)|..];
  }

  /** After a successful turn the new text stands at the cursor, and everything before the hunk's
      first change is as it was. */
  lemma {:induction false} TurnResult(lines: seq<Line>, h: Hunk, offset: int)
    requires Regular(lines, h, offset) && ApplyHunk(lines, h, offset).Ok?
    ensures var after, cursor := ApplyHunk(lines, h, offset).value, h.Cursor(offset);
            var edge := cursor + Lead(h.lines);
            && 0 <= cursor && AlreadyApplied(after, h, offset)
            && edge <= cursor + h.newLines && edge <= |lines| && edge <= |after|
            && after[..edge] == lines[..edge]
  {
    TurnInside(lines, h, offset);
    var a, z := CoreSplit(h.lines);
    var after, cursor := ApplyHunk(lines, h, offset).value, h.Cursor(offset);
    if !AlreadyApplied(lines, h, offset) {
      FreshTurn(lines, h, offset);
      assert after[cursor..cursor + h.newLines] == NewText(h.lines);
      assert lines[cursor..][..|OldText(h.lines)|] == OldText(h.lines);
      assert lines[..cursor + |a|] == lines[..cursor] + a;
      assert after[..cursor + |a|] == lines[..cursor] + a;
    }
  }

  /** On a file that holds the hunk's old text, the hunk is performed exactly when it does not look
      applied already or does not change the number of lines. */
  lemma {:induction false} PerformedIff(lines: seq<Line>, h: Hunk, offset: int)
    requires Counted(h) && Marked(h.lines) && 0 <= h.Cursor(offset) <= |lines|
    requires OldText(h.lines) <= lines[h.Cursor(offset)..]
    ensures var cursor := h.Cursor(offset);
            ApplyHunk(lines, h, offset) == Ok(lines[..cursor] + NewText(h.lines) + lines[cursor + h.oldLines..])
            <==> !AlreadyApplied(lines, h, offset) || h.Delta() == 0
  {
    var cursor := h.Cursor(offset);
    var performed := lines[..cursor] + NewText(h.lines) + lines[cursor + h.oldLines..];
    assert |performed| == |lines| + h.Delta();
    if AlreadyApplied(lines, h, offset) {
      if h.Delta() == 0 {
        assert lines == lines[..cursor] + lines[cursor..cursor + h.newLines] + lines[cursor + h.newLines..];
      }
    } else {
      var before, after := lines[..cursor], lines[cursor..];
      assert before + after == lines;
      BodyReplaces(before, after, h.lines);
      assert after[h.oldLines..] == lines[cursor + h.oldLines..];
    }
  }

  const ONE_OF_THREE := Hunk(1, 3, 1, 2, [" a", "-a", " a"])

  lemma {:induction false} OneOfThreeTexts()
    ensures OldText(ONE_OF_THREE.lines) == ["a", "a", "a"] && NewText(ONE_OF_THREE.lines) == ["a", "a"]
  {
    assert ONE_OF_THREE.lines == [" a"] + (["-a"] + [" a"]) && " a"[1..] == "a" && "-a"[1..] == "a";
    TextsConcat([" a"], ["-a"] + [" a"]);
    TextsConcat(["-a"], [" a"]);
  }

  lemma {:induction false} SkippedTurn(lines: seq<Line>, h: Hunk, text: seq<Line>)
    requires NewText(h.lines) == text && h.oldStart == 1 && text <= lines
    ensures ApplyHunk(lines, h, 0) == Ok(lines)
  {
  }

  /** Deleting one of three equal lines looks applied already, so the hunk is skipped. */
  lemma {:induction false} RepeatedLinesAreSkipped()
    ensures Counted(ONE_OF_THREE) && OldText(ONE_OF_THREE.lines) <= ["a", "a", "a"]
    ensures ApplyHunk(["a", "a", "a"], ONE_OF_THREE, 0) == Ok(["a", "a", "a"])
  {
    OneOfThreeTexts();
    SkippedTurn(["a", "a", "a"], ONE_OF_THREE, ["a", "a"]);
  }

  /** A hunk without old lines goes before line `oldStart`; in the format of POSIX.1-2017, "Diff -u or
      -U Output Format", an empty range begins with the number of the line it follows. */
  lemma {:induction false} PureInsertionLandsOneLineEarly(lines: seq<Line>, h: Hunk)
    requires Counted(h) && Marked(h.lines) && h.oldLines == 0 && 1 <= h.oldStart <= |lines|
    requires !AlreadyApplied(lines, h, 0)
    ensures ApplyHunk(lines, h, 0) == Ok(lines[..h.oldStart - 1] + NewText(h.lines) + lines[h.oldStart - 1..])
  {
    PerformedIff(lines, h, 0);
  }

  // ---------------------------------------------------------------------------
  // A whole file patch
  // ---------------------------------------------------------------------------

  /** All hunks in order, each shifted by the line counts in the headers before it. */
  function Run(lines: seq<Line>, hunks: seq<Hunk>, offset: int): Result<seq<Line>, HunkError>
    decreases |hunks|
  {
    if |hunks| == 0 then Ok(lines)
    else match ApplyHunk(lines, hunks[0], offset)
      case Err(e) => Err(e)
      case Ok(after) => Run(after, hunks[1..], offset + hunks[0].Delta())
  }

  predicate AllCounted(hunks: seq<Hunk>) {
    forall k :: 0 <= k < |hunks| ==> Counted(hunks[k])
  }

  /** No hunk that only adds lines is aimed beyond the end of the file at its turn. */
  predicate InsertionsInside(lines: seq<Line>, hunks: seq<Hunk>, offset: int)
    decreases |hunks|
  {
    |hunks| == 0 ||
    ((hunks[0].oldLines == 0 ==> hunks[0].Cursor(offset) <= |lines|) &&
     match ApplyHunk(lines, hunks[0], offset)
     case Err(_) => true
     case Ok(after) => InsertionsInside(after, hunks[1..], offset + hunks[0].Delta()))
  }

  // ---------------------------------------------------------------------------
  // Offset tracking
  // ---------------------------------------------------------------------------

  /** A hunk as an index replacement of the original file, without its surrounding context. */
  function CoreReplacement(h: Hunk): Replacement
    requires h.oldStart + Lead(h.lines) >= 1
  {
    Replacement(h.oldStart - 1 + Lead(h.lines), |OldText(Core(h.lines))|, NewText(Core(h.lines)))
  }

  /** The cores lie in order, the first at index `from` or later. */
  predicate CoresOrdered(hunks: seq<Hunk>, from: nat) {
    |hunks| == 0 ||
    (from <= hunks[0].oldStart - 1 + Lead(hunks[0].lines) && CoresOrdered(hunks[1..], CoreReplacement(hunks[0]).End()))
  }

  function CoreReplacements(hunks: seq<Hunk>, from: nat): seq<Replacement>
    requires CoresOrdered(hunks, from)
  {
    if |hunks| == 0 then []
    else [CoreReplacement(hunks[0])] + CoreReplacements(hunks[1..], CoreReplacement(hunks[0]).End())
  }

  /** No hunk that changes the number of lines looks applied already at its turn. */
  predicate NoneSkipped(lines: seq<Line>, hunks: seq<Hunk>, offset: int)
    decreases |hunks|
  {
    |hunks| == 0 ||
    ((AlreadyApplied(lines, hunks[0], offset) ==> hunks[0].Delta() == 0) &&
     match ApplyHunk(lines, hunks[0], offset)
     case Err(_) => true
     case Ok(after) => NoneSkipped(after, hunks[1..], offset + hunks[0].Delta()))
  }

  /** A turn that skips nothing exchanges exactly the core. */
  lemma {:induction false} CoreTurn(lines: seq<Line>, h: Hunk, offset: int)
    requires Regular(lines, h, offset) && ApplyHunk(lines, h, offset).Ok?
    requires AlreadyApplied(lines, h, offset) ==> h.Delta() == 0
    ensures var at, core := h.Cursor(offset) + Lead(h.lines), Core(h.lines);
            && at + |OldText(core)| <= |lines|
            && ApplyHunk(lines, h, offset).value == lines[..at] + NewText(core) + lines[at + |OldText(core)|..]
            && |NewText(core)| - |OldText(core)| == h.Delta()
  {
    TurnInside(lines, h, offset);
    if AlreadyApplied(lines, h, offset) {
      var a, z := CoreSplit(h.lines);
      Sandwich(lines, h.Cursor(offset), a, NewText(Core(h.lines)), z);
    } else {
      FreshCoreTurn(lines, h, offset);
    }
  }

  lemma {:induction false} FreshCoreTurn(lines: seq<Line>, h: Hunk, offset: int)
    requires Counted(h) && 0 <= h.Cursor(offset) <= |lines|
    requires ApplyHunk(lines, h, offset).Ok? && !AlreadyApplied(lines, h, offset)
    ensures var at, core := h.Cursor(offset) + Lead(h.lines), Core(h.lines);
            && at + |OldText(core)| <= |lines|
            && ApplyHunk(lines, h, offset).value == lines[..at] + NewText(core) + lines[at + |OldText(core)|..]
            && |NewText(core)| - |OldText(core)| == h.Delta()
  {
    FreshTurn(lines, h, offset);
    var a, z := CoreSplit(h.lines);
    ExchangeCore(lines, h.Cursor(offset), a, OldText(Core(h.lines)), NewText(Core(h.lines)), z);
  }

  lemma {:induction false} ExchangeCore(lines: seq<Line>, cursor: nat, a: seq<Line>, o: seq<Line>, n: seq<Line>, z: seq<Line>)
    requires cursor <= |lines| && a + o + z <= lines[cursor..]
    ensures cursor + |a| + |o| <= |lines|
    ensures lines[..cursor] + (a + n + z) + lines[cursor + |a + o + z|..]
         == lines[..cursor + |a|] + n + lines[cursor + |a| + |o|..]
  {
    var end := cursor + |a + o + z|;
    assert lines[cursor..end] == lines[cursor..][..|a + o + z|];
    Sandwich(lines, cursor, a, o, z);
    RegroupFive(lines[..cursor], a, n, z, lines[end..]);
  }

  lemma {:induction false} Sandwich(lines: seq<Line>, cursor: nat, a: seq<Line>, m: seq<Line>, z: seq<Line>)
    requires cursor + |a| + |m| + |z| <= |lines|
    requires lines[cursor..cursor + |a| + |m| + |z|] == a + m + z
    ensures lines[..cursor + |a|] == lines[..cursor] + a
    ensures lines[cursor + |a| + |m|..] == z + lines[cursor + |a| + |m| + |z|..]
    ensures lines == lines[..cursor + |a|] + m + lines[cursor + |a| + |m|..]
  {
    var w := lines[cursor..cursor + |a| + |m| + |z|];
    assert lines == lines[..cursor] + w + lines[cursor + |a| + |m| + |z|..];
  }

  lemma {:induction false} ChainedCons(n: nat, r: Replacement, reps: seq<Replacement>)
    requires Chained(n, reps) && r.End() <= n
    requires forall k :: 0 <= k < |reps| ==> r.End() <= reps[k].start
    ensures Chained(n, [r] + reps)
  {
    var all := [r] + reps;
    assert all[1..] == reps;
    forall j, k | 0 <= j < k < |all| ensures Before(all[j], all[k]) {
      if j > 0 {
        assert Before(reps[j - 1], reps[k - 1]);
      }
    }
  }

  lemma {:induction false} SubstituteCons(lines: seq<Line>, front: seq<Line>, from: nat, r: Replacement, reps: seq<Replacement>)
    requires Chained(|lines|, reps) && from <= r.start <= r.End() <= |lines|
    requires forall k :: 0 <= k < |reps| ==> r.End() <= reps[k].start
    ensures Chained(|lines|, [r] + reps) && forall k :: 0 <= k < |[r] + reps| ==> from <= ([r] + reps)[k].start
    ensures front + Substitute(lines, [r] + reps, from)
         == front + lines[from..r.start] + r.newLines + Substitute(lines, reps, r.End())
  {
    ChainedCons(|lines|, r, reps);
    assert ([r] + reps)[1..] == reps;
    RegroupFour(front, lines[from..r.start], r.newLines, Substitute(lines, reps, r.End()));
  }

  /** The invariant of the run: the file is an edited front followed by the untouched original from
      `from` on, and the header offset is exactly the difference of the two positions. */
  lemma {:induction false} RunFromFront(original: seq<Line>, front: seq<Line>, from: nat, hunks: seq<Hunk>, offset: int)
    requires from <= |original| && |front| == from + offset
    requires CoresOrdered(hunks, from) && AllCounted(hunks)
    requires var lines := front + original[from..];
             InsertionsInside(lines, hunks, offset) && NoneSkipped(lines, hunks, offset) && Run(lines, hunks, offset).Ok?
    ensures var reps := CoreReplacements(hunks, from);
            && Chained(|original|, reps) && (forall k :: 0 <= k < |reps| ==> from <= reps[k].start)
            && Run(front + original[from..], hunks, offset) == Ok(front + Substitute(original, reps, from))
    decreases |hunks|
  {
    var lines := front + original[from..];
    if |hunks| > 0 {
      var h, rest := hunks[0], hunks[1..];
      var c := CoreReplacement(h);
      FrontStep(original, front, from, h, offset);
      var longer, next := front + original[from..c.start] + c.newLines, offset + h.Delta();
      RunFromFront(original, longer, c.End(), rest, next);
      SubstituteCons(original, front, from, c, CoreReplacements(rest, c.End()));
    }
  }

  lemma {:induction false} FrontStep(original: seq<Line>, front: seq<Line>, from: nat, h: Hunk, offset: int)
    requires from <= |original| && |front| == from + offset
    requires h.oldStart + Lead(h.lines) >= 1 && from <= CoreReplacement(h).start
    requires var lines := front + original[from..];
             && Regular(lines, h, offset) && ApplyHunk(lines, h, offset).Ok?
             && (AlreadyApplied(lines, h, offset) ==> h.Delta() == 0)
    ensures var c := CoreReplacement(h);
            && c.End() <= |original| && |c.newLines| - c.oldLen == h.Delta()
            && ApplyHunk(front + original[from..], h, offset).value
                 == front + original[from..c.start] + c.newLines + original[c.End()..]
  {
    var lines := front + original[from..];
    var c := CoreReplacement(h);
    CoreTurn(lines, h, offset);
    var at := h.Cursor(offset) + Lead(h.lines);
    assert at == |front| + (c.start - from);
    assert lines[..at] == front + original[from..c.start];
    assert lines[at + c.oldLen..] == original[c.End()..];
  }

  /** Folding the hunks with the running offset replaces every core of the original file at once. */
  lemma {:induction false} OffsetsAreRight(original: seq<Line>, hunks: seq<Hunk>)
    requires CoresOrdered(hunks, 0) && AllCounted(hunks)
    requires InsertionsInside(original, hunks, 0) && NoneSkipped(original, hunks, 0) && Run(original, hunks, 0).Ok?
    ensures var reps := CoreReplacements(hunks, 0);
            && Chained(|original|, reps)
            && Run(original, hunks, 0) == Ok(Substitute(original, reps, 0))
  {
    assert [] + original[0..] == original;
    RunFromFront(original, [], 0, hunks, 0);
    NothingBefore(Substitute(original, CoreReplacements(hunks, 0), 0));
  }

  lemma {:induction false} NothingBefore(lines: seq<Line>)
    ensures [] + lines == lines
  {
  }

  // ---------------------------------------------------------------------------
  // When a run succeeds
  // ---------------------------------------------------------------------------

  /** The text stands at that index of the file. */
  predicate Stands(lines: seq<Line>, at: int, text: seq<Line>) {
    0 <= at && at + |text| <= |lines| && lines[at..at + |text|] == text
  }

  /** The hunk's old text stands where its header says, or its new text does already. */
  predicate Fits(original: seq<Line>, h: Hunk) {
    || (Marked(h.lines) && Stands(original, h.oldStart - 1, OldText(h.lines)))
    || Stands(original, h.oldStart - 1, NewText(h.lines))
  }

  /** The hunk does not insert beyond the end of a file of `n` lines. */
  predicate Aimed(h: Hunk, n: int) {
    h.oldLines == 0 ==> h.oldStart - 1 <= n
  }

  /** The hunk would not be skipped, or does not change the number of lines. */
  predicate Unskipped(original: seq<Line>, h: Hunk) {
    Stands(original, h.oldStart - 1, NewText(h.lines)) ==> h.Delta() == 0
  }

  /** The old ranges lie one behind the other, the first at index `from` or later. */
  predicate RangesApart(hunks: seq<Hunk>, from: nat) {
    |hunks| == 0 ||
    (from + 1 <= hunks[0].oldStart && RangesApart(hunks[1..], hunks[0].oldStart - 1 + hunks[0].oldLines))
  }

  lemma {:induction false} StandsBehind(original: seq<Line>, front: seq<Line>, from: nat, at: nat, text: seq<Line>)
    requires from <= |original| && from <= at
    ensures Stands(front + original[from..], |front| + at - from, text) <==> Stands(original, at, text)
  {
    var lines, i := front + original[from..], |front| + at - from;
    if at + |text| <= |original| {
      assert lines[i..i + |text|] == original[at..at + |text|];
    }
  }

  lemma {:induction false} StandingText(original: seq<Line>, front: seq<Line>, from: nat, start: nat, text: seq<Line>)
    requires from <= start && Stands(original, start, text)
    ensures front + original[from..] == front + original[from..start] + text + original[start + |text|..]
  {
    FrontParts(front, original, from, start, start + |text|);
  }

  lemma {:induction false} SkippedRangeStep(original: seq<Line>, front: seq<Line>, from: nat, h: Hunk, offset: int)
    requires from <= |original| && |front| == from + offset && from + 1 <= h.oldStart
    requires Counted(h) && Unskipped(original, h) && AlreadyApplied(front + original[from..], h, offset)
    ensures var start, end := h.oldStart - 1, h.oldStart - 1 + h.oldLines;
            && Stands(original, start, NewText(h.lines)) && end <= |original|
            && front + original[from..] == front + original[from..start] + NewText(h.lines) + original[end..]
  {
    StandsBehind(original, front, from, h.oldStart - 1, NewText(h.lines));
    StandingText(original, front, from, h.oldStart - 1, NewText(h.lines));
  }

  lemma {:induction false} FrontParts(front: seq<Line>, lines: seq<Line>, from: nat, i: nat, j: nat)
    requires from <= i <= j <= |lines|
    ensures front + lines[from..] == front + lines[from..i] + lines[i..j] + lines[j..]
  {
    assert lines[from..] == lines[from..i] + lines[i..j] + lines[j..];
    RegroupFour(front, lines[from..i], lines[i..j], lines[j..]);
  }

  /** Behind an edited front, a hunk's turn goes by the original lines. */
  lemma {:induction false} RangeStep(original: seq<Line>, front: seq<Line>, from: nat, h: Hunk, offset: int)
    requires from <= |original| && |front| == from + offset && from + 1 <= h.oldStart
    requires Counted(h) && Aimed(h, |original|) && Unskipped(original, h)
    ensures var r, start, end := ApplyHunk(front + original[from..], h, offset), h.oldStart - 1, h.oldStart - 1 + h.oldLines;
            && (r.Ok? <==> Fits(original, h))
            && (r.Ok? ==> end <= |original| &&
                          r.value == front + original[from..start] + NewText(h.lines) + original[end..])
  {
    var lines, cursor := front + original[from..], h.Cursor(offset);
    StandsBehind(original, front, from, h.oldStart - 1, NewText(h.lines));
    if AlreadyApplied(lines, h, offset) {
      SkippedRangeStep(original, front, from, h, offset);
    } else if cursor > |lines| {
      BeyondEndFails(lines, h.lines, cursor);
    } else {
      FreshRangeStep(original, front, from, h, offset);
    }
  }

  lemma {:induction false} FreshRangeStep(original: seq<Line>, front: seq<Line>, from: nat, h: Hunk, offset: int)
    requires from <= |original| && |front| == from + offset && from + 1 <= h.oldStart <= |original| + 1
    requires Counted(h) && !AlreadyApplied(front + original[from..], h, offset)
    ensures var r, start, end := ApplyHunk(front + original[from..], h, offset), h.oldStart - 1, h.oldStart - 1 + h.oldLines;
            && (r.Ok? <==> Marked(h.lines) && Stands(original, start, OldText(h.lines)))
            && (r.Ok? ==> end <= |original| &&
                          r.value == front + original[from..start] + NewText(h.lines) + original[end..])
  {
    var start, expected := h.oldStart - 1, OldText(h.lines);
    var before, after := front + original[from..start], original[start..];
    assert before + after == front + original[from..] && |before| == h.Cursor(offset);
    BodyReplaces(before, after, h.lines);
    if start + |expected| <= |original| {
      assert after[..|expected|] == original[start..start + |expected|] && after[|expected|..] == original[start + |expected|..];
    }
  }

  predicate AllFit(original: seq<Line>, hunks: seq<Hunk>) {
    |hunks| == 0 || (Fits(original, hunks[0]) && AllFit(original, hunks[1..]))
  }

  /** No hunk inserts beyond the end, and none is skipped that changes the number of lines. */
  predicate AllPlain(original: seq<Line>, hunks: seq<Hunk>) {
    |hunks| == 0 || (Aimed(hunks[0], |original|) && Unskipped(original, hunks[0]) && AllPlain(original, hunks[1..]))
  }

  /** The first hunk's turn in such a run. */
  lemma {:induction false} FirstFits(original: seq<Line>, front: seq<Line>, from: nat, hunks: seq<Hunk>, offset: int)
    requires |hunks| > 0 && from <= |original| && |front| == from + offset && Fits(original, hunks[0])
    requires RangesApart(hunks, from) && AllCounted(hunks) && AllPlain(original, hunks)
    ensures var h, start, end := hunks[0], hunks[0].oldStart - 1, hunks[0].oldStart - 1 + hunks[0].oldLines;
            && from <= start <= end <= |original|
            && |front + original[from..start] + NewText(h.lines)| == end + offset + h.Delta()
            && Run(front + original[from..], hunks, offset)
               == Run(front + original[from..start] + NewText(h.lines) + original[end..], hunks[1..], offset + h.Delta())
  {
    RangeStep(original, front, from, hunks[0], offset);
    assert Counted(hunks[0]);
  }

  lemma {:induction false} FirstFails(original: seq<Line>, front: seq<Line>, from: nat, hunks: seq<Hunk>, offset: int)
    requires |hunks| > 0 && from <= |original| && |front| == from + offset && !Fits(original, hunks[0])
    requires RangesApart(hunks, from) && AllCounted(hunks) && AllPlain(original, hunks)
    ensures Run(front + original[from..], hunks, offset).Err?
  {
    RangeStep(original, front, from, hunks[0], offset);
  }

  lemma {:induction false} RangesSucceed(original: seq<Line>, front: seq<Line>, from: nat, hunks: seq<Hunk>, offset: int)
    requires from <= |original| && |front| == from + offset && RangesApart(hunks, from) && AllCounted(hunks)
    requires AllPlain(original, hunks)
    ensures Run(front + original[from..], hunks, offset).Ok? <==> AllFit(original, hunks)
    decreases |hunks|
  {
    if |hunks| > 0 {
      var h := hunks[0];
      if Fits(original, h) {
        FirstFits(original, front, from, hunks, offset);
        var longer := front + original[from..h.oldStart - 1] + NewText(h.lines);
        RangesSucceed(original, longer, h.oldStart - 1 + h.oldLines, hunks[1..], offset + h.Delta());
      } else {
        FirstFails(original, front, from, hunks, offset);
      }
    }
  }

  lemma {:induction false} RangesPlain(original: seq<Line>, front: seq<Line>, from: nat, hunks: seq<Hunk>, offset: int)
    requires from <= |original| && |front| == from + offset && RangesApart(hunks, from) && AllCounted(hunks)
    requires AllPlain(original, hunks)
    ensures var lines := front + original[from..];
            InsertionsInside(lines, hunks, offset) && NoneSkipped(lines, hunks, offset)
    decreases |hunks|
  {
    if |hunks| > 0 {
      var h := hunks[0];
      RangeStep(original, front, from, h, offset);
      StandsBehind(original, front, from, h.oldStart - 1, NewText(h.lines));
      if Fits(original, h) {
        var longer := front + original[from..h.oldStart - 1] + NewText(h.lines);
        RangesPlain(original, longer, h.oldStart - 1 + h.oldLines, hunks[1..], offset + h.Delta());
      }
    }
  }

  lemma {:induction false} RangesHoldCores(hunks: seq<Hunk>, from: nat, lower: nat)
    requires RangesApart(hunks, from) && AllCounted(hunks) && lower <= from
    ensures CoresOrdered(hunks, lower)
    decreases |hunks|
  {
    if |hunks| > 0 {
      var h := hunks[0];
      assert Counted(h);
      var a, z := CoreSplit(h.lines);
      RangesHoldCores(hunks[1..], h.oldStart - 1 + h.oldLines, CoreReplacement(h).End());
    }
  }

  /** For hunks whose old ranges lie apart, of which none is skipped, the run succeeds exactly when each
      hunk's old text stands in the original where its header says (or its new text, of equal length); the
      result then has every core exchanged at once. */
  lemma {:induction false} RunSucceedsIff(original: seq<Line>, hunks: seq<Hunk>)
    requires RangesApart(hunks, 0) && AllCounted(hunks) && AllPlain(original, hunks)
    ensures Run(original, hunks, 0).Ok? <==> AllFit(original, hunks)
    ensures AllFit(original, hunks) ==>
              && CoresOrdered(hunks, 0) && Chained(|original|, CoreReplacements(hunks, 0))
              && Run(original, hunks, 0) == Ok(Substitute(original, CoreReplacements(hunks, 0), 0))
  {
    assert [] + original[0..] == original;
    RangesSucceed(original, [], 0, hunks, 0);
    if AllFit(original, hunks) {
      RangesPlain(original, [], 0, hunks, 0);
      RangesHoldCores(hunks, 0, 0);
      OffsetsAreRight(original, hunks);
    }
  }

  // ---------------------------------------------------------------------------
  // The lines being edited
  // ---------------------------------------------------------------------------

  /** The first loop of `applyHunk`: the text the hunk leaves behind. */
  method ExpectedLines(body: seq<Line>) returns (expected: seq<Line>)
    ensures expected == NewText(body)
  {
    expected := [];
    assert body[0..] == body;
    for i := 0 to |body|
      invariant NewText(body) == expected + NewText(body[i..])
    {
      NewTextStep(body[i..]);
      assert body[i..][1..] == body[i + 1..];
      if Kept(body[i]) || Added(body[i]) {
        expected := expected + [body[i][1..]];
      }
    }
    assert body[|body|..] == [];
    assert expected == expected + NewText(body[|body|..]);
  }

  lemma {:induction false} NewTextStep(body: seq<Line>)
    requires |body| > 0
    ensures NewText(body) == (if Kept(body[0]) || Added(body[0]) then [body[0][1..]] else []) + NewText(body[1..])
  {
  }

  /** The second loop: compare it with the lines at the cursor. */
  method LooksApplied(lines: seq<Line>, h: Hunk, offset: int) returns (applied: bool)
    ensures applied == AlreadyApplied(lines, h, offset)
  {
    var cursor := h.Cursor(offset);
    var expected := ExpectedLines(h.lines);
    if cursor < 0 || cursor + |expected| > |lines| {
      return false;
    }
    for i := 0 to |expected|
      invariant forall k :: 0 <= k < i ==> lines[cursor + k] == expected[k]
    {
      if lines[cursor + i] != expected[i] {
        assert lines[cursor..cursor + |expected|][i] != expected[i];
        return false;
      }
    }
    assert lines[cursor..cursor + |expected|] == expected;
    return true;
  }

  /** The array of lines that `applyHunk` edits in place. */
  class TargetLines {
    var lines: seq<Line>

    constructor (lines: seq<Line>)
      ensures this.lines == lines
    {
      this.lines := lines;
    }

    /** One hunk: compare with the expected text, else walk the body with the cursor, splicing in place.
        A mismatch is thrown and the half-edited array is dropped by the caller. */
    method Apply(h: Hunk, offset: int) returns (r: Result<int, HunkError>)
      modifies this
      ensures match ApplyHunk(old(lines), h, offset)
              case Ok(after) => r == Ok(offset + h.Delta()) && lines == after
              case Err(e) => r == Err(e)
    {
      var applied := LooksApplied(lines, h, offset);
      if applied {
        return Ok(offset + h.Delta());
      }
      var cursor := h.Cursor(offset);
      for i := 0 to |h.lines|
        invariant ApplyBody(old(lines), h.lines, h.Cursor(offset)) == ApplyBody(lines, h.lines[i..], cursor)
      {
        var raw := h.lines[i];
        assert h.lines[i..][0] == raw && h.lines[i..][1..] == h.lines[i + 1..];
        if Kept(raw) {
          if !Reads(lines, cursor, raw[1..]) { return Err(ContextMismatch(cursor + 1)); }
          cursor := cursor + 1;
        } else if Removed(raw) {
          if !Reads(lines, cursor, raw[1..]) { return Err(DeleteMismatch(cursor + 1)); }
          lines := lines[..cursor] + lines[cursor + 1..];
        } else if Added(raw) {
          lines := InsertAt(lines, cursor, raw[1..]);
          cursor := cursor + 1;
        } else {
          return Err(UnexpectedMarker(raw));
        }
      }
      return Ok(offset + h.Delta());
    }
  }

  // ---------------------------------------------------------------------------
  // File text
  // ---------------------------------------------------------------------------

  predicate EndsInNewline(raw: string) {
    |raw| > 0 && raw[|raw| - 1] == NL
  }

  function ReadLines(raw: string): seq<Line> {
    if EndsInNewline(raw) then Split(raw)[..|Split(raw)| - 1] else Split(raw)
  }

  function WriteLines(lines: seq<Line>, trailingNewline: bool): string {
    Join(lines) + (if trailingNewline then [NL] else "")
  }

  /** Writing what was read restores the file byte for byte. */
  lemma {:induction false} WriteUndoesRead(raw: string)
    ensures WriteLines(ReadLines(raw), EndsInNewline(raw)) == raw
  {
    if EndsInNewline(raw) {
      var body := raw[..|raw| - 1];
      assert raw == body + [NL];
      SplitFinalNewline(body);
      assert ReadLines(raw) == Split(body);
    }
  }

  /** Reading what was written gives the same lines back exactly when there is a line, and the final
      newline is not that of a blank last line. */
  lemma {:induction false} ReadUndoesWriteIff(lines: seq<Line>, trailingNewline: bool)
    requires AllOneLine(lines)
    ensures var raw := WriteLines(lines, trailingNewline);
            (ReadLines(raw) == lines && EndsInNewline(raw) == trailingNewline)
            <==> |lines| > 0 && (trailingNewline || lines == [""] || lines[|lines| - 1] != "")
  {
    var raw := WriteLines(lines, trailingNewline);
    if |lines| > 0 {
      SplitJoin(lines);
      if trailingNewline {
        SplitFinalNewline(Join(lines));
        assert (lines + [""])[..|lines|] == lines;
      } else {
        assert raw == Join(lines);
        SplitLast(raw);
        if |lines| > 1 && lines[|lines| - 1] == "" {
          JoinSnoc(lines[..|lines| - 1], "");
          assert lines == lines[..|lines| - 1] + [""];
        }
      }
    } else if trailingNewline {
      assert raw == [NL];
      assert "" + [NL] == raw;
      SplitFinalNewline("");
    }
  }

  /** What patching a file's text yields. */
  function PatchedText(raw: string, hunks: seq<Hunk>): Result<string, HunkError> {
    match Run(ReadLines(raw), hunks, 0)
    case Err(e) => Err(e)
    case Ok(lines) => Ok(WriteLines(lines, EndsInNewline(raw)))
  }

  lemma {:induction false} RunStep(lines: seq<Line>, hunks: seq<Hunk>, i: nat, offset: int)
    requires i < |hunks|
    ensures Run(lines, hunks[i..], offset) ==
            match ApplyHunk(lines, hunks[i], offset)
            case Err(e) => Err(e)
            case Ok(after) => Run(after, hunks[i + 1..], offset + hunks[i].Delta())
  {
    assert hunks[i..][0] == hunks[i] && hunks[i..][1..] == hunks[i + 1..];
  }

  /** Apply every hunk to the line array, carrying the running offset. */
  method RunHunks(lines: seq<Line>, hunks: seq<Hunk>) returns (r: Result<seq<Line>, HunkError>)
    ensures r == Run(lines, hunks, 0)
  {
    var target := new TargetLines(lines);
    var offset := 0;
    assert hunks[0..] == hunks;
    for i := 0 to |hunks|
      invariant Run(lines, hunks, 0) == Run(target.lines, hunks[i..], offset)
    {
      RunStep(target.lines, hunks, i, offset);
      var next := target.Apply(hunks[i], offset);
      if next.Err? {
        return Err(next.error);
      }
      offset := next.value;
    }
    return Ok(target.lines);
  }

  /** Read, apply, write. Nothing is written when a hunk fails. */
  method ApplyPatchToFile(raw: string, hunks: seq<Hunk>) returns (r: Result<string, HunkError>)
    ensures r == PatchedText(raw, hunks)
  {
    var patched := RunHunks(ReadLines(raw), hunks);
    if patched.Err? {
      return Err(patched.error);
    }
    return Ok(WriteLines(patched.value, EndsInNewline(raw)));
  }
}
