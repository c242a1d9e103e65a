/** Where patching a file's lines fails, and with which error (scripts/postinstall.js:157-224). */
module UnifiedFailures {
  import opened Wrappers
  import opened Text
  import opened UnifiedDiff

  /** The body goes on where its first part ends, unless that failed. */
  lemma {:induction false} BodyInTwoParts(lines: seq<Line>, a: seq<Line>, b: seq<Line>, cursor: int)
    ensures var first := ApplyBody(lines, a, cursor);
            ApplyBody(lines, a + b, cursor)
            == if first.Ok? then ApplyBody(first.value, b, cursor + |NewText(a)|) else first
    decreases |a|
  {
    if a == [] {
      assert a + b == b;
    } else {
      assert (a + b)[0] == a[0] && (a + b)[1..] == a[1..] + b;
      if Kept(a[0]) {
        BodyInTwoParts(lines, a[1..], b, cursor + 1);
      } else if Removed(a[0]) {
        if Reads(lines, cursor, a[0][1..]) {
          BodyInTwoParts(lines[..cursor] + lines[cursor + 1..], a[1..], b, cursor);
        }
      } else if Added(a[0]) {
        BodyInTwoParts(InsertAt(lines, cursor, a[0][1..]), a[1..], b, cursor + 1);
      }
    }
  }

  /** Why a line of a body cannot be performed at the cursor; lines are counted from one. */
  predicate LineFails(lines: seq<Line>, cursor: int, raw: Line, e: HunkError) {
    if Kept(raw) then !Reads(lines, cursor, raw[1..]) && e == ContextMismatch(cursor + 1)
    else if Removed(raw) then !Reads(lines, cursor, raw[1..]) && e == DeleteMismatch(cursor + 1)
    else !Added(raw) && e == UnexpectedMarker(raw)
  }

  /** The first `k` lines of the body are performed, and the next one fails behind the text they leave. */
  predicate BodyStopsAt(lines: seq<Line>, body: seq<Line>, cursor: int, k: nat, e: HunkError) {
    k < |body| &&
    var first := ApplyBody(lines, body[..k], cursor);
    first.Ok? && LineFails(first.value, cursor + |NewText(body[..k])|, body[k], e)
  }

  lemma {:induction false} OneLineFails(lines: seq<Line>, body: seq<Line>, cursor: int, e: HunkError)
    requires body != [] && LineFails(lines, cursor, body[0], e)
    ensures ApplyBody(lines, body, cursor) == Err(e)
  {
  }

  lemma {:induction false} StopFailsBody(lines: seq<Line>, body: seq<Line>, cursor: int, k: nat, e: HunkError)
    requires BodyStopsAt(lines, body, cursor, k, e)
    ensures ApplyBody(lines, body, cursor) == Err(e)
  {
    assert body[..k] + body[k..] == body;
    BodyInTwoParts(lines, body[..k], body[k..], cursor);
    OneLineFails(ApplyBody(lines, body[..k], cursor).value, body[k..], cursor + |NewText(body[..k])|, e);
  }

  lemma {:induction false} LongestFront(lines: seq<Line>, body: seq<Line>, cursor: int, n: nat) returns (k: nat)
    requires n <= |body| && ApplyBody(lines, body[..n], cursor).Err?
    ensures k < n && ApplyBody(lines, body[..k], cursor).Ok? && ApplyBody(lines, body[..k + 1], cursor).Err?
  {
    if ApplyBody(lines, body[..n - 1], cursor).Ok? {
      k := n - 1;
    } else {
      k := LongestFront(lines, body, cursor, n - 1);
    }
  }

  lemma {:induction false} LastLineFails(lines: seq<Line>, raw: Line, cursor: int) returns (e: HunkError)
    requires ApplyBody(lines, [raw], cursor).Err?
    ensures LineFails(lines, cursor, raw, e)
  {
    assert [raw][1..] == [];
    e := ApplyBody(lines, [raw], cursor).error;
  }

  lemma {:induction false} FindStop(lines: seq<Line>, body: seq<Line>, cursor: int) returns (k: nat)
    requires ApplyBody(lines, body, cursor).Err?
    ensures BodyStopsAt(lines, body, cursor, k, ApplyBody(lines, body, cursor).error)
  {
    assert body[..|body|] == body;
    k := LongestFront(lines, body, cursor, |body|);
    assert body[..k + 1] == body[..k] + [body[k]];
    BodyInTwoParts(lines, body[..k], [body[k]], cursor);
    var e := LastLineFails(ApplyBody(lines, body[..k], cursor).value, body[k], cursor + |NewText(body[..k])|);
    StopFailsBody(lines, body, cursor, k, e);
  }

  /** A body fails with an error exactly when its first line that cannot be performed says so: a context or removed
      line that does not stand where the text before it ends, or a line without a marker. */
  lemma {:induction false} BodyFailsIff(lines: seq<Line>, body: seq<Line>, cursor: int, e: HunkError)
    ensures ApplyBody(lines, body, cursor) == Err(e) <==> exists k: nat :: BodyStopsAt(lines, body, cursor, k, e)
  {
    if ApplyBody(lines, body, cursor) == Err(e) {
      var k := FindStop(lines, body, cursor);
    }
    forall k: nat | BodyStopsAt(lines, body, cursor, k, e) ensures ApplyBody(lines, body, cursor) == Err(e) {
      StopFailsBody(lines, body, cursor, k, e);
    }
  }

  // ---------------------------------------------------------------------------
  // Whole runs
  // ---------------------------------------------------------------------------

  /** How far the hunks before shifted the file: by all lines they add less those they remove. */
  function Shift(hunks: seq<Hunk>): int {
    if hunks == [] then 0 else hunks[0].newLines - hunks[0].oldLines + Shift(hunks[1..])
  }

  lemma {:induction false} RunInTwoParts(lines: seq<Line>, a: seq<Hunk>, b: seq<Hunk>, offset: int)
    ensures var first := Run(lines, a, offset);
            Run(lines, a + b, offset) == if first.Ok? then Run(first.value, b, offset + Shift(a)) else first
    decreases |a|
  {
    if a == [] {
      assert a + b == b;
    } else {
      assert (a + b)[0] == a[0] && (a + b)[1..] == a[1..] + b;
      var r := ApplyHunk(lines, a[0], offset);
      if r.Ok? {
        RunInTwoParts(r.value, a[1..], b, offset + a[0].Delta());
      }
    }
  }

  /** The first `k` hunks apply, and the next one does not look applied where they shifted it, and fails. */
  predicate RunStopsAt(lines: seq<Line>, hunks: seq<Hunk>, k: nat, e: HunkError) {
    k < |hunks| &&
    var first := Run(lines, hunks[..k], 0);
    first.Ok? && HunkFails(first.value, hunks[k], Shift(hunks[..k]), e)
  }

  predicate HunkFails(lines: seq<Line>, h: Hunk, offset: int, e: HunkError) {
    var at, expected := h.oldStart - 1 + offset, NewText(h.lines);
    && !(0 <= at <= |lines| && expected <= lines[at..])
    && ApplyBody(lines, h.lines, at) == Err(e)
  }

  lemma {:induction false} HunkFailsIff(lines: seq<Line>, h: Hunk, offset: int, e: HunkError)
    ensures ApplyHunk(lines, h, offset) == Err(e) <==> HunkFails(lines, h, offset, e)
  {
    var at, expected := h.oldStart - 1 + offset, NewText(h.lines);
    if 0 <= at <= |lines| {
      if at + |expected| <= |lines| {
        assert lines[at..][..|expected|] == lines[at..at + |expected|];
      }
    }
  }

  lemma {:induction false} FirstHunkFails(lines: seq<Line>, hunks: seq<Hunk>, offset: int, e: HunkError)
    requires hunks != [] && ApplyHunk(lines, hunks[0], offset) == Err(e)
    ensures Run(lines, hunks, offset) == Err(e)
  {
  }

  lemma {:induction false} StopFailsRun(lines: seq<Line>, hunks: seq<Hunk>, k: nat, e: HunkError)
    requires RunStopsAt(lines, hunks, k, e)
    ensures Run(lines, hunks, 0) == Err(e)
  {
    assert hunks[..k] + hunks[k..] == hunks;
    RunInTwoParts(lines, hunks[..k], hunks[k..], 0);
    var first := Run(lines, hunks[..k], 0).value;
    HunkFailsIff(first, hunks[k], Shift(hunks[..k]), e);
    FirstHunkFails(first, hunks[k..], Shift(hunks[..k]), e);
  }

  lemma {:induction false} LongestRun(lines: seq<Line>, hunks: seq<Hunk>, n: nat) returns (k: nat)
    requires n <= |hunks| && Run(lines, hunks[..n], 0).Err?
    ensures k < n && Run(lines, hunks[..k], 0).Ok? && Run(lines, hunks[..k + 1], 0).Err?
  {
    if Run(lines, hunks[..n - 1], 0).Ok? {
      k := n - 1;
    } else {
      k := LongestRun(lines, hunks, n - 1);
    }
  }

  lemma {:induction false} OneHunk(lines: seq<Line>, h: Hunk, offset: int)
    ensures Run(lines, [h], offset) == ApplyHunk(lines, h, offset)
  {
    assert [h][1..] == [];
  }

  lemma {:induction false} FindHunk(lines: seq<Line>, hunks: seq<Hunk>) returns (k: nat)
    requires Run(lines, hunks, 0).Err?
    ensures RunStopsAt(lines, hunks, k, Run(lines, hunks, 0).error)
  {
    assert hunks[..|hunks|] == hunks;
    k := LongestRun(lines, hunks, |hunks|);
    assert hunks[..k + 1] == hunks[..k] + [hunks[k]];
    RunInTwoParts(lines, hunks[..k], [hunks[k]], 0);
    var first, offset := Run(lines, hunks[..k], 0).value, Shift(hunks[..k]);
    OneHunk(first, hunks[k], offset);
    var e := ApplyHunk(first, hunks[k], offset).error;
    HunkFailsIff(first, hunks[k], offset, e);
    StopFailsRun(lines, hunks, k, e);
  }

  /** Patching a file's lines fails with an error exactly when some hunk fails so on what the hunks before it
      leave, at the line they shifted it to. */
  lemma {:induction false} RunFailsIff(lines: seq<Line>, hunks: seq<Hunk>, e: HunkError)
    ensures Run(lines, hunks, 0) == Err(e) <==> exists k: nat :: RunStopsAt(lines, hunks, k, e)
  {
    if Run(lines, hunks, 0) == Err(e) {
      var k := FindHunk(lines, hunks);
    }
    forall k: nat | RunStopsAt(lines, hunks, k, e) ensures Run(lines, hunks, 0) == Err(e) {
      StopFailsRun(lines, hunks, k, e);
    }
  }
}
