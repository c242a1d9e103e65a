/** Applying all files of a unified diff to a directory (scripts/postinstall.js). */
module PatchSet {
  import opened Wrappers
  import opened Text
  import opened UnifiedDiff
  import opened UnifiedRerun
  import opened UnifiedText

  /** The directory's files by relative path. */
  type Files = map<string, string>

  datatype SetError = MissingTarget(path: string) | BadHunk(error: HunkError)

  /** The files as they are when the run ends, and what ended it early. */
  datatype Progress = Progress(files: Files, error: Option<SetError>)

  const DEV_NULL := "/dev/null"

  /** The file a patch is for; deletions are skipped. The path's prefix is stripped again here. */
  function Target(p: FilePatch): Option<string> {
    if p.newPath == Some(DEV_NULL) then None
    else Some(StripPrefix(
      if p.newPath.Some? then p.newPath.value else if p.oldPath.Some? then p.oldPath.value else ""))
  }

  /** A written patch reaches its own path exactly when that path does not itself begin with `a/` or `b/`,
      and is not taken for a deletion. */
  lemma {:induction false} TargetIsPathIff(f: FileScript)
    ensures Target(FileOf(f)) == Some(f.path) <==> !("a/" <= f.path || "b/" <= f.path) && f.path != DEV_NULL
  {
    if "a/" <= f.path || "b/" <= f.path {
      assert |StripPrefix(f.path)| < |f.path|;
    }
  }

  function ApplyOne(files: Files, p: FilePatch): Result<Files, SetError> {
    match Target(p)
    case None => Ok(files)
    case Some(path) =>
      if path !in files then Err(MissingTarget(path))
      else match PatchedText(files[path], p.hunks)
        case Err(e) => Err(BadHunk(e))
        case Ok(text) => Ok(files[path := text])
  }

  function ApplySet(files: Files, patches: seq<FilePatch>): Progress
    decreases |patches|
  {
    if patches == [] then Progress(files, None)
    else match ApplyOne(files, patches[0])
      case Err(e) => Progress(files, Some(e))
      case Ok(next) => ApplySet(next, patches[1..])
  }

  class Directory {
    var files: Files

    method ApplyPatchToFile(p: FilePatch) returns (error: Option<SetError>)
      modifies this
      ensures match ApplyOne(old(files), p)
              case Err(e) => error == Some(e) && files == old(files)
              case Ok(next) => error == None && files == next
    {
      if p.newPath == Some(DEV_NULL) {
        return None;
      }
      var path := StripPrefix(
        if p.newPath.Some? then p.newPath.value else if p.oldPath.Some? then p.oldPath.value else "");
      if path !in files {
        return Some(MissingTarget(path));
      }
      var text := UnifiedDiff.ApplyPatchToFile(files[path], p.hunks);
      if text.Err? {
        return Some(BadHunk(text.error));
      }
      files := files[path := text.value];
      return None;
    }

    /** A patch that does not parse changes nothing; one that fails half way leaves the earlier files patched. */
    method ApplyPatchSet(patchText: string) returns (r: Result<Option<SetError>, ParseError>)
      modifies this
      ensures match Parse(patchText)
              case Err(e) => r == Err(e) && files == old(files)
              case Ok(patches) => r.Ok? && Progress(files, r.value) == ApplySet(old(files), patches)
    {
      var parsed := ParsePatch(patchText);
      if parsed.Err? {
        return Err(parsed.error);
      }
      var patches := parsed.value;
      var k := 0;
      while k < |patches|
        invariant k <= |patches| && ApplySet(files, patches[k..]) == ApplySet(old(files), patches)
      {
        assert patches[k..][0] == patches[k] && patches[k..][1..] == patches[k + 1..];
        var error := ApplyPatchToFile(patches[k]);
        if error.Some? {
          return Ok(error);
        }
        k := k + 1;
      }
      return Ok(None);
    }
  }

  // ---------------------------------------------------------------------------
  // A directory is patched file by file
  // ---------------------------------------------------------------------------

  /** The hunks of all patches for one file, in order. */
  function EntriesFor(patches: seq<FilePatch>, path: string): seq<seq<Hunk>> {
    if patches == [] then []
    else (if Target(patches[0]) == Some(path) then [patches[0].hunks] else []) + EntriesFor(patches[1..], path)
  }

  /** A text after several lists of hunks, one after the other. */
  function PatchAll(text: string, entries: seq<seq<Hunk>>): Result<string, HunkError>
    decreases |entries|
  {
    if entries == [] then Ok(text)
    else match PatchedText(text, entries[0])
      case Err(e) => Err(e)
      case Ok(next) => PatchAll(next, entries[1..])
  }

  predicate TargetsExist(files: Files, patches: seq<FilePatch>) {
    patches == [] ||
    ((Target(patches[0]).Some? ==> Target(patches[0]).value in files) && TargetsExist(files, patches[1..]))
  }

  lemma {:induction false} ExistAfter(files: Files, patches: seq<FilePatch>, path: string, text: string)
    requires path in files
    ensures TargetsExist(files[path := text], patches) <==> TargetsExist(files, patches)
    decreases |patches|
  {
    if patches != [] {
      ExistAfter(files, patches[1..], path, text);
    }
  }

  /** One patch concerns one file only. */
  lemma {:induction false} OneIsPointwise(files: Files, patches: seq<FilePatch>, path: string)
    requires patches != [] && path in files && ApplyOne(files, patches[0]).Ok?
    ensures path in ApplyOne(files, patches[0]).value
    ensures PatchAll(files[path], EntriesFor(patches, path))
         == PatchAll(ApplyOne(files, patches[0]).value[path], EntriesFor(patches[1..], path))
  {
    var entries := EntriesFor(patches[1..], path);
    if Target(patches[0]) == Some(path) {
      assert ([patches[0].hunks] + entries)[1..] == entries;
    } else {
      assert [] + entries == entries;
    }
  }

  lemma {:induction false} FirstEntryFails(files: Files, patches: seq<FilePatch>)
    requires patches != [] && TargetsExist(files, patches) && ApplyOne(files, patches[0]).Err?
    ensures exists path :: path in files && PatchAll(files[path], EntriesFor(patches, path)).Err?
  {
    var path := Target(patches[0]).value;
    assert EntriesFor(patches, path)[0] == patches[0].hunks;
    assert path in files && PatchAll(files[path], EntriesFor(patches, path)).Err?;
  }

  /** A patch set applies exactly when every file it is for exists and takes its own entries, and each file's
      new text is what its own entries make of it. */
  lemma {:induction false} SetIsPointwise(files: Files, patches: seq<FilePatch>)
    ensures var run := ApplySet(files, patches);
            && (run.error == None <==>
                && TargetsExist(files, patches)
                && forall path :: path in files ==> PatchAll(files[path], EntriesFor(patches, path)).Ok?)
            && (run.error == None ==>
                && run.files.Keys == files.Keys
                && forall path :: path in files ==> PatchAll(files[path], EntriesFor(patches, path)) == Ok(run.files[path]))
    decreases |patches|
  {
    if patches != [] {
      var next := ApplyOne(files, patches[0]);
      if next.Err? {
        if TargetsExist(files, patches) {
          FirstEntryFails(files, patches);
        }
      } else {
        SetIsPointwise(next.value, patches[1..]);
        if Target(patches[0]).Some? {
          ExistAfter(files, patches[1..], Target(patches[0]).value, next.value[Target(patches[0]).value]);
        }
        assert next.value.Keys == files.Keys;
        forall path | path in files
          ensures PatchAll(files[path], EntriesFor(patches, path))
               == PatchAll(next.value[path], EntriesFor(patches[1..], path))
        {
          OneIsPointwise(files, patches, path);
        }
      }
    }
  }

  // ---------------------------------------------------------------------------
  // A run that fails
  // ---------------------------------------------------------------------------

  /** Why a patch cannot be applied to these files. */
  predicate Fails(files: Files, p: FilePatch, e: SetError) {
    match Target(p)
    case None => false
    case Some(path) =>
      if path !in files then e == MissingTarget(path)
      else e.BadHunk? && PatchedText(files[path], p.hunks) == Err(e.error)
  }

  /** The first `k` patches apply, and the next one fails on what they leave. */
  predicate StopsAt(files: Files, patches: seq<FilePatch>, k: nat, e: SetError) {
    k < |patches| && ApplySet(files, patches[..k]).error == None && Fails(ApplySet(files, patches[..k]).files, patches[k], e)
  }

  lemma {:induction false} SetInTwoParts(files: Files, front: seq<FilePatch>, back: seq<FilePatch>)
    ensures var first := ApplySet(files, front);
            ApplySet(files, front + back) == if first.error == None then ApplySet(first.files, back) else first
    decreases |front|
  {
    if front == [] {
      assert front + back == back;
    } else {
      assert (front + back)[1..] == front[1..] + back;
      var next := ApplyOne(files, front[0]);
      if next.Ok? {
        SetInTwoParts(next.value, front[1..], back);
      }
    }
  }

  /** The run stops at the first patch that fails. No later patch is applied: every file is what its own entries
      among the earlier patches make of it. */
  lemma {:induction false} FailureStopsSet(files: Files, patches: seq<FilePatch>, k: nat, e: SetError)
    requires StopsAt(files, patches, k, e)
    ensures var run := ApplySet(files, patches);
            && run.error == Some(e) && run.files.Keys == files.Keys
            && forall path :: path in files ==>
                 PatchAll(files[path], EntriesFor(patches[..k], path)) == Ok(run.files[path])
  {
    assert patches[..k] + patches[k..] == patches;
    SetInTwoParts(files, patches[..k], patches[k..]);
    SetIsPointwise(files, patches[..k]);
  }

  lemma {:induction false} FindStop(files: Files, patches: seq<FilePatch>) returns (k: nat)
    requires ApplySet(files, patches).error.Some?
    ensures StopsAt(files, patches, k, ApplySet(files, patches).error.value)
    decreases |patches|
  {
    var next := ApplyOne(files, patches[0]);
    if next.Err? {
      k := 0;
      assert patches[..0] == [];
    } else {
      var j := FindStop(next.value, patches[1..]);
      k := j + 1;
      assert patches[..k][1..] == patches[1..][..j] && patches[..k][0] == patches[0];
    }
  }

  /** A run fails exactly when some patch cannot be applied to what the patches before it leave. */
  lemma {:induction false} SetFailsIff(files: Files, patches: seq<FilePatch>, e: SetError)
    ensures ApplySet(files, patches).error == Some(e) <==> exists k: nat :: StopsAt(files, patches, k, e)
  {
    if ApplySet(files, patches).error == Some(e) {
      var k := FindStop(files, patches);
    }
    forall k: nat | StopsAt(files, patches, k, e) ensures ApplySet(files, patches).error == Some(e) {
      FailureStopsSet(files, patches, k, e);
    }
  }

  // ---------------------------------------------------------------------------
  // Deletions
  // ---------------------------------------------------------------------------

  /** The patches that do not delete their file. */
  function WithoutDeletions(patches: seq<FilePatch>): seq<FilePatch> {
    if patches == [] then []
    else (if patches[0].newPath == Some("/dev/null") then [] else [patches[0]]) + WithoutDeletions(patches[1..])
  }

  /** Deletions are passed over, whatever their old path and their hunks. */
  lemma {:induction false} DeletionsAreSkipped(files: Files, patches: seq<FilePatch>)
    ensures ApplySet(files, patches) == ApplySet(files, WithoutDeletions(patches))
    decreases |patches|
  {
    if patches != [] {
      var rest := WithoutDeletions(patches[1..]);
      var next := ApplyOne(files, patches[0]);
      if next.Ok? {
        DeletionsAreSkipped(next.value, patches[1..]);
      }
      assert ([patches[0]] + rest)[1..] == rest && [] + rest == rest;
    }
  }

  /** Any other patch is for its new path, or for its old one when it has no new one, without the `a/` or `b/`
      in front. */
  lemma {:induction false} TargetIsNamed(p: FilePatch, side: string, path: string)
    requires side in {"a/", "b/"}
    requires (if p.newPath.Some? then p.newPath else p.oldPath) == Some(side + path)
    ensures Target(p) == Some(path)
  {
    assert side <= side + path && (side + path)[|side|..] == path;
    assert (side + path)[0] == side[0] != DEV_NULL[0];
  }

  // ---------------------------------------------------------------------------
  // Applying a patch set twice
  // ---------------------------------------------------------------------------

  /** Applying a patch set that has been applied changes nothing, exactly when no file is changed by its own
      entries. */
  lemma {:induction false} SetIsIdempotentIff(files: Files, patches: seq<FilePatch>)
    requires ApplySet(files, patches).error == None
    ensures var once := ApplySet(files, patches);
            && once.files.Keys == files.Keys
            && (ApplySet(once.files, patches) == once
                <==> forall path :: path in files ==>
                       PatchAll(once.files[path], EntriesFor(patches, path)) == Ok(once.files[path]))
  {
    var once := ApplySet(files, patches);
    SetIsPointwise(files, patches);
    SetIsPointwise(once.files, patches);
    SameTargetsExist(files, once.files, patches);
    var twice := ApplySet(once.files, patches);
    if forall path :: path in files ==> PatchAll(once.files[path], EntriesFor(patches, path)) == Ok(once.files[path]) {
      assert twice.files == once.files;
    }
  }

  lemma {:induction false} SameTargetsExist(a: Files, b: Files, patches: seq<FilePatch>)
    requires a.Keys == b.Keys
    ensures TargetsExist(a, patches) <==> TargetsExist(b, patches)
    decreases |patches|
  {
    if patches != [] {
      SameTargetsExist(a, b, patches[1..]);
    }
  }

  /** The hunks keep the order, their headers are right, and their lines are lines. */
  predicate WellFormed(hunks: seq<Hunk>) {
    Ordered(hunks, 1) && AllCounted(hunks) && OneLineBodies(hunks)
  }

  /** No hunk inserts beyond the end of this text, and none leaves it open. */
  predicate Repeatable(text: string, hunks: seq<Hunk>) {
    var run := Run(ReadLines(text), hunks, 0);
    InsertionsInside(ReadLines(text), Bodied(hunks), 0) && (run.Ok? ==> !LeftOpen(text, Bodied(hunks), run.value))
  }

  lemma {:induction false} OneEntryIff(text: string, entries: seq<seq<Hunk>>)
    requires |entries| <= 1 && (entries != [] ==> WellFormed(entries[0])) && PatchAll(text, entries).Ok?
    ensures var after := PatchAll(text, entries).value;
            PatchAll(after, entries) == Ok(after) <==> (entries != [] ==> Repeatable(text, entries[0]))
  {
    if entries != [] {
      assert entries[1..] == [];
      PatchIsIdempotentIff(text, entries[0]);
    }
  }

  /** With one entry for each file at most, that is so exactly when every file's entry can be repeated on the
      text the file had. */
  lemma {:induction false} SingleEntriesIdempotentIff(files: Files, patches: seq<FilePatch>)
    requires ApplySet(files, patches).error == None
    requires forall path :: path in files ==> |EntriesFor(patches, path)| <= 1
    requires forall path, hunks :: path in files && hunks in EntriesFor(patches, path) ==> WellFormed(hunks)
    ensures var once := ApplySet(files, patches);
            ApplySet(once.files, patches) == once
            <==> forall path, hunks :: path in files && hunks in EntriesFor(patches, path) ==> Repeatable(files[path], hunks)
  {
    var once := ApplySet(files, patches);
    SetIsPointwise(files, patches);
    SetIsIdempotentIff(files, patches);
    forall path | path in files
      ensures PatchAll(once.files[path], EntriesFor(patches, path)) == Ok(once.files[path])
              <==> forall hunks :: hunks in EntriesFor(patches, path) ==> Repeatable(files[path], hunks)
    {
      OneEntryIff(files[path], EntriesFor(patches, path));
    }
  }

  // ---------------------------------------------------------------------------
  // Several entries for one file
  // ---------------------------------------------------------------------------

  /** Where the new texts of the hunks end, at `from` at the earliest. */
  function EndOf(hunks: seq<Hunk>, offset: int, from: nat): nat {
    if |hunks| == 0 then from
    else
      var end := hunks[0].Cursor(offset) + hunks[0].newLines;
      EndOf(hunks[1..], offset + hunks[0].Delta(), if end > from then end else from)
  }

  /** All new texts end at index `n` or before. */
  predicate EndBy(hunks: seq<Hunk>, offset: int, n: int) {
    |hunks| == 0 ||
    (hunks[0].Cursor(offset) + hunks[0].newLines <= n && EndBy(hunks[1..], offset + hunks[0].Delta(), n))
  }

  lemma {:induction false} EndOfBounds(hunks: seq<Hunk>, offset: int, from: nat)
    ensures EndOf(hunks, offset, from) >= from && EndBy(hunks, offset, EndOf(hunks, offset, from))
    decreases |hunks|
  {
    if |hunks| > 0 {
      var end := hunks[0].Cursor(offset) + hunks[0].newLines;
      var next := if end > from then end else from;
      EndOfBounds(hunks[1..], offset + hunks[0].Delta(), next);
    }
  }

  lemma {:induction false} EndOfInside(lines: seq<Line>, hunks: seq<Hunk>, offset: int, from: nat)
    requires AllCounted(hunks) && AllApplied(lines, hunks, offset) && from <= |lines|
    ensures EndOf(hunks, offset, from) <= |lines|
    decreases |hunks|
  {
    if |hunks| > 0 {
      assert Counted(hunks[0]);
      var end := hunks[0].Cursor(offset) + hunks[0].newLines;
      var next := if end > from then end else from;
      EndOfInside(lines, hunks[1..], offset + hunks[0].Delta(), next);
    }
  }

  lemma {:induction false} EndByMore(hunks: seq<Hunk>, offset: int, n: int, m: int)
    requires EndBy(hunks, offset, n) && n <= m
    ensures EndBy(hunks, offset, m)
    decreases |hunks|
  {
    if |hunks| > 0 {
      EndByMore(hunks[1..], offset + hunks[0].Delta(), n, m);
    }
  }

  /** Hunks look applied wherever the lines they end by are the same. */
  lemma {:induction false} SameFrontApplied(a: seq<Line>, b: seq<Line>, hunks: seq<Hunk>, offset: int, n: nat)
    requires AllCounted(hunks) && AllApplied(a, hunks, offset) && EndBy(hunks, offset, n)
    requires n <= |a| && n <= |b| && a[..n] == b[..n]
    ensures AllApplied(b, hunks, offset)
    decreases |hunks|
  {
    if |hunks| > 0 {
      var h := hunks[0];
      assert Counted(h);
      var end := h.Cursor(offset) + h.newLines;
      assert a[..n][..end] == a[..end] && b[..n][..end] == b[..end];
      SameWindow(a, b, h.Cursor(offset), end);
      SameFrontApplied(a, b, hunks[1..], offset + h.Delta(), n);
    }
  }

  /** The lines will be read back as they are written. */
  predicate ReadsBack(text: string, lines: seq<Line>) {
    EndsInNewline(text) || |lines| <= 1 || lines[|lines| - 1] != ""
  }

  /** The entry fits the text, and begins behind index `from`; its result will be read back as it is written. */
  predicate FitsBehind(text: string, hunks: seq<Hunk>, from: nat) {
    var run := Run(ReadLines(text), Bodied(hunks), 0);
    && WellFormed(hunks) && Sound(ReadLines(text), Bodied(hunks), 0, from + 1)
    && run.Ok? && ReadsBack(text, run.value)
  }

  /** Down the file: each entry fits the text its predecessors made, and begins behind all they wrote. */
  predicate InTurn(text: string, entries: seq<seq<Hunk>>, from: nat)
    decreases |entries|
  {
    |entries| == 0 ||
    (FitsBehind(text, entries[0], from) &&
     match PatchedText(text, entries[0])
     case Err(_) => false
     case Ok(next) => InTurn(next, entries[1..], EndOf(Bodied(entries[0]), 0, from)))
  }

  /** What is read back: the lines of the run, or a blank line instead of none. */
  lemma {:induction false} RereadLines(text: string, hunks: seq<Hunk>)
    requires AllCounted(hunks) && OneLineBodies(hunks) && Run(ReadLines(text), hunks, 0).Ok?
    requires ReadsBack(text, Run(ReadLines(text), hunks, 0).value)
    ensures var final, next := Run(ReadLines(text), hunks, 0).value, PatchedText(text, hunks).value;
            ReadLines(next) == if final == [] then [""] else final
  {
    var final := Run(ReadLines(text), hunks, 0).value;
    RunKeepsOneLine(ReadLines(text), hunks, 0);
    if final == [] {
      ReadBackNothing(EndsInNewline(text));
    } else {
      ReadUndoesWriteIff(final, EndsInNewline(text));
    }
  }

  /** One entry in its turn: it looks applied on the text it leaves, and the front of the file stays. */
  lemma {:induction false} EntryTurn(text: string, hunks: seq<Hunk>, from: nat)
    requires FitsBehind(text, hunks, from) && from <= |ReadLines(text)|
    ensures PatchedText(text, hunks).Ok?
    ensures var next := PatchedText(text, hunks).value;
            && AllApplied(ReadLines(next), Bodied(hunks), 0)
            && from <= |ReadLines(next)| && ReadLines(next)[..from] == ReadLines(text)[..from]
            && EndOf(Bodied(hunks), 0, from) <= |ReadLines(next)|
  {
    var lines, bodied := ReadLines(text), Bodied(hunks);
    BodiedRuns(lines, hunks, 0);
    RereadLines(text, hunks);
    RunAppliesAll(lines, bodied, 0, from + 1);
    PrefixKept(lines, bodied, 0, from + 1, from);
    if Run(lines, bodied, 0).value == [] {
      AppliedToNothing(bodied, 0);
    }
    EndOfInside(ReadLines(PatchedText(text, hunks).value), bodied, 0, from);
  }

  /** Hunks that look applied and end by `from` still look applied after all entries behind it. */
  lemma {:induction false} EarlierStayApplied(text: string, entries: seq<seq<Hunk>>, from: nat, hunks: seq<Hunk>)
    requires InTurn(text, entries, from) && from <= |ReadLines(text)|
    requires AllCounted(hunks) && AllApplied(ReadLines(text), hunks, 0) && EndBy(hunks, 0, from)
    ensures PatchAll(text, entries).Ok? && AllApplied(ReadLines(PatchAll(text, entries).value), hunks, 0)
    decreases |entries|
  {
    if |entries| > 0 {
      var next, end := PatchedText(text, entries[0]).value, EndOf(Bodied(entries[0]), 0, from);
      EntryTurn(text, entries[0], from);
      SameFrontApplied(ReadLines(text), ReadLines(next), hunks, 0, from);
      EndOfBounds(Bodied(entries[0]), 0, from);
      EndByMore(hunks, 0, from, end);
      EarlierStayApplied(next, entries[1..], end, hunks);
    }
  }

  /** Every entry looks applied on the text. */
  predicate EntriesApplied(text: string, entries: seq<seq<Hunk>>) {
    |entries| == 0 ||
    (AllCounted(entries[0]) && AllApplied(ReadLines(text), Bodied(entries[0]), 0) && EntriesApplied(text, entries[1..]))
  }

  lemma {:induction false} AllSettle(text: string, entries: seq<seq<Hunk>>, from: nat)
    requires InTurn(text, entries, from) && from <= |ReadLines(text)|
    ensures PatchAll(text, entries).Ok? && EntriesApplied(PatchAll(text, entries).value, entries)
    decreases |entries|
  {
    if |entries| > 0 {
      var bodied, next := Bodied(entries[0]), PatchedText(text, entries[0]).value;
      EntryTurn(text, entries[0], from);
      EndOfBounds(bodied, 0, from);
      BodiedOrdered(entries[0], 1, 1);
      AllSettle(next, entries[1..], EndOf(bodied, 0, from));
      EarlierStayApplied(next, entries[1..], EndOf(bodied, 0, from), bodied);
    }
  }

  lemma {:induction false} AppliedEntriesKeep(text: string, entries: seq<seq<Hunk>>)
    requires EntriesApplied(text, entries)
    ensures PatchAll(text, entries) == Ok(text)
  {
    if |entries| > 0 {
      BodiedRuns(ReadLines(text), entries[0], 0);
      AppliedIsFixed(ReadLines(text), Bodied(entries[0]), 0);
      WriteUndoesRead(text);
      AppliedEntriesKeep(text, entries[1..]);
    }
  }

  /** Entries that go down the file, each behind all that was written before it, can be repeated. */
  lemma {:induction false} EntriesInTurnRepeat(text: string, entries: seq<seq<Hunk>>)
    requires InTurn(text, entries, 0)
    ensures PatchAll(text, entries).Ok?
    ensures var out := PatchAll(text, entries).value; PatchAll(out, entries) == Ok(out)
  {
    AllSettle(text, entries, 0);
    AppliedEntriesKeep(PatchAll(text, entries).value, entries);
  }

  /** So a patch set can be applied again when every file's entries are such, however many they are. */
  lemma {:induction false} SetInTurnIsIdempotent(files: Files, patches: seq<FilePatch>)
    requires TargetsExist(files, patches)
    requires forall path :: path in files ==> InTurn(files[path], EntriesFor(patches, path), 0)
    ensures var once := ApplySet(files, patches);
            once.error == None && ApplySet(once.files, patches) == once
  {
    SetIsPointwise(files, patches);
    forall path | path in files
      ensures var entries := EntriesFor(patches, path);
              var after := PatchAll(files[path], entries);
              after.Ok? && PatchAll(after.value, entries) == after
    {
      EntriesInTurnRepeat(files[path], EntriesFor(patches, path));
    }
    SetIsIdempotentIff(files, patches);
  }

  lemma {:induction false} EditedTexts()
    ensures ReadLines("a\nb") == ["a", "b"] && ReadLines("A\nb") == ["A", "b"] && ReadLines("A\nB") == ["A", "B"]
    ensures WriteLines(["A", "b"], false) == "A\nb" && WriteLines(["A", "B"], false) == "A\nB"
  {
    assert Join(["a", "b"]) == "a\nb" && Join(["A", "b"]) == "A\nb" && Join(["A", "B"]) == "A\nB";
    SplitJoin(["a", "b"]);
    SplitJoin(["A", "b"]);
    SplitJoin(["A", "B"]);
  }

  lemma {:induction false} OneHunkRun(lines: seq<Line>, h: Hunk)
    ensures Run(lines, [h], 0) == ApplyHunk(lines, h, 0)
  {
    assert [h][1..] == [];
  }

  lemma {:induction false} TwoEntries(text: string, a: seq<Hunk>, b: seq<Hunk>)
    ensures PatchAll(text, [a, b]) == match PatchedText(text, a) case Err(e) => Err(e) case Ok(next) => PatchedText(next, b)
  {
    assert [a, b][1..] == [b] && [b][1..] == [];
    var first := PatchedText(text, a);
    if first.Ok? {
      assert PatchAll(first.value, [b]) == PatchedText(first.value, b);
    }
  }

  lemma {:induction false} EditedFiles()
    ensures PatchedText("a\nb", [FIRST_EDIT]) == Ok("A\nb") && PatchedText("A\nb", [SECOND_EDIT]) == Ok("A\nB")
    ensures PatchedText("A\nB", [FIRST_EDIT]) == Err(DeleteMismatch(1))
  {
    EditedTexts();
    OneHunkRun(["a", "b"], FIRST_EDIT);
    OneHunkRun(["A", "b"], SECOND_EDIT);
    OneHunkRun(["A", "B"], FIRST_EDIT);
    FirstEditTurns();
    SecondEditTurns();
    FirstEditFails();
    TextOfRun("a\nb", [FIRST_EDIT], ["A", "b"]);
    TextOfRun("A\nb", [SECOND_EDIT], ["A", "B"]);
  }

  /** Two entries for one file: the second edits what the first left as context, and the second pass fails. */
  lemma {:induction false} SecondEntryCanBlockTheFirst()
    ensures PatchAll("a\nb", [[FIRST_EDIT], [SECOND_EDIT]]) == Ok("A\nB")
    ensures PatchAll("A\nB", [[FIRST_EDIT], [SECOND_EDIT]]) == Err(DeleteMismatch(1))
  {
    EditedFiles();
    TwoEntries("a\nb", [FIRST_EDIT], [SECOND_EDIT]);
    TwoEntries("A\nB", [FIRST_EDIT], [SECOND_EDIT]);
  }
}
