/** Applying the hunks of a patch to the files of a project (src/agents/apply-patch.ts). */
module ApplyPatch {
  import opened Wrappers
  import opened ApplyPatchUpdate
  import opened PatchText

  /** Where the paths of a patch lead: an absolute path, however it is resolved. */
  type Path = string
  type Resolver = string -> Path

  /** How the summary shows the paths of a patch. */
  type Display = string -> string

  type Files = map<Path, string>

  datatype ApplyError =
    | Unparsable(parseError: ParseError)
    | NoHunks
    | Missing(path: Path)
    | Unplaceable(placeError: PlaceError)

  datatype Bucket = InAdded | InModified | InDeleted

  // ---------------------------------------------------------------------------
  // What one hunk does
  // ---------------------------------------------------------------------------

  /** New contents for some paths; `None` removes the file. */
  type Effect = map<Path, Option<string>>

  function Patched(files: Files, effect: Effect): Files {
    map p | p in files.Keys + effect.Keys && (p in effect ==> effect[p].Some?) ::
      if p in effect then effect[p].value else files[p]
  }

  predicate Moves(hunk: Hunk) {
    hunk.UpdateFile? && hunk.movePath.Some? && hunk.movePath.value != ""
  }

  /** A new text, at another path if the file moves; the old path is removed last. */
  function UpdateEffect(path: Path, target: Option<Path>, text: string): Effect {
    match target
    case None => map[path := Some(text)]
    case Some(t) => map[t := Some(text)][path := None]
  }

  /** The effect of a hunk, which depends on the file it names alone. */
  function EffectOf(file: Option<string>, hunk: Hunk, resolve: Resolver): Result<Effect, ApplyError> {
    var path := resolve(hunk.path);
    match hunk
    case AddFile(_, contents) => Ok(map[path := Some(contents)])
    case DeleteFile(_) => if file.None? then Err(Missing(path)) else Ok(map[path := None])
    case UpdateFile(_, _, chunks) =>
      if file.None? then Err(Missing(path))
      else match UpdatedText(file.value, chunks)
        case Err(e) => Err(Unplaceable(e))
        case Ok(text) =>
          Ok(UpdateEffect(path, if Moves(hunk) then Some(resolve(hunk.movePath.value)) else None, text))
  }

  function Lookup(files: Files, path: Path): Option<string> {
    if path in files then Some(files[path]) else None
  }

  function HunkEffect(files: Files, hunk: Hunk, resolve: Resolver): Result<Effect, ApplyError> {
    EffectOf(Lookup(files, resolve(hunk.path)), hunk, resolve)
  }

  /** The list a hunk is reported in, and the path shown. */
  function Reported(hunk: Hunk, display: Display): (Bucket, string) {
    match hunk
    case AddFile(path, _) => (InAdded, display(path))
    case DeleteFile(path) => (InDeleted, display(path))
    case UpdateFile(path, move, _) => (InModified, if Moves(hunk) then display(move.value) else display(path))
  }

  // ---------------------------------------------------------------------------
  // What a patch does
  // ---------------------------------------------------------------------------

  /** How far a patch got: the files as they are then, and the error that stopped it. Hunks before the one
      that failed stay applied. */
  datatype Progress = Progress(files: Files, error: Option<ApplyError>)

  function Run(files: Files, hunks: seq<Hunk>, resolve: Resolver): Progress
    decreases |hunks|
  {
    if hunks == [] then Progress(files, None)
    else match HunkEffect(files, hunks[0], resolve)
      case Err(e) => Progress(files, Some(e))
      case Ok(effect) => Run(Patched(files, effect), hunks[1..], resolve)
  }

  function Touched(hunk: Hunk, resolve: Resolver): set<Path> {
    {resolve(hunk.path)} + if Moves(hunk) then {resolve(hunk.movePath.value)} else {}
  }

  function AllTouched(hunks: seq<Hunk>, resolve: Resolver): set<Path> {
    if hunks == [] then {} else Touched(hunks[0], resolve) + AllTouched(hunks[1..], resolve)
  }

  lemma {:induction false} EffectTouches(file: Option<string>, hunk: Hunk, resolve: Resolver)
    ensures var r := EffectOf(file, hunk, resolve); r.Ok? ==> r.value.Keys == Touched(hunk, resolve)
  {
  }

  lemma {:induction false} PatchedElsewhere(files: Files, effect: Effect, path: Path)
    requires path !in effect
    ensures Lookup(Patched(files, effect), path) == Lookup(files, path)
  {
  }

  lemma {:induction false} PatchedThere(files: Files, effect: Effect, path: Path)
    requires path in effect
    ensures Lookup(Patched(files, effect), path) == effect[path]
  {
  }

  /** A path no hunk names stays as it is, whether the patch succeeds or stops half way. */
  lemma {:induction false} OtherFilesAreUntouched(files: Files, hunks: seq<Hunk>, resolve: Resolver, path: Path)
    requires path !in AllTouched(hunks, resolve)
    ensures Lookup(Run(files, hunks, resolve).files, path) == Lookup(files, path)
    decreases |hunks|
  {
    if hunks != [] {
      var r := HunkEffect(files, hunks[0], resolve);
      if r.Ok? {
        EffectTouches(Lookup(files, resolve(hunks[0].path)), hunks[0], resolve);
        PatchedElsewhere(files, r.value, path);
        OtherFilesAreUntouched(Patched(files, r.value), hunks[1..], resolve, path);
      }
    }
  }

  // ---------------------------------------------------------------------------
  // Hunks on different files
  // ---------------------------------------------------------------------------

  predicate Independent(hunks: seq<Hunk>, resolve: Resolver) {
    hunks == [] || (Touched(hunks[0], resolve) !! AllTouched(hunks[1..], resolve) && Independent(hunks[1..], resolve))
  }

  /** Every hunk can be applied to the files as they are. */
  predicate EachApplies(files: Files, hunks: seq<Hunk>, resolve: Resolver) {
    hunks == [] || (HunkEffect(files, hunks[0], resolve).Ok? && EachApplies(files, hunks[1..], resolve))
  }

  /** The effects of all hunks on the files as they are. */
  function AllEffects(files: Files, hunks: seq<Hunk>, resolve: Resolver): Effect
    requires EachApplies(files, hunks, resolve)
  {
    if hunks == [] then map[]
    else HunkEffect(files, hunks[0], resolve).value + AllEffects(files, hunks[1..], resolve)
  }

  predicate AgreeOn(a: Files, b: Files, paths: set<Path>) {
    forall p :: p in paths ==> Lookup(a, p) == Lookup(b, p)
  }

  lemma {:induction false} EffectsAgree(a: Files, b: Files, hunks: seq<Hunk>, resolve: Resolver)
    requires AgreeOn(a, b, AllTouched(hunks, resolve))
    ensures EachApplies(a, hunks, resolve) == EachApplies(b, hunks, resolve)
    ensures EachApplies(a, hunks, resolve) ==> AllEffects(a, hunks, resolve) == AllEffects(b, hunks, resolve)
    decreases |hunks|
  {
    if hunks != [] {
      assert Lookup(a, resolve(hunks[0].path)) == Lookup(b, resolve(hunks[0].path));
      EffectsAgree(a, b, hunks[1..], resolve);
    }
  }

  lemma {:induction false} PatchedTwice(files: Files, a: Effect, b: Effect)
    ensures Patched(Patched(files, a), b) == Patched(files, a + b)
  {
  }

  /** Hunks that touch different files act as if all at once: the patch succeeds exactly when each hunk applies
      to the files as they were, and then makes all their changes together. */
  lemma {:induction false} IndependentHunksActAtOnce(files: Files, hunks: seq<Hunk>, resolve: Resolver)
    requires Independent(hunks, resolve)
    ensures Run(files, hunks, resolve).error == None <==> EachApplies(files, hunks, resolve)
    ensures EachApplies(files, hunks, resolve) ==>
              Run(files, hunks, resolve).files == Patched(files, AllEffects(files, hunks, resolve))
    decreases |hunks|
  {
    if hunks == [] {
      assert Patched(files, map[]) == files;
    } else {
      var r := HunkEffect(files, hunks[0], resolve);
      if r.Ok? {
        EffectTouches(Lookup(files, resolve(hunks[0].path)), hunks[0], resolve);
        var next := Patched(files, r.value);
        forall p | p in AllTouched(hunks[1..], resolve)
          ensures Lookup(next, p) == Lookup(files, p)
        {
          PatchedElsewhere(files, r.value, p);
        }
        EffectsAgree(next, files, hunks[1..], resolve);
        IndependentHunksActAtOnce(next, hunks[1..], resolve);
        if EachApplies(files, hunks[1..], resolve) {
          PatchedTwice(files, r.value, AllEffects(files, hunks[1..], resolve));
        }
      }
    }
  }

  /** So two hunks on different files can be applied in either order. */
  lemma {:induction false} OrderDoesNotMatter(files: Files, a: Hunk, b: Hunk, resolve: Resolver)
    requires Touched(a, resolve) !! Touched(b, resolve) && Run(files, [a, b], resolve).error == None
    ensures Run(files, [b, a], resolve) == Run(files, [a, b], resolve)
  {
    PairAtOnce(files, a, b, resolve);
    PairAtOnce(files, b, a, resolve);
    EffectTouches(Lookup(files, resolve(a.path)), a, resolve);
    EffectTouches(Lookup(files, resolve(b.path)), b, resolve);
    Swap(HunkEffect(files, a, resolve).value, HunkEffect(files, b, resolve).value);
  }

  lemma {:induction false} Swap(a: Effect, b: Effect)
    requires a.Keys !! b.Keys
    ensures a + b == b + a
  {
  }

  lemma {:induction false} RunOne(files: Files, a: Hunk, resolve: Resolver)
    ensures Run(files, [a], resolve) == match HunkEffect(files, a, resolve) {
              case Err(e) => Progress(files, Some(e))
              case Ok(effect) => Progress(Patched(files, effect), None)
            }
  {
    assert [a][1..] == [];
  }

  lemma {:induction false} RunTwo(files: Files, a: Hunk, b: Hunk, resolve: Resolver)
    requires HunkEffect(files, a, resolve).Ok?
    ensures Run(files, [a, b], resolve) == Run(Patched(files, HunkEffect(files, a, resolve).value), [b], resolve)
  {
    assert [a, b][1..] == [b];
  }

  lemma {:induction false} PairAtOnce(files: Files, a: Hunk, b: Hunk, resolve: Resolver)
    requires Touched(a, resolve) !! Touched(b, resolve)
    ensures Run(files, [a, b], resolve).error == None <==> HunkEffect(files, a, resolve).Ok? && HunkEffect(files, b, resolve).Ok?
    ensures Run(files, [a, b], resolve).error == None ==>
              Run(files, [a, b], resolve).files
              == Patched(files, HunkEffect(files, a, resolve).value + HunkEffect(files, b, resolve).value)
  {
    var ra := HunkEffect(files, a, resolve);
    if ra.Ok? {
      RunTwo(files, a, b, resolve);
      RunOne(Patched(files, ra.value), b, resolve);
      EffectTouches(Lookup(files, resolve(a.path)), a, resolve);
      PatchedElsewhere(files, ra.value, resolve(b.path));
      var rb := HunkEffect(files, b, resolve);
      if rb.Ok? {
        PatchedTwice(files, ra.value, rb.value);
      }
    }
  }

  /** A move keeps the new text exactly when it leads to another path: the old path is removed last. */
  lemma {:induction false} MoveKeepsTextIff(files: Files, hunk: Hunk, resolve: Resolver, text: string)
    requires Moves(hunk) && resolve(hunk.path) in files && UpdatedText(files[resolve(hunk.path)], hunk.chunks) == Ok(text)
    ensures var after := Run(files, [hunk], resolve).files;
            && resolve(hunk.path) !in after
            && (Lookup(after, resolve(hunk.movePath.value)) == Some(text) <==> resolve(hunk.movePath.value) != resolve(hunk.path))
  {
    var path, target := resolve(hunk.path), resolve(hunk.movePath.value);
    var effect := map[target := Some(text)][path := None];
    assert HunkEffect(files, hunk, resolve) == Ok(effect);
    assert [hunk][1..] == [];
    assert Run(files, [hunk], resolve) == Run(Patched(files, effect), [], resolve);
    PatchedThere(files, effect, path);
    PatchedThere(files, effect, target);
  }

  // ---------------------------------------------------------------------------
  // The summary
  // ---------------------------------------------------------------------------

  datatype Summary = Summary(added: seq<string>, modified: seq<string>, deleted: seq<string>) {
    function In(bucket: Bucket): seq<string> {
      match bucket case InAdded => added case InModified => modified case InDeleted => deleted
    }

    function Record(bucket: Bucket, path: string): Summary {
      if path in In(bucket) then this
      else match bucket
        case InAdded => this.(added := added + [path])
        case InModified => this.(modified := modified + [path])
        case InDeleted => this.(deleted := deleted + [path])
    }
  }

  function Summarize(hunks: seq<Hunk>, display: Display): Summary {
    if hunks == [] then Summary([], [], [])
    else
      var (bucket, path) := Reported(hunks[|hunks| - 1], display);
      Summarize(hunks[..|hunks| - 1], display).Record(bucket, path)
  }

  ghost predicate NoRepeats(paths: seq<string>) {
    forall i, j :: 0 <= i < j < |paths| ==> paths[i] != paths[j]
  }

  /** A hunk of the list reports the path in the bucket. */
  predicate Reports(hunks: seq<Hunk>, display: Display, bucket: Bucket, path: string) {
    exists k :: 0 <= k < |hunks| && Reported(hunks[k], display) == (bucket, path)
  }

  lemma {:induction false} ReportsSnoc(hunks: seq<Hunk>, display: Display, bucket: Bucket, path: string)
    requires hunks != []
    ensures Reports(hunks, display, bucket, path) <==>
            Reports(hunks[..|hunks| - 1], display, bucket, path) || Reported(hunks[|hunks| - 1], display) == (bucket, path)
  {
    var init := hunks[..|hunks| - 1];
    if k :| 0 <= k < |init| && Reported(init[k], display) == (bucket, path) {
      assert Reported(hunks[k], display) == (bucket, path);
    }
    if k :| 0 <= k < |hunks| && Reported(hunks[k], display) == (bucket, path) {
      assert k < |init| ==> Reported(init[k], display) == (bucket, path);
    }
  }

  lemma {:induction false} RecordIn(summary: Summary, at: Bucket, path: string, bucket: Bucket)
    requires NoRepeats(summary.In(bucket))
    ensures NoRepeats(summary.Record(at, path).In(bucket))
    ensures forall p :: p in summary.Record(at, path).In(bucket) <==> p in summary.In(bucket) || (at, path) == (bucket, p)
  {
  }

  /** Each list of the summary names exactly the paths of its hunks, each one once. */
  lemma {:induction false} SummaryNamesEachOnce(hunks: seq<Hunk>, display: Display, bucket: Bucket)
    ensures NoRepeats(Summarize(hunks, display).In(bucket))
    ensures forall p :: p in Summarize(hunks, display).In(bucket) <==> Reports(hunks, display, bucket, p)
  {
    if hunks != [] {
      var init, last := hunks[..|hunks| - 1], hunks[|hunks| - 1];
      SummaryNamesEachOnce(init, display, bucket);
      RecordIn(Summarize(init, display), Reported(last, display).0, Reported(last, display).1, bucket);
      forall p
        ensures Reports(hunks, display, bucket, p) <==> Reports(init, display, bucket, p) || Reported(last, display) == (bucket, p)
      {
        ReportsSnoc(hunks, display, bucket, p);
      }
    }
  }

  // ---------------------------------------------------------------------------
  // The loop over the hunks
  // ---------------------------------------------------------------------------

  class Disk {
    var files: Files

    method ReadFile(path: Path) returns (contents: Option<string>)
      ensures contents == Lookup(files, path)
    {
      contents := if path in files then Some(files[path]) else None;
    }

    method WriteFile(path: Path, contents: string)
      modifies this
      ensures files == old(files)[path := contents]
    {
      files := files[path := contents];
    }

    method Remove(path: Path) returns (ok: bool)
      modifies this
      ensures ok == (path in old(files)) && files == old(files) - {path}
    {
      ok := path in files;
      files := files - {path};
    }
  }

  /** The paths already in each list. */
  datatype Seen = Seen(added: set<string>, modified: set<string>, deleted: set<string>) {
    function In(bucket: Bucket): set<string> {
      match bucket case InAdded => added case InModified => modified case InDeleted => deleted
    }
  }

  /** `recordSummary`. */
  class SummaryBuilder {
    var summary: Summary
    var seen: Seen

    ghost predicate Valid()
      reads this
    {
      && (forall p :: p in seen.added <==> p in summary.added)
      && (forall p :: p in seen.modified <==> p in summary.modified)
      && (forall p :: p in seen.deleted <==> p in summary.deleted)
    }

    constructor ()
      ensures Valid() && summary == Summary([], [], [])
    {
      summary := Summary([], [], []);
      seen := Seen({}, {}, {});
    }

    method RecordSummary(bucket: Bucket, value: string)
      requires Valid()
      modifies this
      ensures Valid() && summary == old(summary).Record(bucket, value)
    {
      if value in seen.In(bucket) {
        return;
      }
      match bucket {
        case InAdded =>
          seen := seen.(added := seen.added + {value});
          summary := summary.(added := summary.added + [value]);
        case InModified =>
          seen := seen.(modified := seen.modified + {value});
          summary := summary.(modified := summary.modified + [value]);
        case InDeleted =>
          seen := seen.(deleted := seen.deleted + {value});
          summary := summary.(deleted := summary.deleted + [value]);
      }
    }
  }

  /** Writes the new text of a file, to another path if it moves, and then removes the old one. */
  method WriteUpdated(disk: Disk, path: Path, target: Option<Path>, text: string)
    requires path in disk.files
    modifies disk
    ensures disk.files == Patched(old(disk.files), UpdateEffect(path, target, text))
  {
    if target.Some? {
      disk.WriteFile(target.value, text);
      var _ := disk.Remove(path);
    } else {
      disk.WriteFile(path, text);
    }
  }

  method UpdateFileOnDisk(disk: Disk, path: Path, target: Option<Path>, chunks: seq<Chunk>) returns (error: Option<ApplyError>)
    modifies disk
    ensures if path !in old(disk.files) then error == Some(Missing(path)) && disk.files == old(disk.files)
            else match UpdatedText(old(disk.files)[path], chunks)
              case Err(e) => error == Some(Unplaceable(e)) && disk.files == old(disk.files)
              case Ok(text) => error == None && disk.files == Patched(old(disk.files), UpdateEffect(path, target, text))
  {
    var contents := disk.ReadFile(path);
    if contents.None? {
      return Some(Missing(path));
    }
    var applied := ApplyUpdateHunk(contents.value, chunks);
    if applied.Err? {
      return Some(Unplaceable(applied.error));
    }
    WriteUpdated(disk, path, target, applied.value);
    return None;
  }

  /** One turn of the loop. */
  method ApplyHunk(disk: Disk, hunk: Hunk, resolve: Resolver) returns (error: Option<ApplyError>)
    modifies disk
    ensures match HunkEffect(old(disk.files), hunk, resolve)
            case Err(e) => error == Some(e) && disk.files == old(disk.files)
            case Ok(effect) => error == None && disk.files == Patched(old(disk.files), effect)
  {
    var target := resolve(hunk.path);
    match hunk
    case AddFile(_, contents) =>
      disk.WriteFile(target, contents);
      return None;
    case DeleteFile(_) =>
      var ok := disk.Remove(target);
      return if ok then None else Some(Missing(target));
    case UpdateFile(_, movePath, chunks) =>
      var moveTarget := if movePath.Some? && movePath.value != "" then Some(resolve(movePath.value)) else None;
      error := UpdateFileOnDisk(disk, target, moveTarget, chunks);
  }

  method ApplyHunks(disk: Disk, hunks: seq<Hunk>, resolve: Resolver, display: Display) returns (r: Result<Summary, ApplyError>)
    modifies disk
    ensures Progress(disk.files, if r.Ok? then None else Some(r.error)) == Run(old(disk.files), hunks, resolve)
    ensures r.Ok? ==> r.value == Summarize(hunks, display)
  {
    var builder := new SummaryBuilder();
    var k := 0;
    while k < |hunks|
      invariant 0 <= k <= |hunks| && builder.Valid() && fresh(builder)
      invariant Run(disk.files, hunks[k..], resolve) == Run(old(disk.files), hunks, resolve)
      invariant builder.summary == Summarize(hunks[..k], display)
    {
      assert hunks[k..][1..] == hunks[k + 1..] && hunks[..k + 1][..k] == hunks[..k];
      var error := ApplyHunk(disk, hunks[k], resolve);
      if error.Some? {
        return Err(error.value);
      }
      var (bucket, path) := Reported(hunks[k], display);
      builder.RecordSummary(bucket, path);
      k := k + 1;
    }
    assert hunks[..|hunks|] == hunks;
    return Ok(builder.summary);
  }

  /** `applyPatch`: a text that does not parse, or holds no hunks, changes nothing. */
  method ApplyPatchText(disk: Disk, input: string, resolve: Resolver, display: Display) returns (r: Result<Summary, ApplyError>)
    modifies disk
    ensures match Parse(input)
            case Err(e) => r == Err(Unparsable(e)) && disk.files == old(disk.files)
            case Ok(hunks) =>
              if hunks == [] then r == Err(NoHunks) && disk.files == old(disk.files)
              else
                && Progress(disk.files, if r.Ok? then None else Some(r.error)) == Run(old(disk.files), hunks, resolve)
                && (r.Ok? ==> r.value == Summarize(hunks, display))
  {
    var parsed := ParsePatchText(input);
    if parsed.Err? {
      return Err(Unparsable(parsed.error));
    }
    if |parsed.value| == 0 {
      return Err(NoHunks);
    }
    r := ApplyHunks(disk, parsed.value, resolve, display);
  }
}
