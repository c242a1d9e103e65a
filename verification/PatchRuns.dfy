/** What a run of a patch leaves in each file, and where it stops (src/agents/apply-patch.ts:133-189). */
module PatchRuns {
  import opened Wrappers
  import opened ApplyPatchUpdate
  import opened PatchText
  import opened ApplyPatch

  // ---------------------------------------------------------------------------
  // What one hunk asks for
  // ---------------------------------------------------------------------------

  /** The path an update moves its file to; an empty one counts as none. */
  function MoveTarget(hunk: Hunk): Option<string> {
    if hunk.UpdateFile? && hunk.movePath != Some("") then hunk.movePath else None
  }

  predicate Names(hunk: Hunk, resolve: Resolver, path: Path) {
    path == resolve(hunk.path) || (MoveTarget(hunk).Some? && path == resolve(MoveTarget(hunk).value))
  }

  /** Why a hunk cannot be applied to these files. */
  predicate Fails(files: Files, hunk: Hunk, resolve: Resolver, e: ApplyError) {
    var path := resolve(hunk.path);
    match hunk
    case AddFile(_, _) => false
    case DeleteFile(_) => path !in files && e == Missing(path)
    case UpdateFile(_, _, chunks) =>
      if path !in files then e == Missing(path)
      else e.Unplaceable? && UpdatedText(files[path], chunks) == Err(e.placeError)
  }

  /** What a hunk leaves at a path it names: an added text, nothing where it deletes or moves away from, else
      the updated text. */
  predicate Leaves(before: Files, hunk: Hunk, resolve: Resolver, path: Path, left: Option<string>) {
    match hunk
    case AddFile(_, contents) => left == Some(contents)
    case DeleteFile(_) => left == None
    case UpdateFile(source, _, chunks) =>
      if MoveTarget(hunk).Some? && path == resolve(source) then left == None
      else left.Some? && resolve(source) in before && UpdatedText(before[resolve(source)], chunks) == Ok(left.value)
  }

  lemma {:induction false} NamesIffTouched(hunk: Hunk, resolve: Resolver, path: Path)
    ensures Names(hunk, resolve, path) <==> path in Touched(hunk, resolve)
  {
  }

  lemma {:induction false} NamedIffTouched(hunks: seq<Hunk>, resolve: Resolver, path: Path)
    ensures (exists hunk :: hunk in hunks && Names(hunk, resolve, path)) <==> path in AllTouched(hunks, resolve)
  {
    if hunks != [] {
      NamesIffTouched(hunks[0], resolve, path);
      NamedIffTouched(hunks[1..], resolve, path);
      assert forall hunk :: hunk in hunks <==> hunk == hunks[0] || hunk in hunks[1..];
    }
  }

  lemma {:induction false} FailsIff(files: Files, hunk: Hunk, resolve: Resolver, e: ApplyError)
    ensures HunkEffect(files, hunk, resolve) == Err(e) <==> Fails(files, hunk, resolve, e)
  {
  }

  lemma {:induction false} EffectLeaves(files: Files, hunk: Hunk, resolve: Resolver, path: Path)
    requires HunkEffect(files, hunk, resolve).Ok? && Names(hunk, resolve, path)
    ensures path in HunkEffect(files, hunk, resolve).value
    ensures Leaves(files, hunk, resolve, path, HunkEffect(files, hunk, resolve).value[path])
  {
  }

  // ---------------------------------------------------------------------------
  // Runs in two parts
  // ---------------------------------------------------------------------------

  /** A run goes on where its first part ends, unless that failed. */
  lemma {:induction false} RunInTwoParts(files: Files, front: seq<Hunk>, back: seq<Hunk>, resolve: Resolver)
    ensures var first := Run(files, front, resolve);
            Run(files, front + back, resolve) == if first.error == None then Run(first.files, back, resolve) else first
    decreases |front|
  {
    if front == [] {
      assert front + back == back;
    } else {
      assert (front + back)[1..] == front[1..] + back;
      var r := HunkEffect(files, front[0], resolve);
      if r.Ok? {
        RunInTwoParts(Patched(files, r.value), front[1..], back, resolve);
      }
    }
  }

  /** The first `k` hunks apply, and the next one fails on what they leave. */
  predicate StopsAt(files: Files, hunks: seq<Hunk>, resolve: Resolver, k: nat, e: ApplyError) {
    k < |hunks| && Run(files, hunks[..k], resolve).error == None && Fails(Run(files, hunks[..k], resolve).files, hunks[k], resolve, e)
  }

  /** The run stops at the first hunk that fails, with its error and the files as the hunks before it left them;
      what stands behind it does not matter. */
  lemma {:induction false} FailureStopsRun(files: Files, hunks: seq<Hunk>, resolve: Resolver, k: nat, e: ApplyError)
    requires StopsAt(files, hunks, resolve, k, e)
    ensures Run(files, hunks, resolve) == Progress(Run(files, hunks[..k], resolve).files, Some(e))
  {
    assert hunks[..k] + hunks[k..] == hunks;
    RunInTwoParts(files, hunks[..k], hunks[k..], resolve);
    FailsIff(Run(files, hunks[..k], resolve).files, hunks[k], resolve, e);
  }

  lemma {:induction false} FindStop(files: Files, hunks: seq<Hunk>, resolve: Resolver) returns (k: nat)
    requires Run(files, hunks, resolve).error.Some?
    ensures StopsAt(files, hunks, resolve, k, Run(files, hunks, resolve).error.value)
    decreases |hunks|
  {
    var r := HunkEffect(files, hunks[0], resolve);
    if r.Err? {
      k := 0;
      FailsIff(files, hunks[0], resolve, r.error);
      assert hunks[..0] == [];
    } else {
      var j := FindStop(Patched(files, r.value), hunks[1..], resolve);
      k := j + 1;
      assert hunks[..k][1..] == hunks[1..][..j] && hunks[..k][0] == hunks[0];
    }
  }

  /** A run fails exactly when some hunk cannot be applied to what the hunks before it leave. */
  lemma {:induction false} RunFailsIff(files: Files, hunks: seq<Hunk>, resolve: Resolver, e: ApplyError)
    ensures Run(files, hunks, resolve).error == Some(e) <==> exists k: nat :: StopsAt(files, hunks, resolve, k, e)
  {
    if Run(files, hunks, resolve).error == Some(e) {
      var k := FindStop(files, hunks, resolve);
    }
    forall k: nat | StopsAt(files, hunks, resolve, k, e) ensures Run(files, hunks, resolve).error == Some(e) {
      FailureStopsRun(files, hunks, resolve, k, e);
    }
  }

  // ---------------------------------------------------------------------------
  // The last hunk that names a file decides it
  // ---------------------------------------------------------------------------

  lemma {:induction false} FrontSucceeds(files: Files, hunks: seq<Hunk>, resolve: Resolver, k: nat)
    requires k <= |hunks| && Run(files, hunks, resolve).error == None
    ensures Run(files, hunks[..k], resolve).error == None
    ensures Run(files, hunks, resolve) == Run(Run(files, hunks[..k], resolve).files, hunks[k..], resolve)
  {
    assert hunks[..k] + hunks[k..] == hunks;
    RunInTwoParts(files, hunks[..k], hunks[k..], resolve);
  }

  lemma {:induction false} FirstOfRun(files: Files, hunks: seq<Hunk>, resolve: Resolver, path: Path)
    requires hunks != [] && Run(files, hunks, resolve).error == None && Names(hunks[0], resolve, path)
    requires forall hunk :: hunk in hunks[1..] ==> !Names(hunk, resolve, path)
    ensures Leaves(files, hunks[0], resolve, path, Lookup(Run(files, hunks, resolve).files, path))
  {
    var effect := HunkEffect(files, hunks[0], resolve).value;
    EffectLeaves(files, hunks[0], resolve, path);
    PatchedThere(files, effect, path);
    NamedIffTouched(hunks[1..], resolve, path);
    OtherFilesAreUntouched(Patched(files, effect), hunks[1..], resolve, path);
  }

  /** After a run that succeeds, every file a hunk names is what the last hunk that names it leaves there. */
  lemma {:induction false} LastHunkDecides(files: Files, hunks: seq<Hunk>, resolve: Resolver, k: nat, path: Path)
    requires k < |hunks| && Run(files, hunks, resolve).error == None && Names(hunks[k], resolve, path)
    requires forall hunk :: hunk in hunks[k + 1..] ==> !Names(hunk, resolve, path)
    ensures Leaves(Run(files, hunks[..k], resolve).files, hunks[k], resolve, path, Lookup(Run(files, hunks, resolve).files, path))
  {
    FrontSucceeds(files, hunks, resolve, k);
    assert hunks[k..][1..] == hunks[k + 1..];
    FirstOfRun(Run(files, hunks[..k], resolve).files, hunks[k..], resolve, path);
  }

  // ---------------------------------------------------------------------------
  // The summary, list by list
  // ---------------------------------------------------------------------------

  /** The lists show added and deleted paths, and for an update the path its text ends up at. */
  lemma {:induction false} SummaryShows(hunks: seq<Hunk>, display: Display, shown: string)
    ensures var summary := Summarize(hunks, display);
            && (shown in summary.added <==> exists hunk :: hunk in hunks && hunk.AddFile? && shown == display(hunk.path))
            && (shown in summary.deleted <==> exists hunk :: hunk in hunks && hunk.DeleteFile? && shown == display(hunk.path))
            && (shown in summary.modified <==>
                exists hunk :: hunk in hunks && hunk.UpdateFile?
                  && shown == display(if MoveTarget(hunk).Some? then MoveTarget(hunk).value else hunk.path))
  {
    SummaryNamesEachOnce(hunks, display, InAdded);
    SummaryNamesEachOnce(hunks, display, InModified);
    SummaryNamesEachOnce(hunks, display, InDeleted);
    assert forall hunk :: hunk in hunks ==> exists k :: 0 <= k < |hunks| && hunks[k] == hunk;
    assert Summarize(hunks, display).In(InAdded) == Summarize(hunks, display).added;
    assert Summarize(hunks, display).In(InModified) == Summarize(hunks, display).modified;
    assert Summarize(hunks, display).In(InDeleted) == Summarize(hunks, display).deleted;
  }

  /** Each list is in the order of the hunks: those of the first hunks come first. */
  lemma {:induction false} SummaryKeepsOrder(hunks: seq<Hunk>, k: nat, display: Display, bucket: Bucket)
    requires k <= |hunks|
    ensures Summarize(hunks[..k], display).In(bucket) <= Summarize(hunks, display).In(bucket)
    decreases |hunks|
  {
    if k == |hunks| {
      assert hunks[..k] == hunks;
    } else {
      var init := hunks[..|hunks| - 1];
      assert init[..k] == hunks[..k];
      SummaryKeepsOrder(init, k, display, bucket);
    }
  }
}
