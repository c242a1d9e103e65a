/** Index replacements on a list of lines, and what it means to perform them all at once. */
module Splicing {
  import opened Text

  /** Replace `oldLen` lines from index `start` on by `newLines`. */
  datatype Replacement = Replacement(start: nat, oldLen: nat, newLines: seq<Line>) {
    function End(): nat { start + oldLen }
  }

  /** `a` ends no later than `b` starts. */
  predicate Before(a: Replacement, b: Replacement) {
    a.End() <= b.start
  }

  /** In bounds for a file of `n` lines, sorted by position and pairwise disjoint. */
  ghost predicate Chained(n: nat, reps: seq<Replacement>) {
    && (forall k :: 0 <= k < |reps| ==> reps[k].End() <= n)
    && (forall j, k :: 0 <= j < k < |reps| ==> Before(reps[j], reps[k]))
  }

  lemma {:induction false} ChainedTail(n: nat, reps: seq<Replacement>)
    requires Chained(n, reps) && |reps| > 0
    ensures Chained(n, reps[1..])
    ensures forall k :: 0 <= k < |reps[1..]| ==> reps[0].End() <= reps[1..][k].start
  {
    forall k | 0 <= k < |reps[1..]|
      ensures reps[0].End() <= reps[1..][k].start
    {
      assert Before(reps[0], reps[k + 1]);
    }
  }

  /** The simultaneous, left-to-right substitution: the lines from `from` on, with every replaced
      range exchanged for its new lines and every other line kept in order. */
  ghost function Substitute(lines: seq<Line>, reps: seq<Replacement>, from: nat): seq<Line>
    requires Chained(|lines|, reps) && from <= |lines|
    requires forall k :: 0 <= k < |reps| ==> from <= reps[k].start
    decreases |reps|
  {
    if |reps| == 0 then lines[from..]
    else
      ChainedTail(|lines|, reps);
      lines[from..reps[0].start] + reps[0].newLines + Substitute(lines, reps[1..], reps[0].End())
  }

  /** One replacement as two runs of `splice` calls perform it, wherever it points. */
  function SpliceAt(lines: seq<Line>, r: Replacement): seq<Line> {
    var a := if r.start < |lines| then r.start else |lines|;
    var b := if r.End() < |lines| then r.End() else |lines|;
    lines[..a] + r.newLines + lines[b..]
  }

  /** All replacements, the last one in the list first. */
  function BackToFront(lines: seq<Line>, reps: seq<Replacement>): seq<Line> {
    if |reps| == 0 then lines else SpliceAt(BackToFront(lines, reps[1..]), reps[0])
  }

  lemma {:induction false} BackToFrontSuffix(lines: seq<Line>, reps: seq<Replacement>, from: nat)
    requires Chained(|lines|, reps) && from <= |lines|
    requires forall k :: 0 <= k < |reps| ==> from <= reps[k].start
    ensures BackToFront(lines, reps) == lines[..from] + Substitute(lines, reps, from)
    decreases |reps|
  {
    if |reps| == 0 {
      assert lines == lines[..from] + lines[from..];
    } else {
      var r := reps[0];
      ChainedTail(|lines|, reps);
      BackToFrontSuffix(lines, reps[1..], r.End());
      var tail := Substitute(lines, reps[1..], r.End());
      SpliceSplit(BackToFront(lines, reps[1..]), lines[..r.End()], tail, r);
      PrefixSplit(lines, from, r.start, r.End(), r.newLines, tail);
    }
  }

  lemma {:induction false} PrefixSplit(s: seq<Line>, i: nat, j: nat, k: nat, mid: seq<Line>, tail: seq<Line>)
    requires i <= j <= k <= |s|
    ensures s[..k][..j] + mid + tail == s[..i] + (s[i..j] + mid + tail)
  {
    assert s[..k][..j] == s[..i] + s[i..j];
  }

  lemma {:induction false} SpliceSplit(s: seq<Line>, head: seq<Line>, tail: seq<Line>, r: Replacement)
    requires s == head + tail && |head| == r.End()
    ensures SpliceAt(s, r) == head[..r.start] + r.newLines + tail
  {
    assert s[..r.start] == head[..r.start];
    assert s[r.End()..] == tail;
  }

  /** For sorted, in-bounds, disjoint replacements the order of splicing does not show: back to
      front in place is the simultaneous substitution. */
  lemma {:induction false} SplicingIsSubstitution(lines: seq<Line>, reps: seq<Replacement>)
    requires Chained(|lines|, reps)
    ensures BackToFront(lines, reps) == Substitute(lines, reps, 0)
  {
    BackToFrontSuffix(lines, reps, 0);
  }

  function OldCount(reps: seq<Replacement>): nat {
    if |reps| == 0 then 0 else reps[0].oldLen + OldCount(reps[1..])
  }

  function NewCount(reps: seq<Replacement>): nat {
    if |reps| == 0 then 0 else |reps[0].newLines| + NewCount(reps[1..])
  }

  /** Nothing is lost or invented: the length changes by exactly the counts of the replacements. */
  lemma {:induction false} SubstituteLength(lines: seq<Line>, reps: seq<Replacement>, from: nat)
    requires Chained(|lines|, reps) && from <= |lines|
    requires forall k :: 0 <= k < |reps| ==> from <= reps[k].start
    ensures |Substitute(lines, reps, from)| == |lines| - from - OldCount(reps) + NewCount(reps)
    decreases |reps|
  {
    if |reps| > 0 {
      ChainedTail(|lines|, reps);
      SubstituteLength(lines, reps[1..], reps[0].End());
    }
  }

  /** The replacements lying wholly at or before line `i`. */
  function UpTo(reps: seq<Replacement>, i: nat): seq<Replacement> {
    if |reps| == 0 || reps[0].End() > i then [] else [reps[0]] + UpTo(reps[1..], i)
  }

  /** A line outside every replaced range survives, shifted by what was replaced before it. */
  lemma {:induction false} KeptLineSurvives(lines: seq<Line>, reps: seq<Replacement>, from: nat, i: nat)
    requires Chained(|lines|, reps) && from <= i < |lines|
    requires forall k :: 0 <= k < |reps| ==> from <= reps[k].start
    requires forall k :: 0 <= k < |reps| ==> !(reps[k].start <= i < reps[k].End())
    ensures var before := UpTo(reps, i);
            var at := i - from - OldCount(before) + NewCount(before);
            0 <= at < |Substitute(lines, reps, from)| && Substitute(lines, reps, from)[at] == lines[i]
    decreases |reps|
  {
    if |reps| > 0 {
      ChainedTail(|lines|, reps);
      var r := reps[0];
      if r.End() <= i {
        KeptLineSurvives(lines, reps[1..], r.End(), i);
        var before := UpTo(reps[1..], i);
        assert ([r] + before)[1..] == before;
      } else {
        assert Substitute(lines, reps, from)[i - from] == lines[i];
      }
    }
  }

  /** `result.splice(at, 0, x)` for a non-negative `at`. */
  function SpliceIn(lines: seq<Line>, at: nat, x: Line): seq<Line> {
    if at < |lines| then lines[..at] + [x] + lines[at..] else lines + [x]
  }

  /** The first inner loop: delete up to `count` lines one by one. */
  method DeleteLines(lines: seq<Line>, start: nat, count: nat) returns (result: seq<Line>)
    ensures result == SpliceAt(lines, Replacement(start, count, []))
  {
    result := lines;
    ghost var a := if start < |lines| then start else |lines|;
    for i := 0 to count
      invariant result == lines[..a] + lines[if start + i < |lines| then start + i else |lines|..]
    {
      if start < |result| {
        result := result[..start] + result[start + 1..];
      }
    }
  }

  /** The second one: insert the new lines one by one. */
  method InsertLines(lines: seq<Line>, start: nat, newLines: seq<Line>) returns (result: seq<Line>)
    ensures result == SpliceAt(lines, Replacement(start, 0, newLines))
  {
    result := lines;
    ghost var a := if start < |lines| then start else |lines|;
    for i := 0 to |newLines|
      invariant result == lines[..a] + newLines[..i] + lines[a..]
    {
      result := SpliceIn(result, start + i, newLines[i]);
    }
  }

  lemma {:induction false} DeleteThenInsert(lines: seq<Line>, r: Replacement)
    ensures SpliceAt(SpliceAt(lines, Replacement(r.start, r.oldLen, [])), Replacement(r.start, 0, r.newLines)) == SpliceAt(lines, r)
  {
    var a := if r.start < |lines| then r.start else |lines|;
    var b := if r.End() < |lines| then r.End() else |lines|;
    assert lines[..a] + [] + lines[b..] == lines[..a] + lines[b..];
    assert (lines[..a] + lines[b..])[..a] == lines[..a] && (lines[..a] + lines[b..])[a..] == lines[b..];
  }

  /** One turn of the loop: delete up to `oldLen` lines one by one, then insert the new lines one by one. */
  method SpliceOne(lines: seq<Line>, r: Replacement) returns (result: seq<Line>)
    ensures result == SpliceAt(lines, r)
  {
    result := DeleteLines(lines, r.start, r.oldLen);
    result := InsertLines(result, r.start, r.newLines);
    DeleteThenInsert(lines, r);
  }

  /** The in-place loop over the replacements, from the last to the first. */
  method ApplyReplacements(lines: seq<Line>, reps: seq<Replacement>) returns (result: seq<Line>)
    ensures result == BackToFront(lines, reps)
    ensures Chained(|lines|, reps) ==> result == Substitute(lines, reps, 0)
  {
    result := lines;
    for k := |reps| downto 0
      invariant result == BackToFront(lines, reps[k..])
    {
      assert reps[k..][0] == reps[k] && reps[k..][1..] == reps[k + 1..];
      result := SpliceOne(result, reps[k]);
    }
    assert reps[0..] == reps;
    if Chained(|lines|, reps) {
      SplicingIsSubstitution(lines, reps);
    }
  }
}
