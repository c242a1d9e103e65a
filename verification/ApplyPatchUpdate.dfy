/** Placing and applying the chunks of a hunk (src/agents/apply-patch-update.ts). */
module ApplyPatchUpdate {
  import opened Wrappers
  import opened Text
  import opened Splicing

  datatype Chunk = Chunk(changeContext: Option<Line>, oldLines: seq<Line>, newLines: seq<Line>, isEndOfFile: bool)

  // ---------------------------------------------------------------------------
  // Graded line comparison
  // ---------------------------------------------------------------------------

  /** The four comparators, strictest first. */
  datatype Level = Exact | EndTrimmed | Trimmed | Normalized {
    function Rank(): nat {
      match this case Exact => 0 case EndTrimmed => 1 case Trimmed => 2 case Normalized => 3
    }
  }

  function PlainPunctuation(c: char): char {
    if '\U{2010}' <= c <= '\U{2015}' || c == '\U{2212}' then '-'
    else if '\U{2018}' <= c <= '\U{201B}' then '\''
    else if '\U{201C}' <= c <= '\U{201F}' then '"'
    else if c == '\U{00A0}' || '\U{2002}' <= c <= '\U{200A}' || c == '\U{202F}' || c == '\U{205F}' || c == '\U{3000}' then ' '
    else c
  }

  function NormalizePunctuation(s: string): string {
    seq(|s|, i requires 0 <= i < |s| => PlainPunctuation(s[i]))
  }

  function Canonical(level: Level, s: Line): Line {
    match level
    case Exact => s
    case EndTrimmed => TrimEnd(s)
    case Trimmed => Trim(s)
    case Normalized => NormalizePunctuation(Trim(s))
  }

  type Normalize = Line -> Line

  /** The function a comparator applies to both lines. */
  function NormalizerOf(level: Level): Normalize {
    s => Canonical(level, s)
  }

  /** The pattern's lines agree with those at index `at`, both normalized. */
  predicate Agrees(lines: seq<Line>, pattern: seq<Line>, at: nat, normalize: Normalize)
    requires at + |pattern| <= |lines|
  {
    forall i :: 0 <= i < |pattern| ==> normalize(lines[at + i]) == normalize(pattern[i])
  }

  predicate MatchesAt(lines: seq<Line>, pattern: seq<Line>, at: nat, level: Level)
    requires at + |pattern| <= |lines|
  {
    Agrees(lines, pattern, at, NormalizerOf(level))
  }

  /** Whatever a strict comparator accepts, every laxer one accepts too. */
  lemma {:induction false} LaxerMatches(lines: seq<Line>, pattern: seq<Line>, at: nat, strict: Level, lax: Level)
    requires at + |pattern| <= |lines| && strict.Rank() <= lax.Rank()
    requires MatchesAt(lines, pattern, at, strict)
    ensures MatchesAt(lines, pattern, at, lax)
  {
    forall i | 0 <= i < |pattern|
      ensures Canonical(lax, lines[at + i]) == Canonical(lax, pattern[i])
    {
      assert Canonical(strict, lines[at + i]) == Canonical(strict, pattern[i]);
    }
  }

  /** `linesMatch`. */
  method LinesMatch(lines: seq<Line>, pattern: seq<Line>, at: nat, normalize: Normalize) returns (r: bool)
    requires at + |pattern| <= |lines|
    ensures r == Agrees(lines, pattern, at, normalize)
  {
    for idx := 0 to |pattern|
      invariant forall i :: 0 <= i < idx ==> normalize(lines[at + i]) == normalize(pattern[i])
    {
      if normalize(lines[at + idx]) != normalize(pattern[idx]) {
        return false;
      }
    }
    return true;
  }

  // ---------------------------------------------------------------------------
  // Seeking
  // ---------------------------------------------------------------------------

  function FirstAgreeing(lines: seq<Line>, pattern: seq<Line>, from: nat, normalize: Normalize): (r: Option<nat>)
    ensures r.Some? ==> from <= r.value && r.value + |pattern| <= |lines|
    decreases |lines| - from
  {
    if from + |pattern| > |lines| then None
    else if Agrees(lines, pattern, from, normalize) then Some(from)
    else if from == |lines| then None
    else FirstAgreeing(lines, pattern, from + 1, normalize)
  }

  lemma {:induction false} FirstAgreeingIsFirst(lines: seq<Line>, pattern: seq<Line>, from: nat, normalize: Normalize)
    ensures var r := FirstAgreeing(lines, pattern, from, normalize);
            && (r.Some? ==> Agrees(lines, pattern, r.value, normalize))
            && (forall i :: from <= i < (if r.Some? then r.value else |lines| - |pattern| + 1)
                  ==> !Agrees(lines, pattern, i, normalize))
    decreases |lines| - from
  {
    if from + |pattern| <= |lines| && !Agrees(lines, pattern, from, normalize) && from < |lines| {
      FirstAgreeingIsFirst(lines, pattern, from + 1, normalize);
    }
  }

  /** The first match is the one with none before it. */
  lemma {:induction false} FirstAgreeingIs(lines: seq<Line>, pattern: seq<Line>, from: nat, normalize: Normalize, i: nat)
    requires from <= i && i + |pattern| <= |lines| && Agrees(lines, pattern, i, normalize)
    requires forall k :: from <= k < i ==> !Agrees(lines, pattern, k, normalize)
    ensures FirstAgreeing(lines, pattern, from, normalize) == Some(i)
    decreases i - from
  {
    if from < i {
      FirstAgreeingIs(lines, pattern, from + 1, normalize, i);
    }
  }

  lemma {:induction false} NoneAgreeing(lines: seq<Line>, pattern: seq<Line>, from: nat, normalize: Normalize)
    requires forall k :: from <= k <= |lines| - |pattern| ==> !Agrees(lines, pattern, k, normalize)
    ensures FirstAgreeing(lines, pattern, from, normalize) == None
    decreases |lines| - from
  {
    if from + |pattern| <= |lines| && from < |lines| {
      NoneAgreeing(lines, pattern, from + 1, normalize);
    }
  }

  function FirstMatch(lines: seq<Line>, pattern: seq<Line>, from: nat, level: Level): (r: Option<nat>)
    ensures r.Some? ==> from <= r.value && r.value + |pattern| <= |lines|
  {
    FirstAgreeing(lines, pattern, from, NormalizerOf(level))
  }

  lemma {:induction false} FirstMatchIsFirst(lines: seq<Line>, pattern: seq<Line>, from: nat, level: Level)
    ensures var r := FirstMatch(lines, pattern, from, level);
            && (r.Some? ==> MatchesAt(lines, pattern, r.value, level))
            && (forall i :: from <= i < (if r.Some? then r.value else |lines| - |pattern| + 1)
                  ==> !MatchesAt(lines, pattern, i, level))
  {
    FirstAgreeingIsFirst(lines, pattern, from, NormalizerOf(level));
  }

  function SearchStart(lines: seq<Line>, pattern: seq<Line>, start: nat, eof: bool): nat {
    if eof && |lines| >= |pattern| then |lines| - |pattern| else start
  }

  /** What `seekSequence` returns. */
  function Seek(lines: seq<Line>, pattern: seq<Line>, start: nat, eof: bool): (r: Option<nat>)
    ensures r.Some? && |pattern| > 0 ==> SearchStart(lines, pattern, start, eof) <= r.value <= |lines| - |pattern|
  {
    if |pattern| == 0 then Some(start) else SeekFrom(lines, pattern, SearchStart(lines, pattern, start, eof))
  }

  /** The four comparators in turn, each over the whole window. */
  function SeekFrom(lines: seq<Line>, pattern: seq<Line>, from: nat): (r: Option<nat>)
    requires |pattern| > 0
    ensures r.Some? ==> from <= r.value <= |lines| - |pattern|
  {
    var exact := FirstMatch(lines, pattern, from, Exact);
    if exact.Some? then exact else
    var endTrimmed := FirstMatch(lines, pattern, from, EndTrimmed);
    if endTrimmed.Some? then endTrimmed else
    var trimmed := FirstMatch(lines, pattern, from, Trimmed);
    if trimmed.Some? then trimmed else
    FirstMatch(lines, pattern, from, Normalized)
  }

  /** Nothing in the window matches under `level`. */
  ghost predicate Unmatched(lines: seq<Line>, pattern: seq<Line>, from: nat, level: Level) {
    forall i :: from <= i <= |lines| - |pattern| ==> !MatchesAt(lines, pattern, i, level)
  }

  /** `p` is the first match of `level`, and no stricter comparator matches anywhere in the window. */
  ghost predicate BestMatch(lines: seq<Line>, pattern: seq<Line>, from: nat, p: nat, level: Level) {
    && from <= p && p + |pattern| <= |lines|
    && MatchesAt(lines, pattern, p, level)
    && (forall i :: from <= i < p ==> !MatchesAt(lines, pattern, i, level))
    && (forall l: Level :: l.Rank() < level.Rank() ==> Unmatched(lines, pattern, from, l))
  }

  /** The comparator under which the pattern is found, if it is. */
  function FoundLevel(lines: seq<Line>, pattern: seq<Line>, from: nat): Level {
    if FirstMatch(lines, pattern, from, Exact).Some? then Exact
    else if FirstMatch(lines, pattern, from, EndTrimmed).Some? then EndTrimmed
    else if FirstMatch(lines, pattern, from, Trimmed).Some? then Trimmed
    else Normalized
  }

  lemma {:induction false} FoundIsBest(lines: seq<Line>, pattern: seq<Line>, from: nat)
    ensures var level := FoundLevel(lines, pattern, from);
            && (forall l: Level :: l.Rank() < level.Rank() ==> Unmatched(lines, pattern, from, l))
            && var first := FirstMatch(lines, pattern, from, level);
            && (first.Some? ==> BestMatch(lines, pattern, from, first.value, level))
            && (first.None? ==> Unmatched(lines, pattern, from, level) && level == Normalized)
  {
    forall l: Level | FirstMatch(lines, pattern, from, l).None?
      ensures Unmatched(lines, pattern, from, l)
    {
      FirstMatchIsFirst(lines, pattern, from, l);
    }
    FirstMatchIsFirst(lines, pattern, from, FoundLevel(lines, pattern, from));
  }

  /** A non-empty pattern is not found exactly when nothing matches even after trimming and
      punctuation normalization; otherwise the least position of the strictest comparator that
      matches anywhere in the window is found. */
  lemma {:induction false} SeekMeaning(lines: seq<Line>, pattern: seq<Line>, start: nat, eof: bool)
    requires |pattern| > 0
    ensures var r := Seek(lines, pattern, start, eof);
            var from := SearchStart(lines, pattern, start, eof);
            && (r.None? <==> Unmatched(lines, pattern, from, Normalized))
            && (r.Some? ==> BestMatch(lines, pattern, from, r.value, FoundLevel(lines, pattern, from)))
  {
    var from := SearchStart(lines, pattern, start, eof);
    FoundIsBest(lines, pattern, from);
    var r := Seek(lines, pattern, start, eof);
    assert r == FirstMatch(lines, pattern, from, FoundLevel(lines, pattern, from));
    if r.Some? {
      LaxerMatches(lines, pattern, r.value, FoundLevel(lines, pattern, from), Normalized);
    }
  }

  /** There is no room for the pattern in the window. */
  lemma {:induction false} SeekFindsNoRoom(lines: seq<Line>, pattern: seq<Line>, start: nat, eof: bool)
    requires |pattern| > 0 && SearchStart(lines, pattern, start, eof) + |pattern| > |lines|
    ensures Seek(lines, pattern, start, eof) == None
  {
  }

  method SeekSequence(lines: seq<Line>, pattern: seq<Line>, start: nat, eof: bool) returns (r: Option<nat>)
    ensures r == Seek(lines, pattern, start, eof)
  {
    if |pattern| == 0 { return Some(start); }
    if |pattern| > |lines| {
      SeekFindsNoRoom(lines, pattern, start, eof);
      return None;
    }
    var maxStart := |lines| - |pattern|;
    var searchStart := if eof && |lines| >= |pattern| then maxStart else start;
    if searchStart > maxStart {
      SeekFindsNoRoom(lines, pattern, start, eof);
      return None;
    }
    r := ScanFrom(lines, pattern, searchStart, start, eof);
  }

  /** The four loops, one after the other. */
  method ScanFrom(lines: seq<Line>, pattern: seq<Line>, searchStart: nat, ghost start: nat, ghost eof: bool) returns (r: Option<nat>)
    requires |pattern| > 0 && searchStart + |pattern| <= |lines| && searchStart == SearchStart(lines, pattern, start, eof)
    ensures r == Seek(lines, pattern, start, eof)
  {
    r := Scan(lines, pattern, searchStart, NormalizerOf(Exact));
    if r.Some? { return; }
    r := Scan(lines, pattern, searchStart, NormalizerOf(EndTrimmed));
    if r.Some? { return; }
    r := Scan(lines, pattern, searchStart, NormalizerOf(Trimmed));
    if r.Some? { return; }
    r := Scan(lines, pattern, searchStart, NormalizerOf(Normalized));
  }

  /** One of the four scanning loops. */
  method Scan(lines: seq<Line>, pattern: seq<Line>, from: nat, normalize: Normalize) returns (r: Option<nat>)
    requires from + |pattern| <= |lines|
    ensures r == FirstAgreeing(lines, pattern, from, normalize)
  {
    var i := from;
    while i <= |lines| - |pattern|
      invariant from <= i <= |lines| - |pattern| + 1
      invariant forall k :: from <= k < i ==> !Agrees(lines, pattern, k, normalize)
    {
      var found := LinesMatch(lines, pattern, i, normalize);
      if found {
        FirstAgreeingIs(lines, pattern, from, normalize, i);
        return Some(i);
      }
      i := i + 1;
    }
    NoneAgreeing(lines, pattern, from, normalize);
    return None;
  }

  // ---------------------------------------------------------------------------
  // Placing chunks
  // ---------------------------------------------------------------------------

  datatype PlaceError = ContextNotFound(context: Line) | LinesNotFound(oldLines: seq<Line>)

  datatype Placement = Placement(rep: Replacement, next: nat)

  function Anchor(lines: seq<Line>, chunk: Chunk, lineIndex: nat): (r: Result<nat, PlaceError>)
    requires lineIndex <= |lines|
    ensures r.Ok? ==> lineIndex <= r.value <= |lines|
  {
    match chunk.changeContext
    case None => Ok(lineIndex)
    case Some(context) =>
      if context == "" then Ok(lineIndex)
      else match Seek(lines, [context], lineIndex, false)
        case None => Err(ContextNotFound(context))
        case Some(i) => Ok(i + 1)
  }

  predicate BlankAtEnd(lines: seq<Line>) {
    |lines| > 0 && lines[|lines| - 1] == ""
  }

  function WithoutLast(ls: seq<Line>): seq<Line>
    requires |ls| > 0
  {
    ls[..|ls| - 1]
  }

  function PlaceChunk(lines: seq<Line>, chunk: Chunk, lineIndex: nat): (r: Result<Placement, PlaceError>)
    requires lineIndex <= |lines|
    ensures r.Ok? ==> r.value.rep.End() <= |lines| && r.value.next <= |lines|
  {
    match Anchor(lines, chunk, lineIndex)
    case Err(e) => Err(e)
    case Ok(at) => PlaceAt(lines, chunk, at)
  }

  function PlaceAt(lines: seq<Line>, chunk: Chunk, at: nat): (r: Result<Placement, PlaceError>)
    requires at <= |lines|
    ensures r.Ok? ==> r.value.rep.End() <= |lines| && r.value.next <= |lines|
  {
    var pattern := chunk.oldLines;
    if |pattern| == 0 then
      var insertion := if BlankAtEnd(lines) then |lines| - 1 else |lines|;
      Ok(Placement(Replacement(insertion, 0, chunk.newLines), at))
    else
      match Seek(lines, pattern, at, chunk.isEndOfFile)
      case Some(found) => Ok(Found(found, pattern, chunk.newLines))
      case None =>
        if pattern[|pattern| - 1] != "" then Err(LinesNotFound(pattern))
        else
          var shorter := WithoutLast(pattern);
          var newLines := if BlankAtEnd(chunk.newLines) then WithoutLast(chunk.newLines) else chunk.newLines;
          match Seek(lines, shorter, at, chunk.isEndOfFile)
          case None => Err(LinesNotFound(pattern))
          case Some(found) => Ok(Found(found, shorter, newLines))
  }

  function Found(at: nat, pattern: seq<Line>, newLines: seq<Line>): Placement {
    Placement(Replacement(at, |pattern|, newLines), at + |pattern|)
  }

  /** The replacements in chunk order, before sorting. */
  function PlaceAll(lines: seq<Line>, chunks: seq<Chunk>, lineIndex: nat): (r: Result<seq<Replacement>, PlaceError>)
    requires lineIndex <= |lines|
    ensures r.Ok? ==> |r.value| == |chunks|
    ensures r.Ok? ==> forall k :: 0 <= k < |r.value| ==> r.value[k].End() <= |lines|
  {
    if |chunks| == 0 then Ok([])
    else match PlaceChunk(lines, chunks[0], lineIndex)
      case Err(e) => Err(e)
      case Ok(p) => Prepend([p.rep], PlaceAll(lines, chunks[1..], p.next))
  }

  function Prepend<E>(front: seq<Replacement>, r: Result<seq<Replacement>, E>): Result<seq<Replacement>, E> {
    match r case Ok(reps) => Ok(front + reps) case Err(e) => Err(e)
  }

  lemma {:induction false} SoughtMatches(lines: seq<Line>, pattern: seq<Line>, start: nat, eof: bool)
    requires |pattern| > 0 && Seek(lines, pattern, start, eof).Some?
    ensures var p := Seek(lines, pattern, start, eof).value;
            p + |pattern| <= |lines| && MatchesAt(lines, pattern, p, Normalized)
  {
    SeekMeaning(lines, pattern, start, eof);
    var from := SearchStart(lines, pattern, start, eof);
    LaxerMatches(lines, pattern, Seek(lines, pattern, start, eof).value, FoundLevel(lines, pattern, from), Normalized);
  }

  /** `rep` exchanges lines that read like the chunk's old lines, up to white space and punctuation, for
      its new lines; at most a final blank line of the chunk is given up, on both sides. */
  ghost predicate Exchanges(lines: seq<Line>, chunk: Chunk, rep: Replacement) {
    && rep.End() <= |lines| && rep.oldLen <= |chunk.oldLines|
    && MatchesAt(lines, chunk.oldLines[..rep.oldLen], rep.start, Normalized)
    && (rep.oldLen == |chunk.oldLines| ==> rep.newLines == chunk.newLines)
    && (rep.oldLen < |chunk.oldLines| ==>
          && chunk.oldLines == chunk.oldLines[..rep.oldLen] + [""]
          && (rep.newLines == chunk.newLines || rep.newLines + [""] == chunk.newLines))
  }

  lemma {:induction false} PlacedWhereItMatches(lines: seq<Line>, chunk: Chunk, at: nat)
    requires at <= |lines| && PlaceAt(lines, chunk, at).Ok?
    ensures Exchanges(lines, chunk, PlaceAt(lines, chunk, at).value.rep)
  {
    var sought := chunk.oldLines;
    if |sought| > 0 {
      if Seek(lines, sought, at, chunk.isEndOfFile).Some? {
        SoughtMatches(lines, sought, at, chunk.isEndOfFile);
        assert sought[..|sought|] == sought;
      } else {
        PlacedWithoutBlank(lines, chunk, at);
      }
    }
  }

  lemma {:induction false} PlacedWithoutBlank(lines: seq<Line>, chunk: Chunk, at: nat)
    requires at <= |lines| && PlaceAt(lines, chunk, at).Ok?
    requires |chunk.oldLines| > 0 && Seek(lines, chunk.oldLines, at, chunk.isEndOfFile).None?
    ensures Exchanges(lines, chunk, PlaceAt(lines, chunk, at).value.rep)
  {
    var rep, shorter := PlaceAt(lines, chunk, at).value.rep, WithoutLast(chunk.oldLines);
    assert chunk.oldLines[..rep.oldLen] == shorter;
    assert chunk.oldLines == shorter + [""];
    assert rep.newLines == chunk.newLines || rep.newLines + [""] == chunk.newLines;
    if |shorter| > 0 {
      SoughtMatches(lines, shorter, at, chunk.isEndOfFile);
    }
  }

  // ---------------------------------------------------------------------------
  // The stable sort (section 23.1.3.30 of ECMA-262)
  // ---------------------------------------------------------------------------

  function InsertByStart(x: Replacement, sorted: seq<Replacement>): seq<Replacement> {
    if |sorted| == 0 || x.start <= sorted[0].start then [x] + sorted
    else [sorted[0]] + InsertByStart(x, sorted[1..])
  }

  function SortByStart(reps: seq<Replacement>): seq<Replacement> {
    if |reps| == 0 then [] else InsertByStart(reps[0], SortByStart(reps[1..]))
  }

  ghost predicate SortedByStart(reps: seq<Replacement>) {
    forall j, k :: 0 <= j < k < |reps| ==> reps[j].start <= reps[k].start
  }

  /** The replacements at one position, in list order. */
  function AtPosition(reps: seq<Replacement>, p: nat): seq<Replacement> {
    if |reps| == 0 then []
    else (if reps[0].start == p then [reps[0]] else []) + AtPosition(reps[1..], p)
  }

  lemma {:induction false} InsertMembers(x: Replacement, s: seq<Replacement>)
    ensures multiset(InsertByStart(x, s)) == multiset{x} + multiset(s)
  {
    if |s| > 0 && x.start > s[0].start {
      InsertMembers(x, s[1..]);
      assert s == [s[0]] + s[1..];
    }
  }

  lemma {:induction false} InsertSorted(x: Replacement, s: seq<Replacement>)
    requires SortedByStart(s)
    ensures SortedByStart(InsertByStart(x, s))
  {
    if |s| > 0 && x.start > s[0].start {
      InsertSorted(x, s[1..]);
      InsertMembers(x, s[1..]);
      forall y | y in InsertByStart(x, s[1..]) ensures s[0].start <= y.start {
        assert y in multiset(InsertByStart(x, s[1..]));
      }
    }
  }

  lemma {:induction false} InsertAtPosition(x: Replacement, s: seq<Replacement>, p: nat)
    ensures AtPosition(InsertByStart(x, s), p) == AtPosition([x], p) + AtPosition(s, p)
  {
    if |s| == 0 || x.start <= s[0].start {
      assert ([x] + s)[1..] == s;
    } else {
      InsertAtPosition(x, s[1..], p);
      var t := InsertByStart(x, s[1..]);
      assert ([s[0]] + t)[1..] == t;
    }
  }

  lemma {:induction false} SortSorts(reps: seq<Replacement>)
    ensures SortedByStart(SortByStart(reps))
    ensures multiset(SortByStart(reps)) == multiset(reps)
  {
    if |reps| > 0 {
      SortSorts(reps[1..]);
      InsertSorted(reps[0], SortByStart(reps[1..]));
      InsertMembers(reps[0], SortByStart(reps[1..]));
      assert reps == [reps[0]] + reps[1..];
    }
  }

  /** Sorting keeps the replacements at one position in chunk order. */
  lemma {:induction false} SortIsStable(reps: seq<Replacement>, p: nat)
    ensures AtPosition(SortByStart(reps), p) == AtPosition(reps, p)
  {
    if |reps| > 0 {
      SortIsStable(reps[1..], p);
      InsertAtPosition(reps[0], SortByStart(reps[1..]), p);
    }
  }

  // ---------------------------------------------------------------------------
  // When the sorted replacements are disjoint
  // ---------------------------------------------------------------------------

  /** `a`, placed earlier in chunk order, and `b` do not get in each other's way once sorted. */
  predicate Clear(a: Replacement, b: Replacement) {
    Before(a, b) || (b.start < a.start && Before(b, a))
  }

  ghost predicate PairwiseClear(reps: seq<Replacement>) {
    forall j, k :: 0 <= j < k < |reps| ==> Clear(reps[j], reps[k])
  }

  ghost predicate AllBefore(reps: seq<Replacement>) {
    forall j, k :: 0 <= j < k < |reps| ==> Before(reps[j], reps[k])
  }

  lemma {:induction false} InsertAllBefore(x: Replacement, s: seq<Replacement>)
    requires SortedByStart(s)
    ensures AllBefore(InsertByStart(x, s)) <==> AllBefore(s) && forall y :: y in s ==> Clear(x, y)
    decreases |s|
  {
    if |s| == 0 || x.start <= s[0].start {
      HeadBefore(x, s);
      assert forall y :: y in s ==> (Clear(x, y) <==> Before(x, y));
    } else {
      var h, rest := s[0], s[1..];
      InsertAllBefore(x, rest);
      HeadBefore(h, InsertByStart(x, rest));
      HeadBefore(h, rest);
      Members(x, rest);
      assert s == [h] + rest;
      assert Clear(x, h) <==> Before(h, x);
    }
  }

  lemma {:induction false} Members(x: Replacement, s: seq<Replacement>)
    ensures forall y :: y in InsertByStart(x, s) <==> y == x || y in s
  {
    InsertMembers(x, s);
    var u := InsertByStart(x, s);
    assert forall y :: y in u <==> y in multiset(u);
  }

  lemma {:induction false} HeadBefore(h: Replacement, s: seq<Replacement>)
    ensures AllBefore([h] + s) <==> AllBefore(s) && forall y :: y in s ==> Before(h, y)
  {
    var t := [h] + s;
    if AllBefore(t) {
      forall j, k | 0 <= j < k < |s| ensures Before(s[j], s[k]) { assert Before(t[j + 1], t[k + 1]); }
      forall y | y in s ensures Before(h, y) { var k :| 0 <= k < |s| && s[k] == y; assert Before(t[0], t[k + 1]); }
    }
  }

  /** Sorting yields disjoint replacements exactly when the placements were pairwise clear. */
  lemma {:induction false} SortedDisjointIffClear(n: nat, reps: seq<Replacement>)
    requires forall k :: 0 <= k < |reps| ==> reps[k].End() <= n
    ensures Chained(n, SortByStart(reps)) <==> PairwiseClear(reps)
  {
    SortedBounds(n, reps);
    if |reps| > 0 {
      var rest, s := reps[1..], SortByStart(reps[1..]);
      SortedDisjointIffClear(n, rest);
      SortedBounds(n, rest);
      InsertAllBefore(reps[0], s);
      PairwiseHead(reps);
    }
  }

  lemma {:induction false} SortedBounds(n: nat, reps: seq<Replacement>)
    requires forall k :: 0 <= k < |reps| ==> reps[k].End() <= n
    ensures var s := SortByStart(reps);
            && SortedByStart(s)
            && (Chained(n, s) <==> AllBefore(s))
            && (forall y :: y in s <==> y in reps)
  {
    SortSorts(reps);
    var s := SortByStart(reps);
    assert forall y :: y in s <==> y in multiset(s);
    assert forall y :: y in reps <==> y in multiset(reps);
    forall k | 0 <= k < |s| ensures s[k].End() <= n {
      assert s[k] in reps;
    }
  }

  lemma {:induction false} PairwiseHead(reps: seq<Replacement>)
    requires |reps| > 0
    ensures PairwiseClear(reps) <==> PairwiseClear(reps[1..]) && forall y :: y in reps[1..] ==> Clear(reps[0], y)
  {
    var rest := reps[1..];
    if PairwiseClear(reps) {
      forall j, k | 0 <= j < k < |rest| ensures Clear(rest[j], rest[k]) { assert Clear(reps[j + 1], reps[k + 1]); }
      forall y | y in rest ensures Clear(reps[0], y) { var k :| 0 <= k < |rest| && rest[k] == y; assert Clear(reps[0], reps[k + 1]); }
    } else if PairwiseClear(rest) && forall y :: y in rest ==> Clear(reps[0], y) {
      forall j, k | 0 <= j < k < |reps| ensures Clear(reps[j], reps[k]) {
        if j == 0 { assert reps[k] == rest[k - 1]; } else { assert Clear(rest[j - 1], rest[k - 1]); }
      }
    }
  }

  /** One pass over the placements decides disjointness. `claimed` is the end of the last replaced
      range, `pin` the last insertion point before the end of the file: a placement may start neither
      inside what is claimed nor reach across an earlier insertion point. */
  predicate Unobstructed(n: nat, reps: seq<Replacement>, claimed: nat, pin: nat) {
    |reps| == 0 ||
    (Fits(reps[0], claimed, pin) && Unobstructed(n, reps[1..], Claim(reps[0], claimed), Pin(n, reps[0], pin)))
  }

  predicate Fits(r: Replacement, claimed: nat, pin: nat) {
    claimed <= r.start && !(r.start < pin < r.End())
  }

  function Claim(r: Replacement, claimed: nat): nat {
    if r.oldLen > 0 then r.End() else claimed
  }

  function Pin(n: nat, r: Replacement, pin: nat): nat {
    if r.oldLen == 0 && pin < r.start < n then r.start else pin
  }

  /** What `claimed` and `pin` say about the placements made so far. */
  ghost predicate Tracked(n: nat, made: seq<Replacement>, lineIndex: nat, claimed: nat, pin: nat) {
    && claimed <= lineIndex <= n
    && (forall a :: a in made ==> a.End() <= n)
    && (forall a :: a in made && a.oldLen > 0 ==> a.End() <= claimed)
    && (claimed > 0 ==> exists a :: a in made && a.oldLen > 0 && a.End() == claimed)
    && (forall a :: a in made && a.oldLen == 0 ==> (a.start <= lineIndex || a.start + 1 >= n) && (a.start < n ==> a.start <= pin))
    && (pin > 0 ==> exists a :: a in made && a.oldLen == 0 && a.start == pin && pin < n)
  }

  /** The four ways a chunk can be placed in a file of `n` lines when the search stands at `lineIndex`:
      found further on, found at the end of the file, inserted where the search stands, or inserted
      at (or one line before) the end of the file. */
  predicate Shaped(n: nat, p: Placement, lineIndex: nat) {
    && lineIndex <= p.next <= n && p.rep.End() <= n
    && (p.rep.oldLen > 0 ==> p.next == p.rep.End() && (p.rep.End() == n || lineIndex <= p.rep.start))
    && (p.rep.oldLen == 0 ==> p.rep.start == p.next || p.rep.start + 1 >= n)
  }

  ghost predicate AllShaped(n: nat, ps: seq<Placement>, lineIndex: nat) {
    |ps| == 0 || (Shaped(n, ps[0], lineIndex) && AllShaped(n, ps[1..], ps[0].next))
  }

  function Reps(ps: seq<Placement>): seq<Replacement> {
    if |ps| == 0 then [] else [ps[0].rep] + Reps(ps[1..])
  }

  lemma {:induction false} PlacementShape(lines: seq<Line>, chunk: Chunk, lineIndex: nat)
    requires lineIndex <= |lines| && PlaceChunk(lines, chunk, lineIndex).Ok?
    ensures var p := PlaceChunk(lines, chunk, lineIndex).value;
            && Shaped(|lines|, p, lineIndex)
            && (!chunk.isEndOfFile && p.rep.oldLen > 0 ==> lineIndex <= p.rep.start)
            && (p.rep.oldLen == 0 && !BlankAtEnd(lines) ==> p.rep.start == p.next || p.rep.start == |lines|)
  {
  }

  /** The placements behind a successful `PlaceAll`. */
  lemma {:induction false} PlacementsOf(lines: seq<Line>, chunks: seq<Chunk>, lineIndex: nat) returns (ps: seq<Placement>)
    requires lineIndex <= |lines| && PlaceAll(lines, chunks, lineIndex).Ok?
    ensures AllShaped(|lines|, ps, lineIndex) && Reps(ps) == PlaceAll(lines, chunks, lineIndex).value
  {
    if |chunks| == 0 {
      ps := [];
    } else {
      var p := PlaceChunk(lines, chunks[0], lineIndex).value;
      PlacementShape(lines, chunks[0], lineIndex);
      var rest := PlacementsOf(lines, chunks[1..], p.next);
      ps := [p] + rest;
      assert ps[1..] == rest;
    }
  }

  /** The guard decides exactly whether the new placement is clear of all earlier ones. */
  lemma {:induction false} FitsIffClear(n: nat, made: seq<Replacement>, lineIndex: nat, claimed: nat, pin: nat, p: Placement)
    requires Tracked(n, made, lineIndex, claimed, pin) && Shaped(n, p, lineIndex)
    ensures Fits(p.rep, claimed, pin) <==> forall a :: a in made ==> Clear(a, p.rep)
  {
    if claimed > p.rep.start {
      var a :| a in made && a.oldLen > 0 && a.End() == claimed;
      assert !Clear(a, p.rep);
    } else if !Fits(p.rep, claimed, pin) {
      var a :| a in made && a.oldLen == 0 && a.start == pin && pin < n;
      assert !Clear(a, p.rep);
    }
  }

  lemma {:induction false} FittingStaysTracked(n: nat, made: seq<Replacement>, lineIndex: nat, claimed: nat, pin: nat, p: Placement)
    requires Tracked(n, made, lineIndex, claimed, pin) && Shaped(n, p, lineIndex) && Fits(p.rep, claimed, pin)
    ensures Tracked(n, made + [p.rep], p.next, Claim(p.rep, claimed), Pin(n, p.rep, pin))
  {
    var x := p.rep;
    assert forall a :: a in made + [x] <==> a in made || a == x;
    assert x in made + [x];
    if x.oldLen == 0 && claimed > 0 {
      var a :| a in made && a.oldLen > 0 && a.End() == claimed;
      assert a in made + [x];
    }
    if Pin(n, x, pin) == pin > 0 {
      var a :| a in made && a.oldLen == 0 && a.start == pin && pin < n;
      assert a in made + [x];
    }
  }

  lemma {:induction false} PairwiseSnoc(made: seq<Replacement>, x: Replacement)
    ensures PairwiseClear(made + [x]) <==> PairwiseClear(made) && forall a :: a in made ==> Clear(a, x)
  {
    var t := made + [x];
    if PairwiseClear(t) {
      forall j, k | 0 <= j < k < |made| ensures Clear(made[j], made[k]) { assert Clear(t[j], t[k]); }
      forall a | a in made ensures Clear(a, x) { var j :| 0 <= j < |made| && made[j] == a; assert Clear(t[j], t[|made|]); }
    }
  }

  lemma {:induction false} PairwisePrefix(front: seq<Replacement>, back: seq<Replacement>)
    ensures PairwiseClear(front + back) ==> PairwiseClear(front)
  {
    if PairwiseClear(front + back) {
      forall j, k | 0 <= j < k < |front| ensures Clear(front[j], front[k]) {
        assert Clear((front + back)[j], (front + back)[k]);
      }
    }
  }

  lemma {:induction false} UnobstructedCons(n: nat, x: Replacement, rest: seq<Replacement>, claimed: nat, pin: nat)
    ensures Unobstructed(n, [x] + rest, claimed, pin) <==>
            Fits(x, claimed, pin) && Unobstructed(n, rest, Claim(x, claimed), Pin(n, x, pin))
  {
    assert ([x] + rest)[1..] == rest;
  }

  lemma {:induction false} UnobstructedIffClear(
    n: nat, ps: seq<Placement>, lineIndex: nat, made: seq<Replacement>, claimed: nat, pin: nat)
    requires Tracked(n, made, lineIndex, claimed, pin) && PairwiseClear(made)
    requires AllShaped(n, ps, lineIndex)
    ensures Unobstructed(n, Reps(ps), claimed, pin) <==> PairwiseClear(made + Reps(ps))
    decreases |ps|
  {
    if |ps| == 0 {
      assert made + [] == made;
    } else {
      var p, rest := ps[0], Reps(ps[1..]);
      FitsIffClear(n, made, lineIndex, claimed, pin, p);
      PairwiseSnoc(made, p.rep);
      UnobstructedCons(n, p.rep, rest, claimed, pin);
      assert made + ([p.rep] + rest) == made + [p.rep] + rest;
      if Fits(p.rep, claimed, pin) {
        FittingStaysTracked(n, made, lineIndex, claimed, pin, p);
        UnobstructedIffClear(n, ps[1..], p.next, made + [p.rep], Claim(p.rep, claimed), Pin(n, p.rep, pin));
      } else {
        PairwisePrefix(made + [p.rep], rest);
      }
    }
  }

  lemma {:induction false} ClearIffUnobstructed(lines: seq<Line>, chunks: seq<Chunk>)
    requires PlaceAll(lines, chunks, 0).Ok?
    ensures var reps := PlaceAll(lines, chunks, 0).value;
            PairwiseClear(reps) <==> Unobstructed(|lines|, reps, 0, 0)
  {
    var reps := PlaceAll(lines, chunks, 0).value;
    var ps := PlacementsOf(lines, chunks, 0);
    UnobstructedIffClear(|lines|, ps, 0, [], 0, 0);
    assert [] + reps == reps;
  }

  /** Main result: whatever the file and the chunks, a successful placement sorts into in-bounds,
      disjoint replacements exactly when the one-pass check finds no obstruction. */
  lemma {:induction false} DisjointIffUnobstructed(lines: seq<Line>, chunks: seq<Chunk>)
    requires PlaceAll(lines, chunks, 0).Ok?
    ensures var reps := PlaceAll(lines, chunks, 0).value;
            Chained(|lines|, SortByStart(reps)) <==> Unobstructed(|lines|, reps, 0, 0)
  {
    ClearIffUnobstructed(lines, chunks);
    SortedDisjointIffClear(|lines|, PlaceAll(lines, chunks, 0).value);
  }

  lemma {:induction false} PlainUnobstructed(lines: seq<Line>, chunks: seq<Chunk>, lineIndex: nat, claimed: nat, pin: nat)
    requires claimed <= lineIndex <= |lines| && pin <= lineIndex
    requires !BlankAtEnd(lines)
    requires forall k :: 0 <= k < |chunks| ==> !chunks[k].isEndOfFile
    requires PlaceAll(lines, chunks, lineIndex).Ok?
    ensures Unobstructed(|lines|, PlaceAll(lines, chunks, lineIndex).value, claimed, pin)
    decreases |chunks|
  {
    if |chunks| > 0 {
      var p := PlaceChunk(lines, chunks[0], lineIndex).value;
      PlacementShape(lines, chunks[0], lineIndex);
      PlainUnobstructed(lines, chunks[1..], p.next, Claim(p.rep, claimed), Pin(|lines|, p.rep, pin));
      var rest := PlaceAll(lines, chunks[1..], p.next).value;
      assert ([p.rep] + rest)[1..] == rest;
    }
  }

  /** Without end-of-file chunks, and with a last line that is not blank, there is never an obstruction. */
  lemma {:induction false} PlainChunksAreDisjoint(lines: seq<Line>, chunks: seq<Chunk>)
    requires !BlankAtEnd(lines)
    requires forall k :: 0 <= k < |chunks| ==> !chunks[k].isEndOfFile
    requires PlaceAll(lines, chunks, 0).Ok?
    ensures Chained(|lines|, SortByStart(PlaceAll(lines, chunks, 0).value))
  {
    PlainUnobstructed(lines, chunks, 0, 0, 0);
    DisjointIffUnobstructed(lines, chunks);
  }

  lemma {:induction false} PlaceTwo(lines: seq<Line>, first: Chunk, second: Chunk)
    requires PlaceChunk(lines, first, 0).Ok?
    requires PlaceChunk(lines, second, PlaceChunk(lines, first, 0).value.next).Ok?
    ensures var p := PlaceChunk(lines, first, 0).value;
            var q := PlaceChunk(lines, second, p.next).value;
            PlaceAll(lines, [first, second], 0) == Ok([p.rep, q.rep])
  {
    var p := PlaceChunk(lines, first, 0).value;
    var q := PlaceChunk(lines, second, p.next).value;
    assert [first, second][1..] == [second] && [second][1..] == [];
    assert [q.rep] + [] == [q.rep];
    assert PlaceAll(lines, [second], p.next) == Ok([q.rep]);
    assert [p.rep] + [q.rep] == [p.rep, q.rep];
  }

  /** An end-of-file chunk searches from the end of the file even when that line is already replaced. */
  lemma {:induction false} EndOfFileChunkCanOverlap()
    ensures var lines := ["a", "b"];
            var chunks := [Chunk(None, ["b"], ["x"], false), Chunk(None, ["b"], ["y"], true)];
            && PlaceAll(lines, chunks, 0) == Ok([Replacement(1, 1, ["x"]), Replacement(1, 1, ["y"])])
            && !Chained(|lines|, SortByStart(PlaceAll(lines, chunks, 0).value))
  {
    var lines := ["a", "b"];
    var first, second := Chunk(None, ["b"], ["x"], false), Chunk(None, ["b"], ["y"], true);
    assert Canonical(Exact, lines[0]) != Canonical(Exact, ["b"][0]);
    assert !MatchesAt(lines, ["b"], 0, Exact) && MatchesAt(lines, ["b"], 1, Exact);
    assert FirstMatch(lines, ["b"], 0, Exact) == FirstMatch(lines, ["b"], 1, Exact) == Some(1);
    assert PlaceChunk(lines, first, 0) == Ok(Placement(Replacement(1, 1, ["x"]), 2));
    assert PlaceChunk(lines, second, 2) == Ok(Placement(Replacement(1, 1, ["y"]), 2));
    PlaceTwo(lines, first, second);
    DisjointIffUnobstructed(lines, [first, second]);
    UnobstructedCons(2, Replacement(1, 1, ["x"]), [Replacement(1, 1, ["y"])], 0, 0);
    UnobstructedCons(2, Replacement(1, 1, ["y"]), [], 2, 0);
  }

  /** A pure insertion goes before a blank last line, which an earlier chunk may have replaced. */
  lemma {:induction false} BlankLastLineCanOverlap()
    ensures var lines := ["a", ""];
            var chunks := [Chunk(None, ["a", ""], ["b"], false), Chunk(None, [], ["c"], false)];
            && PlaceAll(lines, chunks, 0) == Ok([Replacement(0, 2, ["b"]), Replacement(1, 0, ["c"])])
            && !Chained(|lines|, SortByStart(PlaceAll(lines, chunks, 0).value))
  {
    var lines := ["a", ""];
    var first, second := Chunk(None, ["a", ""], ["b"], false), Chunk(None, [], ["c"], false);
    assert MatchesAt(lines, ["a", ""], 0, Exact);
    assert PlaceChunk(lines, first, 0) == Ok(Placement(Replacement(0, 2, ["b"]), 2));
    assert PlaceChunk(lines, second, 2) == Ok(Placement(Replacement(1, 0, ["c"]), 2));
    PlaceTwo(lines, first, second);
    DisjointIffUnobstructed(lines, [first, second]);
    UnobstructedCons(2, Replacement(0, 2, ["b"]), [Replacement(1, 0, ["c"])], 0, 0);
    UnobstructedCons(2, Replacement(1, 0, ["c"]), [], 2, 0);
  }

  // ---------------------------------------------------------------------------
  // The whole update
  // ---------------------------------------------------------------------------

  /** The body of the chunk loop, first half: the change context moves the search forward. */
  method SeekAnchor(lines: seq<Line>, chunk: Chunk, lineIndex: nat) returns (r: Result<nat, PlaceError>)
    requires lineIndex <= |lines|
    ensures r == Anchor(lines, chunk, lineIndex)
  {
    if chunk.changeContext.Some? && chunk.changeContext.value != "" {
      var context := SeekSequence(lines, [chunk.changeContext.value], lineIndex, false);
      if context.None? {
        return Err(ContextNotFound(chunk.changeContext.value));
      }
      return Ok(context.value + 1);
    }
    return Ok(lineIndex);
  }

  /** The body of the chunk loop, second half: find the old lines, if need be without a final blank one. */
  method Place(lines: seq<Line>, chunk: Chunk, lineIndex: nat) returns (r: Result<Placement, PlaceError>)
    requires lineIndex <= |lines|
    ensures r == PlaceAt(lines, chunk, lineIndex)
  {
    if |chunk.oldLines| == 0 {
      var insertion := if |lines| > 0 && lines[|lines| - 1] == "" then |lines| - 1 else |lines|;
      return Ok(Placement(Replacement(insertion, 0, chunk.newLines), lineIndex));
    }
    var pattern, newSlice := chunk.oldLines, chunk.newLines;
    var found := SeekSequence(lines, pattern, lineIndex, chunk.isEndOfFile);
    if found.None? && pattern[|pattern| - 1] == "" {
      pattern := WithoutLast(pattern);
      if |newSlice| > 0 && newSlice[|newSlice| - 1] == "" {
        newSlice := WithoutLast(newSlice);
      }
      found := SeekSequence(lines, pattern, lineIndex, chunk.isEndOfFile);
    }
    if found.None? {
      return Err(LinesNotFound(chunk.oldLines));
    }
    return Ok(Found(found.value, pattern, newSlice));
  }

  method ComputeReplacements(lines: seq<Line>, chunks: seq<Chunk>) returns (r: Result<seq<Replacement>, PlaceError>)
    ensures var placed := PlaceAll(lines, chunks, 0);
            r == match placed case Ok(reps) => Ok(SortByStart(reps)) case Err(e) => Err(e)
    ensures r.Ok? ==> (Chained(|lines|, r.value) <==> Unobstructed(|lines|, PlaceAll(lines, chunks, 0).value, 0, 0))
  {
    var replacements: seq<Replacement> := [];
    var lineIndex: nat := 0;
    assert chunks[0..] == chunks;
    assert forall reps: seq<Replacement> :: replacements + reps == reps;
    for i := 0 to |chunks|
      invariant lineIndex <= |lines|
      invariant PlaceAll(lines, chunks, 0) == Prepend(replacements, PlaceAll(lines, chunks[i..], lineIndex))
    {
      assert chunks[i..][0] == chunks[i] && chunks[i..][1..] == chunks[i + 1..];
      var anchor := SeekAnchor(lines, chunks[i], lineIndex);
      if anchor.Err? {
        return Err(anchor.error);
      }
      var placed := Place(lines, chunks[i], anchor.value);
      if placed.Err? {
        return Err(placed.error);
      }
      PrependTwice(replacements, placed.value.rep, PlaceAll(lines, chunks[i + 1..], placed.value.next));
      replacements := replacements + [placed.value.rep];
      lineIndex := placed.value.next;
    }
    assert replacements + [] == replacements;
    DisjointIffUnobstructed(lines, chunks);
    return Ok(SortByStart(replacements));
  }

  lemma {:induction false} PrependTwice(front: seq<Replacement>, x: Replacement, r: Result<seq<Replacement>, PlaceError>)
    ensures Prepend(front, Prepend([x], r)) == Prepend(front + [x], r)
  {
    if r.Ok? {
      assert front + ([x] + r.value) == front + [x] + r.value;
    }
  }

  /** The lines of a file; one trailing newline is not a line of its own. */
  function FileLines(contents: string): seq<Line> {
    var ls := Split(contents);
    if BlankAtEnd(ls) then WithoutLast(ls) else ls
  }

  /** The text written back: a last blank line stands for the final newline, else one is added. */
  function FileText(lines: seq<Line>): string {
    Join(if BlankAtEnd(lines) then lines else lines + [""])
  }

  function UpdatedText(contents: string, chunks: seq<Chunk>): Result<string, PlaceError> {
    var lines := FileLines(contents);
    match PlaceAll(lines, chunks, 0)
    case Err(e) => Err(e)
    case Ok(reps) => Ok(FileText(BackToFront(lines, SortByStart(reps))))
  }

  method OriginalLines(contents: string) returns (lines: seq<Line>)
    ensures lines == FileLines(contents)
  {
    lines := Split(contents);
    if |lines| > 0 && lines[|lines| - 1] == "" {
      lines := WithoutLast(lines);
    }
  }

  method JoinedText(lines: seq<Line>) returns (text: string)
    ensures text == FileText(lines)
  {
    var newLines := lines;
    if |newLines| == 0 || newLines[|newLines| - 1] != "" {
      newLines := newLines + [""];
    }
    return Join(newLines);
  }

  method ApplyUpdateHunk(contents: string, chunks: seq<Chunk>) returns (r: Result<string, PlaceError>)
    ensures r == UpdatedText(contents, chunks)
  {
    var originalLines := OriginalLines(contents);
    var replacements := ComputeReplacements(originalLines, chunks);
    if replacements.Err? {
      return Err(replacements.error);
    }
    var newLines := ApplyReplacements(originalLines, replacements.value);
    var text := JoinedText(newLines);
    return Ok(text);
  }

  /** Unless something obstructs, the new text is the old lines with all replacements made at once. */
  lemma {:induction false} UpdateSubstitutes(contents: string, chunks: seq<Chunk>)
    requires var placed := PlaceAll(FileLines(contents), chunks, 0);
             placed.Ok? && Unobstructed(|FileLines(contents)|, placed.value, 0, 0)
    ensures var lines := FileLines(contents);
            var reps := SortByStart(PlaceAll(lines, chunks, 0).value);
            Chained(|lines|, reps) && UpdatedText(contents, chunks) == Ok(FileText(Substitute(lines, reps, 0)))
  {
    var lines := FileLines(contents);
    DisjointIffUnobstructed(lines, chunks);
    SplicingIsSubstitution(lines, SortByStart(PlaceAll(lines, chunks, 0).value));
  }

  /** A missing final newline is added. */
  lemma {:induction false} RewriteOpenEnd(contents: string)
    requires contents != "" && contents[|contents| - 1] != NL
    ensures FileText(FileLines(contents)) == contents + [NL]
  {
    SplitLast(contents);
    JoinSnoc(Split(contents), "");
    assert contents + [NL] + "" == contents + [NL];
  }

  /** A final newline is kept, unless the line it ends is blank. */
  lemma {:induction false} RewriteNewlineEnd(body: string)
    ensures FileText(FileLines(body + [NL])) == if body == "" || body[|body| - 1] == NL then body else body + [NL]
  {
    SplitFinalNewline(body);
    assert FileLines(body + [NL]) == Split(body) by {
      assert WithoutLast(Split(body) + [""]) == Split(body);
    }
    SplitLast(body);
    JoinSnoc(Split(body), "");
    assert body + [NL] + "" == body + [NL];
  }

  /** Reading and writing back is the identity exactly on the empty file and on files that end in one
      newline after a non-blank line: a missing newline is added, a blank last line loses its newline. */
  lemma {:induction false} UntouchedTextSurvivesIff(contents: string)
    ensures UpdatedText(contents, []) == Ok(contents) <==>
            contents == "" || (|contents| >= 2 && contents[|contents| - 1] == NL && contents[|contents| - 2] != NL)
  {
    var lines := FileLines(contents);
    assert PlaceAll(lines, [], 0) == Ok([]);
    assert BackToFront(lines, SortByStart([])) == lines;
    if contents != "" {
      if contents[|contents| - 1] != NL {
        RewriteOpenEnd(contents);
      } else {
        assert contents == contents[..|contents| - 1] + [NL];
        RewriteNewlineEnd(contents[..|contents| - 1]);
      }
    }
  }
}
