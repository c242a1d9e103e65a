/** What the reader of unified diffs accepts, and which line it reports otherwise, said on the lines themselves
    (scripts/postinstall.js:63-139). */
module UnifiedGrammar {
  import opened Wrappers
  import opened Text
  import opened UnifiedDiff
  import opened HunkHeaders
  import opened UnifiedText

  // ---------------------------------------------------------------------------
  // Hunk headers
  // ---------------------------------------------------------------------------

  predicate Digits(s: string) {
    s != "" && AllDigits(s)
  }

  predicate Spaces(s: string) {
    s != "" && forall k :: 0 <= k < |s| ==> IsSpace(s[k])
  }

  /** A sign and a start line, before `rest`: the count is one. */
  ghost predicate ShortThen(s: string, sign: char, r: Range, rest: string) {
    exists a :: Digits(a) && r == Range(Number(a), 1) && s == [sign] + (a + rest)
  }

  /** A sign, a start line, a comma and a count. */
  ghost predicate FullThen(s: string, sign: char, r: Range, rest: string) {
    exists a, b :: Digits(a) && Digits(b) && r == Range(Number(a), Number(b)) && s == [sign] + (a + ("," + (b + rest)))
  }

  ghost predicate SaysRangeThen(s: string, sign: char, r: Range, rest: string) {
    ShortThen(s, sign, r, rest) || FullThen(s, sign, r, rest)
  }

  ghost predicate SpacesThen(s: string, rest: string) {
    exists spaces :: s == spaces + rest && Spaces(spaces)
  }

  /** Two at signs, the old range, the new range, two at signs, with white space between them. */
  ghost predicate SaysHeader(line: Line, old_: Range, new_: Range) {
    exists s, t, u :: line == "@@" + s && SpacesThen(s, t) && SaysRanges(t, old_, u, new_)
  }

  ghost predicate SaysRanges(t: string, old_: Range, u: string, new_: Range) {
    SaysRangeThen(t, '-', old_, u) && SaysNewRange(u, new_)
  }

  ghost predicate SaysNewRange(u: string, new_: Range) {
    exists v, w :: SpacesThen(u, v) && SaysRangeThen(v, '+', new_, w) && SpacesAt(w)
  }

  /** White space and two at signs; what follows is ignored. */
  ghost predicate SpacesAt(w: string) {
    exists u :: SpacesThen(w, u) && "@@" <= u
  }

  lemma {:induction false} LeadingSpacesAre(s: string)
    ensures var n := LeadingSpaces(s);
            && (forall k :: 0 <= k < n ==> IsSpace(s[k])) && (n < |s| ==> !IsSpace(s[n]))
  {
    if s != "" && IsSpace(s[0]) {
      LeadingSpacesAre(s[1..]);
    }
  }

  lemma {:induction false} LeadingDigitsAre(s: string)
    ensures var n := LeadingDigits(s);
            && (forall k :: 0 <= k < n ==> IsDigit(s[k])) && (n < |s| ==> !IsDigit(s[n]))
  {
    if s != "" && IsDigit(s[0]) {
      LeadingDigitsAre(s[1..]);
    }
  }

  lemma {:induction false} LeadingSpacesIs(s: string, n: nat)
    requires n <= |s| && (forall k :: 0 <= k < n ==> IsSpace(s[k])) && (n < |s| ==> !IsSpace(s[n]))
    ensures LeadingSpaces(s) == n
  {
    LeadingSpacesAre(s);
  }

  /** White space is read as far as it goes. */
  lemma {:induction false} SpacesIff(s: string, rest: string)
    requires rest != "" && !IsSpace(rest[0])
    ensures ScanSpaces(s) == Some(rest) <==> SpacesThen(s, rest)
  {
    LeadingSpacesAre(s);
    if ScanSpaces(s) == Some(rest) {
      assert s == s[..LeadingSpaces(s)] + rest;
      assert Spaces(s[..LeadingSpaces(s)]);
    }
    if SpacesThen(s, rest) {
      var spaces :| s == spaces + rest && Spaces(spaces);
      LeadingSpacesIs(s, |spaces|);
    }
  }

  lemma {:induction false} DigitsSplit(s: string)
    requires LeadingDigits(s) > 0
    ensures var n := LeadingDigits(s); Digits(s[..n]) && s == s[..n] + s[n..]
  {
    LeadingDigitsAre(s);
  }

  lemma {:induction false} HeadSplit(s: string, c: char)
    requires s != "" && s[0] == c
    ensures s == [c] + s[1..]
  {
  }

  /** A range is scanned as a sign, digits, and a counted rest or any. */
  lemma {:induction false} ScannedParts(s: string, sign: char, r: Scanned) returns (a: string, rest: string)
    requires ScanRange(s, sign) == Some(r)
    ensures s == [sign] + (a + rest) && Digits(a) && r.range.start == Number(a)
    ensures if rest != "" && rest[0] == ',' && LeadingDigits(rest[1..]) > 0
            then r.range.count == Number(rest[1..][..LeadingDigits(rest[1..])]) && r.rest == rest[1..][LeadingDigits(rest[1..])..]
            else r.range.count == 1 && r.rest == rest
  {
    HeadSplit(s, sign);
    DigitsSplit(s[1..]);
    a, rest := s[1..][..LeadingDigits(s[1..])], s[1..][LeadingDigits(s[1..])..];
  }

  lemma {:induction false} CommaSplit(rest: string) returns (b: string)
    requires rest != "" && rest[0] == ',' && LeadingDigits(rest[1..]) > 0
    ensures b == rest[1..][..LeadingDigits(rest[1..])]
    ensures Digits(b) && rest == "," + (b + rest[1..][LeadingDigits(rest[1..])..])
  {
    HeadSplit(rest, ',');
    DigitsSplit(rest[1..]);
    b := rest[1..][..LeadingDigits(rest[1..])];
    assert "," == [','];
  }

  lemma {:induction false} ScannedIsSaid(s: string, sign: char, r: Scanned)
    requires ScanRange(s, sign) == Some(r)
    ensures SaysRangeThen(s, sign, r.range, r.rest)
  {
    var a, rest := ScannedParts(s, sign, r);
    if rest != "" && rest[0] == ',' && LeadingDigits(rest[1..]) > 0 {
      var b := CommaSplit(rest);
      assert FullThen(s, sign, r.range, r.rest);
    } else {
      assert ShortThen(s, sign, r.range, r.rest);
    }
  }

  lemma {:induction false} SaidIsScanned(s: string, sign: char, r: Range, rest: string)
    requires SaysRangeThen(s, sign, r, rest) && rest != "" && !IsDigit(rest[0]) && rest[0] != ','
    ensures ScanRange(s, sign) == Some(Scanned(r, rest))
  {
    if ShortThen(s, sign, r, rest) {
      var a :| Digits(a) && r == Range(Number(a), 1) && s == [sign] + (a + rest);
      ScanShort(sign, a, rest);
    } else {
      var a, b :| Digits(a) && Digits(b) && r == Range(Number(a), Number(b)) && s == [sign] + (a + ("," + (b + rest)));
      ScanFull(sign, a, b, rest);
    }
  }

  lemma {:induction false} StartsSpaced(s: string, rest: string)
    requires SpacesThen(s, rest)
    ensures s != "" && IsSpace(s[0]) && !IsDigit(s[0]) && s[0] != ','
  {
  }

  lemma {:induction false} StartsSigned(s: string, sign: char, r: Range, rest: string)
    requires SaysRangeThen(s, sign, r, rest)
    ensures s != "" && s[0] == sign
  {
  }

  lemma {:induction false} SpacedStart(s: string, t: string)
    requires ScanSpaces(s) == Some(t) && t != ""
    ensures !IsSpace(t[0]) && SpacesThen(s, t)
  {
    LeadingSpacesAre(s);
    SpacesIff(s, t);
  }

  /** The second half of a header. */
  function NewRangeOf(u: string): Option<Range> {
    match ScanSpaces(u) case None => None case Some(v) =>
    match ScanRange(v, '+') case None => None case Some(new_) =>
    match ScanSpaces(new_.rest) case None => None case Some(x) => if AT <= x then Some(new_.range) else None
  }

  lemma {:induction false} NewRangeIsSaid(u: string, new_: Range)
    requires NewRangeOf(u) == Some(new_)
    ensures SaysNewRange(u, new_)
  {
    var v := ScanSpaces(u).value;
    var w := ScanRange(v, '+').value.rest;
    SpacedStart(u, v);
    ScannedIsSaid(v, '+', ScanRange(v, '+').value);
    SpacedStart(w, ScanSpaces(w).value);
    assert SpacesAt(w);
  }

  lemma {:induction false} SpacesAtScan(w: string)
    requires SpacesAt(w)
    ensures ScanSpaces(w).Some? && AT <= ScanSpaces(w).value
    ensures w != "" && !IsDigit(w[0]) && w[0] != ','
  {
    var x :| SpacesThen(w, x) && "@@" <= x;
    SpacesIff(w, x);
    StartsSpaced(w, x);
  }

  lemma {:induction false} SaidNewRangeParses(u: string, new_: Range)
    requires SaysNewRange(u, new_)
    ensures NewRangeOf(u) == Some(new_)
    ensures u != "" && !IsDigit(u[0]) && u[0] != ','
  {
    var v, w :| SpacesThen(u, v) && SaysRangeThen(v, '+', new_, w) && SpacesAt(w);
    SpacesAtScan(w);
    SaidIsScanned(v, '+', new_, w);
    StartsSigned(v, '+', new_, w);
    SpacesIff(u, v);
    StartsSpaced(u, v);
  }

  lemma {:induction false} HeaderInHalves(line: Line, old_: Range, new_: Range, u: string)
    requires AT <= line && ScanSpaces(line[2..]).Some?
    requires ScanRange(ScanSpaces(line[2..]).value, '-') == Some(Scanned(old_, u))
    ensures ParseHeader(line) == match NewRangeOf(u) { case None => None case Some(r) => Some((old_, r)) }
  {
  }

  lemma {:induction false} HeaderParts(line: Line, old_: Range, new_: Range) returns (t: string, u: string)
    requires ParseHeader(line) == Some((old_, new_))
    ensures AT <= line && ScanSpaces(line[2..]) == Some(t) && ScanRange(t, '-') == Some(Scanned(old_, u))
    ensures NewRangeOf(u) == Some(new_)
  {
    t := ScanSpaces(line[2..]).value;
    u := ScanRange(t, '-').value.rest;
  }

  lemma {:induction false} RangesAreSaid(t: string, old_: Range, u: string, new_: Range)
    requires ScanRange(t, '-') == Some(Scanned(old_, u)) && NewRangeOf(u) == Some(new_)
    ensures SaysRanges(t, old_, u, new_) && t != ""
  {
    ScannedIsSaid(t, '-', Scanned(old_, u));
    NewRangeIsSaid(u, new_);
  }

  lemma {:induction false} HeaderOfParts(line: Line, s: string, t: string, old_: Range, u: string, new_: Range)
    requires AT <= line && s == line[2..] && SpacesThen(s, t) && SaysRanges(t, old_, u, new_)
    ensures SaysHeader(line, old_, new_)
  {
    assert line == "@@" + s;
  }

  lemma {:induction false} HeaderIsSaid(line: Line, old_: Range, new_: Range)
    requires ParseHeader(line) == Some((old_, new_))
    ensures SaysHeader(line, old_, new_)
  {
    var t, u := HeaderParts(line, old_, new_);
    RangesAreSaid(t, old_, u, new_);
    SpacedStart(line[2..], t);
    HeaderOfParts(line, line[2..], t, old_, u, new_);
  }

  lemma {:induction false} SaidHeaderParses(line: Line, old_: Range, new_: Range)
    requires SaysHeader(line, old_, new_)
    ensures ParseHeader(line) == Some((old_, new_))
  {
    var s, t, u :| line == "@@" + s && SpacesThen(s, t) && SaysRanges(t, old_, u, new_);
    assert line[2..] == s;
    SaidNewRangeParses(u, new_);
    SaidIsScanned(t, '-', old_, u);
    StartsSigned(t, '-', old_, u);
    SpacesIff(s, t);
    HeaderInHalves(line, old_, new_, u);
  }

  /** A line is read as a hunk header with these ranges exactly when it says them. */
  lemma {:induction false} HeaderIff(line: Line, old_: Range, new_: Range)
    ensures ParseHeader(line) == Some((old_, new_)) <==> SaysHeader(line, old_, new_)
  {
    if ParseHeader(line) == Some((old_, new_)) {
      HeaderIsSaid(line, old_, new_);
    }
    if SaysHeader(line, old_, new_) {
      SaidHeaderParses(line, old_, new_);
    }
  }

  // ---------------------------------------------------------------------------
  // Groups of lines
  // ---------------------------------------------------------------------------

  /** The number of lines before the next one that begins with the marker. */
  function Upto(lines: seq<Line>, marker: string): (n: nat)
    ensures n <= |lines|
  {
    if lines == [] || marker <= lines[0] then 0 else 1 + Upto(lines[1..], marker)
  }

  /** Each line that begins with the marker, with the lines behind it up to the next one; what stands before
      the first is in no group. */
  function Groups(lines: seq<Line>, marker: string): seq<seq<Line>>
    decreases |lines|
  {
    if lines == [] then []
    else if !(marker <= lines[0]) then Groups(lines[1..], marker)
    else
      var n := 1 + Upto(lines[1..], marker);
      [lines[..n]] + Groups(lines[n..], marker)
  }

  /** The lines of a body that count: all but blank ones and the mark of a missing newline. */
  function BodyOf(raw: seq<Line>): seq<Line> {
    if raw == [] then []
    else
      var last := raw[|raw| - 1];
      BodyOf(raw[..|raw| - 1]) + if last == "" || "\\ No newline at end of file" <= last then [] else [last]
  }

  /** A group of lines behind `@@` is this hunk. */
  ghost predicate SaysHunk(group: seq<Line>, h: Hunk) {
    group != [] && SaysHeader(group[0], OldRange(h), NewRange(h)) && h.lines == BodyOf(group[1..])
  }

  /** The groups are these hunks, one for one. */
  ghost predicate SaysHunks(groups: seq<seq<Line>>, hunks: seq<Hunk>) {
    if groups == [] then hunks == []
    else hunks != [] && SaysHunk(groups[0], hunks[0]) && SaysHunks(groups[1..], hunks[1..])
  }

  /** The lines behind a path line, or all of them when there is none. */
  function Behind(lines: seq<Line>, marker: string): seq<Line> {
    if lines != [] && marker <= lines[0] then lines[1..] else lines
  }

  /** The path on a path line, without the `a/` or `b/` in front. */
  function PathOn(lines: seq<Line>, marker: string): Option<string>
    requires |marker| == 4
  {
    if lines != [] && marker <= lines[0] then Some(StripPrefix(Trim(lines[0][4..]))) else None
  }

  /** `k` index lines, and no more. */
  predicate IndexLines(lines: seq<Line>, k: nat) {
    k <= |lines| && (forall j :: 0 <= j < k ==> "index " <= lines[j]) && (k < |lines| ==> !("index " <= lines[k]))
  }

  /** A group of lines behind `diff --git` is this file: its two paths behind the index lines, and its hunks if
      the first of them follows at once. */
  ghost predicate SaysFile(group: seq<Line>, f: FilePatch) {
    exists k: nat :: 0 < |group| && IndexLines(group[1..], k) && SaysFileBehind(group[1..][k..], f)
  }

  ghost predicate SaysFileBehind(lines: seq<Line>, f: FilePatch) {
    var tail := Behind(lines, "--- ");
    var rest := Behind(tail, "+++ ");
    && f.oldPath == PathOn(lines, "--- ") && f.newPath == PathOn(tail, "+++ ")
    && (if rest != [] && "@@" <= rest[0] then SaysHunks(Groups(rest, "@@"), f.hunks) else f.hunks == [])
  }

  /** The files that have a new path and hunks. */
  function CountedFiles(files: seq<FilePatch>): seq<FilePatch> {
    if files == [] then []
    else
      var last := files[|files| - 1];
      CountedFiles(files[..|files| - 1]) + if last.newPath.Some? && last.newPath.value != "" && |last.hunks| > 0 then [last] else []
  }

  /** The groups are these files, one for one. */
  ghost predicate SaysFiles(groups: seq<seq<Line>>, all: seq<FilePatch>) {
    if groups == [] then all == []
    else all != [] && SaysFile(groups[0], all[0]) && SaysFiles(groups[1..], all[1..])
  }

  /** The text says these files. */
  ghost predicate Says(patchText: string, files: seq<FilePatch>) {
    exists all :: SaysFiles(Groups(Split(patchText), "diff --git "), all) && files == CountedFiles(all)
  }

  // ---------------------------------------------------------------------------
  // Reading goes group by group
  // ---------------------------------------------------------------------------

  predicate NoneBegins(lines: seq<Line>, marker: string) {
    forall k :: 0 <= k < |lines| ==> !(marker <= lines[k])
  }

  /** A group begins here, or nothing follows. */
  predicate Begins(lines: seq<Line>, marker: string) {
    lines == [] || marker <= lines[0]
  }

  lemma {:induction false} UptoBegins(lines: seq<Line>, marker: string)
    ensures var n := Upto(lines, marker); NoneBegins(lines[..n], marker) && Begins(lines[n..], marker)
  {
    if lines != [] && !(marker <= lines[0]) {
      UptoBegins(lines[1..], marker);
      var n := Upto(lines[1..], marker);
      assert lines[..1 + n] == [lines[0]] + lines[1..][..n] && lines[1 + n..] == lines[1..][n..];
    }
  }

  lemma {:induction false} NoDiffs(line: Line)
    requires DIFF <= line
    ensures !(AT <= line) && !(INDEX <= line) && !(OLD_FILE <= line) && !(NEW_FILE <= line)
  {
    assert line[0] == DIFF[0] && DIFF[0] != AT[0] && DIFF[0] != INDEX[0] && DIFF[0] != OLD_FILE[0] && DIFF[0] != NEW_FILE[0];
  }

  /** A body that is followed by the next file, or by nothing. */
  lemma {:induction false} BodyLengthFront(a: seq<Line>, b: seq<Line>)
    requires Begins(b, DIFF)
    ensures BodyLength(a + b) == BodyLength(a)
  {
    if a == [] {
      assert a + b == b;
    } else {
      assert (a + b)[1..] == a[1..] + b;
      BodyLengthFront(a[1..], b);
    }
  }

  lemma {:induction false} BodyIsGroup(lines: seq<Line>)
    requires NoneBegins(lines, DIFF)
    ensures BodyLength(lines) == Upto(lines, AT)
  {
    if lines != [] && !(AT <= lines[0]) {
      NoneBegins1(lines, 1, DIFF);
      BodyIsGroup(lines[1..]);
    }
  }

  lemma {:induction false} NoneBegins1(lines: seq<Line>, i: nat, marker: string)
    requires NoneBegins(lines, marker) && i <= |lines|
    ensures NoneBegins(lines[i..], marker)
  {
  }

  /** Something read, with more lines behind what is left. */
  function Before<T>(r: Result<Read<T>, ParseError>, b: seq<Line>): Result<Read<T>, ParseError> {
    match r case Err(e) => Err(e) case Ok(read) => Ok(Read(read.value, read.rest + b))
  }

  lemma {:induction false} ReadOneHunk(lines: seq<Line>)
    requires lines != [] && AT <= lines[0]
    ensures var ranges := ParseHeader(lines[0]);
            var n := BodyLength(lines[1..]);
            ReadHunks(lines) == if ranges.None? then Err(InvalidHeader(lines[0]))
            else MoreHunks([HunkOf(ranges.value.0, ranges.value.1, HunkLines(lines[1..][..n]))], ReadHunks(lines[1..][n..]))
  {
  }

  lemma {:induction false} HunksFront(a: seq<Line>, b: seq<Line>)
    requires Begins(b, DIFF)
    ensures ReadHunks(a + b) == Before(ReadHunks(a), b)
    decreases |a|
  {
    if a == [] {
      assert a + b == b;
      if b != [] {
        NoDiffs(b[0]);
      }
    } else if AT <= a[0] {
      BodyLengthFront(a[1..], b);
      var n := BodyLength(a[1..]);
      assert (a + b)[1..] == a[1..] + b;
      assert (a[1..] + b)[..n] == a[1..][..n] && (a[1..] + b)[n..] == a[1..][n..] + b;
      ReadOneHunk(a);
      ReadOneHunk(a + b);
      HunksFront(a[1..][n..], b);
    }
  }

  lemma {:induction false} IndexFront(a: seq<Line>, b: seq<Line>)
    requires Begins(b, DIFF)
    ensures SkipIndex(a + b) == SkipIndex(a) + b
  {
    if a == [] {
      assert a + b == b;
      if b != [] {
        NoDiffs(b[0]);
      }
    } else {
      assert (a + b)[1..] == a[1..] + b;
      IndexFront(a[1..], b);
    }
  }

  lemma {:induction false} PathFront(a: seq<Line>, b: seq<Line>, marker: string)
    requires Begins(b, DIFF) && marker in {OLD_FILE, NEW_FILE}
    ensures ReadPath(a + b, marker) == Read(ReadPath(a, marker).value, ReadPath(a, marker).rest + b)
  {
    if a == [] {
      assert a + b == b;
      if b != [] {
        NoDiffs(b[0]);
      }
    } else {
      assert (a + b)[1..] == a[1..] + b;
    }
  }

  lemma {:induction false} FileFront(a: seq<Line>, b: seq<Line>)
    requires Begins(b, DIFF)
    ensures ReadFile(a + b) == Before(ReadFile(a), b)
  {
    IndexFront(a, b);
    PathFront(SkipIndex(a), b, OLD_FILE);
    var tail := ReadPath(SkipIndex(a), OLD_FILE).rest;
    PathFront(tail, b, NEW_FILE);
    HunksFront(ReadPath(tail, NEW_FILE).rest, b);
  }

  lemma {:induction false} HunksLeave(lines: seq<Line>)
    requires NoneBegins(lines, DIFF) && ReadHunks(lines).Ok?
    ensures NoneBegins(ReadHunks(lines).value.rest, DIFF)
    decreases |lines|
  {
    if lines != [] && AT <= lines[0] {
      ReadOneHunk(lines);
      var n := BodyLength(lines[1..]);
      assert lines[1..][n..] == lines[1 + n..];
      HunksLeave(lines[1..][n..]);
    }
  }

  lemma {:induction false} IndexLeaves(lines: seq<Line>)
    requires NoneBegins(lines, DIFF)
    ensures NoneBegins(SkipIndex(lines), DIFF)
  {
    if lines != [] && INDEX <= lines[0] {
      IndexLeaves(lines[1..]);
    }
  }

  lemma {:induction false} FileLeaves(lines: seq<Line>)
    requires NoneBegins(lines, DIFF) && ReadFile(lines).Ok?
    ensures NoneBegins(ReadFile(lines).value.rest, DIFF)
  {
    IndexLeaves(lines);
    var tail := ReadPath(SkipIndex(lines), OLD_FILE).rest;
    HunksLeave(ReadPath(tail, NEW_FILE).rest);
  }

  lemma {:induction false} FilesSkip(a: seq<Line>, b: seq<Line>)
    requires NoneBegins(a, DIFF)
    ensures ReadFiles(a + b) == ReadFiles(b)
    decreases |a|
  {
    if a == [] {
      assert a + b == b;
    } else {
      assert (a + b)[0] == a[0] && (a + b)[1..] == a[1..] + b;
      FilesSkip(a[1..], b);
    }
  }

  /** The first group is read by itself. */
  lemma {:induction false} FirstGroup(lines: seq<Line>)
    requires lines != [] && DIFF <= lines[0]
    ensures var n := Upto(lines[1..], DIFF);
            ReadFiles(lines) == match ReadFile(lines[1..][..n]) {
              case Err(e) => Err(e)
              case Ok(file) => MoreFiles(if Counts(file.value) then [file.value] else [], ReadFiles(lines[1..][n..]))
            }
  {
    UptoBegins(lines[1..], DIFF);
    var n := Upto(lines[1..], DIFF);
    var a, b := lines[1..][..n], lines[1..][n..];
    assert lines[1..] == a + b;
    FileFront(a, b);
    if ReadFile(a).Ok? {
      FileLeaves(a);
      FilesSkip(ReadFile(a).value.rest, b);
    }
  }

  // ---------------------------------------------------------------------------
  // A group is read as it is said
  // ---------------------------------------------------------------------------

  lemma {:induction false} BodyIsKept(raw: seq<Line>)
    ensures BodyOf(raw) == HunkLines(raw)
  {
    if raw != [] {
      var init, last := raw[..|raw| - 1], raw[|raw| - 1];
      BodyIsKept(init);
      HunkLinesSnoc(init, last);
      assert raw == init + [last];
    }
  }

  lemma {:induction false} HunkIff(group: seq<Line>, h: Hunk)
    requires group != []
    ensures SaysHunk(group, h) <==>
            ParseHeader(group[0]) == Some((OldRange(h), NewRange(h))) && h.lines == HunkLines(group[1..])
  {
    HeaderIff(group[0], OldRange(h), NewRange(h));
    BodyIsKept(group[1..]);
  }

  lemma {:induction false} NextGroup(lines: seq<Line>, marker: string)
    requires lines != [] && marker <= lines[0]
    ensures var n := Upto(lines[1..], marker);
            Groups(lines, marker) == [[lines[0]] + lines[1..][..n]] + Groups(lines[1..][n..], marker)
  {
    var n := Upto(lines[1..], marker);
    assert lines[..1 + n] == [lines[0]] + lines[1..][..n] && lines[1 + n..] == lines[1..][n..];
  }

  lemma {:induction false} SaysMore(group: seq<Line>, groups: seq<seq<Line>>, hunks: seq<Hunk>)
    ensures SaysHunks([group] + groups, hunks) <==> |hunks| > 0 && SaysHunk(group, hunks[0]) && SaysHunks(groups, hunks[1..])
  {
    assert ([group] + groups)[1..] == groups;
  }

  ghost predicate ReadAs(r: Result<Read<seq<Hunk>>, ParseError>, hunks: seq<Hunk>) {
    r.Ok? && r.value.value == hunks
  }

  lemma {:induction false} MoreReadAs(h: Hunk, r: Result<Read<seq<Hunk>>, ParseError>, hunks: seq<Hunk>)
    ensures ReadAs(MoreHunks([h], r), hunks) <==> |hunks| > 0 && hunks[0] == h && ReadAs(r, hunks[1..])
  {
    if |hunks| > 0 {
      assert hunks == [hunks[0]] + hunks[1..];
    }
  }

  /** Groups of hunks are read as the hunks they say. */
  lemma {:induction false} HunksIff(lines: seq<Line>, hunks: seq<Hunk>)
    requires NoneBegins(lines, DIFF) && Begins(lines, AT)
    ensures ReadAs(ReadHunks(lines), hunks) <==> SaysHunks(Groups(lines, AT), hunks)
    decreases |lines|
  {
    if lines != [] {
      NoneBegins1(lines, 1, DIFF);
      BodyIsGroup(lines[1..]);
      UptoBegins(lines[1..], AT);
      var n := Upto(lines[1..], AT);
      var group, rest := [lines[0]] + lines[1..][..n], lines[1..][n..];
      NextGroup(lines, AT);
      SaysMore(group, Groups(rest, AT), hunks);
      NoneBegins1(lines[1..], n, DIFF);
      HunksIff(rest, if |hunks| > 0 then hunks[1..] else []);
      ReadOneHunk(lines);
      FirstHunkIff(lines, n, hunks);
    }
  }

  lemma {:induction false} FirstHunkIff(lines: seq<Line>, n: nat, hunks: seq<Hunk>)
    requires lines != [] && AT <= lines[0] && n == BodyLength(lines[1..])
    ensures ReadAs(ReadHunks(lines), hunks) <==>
            |hunks| > 0 && SaysHunk([lines[0]] + lines[1..][..n], hunks[0]) && ReadAs(ReadHunks(lines[1..][n..]), hunks[1..])
  {
    var group := [lines[0]] + lines[1..][..n];
    assert group[1..] == lines[1..][..n];
    ReadOneHunk(lines);
    var ranges := ParseHeader(lines[0]);
    if |hunks| > 0 {
      HunkIff(group, hunks[0]);
    }
    if ranges.Some? {
      MoreReadAs(HunkOf(ranges.value.0, ranges.value.1, HunkLines(group[1..])), ReadHunks(lines[1..][n..]), hunks);
    }
  }

  lemma {:induction false} IndexIs(lines: seq<Line>, k: nat)
    requires IndexLines(lines, k)
    ensures SkipIndex(lines) == lines[k..]
    decreases k
  {
    if k > 0 {
      assert lines[1..][k - 1..] == lines[k..];
      assert forall j :: 0 <= j < k - 1 ==> lines[1..][j] == lines[j + 1];
      IndexIs(lines[1..], k - 1);
    }
  }

  lemma {:induction false} IndexCount(lines: seq<Line>) returns (k: nat)
    ensures IndexLines(lines, k)
  {
    if lines == [] || !(INDEX <= lines[0]) {
      k := 0;
    } else {
      k := IndexCount(lines[1..]);
      assert forall j :: 0 < j < k + 1 ==> lines[j] == lines[1..][j - 1];
      k := k + 1;
    }
  }

  /** What follows the index lines. */
  lemma {:induction false} BehindIff(lines: seq<Line>, f: FilePatch)
    requires NoneBegins(lines, DIFF)
    ensures var oldPath := ReadPath(lines, OLD_FILE);
            var newPath := ReadPath(oldPath.rest, NEW_FILE);
            SaysFileBehind(lines, f) <==>
            ReadAs(ReadHunks(newPath.rest), f.hunks) && f.oldPath == oldPath.value && f.newPath == newPath.value
  {
    var rest := ReadPath(ReadPath(lines, OLD_FILE).rest, NEW_FILE).rest;
    if rest != [] && AT <= rest[0] {
      HunksIff(rest, f.hunks);
    }
  }

  ghost predicate FileReadAs(r: Result<Read<FilePatch>, ParseError>, f: FilePatch) {
    r.Ok? && r.value.value == f
  }

  lemma {:induction false} IndexUnique(lines: seq<Line>, j: nat, k: nat)
    requires IndexLines(lines, j) && IndexLines(lines, k)
    ensures j == k
  {
  }

  lemma {:induction false} SaysFileWith(group: seq<Line>, k: nat, f: FilePatch)
    requires group != [] && IndexLines(group[1..], k)
    ensures SaysFile(group, f) <==> SaysFileBehind(group[1..][k..], f)
  {
    if SaysFile(group, f) {
      var j: nat :| IndexLines(group[1..], j) && SaysFileBehind(group[1..][j..], f);
      IndexUnique(group[1..], j, k);
    }
  }

  lemma {:induction false} ReadBehind(lines: seq<Line>, k: nat, f: FilePatch)
    requires IndexLines(lines, k) && NoneBegins(lines, DIFF)
    ensures FileReadAs(ReadFile(lines), f) <==> SaysFileBehind(lines[k..], f)
  {
    IndexIs(lines, k);
    NoneBegins1(lines, k, DIFF);
    BehindIff(lines[k..], f);
  }

  lemma {:induction false} FileIff(group: seq<Line>, f: FilePatch)
    requires group != [] && NoneBegins(group[1..], DIFF)
    ensures SaysFile(group, f) <==> FileReadAs(ReadFile(group[1..]), f)
  {
    var k := IndexCount(group[1..]);
    SaysFileWith(group, k, f);
    ReadBehind(group[1..], k, f);
  }

  /** All files of the groups, the left out ones too. */
  function AllRead(groups: seq<seq<Line>>): Result<seq<FilePatch>, ParseError> {
    if groups == [] then Ok([])
    else if groups[0] == [] then AllRead(groups[1..])
    else match ReadFile(groups[0][1..])
      case Err(e) => Err(e)
      case Ok(file) => MoreFiles([file.value], AllRead(groups[1..]))
  }

  lemma {:induction false} CountedMore(f: FilePatch, files: seq<FilePatch>)
    ensures CountedFiles([f] + files) == (if Counts(f) then [f] else []) + CountedFiles(files)
  {
    var all := [f] + files;
    if files == [] {
      assert all[..0] == [] && all == [f];
    } else {
      assert all[..|all| - 1] == [f] + files[..|files| - 1];
      CountedMore(f, files[..|files| - 1]);
    }
  }

  /** The files that are kept, of those that were read. */
  function Keep(r: Result<seq<FilePatch>, ParseError>): Result<seq<FilePatch>, ParseError> {
    match r case Err(e) => Err(e) case Ok(all) => Ok(CountedFiles(all))
  }

  lemma {:induction false} KeepMore(f: FilePatch, r: Result<seq<FilePatch>, ParseError>)
    ensures Keep(MoreFiles([f], r)) == MoreFiles(if Counts(f) then [f] else [], Keep(r))
  {
    if r.Ok? {
      CountedMore(f, r.value);
    }
  }

  lemma {:induction false} AllReadMore(group: seq<Line>, groups: seq<seq<Line>>)
    requires group != []
    ensures AllRead([group] + groups) == match ReadFile(group[1..]) {
              case Err(e) => Err(e)
              case Ok(file) => MoreFiles([file.value], AllRead(groups))
            }
  {
    assert ([group] + groups)[1..] == groups;
  }

  lemma {:induction false} FilesAreGroups(lines: seq<Line>)
    ensures ReadFiles(lines) == Keep(AllRead(Groups(lines, DIFF)))
    decreases |lines|
  {
    if lines != [] {
      if DIFF <= lines[0] {
        var n := Upto(lines[1..], DIFF);
        FirstGroup(lines);
        FilesAreGroups(lines[1..][n..]);
        NextGroup(lines, DIFF);
        GroupRead(lines[0], lines[1..][..n], Groups(lines[1..][n..], DIFF));
      } else {
        FilesAreGroups(lines[1..]);
      }
    }
  }

  lemma {:induction false} GroupRead(head: Line, body: seq<Line>, groups: seq<seq<Line>>)
    ensures Keep(AllRead([[head] + body] + groups)) == match ReadFile(body) {
              case Err(e) => Err(e)
              case Ok(file) => MoreFiles(if Counts(file.value) then [file.value] else [], Keep(AllRead(groups)))
            }
  {
    assert ([head] + body)[1..] == body;
    AllReadMore([head] + body, groups);
    if ReadFile(body).Ok? {
      KeepMore(ReadFile(body).value.value, AllRead(groups));
    }
  }

  predicate Grouped(groups: seq<seq<Line>>, marker: string) {
    forall k :: 0 <= k < |groups| ==> groups[k] != [] && marker <= groups[k][0] && NoneBegins(groups[k][1..], marker)
  }

  lemma {:induction false} GroupsAreGrouped(lines: seq<Line>, marker: string)
    ensures Grouped(Groups(lines, marker), marker)
    decreases |lines|
  {
    if lines != [] {
      if marker <= lines[0] {
        var n := Upto(lines[1..], marker);
        NextGroup(lines, marker);
        GroupsAreGrouped(lines[1..][n..], marker);
        UptoBegins(lines[1..], marker);
        GroupedMore([lines[0]] + lines[1..][..n], Groups(lines[1..][n..], marker), marker);
      } else {
        GroupsAreGrouped(lines[1..], marker);
      }
    }
  }

  lemma {:induction false} GroupedMore(group: seq<Line>, groups: seq<seq<Line>>, marker: string)
    requires group != [] && marker <= group[0] && NoneBegins(group[1..], marker) && Grouped(groups, marker)
    ensures Grouped([group] + groups, marker)
  {
  }

  lemma {:induction false} AllReadIff(groups: seq<seq<Line>>, all: seq<FilePatch>)
    requires Grouped(groups, DIFF)
    ensures AllRead(groups) == Ok(all) <==> SaysFiles(groups, all)
  {
    if groups != [] {
      assert groups[0] != [] && NoneBegins(groups[0][1..], DIFF);
      AllReadIff(groups[1..], if |all| > 0 then all[1..] else []);
      FirstFileIff(groups, all);
    }
  }

  lemma {:induction false} FirstFileIff(groups: seq<seq<Line>>, all: seq<FilePatch>)
    requires groups != [] && groups[0] != [] && NoneBegins(groups[0][1..], DIFF)
    ensures AllRead(groups) == Ok(all) <==>
            |all| > 0 && SaysFile(groups[0], all[0]) && AllRead(groups[1..]) == Ok(all[1..])
  {
    if |all| > 0 {
      FileIff(groups[0], all[0]);
      assert all == [all[0]] + all[1..];
    }
  }

  /** Parsing a patch succeeds with these files exactly when its lines say them: group by group, with a proper
      header in front of every hunk. */
  lemma {:induction false} ParseIff(patchText: string, files: seq<FilePatch>)
    ensures Parse(patchText) == Ok(files) <==> Says(patchText, files)
  {
    var lines := Split(patchText);
    var groups := Groups(lines, DIFF);
    FilesAreGroups(lines);
    GroupsAreGrouped(lines, DIFF);
    forall all ensures AllRead(groups) == Ok(all) <==> SaysFiles(groups, all) {
      AllReadIff(groups, all);
    }
  }

  // ---------------------------------------------------------------------------
  // Which header is reported
  // ---------------------------------------------------------------------------

  ghost predicate IsHeader(line: Line) {
    exists old_, new_ :: SaysHeader(line, old_, new_)
  }

  /** The first group whose first line is no header. */
  ghost predicate BadHeader(groups: seq<seq<Line>>, e: ParseError) {
    && groups != [] && groups[0] != []
    && if IsHeader(groups[0][0]) then BadHeader(groups[1..], e) else e == InvalidHeader(groups[0][0])
  }

  ghost predicate FileIsWrong(group: seq<Line>, e: ParseError) {
    exists k: nat :: 0 < |group| && IndexLines(group[1..], k) && FileIsWrongBehind(group[1..][k..], e)
  }

  ghost predicate FileIsWrongBehind(lines: seq<Line>, e: ParseError) {
    var rest := Behind(Behind(lines, "--- "), "+++ ");
    rest != [] && "@@" <= rest[0] && BadHeader(Groups(rest, "@@"), e)
  }

  /** Behind files that can be read comes one with a line that is no header. */
  ghost predicate PatchIsWrong(groups: seq<seq<Line>>, e: ParseError) {
    groups != [] && (FileIsWrong(groups[0], e) || ((exists f :: SaysFile(groups[0], f)) && PatchIsWrong(groups[1..], e)))
  }

  lemma {:induction false} IsHeaderIff(line: Line)
    ensures IsHeader(line) <==> ParseHeader(line).Some?
  {
    if ParseHeader(line).Some? {
      HeaderIff(line, ParseHeader(line).value.0, ParseHeader(line).value.1);
    }
    if old_, new_ :| SaysHeader(line, old_, new_) {
      HeaderIff(line, old_, new_);
    }
  }

  lemma {:induction false} BadFirst(group: seq<Line>, groups: seq<seq<Line>>, e: ParseError)
    requires group != []
    ensures BadHeader([group] + groups, e) <==>
            if IsHeader(group[0]) then BadHeader(groups, e) else e == InvalidHeader(group[0])
  {
    assert ([group] + groups)[1..] == groups;
  }

  lemma {:induction false} HunksWrongIff(lines: seq<Line>, e: ParseError)
    requires NoneBegins(lines, DIFF) && Begins(lines, AT)
    ensures ReadHunks(lines) == Err(e) <==> BadHeader(Groups(lines, AT), e)
    decreases |lines|
  {
    if lines != [] {
      NoneBegins1(lines, 1, DIFF);
      BodyIsGroup(lines[1..]);
      UptoBegins(lines[1..], AT);
      var n := Upto(lines[1..], AT);
      NextGroup(lines, AT);
      BadFirst([lines[0]] + lines[1..][..n], Groups(lines[1..][n..], AT), e);
      NoneBegins1(lines[1..], n, DIFF);
      HunksWrongIff(lines[1..][n..], e);
      ReadOneHunk(lines);
      IsHeaderIff(lines[0]);
    }
  }

  lemma {:induction false} BehindWrongIff(lines: seq<Line>, k: nat, e: ParseError)
    requires NoneBegins(lines, DIFF) && IndexLines(lines, k)
    ensures ReadFile(lines) == Err(e) <==> FileIsWrongBehind(lines[k..], e)
  {
    IndexIs(lines, k);
    NoneBegins1(lines, k, DIFF);
    var rest := ReadPath(ReadPath(lines[k..], OLD_FILE).rest, NEW_FILE).rest;
    if rest != [] && AT <= rest[0] {
      HunksWrongIff(rest, e);
    }
  }

  lemma {:induction false} FileWrongWith(group: seq<Line>, k: nat, e: ParseError)
    requires group != [] && IndexLines(group[1..], k)
    ensures FileIsWrong(group, e) <==> FileIsWrongBehind(group[1..][k..], e)
  {
    if FileIsWrong(group, e) {
      var j: nat :| IndexLines(group[1..], j) && FileIsWrongBehind(group[1..][j..], e);
      IndexUnique(group[1..], j, k);
    }
  }

  lemma {:induction false} FileWrongIff(group: seq<Line>, e: ParseError)
    requires group != [] && NoneBegins(group[1..], DIFF)
    ensures FileIsWrong(group, e) <==> ReadFile(group[1..]) == Err(e)
  {
    var k := IndexCount(group[1..]);
    FileWrongWith(group, k, e);
    BehindWrongIff(group[1..], k, e);
  }

  lemma {:induction false} FileRightIff(group: seq<Line>)
    requires group != [] && NoneBegins(group[1..], DIFF)
    ensures (exists f :: SaysFile(group, f)) <==> ReadFile(group[1..]).Ok?
  {
    if ReadFile(group[1..]).Ok? {
      FileIff(group, ReadFile(group[1..]).value.value);
    }
    if f :| SaysFile(group, f) {
      FileIff(group, f);
    }
  }

  lemma {:induction false} AllReadErr(groups: seq<seq<Line>>, e: ParseError)
    requires groups != [] && groups[0] != []
    ensures AllRead(groups) == Err(e) <==>
            var r := ReadFile(groups[0][1..]); if r.Err? then r.error == e else AllRead(groups[1..]) == Err(e)
  {
  }

  lemma {:induction false} GroupsWrongIff(groups: seq<seq<Line>>, e: ParseError)
    requires Grouped(groups, DIFF)
    ensures AllRead(groups) == Err(e) <==> PatchIsWrong(groups, e)
  {
    if groups != [] {
      assert groups[0] != [] && NoneBegins(groups[0][1..], DIFF);
      GroupsWrongIff(groups[1..], e);
      FileWrongIff(groups[0], e);
      FileRightIff(groups[0]);
      AllReadErr(groups, e);
    }
  }

  /** Parsing a patch fails exactly at the first line that stands where a hunk header has to be and is none. */
  lemma {:induction false} ParseFailsIff(patchText: string, e: ParseError)
    ensures Parse(patchText) == Err(e) <==> PatchIsWrong(Groups(Split(patchText), "diff --git "), e)
  {
    var lines := Split(patchText);
    FilesAreGroups(lines);
    GroupsAreGrouped(lines, DIFF);
    GroupsWrongIff(Groups(lines, DIFF), e);
  }
}
