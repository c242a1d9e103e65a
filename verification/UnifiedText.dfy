/** The text of unified diffs (scripts/postinstall.js; POSIX.1-2017, diff utility, "Diff -u or -U Output
    Format"): what the parser reads, with its loops proved against it, and how patches are written, so that
    parsing undoes writing. */
module UnifiedText {
  import opened Wrappers
  import opened Sequences
  import opened Text
  import opened UnifiedDiff
  import opened HunkHeaders

  const DIFF := "diff --git "
  const INDEX := "index "
  const OLD_FILE := "--- "
  const NEW_FILE := "+++ "
  const NO_NEWLINE := "\\ No newline at end of file"

  datatype FilePatch = FilePatch(oldPath: Option<string>, newPath: Option<string>, hunks: seq<Hunk>)

  /** A hunk header that is none. */
  datatype ParseError = InvalidHeader(header: Line)

  // ---------------------------------------------------------------------------
  // What the parser reads
  // ---------------------------------------------------------------------------

  /** Lines the parser drops from a hunk's body. */
  predicate Ignored(line: Line) {
    line == "" || NO_NEWLINE <= line
  }

  /** A hunk's body reaches to the next hunk or the next file. */
  predicate EndsBody(line: Line) {
    AT <= line || DIFF <= line
  }

  function BodyLength(lines: seq<Line>): (n: nat)
    ensures n <= |lines|
  {
    if lines == [] || EndsBody(lines[0]) then 0 else 1 + BodyLength(lines[1..])
  }

  function HunkLines(raw: seq<Line>): seq<Line> {
    if raw == [] then [] else (if Ignored(raw[0]) then [] else [raw[0]]) + HunkLines(raw[1..])
  }

  /** Something read from the front of the lines, and the lines after it. */
  datatype Read<T> = Read(value: T, rest: seq<Line>)

  function HunkOf(old_: Range, new_: Range, lines: seq<Line>): Hunk {
    Hunk(old_.start, old_.count, new_.start, new_.count, lines)
  }

  function ReadHunks(lines: seq<Line>): (r: Result<Read<seq<Hunk>>, ParseError>)
    ensures r.Ok? ==> |r.value.rest| <= |lines|
    decreases |lines|
  {
    if lines == [] || !(AT <= lines[0]) then Ok(Read([], lines))
    else match ParseHeader(lines[0])
      case None => Err(InvalidHeader(lines[0]))
      case Some(ranges) =>
        var n := BodyLength(lines[1..]);
        var hunk := HunkOf(ranges.0, ranges.1, HunkLines(lines[1..][..n]));
        MoreHunks([hunk], ReadHunks(lines[1..][n..]))
  }

  function MoreHunks(hunks: seq<Hunk>, r: Result<Read<seq<Hunk>>, ParseError>): Result<Read<seq<Hunk>>, ParseError> {
    match r case Err(e) => Err(e) case Ok(more) => Ok(Read(hunks + more.value, more.rest))
  }

  function SkipIndex(lines: seq<Line>): (r: seq<Line>)
    ensures |r| <= |lines|
  {
    if lines != [] && INDEX <= lines[0] then SkipIndex(lines[1..]) else lines
  }

  function StripPrefix(p: string): string {
    if "a/" <= p || "b/" <= p then p[2..] else p
  }

  function ReadPath(lines: seq<Line>, marker: string): (r: Read<Option<string>>)
    ensures |r.rest| <= |lines|
  {
    if lines != [] && marker <= lines[0] then Read(Some(StripPrefix(Trim(lines[0][|marker|..]))), lines[1..])
    else Read(None, lines)
  }

  /** A file's part of the patch, after its `diff --git` line. */
  function ReadFile(lines: seq<Line>): (r: Result<Read<FilePatch>, ParseError>)
    ensures r.Ok? ==> |r.value.rest| <= |lines|
  {
    var oldPath := ReadPath(SkipIndex(lines), OLD_FILE);
    var newPath := ReadPath(oldPath.rest, NEW_FILE);
    match ReadHunks(newPath.rest)
    case Err(e) => Err(e)
    case Ok(hunks) => Ok(Read(FilePatch(oldPath.value, newPath.value, hunks.value), hunks.rest))
  }

  /** Files without a new path or without hunks are left out. */
  predicate Counts(file: FilePatch) {
    file.newPath.Some? && file.newPath.value != "" && file.hunks != []
  }

  function MoreFiles(files: seq<FilePatch>, r: Result<seq<FilePatch>, ParseError>): Result<seq<FilePatch>, ParseError> {
    match r case Err(e) => Err(e) case Ok(more) => Ok(files + more)
  }

  function ReadFiles(lines: seq<Line>): Result<seq<FilePatch>, ParseError>
    decreases |lines|
  {
    if lines == [] then Ok([])
    else if !(DIFF <= lines[0]) then ReadFiles(lines[1..])
    else match ReadFile(lines[1..])
      case Err(e) => Err(e)
      case Ok(file) => MoreFiles(if Counts(file.value) then [file.value] else [], ReadFiles(file.rest))
  }

  function Parse(patchText: string): Result<seq<FilePatch>, ParseError> {
    ReadFiles(Split(patchText))
  }

  // ---------------------------------------------------------------------------
  // The parser's loops
  // ---------------------------------------------------------------------------

  lemma {:induction false} Suffix<T>(s: seq<T>, i: nat)
    requires i < |s|
    ensures s[i..] != [] && s[i..][0] == s[i] && s[i..][1..] == s[i + 1..]
  {
  }

  lemma {:induction false} BodyStep(lines: seq<Line>, i: nat, j: nat)
    requires i <= j < |lines| && BodyLength(lines[i..]) == j - i + BodyLength(lines[j..]) && !EndsBody(lines[j])
    ensures BodyLength(lines[i..]) == j + 1 - i + BodyLength(lines[j + 1..])
  {
    Suffix(lines, j);
  }

  lemma {:induction false} HunkLinesSnoc(raw: seq<Line>, line: Line)
    ensures HunkLines(raw + [line]) == HunkLines(raw) + if Ignored(line) then [] else [line]
  {
    if raw == [] {
      assert raw + [line] == [line];
      assert [line][1..] == [];
    } else {
      assert (raw + [line])[0] == raw[0] && (raw + [line])[1..] == raw[1..] + [line];
      HunkLinesSnoc(raw[1..], line);
    }
  }

  /** The loop over a hunk's body, from line `i` on. */
  method ReadBody(lines: seq<Line>, i: nat) returns (hunkLines: seq<Line>, j: nat)
    requires i <= |lines|
    ensures j == i + BodyLength(lines[i..]) <= |lines| && hunkLines == HunkLines(lines[i..j])
  {
    hunkLines, j := [], i;
    while j < |lines|
      invariant i <= j <= |lines| && BodyLength(lines[i..]) == j - i + BodyLength(lines[j..])
      invariant hunkLines == HunkLines(lines[i..j])
      decreases |lines| - j
    {
      var line := lines[j];
      if AT <= line || DIFF <= line {
        Suffix(lines, j);
        return;
      }
      BodyStep(lines, i, j);
      HunkLinesSnoc(lines[i..j], line);
      assert lines[i..j] + [line] == lines[i..j + 1];
      if line == "" {
        j := j + 1;
        continue;
      }
      if NO_NEWLINE <= line {
        j := j + 1;
        continue;
      }
      hunkLines := hunkLines + [line];
      j := j + 1;
    }
    assert lines[|lines|..] == [];
  }

  lemma {:induction false} MoreHunksTwice(a: seq<Hunk>, h: Hunk, r: Result<Read<seq<Hunk>>, ParseError>)
    ensures MoreHunks(a, MoreHunks([h], r)) == MoreHunks(a + [h], r)
  {
    if r.Ok? {
      assert a + ([h] + r.value.value) == a + [h] + r.value.value;
    }
  }

  lemma {:induction false} BodySlices(lines: seq<Line>, i: nat, n: nat)
    requires i + n <= |lines|
    ensures lines[i..][..n] == lines[i..i + n] && lines[i..][n..] == lines[i + n..]
  {
  }

  lemma {:induction false} ReadHunk(lines: seq<Line>, ranges: (Range, Range), body: seq<Line>, rest: seq<Line>)
    requires lines != [] && AT <= lines[0] && ParseHeader(lines[0]) == Some(ranges)
    requires lines[1..][..BodyLength(lines[1..])] == body && lines[1..][BodyLength(lines[1..])..] == rest
    ensures ReadHunks(lines) == MoreHunks([HunkOf(ranges.0, ranges.1, HunkLines(body))], ReadHunks(rest))
  {
  }

  lemma {:induction false} NextHunk(lines: seq<Line>, hunks: seq<Hunk>, ranges: (Range, Range), kept: seq<Line>, rest: seq<Line>)
    requires lines != [] && AT <= lines[0] && ParseHeader(lines[0]) == Some(ranges)
    requires kept == HunkLines(lines[1..][..BodyLength(lines[1..])]) && lines[1..][BodyLength(lines[1..])..] == rest
    ensures MoreHunks(hunks, ReadHunks(lines)) == MoreHunks(hunks + [HunkOf(ranges.0, ranges.1, kept)], ReadHunks(rest))
  {
    ReadHunk(lines, ranges, lines[1..][..BodyLength(lines[1..])], rest);
    MoreHunksTwice(hunks, HunkOf(ranges.0, ranges.1, kept), ReadHunks(rest));
  }

  /** The lines of one turn of the hunk loop, with the header at line `i` and the body up to line `j`. */
  lemma {:induction false} HunkSlices(lines: seq<Line>, i: nat, j: nat)
    requires i < |lines| && j == i + 1 + BodyLength(lines[i + 1..]) <= |lines|
    ensures var t := lines[i..];
            && t != [] && t[0] == lines[i]
            && t[1..][..BodyLength(t[1..])] == lines[i + 1..j] && t[1..][BodyLength(t[1..])..] == lines[j..]
  {
    Suffix(lines, i);
    BodySlices(lines, i + 1, j - i - 1);
  }

  lemma {:induction false} HunksEnd(lines: seq<Line>, hunks: seq<Hunk>)
    requires lines == [] || !(AT <= lines[0])
    ensures MoreHunks(hunks, ReadHunks(lines)) == Ok(Read(hunks, lines))
  {
    assert hunks + [] == hunks;
  }

  lemma {:induction false} HunkFails(lines: seq<Line>, hunks: seq<Hunk>)
    requires lines != [] && AT <= lines[0] && ParseHeader(lines[0]).None?
    ensures MoreHunks(hunks, ReadHunks(lines)) == Err(InvalidHeader(lines[0]))
  {
  }

  lemma {:induction false} MoreHunksNone(r: Result<Read<seq<Hunk>>, ParseError>)
    ensures MoreHunks([], r) == r
  {
    if r.Ok? {
      assert [] + r.value.value == r.value.value;
    }
  }

  /** The loop over a file's hunks, from line `i` on. */
  method ReadHunkList(lines: seq<Line>, i: nat) returns (r: Result<seq<Hunk>, ParseError>, j: nat)
    requires i <= |lines|
    ensures i <= j <= |lines|
    ensures match MoreHunks([], ReadHunks(lines[i..]))
            case Err(e) => r == Err(e)
            case Ok(read) => r == Ok(read.value) && read.rest == lines[j..]
  {
    var hunks: seq<Hunk> := [];
    j := i;
    while j < |lines| && AT <= lines[j]
      invariant i <= j <= |lines|
      invariant MoreHunks([], ReadHunks(lines[i..])) == MoreHunks(hunks, ReadHunks(lines[j..]))
      decreases |lines| - j
    {
      var ranges := ParseHeader(lines[j]);
      if ranges.None? {
        Suffix(lines, j);
        HunkFails(lines[j..], hunks);
        return Err(InvalidHeader(lines[j])), j;
      }
      var hunkLines, k := ReadBody(lines, j + 1);
      HunkSlices(lines, j, k);
      NextHunk(lines[j..], hunks, ranges.value, hunkLines, lines[k..]);
      hunks := hunks + [HunkOf(ranges.value.0, ranges.value.1, hunkLines)];
      j := k;
    }
    HunksEnd(lines[j..], hunks);
    return Ok(hunks), j;
  }

  lemma {:induction false} MoreFilesTwice(a: seq<FilePatch>, b: seq<FilePatch>, r: Result<seq<FilePatch>, ParseError>)
    ensures MoreFiles([], r) == r
    ensures MoreFiles(a, MoreFiles(b, r)) == MoreFiles(a + b, r)
  {
    if r.Ok? {
      assert [] + r.value == r.value;
      assert a + (b + r.value) == a + b + r.value;
    }
  }

  lemma {:induction false} FileTurn(lines: seq<Line>, files: seq<FilePatch>, file: FilePatch, rest: seq<Line>)
    requires lines != [] && DIFF <= lines[0] && ReadFile(lines[1..]) == Ok(Read(file, rest))
    ensures MoreFiles(files, ReadFiles(lines)) == MoreFiles(if Counts(file) then files + [file] else files, ReadFiles(rest))
  {
    var front := if Counts(file) then [file] else [];
    MoreFilesTwice(files, front, ReadFiles(rest));
    assert files + [] == files;
  }

  lemma {:induction false} FileFails(lines: seq<Line>, files: seq<FilePatch>, e: ParseError)
    requires lines != [] && DIFF <= lines[0] && ReadFile(lines[1..]) == Err(e)
    ensures MoreFiles(files, ReadFiles(lines)) == Err(e)
  {
  }

  /** The part of a file: index lines, the two paths, the hunks. */
  method ReadFileFrom(lines: seq<Line>, start: nat) returns (r: Result<FilePatch, ParseError>, i: nat)
    requires start <= |lines|
    ensures start <= i <= |lines|
    ensures match ReadFile(lines[start..])
            case Err(e) => r == Err(e)
            case Ok(read) => r == Ok(read.value) && read.rest == lines[i..]
  {
    i := start;
    while i < |lines| && INDEX <= lines[i]
      invariant start <= i <= |lines| && SkipIndex(lines[start..]) == SkipIndex(lines[i..])
    {
      Suffix(lines, i);
      i := i + 1;
    }
    assert SkipIndex(lines[start..]) == lines[i..];
    var oldPath: Option<string>, newPath: Option<string> := None, None;
    ghost var atOld := i;
    if i < |lines| && OLD_FILE <= lines[i] {
      Suffix(lines, i);
      oldPath := Some(StripPrefix(Trim(lines[i][4..])));
      i := i + 1;
    }
    assert ReadPath(lines[atOld..], OLD_FILE) == Read(oldPath, lines[i..]);
    ghost var atNew := i;
    if i < |lines| && NEW_FILE <= lines[i] {
      Suffix(lines, i);
      newPath := Some(StripPrefix(Trim(lines[i][4..])));
      i := i + 1;
    }
    assert ReadPath(lines[atNew..], NEW_FILE) == Read(newPath, lines[i..]);
    MoreHunksNone(ReadHunks(lines[i..]));
    var hunks;
    hunks, i := ReadHunkList(lines, i);
    r := match hunks case Err(e) => Err(e) case Ok(hs) => Ok(FilePatch(oldPath, newPath, hs));
  }

  method ParsePatch(patchText: string) returns (r: Result<seq<FilePatch>, ParseError>)
    ensures r == Parse(patchText)
  {
    var lines := Split(patchText);
    var files: seq<FilePatch> := [];
    var i := 0;
    assert lines[0..] == lines;
    MoreFilesTwice([], [], ReadFiles(lines));
    while i < |lines|
      invariant i <= |lines| && ReadFiles(lines) == MoreFiles(files, ReadFiles(lines[i..]))
      decreases |lines| - i
    {
      Suffix(lines, i);
      if !(DIFF <= lines[i]) {
        i := i + 1;
        continue;
      }
      var file, j := ReadFileFrom(lines, i + 1);
      if file.Err? {
        FileFails(lines[i..], files, file.error);
        return Err(file.error);
      }
      FileTurn(lines[i..], files, file.value, lines[j..]);
      if Counts(file.value) {
        files := files + [file.value];
      }
      i := j;
    }
    assert files + [] == files;
    return Ok(files);
  }

  // ---------------------------------------------------------------------------
  // Writing patches
  // ---------------------------------------------------------------------------

  /** A hunk with the lines its body is written as: blank lines and no-newline marks may stand anywhere. */
  datatype HunkScript = HunkScript(hunk: Hunk, raw: seq<Line>, short: bool)

  datatype FileScript = FileScript(path: string, index: seq<Line>, hunks: seq<HunkScript>)

  predicate GoodHunk(h: HunkScript) {
    HunkLines(h.raw) == h.hunk.lines && AllOneLine(h.raw) && forall k :: 0 <= k < |h.raw| ==> !EndsBody(h.raw[k])
  }

  predicate GoodFile(f: FileScript) {
    && f.path != "" && OneLine(f.path) && !IsSpace(f.path[|f.path| - 1])
    && AllOneLine(f.index) && (forall k :: 0 <= k < |f.index| ==> INDEX <= f.index[k])
    && f.hunks != [] && forall k :: 0 <= k < |f.hunks| ==> GoodHunk(f.hunks[k])
  }

  function WrittenHunks(hs: seq<HunkScript>): seq<Line> {
    if hs == [] then [] else [Header(hs[0].hunk, hs[0].short)] + hs[0].raw + WrittenHunks(hs[1..])
  }

  function HunksOf(hs: seq<HunkScript>): seq<Hunk> {
    if hs == [] then [] else [hs[0].hunk] + HunksOf(hs[1..])
  }

  function WrittenFile(f: FileScript): seq<Line> {
    [DIFF + "a/" + f.path + " b/" + f.path] + f.index
    + [OLD_FILE + ("a/" + f.path), NEW_FILE + ("b/" + f.path)] + WrittenHunks(f.hunks)
  }

  function FileOf(f: FileScript): FilePatch {
    FilePatch(Some(f.path), Some(f.path), HunksOf(f.hunks))
  }

  function WrittenFiles(fs: seq<FileScript>): seq<Line> {
    if fs == [] then [] else WrittenFile(fs[0]) + WrittenFiles(fs[1..])
  }

  function FilesOf(fs: seq<FileScript>): seq<FilePatch> {
    if fs == [] then [] else [FileOf(fs[0])] + FilesOf(fs[1..])
  }

  // ---------------------------------------------------------------------------
  // Parsing undoes writing
  // ---------------------------------------------------------------------------

  /** The lines that may follow a file's hunks. */
  predicate Stops(rest: seq<Line>) {
    rest == [] || DIFF <= rest[0]
  }

  /** The prefixes the parser tests for begin with different characters. */
  lemma {:induction false} FirstCharacters(line: Line)
    ensures DIFF <= line ==> line[0] == 'd'
    ensures AT <= line ==> line[0] == '@'
    ensures INDEX <= line ==> line[0] == 'i'
    ensures OLD_FILE <= line ==> line[0] == '-'
    ensures NEW_FILE <= line ==> line[0] == '+'
  {
    assert DIFF[0] == 'd' && AT[0] == '@' && INDEX[0] == 'i' && OLD_FILE[0] == '-' && NEW_FILE[0] == '+';
  }

  lemma {:induction false} BodyReaches(raw: seq<Line>, rest: seq<Line>)
    requires forall k :: 0 <= k < |raw| ==> !EndsBody(raw[k])
    requires rest == [] || EndsBody(rest[0])
    ensures BodyLength(raw + rest) == |raw|
  {
    if raw == [] {
      assert raw + rest == rest;
    } else {
      assert (raw + rest)[0] == raw[0] && (raw + rest)[1..] == raw[1..] + rest;
      BodyReaches(raw[1..], rest);
    }
  }

  lemma {:induction false} Cut<T>(head: T, raw: seq<T>, rest: seq<T>)
    ensures var lines := [head] + raw + rest;
            && lines != [] && lines[0] == head && lines[1..] == raw + rest
            && (raw + rest)[..|raw|] == raw && (raw + rest)[|raw|..] == rest
  {
    var lines := [head] + raw + rest;
    assert lines[1..] == raw + rest;
  }

  lemma {:induction false} HunkRead(header: Line, ranges: (Range, Range), raw: seq<Line>, rest: seq<Line>)
    requires AT <= header && ParseHeader(header) == Some(ranges) && BodyLength(raw + rest) == |raw|
    ensures ReadHunks([header] + raw + rest) == MoreHunks([HunkOf(ranges.0, ranges.1, HunkLines(raw))], ReadHunks(rest))
  {
    Cut(header, raw, rest);
    ReadHunk([header] + raw + rest, ranges, raw, rest);
  }

  lemma {:induction false} HeaderStarts(h: Hunk, short: bool)
    ensures AT <= Header(h, short)
  {
  }

  lemma {:induction false} HunkHead(h: HunkScript, rest: seq<Line>)
    requires GoodHunk(h) && (rest == [] || EndsBody(rest[0]))
    ensures ReadHunks([Header(h.hunk, h.short)] + h.raw + rest) == MoreHunks([h.hunk], ReadHunks(rest))
  {
    HeaderStarts(h.hunk, h.short);
    HeaderParses(h.hunk, h.short);
    BodyReaches(h.raw, rest);
    HunkRead(Header(h.hunk, h.short), (OldRange(h.hunk), NewRange(h.hunk)), h.raw, rest);
  }

  lemma {:induction false} HunksParse(hs: seq<HunkScript>, rest: seq<Line>)
    requires (forall k :: 0 <= k < |hs| ==> GoodHunk(hs[k])) && Stops(rest)
    ensures ReadHunks(WrittenHunks(hs) + rest) == Ok(Read(HunksOf(hs), rest))
  {
    if hs == [] {
      assert WrittenHunks(hs) + rest == rest;
      if rest != [] { FirstCharacters(rest[0]); }
    } else {
      HunksParse(hs[1..], rest);
      var more := WrittenHunks(hs[1..]) + rest;
      Regroup([Header(hs[0].hunk, hs[0].short)] + hs[0].raw, WrittenHunks(hs[1..]), rest);
      assert hs[1..] != [] ==> more[0] == Header(hs[1..][0].hunk, hs[1..][0].short);
      HunkHead(hs[0], more);
    }
  }

  lemma {:induction false} IndexSkipped(index: seq<Line>, rest: seq<Line>)
    requires forall k :: 0 <= k < |index| ==> INDEX <= index[k]
    requires rest != [] && !(INDEX <= rest[0])
    ensures SkipIndex(index + rest) == rest
  {
    if index == [] {
      assert index + rest == rest;
    } else {
      assert (index + rest)[1..] == index[1..] + rest;
      IndexSkipped(index[1..], rest);
    }
  }

  /** A path behind its marker and its `a/` or `b/` is read back. */
  lemma {:induction false} PathParses(marker: string, side: string, path: string, rest: seq<Line>)
    requires (side == "a/" || side == "b/") && path != "" && !IsSpace(path[|path| - 1])
    ensures ReadPath([marker + (side + path)] + rest, marker) == Read(Some(path), rest)
  {
    var lines := [marker + (side + path)] + rest;
    assert lines[1..] == rest;
    assert (marker + (side + path))[|marker|..] == side + path;
    TrimFixed(side + path);
    assert (side + path)[2..] == path;
  }

  lemma {:induction false} FileParses(f: FileScript, rest: seq<Line>)
    requires GoodFile(f) && Stops(rest)
    ensures ReadFile((WrittenFile(f) + rest)[1..]) == Ok(Read(FileOf(f), rest))
  {
    var oldLine, newLine := OLD_FILE + ("a/" + f.path), NEW_FILE + ("b/" + f.path);
    var hunks := WrittenHunks(f.hunks) + rest;
    var fromOld := [oldLine] + ([newLine] + hunks);
    assert (WrittenFile(f) + rest)[1..] == f.index + fromOld;
    FirstCharacters(oldLine);
    IndexSkipped(f.index, fromOld);
    PathParses(OLD_FILE, "a/", f.path, [newLine] + hunks);
    PathParses(NEW_FILE, "b/", f.path, hunks);
    HunksParse(f.hunks, rest);
  }

  lemma {:induction false} FileRead(lines: seq<Line>, file: FilePatch, rest: seq<Line>)
    requires lines != [] && DIFF <= lines[0] && ReadFile(lines[1..]) == Ok(Read(file, rest)) && Counts(file)
    ensures ReadFiles(lines) == MoreFiles([file], ReadFiles(rest))
  {
  }

  lemma {:induction false} FileStarts(f: FileScript, rest: seq<Line>)
    ensures WrittenFile(f) != [] && DIFF <= (WrittenFile(f) + rest)[0]
  {
    assert (WrittenFile(f) + rest)[0] == DIFF + "a/" + f.path + " b/" + f.path;
  }

  lemma {:induction false} FilesParse(fs: seq<FileScript>)
    requires forall k :: 0 <= k < |fs| ==> GoodFile(fs[k])
    ensures ReadFiles(WrittenFiles(fs)) == Ok(FilesOf(fs))
  {
    if fs != [] {
      FilesParse(fs[1..]);
      var rest := WrittenFiles(fs[1..]);
      if fs[1..] != [] {
        FileStarts(fs[1..][0], WrittenFiles(fs[1..][1..]));
      }
      FileParses(fs[0], rest);
      FileStarts(fs[0], rest);
      assert FileOf(fs[0]).hunks[0] == fs[0].hunks[0].hunk;
      FileRead(WrittenFile(fs[0]) + rest, FileOf(fs[0]), rest);
    }
  }

  lemma {:induction false} PreambleSkipped(preamble: seq<Line>, lines: seq<Line>)
    requires forall k :: 0 <= k < |preamble| ==> !(DIFF <= preamble[k])
    ensures ReadFiles(preamble + lines) == ReadFiles(lines)
  {
    if preamble == [] {
      assert preamble + lines == lines;
    } else {
      assert (preamble + lines)[0] == preamble[0] && (preamble + lines)[1..] == preamble[1..] + lines;
      PreambleSkipped(preamble[1..], lines);
    }
  }

  lemma {:induction false} DecimalOneLine(n: nat)
    ensures OneLine(Decimal(n))
  {
    DecimalIsNumber(n);
  }

  lemma {:induction false} RangeOneLine(r: Range, short: bool, tail: string)
    requires OneLine(tail)
    ensures OneLine(WrittenRange(r, short, tail))
  {
    DecimalOneLine(r.start);
    DecimalOneLine(r.count);
  }

  lemma {:induction false} HeaderOneLine(h: Hunk, short: bool)
    ensures OneLine(Header(h, short))
  {
    RangeOneLine(NewRange(h), short, [' '] + AT);
    RangeOneLine(OldRange(h), short, [' '] + (['+'] + WrittenRange(NewRange(h), short, [' '] + AT)));
  }

  lemma {:induction false} HunksOneLine(hs: seq<HunkScript>)
    requires forall k :: 0 <= k < |hs| ==> GoodHunk(hs[k])
    ensures AllOneLine(WrittenHunks(hs))
  {
    if hs != [] {
      HeaderOneLine(hs[0].hunk, hs[0].short);
      HunksOneLine(hs[1..]);
      assert AllOneLine([Header(hs[0].hunk, hs[0].short)]);
      OneLineConcat([Header(hs[0].hunk, hs[0].short)], hs[0].raw);
      OneLineConcat([Header(hs[0].hunk, hs[0].short)] + hs[0].raw, WrittenHunks(hs[1..]));
    }
  }

  lemma {:induction false} FileOneLine(f: FileScript)
    requires GoodFile(f)
    ensures AllOneLine(WrittenFile(f))
  {
    var first := DIFF + "a/" + f.path + " b/" + f.path;
    var paths := [OLD_FILE + ("a/" + f.path), NEW_FILE + ("b/" + f.path)];
    assert OneLine(DIFF) && OneLine(OLD_FILE) && OneLine(NEW_FILE) && OneLine("a/") && OneLine(" b/") && OneLine("b/");
    assert AllOneLine([first]) && AllOneLine(paths);
    HunksOneLine(f.hunks);
    OneLineConcat([first], f.index);
    OneLineConcat([first] + f.index, paths);
    OneLineConcat([first] + f.index + paths, WrittenHunks(f.hunks));
  }

  lemma {:induction false} FilesOneLine(fs: seq<FileScript>)
    requires forall k :: 0 <= k < |fs| ==> GoodFile(fs[k])
    ensures AllOneLine(WrittenFiles(fs))
  {
    if fs != [] {
      FileOneLine(fs[0]);
      FilesOneLine(fs[1..]);
      OneLineConcat(WrittenFile(fs[0]), WrittenFiles(fs[1..]));
    }
  }

  /** Parsing a written patch gives back its files and hunks, whatever stands before the first file, with
      short or full ranges, with index lines, and with blank lines and no-newline marks in the bodies (a
      final newline is such a blank line). */
  lemma {:induction false} ParseUndoesWrite(preamble: seq<Line>, fs: seq<FileScript>)
    requires AllOneLine(preamble) && forall k :: 0 <= k < |preamble| ==> !(DIFF <= preamble[k])
    requires fs != [] && forall k :: 0 <= k < |fs| ==> GoodFile(fs[k])
    ensures Parse(Join(preamble + WrittenFiles(fs))) == Ok(FilesOf(fs))
  {
    FilesOneLine(fs);
    OneLineConcat(preamble, WrittenFiles(fs));
    FileStarts(fs[0], WrittenFiles(fs[1..]));
    SplitJoin(preamble + WrittenFiles(fs));
    PreambleSkipped(preamble, WrittenFiles(fs));
    FilesParse(fs);
  }

  /** A hunk gets all lines of its body exactly when none is blank or a no-newline mark; a blank context line
      written without its leading space is lost, and the hunk has one line less than its header says. */
  lemma {:induction false} BodyIsCompleteIff(raw: seq<Line>)
    ensures HunkLines(raw) == raw <==> forall k :: 0 <= k < |raw| ==> !Ignored(raw[k])
    ensures |HunkLines(raw)| <= |raw|
  {
    if raw != [] {
      BodyIsCompleteIff(raw[1..]);
      assert raw == [raw[0]] + raw[1..];
      if Ignored(raw[0]) {
        assert HunkLines(raw) == HunkLines(raw[1..]);
      } else {
        assert HunkLines(raw) == [raw[0]] + HunkLines(raw[1..]) && HunkLines(raw)[1..] == HunkLines(raw[1..]);
      }
    }
  }

  /** Such a body, of a changed line behind a blank one. */
  lemma {:induction false} BareBlankContextIsDropped()
    ensures HunkLines([" a", "", "+b"]) == [" a", "+b"]
  {
    assert [" a", "", "+b"][1..] == ["", "+b"] && ["", "+b"][1..] == ["+b"] && ["+b"][1..] == [];
    assert NO_NEWLINE[0] == '\\';
  }
}
