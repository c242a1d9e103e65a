/** Hunk headers of unified diffs, as the pattern of scripts/postinstall.js:102-105 reads them: two at signs, the old
    range behind a minus, the new range behind a plus, two at signs, with white space between them. A range is a
    start line with an optional count, which is one when it is missing; what follows the second pair of at signs
    is ignored. Written headers are read back with the ranges they were written from. */
module HunkHeaders {
  import opened Wrappers
  import opened Text
  import opened UnifiedDiff

  const AT := "@@"

  predicate IsDigit(c: char) { '0' <= c <= '9' }

  function LeadingDigits(s: string): (n: nat)
    ensures n <= |s|
  {
    if s != "" && IsDigit(s[0]) then 1 + LeadingDigits(s[1..]) else 0
  }

  function LeadingSpaces(s: string): (n: nat)
    ensures n <= |s|
  {
    if s != "" && IsSpace(s[0]) then 1 + LeadingSpaces(s[1..]) else 0
  }

  /** The number a string of digits stands for. */
  function Number(digits: string): nat {
    if digits == "" then 0
    else
      var last := digits[|digits| - 1];
      10 * Number(digits[..|digits| - 1]) + if IsDigit(last) then last as int - '0' as int else 0
  }

  datatype Range = Range(start: nat, count: nat)

  datatype Scanned = Scanned(range: Range, rest: string)

  /** `sign\d+(,\d+)?`; a missing count is 1. */
  function ScanRange(s: string, sign: char): Option<Scanned> {
    if s == "" || s[0] != sign then None
    else
      var n := LeadingDigits(s[1..]);
      if n == 0 then None
      else
        var start, rest := Number(s[1..][..n]), s[1..][n..];
        if rest != "" && rest[0] == ',' && LeadingDigits(rest[1..]) > 0 then
          var m := LeadingDigits(rest[1..]);
          Some(Scanned(Range(start, Number(rest[1..][..m])), rest[1..][m..]))
        else Some(Scanned(Range(start, 1), rest))
  }

  /** `\s+`. */
  function ScanSpaces(s: string): Option<string> {
    if LeadingSpaces(s) == 0 then None else Some(s[LeadingSpaces(s)..])
  }

  /** The ranges of a header `@@ -a,b +c,d @@`. */
  function ParseHeader(line: Line): Option<(Range, Range)> {
    if !(AT <= line) then None else
    match ScanSpaces(line[2..]) case None => None case Some(s) =>
    match ScanRange(s, '-') case None => None case Some(old_) =>
    match ScanSpaces(old_.rest) case None => None case Some(t) =>
    match ScanRange(t, '+') case None => None case Some(new_) =>
    match ScanSpaces(new_.rest) case None => None case Some(u) =>
    if AT <= u then Some((old_.range, new_.range)) else None
  }

  function Decimal(n: nat): string {
    if n < 10 then ["0123456789"[n]] else Decimal(n / 10) + ["0123456789"[n % 10]]
  }

  predicate AllDigits(s: string) {
    forall k :: 0 <= k < |s| ==> IsDigit(s[k])
  }

  lemma {:induction false} DecimalIsNumber(n: nat)
    ensures Decimal(n) != "" && AllDigits(Decimal(n)) && Number(Decimal(n)) == n
  {
    if n >= 10 {
      DecimalIsNumber(n / 10);
      var d := Decimal(n);
      assert d[..|d| - 1] == Decimal(n / 10);
    } else {
      assert Decimal(n)[..0] == "";
    }
  }

  lemma {:induction false} DigitsThenOther(digits: string, rest: string)
    requires AllDigits(digits) && (rest == "" || !IsDigit(rest[0]))
    ensures LeadingDigits(digits + rest) == |digits|
    ensures (digits + rest)[..|digits|] == digits && (digits + rest)[|digits|..] == rest
  {
    if digits == "" {
      assert digits + rest == rest;
    } else {
      assert (digits + rest)[1..] == digits[1..] + rest;
      DigitsThenOther(digits[1..], rest);
    }
  }

  /** A range, followed by `tail`; a count of one may be left out. */
  function WrittenRange(r: Range, short: bool, tail: string): string {
    Decimal(r.start) + if short && r.count == 1 then tail else "," + (Decimal(r.count) + tail)
  }

  lemma {:induction false} HeadAndTail(c: char, s: string)
    ensures ([c] + s)[0] == c && ([c] + s)[1..] == s
  {
  }

  lemma {:induction false} ScanShort(sign: char, digits: string, rest: string)
    requires digits != "" && AllDigits(digits) && rest != "" && !IsDigit(rest[0]) && rest[0] != ','
    ensures ScanRange([sign] + (digits + rest), sign) == Some(Scanned(Range(Number(digits), 1), rest))
  {
    HeadAndTail(sign, digits + rest);
    DigitsThenOther(digits, rest);
  }

  lemma {:induction false} ScanFull(sign: char, digits: string, counted: string, rest: string)
    requires digits != "" && AllDigits(digits) && counted != "" && AllDigits(counted) && rest != "" && !IsDigit(rest[0])
    ensures ScanRange([sign] + (digits + ("," + (counted + rest))), sign)
         == Some(Scanned(Range(Number(digits), Number(counted)), rest))
  {
    HeadAndTail(sign, digits + ("," + (counted + rest)));
    HeadAndTail(',', counted + rest);
    assert "," + (counted + rest) == [','] + (counted + rest);
    DigitsThenOther(digits, "," + (counted + rest));
    DigitsThenOther(counted, rest);
  }

  lemma {:induction false} ScanUndoesWrite(sign: char, r: Range, short: bool, rest: string)
    requires rest != "" && rest[0] == ' '
    ensures ScanRange([sign] + WrittenRange(r, short, rest), sign) == Some(Scanned(r, rest))
  {
    DecimalIsNumber(r.start);
    DecimalIsNumber(r.count);
    if short && r.count == 1 {
      ScanShort(sign, Decimal(r.start), rest);
    } else {
      ScanFull(sign, Decimal(r.start), Decimal(r.count), rest);
    }
  }

  function OldRange(h: Hunk): Range { Range(h.oldStart, h.oldLines) }

  function NewRange(h: Hunk): Range { Range(h.newStart, h.newLines) }

  function Header(h: Hunk, short: bool): Line {
    AT + ([' '] + (['-'] + WrittenRange(OldRange(h), short,
      [' '] + (['+'] + WrittenRange(NewRange(h), short, [' '] + AT)))))
  }

  lemma {:induction false} OneSpace(s: string)
    requires s != "" && !IsSpace(s[0])
    ensures ScanSpaces([' '] + s) == Some(s)
  {
    HeadAndTail(' ', s);
    assert LeadingSpaces(s) == 0;
  }

  /** A written header reads as the ranges it was written from. */
  lemma {:induction false} HeaderParses(h: Hunk, short: bool)
    ensures ParseHeader(Header(h, short)) == Some((OldRange(h), NewRange(h)))
  {
    var third := [' '] + AT;
    var plus := ['+'] + WrittenRange(NewRange(h), short, third);
    var minus := ['-'] + WrittenRange(OldRange(h), short, [' '] + plus);
    assert Header(h, short) == AT + ([' '] + minus);
    assert Header(h, short)[2..] == [' '] + minus;
    OneSpace(minus);
    ScanUndoesWrite('-', OldRange(h), short, [' '] + plus);
    OneSpace(plus);
    ScanUndoesWrite('+', NewRange(h), short, third);
    OneSpace(AT);
  }
}
