/** Cutting strings of UTF-16 code units without cutting through surrogate pairs
    (src/utils.ts, src/agents/bash-tools.shared.ts). */
module Utf16 {
  import opened Wrappers
  import opened Sequences

  type CodeUnit = c: int | 0 <= c < 0x1_0000
  type Units = seq<CodeUnit>

  predicate High(c: CodeUnit) { 0xD800 <= c <= 0xDBFF }
  predicate Low(c: CodeUnit) { 0xDC00 <= c <= 0xDFFF }

  /** Decoding from the left, as in section 2.2 of RFC 2781, never meets a stray surrogate. */
  predicate WellFormed(s: Units) {
    |s| == 0
    || (!High(s[0]) && !Low(s[0]) && WellFormed(s[1..]))
    || (|s| >= 2 && High(s[0]) && Low(s[1]) && WellFormed(s[2..]))
  }

  /** A surrogate at `k` has its partner next to it. */
  predicate PairedAt(s: Units, k: nat)
    requires k < |s|
  {
    && (High(s[k]) ==> k + 1 < |s| && Low(s[k + 1]))
    && (Low(s[k]) ==> k > 0 && High(s[k - 1]))
  }

  ghost predicate Paired(s: Units) {
    forall k: nat :: k < |s| ==> PairedAt(s, k)
  }

  /** Dropping the first `n` units keeps every later surrogate's partner, when the cut is not inside a pair. */
  lemma {:induction false} PairedDrop(s: Units, n: nat, k: nat)
    requires n <= k < |s| && !InsidePair(s, n)
    ensures PairedAt(s, k) <==> PairedAt(s[n..], k - n)
  {
  }

  lemma {:induction false} WellFormedIsPaired(s: Units)
    requires WellFormed(s)
    ensures Paired(s)
  {
    if |s| > 0 {
      var n := if High(s[0]) then 2 else 1;
      WellFormedIsPaired(s[n..]);
      forall k: nat | k < |s|
        ensures PairedAt(s, k)
      {
        if k >= n {
          if n < |s| { assert PairedAt(s[n..], 0); }
          assert PairedAt(s[n..], k - n);
        }
      }
    }
  }

  lemma {:induction false} PairedIsWellFormed(s: Units)
    requires Paired(s)
    ensures WellFormed(s)
  {
    if |s| > 0 {
      assert PairedAt(s, 0);
      var n := if High(s[0]) then 2 else 1;
      if n < |s| { assert PairedAt(s, n - 1) && PairedAt(s, n); }
      forall k: nat | k < |s[n..]|
        ensures PairedAt(s[n..], k)
      {
        assert PairedAt(s, k + n);
        PairedDrop(s, n, k + n);
      }
      PairedIsWellFormed(s[n..]);
    }
  }

  /** A cut at `k` would separate a high surrogate from its low one. */
  predicate InsidePair(s: Units, k: int) {
    0 < k < |s| && High(s[k - 1]) && Low(s[k])
  }

  lemma {:induction false} WellFormedIffPaired(s: Units)
    ensures WellFormed(s) <==> Paired(s)
  {
    if WellFormed(s) { WellFormedIsPaired(s); }
    if Paired(s) { PairedIsWellFormed(s); }
  }

  /** A piece of a well-formed string is well formed exactly when neither cut goes through a pair. */
  lemma {:induction false} PieceWellFormedIff(s: Units, a: nat, b: nat)
    requires WellFormed(s) && a < b <= |s|
    ensures WellFormed(s[a..b]) <==> !InsidePair(s, a) && !InsidePair(s, b)
  {
    var t := s[a..b];
    WellFormedIsPaired(s);
    if WellFormed(t) {
      WellFormedIsPaired(t);
      assert PairedAt(t, 0) && PairedAt(t, |t| - 1);
    }
    if !InsidePair(s, a) && !InsidePair(s, b) {
      forall k: nat | k < |t|
        ensures PairedAt(t, k)
      {
        assert PairedAt(s, k + a);
      }
      PairedIsWellFormed(t);
    }
  }

  lemma {:induction false} WellFormedConcat(a: Units, b: Units)
    requires WellFormed(a) && WellFormed(b)
    ensures WellFormed(a + b)
  {
    if |a| == 0 {
      assert a + b == b;
    } else {
      var n := if High(a[0]) then 2 else 1;
      WellFormedConcat(a[n..], b);
      assert (a + b)[n..] == a[n..] + b;
    }
  }

  // ---------------------------------------------------------------------------
  // sliceUtf16Safe
  // ---------------------------------------------------------------------------

  function Max(a: int, b: int): int { if a < b then b else a }

  /** A slice index: negative ones count from the end, all are brought into range. */
  function Clamp(len: nat, i: int): (n: nat)
    ensures n <= len
  {
    if i < 0 then Max(len + i, 0) else Min(i, len)
  }

  /** `input.slice(from, to)` for indices in range. */
  function Slice(input: Units, from: nat, to: nat): Units
    requires from <= |input| && to <= |input|
  {
    if from < to then input[from..to] else []
  }

  datatype Window = Window(from: nat, to: nat)

  /** The window asked for, with its ends in order. */
  function Asked(len: nat, start: int, end: Option<int>): (w: Window)
    ensures w.from <= w.to <= len
  {
    var from, to := Clamp(len, start), if end.None? then len else Clamp(len, end.value);
    if to < from then Window(to, from) else Window(from, to)
  }

  /** An index as the caller means it: a negative one counts from the end. */
  function Counted(len: nat, i: int): int {
    if i < 0 then len + i else i
  }

  /** The window holds exactly the positions between the two indices, whichever is the greater one. */
  lemma {:induction false} AskedIff(len: nat, start: int, end: Option<int>, k: nat)
    requires k < len
    ensures var w := Asked(len, start, end);
            var s, e := Counted(len, start), if end.None? then len else Counted(len, end.value);
            w.from <= k < w.to <==> s <= k < e || e <= k < s
  {
  }

  /** The window taken: each end steps inward off a pair. */
  function Taken(input: Units, w: Window): (t: Window)
    requires w.from <= w.to <= |input|
    ensures t.from <= |input| && t.to <= |input|
  {
    Window(if InsidePair(input, w.from) then w.from + 1 else w.from, if InsidePair(input, w.to) then w.to - 1 else w.to)
  }

  function SafeSlice(input: Units, start: int, end: Option<int>): Units {
    var t := Taken(input, Asked(|input|, start, end));
    Slice(input, t.from, t.to)
  }

  method SliceUtf16Safe(input: Units, start: int, end: Option<int>) returns (r: Units)
    ensures r == SafeSlice(input, start, end)
  {
    var len := |input|;
    var from: nat := if start < 0 then Max(len + start, 0) else Min(start, len);
    var to: nat := if end.None? then len else if end.value < 0 then Max(len + end.value, 0) else Min(end.value, len);
    if to < from {
      from, to := to, from;
    }
    ghost var asked := Window(from, to);
    assert asked == Asked(len, start, end);
    if from > 0 && from < len {
      if Low(input[from]) && High(input[from - 1]) {
        from := from + 1;
      }
    }
    if to > 0 && to < len {
      if High(input[to - 1]) && Low(input[to]) {
        to := to - 1;
      }
    }
    assert Taken(input, asked) == Window(from, to);
    r := if from < to then input[from..to] else [];
  }

  /** Whatever the string and the indices, no end of the slice lies inside a pair, and at most one code
      unit is given up at each end of the window asked for. */
  lemma {:induction false} SliceSplitsNoPair(input: Units, start: int, end: Option<int>)
    ensures var w := Asked(|input|, start, end);
            var t := Taken(input, w);
            && w.from <= t.from <= w.from + 1 && w.to - 1 <= t.to <= w.to
            && !InsidePair(input, t.from) && !InsidePair(input, t.to)
            && |SafeSlice(input, start, end)| >= w.to - w.from - 2
  {
  }

  /** On well-formed strings the slice is well formed. */
  lemma {:induction false} SliceIsWellFormed(input: Units, start: int, end: Option<int>)
    requires WellFormed(input)
    ensures WellFormed(SafeSlice(input, start, end))
  {
    var t := Taken(input, Asked(|input|, start, end));
    SliceSplitsNoPair(input, start, end);
    if t.from < t.to {
      PieceWellFormedIff(input, t.from, t.to);
    }
  }

  /** It is the largest one: every well-formed piece of the window lies within it. */
  lemma {:induction false} SliceIsLargest(input: Units, start: int, end: Option<int>, a: nat, b: nat)
    requires WellFormed(input)
    requires Asked(|input|, start, end).from <= a < b <= Asked(|input|, start, end).to && WellFormed(input[a..b])
    ensures var t := Taken(input, Asked(|input|, start, end)); t.from <= a && b <= t.to
  {
    PieceWellFormedIff(input, a, b);
  }

  // ---------------------------------------------------------------------------
  // truncateUtf16Safe and truncateMiddle
  // ---------------------------------------------------------------------------

  function Truncated(input: Units, maxLen: int): Units {
    var limit := if maxLen > 0 then maxLen else 0;
    if |input| <= limit then input else SafeSlice(input, 0, Some(limit))
  }

  /** A truncated string is a well-formed prefix within the limit that is at most one unit short of it. */
  lemma {:induction false} TruncatedFits(input: Units, maxLen: int)
    ensures var r, limit := Truncated(input, maxLen), if maxLen > 0 then maxLen else 0;
            && r <= input && |r| <= limit && (|input| > limit ==> |r| >= limit - 1)
            && (WellFormed(input) ==> WellFormed(r))
  {
    var limit := if maxLen > 0 then maxLen else 0;
    if |input| > limit && WellFormed(input) {
      SliceIsWellFormed(input, 0, Some(limit));
    }
  }

  const DOTS: Units := [0x2E, 0x2E, 0x2E]

  function TruncateMiddle(str: Units, max: int): Units {
    if |str| <= max then str
    else
      var half := (max - 3) / 2;
      SafeSlice(str, 0, Some(half)) + DOTS + SafeSlice(str, -half, None)
  }

  /** The result keeps within `max` exactly when nothing is cut or `max` is at least 5. (For 3 and 4
      the tail is `slice(-0)`, the whole string.) */
  lemma {:induction false} TruncateMiddleFitsIff(str: Units, max: int)
    ensures |TruncateMiddle(str, max)| <= max <==> |str| <= max || max >= 5
  {
    if |str| > max && (max - 3) / 2 == 0 {
      assert SafeSlice(str, 0, None) == str[0..|str|] == str;
    }
  }

  lemma {:induction false} WellFormedAround(head: Units, tail: Units)
    requires WellFormed(head) && WellFormed(tail)
    ensures WellFormed(head + DOTS + tail)
  {
    assert WellFormed(DOTS) by {
      assert DOTS[1..][1..][1..] == [];
    }
    WellFormedConcat(head, DOTS);
    WellFormedConcat(head + DOTS, tail);
  }

  /** The head and the tail `truncateMiddle` keeps. */
  function Kept(str: Units, half: int): (Units, Units) {
    (SafeSlice(str, 0, Some(half)), SafeSlice(str, -half, None))
  }

  lemma {:induction false} TruncatedAround(str: Units, max: int)
    requires |str| > max
    ensures var (head, tail) := Kept(str, (max - 3) / 2); TruncateMiddle(str, max) == head + DOTS + tail
  {
  }

  lemma {:induction false} KeptIsWellFormed(str: Units, half: int)
    requires WellFormed(str)
    ensures WellFormed(Kept(str, half).0) && WellFormed(Kept(str, half).1)
  {
    SliceIsWellFormed(str, 0, Some(half));
    SliceIsWellFormed(str, -half, None);
  }

  /** The middle is cut out without breaking pairs. */
  lemma {:induction false} TruncateMiddleIsWellFormed(str: Units, max: int)
    requires WellFormed(str)
    ensures WellFormed(TruncateMiddle(str, max))
  {
    if |str| > max {
      KeptIsWellFormed(str, (max - 3) / 2);
      TruncatedAround(str, max);
      WellFormedAround(Kept(str, (max - 3) / 2).0, Kept(str, (max - 3) / 2).1);
    }
  }

  lemma {:induction false} KeptEnds(str: Units, half: int)
    requires 0 < half <= |str|
    ensures var (head, tail) := Kept(str, half);
            && head <= str && |tail| <= |str| && tail == str[|str| - |tail|..]
            && half - 1 <= |head| <= half && half - 1 <= |tail| <= half
  {
  }

  /** For `max` of at least 5 both ends survive, each cut short by at most one unit of half the room
      beside the dots. */
  lemma {:induction false} TruncateMiddleKeepsEnds(str: Units, max: int)
    requires |str| > max >= 5
    ensures var half := (max - 3) / 2;
            exists head: Units, tail: Units ::
              && TruncateMiddle(str, max) == head + DOTS + tail
              && head <= str && |tail| <= |str| && tail == str[|str| - |tail|..]
              && half - 1 <= |head| <= half && half - 1 <= |tail| <= half
  {
    KeptEnds(str, (max - 3) / 2);
    TruncatedAround(str, max);
  }
}
