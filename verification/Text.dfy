/** The string operations the repository's line-based tools rely on: splitting at newlines, joining, and
    the trimming functions of ECMA-262. Splitting and joining are inverse to each other for lines without
    newlines, and trimming leaves alone what is visible at both ends. */
module Text {

  type Line = string

  const NL: char := '\n'

  /** True when no character of `s` is a newline. */
  predicate OneLine(s: string) {
    NL !in s
  }

  predicate AllOneLine(ls: seq<Line>) {
    forall k :: 0 <= k < |ls| ==> OneLine(ls[k])
  }

  /** `s.split("\n")`. */
  function Split(s: string): (ls: seq<Line>)
    ensures |ls| >= 1
    ensures AllOneLine(ls)
    ensures Join(ls) == s
  {
    if s == "" then [""]
    else
      var rest := Split(s[1..]);
      if s[0] == NL then
        assert [NL] + s[1..] == s;
        assert ([""] + rest)[1..] == rest;
        [""] + rest
      else
        var ls := [[s[0]] + rest[0]] + rest[1..];
        assert ls[1..] == rest[1..];
        assert s == [s[0]] + s[1..];
        assert |rest| > 1 ==> [s[0]] + rest[0] + [NL] + Join(rest[1..]) == [s[0]] + Join(rest);
        ls
  }

  /** `ls.join("\n")`. */
  function Join(ls: seq<Line>): string {
    if |ls| == 0 then ""
    else if |ls| == 1 then ls[0]
    else ls[0] + [NL] + Join(ls[1..])
  }

  lemma {:induction false} OneLineConcat(a: seq<Line>, b: seq<Line>)
    requires AllOneLine(a) && AllOneLine(b)
    ensures AllOneLine(a + b)
  {
  }

  /** The part of `s` up to its first newline, and the rest, become head and tail of the split. */
  lemma {:induction false} SplitAtNewline(a: string, s: string)
    requires OneLine(a)
    ensures Split(a + [NL] + s) == [a] + Split(s)
  {
    if a == "" {
      assert (a + [NL] + s)[1..] == s;
    } else {
      assert (a + [NL] + s)[1..] == a[1..] + [NL] + s;
      SplitAtNewline(a[1..], s);
      assert [a[0]] + a[1..] == a;
      assert Split(a + [NL] + s) == [[a[0]] + a[1..]] + Split(s);
    }
  }

  lemma {:induction false} SplitOneLine(a: string)
    requires OneLine(a)
    ensures Split(a) == [a]
  {
    if a != "" {
      SplitOneLine(a[1..]);
      assert [a[0]] + a[1..] == a;
    }
  }

  /** Splitting undoes joining: the newline separated text determines its lines. */
  lemma {:induction false} SplitJoin(ls: seq<Line>)
    requires |ls| >= 1 && AllOneLine(ls)
    ensures Split(Join(ls)) == ls
  {
    if |ls| == 1 {
      SplitOneLine(ls[0]);
    } else {
      SplitAtNewline(ls[0], Join(ls[1..]));
      SplitJoin(ls[1..]);
    }
  }

  lemma {:induction false} JoinConcat(a: seq<Line>, b: seq<Line>)
    requires |a| > 0 && |b| > 0
    ensures Join(a + b) == Join(a) + [NL] + Join(b)
  {
    if |a| == 1 {
      assert (a + b)[1..] == b;
    } else {
      assert (a + b)[1..] == a[1..] + b;
      JoinConcat(a[1..], b);
    }
  }

  lemma {:induction false} SplitConcat(x: string, y: string)
    ensures Split(x + [NL] + y) == Split(x) + Split(y)
  {
    JoinConcat(Split(x), Split(y));
    SplitJoin(Split(x) + Split(y));
  }

  /** Joining with one more empty line at the end adds exactly one newline. */
  lemma {:induction false} JoinSnoc(ls: seq<Line>, last: Line)
    requires |ls| >= 1
    ensures Join(ls + [last]) == Join(ls) + [NL] + last
  {
    if |ls| == 1 {
      assert (ls + [last])[1..] == [last];
    } else {
      assert (ls + [last])[1..] == ls[1..] + [last];
      JoinSnoc(ls[1..], last);
    }
  }

  lemma {:induction false} SplitFinalNewline(s: string)
    ensures Split(s + [NL]) == Split(s) + [""]
  {
    JoinSnoc(Split(s), "");
    assert Join(Split(s) + [""]) == s + [NL];
    SplitJoin(Split(s) + [""]);
  }

  /** The last line of the split is empty exactly when the text is empty or ends in a newline. */
  lemma {:induction false} SplitLast(s: string)
    ensures var ls := Split(s); ls[|ls| - 1] == "" <==> (s == "" || s[|s| - 1] == NL)
  {
    if s != "" {
      SplitLast(s[1..]);
      if s[1..] != "" {
        assert s[1..][|s[1..]| - 1] == s[|s| - 1];
      }
    }
  }

  /** `WhiteSpace` and `LineTerminator` of ECMA-262, sections 12.2 and 12.3: what `trim` removes. */
  predicate IsSpace(c: char) {
    || '\t' <= c <= '\r'
    || c == ' ' || c == '\U{00A0}' || c == '\U{1680}'
    || '\U{2000}' <= c <= '\U{200A}'
    || c == '\U{2028}' || c == '\U{2029}' || c == '\U{202F}' || c == '\U{205F}'
    || c == '\U{3000}' || c == '\U{FEFF}'
  }

  function TrimEnd(s: string): string {
    if s != "" && IsSpace(s[|s| - 1]) then TrimEnd(s[..|s| - 1]) else s
  }

  function TrimStart(s: string): string {
    if s != "" && IsSpace(s[0]) then TrimStart(s[1..]) else s
  }

  function Trim(s: string): string {
    TrimStart(TrimEnd(s))
  }

  lemma {:induction false} TrimEndFacts(s: string)
    ensures var r := TrimEnd(s);
            && r <= s
            && (r == "" || !IsSpace(r[|r| - 1]))
            && (forall k :: |r| <= k < |s| ==> IsSpace(s[k]))
  {
    if s != "" && IsSpace(s[|s| - 1]) {
      TrimEndFacts(s[..|s| - 1]);
    }
  }

  lemma {:induction false} TrimStartFacts(s: string)
    ensures var r := TrimStart(s);
            && |r| <= |s| && r == s[|s| - |r|..]
            && (r == "" || !IsSpace(r[0]))
            && (forall k :: 0 <= k < |s| - |r| ==> IsSpace(s[k]))
  {
    if s != "" && IsSpace(s[0]) {
      var t := s[1..];
      TrimStartFacts(t);
      assert t[|t| - |TrimStart(t)|..] == s[|s| - |TrimStart(t)|..];
      forall k | 0 <= k < |s| - |TrimStart(t)| ensures IsSpace(s[k]) {
        assert k > 0 ==> s[k] == t[k - 1];
      }
    }
  }

  /** What is free of white space at both ends is left alone by trimming. */
  lemma {:induction false} TrimFixed(s: string)
    requires s != "" && !IsSpace(s[0]) && !IsSpace(s[|s| - 1])
    ensures Trim(s) == s
  {
    assert TrimEnd(s) == s;
  }

  lemma {:induction false} TrimEndHead(s: string)
    requires s != "" && !IsSpace(s[0])
    ensures TrimEnd(s) != "" && TrimEnd(s)[0] == s[0]
  {
    if IsSpace(s[|s| - 1]) {
      TrimEndHead(s[..|s| - 1]);
    }
  }

  /** Trimming keeps a first character that is not white space. */
  lemma {:induction false} TrimHead(s: string)
    requires s != "" && !IsSpace(s[0])
    ensures Trim(s) != "" && Trim(s)[0] == s[0]
  {
    TrimEndHead(s);
  }
}
