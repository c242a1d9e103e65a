/** What chunks and shares must be (src/agents/compaction.ts). */
module CompactionExact {
  import opened Sequences
  import opened Compaction

  // ---------------------------------------------------------------------------
  // Greedy chunks
  // ---------------------------------------------------------------------------

  /** No chunk could take the first message of the next one. */
  ghost predicate Filled(est: Estimate, max: int, chunks: seq<seq<Message>>) {
    |chunks| < 2 ||
    (chunks[1] != [] && !Acceptable(est, max, chunks[0] + [chunks[1][0]]) && Filled(est, max, chunks[1..]))
  }

  lemma {:induction false} FilledFirst(est: Estimate, max: int, first: seq<Message>, rest: seq<seq<Message>>)
    ensures Filled(est, max, [first] + rest) <==>
            Filled(est, max, rest) && (rest != [] ==> rest[0] != [] && !Acceptable(est, max, first + [rest[0][0]]))
  {
    assert ([first] + rest)[1..] == rest;
  }

  lemma {:induction false} FirstIsFilled(est: Estimate, max: int, ms: seq<Message>, n: nat)
    requires ms != [] && n == FirstLength(est, max, ms) && n < |ms|
    ensures var rest := Greedy(est, max, ms[n..]);
            rest != [] && rest[0] != [] && !Acceptable(est, max, ms[..n] + [rest[0][0]])
  {
    NextFirst(est, max, ms[n..]);
    FirstIsLongest(est, max, ms, n + 1);
    assert ms[..n] + [ms[n]] == ms[..n + 1];
  }

  lemma {:induction false} GreedyIsFilled(est: Estimate, max: int, ms: seq<Message>)
    ensures Filled(est, max, Greedy(est, max, ms))
    decreases |ms|
  {
    if ms != [] {
      var n := FirstLength(est, max, ms);
      GreedyIsFilled(est, max, ms[n..]);
      FilledFirst(est, max, ms[..n], Greedy(est, max, ms[n..]));
      if n < |ms| {
        FirstIsFilled(est, max, ms, n);
      }
    }
  }

  lemma {:induction false} NextFirst(est: Estimate, max: int, ms: seq<Message>)
    requires ms != []
    ensures Greedy(est, max, ms) != [] && Greedy(est, max, ms)[0] != [] && Greedy(est, max, ms)[0][0] == ms[0]
  {
  }

  /** What is acceptable stays so when its end is cut off. */
  lemma {:induction false} ShorterIsAcceptable(est: Estimate, max: int, ms: seq<Message>, n: nat, m: nat)
    requires 0 < n <= m <= |ms| && Acceptable(est, max, ms[..m])
    ensures Acceptable(est, max, ms[..n])
  {
    assert ms[..m] == ms[..n] + ms[n..m];
    TokensConcat(est, ms[..n], ms[n..m]);
  }

  lemma {:induction false} FilledFirstIsLongest(est: Estimate, max: int, ms: seq<Message>, chunks: seq<seq<Message>>)
    requires ms != [] && chunks != [] && Partition(est, max, ms, chunks) && Filled(est, max, chunks)
    ensures |chunks[0]| == FirstLength(est, max, ms) && ms == chunks[0] + Flatten(chunks[1..])
  {
    var n, f := |chunks[0]|, FirstLength(est, max, ms);
    var rest := Flatten(chunks[1..]);
    assert ms == chunks[0] + rest && ms[..n] == chunks[0];
    assert Acceptable(est, max, chunks[0]);
    FirstIsLongest(est, max, ms, n);
    if n < f {
      assert chunks[1..] != [];
      assert chunks[1] != [] && rest[0] == chunks[1][0] by {
        assert Acceptable(est, max, chunks[1]);
        assert chunks[1..][0] == chunks[1];
      }
      assert ms[..n + 1] == chunks[0] + [chunks[1][0]];
      ShorterIsAcceptable(est, max, ms, n + 1, f);
    }
  }

  lemma {:induction false} PartitionTail(est: Estimate, max: int, ms: seq<Message>, chunks: seq<seq<Message>>)
    requires chunks != [] && Partition(est, max, ms, chunks)
    ensures Partition(est, max, Flatten(chunks[1..]), chunks[1..])
  {
  }

  lemma {:induction false} FilledIsGreedy(est: Estimate, max: int, ms: seq<Message>, chunks: seq<seq<Message>>)
    requires Partition(est, max, ms, chunks) && Filled(est, max, chunks)
    ensures chunks == Greedy(est, max, ms)
    decreases |chunks|
  {
    if chunks != [] {
      assert Acceptable(est, max, chunks[0]);
      assert ms != [];
      FilledFirstIsLongest(est, max, ms, chunks);
      var n := |chunks[0]|;
      assert ms[..n] == chunks[0] && ms[n..] == Flatten(chunks[1..]);
      assert chunks == [chunks[0]] + chunks[1..];
      FilledFirst(est, max, chunks[0], chunks[1..]);
      PartitionTail(est, max, ms, chunks);
      FilledIsGreedy(est, max, ms[n..], chunks[1..]);
    }
  }

  /** The chunks are the one partition of the history into acceptable chunks none of which could take another
      message. */
  lemma {:induction false} GreedyIff(est: Estimate, max: int, ms: seq<Message>, chunks: seq<seq<Message>>)
    ensures chunks == Greedy(est, max, ms) <==> Partition(est, max, ms, chunks) && Filled(est, max, chunks)
  {
    GreedyIsPartition(est, max, ms);
    GreedyIsFilled(est, max, ms);
    if Partition(est, max, ms, chunks) && Filled(est, max, chunks) {
      FilledIsGreedy(est, max, ms, chunks);
    }
  }

  // ---------------------------------------------------------------------------
  // Shares
  // ---------------------------------------------------------------------------

  /** The chunk keeps to its share, or is one message. */
  predicate WithinShare(est: Estimate, total: nat, parts: nat, chunk: seq<Message>) {
    Tokens(est, chunk) * parts <= total || |chunk| == 1
  }

  /** Every chunk ends where the next message would exceed the share; the last one keeps to its share too, unless
      all cuts are used up. */
  ghost predicate FairShares(est: Estimate, total: nat, parts: nat, left: nat, r: seq<seq<Message>>) {
    |r| == 0 ||
    (r[0] != [] &&
     if |r| == 1 then left > 0 ==> WithinShare(est, total, parts, r[0])
     else left > 0 && FairCut(est, total, parts, r[0], r[1]) && FairShares(est, total, parts, left - 1, r[1..]))
  }

  lemma {:induction false} FairFirst(est: Estimate, total: nat, parts: nat, left: nat, first: seq<Message>, rest: seq<seq<Message>>)
    requires left > 0 && first != [] && rest != [] && FairShares(est, total, parts, left - 1, rest)
    requires FairCut(est, total, parts, first, rest[0])
    ensures FairShares(est, total, parts, left, [first] + rest)
  {
    assert ([first] + rest)[1..] == rest;
  }

  lemma {:induction false} SharesAreFairShares(est: Estimate, total: nat, parts: nat, left: nat, current: seq<Message>, rest: seq<Message>)
    requires left > 0 ==> Tokens(est, current) * parts <= total || |current| <= 1
    ensures FairShares(est, total, parts, left, Shares(est, total, parts, left, current, rest))
    decreases |rest|
  {
    if rest != [] {
      if left > 0 && |current| > 0 && (Tokens(est, current) + est(rest[0])) * parts > total {
        SharesAreFairShares(est, total, parts, left - 1, [rest[0]], rest[1..]);
        NextShare(est, total, parts, left - 1, rest[0], rest[1..]);
        FairFirst(est, total, parts, left, current, Shares(est, total, parts, left - 1, [rest[0]], rest[1..]));
      } else {
        TokensSnoc(est, current, rest[0]);
        SharesAreFairShares(est, total, parts, left, current + [rest[0]], rest[1..]);
      }
    }
  }

  lemma {:induction false} NextShare(est: Estimate, total: nat, parts: nat, left: nat, m: Message, rest: seq<Message>)
    ensures var r := Shares(est, total, parts, left, [m], rest); r != [] && r[0] != [] && r[0][0] == m
  {
    SharesAreFair(est, total, parts, left, [m], rest);
    SharesKeepAll(est, total, parts, left, [m], rest);
  }

  lemma {:induction false} MonotoneTokens(est: Estimate, a: seq<Message>, m: Message, b: seq<Message>, parts: nat)
    ensures (Tokens(est, a) + est(m)) * parts <= Tokens(est, a + ([m] + b)) * parts
  {
    TokensConcat(est, a, [m] + b);
    TokensConcat(est, [m], b);
    assert [m][1..] == [];
  }

  /** The first share goes on as long as it does in `r`. */
  lemma {:induction false} GoesOn(est: Estimate, total: nat, parts: nat, left: nat, r: seq<seq<Message>>, current: seq<Message>, m: Message, tail: seq<Message>)
    requires r != [] && FairShares(est, total, parts, left, r) && r[0] == current + ([m] + tail)
    ensures !(left > 0 && |current| > 0 && (Tokens(est, current) + est(m)) * parts > total)
  {
    if left > 0 && |current| > 0 {
      MonotoneTokens(est, current, m, tail, parts);
    }
  }

  lemma {:induction false} OpenShare(est: Estimate, total: nat, parts: nat, left: nat, current: seq<Message>, m: Message, rest: seq<Message>)
    requires !(left > 0 && |current| > 0 && (Tokens(est, current) + est(m)) * parts > total)
    ensures Shares(est, total, parts, left, current, [m] + rest) == Shares(est, total, parts, left, current + [m], rest)
  {
    assert ([m] + rest)[1..] == rest;
  }

  lemma {:induction false} CloseShare(est: Estimate, total: nat, parts: nat, left: nat, current: seq<Message>, m: Message, rest: seq<Message>)
    requires left > 0 && |current| > 0 && (Tokens(est, current) + est(m)) * parts > total
    ensures Shares(est, total, parts, left, current, [m] + rest) == [current] + Shares(est, total, parts, left - 1, [m], rest)
  {
    assert ([m] + rest)[1..] == rest;
  }

  /** The loop that has `current` of the first share, with `tail` of it to come, makes these shares. */
  predicate Makes(est: Estimate, total: nat, parts: nat, left: nat, r: seq<seq<Message>>, current: seq<Message>, tail: seq<Message>) {
    r != [] && Shares(est, total, parts, left, current, tail + Flatten(r[1..])) == r
  }

  lemma {:induction false} MakesMore(
    est: Estimate, total: nat, parts: nat, left: nat, r: seq<seq<Message>>, current: seq<Message>, m: Message, tail: seq<Message>)
    requires Makes(est, total, parts, left, r, current + [m], tail)
    requires !(left > 0 && |current| > 0 && (Tokens(est, current) + est(m)) * parts > total)
    ensures Makes(est, total, parts, left, r, current, [m] + tail)
  {
    OpenShare(est, total, parts, left, current, m, tail + Flatten(r[1..]));
    assert [m] + (tail + Flatten(r[1..])) == [m] + tail + Flatten(r[1..]);
  }

  lemma {:induction false} MakesNext(
    est: Estimate, total: nat, parts: nat, left: nat, r: seq<seq<Message>>, m: Message, tail: seq<Message>)
    requires |r| > 1 && left > 0 && r[0] != [] && r[1] == [m] + tail && Makes(est, total, parts, left - 1, r[1..], [m], tail)
    requires (Tokens(est, r[0]) + est(m)) * parts > total
    ensures Makes(est, total, parts, left, r, r[0], [])
  {
    var later := tail + Flatten(r[1..][1..]);
    CloseShare(est, total, parts, left, r[0], m, later);
    JoinedShares(r, m);
    assert tail == r[1][1..];
    assert [] + Flatten(r[1..]) == [m] + later;
  }

  lemma {:induction false} MakesLast(est: Estimate, total: nat, parts: nat, left: nat, r: seq<seq<Message>>)
    requires |r| == 1 && r[0] != []
    ensures Makes(est, total, parts, left, r, r[0], [])
  {
    assert r == [r[0]] && [] + Flatten(r[1..]) == [];
  }

  lemma {:induction false} FairIsShares(
    est: Estimate, total: nat, parts: nat, left: nat, r: seq<seq<Message>>, current: seq<Message>, tail: seq<Message>)
    requires r != [] && FairShares(est, total, parts, left, r) && r[0] == current + tail
    ensures Makes(est, total, parts, left, r, current, tail)
    decreases |r|, |tail|
  {
    if tail != [] {
      var m := tail[0];
      assert tail == [m] + tail[1..];
      GoesOn(est, total, parts, left, r, current, m, tail[1..]);
      FairIsShares(est, total, parts, left, r, current + [m], tail[1..]);
      MakesMore(est, total, parts, left, r, current, m, tail[1..]);
    } else if |r| == 1 {
      MakesLast(est, total, parts, left, r);
      assert current == r[0];
    } else {
      assert current == r[0];
      var m := r[1][0];
      assert r[1] == [m] + r[1][1..];
      FairIsShares(est, total, parts, left - 1, r[1..], [m], r[1][1..]);
      MakesNext(est, total, parts, left, r, m, r[1][1..]);
    }
  }

  lemma {:induction false} JoinedShares(r: seq<seq<Message>>, m: Message)
    requires |r| > 1 && r[1] != [] && r[1][0] == m
    ensures Flatten(r[1..]) == [m] + (r[1][1..] + Flatten(r[1..][1..])) && r == [r[0]] + r[1..]
  {
    assert Flatten(r[1..]) == r[1] + Flatten(r[1..][1..]);
  }

  /** The shares are the one way to cut the history so. */
  lemma {:induction false} SharesIff(est: Estimate, ms: seq<Message>, parts: nat, r: seq<seq<Message>>)
    requires parts >= 1
    ensures r == Shares(est, Tokens(est, ms), parts, parts - 1, [], ms) <==>
            Flatten(r) == ms && FairShares(est, Tokens(est, ms), parts, parts - 1, r)
  {
    var total := Tokens(est, ms);
    SharesKeepAll(est, total, parts, parts - 1, [], ms);
    SharesAreFairShares(est, total, parts, parts - 1, [], ms);
    assert [] + ms == ms;
    if Flatten(r) == ms && FairShares(est, total, parts, parts - 1, r) && r != [] {
      assert ms == r[0] + Flatten(r[1..]) && [] + r[0] == r[0];
      FairIsShares(est, total, parts, parts - 1, r, [], r[0]);
    }
  }

  /** A number of parts is wanted and there are messages for it exactly when it is no more than the number
      that is used: the largest whole number within both. */
  lemma {:induction false} NormalizeIff(parts: Number, messageCount: nat, n: nat)
    requires n >= 2
    ensures n <= NormalizeParts(parts, messageCount) <==> parts.Finite? && n as real <= parts.value && n <= messageCount
  {
    if parts.Finite? {
      assert n <= parts.value.Floor <==> n as real <= parts.value;
    }
  }

  /** The budget is the whole part of the product, but one token at least. */
  lemma {:induction false} BudgetIff(maxContextTokens: real, maxHistoryShare: real, n: int)
    requires n >= 2
    ensures n <= Budget(maxContextTokens, maxHistoryShare) <==> n as real <= maxContextTokens * maxHistoryShare
  {
    var product := maxContextTokens * maxHistoryShare;
    assert n <= product.Floor <==> n as real <= product;
  }

  /** Where the oldest share ends: it keeps to its share or is one message, and the next message would exceed
      the share; nothing is cut when fewer than two parts or messages are left, or no tokens. */
  lemma {:induction false} OldestIff(est: Estimate, ms: seq<Message>, parts: nat, n: nat)
    requires 0 < n < |ms| && parts >= 2 && Tokens(est, ms) > 0
    ensures var p := NormalizeParts(Finite(parts as real), |ms|);
            n == Oldest(est, ms, parts) <==>
            WithinShare(est, Tokens(est, ms), p, ms[..n]) && Tokens(est, ms[..n + 1]) * p > Tokens(est, ms)
  {
    var p, total := NormalizeParts(Finite(parts as real), |ms|), Tokens(est, ms);
    var f := Oldest(est, ms, parts);
    FirstShare(est, ms, parts);
    if f < n {
      LongerPrefix(est, ms, f + 1, n, p);
    } else if n < f {
      LongerPrefix(est, ms, n + 1, f, p);
    }
  }

  lemma {:induction false} FirstOfShares(est: Estimate, ms: seq<Message>, p: nat, left: nat, r: seq<seq<Message>>)
    requires |r| >= 2 && Flatten(r) == ms && FairShares(est, Tokens(est, ms), p, left, r)
    ensures var n := |r[0]|;
            && 0 < n < |ms| && WithinShare(est, Tokens(est, ms), p, ms[..n])
            && Tokens(est, ms[..n + 1]) * p > Tokens(est, ms)
  {
    var n := |r[0]|;
    JoinedShares(r, r[1][0]);
    assert ms == r[0] + Flatten(r[1..]);
    assert ms[..n] == r[0] && ms[n] == r[1][0];
    TokensSnoc(est, r[0], ms[n]);
    assert ms[..n + 1] == r[0] + [ms[n]];
  }

  lemma {:induction false} FirstShare(est: Estimate, ms: seq<Message>, parts: nat)
    requires |ms| >= 2 && parts >= 2 && Tokens(est, ms) > 0
    ensures var p, n := NormalizeParts(Finite(parts as real), |ms|), Oldest(est, ms, parts);
            && 0 < n < |ms| && WithinShare(est, Tokens(est, ms), p, ms[..n])
            && Tokens(est, ms[..n + 1]) * p > Tokens(est, ms)
  {
    var p := NormalizeParts(Finite(parts as real), |ms|);
    SplitsIff(est, ms, Finite(parts as real));
    SplitKeepsAll(est, ms, Finite(parts as real));
    SharesAreFairShares(est, Tokens(est, ms), p, p - 1, [], ms);
    FirstOfShares(est, ms, p, p - 1, Split(est, ms, Finite(parts as real)));
  }

  lemma {:induction false} LongerPrefix(est: Estimate, ms: seq<Message>, i: nat, j: nat, p: nat)
    requires i <= j <= |ms|
    ensures Tokens(est, ms[..i]) * p <= Tokens(est, ms[..j]) * p
  {
    assert ms[..j] == ms[..i] + ms[i..j];
    TokensConcat(est, ms[..i], ms[i..j]);
  }
}
