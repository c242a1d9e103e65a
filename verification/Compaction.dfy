/** History compaction (src/agents/compaction.ts), for any non-negative token estimate of a message. */
module Compaction {
  import opened Sequences

  datatype Message = Message(role: string, content: string)

  type Estimate = Message -> nat

  function Tokens(est: Estimate, ms: seq<Message>): nat {
    if |ms| == 0 then 0 else est(ms[0]) + Tokens(est, ms[1..])
  }

  lemma {:induction false} TokensConcat(est: Estimate, a: seq<Message>, b: seq<Message>)
    ensures Tokens(est, a + b) == Tokens(est, a) + Tokens(est, b)
  {
    if |a| == 0 {
      assert a + b == b;
    } else {
      TokensConcat(est, a[1..], b);
      assert (a + b)[1..] == a[1..] + b;
    }
  }

  lemma {:induction false} TokensSnoc(est: Estimate, ms: seq<Message>, m: Message)
    ensures Tokens(est, ms + [m]) == Tokens(est, ms) + est(m)
  {
    TokensConcat(est, ms, [m]);
    assert [m][1..] == [];
  }

  // ---------------------------------------------------------------------------
  // Chunks of at most `max` tokens
  // ---------------------------------------------------------------------------

  /** A chunk that may be summarized at once: it fits, or it is a single message. */
  predicate Acceptable(est: Estimate, max: int, chunk: seq<Message>) {
    |chunk| > 0 && (Tokens(est, chunk) <= max || |chunk| == 1)
  }

  /** An order-preserving partition into acceptable chunks. */
  ghost predicate Partition(est: Estimate, max: int, ms: seq<Message>, chunks: seq<seq<Message>>) {
    Flatten(chunks) == ms && forall k :: 0 <= k < |chunks| ==> Acceptable(est, max, chunks[k])
  }

  /** How many more messages fit behind `used` tokens. */
  function Room(est: Estimate, max: int, used: nat, ms: seq<Message>): (n: nat)
    ensures n <= |ms|
    decreases |ms|
  {
    if |ms| == 0 || used + est(ms[0]) > max then 0 else 1 + Room(est, max, used + est(ms[0]), ms[1..])
  }

  /** The length of the longest acceptable prefix. */
  function FirstLength(est: Estimate, max: int, ms: seq<Message>): (n: nat)
    requires |ms| > 0
    ensures 1 <= n <= |ms|
  {
    1 + Room(est, max, est(ms[0]), ms[1..])
  }

  function Greedy(est: Estimate, max: int, ms: seq<Message>): seq<seq<Message>> {
    if |ms| == 0 then []
    else var n := FirstLength(est, max, ms); [ms[..n]] + Greedy(est, max, ms[n..])
  }

  lemma {:induction false} RoomFits(est: Estimate, max: int, used: nat, ms: seq<Message>)
    ensures var n := Room(est, max, used, ms); n > 0 ==> used + Tokens(est, ms[..n]) <= max
    ensures forall n :: Room(est, max, used, ms) < n <= |ms| ==> used + Tokens(est, ms[..n]) > max
    decreases |ms|
  {
    if |ms| > 0 {
      forall n | 0 < n <= |ms| ensures Tokens(est, ms[..n]) == est(ms[0]) + Tokens(est, ms[1..][..n - 1]) {
        assert ms[..n][1..] == ms[1..][..n - 1];
      }
      if used + est(ms[0]) <= max {
        RoomFits(est, max, used + est(ms[0]), ms[1..]);
        if Room(est, max, used + est(ms[0]), ms[1..]) == 0 {
          assert ms[1..][..0] == [];
        }
      }
    }
  }

  lemma {:induction false} FirstIsLongest(est: Estimate, max: int, ms: seq<Message>, n: nat)
    requires 0 < n <= |ms|
    ensures Acceptable(est, max, ms[..FirstLength(est, max, ms)])
    ensures Acceptable(est, max, ms[..n]) ==> n <= FirstLength(est, max, ms)
  {
    RoomFits(est, max, est(ms[0]), ms[1..]);
    var f := FirstLength(est, max, ms);
    assert ms[..f][1..] == ms[1..][..f - 1] && ms[..n][1..] == ms[1..][..n - 1];
  }

  /** What starts inside an acceptable chunk can take at least the rest of it. */
  lemma {:induction false} LaterStart(est: Estimate, max: int, ms: seq<Message>, d: nat)
    requires 0 < d < |ms| && d < FirstLength(est, max, ms)
    ensures FirstLength(est, max, ms) - d <= FirstLength(est, max, ms[d..])
  {
    var f := FirstLength(est, max, ms);
    FirstIsLongest(est, max, ms, f);
    assert ms[..f] == ms[..d] + ms[d..f] && ms[d..][..f - d] == ms[d..f];
    TokensConcat(est, ms[..d], ms[d..f]);
    FirstIsLongest(est, max, ms[d..], f - d);
  }

  /** Starting later never needs more chunks. */
  lemma {:induction false} SuffixNeedsNoMore(est: Estimate, max: int, ms: seq<Message>, d: nat)
    requires d <= |ms|
    ensures |Greedy(est, max, ms[d..])| <= |Greedy(est, max, ms)|
    decreases |ms|
  {
    if d == 0 {
      assert ms[0..] == ms;
    } else if d < |ms| {
      var f := FirstLength(est, max, ms);
      if f <= d {
        SuffixNeedsNoMore(est, max, ms[f..], d - f);
        assert ms[f..][d - f..] == ms[d..];
      } else {
        LaterStart(est, max, ms, d);
        var g := FirstLength(est, max, ms[d..]);
        SuffixNeedsNoMore(est, max, ms[f..], g + d - f);
        assert ms[f..][g + d - f..] == ms[d..][g..];
      }
    }
  }

  lemma {:induction false} GreedyIsPartition(est: Estimate, max: int, ms: seq<Message>)
    ensures Partition(est, max, ms, Greedy(est, max, ms))
    decreases |ms|
  {
    if |ms| > 0 {
      var n := FirstLength(est, max, ms);
      FirstIsLongest(est, max, ms, n);
      GreedyIsPartition(est, max, ms[n..]);
      var rest := Greedy(est, max, ms[n..]);
      assert ([ms[..n]] + rest)[1..] == rest;
      assert ms == ms[..n] + ms[n..];
    }
  }

  /** No partition into acceptable chunks has fewer chunks than the greedy one. */
  lemma {:induction false} GreedyIsOptimal(est: Estimate, max: int, ms: seq<Message>, chunks: seq<seq<Message>>)
    requires Partition(est, max, ms, chunks)
    ensures |Greedy(est, max, ms)| <= |chunks|
    decreases |chunks|
  {
    if |ms| > 0 {
      var n := |chunks[0]|;
      assert Acceptable(est, max, chunks[0]);
      assert ms[..n] == chunks[0] && ms[n..] == Flatten(chunks[1..]);
      FirstIsLongest(est, max, ms, n);
      var f := FirstLength(est, max, ms);
      SuffixNeedsNoMore(est, max, ms[n..], f - n);
      assert ms[n..][f - n..] == ms[f..];
      GreedyIsOptimal(est, max, ms[n..], chunks[1..]);
    }
  }

  /** The greedy chunks of `rest` when `current` is already open. */
  function GreedyFrom(est: Estimate, max: int, current: seq<Message>, rest: seq<Message>): seq<seq<Message>> {
    if |current| == 0 then Greedy(est, max, rest)
    else var n := Room(est, max, Tokens(est, current), rest); [current + rest[..n]] + Greedy(est, max, rest[n..])
  }

  lemma {:induction false} ConsSlices(m: Message, later: seq<Message>, n: nat)
    requires n <= |later|
    ensures ([m] + later)[1..] == later && ([m] + later)[..n + 1] == [m] + later[..n] && ([m] + later)[n + 1..] == later[n..]
  {
  }

  lemma {:induction false} OpenRound(est: Estimate, max: int, m: Message, later: seq<Message>)
    ensures Greedy(est, max, [m] + later) == GreedyFrom(est, max, [m], later)
  {
    ConsSlices(m, later, 0);
    assert [m][1..] == [] && Tokens(est, [m]) == est(m);
    ConsSlices(m, later, Room(est, max, est(m), later));
  }

  lemma {:induction false} CloseRound(est: Estimate, max: int, current: seq<Message>, rest: seq<Message>)
    requires |current| > 0
    requires Tokens(est, current) > max || |rest| == 0 || Tokens(est, current) + est(rest[0]) > max
    ensures GreedyFrom(est, max, current, rest) == [current] + Greedy(est, max, rest)
  {
    assert current + rest[..0] == current && rest[0..] == rest;
  }

  lemma {:induction false} RoomGrows(est: Estimate, max: int, used: nat, m: Message, later: seq<Message>)
    requires used + est(m) <= max
    ensures Room(est, max, used, [m] + later) == 1 + Room(est, max, used + est(m), later)
  {
    ConsSlices(m, later, 0);
  }

  lemma {:induction false} GrowRoom(est: Estimate, max: int, current: seq<Message>, m: Message, later: seq<Message>)
    requires Tokens(est, current) + est(m) <= max
    ensures Room(est, max, Tokens(est, current), [m] + later) == 1 + Room(est, max, Tokens(est, current + [m]), later)
  {
    TokensSnoc(est, current, m);
    RoomGrows(est, max, Tokens(est, current), m, later);
  }

  lemma {:induction false} GrowSlices(current: seq<Message>, m: Message, later: seq<Message>, n: nat)
    requires n <= |later|
    ensures current + ([m] + later)[..n + 1] == current + [m] + later[..n] && ([m] + later)[n + 1..] == later[n..]
  {
    ConsSlices(m, later, n);
    Regroup(current, [m], later[..n]);
  }

  lemma {:induction false} GrowParts(est: Estimate, max: int, current: seq<Message>, m: Message, later: seq<Message>) returns (n: nat)
    requires Tokens(est, current) + est(m) <= max
    ensures n == Room(est, max, Tokens(est, current + [m]), later) && n + 1 == Room(est, max, Tokens(est, current), [m] + later)
    ensures current + ([m] + later)[..n + 1] == current + [m] + later[..n] && ([m] + later)[n + 1..] == later[n..]
  {
    n := Room(est, max, Tokens(est, current + [m]), later);
    GrowRoom(est, max, current, m, later);
    GrowSlices(current, m, later, n);
  }

  lemma {:induction false} GrowRound(est: Estimate, max: int, current: seq<Message>, m: Message, later: seq<Message>)
    requires |current| > 0 && Tokens(est, current) + est(m) <= max
    ensures GreedyFrom(est, max, current, [m] + later) == GreedyFrom(est, max, current + [m], later)
  {
    var n := GrowParts(est, max, current, m, later);
  }

  /** All chunks, when some are closed, one is open, and `rest` is to come. */
  function AllChunks(est: Estimate, max: int, chunks: seq<seq<Message>>, current: seq<Message>, rest: seq<Message>): seq<seq<Message>> {
    chunks + GreedyFrom(est, max, current, rest)
  }

  lemma {:induction false} Close(est: Estimate, max: int, chunks: seq<seq<Message>>, current: seq<Message>, rest: seq<Message>)
    requires |current| > 0
    requires Tokens(est, current) > max || |rest| == 0 || Tokens(est, current) + est(rest[0]) > max
    ensures AllChunks(est, max, chunks, current, rest) == AllChunks(est, max, chunks + [current], [], rest)
  {
    CloseRound(est, max, current, rest);
    Regroup(chunks, [current], Greedy(est, max, rest));
  }

  lemma {:induction false} Take(est: Estimate, max: int, chunks: seq<seq<Message>>, current: seq<Message>, m: Message, later: seq<Message>)
    requires |current| == 0 || Tokens(est, current) + est(m) <= max
    ensures AllChunks(est, max, chunks, current, [m] + later) == AllChunks(est, max, chunks, current + [m], later)
    ensures Tokens(est, current + [m]) == Tokens(est, current) + est(m)
  {
    TokensSnoc(est, current, m);
    if |current| == 0 {
      OpenRound(est, max, m, later);
      assert current + [m] == [m];
    } else {
      GrowRound(est, max, current, m, later);
    }
  }

  lemma {:induction false} NothingOpen(est: Estimate, max: int, chunks: seq<seq<Message>>)
    ensures AllChunks(est, max, chunks, [], []) == chunks
  {
    assert chunks + [] == chunks;
  }

  /** The loop of `chunkMessagesByMaxTokens`. */
  method ChunkLoop(est: Estimate, messages: seq<Message>, maxTokens: int) returns (chunks: seq<seq<Message>>)
    ensures chunks == Greedy(est, maxTokens, messages)
  {
    chunks := [];
    var currentChunk: seq<Message>, currentTokens: nat := [], 0;
    ghost var rest, whole := messages, Greedy(est, maxTokens, messages);
    assert [] + whole == whole;
    for i := 0 to |messages|
      invariant rest == messages[i..]
      invariant currentTokens == Tokens(est, currentChunk)
      invariant AllChunks(est, maxTokens, chunks, currentChunk, rest) == whole
    {
      var message := messages[i];
      var messageTokens := est(message);
      ghost var later := messages[i + 1..];
      assert rest == [message] + later;
      if |currentChunk| > 0 && currentTokens + messageTokens > maxTokens {
        Close(est, maxTokens, chunks, currentChunk, rest);
        chunks := chunks + [currentChunk];
        currentChunk, currentTokens := [], 0;
      }
      Take(est, maxTokens, chunks, currentChunk, message, later);
      currentChunk := currentChunk + [message];
      currentTokens := currentTokens + messageTokens;
      if messageTokens > maxTokens {
        Close(est, maxTokens, chunks, currentChunk, later);
        chunks := chunks + [currentChunk];
        currentChunk, currentTokens := [], 0;
      }
      rest := later;
    }
    if |currentChunk| > 0 {
      Close(est, maxTokens, chunks, currentChunk, rest);
      chunks := chunks + [currentChunk];
    }
    NothingOpen(est, maxTokens, chunks);
  }

  method ChunkMessagesByMaxTokens(est: Estimate, messages: seq<Message>, maxTokens: int) returns (chunks: seq<seq<Message>>)
    ensures Partition(est, maxTokens, messages, chunks)
    ensures forall other: seq<seq<Message>> :: Partition(est, maxTokens, messages, other) ==> |chunks| <= |other|
  {
    chunks := ChunkLoop(est, messages, maxTokens);
    GreedyIsPartition(est, maxTokens, messages);
    forall other: seq<seq<Message>> | Partition(est, maxTokens, messages, other)
      ensures |chunks| <= |other|
    {
      GreedyIsOptimal(est, maxTokens, messages, other);
    }
  }

  // ---------------------------------------------------------------------------
  // Chunks of equal token shares
  // ---------------------------------------------------------------------------

  /** A JavaScript number as the caller passes it. */
  datatype Number = NotFinite | Finite(value: real)

  function NormalizeParts(parts: Number, messageCount: nat): (n: nat)
    ensures n >= 1
    ensures n >= 2 <==> parts.Finite? && parts.value >= 2.0 && messageCount >= 2
    ensures n <= messageCount || n == 1
  {
    if parts.NotFinite? || parts.value <= 1.0 then 1
    else
      var wanted := if parts.value.Floor > 1 then parts.value.Floor else 1;
      var most := if messageCount > 1 then messageCount else 1;
      if wanted < most then wanted else most
  }

  /** The share loop with `current` open and `left` cuts still allowed; `current + m > total / parts`
      is written without the division. */
  function Shares(est: Estimate, total: nat, parts: nat, left: nat, current: seq<Message>, rest: seq<Message>): seq<seq<Message>>
    decreases |rest|
  {
    if |rest| == 0 then (if |current| > 0 then [current] else [])
    else if left > 0 && |current| > 0 && (Tokens(est, current) + est(rest[0])) * parts > total then
      [current] + Shares(est, total, parts, left - 1, [rest[0]], rest[1..])
    else Shares(est, total, parts, left, current + [rest[0]], rest[1..])
  }

  function Split(est: Estimate, ms: seq<Message>, parts: Number): seq<seq<Message>> {
    if |ms| == 0 then []
    else
      var n := NormalizeParts(parts, |ms|);
      if n <= 1 then [ms] else Shares(est, Tokens(est, ms), n, n - 1, [], ms)
  }

  /** The share chunks keep all messages in order, are not empty, and are no more than allowed. */
  lemma {:induction false} SharesKeepAll(est: Estimate, total: nat, parts: nat, left: nat, current: seq<Message>, rest: seq<Message>)
    ensures var r := Shares(est, total, parts, left, current, rest);
            && Flatten(r) == current + rest
            && (forall k :: 0 <= k < |r| ==> |r[k]| > 0)
            && |r| <= left + 1
            && (|current| + |rest| > 0 ==> |r| > 0)
    decreases |rest|
  {
    if |rest| > 0 {
      if left > 0 && |current| > 0 && (Tokens(est, current) + est(rest[0])) * parts > total {
        SharesKeepAll(est, total, parts, left - 1, [rest[0]], rest[1..]);
        var r := Shares(est, total, parts, left - 1, [rest[0]], rest[1..]);
        assert ([current] + r)[1..] == r;
        assert [rest[0]] + rest[1..] == rest;
      } else {
        SharesKeepAll(est, total, parts, left, current + [rest[0]], rest[1..]);
        assert current + [rest[0]] + rest[1..] == current + rest;
      }
    } else {
      assert current + rest == current;
      assert [current][1..] == [] && current + [] == current;
    }
  }

  /** Every chunk but the last keeps to its share or is one message, and only ends where the next
      message would exceed the share. */
  ghost predicate FairCut(est: Estimate, total: nat, parts: nat, chunk: seq<Message>, next: seq<Message>) {
    && |chunk| > 0 && |next| > 0
    && (Tokens(est, chunk) * parts <= total || |chunk| == 1)
    && (Tokens(est, chunk) + est(next[0])) * parts > total
  }

  lemma {:induction false} SharesAreFair(est: Estimate, total: nat, parts: nat, left: nat, current: seq<Message>, rest: seq<Message>)
    requires left > 0 ==> Tokens(est, current) * parts <= total || |current| <= 1
    ensures var r := Shares(est, total, parts, left, current, rest);
            && (forall k :: 0 <= k < |r| - 1 ==> FairCut(est, total, parts, r[k], r[k + 1]))
            && (|r| > 0 && |current| > 0 ==> current <= r[0])
    decreases |rest|
  {
    if |rest| > 0 {
      var m, later := rest[0], rest[1..];
      if left > 0 && |current| > 0 && (Tokens(est, current) + est(m)) * parts > total {
        SharesAreFair(est, total, parts, left - 1, [m], later);
        SharesKeepAll(est, total, parts, left - 1, [m], later);
        var r := Shares(est, total, parts, left - 1, [m], later);
        assert r[0][0] == m;
        assert FairCut(est, total, parts, current, r[0]);
        var all := [current] + r;
        forall k | 0 <= k < |all| - 1 ensures FairCut(est, total, parts, all[k], all[k + 1]) {
          if k > 0 {
            assert FairCut(est, total, parts, r[k - 1], r[k]);
          }
        }
      } else {
        TokensSnoc(est, current, m);
        SharesAreFair(est, total, parts, left, current + [m], later);
      }
    }
  }

  /** Not cutting although a cut is allowed means that everything fits one share. */
  lemma {:induction false} UncutFits(est: Estimate, total: nat, parts: nat, left: nat, current: seq<Message>, rest: seq<Message>)
    requires left > 0 && |current| > 0 && |rest| > 0
    requires |Shares(est, total, parts, left, current, rest)| == 1
    ensures (Tokens(est, current) + Tokens(est, rest)) * parts <= total
    decreases |rest|
  {
    var m, later := rest[0], rest[1..];
    if (Tokens(est, current) + est(m)) * parts > total {
      SharesKeepAll(est, total, parts, left - 1, [m], later);
    } else {
      TokensSnoc(est, current, m);
      if |later| > 0 {
        UncutFits(est, total, parts, left, current + [m], later);
      }
    }
  }

  lemma {:induction false} NothingToCut(est: Estimate, parts: nat, left: nat, current: seq<Message>, rest: seq<Message>)
    requires Tokens(est, current) + Tokens(est, rest) == 0
    ensures |Shares(est, 0, parts, left, current, rest)| <= 1
    decreases |rest|
  {
    if |rest| > 0 {
      TokensSnoc(est, current, rest[0]);
      NothingToCut(est, parts, left, current + [rest[0]], rest[1..]);
    }
  }

  lemma {:induction false} PartExceeded(total: nat, parts: nat)
    requires total > 0 && parts >= 2
    ensures total * parts > total
  {
    if parts > 2 {
      PartExceeded(total, parts - 1);
      assert total * parts == total * (parts - 1) + total;
    }
  }

  /** Splitting yields at least two chunks exactly when there are two messages, two parts are asked
      for, and there is anything to share. */
  lemma {:induction false} SplitsIff(est: Estimate, ms: seq<Message>, parts: Number)
    ensures |Split(est, ms, parts)| >= 2 <==>
            |ms| >= 2 && parts.Finite? && parts.value >= 2.0 && Tokens(est, ms) > 0
  {
    if |ms| >= 2 && parts.Finite? && parts.value >= 2.0 {
      var n, total, m, later := NormalizeParts(parts, |ms|), Tokens(est, ms), ms[0], ms[1..];
      assert Split(est, ms, parts) == Shares(est, total, n, n - 1, [m], later) by {
        assert [] + [m] == [m];
      }
      SharesKeepAll(est, total, n, n - 1, [m], later);
      assert [m][1..] == [] && Tokens(est, [m]) == est(m);
      if total == 0 {
        NothingToCut(est, n, n - 1, [m], later);
      } else {
        PartExceeded(total, n);
        if |Shares(est, total, n, n - 1, [m], later)| == 1 {
          UncutFits(est, total, n, n - 1, [m], later);
        }
      }
    }
  }

  lemma {:induction false} SplitKeepsAll(est: Estimate, ms: seq<Message>, parts: Number)
    ensures var r := Split(est, ms, parts);
            && Flatten(r) == ms && (forall k :: 0 <= k < |r| ==> |r[k]| > 0)
            && |r| <= NormalizeParts(parts, |ms|) && (|ms| > 0 ==> |r| > 0)
  {
    if |ms| > 0 {
      var n := NormalizeParts(parts, |ms|);
      if n <= 1 {
        assert [ms][1..] == [] && ms + [] == ms;
      } else {
        SharesKeepAll(est, Tokens(est, ms), n, n - 1, [], ms);
        assert [] + ms == ms;
      }
    }
  }

  method SplitMessagesByTokenShare(est: Estimate, messages: seq<Message>, parts: Number) returns (chunks: seq<seq<Message>>)
    ensures chunks == Split(est, messages, parts)
    ensures Flatten(chunks) == messages && forall k :: 0 <= k < |chunks| ==> |chunks[k]| > 0
    ensures |chunks| <= NormalizeParts(parts, |messages|)
    ensures forall k :: 0 <= k < |chunks| - 1 ==>
              FairCut(est, Tokens(est, messages), NormalizeParts(parts, |messages|), chunks[k], chunks[k + 1])
    ensures |chunks| >= 2 <==> |messages| >= 2 && parts.Finite? && parts.value >= 2.0 && Tokens(est, messages) > 0
  {
    SplitKeepsAll(est, messages, parts);
    SplitsIff(est, messages, parts);
    if |messages| == 0 {
      return [];
    }
    var normalizedParts := NormalizeParts(parts, |messages|);
    if normalizedParts <= 1 {
      return [messages];
    }
    chunks := ShareLoop(est, messages, normalizedParts);
    SharesAreFair(est, Tokens(est, messages), normalizedParts, normalizedParts - 1, [], messages);
  }

  /** The loop of `splitMessagesByTokenShare`. */
  method ShareLoop(est: Estimate, messages: seq<Message>, parts: nat) returns (chunks: seq<seq<Message>>)
    requires parts >= 1
    ensures chunks == Shares(est, Tokens(est, messages), parts, parts - 1, [], messages)
  {
    var totalTokens := Tokens(est, messages);
    chunks := [];
    var current: seq<Message>, currentTokens: nat := [], 0;
    ghost var rest, whole := messages, Shares(est, totalTokens, parts, parts - 1, [], messages);
    for i := 0 to |messages|
      invariant rest == messages[i..]
      invariant currentTokens == Tokens(est, current) && |chunks| <= parts - 1
      invariant whole == chunks + Shares(est, totalTokens, parts, parts - 1 - |chunks|, current, rest)
    {
      var message := messages[i];
      var messageTokens := est(message);
      assert rest[0] == message && rest[1..] == messages[i + 1..];
      if |chunks| < parts - 1 && |current| > 0 && (currentTokens + messageTokens) * parts > totalTokens {
        Regroup(chunks, [current], Shares(est, totalTokens, parts, parts - 2 - |chunks|, [message], rest[1..]));
        chunks := chunks + [current];
        current, currentTokens := [message], messageTokens;
        TokensSnoc(est, [], message);
        assert [] + [message] == [message];
      } else {
        TokensSnoc(est, current, message);
        current, currentTokens := current + [message], currentTokens + messageTokens;
      }
      rest := rest[1..];
    }
    if |current| > 0 {
      chunks := chunks + [current];
    }
  }

  // ---------------------------------------------------------------------------
  // Pruning to a budget
  // ---------------------------------------------------------------------------

  datatype Pruned = Pruned(
    messages: seq<Message>, droppedMessagesList: seq<Message>,
    droppedChunks: nat, droppedMessages: nat, droppedTokens: nat, keptTokens: nat, budgetTokens: int)

  function Budget(maxContextTokens: real, maxHistoryShare: real): (b: int)
    ensures b >= 1
  {
    var b := (maxContextTokens * maxHistoryShare).Floor;
    if b > 1 then b else 1
  }

  /** A history that is too long, and that splits into two shares or more, loses its oldest share. */
  predicate Sheds(est: Estimate, ms: seq<Message>, budget: int, parts: nat) {
    Tokens(est, ms) > budget && |ms| >= 2 && parts >= 2
  }

  function Oldest(est: Estimate, ms: seq<Message>, parts: nat): (n: nat)
    ensures n <= |ms|
    ensures |Split(est, ms, Finite(parts as real))| >= 2 ==> 0 < n < |ms|
  {
    var chunks := Split(est, ms, Finite(parts as real));
    SplitKeepsAll(est, ms, Finite(parts as real));
    if |chunks| < 2 then 0 else
      assert chunks[1..][0] == chunks[1];
      |chunks[0]|
  }

  /** Where the history begins after `i` times losing its oldest share. */
  function Cut(est: Estimate, ms: seq<Message>, parts: nat, i: nat): (n: nat)
    ensures n <= |ms|
  {
    if i == 0 then 0
    else
      var before := Cut(est, ms, parts, i - 1);
      before + Oldest(est, ms[before..], parts)
  }

  /** After `i` cuts the history is still too long, and can be split. */
  predicate ShedsAt(est: Estimate, ms: seq<Message>, budget: int, parts: nat, i: nat) {
    Sheds(est, ms[Cut(est, ms, parts, i)..], budget, parts)
  }

  /** Before each of the first `i` cuts the history was too long and could be split. */
  ghost predicate AllShed(est: Estimate, ms: seq<Message>, budget: int, parts: nat, i: nat) {
    forall k :: 0 <= k < i ==> ShedsAt(est, ms, budget, parts, k)
  }

  /** The history before the last of `i` drops was too long, and this drop was its oldest share. */
  predicate LastNeeded(est: Estimate, ms: seq<Message>, budget: int, parts: nat, i: nat, dropped: nat)
    requires i > 0
  {
    var lastDrop := Cut(est, ms, parts, i - 1);
    Tokens(est, ms[lastDrop..]) > budget && dropped == lastDrop + Oldest(est, ms[lastDrop..], parts)
  }

  lemma {:induction false} LastIsNeeded(est: Estimate, ms: seq<Message>, budget: int, parts: nat, i: nat)
    requires i > 0 && AllShed(est, ms, budget, parts, i)
    ensures LastNeeded(est, ms, budget, parts, i, Cut(est, ms, parts, i))
  {
    assert ShedsAt(est, ms, budget, parts, i - 1);
  }

  /** Dropping the oldest share until the rest fits: nothing is lost or reordered, the counters agree,
      the budget is met down to one message exactly when two parts are asked for or nothing had to be
      done. The number of shares dropped is the least after which the rest fits or cannot be split: the
      history before the last drop exceeded the budget, and this drop was its oldest share. */
  method PruneHistoryForContextShare(
    est: Estimate, messages: seq<Message>, maxContextTokens: real, maxHistoryShare: real, parts: Number) returns (r: Pruned)
    ensures r.budgetTokens == Budget(maxContextTokens, maxHistoryShare)
    ensures r.droppedMessagesList + r.messages == messages
    ensures |r.droppedMessagesList| == Cut(est, messages, NormalizeParts(parts, |messages|), r.droppedChunks)
    ensures AllShed(est, messages, r.budgetTokens, NormalizeParts(parts, |messages|), r.droppedChunks)
    ensures !Sheds(est, r.messages, r.budgetTokens, NormalizeParts(parts, |messages|))
    ensures r.droppedMessages == |r.droppedMessagesList| && r.droppedTokens == Tokens(est, r.droppedMessagesList)
    ensures r.keptTokens == Tokens(est, r.messages)
    ensures |messages| > 0 ==> |r.messages| > 0
    ensures r.keptTokens <= r.budgetTokens || |r.messages| <= 1 <==>
            (parts.Finite? && parts.value >= 2.0) || Tokens(est, messages) <= r.budgetTokens || |messages| <= 1
    ensures r.droppedChunks <= r.droppedMessages && (r.droppedChunks == 0 <==> r.droppedMessages == 0)
    ensures r.droppedChunks > 0 ==>
              LastNeeded(est, messages, r.budgetTokens, NormalizeParts(parts, |messages|), r.droppedChunks, |r.droppedMessagesList|)
  {
    var budgetTokens := Budget(maxContextTokens, maxHistoryShare);
    var normalized := NormalizeParts(parts, |messages|);
    var kept, dropped, droppedChunks, droppedMessages, droppedTokens;
    ghost var cuts;
    kept, dropped, droppedChunks, droppedMessages, droppedTokens, cuts := PruneLoop(est, messages, budgetTokens, normalized);
    CutSoFarIs(est, messages, budgetTokens, normalized, cuts, droppedChunks);
    assert |dropped| == 0 ==> dropped + kept == kept;
    if droppedChunks > 0 {
      LastIsNeeded(est, messages, budgetTokens, normalized, droppedChunks);
    }
    return Pruned(kept, dropped, droppedChunks, droppedMessages, droppedTokens, Tokens(est, kept), budgetTokens);
  }

  /** One round: the oldest share, and the other shares put together again. */
  method CutOldest(est: Estimate, kept: seq<Message>, normalized: nat) returns (stuck: bool, first: seq<Message>, rest: seq<Message>)
    requires Tokens(est, kept) > 0
    ensures stuck <==> normalized < 2 || |kept| < 2
    ensures stuck <==> |Split(est, kept, Finite(normalized as real))| < 2
    ensures !stuck ==> kept == first + rest && |first| > 0 && |rest| > 0 && |first| == Oldest(est, kept, normalized)
  {
    var chunks := SplitMessagesByTokenShare(est, kept, Finite(normalized as real));
    stuck, first, rest := |chunks| <= 1, [], [];
    if !stuck {
      first, rest := chunks[0], Flatten(chunks[1..]);
      assert |chunks[1]| > 0;
    }
  }

  lemma {:induction false} DropStep(est: Estimate, dropped: seq<Message>, first: seq<Message>, rest: seq<Message>)
    ensures dropped + (first + rest) == dropped + first + rest
    ensures (dropped + (first + rest))[|dropped|..] == first + rest
    ensures Tokens(est, dropped + first) == Tokens(est, dropped) + Tokens(est, first)
    ensures Tokens(est, dropped + (first + rest)) == Tokens(est, dropped) + Tokens(est, first + rest)
  {
    TokensConcat(est, dropped, first);
    TokensConcat(est, dropped, first + rest);
  }

  /** The `k`-th cut was needed, and took the oldest share. */
  ghost predicate CutAt(est: Estimate, ms: seq<Message>, budget: int, parts: nat, cuts: seq<nat>, k: nat)
    requires k + 1 < |cuts|
  {
    && cuts[k] <= |ms| && Sheds(est, ms[cuts[k]..], budget, parts)
    && cuts[k + 1] == cuts[k] + Oldest(est, ms[cuts[k]..], parts)
  }

  /** Where the history began before and after each cut so far. */
  ghost predicate CutSoFar(est: Estimate, ms: seq<Message>, budget: int, parts: nat, cuts: seq<nat>) {
    |cuts| > 0 && cuts[0] == 0 && forall k :: 0 <= k < |cuts| - 1 ==> CutAt(est, ms, budget, parts, cuts, k)
  }

  lemma {:induction false} CutSoFarIs(est: Estimate, ms: seq<Message>, budget: int, parts: nat, cuts: seq<nat>, i: nat)
    requires CutSoFar(est, ms, budget, parts, cuts) && i < |cuts|
    ensures cuts[i] == Cut(est, ms, parts, i) && AllShed(est, ms, budget, parts, i)
  {
    if i > 0 {
      CutSoFarIs(est, ms, budget, parts, cuts, i - 1);
      assert CutAt(est, ms, budget, parts, cuts, i - 1);
      assert ShedsAt(est, ms, budget, parts, i - 1);
    }
  }

  lemma {:induction false} CutOnce(est: Estimate, ms: seq<Message>, budget: int, parts: nat, cuts: seq<nat>, next: nat)
    requires CutSoFar(est, ms, budget, parts, cuts) && cuts[|cuts| - 1] <= |ms|
    requires var rest := ms[cuts[|cuts| - 1]..];
             Sheds(est, rest, budget, parts) && next == cuts[|cuts| - 1] + Oldest(est, rest, parts)
    ensures CutSoFar(est, ms, budget, parts, cuts + [next])
  {
    forall k | 0 <= k < |cuts + [next]| - 1
      ensures CutAt(est, ms, budget, parts, cuts + [next], k)
    {
      assert k < |cuts| - 1 ==> CutAt(est, ms, budget, parts, cuts, k);
    }
  }

  /** What holds at the head of the pruning loop. */
  ghost predicate Pruning(est: Estimate, messages: seq<Message>, budget: int, parts: nat, cuts: seq<nat>,
                          kept: seq<Message>, dropped: seq<Message>, chunks: nat, count: nat, tokens: nat)
  {
    && dropped + kept == messages && (|messages| > 0 ==> |kept| > 0)
    && CutSoFar(est, messages, budget, parts, cuts) && |cuts| == chunks + 1 && cuts[chunks] == |dropped|
    && count == |dropped| && tokens == Tokens(est, dropped) && chunks <= count && (chunks == 0 <==> count == 0)
    && (parts < 2 || Tokens(est, messages) <= budget ==> chunks == 0)
  }

  /** Dropping the oldest share keeps it. */
  lemma {:induction false} PruneStep(est: Estimate, messages: seq<Message>, budget: int, parts: nat, cuts: seq<nat>,
                                     dropped: seq<Message>, first: seq<Message>, rest: seq<Message>,
                                     chunks: nat, count: nat, tokens: nat)
    requires Pruning(est, messages, budget, parts, cuts, first + rest, dropped, chunks, count, tokens)
    requires Sheds(est, first + rest, budget, parts) && |first| == Oldest(est, first + rest, parts)
    requires |first| > 0 && |rest| > 0
    ensures Pruning(est, messages, budget, parts, cuts + [|dropped + first|],
                    rest, dropped + first, chunks + 1, count + |first|, tokens + Tokens(est, first))
  {
    DropStep(est, dropped, first, rest);
    assert messages[|dropped|..] == first + rest;
    CutOnce(est, messages, budget, parts, cuts, |dropped + first|);
  }

  lemma {:induction false} ShortSheds(est: Estimate, kept: seq<Message>, budget: int, parts: nat)
    requires budget >= 1 && (|kept| == 0 || Tokens(est, kept) <= budget)
    ensures !Sheds(est, kept, budget, parts) && Tokens(est, kept) <= budget
  {
  }

  /** One round of the loop: the oldest share is dropped, or the history cannot be split. */
  method PruneRound(est: Estimate, kept: seq<Message>, budgetTokens: int, normalized: nat, ghost messages: seq<Message>,
                    ghost cuts: seq<nat>, ghost dropped: seq<Message>, ghost chunks: nat, ghost count: nat, ghost tokens: nat)
    returns (stuck: bool, first: seq<Message>, rest: seq<Message>, ghost next: seq<nat>)
    requires Pruning(est, messages, budgetTokens, normalized, cuts, kept, dropped, chunks, count, tokens)
    requires budgetTokens >= 1 && Tokens(est, kept) > budgetTokens
    ensures stuck ==> !Sheds(est, kept, budgetTokens, normalized) && (normalized >= 2 ==> |kept| <= 1)
    ensures !stuck ==>
              && Pruning(est, messages, budgetTokens, normalized, next, rest, dropped + first,
                         chunks + 1, count + |first|, tokens + Tokens(est, first))
              && |rest| < |kept|
  {
    stuck, first, rest := CutOldest(est, kept, normalized);
    next := cuts + [|dropped + first|];
    if !stuck {
      PruneStep(est, messages, budgetTokens, normalized, cuts, dropped, first, rest, chunks, count, tokens);
    }
  }

  method PruneLoop(est: Estimate, messages: seq<Message>, budgetTokens: int, normalized: nat)
    returns (kept: seq<Message>, dropped: seq<Message>, droppedChunks: nat, droppedMessages: nat, droppedTokens: nat,
             ghost cuts: seq<nat>)
    requires budgetTokens >= 1
    ensures Pruning(est, messages, budgetTokens, normalized, cuts, kept, dropped, droppedChunks, droppedMessages, droppedTokens)
    ensures !Sheds(est, kept, budgetTokens, normalized)
    ensures normalized >= 2 ==> Tokens(est, kept) <= budgetTokens || |kept| <= 1
  {
    kept, dropped, cuts := messages, [], [0];
    droppedChunks, droppedMessages, droppedTokens := 0, 0, 0;
    assert dropped + kept == messages;
    while |kept| > 0 && Tokens(est, kept) > budgetTokens
      invariant Pruning(est, messages, budgetTokens, normalized, cuts,
                        kept, dropped, droppedChunks, droppedMessages, droppedTokens)
      decreases |kept|
    {
      var stuck, first, rest;
      ghost var next;
      stuck, first, rest, next := PruneRound(est, kept, budgetTokens, normalized, messages,
                                             cuts, dropped, droppedChunks, droppedMessages, droppedTokens);
      if stuck {
        return;
      }
      droppedChunks := droppedChunks + 1;
      droppedMessages := droppedMessages + |first|;
      droppedTokens := droppedTokens + Tokens(est, first);
      dropped := dropped + first;
      kept, cuts := rest, next;
    }
    ShortSheds(est, kept, budgetTokens, normalized);
  }

  // ---------------------------------------------------------------------------
  // Staged summaries
  // ---------------------------------------------------------------------------

  /** Which message lists `summarizeInStages` summarizes separately before merging. */
  datatype Plan = NoHistory | Whole(messages: seq<Message>) | Staged(splits: seq<seq<Message>>)

  function StagesFor(est: Estimate, messages: seq<Message>, parts: Number, minMessagesForSplit: int, maxChunkTokens: int): Plan {
    if |messages| == 0 then NoHistory
    else
      var minimum := if minMessagesForSplit > 2 then minMessagesForSplit else 2;
      var n := NormalizeParts(parts, |messages|);
      if n <= 1 || |messages| < minimum || Tokens(est, messages) <= maxChunkTokens then Whole(messages)
      else
        var splits := Split(est, messages, Finite(n as real));
        if |splits| <= 1 then Whole(messages) else Staged(splits)
  }

  /** Every message is summarized exactly once, and the summary is staged exactly when two parts are
      wanted, there are messages enough, and they are too many tokens for one chunk and more than none. */
  lemma {:induction false} StagesCoverHistory(est: Estimate, messages: seq<Message>, parts: Number, minMessagesForSplit: int, maxChunkTokens: int)
    ensures var plan := StagesFor(est, messages, parts, minMessagesForSplit, maxChunkTokens);
            && (plan.Whole? ==> plan.messages == messages)
            && (plan.Staged? ==> Flatten(plan.splits) == messages && |plan.splits| >= 2 && forall k :: 0 <= k < |plan.splits| ==> |plan.splits[k]| > 0)
            && (plan.Staged? <==>
                  && parts.Finite? && parts.value >= 2.0 && |messages| >= 2 && |messages| >= minMessagesForSplit
                  && Tokens(est, messages) > maxChunkTokens && Tokens(est, messages) > 0)
  {
    if |messages| > 0 {
      var n := NormalizeParts(parts, |messages|);
      SplitKeepsAll(est, messages, Finite(n as real));
      SplitsIff(est, messages, Finite(n as real));
    }
  }
}
