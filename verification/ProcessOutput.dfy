/** Bounded output buffers of a process session (src/agents/bash-process-registry.ts). */
module ProcessOutput {
  import opened Wrappers
  import opened Sequences

  datatype Stream = Stdout | Stderr

  const DEFAULT_PENDING_OUTPUT_CHARS: nat := 30000
  const TAIL_CHARS: nat := 2000

  /** The last `n` characters: `tail` and `trimWithCap`. */
  function LastN(s: string, n: nat): (r: string) {
    if |s| <= n then s else s[|s| - n..]
  }

  /** Keeping the last characters as text arrives is the same as keeping them at the end. */
  lemma {:induction false} LastNConcat(a: string, b: string, n: nat)
    ensures LastN(LastN(a, n) + b, n) == LastN(a + b, n)
  {
  }

  /** Only the end of a text that is long enough decides its last characters. */
  lemma {:induction false} LastNSuffix(a: string, b: string, n: nat)
    requires |b| >= n
    ensures LastN(a + b, n) == LastN(b, n)
  {
  }

  // ---------------------------------------------------------------------------
  // capPendingBuffer
  // ---------------------------------------------------------------------------

  /** The buffer keeps the last `cap` characters of what it held, however it was cut into chunks. */
  method CapPendingBuffer(chunks: seq<string>, chars: nat, cap: nat) returns (buffer: seq<string>, pendingChars: nat)
    requires chars == |Flatten(chunks)|
    ensures Flatten(buffer) == LastN(Flatten(chunks), cap) && pendingChars == |Flatten(buffer)|
  {
    buffer, pendingChars := chunks, chars;
    if pendingChars <= cap {
      return;
    }
    if |buffer| > 0 && buffer[|buffer| - 1] != "" && |buffer[|buffer| - 1]| >= cap {
      var last := buffer[|buffer| - 1];
      FlattenSnoc(buffer[..|buffer| - 1], last);
      assert buffer == buffer[..|buffer| - 1] + [last];
      LastNSuffix(Flatten(buffer[..|buffer| - 1]), last, cap);
      buffer := [last[|last| - cap..]];
      return buffer, cap;
    }
    while |buffer| > 0 && pendingChars - |buffer[0]| >= cap
      invariant pendingChars == |Flatten(buffer)| && pendingChars >= cap
      invariant LastN(Flatten(buffer), cap) == LastN(Flatten(chunks), cap)
      decreases |buffer|
    {
      LastNSuffix(buffer[0], Flatten(buffer[1..]), cap);
      pendingChars := pendingChars - |buffer[0]|;
      buffer := buffer[1..];
    }
    if |buffer| > 0 && pendingChars > cap {
      var overflow := pendingChars - cap;
      CutHead(buffer, overflow);
      buffer := buffer[0 := buffer[0][overflow..]];
      pendingChars := cap;
    }
  }

  lemma {:induction false} CutHead(buffer: seq<string>, n: nat)
    requires |buffer| > 0 && n <= |buffer[0]|
    ensures Flatten(buffer[0 := buffer[0][n..]]) == Flatten(buffer)[n..]
  {
    assert buffer[0 := buffer[0][n..]][1..] == buffer[1..];
  }

  // ---------------------------------------------------------------------------
  // The session's output as a value
  // ---------------------------------------------------------------------------

  /** The two limits of a session: on everything kept, and on each stream's undelivered output. */
  datatype Caps = Caps(max: nat, pending: nat)

  datatype Output = Output(stdout: string, stderr: string, aggregated: string, tail: string, total: nat, truncated: bool) {
    function Pending(stream: Stream): string {
      if stream.Stdout? then stdout else stderr
    }

    function Append(caps: Caps, stream: Stream, chunk: string): Output {
      var pending := Pending(stream) + chunk;
      var kept := LastN(aggregated + chunk, caps.max);
      Output(
        if stream.Stdout? then LastN(pending, caps.pending) else stdout,
        if stream.Stderr? then LastN(pending, caps.pending) else stderr,
        kept, LastN(kept, TAIL_CHARS), total + |chunk|,
        truncated || |pending| > caps.pending || |kept| < |aggregated| + |chunk|)
    }

    function Drain(): Output {
      this.(stdout := "", stderr := "")
    }

    /** Nothing kept is over its limit. */
    predicate Within(caps: Caps) {
      && |stdout| <= caps.pending && |stderr| <= caps.pending && |aggregated| <= caps.max
      && tail == LastN(aggregated, TAIL_CHARS)
    }
  }

  /** Two pieces of output one after the other leave the session as the two at once would: `truncated`,
      the counters and all buffers do not depend on where the data was cut. */
  lemma {:induction false} AppendTwice(out: Output, caps: Caps, stream: Stream, a: string, b: string)
    ensures out.Append(caps, stream, a).Append(caps, stream, b) == out.Append(caps, stream, a + b)
  {
    var pending := out.Pending(stream);
    LastNConcat(pending + a, b, caps.pending);
    LastNConcat(out.aggregated + a, b, caps.max);
    assert pending + a + b == pending + (a + b);
    assert out.aggregated + a + b == out.aggregated + (a + b);
  }

  lemma {:induction false} AppendNothing(out: Output, caps: Caps, stream: Stream)
    requires out.Within(caps)
    ensures out.Append(caps, stream, "") == out
  {
    assert out.Pending(stream) + "" == out.Pending(stream);
    assert out.aggregated + "" == out.aggregated;
  }

  lemma {:induction false} FlattenNext(chunks: seq<string>, k: nat)
    requires k < |chunks|
    ensures Flatten(chunks[..k + 1]) == Flatten(chunks[..k]) + chunks[k]
  {
    FlattenSnoc(chunks[..k], chunks[k]);
    assert chunks[..k + 1] == chunks[..k] + [chunks[k]];
  }

  /** `chunkString`: pieces of exactly `limit` characters, the last one shorter, that join to the input. */
  method ChunkString(input: string, limit: nat) returns (chunks: seq<string>)
    requires limit > 0
    ensures Flatten(chunks) == input
    ensures forall k :: 0 <= k < |chunks| ==> 0 < |chunks[k]| <= limit && (k < |chunks| - 1 ==> |chunks[k]| == limit)
  {
    chunks := [];
    var i := 0;
    while i < |input|
      invariant 0 <= i && (i <= |input| || |chunks| > 0)
      invariant Flatten(chunks) == input[..Min(i, |input|)]
      invariant forall k :: 0 <= k < |chunks| ==> 0 < |chunks[k]| <= limit && (i <= |input| || k < |chunks| - 1 ==> |chunks[k]| == limit)
    {
      var chunk := input[i..Min(i + limit, |input|)];
      FlattenSnoc(chunks, chunk);
      assert input[..i] + chunk == input[..Min(i + limit, |input|)];
      chunks := chunks + [chunk];
      i := i + limit;
    }
    assert input[..|input|] == input;
  }

  const NO_OUTPUT := Output("", "", "", "", 0, false)

  // ---------------------------------------------------------------------------
  // The session object
  // ---------------------------------------------------------------------------

  class ProcessSession {
    const maxOutputChars: nat
    const pendingMaxOutputChars: Option<nat>
    var pendingStdout: seq<string>
    var pendingStderr: seq<string>
    var pendingStdoutChars: nat
    var pendingStderrChars: nat
    var aggregated: string
    var tail: string
    var totalOutputChars: nat
    var truncated: bool

    /** Both counters are exact. */
    ghost predicate Valid()
      reads this
    {
      pendingStdoutChars == |Flatten(pendingStdout)| && pendingStderrChars == |Flatten(pendingStderr)|
    }

    function Limits(): Caps {
      var pendingMax := match pendingMaxOutputChars case None => DEFAULT_PENDING_OUTPUT_CHARS case Some(n) => n;
      Caps(maxOutputChars, if pendingMax < maxOutputChars then pendingMax else maxOutputChars)
    }

    ghost function View(): Output
      reads this
    {
      Output(Flatten(pendingStdout), Flatten(pendingStderr), aggregated, tail, totalOutputChars, truncated)
    }

    constructor (maxOutputChars: nat, pendingMaxOutputChars: Option<nat>)
      ensures Valid() && View() == NO_OUTPUT
      ensures this.maxOutputChars == maxOutputChars && this.pendingMaxOutputChars == pendingMaxOutputChars
    {
      this.maxOutputChars, this.pendingMaxOutputChars := maxOutputChars, pendingMaxOutputChars;
      pendingStdout, pendingStderr, pendingStdoutChars, pendingStderrChars := [], [], 0, 0;
      aggregated, tail, totalOutputChars, truncated := "", "", 0, false;
    }

    /** What `appendOutput` does with the stream's pending buffer. */
    method AppendPending(stream: Stream, chunk: string)
      requires Valid()
      modifies `pendingStdout, `pendingStderr, `pendingStdoutChars, `pendingStderrChars, `truncated
      ensures Valid()
      ensures var appended := old(View()).Append(Limits(), stream, chunk);
              Flatten(pendingStdout) == appended.stdout && Flatten(pendingStderr) == appended.stderr
      ensures truncated == (old(truncated) || |old(View()).Pending(stream)| + |chunk| > Limits().pending)
    {
      var buffer := if stream.Stdout? then pendingStdout else pendingStderr;
      var bufferChars := if stream.Stdout? then pendingStdoutChars else pendingStderrChars;
      var pendingCap := Limits().pending;
      FlattenSnoc(buffer, chunk);
      buffer := buffer + [chunk];
      var pendingChars := bufferChars + |chunk|;
      if pendingChars > pendingCap {
        truncated := true;
        buffer, pendingChars := CapPendingBuffer(buffer, pendingChars, pendingCap);
      }
      if stream.Stdout? {
        pendingStdout, pendingStdoutChars := buffer, pendingChars;
      } else {
        pendingStderr, pendingStderrChars := buffer, pendingChars;
      }
    }

    method AppendOutput(stream: Stream, chunk: string)
      requires Valid()
      modifies this
      ensures Valid() && View() == old(View()).Append(Limits(), stream, chunk)
    {
      AppendPending(stream, chunk);
      totalOutputChars := totalOutputChars + |chunk|;
      var kept := LastN(aggregated + chunk, maxOutputChars);
      truncated := truncated || |kept| < |aggregated| + |chunk|;
      aggregated := kept;
      tail := LastN(aggregated, TAIL_CHARS);
    }

    method DrainSession() returns (stdout: string, stderr: string)
      requires Valid()
      modifies `pendingStdout, `pendingStderr, `pendingStdoutChars, `pendingStderrChars
      ensures Valid() && View() == old(View()).Drain()
      ensures stdout == old(View()).stdout && stderr == old(View()).stderr
    {
      stdout, stderr := Flatten(pendingStdout), Flatten(pendingStderr);
      pendingStdout, pendingStderr := [], [];
      pendingStdoutChars, pendingStderrChars := 0, 0;
    }

    /** `handleStdout` and `handleStderr`: data arrives in pieces of at most `limit` characters, to the same
        effect as if it had arrived whole. */
    method HandleData(stream: Stream, data: string, limit: nat)
      requires Valid() && limit > 0 && View().Within(Limits())
      modifies this
      ensures Valid() && View() == old(View()).Append(Limits(), stream, data)
    {
      var chunks := ChunkString(data, limit);
      AppendNothing(View(), Limits(), stream);
      ghost var before, sent := View(), "";
      var k := 0;
      while k < |chunks|
        invariant k <= |chunks| && sent == Flatten(chunks[..k])
        invariant Valid() && View() == before.Append(Limits(), stream, sent)
      {
        AppendTwice(before, Limits(), stream, sent, chunks[k]);
        FlattenNext(chunks, k);
        AppendOutput(stream, chunks[k]);
        sent := sent + chunks[k];
        k := k + 1;
      }
      assert chunks[..|chunks|] == chunks;
    }
  }

  // ---------------------------------------------------------------------------
  // Whole runs
  // ---------------------------------------------------------------------------

  datatype Event = Arrives(stream: Stream, data: string) | Polled

  /** The session, and what its polls have handed over so far. */
  datatype Account = Account(out: Output, gotStdout: string, gotStderr: string) {
    function Got(stream: Stream): string {
      if stream.Stdout? then gotStdout else gotStderr
    }

    /** All that was or will be handed over. */
    function Delivered(stream: Stream): string {
      Got(stream) + out.Pending(stream)
    }

    function Step(caps: Caps, event: Event): Account {
      match event
      case Arrives(stream, data) => this.(out := out.Append(caps, stream, data))
      case Polled => Account(out.Drain(), gotStdout + out.stdout, gotStderr + out.stderr)
    }
  }

  function Run(caps: Caps, events: seq<Event>): Account {
    if events == [] then Account(NO_OUTPUT, "", "")
    else Run(caps, events[..|events| - 1]).Step(caps, events[|events| - 1])
  }

  /** Everything the process wrote. */
  function Written(events: seq<Event>): string {
    if events == [] then ""
    else
      var before := Written(events[..|events| - 1]);
      match events[|events| - 1]
      case Arrives(_, data) => before + data
      case Polled => before
  }

  /** Everything it wrote to one stream. */
  function WrittenTo(events: seq<Event>, stream: Stream): string {
    if events == [] then ""
    else
      var before := WrittenTo(events[..|events| - 1], stream);
      match events[|events| - 1]
      case Arrives(to, data) => if to == stream then before + data else before
      case Polled => before
  }

  /** What it wrote to one stream since the last poll. */
  function SincePoll(events: seq<Event>, stream: Stream): string {
    if events == [] then ""
    else
      var before := SincePoll(events[..|events| - 1], stream);
      match events[|events| - 1]
      case Arrives(to, data) => if to == stream then before + data else before
      case Polled => ""
  }

  /** After any run, each buffer holds exactly the last characters of the real stream that its limit allows. */
  lemma {:induction false} BuffersHoldTheLastCharacters(caps: Caps, events: seq<Event>)
    ensures var out := Run(caps, events).out;
            && out.aggregated == LastN(Written(events), caps.max)
            && out.tail == LastN(out.aggregated, TAIL_CHARS)
            && out.total == |Written(events)|
            && out.stdout == LastN(SincePoll(events, Stdout), caps.pending)
            && out.stderr == LastN(SincePoll(events, Stderr), caps.pending)
  {
    if events != [] {
      var init, last := events[..|events| - 1], events[|events| - 1];
      BuffersHoldTheLastCharacters(caps, init);
      if last.Arrives? {
        LastNConcat(Written(init), last.data, caps.max);
        LastNConcat(SincePoll(init, last.stream), last.data, caps.pending);
      }
    }
  }

  /** A stream is lossless while what was handed over and what is pending make up all of it. */
  predicate Lossless(caps: Caps, events: seq<Event>, stream: Stream) {
    Run(caps, events).Delivered(stream) == WrittenTo(events, stream)
  }

  /** What an event adds to the stream. */
  function NewData(event: Event, stream: Stream): string {
    if event.Arrives? && event.stream == stream then event.data else ""
  }

  lemma {:induction false} DeliveredStep(a: Account, caps: Caps, event: Event, stream: Stream)
    ensures var after, data := a.Step(caps, event).Delivered(stream), NewData(event, stream);
            after == a.Delivered(stream) + data || |after| < |a.Delivered(stream)| + |data|
  {
    if event.Arrives? && event.stream == stream {
      assert a.Got(stream) + (a.out.Pending(stream) + event.data) == a.Delivered(stream) + event.data;
    } else {
      assert a.Step(caps, event).Delivered(stream) == a.Delivered(stream) + "";
    }
  }

  /** Polls lose nothing and never make up for a loss. */
  lemma {:induction false} DeliveredIsShort(caps: Caps, events: seq<Event>, stream: Stream)
    ensures Lossless(caps, events, stream) || |Run(caps, events).Delivered(stream)| < |WrittenTo(events, stream)|
  {
    if events != [] {
      var init, last := events[..|events| - 1], events[|events| - 1];
      DeliveredIsShort(caps, init, stream);
      DeliveredStep(Run(caps, init), caps, last, stream);
      assert WrittenTo(events, stream) == WrittenTo(init, stream) + NewData(last, stream);
    }
  }

  /** At some moment more than the limit had arrived on the stream since the last poll. */
  predicate Overflowed(caps: Caps, events: seq<Event>, stream: Stream) {
    events != [] && (Overflowed(caps, events[..|events| - 1], stream) || |SincePoll(events, stream)| > caps.pending)
  }

  /** A stream is delivered in full exactly when the polls came before its limit was passed. */
  lemma {:induction false} LosslessIff(caps: Caps, events: seq<Event>, stream: Stream)
    ensures Lossless(caps, events, stream) <==> !Overflowed(caps, events, stream)
  {
    if events != [] {
      var init, last := events[..|events| - 1], events[|events| - 1];
      LosslessIff(caps, init, stream);
      BuffersHoldTheLastCharacters(caps, init);
      LosslessStep(caps, init, last, stream);
      OverflowNeedsData(caps, init, stream);
      assert events == init + [last];
    }
  }

  lemma {:induction false} OverflowNeedsData(caps: Caps, events: seq<Event>, stream: Stream)
    ensures |SincePoll(events, stream)| > caps.pending ==> Overflowed(caps, events, stream)
  {
  }

  /** One event keeps a stream lossless exactly when its undelivered output stays within the limit. */
  lemma {:induction false} LosslessStep(caps: Caps, init: seq<Event>, last: Event, stream: Stream)
    ensures Lossless(caps, init + [last], stream) <==>
            Lossless(caps, init, stream) &&
            (last.Arrives? && last.stream == stream ==> |Run(caps, init).out.Pending(stream) + last.data| <= caps.pending)
  {
    var events := init + [last];
    assert events[..|events| - 1] == init;
    DeliveredIsShort(caps, init, stream);
    var a := Run(caps, init);
    if last.Polled? {
      assert a.Step(caps, last).Delivered(stream) == a.Delivered(stream) + "" == a.Delivered(stream);
    } else if last.stream == stream {
      assert a.Got(stream) + (a.out.Pending(stream) + last.data) == a.Delivered(stream) + last.data;
    }
  }

  /** The flag tells the truth: a session is marked truncated exactly when something was lost, from what
      was kept or from what was handed over. */
  lemma {:induction false} FlagTellsTheTruth(caps: Caps, events: seq<Event>)
    ensures Run(caps, events).out.truncated <==>
            || Run(caps, events).out.aggregated != Written(events)
            || !Lossless(caps, events, Stdout) || !Lossless(caps, events, Stderr)
  {
    if events != [] {
      var init, last := events[..|events| - 1], events[|events| - 1];
      FlagTellsTheTruth(caps, init);
      BuffersHoldTheLastCharacters(caps, init);
      BuffersHoldTheLastCharacters(caps, events);
      LosslessStep(caps, init, last, Stdout);
      LosslessStep(caps, init, last, Stderr);
      assert events == init + [last];
    }
  }

  /** What sets the flag, in terms of the run alone. */
  lemma {:induction false} TruncatedIff(caps: Caps, events: seq<Event>)
    ensures Run(caps, events).out.truncated <==>
            |Written(events)| > caps.max || Overflowed(caps, events, Stdout) || Overflowed(caps, events, Stderr)
  {
    FlagTellsTheTruth(caps, events);
    BuffersHoldTheLastCharacters(caps, events);
    LosslessIff(caps, events, Stdout);
    LosslessIff(caps, events, Stderr);
  }
}
