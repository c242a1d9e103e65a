/** How the ACP bridge turns text snapshots into message chunks, and how it keeps its pending prompts
    (src/acp/translator.ts). */
module Streaming {
  import opened Wrappers

  type SessionId = string
  type RunId = string

  // ---------------------------------------------------------------------------
  // One prompt's snapshots
  // ---------------------------------------------------------------------------

  /** The text sent so far, in chunks, and the last snapshot a chunk was taken from. */
  datatype Progress = Progress(sentTextLength: nat, sentText: string, emitted: string) {
    function Delta(fullText: string): Progress {
      if |fullText| <= sentTextLength then this
      else Progress(|fullText|, fullText, emitted + fullText[sentTextLength..])
    }
  }

  const NOTHING_SENT := Progress(0, "", "")

  function After(snapshots: seq<string>): Progress {
    if snapshots == [] then NOTHING_SENT
    else After(snapshots[..|snapshots| - 1]).Delta(snapshots[|snapshots| - 1])
  }

  /** The longest snapshot, the first one of its length. */
  function Longest(snapshots: seq<string>): string {
    if snapshots == [] then ""
    else
      var before, last := Longest(snapshots[..|snapshots| - 1]), snapshots[|snapshots| - 1];
      if |last| > |before| then last else before
  }

  /** Whatever arrives, the client has as many characters as the longest snapshot, and that one is recorded. */
  lemma {:induction false} AsLongAsTheLongest(snapshots: seq<string>)
    ensures var p := After(snapshots);
            p.sentText == Longest(snapshots) && p.sentTextLength == |p.sentText| == |p.emitted|
  {
    if snapshots != [] {
      AsLongAsTheLongest(snapshots[..|snapshots| - 1]);
    }
  }

  lemma {:induction false} LongestIsOne(snapshots: seq<string>)
    ensures Longest(snapshots) == "" || Longest(snapshots) in snapshots
    ensures forall s :: s in snapshots ==> |s| <= |Longest(snapshots)|
  {
    if snapshots != [] {
      var init, last := snapshots[..|snapshots| - 1], snapshots[|snapshots| - 1];
      LongestIsOne(init);
      assert snapshots == init + [last];
    }
  }

  /** Each snapshot that is longer than all before it extends the longest of them. */
  predicate Extending(snapshots: seq<string>) {
    snapshots == [] ||
    (Extending(snapshots[..|snapshots| - 1]) &&
     var before, last := Longest(snapshots[..|snapshots| - 1]), snapshots[|snapshots| - 1];
     |last| > |before| ==> before <= last)
  }

  /** The client's text is the longest snapshot after every prefix of the snapshots. */
  predicate AlwaysInStep(snapshots: seq<string>) {
    After(snapshots).emitted == Longest(snapshots) && (snapshots == [] || AlwaysInStep(snapshots[..|snapshots| - 1]))
  }

  /** The chunks make up the longest snapshot at every moment exactly when every longer snapshot extends it. */
  lemma {:induction false} InStepIffExtending(snapshots: seq<string>)
    ensures AlwaysInStep(snapshots) <==> Extending(snapshots)
  {
    if snapshots != [] {
      var init, last := snapshots[..|snapshots| - 1], snapshots[|snapshots| - 1];
      InStepIffExtending(init);
      AsLongAsTheLongest(init);
      var before := Longest(init);
      if |last| > |before| {
        assert last == last[..|before|] + last[|before|..];
        SamePrefix(before, last[..|before|], last[|before|..]);
      }
    }
  }

  lemma {:induction false} SamePrefix(a: string, b: string, c: string)
    requires |a| == |b|
    ensures a + c == b + c <==> a == b
  {
    if a + c == b + c {
      assert a == (a + c)[..|a|] && b == (b + c)[..|a|];
    }
  }

  predicate AllPrefixes(snapshots: seq<string>, text: string) {
    forall s :: s in snapshots ==> s <= text
  }

  /** Snapshots of one growing text, however repeated or reordered, give the longest of them. */
  lemma {:induction false} PrefixesReassemble(snapshots: seq<string>, text: string)
    requires AllPrefixes(snapshots, text)
    ensures After(snapshots).emitted == Longest(snapshots) <= text
    ensures After(snapshots).sentTextLength == |Longest(snapshots)|
  {
    PrefixesExtend(snapshots, text);
    InStepIffExtending(snapshots);
    AsLongAsTheLongest(snapshots);
    LongestIsOne(snapshots);
  }

  lemma {:induction false} PrefixesExtend(snapshots: seq<string>, text: string)
    requires AllPrefixes(snapshots, text)
    ensures Extending(snapshots)
  {
    if snapshots != [] {
      var init, last := snapshots[..|snapshots| - 1], snapshots[|snapshots| - 1];
      assert last in snapshots;
      assert forall s :: s in init ==> s in snapshots;
      PrefixesExtend(init, text);
      LongestIsOne(init);
      if |last| > |Longest(init)| {
        ShorterPrefix(Longest(init), last, text);
      }
    }
  }

  lemma {:induction false} ShorterPrefix(a: string, b: string, text: string)
    requires a <= text && b <= text && |a| <= |b|
    ensures a <= b
  {
    assert b[..|a|] == text[..|a|];
  }

  // ---------------------------------------------------------------------------
  // The pending prompts
  // ---------------------------------------------------------------------------

  datatype Pending = Pending(session: SessionId, key: string, run: RunId, progress: Progress)

  datatype Answer = EndTurn | Cancelled | Refusal | RequestFailed | Disconnected

  datatype ChatState = Delta(text: string) | Final | Aborted | Error | OtherState

  datatype Event =
    | PromptStarts(session: SessionId, key: string, run: RunId)
    | RequestFails(session: SessionId, run: RunId)   // of the request that started the run, at any later time
    | Chat(key: string, run: RunId, state: ChatState)   // an empty run id stands for a missing one
    | CancelEnds(session: SessionId)
    | GatewayDisconnects

  /** Where a session's prompt is in the map, in insertion order; the length when it has none. */
  function Position(pending: seq<Pending>, session: SessionId): (k: nat)
    ensures k <= |pending|
    ensures k < |pending| ==> pending[k].session == session
  {
    if pending == [] || pending[0].session == session then 0 else 1 + Position(pending[1..], session)
  }

  /** `pendingPrompts.set`: a session that has an entry keeps its place. */
  function Put(pending: seq<Pending>, p: Pending): seq<Pending> {
    var k := Position(pending, p.session);
    if k < |pending| then pending[k := p] else pending + [p]
  }

  /** `pendingPrompts.delete`. */
  function Drop(pending: seq<Pending>, session: SessionId): seq<Pending> {
    var k := Position(pending, session);
    if k < |pending| then pending[..k] + pending[k + 1..] else pending
  }

  /** `findPendingBySessionKey`: the first entry with the key. */
  function FirstWithKey(pending: seq<Pending>, key: string): (k: nat)
    ensures k <= |pending|
    ensures k < |pending| ==> pending[k].key == key
  {
    if pending == [] || pending[0].key == key then 0 else 1 + FirstWithKey(pending[1..], key)
  }

  /** The entry a chat event is for. */
  function Target(pending: seq<Pending>, key: string, run: RunId): Option<nat> {
    var k := FirstWithKey(pending, key);
    if k == |pending| || (run != "" && pending[k].run != run) then None else Some(k)
  }

  /** Each prompt's promise settles with its first answer. */
  function Settle(answers: map<RunId, Answer>, run: RunId, answer: Answer): map<RunId, Answer> {
    if run in answers then answers else answers[run := answer]
  }

  function SettleAll(answers: map<RunId, Answer>, pending: seq<Pending>): map<RunId, Answer>
    decreases |pending|
  {
    if pending == [] then answers else SettleAll(Settle(answers, pending[0].run, Disconnected), pending[1..])
  }

  datatype State = State(pending: seq<Pending>, answers: map<RunId, Answer>) {
    function Finish(k: nat, answer: Answer): State
      requires k < |pending|
    {
      State(Drop(pending, pending[k].session), Settle(answers, pending[k].run, answer))
    }

    function Step(event: Event): State {
      match event
      case PromptStarts(session, key, run) => State(Put(pending, Pending(session, key, run, NOTHING_SENT)), answers)
      case RequestFails(session, run) => State(Drop(pending, session), Settle(answers, run, RequestFailed))
      case CancelEnds(session) =>
        var k := Position(pending, session);
        if k < |pending| then Finish(k, Cancelled) else this
      case GatewayDisconnects => State([], SettleAll(answers, pending))
      case Chat(key, run, state) =>
        match Target(pending, key, run)
        case None => this
        case Some(k) =>
          match state
          case Delta(text) => State(Advance(pending, k, text), answers)
          case Final => Finish(k, EndTurn)
          case Aborted => Finish(k, Cancelled)
          case Error => Finish(k, Refusal)
          case OtherState => this
    }
  }

  /** `handleDeltaEvent`: looks the entry up again, by its session. */
  function Advance(pending: seq<Pending>, k: nat, text: string): seq<Pending>
    requires k < |pending|
  {
    var j := Position(pending, pending[k].session);
    if j < |pending| then pending[j := pending[j].(progress := pending[j].progress.Delta(text))] else pending
  }

  ghost predicate SessionsDiffer(pending: seq<Pending>) {
    forall i, j :: 0 <= i < j < |pending| ==> pending[i].session != pending[j].session
  }

  lemma {:induction false} PositionIs(pending: seq<Pending>, k: nat)
    requires SessionsDiffer(pending) && k < |pending|
    ensures Position(pending, pending[k].session) == k
  {
    if k > 0 {
      PositionIs(pending[1..], k - 1);
    }
  }

  lemma {:induction false} PositionNone(pending: seq<Pending>, session: SessionId)
    ensures Position(pending, session) == |pending| <==> forall p :: p in pending ==> p.session != session
  {
    if pending != [] {
      PositionNone(pending[1..], session);
      assert pending == [pending[0]] + pending[1..];
    }
  }

  lemma {:induction false} PutKeepsSessions(pending: seq<Pending>, p: Pending)
    requires SessionsDiffer(pending)
    ensures SessionsDiffer(Put(pending, p))
  {
    PositionNone(pending, p.session);
  }

  lemma {:induction false} DropKeepsSessions(pending: seq<Pending>, session: SessionId)
    requires SessionsDiffer(pending)
    ensures SessionsDiffer(Drop(pending, session))
  {
  }

  lemma {:induction false} AdvanceKeepsSessions(pending: seq<Pending>, k: nat, text: string)
    requires SessionsDiffer(pending) && k < |pending|
    ensures Advance(pending, k, text) == pending[k := pending[k].(progress := pending[k].progress.Delta(text))]
    ensures SessionsDiffer(Advance(pending, k, text))
  {
    PositionIs(pending, k);
  }

  /** Every step keeps one entry for each session. */
  lemma {:induction false} SessionsStayDifferent(state: State, event: Event)
    requires SessionsDiffer(state.pending)
    ensures SessionsDiffer(state.Step(event).pending)
  {
    match event
    case PromptStarts(session, key, run) => PutKeepsSessions(state.pending, Pending(session, key, run, NOTHING_SENT));
    case RequestFails(session, _) => DropKeepsSessions(state.pending, session);
    case CancelEnds(session) => DropKeepsSessions(state.pending, session);
    case GatewayDisconnects =>
    case Chat(key, run, chat) =>
      var target := Target(state.pending, key, run);
      if target.Some? {
        DropKeepsSessions(state.pending, state.pending[target.value].session);
        if chat.Delta? {
          AdvanceKeepsSessions(state.pending, target.value, chat.text);
        }
      }
  }

  // ---------------------------------------------------------------------------
  // Which prompts are answered
  // ---------------------------------------------------------------------------

  ghost predicate RunsDiffer(pending: seq<Pending>) {
    forall i, j :: 0 <= i < j < |pending| ==> pending[i].run != pending[j].run
  }

  ghost predicate Awaits(pending: seq<Pending>, run: RunId) {
    exists k :: 0 <= k < |pending| && pending[k].run == run
  }

  /** The event takes a pending prompt away without answering it: another prompt of its session, or the
      failure of another request of its session. */
  predicate Forgets(event: Event, session: SessionId, run: RunId) {
    (event.PromptStarts? || event.RequestFails?) && event.session == session && event.run != run
  }

  lemma {:induction false} DropIff(pending: seq<Pending>, session: SessionId, k: nat)
    requires SessionsDiffer(pending) && RunsDiffer(pending) && k < |pending|
    ensures Awaits(Drop(pending, session), pending[k].run) <==> pending[k].session != session
  {
    var run, d := pending[k].run, Drop(pending, session);
    if pending[k].session == session {
      PositionIs(pending, k);
      assert d == pending[..k] + pending[k + 1..];
    } else {
      var j := Position(pending, session);
      if j < |pending| {
        assert d[if k < j then k else k - 1] == pending[k];
      } else {
        assert d[k] == pending[k];
      }
    }
  }

  lemma {:induction false} PutIff(pending: seq<Pending>, p: Pending, k: nat)
    requires SessionsDiffer(pending) && RunsDiffer(pending) && k < |pending| && p.run != pending[k].run
    ensures Awaits(Put(pending, p), pending[k].run) <==> pending[k].session != p.session
  {
    var run, d := pending[k].run, Put(pending, p);
    if pending[k].session == p.session {
      PositionIs(pending, k);
      assert d == pending[k := p];
    } else {
      assert d[k] == pending[k];
    }
  }

  lemma {:induction false} SettleAllKeeps(answers: map<RunId, Answer>, pending: seq<Pending>, run: RunId)
    requires run in answers || exists k :: 0 <= k < |pending| && pending[k].run == run
    ensures run in SettleAll(answers, pending)
    decreases |pending|
  {
    if pending != [] {
      if run !in answers && pending[0].run != run {
        var k :| 0 <= k < |pending| && pending[k].run == run;
        assert pending[1..][k - 1].run == run;
      }
      SettleAllKeeps(Settle(answers, pending[0].run, Disconnected), pending[1..], run);
    }
  }

  lemma {:induction false} AdvanceAwaits(pending: seq<Pending>, j: nat, text: string, k: nat)
    requires SessionsDiffer(pending) && j < |pending| && k < |pending|
    ensures Awaits(Advance(pending, j, text), pending[k].run)
  {
    AdvanceKeepsSessions(pending, j, text);
    assert Advance(pending, j, text)[k].run == pending[k].run;
  }

  lemma {:induction false} FinishIff(state: State, j: nat, answer: Answer, k: nat)
    requires SessionsDiffer(state.pending) && RunsDiffer(state.pending) && j < |state.pending| && k < |state.pending|
    ensures Awaits(state.Finish(j, answer).pending, state.pending[k].run) || state.pending[k].run in state.Finish(j, answer).answers
  {
    DropIff(state.pending, state.pending[j].session, k);
  }

  /** An event leaves a pending prompt neither pending nor answered exactly when it is another prompt of the
      same session, or the failure of another request of that session. */
  lemma {:induction false} ForgetsIff(state: State, event: Event, k: nat)
    requires SessionsDiffer(state.pending) && RunsDiffer(state.pending) && k < |state.pending|
    requires state.pending[k].run !in state.answers && (event.PromptStarts? ==> event.run != state.pending[k].run)
    ensures !Awaits(state.Step(event).pending, state.pending[k].run) && state.pending[k].run !in state.Step(event).answers
            <==> Forgets(event, state.pending[k].session, state.pending[k].run)
  {
    match event
    case PromptStarts(session, key, run) => PutIff(state.pending, Pending(session, key, run, NOTHING_SENT), k);
    case RequestFails(session, _) => DropIff(state.pending, session, k);
    case CancelEnds(session) =>
      var j := Position(state.pending, session);
      if j < |state.pending| { FinishIff(state, j, Cancelled, k); } else { assert Awaits(state.pending, state.pending[k].run); }
    case GatewayDisconnects => SettleAllKeeps(state.answers, state.pending, state.pending[k].run);
    case Chat(key, run, chat) => ChatForgetsNone(state, key, run, chat, k);
  }

  lemma {:induction false} ChatForgetsNone(state: State, key: string, run: RunId, chat: ChatState, k: nat)
    requires SessionsDiffer(state.pending) && RunsDiffer(state.pending) && k < |state.pending|
    ensures var next := state.Step(Chat(key, run, chat));
            Awaits(next.pending, state.pending[k].run) || state.pending[k].run in next.answers
  {
    assert Awaits(state.pending, state.pending[k].run);
    match Target(state.pending, key, run)
    case None =>
    case Some(j) =>
      match chat
      case Delta(text) => AdvanceAwaits(state.pending, j, text, k);
      case Final => FinishIff(state, j, EndTurn, k);
      case Aborted => FinishIff(state, j, Cancelled, k);
      case Error => FinishIff(state, j, Refusal, k);
      case OtherState =>
  }

  // ---------------------------------------------------------------------------
  // Whole runs
  // ---------------------------------------------------------------------------

  ghost predicate Trace(events: seq<Event>, states: seq<State>) {
    && |states| == |events| + 1 && states[0] == State([], map[])
    && forall k :: 0 <= k < |events| ==> states[k + 1] == states[k].Step(events[k])
  }

  /** One of the first `n` events started the run, for that session and key. */
  ghost predicate Started(events: seq<Event>, n: nat, session: SessionId, key: string, run: RunId)
    requires n <= |events|
  {
    exists j :: 0 <= j < n && events[j] == PromptStarts(session, key, run)
  }

  /** Run ids are never used twice, and only a request that was made can fail. */
  ghost predicate Proper(events: seq<Event>) {
    && (forall i, j :: 0 <= i < j < |events| && events[i].PromptStarts? && events[j].PromptStarts? ==> events[i].run != events[j].run)
    && (forall k :: 0 <= k < |events| && events[k].RequestFails? ==> exists key :: Started(events, k, events[k].session, key, events[k].run))
  }

  predicate Same(p: Pending, q: Pending) {
    p.session == q.session && p.key == q.key && p.run == q.run
  }

  /** An entry of the same prompt is pending. */
  ghost predicate IsPending(pending: seq<Pending>, q: Pending) {
    exists p :: p in pending && Same(p, q)
  }

  lemma {:induction false} ItselfPending(pending: seq<Pending>, q: Pending)
    requires q in pending
    ensures IsPending(pending, q)
  {
    assert Same(q, q);
  }

  lemma {:induction false} AdvancedComesFrom(pending: seq<Pending>, k: nat, text: string, q: Pending)
    requires SessionsDiffer(pending) && k < |pending| && q in Advance(pending, k, text)
    ensures IsPending(pending, q)
  {
    AdvanceKeepsSessions(pending, k, text);
    var j :| 0 <= j < |pending| && Advance(pending, k, text)[j] == q;
    assert pending[j] in pending && Same(pending[j], q);
  }

  lemma {:induction false} DeltaComesFrom(state: State, key: string, run: RunId, text: string, q: Pending)
    requires SessionsDiffer(state.pending) && q in state.Step(Chat(key, run, Delta(text))).pending
    ensures IsPending(state.pending, q)
  {
    match Target(state.pending, key, run)
    case None => ItselfPending(state.pending, q);
    case Some(k) => AdvancedComesFrom(state.pending, k, text, q);
  }

  /** An event that is no snapshot takes entries away or adds its own. */
  lemma {:induction false} OtherEventKeeps(state: State, event: Event, q: Pending)
    requires !(event.Chat? && event.state.Delta?) && q in state.Step(event).pending
    ensures q in state.pending || event == PromptStarts(q.session, q.key, q.run)
  {
  }

  /** Whatever is pending after an event was pending before, or is the prompt that just started. */
  lemma {:induction false} PendingComesFrom(state: State, event: Event, q: Pending)
    requires SessionsDiffer(state.pending) && q in state.Step(event).pending
    ensures event == PromptStarts(q.session, q.key, q.run) || IsPending(state.pending, q)
  {
    if event.Chat? && event.state.Delta? {
      DeltaComesFrom(state, event.key, event.run, event.state.text, q);
    } else {
      OtherEventKeeps(state, event, q);
      if q in state.pending {
        ItselfPending(state.pending, q);
      }
    }
  }

  lemma {:induction false} DropKeepsRuns(pending: seq<Pending>, session: SessionId)
    requires RunsDiffer(pending)
    ensures RunsDiffer(Drop(pending, session))
  {
  }

  lemma {:induction false} RunsStayDifferent(state: State, event: Event)
    requires SessionsDiffer(state.pending) && RunsDiffer(state.pending)
    requires event.PromptStarts? ==> forall p :: p in state.pending ==> p.run != event.run
    ensures RunsDiffer(state.Step(event).pending)
  {
    match event
    case PromptStarts(_, _, _) =>
    case RequestFails(session, _) => DropKeepsRuns(state.pending, session);
    case CancelEnds(session) => DropKeepsRuns(state.pending, session);
    case GatewayDisconnects =>
    case Chat(key, run, chat) =>
      var target := Target(state.pending, key, run);
      if target.Some? {
        DropKeepsRuns(state.pending, state.pending[target.value].session);
        if chat.Delta? {
          AdvanceKeepsSessions(state.pending, target.value, chat.text);
        }
      }
  }

  ghost predicate AllStarted(events: seq<Event>, n: nat, pending: seq<Pending>)
    requires n <= |events|
  {
    forall p :: p in pending ==> Started(events, n, p.session, p.key, p.run)
  }

  lemma {:induction false} StartedStep(events: seq<Event>, n: nat, state: State)
    requires n < |events| && SessionsDiffer(state.pending) && AllStarted(events, n, state.pending)
    ensures AllStarted(events, n + 1, state.Step(events[n]).pending)
  {
    forall q | q in state.Step(events[n]).pending
      ensures Started(events, n + 1, q.session, q.key, q.run)
    {
      PendingComesFrom(state, events[n], q);
    }
  }

  /** A prompt that starts has a run id that no pending prompt has. */
  lemma {:induction false} StartedRunIsNew(events: seq<Event>, n: nat, p: Pending)
    requires Proper(events) && n < |events| && events[n].PromptStarts? && Started(events, n, p.session, p.key, p.run)
    ensures p.run != events[n].run
  {
  }

  ghost predicate PendingFits(events: seq<Event>, n: nat, pending: seq<Pending>)
    requires n <= |events|
  {
    SessionsDiffer(pending) && RunsDiffer(pending) && AllStarted(events, n, pending)
  }

  lemma {:induction false} PendingStep(events: seq<Event>, n: nat, state: State)
    requires Proper(events) && n < |events| && PendingFits(events, n, state.pending)
    ensures PendingFits(events, n + 1, state.Step(events[n]).pending)
  {
    if events[n].PromptStarts? {
      forall p | p in state.pending
        ensures p.run != events[n].run
      {
        StartedRunIsNew(events, n, p);
      }
    }
    SessionsStayDifferent(state, events[n]);
    RunsStayDifferent(state, events[n]);
    StartedStep(events, n, state);
  }

  lemma {:induction false} TraceStep(events: seq<Event>, states: seq<State>, n: nat)
    requires Trace(events, states) && n < |events|
    ensures states[n + 1] == states[n].Step(events[n])
  {
  }

  ghost predicate StepFits(events: seq<Event>, states: seq<State>, m: nat)
    requires m < |events| && |states| == |events| + 1
  {
    PendingFits(events, m, states[m].pending) ==> PendingFits(events, m + 1, states[m + 1].pending)
  }

  lemma {:induction false} StepsFit(events: seq<Event>, states: seq<State>, n: nat)
    requires n <= |events| && |states| == |events| + 1 && PendingFits(events, 0, states[0].pending)
    requires forall m :: 0 <= m < n ==> StepFits(events, states, m)
    ensures PendingFits(events, n, states[n].pending)
  {
    if n > 0 {
      StepsFit(events, states, n - 1);
      assert StepFits(events, states, n - 1);
    }
  }

  lemma {:induction false} EachStepFits(events: seq<Event>, states: seq<State>, m: nat)
    requires Trace(events, states) && Proper(events) && m < |events|
    ensures StepFits(events, states, m)
  {
    if PendingFits(events, m, states[m].pending) {
      TraceStep(events, states, m);
      PendingStep(events, m, states[m]);
    }
  }

  lemma {:induction false} FitsThroughout(events: seq<Event>, states: seq<State>, n: nat)
    requires Trace(events, states) && Proper(events) && n <= |events|
    ensures PendingFits(events, n, states[n].pending)
  {
    forall m | 0 <= m < n
      ensures StepFits(events, states, m)
    {
      EachStepFits(events, states, m);
    }
    StepsFit(events, states, n);
  }

  /** In every state: one entry for each session, one for each run, and all of them started. */
  lemma {:induction false} PendingThroughout(events: seq<Event>, states: seq<State>, n: nat)
    requires Trace(events, states) && Proper(events) && n <= |events|
    ensures SessionsDiffer(states[n].pending) && RunsDiffer(states[n].pending) && AllStarted(events, n, states[n].pending)
  {
    FitsThroughout(events, states, n);
  }

  lemma {:induction false} AnswersStay(state: State, event: Event, run: RunId)
    requires run in state.answers
    ensures run in state.Step(event).answers
  {
    if event.GatewayDisconnects? {
      SettleAllKeeps(state.answers, state.pending, run);
    }
  }

  /** The prompt is pending or answered. */
  ghost predicate Served(state: State, run: RunId) {
    Awaits(state.pending, run) || run in state.answers
  }

  /** If the prompt is served before event `n`, it is served behind it exactly when the event does not forget it
      before it is answered. */
  ghost predicate ServedOnIff(events: seq<Event>, states: seq<State>, n: nat, session: SessionId, run: RunId)
    requires n < |events| && |states| == |events| + 1
  {
    Served(states[n], run) ==>
      (Served(states[n + 1], run) <==> (Forgets(events[n], session, run) ==> run in states[n].answers))
  }

  lemma {:induction false} AwaitedServedIff(state: State, event: Event, session: SessionId, run: RunId, k: nat)
    requires SessionsDiffer(state.pending) && RunsDiffer(state.pending) && k < |state.pending|
    requires state.pending[k].session == session && state.pending[k].run == run && run !in state.answers
    requires event.PromptStarts? ==> event.run != run
    ensures Served(state.Step(event), run) <==> !Forgets(event, session, run)
  {
    ForgetsIff(state, event, k);
  }

  /** The run's entry is that of the session it was started for. */
  lemma {:induction false} AwaitedEntry(events: seq<Event>, states: seq<State>, a: nat, n: nat) returns (k: nat)
    requires Trace(events, states) && Proper(events) && a < n < |events| && events[a].PromptStarts?
    requires Awaits(states[n].pending, events[a].run)
    ensures k < |states[n].pending| && states[n].pending[k].session == events[a].session
    ensures states[n].pending[k].run == events[a].run
    ensures SessionsDiffer(states[n].pending) && RunsDiffer(states[n].pending)
  {
    PendingThroughout(events, states, n);
    k :| 0 <= k < |states[n].pending| && states[n].pending[k].run == events[a].run;
    assert states[n].pending[k] in states[n].pending;
  }

  lemma {:induction false} ServedStepIff(events: seq<Event>, states: seq<State>, a: nat, n: nat)
    requires Trace(events, states) && Proper(events) && a < n < |events| && events[a].PromptStarts?
    requires Served(states[n], events[a].run)
    ensures ServedOnIff(events, states, n, events[a].session, events[a].run)
  {
    var session, run := events[a].session, events[a].run;
    TraceStep(events, states, n);
    if run in states[n].answers {
      AnswersStay(states[n], events[n], run);
    } else {
      var k := AwaitedEntry(events, states, a, n);
      AwaitedServedIff(states[n], events[n], session, run, k);
    }
  }

  lemma {:induction false} ServedAtStart(events: seq<Event>, states: seq<State>, a: nat)
    requires Trace(events, states) && a < |events| && events[a].PromptStarts?
    ensures Served(states[a + 1], events[a].run)
  {
    assert states[a + 1] == states[a].Step(events[a]);
    var k := Position(states[a].pending, events[a].session);
    assert states[a + 1].pending[k].run == events[a].run;
  }

  ghost predicate ServedThroughout(states: seq<State>, a: nat, n: nat, run: RunId)
    requires n < |states|
  {
    forall m :: a < m <= n ==> Served(states[m], run)
  }

  /** No event forgets the prompt before it is answered. */
  ghost predicate NotForgotten(events: seq<Event>, states: seq<State>, a: nat, n: nat, session: SessionId, run: RunId)
    requires n <= |events| && n <= |states|
  {
    forall j :: a < j < n && Forgets(events[j], session, run) ==> run in states[j].answers
  }

  lemma {:induction false} StepsAddUp(events: seq<Event>, states: seq<State>, a: nat, n: nat, session: SessionId, run: RunId)
    requires a < n <= |events| && |states| == |events| + 1 && Served(states[a + 1], run)
    requires forall m :: a < m < n ==> ServedOnIff(events, states, m, session, run)
    ensures ServedThroughout(states, a, n, run) <==> NotForgotten(events, states, a, n, session, run)
  {
    if a + 1 < n {
      StepsAddUp(events, states, a, n - 1, session, run);
      assert ServedOnIff(events, states, n - 1, session, run);
    }
  }

  /** Over any run, a prompt is pending or answered at every moment exactly when, before it is answered, no
      other prompt of its session starts and no other request of its session fails. */
  lemma {:induction false} ServedThroughoutIff(events: seq<Event>, states: seq<State>, a: nat, n: nat)
    requires Trace(events, states) && Proper(events) && a < n <= |events| && events[a].PromptStarts?
    ensures ServedThroughout(states, a, n, events[a].run)
            <==> NotForgotten(events, states, a, n, events[a].session, events[a].run)
  {
    var session, run := events[a].session, events[a].run;
    forall m | a < m < n
      ensures ServedOnIff(events, states, m, session, run)
    {
      if Served(states[m], run) {
        ServedStepIff(events, states, a, m);
      }
    }
    ServedAtStart(events, states, a);
    StepsAddUp(events, states, a, n, session, run);
  }

  /** In particular, it is when there is no such event at all. */
  lemma {:induction false} AnsweredUnlessForgotten(events: seq<Event>, states: seq<State>, a: nat, n: nat)
    requires Trace(events, states) && Proper(events) && a < n <= |events| && events[a].PromptStarts?
    requires forall j :: a < j < n ==> !Forgets(events[j], events[a].session, events[a].run)
    ensures Awaits(states[n].pending, events[a].run) || events[a].run in states[n].answers
  {
    ServedThroughoutIff(events, states, a, n);
    assert Served(states[n], events[a].run);
  }

  // ---------------------------------------------------------------------------
  // Prompts do not mix
  // ---------------------------------------------------------------------------

  /** The event is a snapshot for this prompt. */
  predicate IsOwnDelta(event: Event, key: string, run: RunId) {
    event.Chat? && event.state.Delta? && event.key == key && (event.run == "" || event.run == run)
  }

  function OwnDeltas(events: seq<Event>, a: nat, n: nat, key: string, run: RunId): seq<string>
    requires a <= n <= |events|
  {
    if n == a then []
    else if IsOwnDelta(events[n - 1], key, run) then OwnDeltas(events, a, n - 1, key, run) + [events[n - 1].state.text]
    else OwnDeltas(events, a, n - 1, key, run)
  }

  /** Of the pending prompts, this one is the first with its key. */
  predicate FirstInLine(pending: seq<Pending>, key: string, run: RunId) {
    var k := FirstWithKey(pending, key);
    k < |pending| && pending[k].run == run
  }

  /** A chat event with a prompt's key, and with its run id or none, reaches that prompt exactly when no
      earlier pending prompt has the key. */
  lemma {:induction false} EventReachesIff(pending: seq<Pending>, k: nat, run: RunId)
    requires k < |pending| && (run == "" || run == pending[k].run)
    ensures Target(pending, pending[k].key, run) == Some(k) <==> FirstWithKey(pending, pending[k].key) == k
    ensures FirstWithKey(pending, pending[k].key) == k <==> forall i :: 0 <= i < k ==> pending[i].key != pending[k].key
  {
    FirstIsLeast(pending, pending[k].key);
  }

  lemma {:induction false} FirstIsLeast(pending: seq<Pending>, key: string)
    ensures forall i :: 0 <= i < FirstWithKey(pending, key) ==> pending[i].key != key
  {
    if pending != [] && pending[0].key != key {
      FirstIsLeast(pending[1..], key);
      assert pending == [pending[0]] + pending[1..];
    }
  }

  /** A longer snapshot for a pending prompt moves it on exactly when no earlier pending prompt has its key;
      otherwise it is lost to this prompt. */
  lemma {:induction false} SnapshotMovesIff(state: State, k: nat, run: RunId, text: string)
    requires SessionsDiffer(state.pending) && k < |state.pending| && (run == "" || run == state.pending[k].run)
    requires |text| > state.pending[k].progress.sentTextLength
    ensures var p, after := state.pending[k], state.Step(Chat(state.pending[k].key, run, Delta(text))).pending;
            && |after| == |state.pending|
            && (after[k] == p.(progress := p.progress.Delta(text)) <==> FirstWithKey(state.pending, p.key) == k)
            && (after[k] == p <==> FirstWithKey(state.pending, p.key) != k)
  {
    EventReachesIff(state.pending, k, run);
    var target := Target(state.pending, state.pending[k].key, run);
    if target.Some? {
      AdvanceKeepsSessions(state.pending, target.value, text);
    }
  }

  lemma {:induction false} SameRunIsSame(pending: seq<Pending>, k: nat, q: Pending)
    requires RunsDiffer(pending) && k < |pending| && q in pending && q.run == pending[k].run
    ensures q == pending[k]
  {
  }

  lemma {:induction false} DeltaProgress(pending: seq<Pending>, key: string, run: RunId, text: string, k: nat, q: Pending)
    requires SessionsDiffer(pending) && RunsDiffer(pending) && k < |pending|
    requires q in State(pending, map[]).Step(Chat(key, run, Delta(text))).pending && q.run == pending[k].run
    ensures var p := pending[k];
            q == if p.key == key && (run == "" || run == p.run) && FirstInLine(pending, key, p.run)
                 then p.(progress := p.progress.Delta(text)) else p
  {
    match Target(pending, key, run)
    case None => SameRunIsSame(pending, k, q);
    case Some(j) =>
      AdvanceKeepsSessions(pending, j, text);
      var next := pending[j := pending[j].(progress := pending[j].progress.Delta(text))];
      assert RunsDiffer(next) && next[k].run == pending[k].run;
      SameRunIsSame(next, k, q);
  }

  /** The event is a snapshot for this prompt, and comes while the prompt is the first with its key. */
  predicate Hears(pending: seq<Pending>, event: Event, key: string, run: RunId) {
    IsOwnDelta(event, key, run) && FirstInLine(pending, key, run)
  }

  /** Whatever happens, a pending prompt moves on with its own snapshots only, and only while it is the first
      with its key. */
  lemma {:induction false} ProgressStep(state: State, event: Event, k: nat, q: Pending)
    requires SessionsDiffer(state.pending) && RunsDiffer(state.pending) && k < |state.pending|
    requires event.PromptStarts? ==> event.run != state.pending[k].run
    requires q in state.Step(event).pending && q.run == state.pending[k].run
    ensures var p := state.pending[k];
            q == if Hears(state.pending, event, p.key, p.run) then p.(progress := p.progress.Delta(event.state.text)) else p
  {
    if event.Chat? && event.state.Delta? {
      DeltaProgress(state.pending, event.key, event.run, event.state.text, k, q);
    } else {
      OtherEventKeeps(state, event, q);
      SameRunIsSame(state.pending, k, q);
    }
  }

  /** The snapshots for a prompt that came while it was the first with its key. */
  function HeardDeltas(events: seq<Event>, states: seq<State>, a: nat, n: nat, key: string, run: RunId): seq<string>
    requires a <= n <= |events| && |states| == |events| + 1
  {
    if n == a then []
    else
      var before := HeardDeltas(events, states, a, n - 1, key, run);
      if Hears(states[n - 1].pending, events[n - 1], key, run) then before + [events[n - 1].state.text] else before
  }

  lemma {:induction false} HeardIsOwn(events: seq<Event>, states: seq<State>, a: nat, n: nat, key: string, run: RunId)
    requires a <= n <= |events| && |states| == |events| + 1
    ensures forall s :: s in HeardDeltas(events, states, a, n, key, run) ==> s in OwnDeltas(events, a, n, key, run)
  {
    if n > a {
      HeardIsOwn(events, states, a, n - 1, key, run);
    }
  }

  lemma {:induction false} AfterSnoc(snapshots: seq<string>, last: string)
    ensures After(snapshots + [last]) == After(snapshots).Delta(last)
  {
    assert (snapshots + [last])[..|snapshots|] == snapshots;
  }

  /** A run's entry was pending one event earlier, unless this event started the run. */
  lemma {:induction false} WasPending(events: seq<Event>, states: seq<State>, a: nat, n: nat, q: Pending) returns (k: nat)
    requires Trace(events, states) && Proper(events) && a + 1 < n <= |events| && events[a].PromptStarts?
    requires SessionsDiffer(states[n - 1].pending) && q in states[n].pending && q.run == events[a].run
    ensures k < |states[n - 1].pending| && Same(states[n - 1].pending[k], q)
  {
    assert states[n - 1 + 1] == states[n - 1].Step(events[n - 1]);
    PendingComesFrom(states[n - 1], events[n - 1], q);
    var p :| p in states[n - 1].pending && Same(p, q);
    k :| 0 <= k < |states[n - 1].pending| && states[n - 1].pending[k] == p;
  }

  lemma {:induction false} StartsWithNothing(events: seq<Event>, states: seq<State>, a: nat, q: Pending)
    requires Trace(events, states) && Proper(events) && a < |events| && events[a].PromptStarts?
    requires q in states[a + 1].pending && q.run == events[a].run
    ensures q.key == events[a].key && q.progress == NOTHING_SENT
  {
    PendingThroughout(events, states, a);
    assert states[a + 1] == states[a].Step(events[a]);
    assert q in states[a].pending ==> Started(events, a, q.session, q.key, q.run);
  }

  /** However the events of several prompts interleave, each one's progress is that of its own snapshots, as
      far as they came while it was the first with its key. */
  lemma {:induction false} ProgressIsHeard(events: seq<Event>, states: seq<State>, a: nat, n: nat, q: Pending)
    requires Trace(events, states) && Proper(events) && a < n <= |events| && events[a].PromptStarts?
    requires q in states[n].pending && q.run == events[a].run
    ensures q.key == events[a].key && q.progress == After(HeardDeltas(events, states, a + 1, n, events[a].key, q.run))
  {
    if n == a + 1 {
      StartsWithNothing(events, states, a, q);
    } else {
      PendingThroughout(events, states, n - 1);
      var k := WasPending(events, states, a, n, q);
      var p := states[n - 1].pending[k];
      ProgressIsHeard(events, states, a, n - 1, p);
      assert states[n - 1 + 1] == states[n - 1].Step(events[n - 1]);
      ProgressStep(states[n - 1], events[n - 1], k, q);
      if Hears(states[n - 1].pending, events[n - 1], p.key, p.run) {
        AfterSnoc(HeardDeltas(events, states, a + 1, n - 1, p.key, p.run), events[n - 1].state.text);
      }
    }
  }

  /** At every snapshot for the prompt it was the first with its key. */
  ghost predicate AlwaysFirst(events: seq<Event>, states: seq<State>, a: nat, n: nat, key: string, run: RunId)
    requires a <= n <= |events| && |states| == |events| + 1
  {
    forall j :: a <= j < n && IsOwnDelta(events[j], key, run) ==> FirstInLine(states[j].pending, key, run)
  }

  /** The prompt hears all its snapshots exactly when it is the first with its key at each of them. */
  lemma {:induction false} HearsAllIff(events: seq<Event>, states: seq<State>, a: nat, n: nat, key: string, run: RunId)
    requires a <= n <= |events| && |states| == |events| + 1
    ensures |HeardDeltas(events, states, a, n, key, run)| <= |OwnDeltas(events, a, n, key, run)|
    ensures HeardDeltas(events, states, a, n, key, run) == OwnDeltas(events, a, n, key, run)
            <==> AlwaysFirst(events, states, a, n, key, run)
  {
    if n > a {
      var heard, own := HeardDeltas(events, states, a, n - 1, key, run), OwnDeltas(events, a, n - 1, key, run);
      HearsAllIff(events, states, a, n - 1, key, run);
      if Hears(states[n - 1].pending, events[n - 1], key, run) {
        var text := events[n - 1].state.text;
        assert (heard + [text])[..|heard|] == heard && (own + [text])[..|own|] == own;
      }
    }
  }

  /** Then its progress is that of its own snapshots. */
  lemma {:induction false} ProgressIsOwn(events: seq<Event>, states: seq<State>, a: nat, n: nat, q: Pending)
    requires Trace(events, states) && Proper(events) && a < n <= |events| && events[a].PromptStarts?
    requires q in states[n].pending && q.run == events[a].run
    requires AlwaysFirst(events, states, a + 1, n, events[a].key, q.run)
    ensures q.key == events[a].key && q.progress == After(OwnDeltas(events, a + 1, n, events[a].key, q.run))
  {
    ProgressIsHeard(events, states, a, n, q);
    HearsAllIff(events, states, a + 1, n, events[a].key, q.run);
  }

  /** The chunks of a pending prompt make up the longest of its own snapshots, if these are of one growing text,
      exactly when one of that length came while the prompt was the first with its key. */
  lemma {:induction false} PromptReassemblesIff(events: seq<Event>, states: seq<State>, a: nat, n: nat, q: Pending, text: string)
    requires Trace(events, states) && Proper(events) && a < n <= |events| && events[a].PromptStarts?
    requires q in states[n].pending && q.run == events[a].run
    requires AllPrefixes(OwnDeltas(events, a + 1, n, events[a].key, q.run), text)
    ensures var own := OwnDeltas(events, a + 1, n, events[a].key, q.run);
            var heard := HeardDeltas(events, states, a + 1, n, events[a].key, q.run);
            && q.progress.emitted == Longest(heard) <= Longest(own)
            && (q.progress.emitted == Longest(own) <==> Longest(own) == "" || Longest(own) in heard)
  {
    var own := OwnDeltas(events, a + 1, n, events[a].key, q.run);
    var heard := HeardDeltas(events, states, a + 1, n, events[a].key, q.run);
    ProgressIsHeard(events, states, a, n, q);
    HeardIsOwn(events, states, a + 1, n, events[a].key, q.run);
    PrefixesReassemble(heard, text);
    PrefixesReassemble(own, text);
    LongestIsOne(heard);
    LongestIsOne(own);
    ShorterPrefix(Longest(heard), Longest(own), text);
  }

  lemma {:induction false} TwoPromptsPending()
    ensures var first, second := Pending("s1", "k", "r1", NOTHING_SENT), Pending("s2", "k", "r2", NOTHING_SENT);
            State([], map[]).Step(PromptStarts("s1", "k", "r1")).Step(PromptStarts("s2", "k", "r2"))
            == State([first, second], map[])
  {
    var first := Pending("s1", "k", "r1", NOTHING_SENT);
    assert State([], map[]).Step(PromptStarts("s1", "k", "r1")).pending == [first];
    assert Position([first], "s2") == 1;
  }

  /** A run where two sessions prompt on one key: the second one's snapshot and its final event are dropped,
      because the first entry with the key has another run id. */
  lemma {:induction false} SharedKeyDropsSnapshots()
    ensures exists states: seq<State> ::
              && Trace([PromptStarts("s1", "k", "r1"), PromptStarts("s2", "k", "r2"),
                        Chat("k", "r2", Delta("hi")), Chat("k", "r2", Final)], states)
              && states[4] == states[2] && |states[4].pending| == 2
              && states[4].pending[1] == Pending("s2", "k", "r2", NOTHING_SENT) && "r2" !in states[4].answers
  {
    var events := [PromptStarts("s1", "k", "r1"), PromptStarts("s2", "k", "r2"),
                   Chat("k", "r2", Delta("hi")), Chat("k", "r2", Final)];
    var s0 := State([], map[]);
    var s1 := s0.Step(events[0]);
    var s2 := s1.Step(events[1]);
    TwoPromptsPending();
    assert FirstWithKey(s2.pending, "k") == 0;
    assert Trace(events, [s0, s1, s2, s2, s2]);
  }

  // ---------------------------------------------------------------------------
  // The bridge's object
  // ---------------------------------------------------------------------------

  class GatewayAgent {
    /** The pending prompts, in insertion order, and the answers their promises have settled with. */
    var pendingPrompts: seq<Pending>
    var answers: map<RunId, Answer>

    function View(): State
      reads this
    {
      State(pendingPrompts, answers)
    }

    constructor ()
      ensures View() == State([], map[])
    {
      pendingPrompts, answers := [], map[];
    }

    method FindPendingBySessionKey(sessionKey: string) returns (k: nat)
      ensures k == FirstWithKey(pendingPrompts, sessionKey)
    {
      k := 0;
      while k < |pendingPrompts| && pendingPrompts[k].key != sessionKey
        invariant k <= |pendingPrompts|
        invariant FirstWithKey(pendingPrompts, sessionKey) == k + FirstWithKey(pendingPrompts[k..], sessionKey)
      {
        assert pendingPrompts[k..][1..] == pendingPrompts[k + 1..];
        k := k + 1;
      }
    }

    method Prompt(sessionId: SessionId, sessionKey: string, runId: RunId)
      modifies `pendingPrompts
      ensures View() == old(View()).Step(PromptStarts(sessionId, sessionKey, runId))
    {
      pendingPrompts := Put(pendingPrompts, Pending(sessionId, sessionKey, runId, NOTHING_SENT));
    }

    method OnRequestFailed(sessionId: SessionId, runId: RunId)
      modifies this
      ensures View() == old(View()).Step(RequestFails(sessionId, runId))
    {
      pendingPrompts := Drop(pendingPrompts, sessionId);
      answers := Settle(answers, runId, RequestFailed);
    }

    method FinishPrompt(sessionId: SessionId, runId: RunId, answer: Answer)
      modifies this
      ensures pendingPrompts == Drop(old(pendingPrompts), sessionId) && answers == Settle(old(answers), runId, answer)
    {
      pendingPrompts := Drop(pendingPrompts, sessionId);
      answers := Settle(answers, runId, answer);
    }

    method HandleDeltaEvent(sessionId: SessionId, fullText: string)
      modifies `pendingPrompts
      ensures var j := Position(old(pendingPrompts), sessionId);
              pendingPrompts ==
              if j < |old(pendingPrompts)|
              then old(pendingPrompts)[j := old(pendingPrompts)[j].(progress := old(pendingPrompts)[j].progress.Delta(fullText))]
              else old(pendingPrompts)
    {
      var j := Position(pendingPrompts, sessionId);
      if j == |pendingPrompts| {
        return;
      }
      var pending := pendingPrompts[j];
      var sentSoFar := pending.progress.sentTextLength;
      if |fullText| <= sentSoFar {
        return;
      }
      var newText := fullText[sentSoFar..];
      pending := pending.(progress := Progress(|fullText|, fullText, pending.progress.emitted + newText));
      pendingPrompts := pendingPrompts[j := pending];
    }

    method HandleChatEvent(sessionKey: string, runId: RunId, state: ChatState)
      modifies this
      ensures View() == old(View()).Step(Chat(sessionKey, runId, state))
    {
      var k := FindPendingBySessionKey(sessionKey);
      if k == |pendingPrompts| {
        return;
      }
      var pending := pendingPrompts[k];
      if runId != "" && pending.run != runId {
        return;
      }
      match state
      case Delta(text) => HandleDeltaEvent(pending.session, text);
      case Final => FinishPrompt(pending.session, pending.run, EndTurn);
      case Aborted => FinishPrompt(pending.session, pending.run, Cancelled);
      case Error => FinishPrompt(pending.session, pending.run, Refusal);
      case OtherState =>
    }

    method OnCancelled(sessionId: SessionId)
      modifies this
      ensures View() == old(View()).Step(CancelEnds(sessionId))
    {
      var k := Position(pendingPrompts, sessionId);
      if k < |pendingPrompts| {
        FinishPrompt(sessionId, pendingPrompts[k].run, Cancelled);
      }
    }

    method HandleGatewayDisconnect()
      modifies this
      ensures View() == old(View()).Step(GatewayDisconnects)
    {
      var k := 0;
      while k < |pendingPrompts|
        invariant k <= |pendingPrompts| && pendingPrompts == old(pendingPrompts)
        invariant SettleAll(answers, pendingPrompts[k..]) == SettleAll(old(answers), pendingPrompts)
      {
        assert pendingPrompts[k..][1..] == pendingPrompts[k + 1..];
        answers := Settle(answers, pendingPrompts[k].run, Disconnected);
        k := k + 1;
      }
      pendingPrompts := [];
    }
  }
}
