/** Which answer every event gives to every pending prompt (src/acp/translator.ts). */
module PromptAnswers {
  import opened Wrappers
  import opened Streaming

  // ---------------------------------------------------------------------------
  // One event
  // ---------------------------------------------------------------------------

  function AnswerOf(answers: map<RunId, Answer>, run: RunId): Option<Answer> {
    if run in answers then Some(answers[run]) else None
  }

  /** No earlier entry has the key of entry `k`. */
  predicate FirstWithItsKey(pending: seq<Pending>, k: nat)
    requires k < |pending|
  {
    forall i :: 0 <= i < k ==> pending[i].key != pending[k].key
  }

  /** What ends a prompt, by the state of the chat event that reaches it. */
  function StopReason(state: ChatState): Option<Answer> {
    match state
    case Final => Some(EndTurn)
    case Aborted => Some(Cancelled)
    case Error => Some(Refusal)
    case _ => None
  }

  /** The answer the event gives to entry `k`: a chat event must name its key, and its run or none, and no entry
      before it may have the key. */
  function AnswerFor(pending: seq<Pending>, event: Event, k: nat): Option<Answer>
    requires k < |pending|
  {
    match event
    case PromptStarts(_, _, _) => None
    case RequestFails(_, run) => if run == pending[k].run then Some(RequestFailed) else None
    case CancelEnds(session) => if session == pending[k].session then Some(Cancelled) else None
    case GatewayDisconnects => Some(Disconnected)
    case Chat(key, run, state) =>
      if key == pending[k].key && (run == "" || run == pending[k].run) && FirstWithItsKey(pending, k)
      then StopReason(state) else None
  }

  lemma {:induction false} SettleAllGives(answers: map<RunId, Answer>, pending: seq<Pending>, k: nat)
    requires RunsDiffer(pending) && k < |pending| && pending[k].run !in answers
    ensures AnswerOf(SettleAll(answers, pending), pending[k].run) == Some(Disconnected)
    decreases |pending|
  {
    var next := Settle(answers, pending[0].run, Disconnected);
    if k == 0 {
      SettleAllStays(next, pending[1..], pending[0].run);
    } else {
      SettleAllGives(next, pending[1..], k - 1);
    }
  }

  lemma {:induction false} SettleAllStays(answers: map<RunId, Answer>, pending: seq<Pending>, run: RunId)
    requires run in answers
    ensures AnswerOf(SettleAll(answers, pending), run) == Some(answers[run])
    decreases |pending|
  {
    if pending != [] {
      SettleAllStays(Settle(answers, pending[0].run, Disconnected), pending[1..], run);
    }
  }

  lemma {:induction false} FinishAnswers(state: State, j: nat, answer: Answer, k: nat)
    requires SessionsDiffer(state.pending) && RunsDiffer(state.pending) && j < |state.pending| && k < |state.pending|
    requires state.pending[k].run !in state.answers
    ensures AnswerOf(state.Finish(j, answer).answers, state.pending[k].run) == if j == k then Some(answer) else None
    ensures Awaits(state.Finish(j, answer).pending, state.pending[k].run) <==> j != k
  {
    DropIff(state.pending, state.pending[j].session, k);
  }

  lemma {:induction false} TargetIff(pending: seq<Pending>, key: string, run: RunId, k: nat)
    requires k < |pending|
    ensures Target(pending, key, run) == Some(k) <==>
            key == pending[k].key && (run == "" || run == pending[k].run) && FirstWithItsKey(pending, k)
  {
    if key == pending[k].key && (run == "" || run == pending[k].run) {
      EventReachesIff(pending, k, run);
    }
  }

  lemma {:induction false} ChatAnswers(state: State, key: string, run: RunId, chat: ChatState, k: nat)
    requires SessionsDiffer(state.pending) && RunsDiffer(state.pending) && k < |state.pending|
    requires state.pending[k].run !in state.answers
    ensures var answer := AnswerFor(state.pending, Chat(key, run, chat), k);
            var next := state.Step(Chat(key, run, chat));
            && AnswerOf(next.answers, state.pending[k].run) == answer
            && (Awaits(next.pending, state.pending[k].run) <==> answer == None)
  {
    TargetIff(state.pending, key, run, k);
    assert Awaits(state.pending, state.pending[k].run);
    match Target(state.pending, key, run)
    case None =>
    case Some(j) =>
      match chat
      case Delta(text) => AdvanceAwaits(state.pending, j, text, k);
      case Final => FinishAnswers(state, j, EndTurn, k);
      case Aborted => FinishAnswers(state, j, Cancelled, k);
      case Error => FinishAnswers(state, j, Refusal, k);
      case OtherState =>
  }

  lemma {:induction false} CancelAnswers(state: State, session: SessionId, k: nat)
    requires SessionsDiffer(state.pending) && RunsDiffer(state.pending) && k < |state.pending|
    requires state.pending[k].run !in state.answers
    ensures var answer := AnswerFor(state.pending, CancelEnds(session), k);
            var next := state.Step(CancelEnds(session));
            && AnswerOf(next.answers, state.pending[k].run) == answer
            && (Awaits(next.pending, state.pending[k].run) <==> answer == None)
  {
    assert Awaits(state.pending, state.pending[k].run);
    var j := Position(state.pending, session);
    if session == state.pending[k].session {
      PositionIs(state.pending, k);
    }
    if j < |state.pending| {
      FinishAnswers(state, j, Cancelled, k);
    }
  }

  /** The event could come in a run: a new prompt has a new run, and a failing request is that of the entry. */
  predicate Fits(event: Event, p: Pending) {
    && (event.PromptStarts? ==> event.run != p.run)
    && (event.RequestFails? && event.run == p.run ==> event.session == p.session)
  }

  /** Every event gives a pending prompt exactly this answer, and the prompt stays pending exactly when it gets
      none and is not forgotten. */
  lemma {:induction false} EventAnswers(state: State, event: Event, k: nat)
    requires SessionsDiffer(state.pending) && RunsDiffer(state.pending) && k < |state.pending|
    requires state.pending[k].run !in state.answers && Fits(event, state.pending[k])
    ensures var p, answer := state.pending[k], AnswerFor(state.pending, event, k);
            && AnswerOf(state.Step(event).answers, p.run) == answer
            && (Awaits(state.Step(event).pending, p.run) <==> answer == None && !Forgets(event, p.session, p.run))
  {
    match event
    case PromptStarts(session, key, run) => PutIff(state.pending, Pending(session, key, run, NOTHING_SENT), k);
    case RequestFails(session, _) => DropIff(state.pending, session, k);
    case CancelEnds(session) => CancelAnswers(state, session, k);
    case GatewayDisconnects => SettleAllGives(state.answers, state.pending, k);
    case Chat(key, run, chat) => ChatAnswers(state, key, run, chat, k);
  }

  /** A promise settles once: an answer is never replaced. */
  lemma {:induction false} AnswerIsKept(state: State, event: Event, run: RunId)
    requires run in state.answers
    ensures AnswerOf(state.Step(event).answers, run) == Some(state.answers[run])
  {
    if event.GatewayDisconnects? {
      SettleAllStays(state.answers, state.pending, run);
    }
  }

  /** The map keeps the place of a session that has an entry, and puts a new one last. */
  lemma {:induction false} PutPlaces(pending: seq<Pending>, p: Pending, k: nat)
    requires SessionsDiffer(pending)
    ensures k < |pending| && pending[k].session == p.session ==> Put(pending, p) == pending[k := p]
    ensures (forall q :: q in pending ==> q.session != p.session) ==> Put(pending, p) == pending + [p]
  {
    if k < |pending| && pending[k].session == p.session {
      PositionIs(pending, k);
    }
    PositionNone(pending, p.session);
  }

  // ---------------------------------------------------------------------------
  // Whole runs
  // ---------------------------------------------------------------------------

  /** One of the first `n` events started the run. */
  ghost predicate HasStarted(events: seq<Event>, n: nat, run: RunId)
    requires n <= |events|
  {
    exists j :: 0 <= j < n && events[j].PromptStarts? && events[j].run == run
  }

  /** Only runs that have started are answered, and none that is pending. */
  ghost predicate AnswersFit(events: seq<Event>, n: nat, state: State)
    requires n <= |events|
  {
    && (forall run :: run in state.answers ==> HasStarted(events, n, run))
    && (forall p :: p in state.pending ==> p.run !in state.answers)
  }

  /** Only a pending prompt, or the one whose request fails, gets an answer. */
  lemma {:induction false} SettleAllFrom(answers: map<RunId, Answer>, pending: seq<Pending>, run: RunId)
    requires run in SettleAll(answers, pending)
    ensures run in answers || exists p :: p in pending && p.run == run
    decreases |pending|
  {
    if pending != [] {
      SettleAllFrom(Settle(answers, pending[0].run, Disconnected), pending[1..], run);
      assert pending == [pending[0]] + pending[1..];
    }
  }

  lemma {:induction false} OnlyPendingAnswered(state: State, event: Event, run: RunId)
    requires run in state.Step(event).answers && run !in state.answers
    ensures (event.RequestFails? && event.run == run) || exists p :: p in state.pending && p.run == run
  {
    match event
    case PromptStarts(_, _, _) =>
    case RequestFails(_, _) =>
    case CancelEnds(session) => assert state.pending[Position(state.pending, session)] in state.pending;
    case GatewayDisconnects => SettleAllFrom(state.answers, state.pending, run);
    case Chat(key, r, _) => assert state.pending[Target(state.pending, key, r).value] in state.pending;
  }

  lemma {:induction false} AnswersWereStarted(events: seq<Event>, n: nat, state: State, run: RunId)
    requires Proper(events) && n < |events| && PendingFits(events, n, state.pending) && AnswersFit(events, n, state)
    requires run in state.Step(events[n]).answers
    ensures HasStarted(events, n + 1, run)
  {
    if run !in state.answers {
      OnlyPendingAnswered(state, events[n], run);
      AnsweredHasStarted(events, n, state, run);
    }
    var j :| 0 <= j < n && events[j].PromptStarts? && events[j].run == run;
  }

  lemma {:induction false} AnsweredHasStarted(events: seq<Event>, n: nat, state: State, run: RunId)
    requires Proper(events) && n < |events| && PendingFits(events, n, state.pending)
    requires (events[n].RequestFails? && events[n].run == run) || exists p :: p in state.pending && p.run == run
    ensures HasStarted(events, n, run)
  {
    if p :| p in state.pending && p.run == run {
      assert Started(events, n, p.session, p.key, run);
    }
  }

  lemma {:induction false} ProperFits(events: seq<Event>, n: nat, p: Pending)
    requires Proper(events) && n < |events| && Started(events, n, p.session, p.key, p.run)
    ensures Fits(events[n], p)
  {
    var i :| 0 <= i < n && events[i] == PromptStarts(p.session, p.key, p.run);
    if events[n].RequestFails? && events[n].run == p.run {
      var key :| Started(events, n, events[n].session, key, p.run);
      var j :| 0 <= j < n && events[j] == PromptStarts(events[n].session, key, p.run);
      assert i == j;
    }
  }

  lemma {:induction false} StillUnanswered(events: seq<Event>, n: nat, state: State, q: Pending)
    requires Proper(events) && n < |events| && PendingFits(events, n, state.pending) && AnswersFit(events, n, state)
    requires q in state.Step(events[n]).pending && IsPending(state.pending, q)
    ensures q.run !in state.Step(events[n]).answers
  {
    var p :| p in state.pending && Same(p, q);
    var k :| 0 <= k < |state.pending| && state.pending[k] == p;
    ProperFits(events, n, p);
    EventAnswers(state, events[n], k);
    var j :| 0 <= j < |state.Step(events[n]).pending| && state.Step(events[n]).pending[j] == q;
    assert Awaits(state.Step(events[n]).pending, p.run);
  }

  lemma {:induction false} NewIsUnanswered(events: seq<Event>, n: nat, state: State)
    requires Proper(events) && n < |events| && events[n].PromptStarts? && AnswersFit(events, n, state)
    ensures events[n].run !in state.Step(events[n]).answers
  {
    assert !HasStarted(events, n, events[n].run);
  }

  lemma {:induction false} AnswersFitStep(events: seq<Event>, n: nat, state: State)
    requires Proper(events) && n < |events| && PendingFits(events, n, state.pending) && AnswersFit(events, n, state)
    ensures AnswersFit(events, n + 1, state.Step(events[n]))
  {
    forall run | run in state.Step(events[n]).answers
      ensures HasStarted(events, n + 1, run)
    {
      AnswersWereStarted(events, n, state, run);
    }
    forall q | q in state.Step(events[n]).pending
      ensures q.run !in state.Step(events[n]).answers
    {
      PendingComesFrom(state, events[n], q);
      if IsPending(state.pending, q) {
        StillUnanswered(events, n, state, q);
      } else {
        NewIsUnanswered(events, n, state);
      }
    }
  }

  ghost predicate AnswerStepFits(events: seq<Event>, states: seq<State>, m: nat)
    requires m < |events| && |states| == |events| + 1
  {
    AnswersFit(events, m, states[m]) ==> AnswersFit(events, m + 1, states[m + 1])
  }

  lemma {:induction false} EachAnswerStepFits(events: seq<Event>, states: seq<State>, m: nat)
    requires Trace(events, states) && Proper(events) && m < |events|
    ensures AnswerStepFits(events, states, m)
  {
    if AnswersFit(events, m, states[m]) {
      FitsThroughout(events, states, m);
      TraceStep(events, states, m);
      AnswersFitStep(events, m, states[m]);
    }
  }

  lemma {:induction false} AnswerStepsFit(events: seq<Event>, states: seq<State>, n: nat)
    requires n <= |events| && |states| == |events| + 1 && AnswersFit(events, 0, states[0])
    requires forall m :: 0 <= m < n ==> AnswerStepFits(events, states, m)
    ensures AnswersFit(events, n, states[n])
  {
    if n > 0 {
      AnswerStepsFit(events, states, n - 1);
      assert AnswerStepFits(events, states, n - 1);
    }
  }

  lemma {:induction false} AnswersFitThroughout(events: seq<Event>, states: seq<State>, n: nat)
    requires Trace(events, states) && Proper(events) && n <= |events|
    ensures AnswersFit(events, n, states[n])
  {
    forall m | 0 <= m < n
      ensures AnswerStepFits(events, states, m)
    {
      EachAnswerStepFits(events, states, m);
    }
    AnswerStepsFit(events, states, n);
  }

  /** In every run, each pending prompt is unanswered, the next event gives it exactly the answer it is due, and
      it stays pending exactly when that is none and nothing forgets it. */
  lemma {:induction false} NextAnswer(events: seq<Event>, states: seq<State>, n: nat, k: nat)
    requires Trace(events, states) && Proper(events) && n < |events| && k < |states[n].pending|
    ensures var p, answer := states[n].pending[k], AnswerFor(states[n].pending, events[n], k);
            && p.run !in states[n].answers
            && AnswerOf(states[n + 1].answers, p.run) == answer
            && (Awaits(states[n + 1].pending, p.run) <==> answer == None && !Forgets(events[n], p.session, p.run))
  {
    AnswersFitThroughout(events, states, n);
    PendingThroughout(events, states, n);
    TraceStep(events, states, n);
    ProperFits(events, n, states[n].pending[k]);
    EventAnswers(states[n], events[n], k);
  }

  /** And an answer, once given, is the prompt's for good. */
  lemma {:induction false} AnswerIsFinal(events: seq<Event>, states: seq<State>, m: nat, n: nat, run: RunId)
    requires Trace(events, states) && m <= n <= |events| && run in states[m].answers
    ensures AnswerOf(states[n].answers, run) == Some(states[m].answers[run])
  {
    if m < n {
      AnswerIsFinal(events, states, m, n - 1, run);
      TraceStep(events, states, n - 1);
      AnswerIsKept(states[n - 1], events[n - 1], run);
    }
  }
}
