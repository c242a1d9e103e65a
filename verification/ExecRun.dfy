/** One exec run under every interleaving (src/agents/bash-tools.exec.ts). */
module ExecRun {
  import opened Wrappers
  import opened ProcessStatus

  datatype Outcome = Outcome(status: Status, exitCode: Option<int>, exitSignal: Option<Signal>, timedOut: bool)

  /** What the tool call is answered with: "running", or the outcome's result or error. */
  datatype Answer = Running | Finished(outcome: Outcome)

  datatype Timer = Unset | Armed | Fired | Cleared {
    function Clear(): Timer {
      if Armed? then Cleared else this
    }
  }

  /** What the caller decides: whether the run is timed, whether and when it may yield to the background, and
      whether exits of background runs are announced. */
  datatype Config = Config(timed: bool, yieldWindow: Option<nat>, notifies: bool)

  datatype Event =
    | TimeoutFires
    | FinalizeFires
    | Exit(code: Option<int>, signal: Option<Signal>)
    | ChildError       // the child's `error` event: taken as possible at any time, because the code listens for it
    | YieldFires
    | Deliver          // the callback of the settled promise
    | ToolKill         // `kill` of the process tool
    | ToolRemove       // `remove` of the process tool

  // ---------------------------------------------------------------------------
  // The run as a value: what each group of variables makes of an event
  // ---------------------------------------------------------------------------

  /** The registry's side of the session. */
  datatype Session = Session(
    exited: bool, exitCode: Option<int>, exitSignal: Option<Signal>, backgrounded: bool, exitNotified: bool,
    listed: bool, record: Option<Status>, notices: seq<Status>)
  {
    function MarkExited(code: Option<int>, signal: Option<Signal>, status: Status): Session {
      Session(true, code, signal, backgrounded, exitNotified, false, if backgrounded then Some(status) else record, notices)
    }

    function Notify(config: Config, status: Status): Session {
      if !backgrounded || !config.notifies || exitNotified then this
      else this.(exitNotified := true, notices := notices + [status])
    }

    function Step(config: Config, timedOut: bool, yielded: bool, event: Event): Session {
      match event
      case TimeoutFires => this
      case FinalizeFires =>
        if exited then this else MarkExited(None, Some(SIGKILL), Failed).Notify(config, Failed)
      case Exit(code, signal) =>
        var status := ExitStatus(code, signal, timedOut);
        MarkExited(code, signal, status).Notify(config, status)
      case ChildError => MarkExited(None, None, Failed).Notify(config, Failed)
      case YieldFires => if yielded then this else this.(backgrounded := true)
      case Deliver => this
      case ToolKill => MarkExited(None, Some(SIGKILL), Failed)
      case ToolRemove => MarkExited(None, Some(SIGKILL), Failed)
    }
  }

  /** Only an exit with code zero, without a signal, and before the timeout, is a success. */
  function ExitStatus(code: Option<int>, signal: Option<Signal>, timedOut: bool): Status {
    if code == Some(0) && signal.None? && !timedOut then Completed else Failed
  }

  datatype Clock = Clock(timedOut: bool, timeoutTimer: Timer, finalizeTimer: Timer) {
    function Clear(): Clock {
      Clock(timedOut, timeoutTimer.Clear(), finalizeTimer.Clear())
    }

    function Step(event: Event): Clock {
      match event
      case TimeoutFires => Clock(true, Fired, if finalizeTimer.Unset? then Armed else finalizeTimer)
      case FinalizeFires => this.(finalizeTimer := Fired)
      case Exit(_, _) => Clear()
      case ChildError => Clear()
      case _ => this
    }
  }

  /** The promise of the outcome: `resolved` lists every call of its resolve function. */
  datatype Promise = Promise(settled: bool, resolved: seq<Outcome>) {
    function Settle(outcome: Outcome): Promise {
      if settled then this else Promise(true, resolved + [outcome])
    }

    function Step(exited: bool, timedOut: bool, event: Event): Promise {
      match event
      case FinalizeFires => if exited then this else Settle(Outcome(Failed, None, Some(SIGKILL), true))
      case Exit(code, signal) => Settle(Outcome(ExitStatus(code, signal, timedOut), code, signal, timedOut))
      case ChildError => Settle(Outcome(Failed, None, None, timedOut))
      case _ => this
    }
  }

  /** The tool call: `answers` lists every call of its resolve and reject functions. */
  datatype Call = Call(yielded: bool, yieldTimer: Timer, delivered: bool, answers: seq<Answer>) {
    function Yield(): Call {
      Call(true, yieldTimer.Clear(), delivered, answers + [Running])
    }

    function Step(backgrounded: bool, outcome: Option<Outcome>, event: Event): Call {
      match event
      case YieldFires =>
        var fired := this.(yieldTimer := Fired);
        if yielded then fired else fired.Yield()
      case Deliver =>
        Call(yielded, yieldTimer.Clear(), true,
             if yielded || backgrounded || outcome.None? then answers else answers + [Finished(outcome.value)])
      case _ => this
    }
  }

  datatype State = State(session: Session, clock: Clock, promise: Promise, call: Call) {
    predicate Enabled(event: Event) {
      match event
      case TimeoutFires => clock.timeoutTimer.Armed?
      case FinalizeFires => clock.finalizeTimer.Armed?
      case YieldFires => call.yieldTimer.Armed?
      case Deliver => promise.resolved != [] && !call.delivered
      case ToolKill => session.listed && session.backgrounded
      case ToolRemove => session.listed
      case Exit(_, _) => true
      case ChildError => true
    }

    function Step(config: Config, event: Event): State {
      State(
        session.Step(config, clock.timedOut, call.yielded, event),
        clock.Step(event),
        promise.Step(session.exited, clock.timedOut, event),
        call.Step(session.backgrounded, First(promise.resolved), event))
    }
  }

  function First<T>(s: seq<T>): Option<T> {
    if s == [] then None else Some(s[0])
  }

  /** Where a run stands when `execute` has set it up: with a yield window of zero it yields at once. */
  function Initial(config: Config): State {
    var now := config.yieldWindow == Some(0);
    State(
      Session(false, None, None, now, false, true, None, []),
      Clock(false, if config.timed then Armed else Unset, Unset),
      Promise(false, []),
      if now then Call(true, Unset, false, [Running])
      else Call(false, if config.yieldWindow.Some? then Armed else Unset, false, []))
  }

  /** An event that can happen takes one state to the next. */
  predicate Transition(config: Config, before: State, event: Event, after: State) {
    before.Enabled(event) && after == before.Step(config, event)
  }

  /** The states a run goes through as the events happen one after the other. */
  predicate Trace(config: Config, events: seq<Event>, states: seq<State>) {
    && |states| == |events| + 1 && states[0] == Initial(config)
    && forall k :: 0 <= k < |events| ==> Transition(config, states[k], events[k], states[k + 1])
  }

  // ---------------------------------------------------------------------------
  // The closures over their shared variables
  // ---------------------------------------------------------------------------

  /** The variables the closures share, grouped as they belong together. */
  class Execution {
    const config: Config
    var session: Session
    var clock: Clock
    var promise: Promise
    var call: Call

    function View(): State
      reads this
    {
      State(session, clock, promise, call)
    }

    constructor (config: Config)
      ensures this.config == config && View() == Initial(config)
    {
      this.config := config;
      session := Session(false, None, None, false, false, true, None, []);
      clock := Clock(false, if config.timed then Armed else Unset, Unset);
      promise := Promise(false, []);
      call := Call(false, Unset, false, []);
      new;
      if config.yieldWindow.Some? {
        if config.yieldWindow.value == 0 {
          OnYieldNow();
        } else {
          call := call.(yieldTimer := Armed);
        }
      }
    }

    method MarkExited(code: Option<int>, signal: Option<Signal>, status: Status)
      modifies `session
      ensures session == old(session).MarkExited(code, signal, status)
    {
      session := session.(exited := true, exitCode := code, exitSignal := signal);
      MoveToFinished(status);
    }

    method MoveToFinished(status: Status)
      modifies `session
      ensures session == old(session).(listed := false, record := if old(session).backgrounded then Some(status) else old(session).record)
    {
      session := session.(listed := false);
      if !session.backgrounded {
        return;
      }
      session := session.(record := Some(status));
    }

    method MaybeNotifyOnExit(status: Status)
      modifies `session
      ensures session == old(session).Notify(config, status)
    {
      if !session.backgrounded || !config.notifies || session.exitNotified {
        return;
      }
      session := session.(exitNotified := true);
      session := session.(notices := session.notices + [status]);
    }

    method Settle(outcome: Outcome)
      modifies `promise
      ensures promise == old(promise).Settle(outcome)
    {
      if promise.settled {
        return;
      }
      promise := Promise(true, promise.resolved + [outcome]);
    }

    method OnTimeout()
      requires View().Enabled(TimeoutFires)
      modifies this
      ensures View() == old(View()).Step(config, TimeoutFires)
    {
      clock := clock.(timeoutTimer := Fired);
      clock := clock.(timedOut := true);
      if clock.finalizeTimer.Unset? {
        clock := clock.(finalizeTimer := Armed);
      }
    }

    method FinalizeTimeout()
      requires View().Enabled(FinalizeFires)
      modifies this
      ensures View() == old(View()).Step(config, FinalizeFires)
    {
      clock := clock.(finalizeTimer := Fired);
      if session.exited {
        return;
      }
      MarkExited(None, Some(SIGKILL), Failed);
      MaybeNotifyOnExit(Failed);
      Settle(Outcome(Failed, None, Some(SIGKILL), true));
    }

    method HandleExit(code: Option<int>, signal: Option<Signal>)
      modifies this
      ensures View() == old(View()).Step(config, Exit(code, signal))
    {
      clock := clock.(timeoutTimer := clock.timeoutTimer.Clear());
      clock := clock.(finalizeTimer := clock.finalizeTimer.Clear());
      var wasSignal := signal.Some?;
      var isSuccess := code == Some(0) && !wasSignal && !clock.timedOut;
      var status := if isSuccess then Completed else Failed;
      MarkExited(code, signal, status);
      MaybeNotifyOnExit(status);
      if promise.settled {
        return;
      }
      if !isSuccess {
        Settle(Outcome(Failed, code, signal, clock.timedOut));
        return;
      }
      Settle(Outcome(Completed, code, signal, false));
    }

    method HandleError()
      modifies this
      ensures View() == old(View()).Step(config, ChildError)
    {
      clock := clock.(timeoutTimer := clock.timeoutTimer.Clear());
      clock := clock.(finalizeTimer := clock.finalizeTimer.Clear());
      MarkExited(None, None, Failed);
      MaybeNotifyOnExit(Failed);
      Settle(Outcome(Failed, None, None, clock.timedOut));
    }

    method OnYieldNow()
      modifies `session, `call
      ensures call == if old(call).yielded then old(call).(yieldTimer := old(call).yieldTimer.Clear()) else old(call).Yield()
      ensures session == if old(call).yielded then old(session) else old(session).(backgrounded := true)
    {
      call := call.(yieldTimer := call.yieldTimer.Clear());
      if call.yielded {
        return;
      }
      call := call.(yielded := true);
      session := session.(backgrounded := true);
      call := call.(answers := call.answers + [Running]);
    }

    method OnYieldTimer()
      requires View().Enabled(YieldFires)
      modifies this
      ensures View() == old(View()).Step(config, YieldFires)
    {
      call := call.(yieldTimer := Fired);
      if call.yielded {
        return;
      }
      call := call.(yielded := true);
      session := session.(backgrounded := true);
      call := call.(answers := call.answers + [Running]);
    }

    method OnOutcome()
      requires View().Enabled(Deliver)
      modifies this
      ensures View() == old(View()).Step(config, Deliver)
    {
      call := call.(delivered := true);
      call := call.(yieldTimer := call.yieldTimer.Clear());
      if call.yielded || session.backgrounded {
        return;
      }
      call := call.(answers := call.answers + [Finished(promise.resolved[0])]);
    }

    /** `kill` and `remove` of the process tool act on the session only. */
    method KillOrRemove(event: Event)
      requires event in {ToolKill, ToolRemove} && View().Enabled(event)
      modifies this
      ensures View() == old(View()).Step(config, event)
    {
      MarkExited(None, Some(SIGKILL), Failed);
    }
  }

  // ---------------------------------------------------------------------------
  // What the first `n` events mean, without the run's variables
  // ---------------------------------------------------------------------------

  predicate Happened(events: seq<Event>, n: nat, event: Event)
    requires n <= |events|
  {
    n > 0 && (events[n - 1] == event || Happened(events, n - 1, event))
  }

  /** Something has marked the session as exited. */
  predicate Marked(events: seq<Event>, n: nat)
    requires n <= |events|
  {
    n > 0 && (Marked(events, n - 1) || !(events[n - 1].TimeoutFires? || events[n - 1].YieldFires? || events[n - 1].Deliver?))
  }

  /** Event `k` ends the run by itself: an exit, an error, or the finalize timer of a run that nothing
      has marked as exited. */
  predicate Ends(events: seq<Event>, k: nat)
    requires k < |events|
  {
    events[k].Exit? || events[k].ChildError? || (events[k].FinalizeFires? && !Marked(events, k))
  }

  /** The outcome a run has when event `k` ends it. */
  function OutcomeAt(events: seq<Event>, k: nat): Outcome
    requires k < |events|
  {
    var late := Happened(events, k, TimeoutFires);
    match events[k]
    case Exit(code, signal) =>
      Outcome(if code == Some(0) && signal.None? && !late then Completed else Failed, code, signal, late)
    case ChildError => Outcome(Failed, None, None, late)
    case _ => Outcome(Failed, None, Some(SIGKILL), true)
  }

  /** The outcome of the run: that of the first event that ended it. */
  function Decided(events: seq<Event>, n: nat): Option<Outcome>
    requires n <= |events|
  {
    if n == 0 then None
    else if Decided(events, n - 1).Some? then Decided(events, n - 1)
    else if Ends(events, n - 1) then Some(OutcomeAt(events, n - 1))
    else None
  }

  predicate Yields(config: Config, events: seq<Event>, n: nat)
    requires n <= |events|
  {
    config.yieldWindow == Some(0) || Happened(events, n, YieldFires)
  }

  /** The run ended by itself after it had gone to the background. */
  predicate EndsInBackground(config: Config, events: seq<Event>, n: nat)
    requires n <= |events|
  {
    n > 0 && (EndsInBackground(config, events, n - 1) || (Yields(config, events, n - 1) && Ends(events, n - 1)))
  }

  // ---------------------------------------------------------------------------
  // Every interleaving
  // ---------------------------------------------------------------------------

  lemma {:induction false} ClockRuns(config: Config, events: seq<Event>, states: seq<State>, n: nat)
    requires Trace(config, events, states) && n <= |events|
    ensures states[n].clock.timedOut <==> Happened(events, n, TimeoutFires)
    ensures states[n].clock.finalizeTimer.Armed? ==> states[n].clock.timedOut
  {
    if n > 0 {
      ClockRuns(config, events, states, n - 1);
      assert Transition(config, states[n - 1], events[n - 1], states[n]);
    }
  }

  lemma {:induction false} MarkStep(config: Config, a: State, event: Event, b: State)
    requires Transition(config, a, event, b)
    ensures b.session.exited <==> a.session.exited || !(event.TimeoutFires? || event.YieldFires? || event.Deliver?)
  {
  }

  lemma {:induction false} MarksRun(config: Config, events: seq<Event>, states: seq<State>, n: nat)
    requires Trace(config, events, states) && n <= |events|
    ensures states[n].session.exited <==> Marked(events, n)
  {
    if n > 0 {
      MarksRun(config, events, states, n - 1);
      MarkStep(config, states[n - 1], events[n - 1], states[n]);
    }
  }

  lemma {:induction false} SettleStep(config: Config, a: State, b: State, events: seq<Event>, k: nat)
    requires k < |events| && Transition(config, a, events[k], b)
    requires a.session.exited == Marked(events, k) && a.clock.timedOut == Happened(events, k, TimeoutFires)
    ensures b.promise == if Ends(events, k) then a.promise.Settle(OutcomeAt(events, k)) else a.promise
  {
  }

  /** The outcome settles at most once, and it is the outcome of the first event that ended the run. */
  lemma {:induction false} SettlesOnceWithTheFirstEnd(config: Config, events: seq<Event>, states: seq<State>, n: nat)
    requires Trace(config, events, states) && n <= |events|
    ensures states[n].promise ==
            match Decided(events, n) { case None => Promise(false, []) case Some(outcome) => Promise(true, [outcome]) }
  {
    if n > 0 {
      SettlesOnceWithTheFirstEnd(config, events, states, n - 1);
      ClockRuns(config, events, states, n - 1);
      MarksRun(config, events, states, n - 1);
      SettleStep(config, states[n - 1], states[n], events, n - 1);
    }
  }

  /** Nothing says completed: neither the outcome, nor the finished record, nor a notice. */
  predicate NothingCompleted(state: State) {
    && state.session.record != Some(Completed) && Completed !in state.session.notices
    && forall o :: o in state.promise.resolved ==> o.status.Failed?
  }

  lemma {:induction false} CompletedStopsTheClockStep(config: Config, a: State, event: Event, b: State)
    requires Transition(config, a, event, b)
    requires NothingCompleted(a) || (!a.clock.timedOut && !a.clock.timeoutTimer.Armed?)
    ensures NothingCompleted(b) || (!b.clock.timedOut && !b.clock.timeoutTimer.Armed?)
  {
  }

  lemma {:induction false} CompletedStopsTheClock(config: Config, events: seq<Event>, states: seq<State>, n: nat)
    requires Trace(config, events, states) && n <= |events|
    ensures NothingCompleted(states[n]) || (!states[n].clock.timedOut && !states[n].clock.timeoutTimer.Armed?)
  {
    if n > 0 {
      CompletedStopsTheClock(config, events, states, n - 1);
      CompletedStopsTheClockStep(config, states[n - 1], events[n - 1], states[n]);
    }
  }

  /** A run whose timeout fired is never reported or recorded as completed. */
  lemma {:induction false} TimedOutNeverCompletes(config: Config, events: seq<Event>, states: seq<State>, n: nat)
    requires Trace(config, events, states) && n <= |events| && Happened(events, n, TimeoutFires)
    ensures NothingCompleted(states[n])
    ensures Decided(events, n).Some? ==> Decided(events, n).value.status.Failed?
  {
    ClockRuns(config, events, states, n);
    CompletedStopsTheClock(config, events, states, n);
    SettlesOnceWithTheFirstEnd(config, events, states, n);
    if Decided(events, n).Some? {
      assert Decided(events, n).value in states[n].promise.resolved;
    }
  }

  lemma {:induction false} CallStep(config: Config, a: State, event: Event, b: State)
    requires Transition(config, a, event, b) && a.call.yielded == a.session.backgrounded
    requires a.call.yieldTimer.Armed? ==> !a.call.yielded && !a.call.delivered
    ensures b.call.yielded == b.session.backgrounded == (a.call.yielded || event.YieldFires?)
    ensures b.call.yieldTimer.Armed? ==> !b.call.yielded && !b.call.delivered
    ensures b.call.delivered == (a.call.delivered || event.Deliver?)
    ensures event.YieldFires? ==> !a.call.yielded && !a.call.delivered
    ensures b.call.answers == a.call.answers +
            match event {
              case YieldFires => [Running]
              case Deliver => if a.call.yielded then [] else [Finished(a.promise.resolved[0])]
              case _ => []
            }
  {
  }

  lemma {:induction false} CallRuns(config: Config, events: seq<Event>, states: seq<State>, n: nat)
    requires Trace(config, events, states) && n <= |events|
    ensures states[n].call.yielded == states[n].session.backgrounded == Yields(config, events, n)
    ensures states[n].call.yieldTimer.Armed? ==> !states[n].call.yielded && !states[n].call.delivered
    ensures states[n].call.delivered <==> Happened(events, n, Deliver)
  {
    if n > 0 {
      CallRuns(config, events, states, n - 1);
      CallStep(config, states[n - 1], events[n - 1], states[n]);
    }
  }

  /** No yield comes after the delivery, so "running" is the answer exactly when the yield came first. */
  lemma {:induction false} YieldComesFirst(config: Config, events: seq<Event>, states: seq<State>, n: nat)
    requires Trace(config, events, states) && n < |events| && events[n] == YieldFires
    ensures !Happened(events, n, Deliver) && !Yields(config, events, n)
  {
    CallRuns(config, events, states, n);
    CallStep(config, states[n], events[n], states[n + 1]);
  }

  /** A delivered outcome has settled before. */
  lemma {:induction false} DeliveredIsDecided(config: Config, events: seq<Event>, states: seq<State>, n: nat)
    requires Trace(config, events, states) && n <= |events| && Happened(events, n, Deliver)
    ensures Decided(events, n).Some?
  {
    if events[n - 1] == Deliver {
      assert Transition(config, states[n - 1], events[n - 1], states[n]);
      SettlesOnceWithTheFirstEnd(config, events, states, n - 1);
    } else {
      DeliveredIsDecided(config, events, states, n - 1);
    }
  }

  /** The tool call is answered once a run has yielded or its outcome was delivered, and exactly once: with
      "running" when it has yielded, with the outcome otherwise. */
  lemma {:induction false} AnsweredExactlyOnce(config: Config, events: seq<Event>, states: seq<State>, n: nat)
    requires Trace(config, events, states) && n <= |events|
    ensures Happened(events, n, Deliver) ==> Decided(events, n).Some?
    ensures states[n].call.answers ==
            if Yields(config, events, n) then [Running]
            else if Happened(events, n, Deliver) then [Finished(Decided(events, n).value)]
            else []
  {
    if Happened(events, n, Deliver) {
      DeliveredIsDecided(config, events, states, n);
    }
    if n > 0 {
      AnsweredExactlyOnce(config, events, states, n - 1);
      CallRuns(config, events, states, n - 1);
      CallStep(config, states[n - 1], events[n - 1], states[n]);
      if events[n - 1] == Deliver {
        SettlesOnceWithTheFirstEnd(config, events, states, n - 1);
        assert !states[n - 1].call.delivered;
      }
    }
  }

  lemma {:induction false} NoticeStep(config: Config, a: State, b: State, events: seq<Event>, k: nat)
    requires k < |events| && Transition(config, a, events[k], b) && a.session.exited == Marked(events, k)
    ensures b.session.notices == a.session.notices || |b.session.notices| == |a.session.notices| + 1
    ensures b.session.notices != a.session.notices <==>
            Ends(events, k) && config.notifies && a.session.backgrounded && !a.session.exitNotified
    ensures b.session.exitNotified <==> a.session.exitNotified || b.session.notices != a.session.notices
  {
  }

  /** At most one exit notice is sent, and one is sent exactly when notices are wanted and the run ended by
      itself in the background. */
  lemma {:induction false} NotifiedOnceIff(config: Config, events: seq<Event>, states: seq<State>, n: nat)
    requires Trace(config, events, states) && n <= |events|
    ensures |states[n].session.notices| == if config.notifies && EndsInBackground(config, events, n) then 1 else 0
    ensures states[n].session.exitNotified <==> config.notifies && EndsInBackground(config, events, n)
  {
    if n > 0 {
      NotifiedOnceIff(config, events, states, n - 1);
      MarksRun(config, events, states, n - 1);
      CallRuns(config, events, states, n - 1);
      NoticeStep(config, states[n - 1], states[n], events, n - 1);
    }
  }

  /** While nothing has ended the run, only a kill or a removal can have marked it as exited. */
  lemma {:induction false} MarkedByTool(events: seq<Event>, n: nat)
    requires n <= |events| && Decided(events, n).None?
    ensures Marked(events, n) <==> Happened(events, n, ToolKill) || Happened(events, n, ToolRemove)
  {
    if n > 0 {
      MarkedByTool(events, n - 1);
    }
  }

  /** The finalize timer settles a run that is still open exactly when it was neither killed nor removed by
      the process tool: these count as exits. */
  lemma {:induction false} FinalizeSettlesIff(config: Config, events: seq<Event>, states: seq<State>, n: nat)
    requires Trace(config, events, states) && n < |events| && events[n] == FinalizeFires && !states[n].promise.settled
    ensures states[n + 1].promise.settled <==> !Happened(events, n, ToolKill) && !Happened(events, n, ToolRemove)
  {
    SettlesOnceWithTheFirstEnd(config, events, states, n);
    SettlesOnceWithTheFirstEnd(config, events, states, n + 1);
    MarkedByTool(events, n);
  }

  /** So, unless an exit event follows, the call that started a removed run stays unanswered. */
  lemma {:induction false} RemovalDisablesTheTimeout()
    ensures exists states: seq<State> ::
              && Trace(Config(true, None, true), [TimeoutFires, ToolRemove, FinalizeFires], states)
              && states[3].promise.resolved == [] && states[3].call.answers == []
  {
    var config, events := Config(true, None, true), [TimeoutFires, ToolRemove, FinalizeFires];
    var s0 := Initial(config);
    var s1 := s0.Step(config, TimeoutFires);
    var s2 := s1.Step(config, ToolRemove);
    var s3 := s2.Step(config, FinalizeFires);
    assert Trace(config, events, [s0, s1, s2, s3]);
  }

  // ---------------------------------------------------------------------------
  // The finished record
  // ---------------------------------------------------------------------------

  /** The status event `k` marks the session with, if it marks it. */
  function MarkAt(events: seq<Event>, k: nat): Option<Status>
    requires k < |events|
  {
    match events[k]
    case TimeoutFires => None
    case YieldFires => None
    case Deliver => None
    case FinalizeFires => if Marked(events, k) then None else Some(Failed)
    case Exit(code, signal) =>
      Some(if code == Some(0) && signal.None? && !Happened(events, k, TimeoutFires) then Completed else Failed)
    case _ => Some(Failed)
  }

  /** The status of the last marking event that came after the yield. */
  function Recorded(config: Config, events: seq<Event>, n: nat): Option<Status>
    requires n <= |events|
  {
    if n == 0 then None
    else if Yields(config, events, n - 1) && MarkAt(events, n - 1).Some? then MarkAt(events, n - 1)
    else Recorded(config, events, n - 1)
  }

  lemma {:induction false} RecordStep(config: Config, a: State, b: State, events: seq<Event>, k: nat)
    requires k < |events| && Transition(config, a, events[k], b)
    requires a.session.exited == Marked(events, k) && a.clock.timedOut == Happened(events, k, TimeoutFires)
    ensures b.session.record ==
            if a.session.backgrounded && MarkAt(events, k).Some? then MarkAt(events, k) else a.session.record
  {
  }

  /** The finished record is that of the last mark after the yield. */
  lemma {:induction false} RecordIsTheLastMark(config: Config, events: seq<Event>, states: seq<State>, n: nat)
    requires Trace(config, events, states) && n <= |events|
    ensures states[n].session.record == Recorded(config, events, n)
  {
    if n > 0 {
      RecordIsTheLastMark(config, events, states, n - 1);
      ClockRuns(config, events, states, n - 1);
      MarksRun(config, events, states, n - 1);
      CallRuns(config, events, states, n - 1);
      RecordStep(config, states[n - 1], states[n], events, n - 1);
    }
  }

  /** Record and outcome agree exactly when that mark has the status of the first event that ended the run. */
  lemma {:induction false} RecordAgreesIff(config: Config, events: seq<Event>, states: seq<State>, n: nat)
    requires Trace(config, events, states) && n <= |events| && Decided(events, n).Some?
    ensures |states[n].promise.resolved| == 1
    ensures states[n].session.record == Some(states[n].promise.resolved[0].status)
            <==> Recorded(config, events, n) == Some(Decided(events, n).value.status)
  {
    RecordIsTheLastMark(config, events, states, n);
    SettlesOnceWithTheFirstEnd(config, events, states, n);
  }

  function Exits(events: seq<Event>, n: nat): nat
    requires n <= |events|
  {
    if n == 0 then 0 else Exits(events, n - 1) + if events[n - 1].Exit? then 1 else 0
  }

  /** A decided run is no longer listed; a second end can only be the exit behind the finalize timer. */
  predicate EndedOnce(config: Config, events: seq<Event>, n: nat, s: State)
    requires n <= |events| && Decided(events, n).Some?
  {
    var status := Decided(events, n).value.status;
    && s.session.exited && !s.session.listed
    && (Exits(events, n) > 0 || (s.clock.timedOut && status.Failed?))
    && s.session.record == if EndsInBackground(config, events, n) then Some(status) else None
  }

  /** Nothing is recorded before the yield, and nothing ends in the background before something ends. */
  predicate RecordFits(config: Config, events: seq<Event>, n: nat, s: State)
    requires n <= |events|
  {
    && (!s.session.backgrounded ==> s.session.record == None)
    && (EndsInBackground(config, events, n) ==> s.session.backgrounded && Decided(events, n).Some?)
    && (Decided(events, n).Some? ==> EndedOnce(config, events, n, s))
  }

  lemma {:induction false} RecordFitsStep(config: Config, a: State, b: State, events: seq<Event>, k: nat)
    requires k < |events| && Transition(config, a, events[k], b) && RecordFits(config, events, k, a)
    requires a.session.exited == Marked(events, k) && a.clock.timedOut == Happened(events, k, TimeoutFires)
    requires a.session.backgrounded == Yields(config, events, k) && (a.clock.finalizeTimer.Armed? ==> a.clock.timedOut)
    requires events[k] != ChildError && Exits(events, k + 1) <= 1
    ensures RecordFits(config, events, k + 1, b)
  {
  }

  /** Without an error event, and with one exit at most, record and outcome always agree: a run that ends in
      the background is recorded with the status of its outcome, and any other is not recorded. */
  lemma {:induction false} RecordAgreesWithoutErrors(config: Config, events: seq<Event>, states: seq<State>, n: nat)
    requires Trace(config, events, states) && n <= |events|
    requires !Happened(events, n, ChildError) && Exits(events, n) <= 1
    ensures RecordFits(config, events, n, states[n])
    ensures Decided(events, n).Some? ==>
              (states[n].session.record
               == if EndsInBackground(config, events, n) then Some(Decided(events, n).value.status) else None)
  {
    if n > 0 {
      RecordAgreesWithoutErrors(config, events, states, n - 1);
      ClockRuns(config, events, states, n - 1);
      MarksRun(config, events, states, n - 1);
      CallRuns(config, events, states, n - 1);
      RecordFitsStep(config, states[n - 1], states[n], events, n - 1);
    }
  }

  /** An exit with code zero after an error event rewrites the record. */
  lemma {:induction false} LateExitRewritesTheRecord()
    ensures exists states: seq<State> ::
              && Trace(Config(false, Some(0), true), [ChildError, Exit(Some(0), None)], states)
              && states[2].session.record == Some(Completed)
              && |states[2].promise.resolved| == 1 && states[2].promise.resolved[0].status == Failed
  {
    var config, events := Config(false, Some(0), true), [ChildError, Exit(Some(0), None)];
    var s0 := Initial(config);
    var s1 := s0.Step(config, ChildError);
    var s2 := s1.Step(config, Exit(Some(0), None));
    assert Trace(config, events, [s0, s1, s2]);
  }
}
