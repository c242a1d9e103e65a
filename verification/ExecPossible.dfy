/** Which runs there are (src/agents/bash-tools.exec.ts). */
module ExecPossible {
  import opened Wrappers
  import opened ProcessStatus
  import opened ExecRun

  // ---------------------------------------------------------------------------
  // What can happen next
  // ---------------------------------------------------------------------------

  /** The process has reported an exit or an error. */
  predicate Over(events: seq<Event>, n: nat)
    requires n <= |events|
  {
    n > 0 && (Over(events, n - 1) || events[n - 1].Exit? || events[n - 1].ChildError?)
  }

  /** The timers: each fires once at most, and only while nothing has cleared it. The yield window is cleared by
      a delivery, the others by an exit or an error; the finalize timer runs from the timeout on. */
  predicate TimerCanFire(config: Config, events: seq<Event>, n: nat, timer: Event)
    requires n <= |events|
  {
    match timer
    case TimeoutFires => config.timed && !Happened(events, n, TimeoutFires) && !Over(events, n)
    case FinalizeFires => Happened(events, n, TimeoutFires) && !Happened(events, n, FinalizeFires) && !Over(events, n)
    case YieldFires =>
      config.yieldWindow.Some? && config.yieldWindow != Some(0) && !Happened(events, n, YieldFires) && !Happened(events, n, Deliver)
    case _ => false
  }

  /** An outcome is delivered once; a run can be removed until something has marked it as exited, and killed
      once it is in the background besides. The process may exit or fail at any time. */
  predicate CanHappen(config: Config, events: seq<Event>, n: nat, next: Event)
    requires n <= |events|
  {
    match next
    case Deliver => Decided(events, n).Some? && !Happened(events, n, Deliver)
    case ToolKill => Yields(config, events, n) && !Marked(events, n)
    case ToolRemove => !Marked(events, n)
    case Exit(_, _) => true
    case ChildError => true
    case _ => TimerCanFire(config, events, n, next)
  }

  predicate Possible(config: Config, events: seq<Event>) {
    forall k :: 0 <= k < |events| ==> CanHappen(config, events, k, events[k])
  }

  lemma {:induction false} TimeoutArmedStep(config: Config, a: State, event: Event, b: State)
    requires Transition(config, a, event, b)
    ensures b.clock.timeoutTimer.Armed? <==>
            a.clock.timeoutTimer.Armed? && event != TimeoutFires && !event.Exit? && !event.ChildError?
  {
  }

  lemma {:induction false} TimeoutCanFireIff(config: Config, events: seq<Event>, states: seq<State>, n: nat)
    requires Trace(config, events, states) && n <= |events|
    ensures states[n].Enabled(TimeoutFires) <==> TimerCanFire(config, events, n, TimeoutFires)
  {
    if n > 0 {
      TimeoutCanFireIff(config, events, states, n - 1);
      TimeoutArmedStep(config, states[n - 1], events[n - 1], states[n]);
    }
  }

  lemma {:induction false} FinalizeArmedStep(config: Config, a: State, event: Event, b: State)
    requires Transition(config, a, event, b)
    ensures b.clock.finalizeTimer.Unset? <==> a.clock.finalizeTimer.Unset? && event != TimeoutFires && event != FinalizeFires
    ensures b.clock.finalizeTimer.Armed? <==>
            if event == TimeoutFires then a.clock.finalizeTimer.Unset? || a.clock.finalizeTimer.Armed?
            else a.clock.finalizeTimer.Armed? && event != FinalizeFires && !event.Exit? && !event.ChildError?
  {
  }

  lemma {:induction false} FinalizeCanFireIff(config: Config, events: seq<Event>, states: seq<State>, n: nat)
    requires Trace(config, events, states) && n <= |events|
    ensures states[n].clock.finalizeTimer.Unset? <==> !Happened(events, n, TimeoutFires)
    ensures Happened(events, n, FinalizeFires) ==> Happened(events, n, TimeoutFires)
    ensures states[n].Enabled(FinalizeFires) <==> TimerCanFire(config, events, n, FinalizeFires)
  {
    if n > 0 {
      FinalizeCanFireIff(config, events, states, n - 1);
      FinalizeArmedStep(config, states[n - 1], events[n - 1], states[n]);
      TimeoutCanFireIff(config, events, states, n - 1);
    }
  }

  lemma {:induction false} YieldArmedStep(config: Config, a: State, event: Event, b: State)
    requires Transition(config, a, event, b)
    ensures b.call.yieldTimer.Armed? <==> a.call.yieldTimer.Armed? && event != YieldFires && event != Deliver
  {
  }

  lemma {:induction false} YieldCanFireIff(config: Config, events: seq<Event>, states: seq<State>, n: nat)
    requires Trace(config, events, states) && n <= |events|
    ensures states[n].Enabled(YieldFires) <==> TimerCanFire(config, events, n, YieldFires)
  {
    if n > 0 {
      YieldCanFireIff(config, events, states, n - 1);
      YieldArmedStep(config, states[n - 1], events[n - 1], states[n]);
    }
  }

  lemma {:induction false} ListedStep(config: Config, a: State, event: Event, b: State)
    requires Transition(config, a, event, b) && a.session.listed != a.session.exited
    ensures b.session.listed != b.session.exited
  {
  }

  lemma {:induction false} ListedIffUnmarked(config: Config, events: seq<Event>, states: seq<State>, n: nat)
    requires Trace(config, events, states) && n <= |events|
    ensures states[n].session.listed != states[n].session.exited
  {
    if n > 0 {
      ListedIffUnmarked(config, events, states, n - 1);
      ListedStep(config, states[n - 1], events[n - 1], states[n]);
    }
  }

  /** In every state of every run, exactly these events can happen next: so an armed timer does fire unless
      something clears it, and nothing else does. */
  lemma {:induction false} EnabledIff(config: Config, events: seq<Event>, states: seq<State>, n: nat, next: Event)
    requires Trace(config, events, states) && n <= |events|
    ensures states[n].Enabled(next) <==> CanHappen(config, events, n, next)
  {
    match next
    case TimeoutFires => TimeoutCanFireIff(config, events, states, n);
    case FinalizeFires => FinalizeCanFireIff(config, events, states, n);
    case YieldFires => YieldCanFireIff(config, events, states, n);
    case Deliver =>
      SettlesOnceWithTheFirstEnd(config, events, states, n);
      CallRuns(config, events, states, n);
    case ToolKill => ToolCanEndIff(config, events, states, n);
    case ToolRemove => ToolCanEndIff(config, events, states, n);
    case Exit(_, _) =>
    case ChildError =>
  }

  lemma {:induction false} ToolCanEndIff(config: Config, events: seq<Event>, states: seq<State>, n: nat)
    requires Trace(config, events, states) && n <= |events|
    ensures states[n].session.listed <==> !Marked(events, n)
    ensures states[n].session.backgrounded <==> Yields(config, events, n)
  {
    ListedIffUnmarked(config, events, states, n);
    MarksRun(config, events, states, n);
    CallRuns(config, events, states, n);
  }

  // ---------------------------------------------------------------------------
  // Which runs there are
  // ---------------------------------------------------------------------------

  /** What the first `n` events mean does not depend on later ones. */
  lemma {:induction false} SameFront(config: Config, a: seq<Event>, b: seq<Event>, n: nat)
    requires n <= |a| && n <= |b| && a[..n] == b[..n]
    ensures forall e :: Happened(a, n, e) <==> Happened(b, n, e)
    ensures Over(a, n) <==> Over(b, n)
    ensures Marked(a, n) <==> Marked(b, n)
    ensures Decided(a, n) == Decided(b, n)
  {
    if n > 0 {
      assert a[n - 1] == a[..n][n - 1] == b[n - 1];
      assert a[..n - 1] == a[..n][..n - 1] == b[..n - 1];
      SameFront(config, a, b, n - 1);
    }
  }

  lemma {:induction false} CanHappenFront(config: Config, a: seq<Event>, b: seq<Event>, n: nat, next: Event)
    requires n <= |a| && n <= |b| && a[..n] == b[..n]
    ensures CanHappen(config, a, n, next) <==> CanHappen(config, b, n, next)
  {
    SameFront(config, a, b, n);
  }

  lemma {:induction false} TraceSnoc(config: Config, events: seq<Event>, states: seq<State>, next: Event)
    requires Trace(config, events, states) && states[|events|].Enabled(next)
    ensures Trace(config, events + [next], states + [states[|events|].Step(config, next)])
  {
    var more, after := events + [next], states + [states[|events|].Step(config, next)];
    forall k | 0 <= k < |more| ensures Transition(config, after[k], more[k], after[k + 1]) {
      if k < |events| {
        assert Transition(config, states[k], events[k], states[k + 1]);
      }
    }
  }

  lemma {:induction false} PossibleRuns(config: Config, events: seq<Event>, n: nat) returns (states: seq<State>)
    requires Possible(config, events) && n <= |events|
    ensures Trace(config, events[..n], states)
  {
    if n == 0 {
      states := [Initial(config)];
    } else {
      var before := PossibleRuns(config, events, n - 1);
      CanHappenFront(config, events, events[..n - 1], n - 1, events[n - 1]);
      EnabledIff(config, events[..n - 1], before, n - 1, events[n - 1]);
      TraceSnoc(config, events[..n - 1], before, events[n - 1]);
      assert events[..n - 1] + [events[n - 1]] == events[..n];
      states := before + [before[n - 1].Step(config, events[n - 1])];
    }
  }

  /** A sequence of events is one a run can go through exactly when each of them can happen where it stands. */
  lemma {:induction false} RunExistsIff(config: Config, events: seq<Event>)
    ensures (exists states :: Trace(config, events, states)) <==> Possible(config, events)
  {
    if Possible(config, events) {
      var states := PossibleRuns(config, events, |events|);
      assert events[..|events|] == events;
    }
    forall states, k | Trace(config, events, states) && 0 <= k < |events|
      ensures CanHappen(config, events, k, events[k])
    {
      assert Transition(config, states[k], events[k], states[k + 1]);
      EnabledIff(config, events, states, k, events[k]);
    }
  }

  // ---------------------------------------------------------------------------
  // What the session shows
  // ---------------------------------------------------------------------------

  /** The status of the first event that ended the run in the background. */
  function Announced(config: Config, events: seq<Event>, n: nat): Option<Status>
    requires n <= |events|
  {
    if n == 0 then None
    else if Announced(config, events, n - 1).Some? then Announced(config, events, n - 1)
    else if Yields(config, events, n - 1) && Ends(events, n - 1) then Some(OutcomeAt(events, n - 1).status)
    else None
  }

  lemma {:induction false} AnnouncedStep(config: Config, a: State, b: State, events: seq<Event>, k: nat)
    requires k < |events| && Transition(config, a, events[k], b)
    requires a.session.exited == Marked(events, k) && a.clock.timedOut == Happened(events, k, TimeoutFires)
    ensures b.session.notices == a.session.notices +
            (if Ends(events, k) && config.notifies && a.session.backgrounded && !a.session.exitNotified
             then [OutcomeAt(events, k).status] else [])
    ensures b.session.exitNotified <==> a.session.exitNotified || b.session.notices != a.session.notices
  {
  }

  /** The one notice that is sent gives that status. */
  lemma {:induction false} NoticeIsTheFirstEnd(config: Config, events: seq<Event>, states: seq<State>, n: nat)
    requires Trace(config, events, states) && n <= |events|
    ensures states[n].session.notices
         == match Announced(config, events, n) { case None => [] case Some(status) => if config.notifies then [status] else [] }
    ensures states[n].session.exitNotified <==> states[n].session.notices != []
  {
    if n > 0 {
      NoticeIsTheFirstEnd(config, events, states, n - 1);
      ClockRuns(config, events, states, n - 1);
      MarksRun(config, events, states, n - 1);
      CallRuns(config, events, states, n - 1);
      AnnouncedStep(config, states[n - 1], states[n], events, n - 1);
    }
  }

  datatype Mark = Mark(code: Option<int>, signal: Option<Signal>)

  /** What an event says about the exit, if it marks the session as exited; whoever gives up on a process takes
      it for killed. */
  function MarkOf(exited: bool, event: Event): Option<Mark> {
    match event
    case Exit(code, signal) => Some(Mark(code, signal))
    case ChildError => Some(Mark(None, None))
    case ToolKill => Some(Mark(None, Some(SIGKILL)))
    case ToolRemove => Some(Mark(None, Some(SIGKILL)))
    case FinalizeFires => if exited then None else Some(Mark(None, Some(SIGKILL)))
    case _ => None
  }

  /** The last such mark. */
  function LastMark(events: seq<Event>, n: nat): Mark
    requires n <= |events|
  {
    if n == 0 then Mark(None, None)
    else match MarkOf(Marked(events, n - 1), events[n - 1])
      case None => LastMark(events, n - 1)
      case Some(mark) => mark
  }

  lemma {:induction false} MarkShownStep(config: Config, a: State, event: Event, b: State)
    requires Transition(config, a, event, b)
    ensures Mark(b.session.exitCode, b.session.exitSignal)
         == match MarkOf(a.session.exited, event) { case None => Mark(a.session.exitCode, a.session.exitSignal) case Some(mark) => mark }
  {
  }

  /** The session shows the exit code and the signal of its last mark. */
  lemma {:induction false} SessionShowsTheLastMark(config: Config, events: seq<Event>, states: seq<State>, n: nat)
    requires Trace(config, events, states) && n <= |events|
    ensures Mark(states[n].session.exitCode, states[n].session.exitSignal) == LastMark(events, n)
  {
    if n > 0 {
      SessionShowsTheLastMark(config, events, states, n - 1);
      MarksRun(config, events, states, n - 1);
      MarkShownStep(config, states[n - 1], events[n - 1], states[n]);
    }
  }
}
