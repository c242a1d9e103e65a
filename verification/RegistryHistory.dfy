/** The registry's maps, from its events (src/agents/bash-process-registry.ts). */
module RegistryHistory {
  import opened Wrappers
  import opened ProcessStatus
  import opened Registry

  // ---------------------------------------------------------------------------
  // What one event writes and erases
  // ---------------------------------------------------------------------------

  /** A tool with a scope may use sessions of that scope only; an empty scope counts as none. */
  predicate MayUse(tool: Option<string>, scope: Option<string>) {
    match tool case None => true case Some(own) => own == "" || scope == Some(own)
  }

  /** The tool may use the session that runs under the id. */
  predicate Controls<H>(a: Reg<H>, tool: Option<string>, id: Id) {
    id in a.running && a.running[id] in a.sessions && MayUse(tool, a.sessions[a.running[id]].scope)
  }

  /** The tool may use the record that is kept under the id. */
  predicate Keeps<H>(a: Reg<H>, tool: Option<string>, id: Id) {
    id in a.finished && MayUse(tool, a.finished[id].scope)
  }

  /** The event ends session `h`, with this exit and status, at this time: its own exit, or a kill or removal of
      the session that runs under its id. A kill leaves sessions in the foreground alone. */
  predicate Marks<H>(a: Reg<H>, event: Event<H>, h: H, exit: Exit, status: Status, now: int) {
    && h in a.sessions
    && match event
       case Exits(g, e, s, t) => g == h && e == exit && s == status && t == now
       case Kills(tool, id, t) =>
         Controls(a, tool, id) && a.running[id] == h && a.sessions[h].backgrounded && ByTool(exit, status, t, now)
       case Removes(tool, id, t) => Controls(a, tool, id) && a.running[id] == h && ByTool(exit, status, t, now)
       case _ => false
  }

  /** The tool takes what it ends for killed by SIGKILL, and for a failure. */
  predicate ByTool(exit: Exit, status: Status, t: int, now: int) {
    exit == Exit(None, Some("SIGKILL")) && status == Failed && t == now
  }

  /** The event writes this record: it ends a session in the background. */
  ghost predicate Writes<H(!new)>(a: Reg<H>, event: Event<H>, r: Record) {
    exists h: H :: Marks(a, event, h, r.exit, r.status, r.endedAt) && a.sessions[h].backgrounded
      && a.sessions[h].id == r.id && a.sessions[h].scope == r.scope
  }

  ghost predicate WritesTo<H(!new)>(a: Reg<H>, event: Event<H>, id: Id) {
    exists r: Record :: r.id == id && Writes(a, event, r)
  }

  /** The event erases the record under the id: cleared or removed by a tool that may use it, or swept because
      it ended before the cutoff. */
  predicate Erases<H>(a: Reg<H>, event: Event<H>, id: Id) {
    match event
    case Clears(tool, i) => i == id && Keeps(a, tool, id)
    case Removes(tool, i, _) => i == id && !Controls(a, tool, id) && Keeps(a, tool, id)
    case Sweeps(cutoff) => id in a.finished && a.finished[id].endedAt < cutoff
    case _ => false
  }

  lemma {:induction false} InScopeIff(tool: Option<string>, scope: Option<string>)
    ensures InScope(tool, scope) <==> MayUse(tool, scope)
  {
  }

  lemma {:induction false} SeesIff<H(!new)>(a: Reg<H>, tool: Option<string>, id: Id)
    ensures a.Sees(tool, id) <==> Controls(a, tool, id)
    ensures a.SeesFinished(tool, id) <==> Keeps(a, tool, id)
  {
    if id in a.running && a.running[id] in a.sessions {
      InScopeIff(tool, a.sessions[a.running[id]].scope);
    }
  }

  // ---------------------------------------------------------------------------
  // The finished records
  // ---------------------------------------------------------------------------

  ghost predicate Holds<H>(a: Reg<H>, id: Id, r: Record) {
    id in a.finished && a.finished[id] == r
  }

  /** What the records are after the event. */
  ghost predicate RecordsFollow<H(!new)>(a: Reg<H>, event: Event<H>, b: Reg<H>, id: Id, r: Record) {
    Holds(b, id, r) <==>
    (r.id == id && Writes(a, event, r)) || (Holds(a, id, r) && !WritesTo(a, event, id) && !Erases(a, event, id))
  }

  lemma {:induction false} MarkedFollows<H(!new)>(
    a: Reg<H>, event: Event<H>, b: Reg<H>, h: H, exit: Exit, status: Status, now: int, id: Id, r: Record)
    requires h in a.sessions && b == a.MarkExited(h, exit, status, now)
    requires forall g, e, s, t :: Marks(a, event, g, e, s, t) <==> g == h && e == exit && s == status && t == now
    requires !Erases(a, event, id)
    ensures RecordsFollow(a, event, b, id, r)
  {
    var s := a.sessions[h];
    var written := Record(s.id, s.scope, status, exit, now);
    assert Marks(a, event, h, written.exit, written.status, written.endedAt);
    if s.backgrounded {
      assert Writes(a, event, written);
    }
    forall q ensures Writes(a, event, q) <==> s.backgrounded && q == written {
      if Writes(a, event, q) {
        var g :| Marks(a, event, g, q.exit, q.status, q.endedAt) && a.sessions[g].backgrounded
          && a.sessions[g].id == q.id && a.sessions[g].scope == q.scope;
      }
    }
  }

  lemma {:induction false} UnmarkedFollows<H(!new)>(a: Reg<H>, event: Event<H>, b: Reg<H>, id: Id, r: Record)
    requires forall g, e, s, t :: !Marks(a, event, g, e, s, t)
    requires if Erases(a, event, id) then id !in b.finished else Holds(b, id, r) == Holds(a, id, r)
    ensures RecordsFollow(a, event, b, id, r)
  {
  }

  lemma {:induction false} KillFollows<H(!new)>(a: Reg<H>, tool: Option<string>, i: Id, now: int, id: Id, r: Record)
    ensures RecordsFollow(a, Kills(tool, i, now), a.Kill(tool, i, now), id, r)
  {
    SeesIff(a, tool, i);
    if Controls(a, tool, i) && a.sessions[a.running[i]].backgrounded {
      MarkedFollows(a, Kills(tool, i, now), a.Kill(tool, i, now), a.running[i], KILLED, Failed, now, id, r);
    } else {
      UnmarkedFollows(a, Kills(tool, i, now), a, id, r);
    }
  }

  lemma {:induction false} RemoveFollows<H(!new)>(a: Reg<H>, tool: Option<string>, i: Id, now: int, id: Id, r: Record)
    ensures RecordsFollow(a, Removes(tool, i, now), a.Remove(tool, i, now), id, r)
  {
    SeesIff(a, tool, i);
    if Controls(a, tool, i) {
      MarkedFollows(a, Removes(tool, i, now), a.Remove(tool, i, now), a.running[i], KILLED, Failed, now, id, r);
    } else {
      UnmarkedFollows(a, Removes(tool, i, now), a.Remove(tool, i, now), id, r);
    }
  }

  /** One event: it writes the record of a session it ends in the background, erases what it may, and keeps the
      others as they are. */
  lemma {:induction false} RecordsFollowStep<H(!new)>(a: Reg<H>, event: Event<H>, b: Reg<H>, id: Id, r: Record)
    requires RunningFits(a) && Transition(a, event, b)
    ensures RecordsFollow(a, event, b, id, r)
  {
    match event
    case Adds(_, _, _) => UnmarkedFollows(a, event, b, id, r);
    case Backgrounds(_) => UnmarkedFollows(a, event, b, id, r);
    case Exits(h, exit, status, now) => MarkedFollows(a, event, b, h, exit, status, now, id, r);
    case Polls(tool, i, now) =>
      PollLeavesAlone(a, tool, i, now);
      UnmarkedFollows(a, event, b, id, r);
    case Kills(tool, i, now) => KillFollows(a, tool, i, now, id, r);
    case Clears(tool, i) =>
      SeesIff(a, tool, i);
      UnmarkedFollows(a, event, b, id, r);
    case Removes(tool, i, now) => RemoveFollows(a, tool, i, now, id, r);
    case Sweeps(_) => UnmarkedFollows(a, event, b, id, r);
  }

  /** Event `k` wrote the record, and no later one before `n` wrote or erased one under its id. */
  ghost predicate LastWritten<H(!new)>(events: seq<Event<H>>, states: seq<Reg<H>>, k: nat, n: nat, r: Record)
    requires k < n <= |events| && n <= |states|
  {
    && Writes(states[k], events[k], r)
    && forall j :: k < j < n ==> !WritesTo(states[j], events[j], r.id) && !Erases(states[j], events[j], r.id)
  }

  lemma {:induction false} LastWrittenStep<H(!new)>(
    events: seq<Event<H>>, states: seq<Reg<H>>, m: nat, n: nat, id: Id, r: Record)
    requires m + 1 == n <= |events| && |states| == |events| + 1 && RecordsFollow(states[m], events[m], states[n], id, r)
    requires Holds(states[m], id, r) <==> r.id == id && exists k :: 0 <= k < m && LastWritten(events, states, k, m, r)
    ensures Holds(states[n], id, r) <==> r.id == id && exists k :: 0 <= k < n && LastWritten(events, states, k, n, r)
  {
    if Holds(states[n], id, r) {
      if Writes(states[m], events[m], r) && r.id == id {
        assert LastWritten(events, states, m, n, r);
      } else {
        var k :| 0 <= k < m && LastWritten(events, states, k, m, r);
        assert LastWritten(events, states, k, n, r);
      }
    }
    if k :| 0 <= k < n && LastWritten(events, states, k, n, r) {
      if k < m {
        assert LastWritten(events, states, k, m, r);
      }
    }
  }

  /** Over any run with free ids, the registry keeps exactly the records whose writing was the last that
      happened under their id: with the exit, the status and the time of the event that ended the session. */
  lemma {:induction false} KeptIffLastWritten<H(!new)>(events: seq<Event<H>>, states: seq<Reg<H>>, n: nat, id: Id, r: Record)
    requires Trace(events, states) && n <= |events| && AllFree(events, states, n)
    ensures Holds(states[n], id, r) <==> r.id == id && exists k :: 0 <= k < n && LastWritten(events, states, k, n, r)
  {
    if n > 0 {
      KeptIffLastWritten(events, states, n - 1, id, r);
      RegistryIsConsistent(events, states, n - 1);
      assert Transition(states[n - 1], events[n - 1], states[n - 1 + 1]);
      RecordsFollowStep(states[n - 1], events[n - 1], states[n], id, r);
      LastWrittenStep(events, states, n - 1, n, id, r);
    }
  }

  // ---------------------------------------------------------------------------
  // The sessions
  // ---------------------------------------------------------------------------

  /** An event leaves a session's id and scope; it sets its exit if it ends it, and its background mark if it
      sends it there. */
  lemma {:induction false} SessionsFollow<H(!new)>(a: Reg<H>, event: Event<H>, b: Reg<H>, h: H)
    requires RunningFits(a) && Transition(a, event, b) && h in a.sessions
    ensures h in b.sessions && b.sessions[h].id == a.sessions[h].id && b.sessions[h].scope == a.sessions[h].scope
    ensures b.sessions[h].backgrounded <==> a.sessions[h].backgrounded || event == Backgrounds(h)
    ensures forall exit, status, now :: Marks(a, event, h, exit, status, now) ==>
              b.sessions[h].exited && b.sessions[h].exit == exit
    ensures (forall exit, status, now :: !Marks(a, event, h, exit, status, now)) ==>
              b.sessions[h].exited == a.sessions[h].exited && b.sessions[h].exit == a.sessions[h].exit
  {
    match event
    case Exits(g, exit, status, now) => assert g == h ==> Marks(a, event, h, exit, status, now);
    case Polls(tool, i, now) => PollLeavesAlone(a, tool, i, now);
    case Kills(tool, i, now) =>
      SeesIff(a, tool, i);
      assert Controls(a, tool, i) && a.sessions[a.running[i]].backgrounded ==> Marks(a, event, a.running[i], KILLED, Failed, now);
    case Removes(tool, i, now) =>
      SeesIff(a, tool, i);
      assert Controls(a, tool, i) ==> Marks(a, event, a.running[i], KILLED, Failed, now);
    case _ =>
  }

  /** A tool can neither see nor change what is kept under an id that only sessions of other scopes have. */
  lemma {:induction false} ForeignToolIsPowerless<H(!new)>(a: Reg<H>, tool: Option<string>, id: Id, now: int)
    requires !Controls(a, tool, id) && !Keeps(a, tool, id)
    ensures a.Poll(tool, id, now) == a && a.Kill(tool, id, now) == a && a.Clear(tool, id) == a && a.Remove(tool, id, now) == a
    ensures PollReply(a, tool, id) == NoSession
  {
    SeesIff(a, tool, id);
  }

  // ---------------------------------------------------------------------------
  // What a poll says
  // ---------------------------------------------------------------------------

  /** A session of that id has not exited, and the tool may use it. */
  ghost predicate Lives<H(!new)>(a: Reg<H>, tool: Option<string>, id: Id, backgrounded: bool) {
    exists h: H :: h in a.sessions && a.sessions[h].id == id && !a.sessions[h].exited
      && a.sessions[h].backgrounded == backgrounded && MayUse(tool, a.sessions[h].scope)
  }

  lemma {:induction false} LivesIff<H(!new)>(a: Reg<H>, tool: Option<string>, id: Id, backgrounded: bool)
    requires Consistent(a) && RunningIsLive(a)
    ensures Lives(a, tool, id, backgrounded) <==> Controls(a, tool, id) && a.sessions[a.running[id]].backgrounded == backgrounded
  {
  }

  /** With new ids a poll tells the truth about every session: in the foreground, running in the background,
      ended with its record's status, or none that the tool may use. */
  lemma {:induction false} PollTellsTheTruth<H(!new)>(events: seq<Event<H>>, states: seq<Reg<H>>, n: nat, tool: Option<string>, id: Id)
    requires Trace(events, states) && n <= |events|
    requires forall k :: 0 <= k < n ==> IdIsNew(states[k], events[k])
    ensures var a, reply := states[n], PollReply(states[n], tool, id);
            && (reply == NotBackgrounded <==> Lives(a, tool, id, false))
            && (reply == StillRunning <==> Lives(a, tool, id, true))
            && (forall status :: reply == Ended(status) <==> Keeps(a, tool, id) && a.finished[id].status == status)
            && (reply == NoSession <==> !Lives(a, tool, id, false) && !Lives(a, tool, id, true) && !Keeps(a, tool, id))
  {
    RunningIsExactlyLive(events, states, n);
    SeesIff(states[n], tool, id);
    LivesIff(states[n], tool, id, false);
    LivesIff(states[n], tool, id, true);
    PollLeavesAlone(states[n], tool, id, 0);
  }
}
