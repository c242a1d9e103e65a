/** The registry of exec sessions (src/agents/bash-process-registry.ts). */
module Registry {
  import opened Wrappers
  import opened ProcessStatus

  type Id = string

  datatype Exit = Exit(code: Option<int>, signal: Option<Signal>)

  /** What the registry knows of a session object, and of a finished one. */
  datatype Sess = Sess(id: Id, scope: Option<string>, backgrounded: bool, exited: bool, exit: Exit)

  datatype Record = Record(id: Id, scope: Option<string>, status: Status, exit: Exit, endedAt: int)

  const KILLED := Exit(None, Some(SIGKILL))

  /** `isInScope`: a tool without a scope, or with an empty one, sees every session. */
  predicate InScope(tool: Option<string>, session: Option<string>) {
    tool.None? || tool.value == "" || tool == session
  }

  // ---------------------------------------------------------------------------
  // The registry as a value
  // ---------------------------------------------------------------------------

  /** The two maps, and the state of every session object ever added; `H` identifies session objects, which
      stay in use by their process after they leave the maps. */
  datatype Reg<H(==)> = Reg(running: map<Id, H>, finished: map<Id, Record>, sessions: map<H, Sess>) {
    function Add(h: H, id: Id, scope: Option<string>): Reg<H> {
      Reg(running[id := h], finished, sessions[h := Sess(id, scope, false, false, Exit(None, None))])
    }

    function Background(h: H): Reg<H>
      requires h in sessions
    {
      this.(sessions := sessions[h := sessions[h].(backgrounded := true)])
    }

    /** `markExited` and `moveToFinished`: by id, whichever session object the id now belongs to. */
    function MarkExited(h: H, exit: Exit, status: Status, now: int): Reg<H>
      requires h in sessions
    {
      var s := sessions[h];
      Reg(running - {s.id},
          if s.backgrounded then finished[s.id := Record(s.id, s.scope, status, exit, now)] else finished,
          sessions[h := s.(exited := true, exit := exit)])
    }

    function Delete(id: Id): Reg<H> {
      Reg(running - {id}, finished - {id}, sessions)
    }

    function Sweep(cutoff: int): Reg<H> {
      this.(finished := map id | id in finished && finished[id].endedAt >= cutoff :: finished[id])
    }

    predicate Sees(tool: Option<string>, id: Id) {
      id in running && running[id] in sessions && InScope(tool, sessions[running[id]].scope)
    }

    predicate SeesFinished(tool: Option<string>, id: Id) {
      id in finished && InScope(tool, finished[id].scope)
    }

    /** The process tool's actions. */
    function Poll(tool: Option<string>, id: Id, now: int): Reg<H> {
      if Sees(tool, id) && sessions[running[id]].backgrounded && sessions[running[id]].exited
      then MarkExited(running[id], sessions[running[id]].exit, PollStatus(sessions[running[id]].exit), now)
      else this
    }

    function Kill(tool: Option<string>, id: Id, now: int): Reg<H> {
      if Sees(tool, id) && sessions[running[id]].backgrounded then MarkExited(running[id], KILLED, Failed, now) else this
    }

    function Clear(tool: Option<string>, id: Id): Reg<H> {
      if SeesFinished(tool, id) then Delete(id) else this
    }

    function Remove(tool: Option<string>, id: Id, now: int): Reg<H> {
      if Sees(tool, id) then MarkExited(running[id], KILLED, Failed, now)
      else if SeesFinished(tool, id) then Delete(id)
      else this
    }
  }

  /** The status `poll` gives a session that has exited: there, a missing exit code counts as zero. */
  function PollStatus(exit: Exit): Status {
    if (exit.code == None || exit.code == Some(0)) && exit.signal.None? then Completed else Failed
  }

  /** What the process tool answers about a session. */
  datatype Reply = NoSession | NotBackgrounded | StillRunning | Ended(status: Status) | Done

  function PollReply<H>(reg: Reg<H>, tool: Option<string>, id: Id): Reply {
    if !reg.Sees(tool, id) then (if reg.SeesFinished(tool, id) then Ended(reg.finished[id].status) else NoSession)
    else
      var s := reg.sessions[reg.running[id]];
      if !s.backgrounded then NotBackgrounded else if s.exited then Ended(PollStatus(s.exit)) else StillRunning
  }

  // ---------------------------------------------------------------------------
  // What every step keeps
  // ---------------------------------------------------------------------------

  /** Each running entry leads to a session with that id that has not exited, and whose id is not finished. */
  ghost predicate RunningFits<H>(reg: Reg<H>) {
    forall id :: id in reg.running ==>
      && reg.running[id] in reg.sessions && reg.sessions[reg.running[id]].id == id
      && !reg.sessions[reg.running[id]].exited && id !in reg.finished
  }

  predicate CameFrom(record: Record, s: Sess) {
    s.id == record.id && s.scope == record.scope && s.backgrounded && s.exited
  }

  /** Each finished record came from a session with that id that was in the background and has exited. */
  ghost predicate FinishedFits<H>(reg: Reg<H>) {
    forall id :: id in reg.finished ==>
      reg.finished[id].id == id && exists h :: h in reg.sessions && CameFrom(reg.finished[id], reg.sessions[h])
  }

  ghost predicate Consistent<H>(reg: Reg<H>) {
    RunningFits(reg) && FinishedFits(reg)
  }

  /** Every session object that has not exited is listed as running. */
  ghost predicate LiveAreListed<H>(reg: Reg<H>) {
    forall h :: h in reg.sessions && !reg.sessions[h].exited ==>
      reg.sessions[h].id in reg.running && reg.running[reg.sessions[h].id] == h
  }

  ghost predicate IdsDiffer<H>(reg: Reg<H>) {
    forall g, h :: g in reg.sessions && h in reg.sessions && reg.sessions[g].id == reg.sessions[h].id ==> g == h
  }

  /** Adding a session keeps the maps consistent exactly when its id is not that of a finished record. */
  lemma {:induction false} AddKeepsConsistentIff<H(!new)>(reg: Reg<H>, h: H, id: Id, scope: Option<string>)
    requires Consistent(reg) && h !in reg.sessions
    ensures Consistent(reg.Add(h, id, scope)) <==> id !in reg.finished
  {
    var next := reg.Add(h, id, scope);
    assert id in next.running;
    forall f | f in reg.finished
      ensures next.finished[f].id == f && exists g :: g in next.sessions && CameFrom(next.finished[f], next.sessions[g])
    {
      var g :| g in reg.sessions && CameFrom(reg.finished[f], reg.sessions[g]);
      assert g in next.sessions && next.sessions[g] == reg.sessions[g];
    }
  }

  lemma {:induction false} BackgroundKeepsConsistent<H(!new)>(reg: Reg<H>, h: H)
    requires Consistent(reg) && h in reg.sessions
    ensures Consistent(reg.Background(h))
  {
    var next := reg.Background(h);
    forall f | f in reg.finished
      ensures exists g :: g in next.sessions && CameFrom(next.finished[f], next.sessions[g])
    {
      var g :| g in reg.sessions && CameFrom(reg.finished[f], reg.sessions[g]);
      assert CameFrom(next.finished[f], next.sessions[g]);
    }
  }

  lemma {:induction false} MarkExitedKeepsConsistent<H(!new)>(reg: Reg<H>, h: H, exit: Exit, status: Status, now: int)
    requires Consistent(reg) && h in reg.sessions
    ensures Consistent(reg.MarkExited(h, exit, status, now))
  {
    var next := reg.MarkExited(h, exit, status, now);
    forall f | f in next.finished
      ensures next.finished[f].id == f && exists g :: g in next.sessions && CameFrom(next.finished[f], next.sessions[g])
    {
      if f in reg.finished && next.finished[f] == reg.finished[f] {
        var g :| g in reg.sessions && CameFrom(reg.finished[f], reg.sessions[g]);
        assert CameFrom(next.finished[f], next.sessions[g]);
      } else {
        assert CameFrom(next.finished[f], next.sessions[h]);
      }
    }
  }

  lemma {:induction false} FewerFinishedKeepsConsistent<H(!new)>(reg: Reg<H>, next: Reg<H>)
    requires Consistent(reg) && next.sessions == reg.sessions
    requires forall id :: id in next.running ==> id in reg.running && next.running[id] == reg.running[id]
    requires forall id :: id in next.finished ==> id in reg.finished && next.finished[id] == reg.finished[id]
    ensures Consistent(next)
  {
  }

  // ---------------------------------------------------------------------------
  // Whole runs
  // ---------------------------------------------------------------------------

  datatype Event<H> =
    | Adds(h: H, id: Id, scope: Option<string>)
    | Backgrounds(h: H)
    | Exits(h: H, exit: Exit, status: Status, now: int)   // of the process, at any time, also after a kill
    | Polls(tool: Option<string>, id: Id, now: int)
    | Kills(tool: Option<string>, id: Id, now: int)
    | Clears(tool: Option<string>, id: Id)
    | Removes(tool: Option<string>, id: Id, now: int)
    | Sweeps(cutoff: int)

  /** One event takes the registry from `a` to `b`. */
  ghost predicate Transition<H(!new)>(a: Reg<H>, event: Event<H>, b: Reg<H>) {
    match event
    case Adds(h, id, scope) => h !in a.sessions && b == a.Add(h, id, scope)
    case Backgrounds(h) => h in a.sessions && b == a.Background(h)
    case Exits(h, exit, status, now) => h in a.sessions && b == a.MarkExited(h, exit, status, now)
    case Polls(tool, id, now) => b == a.Poll(tool, id, now)
    case Kills(tool, id, now) => b == a.Kill(tool, id, now)
    case Clears(tool, id) => b == a.Clear(tool, id)
    case Removes(tool, id, now) => b == a.Remove(tool, id, now)
    case Sweeps(cutoff) => b == a.Sweep(cutoff)
  }

  ghost predicate Trace<H(!new)>(events: seq<Event<H>>, states: seq<Reg<H>>) {
    && |states| == |events| + 1 && states[0] == Reg(map[], map[], map[])
    && forall k :: 0 <= k < |events| ==> Transition(states[k], events[k], states[k + 1])
  }

  /** New ids are not those of finished records, as `isSessionIdTaken` asks. */
  predicate IdIsFree<H>(a: Reg<H>, event: Event<H>) {
    event.Adds? ==> event.id !in a.running && event.id !in a.finished
  }

  /** New ids were never used before. */
  ghost predicate IdIsNew<H>(a: Reg<H>, event: Event<H>) {
    event.Adds? ==> forall h :: h in a.sessions ==> a.sessions[h].id != event.id
  }

  /** The branch of `poll` for exited sessions is dead. */
  lemma {:induction false} PollLeavesAlone<H(!new)>(reg: Reg<H>, tool: Option<string>, id: Id, now: int)
    requires RunningFits(reg)
    ensures reg.Poll(tool, id, now) == reg
    ensures PollReply(reg, tool, id).Ended? <==> !reg.Sees(tool, id) && reg.SeesFinished(tool, id)
  {
  }

  lemma {:induction false} StepKeepsConsistent<H(!new)>(a: Reg<H>, event: Event<H>, b: Reg<H>)
    requires Consistent(a) && Transition(a, event, b) && (event.Adds? ==> event.id !in a.finished)
    ensures Consistent(b)
  {
    match event
    case Adds(h, id, scope) => AddKeepsConsistentIff(a, h, id, scope);
    case Backgrounds(h) => BackgroundKeepsConsistent(a, h);
    case Exits(h, exit, status, now) => MarkExitedKeepsConsistent(a, h, exit, status, now);
    case Polls(tool, id, now) => PollLeavesAlone(a, tool, id, now);
    case Kills(tool, id, now) => if b != a { MarkExitedKeepsConsistent(a, a.running[id], KILLED, Failed, now); }
    case Clears(_, _) => FewerFinishedKeepsConsistent(a, b);
    case Removes(tool, id, now) =>
      if a.Sees(tool, id) {
        MarkExitedKeepsConsistent(a, a.running[id], KILLED, Failed, now);
      } else {
        FewerFinishedKeepsConsistent(a, b);
      }
    case Sweeps(_) => FewerFinishedKeepsConsistent(a, b);
  }

  /** After any run whose new ids are free: no id is both running and finished, running sessions have not
      exited, and each finished record came from a backgrounded session that has. */
  lemma {:induction false} RegistryIsConsistent<H(!new)>(events: seq<Event<H>>, states: seq<Reg<H>>, n: nat)
    requires Trace(events, states) && n <= |events|
    requires forall k :: 0 <= k < n ==> IdIsFree(states[k], events[k])
    ensures Consistent(states[n])
  {
    if n > 0 {
      RegistryIsConsistent(events, states, n - 1);
      assert IdIsFree(states[n - 1], events[n - 1]);
      StepKeepsConsistent(states[n - 1], events[n - 1], states[n]);
    }
  }

  /** So a poll leaves both maps alone, and says that a session has ended exactly when it is in scope among
      the finished ones. */
  lemma {:induction false} PollOnlyReports<H(!new)>(events: seq<Event<H>>, states: seq<Reg<H>>, n: nat,
                                                    tool: Option<string>, id: Id, now: int)
    requires Trace(events, states) && n <= |events|
    requires forall k :: 0 <= k < n ==> IdIsFree(states[k], events[k])
    ensures states[n].Poll(tool, id, now) == states[n]
    ensures PollReply(states[n], tool, id).Ended? <==> states[n].SeesFinished(tool, id)
  {
    RegistryIsConsistent(events, states, n);
    PollLeavesAlone(states[n], tool, id, now);
  }

  // ---------------------------------------------------------------------------
  // Running is exactly what has not exited
  // ---------------------------------------------------------------------------

  /** `markExited` works by id: this is the exit of a session whose id another one runs under by now. */
  predicate UnlistsAnother<H(!new)>(a: Reg<H>, event: Event<H>) {
    event.Exits? && event.h in a.sessions
    && a.sessions[event.h].id in a.running && a.running[a.sessions[event.h].id] != event.h
  }

  lemma {:induction false} MarkExitedListsLiveIff<H(!new)>(reg: Reg<H>, h: H, exit: Exit, status: Status, now: int)
    requires RunningFits(reg) && LiveAreListed(reg) && h in reg.sessions
    ensures LiveAreListed(reg.MarkExited(h, exit, status, now))
            <==> !(reg.sessions[h].id in reg.running && reg.running[reg.sessions[h].id] != h)
  {
    var id, next := reg.sessions[h].id, reg.MarkExited(h, exit, status, now);
    if id in reg.running && reg.running[id] != h {
      var g := reg.running[id];
      assert g in next.sessions && !next.sessions[g].exited && id !in next.running;
    } else {
      forall g | g in next.sessions && !next.sessions[g].exited
        ensures next.sessions[g].id in next.running && next.running[next.sessions[g].id] == g
      {
        assert reg.sessions[g] == next.sessions[g];
      }
    }
  }

  /** With free ids, an event keeps every live session listed exactly when it is not such an exit. */
  lemma {:induction false} StepListsLiveIff<H(!new)>(a: Reg<H>, event: Event<H>, b: Reg<H>)
    requires Consistent(a) && LiveAreListed(a) && IdIsFree(a, event) && Transition(a, event, b)
    ensures LiveAreListed(b) <==> !UnlistsAnother(a, event)
  {
    match event
    case Adds(h, id, scope) =>
    case Backgrounds(h) =>
    case Exits(h, exit, status, now) => MarkExitedListsLiveIff(a, h, exit, status, now);
    case Polls(tool, id, now) => PollLeavesAlone(a, tool, id, now);
    case Kills(tool, id, now) => if b != a { MarkExitedListsLiveIff(a, a.running[id], KILLED, Failed, now); }
    case Clears(_, _) => assert b.running == a.running;
    case Removes(tool, id, now) =>
      if a.Sees(tool, id) {
        MarkExitedListsLiveIff(a, a.running[id], KILLED, Failed, now);
      } else {
        assert b.running == a.running;
      }
    case Sweeps(_) =>
  }

  ghost predicate AllFree<H(!new)>(events: seq<Event<H>>, states: seq<Reg<H>>, n: nat)
    requires n <= |events| && n <= |states|
  {
    forall k :: 0 <= k < n ==> IdIsFree(states[k], events[k])
  }

  ghost predicate ListedThroughout<H(!new)>(states: seq<Reg<H>>, n: nat)
    requires n < |states|
  {
    forall m :: 0 <= m <= n ==> LiveAreListed(states[m])
  }

  ghost predicate NoneUnlisted<H(!new)>(events: seq<Event<H>>, states: seq<Reg<H>>, n: nat)
    requires n <= |events| && n <= |states|
  {
    forall k :: 0 <= k < n ==> !UnlistsAnother(states[k], events[k])
  }

  /** Over any run with free ids, every live session is listed all the time exactly when no session exits
      whose id another one runs under by then. */
  lemma {:induction false} ListedThroughoutIff<H(!new)>(events: seq<Event<H>>, states: seq<Reg<H>>, n: nat)
    requires Trace(events, states) && n <= |events| && AllFree(events, states, n)
    ensures ListedThroughout(states, n) <==> NoneUnlisted(events, states, n)
  {
    if n > 0 {
      ListedThroughoutIff(events, states, n - 1);
      RegistryIsConsistent(events, states, n - 1);
      assert IdIsFree(states[n - 1], events[n - 1]) && Transition(states[n - 1], events[n - 1], states[n - 1 + 1]);
      if LiveAreListed(states[n - 1]) {
        StepListsLiveIff(states[n - 1], events[n - 1], states[n]);
      }
    }
  }

  /** Then the running map lists exactly the sessions that have not exited. */
  ghost predicate RunningIsLive<H(!new)>(reg: Reg<H>) {
    forall h :: h in reg.sessions ==>
      (!reg.sessions[h].exited <==> reg.sessions[h].id in reg.running && reg.running[reg.sessions[h].id] == h)
  }

  lemma {:induction false} LiveIff<H(!new)>(reg: Reg<H>)
    requires Consistent(reg)
    ensures RunningIsLive(reg) <==> LiveAreListed(reg)
  {
  }

  /** New ids are free, and keep all ids different. */
  lemma {:induction false} NewIsFree<H(!new)>(a: Reg<H>, event: Event<H>, b: Reg<H>)
    requires Consistent(a) && IdsDiffer(a) && IdIsNew(a, event) && Transition(a, event, b)
    ensures IdIsFree(a, event) && IdsDiffer(b) && !UnlistsAnother(a, event)
  {
    assert forall h :: h in a.sessions ==> h in b.sessions && b.sessions[h].id == a.sessions[h].id;
  }

  lemma {:induction false} NewThroughout<H(!new)>(events: seq<Event<H>>, states: seq<Reg<H>>, n: nat)
    requires Trace(events, states) && n <= |events|
    requires forall k :: 0 <= k < n ==> IdIsNew(states[k], events[k])
    ensures AllFree(events, states, n) && NoneUnlisted(events, states, n)
    ensures Consistent(states[n]) && IdsDiffer(states[n])
  {
    if n > 0 {
      NewThroughout(events, states, n - 1);
      assert IdIsNew(states[n - 1], events[n - 1]) && Transition(states[n - 1], events[n - 1], states[n - 1 + 1]);
      NewIsFree(states[n - 1], events[n - 1], states[n]);
      RegistryIsConsistent(events, states, n);
    }
  }

  /** When ids are never used twice, there is no such exit, and the running map lists exactly the sessions that
      have not exited. */
  lemma {:induction false} RunningIsExactlyLive<H(!new)>(events: seq<Event<H>>, states: seq<Reg<H>>, n: nat)
    requires Trace(events, states) && n <= |events|
    requires forall k :: 0 <= k < n ==> IdIsNew(states[k], events[k])
    ensures Consistent(states[n]) && IdsDiffer(states[n]) && RunningIsLive(states[n])
  {
    NewThroughout(events, states, n);
    ListedThroughoutIff(events, states, n);
    LiveIff(states[n]);
  }

  /** Ids that are only free, not new, lose sessions: the late exit of a killed and cleared session unlists
      the live one that has taken its id. */
  lemma {:induction false} ReusedIdLosesALiveSession()
    ensures exists states: seq<Reg<nat>> ::
              var exit, events := Exit(Some(1), None), [
                Adds(0, "x", None), Backgrounds(0), Kills(None, "x", 5), Clears(None, "x"),
                Adds(1, "x", None), Exits(0, Exit(Some(1), None), Failed, 9)];
              && Trace(events, states) && (forall k :: 0 <= k < 6 ==> IdIsFree(states[k], events[k]))
              && 1 in states[6].sessions && !states[6].sessions[1].exited && "x" !in states[6].running
  {
    var exit := Exit(Some(1), None);
    var s0: Reg<nat> := Reg(map[], map[], map[]);
    var s1 := s0.Add(0, "x", None);
    var s2 := s1.Background(0);
    var s3 := s2.Kill(None, "x", 5);
    var s4 := s3.Clear(None, "x");
    var s5 := s4.Add(1, "x", None);
    var s6 := s5.MarkExited(0, exit, Failed, 9);
    var events := [
      Adds(0, "x", None), Backgrounds(0), Kills(None, "x", 5), Clears(None, "x"),
      Adds(1, "x", None), Exits(0, exit, Failed, 9)];
    var states := [s0, s1, s2, s3, s4, s5, s6];
    assert Trace(events, states);
  }

  // ---------------------------------------------------------------------------
  // The registry as objects
  // ---------------------------------------------------------------------------

  class ProcessSession {
    const id: Id
    const scopeKey: Option<string>
    var backgrounded: bool
    var exited: bool
    var exit: Exit

    constructor (id: Id, scopeKey: Option<string>)
      ensures this.id == id && this.scopeKey == scopeKey && State() == Sess(id, scopeKey, false, false, Exit(None, None))
    {
      this.id, this.scopeKey := id, scopeKey;
      backgrounded, exited, exit := false, false, Exit(None, None);
    }

    function State(): Sess
      reads this
    {
      Sess(id, scopeKey, backgrounded, exited, exit)
    }
  }

  class SessionRegistry {
    var running: map<Id, ProcessSession>
    var finished: map<Id, Record>
    /** Every session ever added. */
    ghost var known: set<ProcessSession>

    ghost predicate Valid()
      reads this
    {
      forall id :: id in running ==> running[id] in known
    }

    ghost function View(): Reg<ProcessSession>
      reads this, known
    {
      Reg(running, finished, map s | s in known :: s.State())
    }

    constructor ()
      ensures Valid() && View() == Reg(map[], map[], map[])
    {
      running, finished, known := map[], map[], {};
    }

    method AddSession(session: ProcessSession)
      requires Valid() && session !in known
      requires session.State() == Sess(session.id, session.scopeKey, false, false, Exit(None, None))
      modifies this
      ensures Valid() && View() == old(View()).Add(session, session.id, session.scopeKey)
    {
      running := running[session.id := session];
      known := known + {session};
    }

    method DeleteSession(id: Id)
      requires Valid()
      modifies `running, `finished
      ensures Valid() && View() == old(View()).Delete(id)
    {
      running := running - {id};
      finished := finished - {id};
    }

    method MarkBackgrounded(session: ProcessSession)
      requires Valid() && session in known
      modifies session
      ensures Valid() && View() == old(View()).Background(session)
    {
      session.backgrounded := true;
    }

    method MarkExited(session: ProcessSession, exit: Exit, status: Status, now: int)
      requires Valid() && session in known
      modifies `running, `finished, session
      ensures Valid() && View() == old(View()).MarkExited(session, exit, status, now)
    {
      session.exited := true;
      session.exit := exit;
      running := running - {session.id};
      if !session.backgrounded {
        return;
      }
      finished := finished[session.id := Record(session.id, session.scopeKey, status, exit, now)];
    }

    /** The sweeper's pass over the finished records. */
    method PruneFinishedSessions(cutoff: int)
      requires Valid()
      modifies `finished
      ensures Valid() && View() == old(View()).Sweep(cutoff)
    {
      var left := finished.Keys;
      while left != {}
        invariant left <= finished.Keys <= old(finished).Keys
        invariant forall id :: id in finished ==> finished[id] == old(finished)[id]
        invariant forall id :: id in old(finished) && id !in left ==> (id in finished <==> old(finished)[id].endedAt >= cutoff)
        decreases |left|
      {
        var id :| id in left;
        left := left - {id};
        if finished[id].endedAt < cutoff {
          finished := finished - {id};
        }
      }
    }

    method Poll(tool: Option<string>, id: Id, now: int) returns (reply: Reply)
      requires Valid()
      modifies this, known
      ensures Valid() && View() == old(View()).Poll(tool, id, now) && reply == PollReply(old(View()), tool, id)
    {
      if id !in running || !InScope(tool, running[id].scopeKey) {
        if id in finished && InScope(tool, finished[id].scope) {
          return Ended(finished[id].status);
        }
        return NoSession;
      }
      var session := running[id];
      if !session.backgrounded {
        return NotBackgrounded;
      }
      if session.exited {
        var status := PollStatus(session.exit);
        MarkExited(session, session.exit, status, now);
        return Ended(status);
      }
      return StillRunning;
    }

    method Kill(tool: Option<string>, id: Id, now: int) returns (reply: Reply)
      requires Valid()
      modifies this, known
      ensures Valid() && View() == old(View()).Kill(tool, id, now)
      ensures reply.Done? <==> old(View()).Sees(tool, id) && old(View()).sessions[old(running)[id]].backgrounded
    {
      if id !in running || !InScope(tool, running[id].scopeKey) {
        return NoSession;
      }
      if !running[id].backgrounded {
        return NotBackgrounded;
      }
      MarkExited(running[id], KILLED, Failed, now);
      return Done;
    }

    method Clear(tool: Option<string>, id: Id) returns (reply: Reply)
      requires Valid()
      modifies `running, `finished
      ensures Valid() && View() == old(View()).Clear(tool, id)
      ensures reply.Done? <==> old(View()).SeesFinished(tool, id)
    {
      if id in finished && InScope(tool, finished[id].scope) {
        DeleteSession(id);
        return Done;
      }
      return NoSession;
    }

    method Remove(tool: Option<string>, id: Id, now: int) returns (reply: Reply)
      requires Valid()
      modifies this, known
      ensures Valid() && View() == old(View()).Remove(tool, id, now)
      ensures reply.Done? <==> old(View()).Sees(tool, id) || old(View()).SeesFinished(tool, id)
    {
      if id in running && InScope(tool, running[id].scopeKey) {
        MarkExited(running[id], KILLED, Failed, now);
        return Done;
      }
      if id in finished && InScope(tool, finished[id].scope) {
        DeleteSession(id);
        return Done;
      }
      return NoSession;
    }
  }
}
