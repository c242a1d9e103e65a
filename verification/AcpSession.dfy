/** The session store of the ACP bridge, with its run index (src/acp/session.ts). */
module AcpSession {
  import opened Wrappers

  type SessionId = string
  type RunId = string

  // ---------------------------------------------------------------------------
  // The store as a value
  // ---------------------------------------------------------------------------

  /** A session's run: its id and the controller that aborts it. */
  datatype Sess<C(==)> = Sess(activeRun: Option<RunId>, controller: Option<C>)

  datatype Store<C(==)> = Store(sessions: map<SessionId, Sess<C>>, runs: map<RunId, SessionId>) {
    function Create(id: SessionId): Store<C> {
      this.(sessions := sessions[id := Sess(None, None)])
    }

    function SetActive(id: SessionId, run: RunId, controller: C): Store<C> {
      if id !in sessions then this
      else Store(sessions[id := Sess(Some(run), Some(controller))], runs[run := id])
    }

    /** `clearActiveRun`; an empty run id stays in the index. */
    function ClearActive(id: SessionId): Store<C> {
      if id !in sessions then this
      else
        var run := sessions[id].activeRun;
        Store(sessions[id := Sess(None, None)], if run.Some? && run.value != "" then runs - {run.value} else runs)
    }

    function CancelActive(id: SessionId): Store<C> {
      if id in sessions && sessions[id].controller.Some? then ClearActive(id) else this
    }

    /** The session `getSessionByRunId` returns, by its id; an empty session id counts as none. */
    function ByRunId(run: RunId): Option<SessionId> {
      if run in runs && runs[run] != "" && runs[run] in sessions then Some(runs[run]) else None
    }
  }

  // ---------------------------------------------------------------------------
  // What the operations keep
  // ---------------------------------------------------------------------------

  /** A session has a run exactly when it has a controller. */
  ghost predicate RunsAreAbortable<C>(store: Store<C>) {
    forall id :: id in store.sessions ==> (store.sessions[id].activeRun.None? <==> store.sessions[id].controller.None?)
  }

  predicate IsActive<C>(store: Store<C>, id: SessionId, run: RunId) {
    id in store.sessions && store.sessions[id].activeRun == Some(run)
  }

  predicate IsIndexed<C>(store: Store<C>, id: SessionId, run: RunId) {
    run in store.runs && store.runs[run] == id
  }

  /** Every active run leads back to its session. */
  ghost predicate ActiveAreIndexed<C>(store: Store<C>) {
    forall id, run :: IsActive(store, id, run) ==> IsIndexed(store, id, run)
  }

  /** The index holds nothing else. */
  ghost predicate IndexedAreActive<C>(store: Store<C>) {
    forall id, run :: IsIndexed(store, id, run) ==> IsActive(store, id, run)
  }

  /** Starting a run keeps the index right exactly when no other session has a run of that id. */
  lemma {:induction false} SetActiveKeepsIndexIff<C(!new)>(store: Store<C>, id: SessionId, run: RunId, controller: C)
    requires ActiveAreIndexed(store) && id in store.sessions
    ensures ActiveAreIndexed(store.SetActive(id, run, controller)) <==>
            forall other :: other != id ==> !IsActive(store, other, run)
  {
    var next := store.SetActive(id, run, controller);
    if ActiveAreIndexed(next) {
      forall other | other != id
        ensures !IsActive(store, other, run)
      {
        assert IsActive(store, other, run) ==> IsActive(next, other, run);
        assert !IsIndexed(next, other, run);
      }
    } else {
      var i, r :| IsActive(next, i, r) && !IsIndexed(next, i, r);
      assert i != id;
      assert IsActive(store, i, r) && IsIndexed(store, i, r);
      assert r == run;
    }
  }

  /** Creating a session, or ending a run, keeps the index right. */
  lemma {:induction false} EndingKeepsIndex<C(!new)>(store: Store<C>, next: Store<C>, id: SessionId)
    requires ActiveAreIndexed(store)
    requires next == store.Create(id) || next == store.ClearActive(id) || next == store.CancelActive(id)
    ensures ActiveAreIndexed(next)
  {
    if id in store.sessions && store.sessions[id].activeRun.Some? {
      assert IsActive(store, id, store.sessions[id].activeRun.value);
    }
    forall i, r | IsActive(next, i, r)
      ensures IsIndexed(next, i, r)
    {
      assert i != id || next == store;
      assert IsActive(store, i, r) && IsIndexed(store, i, r);
    }
  }

  /** Creating a session leaves no stale entry exactly when the id had no active run before. */
  lemma {:induction false} CreateKeepsExactIff<C(!new)>(store: Store<C>, id: SessionId)
    requires ActiveAreIndexed(store) && IndexedAreActive(store)
    ensures IndexedAreActive(store.Create(id)) <==> (id in store.sessions ==> store.sessions[id].activeRun.None?)
  {
    var next := store.Create(id);
    if id in store.sessions && store.sessions[id].activeRun.Some? {
      var run := store.sessions[id].activeRun.value;
      assert IsActive(store, id, run) && IsIndexed(next, id, run) && !IsActive(next, id, run);
    } else {
      forall i, r | IsIndexed(next, i, r)
        ensures IsActive(next, i, r)
      {
        assert IsIndexed(store, i, r);
      }
    }
  }

  /** Starting a run leaves no stale entry exactly when the session had no other run: the caller has to cancel
      that one first, as `prompt` does. */
  lemma {:induction false} SetActiveKeepsExactIff<C(!new)>(store: Store<C>, id: SessionId, run: RunId, controller: C)
    requires ActiveAreIndexed(store) && IndexedAreActive(store) && id in store.sessions
    ensures IndexedAreActive(store.SetActive(id, run, controller)) <==>
            store.sessions[id].activeRun.None? || store.sessions[id].activeRun == Some(run)
  {
    var next := store.SetActive(id, run, controller);
    var was := store.sessions[id].activeRun;
    if was.Some? && was.value != run {
      assert IsActive(store, id, was.value) && IsIndexed(next, id, was.value) && !IsActive(next, id, was.value);
    } else {
      forall i, r | IsIndexed(next, i, r)
        ensures IsActive(next, i, r)
      {
        if r != run {
          assert IsIndexed(store, i, r) && IsActive(store, i, r);
        }
      }
    }
  }

  /** Ending a run leaves no stale entry, unless the run's id is empty. */
  lemma {:induction false} ClearKeepsExactIff<C(!new)>(store: Store<C>, id: SessionId)
    requires ActiveAreIndexed(store) && IndexedAreActive(store)
    ensures IndexedAreActive(store.ClearActive(id)) <==> !IsActive(store, id, "")
  {
    var next := store.ClearActive(id);
    if IsActive(store, id, "") {
      assert IsIndexed(next, id, "") && !IsActive(next, id, "");
    } else {
      forall i, r | IsIndexed(next, i, r)
        ensures IsActive(next, i, r)
      {
        assert IsIndexed(store, i, r) && IsActive(store, i, r);
      }
    }
  }

  /** Ending a run undoes starting it, exactly when the index had no entry for it. (The entry of an empty run
      id is not taken back.) */
  lemma {:induction false} ClearUndoesSetIff<C(!new)>(store: Store<C>, id: SessionId, run: RunId, controller: C)
    requires id in store.sessions && store.sessions[id] == Sess(None, None)
    ensures store.SetActive(id, run, controller).ClearActive(id) == store <==>
            if run == "" then IsIndexed(store, id, run) else run !in store.runs
  {
    var back := store.SetActive(id, run, controller).ClearActive(id);
    assert back.sessions == store.sessions;
    if run == "" {
      assert back.runs == store.runs[run := id];
      if back.runs == store.runs { assert run in back.runs && back.runs[run] == id; }
    } else {
      assert back.runs == store.runs - {run};
    }
  }

  // ---------------------------------------------------------------------------
  // Whole runs
  // ---------------------------------------------------------------------------

  datatype Op<C> =
    | Creates(id: SessionId)
    | SetsActive(id: SessionId, run: RunId, controller: C)
    | ClearsActive(id: SessionId)
    | CancelsActive(id: SessionId)
    | ClearsAll

  function Apply<C>(store: Store<C>, op: Op<C>): Store<C> {
    match op
    case Creates(id) => store.Create(id)
    case SetsActive(id, run, controller) => store.SetActive(id, run, controller)
    case ClearsActive(id) => store.ClearActive(id)
    case CancelsActive(id) => store.CancelActive(id)
    case ClearsAll => Store(map[], map[])
  }

  function After<C>(ops: seq<Op<C>>, n: nat): Store<C>
    requires n <= |ops|
  {
    if n == 0 then Store(map[], map[]) else Apply(After(ops, n - 1), ops[n - 1])
  }

  /** The run ids the first `n` operations started runs with. */
  function Used<C>(ops: seq<Op<C>>, n: nat): set<RunId>
    requires n <= |ops|
  {
    if n == 0 then {}
    else if ops[n - 1].SetsActive? then Used(ops, n - 1) + {ops[n - 1].run}
    else Used(ops, n - 1)
  }

  /** Every run gets an id of its own. */
  ghost predicate RunIdsAreNew<C>(ops: seq<Op<C>>) {
    forall k :: 0 <= k < |ops| && ops[k].SetsActive? ==> ops[k].run !in Used(ops, k)
  }

  ghost predicate ActiveAreUsed<C>(store: Store<C>, used: set<RunId>) {
    forall id, run :: IsActive(store, id, run) ==> run in used
  }

  lemma {:induction false} ApplyKeepsIndex<C(!new)>(store: Store<C>, op: Op<C>, used: set<RunId>)
    requires ActiveAreIndexed(store) && ActiveAreUsed(store, used) && (op.SetsActive? ==> op.run !in used)
    ensures ActiveAreIndexed(Apply(store, op))
  {
    if op.SetsActive? {
      if op.id in store.sessions {
        SetActiveKeepsIndexIff(store, op.id, op.run, op.controller);
      }
    } else if !op.ClearsAll? {
      EndingKeepsIndex(store, Apply(store, op), op.id);
    }
  }

  lemma {:induction false} ApplyKeepsUsed<C(!new)>(store: Store<C>, op: Op<C>, used: set<RunId>)
    requires ActiveAreUsed(store, used)
    ensures ActiveAreUsed(Apply(store, op), if op.SetsActive? then used + {op.run} else used)
  {
    forall id, run | IsActive(Apply(store, op), id, run)
      ensures run in used || (op.SetsActive? && run == op.run)
    {
      assert IsActive(store, id, run) || (op.SetsActive? && id == op.id);
    }
  }

  lemma {:induction false} IndexThroughout<C(!new)>(ops: seq<Op<C>>, n: nat)
    requires n <= |ops| && RunIdsAreNew(ops)
    ensures ActiveAreIndexed(After(ops, n)) && ActiveAreUsed(After(ops, n), Used(ops, n))
  {
    if n > 0 {
      IndexThroughout(ops, n - 1);
      ApplyKeepsIndex(After(ops, n - 1), ops[n - 1], Used(ops, n - 1));
      ApplyKeepsUsed(After(ops, n - 1), ops[n - 1], Used(ops, n - 1));
    }
  }

  /** In every state a session has a run exactly when it has a controller, whatever the ids. */
  lemma {:induction false} RunsAreAlwaysAbortable<C(!new)>(ops: seq<Op<C>>, n: nat)
    requires n <= |ops|
    ensures RunsAreAbortable(After(ops, n))
  {
    if n > 0 {
      RunsAreAlwaysAbortable(ops, n - 1);
    }
  }

  /** When run ids are never used twice, looking up an active run finds its session, exactly when the
      session's id is not empty. */
  lemma {:induction false} LookupFindsActiveIff<C(!new)>(ops: seq<Op<C>>, n: nat, id: SessionId, run: RunId)
    requires n <= |ops| && RunIdsAreNew(ops) && IsActive(After(ops, n), id, run)
    ensures After(ops, n).ByRunId(run) == Some(id) <==> id != ""
  {
    IndexThroughout(ops, n);
    assert IsIndexed(After(ops, n), id, run);
  }

  predicate HasRun<C>(store: Store<C>, id: SessionId) {
    id in store.sessions && store.sessions[id].activeRun.Some?
  }

  /** How the bridge uses the store: a session with a run is neither created again nor given another run
      before that one is cancelled, and run ids are not empty. */
  predicate IsCareful<C>(store: Store<C>, op: Op<C>) {
    (op.Creates? || op.SetsActive? ==> !HasRun(store, op.id)) && (op.SetsActive? ==> op.run != "")
  }

  lemma {:induction false} ApplyKeepsExact<C(!new)>(store: Store<C>, op: Op<C>, used: set<RunId>)
    requires ActiveAreIndexed(store) && IndexedAreActive(store) && ActiveAreUsed(store, used) && "" !in used
    requires IsCareful(store, op)
    ensures IndexedAreActive(Apply(store, op))
  {
    match op
    case Creates(id) => CreateKeepsExactIff(store, id);
    case SetsActive(id, run, controller) => if id in store.sessions { SetActiveKeepsExactIff(store, id, run, controller); }
    case ClearsActive(id) =>
      assert IsActive(store, id, "") ==> "" in used;
      ClearKeepsExactIff(store, id);
    case CancelsActive(id) =>
      assert IsActive(store, id, "") ==> "" in used;
      ClearKeepsExactIff(store, id);
    case ClearsAll =>
  }

  ghost predicate UsedCarefully<C>(ops: seq<Op<C>>, n: nat)
    requires n <= |ops|
  {
    n == 0 || (UsedCarefully(ops, n - 1) && IsCareful(After(ops, n - 1), ops[n - 1]))
  }

  lemma {:induction false} CarefulRunIdsAreNotEmpty<C>(ops: seq<Op<C>>, n: nat)
    requires n <= |ops| && UsedCarefully(ops, n)
    ensures "" !in Used(ops, n)
  {
    if n > 0 {
      CarefulRunIdsAreNotEmpty(ops, n - 1);
    }
  }

  /** Used that way, the index holds exactly the active runs in every state. */
  lemma {:induction false} IndexIsExactThroughout<C(!new)>(ops: seq<Op<C>>, n: nat)
    requires n <= |ops| && RunIdsAreNew(ops) && UsedCarefully(ops, n)
    ensures IndexedAreActive(After(ops, n)) && ActiveAreIndexed(After(ops, n))
  {
    IndexThroughout(ops, n);
    if n > 0 {
      IndexIsExactThroughout(ops, n - 1);
      StepKeepsExact(ops, n);
    }
  }

  lemma {:induction false} StepKeepsExact<C(!new)>(ops: seq<Op<C>>, n: nat)
    requires 0 < n <= |ops| && RunIdsAreNew(ops) && UsedCarefully(ops, n) && IndexedAreActive(After(ops, n - 1))
    ensures IndexedAreActive(After(ops, n))
  {
    IndexThroughout(ops, n - 1);
    CarefulRunIdsAreNotEmpty(ops, n - 1);
    var store, op := After(ops, n - 1), ops[n - 1];
    ApplyKeepsExact(store, op, Used(ops, n - 1));
  }

  // ---------------------------------------------------------------------------
  // The store as objects
  // ---------------------------------------------------------------------------

  class AbortController {
    var aborted: bool

    constructor ()
      ensures !aborted
    {
      aborted := false;
    }

    method Abort()
      modifies this
      ensures aborted
    {
      aborted := true;
    }
  }

  class AcpSession {
    const sessionId: SessionId
    var abortController: Option<AbortController>
    var activeRunId: Option<RunId>

    constructor (sessionId: SessionId)
      ensures this.sessionId == sessionId && State() == Sess(None, None)
    {
      this.sessionId := sessionId;
      abortController, activeRunId := None, None;
    }

    function State(): Sess<AbortController>
      reads this
    {
      Sess(activeRunId, abortController)
    }
  }

  class InMemorySessionStore {
    var sessions: map<SessionId, AcpSession>
    var runIdToSessionId: map<RunId, SessionId>

    ghost predicate Valid()
      reads this
    {
      forall id :: id in sessions ==> sessions[id].sessionId == id
    }

    ghost function View(): Store<AbortController>
      reads this, sessions.Values
    {
      Store(map id | id in sessions :: sessions[id].State(), runIdToSessionId)
    }

    constructor ()
      ensures Valid() && View() == Store(map[], map[])
    {
      sessions, runIdToSessionId := map[], map[];
    }

    method CreateSession(sessionId: SessionId) returns (session: AcpSession)
      requires Valid()
      modifies `sessions
      ensures Valid() && View() == old(View()).Create(sessionId)
      ensures fresh(session) && sessions == old(sessions)[sessionId := session]
    {
      session := new AcpSession(sessionId);
      sessions := sessions[sessionId := session];
    }

    method GetSessionByRunId(runId: RunId) returns (session: Option<AcpSession>)
      requires Valid()
      ensures match View().ByRunId(runId)
              case None => session == None
              case Some(id) => id in sessions && session == Some(sessions[id])
    {
      if runId in runIdToSessionId {
        var id := runIdToSessionId[runId];
        if id != "" && id in sessions {
          return Some(sessions[id]);
        }
      }
      return None;
    }

    method SetActiveRun(sessionId: SessionId, runId: RunId, abortController: AbortController)
      requires Valid()
      modifies `runIdToSessionId, if sessionId in sessions then {sessions[sessionId]} else {}
      ensures Valid() && View() == old(View()).SetActive(sessionId, runId, abortController)
    {
      if sessionId !in sessions {
        return;
      }
      var session := sessions[sessionId];
      session.activeRunId := Some(runId);
      session.abortController := Some(abortController);
      runIdToSessionId := runIdToSessionId[runId := sessionId];
    }

    method ClearActiveRun(sessionId: SessionId)
      requires Valid()
      modifies `runIdToSessionId, if sessionId in sessions then {sessions[sessionId]} else {}
      ensures Valid() && View() == old(View()).ClearActive(sessionId)
    {
      if sessionId !in sessions {
        return;
      }
      var session := sessions[sessionId];
      if session.activeRunId.Some? && session.activeRunId.value != "" {
        runIdToSessionId := runIdToSessionId - {session.activeRunId.value};
      }
      session.activeRunId := None;
      session.abortController := None;
    }

    /** The run's controller, and no other, is aborted; the answer says whether there was one. */
    method CancelActiveRun(sessionId: SessionId) returns (cancelled: bool)
      requires Valid()
      modifies `runIdToSessionId, if sessionId in sessions then {sessions[sessionId]} else {}
      modifies if sessionId in sessions && sessions[sessionId].abortController.Some? then {sessions[sessionId].abortController.value} else {}
      ensures Valid() && View() == old(View()).CancelActive(sessionId)
      ensures cancelled <==> sessionId in sessions && old(sessions[sessionId].abortController).Some?
      ensures cancelled ==> old(sessions[sessionId].abortController).value.aborted
    {
      if sessionId !in sessions || sessions[sessionId].abortController.None? {
        return false;
      }
      var session := sessions[sessionId];
      session.abortController.value.Abort();
      ClearActiveRun(sessionId);   // the original repeats the statements of `clearActiveRun` here
      return true;
    }

    ghost function Controllers(): set<AbortController>
      reads this, sessions.Values
    {
      set id | id in sessions && sessions[id].abortController.Some? :: sessions[id].abortController.value
    }

    /** Every controller of a session is aborted. */
    method ClearAllSessionsForTest()
      requires Valid()
      modifies `sessions, `runIdToSessionId, Controllers()
      ensures Valid() && View() == Store(map[], map[])
      ensures forall c :: c in old(Controllers()) ==> c.aborted
    {
      var left := sessions.Keys;
      while left != {}
        invariant left <= sessions.Keys
        invariant sessions == old(sessions) && Controllers() == old(Controllers())
        invariant forall id :: id in sessions && id !in left && sessions[id].abortController.Some? ==>
                    sessions[id].abortController.value.aborted
        decreases |left|
      {
        var id :| id in left;
        left := left - {id};
        if sessions[id].abortController.Some? {
          sessions[id].abortController.value.Abort();
        }
      }
      sessions := map[];
      runIdToSessionId := map[];
    }
  }
}
