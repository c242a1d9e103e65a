/** The session store, from its operations (src/acp/session.ts). */
module AcpHistory {
  import opened Wrappers
  import opened AcpSession

  /** A session the store does not know, or one without a run, or with one. */
  datatype Life<C> = Unknown | Idle | Active(run: RunId, controller: C)

  /** Creating makes a session idle, whatever it was; only a known one gets a run; ending and cancelling take it
      away again; clearing all forgets every session. */
  function LifeStep<C>(life: Life<C>, id: SessionId, op: Op<C>): Life<C> {
    match op
    case Creates(i) => if i == id then Idle else life
    case SetsActive(i, run, controller) => if i == id && !life.Unknown? then Active(run, controller) else life
    case ClearsActive(i) => if i == id && life.Active? then Idle else life
    case CancelsActive(i) => if i == id && life.Active? then Idle else life
    case ClearsAll => Unknown
  }

  function LifeAfter<C>(ops: seq<Op<C>>, n: nat, id: SessionId): Life<C>
    requires n <= |ops|
  {
    if n == 0 then Unknown else LifeStep(LifeAfter(ops, n - 1, id), id, ops[n - 1])
  }

  function LifeIn<C>(store: Store<C>, id: SessionId): Life<C>
    requires RunsAreAbortable(store)
  {
    if id !in store.sessions then Unknown
    else if store.sessions[id].activeRun.None? then Idle
    else Active(store.sessions[id].activeRun.value, store.sessions[id].controller.value)
  }

  lemma {:induction false} LifeInStep<C(!new)>(store: Store<C>, op: Op<C>, id: SessionId)
    requires RunsAreAbortable(store)
    ensures RunsAreAbortable(Apply(store, op)) && LifeIn(Apply(store, op), id) == LifeStep(LifeIn(store, id), id, op)
  {
  }

  /** After any operations a session has exactly the run, with its controller, that the operations on this session
      leave it. */
  lemma {:induction false} SessionShowsItsLife<C(!new)>(ops: seq<Op<C>>, n: nat, id: SessionId)
    requires n <= |ops|
    ensures RunsAreAbortable(After(ops, n)) && LifeIn(After(ops, n), id) == LifeAfter(ops, n, id)
  {
    if n > 0 {
      SessionShowsItsLife(ops, n - 1, id);
      LifeInStep(After(ops, n - 1), ops[n - 1], id);
    }
  }

  /** Where the index leads a run: to the known session that started it last, until that run ends; an empty run
      id stays in the index. */
  function HolderAfter<C>(ops: seq<Op<C>>, n: nat, run: RunId): Option<SessionId>
    requires n <= |ops|
  {
    if n == 0 then None
    else
      var before := HolderAfter(ops, n - 1, run);
      match ops[n - 1]
      case Creates(_) => before
      case SetsActive(id, r, _) => if r == run && !LifeAfter(ops, n - 1, id).Unknown? then Some(id) else before
      case ClearsActive(id) => if Ends(LifeAfter(ops, n - 1, id), run) then None else before
      case CancelsActive(id) => if Ends(LifeAfter(ops, n - 1, id), run) then None else before
      case ClearsAll => None
  }

  predicate Ends<C>(life: Life<C>, run: RunId) {
    life.Active? && life.run == run && run != ""
  }

  function HolderIn<C>(store: Store<C>, run: RunId): Option<SessionId> {
    if run in store.runs then Some(store.runs[run]) else None
  }

  lemma {:induction false} HolderStep<C(!new)>(store: Store<C>, op: Op<C>, run: RunId)
    requires RunsAreAbortable(store)
    ensures HolderIn(Apply(store, op), run)
         == match op {
              case Creates(_) => HolderIn(store, run)
              case SetsActive(id, r, _) => if r == run && !LifeIn(store, id).Unknown? then Some(id) else HolderIn(store, run)
              case ClearsActive(id) => if Ends(LifeIn(store, id), run) then None else HolderIn(store, run)
              case CancelsActive(id) => if Ends(LifeIn(store, id), run) then None else HolderIn(store, run)
              case ClearsAll => None
            }
  {
  }

  /** After any operations the index leads every run there. */
  lemma {:induction false} IndexShowsHistory<C(!new)>(ops: seq<Op<C>>, n: nat, run: RunId)
    requires n <= |ops|
    ensures HolderIn(After(ops, n), run) == HolderAfter(ops, n, run)
  {
    if n > 0 {
      IndexShowsHistory(ops, n - 1, run);
      RunsAreAlwaysAbortable(ops, n - 1);
      if !ops[n - 1].ClearsAll? {
        SessionShowsItsLife(ops, n - 1, ops[n - 1].id);
      }
      HolderStep(After(ops, n - 1), ops[n - 1], run);
    }
  }
}
