/** The discovery cache, from its events (src/agents/bedrock-discovery.ts). */
module DiscoveryHistory {
  import opened Wrappers
  import opened BedrockDiscovery

  /** A key's place in the cache: empty, a request under way since `began`, or the value such a request brought. */
  datatype Slot<V> = Empty | Flying(sender: Caller, began: int) | Good(value: V, began: int)

  /** A value is good for one refresh interval from the moment its request was sent. */
  predicate Fresh<V>(slot: Slot<V>, key: Key, now: int) {
    slot.Good? && now - slot.began < 1000 * key.refreshSeconds
  }

  /** A call sends a request unless one is under way or a good value is there; the request's own end decides what
      comes of it, and nothing else concerns the key. */
  function SlotStep<V>(slot: Slot<V>, key: Key, event: Event<V>): Slot<V> {
    match event
    case Calls(caller, k, now) => if k != key || slot.Flying? || Fresh(slot, key, now) then slot else Flying(caller, now)
    case Responds(sender, value) => if slot.Flying? && slot.sender == sender then Good(value, slot.began) else slot
    case Fails(sender) => if slot.Flying? && slot.sender == sender then Empty else slot
  }

  function SlotAfter<V>(events: seq<Event<V>>, n: nat, key: Key): Slot<V>
    requires n <= |events|
  {
    if n == 0 then Empty else SlotStep(SlotAfter(events, n - 1, key), key, events[n - 1])
  }

  /** The cache holds that. */
  ghost predicate Shows<V>(state: State<V>, key: Key, slot: Slot<V>) {
    match slot
    case Empty => key !in state.cache
    case Flying(sender, began) =>
      && IsInFlight(state, key, sender) && state.cache[key].value.None?
      && IsOutstanding(state, key, sender) && state.outstanding[sender].began == began
    case Good(value, began) => key in state.cache && state.cache[key] == Entry(began + Interval(key), Some(value), None)
  }

  lemma {:induction false} CallShows<V(!new)>(a: State<V>, caller: Caller, k: Key, now: int, key: Key, slot: Slot<V>)
    requires FlightsMatch(a) && !Known(a, caller) && key.refreshSeconds > 0 && Shows(a, key, slot)
    ensures Shows(a.Call(caller, k, now), key, SlotStep(slot, key, Calls(caller, k, now)))
  {
    assert !Waits(a, caller, caller);
  }

  lemma {:induction false} EndShows<V(!new)>(a: State<V>, event: Event<V>, b: State<V>, key: Key, slot: Slot<V>)
    requires FlightsMatch(a) && key.refreshSeconds > 0 && Shows(a, key, slot)
    requires !event.Calls? && Transition(a, event, b)
    ensures Shows(b, key, SlotStep(slot, key, event))
  {
    if a.outstanding[event.sender].key == key {
      assert IsOutstanding(a, key, event.sender);
      assert IsInFlight(a, key, event.sender);
    }
  }

  lemma {:induction false} EventShows<V(!new)>(a: State<V>, event: Event<V>, b: State<V>, key: Key, slot: Slot<V>)
    requires FlightsMatch(a) && key.refreshSeconds > 0 && Shows(a, key, slot) && Transition(a, event, b)
    ensures Shows(b, key, SlotStep(slot, key, event))
  {
    match event
    case Calls(caller, k, now) => CallShows(a, caller, k, now, key, slot);
    case _ => EndShows(a, event, b, key, slot);
  }

  /** Over every interleaving, what the cache holds for a key follows from the events that concern this key. */
  lemma {:induction false} CacheShowsHistory<V(!new)>(events: seq<Event<V>>, states: seq<State<V>>, n: nat, key: Key)
    requires Trace(events, states) && n <= |events| && key.refreshSeconds > 0
    ensures Shows(states[n], key, SlotAfter(events, n, key))
  {
    if n > 0 {
      CacheShowsHistory(events, states, n - 1, key);
      FlightsAlwaysMatch(events, states, n - 1);
      assert Transition(states[n - 1], events[n - 1], states[n - 1 + 1]);
      EventShows(states[n - 1], events[n - 1], states[n], key, SlotAfter(events, n - 1, key));
    }
  }

  /** So the history alone decides what becomes of a call: it gets a cached value exactly when a fresh one is
      there, joins exactly when a request is under way, and sends one in every other case. */
  lemma {:induction false} CallFollowsHistory<V(!new)>(
    events: seq<Event<V>>, states: seq<State<V>>, n: nat, caller: Caller, key: Key, now: int)
    requires Trace(events, states) && n <= |events| && !Known(states[n], caller) && key.refreshSeconds > 0
    ensures var slot, next := SlotAfter(events, n, key), states[n].Call(caller, key, now);
            && (if Fresh(slot, key, now) then caller in next.replies && next.replies[caller] == Models(slot.value)
                else caller !in next.replies)
            && (caller in next.outstanding <==> !slot.Flying? && !Fresh(slot, key, now))
            && (forall s :: s != caller ==> (Waits(next, caller, s) <==> slot.Flying? && s == slot.sender))
  {
    CacheShowsHistory(events, states, n, key);
    assert !Waits(states[n], caller, caller);
    var slot, next := SlotAfter(events, n, key), states[n].Call(caller, key, now);
    forall s | s != caller
      ensures Waits(next, caller, s) <==> slot.Flying? && s == slot.sender
    {
      assert !Waits(states[n], caller, s);
    }
  }

  /** Without a refresh interval, every call sends a request of its own, and nothing is cached. */
  lemma {:induction false} UncachedCallsSend<V(!new)>(
    events: seq<Event<V>>, states: seq<State<V>>, n: nat, caller: Caller, key: Key, now: int)
    requires Trace(events, states) && n <= |events| && !Known(states[n], caller) && key.refreshSeconds == 0
    ensures var next := states[n].Call(caller, key, now);
            IsOutstanding(next, key, caller) && key !in next.cache && caller !in next.replies
  {
    FlightsAlwaysMatch(events, states, n);
  }
}
