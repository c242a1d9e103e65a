/** The cache of Bedrock model discovery and its requests in flight (src/agents/bedrock-discovery.ts). */
module BedrockDiscovery {
  import opened Wrappers

  /** The cache key: among other parameters it holds the refresh interval, in seconds. */
  datatype Key = Key(region: string, filter: seq<string>, refreshSeconds: nat)

  type Caller = nat

  function Interval(key: Key): nat { key.refreshSeconds * 1000 }

  /** An entry holds a value or the request that will bring one, known by the caller that sent it. */
  datatype Entry<V> = Entry(expiresAt: int, value: Option<V>, inFlight: Option<Caller>)

  datatype Request = Request(key: Key, began: int, joiners: set<Caller>)

  /** What a caller's promise settles with. */
  datatype Reply<V> = Models(value: V) | NoModels | Rejected

  datatype Event<V> =
    | Calls(caller: Caller, key: Key, now: int)
    | Responds(sender: Caller, value: V)
    | Fails(sender: Caller)

  // ---------------------------------------------------------------------------
  // The cache as a value
  // ---------------------------------------------------------------------------

  datatype State<V> = State(cache: map<Key, Entry<V>>, outstanding: map<Caller, Request>, replies: map<Caller, Reply<V>>) {
    /** The cached value is still good at `now`. */
    predicate Hit(key: Key, now: int) {
      key.refreshSeconds > 0 && key in cache && cache[key].value.Some? && cache[key].expiresAt > now
    }

    predicate Joins(key: Key, now: int) {
      key.refreshSeconds > 0 && !Hit(key, now) && key in cache && cache[key].inFlight.Some?
    }

    function Call(caller: Caller, key: Key, now: int): State<V> {
      if Hit(key, now) then this.(replies := replies[caller := Models(cache[key].value.value)])
      else if Joins(key, now) then
        var sender := cache[key].inFlight.value;
        if sender in outstanding
        then this.(outstanding := outstanding[sender := outstanding[sender].(joiners := outstanding[sender].joiners + {caller})])
        else this
      else
        State(if key.refreshSeconds > 0 then cache[key := Entry(now + Interval(key), None, Some(caller))] else cache,
              outstanding[caller := Request(key, now, {})], replies)
    }

    function Respond(sender: Caller, value: V): State<V>
      requires sender in outstanding
    {
      var r := outstanding[sender];
      State(if r.key.refreshSeconds > 0 then cache[r.key := Entry(r.began + Interval(r.key), Some(value), None)] else cache,
            outstanding - {sender},
            (replies + map c | c in r.joiners :: Models(value))[sender := Models(value)])
    }

    /** The sender gets an empty list; those who joined it see the request's own failure. */
    function Fail(sender: Caller): State<V>
      requires sender in outstanding
    {
      var r := outstanding[sender];
      State(if r.key.refreshSeconds > 0 then cache - {r.key} else cache,
            outstanding - {sender},
            (replies + map c | c in r.joiners :: Rejected)[sender := NoModels])
    }
  }

  /** Callers are known by different numbers, and only an outstanding request gets an answer. */
  ghost predicate Transition<V(!new)>(a: State<V>, event: Event<V>, b: State<V>) {
    match event
    case Calls(caller, key, now) => !Known(a, caller) && b == a.Call(caller, key, now)
    case Responds(sender, value) => sender in a.outstanding && b == a.Respond(sender, value)
    case Fails(sender) => sender in a.outstanding && b == a.Fail(sender)
  }

  ghost predicate Trace<V(!new)>(events: seq<Event<V>>, states: seq<State<V>>) {
    && |states| == |events| + 1 && states[0] == State(map[], map[], map[])
    && forall k :: 0 <= k < |events| ==> Transition(states[k], events[k], states[k + 1])
  }

  // ---------------------------------------------------------------------------
  // Single flight
  // ---------------------------------------------------------------------------

  predicate IsOutstanding<V>(state: State<V>, key: Key, sender: Caller) {
    sender in state.outstanding && state.outstanding[sender].key == key
  }

  predicate IsInFlight<V>(state: State<V>, key: Key, sender: Caller) {
    key in state.cache && state.cache[key].inFlight == Some(sender)
  }

  /** For cached keys: an entry is in flight exactly while its request is outstanding. */
  ghost predicate FlightsMatch<V>(state: State<V>) {
    && (forall key: Key, sender :: key.refreshSeconds > 0 ==> (IsInFlight(state, key, sender) <==> IsOutstanding(state, key, sender)))
    && (forall key :: key in state.cache ==> key.refreshSeconds > 0 && (state.cache[key].value.Some? <==> state.cache[key].inFlight.None?))
  }

  predicate Waits<V>(state: State<V>, caller: Caller, sender: Caller) {
    sender in state.outstanding && (caller == sender || caller in state.outstanding[sender].joiners)
  }

  /** The caller has a reply, or waits for a request. */
  ghost predicate Known<V>(state: State<V>, caller: Caller) {
    caller in state.replies || exists sender :: Waits(state, caller, sender)
  }

  lemma {:induction false} CallKeepsFlights<V(!new)>(a: State<V>, caller: Caller, key: Key, now: int)
    requires FlightsMatch(a) && !Known(a, caller)
    ensures FlightsMatch(a.Call(caller, key, now))
  {
    assert !Waits(a, caller, caller);
    var b := a.Call(caller, key, now);
    forall k: Key, s | k.refreshSeconds > 0
      ensures IsInFlight(b, k, s) <==> IsOutstanding(b, k, s)
    {
      assert IsInFlight(a, k, s) <==> IsOutstanding(a, k, s);
    }
  }

  lemma {:induction false} EndKeepsFlights<V(!new)>(a: State<V>, b: State<V>, sender: Caller)
    requires FlightsMatch(a) && sender in a.outstanding
    requires b == a.Fail(sender) || exists value :: b == a.Respond(sender, value)
    ensures FlightsMatch(b)
  {
    var r := a.outstanding[sender];
    assert IsOutstanding(a, r.key, sender);
    forall k: Key, s | k.refreshSeconds > 0
      ensures IsInFlight(b, k, s) <==> IsOutstanding(b, k, s)
    {
      assert IsInFlight(a, k, s) <==> IsOutstanding(a, k, s);
      if k == r.key {
        assert IsInFlight(a, k, sender);
      }
    }
  }

  /** Over every interleaving of callers, responses and failures: an entry is in flight exactly while its
      request is outstanding. */
  lemma {:induction false} FlightsAlwaysMatch<V(!new)>(events: seq<Event<V>>, states: seq<State<V>>, n: nat)
    requires Trace(events, states) && n <= |events|
    ensures FlightsMatch(states[n])
  {
    if n > 0 {
      FlightsAlwaysMatch(events, states, n - 1);
      assert Transition(states[n - 1], events[n - 1], states[n]);
      match events[n - 1]
      case Calls(caller, key, now) => CallKeepsFlights(states[n - 1], caller, key, now);
      case Responds(sender, value) => EndKeepsFlights(states[n - 1], states[n], sender);
      case Fails(sender) => EndKeepsFlights(states[n - 1], states[n], sender);
    }
  }

  /** So a cached key never has two requests outstanding. */
  lemma {:induction false} SingleFlight<V(!new)>(events: seq<Event<V>>, states: seq<State<V>>, n: nat, key: Key, a: Caller, b: Caller)
    requires Trace(events, states) && n <= |events| && key.refreshSeconds > 0
    requires IsOutstanding(states[n], key, a) && IsOutstanding(states[n], key, b)
    ensures a == b
  {
    FlightsAlwaysMatch(events, states, n);
    assert IsInFlight(states[n], key, a) && IsInFlight(states[n], key, b);
  }

  /** A call sends a request exactly when its key is not cached at all, or there is neither a good value nor
      an outstanding request for it. */
  lemma {:induction false} CallSendsIff<V(!new)>(events: seq<Event<V>>, states: seq<State<V>>, n: nat, caller: Caller, key: Key, now: int)
    requires Trace(events, states) && n <= |events| && !Known(states[n], caller)
    ensures caller in states[n].Call(caller, key, now).outstanding <==>
            key.refreshSeconds == 0 || (!states[n].Hit(key, now) && forall s :: !IsOutstanding(states[n], key, s))
  {
    FlightsAlwaysMatch(events, states, n);
    var a := states[n];
    assert !Waits(a, caller, caller);
    if key.refreshSeconds > 0 && key in a.cache && a.cache[key].inFlight.Some? {
      assert IsInFlight(a, key, a.cache[key].inFlight.value);
    } else if key.refreshSeconds > 0 {
      forall s
        ensures !IsOutstanding(a, key, s)
      {
        assert !IsInFlight(a, key, s);
      }
    }
  }

  // ---------------------------------------------------------------------------
  // How old a cached value may be
  // ---------------------------------------------------------------------------

  /** One of the first `n` events is the call that sent the request. */
  ghost predicate Sent<V(!new)>(events: seq<Event<V>>, n: nat, sender: Caller, key: Key, began: int)
    requires n <= |events|
  {
    exists i :: 0 <= i < n && events[i] == Calls(sender, key, began)
  }

  /** One of the first `n` events brought the value, for a request sent at `began`. */
  ghost predicate Brought<V(!new)>(events: seq<Event<V>>, n: nat, key: Key, began: int, value: V)
    requires n <= |events|
  {
    exists j, sender :: 0 <= j < n && events[j] == Responds(sender, value) && Sent(events, j, sender, key, began)
  }

  ghost predicate RequestsWereSent<V(!new)>(events: seq<Event<V>>, n: nat, state: State<V>)
    requires n <= |events|
  {
    forall s :: s in state.outstanding ==> Sent(events, n, s, state.outstanding[s].key, state.outstanding[s].began)
  }

  ghost predicate ValuesWereBrought<V(!new)>(events: seq<Event<V>>, n: nat, state: State<V>)
    requires n <= |events|
  {
    forall key :: key in state.cache && state.cache[key].value.Some? ==>
      Brought(events, n, key, state.cache[key].expiresAt - Interval(key), state.cache[key].value.value)
  }

  lemma {:induction false} SentStays<V(!new)>(events: seq<Event<V>>, n: nat, sender: Caller, key: Key, began: int)
    requires n < |events| && Sent(events, n, sender, key, began)
    ensures Sent(events, n + 1, sender, key, began)
  {
    var i :| 0 <= i < n && events[i] == Calls(sender, key, began);
  }

  lemma {:induction false} BroughtStays<V(!new)>(events: seq<Event<V>>, n: nat, key: Key, began: int, value: V)
    requires n < |events| && Brought(events, n, key, began, value)
    ensures Brought(events, n + 1, key, began, value)
  {
    var j, sender :| 0 <= j < n && events[j] == Responds(sender, value) && Sent(events, j, sender, key, began);
  }

  lemma {:induction false} SentStep<V(!new)>(events: seq<Event<V>>, n: nat, a: State<V>, b: State<V>)
    requires n < |events| && Transition(a, events[n], b) && RequestsWereSent(events, n, a)
    ensures RequestsWereSent(events, n + 1, b)
  {
    forall s | s in b.outstanding
      ensures Sent(events, n + 1, s, b.outstanding[s].key, b.outstanding[s].began)
    {
      if s in a.outstanding && b.outstanding[s].key == a.outstanding[s].key && b.outstanding[s].began == a.outstanding[s].began {
        SentStays(events, n, s, a.outstanding[s].key, a.outstanding[s].began);
      } else {
        assert events[n] == Calls(s, b.outstanding[s].key, b.outstanding[s].began);
      }
    }
  }

  lemma {:induction false} BroughtStep<V(!new)>(events: seq<Event<V>>, n: nat, a: State<V>, b: State<V>)
    requires n < |events| && Transition(a, events[n], b) && RequestsWereSent(events, n, a) && ValuesWereBrought(events, n, a)
    ensures ValuesWereBrought(events, n + 1, b)
  {
    forall key | key in b.cache && b.cache[key].value.Some?
      ensures Brought(events, n + 1, key, b.cache[key].expiresAt - Interval(key), b.cache[key].value.value)
    {
      if key in a.cache && b.cache[key] == a.cache[key] {
        BroughtStays(events, n, key, a.cache[key].expiresAt - Interval(key), a.cache[key].value.value);
      } else {
        assert events[n].Responds? && events[n].sender in a.outstanding;
        assert Sent(events, n, events[n].sender, key, a.outstanding[events[n].sender].began);
      }
    }
  }

  lemma {:induction false} OriginsStep<V(!new)>(events: seq<Event<V>>, n: nat, a: State<V>, b: State<V>)
    requires n < |events| && Transition(a, events[n], b) && RequestsWereSent(events, n, a) && ValuesWereBrought(events, n, a)
    ensures RequestsWereSent(events, n + 1, b) && ValuesWereBrought(events, n + 1, b)
  {
    SentStep(events, n, a, b);
    BroughtStep(events, n, a, b);
  }

  lemma {:induction false} OriginsThroughout<V(!new)>(events: seq<Event<V>>, states: seq<State<V>>, n: nat)
    requires Trace(events, states) && n <= |events|
    ensures RequestsWereSent(events, n, states[n]) && ValuesWereBrought(events, n, states[n])
  {
    if n > 0 {
      OriginsThroughout(events, states, n - 1);
      OriginsStep(events, n - 1, states[n - 1], states[n]);
    }
  }

  /** A cached value is only returned when a request for its key brought it that began less than one refresh
      interval before the caller's clock, whatever the callers' clocks are. */
  lemma {:induction false} CachedValueIsFresh<V(!new)>(events: seq<Event<V>>, states: seq<State<V>>, n: nat, key: Key, now: int)
      returns (began: int)
    requires Trace(events, states) && n <= |events| && states[n].Hit(key, now)
    ensures Brought(events, n, key, began, states[n].cache[key].value.value) && now - began < Interval(key)
  {
    OriginsThroughout(events, states, n);
    began := states[n].cache[key].expiresAt - Interval(key);
  }

  // ---------------------------------------------------------------------------
  // Every caller is served
  // ---------------------------------------------------------------------------

  ghost predicate HasCalled<V(!new)>(events: seq<Event<V>>, n: nat, caller: Caller)
    requires n <= |events|
  {
    exists i :: 0 <= i < n && events[i].Calls? && events[i].caller == caller
  }

  /** Nobody waits twice, or after a reply. */
  ghost predicate NobodyServedTwice<V(!new)>(state: State<V>) {
    && (forall c, s :: Waits(state, c, s) ==> c !in state.replies)
    && (forall c, s, t :: Waits(state, c, s) && Waits(state, c, t) ==> s == t)
  }

  lemma {:induction false} CallServes<V(!new)>(a: State<V>, caller: Caller, key: Key, now: int)
    requires FlightsMatch(a) && NobodyServedTwice(a) && !Known(a, caller)
    ensures NobodyServedTwice(a.Call(caller, key, now))
    ensures forall c :: Known(a.Call(caller, key, now), c) <==> Known(a, c) || c == caller
  {
    var b := a.Call(caller, key, now);
    assert forall s :: !Waits(a, caller, s);
    if a.Joins(key, now) {
      assert IsInFlight(a, key, a.cache[key].inFlight.value);
      assert IsOutstanding(a, key, a.cache[key].inFlight.value);
      assert Waits(b, caller, a.cache[key].inFlight.value);
    } else if !a.Hit(key, now) {
      assert Waits(b, caller, caller);
    }
    forall c, s
      ensures Waits(b, c, s) && c != caller <==> Waits(a, c, s)
    {
      assert !Waits(a, caller, caller);
    }
  }

  lemma {:induction false} EndServes<V(!new)>(a: State<V>, b: State<V>, sender: Caller)
    requires NobodyServedTwice(a) && sender in a.outstanding
    requires b == a.Fail(sender) || exists value :: b == a.Respond(sender, value)
    ensures NobodyServedTwice(b)
    ensures forall c :: Known(b, c) <==> Known(a, c)
  {
    forall c, s
      ensures Waits(b, c, s) <==> Waits(a, c, s) && s != sender
    {
    }
    forall c
      ensures c in b.replies <==> c in a.replies || Waits(a, c, sender)
    {
    }
    forall c
      ensures Known(b, c) <==> Known(a, c)
    {
      if s :| Waits(a, c, s) {
        assert s == sender || Waits(b, c, s);
      }
    }
  }

  /** After any run, exactly those who called have a reply or wait for a request, and for one only. */
  lemma {:induction false} EveryCallerIsServedOnce<V(!new)>(events: seq<Event<V>>, states: seq<State<V>>, n: nat)
    requires Trace(events, states) && n <= |events|
    ensures NobodyServedTwice(states[n])
    ensures forall c :: Known(states[n], c) <==> HasCalled(events, n, c)
  {
    if n > 0 {
      EveryCallerIsServedOnce(events, states, n - 1);
      FlightsAlwaysMatch(events, states, n - 1);
      assert Transition(states[n - 1], events[n - 1], states[n]);
      match events[n - 1]
      case Calls(caller, key, now) => CallServes(states[n - 1], caller, key, now);
      case Responds(sender, value) => EndServes(states[n - 1], states[n], sender);
      case Fails(sender) => EndServes(states[n - 1], states[n], sender);
      HasCalledStep(events, n - 1);
    }
  }

  lemma {:induction false} HasCalledStep<V(!new)>(events: seq<Event<V>>, n: nat)
    requires n < |events|
    ensures forall c :: HasCalled(events, n + 1, c) <==>
              HasCalled(events, n, c) || (events[n].Calls? && events[n].caller == c)
  {
    forall c
      ensures HasCalled(events, n + 1, c) <==> HasCalled(events, n, c) || (events[n].Calls? && events[n].caller == c)
    {
      if HasCalled(events, n, c) {
        var i :| 0 <= i < n && events[i].Calls? && events[i].caller == c;
        assert 0 <= i < n + 1;
      }
      if HasCalled(events, n + 1, c) {
        var i :| 0 <= i < n + 1 && events[i].Calls? && events[i].caller == c;
        assert i < n || i == n;
      }
    }
  }

  /** All who wait for one request get the same value; when it fails, its sender gets an empty list and the
      others see the failure. */
  lemma {:induction false} RepliesOfOneRequest<V(!new)>(a: State<V>, sender: Caller, value: V, c: Caller)
    requires NobodyServedTwice(a) && Waits(a, c, sender)
    ensures a.Respond(sender, value).replies[c] == Models(value)
    ensures a.Fail(sender).replies[c] == if c == sender then NoModels else Rejected
  {
  }

  // ---------------------------------------------------------------------------
  // The module's variables
  // ---------------------------------------------------------------------------

  class Discovery<V> {
    var discoveryCache: map<Key, Entry<V>>
    var outstanding: map<Caller, Request>
    var replies: map<Caller, Reply<V>>

    ghost function View(): State<V>
      reads this
    {
      State(discoveryCache, outstanding, replies)
    }

    constructor ()
      ensures View() == State(map[], map[], map[])
    {
      discoveryCache, outstanding, replies := map[], map[], map[];
    }

    /** `discoverBedrockModels` up to its wait for the response. */
    method Discover(caller: Caller, key: Key, now: int)
      requires FlightsMatch(View())
      modifies this
      ensures View() == old(View()).Call(caller, key, now)
    {
      if key.refreshSeconds > 0 && key in discoveryCache {
        var cached := discoveryCache[key];
        if cached.value.Some? && cached.expiresAt > now {
          replies := replies[caller := Models(cached.value.value)];
          return;
        }
        if cached.inFlight.Some? {
          var sender := cached.inFlight.value;
          assert IsInFlight(View(), key, sender) && IsOutstanding(View(), key, sender);
          var request := outstanding[sender];
          outstanding := outstanding[sender := request.(joiners := request.joiners + {caller})];
          return;
        }
      }
      outstanding := outstanding[caller := Request(key, now, {})];
      if key.refreshSeconds > 0 {
        discoveryCache := discoveryCache[key := Entry(now + Interval(key), None, Some(caller))];
      }
    }

    /** The response arrives, and the sender's call goes on. */
    method OnResponse(sender: Caller, value: V)
      requires sender in outstanding
      modifies this
      ensures View() == old(View()).Respond(sender, value)
    {
      var request := outstanding[sender];
      outstanding := outstanding - {sender};
      replies := replies + map c | c in request.joiners :: Models(value);
      if request.key.refreshSeconds > 0 {
        discoveryCache := discoveryCache[request.key := Entry(request.began + Interval(request.key), Some(value), None)];
      }
      replies := replies[sender := Models(value)];
    }

    /** The request fails, and the sender's call goes on. */
    method OnFailure(sender: Caller)
      requires sender in outstanding
      modifies this
      ensures View() == old(View()).Fail(sender)
    {
      var request := outstanding[sender];
      outstanding := outstanding - {sender};
      replies := replies + map c | c in request.joiners :: Rejected;
      if request.key.refreshSeconds > 0 {
        discoveryCache := discoveryCache - {request.key};
      }
      replies := replies[sender := NoModels];
    }
  }
}
