/** The global event registry of src/store/global.store.ts: for each feature,
    for each event type, the ordered list of handlers, with registration,
    removal and a dispatch that walks every feature. */
module Global {
  import opened Seqs
  import opened StoreEvents

  datatype Option<T> = None | Some(value: T)

  /** An `EventHandler`: a function compared by identity (`includes` and
      `filter` use `===`); `throws` says whether calling it throws. */
  class Handler {
    const throws: bool

    constructor (throws: bool)
      ensures this.throws == throws
    {
      this.throws := throws;
    }
  }

  type Lists = map<EventType, seq<Handler>>

  /** The `eventRegistry` record. `features` holds its keys in the order
      `Object.keys` returns them: the order in which they were added. */
  datatype EventRegistry = EventRegistry(features: seq<string>, table: map<string, Lists>)

  const EMPTY: EventRegistry := EventRegistry([], map[])

  /** The keys are listed once each, and no handler list holds a handler twice. */
  ghost predicate Valid(r: EventRegistry) {
    && (forall f :: f in r.features ==> f in r.table)
    && (forall f :: f in r.table ==> f in r.features)
    && NoDup(r.features)
    && (forall f, t :: f in r.table && t in r.table[f] ==> NoDup(r.table[f][t]))
  }

  /** The handlers of feature `f` for event type `t`; a missing entry reads as none. */
  function HandlersOf(r: EventRegistry, f: string, t: EventType): seq<Handler> {
    if f in r.table && t in r.table[f] then r.table[f][t] else []
  }

  /** The registry after `registerEvent(f, t, h)`. */
  function Register(r: EventRegistry, f: string, t: EventType, h: Handler): (r': EventRegistry)
    ensures HandlersOf(r', f, t) == if h in HandlersOf(r, f, t) then HandlersOf(r, f, t) else HandlersOf(r, f, t) + [h]
    ensures forall g, u :: (g != f || u != t) ==> HandlersOf(r', g, u) == HandlersOf(r, g, u)
    ensures f in r'.table && t in r'.table[f]
    ensures r'.table.Keys == r.table.Keys + {f}
    ensures r'.features == if f in r.table then r.features else r.features + [f]
    ensures Valid(r) ==> Valid(r')
  {
    var lists: Lists := if f in r.table then r.table[f] else map[];
    var list := if t in lists then lists[t] else [];
    var list' := if h in list then list else list + [h];
    var r' := EventRegistry(if f in r.table then r.features else r.features + [f], r.table[f := lists[t := list']]);
    assert Valid(r) ==> Valid(r') by {
      if Valid(r) {
        assert NoDup(list');
        if f !in r.table {
          assert f !in r.features;
        }
      }
    }
    r'
  }

  /** The registry after `unregisterEvent(f, t, h)`, `h` being optional. */
  function Unregister(r: EventRegistry, f: string, t: EventType, h: Option<Handler>): (r': EventRegistry)
    ensures !(f in r.table && t in r.table[f]) ==> r' == r
    ensures HandlersOf(r', f, t) == if h.Some? then Without(HandlersOf(r, f, t), h.value) else []
    ensures forall g, u :: (g != f || u != t) ==> HandlersOf(r', g, u) == HandlersOf(r, g, u)
    ensures r'.features == r.features && r'.table.Keys == r.table.Keys
    ensures f in r.table && t in r.table[f] ==> (t in r'.table[f] <==> h.Some?)
    ensures Valid(r) ==> Valid(r')
  {
    if f in r.table && t in r.table[f] then
      if h.None? then EventRegistry(r.features, r.table[f := r.table[f] - {t}])
      else EventRegistry(r.features, r.table[f := r.table[f][t := Without(r.table[f][t], h.value)]])
    else r
  }

  /** The handlers a dispatch of type `t` calls for the features `fs`, in order. */
  function Visit(fs: seq<string>, r: EventRegistry, t: EventType): seq<Handler>
    decreases |fs|
  {
    if fs == [] then []
    else Visit(fs[..|fs| - 1], r, t) + HandlersOf(r, fs[|fs| - 1], t)
  }

  function FailingHandlers(hs: seq<Handler>): seq<Handler> {
    Keep(hs, (h: Handler) => h.throws)
  }

  lemma FailingHandlersStep(hs: seq<Handler>, h: Handler)
    ensures FailingHandlers(hs + [h]) == FailingHandlers(hs) + (if h.throws then [h] else [])
  {
    KeepAppend(hs, [h], (h: Handler) => h.throws);
  }

  /** How many of the features `fs` list `h` for type `t`. */
  function Reaching(fs: seq<string>, r: EventRegistry, t: EventType, h: Handler): nat
    decreases |fs|
  {
    if fs == [] then 0
    else Reaching(fs[..|fs| - 1], r, t, h) + (if h in HandlersOf(r, fs[|fs| - 1], t) then 1 else 0)
  }

  class GlobalStore {
    var eventRegistry: EventRegistry
    /** The events dispatched so far, oldest first: a record for stating
        what each action dispatched, not state of the program. */
    ghost var dispatched: seq<GlobalEvent>

    constructor ()
      ensures eventRegistry == EMPTY
      ensures dispatched == []
    {
      eventRegistry := EMPTY;
      dispatched := [];
    }

    /** Copies the registry, creates the feature and event-type entries when
        missing, appends the handler unless it is already listed, commits. */
    method RegisterEvent(feature: string, eventType: EventType, handler: Handler)
      modifies this
      ensures eventRegistry == Register(old(eventRegistry), feature, eventType, handler)
      ensures dispatched == old(dispatched)
    {
      var features := eventRegistry.features;
      var registry: map<string, Lists> := eventRegistry.table;
      var lists: Lists := map[];
      if feature in registry {
        lists := registry[feature];
      } else {
        features := features + [feature];
      }
      var list: seq<Handler> := [];
      if eventType in lists {
        list := lists[eventType];
      }
      if handler !in list {
        list := list + [handler];
      }
      registry := registry[feature := lists[eventType := list]];
      eventRegistry := EventRegistry(features, registry);
    }

    /** Leaves the registry alone when the entry is missing; otherwise deletes
        the whole event-type entry (no handler given) or replaces its list by
        a filtered copy. */
    method UnregisterEvent(feature: string, eventType: EventType, handler: Option<Handler>)
      modifies this
      ensures eventRegistry == Unregister(old(eventRegistry), feature, eventType, handler)
      ensures dispatched == old(dispatched)
    {
      var registry: map<string, Lists> := eventRegistry.table;
      if feature !in registry || eventType !in registry[feature] {
        return;
      }
      if handler.None? {
        registry := registry[feature := registry[feature] - {eventType}];
        eventRegistry := EventRegistry(eventRegistry.features, registry);
        return;
      }
      registry := registry[feature := registry[feature][eventType := Without(registry[feature][eventType], handler.value)]];
      eventRegistry := EventRegistry(eventRegistry.features, registry);
    }

    /** Calls, feature by feature in key order, every handler listed for the
        event's type, each with the whole event; a handler that throws is
        caught (reported in `failed`) and the walk goes on. */
    method Dispatch(event: GlobalEvent) returns (calls: seq<Handler>, failed: seq<Handler>)
      modifies this
      ensures eventRegistry == old(eventRegistry)
      ensures dispatched == old(dispatched) + [event]
      ensures calls == Visit(eventRegistry.features, eventRegistry, event.eventType)
      ensures failed == FailingHandlers(calls)
    {
      dispatched := dispatched + [event];
      var registry := eventRegistry;
      var keys := registry.features;
      var t := event.eventType;
      calls, failed := [], [];
      var i := 0;
      while i < |keys|
        invariant 0 <= i <= |keys|
        invariant calls == Visit(keys[..i], registry, t)
        invariant failed == FailingHandlers(calls)
        invariant eventRegistry == registry == old(eventRegistry)
        invariant dispatched == old(dispatched) + [event]
      {
        var list := HandlersOf(registry, keys[i], t);
        calls, failed := CallEach(list, calls, failed);
        assert keys[..i + 1] == keys[..i] + [keys[i]];
        assert keys[..i + 1][..i] == keys[..i];
        i := i + 1;
      }
      assert keys[..i] == keys;
    }

    /** The inner walk of `Dispatch`: calls the handlers of one feature in
        order, recording those that throw. */
    method CallEach(list: seq<Handler>, calls0: seq<Handler>, failed0: seq<Handler>)
      returns (calls: seq<Handler>, failed: seq<Handler>)
      requires failed0 == FailingHandlers(calls0)
      ensures calls == calls0 + list
      ensures failed == FailingHandlers(calls)
    {
      calls, failed := calls0, failed0;
      var j := 0;
      while j < |list|
        invariant 0 <= j <= |list|
        invariant calls == calls0 + list[..j]
        invariant failed == FailingHandlers(calls)
      {
        var h := list[j];
        FailingHandlersStep(calls, h);
        if h.throws {
          failed := failed + [h];
        }
        calls := calls + [h];
        assert list[..j + 1] == list[..j] + [h];
        j := j + 1;
      }
      assert list[..j] == list;
    }
  }

  /** Registering a handler that is already listed changes nothing. */
  lemma RegisterIdempotent(r: EventRegistry, f: string, t: EventType, h: Handler)
    ensures Register(Register(r, f, t, h), f, t, h) == Register(r, f, t, h)
  {
    var r1 := Register(r, f, t, h);
    var r2 := Register(r1, f, t, h);
    assert r1.table[f][t := r1.table[f][t]] == r1.table[f];
    assert r2.table == r1.table;
  }

  /** Registering a new handler and unregistering it again leaves every list
      as it was (the entries created on the way stay, empty). */
  lemma RegisterThenUnregister(r: EventRegistry, f: string, t: EventType, h: Handler)
    requires h !in HandlersOf(r, f, t)
    ensures forall g, u :: HandlersOf(Unregister(Register(r, f, t, h), f, t, Some(h)), g, u) == HandlersOf(r, g, u)
  {
    var l := HandlersOf(r, f, t);
    WithoutAppend(l, [h], h);
    WithoutAbsent(l, h);
    assert Without([h], h) == [];
  }

  lemma {:induction false} VisitAppend(a: seq<string>, b: seq<string>, r: EventRegistry, t: EventType)
    ensures Visit(a + b, r, t) == Visit(a, r, t) + Visit(b, r, t)
    decreases |b|
  {
    if b != [] {
      var c := b[..|b| - 1];
      assert (a + b)[..|a + b| - 1] == a + c;
      assert (a + b)[|a + b| - 1] == b[|b| - 1];
      assert b == c + [b[|b| - 1]];
      VisitAppend(a, c, r, t);
    } else {
      assert a + b == a;
    }
  }

  /** Dispatch order: the handlers of the k-th feature come after those of
      every earlier feature and before those of every later one. */
  lemma DispatchOrder(r: EventRegistry, t: EventType, k: nat)
    requires k < |r.features|
    ensures Visit(r.features, r, t)
            == Visit(r.features[..k], r, t) + HandlersOf(r, r.features[k], t) + Visit(r.features[k + 1..], r, t)
  {
    var fs := r.features;
    assert fs == fs[..k] + [fs[k]] + fs[k + 1..];
    VisitAppend(fs[..k] + [fs[k]], fs[k + 1..], r, t);
    VisitAppend(fs[..k], [fs[k]], r, t);
    assert [fs[k]][..0] == [];
  }

  lemma {:induction false} NoDupCount(s: seq<Handler>, h: Handler)
    requires NoDup(s)
    ensures multiset(s)[h] == if h in s then 1 else 0
    decreases |s|
  {
    if s != [] {
      var init := s[..|s| - 1];
      assert s == init + [s[|s| - 1]];
      assert NoDup(init);
      assert s[|s| - 1] !in init;
      NoDupCount(init, h);
    }
  }

  /** In a valid registry a dispatch calls a handler exactly once for each
      feature that lists it under the event's type; a handler registered
      under two features is called twice. */
  lemma {:induction false} CallsPerFeature(fs: seq<string>, r: EventRegistry, t: EventType, h: Handler)
    requires Valid(r)
    ensures multiset(Visit(fs, r, t))[h] == Reaching(fs, r, t, h)
    decreases |fs|
  {
    if fs != [] {
      var f := fs[|fs| - 1];
      CallsPerFeature(fs[..|fs| - 1], r, t, h);
      assert NoDup(HandlersOf(r, f, t));
      NoDupCount(HandlersOf(r, f, t), h);
    }
  }

  /** Until a handler is registered, a dispatch calls no one. */
  lemma EmptyRegistryCallsNoOne(t: EventType)
    ensures Visit(EMPTY.features, EMPTY, t) == []
    ensures Valid(EMPTY)
  {
  }
}
