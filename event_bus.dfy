/** The process-wide publish/subscribe bus of src/shared/events/eventBus.ts:
    a table from event name to the ordered list of subscribed callbacks. */
module SharedEvents {
  import opened Seqs

  /** The optional value `emit` hands to every callback. */
  datatype Data = Undefined | Flag(value: bool)

  /** A call a callback makes back into the bus while it is being delivered. */
  datatype Reentry =
    | Subscribe(event: string, cb: Callback)
    | Unsubscribe(event: string, cb: Callback)

  /** What a callback's body does when called. The three navbar listeners
      created by `initializeEventListeners` are told apart from every other
      function in the program (`Foreign`), which may call back into the bus
      and may throw after doing so. */
  datatype Kind =
    | Foreign(throws: bool, reentries: seq<Reentry>)
    | OnLogin
    | OnLogout
    | OnAccessChanged

  /** A JavaScript function value: compared by identity, like the callbacks
      `on`, `off` and `filter` compare with `!==`. */
  class Callback {
    const kind: Kind

    constructor (kind: Kind)
      ensures this.kind == kind
    {
      this.kind := kind;
    }
  }

  /** One call of `emit`: the event name and the data it handed on. */
  datatype Emission = Emission(event: string, data: Data)

  /** The closure `() => this.off(event, callback)` returned by `on`. */
  datatype Unsubscriber = Unsubscriber(event: string, cb: Callback)

  /** The members of the `EventTypes` enum. */
  const USER_LOGGED_IN: string := "USER_LOGGED_IN"
  const USER_LOGGED_OUT: string := "USER_LOGGED_OUT"
  const NAVBAR_ACCESS_CHANGED: string := "NAVBAR_ACCESS_CHANGED"

  /** The private `events` record. */
  type Table = map<string, seq<Callback>>

  /** The list `emit` would walk for `event`; no entry reads as no list. */
  function Listeners(events: Table, event: string): seq<Callback> {
    if event in events then events[event] else []
  }

  predicate Throws(cb: Callback) {
    cb.kind.Foreign? && cb.kind.throws
  }

  /** The table after `on(event, cb)`. */
  function Subscribed(events: Table, event: string, cb: Callback): (r: Table)
    ensures Listeners(r, event) == Listeners(events, event) + [cb]
    ensures forall e :: e != event ==> Listeners(r, e) == Listeners(events, e)
    ensures r.Keys == events.Keys + {event}
  {
    events[event := Listeners(events, event) + [cb]]
  }

  /** The table after `off(event, cb)`. */
  function Unsubscribed(events: Table, event: string, cb: Callback): (r: Table)
    ensures event !in events ==> r == events
    ensures Listeners(r, event) == Without(Listeners(events, event), cb)
    ensures forall e :: e != event ==> Listeners(r, e) == Listeners(events, e)
    ensures r.Keys == events.Keys
  {
    if event in events then events[event := Without(events[event], cb)] else events
  }

  function Apply(events: Table, r: Reentry): Table {
    match r
    case Subscribe(e, cb) => Subscribed(events, e, cb)
    case Unsubscribe(e, cb) => Unsubscribed(events, e, cb)
  }

  /** The table after the re-entrant calls `rs`, in order. */
  function ApplyAll(events: Table, rs: seq<Reentry>): Table
    decreases |rs|
  {
    if rs == [] then events
    else Apply(ApplyAll(events, rs[..|rs| - 1]), rs[|rs| - 1])
  }

  function Reentries(cb: Callback): seq<Reentry> {
    if cb.kind.Foreign? then cb.kind.reentries else []
  }

  /** The table after the callbacks `cbs` have run, in order. */
  function AfterDelivery(events: Table, cbs: seq<Callback>): Table
    decreases |cbs|
  {
    if cbs == [] then events
    else ApplyAll(AfterDelivery(events, cbs[..|cbs| - 1]), Reentries(cbs[|cbs| - 1]))
  }

  /** The callbacks whose call threw: caught and logged by `emit`. */
  function Failing(cbs: seq<Callback>): seq<Callback> {
    Keep(cbs, cb => Throws(cb))
  }

  /** The state of the rest of the program after the callbacks `cbs` have run,
      in order, each given `data`; `react` gives the effect of one call. */
  function ReactAll<S>(react: (Callback, Data, S) -> S, cbs: seq<Callback>, data: Data, s: S): S
    decreases |cbs|
  {
    if cbs == [] then s
    else react(cbs[|cbs| - 1], data, ReactAll(react, cbs[..|cbs| - 1], data, s))
  }

  /** The table after calling the unsubscribers `us` in order. */
  function UnsubscribedAll(events: Table, us: seq<Unsubscriber>): Table
    decreases |us|
  {
    if us == [] then events
    else Unsubscribed(UnsubscribedAll(events, us[..|us| - 1]), us[|us| - 1].event, us[|us| - 1].cb)
  }

  /** The table after the subscriptions recorded in `us`, in order. */
  function SubscribedAll(events: Table, us: seq<Unsubscriber>): Table
    decreases |us|
  {
    if us == [] then events
    else Subscribed(SubscribedAll(events, us[..|us| - 1]), us[|us| - 1].event, us[|us| - 1].cb)
  }

  class EventBus {
    var events: Table
    /** The calls of `emit` so far, oldest first: a record for stating what
        each action emitted, not state of the program. */
    ghost var emitted: seq<Emission>

    constructor ()
      ensures events == map[]
      ensures emitted == []
    {
      events := map[];
      emitted := [];
    }

    /** Appends `callback` to the list of `event`, creating the list when
        there is none; the result is the closure that undoes it. */
    method On(event: string, callback: Callback) returns (unsubscribe: Unsubscriber)
      modifies this
      ensures events == Subscribed(old(events), event, callback)
      ensures emitted == old(emitted)
      ensures unsubscribe == Unsubscriber(event, callback)
    {
      if event !in events {
        events := events[event := []];
      }
      events := events[event := events[event] + [callback]];
      unsubscribe := Unsubscriber(event, callback);
    }

    /** Replaces the list of `event`, if there is one, by a filtered copy. */
    method Off(event: string, callback: Callback)
      modifies this
      ensures events == Unsubscribed(old(events), event, callback)
      ensures emitted == old(emitted)
    {
      if event in events {
        events := events[event := Without(events[event], callback)];
      }
    }

    /** Calls the closure returned by `on`. */
    method Unsubscribe(u: Unsubscriber)
      modifies this
      ensures events == Unsubscribed(old(events), u.event, u.cb)
      ensures emitted == old(emitted)
    {
      Off(u.event, u.cb);
    }

    /** Calls every callback of the list of `event` as it stood when the call
        began, in order, each with `data`. A callback that throws is caught
        (the error is reported in `failed`) and the next one still runs.
        `react` interprets a call for the rest of the program, whose state is
        `s0` before and `s` after. */
    method Emit<S>(event: string, data: Data, react: (Callback, Data, S) -> S, s0: S)
      returns (invoked: seq<Callback>, failed: seq<Callback>, s: S)
      modifies this
      ensures invoked == Listeners(old(events), event)
      ensures failed == Failing(invoked)
      ensures s == ReactAll(react, invoked, data, s0)
      ensures events == AfterDelivery(old(events), invoked)
      ensures emitted == old(emitted) + [Emission(event, data)]
    {
      emitted := emitted + [Emission(event, data)];
      // forEach walks the array that `this.events[event]` held on entry: a
      // later `off` assigns a new array and a later `on` pushes beyond the
      // length forEach fixed when it started.
      var snapshot := if event in events then events[event] else [];
      invoked, failed, s := [], [], s0;
      var i := 0;
      while i < |snapshot|
        invariant 0 <= i <= |snapshot|
        invariant invoked == snapshot[..i]
        invariant failed == Failing(invoked)
        invariant s == ReactAll(react, invoked, data, s0)
        invariant events == AfterDelivery(old(events), invoked)
        invariant emitted == old(emitted) + [Emission(event, data)]
      {
        var cb := snapshot[i];
        RunReentries(Reentries(cb));
        assert events == AfterDelivery(old(events), invoked + [cb]) by {
          assert (invoked + [cb])[..|invoked|] == invoked;
        }
        s := react(cb, data, s);
        FailingStep(invoked, cb);
        if Throws(cb) {
          failed := failed + [cb];
        }
        assert ReactAll(react, invoked + [cb], data, s0) == s by {
          assert (invoked + [cb])[..|invoked|] == invoked;
        }
        invoked := invoked + [cb];
        assert invoked == snapshot[..i + 1];
        i := i + 1;
      }
      assert snapshot[..i] == snapshot;
    }

    /** The re-entrant calls one callback makes, in order. */
    method RunReentries(rs: seq<Reentry>)
      modifies this
      ensures events == ApplyAll(old(events), rs)
      ensures emitted == old(emitted)
    {
      var j := 0;
      while j < |rs|
        invariant 0 <= j <= |rs|
        invariant events == ApplyAll(old(events), rs[..j])
        invariant emitted == old(emitted)
      {
        match rs[j] {
          case Subscribe(e, c) =>
            var unused := On(e, c);
          case Unsubscribe(e, c) =>
            Off(e, c);
        }
        assert rs[..j + 1][..j] == rs[..j];
        j := j + 1;
      }
      assert rs[..j] == rs;
    }

    /** Drops every registration. */
    method Clear()
      modifies this
      ensures events == map[]
      ensures forall e :: Listeners(events, e) == []
      ensures emitted == old(emitted)
    {
      events := map[];
    }
  }

  lemma FailingStep(cbs: seq<Callback>, cb: Callback)
    ensures Failing(cbs + [cb]) == Failing(cbs) + (if Throws(cb) then [cb] else [])
  {
    KeepAppend(cbs, [cb], cb => Throws(cb));
  }

  /** Calling an unsubscriber a second time changes nothing. */
  lemma UnsubscribeTwice(events: Table, event: string, cb: Callback)
    ensures Unsubscribed(Unsubscribed(events, event, cb), event, cb) == Unsubscribed(events, event, cb)
  {
    if event in events {
      WithoutIdempotent(events[event], cb);
    }
  }

  /** `on` does not deduplicate: a second subscription of the same callback
      leaves two entries, and `emit` calls it twice. */
  lemma SubscribeTwice(events: Table, event: string, cb: Callback)
    ensures var l := Listeners(Subscribed(Subscribed(events, event, cb), event, cb), event);
            l == Listeners(events, event) + [cb, cb] &&
            multiset(l)[cb] == multiset(Listeners(events, event))[cb] + 2
  {
    assert Listeners(events, event) + [cb] + [cb] == Listeners(events, event) + [cb, cb];
  }

  /** Subscribing a callback that is not already on the list and calling the
      returned unsubscriber leaves every list as it was. */
  lemma SubscribeThenUnsubscribe(events: Table, event: string, cb: Callback)
    requires cb !in Listeners(events, event)
    ensures forall e :: Listeners(Unsubscribed(Subscribed(events, event, cb), event, cb), e) == Listeners(events, e)
  {
    var l := Listeners(events, event);
    WithoutAppend(l, [cb], cb);
    WithoutAbsent(l, cb);
    assert Without([cb], cb) == [];
  }

  /** The callbacks `us` adds to the list of `event`, in order. */
  function Added(us: seq<Unsubscriber>, event: string): seq<Callback>
    decreases |us|
  {
    if us == [] then []
    else Added(us[..|us| - 1], event) + (if us[|us| - 1].event == event then [us[|us| - 1].cb] else [])
  }

  /** What is left of the list `l` of `event` once the unsubscribers `us` have run. */
  function Removing(l: seq<Callback>, us: seq<Unsubscriber>, event: string): seq<Callback>
    decreases |us|
  {
    if us == [] then l
    else
      var rest := Removing(l, us[..|us| - 1], event);
      if us[|us| - 1].event == event then Without(rest, us[|us| - 1].cb) else rest
  }

  lemma {:induction false} ListenersAfterSubscribedAll(events: Table, us: seq<Unsubscriber>, event: string)
    ensures Listeners(SubscribedAll(events, us), event) == Listeners(events, event) + Added(us, event)
    decreases |us|
  {
    if us != [] {
      ListenersAfterSubscribedAll(events, us[..|us| - 1], event);
    }
  }

  lemma {:induction false} ListenersAfterUnsubscribedAll(events: Table, us: seq<Unsubscriber>, event: string)
    ensures Listeners(UnsubscribedAll(events, us), event) == Removing(Listeners(events, event), us, event)
    decreases |us|
  {
    if us != [] {
      ListenersAfterUnsubscribedAll(events, us[..|us| - 1], event);
    }
  }

  lemma {:induction false} RemovingAppend(a: seq<Callback>, b: seq<Callback>, us: seq<Unsubscriber>, event: string)
    ensures Removing(a + b, us, event) == Removing(a, us, event) + Removing(b, us, event)
    decreases |us|
  {
    if us != [] {
      var u := us[|us| - 1];
      RemovingAppend(a, b, us[..|us| - 1], event);
      if u.event == event {
        WithoutAppend(Removing(a, us[..|us| - 1], event), Removing(b, us[..|us| - 1], event), u.cb);
      }
    }
  }

  /** A list none of whose callbacks `us` unsubscribes from `event` survives whole. */
  lemma {:induction false} RemovingUntouched(l: seq<Callback>, us: seq<Unsubscriber>, event: string)
    requires forall u :: u in us && u.event == event ==> u.cb !in l
    ensures Removing(l, us, event) == l
    decreases |us|
  {
    if us != [] {
      var u := us[|us| - 1];
      assert forall v :: v in us[..|us| - 1] ==> v in us;
      RemovingUntouched(l, us[..|us| - 1], event);
      if u.event == event {
        WithoutAbsent(l, u.cb);
      }
    }
  }

  /** A callback of `l` that `us` unsubscribes from `event` is gone afterwards. */
  lemma {:induction false} RemovingRemoves(l: seq<Callback>, us: seq<Unsubscriber>, event: string, x: Callback)
    requires exists u :: u in us && u.event == event && u.cb == x
    ensures x !in Removing(l, us, event)
    decreases |us|
  {
    var u := us[|us| - 1];
    if u.event == event && u.cb == x {
    } else {
      var w :| w in us && w.event == event && w.cb == x;
      assert w in us[..|us| - 1] by {
        assert us == us[..|us| - 1] + [u];
      }
      RemovingRemoves(l, us[..|us| - 1], event, x);
    }
  }

  /** Every callback `us` adds to `event` is also unsubscribed by `us`. */
  lemma {:induction false} AddedAreRemoved(us: seq<Unsubscriber>, all: seq<Unsubscriber>, event: string)
    requires forall u :: u in us ==> u in all
    ensures Removing(Added(us, event), all, event) == []
    decreases |us|
  {
    RemovingUntouched([], all, event);
    if us != [] {
      var u := us[|us| - 1];
      var init := us[..|us| - 1];
      assert forall v :: v in init ==> v in us;
      AddedAreRemoved(init, all, event);
      var extra := if u.event == event then [u.cb] else [];
      assert Added(us, event) == Added(init, event) + extra;
      RemovingAppend(Added(init, event), extra, all, event);
      if u.event == event {
        assert u in us && u in all;
        RemovingRemoves([u.cb], all, event, u.cb);
        RemovingSingleton(u.cb, all, event);
      }
    }
  }

  lemma {:induction false} RemovingSingleton(x: Callback, us: seq<Unsubscriber>, event: string)
    ensures Removing([x], us, event) == [] || Removing([x], us, event) == [x]
    decreases |us|
  {
    if us != [] {
      RemovingSingleton(x, us[..|us| - 1], event);
    }
  }

  /** Subscribing the callbacks recorded in `us`, none of which is already on
      the list it joins, and then calling all of `us`, leaves every list as
      it was: the subscriptions leave no trace for later emits. */
  lemma UnsubscribingUndoesSubscribing(events: Table, us: seq<Unsubscriber>)
    requires forall u :: u in us ==> u.cb !in Listeners(events, u.event)
    ensures forall e :: Listeners(UnsubscribedAll(SubscribedAll(events, us), us), e) == Listeners(events, e)
  {
    forall e
      ensures Listeners(UnsubscribedAll(SubscribedAll(events, us), us), e) == Listeners(events, e)
    {
      var l := Listeners(events, e);
      ListenersAfterUnsubscribedAll(SubscribedAll(events, us), us, e);
      ListenersAfterSubscribedAll(events, us, e);
      RemovingAppend(l, Added(us, e), us, e);
      RemovingUntouched(l, us, e);
      AddedAreRemoved(us, us, e);
    }
  }

  /** `first` and `removed` are subscribed to one event; during the emit,
      `first` unsubscribes `removed` and subscribes `added`. `emit` still
      calls `removed` (it was on the list when the call began) and does not
      call `added`; afterwards the list holds `added` and not `removed`. */
  method SnapshotDelivery() returns (first: Callback, removed: Callback, added: Callback,
                                     invoked: seq<Callback>, after: seq<Callback>)
    ensures first != removed && first != added && removed != added
    ensures invoked == [first, removed]
    ensures after == [first, added]
  {
    var bus := new EventBus();
    removed := new Callback(Foreign(false, []));
    added := new Callback(Foreign(false, []));
    first := new Callback(Foreign(false, [Unsubscribe("E", removed), Subscribe("E", added)]));
    var u1 := bus.On("E", first);
    var u2 := bus.On("E", removed);
    var failed, unit;
    assert bus.events == map["E" := [first, removed]] by {
      assert Listeners(map[], "E") + [first] == [first];
      assert Subscribed(map[], "E", first) == map["E" := [first]];
      assert [first] + [removed] == [first, removed];
    }
    invoked, failed, unit := bus.Emit("E", Undefined, (cb: Callback, d: Data, u: ()) => u, ());
    after := Listeners(bus.events, "E");
    SnapshotTable(first, removed, added);
  }

  lemma SnapshotTable(first: Callback, removed: Callback, added: Callback)
    requires first.kind == Foreign(false, [Unsubscribe("E", removed), Subscribe("E", added)])
    requires removed.kind == Foreign(false, []) && first != removed && added != first
    ensures AfterDelivery(map["E" := [first, removed]], [first, removed]) == map["E" := [first, added]]
  {
    var start := map["E" := [first, removed]];
    var rs := first.kind.reentries;
    assert [first, removed][..1] == [first];
    assert rs[..1] == [Unsubscribe("E", removed)] && rs[..1][..0] == [];
    assert Without([first, removed], removed) == [first];
    assert ApplyAll(start, rs[..1]) == map["E" := [first]];
    assert rs[..|rs| - 1] == rs[..1];
    assert ApplyAll(start, rs) == Apply(ApplyAll(start, rs[..1]), rs[1]);
    assert rs[1] == Subscribe("E", added);
    assert Subscribed(map["E" := [first]], "E", added) == map["E" := [first] + [added]];
    assert [first] + [added] == [first, added];
    assert ApplyAll(start, rs) == map["E" := [first, added]];
    assert AfterDelivery(start, [first]) == map["E" := [first, added]];
  }
}
