/** The navbar store of src/features/navbar/store/navbar.store.ts: the access
    flag, the menu flag and the title, the actions that change them and
    announce access changes on the shared bus, and the three bus listeners
    the store registers and later removes. */
module Navbar {
  import opened SharedEvents

  datatype NavbarState = NavbarState(hasAccess: bool, isOpen: bool, title: string)

  const INITIAL_TITLE: string := "Dashboard"

  /** How the access-changed listener reads its argument: it stores the
      payload as the flag, and a missing payload reads as "no access". */
  function Truthy(data: Data): bool {
    data == Flag(true)
  }

  /** The body of a callback as far as navbar state goes: the three listeners
      of `initializeEventListeners` call `set`; any other function leaves the
      navbar alone. */
  function React(cb: Callback, data: Data, s: NavbarState): (r: NavbarState)
    ensures r.title == s.title
    ensures !IsNavbarListener(cb) ==> r == s
    ensures forall e :: Fits(e, cb) && IsNavbarListener(cb) ==> r == Delivered(e, data, s)
  {
    match cb.kind
    case OnLogin => s.(hasAccess := true)
    case OnLogout => s.(hasAccess := false, isOpen := false)
    case OnAccessChanged => s.(hasAccess := Truthy(data))
    case Foreign(_, _) => s
  }

  predicate IsNavbarListener(cb: Callback) {
    !cb.kind.Foreign?
  }

  /** Some callback of `cbs` is one of the navbar's listeners. */
  predicate Listening(cbs: seq<Callback>) {
    exists cb :: cb in cbs && IsNavbarListener(cb)
  }

  /** What delivering `event` with `data` does to the navbar when at least one
      navbar listener is subscribed to it. */
  function Delivered(event: string, data: Data, s: NavbarState): NavbarState {
    if event == USER_LOGGED_IN then s.(hasAccess := true)
    else if event == USER_LOGGED_OUT then s.(hasAccess := false, isOpen := false)
    else if event == NAVBAR_ACCESS_CHANGED then s.(hasAccess := Truthy(data))
    else s
  }

  /** A callback subscribed while a delivery is under way: one that does not
      itself call back into the bus. */
  predicate Plain(cb: Callback) {
    cb.kind.Foreign? && cb.kind.reentries == []
  }

  /** `cb` may sit on the list of `event`: the navbar's listeners are private
      to the store, which subscribes each under its own event only. */
  predicate Fits(event: string, cb: Callback) {
    match cb.kind
    case OnLogin => event == USER_LOGGED_IN
    case OnLogout => event == USER_LOGGED_OUT
    case OnAccessChanged => event == NAVBAR_ACCESS_CHANGED
    case Foreign(_, rs) => forall r :: r in rs && r.Subscribe? ==> Plain(r.cb)
  }

  /** Every callback on the bus fits the list it is on. */
  ghost predicate Placed(events: Table) {
    forall e, cb :: cb in Listeners(events, e) ==> Fits(e, cb)
  }

  lemma SubscribedKeepsPlaced(events: Table, event: string, cb: Callback)
    requires Placed(events) && Fits(event, cb)
    ensures Placed(Subscribed(events, event, cb))
  {
    var r := Subscribed(events, event, cb);
    forall e, x | x in Listeners(r, e) ensures Fits(e, x) {
      if e == event && x !in Listeners(events, event) {
        assert x == cb;
      }
    }
  }

  lemma UnsubscribedKeepsPlaced(events: Table, event: string, cb: Callback)
    requires Placed(events)
    ensures Placed(Unsubscribed(events, event, cb))
  {
  }

  lemma {:induction false} ApplyAllKeepsPlaced(events: Table, rs: seq<Reentry>)
    requires Placed(events)
    requires forall r :: r in rs && r.Subscribe? ==> Plain(r.cb)
    ensures Placed(ApplyAll(events, rs))
    decreases |rs|
  {
    if rs != [] {
      var last := rs[|rs| - 1];
      assert forall r :: r in rs[..|rs| - 1] ==> r in rs;
      ApplyAllKeepsPlaced(events, rs[..|rs| - 1]);
      match last {
        case Subscribe(e, c) =>
          assert last in rs;
          SubscribedKeepsPlaced(ApplyAll(events, rs[..|rs| - 1]), e, c);
        case Unsubscribe(e, c) =>
          UnsubscribedKeepsPlaced(ApplyAll(events, rs[..|rs| - 1]), e, c);
      }
    }
  }

  /** A delivery of callbacks that fit `event` keeps every callback in place. */
  lemma {:induction false} DeliveryKeepsPlaced(events: Table, event: string, cbs: seq<Callback>)
    requires Placed(events)
    requires forall cb :: cb in cbs ==> Fits(event, cb)
    ensures Placed(AfterDelivery(events, cbs))
    decreases |cbs|
  {
    if cbs != [] {
      var last := cbs[|cbs| - 1];
      assert forall cb :: cb in cbs[..|cbs| - 1] ==> cb in cbs;
      DeliveryKeepsPlaced(events, event, cbs[..|cbs| - 1]);
      assert last in cbs;
      ApplyAllKeepsPlaced(AfterDelivery(events, cbs[..|cbs| - 1]), Reentries(last));
    }
  }

  /** Delivering `event` to callbacks that fit it has the effect of one
      navbar listener when there is at least one and none otherwise, however
      many navbar listeners the list holds. */
  lemma {:induction false} DeliveryEffect(event: string, cbs: seq<Callback>, data: Data, s: NavbarState)
    requires forall cb :: cb in cbs ==> Fits(event, cb)
    ensures ReactAll(React, cbs, data, s) == if Listening(cbs) then Delivered(event, data, s) else s
    decreases |cbs|
  {
    if cbs != [] {
      var init := cbs[..|cbs| - 1];
      var last := cbs[|cbs| - 1];
      assert cbs == init + [last];
      assert forall cb :: cb in init ==> cb in cbs;
      DeliveryEffect(event, init, data, s);
      assert last in cbs;
      if IsNavbarListener(last) {
        assert Listening(cbs);
      } else if Listening(init) {
        var w :| w in init && IsNavbarListener(w);
        assert w in cbs;
      } else {
        assert !Listening(cbs);
      }
    }
  }

  class NavbarStore {
    var hasAccess: bool
    var isOpen: bool
    var title: string
    /** The closure variable `unsubscribeCallbacks`. */
    var unsubscribeCallbacks: seq<Unsubscriber>
    /** The shared `eventBus` instance the store talks to. */
    const bus: EventBus

    constructor (bus: EventBus)
      ensures hasAccess == false && isOpen == false && title == INITIAL_TITLE
      ensures unsubscribeCallbacks == []
      ensures this.bus == bus
    {
      hasAccess, isOpen, title := false, false, INITIAL_TITLE;
      unsubscribeCallbacks := [];
      this.bus := bus;
    }

    function State(): NavbarState
      reads this
    {
      NavbarState(hasAccess, isOpen, title)
    }

    /** `eventBus.emit(event, data)` as the running program sees it: the bus
        calls the list of `event` as it stood, and the navbar's listeners on
        it act on this store. */
    method Publish(event: string, data: Data) returns (invoked: seq<Callback>, failed: seq<Callback>)
      requires Placed(bus.events)
      modifies this, bus
      ensures Placed(bus.events)
      ensures invoked == Listeners(old(bus.events), event)
      ensures failed == Failing(invoked)
      ensures bus.events == AfterDelivery(old(bus.events), invoked)
      ensures State() == if Listening(invoked) then Delivered(event, data, old(State())) else old(State())
      ensures bus.emitted == old(bus.emitted) + [Emission(event, data)]
      ensures unsubscribeCallbacks == old(unsubscribeCallbacks)
    {
      var s;
      invoked, failed, s := bus.Emit(event, data, React, State());
      assert forall cb :: cb in invoked ==> Fits(event, cb);
      DeliveryEffect(event, invoked, data, old(State()));
      DeliveryKeepsPlaced(old(bus.events), event, invoked);
      hasAccess, isOpen, title := s.hasAccess, s.isOpen, s.title;
    }

    /** Flips the access flag and announces the new value. The announcement
        runs inside the update, so the store's own listener, if registered,
        sets the same value the update then writes. */
    method ToggleAccess() returns (sent: Data, invoked: seq<Callback>)
      requires Placed(bus.events)
      modifies this, bus
      ensures Placed(bus.events)
      ensures hasAccess == !old(hasAccess) && isOpen == old(isOpen) && title == old(title)
      ensures sent == Flag(hasAccess)
      ensures bus.emitted == old(bus.emitted) + [Emission(NAVBAR_ACCESS_CHANGED, sent)]
      ensures invoked == Listeners(old(bus.events), NAVBAR_ACCESS_CHANGED)
      ensures bus.events == AfterDelivery(old(bus.events), invoked)
      ensures unsubscribeCallbacks == old(unsubscribeCallbacks)
    {
      var newAccess := !hasAccess;
      sent := Flag(newAccess);
      var failed;
      invoked, failed := Publish(NAVBAR_ACCESS_CHANGED, sent);
      hasAccess := newAccess;
    }

    /** Sets the access flag, then announces it. */
    method SetAccess(value: bool) returns (sent: Data, invoked: seq<Callback>)
      requires Placed(bus.events)
      modifies this, bus
      ensures Placed(bus.events)
      ensures State() == old(State()).(hasAccess := value)
      ensures sent == Flag(value)
      ensures bus.emitted == old(bus.emitted) + [Emission(NAVBAR_ACCESS_CHANGED, sent)]
      ensures invoked == Listeners(old(bus.events), NAVBAR_ACCESS_CHANGED)
      ensures bus.events == AfterDelivery(old(bus.events), invoked)
      ensures unsubscribeCallbacks == old(unsubscribeCallbacks)
    {
      hasAccess := value;
      sent := Flag(value);
      var failed;
      invoked, failed := Publish(NAVBAR_ACCESS_CHANGED, sent);
    }

    method ToggleMenu()
      modifies this
      ensures State() == old(State()).(isOpen := !old(isOpen))
      ensures unsubscribeCallbacks == old(unsubscribeCallbacks)
    {
      isOpen := !isOpen;
    }

    method SetTitle(newTitle: string)
      modifies this
      ensures State() == old(State()).(title := newTitle)
      ensures unsubscribeCallbacks == old(unsubscribeCallbacks)
    {
      title := newTitle;
    }

    /** Subscribes three new listeners and replaces the stored unsubscribers
        by theirs; unsubscribers stored before are dropped, not called. */
    method InitializeEventListeners()
      requires Placed(bus.events)
      modifies this, bus
      ensures Placed(bus.events)
      ensures |unsubscribeCallbacks| == 3
      ensures unsubscribeCallbacks[0].event == USER_LOGGED_IN && unsubscribeCallbacks[0].cb.kind == OnLogin
      ensures unsubscribeCallbacks[1].event == USER_LOGGED_OUT && unsubscribeCallbacks[1].cb.kind == OnLogout
      ensures unsubscribeCallbacks[2].event == NAVBAR_ACCESS_CHANGED && unsubscribeCallbacks[2].cb.kind == OnAccessChanged
      ensures forall u :: u in unsubscribeCallbacks ==> fresh(u.cb)
      ensures bus.events == SubscribedAll(old(bus.events), unsubscribeCallbacks)
      ensures bus.emitted == old(bus.emitted)
      ensures State() == old(State())
    {
      var login := new Callback(OnLogin);
      var authUnsubscribe := bus.On(USER_LOGGED_IN, login);
      SubscribedKeepsPlaced(old(bus.events), USER_LOGGED_IN, login);
      ghost var afterLogin := bus.events;

      var logout := new Callback(OnLogout);
      var logoutUnsubscribe := bus.On(USER_LOGGED_OUT, logout);
      SubscribedKeepsPlaced(afterLogin, USER_LOGGED_OUT, logout);
      ghost var afterLogout := bus.events;

      var access := new Callback(OnAccessChanged);
      var navbarAccessUnsubscribe := bus.On(NAVBAR_ACCESS_CHANGED, access);
      SubscribedKeepsPlaced(afterLogout, NAVBAR_ACCESS_CHANGED, access);

      unsubscribeCallbacks := [authUnsubscribe, logoutUnsubscribe, navbarAccessUnsubscribe];
      ghost var us := unsubscribeCallbacks;
      assert us[..1][..0] == [];
      assert SubscribedAll(old(bus.events), us[..1]) == afterLogin;
      assert us[..2][..1] == us[..1];
      assert SubscribedAll(old(bus.events), us[..2]) == afterLogout;
      assert us[..|us| - 1] == us[..2];
    }

    /** Calls every stored unsubscriber once, in order, and forgets them. */
    method Cleanup()
      requires Placed(bus.events)
      modifies this, bus
      ensures Placed(bus.events)
      ensures bus.events == UnsubscribedAll(old(bus.events), old(unsubscribeCallbacks))
      ensures bus.emitted == old(bus.emitted)
      ensures unsubscribeCallbacks == []
      ensures State() == old(State())
    {
      var stored := unsubscribeCallbacks;
      var i := 0;
      while i < |stored|
        invariant 0 <= i <= |stored|
        invariant bus.events == UnsubscribedAll(old(bus.events), stored[..i])
        invariant Placed(bus.events)
        invariant State() == old(State())
        invariant bus.emitted == old(bus.emitted)
      {
        UnsubscribedKeepsPlaced(bus.events, stored[i].event, stored[i].cb);
        bus.Unsubscribe(stored[i]);
        assert stored[..i + 1][..i] == stored[..i];
        i := i + 1;
      }
      assert stored[..i] == stored;
      unsubscribeCallbacks := [];
    }
  }

  /** The component's mount then unmount (initialize, then clean up) from a
      bus with no subscriptions: afterwards no emit of any event changes the
      navbar. */
  method MountUnmountThenEmit(event: string, data: Data) returns (after: NavbarState)
    ensures after == NavbarState(false, false, INITIAL_TITLE)
  {
    var bus := new EventBus();
    var store := new NavbarStore(bus);
    store.InitializeEventListeners();
    ghost var us := store.unsubscribeCallbacks;
    store.Cleanup();
    UnsubscribingUndoesSubscribing(map[], us);
    assert Listeners(bus.events, event) == [];
    var invoked, failed := store.Publish(event, data);
    after := store.State();
  }

  /** A mount then unmount of the navbar on a bus in any state, other
      subscribers included, leaves every list of the bus as it was. */
  method MountUnmount(store: NavbarStore)
    requires Placed(store.bus.events)
    modifies store, store.bus
    ensures forall e :: Listeners(store.bus.events, e) == Listeners(old(store.bus.events), e)
    ensures store.State() == old(store.State()) && store.unsubscribeCallbacks == []
  {
    ghost var before := store.bus.events;
    store.InitializeEventListeners();
    ghost var us := store.unsubscribeCallbacks;
    assert forall u :: u in us ==> u.cb !in Listeners(before, u.event);
    store.Cleanup();
    UnsubscribingUndoesSubscribing(before, us);
  }

  /** Two initializations without a cleanup between them, then one cleanup:
      the first three listeners stay subscribed, so a later login still
      changes the navbar. */
  method RemountWithoutCleanupLeaks() returns (after: NavbarState)
    ensures after == NavbarState(true, false, INITIAL_TITLE)
  {
    var bus := new EventBus();
    var store := new NavbarStore(bus);
    store.InitializeEventListeners();
    ghost var stale := store.unsubscribeCallbacks[0].cb;
    InitAdds(store.unsubscribeCallbacks);
    ListenersAfterSubscribedAll(map[], store.unsubscribeCallbacks, USER_LOGGED_IN);
    ghost var before := bus.events;
    store.InitializeEventListeners();
    ghost var second := store.unsubscribeCallbacks;
    assert forall u :: u in second ==> u.cb !in Listeners(before, u.event);
    store.Cleanup();
    UnsubscribingUndoesSubscribing(before, second);
    assert stale in Listeners(bus.events, USER_LOGGED_IN);
    var invoked, failed := store.Publish(USER_LOGGED_IN, Undefined);
    assert Listening(invoked);
    after := store.State();
  }

  /** A subscriber to the logout event that throws, registered before the
      navbar's listener: its error is caught and the navbar still logs out. */
  method ThrowingListenerDoesNotBlock() returns (broken: Callback, failed: seq<Callback>, after: NavbarState)
    ensures Throws(broken) && failed == [broken]
    ensures after == NavbarState(false, false, INITIAL_TITLE)
  {
    var bus := new EventBus();
    broken := new Callback(Foreign(true, []));
    var unused := bus.On(USER_LOGGED_OUT, broken);
    var store := new NavbarStore(bus);
    assert Listeners(bus.events, USER_LOGGED_OUT) == [broken];
    store.InitializeEventListeners();
    ghost var listener := store.unsubscribeCallbacks[1].cb;
    InitAdds(store.unsubscribeCallbacks);
    ListenersAfterSubscribedAll(map[USER_LOGGED_OUT := [broken]], store.unsubscribeCallbacks, USER_LOGGED_OUT);
    assert Listeners(bus.events, USER_LOGGED_OUT) == [broken, listener];
    store.ToggleMenu();
    var invoked;
    invoked, failed := store.Publish(USER_LOGGED_OUT, Undefined);
    assert listener in invoked;
    FailingOfPair(broken, listener);
    after := store.State();
  }

  /** Which callback the three subscriptions of one initialization add to
      each of the three event lists. */
  lemma InitAdds(us: seq<Unsubscriber>)
    requires |us| == 3
    requires us[0].event == USER_LOGGED_IN && us[1].event == USER_LOGGED_OUT && us[2].event == NAVBAR_ACCESS_CHANGED
    ensures Added(us, USER_LOGGED_IN) == [us[0].cb]
    ensures Added(us, USER_LOGGED_OUT) == [us[1].cb]
    ensures Added(us, NAVBAR_ACCESS_CHANGED) == [us[2].cb]
  {
    assert USER_LOGGED_OUT != USER_LOGGED_IN && NAVBAR_ACCESS_CHANGED != USER_LOGGED_IN;
    assert NAVBAR_ACCESS_CHANGED != USER_LOGGED_OUT;
    assert us[..1][..0] == [] && us[..2][..1] == us[..1] && us[..|us| - 1] == us[..2];
    forall e ensures Added(us, e) == (if e == USER_LOGGED_IN then [us[0].cb] else [])
                                     + (if e == USER_LOGGED_OUT then [us[1].cb] else [])
                                     + (if e == NAVBAR_ACCESS_CHANGED then [us[2].cb] else [])
    {
      assert Added(us[..1], e) == Added([], e) + (if e == USER_LOGGED_IN then [us[0].cb] else []);
      assert Added(us[..2], e) == Added(us[..1], e) + (if e == USER_LOGGED_OUT then [us[1].cb] else []);
    }
  }

  lemma FailingOfPair(a: Callback, b: Callback)
    requires Throws(a) && !Throws(b)
    ensures Failing([a, b]) == [a]
  {
    assert [a, b] == [a] + [b] && [] + [a] == [a];
    FailingStep([], a);
    FailingStep([a], b);
  }
}
