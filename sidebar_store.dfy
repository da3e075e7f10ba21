/** The sidebar store of src/features/sidebar/store/sidebar.store.ts: one
    local flag, persisted, and two requests it sends to the navbar through
    the global registry. */
module Sidebar {
  import opened StoreEvents
  import opened Global

  /** The slice `partialize` keeps for the `sidebar-storage` entry. */
  datatype Persisted = Persisted(isDarkSidebar: bool)

  class SidebarStore {
    var isDarkSidebar: bool
    /** The global store, read once when the sidebar store is created. */
    const globalStore: GlobalStore

    constructor (globalStore: GlobalStore)
      ensures !isDarkSidebar
      ensures this.globalStore == globalStore
    {
      isDarkSidebar := false;
      this.globalStore := globalStore;
    }

    method ToggleDarkSidebar()
      modifies this
      ensures isDarkSidebar == !old(isDarkSidebar)
    {
      isDarkSidebar := !isDarkSidebar;
    }

    /** Dispatches a payload-less `NAVBAR/TOGGLE_ACCESS` event on the global
        store; `calls` are the handlers the dispatch reaches. */
    method ToggleNavbarAccess() returns (sent: GlobalEvent, calls: seq<Handler>, failed: seq<Handler>)
      modifies globalStore
      ensures globalStore.dispatched == old(globalStore.dispatched) + [sent]
      ensures sent.eventType == NavbarToggleAccess && sent.payload == NoPayload
      ensures globalStore.eventRegistry == old(globalStore.eventRegistry)
      ensures isDarkSidebar == old(isDarkSidebar)
      ensures calls == Visit(globalStore.eventRegistry.features, globalStore.eventRegistry, NavbarToggleAccess)
      ensures failed == FailingHandlers(calls)
    {
      sent := GlobalEvent(NavbarToggleAccess, NoPayload);
      calls, failed := globalStore.Dispatch(sent);
    }

    /** Dispatches `NAVBAR/SET_ACCESS` carrying `value` on the global store. */
    method SetNavbarAccess(value: bool) returns (sent: GlobalEvent, calls: seq<Handler>, failed: seq<Handler>)
      modifies globalStore
      ensures globalStore.dispatched == old(globalStore.dispatched) + [sent]
      ensures sent.eventType == NavbarSetAccess && sent.payload == Value(value)
      ensures globalStore.eventRegistry == old(globalStore.eventRegistry)
      ensures isDarkSidebar == old(isDarkSidebar)
      ensures calls == Visit(globalStore.eventRegistry.features, globalStore.eventRegistry, NavbarSetAccess)
      ensures failed == FailingHandlers(calls)
    {
      sent := GlobalEvent(NavbarSetAccess, Value(value));
      calls, failed := globalStore.Dispatch(sent);
    }

    /** `partialize`: only the dark-sidebar flag is written to storage. */
    function Partialize(): (p: Persisted)
      reads this
      ensures p.isDarkSidebar == isDarkSidebar
    {
      Persisted(isDarkSidebar)
    }

    /** Restoring a stored slice: its flag replaces the current one. */
    method Rehydrate(p: Persisted)
      modifies this
      ensures isDarkSidebar == p.isDarkSidebar
    {
      isDarkSidebar := p.isDarkSidebar;
    }
  }

  /** What is written and then restored is what was there: the persisted
      slice loses nothing of the sidebar's own state. */
  method PersistRoundTrip(first: bool, toggles: nat) returns (restored: bool)
    ensures restored == (if toggles % 2 == 0 then first else !first)
  {
    var global := new GlobalStore();
    var store := new SidebarStore(global);
    store.Rehydrate(Persisted(first));
    var k := 0;
    while k < toggles
      invariant 0 <= k <= toggles
      invariant store.isDarkSidebar == (if k % 2 == 0 then first else !first)
    {
      store.ToggleDarkSidebar();
      k := k + 1;
    }
    var saved := store.Partialize();
    var reloaded := new SidebarStore(global);
    assert !reloaded.isDarkSidebar;
    reloaded.Rehydrate(saved);
    restored := reloaded.isDarkSidebar;
  }

  /** Nothing registers a handler on the global store, so the sidebar's
      requests reach no one: neither of them can change the navbar. */
  method SidebarRequestsReachNoOne(value: bool) returns (toggleCalls: seq<Handler>, setCalls: seq<Handler>)
    ensures toggleCalls == [] && setCalls == []
  {
    var global := new GlobalStore();
    var store := new SidebarStore(global);
    EmptyRegistryCallsNoOne(NavbarToggleAccess);
    EmptyRegistryCallsNoOne(NavbarSetAccess);
    var sent, failed;
    sent, toggleCalls, failed := store.ToggleNavbarAccess();
    sent, setCalls, failed := store.SetNavbarAccess(value);
  }
}
