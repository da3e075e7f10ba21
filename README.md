# Event coordination of the React folder-structure demo, in Dafny

This project models the in-process event coordination of a small React demo.
Almost all of the demo is markup; the part with behaviour is three stores and
one bus:

- **`SharedEvents`** (`event_bus.dfy`): the process-wide publish/subscribe
  `EventBus`. It is a table from event name to an ordered list of callbacks,
  with these operations:
  - `on` appends a callback and returns an unsubscribe closure;
  - `off` filters a callback out;
  - `emit` calls the list as it stood when the call began, catching each
    callback's error;
  - `clear` empties the table.

  Callbacks are objects compared by identity, as JavaScript compares
  functions. A callback other than the navbar's listeners may call `on`
  and `off` while it is being delivered, and may throw; it does nothing
  else (see "Left out").
- **`Navbar`** (`navbar_store.dfy`): the navbar store. Its state is
  `hasAccess`, `isOpen` and `title`. It has four actions, two of which
  announce access changes on the bus. It registers three bus listeners
  (login, logout, access changed) and stores their unsubscribers, then later
  calls them. The store and the bus are modelled together: an emit runs the
  navbar's listeners against the store.
- **`StoreEvents`** (`store_events.dfy`): the event vocabulary of the global
  registry.
- **`Global`** (`global_store.dfy`): the global registry. It is a two-level
  table from feature to event type to an ordered, duplicate-free handler
  list. It has registration, removal (one handler, or a whole event type) and
  a dispatch that walks the features in key order. The key order is explicit
  in the model, as a sequence of feature names.
- **`Sidebar`** (`sidebar_store.dfy`): the sidebar store. It has one
  persisted flag and two requests that it dispatches on the global registry.
- **`Seqs`** (`seqs.dfy`): the sequence filters both tables use.

Each stateful source object is a Dafny `class`. The bus and registry
methods (`On`, `Off`, `Emit`, `RegisterEvent`, `UnregisterEvent`,
`Dispatch`) are proved against specification functions of the old state:
`Subscribed`, `Unsubscribed`, `AfterDelivery`, `ReactAll`, `Register`,
`Unregister` and `Visit`. The properties of those functions are proved as
lemmas. The navbar and sidebar actions state their new state as field
updates of the old one, and the navbar's emits as `Delivered` of the
event.

The bus and the global store each carry a ghost log: `emitted` records every
`emit` (event name and data) and `dispatched` every dispatched event. The
logs exist only in the proof. They let the actions state that they send
exactly one event with exactly the value they were given.

Three scenarios are proved end to end:
- a mount and unmount of the navbar leaves nothing behind on the bus,
  whatever else is subscribed;
- a second mount without an unmount leaks the first three listeners;
- a throwing subscriber does not stop the navbar's listener.

Two facts of the program are modelled as they are:
- the navbar listens on the bus, but the sidebar dispatches on the registry;
- nothing registers on the registry, so the sidebar's requests reach no one.

## Model

| member | source | states |
|---|---|---|
| Seqs.Without | src/shared/events/eventBus.ts:61 | Removing a function leaves no copy of it, keeps every other element, never grows the list and keeps a duplicate-free list duplicate-free. Order and multiplicity are stated by `WithoutAppend` and `WithoutCounts`. |
| Seqs.WithoutCounts | src/shared/events/eventBus.ts:61 | Removal deletes every occurrence of the function and keeps each other element exactly as many times as it occurred. |
| Seqs.WithoutAbsent | src/shared/events/eventBus.ts:61 | Filtering out a function that is not on the list returns the list unchanged. |
| Seqs.WithoutAppend | src/store/global.store.ts:82-83 | Filtering works piecewise, so the remaining elements keep their order. |
| Seqs.WithoutIdempotent | src/shared/events/eventBus.ts:58-63 | Filtering twice equals filtering once. |
| Seqs.Keep | src/shared/events/eventBus.ts:77-86 | The failing callbacks are exactly the callbacks that throw. Their order is stated by `KeepAppend`, their multiplicity by `KeepCounts`. |
| Seqs.KeepCounts | src/shared/events/eventBus.ts:77-86 | A throwing callback is reported as many times as it was called; a well-behaved one never. |
| Seqs.KeepAppend | src/store/global.store.ts:94-102 | Selecting the failures of two consecutive call runs gives the failures of the first run followed by those of the second. |
| SharedEvents.Callback.constructor | src/shared/events/eventBus.ts:7 | A new function value, distinct from every existing one, with the given behaviour. |
| SharedEvents.Subscribed | src/shared/events/eventBus.ts:41-47 | `on` appends the callback to the end of the event's list, creating the list if it is missing. Every other event's list is unchanged. |
| SharedEvents.Unsubscribed | src/shared/events/eventBus.ts:58-63 | `off` removes every copy of the callback from that event's list only. It leaves the table unchanged when the event has no list. |
| SharedEvents.EventBus.constructor | src/shared/events/eventBus.ts:25 | The bus starts with no registrations and an empty emission log. |
| SharedEvents.EventBus.On | src/shared/events/eventBus.ts:41-50 | The new table is the subscribed table. The returned unsubscriber names this event and this callback. It emits nothing. |
| SharedEvents.EventBus.Off | src/shared/events/eventBus.ts:58-63 | The new table is the unsubscribed table. It emits nothing. |
| SharedEvents.EventBus.Unsubscribe | src/shared/events/eventBus.ts:49 | Calling the closure returned by `on` has exactly the effect of `off` for its event and callback. It emits nothing. |
| SharedEvents.EventBus.Emit | src/shared/events/eventBus.ts:73-88 | Calls each callback of the event's list, as it stood on entry, exactly once and in order, each with the same data; with no list it calls nothing. A callback that throws is reported in `failed` and the rest still run. The program state is the callbacks' effects folded in order. The table is changed only by the callbacks' own calls to `on`/`off`. The emission log (a ghost record of every `emit`) gains exactly this event and data; re-entrant `on`/`off` calls add nothing to it. |
| SharedEvents.EventBus.RunReentries | src/shared/events/eventBus.ts:81 | The calls a running callback makes into the bus act on the table in order. |
| SharedEvents.EventBus.Clear | src/shared/events/eventBus.ts:94-96 | Removes every registration, so no event has listeners afterwards. It emits nothing. |
| SharedEvents.FailingStep | src/shared/events/eventBus.ts:78-85 | One more call adds the callback to the failures exactly when it throws. |
| SharedEvents.UnsubscribeTwice | src/shared/events/eventBus.ts:49 | Calling an unsubscriber a second time changes nothing. |
| SharedEvents.SubscribeTwice | src/shared/events/eventBus.ts:47 | `on` does not deduplicate: subscribing a callback twice adds two entries, so the callback is called twice. |
| SharedEvents.SubscribeThenUnsubscribe | src/shared/events/eventBus.ts:41-63 | If the callback was not already on the list, subscribing it and then calling the returned unsubscriber restores every list. |
| SharedEvents.ListenersAfterSubscribedAll | src/shared/events/eventBus.ts:41-47 | After a series of subscriptions, each event's list is its old list followed by the callbacks added to it, in order. |
| SharedEvents.ListenersAfterUnsubscribedAll | src/shared/events/eventBus.ts:58-63 | After a series of unsubscriptions, each list is its old list with those callbacks filtered out. |
| SharedEvents.RemovingAppend | src/shared/events/eventBus.ts:61 | A series of unsubscriptions acts on a list piecewise. |
| SharedEvents.RemovingUntouched | src/shared/events/eventBus.ts:61 | A list survives a series of unsubscriptions intact when none of them names one of its callbacks. |
| SharedEvents.RemovingRemoves | src/shared/events/eventBus.ts:61 | A callback named by one of the unsubscriptions is gone afterwards. |
| SharedEvents.AddedAreRemoved | src/shared/events/eventBus.ts:41-63 | Every callback a series of subscriptions added is removed by the matching unsubscribers. |
| SharedEvents.RemovingSingleton | src/shared/events/eventBus.ts:61 | Filtering a single-entry list either keeps the entry or empties the list. |
| SharedEvents.UnsubscribingUndoesSubscribing | src/shared/events/eventBus.ts:41-63 | Suppose some subscriptions each add a callback not already on its list, and their unsubscribers are then all called. Every list is then as it was before, so later emits see no trace of them. |
| SharedEvents.SnapshotDelivery | src/shared/events/eventBus.ts:47-86 | `first` and `removed` are subscribed to one event. During the emit, `first` removes `removed` and subscribes `added`. The emit calls exactly `[first, removed]`, and the list afterwards is `[first, added]`. |
| SharedEvents.SnapshotTable | src/shared/events/eventBus.ts:47-86 | The table after the delivery in that scenario. |
| Navbar.React | src/features/navbar/store/navbar.store.ts:114-129 | The body of each listener: login sets `hasAccess`, logout clears `hasAccess` and `isOpen`, access-changed stores the payload's truthiness (each equal to `Delivered` of the event it is subscribed under); `title` is never touched, and any other callback leaves the navbar alone. |
| Navbar.SubscribedKeepsPlaced | src/features/navbar/store/navbar.store.ts:114-129 | Subscribing a callback that fits its event keeps every navbar listener under its own event only. |
| Navbar.UnsubscribedKeepsPlaced | src/features/navbar/store/navbar.store.ts:145 | Unsubscribing keeps that placement. |
| Navbar.ApplyAllKeepsPlaced | src/shared/events/eventBus.ts:81 | Re-entrant `on`/`off` calls by other code keep that placement. |
| Navbar.DeliveryKeepsPlaced | src/shared/events/eventBus.ts:73-88 | A whole emit keeps that placement. |
| Navbar.DeliveryEffect | src/features/navbar/store/navbar.store.ts:114-129 | Emitting to a list whose callbacks fit the event has one of two effects. With at least one navbar listener on the list, it has the effect of one listener: login sets `hasAccess`; logout clears `hasAccess` and `isOpen` and keeps `title`; access-changed stores the payload. With none, it changes nothing. Duplicates do not change this. |
| Navbar.NavbarStore.constructor | src/features/navbar/store/navbar.store.ts:54-60 | The initial state is no access, menu closed, title `Dashboard`, with no stored unsubscribers. |
| Navbar.NavbarStore.Publish | src/shared/events/eventBus.ts:73-88 | Emit as the running program sees it: the list as it stood is called, the throwing callbacks are reported, and the navbar changes as `DeliveryEffect` says. The listener placement is preserved, and the bus records exactly this one emission. |
| Navbar.NavbarStore.ToggleAccess | src/features/navbar/store/navbar.store.ts:72-79 | Negates `hasAccess` and keeps `isOpen` and `title`. It emits `NAVBAR_ACCESS_CHANGED` exactly once, with the new value: the bus's emission log grows by that one event and payload, and the list as it stood is called. The outcome is the same whether or not the store's own listener is registered. |
| Navbar.NavbarStore.SetAccess | src/features/navbar/store/navbar.store.ts:92-95 | Sets `hasAccess` to the value and changes nothing else. It then emits `NAVBAR_ACCESS_CHANGED` once: the emission log grows by exactly that event with the value as payload. Repeating the call with the same value leaves the state unchanged. |
| Navbar.NavbarStore.ToggleMenu | src/features/navbar/store/navbar.store.ts:98 | Flips only `isOpen`. |
| Navbar.NavbarStore.SetTitle | src/features/navbar/store/navbar.store.ts:101 | Replaces only `title`. |
| Navbar.NavbarStore.InitializeEventListeners | src/features/navbar/store/navbar.store.ts:112-133 | Subscribes exactly three new listeners: login, logout and access-changed, each under its own event. It overwrites the stored list with their three unsubscribers, leaves the navbar state alone and emits nothing. |
| Navbar.NavbarStore.Cleanup | src/features/navbar/store/navbar.store.ts:144-147 | Calls each stored unsubscriber once, in order, and empties the list. A repeated cleanup, or one before any initialize, changes nothing. It emits nothing. |
| Navbar.MountUnmountThenEmit | src/features/navbar/store/navbar.store.ts:144-147 | After one initialize and a cleanup, an emit of any event leaves the navbar in its initial state. |
| Navbar.MountUnmount | src/features/navbar/store/navbar.store.ts:112-147 | From any bus state, other subscribers included, an initialize followed by a cleanup leaves every event's list of the bus as it was, and the navbar state unchanged. |
| Navbar.RemountWithoutCleanupLeaks | src/features/navbar/store/navbar.store.ts:132 | Take two initializes, then one cleanup. The first three listeners stay subscribed and out of cleanup's reach, so a later login still grants access. |
| Navbar.ThrowingListenerDoesNotBlock | src/shared/events/eventBus.ts:78-85 | A logout subscriber that throws, registered before the navbar's listener, is returned and reported as the only failure (`failed == [broken]`), and the navbar still logs out. |
| Navbar.InitAdds | src/features/navbar/store/navbar.store.ts:114-129 | One initialize adds exactly one callback to each of the three event lists. |
| Navbar.FailingOfPair | src/shared/events/eventBus.ts:78-85 | Of a throwing callback followed by a well-behaved one, only the first fails. |
| StoreEvents.EventType.Name | src/store/events.ts:2-6 | Each event type stands for its non-empty string constant. |
| StoreEvents.NamesDistinct | src/store/events.ts:2-8 | Distinct event types stand for distinct strings, so keying by type is keying by string. |
| Global.Handler.constructor | src/store/global.store.ts:5 | A new handler function, distinct from every existing one. |
| Global.Register | src/store/global.store.ts:42-63 | Creates the feature and event-type entries if they are missing, and appends the handler unless it is already on that list. No other list changes. A new feature joins the end of the key order. Validity (keys listed once, no duplicate handler) is preserved. |
| Global.Unregister | src/store/global.store.ts:66-87 | An unknown feature or event type leaves the registry unchanged. With no handler, the event-type entry is deleted. With a handler, that handler is filtered out and the possibly empty list stays. Every other list, the features and the key order are untouched, and validity is preserved. |
| Global.FailingHandlersStep | src/store/global.store.ts:97-101 | One more call adds the handler to the failures exactly when it throws. |
| Global.GlobalStore.constructor | src/store/global.store.ts:39 | The registry starts empty, and so does the dispatch log. |
| Global.GlobalStore.RegisterEvent | src/store/global.store.ts:42-63 | The copy-then-mutate update commits exactly `Register` of the old registry. |
| Global.GlobalStore.UnregisterEvent | src/store/global.store.ts:66-87 | The update commits exactly `Unregister` of the old registry. |
| Global.GlobalStore.Dispatch | src/store/global.store.ts:90-105 | Visits the features in key order and, within each, every handler under the event's type in list order. A throwing handler is reported and the walk goes on. The registry is left unchanged, and the dispatch log (a ghost record of every dispatch) gains exactly this event. |
| Global.GlobalStore.CallEach | src/store/global.store.ts:96-102 | The inner walk calls one feature's handlers in order and records those that throw. |
| Global.RegisterIdempotent | src/store/global.store.ts:57-59 | Registering the same handler twice equals registering it once. |
| Global.RegisterThenUnregister | src/store/global.store.ts:42-87 | Registering a new handler and then unregistering it restores every list. |
| Global.VisitAppend | src/store/global.store.ts:94 | The handlers called for a sequence of features are the handlers called for its prefix, followed by those called for the rest. |
| Global.DispatchOrder | src/store/global.store.ts:94-96 | Every handler of the k-th feature is called after those of all earlier features and before those of all later ones. |
| Global.NoDupCount | src/store/global.store.ts:57 | A deduplicated list holds a handler at most once. |
| Global.CallsPerFeature | src/store/global.store.ts:90-98 | In a valid registry, a dispatch calls a handler exactly once per feature that lists it under the event's type. A handler under two features is called twice. |
| Global.EmptyRegistryCallsNoOne | src/store/global.store.ts:39 | The empty registry is valid, and a dispatch on it calls no one. |
| Sidebar.SidebarStore.constructor | src/features/sidebar/store/sidebar.store.ts:20-24 | The dark-sidebar flag starts off, and the store holds the global store it read at creation. |
| Sidebar.SidebarStore.ToggleDarkSidebar | src/features/sidebar/store/sidebar.store.ts:25 | Flips `isDarkSidebar` and nothing else. |
| Sidebar.SidebarStore.ToggleNavbarAccess | src/features/sidebar/store/sidebar.store.ts:32-35 | Dispatches exactly one event: the global store's dispatch log grows by `sent`, a `NAVBAR/TOGGLE_ACCESS` event with no payload. The calls are those of a dispatch on the current registry. The registry and the dark-sidebar flag are unchanged. |
| Sidebar.SidebarStore.SetNavbarAccess | src/features/sidebar/store/sidebar.store.ts:42-48 | Dispatches exactly one event: the global store's dispatch log grows by `sent`, a `NAVBAR/SET_ACCESS` event carrying the value. The calls are those of a dispatch on the current registry. The registry and the dark-sidebar flag are unchanged. |
| Sidebar.SidebarStore.Partialize | src/features/sidebar/store/sidebar.store.ts:53 | The persisted snapshot holds only `isDarkSidebar`, with its current value. |
| Sidebar.SidebarStore.Rehydrate | src/features/sidebar/store/sidebar.store.ts:51-54 | A restored snapshot sets the flag it holds. |
| Sidebar.PersistRoundTrip | src/features/sidebar/store/sidebar.store.ts:25 | From a restored value and any number of toggles, the snapshot restores the flag as toggled: an even number of toggles restores the original value. |
| Sidebar.SidebarRequestsReachNoOne | src/features/sidebar/store/sidebar.store.ts:32-48 | On a fresh global store, with nothing registered, both sidebar requests call no handler. |

## Left out

- zustand's `create`, the merging done by `set`, re-render notifications and the devtools mount (src/features/navbar/store/navbar.store.ts:151-154): `set` is a plain field update.
- The storage I/O of the persist middleware: only the `partialize` projection and restoring a snapshot into the store are modelled.
- `console.log` and `console.error`: a caught error is observed only as an entry in the `failed` result.
- React components, layouts, routes, pages and `ProtectedRoute`: presentation and routing, with no state of the event coordination.
- `src/store/types.ts` is not part of this model. It is an unused duplicate of the event vocabulary with different strings.
- `Object.keys` lists integer-like keys first, in numeric order. The model's key order is insertion order, which is the order for the feature names the program uses.
- The access-changed listener stores whatever payload it is given. The model's payload is absent or boolean, and the stored flag is its truthiness.
- Callbacks other than the navbar's listeners make only `on`/`off` calls into the bus (no nested `emit`, no `clear`) and never act on the navbar store: the program's only bus subscribers are the navbar's three listeners, and the contracts of `Navbar.NavbarStore.Publish` and `Navbar.NavbarStore.ToggleAccess` rely on this.
- Event names and feature names are taken to be ordinary strings. Names that are properties of `Object.prototype` (`constructor`, `toString`, `__proto__`, ...) make the bus's `on`, `off` and `emit` throw a `TypeError` on the inherited value, and make `registerEvent` write outside the registry's own keys, so that `Object.keys` never visits them. The model treats them as ordinary keys; the program uses only its fixed event names.
- Navbar.NavbarStore.Publish: there is one navbar store per bus, as in the program, where the store is a module-level singleton. A navbar listener carries no reference to the store that created it, and `Publish` applies every navbar listener on the list to the store that publishes.
- A callback's own bus calls during an emit are fixed when it is created, so they can only name callbacks created before it. A callback that unsubscribes or resubscribes itself is not expressed.
- Navbar.NavbarStore.Publish, Navbar.NavbarStore.ToggleAccess, Navbar.NavbarStore.SetAccess, Navbar.NavbarStore.InitializeEventListeners, Navbar.NavbarStore.Cleanup: a callback that another callback subscribes during an emit is taken to make no bus calls of its own. This keeps the navbar's listeners under their own events.
- Registry handlers calling back into the registry during `dispatch` are not modelled. Nor is the sharing of inner lists between successive registry snapshots (the update copies only the outer object): the model holds one registry value at a time.
- The effect of a registry handler's call is not modelled, only whether it throws: nothing registers on the registry.
