# Store engine of a React Native state library, in Dafny

This project models the store engine of `react-native-state-management`:

- the **observable store** (`createStore`): one current value, partial updates merged
  in by object spread, every subscriber called after each update, `persist.save`
  called after that, and a `hydrated` flag that is true at once without a
  persistence port and turns true when `load()` settles with one;
- the **entity store** (`createEntityStore`): an observable store over the
  normalised collection `{ entities, ids, activeId? }`, whose `add`, `update`,
  `remove` and `setActive` hand a reducer to `setState`, and `getActive`;
- the **registry** (`registerStore`, `getStore`, `getAvailableStoreKeys`) and the
  **service dispatchers** (`addEntity`, `updateEntity`, `removeEntity`,
  `setActiveEntity`) that look a store up by key and forward to it.

Both revisions of the repository are covered: `core/createStore.ts`,
`core/storeRegistry.ts` and `services/generic.service.ts` hold the same logic as
their `src/` counterparts (the older registry has no `getAvailableStoreKeys`), so
one model serves both; the `Scenarios` module replays the older files' behaviour.

How the model is built:

- `Objects.Spread` is `{ ...base, ...over }` on a plain object (a map from field
  name to value). An entity is `Entity(id, fields)`; the `changes` of `update`
  are a `Partial<T>`, so they may carry an `id` as well as other fields.
- The collection state is a datatype; its partial (`Collection.Patch`) has an
  `Option` per field, so a field an object literal leaves out (`activeId` in the
  object `add` returns) is kept by the merge, while `activeId: undefined` written
  by `remove` overwrites.
- `ObservableStore.Store` is a class with the closure's variables as fields:
  `state`, `hydrated`, the subscriber `Set` (a duplicate-free sequence in
  insertion order, the order `forEach` visits), and `log`, the sequence of
  effects on the outside world: a subscriber called with a state (`Notified`) or
  `persist.save` called (`Saved`). The merge is a constructor argument, because
  the store is generic in its state; `EntityStore` fixes it to `Collection.Merge`.
- `setState`'s `typeof updater === 'function'` test is the datatype
  `Updater = Literal(partial) | Fn(f)`.
- The `.then` of `persist.load()` is the method `CompleteLoad(loaded)`, which can
  run once, while the store is persisted and not yet hydrated; the value `load`
  resolved to is its parameter (`None` for `null`, which is also what the
  backends return when loading fails).
- The registry is a class over a map and the order keys were first assigned.
- The dispatchers take the registry as a parameter; `addEntity`'s
  `console.warn` is its `warned` result.

## Model

| member | source | states |
|---|---|---|
| Objects.Spread | src/core/createStore.ts:18 | Object spread: the fields of the result are those of both objects; a field of the second wins, every other field of the first is kept. |
| Objects.SpreadNothing | src/core/createStore.ts:18 | Spreading an empty partial leaves the state as it was. |
| Sequences.Without | src/core/createEntityStore.ts:33 | `ids.filter(i => i !== id)`: exactly the elements other than `id` remain, the result is no longer, and it is the input itself when `id` is absent. |
| Sequences.WithoutIsSubsequence | src/core/createEntityStore.ts:33 | Filtering keeps the relative order of the remaining ids. |
| Sequences.WithoutNoDup | src/core/createEntityStore.ts:33 | Filtering a duplicate-free list leaves it duplicate-free. |
| Sequences.WithoutRemovesOne | src/core/createEntityStore.ts:33 | Filtering a present id out of a duplicate-free list removes exactly one entry. |
| Collection.ApplyChanges | src/core/createEntityStore.ts:20 | `{ ...current, ...changes }`: changed fields (the id among them) overwrite, all other fields of the entity are kept. |
| Collection.Add | src/core/createEntityStore.ts:6-14 | On a taken id the state is unchanged; otherwise the entity is stored under its id, the id is appended to `ids`, and `activeId` is kept because the returned object omits it. |
| Collection.Update | src/core/createEntityStore.ts:16-26 | On a missing id the state is unchanged; otherwise only that entity changes, to its shallow merge with `changes`; the keys, `ids` and `activeId` stay. |
| Collection.Remove | src/core/createEntityStore.ts:28-37 | The key leaves `entities` and the id leaves `ids`; every other entity and id stays; `activeId` is cleared exactly when it equals `id`, whether or not `id` was stored. |
| Collection.SetActive | src/core/createEntityStore.ts:39-41 | `activeId` becomes `id` without any check; `entities` and `ids` are unchanged. |
| Collection.Active | src/core/createEntityStore.ts:43-46 | `getActive` yields an entity exactly when `activeId` is set and stored, and then the stored one (the corrected guard, see Findings). |
| Collection.InitialIsEmpty | src/core/createEntityStore.ts:4 | The initial collection is empty, normalised, and has no active entity. |
| Collection.AddPreservesNormalized | src/core/createEntityStore.ts:8-11 | If `ids` lists each key of `entities` once, it still does after `add`. |
| Collection.UpdatePreservesNormalized | src/core/createEntityStore.ts:18-23 | The same invariant survives `update`. |
| Collection.RemovePreservesNormalized | src/core/createEntityStore.ts:30-33 | The same invariant survives `remove`. |
| Collection.SetActivePreservesNormalized | src/core/createEntityStore.ts:40 | The same invariant survives `setActive`. |
| Collection.AddIdempotent | src/core/createEntityStore.ts:7-8 | Adding the same entity twice is adding it once. |
| Collection.RemoveKeepsOrder | src/core/createEntityStore.ts:30-33 | `remove` leaves a subsequence of `ids`, one shorter when `id` was stored and unchanged in length otherwise. |
| Collection.AddPreservesKeyedById | src/core/createEntityStore.ts:9-11 | Every entity stays stored under its own id after `add`. |
| Collection.UpdatePreservesKeyedById | src/core/createEntityStore.ts:18-23 | ... and after `update`, as long as `changes` does not carry a different id. |
| Collection.UpdateCanRename | src/core/createEntityStore.ts:20 | `changes` carrying another id leave an entity stored under a key that is not its id. |
| Collection.RemovePreservesKeyedById | src/core/createEntityStore.ts:28-41 | `remove` and `setActive` keep every entity under its own id. |
| Collection.OperationsKeepActiveLive | src/core/createEntityStore.ts:6-37 | If `activeId` names a stored entity, it still does (or is cleared) after `add`, `update` and `remove`. |
| Collection.SetActiveLiveIff | src/core/createEntityStore.ts:39-46 | After `setActive(id)` the active id is live exactly when `id` is stored, and `getActive` returns that entity or nothing. |
| ObservableStore.Broadcast | src/core/createStore.ts:12-14 | `notify` produces one call per subscriber, in subscription order, each with the same state. |
| ObservableStore.Store.constructor | src/core/createStore.ts:4-10 | A new store holds the initial state and no subscribers, and is hydrated before it is returned exactly when no persistence is configured (lines 41-43). |
| ObservableStore.Store.Notify | src/core/createStore.ts:12-14 | The loop over the subscriber set appends one call per subscriber, in order, with the current state. |
| ObservableStore.Store.SetState | src/core/createStore.ts:16-21 | The new state is the old one merged with the literal partial or with `f(old)`; all subscribers are called with it, then it is saved when persisted; no hydration or change check. Same code: core/createStore.ts:31-37. |
| ObservableStore.Store.GetState | src/core/createStore.ts:23 | Returns the current state and changes nothing. |
| ObservableStore.Store.IsHydrated | src/core/createStore.ts:49 | Returns the flag and changes nothing (core/createStore.ts:65). |
| ObservableStore.Store.Subscribe | src/core/createStore.ts:25-27 | The callback joins the set (once), and is called at once with the state exactly when the store is hydrated. |
| ObservableStore.Store.Unsubscribe | src/core/createStore.ts:28 | Removes exactly that callback, keeps every other, and reports whether it was there. |
| ObservableStore.Store.CompleteLoad | src/core/createStore.ts:31-40 | A present loaded value is merged in and notifies every subscriber once; an absent one changes nothing and notifies nobody; either way the store is hydrated. No other method writes the flag, so once true it stays true. |
| EntityStores.EntityStore.constructor | src/core/createEntityStore.ts:3-4 | A new entity store wraps a fresh store over the empty collection. |
| EntityStores.EntityStore.Add | src/core/createEntityStore.ts:6-14 | The state becomes `Collection.Add` of the old one, the invariant is kept, and the change is announced and saved like any `setState`. |
| EntityStores.EntityStore.Update | src/core/createEntityStore.ts:16-26 | The state becomes `Collection.Update` of the old one, keeping the invariant; announced and saved. |
| EntityStores.EntityStore.Remove | src/core/createEntityStore.ts:28-37 | The state becomes `Collection.Remove` of the old one, keeping the invariant; announced and saved. |
| EntityStores.EntityStore.SetActive | src/core/createEntityStore.ts:39-41 | The state becomes `Collection.SetActive` of the old one, keeping the invariant; announced and saved. |
| EntityStores.EntityStore.GetActive | src/core/createEntityStore.ts:43-46 | Returns `Collection.Active` of the current state and changes nothing. |
| StoreRegistry.Registry.constructor | src/core/storeRegistry.ts:13 | The registry starts empty. |
| StoreRegistry.Registry.Register | src/core/storeRegistry.ts:15-17 | The key maps to the new store whether or not it was taken; every other key keeps its store. Same code: core/storeRegistry.ts:16-18. |
| StoreRegistry.Registry.GetStore | src/core/storeRegistry.ts:19-21 | Returns the registered store, or nothing for an unregistered key, and changes nothing. |
| StoreRegistry.Registry.GetAvailableStoreKeys | src/core/storeRegistry.ts:23-25 | Returns every registered key exactly once, in the order keys were first registered. |
| GenericService.AddEntity | src/services/generic.service.ts:3-10 | Warns exactly when the key is unregistered and then touches no store; otherwise the store's state changes exactly as its `add` changes it. The store's subscribers and hydration flag, and the registry, are unchanged. |
| GenericService.UpdateEntity | src/services/generic.service.ts:12-15 | No store changes on an unregistered key; otherwise exactly the store's `update`. The store's subscribers and hydration flag, and the registry, are unchanged. |
| GenericService.RemoveEntity | src/services/generic.service.ts:17-20 | No store changes on an unregistered key; otherwise exactly the store's `remove`. The store's subscribers and hydration flag, and the registry, are unchanged. |
| GenericService.SetActiveEntity | src/services/generic.service.ts:22-25 | No store changes on an unregistered key; otherwise exactly the store's `setActive`. The store's subscribers and hydration flag, and the registry, are unchanged. |
| Scenarios.LifecycleSteps | src/core/createEntityStore.ts:6-46 | The collection states that add, update, setActive, getActive and remove of one entity pass through, ending in the empty collection. |
| Scenarios.EntityLifecycle | src/core/createEntityStore.ts:6-46 | add, update, setActive, getActive, remove of one entity: `ids` is `["a"]` after add, the active entity is the updated one, and the store ends empty with no active entity. |
| Scenarios.HydrationNotifiesOnce | core/createStore.ts:47-56 | A subscriber added before a present load resolves gets no immediate call and then exactly one call with the loaded value spread over the initial state. |
| Scenarios.EmptyLoadIsSilent | core/createStore.ts:41-56 | A null load notifies nobody and keeps the state; a subscriber added afterwards is called at once. |
| Scenarios.UnpersistedStore | core/createStore.ts:57-65 | Without persistence the store is hydrated on return, a new subscriber is called at once, and an update notifies without saving. |
| Scenarios.NotifyThenSave | core/createStore.ts:29-37 | Every subscriber is called, in subscription order, before `save`, also when the partial changes nothing. |
| Scenarios.UnsubscribeOne | core/createStore.ts:41-45 | Unsubscribing a callback reports that it was there, a second time that it was not, and afterwards only the other callback is called. |
| Scenarios.RegistryLastWriterWins | src/core/storeRegistry.ts:15-25 | Re-registering a key keeps the last store, an unknown key yields nothing, and the keys are listed once each. |
| Scenarios.DispatchByKey | src/services/generic.service.ts:3-25 | An unknown key warns and leaves the registered store alone; the registered key's store receives `add` and `setActive`. |
| AsWritten.InheritedIdIsDropped | src/core/createEntityStore.ts:8 | With the guard as written, `add` of an entity with id `"constructor"` to an empty store changes nothing, while the corrected `add` stores it. |
| AsWritten.EmptyIdIsNeverActive | src/core/createEntityStore.ts:45 | With the guard as written, an entity with id `""` that is stored and active is not returned by `getActive`. |
| AsWritten.InheritedIdUpdateBreaksNormalized | src/core/createEntityStore.ts:18-23 | With the guard as written, `update("constructor", changes)` on an empty store writes an entity that `ids` does not list, so the collection stops being normalised. |
| AsWritten.InheritedActiveIsNotAnEntity | src/core/createEntityStore.ts:43-46 | With the lookup as written, `setActive("toString")` on an empty store makes `getActive` return an inherited member of `Object.prototype` instead of null. |
| AsWritten.InheritedKeyThrows | src/services/generic.service.ts:4-9 | With `registry[key]` as written, `addEntity` under the unregistered key `"toString"` reaches a value without an `add` method and throws instead of warning. |

## Findings

| source | as written | input that shows it | evidently intended | confidence | as-written member | corrected member |
|---|---|---|---|---|---|---|
| src/core/createEntityStore.ts:8 | `if (prev.entities[entity.id]) return prev` reads inherited members of `Object.prototype` | `add({ id: "constructor" })` on an empty store | skip only when an entity with that id is stored (own property) | medium; not executed | AsWritten.InheritedIdIsDropped | Collection.Add |
| src/core/createEntityStore.ts:45 | `state.activeId ? ... : null` treats the id `""` as unset | `add({ id: "" })`, `setActive("")`, `getActive()` | return the stored entity whenever `activeId` is set | medium; not executed | AsWritten.EmptyIdIsNeverActive | Collection.SetActiveLiveIff |
| src/core/createEntityStore.ts:18-19 | `if (!current) return prev` is passed by an inherited member, and `{ ...current, ...changes }` is written under that name | `update("constructor", { title: "y" })` on an empty store | leave the state unchanged when no entity with that id is stored | medium; not executed | AsWritten.InheritedIdUpdateBreaksNormalized | Collection.UpdatePreservesNormalized |
| src/core/createEntityStore.ts:43-46 | `state.entities[state.activeId] ?? null` returns an inherited member for an unstored id | `setActive("toString")`, `getActive()` on an empty store | return null when no entity with `activeId` is stored | medium; not executed | AsWritten.InheritedActiveIsNotAnEntity | Collection.Active |
| src/core/storeRegistry.ts:20 | `registry[key]` on a plain object returns inherited members, so every dispatcher (`addEntity`, `updateEntity`, `removeEntity`, `setActiveEntity`) calls a missing method on a function and throws | `addEntity("toString", e)` with nothing registered | warn (in `addEntity`) or do nothing for every unregistered key | medium; not executed | AsWritten.InheritedKeyThrows | GenericService.AddEntity |

The rest of the model uses the corrected definitions: `Collection.Add` and
`Collection.Active` and `Collection.Update` test own entries of `entities`, and `getStore` tests own
entries of the registry.

Where the code differs from what its own declarations suggest, the model follows the code:

- `preAdd`, `preUpdate` and `preRemove` are declared as options
  (src/interfaces/store-interfaces.ts:11-13) but never called, and `reset` is
  declared in the registry's store type (src/core/storeRegistry.ts:10) but not
  implemented, so neither has behaviour here.
- `remove` of an id that is not stored is not a pure no-op: it still clears an
  `activeId` equal to that id (`Collection.Remove`), and like every mutator it
  still notifies and saves.
- `setState` and the mutators notify and save even when nothing changed.

## Left out

- Persistence backends (AsyncStorage, SecureStore, `JSON.stringify`/`JSON.parse`): foreign I/O. A `save` call is a `Saved` entry in the log at the moment it is issued; its completion and its swallowed failures are not modelled. A failed load returns `null` and is `CompleteLoad(None)`.
- The loaded value is merged as a partial: a JSON round trip drops fields whose value is `undefined`, which the model does not reproduce itself. Falsy loaded values other than `null` (`0`, `""`, `false`) are not modelled.
- Asynchrony: the pending `load()` is the explicit step `CompleteLoad`; scheduling is not modelled, and `setState` before it runs is allowed, as in the code.
- Subscriber callbacks are opaque identities: what a callback does when called (subscribing, unsubscribing or calling `setState` from inside `notify`, which `Set.forEach` would observe) is not modelled.
- `Store.Subscribe` returns no function; the unsubscribe closure is the separate method `Store.Unsubscribe`.
- Entities are always objects, so their truthiness is presence; the model does not represent non-object entity values.
- Collection.Update, Collection.Active: own-entry lookup only, as corrected; the code's behaviour on inherited names is `AsWritten.UpdateAsWritten` and `AsWritten.ActiveAsWritten` (see Findings), where a stored object lacking an `id` field is rendered with its key as id.
- StoreRegistry.Registry.Register: `registerStore("__proto__", s)` replaces the registry object's prototype instead of adding an own key, so `Object.keys` omits it and later lookups of inherited names change; the model treats `"__proto__"` as an ordinary key.
- StoreRegistry.Registry.GetAvailableStoreKeys: gives insertion order for every key, whereas `Object.keys` lists integer-like keys (`"0"`, `"42"`) first in ascending order.
- Collection.ApplyChanges: `changes` that explicitly set `id` to `undefined` (which `Partial<T>` allows, and the spread copies) are not modelled; `Changes.id` is either absent, keeping the old id, or a string. Entities and states are values here, not shared references: the code stores the caller's own entity object and `getState`/`getActive` hand out the live objects, so a caller mutating them changes the store without a notify or a save, which the model does not capture.
- The older revision types store keys as the closed union `StoreKey` from stores/generic.store.ts, which is not part of this model; keys are strings here.
- The React hooks (src/hooks/storeHooks.ts, hooks/storeHooks.ts), the bootstrap wiring in stores/generic.store.ts and the re-exports in src/index.ts are not part of this model.
- `console.warn` text: only the fact that `addEntity` warns is modelled, as its `warned` result.
