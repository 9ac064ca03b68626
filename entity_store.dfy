/** `createEntityStore`: an observable store over the collection state whose
    mutators hand the collection reducers to `setState`. */
module EntityStores {
  import opened Wrappers
  import opened Collection
  import opened ObservableStore

  /** The store everything else reaches through: `{ ...store, add, update, remove,
      setActive, getActive }`, so `getState`, `setState`, `subscribe` and
      `isHydrated` are the wrapped store's own. */
  class EntityStore<V, C(==, !new)> {
    const store: Store<State<V>, Patch<V>, C>

    ghost predicate Valid()
      reads this, store
    {
      store.Valid() && store.merge == Merge
    }

    /** `createEntityStore(options)`: a fresh store over the empty collection. */
    constructor (persist: bool)
      ensures Valid() && fresh(store)
      ensures store.state == Initial() && store.subscribers == [] && store.log == []
      ensures store.persist == persist && store.hydrated == !persist
    {
      store := new Store(Initial(), Merge, persist);
    }

    method Add(entity: Entity<V>)
      requires Valid()
      modifies store
      ensures Valid()
      ensures store.state == Collection.Add(old(store.state), entity)
      ensures Normalized(old(store.state)) ==> Normalized(store.state)
      ensures store.log == old(store.log) + store.Announce(store.state)
      ensures store.subscribers == old(store.subscribers) && store.hydrated == old(store.hydrated)
    {
      if Normalized(store.state) {
        AddPreservesNormalized(store.state, entity);
      }
      store.SetState(Fn((prev: State<V>) => AddReducer(prev, entity)));
    }

    method Update(id: string, changes: Changes<V>)
      requires Valid()
      modifies store
      ensures Valid()
      ensures store.state == Collection.Update(old(store.state), id, changes)
      ensures Normalized(old(store.state)) ==> Normalized(store.state)
      ensures store.log == old(store.log) + store.Announce(store.state)
      ensures store.subscribers == old(store.subscribers) && store.hydrated == old(store.hydrated)
    {
      if Normalized(store.state) {
        UpdatePreservesNormalized(store.state, id, changes);
      }
      store.SetState(Fn((prev: State<V>) => UpdateReducer(prev, id, changes)));
    }

    method Remove(id: string)
      requires Valid()
      modifies store
      ensures Valid()
      ensures store.state == Collection.Remove(old(store.state), id)
      ensures Normalized(old(store.state)) ==> Normalized(store.state)
      ensures store.log == old(store.log) + store.Announce(store.state)
      ensures store.subscribers == old(store.subscribers) && store.hydrated == old(store.hydrated)
    {
      if Normalized(store.state) {
        RemovePreservesNormalized(store.state, id);
      }
      store.SetState(Fn((prev: State<V>) => RemoveReducer(prev, id)));
    }

    method SetActive(id: string)
      requires Valid()
      modifies store
      ensures Valid()
      ensures store.state == Collection.SetActive(old(store.state), id)
      ensures Normalized(old(store.state)) ==> Normalized(store.state)
      ensures store.log == old(store.log) + store.Announce(store.state)
      ensures store.subscribers == old(store.subscribers) && store.hydrated == old(store.hydrated)
    {
      if Normalized(store.state) {
        SetActivePreservesNormalized(store.state, id);
      }
      store.SetState(Fn((prev: State<V>) => SetActiveReducer(prev, id)));
    }

    /** `getActive()`: reads the state, changes nothing. */
    method GetActive() returns (r: Option<Entity<V>>)
      ensures r == Active(store.state)
    {
      var s := store.GetState();
      r := Active(s);
    }
  }
}
