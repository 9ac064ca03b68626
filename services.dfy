/** `addEntity`, `updateEntity`, `removeEntity`, `setActiveEntity`: look the store
    up by key, then forward to its mutator; an unknown key does nothing. */
module GenericService {
  import opened Wrappers
  import opened Collection
  import opened EntityStores
  import opened StoreRegistry

  /** `addEntity(storeKey, entity)`; `warned` is the `console.warn` for a missing store. */
  method AddEntity<V, C(==, !new)>(reg: Registry<V, C>, key: string, entity: Entity<V>) returns (warned: bool)
    requires key in reg.stores ==> reg.stores[key].Valid()
    modifies if key in reg.stores then {reg.stores[key].store} else {}
    ensures warned <==> key !in old(reg.stores)
    ensures reg.stores == old(reg.stores) && reg.order == old(reg.order)
    ensures key in reg.stores ==> reg.stores[key].Valid()
    ensures key in reg.stores ==>
      var s := reg.stores[key].store;
      && s.state == Collection.Add(old(s.state), entity)
      && s.log == old(s.log) + s.Announce(s.state)
      && s.subscribers == old(s.subscribers) && s.hydrated == old(s.hydrated)
  {
    var store := reg.GetStore(key);
    if store.None? {
      warned := true;
      return;
    }
    warned := false;
    store.value.Add(entity);
  }

  /** `updateEntity(storeKey, id, changes)`. */
  method UpdateEntity<V, C(==, !new)>(reg: Registry<V, C>, key: string, id: string, changes: Changes<V>)
    requires key in reg.stores ==> reg.stores[key].Valid()
    modifies if key in reg.stores then {reg.stores[key].store} else {}
    ensures reg.stores == old(reg.stores) && reg.order == old(reg.order)
    ensures key in reg.stores ==> reg.stores[key].Valid()
    ensures key in reg.stores ==>
      var s := reg.stores[key].store;
      && s.state == Collection.Update(old(s.state), id, changes)
      && s.log == old(s.log) + s.Announce(s.state)
      && s.subscribers == old(s.subscribers) && s.hydrated == old(s.hydrated)
  {
    var store := reg.GetStore(key);
    if store.Some? {
      store.value.Update(id, changes);
    }
  }

  /** `removeEntity(storeKey, id)`. */
  method RemoveEntity<V, C(==, !new)>(reg: Registry<V, C>, key: string, id: string)
    requires key in reg.stores ==> reg.stores[key].Valid()
    modifies if key in reg.stores then {reg.stores[key].store} else {}
    ensures reg.stores == old(reg.stores) && reg.order == old(reg.order)
    ensures key in reg.stores ==> reg.stores[key].Valid()
    ensures key in reg.stores ==>
      var s := reg.stores[key].store;
      && s.state == Collection.Remove(old(s.state), id)
      && s.log == old(s.log) + s.Announce(s.state)
      && s.subscribers == old(s.subscribers) && s.hydrated == old(s.hydrated)
  {
    var store := reg.GetStore(key);
    if store.Some? {
      store.value.Remove(id);
    }
  }

  /** `setActiveEntity(storeKey, id)`. */
  method SetActiveEntity<V, C(==, !new)>(reg: Registry<V, C>, key: string, id: string)
    requires key in reg.stores ==> reg.stores[key].Valid()
    modifies if key in reg.stores then {reg.stores[key].store} else {}
    ensures reg.stores == old(reg.stores) && reg.order == old(reg.order)
    ensures key in reg.stores ==> reg.stores[key].Valid()
    ensures key in reg.stores ==>
      var s := reg.stores[key].store;
      && s.state == Collection.SetActive(old(s.state), id)
      && s.log == old(s.log) + s.Announce(s.state)
      && s.subscribers == old(s.subscribers) && s.hydrated == old(s.hydrated)
  {
    var store := reg.GetStore(key);
    if store.Some? {
      store.value.SetActive(id);
    }
  }
}
