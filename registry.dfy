/** The module-level `registry` record: store key to entity store. */
module StoreRegistry {
  import opened Wrappers
  import opened Sequences
  import opened EntityStores

  class Registry<V, C(==, !new)> {
    /** `registry[key]` for every key assigned so far. */
    var stores: map<string, EntityStore<V, C>>
    /** The keys in the order they were first assigned (`Object.keys` order). */
    var order: seq<string>

    ghost predicate Valid()
      reads this
    {
      Lists(order, stores.Keys)
    }

    /** `const registry = {}`. */
    constructor ()
      ensures Valid() && stores == map[] && order == []
    {
      stores := map[];
      order := [];
    }

    /** `registerStore(key, store)`: last writer wins, no error on a taken key,
        every other key keeps its store. */
    method Register(key: string, store: EntityStore<V, C>)
      requires Valid()
      modifies this
      ensures Valid()
      ensures stores == old(stores)[key := store]
      ensures order == if key in old(stores) then old(order) else old(order) + [key]
    {
      if key !in stores {
        AppendNoDup(order, key);
        order := order + [key];
      }
      stores := stores[key := store];
    }

    /** `getStore(key)`: the registered store, or `undefined`; changes nothing. */
    method GetStore(key: string) returns (r: Option<EntityStore<V, C>>)
      ensures r.Some? <==> key in stores
      ensures r.Some? ==> r.value == stores[key]
    {
      if key in stores {
        r := Some(stores[key]);
      } else {
        r := None;
      }
    }

    /** `getAvailableStoreKeys()`: every registered key, once each. */
    method GetAvailableStoreKeys() returns (keys: seq<string>)
      requires Valid()
      ensures Lists(keys, stores.Keys)
      ensures keys == order
    {
      keys := order;
    }
  }
}
