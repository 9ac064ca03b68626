/** The observable store: one current value, partial updates merged in, every
    subscriber told of each change, saves handed to an optional persistence port,
    and a hydration flag that turns true once the initial load has settled. */
module ObservableStore {
  import opened Wrappers
  import opened Sequences

  /** What `setState` accepts: a literal partial, or a function of the current
      state that yields one (`typeof updater === 'function'`). */
  datatype Updater<!S, P> = Literal(partial: P) | Fn(f: S -> P)

  /** The partial an updater stands for against the current state. */
  function Resolve<S, P>(u: Updater<S, P>, s: S): P {
    match u
    case Literal(p) => p
    case Fn(f) => f(s)
  }

  /** The effects the store has on the outside world, in the order they happen:
      a subscriber callback invoked with a state, or `persist.save` called. */
  datatype Event<S, C> = Notified(subscriber: C, state: S) | Saved(state: S)

  /** One callback per subscriber, in the order the subscribers were added. */
  function Broadcast<S, C>(subs: seq<C>, s: S): (r: seq<Event<S, C>>)
    ensures |r| == |subs|
    ensures forall i :: 0 <= i < |subs| ==> r[i] == Notified(subs[i], s)
  {
    if subs == [] then [] else [Notified(subs[0], s)] + Broadcast(subs[1..], s)
  }

  lemma BroadcastAppend<S, C>(subs: seq<C>, c: C, s: S)
    ensures Broadcast(subs + [c], s) == Broadcast(subs, s) + [Notified(c, s)]
  {
  }

  /** A store of states `S`, updated by partials `P` through `merge` (the object
      spread), with subscribers identified by `C` (JavaScript compares callbacks
      by reference, so two subscriptions of one callback are one). */
  class Store<S, P, C(==, !new)> {
    const merge: (S, P) -> S
    /** Whether a persistence port was configured. */
    const persist: bool

    var state: S
    var hydrated: bool
    /** The subscriber `Set`, in insertion order. */
    var subscribers: seq<C>
    /** Everything the store has done to the outside world so far. */
    var log: seq<Event<S, C>>

    /** A `Set` holds each callback once; without a port the store is born hydrated. */
    ghost predicate Valid()
      reads this
    {
      NoDup(subscribers) && (!persist ==> hydrated)
    }

    /** What one change announces: every subscriber is called with the new state,
        and after that the state is saved if a port is configured. */
    ghost function Announce(s: S): seq<Event<S, C>>
      reads this
    {
      Broadcast(subscribers, s) + (if persist then [Saved(s)] else [])
    }

    /** `createStore(initialState, options)`: without a port the flag is set before
        the store is returned; with one, `load()` is pending (see `CompleteLoad`). */
    constructor (initial: S, merge: (S, P) -> S, persist: bool)
      ensures Valid()
      ensures this.merge == merge && this.persist == persist
      ensures state == initial && subscribers == [] && log == []
      ensures hydrated == !persist
    {
      this.merge := merge;
      this.persist := persist;
      state := initial;
      subscribers := [];
      log := [];
      hydrated := !persist;
    }

    /** `notify()`: `cb(state)` for every subscriber, in order. */
    method Notify()
      requires Valid()
      modifies this`log
      ensures log == old(log) + Broadcast(subscribers, state)
    {
      var i := 0;
      while i < |subscribers|
        invariant 0 <= i <= |subscribers|
        invariant log == old(log) + Broadcast(subscribers[..i], state)
      {
        BroadcastAppend(subscribers[..i], subscribers[i], state);
        assert subscribers[..i + 1] == subscribers[..i] + [subscribers[i]];
        log := log + [Notified(subscribers[i], state)];
        i := i + 1;
      }
      assert subscribers[..i] == subscribers;
    }

    /** `setState(updater)`: merge the partial in, notify, then save. There is no
        check of the flag and no check that anything changed. */
    method SetState(u: Updater<S, P>)
      requires Valid()
      modifies this`state, this`log
      ensures Valid()
      ensures state == merge(old(state), Resolve(u, old(state)))
      ensures log == old(log) + Announce(state)
    {
      var partial := Resolve(u, state);
      state := merge(state, partial);
      Notify();
      if persist {
        log := log + [Saved(state)];
      }
    }

    /** `getState()`. */
    method GetState() returns (s: S)
      ensures s == state
    {
      s := state;
    }

    /** `isHydrated()`. */
    method IsHydrated() returns (h: bool)
      ensures h == hydrated
    {
      h := hydrated;
    }

    /** `subscribe(cb)`: add to the set, and call `cb` at once only if hydrated. */
    method Subscribe(cb: C)
      requires Valid()
      modifies this`subscribers, this`log
      ensures Valid()
      ensures cb in subscribers
      ensures subscribers == if cb in old(subscribers) then old(subscribers) else old(subscribers) + [cb]
      ensures log == old(log) + if hydrated then [Notified(cb, state)] else []
    {
      if cb !in subscribers {
        AppendNoDup(subscribers, cb);
        subscribers := subscribers + [cb];
      }
      if hydrated {
        log := log + [Notified(cb, state)];
      }
    }

    /** The function `subscribe` returns: `subscribers.delete(cb)`, which removes
        exactly `cb` and reports whether it was there. */
    method Unsubscribe(cb: C) returns (removed: bool)
      requires Valid()
      modifies this`subscribers
      ensures Valid()
      ensures removed == (cb in old(subscribers))
      ensures subscribers == Without(old(subscribers), cb)
      ensures cb !in subscribers
      ensures forall c :: c != cb ==> (c in subscribers <==> c in old(subscribers))
    {
      removed := cb in subscribers;
      WithoutNoDup(subscribers, cb);
      subscribers := Without(subscribers, cb);
    }

    /** The `.then` of `persist.load()`: a present value is merged in, the flag is
        set and subscribers are notified; an absent one only sets the flag. */
    method CompleteLoad(loaded: Option<P>)
      requires Valid() && persist && !hydrated
      modifies this`state, this`hydrated, this`log
      ensures Valid() && hydrated
      ensures loaded.Some? ==> state == merge(old(state), loaded.value)
      ensures loaded.Some? ==> log == old(log) + Broadcast(subscribers, state)
      ensures loaded.None? ==> state == old(state) && log == old(log)
    {
      if loaded.Some? {
        state := merge(state, loaded.value);
        hydrated := true;
        Notify();
      } else {
        hydrated := true;
      }
    }
  }
}
