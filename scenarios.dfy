/** Whole runs of the store engine, end to end, from fresh objects. Each one
    fixes what a caller observes; several replay the older revision's files,
    whose logic is the same as the newer one's. */
module Scenarios {
  import opened Wrappers
  import opened Objects
  import opened Collection
  import opened ObservableStore
  import opened EntityStores
  import opened StoreRegistry
  import opened GenericService

  /** The collection states the lifecycle below passes through. */
  lemma LifecycleSteps<V>(title: V, newTitle: V)
    ensures var a, a' := Entity("a", map["title" := title]), Entity("a", map["title" := newTitle]);
      && Add(Initial(), a) == State(map["a" := a], ["a"], None)
      && Update(State(map["a" := a], ["a"], None), "a", Changes(None, map["title" := newTitle]))
         == State(map["a" := a'], ["a"], None)
      && SetActive(State(map["a" := a'], ["a"], None), "a") == State(map["a" := a'], ["a"], Some("a"))
      && Active(State(map["a" := a'], ["a"], Some("a"))) == Some(a')
      && Remove(State(map["a" := a'], ["a"], Some("a")), "a") == Initial()
  {
    var a, a' := Entity("a", map["title" := title]), Entity("a", map["title" := newTitle]);
    assert Spread(a.fields, map["title" := newTitle]) == a'.fields;
    var r := Remove(State(map["a" := a'], ["a"], Some("a")), "a");
    assert r.ids == [] && r.entities == map[];
  }

  /** add, update, setActive, getActive, remove on a store without persistence. */
  method EntityLifecycle<V>(title: V, newTitle: V)
    returns (afterAdd: State<V>, active: Option<Entity<V>>, final: State<V>, finalActive: Option<Entity<V>>)
    ensures afterAdd.ids == ["a"] && "a" in afterAdd.entities && afterAdd.entities["a"].fields == map["title" := title]
    ensures active == Some(Entity("a", map["title" := newTitle]))
    ensures final == Initial() && finalActive == None
  {
    LifecycleSteps(title, newTitle);
    var es := new EntityStore<V, nat>(false);
    es.Add(Entity("a", map["title" := title]));
    afterAdd := es.store.GetState();
    es.Update("a", Changes(None, map["title" := newTitle]));
    es.SetActive("a");
    active := es.GetActive();
    es.Remove("a");
    final := es.store.GetState();
    finalActive := es.GetActive();
  }

  /** A subscriber added before the load settles gets no immediate call, then
      exactly one call carrying the loaded value spread over the initial one. */
  method HydrationNotifiesOnce(initial: Obj<int>, loaded: Obj<int>)
    returns (log: seq<Event<Obj<int>, nat>>, state: Obj<int>, hydrated: bool)
    ensures log == [Notified(1, Spread(initial, loaded))]
    ensures state == Spread(initial, loaded) && hydrated
  {
    var st := new Store<Obj<int>, Obj<int>, nat>(initial, Spread, true);
    st.Subscribe(1);
    assert st.log == [];
    st.CompleteLoad(Some(loaded));
    log, state, hydrated := st.log, st.state, st.hydrated;
  }

  /** A load that finds nothing sets the flag and tells nobody; a later
      subscriber is then called at once. */
  method EmptyLoadIsSilent(initial: Obj<int>)
    returns (logBefore: seq<Event<Obj<int>, nat>>, logAfter: seq<Event<Obj<int>, nat>>, state: Obj<int>)
    ensures logBefore == [] && state == initial
    ensures logAfter == [Notified(2, initial)]
  {
    var st := new Store<Obj<int>, Obj<int>, nat>(initial, Spread, true);
    st.Subscribe(1);
    st.CompleteLoad(None);
    logBefore, state := st.log, st.state;
    st.Subscribe(2);
    logAfter := st.log;
  }

  /** Without a port the store is hydrated on return, a subscriber is called at
      once, and an update notifies without saving. */
  method UnpersistedStore(initial: Obj<int>, partial: Obj<int>)
    returns (hydrated: bool, log: seq<Event<Obj<int>, nat>>)
    ensures hydrated
    ensures log == [Notified(7, initial), Notified(7, Spread(initial, partial))]
  {
    var st := new Store<Obj<int>, Obj<int>, nat>(initial, Spread, false);
    hydrated := st.IsHydrated();
    st.Subscribe(7);
    st.SetState(Literal(partial));
    log := st.log;
  }

  /** With a port, `setState` calls every subscriber before `save`, also when the
      partial changes nothing. */
  method NotifyThenSave(initial: Obj<int>)
    returns (log: seq<Event<Obj<int>, nat>>)
    ensures log == [Notified(1, initial), Notified(2, initial), Saved(initial)]
  {
    SpreadNothing(initial);
    var st := new Store<Obj<int>, Obj<int>, nat>(initial, Spread, true);
    st.Subscribe(1);
    st.Subscribe(2);
    assert st.log == [] && st.subscribers == [1, 2];
    st.SetState(Fn((s: Obj<int>) => map[]));
    log := st.log;
  }

  /** Unsubscribing one callback leaves the other subscribed and called. */
  method UnsubscribeOne(initial: Obj<int>, partial: Obj<int>)
    returns (removed: bool, removedAgain: bool, log: seq<Event<Obj<int>, nat>>)
    ensures removed && !removedAgain
    ensures log == [Notified(1, initial), Notified(2, initial), Notified(2, Spread(initial, partial))]
  {
    var st := new Store<Obj<int>, Obj<int>, nat>(initial, Spread, false);
    st.Subscribe(1);
    st.Subscribe(2);
    assert st.subscribers == [1, 2];
    removed := st.Unsubscribe(1);
    removedAgain := st.Unsubscribe(1);
    assert st.subscribers == [2];
    st.SetState(Literal(partial));
    log := st.log;
  }

  /** Registering a key twice keeps the last store; other keys are untouched;
      an unknown key yields nothing. */
  method RegistryLastWriterWins<V>() returns (got: Option<EntityStore<V, nat>>, missing: Option<EntityStore<V, nat>>,
                                              keys: seq<string>, first: EntityStore<V, nat>, second: EntityStore<V, nat>)
    ensures got == Some(second) && first != second
    ensures missing == None
    ensures keys == ["taskStore", "notes"]
  {
    var reg := new Registry<V, nat>();
    first := new EntityStore<V, nat>(false);
    second := new EntityStore<V, nat>(false);
    reg.Register("taskStore", first);
    assert reg.order == ["taskStore"];
    reg.Register("notes", first);
    assert reg.order == ["taskStore", "notes"];
    reg.Register("taskStore", second);
    assert reg.stores["taskStore"] == second;
    got := reg.GetStore("taskStore");
    missing := reg.GetStore("unknown");
    keys := reg.GetAvailableStoreKeys();
  }

  /** Dispatch by key: an unknown key warns and touches no store; a known key
      reaches exactly the registered store. */
  method DispatchByKey<V>(e: Entity<V>) returns (warnedMissing: bool, warnedPresent: bool, state: State<V>)
    ensures warnedMissing && !warnedPresent
    ensures state == SetActive(Add(Initial(), e), e.id)
  {
    var reg := new Registry<V, nat>();
    var es := new EntityStore<V, nat>(true);
    reg.Register("taskStore", es);
    warnedMissing := AddEntity(reg, "other", e);
    warnedPresent := AddEntity(reg, "taskStore", e);
    UpdateEntity(reg, "other", e.id, Changes(None, map[]));
    RemoveEntity(reg, "other", e.id);
    SetActiveEntity(reg, "taskStore", e.id);
    state := es.store.state;
  }
}
