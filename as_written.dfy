/** Lookups as the code performs them, next to the definitions the rest of
    the model uses. A plain object answers `obj[key]` from `Object.prototype`
    when it has no own `key`, and an empty string is falsy. */
module AsWritten {
  import opened Wrappers
  import opened Collection

  /** The names every plain object inherits from `Object.prototype`. */
  const PrototypeNames: set<string> := {
    "constructor", "toString", "toLocaleString", "valueOf", "hasOwnProperty",
    "isPrototypeOf", "propertyIsEnumerable", "__proto__", "__defineGetter__",
    "__defineSetter__", "__lookupGetter__", "__lookupSetter__"
  }

  /** Whether `obj[key]` is truthy: an own entry (an object here) or an inherited member. */
  predicate Truthy<T>(own: map<string, T>, key: string) {
    key in own || key in PrototypeNames
  }

  /** `add` with its guard `if (prev.entities[entity.id]) return prev`. */
  function AddAsWritten<V>(s: State<V>, entity: Entity<V>): State<V> {
    if Truthy(s.entities, entity.id) then s else Add(s, entity)
  }

  /** An entity whose id is an inherited name is never stored, though no entity
      has that id. */
  lemma InheritedIdIsDropped<V>(fields: map<string, V>)
    ensures "constructor" !in Initial<V>().entities
    ensures AddAsWritten(Initial(), Entity("constructor", fields)) == Initial()
    ensures Add(Initial(), Entity("constructor", fields)).entities == map["constructor" := Entity("constructor", fields)]
  {
  }

  /** What `update` writes back, with its guard `if (!current) return prev`. When
      `current` is an inherited member (a function, with no own enumerable
      fields), `{ ...current, ...changes }` holds only the fields of `changes`;
      an `id` missing from `changes` is rendered here as the key. */
  function UpdateAsWritten<V>(s: State<V>, id: string, changes: Changes<V>): State<V> {
    if id in s.entities then Update(s, id, changes)
    else if id in PrototypeNames then s.(entities := s.entities[id := Entity(changes.id.GetOr(id), changes.fields)])
    else s
  }

  /** `update` of an inherited name on an empty store writes an entity that `ids`
      does not list, so the collection is no longer normalised. */
  lemma InheritedIdUpdateBreaksNormalized<V>(changes: Changes<V>)
    ensures Normalized(Initial<V>())
    ensures "constructor" in UpdateAsWritten(Initial(), "constructor", changes).entities
    ensures UpdateAsWritten(Initial(), "constructor", changes).ids == []
    ensures !Normalized(UpdateAsWritten(Initial(), "constructor", changes))
  {
    assert "constructor" !in UpdateAsWritten(Initial(), "constructor", changes).ids;
  }

  /** What `getActive` can return as written: a stored entity, an inherited member
      of `Object.prototype`, or `null`. */
  datatype ActiveResult<V> = Stored(entity: Entity<V>) | InheritedMember(name: string) | Null

  /** `getActive` with its guard `state.activeId ? ... : null` and the lookup
      `state.entities[state.activeId] ?? null`. */
  function ActiveAsWritten<V>(s: State<V>): ActiveResult<V> {
    if s.activeId.None? || s.activeId.value == "" then Null
    else if s.activeId.value in s.entities then Stored(s.entities[s.activeId.value])
    else if s.activeId.value in PrototypeNames then InheritedMember(s.activeId.value)
    else Null
  }

  /** After `add({id: ""})` and `setActive("")` the active entity is stored, yet
      the code answers null. */
  lemma EmptyIdIsNeverActive<V>(fields: map<string, V>)
    ensures var s := SetActive(Add(Initial(), Entity("", fields)), "");
      && s.activeId == Some("")
      && "" in s.entities
      && ActiveAsWritten(s) == Null
      && Active(s) == Some(Entity("", fields))
  {
  }

  /** After `setActive("toString")` on an empty store the code answers with
      `Object.prototype.toString` rather than null. */
  lemma InheritedActiveIsNotAnEntity<V>()
    ensures "toString" !in SetActive(Initial<V>(), "toString").entities
    ensures ActiveAsWritten(SetActive(Initial<V>(), "toString")) == InheritedMember("toString")
    ensures Active(SetActive(Initial<V>(), "toString")) == None
  {
  }

  /** How a dispatcher ends: the warning, the call to the store, or a TypeError
      because what the lookup returned has no such method. */
  datatype Outcome = Warned | Forwarded | Throws

  /** `addEntity` with `registry[key]` answered as a plain object answers it.
      `updateEntity`, `removeEntity` and `setActiveEntity` look the key up the
      same way and also throw on an inherited name; they end silently, not with
      a warning, on any other unregistered key. */
  function AddEntityAsWritten<T>(registry: map<string, T>, key: string): Outcome {
    if key in registry then Forwarded
    else if key in PrototypeNames then Throws
    else Warned
  }

  /** An unregistered key that names an inherited member makes `addEntity` throw
      instead of warning. */
  lemma InheritedKeyThrows<T>(registry: map<string, T>)
    requires "toString" !in registry
    ensures AddEntityAsWritten(registry, "toString") == Throws
  {
  }
}
