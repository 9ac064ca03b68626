/** The normalised collection an entity store holds, and the pure reducers that
    `add`, `update`, `remove` and `setActive` hand to the underlying store. */
module Collection {
  import opened Wrappers
  import opened Objects
  import opened Sequences

  /** A record with a caller-assigned `id` and any other fields. */
  datatype Entity<V> = Entity(id: string, fields: Obj<V>)

  /** A `Partial<T>` of an entity: `id` may be among the changed fields. */
  datatype Changes<V> = Changes(id: Option<string>, fields: Obj<V>)

  /** `{ entities, ids, activeId? }`. */
  datatype State<V> = State(entities: map<string, Entity<V>>, ids: seq<string>, activeId: Option<string>)

  /** A partial collection state: `None` is a field the object literal leaves out,
      `Some(x)` one it writes; for `activeId`, `Some(None)` writes `undefined`. */
  datatype Patch<V> = Patch(entities: Option<map<string, Entity<V>>>, ids: Option<seq<string>>, activeId: Option<Option<string>>)

  /** `{ entities: {}, ids: [], activeId: undefined }`. */
  function Initial<V>(): State<V> {
    State(map[], [], None)
  }

  /** `{ ...s, ...p }` on the collection state. */
  function Merge<V>(s: State<V>, p: Patch<V>): State<V> {
    State(p.entities.GetOr(s.entities), p.ids.GetOr(s.ids), p.activeId.GetOr(s.activeId))
  }

  /** A patch that writes every field: `prev` returned as is, or `{ ...prev, ... }`. */
  function Whole<V>(s: State<V>): Patch<V> {
    Patch(Some(s.entities), Some(s.ids), Some(s.activeId))
  }

  /** `{ ...current, ...changes }` on one entity. */
  function ApplyChanges<V>(e: Entity<V>, c: Changes<V>): (r: Entity<V>)
    ensures r.id == c.id.GetOr(e.id)
    ensures r.fields.Keys == e.fields.Keys + c.fields.Keys
    ensures forall k :: k in c.fields ==> r.fields[k] == c.fields[k]
    ensures forall k :: k in e.fields && k !in c.fields ==> r.fields[k] == e.fields[k]
  {
    Entity(c.id.GetOr(e.id), Spread(e.fields, c.fields))
  }

  // ---------------------------------------------------------------------------
  // The reducers, exactly as the object literals they return.

  function AddReducer<V>(prev: State<V>, entity: Entity<V>): Patch<V> {
    if entity.id in prev.entities then Whole(prev)
    else Patch(Some(prev.entities[entity.id := entity]), Some(prev.ids + [entity.id]), None)
  }

  function UpdateReducer<V>(prev: State<V>, id: string, changes: Changes<V>): Patch<V> {
    if id !in prev.entities then Whole(prev)
    else Whole(prev.(entities := prev.entities[id := ApplyChanges(prev.entities[id], changes)]))
  }

  function RemoveReducer<V>(prev: State<V>, id: string): Patch<V> {
    Patch(Some(prev.entities - {id}), Some(Without(prev.ids, id)),
          Some(if prev.activeId == Some(id) then None else prev.activeId))
  }

  function SetActiveReducer<V>(prev: State<V>, id: string): Patch<V> {
    Whole(prev.(activeId := Some(id)))
  }

  // ---------------------------------------------------------------------------
  // What each operation does to the state once its reducer's patch is merged in.

  /** `add(entity)`: a no-op when the id is taken, otherwise the entity is stored
      under its id, the id goes to the end of `ids`, and `activeId` is kept
      because the patch leaves it out. */
  function Add<V>(s: State<V>, entity: Entity<V>): (r: State<V>)
    ensures entity.id in s.entities ==> r == s
    ensures entity.id !in s.entities ==>
      && r.entities == s.entities[entity.id := entity]
      && r.ids == s.ids + [entity.id]
      && r.activeId == s.activeId
  {
    Merge(s, AddReducer(s, entity))
  }

  /** `update(id, changes)`: a no-op on a missing id, otherwise only that entity
      changes, to `{ ...current, ...changes }`. */
  function Update<V>(s: State<V>, id: string, changes: Changes<V>): (r: State<V>)
    ensures id !in s.entities ==> r == s
    ensures id in s.entities ==>
      && r.entities.Keys == s.entities.Keys
      && r.entities[id] == ApplyChanges(s.entities[id], changes)
      && (forall k :: k in s.entities && k != id ==> r.entities[k] == s.entities[k])
      && r.ids == s.ids
      && r.activeId == s.activeId
  {
    Merge(s, UpdateReducer(s, id, changes))
  }

  /** `remove(id)`: the entity is dropped from `entities` and its id from `ids`,
      and `activeId` is cleared exactly when it named `id`, whether or not `id`
      was stored. */
  function Remove<V>(s: State<V>, id: string): (r: State<V>)
    ensures r.entities.Keys == s.entities.Keys - {id}
    ensures forall k :: k in r.entities ==> r.entities[k] == s.entities[k]
    ensures forall x :: x in r.ids <==> x in s.ids && x != id
    ensures r.activeId == (if s.activeId == Some(id) then None else s.activeId)
  {
    Merge(s, RemoveReducer(s, id))
  }

  /** `setActive(id)`: `activeId` becomes `id` unconditionally; nothing else changes. */
  function SetActive<V>(s: State<V>, id: string): (r: State<V>)
    ensures r.activeId == Some(id)
    ensures r.entities == s.entities && r.ids == s.ids
  {
    Merge(s, SetActiveReducer(s, id))
  }

  /** `getActive()`: the entity `activeId` names, when it is set and stored. */
  function Active<V>(s: State<V>): (r: Option<Entity<V>>)
    ensures r.Some? <==> s.activeId.Some? && s.activeId.value in s.entities
    ensures r.Some? ==> r.value == s.entities[s.activeId.value]
  {
    if s.activeId.Some? && s.activeId.value in s.entities then Some(s.entities[s.activeId.value])
    else None
  }

  // ---------------------------------------------------------------------------
  // Invariants of the collection.

  /** `ids` lists each key of `entities` exactly once. */
  ghost predicate Normalized<V>(s: State<V>) {
    Lists(s.ids, s.entities.Keys)
  }

  /** Every entity is stored under its own `id`. */
  ghost predicate KeyedById<V>(s: State<V>) {
    forall k :: k in s.entities ==> s.entities[k].id == k
  }

  /** `activeId`, when set, names a stored entity. */
  ghost predicate ActiveIsLive<V>(s: State<V>) {
    s.activeId.Some? ==> s.activeId.value in s.entities
  }

  lemma InitialIsEmpty<V>()
    ensures Normalized(Initial<V>()) && KeyedById(Initial<V>()) && ActiveIsLive(Initial<V>())
    ensures Active(Initial<V>()) == None
  {
  }

  lemma AddPreservesNormalized<V>(s: State<V>, entity: Entity<V>)
    requires Normalized(s)
    ensures Normalized(Add(s, entity))
  {
  }

  lemma UpdatePreservesNormalized<V>(s: State<V>, id: string, changes: Changes<V>)
    requires Normalized(s)
    ensures Normalized(Update(s, id, changes))
  {
  }

  lemma RemovePreservesNormalized<V>(s: State<V>, id: string)
    requires Normalized(s)
    ensures Normalized(Remove(s, id))
  {
    WithoutNoDup(s.ids, id);
  }

  lemma SetActivePreservesNormalized<V>(s: State<V>, id: string)
    requires Normalized(s)
    ensures Normalized(SetActive(s, id))
  {
  }

  /** Adding twice is adding once. */
  lemma AddIdempotent<V>(s: State<V>, entity: Entity<V>)
    ensures Add(Add(s, entity), entity) == Add(s, entity)
  {
  }

  /** `remove` keeps the order of the surviving ids and, on a normalised state,
      drops exactly one of them when `id` was stored and none otherwise. */
  lemma RemoveKeepsOrder<V>(s: State<V>, id: string)
    requires Normalized(s)
    ensures Subsequence(Remove(s, id).ids, s.ids)
    ensures |Remove(s, id).ids| == if id in s.entities then |s.ids| - 1 else |s.ids|
  {
    WithoutIsSubsequence(s.ids, id);
    if id in s.entities {
      WithoutRemovesOne(s.ids, id);
    }
  }

  lemma AddPreservesKeyedById<V>(s: State<V>, entity: Entity<V>)
    requires KeyedById(s)
    ensures KeyedById(Add(s, entity))
  {
  }

  /** `update` keeps every entity under its own id as long as `changes` does not
      rename the entity. */
  lemma UpdatePreservesKeyedById<V>(s: State<V>, id: string, changes: Changes<V>)
    requires KeyedById(s)
    requires changes.id.None? || changes.id == Some(id)
    ensures KeyedById(Update(s, id, changes))
  {
  }

  /** ... and `changes` that carry another id do break it: `Partial<T>` admits `id`. */
  lemma UpdateCanRename<V>(s: State<V>, id: string, other: string)
    requires id in s.entities && other != id
    ensures !KeyedById(Update(s, id, Changes(Some(other), map[])))
  {
    assert Update(s, id, Changes(Some(other), map[])).entities[id].id == other;
  }

  lemma RemovePreservesKeyedById<V>(s: State<V>, id: string)
    requires KeyedById(s)
    ensures KeyedById(Remove(s, id)) && KeyedById(SetActive(s, id))
  {
  }

  /** `add`, `update` and `remove` keep `activeId` pointing at a stored entity. */
  lemma OperationsKeepActiveLive<V>(s: State<V>, entity: Entity<V>, id: string, changes: Changes<V>)
    requires ActiveIsLive(s)
    ensures ActiveIsLive(Add(s, entity))
    ensures ActiveIsLive(Update(s, id, changes))
    ensures ActiveIsLive(Remove(s, id))
  {
  }

  /** `setActive` does not check its argument: it leaves a live `activeId` exactly
      when `id` is stored. */
  lemma SetActiveLiveIff<V>(s: State<V>, id: string)
    ensures ActiveIsLive(SetActive(s, id)) <==> id in s.entities
    ensures Active(SetActive(s, id)) == if id in s.entities then Some(s.entities[id]) else None
  {
  }
}
