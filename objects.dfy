/** Plain JavaScript objects as maps from field name to value, and the object
    spread `{ ...base, ...over }`. */
module Objects {

  type Obj<V> = map<string, V>

  /** `{ ...base, ...over }`: every field of `over` overwrites, every other field
      of `base` is kept, and no other field appears. */
  function Spread<V>(base: Obj<V>, over: Obj<V>): (r: Obj<V>)
    ensures r.Keys == base.Keys + over.Keys
    ensures forall k :: k in over ==> r[k] == over[k]
    ensures forall k :: k in base && k !in over ==> r[k] == base[k]
  {
    base + over
  }

  /** Spreading an empty object changes nothing. */
  lemma SpreadNothing<V>(base: Obj<V>)
    ensures Spread(base, map[]) == base
  {
  }
}
