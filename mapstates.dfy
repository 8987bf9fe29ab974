/**
 * MapBackedMapState.java: a map that forwards every call to its backing map.
 * Unlike the list wrapper, every write (`put`, `remove`, `putAll`, `clear`)
 * triggers once, whether or not the backing map changed.
 */
module MapStates {
  import opened Support

  /** What `get(k)` answers on a map holding `m`. */
  function Lookup<K, V>(m: map<K, V>, k: K): Option<V>
  {
    if k in m then Some(m[k]) else None
  }

  class MapState<K(==), V(==)> {
    /** The backing map's entries. */
    var backing: map<K, V>
    var triggers: nat

    constructor (backing: map<K, V>)
      ensures this.backing == backing && triggers == 0
    {
      this.backing := backing;
      triggers := 0;
    }

    method Trigger()
      modifies this`triggers
      ensures triggers == old(triggers) + 1
    {
      triggers := triggers + 1;
    }

    /** `put(k, v)`: maps `k` to `v`, returns the previous mapping, triggers once. */
    method Put(k: K, v: V) returns (previous: Option<V>)
      modifies this
      ensures Get(k) == Some(v) && ContainsKey(k)
      ensures forall k' :: k' != k ==> Get(k') == Lookup(old(backing), k')
      ensures previous == old(Get(k))
      ensures backing == old(backing)[k := v]
      ensures triggers == old(triggers) + 1
    {
      previous := Get(k);
      backing := backing[k := v];
      Trigger();
    }

    /** `remove(k)`: unmaps `k`, returns its previous value; triggers even if `k` was absent. */
    method Remove(k: K) returns (previous: Option<V>)
      modifies this
      ensures Get(k) == None && !ContainsKey(k)
      ensures forall k' :: k' != k ==> Get(k') == Lookup(old(backing), k')
      ensures previous == old(Get(k))
      ensures backing == old(backing) - {k}
      ensures triggers == old(triggers) + 1
    {
      previous := Get(k);
      backing := backing - {k};
      Trigger();
    }

    /** `putAll(m)`: the old entries overridden by `m`'s; triggers even when `m` is empty. */
    method PutAll(m: map<K, V>)
      modifies this
      ensures forall k :: k in m ==> Get(k) == Some(m[k])
      ensures forall k :: k !in m ==> Get(k) == Lookup(old(backing), k)
      ensures backing == old(backing) + m
      ensures triggers == old(triggers) + 1
    {
      backing := backing + m;
      Trigger();
    }

    /** `clear()`: empties the map and triggers, even when it was already empty. */
    method Clear()
      modifies this
      ensures IsEmpty()
      ensures backing == map[]
      ensures triggers == old(triggers) + 1
    {
      backing := map[];
      Trigger();
    }

    // Reads: each is a function of the backing map, so none can trigger or write.

    function Size(): nat
      reads this
    {
      |backing|
    }

    predicate IsEmpty()
      reads this
      ensures IsEmpty() <==> Size() == 0
    {
      |backing| == 0
    }

    /** `get(k)`: the mapped value, or None for Java's `null` on a missing key. */
    function Get(k: K): (r: Option<V>)
      reads this
      ensures r.Some? <==> k in backing
      ensures r.Some? ==> r.value == backing[k] && r.value in backing.Values
    {
      Lookup(backing, k)
    }

    predicate ContainsKey(k: K)
      reads this
      ensures ContainsKey(k) <==> Get(k).Some?
    {
      k in backing
    }

    /** `containsValue(v)`: some key maps to `v`. */
    predicate ContainsValue(v: V)
      reads this
      ensures ContainsValue(v) <==> exists k :: k in backing && Get(k) == Some(v)
    {
      v in backing.Values
    }
  }
}
