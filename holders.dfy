/**
 * AbstractStateHolder.java: remembers every state it creates, in creation
 * order, and hands each one back to its caller.
 */
module Holders {
  import opened Support
  import opened Policies
  import opened States
  import opened ListStates
  import opened MapStates

  class StateHolder {
    /** The remembered states, oldest first. */
    var states: seq<object>

    constructor ()
      ensures states == []
    {
      states := [];
    }

    /** `getStates()`: the remembered states in the order they were remembered. */
    function GetStates(): seq<object>
      reads this
    {
      states
    }

    /** `remember(state)`: appends `state` and returns that same object. */
    method Remember(state: object) returns (r: object)
      modifies this
      ensures r == state
      ensures states == old(states) + [state]
    {
      states := states + [state];
      r := state;
    }

    /** `remember()`: remembers a new empty state. */
    method RememberEmpty() returns (s: EmptyState)
      modifies this
      ensures fresh(s) && s.triggers == 0
      ensures states == old(states) + [s]
    {
      s := new EmptyState();
      var _ := Remember(s);
    }

    /** `remember(value)`: a non-null value under the structural policy. */
    method RememberValue<C(==)>(value: Obj<C>) returns (s: MutableState<C>)
      modifies this
      ensures fresh(s) && s.Get() == Some(value) && s.policy == StructuralEquality && s.triggers == 0
      ensures states == old(states) + [s]
    {
      s := RememberValueWith(value, StructuralEquality);
    }

    /** `remember(value, policy)`: a non-null value under `policy`. */
    method RememberValueWith<C(==)>(value: Obj<C>, policy: MutationPolicy) returns (s: MutableState<C>)
      modifies this
      ensures fresh(s) && s.Get() == Some(value) && s.policy == policy && s.triggers == 0
      ensures states == old(states) + [s]
    {
      s := new MutableState(Some(value), policy);
      var _ := Remember(s);
    }

    /** `rememberNullable(value)`: a possibly-null value under the structural policy. */
    method RememberNullable<C(==)>(value: Value<C>) returns (s: MutableState<C>)
      modifies this
      ensures fresh(s) && s.Get() == value && s.policy == StructuralEquality && s.triggers == 0
      ensures states == old(states) + [s]
    {
      s := RememberNullableWith(value, StructuralEquality);
    }

    /** `rememberNullable(value, policy)`: a possibly-null value under `policy`. */
    method RememberNullableWith<C(==)>(value: Value<C>, policy: MutationPolicy) returns (s: MutableState<C>)
      modifies this
      ensures fresh(s) && s.Get() == value && s.policy == policy && s.triggers == 0
      ensures states == old(states) + [s]
    {
      s := new MutableState(value, policy);
      var _ := Remember(s);
    }

    /** `rememberList()`: a new, empty, writable list. */
    method RememberList<T(==)>() returns (s: ListState<T>)
      modifies this
      ensures fresh(s) && s.backing == [] && !s.readOnly && s.triggers == 0
      ensures states == old(states) + [s]
    {
      s := new ListState([], false);
      var _ := Remember(s);
    }

    /** `rememberList(values...)`: a list of `values` over an unmodifiable `List.of`. */
    method RememberListOf<T(==)>(values: seq<T>) returns (s: ListState<T>)
      modifies this
      ensures fresh(s) && s.backing == values && s.readOnly && s.triggers == 0
      ensures states == old(states) + [s]
    {
      s := new ListState(values, true);
      var _ := Remember(s);
    }

    /** `rememberList(backing)`: a writable list over the caller's list. */
    method RememberListBacked<T(==)>(backing: seq<T>) returns (s: ListState<T>)
      modifies this
      ensures fresh(s) && s.backing == backing && !s.readOnly && s.triggers == 0
      ensures states == old(states) + [s]
    {
      s := new ListState(backing, false);
      var _ := Remember(s);
    }

    /** `rememberMap()`: a new, empty map. */
    method RememberMap<K(==), V(==)>() returns (s: MapState<K, V>)
      modifies this
      ensures fresh(s) && s.backing == map[] && s.triggers == 0
      ensures states == old(states) + [s]
    {
      s := new MapState(map[]);
      var _ := Remember(s);
    }

    /** `rememberMap(backing)`: a map over the caller's map. */
    method RememberMapBacked<K(==), V(==)>(backing: map<K, V>) returns (s: MapState<K, V>)
      modifies this
      ensures fresh(s) && s.backing == backing && s.triggers == 0
      ensures states == old(states) + [s]
    {
      s := new MapState(backing);
      var _ := Remember(s);
    }
  }
}
