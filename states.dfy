/**
 * AbstractMutableState.java (with its one concrete subclass
 * SimpleMutableState) and the value-less EmptyState.
 *
 * `trigger()` belongs to AbstractState, whose body is not part of this
 * model; every state therefore counts its triggers in `triggers`, and the
 * contracts say how many times each call fires.
 */
module States {
  import opened Support
  import opened Policies

  /** The value held after `set(next)` on a state holding `current`. */
  function AfterSet<C(==)>(policy: MutationPolicy, current: Value<C>, next: Value<C>): Value<C>
  {
    if ShouldMutate(policy, current, next) then next else current
  }

  /** How many times `set(next)` fires on a state holding `current`. */
  function SetTriggers<C(==)>(policy: MutationPolicy, current: Value<C>, next: Value<C>): nat
  {
    if ShouldMutate(policy, current, next) then 1 else 0
  }

  /** The value held after `set(values[0])`, ..., `set(values[|values|-1])` in turn. */
  function AfterSets<C(==)>(policy: MutationPolicy, current: Value<C>, values: seq<Value<C>>): Value<C>
    decreases |values|
  {
    if values == [] then current
    else AfterSets(policy, AfterSet(policy, current, values[0]), values[1..])
  }

  /** How many times that series of `set` calls fires in all. */
  function SetsTriggers<C(==)>(policy: MutationPolicy, current: Value<C>, values: seq<Value<C>>): nat
    decreases |values|
  {
    if values == [] then 0
    else SetTriggers(policy, current, values[0])
         + SetsTriggers(policy, AfterSet(policy, current, values[0]), values[1..])
  }

  /** Under Reference and Structural, repeating a `set` never fires a second time. */
  lemma RepeatedSetIsQuiet<C>(policy: MutationPolicy, current: Value<C>, next: Value<C>)
    requires policy != NeverEqual
    ensures SetTriggers(policy, AfterSet(policy, current, next), next) == 0
    ensures AfterSet(policy, AfterSet(policy, current, next), next) == AfterSet(policy, current, next)
  {
  }

  /** Under NeverEqual every call of a series fires, and the last value wins. */
  lemma {:induction false} NeverEqualFiresEverySet<C>(current: Value<C>, values: seq<Value<C>>)
    ensures SetsTriggers(NeverEqual, current, values) == |values|
    ensures AfterSets(NeverEqual, current, values) == if values == [] then current else values[|values| - 1]
    decreases |values|
  {
    if values != [] {
      NeverEqualFiresEverySet(values[0], values[1..]);
    }
  }

  /**
   * Under Structural a state that holds null keeps it through any series of
   * `set` calls and never fires: the null check rejects every transition out
   * of null.
   */
  lemma {:induction false} StructuralNullIsSticky<C>(values: seq<Value<C>>)
    ensures AfterSets(StructuralEquality, None, values) == None
    ensures SetsTriggers(StructuralEquality, None, values) == 0
    decreases |values|
  {
    if values != [] {
      StructuralNullIsSticky(values[1..]);
    }
  }

  /** A series of `set` calls fires at most once per call, and at most once overall when every call sets the same value under Reference or Structural. */
  lemma {:induction false} SetsFireAtMostOncePerCall<C>(policy: MutationPolicy, current: Value<C>, values: seq<Value<C>>)
    ensures SetsTriggers(policy, current, values) <= |values|
    ensures policy != NeverEqual && (forall i :: 0 <= i < |values| ==> values[i] == values[0])
            ==> SetsTriggers(policy, current, values) <= 1
    decreases |values|
  {
    if values != [] {
      var next := AfterSet(policy, current, values[0]);
      SetsFireAtMostOncePerCall(policy, next, values[1..]);
      if policy != NeverEqual && (forall i :: 0 <= i < |values| ==> values[i] == values[0]) {
        RepeatedSetSeriesIsQuiet(policy, current, values[0], |values| - 1);
        assert values[1..] == seq(|values| - 1, _ => values[0]);
      }
    }
  }

  /** After one `set(v)`, any number of further `set(v)` calls never fire. */
  lemma {:induction false} RepeatedSetSeriesIsQuiet<C>(policy: MutationPolicy, current: Value<C>, v: Value<C>, n: nat)
    requires policy != NeverEqual
    ensures SetsTriggers(policy, AfterSet(policy, current, v), seq(n, _ => v)) == 0
    decreases n
  {
    if n > 0 {
      RepeatedSetIsQuiet(policy, current, v);
      assert seq(n, _ => v)[1..] == seq(n - 1, _ => v);
      RepeatedSetSeriesIsQuiet(policy, current, v, n - 1);
    }
  }

  /** A state with no value: it can only be triggered. */
  class EmptyState {
    var triggers: nat

    constructor ()
      ensures triggers == 0
    {
      triggers := 0;
    }

    method Trigger()
      modifies this
      ensures triggers == old(triggers) + 1
    {
      triggers := triggers + 1;
    }
  }

  /** A value cell guarded by a fixed mutation policy. */
  class MutableState<C(==)> {
    var value: Value<C>
    const policy: MutationPolicy
    var triggers: nat

    constructor (value: Value<C>, policy: MutationPolicy)
      ensures this.value == value && this.policy == policy && triggers == 0
    {
      this.value := value;
      this.policy := policy;
      triggers := 0;
    }

    function Get(): Value<C>
      reads this
    {
      value
    }

    /** The policy given at construction; `policy` is a const, so it never changes. */
    function StateMutationPolicy(): MutationPolicy
    {
      policy
    }

    method Trigger()
      modifies this`triggers
      ensures triggers == old(triggers) + 1
    {
      triggers := triggers + 1;
    }

    /** Assigns `next` and fires once if the policy accepts it; otherwise does nothing. */
    method Set(next: Value<C>)
      modifies this
      ensures Get() == AfterSet(policy, old(value), next)
      ensures triggers == old(triggers) + SetTriggers(policy, old(value), next)
      ensures !ShouldMutate(policy, old(value), next) ==> value == old(value) && triggers == old(triggers)
      ensures ShouldMutate(policy, old(value), next) ==> value == next && triggers == old(triggers) + 1
    {
      if !ShouldMutate(policy, value, next) {
        return;
      }
      value := next;
      Trigger();
    }

    /**
     * Sets `f(old value)` and returns the value held afterwards: `f(old value)`
     * when the policy accepted it, the old value otherwise.
     */
    method Update(f: Value<C> -> Value<C>) returns (r: Value<C>)
      modifies this
      ensures r == Get() == AfterSet(policy, old(value), f(old(value)))
      ensures ShouldMutate(policy, old(value), f(old(value))) ==> r == f(old(value))
      ensures !ShouldMutate(policy, old(value), f(old(value))) ==> r == old(value)
      ensures triggers == old(triggers) + SetTriggers(policy, old(value), f(old(value)))
    {
      var next := f(value);
      Set(next);
      r := value;
    }

    /** `equals`: the held values are `Objects.equals`; the policies are ignored. */
    predicate Equals(other: MutableState<C>)
      reads this, other
      ensures this == other ==> Equals(other)
      ensures Equals(other) <==> ObjectsEquals(Get(), other.Get())
    {
      this == other || ObjectsEquals(value, other.value)
    }
  }
}
