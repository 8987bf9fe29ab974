/**
 * ListBackedListState.java: a list that forwards every call to its backing
 * list and, after each write, decides whether to trigger.
 *
 * `add`, `set`, `add(index)`, `remove(index)` and `clear` trigger on every
 * successful call; `remove(Object)`, both `addAll`, `removeAll` and
 * `retainAll` trigger only when the backing list reports a change. A bad
 * index throws before `trigger()` runs, so a failed call changes nothing.
 */
module ListStates {
  import opened Support
  import opened JavaLists

  class ListState<T(==)> {
    /** The backing list's contents. */
    var backing: seq<T>
    /** The backing list rejects every write (`List.of`, behind `ListState.of(T...)`). */
    const readOnly: bool
    var triggers: nat

    constructor (backing: seq<T>, readOnly: bool)
      ensures this.backing == backing && this.readOnly == readOnly && triggers == 0
    {
      this.backing := backing;
      this.readOnly := readOnly;
      triggers := 0;
    }

    method Trigger()
      modifies this`triggers
      ensures triggers == old(triggers) + 1
    {
      triggers := triggers + 1;
    }

    /** `add(t)`: appends `t`, returns true and triggers once. */
    method Add(t: T) returns (r: bool)
      requires !readOnly
      modifies this
      ensures backing == old(backing) + [t] && |backing| == |old(backing)| + 1
      ensures r
      ensures triggers == old(triggers) + 1
    {
      backing := backing + [t];
      Trigger();
      r := true;
    }

    /** `remove(Object o)`: drops the first `o` and triggers only if there was one. */
    method Remove(o: T) returns (removed: bool)
      requires !readOnly
      modifies this
      ensures removed <==> o in old(backing)
      ensures backing == RemoveFirst(old(backing), o)
      ensures !removed ==> backing == old(backing)
      ensures triggers == old(triggers) + (if removed then 1 else 0)
    {
      var i := FirstIndex(backing, o);
      removed := i >= 0;
      if removed {
        backing := backing[..i] + backing[i + 1..];
        Trigger();
      }
    }

    /** `addAll(c)`: appends `c`; changed (and triggered) exactly when `c` is non-empty. */
    method AddAll(c: seq<T>) returns (changed: bool)
      requires !readOnly
      modifies this
      ensures backing == old(backing) + c
      ensures changed <==> backing != old(backing)
      ensures changed <==> |c| > 0
      ensures triggers == old(triggers) + (if changed then 1 else 0)
    {
      backing := backing + c;
      changed := |c| != 0;
      if changed {
        Trigger();
      }
    }

    /** `addAll(index, c)`: splices `c` in at `index`, which may be the size. */
    method AddAllAt(index: int, c: seq<T>) returns (r: Result<bool>)
      requires !readOnly
      modifies this
      ensures 0 <= index <= |old(backing)| ==>
                backing == old(backing)[..index] + c + old(backing)[index..]
                && r == Ok(|c| > 0)
                && triggers == old(triggers) + (if |c| > 0 then 1 else 0)
      ensures !(0 <= index <= |old(backing)|) ==>
                r == Err(IndexOutOfBounds(index, |old(backing)|))
                && backing == old(backing) && triggers == old(triggers)
    {
      if !(0 <= index <= |backing|) {
        return Err(IndexOutOfBounds(index, |backing|));
      }
      backing := backing[..index] + c + backing[index..];
      var added := |c| != 0;
      if added {
        Trigger();
      }
      r := Ok(added);
    }

    /** `removeAll(c)`: drops every element in `c`; triggers iff the list changed. */
    method RemoveAll(c: seq<T>) returns (changed: bool)
      requires !readOnly
      modifies this
      ensures backing == Filter(old(backing), c, false)
      ensures changed <==> backing != old(backing)
      ensures changed <==> exists i :: 0 <= i < |old(backing)| && old(backing)[i] in c
      ensures triggers == old(triggers) + (if changed then 1 else 0)
    {
      var before := |backing|;
      backing := Filter(backing, c, false);
      changed := |backing| != before;
      if changed {
        Trigger();
      }
    }

    /** `retainAll(c)`: keeps only the elements in `c`; triggers iff the list changed. */
    method RetainAll(c: seq<T>) returns (changed: bool)
      requires !readOnly
      modifies this
      ensures backing == Filter(old(backing), c, true)
      ensures changed <==> backing != old(backing)
      ensures changed <==> exists i :: 0 <= i < |old(backing)| && old(backing)[i] !in c
      ensures triggers == old(triggers) + (if changed then 1 else 0)
    {
      var before := |backing|;
      backing := Filter(backing, c, true);
      changed := |backing| != before;
      if changed {
        Trigger();
      }
    }

    /** `set(index, e)`: replaces one element, returns the old one, always triggers. */
    method Set(index: int, e: T) returns (r: Result<T>)
      requires !readOnly
      modifies this
      ensures 0 <= index < |old(backing)| ==>
                backing == old(backing)[index := e]
                && r == Ok(old(backing)[index])
                && triggers == old(triggers) + 1
      ensures !(0 <= index < |old(backing)|) ==>
                r == Err(IndexOutOfBounds(index, |old(backing)|))
                && backing == old(backing) && triggers == old(triggers)
    {
      if !(0 <= index < |backing|) {
        return Err(IndexOutOfBounds(index, |backing|));
      }
      var previous := backing[index];
      backing := backing[index := e];
      Trigger();
      r := Ok(previous);
    }

    /** `clear()`: empties the list and triggers, even when it was already empty. */
    method Clear()
      requires !readOnly
      modifies this
      ensures backing == []
      ensures triggers == old(triggers) + 1
    {
      backing := [];
      Trigger();
    }

    /** `remove(int index)`: removes and returns one element, shifting the rest left. */
    method RemoveAt(index: int) returns (r: Result<T>)
      requires !readOnly
      modifies this
      ensures 0 <= index < |old(backing)| ==>
                backing == old(backing)[..index] + old(backing)[index + 1..]
                && r == Ok(old(backing)[index])
                && triggers == old(triggers) + 1
      ensures !(0 <= index < |old(backing)|) ==>
                r == Err(IndexOutOfBounds(index, |old(backing)|))
                && backing == old(backing) && triggers == old(triggers)
    {
      if !(0 <= index < |backing|) {
        return Err(IndexOutOfBounds(index, |backing|));
      }
      var removed := backing[index];
      backing := backing[..index] + backing[index + 1..];
      Trigger();
      r := Ok(removed);
    }

    /** `add(index, e)`: inserts `e` at `index`, shifting the rest right. */
    method Insert(index: int, e: T) returns (r: Status)
      requires !readOnly
      modifies this
      ensures 0 <= index <= |old(backing)| ==>
                backing == old(backing)[..index] + [e] + old(backing)[index..]
                && r == Done
                && triggers == old(triggers) + 1
      ensures !(0 <= index <= |old(backing)|) ==>
                r == Failed(IndexOutOfBounds(index, |old(backing)|))
                && backing == old(backing) && triggers == old(triggers)
    {
      if !(0 <= index <= |backing|) {
        return Failed(IndexOutOfBounds(index, |backing|));
      }
      backing := backing[..index] + [e] + backing[index..];
      Trigger();
      r := Done;
    }

    // Reads: each is a function of the backing list, so none can trigger or write.

    function Size(): nat
      reads this
    {
      |backing|
    }

    predicate IsEmpty()
      reads this
      ensures IsEmpty() <==> Size() == 0
    {
      |backing| == 0
    }

    /** `get(index)`: the element at `index`, or the out-of-bounds failure. */
    function Get(index: int): (r: Result<T>)
      reads this
      ensures r.Ok? <==> 0 <= index < Size()
      ensures r.Ok? ==> r.value == backing[index] && r.value in backing
      ensures r.Err? ==> r.error == IndexOutOfBounds(index, Size())
    {
      if 0 <= index < |backing| then Ok(backing[index])
      else Err(IndexOutOfBounds(index, |backing|))
    }

    /** `indexOf(o)`: where `get` first yields `o`, or -1. */
    function IndexOf(o: T): (r: int)
      reads this
      ensures -1 <= r < Size()
      ensures r >= 0 ==> Get(r) == Ok(o) && forall j :: 0 <= j < r ==> Get(j) != Ok(o)
      ensures r == -1 ==> forall j :: 0 <= j < Size() ==> Get(j) != Ok(o)
    {
      FirstIndex(backing, o)
    }

    /** `lastIndexOf(o)`: where `get` last yields `o`, or -1. */
    function LastIndexOf(o: T): (r: int)
      reads this
      ensures -1 <= r < Size()
      ensures r >= 0 ==> Get(r) == Ok(o) && forall j :: r < j < Size() ==> Get(j) != Ok(o)
      ensures r == -1 ==> forall j :: 0 <= j < Size() ==> Get(j) != Ok(o)
    {
      LastIndex(backing, o)
    }

    /** `contains(o)`: agrees with both index searches. */
    predicate Contains(o: T)
      reads this
      ensures Contains(o) <==> IndexOf(o) >= 0
      ensures Contains(o) <==> LastIndexOf(o) >= 0
      ensures Contains(o) <==> exists j :: 0 <= j < Size() && Get(j) == Ok(o)
    {
      o in backing
    }

    /** `containsAll(c)`: every element of `c` is contained. */
    predicate ContainsAll(c: seq<T>)
      reads this
      ensures ContainsAll(c) <==> forall i :: 0 <= i < |c| ==> Contains(c[i])
    {
      forall i :: 0 <= i < |c| ==> c[i] in backing
    }
  }
}
