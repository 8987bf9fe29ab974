# Nova change notification, modelled in Dafny

Nova lets a value or a collection announce, synchronously, that it has
changed, so that a rendering layer can redraw what depends on it. This
project models the core of that logic and proves what each operation does to
its state and how many times it calls `trigger()`:

- **Mutation policies** (`policies.dfy`, module `Policies`). `shouldMutate(current, next)`
  of ReferenceEquality, StructuralEquality and NeverEqual is one predicate,
  `ShouldMutate`, over a closed set of policy tags. A Java reference is an
  `Obj(id, content)`. Reference compares identities, Structural compares
  contents (`equals`), and `None` is `null`.
- **Mutable state** (`states.dfy`, module `States`). `MutableState` is a class
  with a `value` field, a `const policy` and a `triggers` counter. `Set` and
  `Update` are proved against the functions `AfterSet` and `SetTriggers`.
  `AfterSets` and `SetsTriggers` describe a series of `set` calls, and lemmas
  state what such a series does under each policy. `EmptyState` is the state
  that `remember()` creates. It holds no value and can only be triggered.
- **Observable list** (`javalists.dfy` and `liststates.dfy`). `JavaLists` states what the
  backing ArrayList does with `indexOf`, `lastIndexOf`, `remove(Object)`,
  `removeAll` and `retainAll`, as functions on sequences. `ListState` is a
  class over a `seq` field. Each mutator writes the backing list first and
  then triggers, either always or only when the backing list reports a
  change, exactly as `ListBackedListState` does.
- **Observable map** (`mapstates.dfy`). `MapState` is a class over a `map`
  field. `put`, `remove`, `putAll` and `clear` trigger once on every call.
- **Listener registry** (`listeners.dfy`). `ListenerContainer` maps each owner
  to its FIFO queue of listeners. A listener is an opaque id, and running it
  appends its id to the log that `TriggerAll` returns. The Java map's
  iteration order over owners is unspecified, so `TriggerAll` also returns
  the owner order it used. The lemmas hold for every such order: each
  registration runs exactly once, and each owner's listeners run back to back
  in registration order.
- **State holder** (`holders.dfy`). `StateHolder` keeps a `seq<object>` of
  remembered states. Every `remember*` overload creates its state, appends it
  through `Remember`, and returns it.
- `scenarios.dfy` is client code. It runs four usage scenarios
  (an equal copy under each policy, a three-element list, an empty map, three
  listeners under one owner). Each follows from the contracts above, with the
  read functions `Get`, `Size` and `QueueOf` also visible to it as definitions.

`trigger()` is defined in `AbstractState`, which is not part of this model.
Every state class therefore counts its triggers in a `triggers: nat` field.
"Triggers exactly once" is stated as `triggers == old(triggers) + 1`, and
"never triggers" as `triggers == old(triggers)`.

The two wrappers differ, and the model keeps the difference as written. The
map wrapper triggers on every write, even when nothing changed. The list
wrapper triggers on `remove(Object)`, both `addAll`, `removeAll` and
`retainAll` only when the backing list reports a change, and on `add`,
`set(index)`, `add(index)`, `remove(index)` and `clear` always. The
Structural policy rejects every transition into or out of `null`, and that is
also modelled as written. `StructuralNullIsSticky` shows one consequence: a
structural state that holds `null` can never leave it through `set`.

## Model

| member | source | states |
|---|---|---|
| `Policies.ReferenceMutatesIffDistinct` | core/src/main/java/dev/triumphteam/nova/policy/StateMutationPolicy.java:84-86 | On well-formed references, Reference reports a change exactly when the references differ; null to null is no change |
| `Policies.StructuralNullNeverMutates` | core/src/main/java/dev/triumphteam/nova/policy/StateMutationPolicy.java:101 | Structural reports no change when either side is null, including null to non-null and back |
| `Policies.StructuralMutatesIffNotEqual` | core/src/main/java/dev/triumphteam/nova/policy/StateMutationPolicy.java:102 | On two non-null values Structural reports a change exactly when they are not `equals` |
| `Policies.NeverEqualAlwaysMutates` | core/src/main/java/dev/triumphteam/nova/policy/StateMutationPolicy.java:117-119 | NeverEqual reports a change for every pair |
| `Policies.StructuralIgnoresCopies` | core/src/main/java/dev/triumphteam/nova/policy/StateMutationPolicy.java:84-102 | A distinct reference with equal content is a change for Reference and not for Structural |
| `Policies.PoliciesAreOrdered` | core/src/main/java/dev/triumphteam/nova/policy/StateMutationPolicy.java:81-125 | On well-formed references, whatever Structural accepts Reference accepts, and NeverEqual accepts whatever any policy accepts |
| `States.MutableState.constructor` | core/src/main/java/dev/triumphteam/nova/AbstractMutableState.java:45-48 | The state starts with the given value and policy and no triggers; the policy is a const, so `StateMutationPolicy()` returns it for the object's lifetime |
| `States.MutableState.Set` | core/src/main/java/dev/triumphteam/nova/AbstractMutableState.java:56-62 | When the policy rejects `next`, the value and the trigger count are unchanged; when it accepts, the value becomes `next` and the state triggers exactly once. `Get()` afterwards returns that value |
| `States.MutableState.Update` | core/src/main/java/dev/triumphteam/nova/AbstractMutableState.java:65-69 | Returns the value held after the call: `f(old)` if the policy accepted it, `old` otherwise; triggers exactly as often as `set(f(old))`, so zero or one times |
| `States.MutableState.Equals` | core/src/main/java/dev/triumphteam/nova/AbstractMutableState.java:77-82 | Two states are equal exactly when their values are `Objects.equals`; the policy plays no part, and a state equals itself |
| `States.RepeatedSetIsQuiet` | core/src/main/java/dev/triumphteam/nova/AbstractMutableState.java:56-62 | Under Reference and Structural, setting the same value a second time never triggers and leaves the value as the first call left it |
| `States.RepeatedSetSeriesIsQuiet` | core/src/main/java/dev/triumphteam/nova/AbstractMutableState.java:56-62 | After one `set(v)` under Reference or Structural, any number of further `set(v)` calls trigger zero times |
| `States.SetsFireAtMostOncePerCall` | core/src/main/java/dev/triumphteam/nova/AbstractMutableState.java:56-62 | A series of `set` calls triggers at most once per call, and at most once in all when every call sets the same value under Reference or Structural |
| `States.NeverEqualFiresEverySet` | core/src/main/java/dev/triumphteam/nova/AbstractMutableState.java:56-62 | Under NeverEqual every `set` of a series triggers, and the state ends with the last value set |
| `States.StructuralNullIsSticky` | core/src/main/java/dev/triumphteam/nova/AbstractMutableState.java:56-62 | Under Structural, a state holding null keeps it through any series of `set` calls and never triggers |
| `JavaLists.FirstIndex` | core/src/main/java/dev/triumphteam/nova/builtin/ListBackedListState.java:157-160 | The first position holding `x`, or -1 exactly when `x` is absent |
| `JavaLists.LastIndex` | core/src/main/java/dev/triumphteam/nova/builtin/ListBackedListState.java:162-165 | The last position holding `x`, or -1 exactly when `x` is absent |
| `JavaLists.RemoveFirst` | core/src/main/java/dev/triumphteam/nova/builtin/ListBackedListState.java:57-61 | Removing an absent element changes nothing; removing a present one cuts out exactly the position of its first occurrence (everything before it kept, everything after it shifted left by one) and removes one copy of it from the multiset |
| `JavaLists.Filter` | core/src/main/java/dev/triumphteam/nova/builtin/ListBackedListState.java:78-89 | `removeAll` and `retainAll` keep exactly the elements on the kept side of `c`; the length is unchanged exactly when nothing was dropped, and then the list is unchanged |
| `JavaLists.FilterAppend` | core/src/main/java/dev/triumphteam/nova/builtin/ListBackedListState.java:78-89 | Filtering keeps relative order: filtering a concatenation concatenates the filtered parts |
| `JavaLists.FilterCounts` | core/src/main/java/dev/triumphteam/nova/builtin/ListBackedListState.java:78-89 | A kept element keeps every occurrence; a dropped one keeps none |
| `JavaLists.FilterChangesIffSomeDropped` | core/src/main/java/dev/triumphteam/nova/builtin/ListBackedListState.java:78-89 | The filtered list differs from the input exactly when some element was dropped |
| `ListStates.ListState.constructor` | core/src/main/java/dev/triumphteam/nova/builtin/ListBackedListState.java:45-47 | The wrapper starts over the given backing list with no triggers |
| `ListStates.ListState.Add` | core/src/main/java/dev/triumphteam/nova/builtin/ListBackedListState.java:50-54 | Appends `t` at the end, grows the size by one, returns true and triggers exactly once |
| `ListStates.ListState.Remove` | core/src/main/java/dev/triumphteam/nova/builtin/ListBackedListState.java:57-61 | Removes the first occurrence of `o`; returns whether one was there and triggers exactly when it returns true; an absent `o` leaves the list unchanged |
| `ListStates.ListState.AddAll` | core/src/main/java/dev/triumphteam/nova/builtin/ListBackedListState.java:64-68 | Appends `c`; reports a change, and triggers, exactly when `c` is non-empty |
| `ListStates.ListState.AddAllAt` | core/src/main/java/dev/triumphteam/nova/builtin/ListBackedListState.java:71-75 | Splices `c` in at `index` and triggers exactly when `c` is non-empty; an index outside `0..size` fails with no change and no trigger |
| `ListStates.ListState.RemoveAll` | core/src/main/java/dev/triumphteam/nova/builtin/ListBackedListState.java:78-82 | Drops every element found in `c`, keeping order; triggers exactly when the list changed, that is, when some element was in `c` |
| `ListStates.ListState.RetainAll` | core/src/main/java/dev/triumphteam/nova/builtin/ListBackedListState.java:85-89 | Keeps only the elements found in `c`, keeping order; triggers exactly when the list changed, that is, when some element was not in `c` |
| `ListStates.ListState.Set` | core/src/main/java/dev/triumphteam/nova/builtin/ListBackedListState.java:92-96 | Replaces only position `index`, returns the old element and always triggers once, even for an equal element; a bad index fails with no change and no trigger |
| `ListStates.ListState.Clear` | core/src/main/java/dev/triumphteam/nova/builtin/ListBackedListState.java:99-102 | Empties the list and triggers once, even when it was already empty |
| `ListStates.ListState.RemoveAt` | core/src/main/java/dev/triumphteam/nova/builtin/ListBackedListState.java:105-109 | Removes and returns the element at `index`, shifting the rest left, and triggers once; a bad index fails with no change and no trigger |
| `ListStates.ListState.Insert` | core/src/main/java/dev/triumphteam/nova/builtin/ListBackedListState.java:112-115 | Inserts `e` at `index`, shifting the rest right, and triggers once; an index outside `0..size` fails with no change and no trigger |
| `ListStates.ListState.IsEmpty` | core/src/main/java/dev/triumphteam/nova/builtin/ListBackedListState.java:122-125 | Empty exactly when the size is zero |
| `ListStates.ListState.Contains` | core/src/main/java/dev/triumphteam/nova/builtin/ListBackedListState.java:127-130 | Contains `o` exactly when `indexOf(o)` and `lastIndexOf(o)` find it, and exactly when some `get` yields it |
| `ListStates.ListState.ContainsAll` | core/src/main/java/dev/triumphteam/nova/builtin/ListBackedListState.java:147-150 | True exactly when every element of `c` is contained |
| `ListStates.ListState.Get` | core/src/main/java/dev/triumphteam/nova/builtin/ListBackedListState.java:152-155 | Succeeds exactly for indexes in `0..size-1`, with the backing list's element at `index`; otherwise reports the out-of-bounds index |
| `ListStates.ListState.IndexOf` | core/src/main/java/dev/triumphteam/nova/builtin/ListBackedListState.java:157-160 | The first index where `get` yields `o`, or -1 when no index does |
| `ListStates.ListState.LastIndexOf` | core/src/main/java/dev/triumphteam/nova/builtin/ListBackedListState.java:162-165 | The last index where `get` yields `o`, or -1 when no index does |
| `MapStates.MapState.constructor` | core/src/main/java/dev/triumphteam/nova/builtin/MapBackedMapState.java:39-41 | The wrapper starts over the given backing map with no triggers |
| `MapStates.MapState.Put` | core/src/main/java/dev/triumphteam/nova/builtin/MapBackedMapState.java:44-48 | Afterwards `get(k) == v` and `containsKey(k)`; every other key keeps its mapping; returns the previous mapping (None for null); triggers exactly once |
| `MapStates.MapState.Remove` | core/src/main/java/dev/triumphteam/nova/builtin/MapBackedMapState.java:51-55 | Afterwards `k` is unmapped and every other key keeps its mapping; returns the previous mapping; triggers once even when `k` was absent |
| `MapStates.MapState.PutAll` | core/src/main/java/dev/triumphteam/nova/builtin/MapBackedMapState.java:58-61 | Keys of `m` take `m`'s values and all other keys keep theirs; triggers once even when `m` is empty |
| `MapStates.MapState.Clear` | core/src/main/java/dev/triumphteam/nova/builtin/MapBackedMapState.java:64-67 | Leaves the map empty and triggers once, even when it was already empty |
| `MapStates.MapState.IsEmpty` | core/src/main/java/dev/triumphteam/nova/builtin/MapBackedMapState.java:75-77 | Empty exactly when the size is zero |
| `MapStates.MapState.ContainsKey` | core/src/main/java/dev/triumphteam/nova/builtin/MapBackedMapState.java:80-82 | Contains `k` exactly when `get(k)` finds a mapping |
| `MapStates.MapState.ContainsValue` | core/src/main/java/dev/triumphteam/nova/builtin/MapBackedMapState.java:85-87 | Contains `v` exactly when some key's `get` yields `v` |
| `MapStates.MapState.Get` | core/src/main/java/dev/triumphteam/nova/builtin/MapBackedMapState.java:90-92 | Finds a value exactly for the mapped keys, and it is the value the backing map holds for `k` |
| `Listeners.ListenerContainer.constructor` | core/src/main/java/dev/triumphteam/nova/StateListenerContainer.java:47 | A new registry has no owners |
| `Listeners.ListenerContainer.AddListener` | core/src/main/java/dev/triumphteam/nova/StateListenerContainer.java:68-70 | A new owner gets the queue `[listener]`; an existing owner's queue gets `listener` appended with its earlier listeners in order; no other owner's queue changes |
| `Listeners.ListenerContainer.TriggerAll` | core/src/main/java/dev/triumphteam/nova/StateListenerContainer.java:75-77 | Visits every owner exactly once, in some order, and runs each owner's queue front to back; it registers and unregisters nothing |
| `Listeners.RunsEachRegistrationOnce` | core/src/main/java/dev/triumphteam/nova/StateListenerContainer.java:75-77 | Whatever the owner order, each registration runs exactly once: a listener registered twice runs twice, and the number of runs is the number of registrations |
| `Listeners.OwnerRunsInRegistrationOrder` | core/src/main/java/dev/triumphteam/nova/StateListenerContainer.java:75-77 | Each owner's listeners run back to back in FIFO order, after the owners visited before it and before those visited after it |
| `Listeners.AddedListenerRunsOnceMore` | core/src/main/java/dev/triumphteam/nova/StateListenerContainer.java:68-70 | One more `addListener` adds exactly one more run of that listener to every later `triggerAll` |
| `Holders.StateHolder.constructor` | core/src/main/java/dev/triumphteam/nova/holder/AbstractStateHolder.java:44 | A new holder has remembered nothing |
| `Holders.StateHolder.Remember` | core/src/main/java/dev/triumphteam/nova/holder/AbstractStateHolder.java:52-55 | Appends `state` at the end, keeping earlier states in order, and returns that same object |
| `Holders.StateHolder.RememberEmpty` | core/src/main/java/dev/triumphteam/nova/holder/AbstractStateHolder.java:47-49 | Appends and returns a fresh empty state |
| `Holders.StateHolder.RememberValue` | core/src/main/java/dev/triumphteam/nova/holder/AbstractStateHolder.java:58-60 | Appends and returns a fresh mutable state holding `value` under the structural policy |
| `Holders.StateHolder.RememberValueWith` | core/src/main/java/dev/triumphteam/nova/holder/AbstractStateHolder.java:63-68 | Appends and returns a fresh mutable state with exactly that value and policy |
| `Holders.StateHolder.RememberNullable` | core/src/main/java/dev/triumphteam/nova/holder/AbstractStateHolder.java:71-73 | Appends and returns a fresh mutable state holding the possibly-null `value` under the structural policy |
| `Holders.StateHolder.RememberNullableWith` | core/src/main/java/dev/triumphteam/nova/holder/AbstractStateHolder.java:76-81 | Appends and returns a fresh mutable state with exactly that possibly-null value and policy |
| `Holders.StateHolder.RememberList` | core/src/main/java/dev/triumphteam/nova/holder/AbstractStateHolder.java:84-86 | Appends and returns a fresh, empty, writable list state |
| `Holders.StateHolder.RememberListOf` | core/src/main/java/dev/triumphteam/nova/holder/AbstractStateHolder.java:90-92 | Appends and returns a fresh list state over `values` that rejects writes, as `List.of` does |
| `Holders.StateHolder.RememberListBacked` | core/src/main/java/dev/triumphteam/nova/holder/AbstractStateHolder.java:95-97 | Appends and returns a fresh writable list state over the given contents |
| `Holders.StateHolder.RememberMap` | core/src/main/java/dev/triumphteam/nova/holder/AbstractStateHolder.java:100-102 | Appends and returns a fresh, empty map state |
| `Holders.StateHolder.RememberMapBacked` | core/src/main/java/dev/triumphteam/nova/holder/AbstractStateHolder.java:105-107 | Appends and returns a fresh map state over the given entries |

`MutableState.Get`, `MutableState.StateMutationPolicy`, `ListState.Size`,
`MapState.Size` and `StateHolder.GetStates` return a field, or its length,
unchanged. They are functions (reading `this`, or only a `const` field in
the case of `StateMutationPolicy`), so they cannot write or trigger. Their meaning is fixed by the contracts of the members above.

## Left out

- The body of `trigger()` in `AbstractState`, and how it reaches the registry. Neither is part of this model. Each state counts its triggers instead.
- `EmptyState` is not part of this model beyond being a state with no value.
- Weak keys: owners are dropped from the registry once garbage-collected. This depends on the garbage collector and cannot be expressed here, so the registry is a plain map and owners are never dropped.
- Concurrency. The registry uses a concurrent map and concurrent queues. The model has one sequential caller.
- The iteration order of the registry's map over owners. `TriggerAll` picks an order and returns it, and the lemmas hold for every order.
- A listener that throws inside `triggerAll`. The source does not handle this case. In the model, running a listener always succeeds and only logs its id.
- The live views `iterator`, `listIterator`, `subList` and `toArray` on the list, and `keySet`, `values` and `entrySet` on the map. Writes through them bypass `trigger`, and their aliasing cannot be modelled faithfully.
- In-place mutation of a held object. A value is a snapshot `Obj(id, content)`, so a `set` with the same identity and new content is not modelled. In Java such a `set` passes the object the state already holds, so Structural sees `x.equals(x)` and does not fire, and under every policy `get` returns the changed object. In the model, Structural fires on it and Reference keeps the stale content. `Consistent` states the one-content-per-identity assumption, but only the policy lemmas require it, not `MutableState.Set` or `Update`.
- Aliasing of a caller-supplied backing list or map (`rememberList(backing)`, `rememberMap(backing)`). The model copies the contents, so writes the caller makes to its own container are not seen.
- Backing lists other than a modifiable ArrayList-like list. An unmodifiable `List.of` list is the one exception. Its `UnsupportedOperationException` is modelled as the precondition `!readOnly` on every list mutator, not as behaviour.
- `RememberListOf`: the model lets `List.of` succeed on any `values`. In Java it throws `NullPointerException` when one of them is `null`; list elements in the model are never `null`, so that failure cannot arise.
- `RememberMapBacked`: every write is accepted. In Java an unmodifiable backing map (for example `Map.of`) throws `UnsupportedOperationException` on every write. The model assumes a modifiable map.
- Java `int` sizes and indexes. Sizes are unbounded `nat`s, so lists with more than 2^31-1 elements are not modelled.
- `null` map values. `get` returns `None` only for an absent key. A key mapped to a `null` value would need `V` to be an option type.
- `MutableState.Update`: `f` is a pure Dafny function. That it is applied exactly once is implicit, and side effects of `f` are not modelled.
- `hashCode` and `toString` of every class. These are formatting, and hashing delegated to `Objects.hashCode`.
- The registry backing-store factory (`StateCacheFactory`). It is a global supplier over a third-party cache, with no logic to state.
- The interfaces `State`, `MutableState`, `ListState`, `MapState` and `StateHolder`, and `SimpleMutableState`. They declare operations and hold one-line factories. Their defaults are folded into the constructors and the `remember*` methods. For example, the structural default is used in `RememberValue` and `RememberNullable`.
- The Kotlin property-delegate helpers and the build files.
