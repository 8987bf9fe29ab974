/**
 * Client code that exercises the contracts the way a rendering layer would:
 * each method below only relies on the specifications of the classes it uses.
 */
module Scenarios {
  import opened Support
  import opened Policies
  import opened States
  import opened ListStates
  import opened MapStates
  import opened Listeners

  /** Structural skips an equal copy; Reference fires on it; NeverEqual fires on anything. */
  method PolicyScenarios()
  {
    var a, copy := Obj(1, "x"), Obj(2, "x");
    var structural := new MutableState(Some(a), StructuralEquality);
    structural.Set(Some(copy));
    assert structural.triggers == 0 && structural.Get() == Some(a);
    structural.Set(Some(Obj(3, "y")));
    assert structural.triggers == 1 && structural.Get() == Some(Obj(3, "y"));

    var reference := new MutableState(Some(a), ReferenceEquality);
    reference.Set(Some(a));
    assert reference.triggers == 0;
    reference.Set(Some(copy));
    assert reference.triggers == 1;

    var never := new MutableState(Some(a), NeverEqual);
    never.Set(Some(a));
    never.Set(Some(a));
    assert never.triggers == 2;

    var r := structural.Update(v => None);
    assert r == Some(Obj(3, "y")) && structural.triggers == 1;
  }

  /** A 3-element list: `add` fires once and appends; removing an absent element fires nothing. */
  method ListScenario(initial: seq<int>, x: int, y: int)
    requires |initial| == 3 && y !in initial && y != x
  {
    var list := new ListState(initial, false);
    var added := list.Add(x);
    assert list.triggers == 1 && list.Size() == 4 && list.Get(3) == Ok(x);
    assert list.backing == initial + [x] && y !in list.backing;
    var removed := list.Remove(y);
    assert !removed && list.triggers == 1 && list.Size() == 4;
    var failed := list.Set(7, x);
    assert failed.Err? && list.triggers == 1;
  }

  /** An empty map: `put` fires once and the key is then present. */
  method MapScenario(k: int, v: int)
  {
    var m := new MapState<int, int>(map[]);
    var previous := m.Put(k, v);
    assert previous == None && m.triggers == 1 && m.Get(k) == Some(v) && m.ContainsKey(k);
    previous := m.Remove(k + 1);
    assert previous == None && m.triggers == 2;
  }

  /** Three listeners under one owner run once each, in registration order. */
  method RegistryScenario(owner: int)
  {
    var registry := new ListenerContainer<int, string>();
    registry.AddListener(owner, "L1");
    assert registry.listeners == map[owner := ["L1"]];
    assert QueueOf(registry.listeners, owner) + ["L2"] == ["L1", "L2"];
    registry.AddListener(owner, "L2");
    assert registry.listeners == map[owner := ["L1", "L2"]];
    assert QueueOf(registry.listeners, owner) + ["L3"] == ["L1", "L2", "L3"];
    registry.AddListener(owner, "L3");
    assert registry.listeners == map[owner := ["L1", "L2", "L3"]];
    var order, fired := registry.TriggerAll();
    assert order == [owner] by {
      assert order[0] == owner;
    }
    assert Fanout(registry.listeners, order) == Fanout(registry.listeners, []) + ["L1", "L2", "L3"];
    assert fired == ["L1", "L2", "L3"];
  }
}
