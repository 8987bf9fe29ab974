/**
 * StateListenerContainer.java: a map from each owner to the FIFO queue of
 * listeners registered under it.
 *
 * A listener is an opaque id; running it is recorded by appending its id to
 * the log `triggerAll` returns. The backing map's iteration order over
 * owners is unspecified, so `triggerAll` also reports the order it used, and
 * the lemmas below hold for every such order.
 */
module Listeners {

  /** The queue registered under `owner`, empty when there is none. */
  function QueueOf<O, L>(listeners: map<O, seq<L>>, owner: O): seq<L>
  {
    if owner in listeners then listeners[owner] else []
  }

  /** The runs of one `triggerAll` that visits the owners in `order`. */
  function Fanout<O, L>(listeners: map<O, seq<L>>, order: seq<O>): seq<L>
    decreases |order|
  {
    if order == [] then []
    else Fanout(listeners, order[..|order| - 1]) + QueueOf(listeners, order[|order| - 1])
  }

  predicate Distinct<O(==)>(s: seq<O>)
  {
    forall i, j :: 0 <= i < j < |s| ==> s[i] != s[j]
  }

  /** `order` visits every owner of the map exactly once. */
  predicate IsIterationOrder<O(==), L>(listeners: map<O, seq<L>>, order: seq<O>)
  {
    Distinct(order)
    && (forall i :: 0 <= i < |order| ==> order[i] in listeners)
    && (forall o :: o in listeners ==> o in order)
  }

  /** Every registration of the owners in `owners`, as a multiset of listener ids. */
  ghost function Registrations<O, L>(listeners: map<O, seq<L>>, owners: set<O>): multiset<L>
    decreases owners
  {
    if owners == {} then multiset{}
    else
      var o :| o in owners;
      multiset(QueueOf(listeners, o)) + Registrations(listeners, owners - {o})
  }

  /** Any one owner's queue can be taken out of the registrations first. */
  lemma {:induction false} RegistrationsSplit<O, L>(listeners: map<O, seq<L>>, owners: set<O>, owner: O)
    requires owner in owners
    ensures Registrations(listeners, owners)
         == multiset(QueueOf(listeners, owner)) + Registrations(listeners, owners - {owner})
    decreases owners
  {
    var o :| o in owners && Registrations(listeners, owners)
                          == multiset(QueueOf(listeners, o)) + Registrations(listeners, owners - {o});
    if o != owner {
      RegistrationsSplit(listeners, owners - {o}, owner);
      RegistrationsSplit(listeners, owners - {owner}, o);
      assert owners - {o} - {owner} == owners - {owner} - {o};
    }
  }

  /** Visiting `a` and then `b` runs `a`'s queues and then `b`'s. */
  lemma {:induction false} FanoutAppend<O, L>(listeners: map<O, seq<L>>, a: seq<O>, b: seq<O>)
    ensures Fanout(listeners, a + b) == Fanout(listeners, a) + Fanout(listeners, b)
    decreases |b|
  {
    if b == [] {
      assert a + b == a;
    } else {
      var b' := b[..|b| - 1];
      assert (a + b)[..|a + b| - 1] == a + b';
      assert (a + b)[|a + b| - 1] == b[|b| - 1];
      FanoutAppend(listeners, a, b');
    }
  }

  /** The runs of a pass over distinct owners are exactly their registrations. */
  lemma {:induction false} FanoutIsRegistrations<O, L>(listeners: map<O, seq<L>>, order: seq<O>)
    requires Distinct(order)
    ensures multiset(Fanout(listeners, order)) == Registrations(listeners, set o | o in order)
    decreases |order|
  {
    if order != [] {
      var init, last := order[..|order| - 1], order[|order| - 1];
      FanoutIsRegistrations(listeners, init);
      var owners := set o | o in order;
      assert owners - {last} == set o | o in init by {
        forall o | o in owners - {last} ensures o in init {
          var i :| 0 <= i < |order| && order[i] == o;
          assert i != |order| - 1;
          assert init[i] == o;
        }
      }
      RegistrationsSplit(listeners, owners, last);
    }
  }

  /**
   * `triggerAll` runs every registration exactly once, whatever the owner
   * order: a listener registered twice runs twice, and the number of runs
   * is the total length of the queues.
   */
  lemma RunsEachRegistrationOnce<O, L>(listeners: map<O, seq<L>>, order: seq<O>)
    requires IsIterationOrder(listeners, order)
    ensures multiset(Fanout(listeners, order)) == Registrations(listeners, listeners.Keys)
    ensures |Fanout(listeners, order)| == |Registrations(listeners, listeners.Keys)|
  {
    FanoutIsRegistrations(listeners, order);
    assert (set o | o in order) == listeners.Keys;
  }

  /**
   * Each owner's listeners run back to back, in registration (FIFO) order,
   * between the owners visited before it and those visited after.
   */
  lemma OwnerRunsInRegistrationOrder<O, L>(listeners: map<O, seq<L>>, order: seq<O>, i: nat)
    requires i < |order|
    ensures Fanout(listeners, order)
         == Fanout(listeners, order[..i]) + QueueOf(listeners, order[i]) + Fanout(listeners, order[i + 1..])
  {
    assert order == order[..i + 1] + order[i + 1..];
    FanoutAppend(listeners, order[..i + 1], order[i + 1..]);
    assert order[..i + 1][..i] == order[..i];
  }

  /** One more registration adds exactly one more run of that listener. */
  lemma AddedListenerRunsOnceMore<O, L>(listeners: map<O, seq<L>>, owner: O, listener: L)
    ensures var after := listeners[owner := QueueOf(listeners, owner) + [listener]];
            Registrations(after, after.Keys) == Registrations(listeners, listeners.Keys) + multiset{listener}
  {
    var after := listeners[owner := QueueOf(listeners, owner) + [listener]];
    RegistrationsSplit(after, after.Keys, owner);
    var rest := listeners.Keys - {owner};
    assert after.Keys - {owner} == rest;
    RegistrationsAgree(after, listeners, rest);
    if owner in listeners {
      RegistrationsSplit(listeners, listeners.Keys, owner);
    } else {
      assert listeners.Keys == rest;
    }
  }

  /** Registrations only look at the queues of the owners asked about. */
  lemma {:induction false} RegistrationsAgree<O, L>(a: map<O, seq<L>>, b: map<O, seq<L>>, owners: set<O>)
    requires forall o :: o in owners ==> QueueOf(a, o) == QueueOf(b, o)
    ensures Registrations(a, owners) == Registrations(b, owners)
    decreases owners
  {
    if owners != {} {
      var o :| o in owners && Registrations(a, owners)
                            == multiset(QueueOf(a, o)) + Registrations(a, owners - {o});
      RegistrationsSplit(b, owners, o);
      RegistrationsAgree(a, b, owners - {o});
    }
  }

  class ListenerContainer<O(==), L> {
    var listeners: map<O, seq<L>>

    constructor ()
      ensures listeners == map[]
    {
      listeners := map[];
    }

    /**
     * `addListener(owner, listener)`: creates the owner's queue if it has none
     * and appends `listener`; every other owner's queue is left as it was.
     */
    method AddListener(owner: O, listener: L)
      modifies this
      ensures owner in listeners && listeners[owner] == QueueOf(old(listeners), owner) + [listener]
      ensures owner !in old(listeners) ==> listeners[owner] == [listener]
      ensures forall o :: o != owner ==> QueueOf(listeners, o) == QueueOf(old(listeners), o)
      ensures listeners.Keys == old(listeners).Keys + {owner}
      ensures listeners == old(listeners)[owner := QueueOf(old(listeners), owner) + [listener]]
    {
      var queue := if owner in listeners then listeners[owner] else [];
      listeners := listeners[owner := queue + [listener]];
    }

    /**
     * `triggerAll()`: for each owner in the map's iteration order `order`,
     * runs that owner's queue front to back; `fired` logs the runs. Nothing
     * is registered or unregistered.
     */
    method TriggerAll() returns (order: seq<O>, fired: seq<L>)
      ensures IsIterationOrder(listeners, order)
      ensures fired == Fanout(listeners, order)
    {
      order, fired := [], [];
      var remaining := listeners.Keys;
      while remaining != {}
        invariant remaining <= listeners.Keys
        invariant Distinct(order)
        invariant forall i :: 0 <= i < |order| ==> order[i] in listeners && order[i] !in remaining
        invariant forall o :: o in listeners ==> o in order || o in remaining
        invariant fired == Fanout(listeners, order)
        decreases remaining
      {
        var owner :| owner in remaining;
        var queue := listeners[owner];
        var j := 0;
        while j < |queue|
          invariant 0 <= j <= |queue|
          invariant fired == Fanout(listeners, order) + queue[..j]
        {
          fired := fired + [queue[j]];
          j := j + 1;
          assert queue[..j] == queue[..j - 1] + [queue[j - 1]];
        }
        assert queue[..j] == queue;
        assert (order + [owner])[..|order|] == order;
        order := order + [owner];
        remaining := remaining - {owner};
      }
    }
  }
}
