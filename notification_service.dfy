/** The frontend `NotificationService` (notification.service.ts): a counter
    hands out ids and the list of shown notifications grows at the end and
    shrinks by id. */
module Notifications {

  datatype Kind = Success | Error | Warning | Info

  datatype Notification = Notification(id: nat, kind: Kind, message: string)

  /** Ids strictly increase along the list (so they are pairwise distinct). */
  predicate IdsIncreasing(ns: seq<Notification>) {
    forall i, j | 0 <= i < j < |ns| :: ns[i].id < ns[j].id
  }

  /** `filter((n) => n.id !== id)`. */
  function WithoutId(ns: seq<Notification>, id: nat): (r: seq<Notification>)
    ensures forall n :: n in r <==> n in ns && n.id != id
    ensures |r| <= |ns|
  {
    if ns == [] then []
    else (if ns[0].id != id then [ns[0]] else []) + WithoutId(ns[1..], id)
  }

  /** Filtering works entry by entry: the survivors keep their order. */
  lemma {:induction false} WithoutIdAppend(a: seq<Notification>, b: seq<Notification>, id: nat)
    ensures WithoutId(a + b, id) == WithoutId(a, id) + WithoutId(b, id)
  {
    if a == [] {
      assert a + b == b;
    } else {
      assert (a + b)[1..] == a[1..] + b;
      WithoutIdAppend(a[1..], b, id);
    }
  }

  /** Removing an id nobody has leaves the list as it was. */
  lemma {:induction false} WithoutAbsentId(ns: seq<Notification>, id: nat)
    requires forall i | 0 <= i < |ns| :: ns[i].id != id
    ensures WithoutId(ns, id) == ns
  {
    if ns != [] {
      WithoutAbsentId(ns[1..], id);
    }
  }

  /** Filtering keeps the ids increasing. */
  lemma {:induction false} WithoutIdKeepsIncreasing(ns: seq<Notification>, id: nat)
    requires IdsIncreasing(ns)
    ensures IdsIncreasing(WithoutId(ns, id))
  {
    if ns != [] {
      WithoutIdKeepsIncreasing(ns[1..], id);
      var rest := WithoutId(ns[1..], id);
      forall k | 0 <= k < |rest|
        ensures ns[0].id < rest[k].id
      {
        assert rest[k] in ns[1..];
      }
    }
  }

  /** With distinct ids, removing a present id drops exactly one entry. */
  lemma {:induction false} WithoutPresentIdDropsOne(ns: seq<Notification>, id: nat)
    requires IdsIncreasing(ns)
    requires exists i | 0 <= i < |ns| :: ns[i].id == id
    ensures |WithoutId(ns, id)| == |ns| - 1
  {
    if ns[0].id == id {
      WithoutAbsentId(ns[1..], id);
    } else {
      var i :| 0 <= i < |ns| && ns[i].id == id;
      assert ns[1..][i - 1].id == id;
      WithoutPresentIdDropsOne(ns[1..], id);
    }
  }

  /** The timed removal of a just-shown notification restores the list
      as it was before `show`, when nothing was removed in between. */
  lemma RemoveUndoesShow(ns: seq<Notification>, n: Notification)
    requires forall i | 0 <= i < |ns| :: ns[i].id < n.id
    ensures WithoutId(ns + [n], n.id) == ns
  {
    WithoutIdAppend(ns, [n], n.id);
    WithoutAbsentId(ns, n.id);
    assert WithoutId([n], n.id) == [];
  }

  class NotificationService {
    var counter: nat
    var notifications: seq<Notification>

    /** Ids are increasing and lie between 1 and the counter. */
    ghost predicate Valid()
      reads this
    {
      && IdsIncreasing(notifications)
      && forall i | 0 <= i < |notifications| :: 1 <= notifications[i].id <= counter
    }

    constructor()
      ensures Valid()
      ensures counter == 0 && notifications == []
    {
      counter := 0;
      notifications := [];
    }

    /** `show`: the next id, appended at the end. */
    method Show(kind: Kind, message: string)
      requires Valid()
      modifies this
      ensures Valid()
      ensures counter == old(counter) + 1
      ensures notifications == old(notifications) + [Notification(counter, kind, message)]
    {
      counter := counter + 1;
      notifications := notifications + [Notification(counter, kind, message)];
    }

    method Success(message: string)
      requires Valid()
      modifies this
      ensures Valid()
      ensures counter == old(counter) + 1
      ensures notifications == old(notifications) + [Notification(counter, Kind.Success, message)]
    {
      Show(Kind.Success, message);
    }

    method Error(message: string)
      requires Valid()
      modifies this
      ensures Valid()
      ensures counter == old(counter) + 1
      ensures notifications == old(notifications) + [Notification(counter, Kind.Error, message)]
    {
      Show(Kind.Error, message);
    }

    method Warning(message: string)
      requires Valid()
      modifies this
      ensures Valid()
      ensures counter == old(counter) + 1
      ensures notifications == old(notifications) + [Notification(counter, Kind.Warning, message)]
    {
      Show(Kind.Warning, message);
    }

    /** `remove`: every entry with that id goes, the rest keep their order. */
    method Remove(id: nat)
      requires Valid()
      modifies this
      ensures Valid()
      ensures counter == old(counter)
      ensures notifications == WithoutId(old(notifications), id)
    {
      WithoutIdKeepsIncreasing(notifications, id);
      notifications := WithoutId(notifications, id);
      forall i | 0 <= i < |notifications|
        ensures 1 <= notifications[i].id <= counter
      {
        assert notifications[i] in old(notifications);
      }
    }
  }
}
