/** Whole cold-start runs: sequences of healthy sweeps, each in an order of its own. */
module SweepRuns {
  import opened Wrappers
  import opened Conditions
  import opened Kubernetes
  import opened NamespacePath
  import opened Polaris
  import opened Operator
  import opened ColdStart
  import Catalogs
  import Properties

  /** Reconcile these resources one after the other. */
  function Sweep(c: Cluster, order: seq<Id>): Cluster
    decreases |order|
  {
    if order == [] then c else Sweep(Reconcile(c, order[0], HEALTHY), order[1..])
  }

  function Sweeps(c: Cluster, orders: seq<seq<Id>>): Cluster
    decreases |orders|
  {
    if orders == [] then c else Sweeps(Sweep(c, orders[0]), orders[1..])
  }

  /** Every stored resource gets its turn, in whatever order and however often. */
  predicate Covers(order: seq<Id>, c: Cluster) {
    forall id :: id in c.store ==> id in order
  }

  predicate Live(c: Cluster) {
    Startable(c) && ServerFits(c.server)
  }

  // ---- What every pass keeps ----

  lemma PassKeeps(c: Cluster, id: Id, n: nat)
    requires Live(c) && SettledBelow(c, n)
    ensures var d := Reconcile(c, id, HEALTHY);
            Live(d) && SettledBelow(d, n) && SameManifests(c, d)
  {
    hide Startable, ServerFits, SettledBelow, WellPlaced;
    if id in c.store {
      hide Reconcile;
      StartableAt(c, id);
      PassKeepsManifests(c, id);
      StaysStartable(c, Reconcile(c, id, HEALTHY));
      PassKeepsServerFitting(c, id);
      PassKeepsSettledBelow(c, id, n);
    }
  }

  lemma {:induction false} SweepKeeps(c: Cluster, order: seq<Id>, n: nat)
    requires Live(c) && SettledBelow(c, n)
    ensures var d := Sweep(c, order);
            Live(d) && SettledBelow(d, n) && SameManifests(c, d)
    decreases |order|
  {
    hide Live, SettledBelow, Reconcile;
    if order != [] {
      PassKeeps(c, order[0], n);
      SweepKeeps(Reconcile(c, order[0], HEALTHY), order[1..], n);
    }
  }

  // ---- Two sweeps settle a level ----

  /** Ready to be written: the finalizer is in place, or none is needed. */
  predicate Armed(c: Cluster, id: Id) {
    id in c.store && (c.store[id].identity.Connection? || c.store[id].finalizer)
  }

  lemma PassArms(c: Cluster, id: Id)
    requires Live(c) && id in c.store && SettledBelow(c, Rank(c, id))
    ensures Armed(Reconcile(c, id, HEALTHY), id)
  {
    hide Locate, SettledBelow, Rank, CanHold, Startable, Converge;
    StartableAt(c, id);
    if !c.store[id].identity.Connection? {
      Proceeds(c, id);
    }
  }

  lemma ManifestsKeepArmed(c: Cluster, d: Cluster, id: Id)
    requires SameManifests(c, d) && Armed(c, id)
    ensures Armed(d, id)
  {
  }

  lemma {:induction false} SweepArms(c: Cluster, order: seq<Id>, id: Id)
    requires Live(c) && id in c.store && id in order && SettledBelow(c, Rank(c, id))
    ensures Armed(Sweep(c, order), id)
    decreases |order|
  {
    hide Live, SettledBelow, Reconcile, Armed, Rank;
    var d := Reconcile(c, order[0], HEALTHY);
    PassKeeps(c, order[0], Rank(c, id));
    if order[0] == id {
      PassArms(c, id);
      SweepKeeps(d, order[1..], Rank(c, id));
      ManifestsKeepArmed(d, Sweep(d, order[1..]), id);
    } else {
      SamePlace(c, d, id);
      SweepArms(d, order[1..], id);
    }
  }

  lemma PassSettlesArmed(c: Cluster, id: Id)
    requires Live(c) && Armed(c, id) && SettledBelow(c, Rank(c, id))
    ensures Settled(Reconcile(c, id, HEALTHY), id)
  {
    hide Reconcile, Settled, SettledBelow, Rank, Startable;
    StartableAt(c, id);
    if c.store[id].identity.Connection? {
      ConnectionSettles(c, id);
    } else {
      PassSettles(c, id);
    }
  }

  lemma {:induction false} SweepKeepsSettled(c: Cluster, order: seq<Id>, id: Id)
    requires Live(c) && Settled(c, id) && SettledBelow(c, Rank(c, id))
    ensures Settled(Sweep(c, order), id)
    decreases |order|
  {
    hide SettledBelow, Reconcile, Settled, Rank, Startable, ServerFits;
    if order != [] {
      var d := Reconcile(c, order[0], HEALTHY);
      PassKeeps(c, order[0], Rank(c, id));
      if order[0] in c.store {
        PassKeepsSettled(c, order[0], id);
      } else {
        UnknownIsIgnored(c, order[0]);
      }
      SamePlace(c, d, id);
      SweepKeepsSettled(d, order[1..], id);
    }
  }

  lemma UnknownIsIgnored(c: Cluster, id: Id)
    requires id !in c.store
    ensures Reconcile(c, id, HEALTHY) == c
  {
  }

  lemma {:induction false} SweepSettles(c: Cluster, order: seq<Id>, id: Id)
    requires Live(c) && id in order && Armed(c, id) && SettledBelow(c, Rank(c, id))
    ensures Settled(Sweep(c, order), id)
    decreases |order|
  {
    hide Live, SettledBelow, Reconcile, Armed, Settled, Rank;
    var d := Reconcile(c, order[0], HEALTHY);
    PassKeeps(c, order[0], Rank(c, id));
    SamePlace(c, d, id);
    if order[0] == id {
      PassSettlesArmed(c, id);
      SweepKeepsSettled(d, order[1..], id);
    } else {
      ManifestsKeepArmed(c, d, id);
      SweepSettles(d, order[1..], id);
    }
  }

  lemma RankZeroIsConnection(c: Cluster, id: Id)
    requires Startable(c) && id in c.store && Rank(c, id) == 0
    ensures Armed(c, id)
  {
  }

  lemma FirstSweep(c: Cluster, order: seq<Id>)
    requires Live(c) && Covers(order, c)
    ensures SettledBelow(Sweep(c, order), 1)
  {
    hide Reconcile, Settled, Rank, Sweep, Armed, Startable;
    var d := Sweep(c, order);
    SweepKeeps(c, order, 0);
    forall id | id in d.store && Rank(d, id) < 1
      ensures Settled(d, id)
    {
      SamePlace(c, d, id);
      RankZeroIsConnection(c, id);
      SweepSettles(c, order, id);
    }
  }

  lemma LevelUp(c: Cluster, first: seq<Id>, second: seq<Id>, n: nat)
    requires Live(c) && Covers(first, c) && Covers(second, c) && SettledBelow(c, n)
    ensures SettledBelow(Sweep(Sweep(c, first), second), n + 1)
  {
    hide Reconcile, Settled, Rank, Sweep, Armed, Live;
    var mid := Sweep(c, first);
    var d := Sweep(mid, second);
    SweepKeeps(c, first, n);
    SweepKeeps(mid, second, n);
    forall id | id in d.store && Rank(d, id) < n + 1
      ensures Settled(d, id)
    {
      SamePlace(c, mid, id);
      SamePlace(mid, d, id);
      if Rank(d, id) == n {
        SweepArms(c, first, id);
        SweepSettles(mid, second, id);
      }
    }
  }

  predicate AllCover(orders: seq<seq<Id>>, c: Cluster) {
    forall i :: 0 <= i < |orders| ==> Covers(orders[i], c)
  }

  lemma {:induction false} LevelsUp(c: Cluster, orders: seq<seq<Id>>, n: nat)
    requires Live(c) && AllCover(orders, c) && SettledBelow(c, n)
    ensures SettledBelow(Sweeps(c, orders), n + |orders| / 2)
    ensures SameManifests(c, Sweeps(c, orders))
    decreases |orders|
  {
    hide Live, SettledBelow, Sweep;
    if |orders| == 1 {
      SweepKeeps(c, orders[0], n);
      assert Sweeps(c, orders) == Sweep(c, orders[0]);
    } else if |orders| >= 2 {
      var mid := Sweep(c, orders[0]);
      var d := Sweep(mid, orders[1]);
      SweepKeeps(c, orders[0], n);
      SweepKeeps(mid, orders[1], n);
      LevelUp(c, orders[0], orders[1], n);
      assert orders[1..][1..] == orders[2..];
      LevelsUp(d, orders[2..], n + 1);
      assert Sweeps(c, orders) == Sweeps(d, orders[2..]);
    }
  }

  /**
   Cold start converges: from any state of the two stores in which the references resolve, after 2d+1 sweeps
   of any orders every resource of reference depth at most d is settled. References, specs and finalizers
   are as they were, or the finalizer has been added.
   */
  lemma ColdStartConverges(c: Cluster, orders: seq<seq<Id>>, id: Id)
    requires Live(c) && AllCover(orders, c) && id in c.store
    requires |orders| >= 2 * Rank(c, id) + 1
    ensures Settled(Sweeps(c, orders), id)
    ensures SameManifests(c, Sweeps(c, orders))
  {
    hide Live, Settled, Rank, Sweep;
    var d := Sweep(c, orders[0]);
    FirstSweep(c, orders[0]);
    SweepKeeps(c, orders[0], 0);
    LevelsUp(d, orders[1..], 1);
    SamePlace(c, Sweeps(c, orders), id);
  }

  /** Parent chains are at most 32 long, so no graph of any size is deeper than this. */
  const MAX_RANK := 36

  lemma RankIsBounded(c: Cluster, id: Id)
    requires Startable(c) && id in c.store
    ensures Rank(c, id) <= MAX_RANK
  {
    hide Startable, FindNamespace, FindTable, ResolvePath;
    StartableAt(c, id);
    match c.store[id].identity
    case Namespace(_, _, _) => NamespacePlace(c, id.key);
    case Table(ref, _) =>
      TablePlace(c, id.key);
      NamespacePlace(c, Resolve(ref, id.key.ns));
    case Grant(_, _, target) =>
      if target.NamespaceTarget? || target.TableTarget? {
        NamespacePlace(c, Resolve(target.ns, id.key.ns));
      }
    case _ =>
  }

  predicate AllSettled(c: Cluster) {
    forall id :: id in c.store ==> Settled(c, id)
  }

  /** However many resources there are, 73 sweeps settle all of them. */
  lemma ColdStartBound(c: Cluster, orders: seq<seq<Id>>)
    requires Live(c) && AllCover(orders, c) && |orders| >= 2 * MAX_RANK + 1
    ensures AllSettled(Sweeps(c, orders))
  {
    hide Settled, Rank, Sweeps, Startable;
    forall id | id in c.store
      ensures Settled(Sweeps(c, orders), id) && SameManifests(c, Sweeps(c, orders))
    {
      RankIsBounded(c, id);
      ColdStartConverges(c, orders, id);
    }
    if c.store == map[] {
      LevelsUp(c, orders, 0);
    }
  }

  // ---- Afterwards nothing moves ----

  lemma SettledStatusStays(o: Object)
    requires StatusSettled(o)
    ensures o.identity.Connection? ==> ConnectionHealthy(o) == o.status
    ensures !o.identity.Connection? ==> Succeeded(o.status, o.generation) == o.status
  {
    if o.identity.Connection? {
      SetIsIdempotent(o.status.conditions, Condition(AuthValid, true, CredentialsValid, "", o.generation));
    } else {
      SetIsIdempotent(o.status.conditions, SyncedAt(o.generation));
    }
    SetIsIdempotent(o.status.conditions, ReadyAt(o.generation));
  }

  lemma MatchingRemoteStays(server: Server, o: Object, at: RemoteId)
    requires !o.identity.Connection? && StatusSettled(o)
    requires RemoteSettled(server, o, Some(at)) && CanHold(server, at)
    ensures Converge(server, o, at, HEALTHY) == Effect(server, o.status)
  {
    hide CanHold, Render, Drifted, StatusSettled;
    SettledStatusStays(o);
  }

  /** Once everything is settled a further pass leaves both stores exactly as they are. */
  lemma SettledIsFixpoint(c: Cluster, id: Id)
    requires Live(c) && AllSettled(c)
    ensures Reconcile(c, id, HEALTHY) == c
  {
    hide Locate, CanHold, Converge, Startable, StatusSettled, RemoteSettled, Rank, Place;
    if id in c.store {
      StartableAt(c, id);
      assert Settled(c, id);
      var o := c.store[id];
      SettledStatusStays(o);
      if !o.identity.Connection? {
        Proceeds(c, id);
        MatchingRemoteStays(c.server, o, Place(c, id).value);
      }
      assert c.store[id := o.(status := o.status)] == c.store;
    }
  }

  lemma {:induction false} SettledStays(c: Cluster, order: seq<Id>)
    requires Live(c) && AllSettled(c)
    ensures Sweep(c, order) == c
    decreases |order|
  {
    hide Live, AllSettled, Reconcile;
    if order != [] {
      SettledIsFixpoint(c, order[0]);
      SettledStays(c, order[1..]);
    }
  }

  /** What a settled resource tells its reader about the remote object. */
  lemma SettledMeansInSync(c: Cluster, id: Id)
    requires Live(c) && id in c.store && Settled(c, id) && !c.store[id].identity.Connection?
    ensures IsReady(c.store[id]) && Place(c, id).Some? && Place(c, id).value in c.server
    ensures var o, content := c.store[id], c.server[Place(c, id).value].value;
            && (o.identity.Namespace? || o.identity.CatalogRole? ==> content == Bag(o.desired.properties))
            && (o.identity.Catalog? && Properties.NoDuplicates(o.desired.spec.storage.allowedLocations) ==>
                  content.CatalogRecord? && Catalogs.OwnedFieldsAgree(o.desired.spec, content.record))
  {
    hide Startable;
    StartableAt(c, id);
    SettledIsReady(c, id);
    var o, content := c.store[id], c.server[Place(c, id).value].value;
    hide Place, Catalogs.Drifts, Catalogs.OwnedFieldsAgree;
    if o.identity.Catalog? && Properties.NoDuplicates(o.desired.spec.storage.allowedLocations)
        && content.CatalogRecord? {
      Catalogs.DriftIsDecided(o.desired.spec, content.record);
    }
  }
}
