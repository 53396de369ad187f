/**
 From first apply to last delete: a set of manifests is brought up by sweeps in any orders, then everything but
 the connections is deleted at once, and further sweeps in any orders leave nothing of it on either side.
 */
module Lifecycle {
  import opened Wrappers
  import opened Conditions
  import opened Kubernetes
  import opened NamespacePath
  import opened Polaris
  import opened Operator
  import opened ColdStart
  import opened SweepRuns
  import opened Teardown
  import Catalogs

  /** Every remote object stands for a stored resource; true of an empty server. */
  ghost predicate Accounted(c: Cluster) {
    forall r :: r in c.server ==> exists id :: Place(c, id) == Some(r)
  }

  // ---- Bringing up creates nothing that is not asked for ----

  lemma PassKeepsAccounted(c: Cluster, id: Id)
    requires Live(c) && Accounted(c)
    ensures Accounted(Reconcile(c, id, HEALTHY))
  {
    hide Reconcile, Place, Startable, WellPlaced;
    if id in c.store {
      var d := Reconcile(c, id, HEALTHY);
      StartableAt(c, id);
      PassKeepsManifests(c, id);
      forall r | r in d.server
        ensures exists j :: Place(d, j) == Some(r)
      {
        var j := id;
        if r in c.server {
          j :| Place(c, j) == Some(r);
        } else {
          OwnPlaceIsWritten(c, id);
        }
        SamePlace(c, d, j);
        assert Place(d, j) == Some(r);
      }
    } else {
      UnknownIsIgnored(c, id);
    }
  }

  /** A pass that put something put it where its resource belongs. */
  lemma OwnPlaceIsWritten(c: Cluster, id: Id)
    requires id in c.store && WellPlaced(c, id) && Reconcile(c, id, HEALTHY).server != c.server
    ensures Place(c, id) == Some(OwnPlace(c, id))
  {
  }

  lemma {:induction false} SweepKeepsAccounted(c: Cluster, order: seq<Id>)
    requires Live(c) && Accounted(c)
    ensures Live(Sweep(c, order)) && Accounted(Sweep(c, order)) && SameManifests(c, Sweep(c, order))
    decreases |order|
  {
    hide Live, Reconcile, Accounted;
    if order != [] {
      PassKeeps(c, order[0], 0);
      PassKeepsAccounted(c, order[0]);
      SweepKeepsAccounted(Reconcile(c, order[0], HEALTHY), order[1..]);
    }
  }

  lemma {:induction false} SweepsKeepAccounted(c: Cluster, orders: seq<seq<Id>>)
    requires Live(c) && Accounted(c)
    ensures var d := Sweeps(c, orders);
            Live(d) && Accounted(d) && SameManifests(c, d)
    decreases |orders|
  {
    hide Live, Sweep, Accounted;
    if orders != [] {
      SweepKeepsAccounted(c, orders[0]);
      SweepsKeepAccounted(Sweep(c, orders[0]), orders[1..]);
    }
  }

  // ---- Deleting everything ----

  /** kubectl delete on everything but the connections. */
  function DeleteAll(c: Cluster): Cluster {
    c.(store := map id | id in c.store ::
      c.store[id].(deleting := c.store[id].deleting || !c.store[id].identity.Connection?))
  }

  /** Whatever a settled cluster left on the server, the server can hold: nothing is without its container. */
  lemma SettledIsClosed(c: Cluster)
    requires Live(c) && AllSettled(c) && Accounted(c)
    ensures Closed(c.server)
  {
    hide Startable, Settled, Place, Rank;
    forall r | r in c.server
      ensures CanHold(c.server, r)
    {
      var id :| Place(c, id) == Some(r);
      PlacedIsStored(c, id);
      Proceeds(c, id);
    }
  }

  lemma PlacedIsStored(c: Cluster, id: Id)
    requires Place(c, id).Some?
    ensures id in c.store && !c.store[id].identity.Connection?
  {
  }

  lemma SettledThenDeleted(c: Cluster)
    requires Live(c) && AllSettled(c) && Accounted(c)
    ensures Tearing(DeleteAll(c))
  {
    hide Startable, Place, Closed, StatusSettled, RemoteSettled;
    var d := DeleteAll(c);
    SettledIsClosed(c);
    forall id | id in c.store
      ensures WellPlaced(c, id) && Settled(c, id)
    {
      StartableAt(c, id);
    }
    forall r | r in d.server
      ensures exists id :: Place(d, id) == Some(r)
    {
      var id :| Place(c, id) == Some(r);
      PlaceIsFixed(c, d, id);
      assert Place(d, id) == Some(r);
    }
  }

  /**
   The whole life of a set of manifests: 73 sweeps in any orders settle it, whatever was there of it before; when
   it is then deleted, at most as many sweeps as there are resources remove every resource but the connections
   and every remote object.
   */
  lemma UpAndDown(c: Cluster, up: seq<seq<Id>>, down: seq<seq<Id>>)
    requires Live(c) && Accounted(c)
    requires AllCover(up, c) && |up| >= 2 * MAX_RANK + 1
    requires AllCover(down, c) && |down| >= |Remaining(c)|
    ensures AllSettled(Sweeps(c, up))
    ensures var end := Sweeps(DeleteAll(Sweeps(c, up)), down);
            Remaining(end) == {} && end.server == map[]
  {
    hide Live, Accounted, AllSettled, Tearing, Sweeps;
    var settled := Sweeps(c, up);
    ColdStartBound(c, up);
    SweepsKeepAccounted(c, up);
    SettledThenDeleted(settled);
    var going := DeleteAll(settled);
    assert going.store.Keys == c.store.Keys;
    assert Remaining(going) == Remaining(c);
    TeardownTerminates(going, down);
  }

  // ---- An example ----

  function At(name: string): Key {
    Key("default", name)
  }

  function To(name: string): Ref {
    Ref(name, "")
  }

  function Applied(identity: Identity, desired: Desired): Object {
    Object(identity, desired, 1, false, false, NO_STATUS)
  }

  /** One resource of each kind, with a nested namespace and a grant on a table in it. */
  function Manifests(): Store {
    map[
      Id(ConnectionKind, At("polaris")) := Applied(Connection("https://polaris"), NoSpec),
      Id(CatalogKind, At("lake")) := Applied(Catalog(To("polaris"), ""), CatalogSpec(
        Catalogs.Spec("file:///lake", map["owner" := "data"],
            Catalogs.StorageConfig(Catalogs.File, ["file:///lake"], map[])))),
      Id(NamespaceKind, At("sales")) := Applied(Namespace(To("lake"), None, ""), BagSpec(map[])),
      Id(NamespaceKind, At("orders")) := Applied(Namespace(To("lake"), Some(To("sales")), ""), BagSpec(map[])),
      Id(TableKind, At("items")) := Applied(Table(To("orders"), ""), NoSpec),
      Id(RoleKind, At("reader")) := Applied(CatalogRole(To("lake"), ""), BagSpec(map[])),
      Id(GrantKind, At("read")) :=
          Applied(Grant(To("reader"), "TABLE_READ_DATA", TableTarget(To("orders"), To("items"))), NoSpec)
    ]
  }

  function Example(): Cluster {
    Cluster(Manifests(), map[], {At("polaris")})
  }

  function ExamplePlace(id: Id): Option<RemoteId> {
    match id.kind
    case ConnectionKind => None
    case CatalogKind => Some(CatalogAt("https://polaris", "lake"))
    case NamespaceKind =>
      Some(NamespaceAt("https://polaris", "lake", if id.key == At("sales") then ["sales"] else ["sales", "orders"]))
    case TableKind => Some(TableAt("https://polaris", "lake", ["sales", "orders"], "items"))
    case RoleKind => Some(RoleAt("https://polaris", "lake", "reader"))
    case GrantKind =>
      Some(GrantAt("https://polaris", "lake", "reader",
          GrantBody("TABLE_READ_DATA", OnTable(["sales", "orders"], "items"))))
  }

  lemma ExampleGets()
    ensures var store := Manifests();
            && Get(store, ConnectionKind, At("polaris")) == Some(store[Id(ConnectionKind, At("polaris"))])
            && Get(store, CatalogKind, At("lake")) == Some(store[Id(CatalogKind, At("lake"))])
            && Get(store, NamespaceKind, At("sales")) == Some(store[Id(NamespaceKind, At("sales"))])
            && Get(store, NamespaceKind, At("orders")) == Some(store[Id(NamespaceKind, At("orders"))])
            && Get(store, TableKind, At("items")) == Some(store[Id(TableKind, At("items"))])
            && Get(store, RoleKind, At("reader")) == Some(store[Id(RoleKind, At("reader"))])
  {
  }

  lemma ExamplePaths()
    ensures var store := Manifests();
            && ResolvePath(store, At("sales"), store[Id(NamespaceKind, At("sales"))].identity)
                 == Ok(Location(["sales"], At("lake")))
            && ResolvePath(store, At("orders"), store[Id(NamespaceKind, At("orders"))].identity)
            == Ok(Location(["sales", "orders"], At("lake")))
  {
    hide Get;
    ExampleGets();
    var store := Manifests();
    var sales := store[Id(NamespaceKind, At("sales"))].identity;
    var orders := store[Id(NamespaceKind, At("orders"))].identity;
    assert Walk(store, At("sales"), sales, At("lake"), MAX_DEPTH) == Ok(["sales"]);
    assert Walk(store, At("sales"), sales, At("lake"), MAX_DEPTH - 1) == Ok(["sales"]);
    assert Walk(store, At("orders"), orders, At("lake"), MAX_DEPTH) == Ok(["sales"] + ["orders"]);
    assert ["sales"] + ["orders"] == ["sales", "orders"];
  }

  lemma ExamplePlaces(id: Id)
    requires id in Manifests()
    ensures Place(Example(), id) == ExamplePlace(id)
  {
    hide Get, ResolvePath;
    ExampleGets();
    ExamplePaths();
  }

  lemma ExampleIsWellPlaced(id: Id)
    requires id in Manifests()
    ensures WellPlaced(Example(), id)
  {
    hide Get, Place;
    ExampleGets();
    ExamplePlaces(id);
  }

  /** The manifests the results above are about exist: here is an empty server and one resource of each kind. */
  lemma ExampleIsLive()
    ensures Live(Example()) && Accounted(Example())
  {
    hide Place, WellPlaced, Manifests, ExamplePlace;
    var c := Example();
    forall id | id in c.store
      ensures WellPlaced(c, id)
    {
      ExampleIsWellPlaced(id);
    }
    forall i, j | i in c.store && j in c.store && i != j && Place(c, i).Some?
      ensures Place(c, i) != Place(c, j)
    {
      ExamplePlaces(i);
      ExamplePlaces(j);
      ExamplePlacesDiffer(i, j);
    }
  }

  lemma ExamplePlacesDiffer(i: Id, j: Id)
    requires i in Manifests() && j in Manifests() && i != j && ExamplePlace(i).Some?
    ensures ExamplePlace(i) != ExamplePlace(j)
  {
  }
}
