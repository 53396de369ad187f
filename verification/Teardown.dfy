/**
 Teardown: everything but the connections is being deleted at once. The server refuses to delete a container
 that still holds something, so children have to go first although nothing orders the reconciles; and a
 resource whose references are already gone must not be stuck.
 */
module Teardown {
  import opened Wrappers
  import opened Conditions
  import opened Kubernetes
  import opened NamespacePath
  import opened Polaris
  import opened Operator
  import opened ColdStart
  import opened SweepRuns
  import Properties

  predicate Connections(c: Cluster) {
    forall id :: id in c.store && c.store[id].identity.Connection? ==>
      id.kind == ConnectionKind && !c.store[id].deleting
  }

  predicate AllGoing(c: Cluster) {
    forall id :: id in c.store && !c.store[id].identity.Connection? ==>
      KindOf(c.store[id].identity) == id.kind && c.store[id].deleting && c.store[id].finalizer
  }

  /** Every remote container and its contents belong to a stored resource. Grants go with their role. */
  ghost predicate Owned(c: Cluster) {
    forall r :: r in c.server && !r.GrantAt? ==> exists id :: Place(c, id) == Some(r)
  }

  /** The server never holds something whose container is missing. */
  predicate Closed(server: Server) {
    forall r :: r in server ==>
      if r.GrantAt? then RoleAt(r.server, r.catalog, r.role) in server else CanHold(server, r)
  }

  ghost predicate Tearing(c: Cluster) {
    Connections(c) && AllGoing(c) && Owned(c) && Closed(c.server)
  }

  /** The resources still to go. */
  function Remaining(c: Cluster): set<Id> {
    set id | id in c.store && !c.store[id].identity.Connection?
  }

  // ---- One pass: gone, or nothing happened ----

  predicate CanGo(c: Cluster, id: Id) {
    id in Remaining(c) && (Place(c, id).None? || DeleteAccepted(c.server, Place(c, id).value))
  }

  /** The two stores after a resource has gone. */
  function Without(c: Cluster, id: Id): Cluster {
    Cluster(c.store - {id}, if Place(c, id).Some? then Delete(c.server, Place(c, id).value) else c.server, c.secrets)
  }

  lemma PassOnRemaining(c: Cluster, id: Id)
    requires AllGoing(c) && id in Remaining(c)
    ensures Reconcile(c, id, HEALTHY) == if CanGo(c, id) then Without(c, id) else c
  {
    hide Locate, DeleteAccepted;
    var o := c.store[id];
    UngatedIsPlace(c, id);
    if Place(c, id).Some? && !DeleteAccepted(c.server, Place(c, id).value) {
    } else {
      assert Reconcile(c, id, HEALTHY).server == Without(c, id).server;
    }
  }

  lemma UngatedIsPlace(c: Cluster, id: Id)
    requires id in Remaining(c)
    ensures var found := Locate(c.store, c.secrets, id.key, c.store[id].identity, false);
            match found
            case Located(at) => Place(c, id) == Some(at)
            case Unresolved(_) => Place(c, id) == None
            case Gated(_) => false
  {
  }

  lemma PassOnOthers(c: Cluster, id: Id)
    requires Connections(c) && id !in Remaining(c)
    ensures var d := Reconcile(c, id, HEALTHY);
            d.server == c.server && d.secrets == c.secrets && d.store.Keys == c.store.Keys
    ensures var d := Reconcile(c, id, HEALTHY);
            forall j :: j in c.store ==> d.store[j] == c.store[j].(status := d.store[j].status)
  {
  }

  // ---- Removing a resource leaves the others where they are ----

  /** A prefix of a namespace path that is on the server is on the server. */
  lemma {:induction false} PrefixesAreThere(server: Server, s: string, cat: string, path: seq<string>, k: nat)
    requires Closed(server) && NamespaceAt(s, cat, path) in server && 0 < k <= |path|
    ensures NamespaceAt(s, cat, path[..k]) in server
    ensures CatalogAt(s, cat) in server
    decreases |path| - k
  {
    if k == |path| {
      assert path[..k] == path;
    } else {
      PrefixesAreThere(server, s, cat, path, k + 1);
      assert path[..k + 1][..k] == path[..k];
    }
  }

  /** A walk that misses a removed namespace passed through it, so that namespace's path is a proper prefix. */
  lemma {:induction false} WalkWithout(store: Store, gone: Id, key: Key, ns: Identity, cat: Key, budget: nat)
    requires ns.Namespace?
    requires Walk(store, key, ns, cat, budget).Ok?
    requires Walk(store - {gone}, key, ns, cat, budget) != Walk(store, key, ns, cat, budget)
    ensures gone.kind == NamespaceKind && Get(store, NamespaceKind, gone.key).Some?
    ensures var ancestor := Get(store, NamespaceKind, gone.key).value.identity;
            var above := Walk(store, gone.key, ancestor, cat, budget);
            var path := Walk(store, key, ns, cat, budget).value;
            && CatalogOf(ancestor, gone.key) == cat
            && above.Ok? && 0 < |above.value| < |path| && above.value == path[..|above.value|]
    decreases budget
  {
    var up := Resolve(ns.parentRef.value, key.ns);
    var parent := Get(store, NamespaceKind, up).value.identity;
    var path := Walk(store, key, ns, cat, budget).value;
    var mine := Walk(store, up, parent, cat, budget - 1).value;
    assert path == mine + [NameOf(ns, key)];
    WalkEndsInName(store, up, parent, cat, budget - 1);
    if gone == Id(NamespaceKind, up) {
      WalkWithMoreBudget(store, up, parent, cat, budget - 1, budget);
    } else {
      WalkWithout(store, gone, up, parent, cat, budget - 1);
      var ancestor := Get(store, NamespaceKind, gone.key).value.identity;
      WalkWithMoreBudget(store, gone.key, ancestor, cat, budget - 1, budget);
      var above := Walk(store, gone.key, ancestor, cat, budget).value;
      assert path[..|above|] == mine[..|above|];
    }
  }

  /** A namespace whose remote object exists keeps its place when something that can go goes. */
  lemma NamespaceKeepsPlace(c: Cluster, gone: Id, key: Key, ns: Identity)
    requires ns.Namespace? && Closed(c.server) && AllGoing(c) && CanGo(c, gone)
    requires var found := FindNamespace(c.store, c.secrets, key, ns, false);
             found.Located? && found.at in c.server
    ensures FindNamespace(c.store - {gone}, c.secrets, key, ns, false)
            == FindNamespace(c.store, c.secrets, key, ns, false)
  {
    hide DeleteAccepted;
    var cat := CatalogOf(ns, key);
    var loc := ResolvePath(c.store, key, ns).value;
    var at := FindNamespace(c.store, c.secrets, key, ns, false).at;
    WalkEndsInName(c.store, key, ns, cat, MAX_DEPTH);
    PrefixesAreThere(c.server, at.server, at.catalog, at.path, 1);
    var catalog := Get(c.store, CatalogKind, cat).value.identity;
    ConnectionIsNotRemaining(c, gone, Resolve(catalog.connectionRef, cat.ns));
    if gone == Id(CatalogKind, cat) {
      CatalogHasPlace(c, cat);
      assert Place(c, gone) == Some(CatalogAt(at.server, at.catalog));
      NotEmptyIsRefused(c.server, CatalogAt(at.server, at.catalog), at);
      assert false;
    }
    if Walk(c.store - {gone}, key, ns, cat, MAX_DEPTH) != Walk(c.store, key, ns, cat, MAX_DEPTH) {
      AncestorIsNotEmpty(c, gone, key, ns);
      assert false;
    }
  }

  lemma CatalogHasPlace(c: Cluster, key: Key)
    requires Get(c.store, CatalogKind, key).Some?
    requires FindCatalog(c.store, c.secrets, key, Get(c.store, CatalogKind, key).value.identity, false).Located?
    ensures Place(c, Id(CatalogKind, key))
         == Some(FindCatalog(c.store, c.secrets, key, Get(c.store, CatalogKind, key).value.identity, false).at)
  {
  }

  lemma ConnectionIsNotRemaining(c: Cluster, gone: Id, connKey: Key)
    requires AllGoing(c) && gone in Remaining(c)
    ensures Get(c.store - {gone}, ConnectionKind, connKey) == Get(c.store, ConnectionKind, connKey)
  {
  }

  lemma NotEmptyIsRefused(server: Server, r: RemoteId, child: RemoteId)
    requires r in server && child in server && Inside(child, r)
    ensures !DeleteAccepted(server, r)
  {
  }

  lemma AncestorPlace(c: Cluster, gone: Id, key: Key, ns: Identity)
    requires ns.Namespace?
    requires FindNamespace(c.store, c.secrets, key, ns, false).Located?
    requires Walk(c.store - {gone}, key, ns, CatalogOf(ns, key), MAX_DEPTH)
             != Walk(c.store, key, ns, CatalogOf(ns, key), MAX_DEPTH)
    ensures var at := FindNamespace(c.store, c.secrets, key, ns, false).at;
            exists k :: 0 < k < |at.path| && Place(c, gone) == Some(NamespaceAt(at.server, at.catalog, at.path[..k]))
  {
    hide Reach;
    var cat := CatalogOf(ns, key);
    var at := FindNamespace(c.store, c.secrets, key, ns, false).at;
    WalkWithout(c.store, gone, key, ns, cat, MAX_DEPTH);
    var ancestor := Get(c.store, NamespaceKind, gone.key).value.identity;
    var above := Walk(c.store, gone.key, ancestor, cat, MAX_DEPTH).value;
    assert FindNamespace(c.store, c.secrets, gone.key, ancestor, false)
        == Located(NamespaceAt(at.server, at.catalog, above));
    assert Place(c, gone) == Some(NamespaceAt(at.server, at.catalog, at.path[..|above|]));
  }

  lemma AncestorIsNotEmpty(c: Cluster, gone: Id, key: Key, ns: Identity)
    requires ns.Namespace? && Closed(c.server)
    requires var found := FindNamespace(c.store, c.secrets, key, ns, false);
             found.Located? && found.at in c.server
    requires Walk(c.store - {gone}, key, ns, CatalogOf(ns, key), MAX_DEPTH)
             != Walk(c.store, key, ns, CatalogOf(ns, key), MAX_DEPTH)
    ensures Place(c, gone).Some? && !DeleteAccepted(c.server, Place(c, gone).value)
  {
    hide Place, Walk, Closed, DeleteAccepted;
    NamespaceIsFoundAsNamespace(c, key, ns);
    AncestorPlace(c, gone, key, ns);
    var at := FindNamespace(c.store, c.secrets, key, ns, false).at;
    hide FindNamespace;
    var k :| 0 < k < |at.path| && Place(c, gone) == Some(NamespaceAt(at.server, at.catalog, at.path[..k]));
    PrefixesAreThere(c.server, at.server, at.catalog, at.path, k);
    PrefixesAreThere(c.server, at.server, at.catalog, at.path, k + 1);
    var child := NamespaceAt(at.server, at.catalog, at.path[..k + 1]);
    assert child.path[..|child.path| - 1] == at.path[..k];
    NotEmptyIsRefused(c.server, Place(c, gone).value, child);
  }

  lemma RoleKeepsPlace(c: Cluster, gone: Id, key: Key, role: Identity)
    requires role.CatalogRole? && Closed(c.server) && AllGoing(c) && CanGo(c, gone)
    requires var found := FindRole(c.store, c.secrets, key, role, false);
             found.Located? && found.at in c.server
    ensures FindRole(c.store - {gone}, c.secrets, key, role, false) == FindRole(c.store, c.secrets, key, role, false)
  {
  }

  lemma TableKeepsPlace(c: Cluster, gone: Id, key: Key, tbl: Identity)
    requires tbl.Table? && Closed(c.server) && AllGoing(c) && CanGo(c, gone)
    requires var found := FindTable(c.store, c.secrets, key, tbl, false);
             found.Located? && found.at in c.server
    ensures FindTable(c.store - {gone}, c.secrets, key, tbl, false) == FindTable(c.store, c.secrets, key, tbl, false)
  {
    hide DeleteAccepted, FindNamespace;
    var nsKey := Resolve(tbl.namespaceRef, key.ns);
    var ns := Get(c.store, NamespaceKind, nsKey).value.identity;
    var at := FindTable(c.store, c.secrets, key, tbl, false).at;
    var above := FindNamespace(c.store, c.secrets, nsKey, ns, false).at;
    NamespaceIsFoundAsNamespace(c, nsKey, ns);
    assert above == NamespaceAt(at.server, at.catalog, at.path);
    assert above in Needs(at);
    NamespaceKeepsPlace(c, gone, nsKey, ns);
    if gone == Id(NamespaceKind, nsKey) {
      assert Place(c, gone) == Some(above);
      NotEmptyIsRefused(c.server, above, at);
      assert false;
    }
  }

  lemma NamespaceIsFoundAsNamespace(c: Cluster, key: Key, ns: Identity)
    requires ns.Namespace?
    ensures var found := FindNamespace(c.store, c.secrets, key, ns, false);
            found.Located? ==> found.at.NamespaceAt?
  {
  }

  /** No resource loses its remote object to the departure of another. */
  lemma OthersKeepPlace(c: Cluster, gone: Id, j: Id)
    requires Closed(c.server) && AllGoing(c) && CanGo(c, gone) && j != gone
    requires Place(c, j).Some? && Place(c, j).value in c.server && !Place(c, j).value.GrantAt?
    ensures Place(Without(c, gone), j) == Place(c, j)
  {
    hide FindNamespace, FindRole, FindTable, Closed, AllGoing, CanGo, Delete;
    match c.store[j].identity
    case Catalog(ref, _) => ConnectionIsNotRemaining(c, gone, Resolve(ref, j.key.ns)) by { GoingIsRemaining(c, gone); }
    case Namespace(_, _, _) => NamespaceKeepsPlace(c, gone, j.key, c.store[j].identity);
    case Table(_, _) => TableKeepsPlace(c, gone, j.key, c.store[j].identity);
    case CatalogRole(_, _) => RoleKeepsPlace(c, gone, j.key, c.store[j].identity);
    case Grant(_, _, _) =>
      GrantIsFoundAsGrant(c, j);
      assert false;
  }

  lemma GoingIsRemaining(c: Cluster, gone: Id)
    requires CanGo(c, gone)
    ensures gone in Remaining(c)
  {
  }

  lemma GrantIsFoundAsGrant(c: Cluster, j: Id)
    requires j in c.store && c.store[j].identity.Grant? && Place(c, j).Some?
    ensures Place(c, j).value.GrantAt?
  {
  }

  lemma DeletedIsGone(server: Server, r: RemoteId)
    requires DeleteAccepted(server, r)
    ensures r !in Delete(server, r)
    ensures forall x :: x in Delete(server, r) ==> x in server
  {
  }

  lemma DeleteKeepsClosed(server: Server, r: RemoteId)
    requires Closed(server)
    ensures Closed(Delete(server, r))
  {
  }

  lemma DepartureKeepsTearing(c: Cluster, id: Id)
    requires Tearing(c) && CanGo(c, id)
    ensures Tearing(Without(c, id))
    ensures Remaining(Without(c, id)) == Remaining(c) - {id}
  {
    hide Place, Delete, DeleteAccepted, CanHold;
    var d := Without(c, id);
    if Place(c, id).Some? {
      DeletedIsGone(c.server, Place(c, id).value);
      DeleteKeepsClosed(c.server, Place(c, id).value);
    }
    forall r | r in d.server && !r.GrantAt?
      ensures exists j :: Place(d, j) == Some(r)
    {
      var j :| Place(c, j) == Some(r);
      OthersKeepPlace(c, id, j);
      assert Place(d, j) == Some(r);
    }
  }

  lemma StatusesKeepTearing(c: Cluster, d: Cluster)
    requires Tearing(c)
    requires d.server == c.server && d.secrets == c.secrets && d.store.Keys == c.store.Keys
    requires forall j :: j in c.store ==> d.store[j] == c.store[j].(status := d.store[j].status)
    ensures Tearing(d) && Remaining(d) == Remaining(c)
  {
    hide Place, Closed;
    forall r | r in d.server && !r.GrantAt?
      ensures exists j :: Place(d, j) == Some(r)
    {
      var j :| Place(c, j) == Some(r);
      SamePlace(c, d, j);
      assert Place(d, j) == Some(r);
    }
  }

  /** A pass never adds to what remains, and the next pass starts from the same kind of state. */
  lemma PassKeepsTearing(c: Cluster, id: Id)
    requires Tearing(c)
    ensures var d := Reconcile(c, id, HEALTHY);
            && Tearing(d)
            && (CanGo(c, id) ==> Remaining(d) == Remaining(c) - {id})
            && (!CanGo(c, id) ==> Remaining(d) == Remaining(c))
  {
    hide Reconcile, CanGo, Owned, Closed, Place;
    if id in Remaining(c) {
      PassOnRemaining(c, id);
      if CanGo(c, id) {
        DepartureKeepsTearing(c, id);
      }
    } else {
      assert !CanGo(c, id) by {
        if CanGo(c, id) {
          GoingIsRemaining(c, id);
        }
      }
      PassOnOthers(c, id);
      StatusesKeepTearing(c, Reconcile(c, id, HEALTHY));
    }
  }

  // ---- There is always one that can go ----

  predicate Leaf(id: Id) {
    id.kind == TableKind || id.kind == GrantKind || id.kind == RoleKind
  }

  /** Nothing is ever inside a table, a role or a grant: those can go at any time. */
  lemma LeavesCanGo(c: Cluster, id: Id)
    requires AllGoing(c) && id in Remaining(c) && Leaf(id)
    ensures CanGo(c, id)
  {
  }

  lemma LeafPlaces(c: Cluster, id: Id)
    requires AllGoing(c) && id in Remaining(c) && Place(c, id).Some?
    ensures id.kind == TableKind ==> Place(c, id).value.TableAt?
    ensures id.kind == RoleKind ==> Place(c, id).value.RoleAt?
    ensures id.kind == GrantKind ==> Place(c, id).value.GrantAt?
    ensures id.kind == NamespaceKind ==> Place(c, id).value.NamespaceAt?
    ensures id.kind == CatalogKind ==> Place(c, id).value.CatalogAt?
    ensures id.kind != ConnectionKind
  {
  }

  /** How deep a remaining namespace is on the server; unresolved ones count as deepest. */
  function Depth(c: Cluster, id: Id): nat {
    match Place(c, id)
    case Some(NamespaceAt(_, _, path)) => |path|
    case _ => 0
  }

  lemma {:induction false} Deepest(c: Cluster, ids: set<Id>) returns (id: Id)
    requires ids != {}
    ensures id in ids && forall j :: j in ids ==> Depth(c, j) <= Depth(c, id)
    decreases ids
  {
    hide Depth;
    id :| id in ids;
    var rest := ids - {id};
    if rest != {} {
      var other := Deepest(c, rest);
      if Depth(c, id) < Depth(c, other) {
        id := other;
      }
    }
  }

  /** With only catalogs and namespaces left, a deepest namespace is empty on the server; failing that, a catalog is. */
  lemma ContainersCanGo(c: Cluster) returns (id: Id)
    requires Tearing(c) && Remaining(c) != {}
    requires forall j :: j in Remaining(c) ==> !Leaf(j)
    ensures CanGo(c, id)
  {
    hide Tearing, Place, Inside, Depth, Remaining;
    var namespaces := set j | j in Remaining(c) && j.kind == NamespaceKind;
    if namespaces == {} {
      id :| id in Remaining(c);
    } else {
      id := Deepest(c, namespaces);
    }
    if Place(c, id).Some? {
      forall child | child in c.server
        ensures !Inside(child, Place(c, id).value)
      {
        assert forall j :: j in Remaining(c) && j.kind == NamespaceKind ==> j in namespaces;
        NothingInsideDeepest(c, id, child);
      }
    }
  }

  lemma NothingInsideDeepest(c: Cluster, id: Id, child: RemoteId)
    requires Tearing(c) && id in Remaining(c) && Place(c, id).Some? && child in c.server
    requires forall j :: j in Remaining(c) ==> !Leaf(j)
    requires forall j :: j in Remaining(c) && j.kind == NamespaceKind ==>
               id.kind == NamespaceKind && Depth(c, j) <= Depth(c, id)
    ensures !Inside(child, Place(c, id).value)
  {
    hide Locate, Owned, Closed, AllGoing, Connections;
    LeafPlaces(c, id);
    if !child.GrantAt? {
      var j := OwnerRemains(c, child);
      LeafPlaces(c, j);
    }
  }

  /** Whatever is on the server, grants aside, belongs to something that remains. */
  lemma OwnerRemains(c: Cluster, r: RemoteId) returns (id: Id)
    requires Tearing(c) && r in c.server && !r.GrantAt?
    ensures id in Remaining(c) && Place(c, id) == Some(r)
  {
    id :| Place(c, id) == Some(r);
  }

  lemma SomethingCanGo(c: Cluster) returns (id: Id)
    requires Tearing(c) && Remaining(c) != {}
    ensures CanGo(c, id)
  {
    hide CanGo, Owned, Closed, Place;
    if j :| j in Remaining(c) && Leaf(j) {
      id := j;
      LeavesCanGo(c, id);
    } else {
      id := ContainersCanGo(c);
    }
  }

  // ---- Sweeps ----

  lemma {:induction false} SweepOnlyShrinks(c: Cluster, order: seq<Id>)
    requires Tearing(c)
    ensures Tearing(Sweep(c, order)) && Remaining(Sweep(c, order)) <= Remaining(c)
    decreases |order|
  {
    hide Tearing, Reconcile, CanGo, Remaining;
    if order != [] {
      PassKeepsTearing(c, order[0]);
      SweepOnlyShrinks(Reconcile(c, order[0], HEALTHY), order[1..]);
    }
  }

  lemma {:induction false} SweepShrinks(c: Cluster, order: seq<Id>, id: Id)
    requires Tearing(c) && CanGo(c, id) && id in order
    ensures Tearing(Sweep(c, order)) && Remaining(Sweep(c, order)) < Remaining(c)
    decreases |order|
  {
    hide Tearing, Reconcile, CanGo, Remaining;
    var d := Reconcile(c, order[0], HEALTHY);
    PassKeepsTearing(c, order[0]);
    if CanGo(c, order[0]) {
      GoingIsRemaining(c, order[0]);
      SweepOnlyShrinks(d, order[1..]);
    } else {
      RefusedPassKeepsCanGo(c, order[0], id);
      SweepShrinks(d, order[1..], id);
    }
  }

  lemma RefusedPassKeepsCanGo(c: Cluster, other: Id, id: Id)
    requires Tearing(c) && CanGo(c, id) && !CanGo(c, other)
    ensures CanGo(Reconcile(c, other, HEALTHY), id)
  {
    hide Reconcile, Owned, Closed, Place, DeleteAccepted;
    if other in Remaining(c) {
      PassOnRemaining(c, other);
    } else {
      PassOnOthers(c, other);
      SamePlace(c, Reconcile(c, other, HEALTHY), id);
    }
  }

  /** Each sweep in any order strictly shrinks the set of remaining resources. */
  lemma EverySweepShrinks(c: Cluster, order: seq<Id>)
    requires Tearing(c) && Covers(order, c) && Remaining(c) != {}
    ensures Tearing(Sweep(c, order)) && Remaining(Sweep(c, order)) < Remaining(c)
  {
    hide Tearing, CanGo, Sweep;
    var id := SomethingCanGo(c);
    GoingIsRemaining(c, id);
    SweepShrinks(c, order, id);
  }

  lemma {:induction false} SweepKeepsCover(c: Cluster, order: seq<Id>)
    requires Tearing(c)
    ensures Sweep(c, order).store.Keys <= c.store.Keys
    decreases |order|
  {
    hide Tearing, Reconcile, CanGo;
    if order != [] {
      PassKeepsTearing(c, order[0]);
      PassAddsNothing(c, order[0]);
      SweepKeepsCover(Reconcile(c, order[0], HEALTHY), order[1..]);
    }
  }

  lemma PassAddsNothing(c: Cluster, id: Id)
    ensures Reconcile(c, id, HEALTHY).store.Keys <= c.store.Keys
  {
    hide Locate, Converge;
  }

  /**
   Teardown terminates: after at most as many sweeps as there are resources, in any orders, every resource is
   gone, and so is every remote object, grants included.
   */
  lemma {:induction false} TeardownTerminates(c: Cluster, orders: seq<seq<Id>>)
    requires Tearing(c) && AllCover(orders, c) && |orders| >= |Remaining(c)|
    ensures Remaining(Sweeps(c, orders)) == {}
    ensures Sweeps(c, orders).server == map[]
    decreases |orders|
  {
    hide Tearing, Remaining, Sweep;
    if Remaining(c) == {} {
      NothingRemains(c, orders);
    } else {
      assert |Remaining(c)| > 0;
      var d := Sweep(c, orders[0]);
      EverySweepShrinks(c, orders[0]);
      SweepKeepsCover(c, orders[0]);
      SmallerSet(Remaining(d), Remaining(c));
      TeardownTerminates(d, orders[1..]);
    }
  }

  lemma SmallerSet<T>(a: set<T>, b: set<T>)
    requires a < b
    ensures |a| < |b|
  {
    var x :| x in b && x !in a;
    assert a <= b - {x};
    Properties.SubsetSize(a, b - {x});
  }

  lemma {:induction false} NothingRemains(c: Cluster, orders: seq<seq<Id>>)
    requires Tearing(c) && Remaining(c) == {}
    ensures Remaining(Sweeps(c, orders)) == {}
    ensures Sweeps(c, orders).server == map[]
    decreases |orders|
  {
    if orders == [] {
      NobodyOwnsAnything(c);
    } else {
      hide Tearing, Remaining, Sweep;
      SweepOnlyShrinks(c, orders[0]);
      NothingRemains(Sweep(c, orders[0]), orders[1..]);
    }
  }

  lemma NobodyOwnsAnything(c: Cluster)
    requires Tearing(c) && Remaining(c) == {}
    ensures c.server == map[]
  {
    if r :| r in c.server {
      var _ := OwnerRemains(c, if r.GrantAt? then RoleAt(r.server, r.catalog, r.role) else r);
    }
  }
}
