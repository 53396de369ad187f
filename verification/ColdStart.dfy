/**
 Cold start: everything is applied at once, in no order, and every resource becomes Ready without a write
 being wasted afterwards.

 A sweep reconciles every stored resource at least once, in any order. With a healthy server, a resource at
 reference depth d is settled after 2d+1 sweeps: one sweep adds its finalizer, the next creates or repairs
 the remote object, and neither can happen before everything it refers to is settled.
 */
module ColdStart {
  import opened Wrappers
  import opened Conditions
  import opened Kubernetes
  import opened NamespacePath
  import opened Polaris
  import opened Operator
  import Catalogs
  import Properties

  /** Where a resource's remote object lives; readiness plays no part in it. Connections have none. */
  function Place(c: Cluster, id: Id): Option<RemoteId> {
    if id !in c.store || c.store[id].identity.Connection? then None
    else
      match Locate(c.store, c.secrets, id.key, c.store[id].identity, false)
      case Located(at) => Some(at)
      case _ => None
  }

  /** The spec can be written and read back without drift. */
  predicate Writable(o: Object) {
    match o.identity
    case Catalog(_, _) =>
      && o.desired.CatalogSpec?
      && Catalogs.BuildBody(o.desired.spec).Some?
      && Catalogs.RESERVED !in o.desired.spec.properties
    case Namespace(_, _, _) => o.desired.BagSpec?
    case CatalogRole(_, _) => o.desired.BagSpec?
    case _ => o.desired.NoSpec?
  }

  predicate NamespaceIn(store: Store, nsKey: Key, catKey: Key) {
    var ns := Get(store, NamespaceKind, nsKey);
    ns.Some? ==> CatalogOf(ns.value.identity, nsKey) == catKey
  }

  predicate TableIn(store: Store, tableKey: Key, nsKey: Key) {
    var tbl := Get(store, TableKind, tableKey);
    tbl.Some? ==> Resolve(tbl.value.identity.namespaceRef, tableKey.ns) == nsKey
  }

  /** A namespace or table target lies in the role's catalog; the operator itself does not check this. */
  predicate TargetInRolesCatalog(store: Store, key: Key, grant: Identity)
    requires grant.Grant?
  {
    var roleKey := Resolve(grant.roleRef, key.ns);
    var role := Get(store, RoleKind, roleKey);
    role.Some? ==>
      var catKey := Resolve(role.value.identity.catalogRef, roleKey.ns);
      match grant.target
      case NamespaceTarget(ref) => NamespaceIn(store, Resolve(ref, key.ns), catKey)
      case TableTarget(ref, table) =>
        && NamespaceIn(store, Resolve(ref, key.ns), catKey)
        && TableIn(store, Resolve(table, key.ns), Resolve(ref, key.ns))
      case _ => true
  }

  predicate WellPlaced(c: Cluster, id: Id)
    requires id in c.store
  {
    var o := c.store[id];
    && KindOf(o.identity) == id.kind
    && !o.deleting
    && if o.identity.Connection? then id.key in c.secrets
       else
         && Place(c, id).Some?
         && Writable(o)
         && (o.identity.Grant? ==> TargetInRolesCatalog(c.store, id.key, o.identity))
  }

  predicate NoSharedPlace(c: Cluster) {
    forall i, j :: i in c.store && j in c.store && i != j && Place(c, i).Some? ==> Place(c, i) != Place(c, j)
  }

  /** What has to be true of the manifests: all references resolve, and no two claim one remote object. */
  predicate Startable(c: Cluster) {
    && (forall id :: id in c.store ==> WellPlaced(c, id))
    && NoSharedPlace(c)
  }

  // ---- Reference depth ----

  function RankAt(r: RemoteId): nat {
    match r
    case CatalogAt(_, _) => 1
    case RoleAt(_, _, _) => 2
    case NamespaceAt(_, _, path) => 1 + |path|
    case TableAt(_, _, path, _) => 2 + |path|
    case GrantAt(_, _, _, body) =>
      match body.target
      case OnCatalog => 3
      case OnNamespace(path) => 1 + Max(2, 1 + |path|)
      case OnTable(path, _) => 1 + Max(2, 2 + |path|)
  }

  function Max(a: nat, b: nat): nat {
    if a < b then b else a
  }

  function Rank(c: Cluster, id: Id): nat {
    var place := Place(c, id);
    if place.None? then 0 else RankAt(place.value)
  }

  // ---- Settled resources ----

  predicate StatusSettled(o: Object) {
    && o.status.observedGeneration == o.generation
    && Find(o.status.conditions, Ready) == Some(ReadyAt(o.generation))
    && if o.identity.Connection? then
         Find(o.status.conditions, AuthValid) == Some(Condition(AuthValid, true, CredentialsValid, "", o.generation))
       else
         Find(o.status.conditions, Synced) == Some(SyncedAt(o.generation))
  }

  predicate RemoteMatches(o: Object, content: Content) {
    match o.identity
    case Table(_, _) => true
    case Grant(_, _, _) => true
    case _ => !Drifted(o.desired, content)
  }

  predicate RemoteSettled(server: Server, o: Object, place: Option<RemoteId>) {
    place.Some? ==> place.value in server && RemoteMatches(o, server[place.value].value)
  }

  /** Ready and Synced at the current generation, finalizer in place, remote object as the spec asks. */
  predicate Settled(c: Cluster, id: Id) {
    && id in c.store
    && StatusSettled(c.store[id])
    && (c.store[id].identity.Connection? || c.store[id].finalizer)
    && RemoteSettled(c.server, c.store[id], Place(c, id))
  }

  /** Everything shallower than n is settled. */
  predicate SettledBelow(c: Cluster, n: nat) {
    forall id :: id in c.store && Rank(c, id) < n ==> Settled(c, id)
  }

  // ---- What a pass leaves alone ----

  /** Same resources with the same specs; finalizers only appear. */
  predicate SameManifests(c: Cluster, d: Cluster) {
    && d.store.Keys == c.store.Keys
    && d.secrets == c.secrets
    && forall id :: id in c.store ==>
         && d.store[id].identity == c.store[id].identity
         && d.store[id].desired == c.store[id].desired
         && d.store[id].generation == c.store[id].generation
         && d.store[id].deleting == c.store[id].deleting
         && (c.store[id].finalizer ==> d.store[id].finalizer)
  }

  /** Where remote objects live is a matter of references and names, not of specs, statuses or deletion marks. */
  lemma PlaceIsFixed(c: Cluster, d: Cluster, id: Id)
    requires SameIdentities(c.store, d.store) && SameIdentities(d.store, c.store) && c.secrets == d.secrets
    ensures Place(d, id) == Place(c, id)
  {
    hide Locate;
    if id in c.store && !c.store[id].identity.Connection? {
      var o := c.store[id];
      if Locate(c.store, c.secrets, id.key, o.identity, false).Located? {
        LocateInLargerStore(c.store, d.store, c.secrets, d.secrets, id.key, o.identity);
      } else if Locate(d.store, d.secrets, id.key, o.identity, false).Located? {
        LocateInLargerStore(d.store, c.store, d.secrets, c.secrets, id.key, o.identity);
      }
    }
  }

  lemma SamePlace(c: Cluster, d: Cluster, id: Id)
    requires SameManifests(c, d)
    ensures Place(d, id) == Place(c, id)
    ensures Rank(d, id) == Rank(c, id)
  {
    hide Place;
    assert SameIdentities(c.store, d.store) && SameIdentities(d.store, c.store);
    PlaceIsFixed(c, d, id);
  }

  lemma SameTarget(c: Store, d: Store, key: Key, grant: Identity)
    requires SameIdentities(c, d) && SameIdentities(d, c)
    requires grant.Grant? && TargetInRolesCatalog(c, key, grant)
    ensures TargetInRolesCatalog(d, key, grant)
  {
  }

  lemma StaysStartable(c: Cluster, d: Cluster)
    requires Startable(c) && SameManifests(c, d)
    ensures Startable(d)
  {
    hide Place, TargetInRolesCatalog, Writable;
    assert SameIdentities(c.store, d.store) && SameIdentities(d.store, c.store);
    forall id | id in c.store
      ensures WellPlaced(d, id)
    {
      assert WellPlaced(c, id);
      SamePlace(c, d, id);
      WritableIsManifest(c.store[id], d.store[id]);
      if c.store[id].identity.Grant? {
        SameTarget(c.store, d.store, id.key, c.store[id].identity);
      }
    }
    forall i, j | i in d.store && j in d.store && i != j && Place(d, i).Some?
      ensures Place(d, i) != Place(d, j)
    {
      SamePlace(c, d, i);
      SamePlace(c, d, j);
    }
  }

  lemma WritableIsManifest(o: Object, p: Object)
    requires p.identity == o.identity && p.desired == o.desired
    ensures Writable(p) == Writable(o)
  {
  }

  lemma GateOnlyDelays(c: Cluster, id: Id)
    requires id in c.store && Place(c, id).Some?
    ensures var found := Locate(c.store, c.secrets, id.key, c.store[id].identity, true);
            found == Located(Place(c, id).value) || found.Gated?
  {
  }

  function OwnPlace(c: Cluster, id: Id): RemoteId {
    if Place(c, id).Some? then Place(c, id).value else CatalogAt("", "")
  }

  /** A healthy pass keeps the manifests and touches only its own resource and remote object. */
  lemma PassKeepsManifests(c: Cluster, id: Id)
    requires id in c.store && WellPlaced(c, id)
    ensures var d := Reconcile(c, id, HEALTHY);
            SameManifests(c, d) && OwnTouch(c, d, id, OwnPlace(c, id), HEALTHY)
  {
    hide Reconcile, Locate, Writable, TargetInRolesCatalog;
    if !c.store[id].identity.Connection? {
      GateOnlyDelays(c, id);
    }
    LivePassTouch(c, id, HEALTHY, OwnPlace(c, id));
  }

  // ---- What a resource refers to is shallower ----

  lemma CatalogPlace(c: Cluster, catKey: Key)
    requires Startable(c) && Get(c.store, CatalogKind, catKey).Some?
    ensures Id(CatalogKind, catKey) in c.store
    ensures var place := Place(c, Id(CatalogKind, catKey));
            && place.Some? && place.value.CatalogAt?
            && Reach(c.store, c.secrets, catKey, Get(c.store, CatalogKind, catKey).value.identity)
                 == Located(place.value)
  {
  }

  lemma RolePlace(c: Cluster, roleKey: Key)
    requires Startable(c) && Get(c.store, RoleKind, roleKey).Some?
    ensures Id(RoleKind, roleKey) in c.store
    ensures var place := Place(c, Id(RoleKind, roleKey));
            && place.Some? && place.value.RoleAt?
            && FindRole(c.store, c.secrets, roleKey, Get(c.store, RoleKind, roleKey).value.identity, false)
                 == Located(place.value)
  {
    assert WellPlaced(c, Id(RoleKind, roleKey));
  }

  /** The remote place of a namespace, from its path and its catalog's place. */
  lemma NamespacePlace(c: Cluster, nsKey: Key)
    requires Startable(c) && Get(c.store, NamespaceKind, nsKey).Some?
    ensures Id(NamespaceKind, nsKey) in c.store
    ensures var ns := Get(c.store, NamespaceKind, nsKey).value.identity;
            var loc := ResolvePath(c.store, nsKey, ns);
            && loc.Ok? && loc.value.catalog == CatalogOf(ns, nsKey) && 0 < |loc.value.path| <= MAX_LENGTH
            && Get(c.store, CatalogKind, loc.value.catalog).Some?
            && var cat := Place(c, Id(CatalogKind, loc.value.catalog));
               && cat.Some? && cat.value.CatalogAt?
               && Place(c, Id(NamespaceKind, nsKey))
                    == Some(NamespaceAt(cat.value.server, cat.value.catalog, loc.value.path))
  {
    var id := Id(NamespaceKind, nsKey);
    assert WellPlaced(c, id);
    var ns := c.store[id].identity;
    WalkEndsInName(c.store, nsKey, ns, CatalogOf(ns, nsKey), MAX_DEPTH);
    CatalogPlace(c, CatalogOf(ns, nsKey));
  }

  lemma SettledIsReady(c: Cluster, id: Id)
    requires Settled(c, id)
    ensures IsReady(c.store[id])
    ensures Place(c, id).Some? ==> Place(c, id).value in c.server
  {
  }

  lemma ShallowerIsSettled(c: Cluster, id: Id, n: nat)
    requires SettledBelow(c, n) && id in c.store && Rank(c, id) < n
    ensures IsReady(c.store[id])
    ensures Place(c, id).Some? ==> Place(c, id).value in c.server
  {
  }

  /** The readiness gate opens once everything shallower is settled, and then the server holds all that is needed. */
  lemma CatalogProceeds(c: Cluster, key: Key)
    requires Startable(c) && Get(c.store, CatalogKind, key).Some? && SettledBelow(c, 1)
    ensures FindCatalog(c.store, c.secrets, key, Get(c.store, CatalogKind, key).value.identity, true)
         == Located(OwnPlace(c, Id(CatalogKind, key)))
    ensures CanHold(c.server, OwnPlace(c, Id(CatalogKind, key)))
  {
    CatalogPlace(c, key);
    var conn := Id(ConnectionKind, Resolve(c.store[Id(CatalogKind, key)].identity.connectionRef, key.ns));
    assert conn in c.store && Rank(c, conn) == 0;
    hide FindCatalog;
    ShallowerIsSettled(c, conn, 1);
    CatalogGate(c, key);
  }

  lemma CatalogGate(c: Cluster, key: Key)
    requires Get(c.store, CatalogKind, key).Some?
    requires var cat := Get(c.store, CatalogKind, key).value.identity;
             var conn := Get(c.store, ConnectionKind, Resolve(cat.connectionRef, key.ns));
             conn.Some? ==> IsReady(conn.value)
    ensures var cat := Get(c.store, CatalogKind, key).value.identity;
            FindCatalog(c.store, c.secrets, key, cat, true) == FindCatalog(c.store, c.secrets, key, cat, false)
  {
  }

  lemma NamespaceProceeds(c: Cluster, key: Key)
    requires Startable(c) && Get(c.store, NamespaceKind, key).Some?
    requires SettledBelow(c, Rank(c, Id(NamespaceKind, key)))
    ensures FindNamespace(c.store, c.secrets, key, Get(c.store, NamespaceKind, key).value.identity, true)
         == Located(OwnPlace(c, Id(NamespaceKind, key)))
    ensures CanHold(c.server, OwnPlace(c, Id(NamespaceKind, key)))
  {
    hide ResolvePath, FindNamespace, Reach, SettledBelow, Startable;
    NamespacePlace(c, key);
    var ns := Get(c.store, NamespaceKind, key).value.identity;
    var loc := ResolvePath(c.store, key, ns).value;
    var rank := Rank(c, Id(NamespaceKind, key));
    assert rank == 1 + |loc.path|;
    assert Rank(c, Id(CatalogKind, loc.catalog)) == 1;
    ShallowerIsSettled(c, Id(CatalogKind, loc.catalog), rank);
    NamespaceGate(c, key);
    if |loc.path| > 1 {
      ParentIsSettled(c, key);
    }
  }

  lemma NamespaceGate(c: Cluster, key: Key)
    requires Get(c.store, NamespaceKind, key).Some?
    requires var loc := ResolvePath(c.store, key, Get(c.store, NamespaceKind, key).value.identity);
             loc.Ok? ==> IsReady(Get(c.store, CatalogKind, loc.value.catalog).value)
    ensures var ns := Get(c.store, NamespaceKind, key).value.identity;
            && FindNamespace(c.store, c.secrets, key, ns, true) == FindNamespace(c.store, c.secrets, key, ns, false)
            && (Place(c, Id(NamespaceKind, key)).Some? ==>
                  FindNamespace(c.store, c.secrets, key, ns, false) == Located(OwnPlace(c, Id(NamespaceKind, key))))
  {
  }

  lemma ParentIsSettled(c: Cluster, key: Key)
    requires Startable(c) && Get(c.store, NamespaceKind, key).Some?
    requires SettledBelow(c, Rank(c, Id(NamespaceKind, key)))
    requires ResolvePath(c.store, key, Get(c.store, NamespaceKind, key).value.identity).Ok?
    requires |ResolvePath(c.store, key, Get(c.store, NamespaceKind, key).value.identity).value.path| > 1
    ensures var at := OwnPlace(c, Id(NamespaceKind, key));
            at.NamespaceAt? && |at.path| > 1 && NamespaceAt(at.server, at.catalog, at.path[..|at.path| - 1]) in c.server
  {
    hide Reach, SettledBelow;
    NamespacePlace(c, key);
    var ns := Get(c.store, NamespaceKind, key).value.identity;
    var up := Resolve(ns.parentRef.value, key.ns);
    var parent := Get(c.store, NamespaceKind, up).value.identity;
    PathsCompose(c.store, key, ns, up, parent);
    var loc, above := ResolvePath(c.store, key, ns).value, ResolvePath(c.store, up, parent).value;
    hide ResolvePath;
    NamespacePlace(c, up);
    assert loc.path[..|loc.path| - 1] == above.path;
    ShallowerIsSettled(c, Id(NamespaceKind, up), Rank(c, Id(NamespaceKind, key)));
  }

  lemma TableProceeds(c: Cluster, key: Key)
    requires Startable(c) && Get(c.store, TableKind, key).Some?
    requires SettledBelow(c, Rank(c, Id(TableKind, key)))
    ensures FindTable(c.store, c.secrets, key, Get(c.store, TableKind, key).value.identity, true)
         == Located(OwnPlace(c, Id(TableKind, key)))
    ensures CanHold(c.server, OwnPlace(c, Id(TableKind, key)))
  {
    hide FindNamespace, SettledBelow;
    var id := Id(TableKind, key);
    assert WellPlaced(c, id);
    var ns := Resolve(c.store[id].identity.namespaceRef, key.ns);
    TablePlace(c, key);
    NamespacePlace(c, ns);
    ShallowerIsSettled(c, Id(NamespaceKind, ns), Rank(c, id));
  }

  lemma TablePlace(c: Cluster, key: Key)
    requires Startable(c) && Get(c.store, TableKind, key).Some?
    ensures var tbl := Get(c.store, TableKind, key).value.identity;
            var nsKey := Resolve(tbl.namespaceRef, key.ns);
            && Get(c.store, NamespaceKind, nsKey).Some?
            && var ns := Place(c, Id(NamespaceKind, nsKey));
               && ns.Some? && ns.value.NamespaceAt?
               && Place(c, Id(TableKind, key)) ==
                  Some(TableAt(ns.value.server, ns.value.catalog, ns.value.path, PolarisName(tbl.name, key.name)))
  {
    hide Startable, Writable, TargetInRolesCatalog, FindRole, FindGrant, ResolvePath;
    var id := Id(TableKind, key);
    StartableAt(c, id);
  }

  lemma RoleProceeds(c: Cluster, key: Key)
    requires Startable(c) && Get(c.store, RoleKind, key).Some? && SettledBelow(c, 2)
    ensures FindRole(c.store, c.secrets, key, Get(c.store, RoleKind, key).value.identity, true)
         == Located(OwnPlace(c, Id(RoleKind, key)))
    ensures CanHold(c.server, OwnPlace(c, Id(RoleKind, key)))
  {
    hide FindRole, SettledBelow, Startable;
    RolePlace(c, key);
    RoleInCatalog(c, key);
    var cat := Resolve(c.store[Id(RoleKind, key)].identity.catalogRef, key.ns);
    ShallowerIsSettled(c, Id(CatalogKind, cat), 2);
    RoleGate(c, key);
  }

  lemma RoleGate(c: Cluster, key: Key)
    requires Get(c.store, RoleKind, key).Some?
    requires var role := Get(c.store, RoleKind, key).value.identity;
             var cat := Get(c.store, CatalogKind, Resolve(role.catalogRef, key.ns));
             cat.Some? ==> IsReady(cat.value)
    ensures var role := Get(c.store, RoleKind, key).value.identity;
            FindRole(c.store, c.secrets, key, role, true) == FindRole(c.store, c.secrets, key, role, false)
  {
  }

  lemma GrantProceeds(c: Cluster, key: Key)
    requires Startable(c) && Get(c.store, GrantKind, key).Some?
    requires SettledBelow(c, Rank(c, Id(GrantKind, key)))
    ensures FindGrant(c.store, c.secrets, key, Get(c.store, GrantKind, key).value.identity, true)
         == Located(OwnPlace(c, Id(GrantKind, key)))
    ensures CanHold(c.server, OwnPlace(c, Id(GrantKind, key)))
  {
    hide SettledBelow, FindRole, BuildGrantBody, TargetInRolesCatalog, Startable, Settled, Rank;
    var id := Id(GrantKind, key);
    StartableAt(c, id);
    var grant := c.store[id].identity;
    var roleKey := Resolve(grant.roleRef, key.ns);
    RolePlace(c, roleKey);
    GrantsAreDeeper(c, Id(RoleKind, roleKey), id);
    ShallowerIsSettled(c, Id(RoleKind, roleKey), Rank(c, id));
    GrantTargetIsThere(c, key);
  }

  lemma GrantsAreDeeper(c: Cluster, role: Id, grant: Id)
    requires Place(c, role).Some? && Place(c, role).value.RoleAt?
    requires Place(c, grant).Some? && Place(c, grant).value.GrantAt?
    ensures Rank(c, role) < Rank(c, grant)
  {
    hide Place;
  }

  /** What a grant is made on, in the catalog of its role. */
  function TargetAt(at: RemoteId): Option<RemoteId> {
    if !at.GrantAt? then None
    else
      match at.body.target
      case OnCatalog => None
      case OnNamespace(path) => Some(NamespaceAt(at.server, at.catalog, path))
      case OnTable(path, table) => Some(TableAt(at.server, at.catalog, path, table))
  }

  lemma GrantTargetIsThere(c: Cluster, key: Key)
    requires Startable(c) && Get(c.store, GrantKind, key).Some?
    requires SettledBelow(c, Rank(c, Id(GrantKind, key)))
    ensures var at := OwnPlace(c, Id(GrantKind, key));
            TargetAt(at).Some? ==> TargetAt(at).value in c.server
  {
    hide SettledBelow, Startable, FindRole, ResolvePath;
    var id := Id(GrantKind, key);
    StartableAt(c, id);
    var grant := c.store[id].identity;
    RoleInCatalog(c, Resolve(grant.roleRef, key.ns));
    if grant.target.NamespaceTarget? {
      var nsKey := Resolve(grant.target.ns, key.ns);
      NamespacePlace(c, nsKey);
      ShallowerIsSettled(c, Id(NamespaceKind, nsKey), Rank(c, id));
    } else if grant.target.TableTarget? {
      var tableKey := Resolve(grant.target.table, key.ns);
      NamespacePlace(c, Resolve(grant.target.ns, key.ns));
      TablePlace(c, tableKey);
      ShallowerIsSettled(c, Id(TableKind, tableKey), Rank(c, id));
    }
  }

  lemma RoleInCatalog(c: Cluster, roleKey: Key)
    requires Startable(c) && Get(c.store, RoleKind, roleKey).Some?
    ensures var role := Get(c.store, RoleKind, roleKey).value.identity;
            var catKey := Resolve(role.catalogRef, roleKey.ns);
            && Get(c.store, CatalogKind, catKey).Some?
            && var cat := Place(c, Id(CatalogKind, catKey));
               && cat.Some? && cat.value.CatalogAt?
               && Place(c, Id(RoleKind, roleKey))
                    == Some(RoleAt(cat.value.server, cat.value.catalog, PolarisName(role.name, roleKey.name)))
  {
    hide Startable, Writable, TargetInRolesCatalog, FindNamespace, FindTable, FindGrant;
    var id := Id(RoleKind, roleKey);
    StartableAt(c, id);
  }

  lemma Proceeds(c: Cluster, id: Id)
    requires Startable(c) && id in c.store && !c.store[id].identity.Connection?
    requires SettledBelow(c, Rank(c, id))
    ensures Place(c, id).Some?
    ensures Locate(c.store, c.secrets, id.key, c.store[id].identity, true) == Located(Place(c, id).value)
    ensures CanHold(c.server, Place(c, id).value)
  {
    hide CanHold, SettledBelow, FindCatalog, FindNamespace, FindTable, FindRole, FindGrant;
    assert WellPlaced(c, id);
    match c.store[id].identity
    case Catalog(_, _) =>
      CatalogPlace(c, id.key);
      CatalogProceeds(c, id.key);
    case Namespace(_, _, _) => NamespaceProceeds(c, id.key);
    case Table(_, _) => TableProceeds(c, id.key);
    case CatalogRole(_, _) =>
      RolePlace(c, id.key);
      RoleProceeds(c, id.key);
    case Grant(_, _, _) => GrantProceeds(c, id.key);
  }

  // ---- One healthy pass ----

  lemma ConnectionSettles(c: Cluster, id: Id)
    requires id in c.store && WellPlaced(c, id) && c.store[id].identity.Connection?
    ensures Settled(Reconcile(c, id, HEALTHY), id)
  {
    var o := c.store[id];
    var auth := Condition(AuthValid, true, CredentialsValid, "", o.generation);
    var first := Set(o.status.conditions, auth);
    SetIsAnUpdate(o.status.conditions, auth, AuthValid);
    SetIsAnUpdate(first, ReadyAt(o.generation), AuthValid);
    SetIsAnUpdate(first, ReadyAt(o.generation), Ready);
  }

  /** The content a pass leaves on the server matches the spec. */
  lemma WrittenMatches(o: Object)
    requires Writable(o)
    ensures Render(o.desired).Some? && RemoteMatches(o, Render(o.desired).value)
  {
    if o.identity.Catalog? {
      Catalogs.WriteRepairsDrift(o.desired.spec);
    }
  }

  lemma UpdatedMatches(o: Object, current: Content)
    requires Writable(o) && o.identity.Namespace? && current.Bag?
    ensures RemoteMatches(o, Patched(o.desired, current, current))
  {
    Properties.PatchIsExact(current.properties, o.desired.properties);
  }

  /** Namespaces are stored with a property bag, whoever created them. */
  predicate ServerFits(server: Server) {
    forall r :: r in server && r.NamespaceAt? ==> server[r].value.Bag?
  }

  lemma ConvergeSucceeds(server: Server, o: Object, at: RemoteId)
    requires !o.identity.Connection? && Writable(o)
    requires at in server && o.identity.Namespace? ==> server[at].value.Bag?
    requires CanHold(server, at)
    ensures var e := Converge(server, o, at, HEALTHY);
            && e.status == Succeeded(o.status, o.generation)
            && at in e.server && RemoteMatches(o, e.server[at].value)
  {
    hide CanHold, Render, Patched, Succeeded, Failed, Waiting;
    WrittenMatches(o);
    if at in server && o.identity.Namespace? {
      UpdatedMatches(o, server[at].value);
    }
  }

  lemma WrittenFits(o: Object, content: Content, current: Content)
    requires Writable(o) && o.identity.Namespace? && Render(o.desired) == Some(content)
    ensures content.Bag?
    ensures current.Bag? ==> Patched(o.desired, current, current).Bag?
  {
  }

  lemma ConvergeFits(server: Server, o: Object, at: RemoteId)
    requires !o.identity.Connection? && Writable(o) && ServerFits(server)
    requires o.identity.Namespace? <==> at.NamespaceAt?
    ensures ServerFits(Converge(server, o, at, HEALTHY).server)
  {
    hide CanHold, Render, Patched, Succeeded, Failed, Waiting, Drifted;
    WrittenMatches(o);
    if o.identity.Namespace? {
      var content := Render(o.desired).value;
      WrittenFits(o, content, if at in server then server[at].value else content);
    }
  }

  lemma PlaceFits(c: Cluster, id: Id)
    requires id in c.store && Place(c, id).Some?
    ensures c.store[id].identity.Namespace? <==> Place(c, id).value.NamespaceAt?
  {
  }

  /** A pass over a resource with a finalizer settles it once everything shallower is settled. */
  lemma PassSettles(c: Cluster, id: Id)
    requires Startable(c) && ServerFits(c.server) && id in c.store
    requires SettledBelow(c, Rank(c, id))
    requires !c.store[id].identity.Connection? && c.store[id].finalizer
    ensures Settled(Reconcile(c, id, HEALTHY), id)
  {
    hide Locate, SettledBelow, Converge, CanHold, Succeeded, Startable, NoSharedPlace;
    Proceeds(c, id);
    var o, at := c.store[id], Place(c, id).value;
    assert WellPlaced(c, id) by { StartableAt(c, id); }
    PlaceFits(c, id);
    ConvergeSucceeds(c.server, o, at);
    SucceededReadsBack(o.status, o.generation);
    PassKeepsManifests(c, id);
    SamePlace(c, Reconcile(c, id, HEALTHY), id);
  }

  lemma StartableAt(c: Cluster, id: Id)
    requires Startable(c) && id in c.store
    ensures WellPlaced(c, id)
  {
  }

  lemma PassKeepsServerFitting(c: Cluster, id: Id)
    requires id in c.store && WellPlaced(c, id) && ServerFits(c.server)
    ensures ServerFits(Reconcile(c, id, HEALTHY).server)
  {
    hide Locate, Converge, ServerFits, Writable, TargetInRolesCatalog;
    if !c.store[id].identity.Connection? {
      GateOnlyDelays(c, id);
      PlaceFits(c, id);
      ConvergeFits(c.server, c.store[id], Place(c, id).value);
    }
  }

  /** Reconciling one resource keeps every other settled resource settled. */
  lemma OthersKeepSettled(c: Cluster, id: Id, j: Id)
    requires Startable(c) && id in c.store && id != j && Settled(c, j)
    ensures Settled(Reconcile(c, id, HEALTHY), j)
  {
    hide Reconcile, Place, WellPlaced, Rank;
    var d := Reconcile(c, id, HEALTHY);
    StartableAt(c, id);
    PassKeepsManifests(c, id);
    SamePlace(c, d, j);
    if Place(c, j).Some? {
      OwnPlaceIsOwn(c, id, j);
    }
  }

  lemma OwnPlaceIsOwn(c: Cluster, id: Id, j: Id)
    requires Startable(c) && id in c.store && j in c.store && id != j && Place(c, j).Some?
    ensures OwnTouch(c, Reconcile(c, id, HEALTHY), id, OwnPlace(c, id), HEALTHY) ==>
              Place(c, j).value in c.server ==>
                && Place(c, j).value in Reconcile(c, id, HEALTHY).server
                && Reconcile(c, id, HEALTHY).server[Place(c, j).value] == c.server[Place(c, j).value]
  {
    hide Locate, Converge;
    if c.store[id].identity.Connection? {
      assert Reconcile(c, id, HEALTHY).server == c.server;
    } else {
      hide Reconcile;
      assert WellPlaced(c, id);
      assert Place(c, id) != Place(c, j);
    }
  }

  /** A settled resource whose references are settled stays settled, whoever is reconciled next. */
  lemma PassKeepsSettled(c: Cluster, id: Id, j: Id)
    requires Startable(c) && ServerFits(c.server) && id in c.store
    requires Settled(c, j) && SettledBelow(c, Rank(c, j))
    ensures Settled(Reconcile(c, id, HEALTHY), j)
  {
    hide Reconcile, Place, StatusSettled, RemoteSettled, Rank, SettledBelow;
    StartableAt(c, id);
    if j != id {
      OthersKeepSettled(c, id, j);
    } else if c.store[id].identity.Connection? {
      ConnectionSettles(c, id);
    } else {
      PassSettles(c, id);
    }
  }

  lemma PassKeepsSettledBelow(c: Cluster, id: Id, n: nat)
    requires Startable(c) && ServerFits(c.server) && id in c.store && SettledBelow(c, n)
    ensures SettledBelow(Reconcile(c, id, HEALTHY), n)
  {
    hide Reconcile, Rank, Settled, WellPlaced;
    var d := Reconcile(c, id, HEALTHY);
    StartableAt(c, id);
    PassKeepsManifests(c, id);
    forall j | j in d.store && Rank(d, j) < n
      ensures Settled(d, j)
    {
      SamePlace(c, d, j);
      PassKeepsSettled(c, id, j);
    }
  }
}
