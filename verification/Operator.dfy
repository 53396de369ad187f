/**
 One reconcile as a function of the two stores: which remote object a resource stands for, and what a pass
 does to the resource's finalizer and status and to the remote object
 (the Reconcile and finalize functions under internal/controller).

 All kinds but Connection share one shape once the references are resolved; the order in which references,
 readiness gates and client construction are tried differs per kind and is kept as in the source. Module
 Reconcilers runs each kind step by step and proves it equal to this function.
 */
module Operator {
  import opened Wrappers
  import opened Conditions
  import opened EntityVersions
  import opened Kubernetes
  import opened NamespacePath
  import opened Polaris
  import Catalogs
  import Properties

  /** secrets holds the keys of the connections whose Secrets yield a client. */
  datatype Cluster = Cluster(store: Store, server: Server, secrets: set<Key>)

  // ---- Resolution ----

  datatype Found = Unresolved(reason: Reason) | Gated(dep: string) | Located(at: RemoteId)

  function FindCatalog(store: Store, secrets: set<Key>, key: Key, cat: Identity, gate: bool): Found
    requires cat.Catalog?
  {
    var connKey := Resolve(cat.connectionRef, key.ns);
    match Get(store, ConnectionKind, connKey)
    case None => Unresolved(ReferenceError)
    case Some(conn) =>
      if gate && !IsReady(conn) then Gated("PolarisConnection " + connKey.name)
      else if connKey !in secrets then Unresolved(AuthenticationError)
      else Located(CatalogAt(conn.identity.server, PolarisName(cat.name, key.name)))
  }

  /** getConnection and the client builder, for a resource below a catalog; the Ready gate is elsewhere. */
  function Reach(store: Store, secrets: set<Key>, catKey: Key, cat: Identity): Found
    requires cat.Catalog?
  {
    FindCatalog(store, secrets, catKey, cat, false)
  }

  function FindNamespace(store: Store, secrets: set<Key>, key: Key, ns: Identity, gate: bool): Found
    requires ns.Namespace?
  {
    match ResolvePath(store, key, ns)
    case Err(_) => Unresolved(ReferenceError)
    case Ok(loc) =>
      var cat := Get(store, CatalogKind, loc.catalog).value;
      if gate && !IsReady(cat) then Gated("PolarisCatalog " + loc.catalog.name)
      else
        match Reach(store, secrets, loc.catalog, cat.identity)
        case Located(at) => Located(NamespaceAt(at.server, at.catalog, loc.path))
        case other => other
  }

  function FindTable(store: Store, secrets: set<Key>, key: Key, tbl: Identity, gate: bool): Found
    requires tbl.Table?
  {
    var nsKey := Resolve(tbl.namespaceRef, key.ns);
    match Get(store, NamespaceKind, nsKey)
    case None => Unresolved(ReferenceError)
    case Some(ns) =>
      if gate && !IsReady(ns) then Gated("PolarisNamespace " + nsKey.name)
      else
        match FindNamespace(store, secrets, nsKey, ns.identity, false)
        case Located(at) => Located(TableAt(at.server, at.catalog, at.path, PolarisName(tbl.name, key.name)))
        case other => other
  }

  function FindRole(store: Store, secrets: set<Key>, key: Key, role: Identity, gate: bool): Found
    requires role.CatalogRole?
  {
    var catKey := Resolve(role.catalogRef, key.ns);
    match Get(store, CatalogKind, catKey)
    case None => Unresolved(ReferenceError)
    case Some(cat) =>
      if gate && !IsReady(cat) then Gated("PolarisCatalog " + catKey.name)
      else
        match Reach(store, secrets, catKey, cat.identity)
        case Located(at) => Located(RoleAt(at.server, at.catalog, PolarisName(role.name, key.name)))
        case other => other
  }

  /** buildGrantBody; the catalog the path was resolved in is discarded, as in the source. */
  function BuildGrantBody(store: Store, key: Key, grant: Identity): Option<GrantBody>
    requires grant.Grant?
  {
    match grant.target
    case CatalogTarget => Some(GrantBody(grant.privilege, OnCatalog))
    case IncompleteTarget => None
    case NamespaceTarget(ref) =>
      (match TargetPath(store, key, ref)
       case None => None
       case Some(path) => Some(GrantBody(grant.privilege, OnNamespace(path))))
    case TableTarget(ref, tableRef) =>
      (match TargetPath(store, key, ref)
       case None => None
       case Some(path) =>
         var tableKey := Resolve(tableRef, key.ns);
         match Get(store, TableKind, tableKey)
         case None => None
         case Some(tbl) =>
           Some(GrantBody(grant.privilege, OnTable(path, PolarisName(tbl.identity.name, tableKey.name)))))
  }

  function TargetPath(store: Store, key: Key, ref: Ref): Option<seq<string>> {
    var nsKey := Resolve(ref, key.ns);
    match Get(store, NamespaceKind, nsKey)
    case None => None
    case Some(ns) =>
      match ResolvePath(store, nsKey, ns.identity)
      case Err(_) => None
      case Ok(loc) => Some(loc.path)
  }

  function FindGrant(store: Store, secrets: set<Key>, key: Key, grant: Identity, gate: bool): Found
    requires grant.Grant?
  {
    var roleKey := Resolve(grant.roleRef, key.ns);
    match Get(store, RoleKind, roleKey)
    case None => Unresolved(ReferenceError)
    case Some(role) =>
      if gate && !IsReady(role) then Gated("PolarisCatalogRole " + roleKey.name)
      else
        match FindRole(store, secrets, roleKey, role.identity, false)
        case Located(at) =>
          (match BuildGrantBody(store, key, grant)
           case None => Unresolved(InvalidSpec)
           case Some(body) => Located(GrantAt(at.server, at.catalog, at.role, body)))
        case other => other
  }

  /** Everything before the deletion check of Reconcile. Readiness gates apply only to live objects. */
  function Locate(store: Store, secrets: set<Key>, key: Key, identity: Identity, gate: bool): Found
    requires !identity.Connection?
  {
    match identity
    case Catalog(_, _) => FindCatalog(store, secrets, key, identity, gate)
    case Namespace(_, _, _) => FindNamespace(store, secrets, key, identity, gate)
    case Table(_, _) => FindTable(store, secrets, key, identity, gate)
    case CatalogRole(_, _) => FindRole(store, secrets, key, identity, gate)
    case Grant(_, _, _) => FindGrant(store, secrets, key, identity, gate)
  }

  // ---- What can go wrong around a pass ----

  /**
   ping, read: the token exchange and the get succeed. reported: the get's reply carries the entity version.
   between: what other clients do to the remote object after the get and before the write. write, purge: the
   create or update and the delete request. first: the version the server gives what it creates. metaWrite,
   statusWrite: the Kubernetes updates go through.
   */
  datatype Faults = Faults(
    ping: bool, read: bool, reported: bool, between: seq<Write<Content>>, write: Reply, purge: Reply, first: Version,
    metaWrite: bool, statusWrite: bool, detail: string)

  const HEALTHY := Faults(true, true, true, [], Answered, Answered, 1, true, true, "")

  // ---- A pass over a live resource whose references resolved ----

  /** What such a pass does: the remote objects it leaves, and the status it tries to write. */
  datatype Effect = Effect(server: Server, status: Status)

  function Fail(server: Server, o: Object, reason: Reason, f: Faults): Effect {
    Effect(server, Failed(o.status, o.generation, reason, f.detail))
  }

  function Succeed(server: Server, o: Object): Effect {
    Effect(server, Succeeded(o.status, o.generation))
  }

  function WaitFor(server: Server, o: Object, dep: string): Effect {
    Effect(server, Waiting(o.status, o.generation, dep))
  }

  /** The remote content a desired content asks for; None when the catalog's storage block cannot be built. */
  function Render(desired: Desired): Option<Content> {
    match desired
    case CatalogSpec(spec) =>
      var body := Catalogs.BuildBody(spec);
      if body.None? then None else Some(CatalogRecord(Catalogs.ReadBack(body.value)))
    case BagSpec(properties) => Some(Bag(properties))
    case NoSpec => Some(Bare)
  }

  predicate Drifted(desired: Desired, current: Content) {
    match (desired, current)
    case (CatalogSpec(spec), CatalogRecord(record)) => Catalogs.Drifts(spec, record)
    case (BagSpec(want), Bag(have)) => have != want
    case (NoSpec, _) => false
    case _ => true
  }

  /** The server once the other clients' writes have come through. */
  function Raced(server: Server, r: RemoteId, f: Faults): Server {
    Outsiders(server, r, f.between)
  }

  function MissingParent(identity: Identity, at: RemoteId): string
    requires !identity.Connection?
  {
    match identity
    case Catalog(_, _) => ""
    case Namespace(_, _, _) => "parent namespace/catalog (Polaris-side)"
    case Table(_, _) => "namespace (Polaris-side)"
    case CatalogRole(_, _) => "catalog " + at.catalog + " (Polaris-side)"
    case Grant(_, _, _) => "grant target (Polaris-side)"
  }

  /** The server after a create request it carries out: 404 without the parent, 409 if the object is there. */
  function Created(server: Server, at: RemoteId, content: Content, first: Version): Server {
    if at !in server && CanHold(server, at) then Put(server, at, content, first) else server
  }

  /** The get answered 404: create. 409 is accepted without reading again. */
  function Create(before: Server, o: Object, at: RemoteId, f: Faults): Effect
    requires !o.identity.Connection?
  {
    var content := Render(o.desired);
    if content.None? then Fail(before, o, PolarisError, f)
    else
      var server := Raced(before, at, f);
      match f.write
      case Refused => Fail(server, o, PolarisError, f)
      case Lost => Fail(Created(server, at, content.value, f.first), o, PolarisError, f)
      case Answered =>
        if at !in server && !CanHold(server, at) then WaitFor(server, o, MissingParent(o.identity, at))
        else Succeed(Created(server, at, content.value, f.first), o)
  }

  /** The version an update request carries, given the entity the get returned. */
  function SentVersion(identity: Identity, read: Entity<Content>, f: Faults): Option<nat> {
    if identity.Catalog? then CatalogSends(Reported(read, f.reported)) else PlainSends(Reported(read, f.reported))
  }

  /** The patch computed from what was read, applied to what is there. */
  function Patched(desired: Desired, read: Content, actual: Content): Content {
    match (desired, read, actual)
    case (BagSpec(want), Bag(have), Bag(now)) =>
      Bag(Properties.Patch(now, Properties.Updates(have, want), Properties.Removals(have, want)))
    case _ => actual
  }

  /**
   What the server makes of an update request computed from the entity that was read; None if it turns it down.
   Catalogs and roles send a version for the server to compare; namespaces send a patch without one.
   */
  function Carried(server: Server, o: Object, at: RemoteId, content: Content, read: Entity<Content>, f: Faults)
    : Option<Server>
  {
    if o.identity.Namespace? then
      if at in server then Some(Put(server, at, Patched(o.desired, read.value, server[at].value), f.first)) else None
    else if Compare(Lookup(server, at), SentVersion(o.identity, read, f)) == Accepted
    then Some(Put(server, at, content, f.first))
    else None
  }

  /** Drift was found: update. */
  function Update(before: Server, o: Object, at: RemoteId, f: Faults): Effect
    requires at in before
  {
    var content := Render(o.desired);
    if content.None? then Fail(before, o, SyncFailed, f)
    else
      var server := Raced(before, at, f);
      var after := Carried(server, o, at, content.value, before[at], f);
      if f.write == Refused || after.None? then Fail(server, o, SyncFailed, f)
      else if f.write == Lost then Fail(after.value, o, SyncFailed, f)
      else Succeed(after.value, o)
  }

  /** A role's grants are a set: adding one that is there changes nothing. */
  function Added(server: Server, at: RemoteId, first: Version): Server {
    if at !in server && CanHold(server, at) then Put(server, at, Bare, first) else server
  }

  /** Adding a grant is a put: no get before it. */
  function AddGrant(before: Server, o: Object, at: RemoteId, f: Faults): Effect
    requires !o.identity.Connection?
  {
    var server := Raced(before, at, f);
    match f.write
    case Refused => Fail(server, o, PolarisError, f)
    case Lost => Fail(Added(server, at, f.first), o, PolarisError, f)
    case Answered =>
      if !CanHold(server, at) then WaitFor(server, o, MissingParent(o.identity, at))
      else Succeed(Added(server, at, f.first), o)
  }

  function Converge(server: Server, o: Object, at: RemoteId, f: Faults): Effect
    requires !o.identity.Connection?
  {
    if o.identity.Grant? then AddGrant(server, o, at, f)
    else if !f.read then Fail(server, o, PolarisError, f)
    else if at !in server then Create(server, o, at, f)
    else if !o.identity.Table? && Drifted(o.desired, server[at].value) then Update(server, o, at, f)
    else Succeed(server, o)
  }

  // ---- A whole pass ----

  /** Leave the remote objects as in e, and write the status if the Kubernetes API takes it. */
  function Apply(c: Cluster, id: Id, e: Effect, f: Faults): Cluster
    requires id in c.store
  {
    Cluster(if f.statusWrite then c.store[id := c.store[id].(status := e.status)] else c.store, e.server, c.secrets)
  }

  function AddFinalizer(c: Cluster, id: Id, f: Faults): Cluster
    requires id in c.store
  {
    if f.metaWrite then c.(store := c.store[id := c.store[id].(finalizer := true)]) else c
  }

  /** Removing the only finalizer of an object being deleted removes the object. */
  function RemoveFinalizer(c: Cluster, id: Id, f: Faults): Cluster
    requires id in c.store
  {
    if !c.store[id].finalizer || !f.metaWrite then c
    else if c.store[id].deleting then c.(store := c.store - {id})
    else c.(store := c.store[id := c.store[id].(finalizer := false)])
  }

  /** finalize: the remote object first, the finalizer only once the delete was answered with 2xx or 404. */
  function Finalize(c: Cluster, id: Id, at: RemoteId, f: Faults): Cluster
    requires id in c.store
  {
    match f.purge
    case Refused => c
    case Lost => c.(server := Delete(c.server, at))
    case Answered =>
      if DeleteAccepted(c.server, at) then RemoveFinalizer(c.(server := Delete(c.server, at)), id, f) else c
  }

  function ConnectionBroken(o: Object, detail: string): Status {
    var auth := Condition(AuthValid, false, AuthenticationError, detail, o.generation);
    Failed(o.status.(conditions := Set(o.status.conditions, auth)), o.generation, AuthenticationError, detail)
  }

  function ConnectionHealthy(o: Object): Status {
    var auth := Condition(AuthValid, true, CredentialsValid, "", o.generation);
    Status(o.generation, Set(Set(o.status.conditions, auth), ReadyAt(o.generation)))
  }

  function ReconcileConnection(c: Cluster, id: Id, f: Faults): Cluster
    requires id in c.store
  {
    var o := c.store[id];
    if o.deleting then RemoveFinalizer(c, id, f)
    else if id.key !in c.secrets || !f.ping then Apply(c, id, Effect(c.server, ConnectionBroken(o, f.detail)), f)
    else Apply(c, id, Effect(c.server, ConnectionHealthy(o)), f)
  }

  function Reconcile(c: Cluster, id: Id, f: Faults): Cluster {
    if id !in c.store then c
    else if c.store[id].identity.Connection? then ReconcileConnection(c, id, f)
    else
      var o := c.store[id];
      match Locate(c.store, c.secrets, id.key, o.identity, !o.deleting)
      case Unresolved(reason) =>
        if o.deleting then RemoveFinalizer(c, id, f) else Apply(c, id, Fail(c.server, o, reason, f), f)
      case Gated(dep) => Apply(c, id, WaitFor(c.server, o, dep), f)
      case Located(at) =>
        if o.deleting then Finalize(c, id, at, f)
        else if !o.finalizer then AddFinalizer(c, id, f)
        else Apply(c, id, Converge(c.server, o, at, f), f)
  }

  // ---- What a pass over a live resource can touch ----

  /** At most one remote object differs, and none is gone. */
  predicate PutAt(before: Server, after: Server, at: RemoteId) {
    && (forall r :: r in before ==> r in after)
    && (forall r :: r in after && r != at ==> r in before && after[r] == before[r])
  }

  /** Put on top of what the other clients did meanwhile, if the pass got as far as writing. */
  predicate OwnPut(before: Server, after: Server, at: RemoteId, f: Faults) {
    after == before || PutAt(Raced(before, at, f), after, at)
  }

  /** Nothing but this resource's status and finalizer, only added, and one remote object, only put. */
  predicate OwnTouch(c: Cluster, d: Cluster, id: Id, at: RemoteId, f: Faults) {
    && d.secrets == c.secrets
    && d.store.Keys == c.store.Keys
    && (forall j :: j in c.store && j != id ==> d.store[j] == c.store[j])
    && (id in c.store ==>
          && d.store[id] == c.store[id].(status := d.store[id].status, finalizer := d.store[id].finalizer)
          && (c.store[id].finalizer ==> d.store[id].finalizer))
    && OwnPut(c.server, d.server, at, f)
  }

  lemma ConvergePuts(server: Server, o: Object, at: RemoteId, f: Faults)
    requires !o.identity.Connection?
    ensures OwnPut(server, Converge(server, o, at, f).server, at, f)
  {
    hide Create, Update, AddGrant, Drifted, Failed, Succeeded, Raced;
    CreatePuts(server, o, at, f);
    if at in server {
      UpdatePuts(server, o, at, f);
    }
    AddGrantPuts(server, o, at, f);
  }

  lemma CreatePuts(server: Server, o: Object, at: RemoteId, f: Faults)
    requires !o.identity.Connection?
    ensures OwnPut(server, Create(server, o, at, f).server, at, f)
  {
    hide CanHold, Render, Failed, Succeeded, Waiting, MissingParent, Raced;
    assert forall content :: PutAt(Raced(server, at, f), Created(Raced(server, at, f), at, content, f.first), at);
  }

  lemma UpdatePuts(server: Server, o: Object, at: RemoteId, f: Faults)
    requires at in server
    ensures OwnPut(server, Update(server, o, at, f).server, at, f)
  {
    hide Render, Failed, Succeeded, Patched, Compare, SentVersion, Raced;
  }

  lemma AddGrantPuts(server: Server, o: Object, at: RemoteId, f: Faults)
    requires !o.identity.Connection?
    ensures OwnPut(server, AddGrant(server, o, at, f).server, at, f)
  {
    hide CanHold, Failed, Succeeded, Waiting, MissingParent, Raced;
    assert PutAt(Raced(server, at, f), Added(Raced(server, at, f), at, f.first), at);
  }

  lemma ApplyTouch(c: Cluster, id: Id, e: Effect, f: Faults, at: RemoteId)
    requires id in c.store && OwnPut(c.server, e.server, at, f)
    ensures OwnTouch(c, Apply(c, id, e, f), id, at, f)
  {
    hide OwnPut;
  }

  /**
   Whatever fails, and wherever `at` is taken to be when the references do not resolve, a pass over a resource
   that is not being deleted writes to no other resource and to no other remote object.
   */
  lemma LivePassTouch(c: Cluster, id: Id, f: Faults, at: RemoteId)
    requires id in c.store && !c.store[id].deleting
    requires !c.store[id].identity.Connection? ==>
               var found := Locate(c.store, c.secrets, id.key, c.store[id].identity, true);
               found.Located? ==> found.at == at
    ensures OwnTouch(c, Reconcile(c, id, f), id, at, f)
  {
    hide Converge, Locate, Failed, Succeeded, Waiting, Raced;
    var o := c.store[id];
    if o.identity.Connection? {
      ApplyTouch(c, id, Effect(c.server, ConnectionBroken(o, f.detail)), f, at);
      ApplyTouch(c, id, Effect(c.server, ConnectionHealthy(o)), f, at);
    } else {
      match Locate(c.store, c.secrets, id.key, o.identity, true)
      case Unresolved(reason) =>
        ApplyTouch(c, id, Fail(c.server, o, reason, f), f, at);
      case Gated(dep) =>
        ApplyTouch(c, id, WaitFor(c.server, o, dep), f, at);
      case Located(_) =>
        ConvergePuts(c.server, o, at, f);
        ApplyTouch(c, id, Converge(c.server, o, at, f), f, at);
    }
  }

  // ---- Resolution depends on identities only ----

  lemma GetInLargerStore(small: Store, big: Store, kind: Kind, key: Key)
    requires SameIdentities(small, big)
    requires Get(small, kind, key).Some?
    ensures Get(big, kind, key).Some? && Get(big, kind, key).value.identity == Get(small, kind, key).value.identity
  {
  }

  lemma LocateInLargerStore(small: Store, big: Store, few: set<Key>, many: set<Key>, key: Key, identity: Identity)
    requires !identity.Connection?
    requires SameIdentities(small, big) && few <= many
    requires Locate(small, few, key, identity, false).Located?
    ensures Locate(big, many, key, identity, false) == Locate(small, few, key, identity, false)
  {
    match identity
    case Catalog(ref, _) =>
      GetInLargerStore(small, big, ConnectionKind, Resolve(ref, key.ns));
    case Namespace(_, _, _) =>
      NamespaceInLargerStore(small, big, few, many, key, identity);
    case Table(ref, _) =>
      var nsKey := Resolve(ref, key.ns);
      GetInLargerStore(small, big, NamespaceKind, nsKey);
      NamespaceInLargerStore(small, big, few, many, nsKey, Get(small, NamespaceKind, nsKey).value.identity);
    case CatalogRole(_, _) =>
      RoleInLargerStore(small, big, few, many, key, identity);
    case Grant(ref, _, target) =>
      var roleKey := Resolve(ref, key.ns);
      GetInLargerStore(small, big, RoleKind, roleKey);
      RoleInLargerStore(small, big, few, many, roleKey, Get(small, RoleKind, roleKey).value.identity);
      BodyInLargerStore(small, big, key, identity);
  }

  lemma NamespaceInLargerStore(small: Store, big: Store, few: set<Key>, many: set<Key>, key: Key, ns: Identity)
    requires ns.Namespace?
    requires SameIdentities(small, big) && few <= many
    requires FindNamespace(small, few, key, ns, false).Located?
    ensures FindNamespace(big, many, key, ns, false) == FindNamespace(small, few, key, ns, false)
  {
    PathInLargerStore(small, big, key, ns);
    var catKey := ResolvePath(small, key, ns).value.catalog;
    GetInLargerStore(small, big, CatalogKind, catKey);
    GetInLargerStore(small, big, ConnectionKind,
        Resolve(Get(small, CatalogKind, catKey).value.identity.connectionRef, catKey.ns));
  }

  lemma RoleInLargerStore(small: Store, big: Store, few: set<Key>, many: set<Key>, key: Key, role: Identity)
    requires role.CatalogRole?
    requires SameIdentities(small, big) && few <= many
    requires FindRole(small, few, key, role, false).Located?
    ensures FindRole(big, many, key, role, false) == FindRole(small, few, key, role, false)
  {
  }

  lemma BodyInLargerStore(small: Store, big: Store, key: Key, grant: Identity)
    requires grant.Grant?
    requires SameIdentities(small, big)
    requires BuildGrantBody(small, key, grant).Some?
    ensures BuildGrantBody(big, key, grant) == BuildGrantBody(small, key, grant)
  {
    if grant.target.NamespaceTarget? || grant.target.TableTarget? {
      var nsKey := Resolve(grant.target.ns, key.ns);
      GetInLargerStore(small, big, NamespaceKind, nsKey);
      PathInLargerStore(small, big, nsKey, Get(small, NamespaceKind, nsKey).value.identity);
    }
    if grant.target.TableTarget? {
      GetInLargerStore(small, big, TableKind, Resolve(grant.target.table, key.ns));
    }
  }
}
