/**
 One pass of the reconcilers in terms of the manifests, the parents' readiness and the server's replies: what holds a
 resource back and what is then recorded, what is reported when a reference is missing, and when a pass succeeds, waits
 or fails (the Reconcile functions under internal/controller).
 */
module PassLaws {
  import opened Wrappers
  import opened Conditions
  import opened EntityVersions
  import opened Kubernetes
  import opened NamespacePath
  import opened Polaris
  import opened Operator
  import opened ColdStart
  import opened References

  /** At most the status of this resource differs. */
  predicate OnlyStatusOf(c: Cluster, d: Cluster, id: Id)
    requires id in c.store
  {
    && d.server == c.server && d.secrets == c.secrets
    && id in d.store && d.store == c.store[id := c.store[id].(status := d.store[id].status)]
  }

  predicate SaysNotReady(o: Object, reason: Reason, message: string) {
    Find(o.status.conditions, Ready) == Some(Condition(Ready, false, reason, message, o.generation))
  }

  lemma ApplyIsOnlyStatus(c: Cluster, id: Id, st: Status, f: Faults)
    requires id in c.store
    ensures var d := Apply(c, id, Effect(c.server, st), f);
            OnlyStatusOf(c, d, id) && d.store[id].status == if f.statusWrite then st else c.store[id].status
  {
    assert c.store[id := c.store[id].(status := c.store[id].status)] == c.store;
  }

  // ---- The connection ----

  /**
   A pass over a live connection touches its status only. Ready and AuthValid then say whether the Secret is there and
   the token exchange succeeds, at the current generation.
   */
  lemma ConnectionIsReadyIff(c: Cluster, id: Id, f: Faults)
    requires id in c.store && c.store[id].identity.Connection? && !c.store[id].deleting
    ensures var d := Reconcile(c, id, f);
            && OnlyStatusOf(c, d, id)
            && (f.statusWrite ==>
                  && (IsReady(d.store[id]) <==> id.key in c.secrets && f.ping)
                  && (IsTrue(d.store[id].status.conditions, AuthValid) <==> id.key in c.secrets && f.ping)
                  && (!IsReady(d.store[id]) ==> SaysNotReady(d.store[id], AuthenticationError, f.detail))
                  && d.store[id].status.observedGeneration == d.store[id].generation)
            && (!f.statusWrite ==> d == c)
  {
    var o := c.store[id];
    ConnectionStatusReadsBack(o, f.detail);
    ApplyIsOnlyStatus(c, id, ConnectionHealthy(o), f);
    ApplyIsOnlyStatus(c, id, ConnectionBroken(o, f.detail), f);
    hide ConnectionHealthy, ConnectionBroken, Find;
  }

  lemma ConnectionStatusReadsBack(o: Object, detail: string)
    ensures IsTrue(ConnectionHealthy(o).conditions, Ready) && IsTrue(ConnectionHealthy(o).conditions, AuthValid)
    ensures !IsTrue(ConnectionBroken(o, detail).conditions, Ready)
            && !IsTrue(ConnectionBroken(o, detail).conditions, AuthValid)
    ensures Find(ConnectionBroken(o, detail).conditions, Ready)
         == Some(Condition(Ready, false, AuthenticationError, detail, o.generation))
    ensures ConnectionHealthy(o).observedGeneration == ConnectionBroken(o, detail).observedGeneration == o.generation
  {
    var yes := Condition(AuthValid, true, CredentialsValid, "", o.generation);
    var no := Condition(AuthValid, false, AuthenticationError, detail, o.generation);
    SetIsAnUpdate(o.status.conditions, yes, AuthValid);
    SetIsAnUpdate(Set(o.status.conditions, yes), ReadyAt(o.generation), AuthValid);
    SetIsAnUpdate(Set(o.status.conditions, yes), ReadyAt(o.generation), Ready);
    SetIsAnUpdate(o.status.conditions, no, AuthValid);
    var failure := NotReady(o.generation, AuthenticationError, detail);
    SetIsAnUpdate(Set(o.status.conditions, no), failure, AuthValid);
    SetIsAnUpdate(Set(o.status.conditions, no), failure, Ready);
  }

  /** A connection being deleted just loses its finalizer, if an older operator had set one. */
  lemma ConnectionIsLetGo(c: Cluster, id: Id, f: Faults)
    requires id in c.store && c.store[id].identity.Connection? && c.store[id].deleting
    ensures Reconcile(c, id, f) ==
              if c.store[id].finalizer && f.metaWrite then Cluster(c.store - {id}, c.server, c.secrets) else c
  {
  }

  // ---- The Ready gates ----

  /** The parent whose readiness holds a resource back, named by its reference. */
  predicate Gates(id: Id, identity: Identity, parent: Id) {
    match identity
    case Connection(_) => false
    case Catalog(ref, _) => parent.kind == ConnectionKind && Refers(ref, id.key.ns, parent.key)
    case Namespace(ref, _, _) => parent.kind == CatalogKind && Refers(ref, id.key.ns, parent.key)
    case Table(ref, _) => parent.kind == NamespaceKind && Refers(ref, id.key.ns, parent.key)
    case CatalogRole(ref, _) => parent.kind == CatalogKind && Refers(ref, id.key.ns, parent.key)
    case Grant(ref, _, _) => parent.kind == RoleKind && Refers(ref, id.key.ns, parent.key)
  }

  function KindName(kind: Kind): string {
    match kind
    case ConnectionKind => "PolarisConnection"
    case CatalogKind => "PolarisCatalog"
    case NamespaceKind => "PolarisNamespace"
    case TableKind => "PolarisTable"
    case RoleKind => "PolarisCatalogRole"
    case GrantKind => "PolarisGrant"
  }

  /** The references a reconciler follows before it looks at the parent's readiness; only namespaces walk a path. */
  predicate ReachesGate(store: Store, id: Id, identity: Identity) {
    identity.Namespace? ==> ResolvePath(store, id.key, identity).Ok?
  }

  lemma GateIsShut(c: Cluster, id: Id, parent: Id)
    requires id in c.store && !c.store[id].identity.Connection?
    requires Gates(id, c.store[id].identity, parent)
    requires Stored(c.store, parent.kind, parent.key) && !IsReady(c.store[parent])
    ensures Locate(c.store, c.secrets, id.key, c.store[id].identity, true) ==
              if ReachesGate(c.store, id, c.store[id].identity)
              then Gated(KindName(parent.kind) + " " + parent.key.name)
              else Unresolved(ReferenceError)
  {
    hide Walk, IsReady, BuildGrantBody;
    assert Id(parent.kind, parent.key) == parent;
    match c.store[id].identity
    case Catalog(ref, _) => RefersIsResolve(ref, id.key.ns, parent.key);
    case Namespace(ref, _, _) => RefersIsResolve(ref, id.key.ns, parent.key);
    case Table(ref, _) => RefersIsResolve(ref, id.key.ns, parent.key);
    case CatalogRole(ref, _) => RefersIsResolve(ref, id.key.ns, parent.key);
    case Grant(ref, _, _) => RefersIsResolve(ref, id.key.ns, parent.key);
  }

  /**
   While the parent is stored and not Ready, a pass over a live resource sends nothing and leaves its finalizer as it
   is, whatever fails. It records exactly the wait on that parent, and observedGeneration stays; only a namespace whose
   path does not resolve reports that instead.
   */
  lemma UnreadyParentHoldsBack(c: Cluster, id: Id, parent: Id, f: Faults)
    requires id in c.store && !c.store[id].deleting && Gates(id, c.store[id].identity, parent)
    requires Stored(c.store, parent.kind, parent.key) && !IsReady(c.store[parent])
    ensures var o, d := c.store[id], Reconcile(c, id, f);
            && OnlyStatusOf(c, d, id)
            && (f.statusWrite && ReachesGate(c.store, id, o.identity) ==>
                  && SaysNotReady(d.store[id], DependencyNotReady,
                                  "waiting for " + (KindName(parent.kind) + " " + parent.key.name) + " to be ready")
                  && d.store[id].status.observedGeneration == o.status.observedGeneration)
            && (f.statusWrite && !ReachesGate(c.store, id, o.identity) ==>
                  && SaysNotReady(d.store[id], ReferenceError, f.detail)
                  && d.store[id].status.observedGeneration == o.generation)
  {
    var o := c.store[id];
    var dep := KindName(parent.kind) + " " + parent.key.name;
    GateIsShut(c, id, parent);
    WaitReadsBack(o.status, o.generation, dep);
    FailureReadsBack(o.status, o.generation, ReferenceError, f.detail);
    ApplyIsOnlyStatus(c, id, Waiting(o.status, o.generation, dep), f);
    ApplyIsOnlyStatus(c, id, Failed(o.status, o.generation, ReferenceError, f.detail), f);
    hide Locate, Gates, IsReady, Waiting, Failed, Apply, KindName, ReachesGate;
  }

  /** So a live resource touches the server only under a stored, Ready parent, and with its finalizer in place. */
  lemma WritesOnlyUnderReadyParent(c: Cluster, id: Id, parent: Id, f: Faults)
    requires id in c.store && !c.store[id].deleting && Gates(id, c.store[id].identity, parent)
    requires Reconcile(c, id, f).server != c.server
    ensures Stored(c.store, parent.kind, parent.key) && IsReady(c.store[parent])
    ensures c.store[id].finalizer
  {
    if Stored(c.store, parent.kind, parent.key) {
      if !IsReady(c.store[parent]) {
        UnreadyParentHoldsBack(c, id, parent, f);
      }
    } else {
      MissingParentIsUnresolved(c, id, parent);
    }
    hide Locate, Converge, IsReady, Gates, Failed, Waiting;
  }

  lemma MissingParentIsUnresolved(c: Cluster, id: Id, parent: Id)
    requires id in c.store && Gates(id, c.store[id].identity, parent) && !Stored(c.store, parent.kind, parent.key)
    ensures Locate(c.store, c.secrets, id.key, c.store[id].identity, true) == Unresolved(ReferenceError)
  {
    hide Walk, IsReady, BuildGrantBody;
    match c.store[id].identity
    case Catalog(ref, _) => RefersIsResolve(ref, id.key.ns, parent.key);
    case Namespace(ref, _, _) => RefersIsResolve(ref, id.key.ns, parent.key);
    case Table(ref, _) => RefersIsResolve(ref, id.key.ns, parent.key);
    case CatalogRole(ref, _) => RefersIsResolve(ref, id.key.ns, parent.key);
    case Grant(ref, _, _) => RefersIsResolve(ref, id.key.ns, parent.key);
  }

  // ---- References that do not resolve ----

  /** The catalog a resource lives in, and that catalog's connection. */
  predicate OnTheWay(store: Store, id: Id, identity: Identity, catKey: Key, connKey: Key) {
    && (identity.Catalog? ==> catKey == id.key && Refers(identity.connectionRef, id.key.ns, connKey))
    && (!identity.Catalog? && Stored(store, CatalogKind, catKey) ==>
          Refers(store[Id(CatalogKind, catKey)].identity.connectionRef, catKey.ns, connKey))
    && match identity
       case Namespace(ref, _, _) => Refers(ref, id.key.ns, catKey)
       case CatalogRole(ref, _) => Refers(ref, id.key.ns, catKey)
       case Table(ref, _) =>
         var nsKey := Resolve(ref, id.key.ns);
         Stored(store, NamespaceKind, nsKey) ==>
             Refers(store[Id(NamespaceKind, nsKey)].identity.catalogRef, nsKey.ns, catKey)
       case Grant(ref, _, _) =>
         var roleKey := Resolve(ref, id.key.ns);
         Stored(store, RoleKind, roleKey) ==>
             Refers(store[Id(RoleKind, roleKey)].identity.catalogRef, roleKey.ns, catKey)
       case _ => true
  }

  /** Something a resource's references lead through is not stored, or its namespace path does not resolve. */
  predicate Broken(store: Store, id: Id, identity: Identity, catKey: Key, connKey: Key) {
    || !Stored(store, ConnectionKind, connKey)
    || (!identity.Catalog? && !Stored(store, CatalogKind, catKey))
    || match identity
       case Namespace(_, _, _) => ResolvePath(store, id.key, identity).Err?
       case Table(ref, _) =>
         var nsKey := Resolve(ref, id.key.ns);
         || !Stored(store, NamespaceKind, nsKey)
         || ResolvePath(store, nsKey, store[Id(NamespaceKind, nsKey)].identity).Err?
       case Grant(ref, _, _) => !Stored(store, RoleKind, Resolve(ref, id.key.ns))
       case _ => false
  }

  /** What is wrong, in the order it is found: a reference, then the credentials, then a grant's target. */
  function Trouble(c: Cluster, id: Id, identity: Identity, catKey: Key, connKey: Key): Reason {
    if Broken(c.store, id, identity, catKey, connKey) then ReferenceError
    else if connKey !in c.secrets then AuthenticationError
    else InvalidSpec
  }

  lemma UnresolvedReason(c: Cluster, id: Id, catKey: Key, connKey: Key)
    requires id in c.store && !c.store[id].identity.Connection?
    requires OnTheWay(c.store, id, c.store[id].identity, catKey, connKey)
    ensures var o := c.store[id];
            var found := Locate(c.store, c.secrets, id.key, o.identity, false);
            found == (if found.Located? then found else Unresolved(Trouble(c, id, o.identity, catKey, connKey)))
  {
    hide Walk, BuildGrantBody;
    match c.store[id].identity
    case Catalog(ref, _) => RefersIsResolve(ref, id.key.ns, connKey);
    case Namespace(ref, _, _) => RefersIsResolve(ref, id.key.ns, catKey);
      CatalogOnTheWay(c.store, catKey, connKey);
    case CatalogRole(ref, _) => RefersIsResolve(ref, id.key.ns, catKey);
      CatalogOnTheWay(c.store, catKey, connKey);
    case Table(ref, _) =>
      var nsKey := Resolve(ref, id.key.ns);
      if Stored(c.store, NamespaceKind, nsKey) {
        RefersIsResolve(c.store[Id(NamespaceKind, nsKey)].identity.catalogRef, nsKey.ns, catKey);
      }
      CatalogOnTheWay(c.store, catKey, connKey);
    case Grant(ref, _, _) =>
      var roleKey := Resolve(ref, id.key.ns);
      if Stored(c.store, RoleKind, roleKey) {
        RefersIsResolve(c.store[Id(RoleKind, roleKey)].identity.catalogRef, roleKey.ns, catKey);
      }
      CatalogOnTheWay(c.store, catKey, connKey);
  }

  lemma CatalogOnTheWay(store: Store, catKey: Key, connKey: Key)
    requires Stored(store, CatalogKind, catKey) ==>
               Refers(store[Id(CatalogKind, catKey)].identity.connectionRef, catKey.ns, connKey)
    ensures Stored(store, CatalogKind, catKey) ==>
              connKey == Resolve(store[Id(CatalogKind, catKey)].identity.connectionRef, catKey.ns)
  {
  }

  /** No parent holds the resource back: the one its reference names is missing or Ready. */
  predicate NotHeldBack(c: Cluster, id: Id, parent: Id)
    requires id in c.store
  {
    && Gates(id, c.store[id].identity, parent)
    && (Stored(c.store, parent.kind, parent.key) ==> IsReady(c.store[parent]))
  }

  lemma OpenGate(c: Cluster, id: Id, parent: Id)
    requires id in c.store && NotHeldBack(c, id, parent)
    ensures Locate(c.store, c.secrets, id.key, c.store[id].identity, true)
         == Locate(c.store, c.secrets, id.key, c.store[id].identity, false)
  {
    hide Walk, BuildGrantBody, IsReady;
    assert Id(parent.kind, parent.key) == parent;
    match c.store[id].identity
    case Catalog(ref, _) => RefersIsResolve(ref, id.key.ns, parent.key);
    case Namespace(ref, _, _) => RefersIsResolve(ref, id.key.ns, parent.key);
    case Table(ref, _) => RefersIsResolve(ref, id.key.ns, parent.key);
    case CatalogRole(ref, _) => RefersIsResolve(ref, id.key.ns, parent.key);
    case Grant(ref, _, _) => RefersIsResolve(ref, id.key.ns, parent.key);
  }

  /** A live resource whose references do not lead to a remote object sends nothing and reports what is wrong. */
  lemma UnresolvedIsReported(c: Cluster, id: Id, parent: Id, catKey: Key, connKey: Key, f: Faults)
    requires id in c.store && !c.store[id].deleting && NotHeldBack(c, id, parent) && Place(c, id).None?
    requires OnTheWay(c.store, id, c.store[id].identity, catKey, connKey)
    ensures var o, d := c.store[id], Reconcile(c, id, f);
            && OnlyStatusOf(c, d, id)
            && (f.statusWrite ==>
                  && SaysNotReady(d.store[id], Trouble(c, id, o.identity, catKey, connKey), f.detail)
                  && d.store[id].status.observedGeneration == o.generation)
  {
    var o := c.store[id];
    var reason := Trouble(c, id, o.identity, catKey, connKey);
    OpenGate(c, id, parent);
    UnresolvedReason(c, id, catKey, connKey);
    FailureReadsBack(o.status, o.generation, reason, f.detail);
    ApplyIsOnlyStatus(c, id, Failed(o.status, o.generation, reason, f.detail), f);
    hide Locate, Trouble, Gates, OnTheWay, IsReady, Failed, Apply;
  }

  /** One whose references resolve, under a Ready parent and with its finalizer, is driven towards its spec. */
  lemma ResolvedIsDriven(c: Cluster, id: Id, parent: Id, f: Faults)
    requires id in c.store && !c.store[id].deleting && NotHeldBack(c, id, parent) && Place(c, id).Some?
    ensures var o, d := c.store[id], Reconcile(c, id, f);
            if o.finalizer then
              var e := Converge(c.server, o, Place(c, id).value, f);
              d.server == e.server && (f.statusWrite ==> d.store == c.store[id := o.(status := e.status)])
            else
              d.server == c.server && d.store == if f.metaWrite then c.store[id := o.(finalizer := true)] else c.store
  {
    hide Converge, NotHeldBack;
    NotHeldBackIsChild(c, id, parent);
    OpenGate(c, id, parent);
    hide Locate;
  }

  lemma NotHeldBackIsChild(c: Cluster, id: Id, parent: Id)
    requires id in c.store && NotHeldBack(c, id, parent)
    ensures !c.store[id].identity.Connection?
  {
  }

  // ---- Deletion ----

  /**
   A deleted resource goes if and only if it has its finalizer, the Kubernetes update goes through, and its remote
   object, where it still leads to one, was deleted with an answer that says so. A refused delete changes nothing.
   */
  lemma DeletionIsRemoteFirst(c: Cluster, id: Id, f: Faults)
    requires id in c.store && c.store[id].deleting && !c.store[id].identity.Connection?
    ensures var d, at := Reconcile(c, id, f), Place(c, id);
            && d.server == (if at.Some? && f.purge != Refused then Delete(c.server, at.value) else c.server)
            && d.store == (if id in d.store then c.store else c.store - {id})
            && (id !in d.store <==>
                  && c.store[id].finalizer && f.metaWrite
                  && (at.Some? ==> f.purge == Answered && DeleteAccepted(c.server, at.value)))
  {
    UngatedPlace(c, id);
    hide Locate, Delete, DeleteAccepted, Place;
  }

  lemma UngatedPlace(c: Cluster, id: Id)
    requires id in c.store && !c.store[id].identity.Connection?
    ensures var found := Locate(c.store, c.secrets, id.key, c.store[id].identity, false);
            !found.Gated? && Place(c, id) == if found.Located? then Some(found.at) else None
  {
  }

  // ---- How driving ends ----

  /** The update, if one is needed, is one the server takes: patches always, versioned ones at the version read. */
  predicate UpdateFits(server: Server, o: Object, at: RemoteId, f: Faults)
    requires at in server
  {
    var now := Raced(server, at, f);
    at in now &&
    (|| o.identity.Namespace?
     || (f.reported && now[at].version == server[at].version)
     || (!f.reported && o.identity.Catalog?))
  }

  /** A pass reports success: nothing to do, or the request was answered well. 409 on a create is well. */
  predicate Succeeds(server: Server, o: Object, at: RemoteId, f: Faults) {
    var now := Raced(server, at, f);
    if o.identity.Grant? then f.write.Answered? && CanHold(now, at)
    else
      f.read &&
      if at !in server then Render(o.desired).Some? && f.write.Answered? && (at in now || CanHold(now, at))
      else
        || o.identity.Table? || !Drifted(o.desired, server[at].value)
        || (Render(o.desired).Some? && f.write.Answered? && UpdateFits(server, o, at, f))
  }

  /** A pass ends in a wait: the server answered 404 to a create or a grant. */
  predicate WaitsForServer(server: Server, o: Object, at: RemoteId, f: Faults) {
    var now := Raced(server, at, f);
    f.write.Answered? && !CanHold(now, at) &&
    (o.identity.Grant? || (f.read && at !in server && at !in now && Render(o.desired).Some?))
  }

  /** Exactly how a pass ends, as its status tells: success, a wait that observes nothing, or a failure. */
  lemma OutcomeOfConverge(server: Server, o: Object, at: RemoteId, f: Faults)
    requires !o.identity.Connection?
    ensures var st := Converge(server, o, at, f).status;
            if Succeeds(server, o, at, f) then st == Succeeded(o.status, o.generation)
            else if WaitsForServer(server, o, at, f)
            then st == Waiting(o.status, o.generation, Operator.MissingParent(o.identity, at))
            else
              st == Failed(o.status, o.generation,
                           if o.identity.Grant? || !f.read || at !in server then PolarisError else SyncFailed, f.detail)
  {
    hide Raced, Render, Drifted, Failed, Succeeded, Waiting, Operator.MissingParent, CanHold;
  }

  /** What a pass that finds nothing leaves: the rendered spec, if it was sent and nobody else came first. */
  lemma CreateWrites(server: Server, o: Object, at: RemoteId, f: Faults)
    requires !o.identity.Connection? && !o.identity.Grant? && at !in server
    ensures var now, after := Raced(server, at, f), Converge(server, o, at, f).server;
            if !f.read || Render(o.desired).None? then after == server
            else if f.write.Refused? || at in now || !CanHold(now, at) then after == now
            else after == now[at := Entity(Render(o.desired).value, f.first)]
  {
    hide Raced, Render, Drifted, Failed, Succeeded, Waiting, Operator.MissingParent, CanHold;
  }

  /** What agrees with the spec is left alone, and so is every existing table, whatever its request would carry. */
  lemma NothingToDo(server: Server, o: Object, at: RemoteId, f: Faults)
    requires !o.identity.Connection? && !o.identity.Grant? && at in server
    requires !f.read || o.identity.Table? || !Drifted(o.desired, server[at].value)
    ensures Converge(server, o, at, f).server == server
  {
  }
}
