/**
 The reconcilers step by step, one method per kind, in the order the source tries things: each is proved to do to
 the two stores exactly what Operator.Reconcile says, which is what the results about runs are proved of
 (the Reconcile and finalize functions under internal/controller).
 */
module Reconcilers {
  import opened Wrappers
  import opened Conditions
  import opened EntityVersions
  import opened Kubernetes
  import opened NamespacePath
  import opened Polaris
  import opened Operator
  import Catalogs
  import Properties

  /** How a create request ended, as the reconcilers tell the replies apart; 409 counts as done. */
  datatype Outcome = Done | Missing | Broken

  class Controller {
    var store: Store
    var server: Server
    var secrets: set<Key>

    constructor (c: Cluster)
      ensures State() == c
    {
      store, server, secrets := c.store, c.server, c.secrets;
    }

    function State(): Cluster
      reads this
    {
      Cluster(store, server, secrets)
    }

    // ---- The helpers of helpers.go ----

    /** Status().Update. */
    method UpdateStatus(id: Id, st: Status, f: Faults)
      requires id in store
      modifies this`store
      ensures State() == Apply(old(State()), id, Effect(server, st), f)
    {
      if f.statusWrite {
        store := store[id := store[id].(status := st)];
      }
    }

    /** setNotReady, record the generation, write the status: every error branch of a live object. */
    method Report(id: Id, reason: Reason, f: Faults)
      requires id in store
      modifies this`store
      ensures State() == Apply(old(State()), id, Fail(server, old(store[id]), reason, f), f)
    {
      var o := store[id];
      var st := o.status.(conditions := Set(o.status.conditions, NotReady(o.generation, reason, f.detail)));
      st := st.(observedGeneration := o.generation);
      UpdateStatus(id, st, f);
    }

    /** setSynced, setReady, record the generation, write the status. */
    method ReportDone(id: Id, f: Faults)
      requires id in store
      modifies this`store
      ensures State() == Apply(old(State()), id, Succeed(server, old(store[id])), f)
    {
      var o := store[id];
      var st := o.status.(observedGeneration := o.generation);
      st := st.(conditions := Set(st.conditions, SyncedAt(o.generation)));
      st := st.(conditions := Set(st.conditions, ReadyAt(o.generation)));
      UpdateStatus(id, st, f);
    }

    /** waitForDependency: no write at all when this wait is already on record. */
    method WaitForDependency(id: Id, dep: string, f: Faults)
      requires id in store
      modifies this`store
      ensures State() == Apply(old(State()), id, WaitFor(server, old(store[id]), dep), f)
      ensures WaitRecorded(old(store[id]).status, old(store[id]).generation, dep) ==> store == old(store)
    {
      var o := store[id];
      var cur := Find(o.status.conditions, Ready);
      var msg := WaitMessage(dep);
      if cur.None? || cur.value.holds || cur.value.reason != DependencyNotReady || cur.value.message != msg
         || cur.value.generation != o.generation
      {
        UpdateStatus(id,
            o.status.(conditions := Set(o.status.conditions, NotReady(o.generation, DependencyNotReady, msg))), f);
      } else {
        assert cur == Some(NotReady(o.generation, DependencyNotReady, msg));
        assert store[id := o] == store;
      }
    }

    /** ensureFinalizer: the pass goes on only if the finalizer was there. */
    method EnsureFinalizer(id: Id, f: Faults) returns (present: bool)
      requires id in store
      modifies this`store
      ensures present == old(store[id].finalizer)
      ensures State() == if present then old(State()) else AddFinalizer(old(State()), id, f)
    {
      present := store[id].finalizer;
      if !present && f.metaWrite {
        store := store[id := store[id].(finalizer := true)];
      }
    }

    /** removeFinalizer: the API server removes an object being deleted once its last finalizer goes. */
    method DropFinalizer(id: Id, f: Faults)
      requires id in store
      modifies this`store
      ensures State() == RemoveFinalizer(old(State()), id, f)
    {
      var o := store[id];
      if !o.finalizer || !f.metaWrite {
        return;
      }
      if o.deleting {
        store := store - {id};
      } else {
        store := store[id := o.(finalizer := false)];
      }
    }

    /** References or credentials that cannot be resolved: an object being deleted is let go, a live one reports. */
    method ResolveFail(id: Id, reason: Reason, f: Faults)
      requires id in store
      modifies this`store
      ensures State() == if old(store[id]).deleting then RemoveFinalizer(old(State()), id, f)
                         else Apply(old(State()), id, Fail(server, old(store[id]), reason, f), f)
    {
      hide Failed, RemoveFinalizer, Apply;
      if store[id].deleting {
        DropFinalizer(id, f);
      } else {
        Report(id, reason, f);
      }
    }

    // ---- Requests ----

    /** A delete request and its reply; 404 counts as done. */
    method SendDelete(at: RemoteId, f: Faults) returns (ok: bool)
      modifies this`server
      ensures ok <==> f.purge.Answered? && DeleteAccepted(old(server), at)
      ensures server == if f.purge.Refused? || !DeleteAccepted(old(server), at) then old(server)
                        else Delete(old(server), at)
    {
      ok := f.purge.Answered? && DeleteAccepted(server, at);
      if !f.purge.Refused? && DeleteAccepted(server, at) {
        server := Delete(server, at);
      }
    }

    /** A create request, possibly after another actor's write. */
    method SendCreate(at: RemoteId, content: Content, f: Faults) returns (outcome: Outcome)
      modifies this`server
      ensures
        var raced := Raced(old(server), at, f);
        && server == (if f.write.Refused? then raced else Created(raced, at, content, f.first))
        && outcome == (if !f.write.Answered? then Broken
                       else if at !in raced && !CanHold(raced, at) then Missing else Done)
    {
      server := Raced(server, at, f);
      if f.write.Refused? {
        return Broken;
      }
      if at !in server && !CanHold(server, at) {
        return if f.write.Lost? then Broken else Missing;
      }
      server := Created(server, at, content, f.first);
      return if f.write.Lost? then Broken else Done;
    }

    /** An update of a catalog or role, possibly after other clients' writes; the server compares the version. */
    method SendVersioned(at: RemoteId, content: Content, sent: Option<nat>, f: Faults) returns (ok: bool)
      modifies this`server
      ensures
        var raced := Raced(old(server), at, f);
        var taken := f.write != Refused && Compare(Lookup(raced, at), sent) == EntityVersions.Accepted;
        && server == (if taken then Put(raced, at, content, f.first) else raced)
        && (ok <==> taken && f.write.Answered?)
    {
      server := Raced(server, at, f);
      if f.write.Refused? || at !in server || (sent.Some? && sent.value != server[at].version) {
        return false;
      }
      server := Put(server, at, content, f.first);
      return f.write.Answered?;
    }

    /** updateProperties: a patch, applied to whatever properties the namespace has by then. */
    method SendPatch(at: RemoteId, updates: Properties.Props, removals: seq<string>, f: Faults) returns (ok: bool)
      modifies this`server
      ensures
        var raced := Raced(old(server), at, f);
        var taken := f.write != Refused && at in raced;
        && server == (if !taken then raced else Put(raced, at,
             match raced[at].value
             case Bag(now) => Bag(Properties.Patch(now, updates, set k | k in removals))
             case other => other,
             f.first))
        && (ok <==> taken && f.write.Answered?)
    {
      server := Raced(server, at, f);
      if f.write.Refused? || at !in server {
        return false;
      }
      var patched := match server[at].value
        case Bag(now) => Bag(Properties.Patch(now, updates, set k | k in removals))
        case other => other;
      server := Put(server, at, patched, f.first);
      return f.write.Answered?;
    }

    /** finalize: the remote object first; the finalizer stays unless the delete is known to have worked. */
    method FinalizeAt(id: Id, at: RemoteId, f: Faults)
      requires id in store
      modifies this`store, this`server
      ensures State() == Finalize(old(State()), id, at, f)
    {
      hide RemoveFinalizer, Empty;
      var ok := SendDelete(at, f);
      if ok {
        DropFinalizer(id, f);
      }
    }

    // ---- Driving the remote object ----

    /** The comparison of catalogs and of the property-bag kinds. */
    method DriftsFrom(desired: Desired, current: Content) returns (drifts: bool)
      ensures drifts <==> Drifted(desired, current)
    {
      match (desired, current) {
        case (CatalogSpec(spec), CatalogRecord(record)) =>
          drifts := Catalogs.DriftsFrom(spec, record);
        case (BagSpec(want), Bag(have)) =>
          var same := Properties.EqualProperties(have, want);
          drifts := !same;
        case (NoSpec, _) =>
          drifts := false;
        case _ =>
          drifts := true;
      }
    }

    /** The get answered 404. A 404 on the create means the parent is not there yet: wait for it quietly. */
    method CreateMissing(id: Id, at: RemoteId, f: Faults)
      requires id in store && !store[id].identity.Connection?
      modifies this`store, this`server
      ensures State() == Apply(old(State()), id, Create(old(server), old(store[id]), at, f), f)
    {
      hide Raced, Failed, Succeeded, Waiting, Render, Operator.MissingParent, CanHold;
      var o := store[id];
      var content := Render(o.desired);
      if content.None? {
        Report(id, PolarisError, f);
        return;
      }
      var outcome := SendCreate(at, content.value, f);
      match outcome
      case Broken => Report(id, PolarisError, f);
      case Missing => WaitForDependency(id, Operator.MissingParent(o.identity, at), f);
      case Done => ReportDone(id, f);
    }

    /**
     The version field of an update: catalogs copy a pointer, so it may stay absent; roles copy a number, which
     stays zero when the get reported no version.
     */
    method VersionToSend(identity: Identity, current: Entity<Content>, f: Faults) returns (sent: Option<nat>)
      requires identity.Catalog? || identity.CatalogRole?
      ensures sent == SentVersion(identity, current, f)
    {
      if identity.Catalog? {
        sent := None;
        if f.reported {
          sent := Some(current.version);
        }
      } else {
        var number: nat := 0;
        if f.reported {
          number := current.version;
        }
        sent := Some(number);
      }
    }

    /** Catalogs and catalog roles: compare, and send the whole body with the version that was read. */
    method ConvergeVersioned(id: Id, at: RemoteId, f: Faults)
      requires id in store && (store[id].identity.Catalog? || store[id].identity.CatalogRole?)
      modifies this`store, this`server
      ensures State() == Apply(old(State()), id, Converge(old(server), old(store[id]), at, f), f)
    {
      hide Raced, Create, Failed, Succeeded, Drifted, Render, Compare, SentVersion;
      var o := store[id];
      if !f.read {
        Report(id, PolarisError, f);
        return;
      }
      if at !in server {
        CreateMissing(id, at, f);
        return;
      }
      var drifts := DriftsFrom(o.desired, server[at].value);
      if drifts {
        var content := Render(o.desired);
        if content.None? {
          Report(id, SyncFailed, f);
          return;
        }
        var version := VersionToSend(o.identity, server[at], f);
        var ok := SendVersioned(at, content.value, version, f);
        if !ok {
          Report(id, SyncFailed, f);
          return;
        }
      }
      ReportDone(id, f);
    }

    /** Namespaces: diff the properties, and send the patch if there is one. */
    method ConvergeNamespace(id: Id, at: RemoteId, f: Faults)
      requires id in store && store[id].identity.Namespace? && store[id].desired.BagSpec?
      requires at in server ==> server[at].value.Bag?
      modifies this`store, this`server
      ensures State() == Apply(old(State()), id, Converge(old(server), old(store[id]), at, f), f)
    {
      hide Raced, Create, Failed, Succeeded, Properties.Patch, Properties.Updates, Properties.Removals;
      var o := store[id];
      if !f.read {
        Report(id, PolarisError, f);
        return;
      }
      if at !in server {
        CreateMissing(id, at, f);
        return;
      }
      var updates, removals := Properties.DiffProperties(server[at].value.properties, o.desired.properties);
      Properties.DiffEmptyIffEqual(server[at].value.properties, o.desired.properties);
      assert removals != [] ==> removals[0] in Properties.Removals(server[at].value.properties, o.desired.properties);
      if |updates| > 0 || |removals| > 0 {
        var ok := SendPatch(at, updates, removals, f);
        if !ok {
          Report(id, SyncFailed, f);
          return;
        }
      }
      ReportDone(id, f);
    }

    /** Tables: an existing table is taken as it is. */
    method ConvergeTable(id: Id, at: RemoteId, f: Faults)
      requires id in store && store[id].identity.Table?
      modifies this`store, this`server
      ensures State() == Apply(old(State()), id, Converge(old(server), old(store[id]), at, f), f)
    {
      hide Create, Failed, Succeeded;
      if !f.read {
        Report(id, PolarisError, f);
        return;
      }
      if at !in server {
        CreateMissing(id, at, f);
        return;
      }
      ReportDone(id, f);
    }

    /** A put of a grant: 404 without the role or the target, and nothing new if the grant is there. */
    method SendGrant(at: RemoteId, f: Faults) returns (outcome: Outcome)
      modifies this`server
      ensures
        var raced := Raced(old(server), at, f);
        && server == (if f.write.Refused? then raced else Added(raced, at, f.first))
        && outcome == (if !f.write.Answered? then Broken else if !CanHold(raced, at) then Missing else Done)
    {
      server := Raced(server, at, f);
      if f.write.Refused? {
        return Broken;
      }
      var holds := CanHold(server, at);
      if holds && at !in server {
        server := Put(server, at, Bare, f.first);
      }
      return if f.write.Lost? then Broken else if holds then Done else Missing;
    }

    /** Grants are put without a get. */
    method ConvergeGrant(id: Id, at: RemoteId, f: Faults)
      requires id in store && store[id].identity.Grant?
      modifies this`store, this`server
      ensures State() == Apply(old(State()), id, Converge(old(server), old(store[id]), at, f), f)
    {
      hide Failed, Succeeded, Waiting, CanHold, Raced;
      var o := store[id];
      var outcome := SendGrant(at, f);
      match outcome
      case Broken => Report(id, PolarisError, f);
      case Missing => WaitForDependency(id, Operator.MissingParent(o.identity, at), f);
      case Done => ReportDone(id, f);
    }

    // ---- The reconcilers ----

    /** The deletion check and all that follows, once the remote object's place is known. */
    method Act(id: Id, at: RemoteId, f: Faults)
      requires id in store && !store[id].identity.Connection?
      requires store[id].identity.Namespace? ==> store[id].desired.BagSpec? && (at in server ==> server[at].value.Bag?)
      modifies this`store, this`server
      ensures State() == if old(store[id]).deleting then Finalize(old(State()), id, at, f)
                         else if !old(store[id]).finalizer then AddFinalizer(old(State()), id, f)
                         else Apply(old(State()), id, Converge(old(server), old(store[id]), at, f), f)
    {
      hide Finalize, AddFinalizer, Converge, Apply;
      if store[id].deleting {
        FinalizeAt(id, at, f);
        return;
      }
      var present := EnsureFinalizer(id, f);
      if !present {
        return;
      }
      var identity := store[id].identity;
      if identity.Namespace? {
        ConvergeNamespace(id, at, f);
      } else if identity.Table? {
        ConvergeTable(id, at, f);
      } else if identity.Grant? {
        ConvergeGrant(id, at, f);
      } else {
        ConvergeVersioned(id, at, f);
      }
    }

    /** Connections own nothing remote: the credentials are tried and the outcome is recorded. */
    method ReconcileConnection(id: Id, f: Faults)
      requires id in store ==> store[id].identity.Connection?
      modifies this`store
      ensures State() == Reconcile(old(State()), id, f)
    {
      hide RemoveFinalizer;
      if id !in store {
        return;
      }
      var conn := store[id];
      if conn.deleting {
        DropFinalizer(id, f);
        return;
      }
      var st := conn.status;
      if id.key !in secrets || !f.ping {
        st := st.(conditions :=
            Set(st.conditions, Condition(AuthValid, false, AuthenticationError, f.detail, conn.generation)));
        st := st.(conditions := Set(st.conditions, NotReady(conn.generation, AuthenticationError, f.detail)));
        st := st.(observedGeneration := conn.generation);
        UpdateStatus(id, st, f);
        return;
      }
      st := st.(conditions := Set(st.conditions, Condition(AuthValid, true, CredentialsValid, "", conn.generation)));
      st := st.(conditions := Set(st.conditions, ReadyAt(conn.generation)));
      st := st.(observedGeneration := conn.generation);
      UpdateStatus(id, st, f);
    }

    method ReconcileCatalog(id: Id, f: Faults)
      requires id in store ==> store[id].identity.Catalog?
      modifies this`store, this`server
      ensures State() == Reconcile(old(State()), id, f)
    {
      hide Failed, Waiting, Converge, Finalize, RemoveFinalizer, AddFinalizer, Apply, IsReady,
          Operator.ReconcileConnection, PolarisName;
      if id !in store {
        return;
      }
      var cat := store[id];
      var deleting := cat.deleting;
      var connKey := Resolve(cat.identity.connectionRef, id.key.ns);
      var conn := Get(store, ConnectionKind, connKey);
      if conn.None? {
        ResolveFail(id, ReferenceError, f);
        return;
      }
      if !deleting && !IsReady(conn.value) {
        WaitForDependency(id, "PolarisConnection " + connKey.name, f);
        return;
      }
      if connKey !in secrets {
        ResolveFail(id, AuthenticationError, f);
        return;
      }
      Act(id, CatalogAt(conn.value.identity.server, PolarisName(cat.identity.name, id.key.name)), f);
    }

    method ReconcileNamespace(id: Id, f: Faults)
      requires id in store ==> store[id].identity.Namespace? && store[id].desired.BagSpec?
      requires forall r :: r in server && r.NamespaceAt? ==> server[r].value.Bag?
      modifies this`store, this`server
      ensures State() == Reconcile(old(State()), id, f)
    {
      hide Failed, Waiting, Converge, Finalize, RemoveFinalizer, AddFinalizer, Apply, IsReady,
          Operator.ReconcileConnection, PolarisName, Walk;
      if id !in store {
        return;
      }
      var ns := store[id];
      var deleting := ns.deleting;
      var walked := ResolveNamespacePath(store, id.key, ns.identity);
      if walked.Err? {
        ResolveFail(id, ReferenceError, f);
        return;
      }
      var path, catKey := walked.value.path, walked.value.catalog;
      var cat := Get(store, CatalogKind, catKey).value;
      if !deleting && !IsReady(cat) {
        WaitForDependency(id, "PolarisCatalog " + catKey.name, f);
        return;
      }
      var connKey := Resolve(cat.identity.connectionRef, catKey.ns);
      var conn := Get(store, ConnectionKind, connKey);
      if conn.None? {
        ResolveFail(id, ReferenceError, f);
        return;
      }
      if connKey !in secrets {
        ResolveFail(id, AuthenticationError, f);
        return;
      }
      Act(id, NamespaceAt(conn.value.identity.server, PolarisName(cat.identity.name, catKey.name), path), f);
    }

    method ReconcileTable(id: Id, f: Faults)
      requires id in store ==> store[id].identity.Table?
      modifies this`store, this`server
      ensures State() == Reconcile(old(State()), id, f)
    {
      hide Failed, Waiting, Converge, Finalize, RemoveFinalizer, AddFinalizer, Apply, IsReady,
          Operator.ReconcileConnection, PolarisName, Walk;
      if id !in store {
        return;
      }
      var tbl := store[id];
      var deleting := tbl.deleting;
      var nsKey := Resolve(tbl.identity.namespaceRef, id.key.ns);
      var ns := Get(store, NamespaceKind, nsKey);
      if ns.None? {
        ResolveFail(id, ReferenceError, f);
        return;
      }
      if !deleting && !IsReady(ns.value) {
        WaitForDependency(id, "PolarisNamespace " + nsKey.name, f);
        return;
      }
      var walked := ResolveNamespacePath(store, nsKey, ns.value.identity);
      if walked.Err? {
        ResolveFail(id, ReferenceError, f);
        return;
      }
      var path, catKey := walked.value.path, walked.value.catalog;
      var cat := Get(store, CatalogKind, catKey).value;
      var connKey := Resolve(cat.identity.connectionRef, catKey.ns);
      var conn := Get(store, ConnectionKind, connKey);
      if conn.None? {
        ResolveFail(id, ReferenceError, f);
        return;
      }
      if connKey !in secrets {
        ResolveFail(id, AuthenticationError, f);
        return;
      }
      Act(id, TableAt(conn.value.identity.server, PolarisName(cat.identity.name, catKey.name), path,
                      PolarisName(tbl.identity.name, id.key.name)), f);
    }

    method ReconcileCatalogRole(id: Id, f: Faults)
      requires id in store ==> store[id].identity.CatalogRole?
      modifies this`store, this`server
      ensures State() == Reconcile(old(State()), id, f)
    {
      hide Failed, Waiting, Converge, Finalize, RemoveFinalizer, AddFinalizer, Apply, IsReady,
          Operator.ReconcileConnection, PolarisName;
      if id !in store {
        return;
      }
      var cr := store[id];
      var deleting := cr.deleting;
      var catKey := Resolve(cr.identity.catalogRef, id.key.ns);
      var cat := Get(store, CatalogKind, catKey);
      if cat.None? {
        ResolveFail(id, ReferenceError, f);
        return;
      }
      if !deleting && !IsReady(cat.value) {
        WaitForDependency(id, "PolarisCatalog " + catKey.name, f);
        return;
      }
      var connKey := Resolve(cat.value.identity.connectionRef, catKey.ns);
      var conn := Get(store, ConnectionKind, connKey);
      if conn.None? {
        ResolveFail(id, ReferenceError, f);
        return;
      }
      if connKey !in secrets {
        ResolveFail(id, AuthenticationError, f);
        return;
      }
      Act(id, RoleAt(conn.value.identity.server, PolarisName(cat.value.identity.name, catKey.name),
                     PolarisName(cr.identity.name, id.key.name)), f);
    }

    /** buildGrantBody: the body is filled in as references resolve; None stands for its errors. */
    method GrantBodyFor(key: Key, grant: Identity) returns (body: Option<GrantBody>)
      requires grant.Grant?
      ensures body == BuildGrantBody(store, key, grant)
    {
      hide Walk;
      var target := grant.target;
      if target.CatalogTarget? {
        return Some(GrantBody(grant.privilege, OnCatalog));
      }
      if target.IncompleteTarget? {
        return None;
      }
      var nsKey := Resolve(target.ns, key.ns);
      var ns := Get(store, NamespaceKind, nsKey);
      if ns.None? {
        return None;
      }
      var walked := ResolveNamespacePath(store, nsKey, ns.value.identity);
      if walked.Err? {
        return None;
      }
      if target.NamespaceTarget? {
        return Some(GrantBody(grant.privilege, OnNamespace(walked.value.path)));
      }
      var tableKey := Resolve(target.table, key.ns);
      var tbl := Get(store, TableKind, tableKey);
      if tbl.None? {
        return None;
      }
      return Some(GrantBody(grant.privilege,
          OnTable(walked.value.path, PolarisName(tbl.value.identity.name, tableKey.name))));
    }

    method ReconcileGrant(id: Id, f: Faults)
      requires id in store ==> store[id].identity.Grant?
      modifies this`store, this`server
      ensures State() == Reconcile(old(State()), id, f)
    {
      hide Failed, Waiting, Converge, Finalize, RemoveFinalizer, AddFinalizer, Apply, IsReady,
          Operator.ReconcileConnection, PolarisName, BuildGrantBody;
      if id !in store {
        return;
      }
      var g := store[id];
      var deleting := g.deleting;
      var roleKey := Resolve(g.identity.roleRef, id.key.ns);
      var cr := Get(store, RoleKind, roleKey);
      if cr.None? {
        ResolveFail(id, ReferenceError, f);
        return;
      }
      if !deleting && !IsReady(cr.value) {
        WaitForDependency(id, "PolarisCatalogRole " + roleKey.name, f);
        return;
      }
      var catKey := Resolve(cr.value.identity.catalogRef, roleKey.ns);
      var cat := Get(store, CatalogKind, catKey);
      if cat.None? {
        ResolveFail(id, ReferenceError, f);
        return;
      }
      var connKey := Resolve(cat.value.identity.connectionRef, catKey.ns);
      var conn := Get(store, ConnectionKind, connKey);
      if conn.None? {
        ResolveFail(id, ReferenceError, f);
        return;
      }
      if connKey !in secrets {
        ResolveFail(id, AuthenticationError, f);
        return;
      }
      var body := GrantBodyFor(id.key, g.identity);
      if body.None? {
        ResolveFail(id, InvalidSpec, f);
        return;
      }
      Act(id, GrantAt(conn.value.identity.server, PolarisName(cat.value.identity.name, catKey.name),
                      PolarisName(cr.value.identity.name, roleKey.name), body.value), f);
    }
  }
}
