/**
 Grants (internal/controller/polarisgrant_controller.go): one privilege on one target, added with a put and
 taken back with a revoke whose body is built again from the references.
 */
module Grants {
  import opened Wrappers
  import opened Conditions
  import opened EntityVersions
  import opened Kubernetes
  import opened NamespacePath
  import opened Polaris
  import opened Operator
  import opened ColdStart

  /** The grants a role holds on the server. */
  function GrantsOf(server: Server, s: string, catalog: string, role: string): set<GrantBody> {
    set r | r in server && r.GrantAt? && r.server == s && r.catalog == catalog && r.role == role :: r.body
  }

  /** What the grant resource resolves to in a state of the store; None while a reference or client is missing. */
  function GrantPlace(c: Cluster, key: Key, grant: Identity): Option<RemoteId>
    requires grant.Grant?
  {
    match FindGrant(c.store, c.secrets, key, grant, false)
    case Located(at) => Some(at)
    case _ => None
  }

  /**
   The body revoked is the body added: two moments at which the references resolve give the same role and the
   same body, if what the keys stand for has not changed, whichever resources came and went in between.
   */
  lemma RevokeUndoesAdd(bp: Store, before: Cluster, later: Cluster, key: Key, grant: Identity)
    requires grant.Grant? && SameIdentities(before.store, bp) && SameIdentities(later.store, bp)
    requires GrantPlace(before, key, grant).Some? && GrantPlace(later, key, grant).Some?
    ensures GrantPlace(before, key, grant) == GrantPlace(later, key, grant)
  {
    hide FindGrant;
    var clients := before.secrets + later.secrets;
    LocateInLargerStore(before.store, bp, before.secrets, clients, key, grant);
    LocateInLargerStore(later.store, bp, later.secrets, clients, key, grant);
  }

  lemma AddedGrants(server: Server, at: RemoteId, first: Version)
    requires at.GrantAt? && CanHold(server, at)
    ensures var after := Added(server, at, first);
            && GrantsOf(after, at.server, at.catalog, at.role)
                 == GrantsOf(server, at.server, at.catalog, at.role) + {at.body}
            && Added(after, at, first) == after
            && forall s, catalog, role :: (s, catalog, role) != (at.server, at.catalog, at.role) ==>
                 GrantsOf(after, s, catalog, role) == GrantsOf(server, s, catalog, role)
  {
  }

  lemma StillHolds(server: Server, after: Server, at: RemoteId)
    requires CanHold(server, at) && forall r :: r in server ==> r in after
    ensures CanHold(after, at)
  {
  }

  /**
   A pass over a live grant whose role is Ready adds exactly its body to what the role holds by then, whatever
   others did before, and repeating the pass changes nothing.
   */
  lemma AddIsIdempotent(server: Server, o: Object, at: RemoteId, f: Faults)
    requires o.identity.Grant? && at.GrantAt? && f.write == Answered
    requires CanHold(Raced(server, at, f), at)
    ensures var now, after := Raced(server, at, f), Converge(server, o, at, f).server;
            && GrantsOf(after, at.server, at.catalog, at.role)
                 == GrantsOf(now, at.server, at.catalog, at.role) + {at.body}
            && Converge(after, o, at, HEALTHY).server == after
  {
    hide CanHold, Succeeded;
    AddedGrants(Raced(server, at, f), at, f.first);
    StillHolds(Raced(server, at, f), Added(Raced(server, at, f), at, f.first), at);
  }

  lemma RevokedGrants(server: Server, at: RemoteId)
    requires at.GrantAt?
    ensures DeleteAccepted(server, at)
    ensures Polaris.Delete(server, at) == server - {at}
    ensures GrantsOf(Polaris.Delete(server, at), at.server, at.catalog, at.role)
         == GrantsOf(server, at.server, at.catalog, at.role) - {at.body}
    ensures forall s, catalog, role :: (s, catalog, role) != (at.server, at.catalog, at.role) ==>
              GrantsOf(Polaris.Delete(server, at), s, catalog, role) == GrantsOf(server, s, catalog, role)
  {
  }

  /**
   Finalizing a grant takes exactly its body from exactly its role, touches nothing else on the server, and the
   resource is gone. Between the add and this pass anything may have happened to the rest of both stores.
   */
  lemma GrantAndRevokeCancel(bp: Store, before: Cluster, later: Cluster, id: Id)
    requires SameIdentities(before.store, bp) && SameIdentities(later.store, bp)
    requires id in before.store && id in later.store && before.store[id].identity.Grant?
    requires GrantPlace(before, id.key, before.store[id].identity).Some?
    requires GrantPlace(later, id.key, later.store[id].identity).Some?
    requires later.store[id].deleting && later.store[id].finalizer
    ensures later.store[id].identity == before.store[id].identity
    ensures var added := GrantPlace(before, id.key, before.store[id].identity).value;
            var after := Reconcile(later, id, HEALTHY);
            && added.GrantAt?
            && id !in after.store
            && after.server == later.server - {added}
            && GrantsOf(after.server, added.server, added.catalog, added.role)
            == GrantsOf(later.server, added.server, added.catalog, added.role) - {added.body}
  {
    assert bp[id].identity == before.store[id].identity;
    var grant := before.store[id].identity;
    GrantPlaceIsGrant(before, id.key, grant);
    RevokeUndoesAdd(bp, before, later, id.key, grant);
    var at := GrantPlace(later, id.key, grant).value;
    hide FindGrant;
    RevokedGrants(later.server, at);
    hide Polaris.Delete, DeleteAccepted;
  }

  lemma GrantPlaceIsGrant(c: Cluster, key: Key, grant: Identity)
    requires grant.Grant? && GrantPlace(c, key, grant).Some?
    ensures GrantPlace(c, key, grant).value.GrantAt?
  {
  }

  /** Add, then revoke, with nothing in between: the server is as it was, if the grant was not there before. */
  lemma RoundTrip(server: Server, at: RemoteId, first: Version)
    requires at.GrantAt? && CanHold(server, at) && at !in server
    ensures Polaris.Delete(Added(server, at, first), at) == server
  {
  }

  // ---- What the operator does not check ----

  /**
   The path of a grant's target is used in the role's catalog. It names the target's own remote namespace if and
   only if that lies in the role's catalog.
   */
  lemma TargetIsMetIffSameCatalog(c: Cluster, key: Key, grant: Identity)
    requires grant.Grant? && grant.target.NamespaceTarget?
    requires GrantPlace(c, key, grant).Some?
    requires Get(c.store, NamespaceKind, Resolve(grant.target.ns, key.ns)).Some?
    requires var nsKey := Resolve(grant.target.ns, key.ns);
             FindNamespace(c.store, c.secrets, nsKey, Get(c.store, NamespaceKind, nsKey).value.identity, false).Located?
    ensures var nsKey := Resolve(grant.target.ns, key.ns);
            var target := FindNamespace(c.store, c.secrets, nsKey, Get(c.store, NamespaceKind, nsKey).value.identity,
                false).at;
            var at := GrantPlace(c, key, grant).value;
            && target.NamespaceAt?
            && (TargetAt(at) == Some(target) <==> (target.server, target.catalog) == (at.server, at.catalog))
  {
  }
}
