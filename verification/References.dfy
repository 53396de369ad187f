/**
 Where a resource's remote object lives, told from the manifests alone: a reference with a namespace means that
 namespace and otherwise the referrer's own, a spec name that is set wins over the resource's name, and everything a
 reference leads through has to be stored (internal/controller/helpers.go).
 */
module References {
  import opened Wrappers
  import opened Conditions
  import opened Kubernetes
  import opened NamespacePath
  import opened Polaris
  import opened Operator
  import opened ColdStart

  /** The key a reference made in a namespace leads to. */
  predicate Refers(ref: Ref, owner: string, key: Key) {
    && key.name == ref.name
    && (ref.ns != "" ==> key.ns == ref.ns)
    && (ref.ns == "" ==> key.ns == owner)
  }

  /** The name the server knows a resource by. */
  predicate Called(specName: string, metaName: string, name: string) {
    && (specName != "" ==> name == specName)
    && (specName == "" ==> name == metaName)
  }

  lemma RefersIsResolve(ref: Ref, owner: string, key: Key)
    ensures Refers(ref, owner, key) <==> key == Resolve(ref, owner)
  {
  }

  lemma CalledIsPolarisName(specName: string, metaName: string, name: string)
    ensures Called(specName, metaName, name) <==> name == PolarisName(specName, metaName)
  {
  }

  /** A resource of this kind is stored under this key. */
  predicate Stored(store: Store, kind: Kind, key: Key) {
    Id(kind, key) in store && KindOf(store[Id(kind, key)].identity) == kind
  }

  /** A catalog under catKey, reached over the connection it refers to, and known to the server by this name. */
  predicate CatalogIs(store: Store, catKey: Key, connKey: Key, name: string) {
    && Stored(store, CatalogKind, catKey)
    && var cat := store[Id(CatalogKind, catKey)].identity;
       Refers(cat.connectionRef, catKey.ns, connKey) && Called(cat.name, catKey.name, name)
  }

  predicate Usable(c: Cluster, connKey: Key) {
    Stored(c.store, ConnectionKind, connKey) && connKey in c.secrets
  }

  function ServerOf(c: Cluster, connKey: Key): string
    requires Usable(c, connKey)
  {
    c.store[Id(ConnectionKind, connKey)].identity.server
  }

  lemma ReachIs(c: Cluster, catKey: Key, connKey: Key, name: string)
    requires CatalogIs(c.store, catKey, connKey, name)
    ensures var cat := c.store[Id(CatalogKind, catKey)].identity;
            Reach(c.store, c.secrets, catKey, cat) ==
              if !Stored(c.store, ConnectionKind, connKey) then Unresolved(ReferenceError)
              else if connKey !in c.secrets then Unresolved(AuthenticationError)
              else Located(CatalogAt(ServerOf(c, connKey), name))
  {
    var cat := c.store[Id(CatalogKind, catKey)].identity;
    RefersIsResolve(cat.connectionRef, catKey.ns, connKey);
    CalledIsPolarisName(cat.name, catKey.name, name);
  }

  lemma CatalogLivesAt(c: Cluster, id: Id, connKey: Key, name: string)
    requires id.kind == CatalogKind && CatalogIs(c.store, id.key, connKey, name)
    ensures Place(c, id) == if Usable(c, connKey) then Some(CatalogAt(ServerOf(c, connKey), name)) else None
  {
    ReachIs(c, id.key, connKey, name);
  }

  /** A namespace lives under its resolved path in the catalog it refers to itself. */
  lemma NamespaceLivesAt(c: Cluster, id: Id, catKey: Key, connKey: Key, catName: string)
    requires id.kind == NamespaceKind && Stored(c.store, NamespaceKind, id.key)
    requires Refers(c.store[id].identity.catalogRef, id.key.ns, catKey)
    requires Stored(c.store, CatalogKind, catKey) ==> CatalogIs(c.store, catKey, connKey, catName)
    ensures var path := ResolvePath(c.store, id.key, c.store[id].identity);
            && (path.Ok? ==> path.value.catalog == catKey && Stored(c.store, CatalogKind, catKey))
            && Place(c, id) == if path.Ok? && Usable(c, connKey)
                               then Some(NamespaceAt(ServerOf(c, connKey), catName, path.value.path)) else None
  {
    hide Walk;
    RefersIsResolve(c.store[id].identity.catalogRef, id.key.ns, catKey);
    if Stored(c.store, CatalogKind, catKey) {
      ReachIs(c, catKey, connKey, catName);
    }
  }

  /** A table lives in the namespace it refers to, wherever that is. */
  lemma TableLivesAt(c: Cluster, id: Id, nsKey: Key, name: string)
    requires id.kind == TableKind && Stored(c.store, TableKind, id.key)
    requires Refers(c.store[id].identity.namespaceRef, id.key.ns, nsKey)
            && Called(c.store[id].identity.name, id.key.name, name)
    ensures var ns := Place(c, Id(NamespaceKind, nsKey));
            Place(c, id) ==
              if Stored(c.store, NamespaceKind, nsKey) && ns.Some? && ns.value.NamespaceAt?
              then Some(TableAt(ns.value.server, ns.value.catalog, ns.value.path, name)) else None
  {
    hide ResolvePath;
    RefersIsResolve(c.store[id].identity.namespaceRef, id.key.ns, nsKey);
    CalledIsPolarisName(c.store[id].identity.name, id.key.name, name);
  }

  /** A role lives in the catalog it refers to, wherever that is. */
  lemma RoleLivesAt(c: Cluster, id: Id, catKey: Key, name: string)
    requires id.kind == RoleKind && Stored(c.store, RoleKind, id.key)
    requires Refers(c.store[id].identity.catalogRef, id.key.ns, catKey)
            && Called(c.store[id].identity.name, id.key.name, name)
    ensures var cat := Place(c, Id(CatalogKind, catKey));
            Place(c, id) ==
              if Stored(c.store, CatalogKind, catKey) && cat.Some? && cat.value.CatalogAt?
              then Some(RoleAt(cat.value.server, cat.value.catalog, name)) else None
  {
    RefersIsResolve(c.store[id].identity.catalogRef, id.key.ns, catKey);
    CalledIsPolarisName(c.store[id].identity.name, id.key.name, name);
  }

  // ---- Grants ----

  /** What a grant is to be made on, once its target's references resolve; nothing if they do not. */
  ghost predicate TargetIs(store: Store, owner: string, target: Target, on: Option<GrantedOn>) {
    match target
    case CatalogTarget => on == Some(OnCatalog)
    case IncompleteTarget => on == None
    case NamespaceTarget(ref) => exists nsKey :: Refers(ref, owner, nsKey) && OnPath(store, nsKey, on)
    case TableTarget(ref, tableRef) =>
      exists nsKey, tableKey ::
        Refers(ref, owner, nsKey) && Refers(tableRef, owner, tableKey) && OnTableIn(store, nsKey, tableKey, on)
  }

  predicate OnPath(store: Store, nsKey: Key, on: Option<GrantedOn>) {
    if Stored(store, NamespaceKind, nsKey) && ResolvePath(store, nsKey, store[Id(NamespaceKind, nsKey)].identity).Ok?
    then on == Some(OnNamespace(ResolvePath(store, nsKey, store[Id(NamespaceKind, nsKey)].identity).value.path))
    else on == None
  }

  predicate OnTableIn(store: Store, nsKey: Key, tableKey: Key, on: Option<GrantedOn>) {
    if && Stored(store, NamespaceKind, nsKey)
       && ResolvePath(store, nsKey, store[Id(NamespaceKind, nsKey)].identity).Ok?
       && Stored(store, TableKind, tableKey)
    then
      && on.Some? && on.value.OnTable?
      && on.value.path == ResolvePath(store, nsKey, store[Id(NamespaceKind, nsKey)].identity).value.path
      && Called(store[Id(TableKind, tableKey)].identity.name, tableKey.name, on.value.table)
    else on == None
  }

  /**
   The body of a grant carries the privilege its spec asks for, on what its target names; there is none exactly when
   the target is incomplete or does not resolve.
   */
  lemma GrantBodySays(store: Store, key: Key, grant: Identity)
    requires grant.Grant?
    ensures var body := BuildGrantBody(store, key, grant);
            && TargetIs(store, key.ns, grant.target, if body.Some? then Some(body.value.target) else None)
            && (body.Some? ==> body.value.privilege == grant.privilege)
  {
    hide ResolvePath;
    match grant.target
    case NamespaceTarget(ref) =>
      RefersIsResolve(ref, key.ns, Resolve(ref, key.ns));
    case TableTarget(ref, tableRef) =>
      RefersIsResolve(ref, key.ns, Resolve(ref, key.ns));
      RefersIsResolve(tableRef, key.ns, Resolve(tableRef, key.ns));
      if Stored(store, TableKind, Resolve(tableRef, key.ns)) {
        var tbl := store[Id(TableKind, Resolve(tableRef, key.ns))].identity;
        CalledIsPolarisName(tbl.name, tableRef.name, PolarisName(tbl.name, tableRef.name));
      }
      var body := BuildGrantBody(store, key, grant);
      var on := if body.Some? then Some(body.value.target) else None;
      assert OnTableIn(store, Resolve(ref, key.ns), Resolve(tableRef, key.ns), on);
    case _ =>
  }

  /** A grant lives with the role it refers to, under its body: the privilege asked for, on the target. */
  lemma GrantLivesAt(c: Cluster, id: Id, roleKey: Key)
    requires id.kind == GrantKind && Stored(c.store, GrantKind, id.key)
    requires Refers(c.store[id].identity.roleRef, id.key.ns, roleKey)
    ensures var grant, role, at := c.store[id].identity, Place(c, Id(RoleKind, roleKey)), Place(c, id);
            && (at.Some? ==>
                  && Stored(c.store, RoleKind, roleKey) && role.Some? && role.value.RoleAt?
                  && at.value.GrantAt?
                  && (at.value.server, at.value.catalog, at.value.role)
                       == (role.value.server, role.value.catalog, role.value.role)
                  && at.value.body.privilege == grant.privilege
                  && TargetIs(c.store, id.key.ns, grant.target, Some(at.value.body.target)))
            && (at.None? ==>
                  || !Stored(c.store, RoleKind, roleKey) || role.None? || !role.value.RoleAt?
                  || TargetIs(c.store, id.key.ns, grant.target, None))
  {
    hide BuildGrantBody, TargetIs;
    RefersIsResolve(c.store[id].identity.roleRef, id.key.ns, roleKey);
    GrantBodySays(c.store, id.key, c.store[id].identity);
  }

  /** Grants that ask for different privileges are never one remote grant. */
  lemma PrivilegesStayApart(c: Cluster, i: Id, j: Id)
    requires i.kind == GrantKind && Stored(c.store, GrantKind, i.key)
    requires j.kind == GrantKind && Stored(c.store, GrantKind, j.key)
    requires c.store[i].identity.privilege != c.store[j].identity.privilege
    ensures Place(c, i).Some? ==> Place(c, i) != Place(c, j)
  {
    hide Place, TargetIs;
    var first, second := c.store[i].identity, c.store[j].identity;
    RefersIsResolve(first.roleRef, i.key.ns, Resolve(first.roleRef, i.key.ns));
    RefersIsResolve(second.roleRef, j.key.ns, Resolve(second.roleRef, j.key.ns));
    GrantLivesAt(c, i, Resolve(first.roleRef, i.key.ns));
    GrantLivesAt(c, j, Resolve(second.roleRef, j.key.ns));
  }
}
