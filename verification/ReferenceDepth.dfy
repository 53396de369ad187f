/** The rank of a resource, which ColdStart reads off its remote place, is its depth in the graph of references. */
module ReferenceDepth {
  import opened Wrappers
  import opened Kubernetes
  import opened NamespacePath
  import opened Polaris
  import opened Operator
  import opened ColdStart
  import opened SweepRuns

  /** The resources a resource's references name. */
  function References(id: Id, identity: Identity): set<Id> {
    match identity
    case Connection(_) => {}
    case Catalog(ref, _) => {Id(ConnectionKind, Resolve(ref, id.key.ns))}
    case Namespace(ref, parent, _) =>
      {Id(CatalogKind, Resolve(ref, id.key.ns))} +
      if parent.Some? then {Id(NamespaceKind, Resolve(parent.value, id.key.ns))} else {}
    case Table(ref, _) => {Id(NamespaceKind, Resolve(ref, id.key.ns))}
    case CatalogRole(ref, _) => {Id(CatalogKind, Resolve(ref, id.key.ns))}
    case Grant(ref, _, target) =>
      {Id(RoleKind, Resolve(ref, id.key.ns))} +
      match target
      case NamespaceTarget(ns) => {Id(NamespaceKind, Resolve(ns, id.key.ns))}
      case TableTarget(ns, table) =>
        {Id(NamespaceKind, Resolve(ns, id.key.ns)), Id(TableKind, Resolve(table, id.key.ns))}
      case _ => {}
  }

  /** Every reference is stored and shallower, and one of them is shallower by exactly one. */
  predicate OneBelow(c: Cluster, id: Id)
    requires id in c.store
  {
    var refs := References(id, c.store[id].identity);
    && (forall j :: j in refs ==> j in c.store && Rank(c, j) < Rank(c, id))
    && exists j :: j in refs && Rank(c, j) == Rank(c, id) - 1
  }

  lemma CatalogDepth(c: Cluster, id: Id)
    requires Startable(c) && id in c.store && c.store[id].identity.Catalog?
    ensures OneBelow(c, id)
  {
    hide Startable;
    StartableAt(c, id);
    var conn := Id(ConnectionKind, Resolve(c.store[id].identity.connectionRef, id.key.ns));
    assert conn in References(id, c.store[id].identity) && Rank(c, conn) == 0 && Rank(c, id) == 1;
  }

  lemma NamespaceDepth(c: Cluster, id: Id)
    requires Startable(c) && id in c.store && c.store[id].identity.Namespace?
    ensures OneBelow(c, id)
  {
    hide Startable, Place, Walk;
    StartableAt(c, id);
    var ns := c.store[id].identity;
    assert Get(c.store, NamespaceKind, id.key) == Some(c.store[id]);
    NamespacePlace(c, id.key);
    var catalog := Id(CatalogKind, CatalogOf(ns, id.key));
    CatalogPlace(c, catalog.key);
    assert catalog in References(id, ns) && Rank(c, catalog) == 1;
    if ns.parentRef.None? {
      RootPath(c.store, id.key, ns);
    } else {
      var up := Id(NamespaceKind, Resolve(ns.parentRef.value, id.key.ns));
      ParentIsStored(c.store, id.key, ns);
      var parent := Get(c.store, NamespaceKind, up.key).value.identity;
      PathsCompose(c.store, id.key, ns, up.key, parent);
      NamespacePlace(c, up.key);
      assert up in References(id, ns) && Rank(c, up) == Rank(c, id) - 1;
    }
  }

  lemma RootPath(store: Store, key: Key, ns: Identity)
    requires ns.Namespace? && ns.parentRef.None? && ResolvePath(store, key, ns).Ok?
    ensures |ResolvePath(store, key, ns).value.path| == 1
  {
  }

  lemma ParentIsStored(store: Store, key: Key, ns: Identity)
    requires ns.Namespace? && ns.parentRef.Some? && ResolvePath(store, key, ns).Ok?
    ensures Get(store, NamespaceKind, Resolve(ns.parentRef.value, key.ns)).Some?
  {
  }

  lemma TableDepth(c: Cluster, id: Id)
    requires Startable(c) && id in c.store && c.store[id].identity.Table?
    ensures OneBelow(c, id)
  {
    hide Startable, Place;
    StartableAt(c, id);
    assert Get(c.store, TableKind, id.key) == Some(c.store[id]);
    TablePlace(c, id.key);
    var ns := Id(NamespaceKind, Resolve(c.store[id].identity.namespaceRef, id.key.ns));
    assert ns in References(id, c.store[id].identity) && Rank(c, ns) == Rank(c, id) - 1;
  }

  lemma RoleDepth(c: Cluster, id: Id)
    requires Startable(c) && id in c.store && c.store[id].identity.CatalogRole?
    ensures OneBelow(c, id)
  {
    hide Startable, Place;
    StartableAt(c, id);
    assert Get(c.store, RoleKind, id.key) == Some(c.store[id]);
    RoleInCatalog(c, id.key);
    var catalog := Id(CatalogKind, Resolve(c.store[id].identity.catalogRef, id.key.ns));
    assert catalog in References(id, c.store[id].identity) && Rank(c, catalog) == 1 && Rank(c, id) == 2;
  }

  lemma GrantDepth(c: Cluster, id: Id)
    requires Startable(c) && id in c.store && c.store[id].identity.Grant?
    ensures OneBelow(c, id)
  {
    hide Startable, Writable, FindRole, ResolvePath;
    StartableAt(c, id);
    var grant := c.store[id].identity;
    var refs := References(id, grant);
    var role := Id(RoleKind, Resolve(grant.roleRef, id.key.ns));
    RoleInCatalog(c, role.key);
    assert role in refs && Rank(c, role) == 2;
    if grant.target.NamespaceTarget? || grant.target.TableTarget? {
      var ns := Id(NamespaceKind, Resolve(grant.target.ns, id.key.ns));
      NamespacePlace(c, ns.key);
      assert ns in refs;
      if grant.target.TableTarget? {
        var table := Id(TableKind, Resolve(grant.target.table, id.key.ns));
        TablePlace(c, table.key);
        assert table in refs && Rank(c, table) == Rank(c, id) - 1;
      } else {
        assert Rank(c, ns) == Rank(c, id) - 1;
      }
    }
  }

  /**
   Connections have rank 0; every other resource has 1 more than the deepest resource it refers to, all of which are
   stored: rank is reference depth, and the graph of references has no cycles.
   */
  lemma RankIsDepth(c: Cluster, id: Id)
    requires Startable(c) && id in c.store
    ensures if c.store[id].identity.Connection? then Rank(c, id) == 0 else OneBelow(c, id)
  {
    hide Startable, OneBelow;
    match c.store[id].identity
    case Connection(_) =>
    case Catalog(_, _) => CatalogDepth(c, id);
    case Namespace(_, _, _) => NamespaceDepth(c, id);
    case Table(_, _) => TableDepth(c, id);
    case CatalogRole(_, _) => RoleDepth(c, id);
    case Grant(_, _, _) => GrantDepth(c, id);
  }
}
