/** The walk along parentRef that turns a PolarisNamespace into its Polaris path (internal/controller/helpers.go). */
module NamespacePath {
  import opened Wrappers
  import opened Kubernetes

  const MAX_DEPTH := 32
  const MAX_LENGTH := 33

  datatype WalkError = TooDeep | MissingParent(key: Key) | CrossesCatalogs(key: Key) | MissingCatalog(key: Key)

  datatype Location = Location(path: seq<string>, catalog: Key)

  /** The catalog a namespace refers to, with the namespace of the reference defaulted. */
  function CatalogOf(ns: Identity, key: Key): Key
    requires ns.Namespace?
  {
    Resolve(ns.catalogRef, key.ns)
  }

  function NameOf(ns: Identity, key: Key): string
    requires ns.Namespace?
  {
    PolarisName(ns.name, key.name)
  }

  /** The path of a namespace whose ancestors may still number `budget`, all of them in catalog cat. */
  function Walk(store: Store, key: Key, ns: Identity, cat: Key, budget: nat): Result<seq<string>, WalkError>
    requires ns.Namespace?
    decreases budget
  {
    if ns.parentRef.None? then Ok([NameOf(ns, key)])
    else if budget == 0 then Err(TooDeep)
    else
      var up := Resolve(ns.parentRef.value, key.ns);
      match Get(store, NamespaceKind, up)
      case None => Err(MissingParent(up))
      case Some(parent) =>
        if CatalogOf(parent.identity, up) != cat then Err(CrossesCatalogs(up))
        else
          match Walk(store, up, parent.identity, cat, budget - 1)
          case Err(e) => Err(e)
          case Ok(path) => Ok(path + [NameOf(ns, key)])
  }

  function ResolvePath(store: Store, key: Key, ns: Identity): Result<Location, WalkError>
    requires ns.Namespace?
  {
    var cat := CatalogOf(ns, key);
    match Walk(store, key, ns, cat, MAX_DEPTH)
    case Err(e) => Err(e)
    case Ok(path) => if Get(store, CatalogKind, cat).None? then Err(MissingCatalog(cat)) else Ok(Location(path, cat))
  }

  /** The walk's answer for the leaf, from its answer for a climbed-to ancestor and the names gathered on the way. */
  ghost function Gathered(above: Result<seq<string>, WalkError>, path: seq<string>): Result<seq<string>, WalkError> {
    match above
    case Err(e) => Err(e)
    case Ok(prefix) => if prefix == [] then Ok(path) else Ok(prefix[..|prefix| - 1] + path)
  }

  lemma ClimbOne(store: Store, key: Key, ns: Identity, up: Key, parent: Identity, cat: Key, budget: nat,
      path: seq<string>)
    requires ParentLink(store, key, ns, up, parent) && CatalogOf(parent, up) == cat
    requires budget > 0
    ensures Gathered(Walk(store, key, ns, cat, budget), path)
         == Gathered(Walk(store, up, parent, cat, budget - 1), [NameOf(parent, up)] + path)
  {
    var above := Walk(store, up, parent, cat, budget - 1);
    if above.Ok? {
      WalkEndsInName(store, up, parent, cat, budget - 1);
      var whole := above.value + [NameOf(ns, key)];
      assert whole[..|whole| - 1] == above.value;
      assert above.value + path == above.value[..|above.value| - 1] + ([NameOf(parent, up)] + path);
    }
  }

  /** resolveNamespacePath as the source runs it: one loop that climbs and prepends. */
  method ResolveNamespacePath(store: Store, key: Key, ns: Identity) returns (r: Result<Location, WalkError>)
    requires ns.Namespace?
    ensures r == ResolvePath(store, key, ns)
  {
    var path := [NameOf(ns, key)];
    var leafCatalog := CatalogOf(ns, key);
    var curKey, cur := key, ns;
    var i := 0;
    ghost var whole := Walk(store, key, ns, leafCatalog, MAX_DEPTH);
    if whole.Ok? {
      WalkEndsInName(store, key, ns, leafCatalog, MAX_DEPTH);
      assert whole.value == whole.value[..|whole.value| - 1] + path;
    }
    while cur.parentRef.Some?
      invariant 0 <= i <= MAX_DEPTH
      invariant cur.Namespace?
      invariant whole == Gathered(Walk(store, curKey, cur, leafCatalog, MAX_DEPTH - i), path)
      decreases MAX_DEPTH - i
    {
      if i >= MAX_DEPTH {
        return Err(TooDeep);
      }
      var parentKey := Resolve(cur.parentRef.value, curKey.ns);
      var parent := Get(store, NamespaceKind, parentKey);
      if parent.None? {
        return Err(MissingParent(parentKey));
      }
      var parentCatalog := CatalogOf(parent.value.identity, parentKey);
      if parentCatalog != leafCatalog {
        return Err(CrossesCatalogs(parentKey));
      }
      ClimbOne(store, curKey, cur, parentKey, parent.value.identity, leafCatalog, MAX_DEPTH - i, path);
      path := [NameOf(parent.value.identity, parentKey)] + path;
      curKey, cur := parentKey, parent.value.identity;
      i := i + 1;
    }
    assert whole == Ok([] + path) && [] + path == path;
    if Get(store, CatalogKind, leafCatalog).None? {
      return Err(MissingCatalog(leafCatalog));
    }
    return Ok(Location(path, leafCatalog));
  }

  lemma {:induction false} WalkEndsInName(store: Store, key: Key, ns: Identity, cat: Key, budget: nat)
    requires ns.Namespace?
    requires Walk(store, key, ns, cat, budget).Ok?
    ensures var path := Walk(store, key, ns, cat, budget).value;
            0 < |path| <= budget + 1 && path[|path| - 1] == NameOf(ns, key)
    decreases budget
  {
    if ns.parentRef.Some? {
      var up := Resolve(ns.parentRef.value, key.ns);
      WalkEndsInName(store, up, Get(store, NamespaceKind, up).value.identity, cat, budget - 1);
    }
  }

  // ---- The declarative chain ----

  /** One link of the chain: the parent key of a namespace, if it has a parent and the parent is stored. */
  predicate ParentLink(store: Store, key: Key, ns: Identity, parentKey: Key, parent: Identity) {
    && ns.Namespace? && ns.parentRef.Some?
    && parentKey == Resolve(ns.parentRef.value, key.ns)
    && Get(store, NamespaceKind, parentKey).Some?
    && parent == Get(store, NamespaceKind, parentKey).value.identity
  }

  /** A namespace together with the key it is looked up under. */
  datatype Node = Node(key: Key, ns: Identity)

  /**
   A parent chain from the leaf to a namespace without parent, every ancestor stored and in the leaf's
   catalog. This is the specification: it mentions neither loop nor depth.
   */
  predicate Chain(store: Store, nodes: seq<Node>, cat: Key) {
    && nodes != []
    && (forall i :: 0 <= i < |nodes| ==> nodes[i].ns.Namespace?)
    && (forall i :: 0 < i < |nodes| ==> ParentLink(store, nodes[i - 1].key, nodes[i - 1].ns, nodes[i].key, nodes[i].ns))
    && (forall i :: 0 < i < |nodes| ==> CatalogOf(nodes[i].ns, nodes[i].key) == cat)
    && nodes[|nodes| - 1].ns.parentRef.None?
  }

  /** Root-to-leaf Polaris names of a leaf-to-root chain. */
  function Names(nodes: seq<Node>): (names: seq<string>)
    requires forall i :: 0 <= i < |nodes| ==> nodes[i].ns.Namespace?
    ensures |names| == |nodes|
    ensures forall i :: 0 <= i < |nodes| ==> names[i] == NameOf(nodes[|nodes| - 1 - i].ns, nodes[|nodes| - 1 - i].key)
  {
    if nodes == [] then [] else Names(nodes[1..]) + [NameOf(nodes[0].ns, nodes[0].key)]
  }

  lemma {:induction false} WalkFollowsChain(store: Store, nodes: seq<Node>, cat: Key, budget: nat)
    requires Chain(store, nodes, cat) && |nodes| <= budget + 1
    ensures Walk(store, nodes[0].key, nodes[0].ns, cat, budget) == Ok(Names(nodes))
  {
    if |nodes| == 1 {
      assert Names(nodes[1..]) == [];
      assert Names(nodes) == [NameOf(nodes[0].ns, nodes[0].key)];
    } else {
      assert ParentLink(store, nodes[0].key, nodes[0].ns, nodes[1].key, nodes[1].ns);
      var rest := nodes[1..];
      assert forall i :: 0 < i < |rest| ==> rest[i - 1] == nodes[i] && rest[i] == nodes[i + 1];
      WalkFollowsChain(store, rest, cat, budget - 1);
    }
  }

  lemma {:induction false} ChainFromWalk(store: Store, key: Key, ns: Identity, cat: Key, budget: nat)
    returns (nodes: seq<Node>)
    requires ns.Namespace?
    requires Walk(store, key, ns, cat, budget).Ok?
    ensures Chain(store, nodes, cat) && |nodes| <= budget + 1 && nodes[0] == Node(key, ns)
    decreases budget
  {
    if ns.parentRef.None? {
      nodes := [Node(key, ns)];
    } else {
      var up := Resolve(ns.parentRef.value, key.ns);
      var parent := Get(store, NamespaceKind, up).value.identity;
      var above := ChainFromWalk(store, up, parent, cat, budget - 1);
      nodes := [Node(key, ns)] + above;
      assert forall i :: 0 < i < |nodes| ==> nodes[i] == above[i - 1];
    }
  }

  predicate ChainWithin(store: Store, key: Key, ns: Identity, nodes: seq<Node>, bound: nat)
    requires ns.Namespace?
  {
    Chain(store, nodes, CatalogOf(ns, key)) && nodes[0] == Node(key, ns) && |nodes| <= bound
  }

  /**
   The walk is exact: it succeeds if and only if a chain of at most 32 parents exists and the catalog is
   stored, and then the result is the chain read from root to leaf.
   */
  lemma PathWalkIsExact(store: Store, key: Key, ns: Identity)
    requires ns.Namespace?
    ensures ResolvePath(store, key, ns).Ok? <==>
            (exists nodes :: ChainWithin(store, key, ns, nodes, 33))
                && Get(store, CatalogKind, CatalogOf(ns, key)).Some?
    ensures forall nodes :: ResolvePath(store, key, ns).Ok? && ChainWithin(store, key, ns, nodes, 33) ==>
              ResolvePath(store, key, ns).value == Location(Names(nodes), CatalogOf(ns, key))
  {
    var cat := CatalogOf(ns, key);
    if Walk(store, key, ns, cat, MAX_DEPTH).Ok? {
      var nodes := ChainFromWalk(store, key, ns, cat, MAX_DEPTH);
      assert ChainWithin(store, key, ns, nodes, MAX_LENGTH);
    }
    forall nodes | ChainWithin(store, key, ns, nodes, MAX_LENGTH)
      ensures Walk(store, key, ns, cat, MAX_DEPTH) == Ok(Names(nodes))
    {
      WalkFollowsChain(store, nodes, cat, MAX_DEPTH);
    }
  }

  // ---- Cycles ----

  /** The n-th ancestor, whatever its catalog; None above a root or a missing parent. */
  function Ancestor(store: Store, node: Node, n: nat): Option<Node> {
    if n == 0 then Some(node)
    else
      match Ancestor(store, node, n - 1)
      case None => None
      case Some(below) =>
        if below.ns.Namespace? && below.ns.parentRef.Some? then
          var up := Resolve(below.ns.parentRef.value, below.key.ns);
          match Get(store, NamespaceKind, up)
          case None => None
          case Some(parent) => Some(Node(up, parent.identity))
        else None
  }

  lemma {:induction false} AncestorsRepeat(store: Store, node: Node, i: nat, j: nat, n: nat)
    requires Ancestor(store, node, i) == Ancestor(store, node, j)
    ensures Ancestor(store, node, i + n) == Ancestor(store, node, j + n)
  {
    if n > 0 {
      AncestorsRepeat(store, node, i, j, n - 1);
    }
  }

  lemma {:induction false} AncestorsBelow(store: Store, node: Node, m: nat, n: nat)
    requires m <= n && Ancestor(store, node, n).Some?
    ensures Ancestor(store, node, m).Some?
    decreases n
  {
    if m < n {
      AncestorsBelow(store, node, m, n - 1);
    }
  }

  /** Once the chain revisits a key, every depth has an ancestor. */
  lemma {:induction false} CycleIsEndless(store: Store, node: Node, i: nat, j: nat, n: nat)
    requires i < j && Ancestor(store, node, i).Some? && Ancestor(store, node, i) == Ancestor(store, node, j)
    ensures Ancestor(store, node, n).Some?
    decreases n
  {
    if n <= j {
      AncestorsBelow(store, node, n, j);
    } else {
      CycleIsEndless(store, node, i, j, n - (j - i));
      AncestorsRepeat(store, node, i, j, n - j);
    }
  }

  lemma {:induction false} ChainIsAncestors(store: Store, nodes: seq<Node>, cat: Key, n: nat)
    requires Chain(store, nodes, cat) && n < |nodes|
    ensures Ancestor(store, nodes[0], n) == Some(nodes[n])
  {
    if n > 0 {
      ChainIsAncestors(store, nodes, cat, n - 1);
      assert ParentLink(store, nodes[n - 1].key, nodes[n - 1].ns, nodes[n].key, nodes[n].ns);
    }
  }

  /**
   A parent chain that revisits a key, directly or after a lead-in, has no root at any depth and never
   resolves, in any store.
   */
  lemma CyclesNeverResolve(store: Store, key: Key, ns: Identity, i: nat, j: nat)
    requires ns.Namespace?
    requires i < j && Ancestor(store, Node(key, ns), i).Some?
    requires Ancestor(store, Node(key, ns), i) == Ancestor(store, Node(key, ns), j)
    ensures forall n: nat :: Ancestor(store, Node(key, ns), n).Some? &&
              !(Ancestor(store, Node(key, ns), n).value.ns.Namespace?
                  && Ancestor(store, Node(key, ns), n).value.ns.parentRef.None?)
    ensures ResolvePath(store, key, ns).Err?
  {
    var leaf := Node(key, ns);
    forall n: nat
      ensures Ancestor(store, leaf, n).Some?
      ensures !(Ancestor(store, leaf, n).value.ns.Namespace? && Ancestor(store, leaf, n).value.ns.parentRef.None?)
    {
      CycleIsEndless(store, leaf, i, j, n);
      CycleIsEndless(store, leaf, i, j, n + 1);
    }
    if ResolvePath(store, key, ns).Ok? {
      var nodes := ChainFromWalk(store, key, ns, CatalogOf(ns, key), MAX_DEPTH);
      ChainIsAncestors(store, nodes, CatalogOf(ns, key), |nodes| - 1);
      assert false;
    }
  }

  // ---- Compositionality ----

  lemma {:induction false} WalkWithMoreBudget(store: Store, key: Key, ns: Identity, cat: Key, budget: nat, more: nat)
    requires ns.Namespace?
    requires budget <= more && Walk(store, key, ns, cat, budget).Ok?
    ensures Walk(store, key, ns, cat, more) == Walk(store, key, ns, cat, budget)
    decreases budget
  {
    if ns.parentRef.Some? {
      var up := Resolve(ns.parentRef.value, key.ns);
      WalkWithMoreBudget(store, up, Get(store, NamespaceKind, up).value.identity, cat, budget - 1, more - 1);
    }
  }

  lemma {:induction false} WalkWithinLength(store: Store, key: Key, ns: Identity, cat: Key, budget: nat, less: nat)
    requires ns.Namespace?
    requires Walk(store, key, ns, cat, budget).Ok?
    requires |Walk(store, key, ns, cat, budget).value| <= less + 1
    ensures Walk(store, key, ns, cat, less) == Walk(store, key, ns, cat, budget)
    decreases budget
  {
    if ns.parentRef.Some? {
      var up := Resolve(ns.parentRef.value, key.ns);
      WalkEndsInName(store, up, Get(store, NamespaceKind, up).value.identity, cat, budget - 1);
      WalkWithinLength(store, up, Get(store, NamespaceKind, up).value.identity, cat, budget - 1, less - 1);
    }
  }

  /**
   A child resolves exactly when its parent resolves in the same catalog with at most 31 ancestors of its
   own, and then the child's path is the parent's path and its own name.
   */
  lemma PathsCompose(store: Store, key: Key, ns: Identity, parentKey: Key, parent: Identity)
    requires ParentLink(store, key, ns, parentKey, parent)
    ensures ResolvePath(store, key, ns).Ok? <==>
            && ResolvePath(store, parentKey, parent).Ok?
            && CatalogOf(parent, parentKey) == CatalogOf(ns, key)
            && |ResolvePath(store, parentKey, parent).value.path| <= 32
    ensures ResolvePath(store, key, ns).Ok? ==>
              var child, above := ResolvePath(store, key, ns).value, ResolvePath(store, parentKey, parent).value;
              child == Location(above.path + [NameOf(ns, key)], above.catalog)
  {
    var cat := CatalogOf(ns, key);
    if ResolvePath(store, key, ns).Ok? {
      WalkEndsInName(store, parentKey, parent, cat, MAX_DEPTH - 1);
      WalkWithMoreBudget(store, parentKey, parent, cat, MAX_DEPTH - 1, MAX_DEPTH);
    }
    if ResolvePath(store, parentKey, parent).Ok? && CatalogOf(parent, parentKey) == cat &&
       |ResolvePath(store, parentKey, parent).value.path| <= MAX_DEPTH {
      WalkWithinLength(store, parentKey, parent, cat, MAX_DEPTH, MAX_DEPTH - 1);
    }
  }

  // ---- Stability ----

  /** A walk that succeeds gives the same path in every store that holds more objects. */
  lemma {:induction false} WalkInLargerStore(small: Store, big: Store, key: Key, ns: Identity, cat: Key, budget: nat)
    requires ns.Namespace?
    requires SameIdentities(small, big)
    requires Walk(small, key, ns, cat, budget).Ok?
    ensures Walk(big, key, ns, cat, budget) == Walk(small, key, ns, cat, budget)
    decreases budget
  {
    if ns.parentRef.Some? {
      var up := Resolve(ns.parentRef.value, key.ns);
      assert Id(NamespaceKind, up) in big;
      WalkInLargerStore(small, big, up, Get(small, NamespaceKind, up).value.identity, cat, budget - 1);
    }
  }

  lemma PathInLargerStore(small: Store, big: Store, key: Key, ns: Identity)
    requires ns.Namespace?
    requires SameIdentities(small, big)
    requires ResolvePath(small, key, ns).Ok?
    ensures ResolvePath(big, key, ns) == ResolvePath(small, key, ns)
  {
    var cat := CatalogOf(ns, key);
    WalkInLargerStore(small, big, key, ns, cat, MAX_DEPTH);
    assert Id(CatalogKind, cat) in big;
  }
}
