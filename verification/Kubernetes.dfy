/**
 The Kubernetes side: keys, references, the custom resources the operator reconciles, and the store
 that holds them (api/v1alpha1, internal/controller/helpers.go).

 An object is split into its identity (references and Polaris-side name), which the model keeps fixed
 under a key, and the desired content, which users may edit.
 */
module Kubernetes {
  import opened Wrappers
  import opened Conditions
  import Catalogs
  import Properties

  /** types.NamespacedName. */
  datatype Key = Key(ns: string, name: string)

  /** A reference; an empty ns means the referrer's own. */
  datatype Ref = Ref(name: string, ns: string)

  datatype Kind = ConnectionKind | CatalogKind | NamespaceKind | TableKind | RoleKind | GrantKind

  datatype Id = Id(kind: Kind, key: Key)

  datatype Target =
    | CatalogTarget
    | NamespaceTarget(ns: Ref)
    | TableTarget(ns: Ref, table: Ref)
    | IncompleteTarget

  datatype Identity =
    | Connection(server: string)
    | Catalog(connectionRef: Ref, name: string)
    | Namespace(catalogRef: Ref, parentRef: Option<Ref>, name: string)
    | Table(namespaceRef: Ref, name: string)
    | CatalogRole(catalogRef: Ref, name: string)
    | Grant(roleRef: Ref, privilege: string, target: Target)

  /** What the spec asks for on the Polaris side. */
  datatype Desired =
    | CatalogSpec(spec: Catalogs.Spec)
    | BagSpec(properties: Properties.Props)
    | NoSpec

  datatype Object = Object(
    identity: Identity, desired: Desired, generation: nat, finalizer: bool, deleting: bool, status: Status)

  type Store = map<Id, Object>

  /** resolveNamespace applied to a reference. */
  function Resolve(ref: Ref, ownerNamespace: string): Key {
    Key(if ref.ns != "" then ref.ns else ownerNamespace, ref.name)
  }

  function PolarisName(specName: string, metaName: string): string {
    if specName != "" then specName else metaName
  }

  /** client.Get for one kind: an object of another kind under the same key is not found. */
  function Get(store: Store, kind: Kind, key: Key): Option<Object> {
    if Id(kind, key) in store && KindOf(store[Id(kind, key)].identity) == kind then Some(store[Id(kind, key)]) else None
  }

  function KindOf(identity: Identity): Kind {
    match identity
    case Connection(_) => ConnectionKind
    case Catalog(_, _) => CatalogKind
    case Namespace(_, _, _) => NamespaceKind
    case Table(_, _) => TableKind
    case CatalogRole(_, _) => RoleKind
    case Grant(_, _, _) => GrantKind
  }

  predicate IsReady(o: Object) {
    IsTrue(o.status.conditions, Ready)
  }

  /** Every object of small is in big with the same identity: what makes lookups in small stay true in big. */
  predicate SameIdentities(small: Store, big: Store) {
    forall id :: id in small ==> id in big && big[id].identity == small[id].identity
  }
}
