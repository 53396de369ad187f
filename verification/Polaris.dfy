/**
 The Polaris side: remote objects, what each needs before it can be created, and how the server answers
 deletes. The management and catalog services are only seen through the requests the reconcilers send.
 */
module Polaris {
  import opened Wrappers
  import opened EntityVersions
  import Catalogs
  import Properties

  datatype GrantedOn = OnCatalog | OnNamespace(path: seq<string>) | OnTable(path: seq<string>, table: string)

  /** The body both addGrant and revokeGrant send. */
  datatype GrantBody = GrantBody(privilege: string, target: GrantedOn)

  datatype RemoteId =
    | CatalogAt(server: string, catalog: string)
    | NamespaceAt(server: string, catalog: string, path: seq<string>)
    | TableAt(server: string, catalog: string, path: seq<string>, table: string)
    | RoleAt(server: string, catalog: string, role: string)
    | GrantAt(server: string, catalog: string, role: string, body: GrantBody)

  datatype Content = CatalogRecord(record: Catalogs.Record) | Bag(properties: Properties.Props) | Bare

  type Server = map<RemoteId, Entity<Content>>

  function Lookup(server: Server, r: RemoteId): Option<Entity<Content>> {
    if r in server then Some(server[r]) else None
  }

  /** What must exist before a remote object can be created; the server answers 404 otherwise. */
  function Needs(r: RemoteId): set<RemoteId> {
    match r
    case CatalogAt(_, _) => {}
    case NamespaceAt(s, c, path) =>
      {CatalogAt(s, c)} + if |path| <= 1 then {} else {NamespaceAt(s, c, path[..|path| - 1])}
    case TableAt(s, c, path, _) => {NamespaceAt(s, c, path)}
    case RoleAt(s, c, _) => {CatalogAt(s, c)}
    case GrantAt(s, c, role, body) =>
      {RoleAt(s, c, role)} +
      match body.target
      case OnCatalog => {}
      case OnNamespace(path) => {NamespaceAt(s, c, path)}
      case OnTable(path, table) => {TableAt(s, c, path, table)}
  }

  predicate CanHold(server: Server, r: RemoteId) {
    Needs(r) <= server.Keys
  }

  /** A catalog holds its namespaces and roles, a namespace its children and tables. Grants hold nothing back. */
  predicate Inside(child: RemoteId, parent: RemoteId) {
    !child.GrantAt? && parent in Needs(child)
  }

  predicate Empty(server: Server, r: RemoteId) {
    forall child :: child in server ==> !Inside(child, r)
  }

  /** Deleting a role deletes the grants made to it. */
  predicate GoesWith(g: RemoteId, r: RemoteId) {
    g == r || (g.GrantAt? && r == RoleAt(g.server, g.catalog, g.role))
  }

  /** A delete or revoke the server carries out: nothing if the object is absent or not empty. */
  function Delete(server: Server, r: RemoteId): Server {
    if r in server && Empty(server, r) then map x | x in server && !GoesWith(x, r) :: server[x] else server
  }

  /** The delete is answered with 2xx or 404; a container with something inside is refused. */
  predicate DeleteAccepted(server: Server, r: RemoteId) {
    r in server ==> Empty(server, r)
  }

  /** Creating one object, at the version the server starts it with, or overwriting it. */
  function Put(server: Server, r: RemoteId, content: Content, first: Version): Server {
    server[r := Entity(content, if r in server then server[r].version + 1 else first)]
  }

  /** Another client's write: deletes and creates obey the same rules as the operator's. */
  function Outsider(server: Server, r: RemoteId, w: Write<Content>): Server {
    match w
    case Overwrite(content) => if r in server then Put(server, r, content, 1) else server
    case Remove => Delete(server, r)
    case Recreate(content, version) =>
      if r !in server && CanHold(server, r) then Put(server, r, content, version) else server
  }

  function Outsiders(server: Server, r: RemoteId, writes: seq<Write<Content>>): Server
    decreases |writes|
  {
    if writes == [] then server else Outsiders(Outsider(server, r, writes[0]), r, writes[1..])
  }

  /** The writes the server did not turn down: a delete of something not empty, a create without container. */
  function Admitted(server: Server, r: RemoteId, writes: seq<Write<Content>>): seq<Write<Content>>
    decreases |writes|
  {
    if writes == [] then []
    else
      var w := writes[0];
      var rest := Admitted(Outsider(server, r, writes[0]), r, writes[1..]);
      if (w.Remove? && r in server && !Empty(server, r)) || (w.Recreate? && !CanHold(server, r))
      then rest
      else [w] + rest
  }

  /** What other clients leave under one name is what the admitted writes make of the entity. */
  lemma {:induction false} OutsidersOnEntity(server: Server, r: RemoteId, writes: seq<Write<Content>>)
    ensures Lookup(Outsiders(server, r, writes), r) == OutsideAll(Lookup(server, r), Admitted(server, r, writes))
    decreases |writes|
  {
    hide CanHold, Empty;
    if writes != [] {
      var next := Outsider(server, r, writes[0]);
      OutsidersOnEntity(next, r, writes[1..]);
      var admitted := Admitted(server, r, writes);
      var rest := Admitted(next, r, writes[1..]);
      if admitted == [writes[0]] + rest {
        assert admitted[1..] == rest;
        assert Lookup(next, r) == Outside(Lookup(server, r), writes[0]);
      }
    }
  }
}
