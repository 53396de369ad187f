/**
 Every interleaving of the reconcilers' single steps with users, other actors on the server, and lost replies.

 One worker runs per resource, as controller-runtime guarantees; workers of different resources interleave
 freely. Kubernetes writes are compare-and-set on the resource version the worker read. The references of one
 resource are read one object at a time, so a successful resolution may have seen each of them at a different
 moment; a failing one may have failed for any reason, since the source gives up on every read error.

 The blueprint fixes what a key stands for: a resource that is deleted and applied again refers to the same
 things under the same names.
 */
module Interleavings {
  import opened Wrappers
  import opened Conditions
  import opened EntityVersions
  import opened Kubernetes
  import opened Polaris
  import opened Operator
  import NamespacePath

  /** What a worker remembers of the resource it fetched. */
  datatype Seen = Seen(version: nat, finalizer: bool, deleting: bool)

  datatype Phase =
    | Fetched(seen: Seen)
    | Placed(seen: Seen, at: RemoteId)
    | Unreachable(seen: Seen)
    | Writing(at: RemoteId)
    | Purged(seen: Seen)

  /** creators and abandoned are bookkeeping: who had a remote object created, and which ones were given up. */
  datatype Machine = Machine(
    cluster: Cluster, versions: map<Id, nat>, nextVersion: nat, workers: map<Id, Phase>,
    creators: map<RemoteId, Id>, abandoned: set<RemoteId>)

  datatype Action =
    // users and their tools
    | Apply(id: Id, desired: Desired)
    | Remove(id: Id)
    | SecretsBecome(secrets: set<Key>)
    // other actors on the server
    | OutsiderPuts(at: RemoteId, content: Content, first: Version)
    | OutsiderDeletes(at: RemoteId)
    // a worker's steps
    | Fetch(id: Id)
    | ResolveSucceeds(id: Id, view: Store, clients: set<Key>)
    | ResolveFails(id: Id)
    | EnsureFinalizer(id: Id, accepted: bool)
    | CreateOrPut(id: Id, content: Content, first: Version, reply: Reply)
    | Delete(id: Id, reply: Reply)
    | Release(id: Id, accepted: bool)
    | Drop(id: Id, accepted: bool)
    | WriteStatus(id: Id, status: Status)
    | Stop(id: Id)

  // ---- Kubernetes ----

  function Stored(m: Machine, id: Id, o: Object): Machine {
    m.(cluster := m.cluster.(store := m.cluster.store[id := o]),
       versions := m.versions[id := m.nextVersion], nextVersion := m.nextVersion + 1)
  }

  function Unstored(m: Machine, id: Id): Machine {
    m.(cluster := m.cluster.(store := m.cluster.store - {id}), versions := m.versions - {id})
  }

  /** A compare-and-set write by a worker that saw this version goes through. */
  predicate Current(m: Machine, id: Id, seen: Seen) {
    id in m.cluster.store && id in m.versions && m.versions[id] == seen.version
  }

  function Idle(m: Machine, id: Id): Machine {
    m.(workers := m.workers - {id})
  }

  function Now(m: Machine, id: Id, phase: Phase): Machine {
    m.(workers := m.workers[id := phase])
  }

  // ---- Actions; one that is not possible changes nothing ----

  function ApplyStep(bp: Store, m: Machine, id: Id, desired: Desired): Machine {
    if id in m.cluster.store then
      var o := m.cluster.store[id];
      Stored(m, id, o.(desired := desired, generation := o.generation + 1))
    else if id in bp then Stored(m, id, Object(bp[id].identity, desired, 1, false, false, NO_STATUS))
    else m
  }

  /** Deleting waits for the finalizer, if there is one. */
  function RemoveStep(m: Machine, id: Id): Machine {
    if id !in m.cluster.store then m
    else if m.cluster.store[id].finalizer then Stored(m, id, m.cluster.store[id].(deleting := true))
    else Unstored(m, id)
  }

  function FetchStep(m: Machine, id: Id): Machine {
    if id in m.workers || id !in m.cluster.store || id !in m.versions || m.cluster.store[id].identity.Connection? then m
    else
      var o := m.cluster.store[id];
      Now(m, id, Fetched(Seen(m.versions[id], o.finalizer, o.deleting)))
  }

  function ResolveSucceedsStep(bp: Store, m: Machine, id: Id, view: Store, clients: set<Key>): Machine {
    if !(id in m.workers && m.workers[id].Fetched? && id in bp && !bp[id].identity.Connection?
        && SameIdentities(view, bp)) then m
    else
      match Operator.Locate(view, clients, id.key, bp[id].identity, false)
      case Located(at) => Now(m, id, Placed(m.workers[id].seen, at))
      case _ => m
  }

  function ResolveFailsStep(bp: Store, m: Machine, id: Id): Machine {
    if !(id in m.workers && m.workers[id].Fetched? && id in bp && !bp[id].identity.Connection?) then m
    else if m.workers[id].seen.deleting then Now(m, id, Unreachable(m.workers[id].seen))
    else Idle(m, id)
  }

  /** A live resource: add the finalizer and stop, or go on if it was there when fetched. */
  function EnsureFinalizerStep(m: Machine, id: Id, accepted: bool): Machine {
    if !(id in m.workers && m.workers[id].Placed? && !m.workers[id].seen.deleting) then m
    else
      var seen := m.workers[id].seen;
      if seen.finalizer then Now(m, id, Writing(m.workers[id].at))
      else if accepted && Current(m, id, seen)
      then Idle(Stored(m, id, m.cluster.store[id].(finalizer := true)), id)
      else Idle(m, id)
  }

  /** A create, update or grant request; created objects are put down to this resource, lost reply or not. */
  function CreateOrPutStep(m: Machine, id: Id, content: Content, first: Version, reply: Reply): Machine {
    if !(id in m.workers && m.workers[id].Writing?) || reply == Refused then m
    else
      var at := m.workers[id].at;
      var server := m.cluster.server;
      if at in server then m.(cluster := m.cluster.(server := Put(server, at, content, first)))
      else if CanHold(server, at) then
        m.(cluster := m.cluster.(server := Put(server, at, content, first)), creators := m.creators[at := id],
           abandoned := m.abandoned - {at})
      else m
  }

  function DeleteStep(m: Machine, id: Id, reply: Reply): Machine {
    if !(id in m.workers && m.workers[id].Placed? && m.workers[id].seen.deleting) then m
    else
      var at, seen := m.workers[id].at, m.workers[id].seen;
      var server := m.cluster.server;
      match reply
      case Refused => Idle(m, id)
      case Lost => Idle(m.(cluster := m.cluster.(server := Polaris.Delete(server, at))), id)
      case Answered =>
        if DeleteAccepted(server, at)
        then Now(m.(cluster := m.cluster.(server := Polaris.Delete(server, at))), id, Purged(seen))
        else Idle(m, id)
  }

  /** removeFinalizer after the delete. */
  function ReleaseStep(m: Machine, id: Id, accepted: bool): Machine {
    if !(id in m.workers && m.workers[id].Purged?) then m
    else if accepted && Current(m, id, m.workers[id].seen) && m.workers[id].seen.finalizer
    then Idle(Unstored(m, id), id)
    else Idle(m, id)
  }

  /** removeFinalizer because a reference is gone: whatever this resource had created is given up. */
  function DropStep(m: Machine, id: Id, accepted: bool): Machine {
    if !(id in m.workers && m.workers[id].Unreachable?) then m
    else if accepted && Current(m, id, m.workers[id].seen) && m.workers[id].seen.finalizer then
      Idle(Unstored(m, id), id).(abandoned := m.abandoned + set r | r in m.creators && m.creators[r] == id)
    else Idle(m, id)
  }

  function WriteStatusStep(m: Machine, id: Id, status: Status): Machine {
    if id in m.workers && id in m.cluster.store then Stored(m, id, m.cluster.store[id].(status := status)) else m
  }

  /** An object somebody else creates is put down to nobody. */
  function OutsiderPutsStep(m: Machine, at: RemoteId, content: Content, first: Version): Machine {
    var server := m.cluster.server;
    if at in server then m.(cluster := m.cluster.(server := Put(server, at, content, first)))
    else if CanHold(server, at) then
      m.(cluster := m.cluster.(server := Put(server, at, content, first)), creators := m.creators - {at})
    else m
  }

  function Step(bp: Store, m: Machine, a: Action): Machine {
    match a
    case Apply(id, desired) => ApplyStep(bp, m, id, desired)
    case Remove(id) => RemoveStep(m, id)
    case SecretsBecome(secrets) => m.(cluster := m.cluster.(secrets := secrets))
    case OutsiderPuts(at, content, first) => OutsiderPutsStep(m, at, content, first)
    case OutsiderDeletes(at) => m.(cluster := m.cluster.(server := Polaris.Delete(m.cluster.server, at)))
    case Fetch(id) => FetchStep(m, id)
    case ResolveSucceeds(id, view, clients) => ResolveSucceedsStep(bp, m, id, view, clients)
    case ResolveFails(id) => ResolveFailsStep(bp, m, id)
    case EnsureFinalizer(id, accepted) => EnsureFinalizerStep(m, id, accepted)
    case CreateOrPut(id, content, first, reply) => CreateOrPutStep(m, id, content, first, reply)
    case Delete(id, reply) => DeleteStep(m, id, reply)
    case Release(id, accepted) => ReleaseStep(m, id, accepted)
    case Drop(id, accepted) => DropStep(m, id, accepted)
    case WriteStatus(id, status) => WriteStatusStep(m, id, status)
    case Stop(id) => Idle(m, id)
  }

  function Run(bp: Store, m: Machine, actions: seq<Action>): Machine
    decreases |actions|
  {
    if actions == [] then m else Run(bp, Step(bp, m, actions[0]), actions[1..])
  }

  /** Nothing stored, no worker under way; the server may hold anything, none of it the operator's. */
  function Start(server: Server, secrets: set<Key>): Machine {
    Machine(Cluster(map[], server, secrets), map[], 0, map[], map[], {})
  }

  // ---- The invariant ----

  /** The resource is stored with its finalizer, so a deletion waits for the operator. */
  predicate Held(m: Machine, id: Id) {
    id in m.cluster.store && m.cluster.store[id].finalizer
  }

  /** Every remote object the operator created, and did not give up, has its resource still held. */
  predicate NoOrphan(m: Machine) {
    forall r :: r in m.cluster.server && r in m.creators && r !in m.abandoned ==> Held(m, m.creators[r])
  }

  /** The one place a resource can ever resolve to. */
  function Home(bp: Store, id: Id): Option<RemoteId> {
    if id !in bp || bp[id].identity.Connection? then None
    else
      match Operator.Locate(bp, AllKeys(bp), id.key, bp[id].identity, false)
      case Located(at) => Some(at)
      case _ => None
  }

  function AllKeys(bp: Store): set<Key> {
    set id | id in bp :: id.key
  }

  predicate SeenFits(m: Machine, id: Id, seen: Seen) {
    && seen.version < m.nextVersion
    && (seen.finalizer ==> Held(m, id))
    && (Current(m, id, seen) ==>
          m.cluster.store[id].finalizer == seen.finalizer && m.cluster.store[id].deleting == seen.deleting)
  }

  /** The operator has nothing left on the server for this resource, except what it gave up. */
  predicate NothingLeft(m: Machine, id: Id) {
    forall r :: r in m.cluster.server && r in m.creators && m.creators[r] == id ==> r in m.abandoned
  }

  predicate PhaseFits(bp: Store, m: Machine, id: Id, phase: Phase) {
    match phase
    case Fetched(seen) => SeenFits(m, id, seen)
    case Placed(seen, at) => SeenFits(m, id, seen) && Home(bp, id) == Some(at)
    case Unreachable(seen) => SeenFits(m, id, seen)
    case Writing(at) => Held(m, id) && Home(bp, id) == Some(at)
    case Purged(seen) => SeenFits(m, id, seen) && NothingLeft(m, id)
  }

  predicate WorkersFit(bp: Store, m: Machine) {
    forall id :: id in m.workers ==> PhaseFits(bp, m, id, m.workers[id])
  }

  predicate VersionsFit(m: Machine) {
    forall id :: id in m.cluster.store ==> id in m.versions && m.versions[id] < m.nextVersion
  }

  /** What was created for a resource was created in its one place. */
  predicate CreatedAtHome(bp: Store, m: Machine) {
    forall r :: r in m.creators ==> Home(bp, m.creators[r]) == Some(r)
  }

  predicate Inv(bp: Store, m: Machine) {
    && SameIdentities(m.cluster.store, bp)
    && VersionsFit(m)
    && WorkersFit(bp, m)
    && CreatedAtHome(bp, m)
    && NoOrphan(m)
  }

  /** Whatever mixture of moments the references were read at, they lead to the one place. */
  lemma ResolvesHome(bp: Store, view: Store, clients: set<Key>, id: Id)
    requires id in bp && !bp[id].identity.Connection? && SameIdentities(view, bp)
    requires Operator.Locate(view, clients, id.key, bp[id].identity, false).Located?
    ensures Home(bp, id) == Some(Operator.Locate(view, clients, id.key, bp[id].identity, false).at)
  {
    hide Operator.Locate;
    LocateNeedsFewClients(view, clients, clients * AllKeys(bp), id.key, bp[id].identity, bp);
    LocateInLargerStore(view, bp, clients * AllKeys(bp), AllKeys(bp), id.key, bp[id].identity);
  }

  /** Only keys of stored connections matter among the clients. */
  lemma LocateNeedsFewClients(view: Store, clients: set<Key>, fewer: set<Key>, key: Key, identity: Identity, bp: Store)
    requires !identity.Connection? && SameIdentities(view, bp) && fewer == clients * AllKeys(bp)
    ensures Operator.Locate(view, fewer, key, identity, false) == Operator.Locate(view, clients, key, identity, false)
  {
    hide NamespacePath.ResolvePath, BuildGrantBody;
    forall catKey, cat: Identity | cat.Catalog?
      ensures Reach(view, fewer, catKey, cat) == Reach(view, clients, catKey, cat)
    {
      CatalogNeedsFewClients(view, clients, fewer, catKey, cat, bp);
    }
    hide FindCatalog;
  }

  lemma CatalogNeedsFewClients(view: Store, clients: set<Key>, fewer: set<Key>, key: Key, cat: Identity, bp: Store)
    requires cat.Catalog? && SameIdentities(view, bp) && fewer == clients * AllKeys(bp)
    ensures Reach(view, fewer, key, cat) == Reach(view, clients, key, cat)
  {
  }

  // ---- One lemma per kind of step ----

  lemma StoringKeepsPhase(bp: Store, m: Machine, id: Id, o: Object, j: Id, phase: Phase)
    requires VersionsFit(m) && PhaseFits(bp, m, j, phase)
    requires Held(m, id) ==> o.finalizer
    ensures PhaseFits(bp, Stored(m, id, o), j, phase)
  {
    hide Home;
  }

  /** A write to one stored resource that keeps its identity and finalizer. */
  lemma StoringKeeps(bp: Store, m: Machine, id: Id, o: Object)
    requires Inv(bp, m)
    requires id in bp && o.identity == bp[id].identity
    requires Held(m, id) ==> o.finalizer
    ensures Inv(bp, Stored(m, id, o))
  {
    hide Home, PhaseFits;
    var d := Stored(m, id, o);
    forall j | j in d.workers
      ensures PhaseFits(bp, d, j, d.workers[j])
    {
      StoringKeepsPhase(bp, m, id, o, j, m.workers[j]);
    }
  }

  /** Taking a resource out of the store, once nothing depends on its being held. */
  lemma UnstoringKeeps(bp: Store, m: Machine, id: Id)
    requires Inv(bp, m)
    requires id in m.workers ==> !m.workers[id].Writing? && !m.workers[id].seen.finalizer
    requires NothingLeft(m, id)
    ensures Inv(bp, Unstored(m, id))
  {
    hide Home;
    var d := Unstored(m, id);
    forall j | j in d.workers
      ensures PhaseFits(bp, d, j, d.workers[j])
    {
      assert PhaseFits(bp, m, j, m.workers[j]);
    }
  }

  lemma IdlingKeeps(bp: Store, m: Machine, id: Id)
    requires Inv(bp, m)
    ensures Inv(bp, Idle(m, id))
  {
    hide Home;
    var d := Idle(m, id);
    forall j | j in d.workers
      ensures PhaseFits(bp, d, j, d.workers[j])
    {
      assert PhaseFits(bp, m, j, m.workers[j]);
    }
  }

  lemma MovingKeeps(bp: Store, m: Machine, id: Id, phase: Phase)
    requires Inv(bp, m) && PhaseFits(bp, m, id, phase)
    ensures Inv(bp, Now(m, id, phase))
  {
    hide Home;
    var d := Now(m, id, phase);
    forall j | j in d.workers
      ensures PhaseFits(bp, d, j, d.workers[j])
    {
      assert j != id ==> PhaseFits(bp, m, j, m.workers[j]);
    }
  }

  /** The server can only lose objects. */
  lemma ShrinkingKeeps(bp: Store, m: Machine, server: Server)
    requires Inv(bp, m)
    requires forall r :: r in server ==> r in m.cluster.server
    ensures Inv(bp, m.(cluster := m.cluster.(server := server)))
  {
    hide Home;
    var d := m.(cluster := m.cluster.(server := server));
    forall j | j in d.workers
      ensures PhaseFits(bp, d, j, d.workers[j])
    {
      assert PhaseFits(bp, m, j, m.workers[j]);
    }
  }

  lemma ApplyKeeps(bp: Store, m: Machine, id: Id, desired: Desired)
    requires Inv(bp, m)
    ensures Inv(bp, ApplyStep(bp, m, id, desired))
  {
    hide WorkersFit, CreatedAtHome, NoOrphan, VersionsFit;
    if id in m.cluster.store {
      var o := m.cluster.store[id];
      StoringKeeps(bp, m, id, o.(desired := desired, generation := o.generation + 1));
    } else if id in bp {
      StoringKeeps(bp, m, id, Object(bp[id].identity, desired, 1, false, false, NO_STATUS));
    }
  }

  lemma RemoveKeeps(bp: Store, m: Machine, id: Id)
    requires Inv(bp, m)
    ensures Inv(bp, RemoveStep(m, id))
  {
    if id in m.cluster.store {
      if m.cluster.store[id].finalizer {
        StoringKeeps(bp, m, id, m.cluster.store[id].(deleting := true));
      } else {
        if id in m.workers {
          assert PhaseFits(bp, m, id, m.workers[id]);
        }
        UnstoringKeeps(bp, m, id);
      }
    }
  }

  lemma FetchKeeps(bp: Store, m: Machine, id: Id)
    requires Inv(bp, m)
    ensures Inv(bp, FetchStep(m, id))
  {
    if FetchStep(m, id) != m {
      MovingKeeps(bp, m, id, FetchStep(m, id).workers[id]);
    }
  }

  lemma ResolveKeeps(bp: Store, m: Machine, id: Id, view: Store, clients: set<Key>)
    requires Inv(bp, m)
    ensures Inv(bp, ResolveSucceedsStep(bp, m, id, view, clients))
    ensures Inv(bp, ResolveFailsStep(bp, m, id))
  {
    hide Operator.Locate, Inv;
    if id in m.workers && m.workers[id].Fetched? && id in bp && !bp[id].identity.Connection? {
      assert PhaseFits(bp, m, id, m.workers[id]) by { WorkerFits(bp, m, id); }
      var seen := m.workers[id].seen;
      IdlingKeeps(bp, m, id);
      MovingKeeps(bp, m, id, Unreachable(seen));
      if SameIdentities(view, bp) && Operator.Locate(view, clients, id.key, bp[id].identity, false).Located? {
        ResolvesHome(bp, view, clients, id);
        MovingKeeps(bp, m, id, Placed(seen, Home(bp, id).value));
      }
    }
  }

  lemma WorkerFits(bp: Store, m: Machine, id: Id)
    requires Inv(bp, m) && id in m.workers
    ensures PhaseFits(bp, m, id, m.workers[id])
  {
  }

  lemma EnsureFinalizerKeeps(bp: Store, m: Machine, id: Id, accepted: bool)
    requires Inv(bp, m)
    ensures Inv(bp, EnsureFinalizerStep(m, id, accepted))
  {
    if id in m.workers && m.workers[id].Placed? && !m.workers[id].seen.deleting {
      WorkerFits(bp, m, id);
      hide Home;
      var seen := m.workers[id].seen;
      IdlingKeeps(bp, m, id);
      if seen.finalizer {
        MovingKeeps(bp, m, id, Writing(m.workers[id].at));
      } else if accepted && Current(m, id, seen) {
        var d := Stored(m, id, m.cluster.store[id].(finalizer := true));
        StoringKeeps(bp, m, id, m.cluster.store[id].(finalizer := true));
        IdlingKeeps(bp, d, id);
      }
    }
  }

  lemma CreateOrPutKeeps(bp: Store, m: Machine, id: Id, content: Content, first: Version, reply: Reply)
    requires Inv(bp, m)
    ensures Inv(bp, CreateOrPutStep(m, id, content, first, reply))
  {
    hide Home, CanHold, PhaseFits;
    if id in m.workers && m.workers[id].Writing? {
      WritingIsHeld(bp, m, id);
      var d := CreateOrPutStep(m, id, content, first, reply);
      forall j | j in d.workers
        ensures PhaseFits(bp, d, j, d.workers[j])
      {
        var r := m.workers[id].at;
        if d.cluster.server != m.cluster.server && r !in m.cluster.server {
          CreatingKeepsPhase(bp, m, id, r, content, first, j, m.workers[j]);
        } else {
          PuttingKeepsPhase(bp, m, d.cluster.server, j, m.workers[j]);
        }
      }
    }
  }

  lemma WritingIsHeld(bp: Store, m: Machine, id: Id)
    requires Inv(bp, m) && id in m.workers && m.workers[id].Writing?
    ensures Held(m, id) && Home(bp, id) == Some(m.workers[id].at)
  {
  }

  /** A new object of this resource does not disturb the others: theirs are elsewhere on record. */
  lemma CreatingKeepsPhase(
    bp: Store, m: Machine, id: Id, r: RemoteId, content: Content, first: Version, j: Id, phase: Phase)
    requires PhaseFits(bp, m, j, phase) && (j == id ==> phase.Writing?)
    ensures var server := Put(m.cluster.server, r, content, first);
            PhaseFits(bp, m.(cluster := m.cluster.(server := server), creators := m.creators[r := id],
                             abandoned := m.abandoned - {r}), j, phase)
  {
    hide Home;
  }

  lemma PuttingKeepsPhase(bp: Store, m: Machine, server: Server, j: Id, phase: Phase)
    requires PhaseFits(bp, m, j, phase) && server.Keys == m.cluster.server.Keys
    ensures PhaseFits(bp, m.(cluster := m.cluster.(server := server)), j, phase)
  {
    hide Home;
  }

  lemma ForeignKeepsPhase(bp: Store, m: Machine, r: RemoteId, content: Content, first: Version, j: Id, phase: Phase)
    requires PhaseFits(bp, m, j, phase)
    ensures var server := Put(m.cluster.server, r, content, first);
            PhaseFits(bp, m.(cluster := m.cluster.(server := server), creators := m.creators - {r}), j, phase)
  {
    hide Home;
  }

  lemma OutsiderPutsKeeps(bp: Store, m: Machine, at: RemoteId, content: Content, first: Version)
    requires Inv(bp, m)
    ensures Inv(bp, OutsiderPutsStep(m, at, content, first))
  {
    hide Home, CanHold, PhaseFits;
    var d := OutsiderPutsStep(m, at, content, first);
    forall j | j in d.workers
      ensures PhaseFits(bp, d, j, d.workers[j])
    {
      if at in m.cluster.server || !CanHold(m.cluster.server, at) {
        PuttingKeepsPhase(bp, m, d.cluster.server, j, m.workers[j]);
      } else {
        ForeignKeepsPhase(bp, m, at, content, first, j, m.workers[j]);
      }
    }
  }

  lemma DeleteShrinks(server: Server, at: RemoteId)
    ensures forall r :: r in Polaris.Delete(server, at) ==> r in server
    ensures DeleteAccepted(server, at) ==> at !in Polaris.Delete(server, at)
  {
  }

  lemma HomeIsGone(bp: Store, m: Machine, id: Id, at: RemoteId)
    requires CreatedAtHome(bp, m) && Home(bp, id) == Some(at) && at !in m.cluster.server
    ensures NothingLeft(m, id)
  {
  }

  lemma DeleteKeeps(bp: Store, m: Machine, id: Id, reply: Reply)
    requires Inv(bp, m)
    ensures Inv(bp, DeleteStep(m, id, reply))
  {
    if id in m.workers && m.workers[id].Placed? && m.workers[id].seen.deleting {
      WorkerFits(bp, m, id);
      hide Home, Polaris.Delete, DeleteAccepted;
      var at, seen := m.workers[id].at, m.workers[id].seen;
      var d := m.(cluster := m.cluster.(server := Polaris.Delete(m.cluster.server, at)));
      DeleteShrinks(m.cluster.server, at);
      ShrinkingKeeps(bp, m, d.cluster.server);
      IdlingKeeps(bp, m, id);
      IdlingKeeps(bp, d, id);
      if DeleteAccepted(m.cluster.server, at) {
        HomeIsGone(bp, d, id, at);
        assert PhaseFits(bp, d, id, Purged(seen)) by { assert PhaseFits(bp, d, id, Placed(seen, at)); }
        MovingKeeps(bp, d, id, Purged(seen));
      }
    }
  }

  lemma ReleaseKeeps(bp: Store, m: Machine, id: Id, accepted: bool)
    requires Inv(bp, m)
    ensures Inv(bp, ReleaseStep(m, id, accepted))
  {
    if id in m.workers && m.workers[id].Purged? {
      WorkerFits(bp, m, id);
      IdlingKeeps(bp, m, id);
      UnstoringKeeps(bp, Idle(m, id), id);
      assert Idle(Unstored(m, id), id) == Unstored(Idle(m, id), id);
    }
  }

  lemma AbandoningKeeps(bp: Store, m: Machine, rs: set<RemoteId>)
    requires Inv(bp, m)
    ensures Inv(bp, m.(abandoned := m.abandoned + rs))
  {
    hide Home;
    var d := m.(abandoned := m.abandoned + rs);
    forall j | j in d.workers
      ensures PhaseFits(bp, d, j, d.workers[j])
    {
      assert PhaseFits(bp, m, j, m.workers[j]);
    }
  }

  lemma DropKeeps(bp: Store, m: Machine, id: Id, accepted: bool)
    requires Inv(bp, m)
    ensures Inv(bp, DropStep(m, id, accepted))
  {
    hide Home;
    if id in m.workers && m.workers[id].Unreachable? {
      var mine := set r | r in m.creators && m.creators[r] == id;
      IdlingKeeps(bp, m, id);
      AbandoningKeeps(bp, Idle(m, id), mine);
      var d := Idle(m, id).(abandoned := m.abandoned + mine);
      UnstoringKeeps(bp, d, id);
      assert Idle(Unstored(m, id), id).(abandoned := m.abandoned + mine) == Unstored(d, id);
    }
  }

  lemma StepKeepsInv(bp: Store, m: Machine, a: Action)
    requires Inv(bp, m)
    ensures Inv(bp, Step(bp, m, a))
  {
    hide Inv, ApplyStep, RemoveStep, FetchStep, ResolveSucceedsStep, ResolveFailsStep, EnsureFinalizerStep,
      CreateOrPutStep, DeleteStep, ReleaseStep, DropStep, OutsiderPutsStep, Polaris.Delete;
    match a
    case Apply(id, desired) => ApplyKeeps(bp, m, id, desired);
    case Remove(id) => RemoveKeeps(bp, m, id);
    case SecretsBecome(secrets) => SecretsKeep(bp, m, secrets);
    case OutsiderPuts(at, content, first) => OutsiderPutsKeeps(bp, m, at, content, first);
    case OutsiderDeletes(at) =>
      DeleteShrinks(m.cluster.server, at);
      ShrinkingKeeps(bp, m, Polaris.Delete(m.cluster.server, at));
    case Fetch(id) => FetchKeeps(bp, m, id);
    case ResolveSucceeds(id, view, clients) => ResolveKeeps(bp, m, id, view, clients);
    case ResolveFails(id) => ResolveKeeps(bp, m, id, map[], {});
    case EnsureFinalizer(id, accepted) => EnsureFinalizerKeeps(bp, m, id, accepted);
    case CreateOrPut(id, content, first, reply) => CreateOrPutKeeps(bp, m, id, content, first, reply);
    case Delete(id, reply) => DeleteKeeps(bp, m, id, reply);
    case Release(id, accepted) => ReleaseKeeps(bp, m, id, accepted);
    case Drop(id, accepted) => DropKeeps(bp, m, id, accepted);
    case WriteStatus(id, status) => StatusKeeps(bp, m, id, status);
    case Stop(id) => IdlingKeeps(bp, m, id);
  }

  lemma SecretsKeep(bp: Store, m: Machine, secrets: set<Key>)
    requires Inv(bp, m)
    ensures Inv(bp, m.(cluster := m.cluster.(secrets := secrets)))
  {
    hide Home;
    var d := m.(cluster := m.cluster.(secrets := secrets));
    forall j | j in d.workers
      ensures PhaseFits(bp, d, j, d.workers[j])
    {
      assert PhaseFits(bp, m, j, m.workers[j]);
    }
  }

  lemma StatusKeeps(bp: Store, m: Machine, id: Id, status: Status)
    requires Inv(bp, m)
    ensures Inv(bp, WriteStatusStep(m, id, status))
  {
    if id in m.workers && id in m.cluster.store {
      StoringKeeps(bp, m, id, m.cluster.store[id].(status := status));
    }
  }

  lemma {:induction false} RunKeepsInv(bp: Store, m: Machine, actions: seq<Action>)
    requires Inv(bp, m)
    ensures Inv(bp, Run(bp, m, actions))
    decreases |actions|
  {
    hide Inv, Step;
    if actions != [] {
      StepKeepsInv(bp, m, actions[0]);
      RunKeepsInv(bp, Step(bp, m, actions[0]), actions[1..]);
    }
  }

  /** In every reachable state an object the operator created has its resource held, or was given up. */
  lemma NeverOrphaned(bp: Store, server: Server, secrets: set<Key>, actions: seq<Action>)
    ensures NoOrphan(Run(bp, Start(server, secrets), actions))
  {
    RunKeepsInv(bp, Start(server, secrets), actions);
  }

  // ---- What is given up, and by whom ----

  /** Nothing this resource had created, and is still on record for, was given up. */
  predicate NotGivenUp(m: Machine, id: Id) {
    forall r :: r in m.creators && m.creators[r] == id ==> r !in m.abandoned
  }

  lemma StepGivesUpNothing(bp: Store, m: Machine, a: Action, id: Id)
    requires NotGivenUp(m, id) && !(a.Drop? && a.id == id)
    ensures NotGivenUp(Step(bp, m, a), id)
  {
    hide Operator.Locate, Polaris.Delete, DeleteAccepted, CanHold;
  }

  /** A resource's remote objects are given up by its own unreachable branch and by nothing else. */
  lemma {:induction false} OnlyItsOwnDropAbandons(bp: Store, m: Machine, actions: seq<Action>, id: Id)
    requires NotGivenUp(m, id) && forall a :: a in actions ==> !(a.Drop? && a.id == id)
    ensures NotGivenUp(Run(bp, m, actions), id)
    decreases |actions|
  {
    hide Step, NotGivenUp;
    if actions != [] {
      assert actions[0] in actions;
      StepGivesUpNothing(bp, m, actions[0], id);
      OnlyItsOwnDropAbandons(bp, Step(bp, m, actions[0]), actions[1..], id);
    }
  }

  /**
   A resource that never takes the unreachable branch has no orphan at all, whatever is deleted, lost or refused
   when, and whichever other resources do take it.
   */
  lemma NeverOrphanedWhileReachable(bp: Store, server: Server, secrets: set<Key>, actions: seq<Action>, id: Id)
    requires forall a :: a in actions ==> !(a.Drop? && a.id == id)
    ensures var m := Run(bp, Start(server, secrets), actions);
            forall r :: r in m.cluster.server && r in m.creators && m.creators[r] == id ==> Held(m, id)
  {
    hide Run;
    NeverOrphaned(bp, server, secrets, actions);
    OnlyItsOwnDropAbandons(bp, Start(server, secrets), actions, id);
  }
}
