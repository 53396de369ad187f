/**
 Status over whole runs: reconciles with any failures, spec edits, deletions, applies, and whatever else
 happens to the two stores.
 */
module StatusRuns {
  import opened Wrappers
  import opened Conditions
  import opened Kubernetes
  import opened Polaris
  import opened Operator

  datatype Event =
    | Pass(id: Id, f: Faults)
    | Edit(id: Id, desired: Desired)
    | Delete(id: Id)
    | Create(id: Id, identity: Identity, desired: Desired)
    | Outside(server: Server, secrets: set<Key>)

  function Step(c: Cluster, e: Event): Cluster {
    match e
    case Pass(id, f) => Reconcile(c, id, f)
    case Edit(id, desired) =>
      if id in c.store
      then c.(store := c.store[id := c.store[id].(desired := desired, generation := c.store[id].generation + 1)])
      else c
    case Delete(id) =>
      if id !in c.store then c
      else if c.store[id].finalizer then c.(store := c.store[id := c.store[id].(deleting := true)])
      else c.(store := c.store - {id})
    case Create(id, identity, desired) =>
      if id in c.store then c
      else c.(store := c.store[id := Object(identity, desired, 1, false, false, NO_STATUS)])
    case Outside(server, secrets) => Cluster(c.store, server, secrets)
  }

  function Run(c: Cluster, events: seq<Event>): Cluster
    decreases |events|
  {
    if events == [] then c else Run(Step(c, events[0]), events[1..])
  }

  predicate AllCoherent(store: Store) {
    forall id :: id in store && !store[id].identity.Connection? ==> Coherent(store[id].status, store[id].generation)
  }

  lemma ConvergeIsCoherent(server: Server, o: Object, at: RemoteId, f: Faults)
    requires !o.identity.Connection? && Coherent(o.status, o.generation)
    ensures Coherent(Converge(server, o, at, f).status, o.generation)
  {
    hide Coherent, Failed, Succeeded, Waiting, CanHold, Render, Drifted, MissingParent, Carried, Raced;
    WritesKeepCoherence(o.status, o.generation, PolarisError, f.detail, MissingParent(o.identity, at));
    WritesKeepCoherence(o.status, o.generation, SyncFailed, f.detail, "");
  }

  lemma PassKeepsCoherence(c: Cluster, id: Id, f: Faults)
    requires AllCoherent(c.store)
    ensures AllCoherent(Reconcile(c, id, f).store)
  {
    hide Coherent, Converge, Locate, Failed, Waiting, Polaris.Delete, DeleteAccepted, Set;
    if id in c.store && !c.store[id].identity.Connection? {
      var o := c.store[id];
      match Locate(c.store, c.secrets, id.key, o.identity, !o.deleting)
      case Unresolved(reason) => WritesKeepCoherence(o.status, o.generation, reason, f.detail, "");
      case Gated(dep) => WritesKeepCoherence(o.status, o.generation, SyncFailed, "", dep);
      case Located(at) => ConvergeIsCoherent(c.server, o, at, f);
    }
  }

  lemma EditKeepsCoherence(st: Status, gen: nat)
    requires Coherent(st, gen)
    ensures Coherent(st, gen + 1)
  {
  }

  lemma StepKeepsCoherence(c: Cluster, e: Event)
    requires AllCoherent(c.store)
    ensures AllCoherent(Step(c, e).store)
  {
    hide Coherent, Reconcile;
    match e
    case Pass(id, f) => PassKeepsCoherence(c, id, f);
    case Edit(id, _) =>
      if id in c.store && !c.store[id].identity.Connection? {
        EditKeepsCoherence(c.store[id].status, c.store[id].generation);
      }
    case Create(_, _, _) => assert Coherent(NO_STATUS, 1) by { EmptyIsCoherent(); }
    case _ =>
  }

  lemma EmptyIsCoherent()
    ensures Coherent(NO_STATUS, 1)
  {
  }

  /**
   Status is coherent in every reachable state: one condition per type, nothing observed ahead of the spec,
   and Ready only together with Synced at the observed generation.
   */
  lemma {:induction false} StatusIsAlwaysCoherent(c: Cluster, events: seq<Event>)
    requires AllCoherent(c.store)
    ensures AllCoherent(Run(c, events).store)
    decreases |events|
  {
    hide AllCoherent, Step;
    if events != [] {
      StepKeepsCoherence(c, events[0]);
      StatusIsAlwaysCoherent(Step(c, events[0]), events[1..]);
    }
  }

  /** In particular from a cluster with nothing in it. */
  lemma StatusIsCoherentFromScratch(server: Server, secrets: set<Key>, events: seq<Event>, id: Id)
    requires id in Run(Cluster(map[], server, secrets), events).store
    ensures var o := Run(Cluster(map[], server, secrets), events).store[id];
            !o.identity.Connection? && IsReady(o) ==>
              && IsTrue(o.status.conditions, Synced)
              && o.status.observedGeneration <= o.generation
              && Find(o.status.conditions, Ready).value.generation == o.status.observedGeneration
  {
    hide Run;
    StatusIsAlwaysCoherent(Cluster(map[], server, secrets), events);
  }
}
