/**
 A whole pass, with any failures and with other clients' writes in the middle of it, is one of the
 interleavings: the function the convergence results are about and the step relation the safety results are
 about describe the same operator.
 */
module PassSteps {
  import opened Wrappers
  import opened Conditions
  import opened EntityVersions
  import opened Kubernetes
  import opened Polaris
  import opened Operator
  import opened Interleavings

  lemma {:induction false} RunAppend(bp: Store, m: Machine, first: seq<Action>, second: seq<Action>)
    ensures Run(bp, m, first + second) == Run(bp, Run(bp, m, first), second)
    decreases |first|
  {
    hide Step;
    if first == [] {
      assert [] + second == second;
    } else {
      assert (first + second)[1..] == first[1..] + second;
      RunAppend(bp, Step(bp, m, first[0]), first[1..], second);
    }
  }

  lemma RunOne(bp: Store, m: Machine, a: Action)
    ensures Run(bp, m, [a]) == Step(bp, m, a)
  {
    hide Step;
    assert [a][1..] == [];
  }

  lemma RunThen(bp: Store, m: Machine, actions: seq<Action>, a: Action)
    ensures Run(bp, m, actions + [a]) == Step(bp, Run(bp, m, actions), a)
  {
    RunAppend(bp, m, actions, [a]);
    RunOne(bp, Run(bp, m, actions), a);
  }

  /** No worker is on this resource, and its version is on record. */
  predicate Idling(bp: Store, m: Machine, id: Id) {
    && id !in m.workers && id in m.cluster.store && id in m.versions
    && id in bp && bp[id].identity == m.cluster.store[id].identity && !bp[id].identity.Connection?
    && SameIdentities(m.cluster.store, bp)
  }

  function SeenNow(m: Machine, id: Id): Seen
    requires id in m.cluster.store && id in m.versions
  {
    Seen(m.versions[id], m.cluster.store[id].finalizer, m.cluster.store[id].deleting)
  }

  /** Fetch, and the references resolve. */
  lemma ReachPlaced(bp: Store, m: Machine, id: Id, at: RemoteId) returns (actions: seq<Action>)
    requires Idling(bp, m, id)
    requires Operator.Locate(m.cluster.store, m.cluster.secrets, id.key, bp[id].identity, false) == Located(at)
    ensures Run(bp, m, actions) == Now(m, id, Placed(SeenNow(m, id), at))
  {
    hide Operator.Locate, Run;
    actions := [Fetch(id)];
    RunOne(bp, m, Fetch(id));
    var resolve := ResolveSucceeds(id, m.cluster.store, m.cluster.secrets);
    RunThen(bp, m, actions, resolve);
    actions := actions + [resolve];
    assert Now(Now(m, id, Fetched(SeenNow(m, id))), id, Placed(SeenNow(m, id), at))
        == Now(m, id, Placed(SeenNow(m, id), at));
  }

  /** Write the status, or fail to, and stop. */
  lemma FinishWithStatus(bp: Store, m: Machine, id: Id, status: Status, written: bool) returns (actions: seq<Action>)
    requires id in m.workers && id in m.cluster.store
    ensures var d := Run(bp, m, actions);
            && id !in d.workers
            && d.cluster == (if written
                 then m.cluster.(store := m.cluster.store[id := m.cluster.store[id].(status := status)])
                             else m.cluster)
  {
    hide Run;
    if written {
      actions := [WriteStatus(id, status)];
      RunOne(bp, m, WriteStatus(id, status));
      RunThen(bp, m, actions, Stop(id));
      actions := actions + [Stop(id)];
    } else {
      actions := [Stop(id)];
      RunOne(bp, m, Stop(id));
    }
  }

  /** The server writes of a converging pass: those of other clients, then perhaps the operator's. */
  predicate ServerWrites(
    before: Server, after: Server, at: RemoteId, writes: seq<Write<Content>>, own: Option<Content>, first: Version)
  {
    var mid := Outsiders(before, at, writes);
    after == if own.Some? && (at in mid || CanHold(mid, at)) then Put(mid, at, own.value, first) else mid
  }

  lemma CreateWrites(server: Server, o: Object, at: RemoteId, f: Faults)
    returns (writes: seq<Write<Content>>, own: Option<Content>)
    requires !o.identity.Connection? && at !in server
    ensures ServerWrites(server, Create(server, o, at, f).server, at, writes, own, f.first)
  {
    hide CanHold, Render, Failed, Succeeded, Waiting, MissingParent;
    var content := Render(o.desired);
    if content.None? {
      writes, own := [], None;
    } else {
      writes := f.between;
      own := if f.write == Refused || at in Raced(server, at, f) then None else content;
    }
  }

  lemma UpdateWrites(server: Server, o: Object, at: RemoteId, f: Faults)
    returns (writes: seq<Write<Content>>, own: Option<Content>)
    requires at in server
    ensures ServerWrites(server, Update(server, o, at, f).server, at, writes, own, f.first)
  {
    hide CanHold, Render, Failed, Succeeded, Patched, SentVersion, Outsiders;
    var content := Render(o.desired);
    if content.None? {
      writes, own := [], None;
      assert Outsiders(server, at, []) == server by { NoOutsiders(server, at); }
    } else {
      writes := f.between;
      var mid := Raced(server, at, f);
      if f.write == Refused || Carried(mid, o, at, content.value, server[at], f).None? {
        own := None;
      } else {
        own := if o.identity.Namespace? then Some(Patched(o.desired, server[at].value, mid[at].value)) else content;
      }
    }
  }

  lemma NoOutsiders(server: Server, at: RemoteId)
    ensures Outsiders(server, at, []) == server
  {
  }

  lemma GrantWrites(server: Server, o: Object, at: RemoteId, f: Faults)
    returns (writes: seq<Write<Content>>, own: Option<Content>)
    requires !o.identity.Connection?
    ensures ServerWrites(server, AddGrant(server, o, at, f).server, at, writes, own, f.first)
  {
    hide CanHold, Failed, Succeeded, Waiting, MissingParent;
    writes := f.between;
    own := if f.write == Refused || at in Raced(server, at, f) then None else Some(Bare);
  }

  lemma ConvergeWrites(server: Server, o: Object, at: RemoteId, f: Faults)
    returns (writes: seq<Write<Content>>, own: Option<Content>)
    requires !o.identity.Connection?
    ensures ServerWrites(server, Converge(server, o, at, f).server, at, writes, own, f.first)
  {
    hide CanHold, Create, Update, AddGrant, Drifted, Failed, Succeeded, Waiting, MissingParent;
    writes, own := [], None;
    if o.identity.Grant? {
      writes, own := GrantWrites(server, o, at, f);
    } else if f.read {
      if at !in server {
        writes, own := CreateWrites(server, o, at, f);
      } else if !o.identity.Table? && Drifted(o.desired, server[at].value) {
        writes, own := UpdateWrites(server, o, at, f);
      }
    }
  }

  function OutsiderAction(at: RemoteId, w: Write<Content>, there: bool): Option<Action> {
    match w
    case Overwrite(content) => if there then Some(OutsiderPuts(at, content, 1)) else None
    case Remove => Some(OutsiderDeletes(at))
    case Recreate(content, version) => if there then None else Some(OutsiderPuts(at, content, version))
  }

  /** What other clients do to one object is a run of their steps. */
  lemma {:induction false} OutsidersRun(bp: Store, m: Machine, at: RemoteId, writes: seq<Write<Content>>)
    returns (actions: seq<Action>)
    ensures var d := Run(bp, m, actions);
            d.cluster == m.cluster.(server := Outsiders(m.cluster.server, at, writes)) && d.workers == m.workers
    decreases |writes|
  {
    hide CanHold, Run, Polaris.Delete;
    actions := [];
    RunNone(bp, m);
    if writes != [] {
      var action := OutsiderAction(at, writes[0], at in m.cluster.server);
      var d := if action.Some? then Step(bp, m, action.value) else m;
      assert d.cluster.server == Outsider(m.cluster.server, at, writes[0]);
      var rest := OutsidersRun(bp, d, at, writes[1..]);
      actions := rest;
      if action.Some? {
        RunOne(bp, m, action.value);
        RunAppend(bp, m, [action.value], rest);
        actions := [action.value] + rest;
      }
    }
  }

  lemma WritesRun(
    bp: Store, m: Machine, id: Id, at: RemoteId,
    writes: seq<Write<Content>>, own: Option<Content>, first: Version, after: Server)
    returns (actions: seq<Action>)
    requires id in m.workers && m.workers[id] == Writing(at)
    requires ServerWrites(m.cluster.server, after, at, writes, own, first)
    ensures var d := Run(bp, m, actions);
            d.cluster == m.cluster.(server := after) && d.workers == m.workers
  {
    hide CanHold, Run, Outsiders;
    actions := OutsidersRun(bp, m, at, writes);
    if own.Some? {
      RunThen(bp, m, actions, CreateOrPut(id, own.value, first, Answered));
      actions := actions + [CreateOrPut(id, own.value, first, Answered)];
    }
  }

  lemma RunNone(bp: Store, m: Machine)
    ensures Run(bp, m, []) == m
  {
  }

  // ---- The branches of a pass ----

  lemma UnresolvedSteps(bp: Store, m: Machine, id: Id, f: Faults, reason: Reason) returns (actions: seq<Action>)
    requires Idling(bp, m, id)
    requires var o := m.cluster.store[id];
             && Operator.Locate(m.cluster.store, m.cluster.secrets, id.key, o.identity, !o.deleting)
                  == Unresolved(reason)
             && !Operator.Locate(m.cluster.store, m.cluster.secrets, id.key, o.identity, false).Located?
    ensures var d := Run(bp, m, actions);
            id !in d.workers && d.cluster == Reconcile(m.cluster, id, f)
  {
    hide Operator.Locate, Run, Failed;
    var o := m.cluster.store[id];
    var mid := Now(m, id, Fetched(SeenNow(m, id)));
    RunOne(bp, m, Fetch(id));
    if o.deleting {
      RunThen(bp, m, [Fetch(id)], ResolveFails(id));
      RunThen(bp, m, [Fetch(id)] + [ResolveFails(id)], Drop(id, f.metaWrite));
      actions := [Fetch(id)] + [ResolveFails(id)] + [Drop(id, f.metaWrite)];
    } else {
      var rest := FinishWithStatus(bp, mid, id, Failed(o.status, o.generation, reason, f.detail), f.statusWrite);
      RunAppend(bp, m, [Fetch(id)], rest);
      actions := [Fetch(id)] + rest;
    }
  }

  lemma GatedSteps(bp: Store, m: Machine, id: Id, f: Faults, dep: string) returns (actions: seq<Action>)
    requires Idling(bp, m, id)
    requires Operator.Locate(m.cluster.store, m.cluster.secrets, id.key, bp[id].identity,
            !m.cluster.store[id].deleting) == Gated(dep)
    ensures var d := Run(bp, m, actions);
            id !in d.workers && d.cluster == Reconcile(m.cluster, id, f)
  {
    hide Operator.Locate, Run, Waiting;
    var o := m.cluster.store[id];
    RunOne(bp, m, Fetch(id));
    var rest := FinishWithStatus(bp, Now(m, id, Fetched(SeenNow(m, id))), id, Waiting(o.status, o.generation, dep),
        f.statusWrite);
    RunAppend(bp, m, [Fetch(id)], rest);
    actions := [Fetch(id)] + rest;
  }

  lemma LocatedPass(c: Cluster, id: Id, f: Faults, at: RemoteId)
    requires id in c.store && !c.store[id].identity.Connection?
    requires Operator.Locate(c.store, c.secrets, id.key, c.store[id].identity, !c.store[id].deleting) == Located(at)
    ensures c.store[id].deleting ==> Reconcile(c, id, f) == Finalize(c, id, at, f)
    ensures !c.store[id].deleting && !c.store[id].finalizer ==> Reconcile(c, id, f) == Operator.AddFinalizer(c, id, f)
  {
    hide Operator.Locate, Converge, Finalize;
  }

  /** The delete request and, once it is answered, the removal of the finalizer. */
  lemma PurgeSteps(bp: Store, m: Machine, id: Id, f: Faults, at: RemoteId, seen: Seen) returns (actions: seq<Action>)
    requires id in m.workers && m.workers[id] == Placed(seen, at)
    requires id in m.cluster.store && id in m.versions && seen == SeenNow(m, id) && seen.deleting
    ensures var d := Run(bp, m, actions);
            id !in d.workers && d.cluster == Finalize(m.cluster, id, at, f)
  {
    hide Run, Polaris.Delete, DeleteAccepted;
    var purge := Interleavings.Delete(id, f.purge);
    RunOne(bp, m, purge);
    actions := [purge];
    if f.purge == Answered && DeleteAccepted(m.cluster.server, at) {
      RunThen(bp, m, actions, Release(id, f.metaWrite));
      actions := actions + [Release(id, f.metaWrite)];
    }
  }

  lemma FinalizeSteps(bp: Store, m: Machine, id: Id, f: Faults, at: RemoteId) returns (actions: seq<Action>)
    requires Idling(bp, m, id) && m.cluster.store[id].deleting
    requires Operator.Locate(m.cluster.store, m.cluster.secrets, id.key, bp[id].identity, false) == Located(at)
    ensures var d := Run(bp, m, actions);
            id !in d.workers && d.cluster == Reconcile(m.cluster, id, f)
  {
    hide Operator.Locate, Run, Reconcile, Finalize;
    var head := ReachPlaced(bp, m, id, at);
    LocatedPass(m.cluster, id, f, at);
    var rest := PurgeSteps(bp, Now(m, id, Placed(SeenNow(m, id), at)), id, f, at, SeenNow(m, id));
    RunAppend(bp, m, head, rest);
    actions := head + rest;
  }

  lemma FinalizerSteps(bp: Store, m: Machine, id: Id, f: Faults, at: RemoteId) returns (actions: seq<Action>)
    requires Idling(bp, m, id) && !m.cluster.store[id].deleting && !m.cluster.store[id].finalizer
    requires Operator.Locate(m.cluster.store, m.cluster.secrets, id.key, bp[id].identity, true) == Located(at)
    requires Operator.Locate(m.cluster.store, m.cluster.secrets, id.key, bp[id].identity, false) == Located(at)
    ensures var d := Run(bp, m, actions);
            id !in d.workers && d.cluster == Reconcile(m.cluster, id, f)
  {
    hide Operator.Locate, Run, Reconcile;
    var head := ReachPlaced(bp, m, id, at);
    LocatedPass(m.cluster, id, f, at);
    RunThen(bp, m, head, EnsureFinalizer(id, f.metaWrite));
    actions := head + [EnsureFinalizer(id, f.metaWrite)];
    var placed := Now(m, id, Placed(SeenNow(m, id), at));
    assert Current(placed, id, SeenNow(m, id));
  }

  lemma ConvergeSteps(bp: Store, m: Machine, id: Id, f: Faults, at: RemoteId) returns (actions: seq<Action>)
    requires Idling(bp, m, id) && !m.cluster.store[id].deleting && m.cluster.store[id].finalizer
    requires Operator.Locate(m.cluster.store, m.cluster.secrets, id.key, bp[id].identity, true) == Located(at)
    requires Operator.Locate(m.cluster.store, m.cluster.secrets, id.key, bp[id].identity, false) == Located(at)
    ensures var d := Run(bp, m, actions);
            id !in d.workers && d.cluster == Reconcile(m.cluster, id, f)
  {
    hide Operator.Locate, Run, Converge;
    var o := m.cluster.store[id];
    var e := Converge(m.cluster.server, o, at, f);
    var head := ReachPlaced(bp, m, id, at);
    RunThen(bp, m, head, EnsureFinalizer(id, true));
    head := head + [EnsureFinalizer(id, true)];
    var mid := Run(bp, m, head);
    var theirs, own := ConvergeWrites(m.cluster.server, o, at, f);
    hide ServerWrites;
    var writes := WritesRun(bp, mid, id, at, theirs, own, f.first, e.server);
    RunAppend(bp, m, head, writes);
    var last := Run(bp, mid, writes);
    var rest := FinishWithStatus(bp, last, id, e.status, f.statusWrite);
    RunAppend(bp, m, head + writes, rest);
    actions := head + writes + rest;
  }

  lemma UngatedWhenLocated(c: Cluster, id: Id)
    requires id in c.store && !c.store[id].identity.Connection?
    ensures var o := c.store[id];
            var gated, plain := Operator.Locate(c.store, c.secrets, id.key, o.identity, true),
                                Operator.Locate(c.store, c.secrets, id.key, o.identity, false);
            && (gated.Located? ==> plain == gated)
            && (gated.Unresolved? ==> !plain.Located?)
            && !plain.Gated?
  {
  }

  /** Every pass of the reconcile function, with any faults, is a run of single steps that ends with no worker left. */
  lemma PassIsARun(bp: Store, m: Machine, id: Id, f: Faults) returns (actions: seq<Action>)
    requires Idling(bp, m, id)
    ensures var d := Run(bp, m, actions);
            id !in d.workers && d.cluster == Reconcile(m.cluster, id, f)
  {
    hide Operator.Locate, Run, Reconcile;
    var o := m.cluster.store[id];
    UngatedWhenLocated(m.cluster, id);
    match Operator.Locate(m.cluster.store, m.cluster.secrets, id.key, o.identity, !o.deleting)
    case Unresolved(reason) => actions := UnresolvedSteps(bp, m, id, f, reason);
    case Gated(dep) => actions := GatedSteps(bp, m, id, f, dep);
    case Located(at) =>
      if o.deleting {
        actions := FinalizeSteps(bp, m, id, f, at);
      } else if !o.finalizer {
        actions := FinalizerSteps(bp, m, id, f, at);
      } else {
        actions := ConvergeSteps(bp, m, id, f, at);
      }
  }

  /** So a pass keeps the no-orphan invariant, with anything else in progress around it. */
  lemma PassKeepsNoOrphan(bp: Store, m: Machine, id: Id, f: Faults) returns (after: Machine)
    requires Inv(bp, m) && Idling(bp, m, id)
    ensures Inv(bp, after) && NoOrphan(after) && after.cluster == Reconcile(m.cluster, id, f)
  {
    hide Run, Reconcile, WorkersFit, CreatedAtHome, VersionsFit;
    var actions := PassIsARun(bp, m, id, f);
    after := Run(bp, m, actions);
    RunKeepsInv(bp, m, actions);
  }
}
