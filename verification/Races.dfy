/**
 What a pass does, and what its success is worth, when other clients write between the operator's get and its own
 request: overwrite, delete or recreate the object, any number of times. Catalog and role updates carry the version
 that was read; namespace patches and creates are not protected.
 */
module Races {
  import opened Wrappers
  import opened Conditions
  import opened EntityVersions
  import opened Kubernetes
  import opened Polaris
  import opened Operator
  import opened ColdStart
  import Catalogs
  import Properties

  predicate Reports(e: Effect, o: Object) {
    e.status == Succeeded(o.status, o.generation)
  }

  lemma FailedIsNotSucceeded(st: Status, gen: nat, reason: Reason, message: string)
    ensures Failed(st, gen, reason, message) != Succeeded(st, gen)
  {
    SucceededReadsBack(st, gen);
    SetIsAnUpdate(st.conditions, NotReady(gen, reason, message), Ready);
  }

  lemma WaitingIsNotSucceeded(st: Status, gen: nat, dep: string)
    ensures Waiting(st, gen, dep) != Succeeded(st, gen)
  {
    SucceededReadsBack(st, gen);
    SetIsAnUpdate(st.conditions, NotReady(gen, DependencyNotReady, WaitMessage(dep)), Ready);
  }

  /** With nobody in between, a pass that reports success has left the remote object as the spec asks. */
  lemma QuietSuccessIsTrue(server: Server, o: Object, at: RemoteId, f: Faults)
    requires !o.identity.Connection? && Writable(o) && f.between == []
    requires at in server && o.identity.Namespace? ==> server[at].value.Bag?
    requires Reports(Converge(server, o, at, f), o)
    ensures var after := Converge(server, o, at, f).server;
            at in after && RemoteMatches(o, after[at].value)
  {
    hide CanHold, Render, Patched, Succeeded, Failed, Waiting, MissingParent, Compare, SentVersion;
    WrittenMatches(o);
    if at in server && o.identity.Namespace? {
      UpdatedMatches(o, server[at].value);
    }
    FailedIsNotSucceeded(o.status, o.generation, PolarisError, f.detail);
    FailedIsNotSucceeded(o.status, o.generation, SyncFailed, f.detail);
    WaitingIsNotSucceeded(o.status, o.generation, MissingParent(o.identity, at));
  }

  // ---- Catalogs and roles: compare and set ----

  /** A pass that read the object, found drift, and can render the request. */
  predicate Updates(server: Server, o: Object, at: RemoteId, f: Faults) {
    at in server && f.read && Drifted(o.desired, server[at].value) && Render(o.desired).Some?
  }

  predicate Versioned(o: Object) {
    o.identity.Catalog? || o.identity.CatalogRole?
  }

  /** What was read is still what the server has a version of. */
  predicate SameVersion(server: Server, at: RemoteId, f: Faults)
    requires at in server
  {
    var now := Raced(server, at, f);
    at in now && now[at].version == server[at].version
  }

  predicate SaysNotReady(e: Effect, o: Object, f: Faults) {
    Find(e.status.conditions, Ready) == Some(NotReady(o.generation, SyncFailed, f.detail))
  }

  lemma FailSaysNotReady(server: Server, o: Object, f: Faults)
    ensures SaysNotReady(Fail(server, o, SyncFailed, f), o, f) && !Reports(Fail(server, o, SyncFailed, f), o)
  {
    SetIsAnUpdate(o.status.conditions, NotReady(o.generation, SyncFailed, f.detail), Ready);
    FailedIsNotSucceeded(o.status, o.generation, SyncFailed, f.detail);
  }

  /**
   The update goes through if and only if the stored version is the one the get returned. Otherwise, and when the
   request is refused, the other clients' state stands untouched. Success is reported only of what went through.
   */
  lemma UpdateIsCompareAndSet(server: Server, o: Object, at: RemoteId, f: Faults)
    requires Versioned(o) && Updates(server, o, at, f) && f.reported
    ensures var e, now := Converge(server, o, at, f), Raced(server, at, f);
            && e.server == (if SameVersion(server, at, f) && f.write != Refused
                            then now[at := Entity(Render(o.desired).value, server[at].version + 1)] else now)
            && (Reports(e, o) <==> SameVersion(server, at, f) && f.write == Answered)
            && (!Reports(e, o) ==> SaysNotReady(e, o, f))
  {
    hide Drifted, Render, Failed, Succeeded, Raced, SaysNotReady;
    FailSaysNotReady(Converge(server, o, at, f).server, o, f);
  }

  /**
   No lost update. On a server that never gives a version twice the update goes through if and only if no other
   client changed the object since the get, and then it replaces exactly the entity it was computed from.
   */
  lemma UpdateReplacesWhatWasRead(server: Server, o: Object, at: RemoteId, f: Faults)
    requires Versioned(o) && Updates(server, o, at, f) && f.reported
    requires VersionsRise(Some(server[at]), server[at].version, Admitted(server, at, f.between))
    ensures SameVersion(server, at, f) <==> !AnyEffective(Some(server[at]), Admitted(server, at, f.between))
    ensures SameVersion(server, at, f) ==> Lookup(Raced(server, at, f), at) == Some(server[at])
  {
    hide Drifted, Render;
    OutsidersOnEntity(server, at, f.between);
    NoLostUpdate(server[at], Admitted(server, at, f.between));
  }

  /** A change by somebody else survives the pass, whatever becomes of the request, and is reported as a failure. */
  lemma VersionedUpdateYields(server: Server, o: Object, at: RemoteId, f: Faults)
    requires Versioned(o) && Updates(server, o, at, f) && f.reported
    requires VersionsRise(Some(server[at]), server[at].version, Admitted(server, at, f.between))
    requires AnyEffective(Some(server[at]), Admitted(server, at, f.between))
    ensures var e := Converge(server, o, at, f);
            && e.server == Raced(server, at, f)
            && Lookup(e.server, at) == OutsideAll(Some(server[at]), Admitted(server, at, f.between))
            && SaysNotReady(e, o, f)
  {
    hide Converge, SaysNotReady, Raced, Reports, Drifted, Render;
    UpdateIsCompareAndSet(server, o, at, f);
    UpdateReplacesWhatWasRead(server, o, at, f);
    OutsidersOnEntity(server, at, f.between);
    assert Outsiders(server, at, f.between) == Raced(server, at, f) by { RacedIsOutsiders(server, at, f); }
  }

  lemma RacedIsOutsiders(server: Server, at: RemoteId, f: Faults)
    ensures Raced(server, at, f) == Outsiders(server, at, f.between)
  {
  }

  /** A catalog whose get reports no version is updated whatever was written since the get, if it is still there. */
  lemma UnversionedCatalogOverwrites(server: Server, o: Object, at: RemoteId, f: Faults)
    requires o.identity.Catalog? && Updates(server, o, at, f) && !f.reported && f.write == Answered
    ensures var e, now := Converge(server, o, at, f), Raced(server, at, f);
            && (Reports(e, o) <==> at in now)
            && (at in now ==> e.server == now[at := Entity(Render(o.desired).value, now[at].version + 1)])
            && (at !in now ==> e.server == now && SaysNotReady(e, o, f))
  {
    hide Drifted, Render, Failed, Succeeded, Raced, SaysNotReady;
    FailSaysNotReady(Converge(server, o, at, f).server, o, f);
  }

  /** A role whose get reports no version is never updated: the request carries zero, and the role stays not Ready. */
  lemma UnversionedRoleIsRefused(server: Server, o: Object, at: RemoteId, f: Faults)
    requires o.identity.CatalogRole? && Updates(server, o, at, f) && !f.reported
    ensures var e := Converge(server, o, at, f);
            e.server == Raced(server, at, f) && !Reports(e, o) && SaysNotReady(e, o, f)
  {
    hide Drifted, Render, Failed, Succeeded, Raced, SaysNotReady, Reports;
    ZeroIsRefused(Lookup(Raced(server, at, f), at));
    FailSaysNotReady(Converge(server, o, at, f).server, o, f);
  }

  /** On a server that restarts versions a role deleted and made again meanwhile is overwritten unread. */
  lemma RestartedVersionsLoseUpdates() returns (server: Server, o: Object, at: RemoteId, f: Faults)
    ensures o.identity.CatalogRole? && Updates(server, o, at, f) && f.reported
    ensures var e := Converge(server, o, at, f);
            && Lookup(Raced(server, at, f), at) == Some(Entity(Bag(map["by" := "others"]), 1))
            && Reports(e, o) && Lookup(e.server, at) == Some(Entity(Bag(map[]), 2))
  {
    var catalog := CatalogAt("s", "c");
    at := RoleAt("s", "c", "r");
    server := map[catalog := Entity(Bare, 1), at := Entity(Bag(map["old" := ""]), 1)];
    o := Object(CatalogRole(Ref("c", ""), "r"), BagSpec(map[]), 1, true, false, NO_STATUS);
    var again := Recreate(Bag(map["by" := "others"]), 1);
    f := HEALTHY.(between := [Remove, again]);
    assert "old" in map["old" := ""];
    assert Outsider(server, at, Remove) == map[catalog := Entity(Bare, 1)];
    assert f.between[1..] == [again] && [again][1..] == [];
    var now := Outsider(map[catalog := Entity(Bare, 1)], at, again);
    assert Outsiders(server, at, f.between) == Outsiders(Outsider(server, at, Remove), at, [again])
        == Outsiders(now, at, []) == now;
    UpdateIsCompareAndSet(server, o, at, f);
  }

  // ---- Namespaces: a patch ----

  /**
   A namespace patch is applied on top of what others wrote, and its success is reported as soon as the namespace
   is there. It is true exactly when the two agree on every property outside the patch.
   */
  lemma PatchedRace(server: Server, o: Object, at: RemoteId, f: Faults)
    requires o.identity.Namespace? && o.desired.BagSpec? && Updates(server, o, at, f) && f.write == Answered
    requires server[at].value.Bag? && (at in Raced(server, at, f) ==> Raced(server, at, f)[at].value.Bag?)
    ensures var e, after := Converge(server, o, at, f), Raced(server, at, f);
            && (Reports(e, o) <==> at in after)
            && (at !in after ==> e.server == after && SaysNotReady(e, o, f))
            && (at in after ==>
                  var have, now, want := server[at].value.properties, after[at].value.properties, o.desired.properties;
                  at in e.server &&
                  (RemoteMatches(o, e.server[at].value) <==>
                    forall k :: k !in Properties.Updates(have, want) && k !in Properties.Removals(have, want) ==>
                      (k in now <==> k in want) && (k in now ==> now[k] == want[k])))
  {
    hide Failed, Succeeded, Raced, SaysNotReady;
    var after := Raced(server, at, f);
    FailSaysNotReady(after, o, f);
    if at in after {
      Properties.StalePatch(server[at].value.properties, after[at].value.properties, o.desired.properties);
    }
  }

  // ---- Creates ----

  /**
   A create that loses to another creator is taken for done without reading again: the pass reports success and
   leaves what it finds, so the report is true exactly when the other creator happened to write what the spec asks.
   */
  lemma LostCreateRace(server: Server, o: Object, at: RemoteId, f: Faults)
    requires !o.identity.Connection? && !o.identity.Grant? && Writable(o)
    requires at !in server && at in Raced(server, at, f) && f.read && f.write == Answered
    ensures var e, theirs := Converge(server, o, at, f), Raced(server, at, f)[at].value;
            && Reports(e, o) && e.server == Raced(server, at, f)
            && (o.identity.Catalog? ==>
                  (RemoteMatches(o, e.server[at].value) <==>
                     theirs.CatalogRecord? && !Catalogs.Drifts(o.desired.spec, theirs.record)))
            && (o.identity.Namespace? || o.identity.CatalogRole? ==>
                  (RemoteMatches(o, e.server[at].value) <==> theirs == Bag(o.desired.properties)))
  {
    hide CanHold, Render, Succeeded, Raced, Catalogs.Drifts;
    WrittenMatches(o);
  }

  /** A namespace that says Ready and Synced with none of the properties asked for. */
  lemma ReadyCanBeStale() returns (server: Server, o: Object, at: RemoteId, f: Faults)
    ensures !o.identity.Connection?
    ensures var e := Converge(server, o, at, f);
            Reports(e, o) && at in e.server && !RemoteMatches(o, e.server[at].value)
  {
    at := NamespaceAt("s", "c", ["n"]);
    server := map[CatalogAt("s", "c") := Entity(Bare, 1)];
    o := Object(Namespace(Ref("c", ""), None, "n"), BagSpec(map["owner" := "me"]), 1, true, false, NO_STATUS);
    f := HEALTHY.(between := [Recreate(Bag(map[]), 1)]);
    assert f.between[1..] == [];
    assert Outsiders(server, at, f.between) == Outsiders(Outsider(server, at, f.between[0]), at, []);
    assert "owner" in o.desired.properties;
    LostCreateRace(server, o, at, f);
  }

  // ---- A catalog spec nobody can satisfy ----

  /** A live catalog past its finalizer, every reference in place, whose spec lists the reserved key. */
  predicate Insatiable(c: Cluster, id: Id, at: RemoteId) {
    && id in c.store && id.kind == CatalogKind
    && c.store[id].identity.Catalog? && !c.store[id].deleting && c.store[id].finalizer
    && c.store[id].desired.CatalogSpec?
    && Catalogs.BuildBody(c.store[id].desired.spec).Some?
    && Catalogs.RESERVED in c.store[id].desired.spec.properties
    && Locate(c.store, c.secrets, id.key, c.store[id].identity, true) == Located(at)
    && at in c.server && Drifted(c.store[id].desired, c.server[at].value)
  }

  lemma InsatiablePass(c: Cluster, id: Id, at: RemoteId)
    requires Insatiable(c, id, at)
    ensures var d := Reconcile(c, id, HEALTHY);
            && Insatiable(d, id, at)
            && d.store[id] == c.store[id].(status := Succeeded(c.store[id].status, c.store[id].generation))
            && d.server[at].version == c.server[at].version + 1
  {
    hide Catalogs.Drifts, Catalogs.BuildBody, Catalogs.ReadBack, Succeeded, IsReady;
    Catalogs.WriteRepairsDrift(c.store[id].desired.spec);
  }

  function Passes(c: Cluster, id: Id, n: nat): Cluster
    decreases n
  {
    if n == 0 then c else Passes(Reconcile(c, id, HEALTHY), id, n - 1)
  }

  /** Every one of n healthy passes over it writes the catalog again, reports success, and leaves drift. */
  lemma {:induction false} ReservedKeyDriftsForever(c: Cluster, id: Id, at: RemoteId, n: nat)
    requires Insatiable(c, id, at)
    ensures var d := Passes(c, id, n);
            && Insatiable(d, id, at)
            && d.server[at].version == c.server[at].version + n
            && (n > 0 ==> IsReady(d.store[id]) && d.store[id].status.observedGeneration == d.store[id].generation)
    decreases n
  {
    hide Reconcile, Locate, Drifted, Succeeded;
    if n > 0 {
      var o := c.store[id];
      InsatiablePass(c, id, at);
      var d := Reconcile(c, id, HEALTHY);
      SucceededReadsBack(o.status, o.generation);
      ReservedKeyDriftsForever(d, id, at, n - 1);
    }
  }
}
