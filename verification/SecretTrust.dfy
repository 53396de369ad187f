/**
 What Ready and CredentialsWritten are worth to whoever mounts a principal's Secret: exactly when a pass leaves the
 Secret current, exactly when Ready vouches for it, and what is never repaired
 (internal/controller/polarisprincipal_controller.go).
 */
module SecretTrust {
  import opened Wrappers
  import opened Conditions
  import opened EntityVersions
  import opened Properties
  import opened Principals
  import opened PrincipalRuns
  import opened RotationRequests
  import opened PrincipalPasses

  /** The Secret is the pair issued last. */
  predicate Current(w: World) {
    w.issued != [] && w.secret == Some(w.issued[|w.issued| - 1])
  }

  /** A pair was issued in the pass and reached the Secret, or none was issued and the Secret was current before. */
  predicate LeavesCurrent(w: World, f: PrincipalFaults) {
    if Creates(w, f) then Reaches(CreateTold(f), f)
    else if Rotates(w, f) then Reaches(RotateTold(f), f)
    else Current(w)
  }

  lemma CurrentAfterPass(w: World, f: PrincipalFaults)
    requires Honest(w, f)
    ensures Current(Pass(w, f)) <==> LeavesCurrent(w, f)
  {
    hide Pass, Proceeds, InLine, RotationDue;
    OnePairPerPass(w, f);
    SecretAfterPass(w, f);
  }

  // ---- Ready after a pass ----

  predicate SaysReady(w: World) {
    w.resource.Some? && IsTrue(w.resource.value.status.conditions, Ready)
  }

  /** The pass gets to the end and records it. A rotation reply without a body counts as the end, too. */
  predicate ReportsSuccess(w: World, f: PrincipalFaults) {
    f.statusWrite &&
    if Proceeds(w, f) && w.remote.None? then Creates(w, f) && f.create.Created? && Reaches(CreateTold(f), f)
    else
      InLine(w, f) &&
      (RotationDue(w.resource.value) ==> f.rotate.Rotated? && (RotateTold(f).None? || Reaches(RotateTold(f), f)))
  }

  /**
   The pass writes nothing about readiness: its status write fails, the resource is being deleted, only the
   finalizer is added, or a rotated pair misses the Secret, which is recorded under CredentialsWritten alone.
   */
  predicate KeepsReadiness(w: World, f: PrincipalFaults) {
    || !f.statusWrite
    || (w.resource.Some? && w.resource.value.deleting)
    || (w.resource.Some? && w.link.found && w.link.builds && w.link.ready && !w.resource.value.finalizer)
    || (Rotates(w, f) && RotateTold(f).Some? && !Reaches(RotateTold(f), f))
  }

  predicate ReadyAfter(w: World, f: PrincipalFaults) {
    ReportsSuccess(w, f) || (KeepsReadiness(w, f) && SaysReady(w))
  }

  lemma WritesToReady(st: Status, gen: nat, reason: Reason, message: string, dep: string)
    ensures !IsTrue(Failed(st, gen, reason, message).conditions, Ready)
    ensures IsTrue(Succeeded(st, gen).conditions, Ready)
    ensures !IsTrue(Waiting(st, gen, dep).conditions, Ready)
  {
    SetIsAnUpdate(st.conditions, NotReady(gen, reason, message), Ready);
    SetIsAnUpdate(st.conditions, NotReady(gen, DependencyNotReady, WaitMessage(dep)), Ready);
    SucceededReadsBack(st, gen);
  }

  lemma MarkKeepsReady(pp: Resource, holds: bool, detail: string)
    ensures IsTrue(Marked(pp, holds, detail).conditions, Ready) == IsTrue(pp.status.conditions, Ready)
  {
    SetIsAnUpdate(pp.status.conditions, CredentialsCondition(holds, pp.generation, detail), Ready);
  }

  lemma CreateReadiness(w: World, f: PrincipalFaults)
    requires Proceeds(w, f) && w.remote.None?
    ensures Create(w, f).resource.Some?
    ensures SaysReady(Create(w, f)) <==> ReadyAfter(w, f)
  {
    hide IsTrue, Failed, Succeeded, Marked, Complete, RotationDue;
    var pp := w.resource.value;
    WritesToReady(pp.status, pp.generation, PolarisError, f.detail, "");
    WritesToReady(Marked(pp, false, f.detail), pp.generation, SyncFailed, f.detail, "");
    WritesToReady(Marked(pp, true, ""), pp.generation, SyncFailed, f.detail, "");
  }

  lemma RotateReadiness(w: World, f: PrincipalFaults)
    requires InLine(w, f) && w.remote.value.value == w.resource.value.properties
    ensures Rotate(w, f).resource.Some?
    ensures SaysReady(Rotate(w, f)) <==> ReadyAfter(w, f)
  {
    hide IsTrue, Set, Succeeded, Marked, Complete, RotationDue, Taken;
    var pp := w.resource.value;
    WritesToReady(pp.status, pp.generation, SyncFailed, f.detail, "");
    MarkKeepsReady(pp, false, f.detail);
    assert Failed(pp.status, pp.generation, SyncFailed, f.detail).conditions
        == Set(pp.status.conditions, NotReady(pp.generation, SyncFailed, f.detail));
  }

  lemma ExistingReadiness(w: World, f: PrincipalFaults)
    requires Proceeds(w, f) && w.remote.Some?
    ensures Existing(w, f).resource.Some?
    ensures SaysReady(Existing(w, f)) <==> ReadyAfter(w, f)
  {
    hide IsTrue, Failed, Rotate, RotationDue, Taken, Reaches;
    var pp := w.resource.value;
    if w.remote.value.value == pp.properties {
      RotateReadiness(w, f);
    } else if f.update.Answered? && Taken(w, f) {
      RotateReadiness(Updated(w, f), f);
    } else {
      WritesToReady(pp.status, pp.generation, SyncFailed, f.detail, "");
    }
  }

  lemma ReadinessAfterPass(w: World, f: PrincipalFaults)
    ensures Pass(w, f).resource.Some? ==> (SaysReady(Pass(w, f)) <==> ReadyAfter(w, f))
    ensures w.resource.Some? && !w.resource.value.deleting ==> Pass(w, f).resource.Some?
  {
    hide IsTrue, Failed, Waiting, Create, Existing, RotationDue, Reaches, Taken;
    if Proceeds(w, f) {
      if w.remote.None? {
        CreateReadiness(w, f);
      } else {
        ExistingReadiness(w, f);
      }
    } else if w.resource.Some? {
      var pp := w.resource.value;
      WritesToReady(pp.status, pp.generation, ReferenceError, f.detail, "PolarisConnection " + w.link.name);
      WritesToReady(pp.status, pp.generation, AuthenticationError, f.detail, "");
      WritesToReady(pp.status, pp.generation, PolarisError, f.detail, "");
    }
  }

  /** Every request is answered, with whole pairs, nobody interferes, and every write goes through. */
  predicate Healthy(f: PrincipalFaults) {
    && f.get && f.reported && f.between == [] && f.update.Answered?
    && f.create.Created? && Whole(f.create.told) && f.rotate.Rotated? && Whole(f.rotate.told)
    && f.secretWrite && f.metaWrite && f.statusWrite
  }

  lemma HealthyPassSucceeds(w: World, f: PrincipalFaults)
    requires Proceeds(w, f) && Alive(w) && Healthy(f)
    ensures ReportsSuccess(w, f)
    ensures var remote := Pass(w, f).remote;
            remote.Some? && remote.value.value == w.resource.value.properties
  {
    hide Pass, RotationDue, SameVersion, Taken;
    RemoteAfterPass(w, f);
    if w.remote.Some? {
      TakenIffSameVersion(w, f);
      assert OutsideAll(w.remote, []) == w.remote;
      HealthyReadIsCurrent(w, f);
    }
  }

  lemma HealthyReadIsCurrent(w: World, f: PrincipalFaults)
    requires w.remote.Some? && f.reported && f.between == []
    ensures SameVersion(w, f)
  {
  }

  /** A live principal under a Ready connection is Ready and as its spec asks after two healthy passes. */
  lemma TwoHealthyPassesSettle(w: World, first: PrincipalFaults, second: PrincipalFaults)
    requires Alive(w) && Reachable(w) && w.link.ready && Healthy(first) && Healthy(second)
    ensures var d := Pass(Pass(w, first), second);
            && SaysReady(d)
            && d.remote.Some? && d.remote.value.value == w.resource.value.properties
            && d.resource.value.status.observedGeneration == w.resource.value.generation
  {
    var mid := Pass(w, first);
    LiveResourceAfterPass(w, first);
    LinkIsNotTouched(w, first);
    HealthyPassSucceeds(mid, second);
    ReadinessAfterPass(mid, second);
    ObservedAfterPass(mid, second);
    LiveResourceAfterPass(mid, second);
    hide Pass, RotationDue, ReportsSuccess, Taken;
  }

  lemma LinkIsNotTouched(w: World, f: PrincipalFaults)
    ensures Pass(w, f).link == w.link
  {
    hide Failed, Succeeded, Waiting, Marked, Set, Complete, RotationDue, Taken;
  }

  // ---- Ready as a promise about the Secret ----

  predicate Trustworthy(w: World) {
    SaysReady(w) ==> Current(w)
  }

  /**
   The passes that make Ready a false promise: one reports success although it issued no pair and the Secret was not
   current before, or although its rotation's reply had no body; or a pair misses the Secret and Ready, which was
   True, is not taken back.
   */
  predicate Misleads(w: World, f: PrincipalFaults) {
    || (ReportsSuccess(w, f) && !Creates(w, f) && (if Rotates(w, f) then RotateTold(f).None? else !Current(w)))
    || (SaysReady(w) && KeepsReadiness(w, f)
          && ((Creates(w, f) && !Reaches(CreateTold(f), f)) || (Rotates(w, f) && !Reaches(RotateTold(f), f))))
  }

  /** Exactly when Ready still says that the Secret is current after a pass, if it did before. */
  lemma TrustIsKeptIff(w: World, f: PrincipalFaults)
    requires Trustworthy(w) && Honest(w, f)
    ensures Trustworthy(Pass(w, f)) <==> !Misleads(w, f)
  {
    hide Pass, Taken, RotationDue, Current, SaysReady;
    CurrentAfterPass(w, f);
    ReadinessAfterPass(w, f);
    if Pass(w, f).resource.None? {
      GoneIsNotReady(w, f);
    }
  }

  lemma GoneIsNotReady(w: World, f: PrincipalFaults)
    requires Pass(w, f).resource.None?
    ensures !SaysReady(Pass(w, f)) && !Misleads(w, f)
  {
    hide Pass, RotationDue, Taken;
    ReadinessAfterPass(w, f);
  }

  /** And when a pass that reports success leaves the Secret current. */
  lemma SuccessIsTrueIff(w: World, f: PrincipalFaults)
    requires ReportsSuccess(w, f) && Honest(w, f)
    ensures SaysReady(Pass(w, f))
    ensures Current(Pass(w, f)) <==> Creates(w, f) || (if Rotates(w, f) then RotateTold(f).Some? else Current(w))
  {
    hide Pass, Taken, RotationDue, Current;
    CurrentAfterPass(w, f);
    ReadinessAfterPass(w, f);
  }

  predicate NeverMisled(w: World, events: seq<Event>)
    decreases |events|
  {
    events == [] ||
    ((events[0].Reconcile? ==> Honest(w, events[0].f) && !Misleads(w, events[0].f)) &&
     NeverMisled(Step(w, events[0]), events[1..]))
  }

  lemma StepKeepsTrust(w: World, e: Event)
    requires Trustworthy(w) && (e.Reconcile? ==> Honest(w, e.f) && !Misleads(w, e.f))
    ensures Trustworthy(Step(w, e))
  {
    hide Pass, Misleads, Honest;
    if e.Reconcile? {
      TrustIsKeptIff(w, e.f);
    }
  }

  /** In every run without such a pass, Ready means that the Secret is the pair issued last. */
  lemma {:induction false} ReadyMeansCurrent(w: World, events: seq<Event>)
    requires Trustworthy(w) && NeverMisled(w, events)
    ensures Trustworthy(Run(w, events))
    decreases |events|
  {
    hide Trustworthy, Step, Honest, Misleads;
    if events != [] {
      StepKeepsTrust(w, events[0]);
      ReadyMeansCurrent(Step(w, events[0]), events[1..]);
    }
  }

  // ---- What is never repaired ----

  /** Nobody removes the principal on the server, and the resource is not applied anew. */
  predicate KeepsPrincipal(e: Event) {
    && !e.Apply?
    && (e.OtherClient? ==> !e.write.Remove?)
    && (e.Reconcile? ==> forall write :: write in e.f.between ==> !write.Remove?)
  }

  /** The principal is there, or nothing is left that would create it. */
  predicate NothingToCreate(w: World) {
    w.resource.Some? && !w.resource.value.deleting ==> w.remote.Some?
  }

  lemma {:induction false} WithoutRemovalItStays<T>(e: Option<Entity<T>>, writes: seq<Write<T>>)
    requires e.Some? && forall write :: write in writes ==> !write.Remove?
    ensures OutsideAll(e, writes).Some?
    decreases |writes|
  {
    if writes != [] {
      assert writes[0] in writes;
      WithoutRemovalItStays(Outside(e, writes[0]), writes[1..]);
    }
  }

  lemma RotateKeepsRemote(w: World, f: PrincipalFaults)
    requires w.resource.Some?
    ensures Rotate(w, f).remote == w.remote
    ensures Rotate(w, f).resource.Some? && Rotate(w, f).resource.value.deleting == w.resource.value.deleting
  {
    hide Set, Complete, RotationDue, Succeeded, Marked;
  }

  lemma PassCreatesNothing(w: World, f: PrincipalFaults)
    requires NothingToCreate(w) && forall write :: write in f.between ==> !write.Remove?
    ensures NothingToCreate(Pass(w, f)) && !Creates(w, f)
  {
    hide Create, Rotate, RotationDue, Failed, Waiting, Taken;
    if w.resource.Some? && w.remote.Some? {
      WithoutRemovalItStays(w.remote, f.between);
      RotateKeepsRemote(w, f);
      if Taken(w, f) {
        RotateKeepsRemote(Updated(w, f), f);
      }
    }
  }

  lemma StepCreatesNothing(w: World, e: Event)
    requires NothingToCreate(w) && KeepsPrincipal(e)
    ensures NothingToCreate(Step(w, e))
    ensures e.Reconcile? ==> !Creates(w, e.f)
  {
    hide Pass, Creates;
    if e.Reconcile? {
      PassCreatesNothing(w, e.f);
    }
  }

  lemma StepRegainsNothing(w: World, e: Event)
    requires NothingToCreate(w) && KeepsPrincipal(e) && !SaysWritten(w)
    ensures NothingToCreate(Step(w, e)) && !SaysWritten(Step(w, e))
  {
    hide Pass, NothingToCreate, KeepsPrincipal, Creates;
    StepCreatesNothing(w, e);
    if e.Reconcile? {
      PassSays(w, e.f);
    }
  }

  /**
   Once CredentialsWritten is not True it stays so for as long as the principal and its resource exist: edits,
   successful rotations and deletion included.
   */
  lemma {:induction false} WrittenIsNotRegained(w: World, events: seq<Event>)
    requires NothingToCreate(w) && !SaysWritten(w)
    requires forall e :: e in events ==> KeepsPrincipal(e)
    ensures NothingToCreate(Run(w, events)) && !SaysWritten(Run(w, events))
    decreases |events|
  {
    hide Step, NothingToCreate, SaysWritten, KeepsPrincipal;
    if events != [] {
      assert events[0] in events;
      StepRegainsNothing(w, events[0]);
      WrittenIsNotRegained(Step(w, events[0]), events[1..]);
    }
  }

  lemma StepIssuesNothing(w: World, e: Event)
    requires NothingToCreate(w) && KeepsPrincipal(e) && Paced(w) && NothingDue(w) && LeavesSpecAlone(e)
    ensures NothingToCreate(Step(w, e)) && Paced(Step(w, e)) && NothingDue(Step(w, e))
    ensures Step(w, e).issued == w.issued && Step(w, e).secret == w.secret
  {
    hide Pass, NothingToCreate, KeepsPrincipal, Creates, Paced, RotationDue;
    StepCreatesNothing(w, e);
    StepStaysUndue(w, e);
    if e.Reconcile? {
      OnePairPerPass(w, e.f);
      SecretAfterPass(w, e.f);
    }
  }

  /** While no rotation is due and nobody removes the principal or edits the spec, neither pair nor Secret changes. */
  lemma {:induction false} SecretStaysAsItIs(w: World, events: seq<Event>)
    requires NothingToCreate(w) && Paced(w) && NothingDue(w)
    requires forall e :: e in events ==> KeepsPrincipal(e) && LeavesSpecAlone(e)
    ensures Run(w, events).issued == w.issued && Run(w, events).secret == w.secret
    decreases |events|
  {
    hide Step, NothingToCreate, NothingDue, Paced, KeepsPrincipal, LeavesSpecAlone;
    if events != [] {
      assert events[0] in events;
      StepIssuesNothing(w, events[0]);
      SecretStaysAsItIs(Step(w, events[0]), events[1..]);
    }
  }

  /**
   When the Secret write fails on create, the generation is recorded all the same. The next healthy pass finds
   the principal, has nothing to rotate, and reports Ready: no Secret was ever written, and none is written as long
   as the principal stays and the spec is not edited.
   */
  lemma ReadyWithoutSecret(
      pp: Resource, actual: Creds, failing: PrincipalFaults, healthy: PrincipalFaults, events: seq<Event>)
    requires pp.finalizer && !pp.deleting && pp.status.observedGeneration <= pp.generation
    requires failing.get && failing.between == [] && failing.create == Created(actual, Some(actual))
    requires !failing.secretWrite && failing.statusWrite
    requires healthy.get && healthy.statusWrite
    requires forall e :: e in events ==> KeepsPrincipal(e) && LeavesSpecAlone(e)
    ensures var w := World(Some(pp), Link("c", true, true, true), None, [], None, false, 0);
            var d := Pass(Pass(w, failing), healthy);
            && SaysReady(d) && d.secret == None && d.issued == [actual]
            && Run(d, events).secret == None && Run(d, events).issued == [actual]
  {
    var w := World(Some(pp), Link("c", true, true, true), None, [], None, false, 0);
    var mid := Pass(w, failing);
    assert mid.remote == Some(Entity(pp.properties, failing.first)) && !RotationDue(mid.resource.value);
    hide Set, Find;
    SucceededReadsBack(mid.resource.value.status, pp.generation);
    var d := Pass(mid, healthy);
    assert Paced(d) && NothingDue(d) && NothingToCreate(d);
    hide Pass;
    SecretStaysAsItIs(d, events);
  }
}
