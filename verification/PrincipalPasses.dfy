/**
 One pass over a principal in terms of the spec, the connection and the replies alone: exactly when the resource goes,
 what becomes of the remote principal, when credentials are issued, and what is recorded
 (internal/controller/polarisprincipal_controller.go).
 */
module PrincipalPasses {
  import opened Wrappers
  import opened Conditions
  import opened EntityVersions
  import opened Properties
  import opened Principals
  import opened PrincipalRuns

  /** The connection is stored and its Secret yields a client. */
  predicate Reachable(w: World) {
    w.link.found && w.link.builds
  }

  predicate Alive(w: World) {
    w.resource.Some? && !w.resource.value.deleting
  }

  // ---- Deletion ----

  /**
   A pass takes the resource away if and only if it is being deleted, has its finalizer, the Kubernetes update goes
   through, and the server answered the delete, unless the server cannot be reached at all.
   */
  lemma ResourceGoesIff(w: World, f: PrincipalFaults)
    requires w.resource.Some?
    ensures Pass(w, f).resource.None? <==>
            && w.resource.value.deleting && w.resource.value.finalizer && f.metaWrite
            && (Reachable(w) ==> f.purge.Answered?)
  {
    hide Failed, Waiting, Set, Marked, Succeeded, RotationDue, Taken, Complete;
  }

  /**
   While the server can be reached, deleting a principal deletes it there first: the resource goes only after that,
   and unless the request was refused the remote principal is gone. A refused delete changes nothing at all.
   */
  lemma DeletionIsRemoteFirst(w: World, f: PrincipalFaults)
    requires w.resource.Some? && w.resource.value.deleting && Reachable(w)
    ensures var d := Pass(w, f);
            && (d.resource.None? ==> d.remote.None? && !d.created)
            && (f.purge.Refused? ==> d == w)
            && (!f.purge.Refused? ==> d.remote.None?)
            && (d.resource.Some? ==> d.resource == w.resource)
            && d.issued == w.issued && d.secret == w.secret
  {
  }

  // ---- The resource ----

  /** A pass over a live resource changes its status and finalizer only, and adds the finalizer as soon as it may. */
  lemma LiveResourceAfterPass(w: World, f: PrincipalFaults)
    requires Alive(w)
    ensures var d := Pass(w, f);
            && d.resource.Some?
            && d.resource.value
                 == w.resource.value.(status := d.resource.value.status, finalizer := d.resource.value.finalizer)
            && (d.resource.value.finalizer <==>
                  w.resource.value.finalizer || (Reachable(w) && w.link.ready && f.metaWrite))
  {
    hide Create, Existing, Failed, Waiting;
    if Proceeds(w, f) {
      if w.remote.None? {
        CreateKeepsSpec(w, f);
      } else {
        ExistingKeepsSpec(w, f);
      }
    }
  }

  predicate OnlyStatus(w: World, d: World) {
    w.resource.Some? && d.resource.Some? && d.resource.value == w.resource.value.(status := d.resource.value.status)
  }

  lemma CreateKeepsSpec(w: World, f: PrincipalFaults)
    requires w.resource.Some?
    ensures OnlyStatus(w, Create(w, f))
  {
    hide Set, Complete, Failed, Succeeded, Marked;
  }

  lemma RotateKeepsSpec(w: World, f: PrincipalFaults)
    requires w.resource.Some?
    ensures OnlyStatus(w, Rotate(w, f)) && Rotate(w, f).remote == w.remote
  {
    hide Set, Complete, RotationDue, Succeeded, Marked;
  }

  lemma ExistingKeepsSpec(w: World, f: PrincipalFaults)
    requires w.resource.Some? && w.remote.Some?
    ensures OnlyStatus(w, Existing(w, f))
  {
    hide Rotate, Taken, Failed;
    RotateKeepsSpec(w, f);
    if Taken(w, f) {
      RotateKeepsSpec(Updated(w, f), f);
    }
  }

  // ---- The remote principal ----

  /** What a pass over a live resource leaves on the server, other clients' writes included. */
  function RemoteAfter(w: World, f: PrincipalFaults): Option<Entity<Props>>
    requires Alive(w)
  {
    var theirs := OutsideAll(w.remote, f.between);
    var wanted := w.resource.value.properties;
    if !Proceeds(w, f) then w.remote
    else if w.remote.None? then
      if theirs.None? && !f.create.CreateRefused? then Some(Entity(wanted, f.first)) else theirs
    else if w.remote.value.value == wanted then w.remote
    else if SameVersion(w, f) && f.update != Refused then Some(Entity(wanted, w.remote.value.version + 1))
    else theirs
  }

  /**
   The server is only written to by a pass that got past the connection, its readiness, the finalizer and the get; it
   creates what is missing and updates what differs, with the spec's properties, and leaves alone what agrees.
   */
  lemma RemoteAfterPass(w: World, f: PrincipalFaults)
    requires Alive(w)
    ensures Pass(w, f).remote == RemoteAfter(w, f)
  {
    hide Failed, Succeeded, Waiting, Marked, Set, Complete, Rotate, SameVersion, Taken, Outsiders;
    if w.remote.Some? {
      TakenIffSameVersion(w, f);
      RotateKeepsSpec(w, f);
      if Taken(w, f) {
        RotateKeepsSpec(Updated(w, f), f);
        assert SameVersion(w, f) ==> OutsideAll(w.remote, f.between).value.version == w.remote.value.version by {
          SameVersionSays(w, f);
        }
      }
    }
  }

  lemma SameVersionSays(w: World, f: PrincipalFaults)
    requires SameVersion(w, f)
    ensures OutsideAll(w.remote, f.between).Some?
    ensures OutsideAll(w.remote, f.between).value.version == w.remote.value.version
  {
  }

  // ---- Issuing credentials ----

  /** A rotation is asked for: the field is set, in a generation not yet observed. */
  predicate Asked(pp: Resource) {
    pp.rotationRequired && pp.status.observedGeneration < pp.generation
  }

  /** With an existing principal in line, a pass issues a pair if and only if one is asked for and the server agrees. */
  lemma RotatesIffAsked(w: World, f: PrincipalFaults)
    requires InLine(w, f)
    ensures Pass(w, f).issued != w.issued <==> Asked(w.resource.value) && !f.rotate.RotateRefused?
    ensures Pass(w, f).issued == w.issued || Pass(w, f).issued == w.issued + [f.rotate.actual]
  {
    OnePairPerPass(w, f);
  }

  /** Nobody has set the rotation field, and no event of the run does. */
  predicate NotAsking(w: World) {
    w.resource.Some? ==> !w.resource.value.rotationRequired
  }

  predicate AsksForRotation(e: Event) {
    (e.Edit? || e.Apply?) && e.rotationRequired
  }

  /** Every pair issued in the run is that of a principal that was not there. */
  predicate IssuesOnlyByCreating(w: World, events: seq<Event>)
    decreases |events|
  {
    events == [] ||
    (&& (Step(w, events[0]).issued != w.issued ==> events[0].Reconcile? && w.remote.None?)
     && IssuesOnlyByCreating(Step(w, events[0]), events[1..]))
  }

  lemma StepWithoutAsking(w: World, e: Event)
    requires NotAsking(w) && !AsksForRotation(e)
    ensures NotAsking(Step(w, e))
    ensures Step(w, e).issued != w.issued ==> e.Reconcile? && w.remote.None?
  {
    hide Pass;
    if e.Reconcile? {
      OnePairPerPass(w, e.f);
      if Alive(w) {
        LiveResourceAfterPass(w, e.f);
      } else if w.resource.Some? {
        hide Set, Failed;
        DeletedSpecAfterPass(w, e.f);
      } else {
        assert Pass(w, e.f) == w by { NothingToReconcile(w, e.f); }
      }
    }
  }

  lemma DeletedSpecAfterPass(w: World, f: PrincipalFaults)
    requires w.resource.Some? && w.resource.value.deleting
    ensures Pass(w, f).resource.None? || Pass(w, f).resource == w.resource
  {
  }

  lemma NothingToReconcile(w: World, f: PrincipalFaults)
    requires w.resource.None?
    ensures Pass(w, f) == w
  {
  }

  /** While rotation is not asked for no pass rotates: edits of the properties, failures and deletions included. */
  lemma {:induction false} NoRotationUnlessAsked(w: World, events: seq<Event>)
    requires NotAsking(w)
    requires forall e :: e in events ==> !AsksForRotation(e)
    ensures IssuesOnlyByCreating(w, events)
    decreases |events|
  {
    hide Step, NotAsking, AsksForRotation;
    if events != [] {
      assert events[0] in events;
      StepWithoutAsking(w, events[0]);
      NoRotationUnlessAsked(Step(w, events[0]), events[1..]);
    }
  }

  /** Both parts of a pair are there. */
  predicate Whole(secret: Option<Creds>) {
    secret.Some? && secret.value.clientId != "" && secret.value.clientSecret != ""
  }

  /** The Secret changes only to a pair with both parts, and to the one the server told. */
  lemma SecretIsOnlyWrittenWhole(w: World, f: PrincipalFaults)
    ensures var d := Pass(w, f);
            d.secret != w.secret ==>
              Whole(d.secret) && f.secretWrite && (d.secret == CreateTold(f) || d.secret == RotateTold(f))
  {
    hide Pass;
    SecretAfterPass(w, f);
  }

  /** And a pair told with both parts does reach it, if the write goes through. */
  lemma WholePairReachesSecret(w: World, f: PrincipalFaults)
    requires f.secretWrite
    ensures Creates(w, f) && Whole(CreateTold(f)) ==> Pass(w, f).secret == CreateTold(f)
    ensures InLine(w, f) && Asked(w.resource.value) && Whole(RotateTold(f)) ==> Pass(w, f).secret == RotateTold(f)
  {
    hide Pass;
    SecretAfterPass(w, f);
    OnePairPerPass(w, f);
  }

  // ---- What is recorded ----

  /** Under a connection that is not Ready nothing happens but the wait, which leaves observedGeneration alone. */
  lemma UnreadyConnectionHoldsBack(w: World, f: PrincipalFaults)
    requires Alive(w) && Reachable(w) && !w.link.ready
    ensures var d := Pass(w, f);
            && d == w.(resource := d.resource) && d.resource.Some?
            && d.resource.value.status.observedGeneration == w.resource.value.status.observedGeneration
            && (f.statusWrite ==>
                  Find(d.resource.value.status.conditions, Ready) ==
                  Some(Condition(Ready, false, DependencyNotReady,
                                 "waiting for PolarisConnection " + w.link.name + " to be ready",
                                 w.resource.value.generation)))
  {
    var pp := w.resource.value;
    WaitReadsBack(pp.status, pp.generation, "PolarisConnection " + w.link.name);
    assert "waiting for " + ("PolarisConnection " + w.link.name) + " to be ready"
        == "waiting for PolarisConnection " + w.link.name + " to be ready";
    hide Set, Find;
  }

  /** A connection that is missing or yields no client is reported, with the generation, and nothing else happens. */
  lemma UnreachableIsReported(w: World, f: PrincipalFaults)
    requires Alive(w) && !Reachable(w)
    ensures var d := Pass(w, f);
            && d == w.(resource := d.resource) && d.resource.Some?
            && (f.statusWrite ==>
                  && d.resource.value.status.observedGeneration == w.resource.value.generation
                  && Find(d.resource.value.status.conditions, Ready) ==
                     Some(Condition(Ready, false, if w.link.found then AuthenticationError else ReferenceError,
                                    f.detail, w.resource.value.generation)))
  {
    var pp := w.resource.value;
    FailureReadsBack(pp.status, pp.generation, ReferenceError, f.detail);
    FailureReadsBack(pp.status, pp.generation, AuthenticationError, f.detail);
    hide Set, Find;
  }

  /** The reason a failing pass gives under Ready once it got to the server, if it writes one. */
  function FailureReason(w: World, f: PrincipalFaults): Option<Reason> {
    if !Proceeds(w, f) then
      if Alive(w) && Reachable(w) && w.link.ready && w.resource.value.finalizer then Some(PolarisError) else None
    else if w.remote.None? then
      if !f.create.Created? then Some(PolarisError)
      else if Creates(w, f) && Whole(CreateTold(f)) && f.secretWrite then None
      else Some(SyncFailed)
    else if !InLine(w, f) then Some(SyncFailed)
    else if Asked(w.resource.value) && !f.rotate.Rotated? then Some(SyncFailed)
    else None
  }

  predicate Reports(d: World, reason: Reason, detail: string) {
    d.resource.Some? &&
    Find(d.resource.value.status.conditions, Ready)
        == Some(Condition(Ready, false, reason, detail, d.resource.value.generation))
  }

  lemma CreateReports(w: World, f: PrincipalFaults)
    requires Alive(w) && Proceeds(w, f) && w.remote.None? && FailureReason(w, f).Some? && f.statusWrite
    ensures Reports(Create(w, f), FailureReason(w, f).value, f.detail)
  {
    hide Set, Find, Marked;
    var pp := w.resource.value;
    FailureReadsBack(pp.status, pp.generation, PolarisError, f.detail);
    FailureReadsBack(Marked(pp, false, f.detail), pp.generation, SyncFailed, f.detail);
    hide Failed, Succeeded;
  }

  lemma RotateReports(w: World, f: PrincipalFaults)
    requires Alive(w) && Asked(w.resource.value) && !f.rotate.Rotated? && f.statusWrite
    ensures Reports(Rotate(w, f), SyncFailed, f.detail)
  {
    hide Set, Find;
    var pp := w.resource.value;
    SetIsAnUpdate(pp.status.conditions, NotReady(pp.generation, SyncFailed, f.detail), Ready);
  }

  lemma ExistingReports(w: World, f: PrincipalFaults)
    requires Alive(w) && Proceeds(w, f) && w.remote.Some? && FailureReason(w, f).Some? && f.statusWrite
    ensures Reports(Existing(w, f), FailureReason(w, f).value, f.detail)
  {
    hide Set, Find, Taken, Rotate, Asked;
    var pp := w.resource.value;
    if !InLine(w, f) {
      FailureReadsBack(pp.status, pp.generation, SyncFailed, f.detail);
    } else if w.remote.value.value == pp.properties {
      RotateReports(w, f);
    } else {
      RotateReports(Updated(w, f), f);
    }
    hide Failed;
  }

  /** A get or create that fails is PolarisError; the Secret, an update or a rotation that fails is SyncFailed. */
  lemma FailureIsReported(w: World, f: PrincipalFaults)
    requires Alive(w) && FailureReason(w, f).Some? && f.statusWrite
    ensures Reports(Pass(w, f), FailureReason(w, f).value, f.detail)
  {
    hide Set, Find, Create, Existing, Waiting, InLine;
    var pp := w.resource.value;
    FailureReadsBack(pp.status, pp.generation, PolarisError, f.detail);
    if Proceeds(w, f) {
      hide FailureReason;
      if w.remote.None? {
        CreateReports(w, f);
      } else {
        ExistingReports(w, f);
      }
    }
    hide Failed;
  }

  /**
   The branches that end a pass without recording the generation: waiting, adding the finalizer, and the two ways a
   rotation can fail.
   */
  predicate Records(w: World, f: PrincipalFaults)
    requires Alive(w)
  {
    || !Reachable(w)
    || (w.link.ready && w.resource.value.finalizer &&
          !(InLine(w, f) && Asked(w.resource.value) &&
              (!f.rotate.Rotated? || (f.rotate.told.Some? && !(Whole(f.rotate.told) && f.secretWrite)))))
  }

  lemma RotateObserves(w: World, f: PrincipalFaults)
    requires w.resource.Some?
    ensures var d := Rotate(w, f);
            && d.resource.Some?
            && d.resource.value.status.observedGeneration ==
               if f.statusWrite && !(Asked(w.resource.value) &&
                    (!f.rotate.Rotated? || (f.rotate.told.Some? && !(Whole(f.rotate.told) && f.secretWrite))))
               then w.resource.value.generation else w.resource.value.status.observedGeneration
  {
    hide Set;
  }

  lemma CreateObserves(w: World, f: PrincipalFaults)
    requires w.resource.Some?
    ensures var d := Create(w, f);
            && d.resource.Some?
            && d.resource.value.status.observedGeneration ==
               if f.statusWrite then w.resource.value.generation else w.resource.value.status.observedGeneration
  {
    hide Set, Complete;
  }

  lemma ExistingObserves(w: World, f: PrincipalFaults)
    requires Alive(w) && Proceeds(w, f) && w.remote.Some?
    ensures var d := Existing(w, f);
            && d.resource.Some?
            && d.resource.value.status.observedGeneration ==
               if f.statusWrite && Records(w, f)
               then w.resource.value.generation else w.resource.value.status.observedGeneration
  {
    hide Set, Rotate, Taken, Asked, Whole;
    RotateObserves(w, f);
    if Taken(w, f) {
      RotateObserves(Updated(w, f), f);
    }
  }

  /** Exactly when a pass over a live resource records its generation. */
  lemma ObservedAfterPass(w: World, f: PrincipalFaults)
    requires Alive(w)
    ensures var d := Pass(w, f);
            && d.resource.Some?
            && d.resource.value.status.observedGeneration ==
               if f.statusWrite && Records(w, f)
               then w.resource.value.generation else w.resource.value.status.observedGeneration
  {
    hide Set, Create, Existing, Asked, Whole, Taken;
    if Proceeds(w, f) {
      if w.remote.None? {
        CreateObserves(w, f);
      } else {
        ExistingObserves(w, f);
      }
    }
  }
}
