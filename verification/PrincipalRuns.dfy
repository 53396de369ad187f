/** What holds of a principal's credentials over whole runs, and exactly when it stops holding. */
module PrincipalRuns {
  import opened Wrappers
  import opened Conditions
  import opened EntityVersions
  import opened Properties
  import opened Principals

  datatype Event =
    | Reconcile(f: PrincipalFaults)
    | Edit(properties: Props, rotationRequired: bool)
    | Delete
    | Apply(properties: Props, rotationRequired: bool)
    | LinkBecomes(link: Link)
    | OtherClient(write: Write<Props>)

  function Step(w: World, e: Event): World {
    match e
    case Reconcile(f) => Pass(w, f)
    case Edit(properties, rotationRequired) =>
      if w.resource.None? then w
      else
        var pp := w.resource.value;
        w.(resource := Some(
          pp.(properties := properties, rotationRequired := rotationRequired, generation := pp.generation + 1)))
    case Delete =>
      if w.resource.None? then w
      else if w.resource.value.finalizer then w.(resource := Some(w.resource.value.(deleting := true)))
      else w.(resource := None)
    case Apply(properties, rotationRequired) =>
      if w.resource.Some? then w
      else w.(resource := Some(Resource(1, properties, rotationRequired, false, false, NO_STATUS)), rotations := 0)
    case LinkBecomes(link) => w.(link := link)
    case OtherClient(write) => Outsider(w, write)
  }

  function Run(w: World, events: seq<Event>): World
    decreases |events|
  {
    if events == [] then w else Run(Step(w, events[0]), events[1..])
  }

  function Start(link: Link): World {
    World(None, link, None, [], None, false, 0)
  }

  // ---- One pass issues at most one pair ----

  /** The pass gets as far as the remote principal. */
  predicate Proceeds(w: World, f: PrincipalFaults) {
    && w.resource.Some? && w.link.found && w.link.builds && w.link.ready
    && !w.resource.value.deleting && w.resource.value.finalizer && f.get
  }

  predicate Creates(w: World, f: PrincipalFaults) {
    && Proceeds(w, f) && w.remote.None? && OutsideAll(w.remote, f.between).None?
    && (f.create.Created? || f.create.CreateLost?)
  }

  /** The principal is there, and as the spec asks, or made so. */
  predicate InLine(w: World, f: PrincipalFaults) {
    && Proceeds(w, f) && w.remote.Some?
    && (w.remote.value.value == w.resource.value.properties || (f.update.Answered? && Taken(w, f)))
  }

  predicate Rotates(w: World, f: PrincipalFaults) {
    InLine(w, f) && RotationDue(w.resource.value) && (f.rotate.Rotated? || f.rotate.RotateLost?)
  }

  /** What the operator is told of a pair that was issued. */
  function CreateTold(f: PrincipalFaults): Option<Creds> {
    if f.create.Created? then f.create.told else None
  }

  function RotateTold(f: PrincipalFaults): Option<Creds> {
    if f.rotate.Rotated? then f.rotate.told else None
  }

  predicate Reaches(told: Option<Creds>, f: PrincipalFaults) {
    Complete(told) && f.secretWrite
  }

  /** A pass creates or rotates, never both, and issues a pair exactly then. */
  lemma OnePairPerPass(w: World, f: PrincipalFaults)
    ensures !(Creates(w, f) && Rotates(w, f))
    ensures Pass(w, f).issued == w.issued +
              (if Creates(w, f) then [f.create.actual] else if Rotates(w, f) then [f.rotate.actual] else [])
  {
    hide Complete, Failed, Succeeded, Waiting, Marked, Set, RotationDue, Taken;
  }

  // ---- Rotations are paid for with generations ----

  predicate Paced(w: World) {
    w.resource.Some? ==>
      var pp := w.resource.value;
      w.rotations <= pp.status.observedGeneration <= pp.generation
  }

  /** What a pass may do to the counters: the spec's generation stays, the observed one only moves up. */
  predicate Advances(w: World, d: World) {
    Paced(d) &&
    (w.resource.Some? && d.resource.Some? ==>
       && w.resource.value.status.observedGeneration <= d.resource.value.status.observedGeneration
       && w.resource.value.generation <= d.resource.value.generation)
  }

  /** The world once the principal's update went through. */
  function Updated(w: World, f: PrincipalFaults): World
    requires w.resource.Some? && Taken(w, f)
  {
    var now := Outsiders(w, f.between);
    now.(remote := Some(Entity(w.resource.value.properties, now.remote.value.version + 1)))
  }

  lemma CreateAdvances(w: World, f: PrincipalFaults)
    requires Paced(w) && w.resource.Some?
    ensures Advances(w, Create(w, f))
  {
  }

  lemma RotateAdvances(w: World, f: PrincipalFaults)
    requires Paced(w) && w.resource.Some?
    ensures Advances(w, Rotate(w, f))
  {
    hide Set, Complete, CredentialsCondition;
  }

  lemma ExistingAdvances(w: World, f: PrincipalFaults)
    requires Paced(w) && w.resource.Some? && w.remote.Some?
    ensures Advances(w, Existing(w, f))
  {
    hide Set, Rotate;
    RotateAdvances(w, f);
    if w.remote.value.value != w.resource.value.properties && Taken(w, f) {
      RotateAdvances(Updated(w, f), f);
    }
  }

  lemma StepKeepsPaced(w: World, e: Event)
    requires Paced(w)
    ensures Advances(w, Step(w, e))
  {
    hide Set, Create, Existing;
    if e.Reconcile? && w.resource.Some? {
      CreateAdvances(w, e.f);
      if w.remote.Some? {
        ExistingAdvances(w, e.f);
      }
    }
  }

  /**
   However often a resource is reconciled, the passes that rotated and recorded it are at most its observed
   generation, so at most its generation.
   */
  lemma {:induction false} RotationsAreBounded(w: World, events: seq<Event>)
    requires Paced(w)
    ensures Paced(Run(w, events))
    decreases |events|
  {
    hide Step, Paced;
    if events != [] {
      StepKeepsPaced(w, events[0]);
      RotationsAreBounded(Step(w, events[0]), events[1..]);
    }
  }

  /** A healthy pass rotates an existing principal exactly when the request is newer than the last observed spec. */
  lemma RotatesIffDue(w: World, f: PrincipalFaults)
    requires InLine(w, f) && f.rotate.Rotated?
    ensures Pass(w, f).issued != w.issued <==>
            w.resource.value.rotationRequired
                && w.resource.value.status.observedGeneration < w.resource.value.generation
  {
    OnePairPerPass(w, f);
  }

  // ---- Agreement of the Secret with what was issued ----

  predicate SaysWritten(w: World) {
    w.resource.Some? && IsTrue(w.resource.value.status.conditions, CredentialsWritten)
  }

  /** If the status says the credentials were written, the Secret holds the pair issued last. */
  predicate Agreed(w: World) {
    SaysWritten(w) ==> w.issued != [] && w.secret == Some(w.issued[|w.issued| - 1])
  }

  /** Replies do not make pairs up, and a pair is never issued twice in a row. */
  predicate Honest(w: World, f: PrincipalFaults) {
    && (f.create.Created? && Complete(f.create.told) ==> f.create.told.value == f.create.actual)
    && (f.rotate.Rotated? && Complete(f.rotate.told) ==> f.rotate.told.value == f.rotate.actual)
    && (f.create.Created? || f.create.CreateLost? ==> w.secret != Some(f.create.actual))
    && (f.rotate.Rotated? || f.rotate.RotateLost? ==> w.secret != Some(f.rotate.actual))
  }

  /**
   A pair was issued and did not reach the Secret, and the status, which said that credentials were written, is
   not corrected: because the status write failed too, or because the reply was lost or a rotation's reply had
   no body at all.
   */
  predicate Hazard(w: World, f: PrincipalFaults) {
    && SaysWritten(w)
    && ((Creates(w, f) && !Reaches(CreateTold(f), f) && (!f.statusWrite || f.create.CreateLost?))
        || (Rotates(w, f) && !Reaches(RotateTold(f), f) && (!f.statusWrite || RotateTold(f).None?)))
  }

  lemma MarkedReadsBack(pp: Resource, holds: bool, detail: string)
    ensures IsTrue(Marked(pp, holds, detail).conditions, CredentialsWritten) == holds
  {
    SetIsAnUpdate(pp.status.conditions, CredentialsCondition(holds, pp.generation, detail), CredentialsWritten);
  }

  /** The ordinary status writes leave the credentials condition alone. */
  lemma OtherWritesKeepCredentials(st: Status, gen: nat, reason: Reason, message: string, dep: string)
    ensures Find(Failed(st, gen, reason, message).conditions, CredentialsWritten)
            == Find(st.conditions, CredentialsWritten)
    ensures Find(Succeeded(st, gen).conditions, CredentialsWritten) == Find(st.conditions, CredentialsWritten)
    ensures Find(Waiting(st, gen, dep).conditions, CredentialsWritten) == Find(st.conditions, CredentialsWritten)
  {
    SetIsAnUpdate(st.conditions, NotReady(gen, reason, message), CredentialsWritten);
    SetIsAnUpdate(st.conditions, NotReady(gen, DependencyNotReady, WaitMessage(dep)), CredentialsWritten);
    SetIsAnUpdate(st.conditions, SyncedAt(gen), CredentialsWritten);
    SetIsAnUpdate(Set(st.conditions, SyncedAt(gen)), ReadyAt(gen), CredentialsWritten);
  }

  /** What the stored status says about the credentials after a pass. */
  function SaysAfter(w: World, f: PrincipalFaults): bool {
    if Creates(w, f) && f.create.Created? && f.statusWrite then Reaches(CreateTold(f), f)
    else if Proceeds(w, f) && w.remote.None? && f.create.Created? && !Creates(w, f) && f.statusWrite then false
    else if Rotates(w, f) && f.statusWrite && RotateTold(f).Some? && !Reaches(RotateTold(f), f) then false
    else SaysWritten(w)
  }

  lemma CreateSays(w: World, f: PrincipalFaults)
    requires Proceeds(w, f) && w.remote.None?
    ensures SaysWritten(Create(w, f)) == SaysAfter(w, f)
  {
    hide Set, Find, Marked, Failed, Succeeded;
    var pp := w.resource.value;
    MarkedReadsBack(pp, true, "");
    MarkedReadsBack(pp, false, f.detail);
    OtherWritesKeepCredentials(pp.status, pp.generation, PolarisError, f.detail, "");
    OtherWritesKeepCredentials(Marked(pp, false, f.detail), pp.generation, SyncFailed, f.detail, "");
    OtherWritesKeepCredentials(Marked(pp, true, ""), pp.generation, SyncFailed, f.detail, "");
  }

  lemma RotateSays(w: World, f: PrincipalFaults)
    requires Proceeds(w, f) && w.remote.Some? && w.remote.value.value == w.resource.value.properties
    ensures SaysWritten(Rotate(w, f)) == SaysAfter(w, f)
  {
    hide Set, Find, Marked, Failed, Succeeded;
    var pp := w.resource.value;
    MarkedReadsBack(pp, false, f.detail);
    OtherWritesKeepCredentials(pp.status, pp.generation, SyncFailed, f.detail, "");
    SetIsAnUpdate(pp.status.conditions, NotReady(pp.generation, SyncFailed, f.detail), CredentialsWritten);
  }

  lemma ExistingSays(w: World, f: PrincipalFaults)
    requires Proceeds(w, f) && w.remote.Some?
    ensures SaysWritten(Existing(w, f)) == SaysAfter(w, f)
  {
    hide Set, Find, Failed, Rotate, RotationDue, Complete, Taken;
    var pp := w.resource.value;
    if w.remote.value.value == pp.properties {
      RotateSays(w, f);
    } else if f.update.Answered? && Taken(w, f) {
      RotateSays(Updated(w, f), f);
    } else {
      OtherWritesKeepCredentials(pp.status, pp.generation, SyncFailed, f.detail, "");
    }
  }

  lemma PassSays(w: World, f: PrincipalFaults)
    ensures Pass(w, f).resource.Some? ==> SaysWritten(Pass(w, f)) == SaysAfter(w, f)
    ensures !SaysWritten(w) && SaysWritten(Pass(w, f)) ==> Creates(w, f)
  {
    hide Set, Find, Failed, Waiting, Create, Existing;
    if Proceeds(w, f) {
      if w.remote.None? {
        CreateSays(w, f);
      } else {
        ExistingSays(w, f);
      }
    } else if w.resource.Some? {
      var pp := w.resource.value;
      OtherWritesKeepCredentials(pp.status, pp.generation, ReferenceError, f.detail,
          "PolarisConnection " + w.link.name);
      OtherWritesKeepCredentials(pp.status, pp.generation, AuthenticationError, f.detail, "");
      OtherWritesKeepCredentials(pp.status, pp.generation, PolarisError, f.detail, "");
    }
  }

  lemma RotateSecret(w: World, f: PrincipalFaults)
    requires Proceeds(w, f) && w.remote.Some? && w.remote.value.value == w.resource.value.properties
    ensures Rotate(w, f).secret == if Rotates(w, f) && Reaches(RotateTold(f), f) then RotateTold(f) else w.secret
  {
    hide Succeeded, Marked, Set, RotationDue;
  }

  lemma ExistingSecret(w: World, f: PrincipalFaults)
    requires Proceeds(w, f) && w.remote.Some?
    ensures Existing(w, f).secret == if Rotates(w, f) && Reaches(RotateTold(f), f) then RotateTold(f) else w.secret
  {
    hide Failed, Rotate, RotationDue, Reaches, Taken;
    if w.remote.value.value == w.resource.value.properties {
      RotateSecret(w, f);
    } else if f.update.Answered? && Taken(w, f) {
      RotateSecret(Updated(w, f), f);
    }
  }

  /** The Secret is written exactly when a pair was issued, told in full, and the write went through. */
  lemma SecretAfterPass(w: World, f: PrincipalFaults)
    ensures Pass(w, f).secret ==
              if Creates(w, f) && Reaches(CreateTold(f), f) then CreateTold(f)
              else if Rotates(w, f) && Reaches(RotateTold(f), f) then RotateTold(f)
              else w.secret
  {
    hide Failed, Succeeded, Waiting, Marked, Set, RotationDue, Existing;
    if Proceeds(w, f) && w.remote.Some? {
      ExistingSecret(w, f);
    }
  }

  /** One pass keeps the agreement exactly when it is not a hazard. */
  lemma AgreementIsKeptIffNoHazard(w: World, f: PrincipalFaults)
    requires Agreed(w) && Honest(w, f)
    ensures Agreed(Pass(w, f)) <==> !Hazard(w, f)
  {
    hide Pass, Proceeds;
    OnePairPerPass(w, f);
    SecretAfterPass(w, f);
    PassSays(w, f);
    if Hazard(w, f) {
      HazardKeepsResource(w, f);
    }
  }

  lemma HazardKeepsResource(w: World, f: PrincipalFaults)
    requires Hazard(w, f)
    ensures Pass(w, f).resource.Some?
  {
  }

  predicate EventAgrees(w: World, e: Event) {
    e.Reconcile? ==> Honest(w, e.f) && !Hazard(w, e.f)
  }

  predicate NoHazardOn(w: World, events: seq<Event>)
    decreases |events|
  {
    events == [] || (EventAgrees(w, events[0]) && NoHazardOn(Step(w, events[0]), events[1..]))
  }

  lemma StepKeepsAgreed(w: World, e: Event)
    requires Agreed(w) && EventAgrees(w, e)
    ensures Agreed(Step(w, e))
  {
    hide Pass, Hazard, Honest;
    if e.Reconcile? {
      AgreementIsKeptIffNoHazard(w, e.f);
    }
  }

  /**
   In every run without a hazard, between any two passes, CredentialsWritten means the Secret is the pair issued
   last: failed Secret writes, retried rotations, lost principals and new resources included.
   */
  lemma {:induction false} CredentialsAgree(w: World, events: seq<Event>)
    requires Agreed(w) && NoHazardOn(w, events)
    ensures Agreed(Run(w, events))
    decreases |events|
  {
    hide Agreed, EventAgrees, Step;
    if events != [] {
      StepKeepsAgreed(w, events[0]);
      CredentialsAgree(Step(w, events[0]), events[1..]);
    }
  }

  /** What the operator's environment has to provide to exclude hazards: status writes, and replies, with bodies. */
  lemma PersistentIsSafe(w: World, f: PrincipalFaults)
    requires f.statusWrite && !f.create.CreateLost? && !f.rotate.RotateLost?
            && (f.rotate.Rotated? ==> f.rotate.told.Some?)
    ensures !Hazard(w, f)
  {
  }

  /** A rotation whose Secret write and status write both fail leaves a status that vouches for a dead Secret. */
  lemma HazardsHappen() returns (w: World, f: PrincipalFaults)
    ensures Agreed(w) && Honest(w, f) && SaysWritten(w) && !Agreed(Pass(w, f))
  {
    var old1, new1 := Creds("id", "old"), Creds("id", "new");
    var status := Status(1, [CredentialsCondition(true, 1, "")]);
    var pp := Resource(2, map[], true, true, false, status);
    w := World(Some(pp), Link("c", true, true, true), Some(Entity(map[], 1)), [old1], Some(old1), true, 0);
    f := PrincipalFaults(true, true, [], CreateRefused, Answered, Rotated(new1, Some(new1)), Answered, 1, false, true,
        false, "");
    assert Hazard(w, f);
    AgreementIsKeptIffNoHazard(w, f);
  }

  // ---- The update is a compare-and-set ----

  predicate Unready(w: World, f: PrincipalFaults) {
    w.resource.Some? &&
    Find(w.resource.value.status.conditions, Ready) == Some(NotReady(w.resource.value.generation, SyncFailed, f.detail))
  }

  /** The pass read the principal and found drift. */
  predicate Updates(w: World, f: PrincipalFaults) {
    Proceeds(w, f) && w.remote.Some? && w.remote.value.value != w.resource.value.properties
  }

  /** The get reported a version, and the server still has it. */
  predicate SameVersion(w: World, f: PrincipalFaults) {
    var now := OutsideAll(w.remote, f.between);
    f.reported && w.remote.Some? && now.Some? && now.value.version == w.remote.value.version
  }

  lemma TakenIffSameVersion(w: World, f: PrincipalFaults)
    requires w.remote.Some?
    ensures Taken(w, f) <==> SameVersion(w, f)
  {
  }

  /**
   The update goes through if and only if the stored version is the one the get reported. Otherwise what other
   clients left stands, no pair is issued, and the principal is not Ready, if that can be recorded.
   */
  lemma UpdateIsCompareAndSet(w: World, f: PrincipalFaults)
    requires Updates(w, f)
    ensures var d := Pass(w, f);
            && d.remote == (if SameVersion(w, f) && f.update != Refused
                            then Some(Entity(w.resource.value.properties, w.remote.value.version + 1))
                            else OutsideAll(w.remote, f.between))
            && (!(SameVersion(w, f) && f.update == Answered) ==>
                  d.issued == w.issued && (f.statusWrite ==> Unready(d, f)))
  {
    hide Set, Taken, RotationDue, Complete, Marked, Succeeded;
    TakenIffSameVersion(w, f);
    var pp := w.resource.value;
    SetIsAnUpdate(pp.status.conditions, NotReady(pp.generation, SyncFailed, f.detail), Ready);
  }

  /**
   No lost update for principals: on a server that never gives a version twice the update goes through if and only
   if the get reported a version and no other client changed the principal since, and it replaces what was read.
   */
  lemma UpdateReplacesWhatWasRead(w: World, f: PrincipalFaults)
    requires Updates(w, f) && VersionsRise(w.remote, w.remote.value.version, f.between)
    ensures SameVersion(w, f) <==> f.reported && !AnyEffective(w.remote, f.between)
    ensures SameVersion(w, f) ==> OutsideAll(w.remote, f.between) == w.remote
  {
    NoLostUpdate(w.remote.value, f.between);
  }

  // ---- The finalizer and the status, as for the other kinds ----

  /** A principal the operator created is held by its resource until it is deleted or given up. */
  predicate NotOrphaned(w: World) {
    w.created ==> w.remote.Some? && w.resource.Some? && w.resource.value.finalizer
  }

  predicate Orderly(w: World) {
    NotOrphaned(w) && (w.resource.Some? ==> Coherent(w.resource.value.status, w.resource.value.generation))
  }

  lemma CredentialsKeepCoherence(st: Status, gen: nat, holds: bool, detail: string)
    requires Coherent(st, gen)
    ensures Coherent(st.(conditions := Set(st.conditions, CredentialsCondition(holds, gen, detail))), gen)
  {
    var c := CredentialsCondition(holds, gen, detail);
    SetKeepsOnePerType(st.conditions, c);
    SetIsAnUpdate(st.conditions, c, Ready);
    SetIsAnUpdate(st.conditions, c, Synced);
  }

  lemma UnreadyKeepsCoherence(st: Status, gen: nat, detail: string)
    requires Coherent(st, gen)
    ensures Coherent(st.(conditions := Set(st.conditions, NotReady(gen, SyncFailed, detail))), gen)
  {
    SetKeepsOnePerType(st.conditions, NotReady(gen, SyncFailed, detail));
    SetIsAnUpdate(st.conditions, NotReady(gen, SyncFailed, detail), Ready);
  }

  lemma CreateKeepsOrderly(w: World, f: PrincipalFaults)
    requires Orderly(w) && w.resource.Some? && w.resource.value.finalizer && w.remote.None?
    ensures Orderly(Create(w, f))
  {
    hide Set, Find, Coherent, Failed, Succeeded, Complete;
    var pp := w.resource.value;
    WritesKeepCoherence(pp.status, pp.generation, PolarisError, f.detail, "");
    CredentialsKeepCoherence(pp.status, pp.generation, false, f.detail);
    CredentialsKeepCoherence(pp.status, pp.generation, true, "");
    WritesKeepCoherence(Marked(pp, false, f.detail), pp.generation, SyncFailed, f.detail, "");
    WritesKeepCoherence(Marked(pp, true, ""), pp.generation, SyncFailed, f.detail, "");
  }

  lemma RotateFailedKeepsOrderly(w: World, f: PrincipalFaults)
    requires Orderly(w) && w.resource.Some?
    ensures Orderly(RotateFailed(w, f))
  {
    hide Set, Find, Coherent;
    UnreadyKeepsCoherence(w.resource.value.status, w.resource.value.generation, f.detail);
  }

  lemma RotateKeepsOrderly(w: World, f: PrincipalFaults)
    requires Orderly(w) && w.resource.Some? && w.remote.Some?
    ensures Orderly(Rotate(w, f))
  {
    hide Set, Find, Coherent, Failed, Succeeded, Complete, RotationDue, RotateFailed;
    var pp := w.resource.value;
    WritesKeepCoherence(pp.status, pp.generation, SyncFailed, f.detail, "");
    CredentialsKeepCoherence(pp.status, pp.generation, false, f.detail);
    RotateFailedKeepsOrderly(w, f);
    if f.rotate.RotateLost? {
      RotateFailedKeepsOrderly(w.(issued := w.issued + [f.rotate.actual]), f);
    }
  }

  lemma PassKeepsOrderly(w: World, f: PrincipalFaults)
    requires Orderly(w)
    ensures Orderly(Pass(w, f))
  {
    hide Set, Find, Coherent, Failed, Succeeded, Waiting, Create, Rotate;
    if w.resource.Some? {
      var pp := w.resource.value;
      WritesKeepCoherence(pp.status, pp.generation, ReferenceError, f.detail, "PolarisConnection " + w.link.name);
      WritesKeepCoherence(pp.status, pp.generation, AuthenticationError, f.detail, "");
      WritesKeepCoherence(pp.status, pp.generation, PolarisError, f.detail, "");
      WritesKeepCoherence(pp.status, pp.generation, SyncFailed, f.detail, "");
      if w.remote.Some? {
        RotateKeepsOrderly(w, f);
        if Taken(w, f) {
          RotateKeepsOrderly(Updated(w, f), f);
        }
      } else if pp.finalizer {
        CreateKeepsOrderly(w, f);
      }
    }
  }

  lemma StepKeepsOrderly(w: World, e: Event)
    requires Orderly(w)
    ensures Orderly(Step(w, e))
  {
    if e.Reconcile? {
      PassKeepsOrderly(w, e.f);
    }
  }

  lemma {:induction false} PrincipalStaysOrderly(w: World, events: seq<Event>)
    requires Orderly(w)
    ensures Orderly(Run(w, events))
    decreases |events|
  {
    hide Orderly, Step;
    if events != [] {
      StepKeepsOrderly(w, events[0]);
      PrincipalStaysOrderly(Step(w, events[0]), events[1..]);
    }
  }
}
