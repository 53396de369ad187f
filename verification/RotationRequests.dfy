/**
 What becomes of a rotation request: a live principal asks for rotation under a generation not yet observed. A pass
 answers it, leaves it standing, or loses it; once lost it stays so until the spec is edited again or the resource is
 replaced (internal/controller/polarisprincipal_controller.go).
 */
module RotationRequests {
  import opened Wrappers
  import opened Conditions
  import opened EntityVersions
  import opened Properties
  import opened Principals
  import opened PrincipalRuns

  /** A rotation is due on a resource that is not being deleted. */
  predicate Requested(w: World) {
    w.resource.Some? && !w.resource.value.deleting && RotationDue(w.resource.value)
  }

  /**
   The pass ends in a branch that records the generation before rotation is reached: the connection cannot be used,
   the get fails, a create issues nothing, or an update is needed and does not come back well.
   */
  predicate FailsEarly(w: World, f: PrincipalFaults) {
    || !w.link.found || !w.link.builds
    || (w.link.ready && w.resource.Some? && w.resource.value.finalizer &&
          (|| !f.get
           || (w.remote.None? && !Creates(w, f))
           || (w.remote.Some? && !InLine(w, f))))
  }

  lemma FailedObserves(st: Status, gen: nat, reason: Reason, message: string, dep: string)
    ensures Failed(st, gen, reason, message).observedGeneration == gen
    ensures Succeeded(st, gen).observedGeneration == gen
    ensures Waiting(st, gen, dep).observedGeneration == st.observedGeneration
  {
  }

  lemma CreateDecides(w: World, f: PrincipalFaults)
    requires Requested(w) && Proceeds(w, f) && w.remote.None?
    ensures var d := Create(w, f);
            && d.resource.Some?
            && (Creates(w, f) || (RotationDue(d.resource.value) <==> !f.statusWrite))
  {
    hide Set, Complete;
  }

  lemma RotateDecides(w: World, f: PrincipalFaults)
    requires Requested(w)
    ensures var d := Rotate(w, f);
            d.resource.Some? && (f.rotate.RotateRefused? ==> RotationDue(d.resource.value) && d.issued == w.issued)
  {
    hide Set, Complete;
  }

  lemma ExistingDecides(w: World, f: PrincipalFaults)
    requires Requested(w) && Proceeds(w, f) && w.remote.Some?
    ensures var d := Existing(w, f);
            && d.resource.Some?
            && (!InLine(w, f) ==> (RotationDue(d.resource.value) <==> !f.statusWrite))
            && (InLine(w, f) && f.rotate.RotateRefused? ==> RotationDue(d.resource.value))
  {
    hide Set, Rotate, Taken;
    if w.remote.value.value == w.resource.value.properties {
      RotateDecides(w, f);
    } else if Taken(w, f) {
      RotateDecides(Updated(w, f), f);
    }
  }

  /**
   Exactly when a request is lost: no pair was issued for it, and it is no longer due. That is when the pass fails
   early and its status write succeeds.
   */
  lemma RequestIsLostIff(w: World, f: PrincipalFaults)
    requires Requested(w)
    ensures var d := Pass(w, f);
            && d.resource.Some?
            && (!RotationDue(d.resource.value) && d.issued == w.issued <==> f.statusWrite && FailsEarly(w, f))
  {
    OnePairPerPass(w, f);
    if Proceeds(w, f) {
      hide Create, Existing, Taken, RotationDue;
      if w.remote.None? {
        CreateDecides(w, f);
      } else {
        ExistingDecides(w, f);
      }
    } else {
      hide Set, Create, Existing, Taken;
      FailedObserves(w.resource.value.status, w.resource.value.generation, PolarisError, f.detail, "");
    }
  }

  /** And exactly when it is answered by a new pair: the pass gets that far and the server issues one. */
  lemma RequestIsAnsweredIff(w: World, f: PrincipalFaults)
    requires Requested(w)
    ensures Pass(w, f).issued != w.issued <==> Creates(w, f) || (InLine(w, f) && !f.rotate.RotateRefused?)
  {
    OnePairPerPass(w, f);
  }

  // ---- A request that is no longer due ----

  predicate LeavesSpecAlone(e: Event) {
    !e.Edit? && !e.Apply?
  }

  predicate NothingDue(w: World) {
    w.resource.Some? ==> !RotationDue(w.resource.value)
  }

  lemma StepStaysUndue(w: World, e: Event)
    requires Paced(w) && NothingDue(w) && LeavesSpecAlone(e)
    ensures Paced(Step(w, e)) && NothingDue(Step(w, e))
  {
    hide Pass;
    StepKeepsPaced(w, e);
    if e.Reconcile? {
      PassKeepsSpec(w, e.f);
    }
  }

  predicate SameSpec(w: World, d: World) {
    && (w.resource.None? ==> d.resource.None?)
    && (w.resource.Some? && d.resource.Some? ==>
          && d.resource.value.rotationRequired == w.resource.value.rotationRequired
          && d.resource.value.generation == w.resource.value.generation)
  }

  lemma RotateKeepsSpec(w: World, f: PrincipalFaults)
    requires w.resource.Some?
    ensures SameSpec(w, Rotate(w, f))
  {
    hide Set, Complete, RotationDue, Succeeded, Marked;
  }

  lemma CreateKeepsSpec(w: World, f: PrincipalFaults)
    requires w.resource.Some?
    ensures SameSpec(w, Create(w, f))
  {
    hide Set, Complete, Failed, Succeeded, Marked;
  }

  lemma PassKeepsSpec(w: World, f: PrincipalFaults)
    ensures SameSpec(w, Pass(w, f))
  {
    hide Create, Rotate, Taken, Failed, Waiting;
    if w.resource.Some? {
      CreateKeepsSpec(w, f);
      RotateKeepsSpec(w, f);
      if Taken(w, f) {
        RotateKeepsSpec(Updated(w, f), f);
      }
    }
  }

  /** No pass of the run rotates. */
  predicate NeverRotates(w: World, events: seq<Event>)
    decreases |events|
  {
    events == [] ||
    ((events[0].Reconcile? ==> !Rotates(w, events[0].f)) && NeverRotates(Step(w, events[0]), events[1..]))
  }

  /** However often the resource is reconciled, and whatever else happens, nothing rotates until the spec changes. */
  lemma {:induction false} LostStaysLost(w: World, events: seq<Event>)
    requires Paced(w) && NothingDue(w)
    requires forall e :: e in events ==> LeavesSpecAlone(e)
    ensures NeverRotates(w, events) && NothingDue(Run(w, events))
    decreases |events|
  {
    hide Step, Paced;
    if events != [] {
      assert events[0] in events;
      StepStaysUndue(w, events[0]);
      LostStaysLost(Step(w, events[0]), events[1..]);
    }
  }

  /** The next edit that asks for it makes rotation due again. */
  lemma EditAsksAgain(w: World, properties: Props)
    requires Paced(w) && w.resource.Some?
    ensures RotationDue(Step(w, Edit(properties, true)).resource.value)
  {
  }

  /** One failing get, recorded, and the rotation it was fetched for never happens. */
  lemma EarlyErrorLosesRotation(w: World, failing: PrincipalFaults, events: seq<Event>)
    requires Paced(w) && Requested(w) && !failing.get && failing.statusWrite
    requires w.link.ready && w.resource.value.finalizer
    requires forall e :: e in events ==> LeavesSpecAlone(e)
    ensures Pass(w, failing).issued == w.issued && NeverRotates(Pass(w, failing), events)
  {
    hide Pass, RotationDue, Paced;
    RequestIsLostIff(w, failing);
    StepKeepsPaced(w, Reconcile(failing));
    LostStaysLost(Pass(w, failing), events);
  }
}
