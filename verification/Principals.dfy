/**
 The principal reconciler (internal/controller/polarisprincipal_controller.go): the one resource whose remote
 object hands out secrets. Creating or rotating makes Polaris issue a new pair, which has to reach a Kubernetes
 Secret before the reply is gone; nothing can ask for it again.
 */
module Principals {
  import opened Wrappers
  import opened Conditions
  import opened EntityVersions
  import opened Properties

  datatype Creds = Creds(clientId: string, clientSecret: string)

  datatype Resource = Resource(
    generation: nat, properties: Props, rotationRequired: bool, finalizer: bool, deleting: bool, status: Status)

  /** The connection the principal refers to: stored, with a usable Secret, and Ready. */
  datatype Link = Link(name: string, found: bool, builds: bool, ready: bool)

  /**
   issued: every pair Polaris issued to the operator, oldest first. created: the remote principal is one the
   operator created and has not given up. rotations: passes of the present resource that rotated and recorded it.
   */
  datatype World = World(
    resource: Option<Resource>, link: Link, remote: Option<Entity<Props>>, issued: seq<Creds>, secret: Option<Creds>,
    created: bool, rotations: nat)

  /**
   What the reply to a successful create or rotate tells: the pair, part of it, or nothing. A lost reply reads
   like an error, but the pair was issued. A create that finds the principal there is answered 409 and issues nothing.
   */
  datatype CreateReply = Created(actual: Creds, told: Option<Creds>) | CreateLost(actual: Creds) | CreateRefused
  datatype RotateReply = Rotated(actual: Creds, told: Option<Creds>) | RotateLost(actual: Creds) | RotateRefused

  /**
   get: the get succeeds. reported: its reply carries the entity version. between: what other clients do to the
   principal after the get and before a create or update. first: the version the server gives a new principal.
   A delete answered with 404 is Answered.
   */
  datatype PrincipalFaults = PrincipalFaults(
    get: bool, reported: bool, between: seq<Write<Props>>, create: CreateReply, update: Reply, rotate: RotateReply,
    purge: Reply, first: Version, secretWrite: bool, metaWrite: bool, statusWrite: bool, detail: string)

  predicate Complete(told: Option<Creds>) {
    told.Some? && told.value.clientId != "" && told.value.clientSecret != ""
  }

  // ---- A pass as a function ----

  function WithStatus(w: World, st: Status, f: PrincipalFaults): World
    requires w.resource.Some?
  {
    if f.statusWrite then w.(resource := Some(w.resource.value.(status := st))) else w
  }

  function CredentialsCondition(holds: bool, gen: nat, detail: string): Condition {
    if holds then Condition(CredentialsWritten, true, SyncedReason, "written", gen)
    else Condition(CredentialsWritten, false, SyncFailed, detail, gen)
  }

  function Marked(pp: Resource, holds: bool, detail: string): Status {
    pp.status.(conditions := Set(pp.status.conditions, CredentialsCondition(holds, pp.generation, detail)))
  }

  /** removeFinalizer on a resource being deleted. */
  function RemoveFinalizer(w: World, f: PrincipalFaults): World
    requires w.resource.Some?
  {
    if w.resource.value.finalizer && f.metaWrite then w.(resource := None) else w
  }

  /** The remote principal cannot be reached: what was created there is given up with the resource. */
  function GiveUp(w: World, f: PrincipalFaults): World
    requires w.resource.Some?
  {
    var d := RemoveFinalizer(w, f);
    d.(created := d.created && d.resource.Some?)
  }

  function Unresolved(w: World, reason: Reason, f: PrincipalFaults): World
    requires w.resource.Some?
  {
    var pp := w.resource.value;
    if pp.deleting then GiveUp(w, f) else WithStatus(w, Failed(pp.status, pp.generation, reason, f.detail), f)
  }

  function Finalize(w: World, f: PrincipalFaults): World
    requires w.resource.Some?
  {
    match f.purge
    case Refused => w
    case Lost => w.(remote := None, created := false)
    case Answered => RemoveFinalizer(w.(remote := None, created := false), f)
  }

  function SecretFailed(pp: Resource, detail: string): Status {
    Failed(Marked(pp, false, detail), pp.generation, SyncFailed, detail)
  }

  /** Another client's write; what it removes is no longer the operator's creation. */
  function Outsider(w: World, write: Write<Props>): World {
    var remote := Outside(w.remote, write);
    w.(remote := remote, created := w.created && remote.Some?)
  }

  function Outsiders(w: World, writes: seq<Write<Props>>): (d: World)
    ensures d == w.(remote := OutsideAll(w.remote, writes), created := d.created)
    ensures d.created ==> w.created && (w.remote.Some? ==> d.remote.Some?)
    decreases |writes|
  {
    if writes == [] then w else Outsiders(Outsider(w, writes[0]), writes[1..])
  }

  function Issue(w: World, actual: Creds, first: Version): World
    requires w.resource.Some?
  {
    w.(remote := Some(Entity(w.resource.value.properties, first)), issued := w.issued + [actual], created := true)
  }

  function Create(w: World, f: PrincipalFaults): World
    requires w.resource.Some?
  {
    var pp := w.resource.value;
    var now := Outsiders(w, f.between);
    match f.create
    case CreateRefused => WithStatus(now, Failed(pp.status, pp.generation, PolarisError, f.detail), f)
    case CreateLost(actual) =>
      WithStatus(if now.remote.Some? then now else Issue(now, actual, f.first),
                 Failed(pp.status, pp.generation, PolarisError, f.detail), f)
    case Created(actual, told) =>
      if now.remote.Some? then WithStatus(now, SecretFailed(pp, f.detail), f)
      else if Complete(told) && f.secretWrite
      then WithStatus(Issue(now, actual, f.first).(secret := told), Succeeded(Marked(pp, true, ""), pp.generation), f)
      else WithStatus(Issue(now, actual, f.first), SecretFailed(pp, f.detail), f)
  }

  predicate RotationDue(pp: Resource) {
    pp.rotationRequired && pp.status.observedGeneration < pp.generation
  }

  function Done(w: World, rotated: bool, f: PrincipalFaults): World
    requires w.resource.Some?
  {
    var pp := w.resource.value;
    var d := WithStatus(w, Succeeded(pp.status, pp.generation), f);
    if rotated && f.statusWrite then d.(rotations := d.rotations + 1) else d
  }

  /** The one error branch that does not record the generation, so that the rotation is tried again. */
  function RotateFailed(w: World, f: PrincipalFaults): World
    requires w.resource.Some?
  {
    var pp := w.resource.value;
    WithStatus(w, pp.status.(conditions := Set(pp.status.conditions, NotReady(pp.generation, SyncFailed, f.detail))), f)
  }

  function Rotate(w: World, f: PrincipalFaults): World
    requires w.resource.Some?
  {
    var pp := w.resource.value;
    if !RotationDue(pp) then Done(w, false, f)
    else
      match f.rotate
      case RotateRefused => RotateFailed(w, f)
      case RotateLost(actual) => RotateFailed(w.(issued := w.issued + [actual]), f)
      case Rotated(actual, told) =>
        var issued := w.(issued := w.issued + [actual]);
        if told.None? then Done(issued, true, f)
        else if Complete(told) && f.secretWrite then Done(issued.(secret := told), true, f)
        else WithStatus(issued, Marked(pp, false, f.detail), f)
  }

  /** The update request, carrying the version that was read, is one the server takes when it arrives. */
  predicate Taken(w: World, f: PrincipalFaults) {
    w.remote.Some?
        && Compare(OutsideAll(w.remote, f.between), PlainSends(Reported(w.remote.value, f.reported))) == Accepted
  }

  function Existing(w: World, f: PrincipalFaults): World
    requires w.resource.Some? && w.remote.Some?
  {
    var pp := w.resource.value;
    if w.remote.value.value == pp.properties then Rotate(w, f)
    else
      var now := Outsiders(w, f.between);
      if f.update == Refused || !Taken(w, f)
      then WithStatus(now, Failed(pp.status, pp.generation, SyncFailed, f.detail), f)
      else
        var updated := now.(remote := Some(Entity(pp.properties, now.remote.value.version + 1)));
        if f.update == Lost then WithStatus(updated, Failed(pp.status, pp.generation, SyncFailed, f.detail), f)
        else Rotate(updated, f)
  }

  function Pass(w: World, f: PrincipalFaults): World {
    if w.resource.None? then w
    else
      var pp := w.resource.value;
      if !w.link.found then Unresolved(w, ReferenceError, f)
      else if !w.link.builds then Unresolved(w, AuthenticationError, f)
      else if !pp.deleting && !w.link.ready
      then WithStatus(w, Waiting(pp.status, pp.generation, "PolarisConnection " + w.link.name), f)
      else if pp.deleting then Finalize(w, f)
      else if !pp.finalizer then (if f.metaWrite then w.(resource := Some(pp.(finalizer := true))) else w)
      else if !f.get then WithStatus(w, Failed(pp.status, pp.generation, PolarisError, f.detail), f)
      else if w.remote.None? then Create(w, f)
      else Existing(w, f)
  }

  // ---- The reconciler, step by step ----

  class Reconciler {
    var resource: Option<Resource>
    var link: Link
    var remote: Option<Entity<Props>>
    var issued: seq<Creds>
    var secret: Option<Creds>
    var created: bool
    var rotations: nat

    constructor (w: World)
      ensures State() == w
    {
      resource, link, remote := w.resource, w.link, w.remote;
      issued, secret, created, rotations := w.issued, w.secret, w.created, w.rotations;
    }

    function State(): World
      reads this
    {
      World(resource, link, remote, issued, secret, created, rotations)
    }

    /** Status().Update with the local copy; the stored resource keeps its status if the write fails. */
    method UpdateStatus(pp: Resource, f: PrincipalFaults)
      requires resource.Some? && pp == resource.value.(status := pp.status)
      modifies this`resource
      ensures State() == WithStatus(old(State()), pp.status, f)
    {
      if f.statusWrite {
        resource := Some(pp);
      }
    }

    method DropFinalizer(pp: Resource, f: PrincipalFaults)
      requires resource == Some(pp) && pp.deleting
      modifies this`resource
      ensures State() == RemoveFinalizer(old(State()), f)
    {
      if pp.finalizer && f.metaWrite {
        resource := None;
      }
    }

    /** resolveFail: give up a resource being deleted, report on a live one. */
    method ResolveFail(pp: Resource, reason: Reason, f: PrincipalFaults)
      requires resource == Some(pp)
      modifies this`resource, this`created
      ensures State() == Unresolved(old(State()), reason, f)
    {
      if pp.deleting {
        DropFinalizer(pp, f);
        created := created && resource.Some?;
      } else {
        UpdateStatus(pp.(status := Failed(pp.status, pp.generation, reason, f.detail)), f);
      }
    }

    /** writeCredentialsSecret. */
    method WriteCredentialsSecret(creds: Option<Creds>, f: PrincipalFaults) returns (ok: bool)
      modifies this`secret
      ensures ok <==> Complete(creds) && f.secretWrite
      ensures secret == if ok then creds else old(secret)
    {
      if creds.None? || creds.value.clientId == "" || creds.value.clientSecret == "" {
        return false;
      }
      if !f.secretWrite {
        return false;
      }
      secret := creds;
      return true;
    }

    /** The tail every path that ends well shares. */
    method Finish(pp: Resource, rotated: bool, f: PrincipalFaults)
      requires resource.Some? && pp == resource.value.(status := pp.status)
      modifies this`resource, this`rotations
      ensures State() ==
              var w := WithStatus(old(State()), Succeeded(pp.status, pp.generation), f);
              if rotated && f.statusWrite then w.(rotations := w.rotations + 1) else w
    {
      hide Succeeded;
      UpdateStatus(pp.(status := Succeeded(pp.status, pp.generation)), f);
      if rotated && f.statusWrite {
        rotations := rotations + 1;
      }
    }

    method OthersWrite(f: PrincipalFaults)
      modifies this`remote, this`created
      ensures State() == Outsiders(old(State()), f.between)
    {
      var now := Outsiders(State(), f.between);
      remote, created := now.remote, now.created;
    }

    /** updatePrincipal: the request carries a plain number, zero when the get reported no version. */
    method UpdatePrincipal(current: Entity<Props>, properties: Props, f: PrincipalFaults) returns (ok: bool)
      requires remote == Some(current)
      modifies this`remote, this`created
      ensures var taken := f.update != Refused && Taken(old(State()), f);
              var now := Outsiders(old(State()), f.between);
              && State() == (if taken
                             then now.(remote := Some(Entity(properties, now.remote.value.version + 1)))
                             else now)
              && (ok <==> taken && f.update.Answered?)
    {
      var number: nat := 0;
      if f.reported {
        number := current.version;
      }
      OthersWrite(f);
      if f.update.Refused? || remote.None? || remote.value.version != number {
        return false;
      }
      remote := Some(Entity(properties, remote.value.version + 1));
      return f.update.Answered?;
    }

    /** The get answered 404: createPrincipal, then the Secret. */
    method ReconcileMissing(f: PrincipalFaults)
      requires resource.Some?
      modifies this
      ensures State() == Create(old(State()), f)
    {
      hide Failed, Succeeded, Set, CredentialsCondition;
      var pp := resource.value;
      var creds: Option<Creds> := None;
      OthersWrite(f);
      match f.create {
        case CreateRefused =>
          UpdateStatus(pp.(status := Failed(pp.status, pp.generation, PolarisError, f.detail)), f);
          return;
        case CreateLost(actual) =>
          if remote.None? {
            remote, issued, created := Some(Entity(pp.properties, f.first)), issued + [actual], true;
          }
          UpdateStatus(pp.(status := Failed(pp.status, pp.generation, PolarisError, f.detail)), f);
          return;
        case Created(actual, told) =>
          if remote.None? {
            remote, issued, created := Some(Entity(pp.properties, f.first)), issued + [actual], true;
            creds := told;
          }
      }
      var ok := WriteCredentialsSecret(creds, f);
      if !ok {
        pp := pp.(status := Marked(pp, false, f.detail));
        pp := pp.(status := Failed(pp.status, pp.generation, SyncFailed, f.detail));
        UpdateStatus(pp, f);
        return;
      }
      pp := pp.(status := Marked(pp, true, ""));
      Finish(pp, false, f);
    }

    method ReportRotation(pp: Resource, f: PrincipalFaults)
      requires resource == Some(pp)
      modifies this`resource
      ensures State() == RotateFailed(old(State()), f)
    {
      UpdateStatus(pp.(status := pp.status.(conditions :=
        Set(pp.status.conditions, NotReady(pp.generation, SyncFailed, f.detail)))), f);
    }

    /** Rotation, once per generation that asks for it, and the tail. */
    method RotateIfDue(f: PrincipalFaults)
      requires resource.Some?
      modifies this
      ensures State() == Rotate(old(State()), f)
    {
      hide Failed, Succeeded, Set, CredentialsCondition;
      var pp := resource.value;
      var rotated := false;
      if pp.rotationRequired && pp.status.observedGeneration < pp.generation {
        match f.rotate {
          case RotateRefused =>
            ReportRotation(pp, f);
            return;
          case RotateLost(actual) =>
            issued := issued + [actual];
            ReportRotation(pp, f);
            return;
          case Rotated(actual, told) =>
            issued := issued + [actual];
            rotated := true;
            if told.Some? {
              var ok := WriteCredentialsSecret(told, f);
              if !ok {
                UpdateStatus(pp.(status := Marked(pp, false, f.detail)), f);
                return;
              }
            }
        }
      }
      Finish(pp, rotated, f);
    }

    /** The principal is there: bring its properties in line, then see to rotation. */
    method ReconcileExisting(f: PrincipalFaults)
      requires resource.Some? && remote.Some?
      modifies this
      ensures State() == Existing(old(State()), f)
    {
      hide Failed, Rotate, Taken;
      var pp := resource.value;
      var same := EqualProperties(remote.value.value, pp.properties);
      if !same {
        var ok := UpdatePrincipal(remote.value, pp.properties, f);
        if !ok {
          UpdateStatus(pp.(status := Failed(pp.status, pp.generation, SyncFailed, f.detail)), f);
          return;
        }
      }
      RotateIfDue(f);
    }

    /** Reconcile up to the deletion check: true when the pass ends there. */
    method ResolveConnection(f: PrincipalFaults) returns (done: bool)
      requires resource.Some?
      modifies this`resource, this`created
      ensures done ==> State() == Pass(old(State()), f)
      ensures !done ==> State() == old(State()) && link.found && link.builds && (resource.value.deleting || link.ready)
    {
      hide Failed, Waiting, Existing, Create, Finalize;
      var pp := resource.value;
      if !link.found {
        ResolveFail(pp, ReferenceError, f);
        return true;
      }
      if !link.builds {
        ResolveFail(pp, AuthenticationError, f);
        return true;
      }
      if !pp.deleting && !link.ready {
        UpdateStatus(pp.(status := Waiting(pp.status, pp.generation, "PolarisConnection " + link.name)), f);
        return true;
      }
      return false;
    }

    method Reconcile(f: PrincipalFaults)
      modifies this
      ensures State() == Pass(old(State()), f)
    {
      hide Failed, Waiting, Existing, Create;
      if resource.None? {
        return;
      }
      var pp := resource.value;
      var done := ResolveConnection(f);
      if done {
        return;
      }
      if pp.deleting {
        if !f.purge.Refused? {
          remote, created := None, false;
        }
        if f.purge.Answered? {
          DropFinalizer(pp, f);
        }
        return;
      }
      if !pp.finalizer {
        if f.metaWrite {
          resource := Some(pp.(finalizer := true));
        }
        return;
      }
      if !f.get {
        UpdateStatus(pp.(status := Failed(pp.status, pp.generation, PolarisError, f.detail)), f);
        return;
      }
      if remote.None? {
        ReconcileMissing(f);
      } else {
        ReconcileExisting(f);
      }
    }
  }
}
