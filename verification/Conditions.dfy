/**
 Status conditions (internal/controller/helpers.go): the list kept in status.conditions, the setters,
 and the quiet wait on a parent that is not Ready yet.
 */
module Conditions {
  import opened Wrappers

  datatype ConditionType = Ready | Synced | AuthValid | CredentialsWritten

  datatype Reason =
    | Reconciled | SyncedReason | CredentialsValid
    | ReferenceError | AuthenticationError | PolarisError | InvalidSpec | SyncFailed
    | DependencyNotReady

  datatype Condition = Condition(kind: ConditionType, holds: bool, reason: Reason, message: string, generation: nat)

  /** The part of status every kind shares. */
  datatype Status = Status(observedGeneration: nat, conditions: seq<Condition>)

  const NO_STATUS := Status(0, [])

  /** meta.FindStatusCondition. */
  function Find(conditions: seq<Condition>, kind: ConditionType): (found: Option<Condition>)
    ensures found.Some? ==> found.value in conditions && found.value.kind == kind
    ensures found.None? ==> forall c :: c in conditions ==> c.kind != kind
  {
    if conditions == [] then None
    else if conditions[0].kind == kind then Some(conditions[0])
    else Find(conditions[1..], kind)
  }

  /** meta.SetStatusCondition: overwrite the entry of that type in place, or append one. */
  function Set(conditions: seq<Condition>, c: Condition): seq<Condition> {
    if conditions == [] then [c]
    else if conditions[0].kind == c.kind then [c] + conditions[1..]
    else [conditions[0]] + Set(conditions[1..], c)
  }

  /** The CRD's list-map rule: one entry per type. */
  predicate OnePerType(conditions: seq<Condition>) {
    forall i, j :: 0 <= i < j < |conditions| ==> conditions[i].kind != conditions[j].kind
  }

  /** Setting a condition is an update of the map from types to conditions the list stands for. */
  lemma {:induction false} SetIsAnUpdate(conditions: seq<Condition>, c: Condition, kind: ConditionType)
    ensures Find(Set(conditions, c), kind) == if kind == c.kind then Some(c) else Find(conditions, kind)
  {
    if conditions != [] && conditions[0].kind != c.kind {
      SetIsAnUpdate(conditions[1..], c, kind);
    }
  }

  lemma {:induction false} SetKeepsOnePerType(conditions: seq<Condition>, c: Condition)
    requires OnePerType(conditions)
    ensures OnePerType(Set(conditions, c))
    ensures forall d :: d in Set(conditions, c) ==> d == c || d in conditions
  {
    if conditions != [] && conditions[0].kind != c.kind {
      var rest := conditions[1..];
      assert forall d :: d in rest ==> d.kind != conditions[0].kind;
      SetKeepsOnePerType(rest, c);
      var result := Set(conditions, c);
      assert result[1..] == Set(rest, c);
      assert forall d :: d in result[1..] ==> d.kind != conditions[0].kind;
    }
  }

  /** Setting the condition that is already there changes nothing, not even the order. */
  lemma {:induction false} SetIsIdempotent(conditions: seq<Condition>, c: Condition)
    requires Find(conditions, c.kind) == Some(c)
    ensures Set(conditions, c) == conditions
  {
    if conditions[0].kind != c.kind {
      SetIsIdempotent(conditions[1..], c);
    }
  }

  predicate IsTrue(conditions: seq<Condition>, kind: ConditionType) {
    var c := Find(conditions, kind);
    c.Some? && c.value.holds
  }

  // ---- What the reconcilers write ----

  function NotReady(gen: nat, reason: Reason, message: string): Condition {
    Condition(Ready, false, reason, message, gen)
  }

  function ReadyAt(gen: nat): Condition {
    Condition(Ready, true, Reconciled, "reconciled", gen)
  }

  function SyncedAt(gen: nat): Condition {
    Condition(Synced, true, SyncedReason, "state matches spec", gen)
  }

  /** setNotReady followed by recording the generation: every error branch except rotation. */
  function Failed(st: Status, gen: nat, reason: Reason, message: string): Status {
    Status(gen, Set(st.conditions, NotReady(gen, reason, message)))
  }

  /** The last lines of a successful reconcile. */
  function Succeeded(st: Status, gen: nat): Status {
    Status(gen, Set(Set(st.conditions, SyncedAt(gen)), ReadyAt(gen)))
  }

  // ---- waitForDependency ----

  function WaitMessage(dep: string): string {
    "waiting for " + dep + " to be ready"
  }

  predicate WaitRecorded(st: Status, gen: nat, dep: string) {
    Find(st.conditions, Ready) == Some(NotReady(gen, DependencyNotReady, WaitMessage(dep)))
  }

  function Waiting(st: Status, gen: nat, dep: string): Status {
    if WaitRecorded(st, gen, dep) then st
    else Status(st.observedGeneration, Set(st.conditions, NotReady(gen, DependencyNotReady, WaitMessage(dep))))
  }

  /** What a reader finds after a wait, whether it was on record before or not. */
  lemma WaitReadsBack(st: Status, gen: nat, dep: string)
    ensures Find(Waiting(st, gen, dep).conditions, Ready)
         == Some(Condition(Ready, false, DependencyNotReady, "waiting for " + dep + " to be ready", gen))
    ensures Waiting(st, gen, dep).observedGeneration == st.observedGeneration
    ensures forall kind :: kind != Ready ==> Find(Waiting(st, gen, dep).conditions, kind) == Find(st.conditions, kind)
  {
    forall kind: ConditionType
      ensures Find(Set(st.conditions, NotReady(gen, DependencyNotReady, WaitMessage(dep))), kind)
           == if kind == Ready then Some(NotReady(gen, DependencyNotReady, WaitMessage(dep)))
               else Find(st.conditions, kind)
    {
      SetIsAnUpdate(st.conditions, NotReady(gen, DependencyNotReady, WaitMessage(dep)), kind);
    }
  }

  /** What a reader finds after a failure. */
  lemma FailureReadsBack(st: Status, gen: nat, reason: Reason, message: string)
    ensures Find(Failed(st, gen, reason, message).conditions, Ready)
            == Some(Condition(Ready, false, reason, message, gen))
    ensures Failed(st, gen, reason, message).observedGeneration == gen
    ensures forall kind :: kind != Ready ==>
              Find(Failed(st, gen, reason, message).conditions, kind) == Find(st.conditions, kind)
  {
    forall kind: ConditionType
      ensures Find(Set(st.conditions, NotReady(gen, reason, message)), kind)
           == if kind == Ready then Some(NotReady(gen, reason, message)) else Find(st.conditions, kind)
    {
      SetIsAnUpdate(st.conditions, NotReady(gen, reason, message), kind);
    }
  }

  /** The stored status after one wait whose status write, if attempted, goes through or not. */
  function AfterWait(st: Status, gen: nat, dep: string, writeOk: bool): Status {
    if writeOk then Waiting(st, gen, dep) else st
  }

  function AfterWaits(st: Status, gen: nat, dep: string, writeOk: seq<bool>): Status
    decreases |writeOk|
  {
    if writeOk == [] then st else AfterWaits(AfterWait(st, gen, dep, writeOk[0]), gen, dep, writeOk[1..])
  }

  /** How many of these waits wrote the status successfully. */
  function WaitWrites(st: Status, gen: nat, dep: string, writeOk: seq<bool>): nat
    decreases |writeOk|
  {
    if writeOk == [] then 0
    else
      (if writeOk[0] && !WaitRecorded(st, gen, dep) then 1 else 0)
      + WaitWrites(AfterWait(st, gen, dep, writeOk[0]), gen, dep, writeOk[1..])
  }

  /**
   However long an object waits on one parent at one generation, at most one status write succeeds,
   none once the wait is recorded, and observedGeneration never moves. A write that fails is retried:
   exactly one succeeds if any attempt is allowed to.
   */
  lemma {:induction false} WaitsAreQuiet(st: Status, gen: nat, dep: string, writeOk: seq<bool>)
    ensures WaitWrites(st, gen, dep, writeOk) == if WaitRecorded(st, gen, dep) || true !in writeOk then 0 else 1
    ensures AfterWaits(st, gen, dep, writeOk).observedGeneration == st.observedGeneration
    ensures WaitRecorded(AfterWaits(st, gen, dep, writeOk), gen, dep) <==> WaitRecorded(st, gen, dep) || true in writeOk
    decreases |writeOk|
  {
    if writeOk != [] {
      SetIsAnUpdate(st.conditions, NotReady(gen, DependencyNotReady, WaitMessage(dep)), Ready);
      WaitsAreQuiet(AfterWait(st, gen, dep, writeOk[0]), gen, dep, writeOk[1..]);
    }
  }

  // ---- Coherence ----

  /**
   What readers of a status rely on. Ready=True is only ever reported together with Synced=True, for one
   generation, which is the observed one; nothing is observed before it exists.
   */
  predicate Coherent(st: Status, generation: nat) {
    && OnePerType(st.conditions)
    && st.observedGeneration <= generation
    && var ready := Find(st.conditions, Ready);
       var synced := Find(st.conditions, Synced);
       ready.Some? && ready.value.holds ==>
         && synced.Some? && synced.value.holds
         && ready.value.generation == synced.value.generation == st.observedGeneration
  }

  lemma WritesKeepCoherence(st: Status, gen: nat, reason: Reason, message: string, dep: string)
    requires Coherent(st, gen)
    ensures Coherent(Failed(st, gen, reason, message), gen)
    ensures Coherent(Succeeded(st, gen), gen)
    ensures Coherent(Waiting(st, gen, dep), gen)
  {
    var failed, waiting := NotReady(gen, reason, message), NotReady(gen, DependencyNotReady, WaitMessage(dep));
    SetKeepsOnePerType(st.conditions, failed);
    SetIsAnUpdate(st.conditions, failed, Ready);
    SetKeepsOnePerType(st.conditions, waiting);
    SetIsAnUpdate(st.conditions, waiting, Ready);
    SucceededReadsBack(st, gen);
    SetKeepsOnePerType(st.conditions, SyncedAt(gen));
    SetKeepsOnePerType(Set(st.conditions, SyncedAt(gen)), ReadyAt(gen));
  }

  lemma SucceededReadsBack(st: Status, gen: nat)
    ensures Succeeded(st, gen).observedGeneration == gen
    ensures Find(Succeeded(st, gen).conditions, Ready) == Some(ReadyAt(gen))
    ensures Find(Succeeded(st, gen).conditions, Synced) == Some(SyncedAt(gen))
  {
    var synced := Set(st.conditions, SyncedAt(gen));
    SetIsAnUpdate(st.conditions, SyncedAt(gen), Synced);
    SetIsAnUpdate(synced, ReadyAt(gen), Synced);
    SetIsAnUpdate(synced, ReadyAt(gen), Ready);
  }
}
