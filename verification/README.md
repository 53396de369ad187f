# A model of polaris-k8s

polaris-k8s is a Kubernetes operator. Each custom resource it manages stands for one object on an Apache Polaris
server, and every reconcile drives the two towards agreement: finalizer first, a quiet wait while a parent is not
Ready, then get, create or update, and on deletion the remote object before the finalizer. This project models that
protocol between two stores and proves what it guarantees over whole runs: with any order of reconciles, any
interleaving of their steps, failing calls, lost replies, and other actors writing to the server.

Three views of the operator are proved to be one:

* `Reconcilers` and `Principals` run the reconcilers step by step, in the order the source tries things;
* `Operator.Reconcile` and `Principals.Pass` say what such a pass does, as functions; the convergence, teardown,
  status and credential results are about runs of these;
* `Interleavings` cuts a pass into its single steps and mixes them with everything else that can happen;
  `PassSteps` proves every pass to be one of these runs.

| Module | Subject |
|---|---|
| Properties, Catalogs | drift detection and patches: property bags, string sets, catalog bodies |
| NamespacePath, NamespaceEncoding | the walk along parentRef, and the encoding of its result |
| Conditions, StatusRuns | the condition list, the quiet wait, what a status means in every reachable state |
| Kubernetes, Polaris, Operator, Reconcilers | the two stores and one pass over each kind |
| References, PassLaws | what a pass does, told from manifests, readiness and replies alone |
| ColdStart, SweepRuns, ReferenceDepth, Teardown, Lifecycle | convergence from a first apply, teardown, and both in a row |
| Interleavings, PassSteps | no remote object without a resource that holds it, over all interleavings |
| EntityVersions, Races, Grants | entity versions, other clients' writes between get and update, add and revoke |
| Principals, PrincipalRuns, PrincipalPasses, RotationRequests, SecretTrust | credentials between Polaris, the Secret and the status |
| TokenCache, TokenThreads | the OAuth token cache (section 4.4 of RFC 6749; expires_in is section 5.1) |

## Assumptions

* One worker per resource, as controller-runtime provides. A pass reads the references as they are when it runs;
  `Interleavings` drops this and lets each reference be read at its own moment.
* The operator's finalizer is the only one. References and Polaris-side names of a resource do not change under its
  key; the code has the same blind spot, since a rename strands the old remote object.
* An error reply means nothing changed. A reply can also be lost after the request was carried out, which the
  operator cannot tell from an error.
* Every entity on the server has a version, 1 or more, that each write raises; an update that carries a version is
  taken only at that version, one that carries none always. Other clients may overwrite, delete and recreate the
  object between a pass's get and its write, any number of times.
* The server stores the body it is sent, returns `default-base-location` apart from the other properties, answers 404
  to a create without its container, refuses to delete a container with something in it, and deletes a role's grants
  with the role.
* Cold start further assumes that all references resolve, that no two resources claim one remote object, that
  catalogs can be rendered and do not list the reserved key, and that grant targets lie in the role's catalog. The
  last two are not checked by the operator; `Catalogs.WriteRepairsDrift` and `Grants.TargetIsMetIffSameCatalog` say
  exactly what they are worth. `Lifecycle.ExampleIsLive` gives manifests of every kind that meet all of this.

## Where the code and its promises part

Each of these is proved with a concrete input, or as the condition under which the promise holds:

* a catalog spec that lists the reserved property key is written on every pass, reported Ready, and still drifts
  (`Races.ReservedKeyDriftsForever`);
* the set comparison of allowed locations is right for every left side exactly if the right side has no duplicates;
  that the CRD's set rule provides (`Properties.SameStringsSoundIffNoDuplicates`);
* Ready and Synced can be reported of a namespace that has none of the spec's properties, when another actor wins the
  race to create it (`Races.ReadyCanBeStale`) or writes before a patch (`Races.PatchedRace`);
* Ready says that a principal's Secret is the pair issued last exactly until a pass of the kind
  `SecretTrust.Misleads` spells out; one such run leaves Ready with no Secret for good
  (`SecretTrust.ReadyWithoutSecret`);
* a rotation request is lost exactly when a pass fails before rotation and records its status
  (`RotationRequests.RequestIsLostIff`), and then stays lost until the spec is edited or the resource replaced;
* a successful rotation never turns CredentialsWritten back to True (`SecretTrust.WrittenIsNotRegained`), and
  CredentialsWritten can vouch for a dead Secret (`PrincipalRuns.HazardsHappen`);
* a token lifetime beyond 292 years wraps around: the token is reused as if granted the lifetime modulo 2^64
  nanoseconds, and never if that has its top bit set (`TokenCache.ReusedIff`, `TokenCache.NeverReusedIff`);
* versions that restart when an entity is recreated let an update overwrite an entity that was never read
  (`Races.RestartedVersionsLoseUpdates`); a catalog whose get reports no version is updated blindly, a role or
  principal never (`Races.UnversionedCatalogOverwrites`, `Races.UnversionedRoleIsRefused`).

## Model

| member | source | states |
|---|---|---|
| Properties.EqualProperties | internal/controller/helpers.go:136-146 | the size test and a scan of one side decide equality of the two bags, in any iteration order |
| Properties.IncludedMapsOfEqualSize | internal/controller/helpers.go:136-146 | why one side is enough: a bag included in another of the same size is that bag |
| Properties.DiffProperties | internal/controller/polarisnamespace_controller.go:246-262 | the two loops compute exactly the keys to write and, without repetition, the keys to remove |
| Properties.PatchIsExact | internal/controller/polarisnamespace_controller.go:246-262 | the patch turns any observed bag into exactly the desired one; its two halves touch no common key, as the updateProperties request demands |
| Properties.PatchIsMinimal | internal/controller/polarisnamespace_controller.go:246-262 | every edit that reaches the desired bag touches all the keys the computed patch touches |
| Properties.DiffEmptyIffEqual | internal/controller/polarisnamespace_controller.go:143-155 | the patch is empty, so no request is sent, if and only if the bags are equal |
| Properties.StalePatch | internal/controller/polarisnamespace_controller.go:211-229 | a patch applied after someone else's write gives the desired bag if and only if every key outside the patch agrees already |
| Properties.EqualStringSet | internal/controller/polariscatalog_controller.go:370-384 | true if and only if the lengths agree and the right list's strings all occur in the left |
| Properties.SameStringsDecides | internal/controller/polariscatalog_controller.go:370-384 | with a duplicate-free right list this decides that the left list is duplicate-free with the same elements |
| Properties.SameStringsSoundIffNoDuplicates | api/v1alpha1/polariscatalog_types.go:100-105 | the CRD's set rule is exactly what makes the comparison right for every left list |
| Catalogs.BuildProperties | internal/controller/polariscatalog_controller.go:280-304 | the loop sends the spec's properties with the base location under the reserved key, in any iteration order |
| Catalogs.DriftsFrom | internal/controller/polariscatalog_controller.go:211-233 | the early returns and the two comparisons amount to the drift predicate |
| Catalogs.DriftIsDecided | internal/controller/polariscatalog_controller.go:211-233 | no drift if and only if every field the operator owns agrees, locations as sets |
| Catalogs.BodyCarriesSpec | internal/controller/polariscatalog_controller.go:335-368 | a request body exists if and only if the storage kind's own block is there or none is needed, and carries the spec's properties, locations and that block |
| Catalogs.WriteRepairsDrift | internal/controller/polariscatalog_controller.go:280-333 | what is read back after a create or update has no drift, whatever was there before, if and only if the spec does not list the reserved key |
| Catalogs.SomeSpecAlwaysDrifts | internal/controller/polariscatalog_controller.go:282-286 | an instance: a spec whose read-back drifts |
| Races.ReservedKeyDriftsForever | internal/controller/polariscatalog_controller.go:129-151 | for every such spec, each of n healthy passes over a drifted catalog writes it once more, reports it Ready, and leaves drift |
| NamespacePath.ResolveNamespacePath | internal/controller/helpers.go:285-329 | the climbing loop, with its depth bound and cross-catalog check, gives the recursive walk's result and the same error |
| NamespacePath.PathWalkIsExact | internal/controller/helpers.go:285-329 | success if and only if a chain of at most 32 stored parents in the leaf's catalog reaches a root and the catalog is stored; the result is its names from the root down |
| NamespacePath.CyclesNeverResolve | internal/controller/helpers.go:294-322 | a chain that revisits a namespace has no root at any depth and always ends in an error |
| NamespacePath.PathsCompose | internal/controller/helpers.go:290-328 | a child resolves if and only if its parent does in the same catalog with at most 31 ancestors, and then its path is the parent's and its own name |
| NamespacePath.PathInLargerStore | internal/controller/helpers.go:285-329 | a path that resolves goes on resolving, to the same path, when more resources are stored |
| NamespaceEncoding.RoundTrip | internal/controller/polarisnamespace_controller.go:238-242 | splitting the joined path gives it back if and only if no segment holds the separator |
| NamespaceEncoding.EncodeDecode | internal/controller/polarisnamespace_controller.go:238-242 | joining the split of any string gives the string back |
| NamespaceEncoding.EncodingOfTwo | internal/controller/polarisnamespace_controller.go:238-242 | the separator is the character 0x1F, between segments only |
| NamespaceEncoding.ResolvedPathsStayApart | api/v1alpha1/polarisnamespace_types.go:31-36 | under the admitted names two resolved namespaces share an encoded address if and only if their paths are equal |
| Conditions.SetIsAnUpdate | internal/controller/helpers.go:333-371 | setting a condition updates that type's entry and no other |
| Conditions.SetKeepsOnePerType | internal/controller/helpers.go:333-371 | the list keeps one entry per type |
| Conditions.WaitsAreQuiet | internal/controller/helpers.go:76-107 | any run of waits on one parent at one generation writes the status at most once, retries until a write succeeds, and never moves observedGeneration |
| Conditions.WaitReadsBack | internal/controller/helpers.go:87-107 | after a wait Ready is False for DependencyNotReady with the parent's name, other conditions and observedGeneration as before |
| Conditions.FailureReadsBack | internal/controller/helpers.go:343-351 | after a failure Ready is False with its reason and message, the generation is recorded, other conditions are as before |
| Conditions.WritesKeepCoherence | internal/controller/helpers.go:333-371 | every status the reconcilers write keeps Ready tied to Synced at the observed generation |
| StatusRuns.StatusIsAlwaysCoherent | internal/controller/polariscatalog_controller.go:117-151 | in every run of passes with any failures, edits, deletes and applies, all statuses but the connections' stay coherent |
| StatusRuns.StatusIsCoherentFromScratch | internal/controller/polariscatalog_controller.go:147-151 | in every state reachable from nothing, Ready implies Synced at the observed generation, which is not ahead of the spec |
| Reconcilers.Controller.WaitForDependency | internal/controller/helpers.go:87-107 | records the wait, and writes nothing when this wait is on record |
| Reconcilers.Controller.EnsureFinalizer | internal/controller/helpers.go:375-386 | the pass goes on only with the finalizer stored by an earlier one |
| Reconcilers.Controller.DropFinalizer | internal/controller/helpers.go:388-399 | removing the last finalizer of a deleted resource removes the resource; a failed write leaves it |
| Reconcilers.Controller.ResolveFail | internal/controller/polaristable_controller.go:259-269 | an unresolvable reference lets a deleted resource go and is reported on a live one |
| Reconcilers.Controller.FinalizeAt | internal/controller/polariscatalog_controller.go:154-165 | the finalizer goes only after a delete answered with 2xx or 404 |
| Reconcilers.Controller.GrantBodyFor | internal/controller/polarisgrant_controller.go:197-255 | the body built entry by entry is the one the resolution function gives, or none if a reference fails |
| Reconcilers.Controller.ConvergeNamespace | internal/controller/polarisnamespace_controller.go:121-162 | get, create or patch: the two stores end as the converge function says, for every failure and race |
| Reconcilers.Controller.VersionToSend | internal/controller/polariscatalogrole_controller.go:204-210 | the update carries the version its get reported; without one a catalog's carries nothing and a role's carries zero |
| Reconcilers.Controller.ConvergeVersioned | internal/controller/polariscatalogrole_controller.go:121-158 | get, create or update with the version read, compared by the server after other clients' writes: the two stores end as the converge function says, for every failure and race |
| Reconcilers.Controller.ConvergeGrant | internal/controller/polarisgrant_controller.go:147-179 | put without a get, 404 as a wait, likewise |
| Reconcilers.Controller.ReconcileConnection | internal/controller/polarisconnection_controller.go:50-102 | the connection's pass is the pass function's, for every failure |
| Reconcilers.Controller.ReconcileCatalog | internal/controller/polariscatalog_controller.go:54-152 | the catalog's pass is the pass function's, for every state and every failure |
| Reconcilers.Controller.ReconcileNamespace | internal/controller/polarisnamespace_controller.go:47-163 | the namespace's pass, likewise |
| Reconcilers.Controller.ReconcileTable | internal/controller/polaristable_controller.go:50-170 | the table's pass, likewise |
| Reconcilers.Controller.ReconcileCatalogRole | internal/controller/polariscatalogrole_controller.go:45-159 | the role's pass, likewise |
| Reconcilers.Controller.ReconcileGrant | internal/controller/polarisgrant_controller.go:48-180 | the grant's pass, likewise |
| References.CatalogLivesAt | internal/controller/helpers.go:109-156 | a catalog's remote object is on its connection's server under its Polaris name, if that connection is stored with its Secret; a reference's own namespace and a set spec name win over the defaults |
| References.NamespaceLivesAt | internal/controller/polarisnamespace_controller.go:65-109 | a namespace lives at its resolved path in the catalog it refers to |
| References.TableLivesAt | internal/controller/polaristable_controller.go:68-91 | a table lives in the namespace it refers to, under its Polaris name |
| References.RoleLivesAt | internal/controller/polariscatalogrole_controller.go:63-109 | a role lives in the catalog it refers to, under its Polaris name |
| References.GrantBodySays | internal/controller/polarisgrant_controller.go:200-255 | a grant's body carries the privilege its spec asks for, on the catalog, resolved path or table its target names; there is none if and only if the target is incomplete or does not resolve |
| References.GrantLivesAt | internal/controller/polarisgrant_controller.go:66-135 | a grant's remote object is that body in the role it refers to |
| References.PrivilegesStayApart | internal/controller/polarisgrant_controller.go:200-207 | grants of different privileges are never one remote grant |
| PassLaws.ConnectionIsReadyIff | internal/controller/polarisconnection_controller.go:68-101 | after a recorded pass over a live connection Ready and AuthValid are True if and only if the Secret is there and the token exchange succeeds; nothing else in either store changes |
| PassLaws.ConnectionIsLetGo | internal/controller/polarisconnection_controller.go:61-66 | a deleted connection loses its finalizer and nothing else happens |
| PassLaws.UnreadyParentHoldsBack | internal/controller/polariscatalog_controller.go:85-89 | for all five kinds: while the parent named by the reference is stored and not Ready, a pass over a live resource sends nothing, leaves the finalizer, and records exactly the wait on that parent |
| PassLaws.WritesOnlyUnderReadyParent | internal/controller/helpers.go:68-74 | so a pass over a live resource changes the server only under a stored, Ready parent and with the finalizer in place |
| PassLaws.UnresolvedIsReported | internal/controller/polarisnamespace_controller.go:65-103 | a live resource whose references do not resolve sends nothing and reports the first trouble: a missing reference, then credentials, then a grant's target |
| PassLaws.ResolvedIsDriven | internal/controller/polariscatalog_controller.go:104-151 | one whose references resolve under a Ready parent gets its finalizer, and once it has it is driven towards its spec at its own place |
| PassLaws.OutcomeOfConverge | internal/controller/polaristable_controller.go:103-169 | exactly when driving ends in success, in a wait for a 404, or in a failure, and with which reason |
| PassLaws.CreateWrites | internal/controller/polarisnamespace_controller.go:193-209 | what is missing is created as the spec asks, if the request went out and nobody else came first |
| PassLaws.NothingToDo | internal/controller/polaristable_controller.go:149-165 | what agrees with the spec, and every existing table, is left alone |
| PassLaws.DeletionIsRemoteFirst | internal/controller/polariscatalogrole_controller.go:161-170 | a deleted resource goes if and only if it has its finalizer, the update goes through, and its remote object, where it leads to one, was deleted with an answer that says so |
| Operator.LivePassTouch | internal/controller/polariscatalogrole_controller.go:45-159 | a pass over a live resource, whatever fails, writes to no other resource and, on top of what other clients do meanwhile, to no remote object but its own; it deletes nothing, and only ever adds the finalizer |
| Operator.LocateInLargerStore | internal/controller/helpers.go:148-203 | the remote place a resource resolves to stays the same when more of the references and clients are there |
| ColdStart.PlaceIsFixed | internal/controller/helpers.go:109-126 | specs, statuses, readiness and deletion marks have no bearing on which remote object a resource stands for |
| ColdStart.Proceeds | internal/controller/helpers.go:68-107 | once everything shallower is settled no gate holds a resource back and the server can hold its object |
| ColdStart.PassSettles | internal/controller/polariscatalog_controller.go:110-151 | then one pass over a resource with its finalizer settles it, whatever its remote object was |
| ColdStart.PassKeepsSettled | internal/controller/polarisnamespace_controller.go:115-162 | no healthy pass over any resource unsettles another |
| SweepRuns.ColdStartConverges | internal/controller/helpers.go:61-107 | from any state with resolvable references, after 2d+1 sweeps in any orders every resource of depth d is Ready and in sync; references and specs are untouched |
| ReferenceDepth.RankIsDepth | internal/controller/helpers.go:148-203 | the rank in the bounds is reference depth: 0 for connections, otherwise 1 more than the deepest resource referred to, all of which are stored |
| SweepRuns.RankIsBounded | internal/controller/helpers.go:292-299 | the bound on parent chains bounds every reference graph's depth by 36 |
| SweepRuns.ColdStartBound | internal/controller/helpers.go:292-299 | so 73 sweeps settle any number of resources |
| SweepRuns.SettledIsFixpoint | internal/controller/polariscatalog_controller.go:129-151 | with everything settled a further pass changes nothing in either store |
| SweepRuns.SettledStays | internal/controller/polariscatalog_controller.go:129-151 | nor does any sweep |
| SweepRuns.SettledMeansInSync | internal/controller/polariscatalogrole_controller.go:129-158 | a settled resource is Ready, and its remote object exists with the spec's properties, or the spec's owned catalog fields |
| Teardown.PassOnRemaining | internal/controller/polariscatalog_controller.go:65-108 | a pass over a deleted resource either removes it with its remote object or changes nothing; a missing reference always lets it go |
| Teardown.OthersKeepPlace | internal/controller/polarisnamespace_controller.go:58-113 | what can go never takes away a reference through which another resource still has to delete its own object |
| Teardown.SomethingCanGo | internal/controller/polaristable_controller.go:172-181 | while resources remain, one of them can go, although the server refuses non-empty containers |
| Teardown.EverySweepShrinks | internal/controller/polarisnamespace_controller.go:165-174 | each sweep in any order strictly shrinks the set of remaining resources |
| Teardown.TeardownTerminates | internal/controller/polariscatalog_controller.go:154-165 | after as many sweeps as there are resources, none remain and the server is empty |
| Lifecycle.SettledThenDeleted | internal/controller/helpers.go:388-399 | deleting everything but the connections after a cold start meets all that teardown needs |
| Lifecycle.UpAndDown | internal/controller/polariscatalog_controller.go:54-165 | sweeps up, delete all, sweeps down: everything settles, and afterwards nothing is left on either side |
| Interleavings.ResolvesHome | internal/controller/helpers.go:148-203 | whatever mixture of moments the references are read at, a successful resolution leads to one and the same remote object |
| Interleavings.StepKeepsInv | internal/controller/helpers.go:375-399 | every single step of users, other actors and workers keeps the invariant behind the next row |
| Interleavings.NeverOrphaned | internal/controller/helpers.go:375-399 | in every interleaving, a remote object created for a resource and not given up implies that the resource is stored with its finalizer |
| Interleavings.OnlyItsOwnDropAbandons | internal/controller/polariscatalog_controller.go:65-76 | what was created for a resource is given up in that resource's unreachable-reference branch and nowhere else |
| Interleavings.NeverOrphanedWhileReachable | internal/controller/polariscatalog_controller.go:70-165 | a resource that never takes that branch has no orphan, whichever others take it |
| PassSteps.PassIsARun | internal/controller/polariscatalog_controller.go:54-165 | every whole pass, with any failures and other clients' writes in the middle, is such a run of single steps |
| PassSteps.PassKeepsNoOrphan | internal/controller/helpers.go:375-399 | so every pass keeps the no-orphan invariant, with other workers under way |
| Races.QuietSuccessIsTrue | internal/controller/polariscatalog_controller.go:116-151 | with nobody in between, a pass that reports success has left the remote object as the spec asks |
| Races.UpdateIsCompareAndSet | internal/controller/polariscatalog_controller.go:196-209 | a catalog's or role's update goes through if and only if the stored version is the one its get returned; otherwise the other clients' state stands; success is reported of nothing else, and failure as not Ready |
| Races.UpdateReplacesWhatWasRead | internal/controller/polariscatalog_controller.go:328-331 | if the server never gives a version twice, that is if and only if nobody changed the object since the get, deletion and recreation included, and what is replaced is exactly what was read |
| Races.VersionedUpdateYields | internal/controller/polariscatalogrole_controller.go:141-152 | so a change by somebody else survives, and the resource is reported not Ready |
| Races.UnversionedCatalogOverwrites | internal/controller/polariscatalog_controller.go:306-331 | if the get reported no version, a catalog's update overwrites whatever was written since, as long as it is there |
| Races.UnversionedRoleIsRefused | internal/controller/polariscatalogrole_controller.go:204-210 | a role's update then carries zero and is refused in every state; the role stays not Ready |
| Races.RestartedVersionsLoseUpdates | internal/controller/polariscatalogrole_controller.go:204-219 | an instance: a role deleted and recreated at the version read is overwritten and reported Ready |
| Races.PatchedRace | internal/controller/polarisnamespace_controller.go:142-155 | a namespace patch goes through whenever the namespace is there; its report of success is true if and only if the other writes agree outside the patch |
| Races.LostCreateRace | internal/controller/polarisnamespace_controller.go:193-209 | a 409 on create counts as success and leaves what the other creator wrote, so the report is true if and only if that is what the spec asks |
| Races.ReadyCanBeStale | internal/controller/polarisnamespace_controller.go:205-205 | an instance: Ready and Synced with none of the spec's properties |
| EntityVersions.NoLostUpdateWhileItLives | internal/controller/polarisprincipal_controller.go:251-266 | while nobody deletes the entity, the version read is accepted if and only if nobody wrote, whatever the server |
| EntityVersions.NoLostUpdate | internal/controller/polariscatalog_controller.go:328-331 | over any overwrites, deletions and recreations at rising versions, the version read is accepted if and only if nothing changed, and then the entity is the one read |
| EntityVersions.LastWriteStands | internal/controller/polariscatalog_controller.go:196-209 | what a refused update leaves is the last overwrite by somebody else |
| PrincipalRuns.UpdateIsCompareAndSet | internal/controller/polarisprincipal_controller.go:137-144 | a principal's update goes through if and only if the get reported a version and the server still has it; otherwise the other clients' state stands, no pair is issued, and the status written is not Ready |
| PrincipalRuns.UpdateReplacesWhatWasRead | internal/controller/polarisprincipal_controller.go:251-266 | if the server never gives a version twice, that is if and only if nobody changed the principal since the get, and what is replaced is what was read |
| Grants.RevokeUndoesAdd | internal/controller/polarisgrant_controller.go:197-255 | at any two moments at which the references resolve the body and the role are the same |
| Grants.AddIsIdempotent | internal/controller/polarisgrant_controller.go:147-179 | a pass adds exactly its body to what exactly its role holds by then, and repeating it changes nothing |
| Grants.GrantAndRevokeCancel | internal/controller/polarisgrant_controller.go:182-195 | finalizing removes exactly the body that was added and nothing else, and then the resource |
| Grants.RoundTrip | internal/controller/polarisgrant_controller.go:147-195 | add then revoke leaves the server as it was, if the grant was not there before |
| Grants.TargetIsMetIffSameCatalog | internal/controller/polarisgrant_controller.go:216-220 | the target's path names the target's own remote namespace if and only if that is in the role's catalog, which nothing checks |
| Principals.Reconciler.ResolveFail | internal/controller/polarisprincipal_controller.go:322-332 | lets a deleted principal go, reports on a live one |
| Principals.Reconciler.WriteCredentialsSecret | internal/controller/polarisprincipal_controller.go:282-308 | the Secret changes only to a complete pair whose write went through |
| Principals.Reconciler.ReconcileMissing | internal/controller/polarisprincipal_controller.go:109-136 | create, then the Secret, then the status, for every reply, failure and race as the create function says |
| Principals.Reconciler.UpdatePrincipal | internal/controller/polarisprincipal_controller.go:251-266 | the update carries the version read, or zero, and the server takes it only at that version |
| Principals.Reconciler.RotateIfDue | internal/controller/polarisprincipal_controller.go:146-177 | rotation, Secret and status, for every reply and failure as the rotate function says |
| Principals.Reconciler.Reconcile | internal/controller/polarisprincipal_controller.go:54-190 | a pass is the pass function's, for every state, reply and failure |
| PrincipalPasses.ResourceGoesIff | internal/controller/polarisprincipal_controller.go:200-209 | a pass takes a principal's resource away if and only if it is being deleted, has its finalizer, the update goes through, and the server, if it can be reached, answered the delete |
| PrincipalPasses.DeletionIsRemoteFirst | internal/controller/polarisprincipal_controller.go:200-209 | while the server can be reached the resource goes only when the remote principal is gone, and a refused delete changes nothing |
| PrincipalPasses.LiveResourceAfterPass | internal/controller/polarisprincipal_controller.go:93-97 | a pass over a live principal changes status and finalizer only, and adds the finalizer under a Ready connection |
| PrincipalPasses.RemoteAfterPass | internal/controller/polarisprincipal_controller.go:99-144 | exactly what a pass leaves on the server: nothing is sent before connection, readiness, finalizer and get; what is missing is created, what differs is updated, with the spec's properties |
| PrincipalPasses.RotatesIffAsked | internal/controller/polarisprincipal_controller.go:156-163 | an existing principal gets a new pair if and only if the spec asks for rotation in a generation not yet observed, and the server carries it out |
| PrincipalPasses.NoRotationUnlessAsked | internal/controller/polarisprincipal_controller.go:156-156 | in every run in which nobody sets the rotation field, property edits included, pairs are issued only by creating |
| PrincipalPasses.SecretIsOnlyWrittenWhole | internal/controller/polarisprincipal_controller.go:282-285 | the Secret changes only to a pair with both parts, the one the server told |
| PrincipalPasses.WholePairReachesSecret | internal/controller/polarisprincipal_controller.go:286-308 | and a pair told with both parts reaches it |
| PrincipalPasses.UnreadyConnectionHoldsBack | internal/controller/polarisprincipal_controller.go:82-85 | under a connection that is not Ready nothing happens but the recorded wait on it |
| PrincipalPasses.UnreachableIsReported | internal/controller/polarisprincipal_controller.go:72-80 | a missing connection or unusable Secret is reported, each with its reason, and nothing else happens |
| PrincipalPasses.FailureIsReported | internal/controller/polarisprincipal_controller.go:99-163 | which failures of get, create, Secret, update and rotation are reported, and with which reason |
| PrincipalPasses.ObservedAfterPass | internal/controller/polarisprincipal_controller.go:99-189 | exactly when a pass records the generation: not when waiting, adding the finalizer, or failing to rotate |
| PrincipalRuns.OnePairPerPass | internal/controller/polarisprincipal_controller.go:109-111 | a pass issues a pair exactly when it creates or rotates, and it never does both |
| PrincipalRuns.SecretAfterPass | internal/controller/polarisprincipal_controller.go:282-308 | the Secret changes exactly when a pair was issued, told in full, and its write went through |
| PrincipalRuns.RotationsAreBounded | internal/controller/polarisprincipal_controller.go:146-189 | in every run the recorded rotations are at most observedGeneration, which is at most the generation |
| PrincipalRuns.StepKeepsPaced | internal/controller/polarisprincipal_controller.go:182-189 | and observedGeneration never goes back |
| PrincipalRuns.RotatesIffDue | internal/controller/polarisprincipal_controller.go:146-156 | a rotation that is carried out happens if and only if rotation is required and the generation is newer than the observed one |
| PrincipalRuns.AgreementIsKeptIffNoHazard | internal/controller/polarisprincipal_controller.go:117-177 | one pass keeps CredentialsWritten truthful if and only if it is not one whose pair missed the Secret while the status was not corrected: a failed status write, a lost reply, or a rotation reply without a body |
| PrincipalRuns.CredentialsAgree | internal/controller/polarisprincipal_controller.go:109-190 | in every run without such a pass, CredentialsWritten=True means the Secret is the pair issued last |
| PrincipalRuns.PersistentIsSafe | internal/controller/polarisprincipal_controller.go:268-280 | persisted statuses and replies that arrive, rotations' with a body, exclude those passes |
| PrincipalRuns.HazardsHappen | internal/controller/polarisprincipal_controller.go:164-172 | an instance: the Secret write and the status write of a rotation both fail |
| SecretTrust.CurrentAfterPass | internal/controller/polarisprincipal_controller.go:109-177 | a pass leaves the Secret equal to the pair issued last if and only if the pair it issued reached the Secret, or it issued none and the Secret was current |
| SecretTrust.ReadinessAfterPass | internal/controller/polarisprincipal_controller.go:54-190 | exactly when Ready is True after a pass: it reported success, or it wrote nothing about readiness and Ready was True |
| SecretTrust.TwoHealthyPassesSettle | internal/controller/polarisprincipal_controller.go:93-190 | under a Ready connection two healthy passes leave a live principal Ready, observed, and as its spec asks on the server |
| SecretTrust.SuccessIsTrueIff | internal/controller/polarisprincipal_controller.go:182-189 | a pass that reports success leaves the Secret current if and only if it created, or rotated with a body in the reply, or did neither and the Secret was current |
| SecretTrust.TrustIsKeptIff | internal/controller/polarisprincipal_controller.go:109-190 | one pass keeps Ready truthful about the Secret if and only if it is not one of the misleading ones |
| SecretTrust.ReadyMeansCurrent | internal/controller/polarisprincipal_controller.go:109-190 | in every run without a misleading pass, Ready means that the Secret is the pair issued last |
| SecretTrust.SecretStaysAsItIs | internal/controller/polarisprincipal_controller.go:146-177 | while no rotation is due, the spec is not edited and the principal is not removed, no run changes the Secret |
| SecretTrust.ReadyWithoutSecret | internal/controller/polarisprincipal_controller.go:121-130 | a failed Secret write on create leads to Ready with no Secret at the next healthy pass, and none appears in any such run after it |
| RotationRequests.RequestIsLostIff | internal/controller/polarisprincipal_controller.go:72-144 | a rotation request is lost, neither answered nor still due, if and only if the pass fails before rotation and its status write succeeds |
| RotationRequests.RequestIsAnsweredIff | internal/controller/polarisprincipal_controller.go:109-156 | it is answered by a new pair if and only if the pass creates, or gets the principal in line and the rotation is carried out |
| RotationRequests.LostStaysLost | internal/controller/polarisprincipal_controller.go:146-156 | once nothing is due, no run rotates until the spec is edited or the resource applied anew |
| RotationRequests.EditAsksAgain | internal/controller/polarisprincipal_controller.go:146-156 | the next edit that asks for rotation makes it due |
| RotationRequests.EarlyErrorLosesRotation | internal/controller/polarisprincipal_controller.go:99-107 | a failing get, recorded, loses the request for every run that leaves the spec alone |
| SecretTrust.WrittenIsNotRegained | internal/controller/polarisprincipal_controller.go:164-177 | once not True, CredentialsWritten stays so in every run in which the principal is not removed and the resource not applied anew, successful rotations and edits included |
| PrincipalRuns.PrincipalStaysOrderly | internal/controller/polarisprincipal_controller.go:54-209 | in every run the status is coherent and a principal the operator created is held by its finalizer |
| TokenCache.TokenSource.Token | internal/polaris/auth.go:56-76 | the token returned and the cache left, for every reply: a fresh one is reused, a failure changes nothing |
| TokenCache.ExchangesArePaced | internal/polaris/auth.go:56-76 | after a recorded token, n exchanges take at least n times the lifetime less 30 seconds |
| TokenCache.RefreshBound | internal/polaris/auth.go:56-76 | from any cache, n exchanges span at least n-1 times the lifetime less 30 seconds |
| TokenCache.AnswersAreGood | internal/polaris/auth.go:56-76 | a token served is non-empty and is what is cached; without an exchange it has more than 30 seconds of recorded life |
| TokenCache.ReusedWhileFresh | internal/polaris/auth.go:25-28 | a recorded token is served again exactly while more than 30 seconds of its lifetime remain |
| TokenCache.LifetimeIsExact | internal/polaris/auth.go:69-70 | the 64-bit duration is the granted lifetime if and only if that is at most 292 years |
| TokenCache.ReusedIff | internal/polaris/auth.go:60-70 | for every grant, cache and later clock: a recorded token is reused exactly while more than 30 seconds remain of its lifetime modulo 2^64 nanoseconds, and never if that has its top bit set |
| TokenCache.AssumedLifetime | internal/polaris/auth.go:71-74 | a token that came without a lifetime is reused for an hour less 30 seconds |
| TokenCache.NeverReusedIff | internal/polaris/auth.go:60-70 | every call exchanges if and only if that remainder is at most 30 seconds or has its top bit set |
| TokenCache.WrapCutsBothWays | internal/polaris/auth.go:69-70 | instances: just past 292 years a token is never reused, near 584 years it lives about an hour |
| TokenThreads.CallsAreSerialised | internal/polaris/auth.go:38-48 | in every interleaving of callers at most one exchange is in flight and the cache is what the calls make it one after the other |
| TokenThreads.ConcurrentRefreshBound | internal/polaris/auth.go:38-76 | the pace of exchanges holds for concurrent callers |

## Left out

- Views, policies, principal roles and both kinds of role binding: near copies of tables, catalog roles and grants.
- Reconcilers.Controller.GrantBodyFor: does not model the view target, because views are left out; its branch is the table target's with another kind and key name.
- Reconcilers.Controller.ConvergeTable: an existing table is taken as it is, as in the code; schema, partition spec and properties of the create request are not modelled, nor is the error a malformed schema gives.
- The per-cloud fields of a catalog's storage block: each block is one value; the code copies it field by field and cannot read it back.
- HTTP, TLS, URLs, JSON, and buildPolarisClient: a connection's Secret either yields a client or does not.
- status.principalId, credentialsLastRotated, fullPath, location, tableUuid, polarisCatalogId: written and never read by the operator.
- Message texts of conditions, except those waitForDependency compares; lastTransitionTime.
- controller-runtime: requeues, back-off and watches are replaced by sweeps in any order or by arbitrary interleavings. Garbage collection of a principal's Secret.
- Principals.Reconciler.RotateIfDue: does not model other clients' writes between the update and the rotation; a rotation of a principal removed meanwhile is a refused one.
- PrincipalRuns.CredentialsAgree: assumes a fixed Secret reference and no other writer of the Secret.
- Reconcilers.Controller.ReconcileNamespace: asks that the server's namespaces and the spec hold property bags, which their Go types say.
- Principal reconciles are not part of SweepRuns.ColdStartConverges or Teardown.TeardownTerminates: nothing in the chain refers to a principal.
