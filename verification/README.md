# ExitGuard, verified model

ExitGuard finds Kubernetes objects that are stuck in deletion and removes what blocks them, one
human-approved action at a time. Two controllers share their state through the Kubernetes API:

- the **scanner** lists deleting objects that a termination policy selects, diagnoses them, and writes
  incidents with recommended actions and an evidence deadline;
- the **executor** carries out one approved action with optimistic preconditions and records what it
  did in the approval.

This project models both controllers and the algorithms between them in Dafny, and proves what they
promise for every input, every interleaving and every reachable state. `dafny verify dfyconfig.toml`
checks all of it.

## How the model is organised

| file | part of the system |
|---|---|
| `Types.dfy`, `Sorting.dfy` | API types; Go's `sort.Slice` as a stable insertion sort with its laws |
| `Framing.dfy` | the NUL-framed byte strings behind finding IDs, action IDs and lock keys |
| `Discovery.dfy` | discovery snapshots, version ranking and ordering, version-fallback lookup |
| `Policy.dfy`, `PolicyCache.dfy` | policy compilation, matching, winner selection, eligibility; the compile cache across cycles |
| `Collector.dfy` | the bounded evidence collector against an offline specification |
| `Paging.dfy`, `Enumeration.dfy`, `Instances.dfy`, `Diagnosis.dfy` | paginated enumeration under limits and the diagnosis built on it |
| `Findings.dfy` | finding IDs, and what the findings and actions of a complete diagnosis say |
| `Incidents.dfy` | incident status writes and the evidence deadline |
| `TargetLists.dfy`, `Coverage.dfy` | list workers sharing the target budget; coverage and lifecycle verdicts |
| `CycleFacts.dfy`, `Cycle.dfy`, `CycleCases.dfy` | a whole scanner cycle: persisting, lifecycle, degraded path, incident view; two cycles with surprising ends |
| `JsonPatch.dfy` | the patch document of a finalizer removal (sections 4.2, 4.6 and 5 of RFC 6902) |
| `Executor.dfy`, `ExecutorSafety.dfy`, `ExecutorRuns.dfy` | the executor as an interleaved machine and the safety of its mutations |
| `ExecutorLifecycle.dfy`, `ExecutorApprovals.dfy` | what holds of approvals over their whole life |
| `ExecutorEvidence.dfy` | every mutation goes back to a diagnosis in the same run |
| `ExecutorAlone.dfy`, `ExecutorProgress.dfy` | what every undisturbed reconcile comes to, and when an approval is carried out |
| `ExecutorOutcomes.dfy`, `ExecutorCases.dfy` | whose approval stands behind a mutation, bounded requeues; a run that mixes two approvals |
| `KeyedLocks.dfy` | the per-target lock table with unboundedly many threads |
| `Protocol.dfy` | the scanner's results are what the executor's guarantees assume |

The executor is a state machine. One act of a thread is one API call or one clock reading; between any
two acts users, the scanner, discovery and the clock may act, and the process may crash. The state keeps
the whole history of worlds, so a theorem can say what was true when a thread looked. A write can be
refused, can conflict, or can be applied while its response is lost. The scanner's list workers are a
machine too, with one act per item or page. A cycle is a class whose methods follow the source; the API
server's reply to its n-th call is an arbitrary function.

## Assumptions

- controller-runtime does not overlap reconciles of one approval key, and API calls take effect atomically.
- UIDs and resource versions are never reused; a policy's UID and generation determine its spec.
- Looking up a target reads the stored object in one step; that version fallback reports absence only
  when every served version does is proved separately (`Discovery.GetCurrent`).
- A paged list is a finite sequence; the server honours a positive limit, sends a continue token exactly
  when items are left, and never an empty page with a token. Any request may fail.
- SHA-256 is a function; where identity of IDs matters it is injective. Names, UIDs and finalizers
  contain no NUL character.
- During a cycle the scanner is the only writer of incidents, and every incident carries the name the
  scanner gives it (`deletion-` and the target UID).
- Time is an integer number of seconds.

## What the proofs found

- **Approval names.** A status update re-reads the approval by name only. If a user deletes an approval
  and creates another under the same name while the first is being reconciled, the pending write lands
  on the newcomer. `ExecutorApprovals.ReuseMisdirectsAWrite` is such a history, and
  `AttributedExactlyWithoutReuse` says the writes are attributed correctly in every history exactly when
  names are not reused in flight. The guarantees about approvals are stated under that condition.
- **Two approvals behind one mutation.** The approval is read again under the lock, and its incident UID is not
  compared again. Without name reuse both readings are the same approval, which names the incident's UID, the
  action and no dry run (`ExecutorOutcomes.MutationsOfOneApproval`). With reuse the action ID, the incident's name
  and the dry-run flag are those of the second reading but the incident UID is that of the first
  (`ExecutorRuns.EveryMutationJustified` says so for every history); `ExecutorCases.ReuseMixesApprovals` is a
  history in which a mutation is carried out under an approval for another incident UID, and
  `ExecutorCases.MixedApprovals` finds one wherever a finalizer of a cluster-scoped target can be removed.
- **Failed scope listing.** If the first incident listing of a cycle, the one for the scan scope, is refused,
  the cycle goes on with nothing covered. Unless it is cancelled there, incidents about catalogued resources
  then stay exactly as they were, with their actions, instead of being marked `DiagnosisFailed`:
  `Cycle.Scanner.Run` says so for every input by that guard, and `CycleCases.FailedScopeListing` is such an input.
- **Deletion looks at the list.** Lifecycle deletes an incident that the cached list has as resolved and past its
  retention, whatever the store has by then. An incident that a diagnosis has just revived is therefore deleted in
  the same cycle exactly when it was resolved at the start, its retention annotation differed from the policy's, the
  first call of its turn, the patch of that annotation, met a conflict, and by the new annotation its retention
  has passed (`CycleFacts.RevivedLostExactly`; the patch is a merge patch without a resource version, so such a
  conflict is rare). `CycleCases.RevivedThenDeleted` is a cycle without any error that does this. Incidents that
  were open at the start and incidents that are created are never affected (`CycleFacts.OpenOrNewPersisted`).
- **Named resources next to the wildcard.** A rule that lists the resource wildcard skips high-churn
  resources such as events even when it also names them; `Policy.NamedResourceSelected` gives the exact
  condition under which a named resource is selected, and `Policy.EventsNamedNotSelected` a ready policy that
  names `*` and `events` and does not select the catalogued events.
- **Lost create.** When the response to creating an incident is lost, the incident view stays fresh
  although the list misses the new incident. The reported counts are still right, because that incident
  has no phase yet; `CycleFacts.SamePhases` states the view's meaning accordingly.

## Model

| member | source | states |
|---|---|---|
| `ExecutorRuns.EveryMutationJustified` | internal/executor/executor.go:116-390 | In every reachable state each persisted mutation was, while its thread held the target lock without a gap, backed by an unfinished non-dry-run approval naming the signed action's ID, an Active incident under the name it gives, of the UID that the approval first read gave, holding that action with unexpired evidence younger than Timeout + 2·Interval, and the unchanged policy revision whose own spec allows the action, has not let the approval expire and matches the incident's target with the object, scope and namespace labels stored when the thread looked; and it changed exactly the approved UID and resource version as approved. |
| `ExecutorProgress.EndsAsDue` | internal/executor/executor.go:93-390 | From every reachable state, a reconcile that meets no fault and nobody else's act is over after at most 24 acts and has done exactly what a decision list over the cluster says (`ExecutorAlone.Due`): for each guard that fails the phase and result the approval ends with, the attempt recorded, and the one change of the target if there is one; nobody else's thread, lock, approval or object is touched. |
| `ExecutorAlone.AloneEnds` | internal/executor/executor.go:93-390 | The same from every world, reachable or not, with the acts of the reconcile one after the other. |
| `ExecutorProgress.CarriedOutExactly` | internal/executor/executor.go:93-390 | An approval is carried out for good if and only if it is unfinished, not a dry run and has attempts left, its incident of the approved UID is Active and recommends the action on unexpired evidence, the revision is in force and its spec compiles, allows the action and has not let the approval expire, the target is there at the approved UID and version with something to remove, and a rule of the spec selects the incident's target, with the labels of its namespace when it has one. |
| `ExecutorProgress.ApprovalIsCarriedOut` | internal/executor/executor.go:309-390 | Such an approval is carried out in a run of the machine, for cluster-scoped and namespaced targets, objects in the namespace of an incident and all three action types: one mutation, the target without what was to be removed, and the approval Succeeded with Mutated. |
| `ExecutorProgress.MutationsBySpec` | internal/executor/executor.go:140-172 | For every mutation in every reachable state the revision's own spec compiled, allowed the action, left the approval unexpired by its approval time, and has a rule that selects the incident's target as it was stored. |
| `ExecutorRuns.AtMostOneMutationPerVersion` | internal/executor/executor.go:334-386 | Over any number of approvals, retries and crashes at most one mutation persists per target UID and resource version. |
| `ExecutorRuns.ActionIdExecutedOnce` | internal/diagnosis/engine.go:281-319 | With an injective digest an action ID is carried out at most once, whoever approves it and however often. |
| `ExecutorRuns.FinalizerRemovalExact` | internal/executor/executor.go:366-386 | A persisted removal takes exactly one element equal to the approved finalizer, keeps the rest in order and changes nothing else; without duplicates none is left. |
| `ExecutorRuns.OneReconcilePerTarget` | internal/executor/executor.go:174-175 | Two reconciles never work under the lock of one target at the same time. |
| `ExecutorRuns.ReachableSafe` | internal/executor/executor.go:93-307 | The safety invariant (identifiers, clock, incidents, what each thread knows and holds, justified log, spent versions) holds in every reachable state. |
| `ExecutorEvidence.EveryMutationDiagnosed` | internal/scanner/scanner.go:677-702 | Every run that contains a mutation contains an earlier scanner write of a complete diagnosis that recommends exactly this action for the incident, from a cycle that started less than Timeout + 2·Interval before the executor checked the evidence. |
| `ExecutorOutcomes.MutationsOfOneApproval` | internal/executor/executor.go:116-215 | Without in-flight name reuse the approval read first and the one read again under the lock agree in UID, creation, spec and status at every mutation, and that one approval names the UID and name of the incident found, the action's ID and no dry run. |
| `ExecutorOutcomes.EveryRequeueInTime` | internal/executor/executor.go:289-307 | In every reachable state a reconcile about to return with a requeue has a positive delay that, from a moment after the checks under the lock, ends by the approval's creation plus the policy's approval time. |
| `ExecutorOutcomes.RequeuesInTime` | internal/executor/executor.go:289-307 | The act that decides on a requeue ends a failed attempt, and from that very moment the delay is positive and ends by the approval's expiry. |
| `ExecutorOutcomes.RequeueExactly` | internal/executor/executor.go:292-306 | The requeue delay is what the server asks for, at least five seconds, and at most the time left. |
| `ExecutorOutcomes.FailedCallsBefore` | internal/executor/executor.go:93-200 | A call that fails before anything is attempted ends the reconcile with an error and no trace. |
| `ExecutorOutcomes.FailedCallsDuring` | internal/executor/executor.go:309-390 | A call that fails during execution, or a refused request, is recorded as a failed attempt with an API error and judged by its kind. |
| `ExecutorCases.MixedApprovals` | internal/executor/executor.go:174-260 | With name reuse, from every state in which an action can be carried out on a cluster-scoped target there is a run that carries it out under an approval naming another incident UID. |
| `ExecutorCases.ReuseMixesApprovals` | internal/executor/executor.go:174-260 | Such a run from an empty cluster, with one mutation. |
| `ExecutorSafety.ServedAsApproved` | internal/executor/executor.go:334-386 | The server applies the executor's request only to the approved UID and version, changes nothing when the object differs from the one read, and otherwise does exactly the approved change. |
| `ExecutorSafety.TakenKnows` | internal/executor/executor.go:93-390 | Every act of a reconcile establishes what its next position relies on. |
| `ExecutorSafety.TakenHolds` | internal/executor/executor.go:174-175 | A thread past the lock holds its key in every world since it was taken. |
| `ExecutorSafety.MutationAuthorized` | internal/executor/executor.go:309-390 | Only the mutation act changes a target, and it carries its full justification; that valid approvals do get there is `ExecutorProgress.ApprovalIsCarriedOut`. |
| `ExecutorApprovals.ApprovalGuarantees` | internal/executor/executor.go:505-558 | A stored approval records only the approved action, has one while Running, never succeeds as a dry run, succeeds only when the goal was observed during the writing reconcile (or, for a finalizer listed more than once, when one occurrence had just been removed from the approved version), and has at most maxAttempts + 1 audit entries. |
| `ExecutorApprovals.ApprovalsLoseNothing` | internal/executor/executor.go:98-137 | Terminal phases are never left, the recorded action never changes and no audit entry is dropped, between any two moments of a history. |
| `ExecutorApprovals.ErrorFreeReturnProgresses` | internal/executor/executor.go:246-307 | A reconcile that returns without error leaves the approval deleted, terminal, or Running with exactly one more attempt and fewer than maxAttempts. |
| `ExecutorApprovals.FewUnfinishedReturns` | internal/executor/executor.go:289-306 | Fewer than maxAttempts error-free reconciles leave an approval unfinished over its whole life. |
| `ExecutorApprovals.ReuseMisdirectsAWrite` | internal/executor/executor.go:560-573 | A reachable history in which a reused approval name receives another approval's final status. |
| `ExecutorApprovals.AttributedExactlyWithoutReuse` | internal/executor/executor.go:549-573 | Every status write reaches the approval its reconcile validated, in all histories, if and only if names are not reused in flight. |
| `ExecutorLifecycle.RequeueBounded` | internal/executor/executor.go:292-306 | The delay computed after a failed attempt is positive and ends no later than the expiry at hand. |
| `ExecutorLifecycle.WrittenOk` | internal/executor/executor.go:505-540 | What each status mutator writes keeps the approval's invariant. |
| `Executor.FindAction` | internal/executor/executor.go:575-582 | A hit is a listed action with the ID; a miss means no listed action has it. |
| `Executor.FindActionFirst` | internal/executor/executor.go:575-582 | It is the first listed action with the ID. |
| `JsonPatch.PatchEffect` | internal/executor/executor.go:478-486 | The patch applies exactly when UID, version and the whole finalizer list are as read, and then removes the element at the index; otherwise it changes nothing. |
| `JsonPatch.RemoveFirst` | internal/executor/executor.go:366-380 | Removing the first occurrence keeps the other elements in order and as often. |
| `KeyedLocks.LocksAreExclusive` | internal/executor/executor.go:673-702 | With any number of threads and keys: one holder per key, everyone on a key points at the entry in the table, its counter is the number of holders and waiters, and the entry exists exactly while that number is positive. |
| `KeyedLocks.WaiterCanProceed` | internal/executor/executor.go:683-702 | A waiter can take its lock whenever nobody holds the key. |
| `Framing.TargetKeyIsIdentity` | internal/executor/executor.go:591-609 | Two NUL-free targets share a lock key exactly when they have the same identity. |
| `Framing.Feed` | internal/diagnosis/engine.go:321-331 | The loop feeds the hasher the parts with one NUL between neighbours. |
| `Framing.JoinInjective` | internal/diagnosis/engine.go:321-331 | Equal framed strings of NUL-free parts have equal parts. |
| `Framing.ActionFrameDetermines` | internal/diagnosis/engine.go:317-319 | The bytes hashed for an action determine all six bound fields. |
| `Framing.PartCountTellsShape` | internal/diagnosis/engine.go:296-315 | The number of parts tells which optional parts a finding has. |
| `Framing.FindingFrameDetermines` | internal/diagnosis/engine.go:296-315 | The bytes hashed for NUL-free findings agree exactly when all fields but ID and Kind agree. |
| `Discovery.NewSnapshot` | internal/discovery/catalog.go:327-334 | The index resolves exactly the listed resources. |
| `Discovery.ListDeterminesSnapshot` | internal/discovery/catalog.go:125-133 | Consistent snapshots with the same resource list resolve everything alike. |
| `Discovery.OrderedVersions` | internal/discovery/catalog.go:87-110 | Each served version name exactly once, the requested one first when served and the preferred one first otherwise. |
| `Discovery.GetCurrent` | internal/diagnosis/engine.go:130-151 | For a catalogued resource absence is reported only when every served version answered NotFound or Gone; any other answer is that of the first served version that is available. |
| `Discovery.GroupRanks` | internal/discovery/catalog.go:285-307 | The preferred version has rank 0 and the listed ones follow, first occurrences only. |
| `Discovery.DiscoveryPreferences` | internal/discovery/catalog.go:285-307 | Exactly the listed groups are ranked, the last of a name counting, and the core group defaults to v1. |
| `Discovery.OrderVersions` | internal/discovery/catalog.go:309-325 | The array ends as the sorted permutation of its contents, in place. |
| `Discovery.CollectVersions` | internal/discovery/catalog.go:247-283 | Collects exactly the served versions of every scannable resource, and fails exactly on an unparsable group version. |
| `Discovery.BuildSnapshot` | internal/discovery/catalog.go:247-283 | Succeeds exactly when every group version parses, and then catalogues exactly the scannable resources, once each, versions in preference order. |
| `Discovery.PreferredIsLeast` | internal/discovery/catalog.go:309-325 | The preferred version is a served one of least rank, ties going by name and then discovery order. |
| `Discovery.PreferredByPosition` | internal/discovery/catalog.go:285-325 | No served version comes up before the preferred one in the group's preferred version followed by its listed versions; if none is named there, none has a smaller name. |
| `Discovery.CataloguedExactly` | internal/discovery/catalog.go:247-283 | A version of a resource is catalogued exactly when discovery lists it under that group and version, not as a sub-resource, with the verbs get and list, and with its kind, scope and verbs. |
| `Discovery.ParseExactly` | internal/discovery/catalog.go:254-257 | A group version is a version alone or a group and a version around one slash; two slashes do not parse. |
| `Discovery.Catalog.Refresh` | internal/discovery/catalog.go:189-217 | Publishes only complete snapshots; a failed refresh keeps the last good one and its time. |
| `Policy.ResolveRule` | internal/policy/engine.go:334-347 | Resolves exactly the resources the rule's tokens select, in catalog order. |
| `Policy.UnresolvedIsMisses` | internal/policy/engine.go:349-387 | A selection is reported exactly when the catalog offers nothing for it. |
| `Policy.Compile` | internal/policy/engine.go:88-140 | The loop produces the compiled policy and status that the specification functions define; by the fields of the spec: identity, priority, times, limits, maximal risk, force permission, allowed finalizers and owners are its own (`CarriesOver`), ready exactly when the spec is usable, and each condition of the status true exactly when there is nothing to complain about (`Reports`). |
| `Policy.ReadyExactly` | internal/policy/engine.go:88-140 | Ready exactly when every selector parses, the catalog has whatever a rule names, and numbers and names are in range. |
| `Policy.EligibleBySpec` | internal/policy/engine.go:281-301 | An action is eligible exactly when the spec is usable and allows it by its own allowedFinalizers, allowNamespaceForce and maxRisk: which maximal risk admits which type of action. |
| `Policy.RiskExactly` | internal/policy/engine.go:264-278 | The operator's risk of each type of action, with the protective finalizers named. |
| `Policy.MatchIsIntent` | internal/policy/engine.go:224-247 | A ready policy matches a target exactly when some rule of its source selects the resource, scope, namespace and labels. |
| `Policy.SelectorLaws` | internal/policy/engine.go:303-332 | In and NotIn, Exists and DoesNotExist are complements, NotIn holds without the key, and a selector asks for all its labels and requirements. |
| `Policy.NamedResourceSelected` | internal/policy/engine.go:334-347 | When a ready policy's rule really selects a resource it names. |
| `Policy.EventsNamedNotSelected` | internal/policy/engine.go:334-347 | A ready policy whose rule names `*` and `events`: events are catalogued and not selected. |
| `Policy.ReadyRuleNotEmpty` | internal/policy/engine.go:88-140 | Every rule of a ready policy selects at least one catalogued resource. |
| `Policy.SelectWinning` | internal/policy/engine.go:250-261 | The matching policy of highest priority, ties going to the smallest name, or none matches. |
| `Policy.FirstMatchWins` | internal/scanner/scanner.go:153-160 | In a sorted list the first match is the winner. |
| `Policy.IneligibleReason` | internal/policy/engine.go:281-301 | The reason is empty exactly when the action is eligible. |
| `Policy.EligibilityIsPerRevision` | internal/policy/engine.go:281-301 | An action eligible under a policy revision stays eligible when that revision is compiled against another catalog, as long as it is ready there. |
| `PolicyCache.PolicyCompiler.EntryFor` | internal/scanner/scanner.go:176-192 | A reused or fresh entry is what compiling the policy now would give, status and time included. |
| `PolicyCache.PolicyCompiler.CompilePolicies` | internal/scanner/scanner.go:162-213 | Fails exactly when the policies cannot be listed or a status write fails, and then leaves the cache as it was; takes up the policies in order up to and including the first whose status cannot be written; every status handed to the API server and every choice offered is a fresh compilation's. |
| `PolicyCache.PolicyCompiler.Cycles` | internal/scanner/scanner.go:162-213 | So for any sequence of cycles sharing one cache, aborted ones included. |
| `PolicyCache.SortedChoiceWins` | internal/scanner/scanner.go:153-213 | The first match among the sorted ready policies wins among all policies. |
| `PolicyCache.FreshCarriesOver` | internal/scanner/scanner.go:162-213 | The policies looked up by UID are the listed ones, each with the fields of its own spec and ready exactly when that is usable. |
| `PolicyCache.WinnerUnique` | internal/policy/engine.go:250-261 | A target has at most one winner. |
| `Incidents.IdBindsOperation` | internal/diagnosis/engine.go:281-319 | Signed actions with one ID are the same operation on the same object version under the same policy revision. |
| `Incidents.IdTellsType` | internal/diagnosis/engine.go:317-319 | With an injective digest an action ID tells the type of the action, whatever else is hashed. |
| `Incidents.NewActionSays` | internal/diagnosis/engine.go:281-294 | What newAction builds is signed for the policy's revision and carries the operator's risk and the policy's verdict. |
| `Incidents.ShapePreserved` | internal/scanner/scanner.go:677-702 | Every status write keeps: the deadline is the evidence time plus Timeout + 2·Interval, and an Active incident with actions has one. |
| `Incidents.DeadlineLead` | internal/scanner/scanner.go:684-691 | Right after a complete diagnosis with actions the deadline exceeds now + max(Interval, Timeout). |
| `Incidents.EvidenceBacksActions` | internal/scanner/scanner.go:677-702 | Over every sequence of writes the evidence time is the start of a cycle that completely diagnosed exactly the actions listed, unchanged since. |
| `Incidents.AcceptedEvidenceIsYoung` | internal/executor/executor.go:584-589 | Evidence the executor accepts is younger than Timeout + 2·Interval. |
| `Collector.Evidence.AddFinding` | internal/diagnosis/engine.go:229-242 | One offer: the contents afterwards and the log of offers. |
| `Collector.Evidence.AddAction` | internal/diagnosis/engine.go:244-255 | The same for an action. |
| `Collector.Evidence.Result` | internal/diagnosis/engine.go:257-279 | Sorted by ID, exactly the retained items and on overflow one truncated summary with the number of omitted items, at most 513 findings and 256 actions; without overflow every offered action is there. |
| `Findings.IdsExactly` | internal/diagnosis/engine.go:296-315 | With an injective digest, NUL-free findings get one ID exactly when, shortened, they agree on everything but their IDs and the kinds of their resources. |
| `Findings.FindingsReported` | internal/diagnosis/engine.go:229-279 | Without overflow the reported findings are exactly the distinct ones offered: each was offered, none is missing, no two say the same. |
| `Findings.IdentifiedAreCoherent` | internal/diagnosis/engine.go:229-242 | Identified findings with equal IDs are equal, as `Collector.OnlineIsOffline` assumes, when kinds follow from group, version and resource. |
| `Collector.OnlineIsOffline` | internal/diagnosis/engine.go:229-279 | Whatever the order of offers: overflow exactly when the distinct findings exceed 512, the distinct actions 256 or their bytes the budget; otherwise exactly the distinct items are kept. |
| `Collector.AlwaysWithinLimits` | internal/diagnosis/engine.go:229-255 | Whatever is offered, the tracked byte count is the exact size of what is kept, and bytes, findings and actions stay within their limits. |
| `Collector.OrderLeavesNoTrace` | internal/diagnosis/engine.go:229-279 | Two offer sequences with the same items overflow alike and without overflow end in the same contents. |
| `Collector.ResultDetermined` | internal/diagnosis/engine.go:257-279 | Sorted results with the same contents are equal, in spite of random map order. |
| `Enumeration.ReadVersion` | internal/diagnosis/analyzers.go:196-217 | Makes exactly the requests that read a list up to the maximum, with positive limits only, ends as they end, and says truncated exactly when the list is longer. |
| `Enumeration.ListNamespaceResource` | internal/diagnosis/analyzers.go:194-220 | The first served version that is not missing decides: a success is its own list, cut off exactly when it exceeds the maximum; running out of versions is a failure. |
| `Enumeration.OfferObject` | internal/diagnosis/analyzers.go:153-184 | Offers the object, then a finding and an action per finalizer in sorted order. |
| `Enumeration.EnumerateNamespace` | internal/diagnosis/analyzers.go:128-192 | The log of listings determines exactly what was offered; complete exactly when the objects can be enumerated: every namespaced catalogued resource read to its last page from one served version, at most maxNamespaceObjects objects. |
| `Enumeration.IncompleteHasCause` | internal/diagnosis/analyzers.go:128-192 | An enumeration that ended incomplete listed a resource that cannot be listed, or used up the limit with objects or whole resources unread. |
| `Enumeration.EndedIsOnly` | internal/diagnosis/analyzers.go:128-192 | The lists determine the log: one that cannot be continued is the only candidate for an exhaustive one. |
| `Enumeration.ExhaustiveMeans` | internal/diagnosis/analyzers.go:128-192 | An exhaustive log reads every namespaced resource to its last page from one served version, within the limit. |
| `Enumeration.LogActions` | internal/diagnosis/analyzers.go:167-184 | The offered actions are exactly the removals of finalizers of objects that were read, at the versions read. |
| `Instances.ServedVersions` | internal/diagnosis/analyzers.go:277-283 | The served version names, sorted. |
| `Instances.EnumerateCRDInstances` | internal/diagnosis/analyzers.go:276-339 | True exactly when every served version lists to its end, no item lacks a UID and the distinct UIDs over all versions number at most maxInstances; then exactly one finding per distinct UID was offered, as first seen in the sorted versions. |
| `Instances.FirstSeenOncePerUid` | internal/diagnosis/analyzers.go:299-331 | Offering each object when it is first seen gives exactly one finding per distinct UID. |
| `Diagnosis.AnalyzeFinalizers` | internal/diagnosis/engine.go:171-195 | Offers a finding per finalizer in sorted order and an action for each but a definition's cleanup finalizer. |
| `Diagnosis.DiagnoseNamespace` | internal/diagnosis/analyzers.go:73-102 | Complete exactly when the namespace decodes and all its objects can be enumerated; then exactly what is due is offered, force-finalizing last, which is there exactly when the spec has finalizers (`Diagnosis.Covers`). |
| `Diagnosis.DiagnoseDefinition` | internal/diagnosis/analyzers.go:247-274 | Complete exactly when the definition decodes, all instances can be enumerated and conversion is ready; then exactly what is due is offered, the cleanup removal last. |
| `Diagnosis.OfferedSound` | internal/diagnosis/engine.go:171-195 | Every action due rests on what was read: a finalizer of the target or of an object read in its namespace, at the version read; or complete evidence for force-finalizing and cleanup. |
| `Diagnosis.OfferedAddresses` | internal/diagnosis/engine.go:171-195 | Every finalizer of the target and of every object read in a namespace gets its action. |
| `Diagnosis.OfferedOnce` | internal/diagnosis/engine.go:52-128 | What an unhindered diagnosis offers is determined by what it reads. |
| `Diagnosis.Diagnose` | internal/diagnosis/engine.go:52-128 | Absence only when every served version says so; the version and kind of the target are those under which it was read; the snapshot holds its version, its sorted finalizers and, past the threshold, those of the namespace's spec; for the very UID asked for, deleting past the threshold: complete exactly when nothing hinders the evidence and it fits the status, and then exactly what is due is reported, every action resting on what was read, every finalizer addressed, force-finalizing among the actions exactly when the namespace's spec has finalizers and the cleanup removal exactly when the definition has that finalizer; otherwise no action. |
| `Findings.CompleteFindings` | internal/diagnosis/analyzers.go:128-192 | The findings of a complete result, both ways: the grace period when over, each finalizer of the target, each object read in a namespace with its UID and each of its finalizers, one finding for each instance's UID; and nothing else. |
| `Findings.CompleteActions` | internal/diagnosis/engine.go:171-195 | Each finalizer of the target, but a definition's cleanup finalizer, and of each object read in a namespace has its removal at the version read; every action carries the operator's risk and the policy's verdict. |
| `Findings.DiagnosedBySpec` | internal/diagnosis/engine.go:52-128 | Under a compiled policy the threshold is the spec's terminationAge and completeness is within the spec's limits. |
| `Findings.UnlistedIsSaid` | internal/diagnosis/analyzers.go:138-148 | A resource that could not be listed is reported as a discovery failure. |
| `Findings.LimitIsSaid` | internal/diagnosis/analyzers.go:185-190 | A limit that left something unread is reported with the number of objects read. |
| `Protocol.DiagnosisFeedsExecutor` | internal/scanner/scanner.go:677-702 | A diagnosis result persists as a write the executor's guarantees allow for. |
| `TargetLists.Reserve` | internal/scanner/scanner.go:373-384 | A reservation succeeds exactly when the UID is known or there is room, adds nothing but the UID, and never exceeds the maximum. |
| `TargetLists.RetainMembers` | internal/scanner/scanner.go:542-555 | Exactly the selected deleting objects and the tracked ones are retained. |
| `TargetLists.StuckExactly` | internal/scanner/scanner.go:542-555 | An object is stuck exactly when it is being deleted and a policy of the scope matches its resource, scope, namespace, labels and the labels of its namespace; its policy is the first that does. |
| `TargetLists.NextOk` | internal/scanner/scanner.go:518-561 | One act of a worker keeps: what it retained is exact, its stuck objects are reserved, it lists the first version that is not missing to its end, and it fails only if every version is missing or that one breaks. |
| `TargetLists.EveryInterleaving` | internal/scanner/scanner.go:435-465 | Under every interleaving the reserved UIDs never exceed MaxTargets and every worker's report is exact. |
| `TargetLists.EveryWorkerFinishes` | internal/scanner/scanner.go:518-561 | A worker that gets as many turns as its versions, items and pages can take has finished, whatever the server answers and whatever the others do. |
| `Coverage.ResourcesToScan` | internal/scanner/scanner.go:386-428 | Exactly the catalogued resources that a ready policy selects or an open incident is about, and exactly the open incidents' UIDs and names tracked. |
| `Coverage.Digest` | internal/scanner/scanner.go:484-506 | The coverage record of one list, and observations of its stuck objects with their winning policies. |
| `Coverage.CollectResults` | internal/scanner/scanner.go:467-515 | In any order of arrival: a record per delivered resource, successful exactly when it was listed and no worker met the bound; exactly the stuck objects observed. |
| `Coverage.ListTargets` | internal/scanner/scanner.go:430-516 | The account of a whole listing: exactly the wanted jobs, exactly their workers' deliveries; at most MaxTargets observations; when everyone delivered, every job has its result and, without the bound, every stuck object of every listable resource is observed. |
| `Coverage.EveryStuckObserved` | internal/scanner/scanner.go:467-506 | When everyone delivered and nobody met the bound, all stuck objects of a wanted resource are observed unless it cannot be listed. |
| `Coverage.UncancelledDelivers` | internal/scanner/scanner.go:435-475 | When every worker gets its turns and every result is taken from the channel, everything is delivered. |
| `Coverage.SomeScheduleDelivers` | internal/scanner/scanner.go:435-475 | For whatever is to be listed there are an interleaving and an order of arrival that deliver everything. |
| `Coverage.OpenAreCovered` | internal/scanner/scanner.go:399-428 | When everyone delivered, every catalogued resource with an open incident is covered. |
| `Coverage.ResultsExact` | internal/scanner/scanner.go:435-465 | The delivered results are exact reports, one per resource, with at most MaxTargets reservations. |
| `Coverage.ObservedAreReserved` | internal/scanner/scanner.go:373-384 | Every observation's UID was reserved, so there are at most MaxTargets. |
| `Coverage.VerdictsAreTruthful` | internal/scanner/scanner.go:748-792 | TargetAbsent and TargetReplaced: the full list held no such UID, and no or some other object of that namespace and name; PolicyNoLongerMatches: listed and no ready policy matches; TargetNoLongerDeleting: listed, matched, not deleting; ResourceTypeRemoved: not in the catalog. |
| `Coverage.VerdictExactly` | internal/scanner/scanner.go:748-792 | When everyone delivered: ResourceTypeRemoved exactly when the catalog lacks the type; otherwise an open incident about an unobserved target is resolved, for a reason true of the full list, when its resource was listed in full, and marked incomplete when it cannot be listed or the bound was met. |
| `Coverage.FatesExclude` | internal/scanner/scanner.go:766-792 | No two reasons are true of one list. |
| `Coverage.BoundResolvesNothing` | internal/scanner/scanner.go:508-514 | A cycle that met the target bound resolves only incidents of removed resource types. |
| `Cycle.Scanner.ResolveIncident` | internal/scanner/scanner.go:852-870 | Resolves the named incident or leaves it, touches no other, and fails only on a failed call or exhausted retries. |
| `Cycle.Scanner.FailIncidentDiagnosis` | internal/scanner/scanner.go:824-850 | The same for failing a diagnosis. |
| `Cycle.Scanner.WriteStatus` | internal/scanner/scanner.go:677-717 | The desired status or an explained failure; the list is marked stale exactly when the phase changes. |
| `Cycle.Scanner.PersistDiagnosis` | internal/scanner/scanner.go:622-725 | Without an error the incident is exactly the entry its diagnosis calls for, annotation included, or is created exactly when warranted; it is settled even when the status was too large; the list's entry is stated in full, and a resolved one stays resolved in it exactly when the target was not found, or the annotation had to change and its patch, the first call, was not answered well; the list is marked stale exactly when an incident is created, resolved or changes its phase. |
| `Cycle.Scanner.DiagnoseTargets` | internal/scanner/scanner.go:563-620 | All known incidents about observed targets are settled; without trouble every diagnosis is persisted exactly, creations included, and the list is marked stale exactly when one made it so; all other incidents are untouched; the list is what the turns made of it, entry by entry. |
| `Cycle.Scanner.Settle` | internal/scanner/scanner.go:736-792 | What lifecycle does to one incident; deletes exactly resolved incidents whose time of resolution plus retention has passed, the retention being the positive resolved-incident time of the policy that the status names, and otherwise the positive annotation. |
| `Cycle.Scanner.ReconcileLifecycle` | internal/scanner/scanner.go:727-795 | Every open incident is treated as its verdict says; the view is invalidated exactly when something is done. |
| `Cycle.Scanner.FailActiveIncidentDiagnoses` | internal/scanner/scanner.go:805-822 | Afterwards no open incident has actions or evidence. |
| `Cycle.Scanner.Run` | internal/scanner/cycle.go:111-177 | With the listing's account, the diagnoses and the cached list pinned: whichever stage fails, unless cancellation cut work off or a call on an incident fails for good, every incident open at the start ends Resolved, Active with this cycle's complete diagnosis, or DiagnosisFailed without actions and evidence, and after a degraded cycle none is Active; without trouble the store at the end is determined in full (`CycleFacts.ExactlySettled`): every diagnosis persisted, incidents created exactly when warranted, verdicts carried out, nothing else; resolved incidents gone exactly when the policy's resolved-incident time or else the annotation has passed since their resolution; true reasons; a fresh view counts what the store holds, and when it is fresh; when the cycle degrades; incidents of catalogued resources untouched when the first incident listing is refused in an uncancelled cycle. |
| `CycleCases.FailedScopeListing` | internal/scanner/scanner.go:395-398 | An input on which that listing is refused and an Active incident keeps its actions and its evidence. |
| `CycleCases.RevivedThenDeleted` | internal/scanner/scanner.go:658-752 | An input on which a cycle without errors finds a target stuck again, with a complete diagnosis, and ends without its incident. |
| `CycleFacts.RevivedLostExactly` | internal/scanner/scanner.go:658-752 | At the end of a cycle without trouble an incident whose target was found is gone if and only if it was resolved at the start, its annotation differed, the patch of the annotation met a conflict, and the new retention has passed. |
| `CycleFacts.OpenOrNewPersisted` | internal/scanner/scanner.go:622-725 | An observed target whose incident was open has it exactly as diagnosed, field by field with annotation and evidence times, and one without an incident has got one exactly when it was found with the observed UID past the threshold. |
| `CycleFacts.RefreshedExactly` | internal/scanner/scanner.go:677-702 | Every field of the desired status, by the diagnosis and the status before: the evidence is kept exactly while the actions are the same and it outlasts another interval and timeout. |
| `CycleFacts.UnobservedEndsExactly` | internal/scanner/scanner.go:748-792 | At the end of a cycle without trouble in which everything was delivered, an open incident about an unobserved target is resolved now with the text of the one true reason, or disarmed when its resource could not be listed in full, and otherwise unchanged field by field. |
| `CycleFacts.ResolvedGoneExactly` | internal/scanner/scanner.go:736-752 | A resolved incident about an unobserved target is gone at the end if and only if its time of resolution is set and has passed by the policy's positive resolved-incident time, or else by its positive annotation. |
| `CycleFacts.InconclusiveMeans` | internal/scanner/scanner.go:582-586 | A failed diagnosis counts as found and incomplete, with nothing known. |
| `CycleFacts.WhenForgotten` | internal/scanner/scanner.go:736-752 | When a resolved incident about an observed target is deleted, by what it was, its diagnosis and the answer to one call. |
| `CycleFacts.CountsAgree` | internal/scanner/cycle.go:84-89 | A list that agrees with the store on phases has the store's count for each reported phase. |
| `CycleFacts.LifecycleSettles` | internal/scanner/scanner.go:727-795 | Diagnosis and lifecycle together settle every incident open at the start. |
| `CycleFacts.LifecycleTruthful` | internal/scanner/scanner.go:748-792 | An incident resolved by lifecycle carries one of five texts, and what it says is true of the lists. |
| `CycleFacts.LifecycleExact` | internal/scanner/scanner.go:727-795 | Diagnosis and lifecycle without trouble determine the whole store at the end: persisted diagnoses, creations, verdicts carried out, and exactly the resolved incidents past their retention gone, by the list as the turns left it. |

## Left out

- API service, admission webhook, finalizer owner, EndpointSlice and namespace condition analysis: flat matching that only adds findings; the verdict on a conversion webhook is an input.
- Owner references set by the executor, events, metrics, logging, condition wording and transition times: presentation or wiring.
- JSON encoding, label selector parsing beyond its operators, SHA-256 and client libraries: opaque functions or the abstract API server.
- Message text is abbreviated and truncation counts characters of a `string`; error texts are not carried.
- The tickers, leader election and timeouts: cancellation and clock steps stand for them.
- Cycle.Scanner.DiagnoseTargets: treats the targets one after another in an arbitrary order, so the calls of one turn are consecutive; the workers touch different incidents and share only a flag that is set and never cleared.
- Incident resource versions: a conflict is an arbitrary reply rather than computed from versions.
- Executor target lookup by version: one atomic read; the catalog decides only whether the resource is namespaced.
- NewCoordinator, NewReconciler, options, command line and deployment files: configuration.
