# Verified model of the Langfuse operator

A Dafny model of the parts of the operator whose correctness lies in interleavings and in the
text and arithmetic they decide on. `dafny verify dfyconfig.toml` checks all of it.

| part | files |
|---|---|
| The migration identity: a printer, its parsers, and the two comparisons made on recorded strings | `Text`, `InstanceSpec`, `Identity`, `IdentityLaws`, `OldRecordings` |
| The migration protocol: a step machine of single API calls and cluster events, its safety, no-overlap, freeze and convergence results, and the controller's pass as a method on that machine | `Protocol`, `ProtocolSafety`, `NoOverlap`, `Freeze`, `Convergence`, `Requests`, `FailedCondition`, `MigrationController`, `PassLaws` |
| Instance status written by two controllers, and the canonical pod issues both publish | `PodIssues`, `InstanceStatus`, `StatusFixpoint`, `StatusText` |
| The circuit breaker | `CircuitBreaker`, `BreakerLaws` |
| The two readers of one connection URL, and what each datastore variable reads | `UrlParsers`, `JobDial`, `DatastoreConfig`, `Endpoints`, `Variables` |
| Reconciling sets against a remote store whose calls may fail | `Members`, `ApiKeys` |
| Storage pressure in machine integers | `DiskUsage` |

Code that works on state step by step is a class or a method with loops, proved equal to a
function of the old state; the theorems are lemmas about those functions and about runs. What the
functions mean in the operator's own vocabulary - spec fields, recorded text, condition types and
reasons, variable names - is proved separately, in `OldRecordings`, `PassLaws`, `StatusText`,
`Variables` and at the ends of the other files.

## What is assumed

- Image tags, CNPG cluster names, Secret names and Secret keys contain none of `|`, `#`, `,`, `=`
  (`WellFormed`). Nothing is assumed about the ClickHouse database name. Where a result needs no
  such assumption it makes none.
- Migration runs: the API server accepts a status write exactly from the current version and
  serializes all writes; it may also reject one for any other reason. Snapshots, Job reads and
  the instance controller's copies may be arbitrarily old unless a result says otherwise. The Job
  controller runs at most one pod of a Job at a time, starts none for a finished or terminating
  Job, and only the operator creates Jobs under that name. A failed read, create or delete ends
  a pass with an error that is retried, and is the `Restart` event; a status write that is carried
  out but whose reply is lost counts as made.
- Convergence: the spec is settled, so snapshots are no older than its last edit, Job reads are
  current, and a success is not deleted by its one-hour expiry before it is recorded.
  `Convergence.Converges` and `Requests.ConvergesOnRequests` also take a due Job that has failed
  not to expire, foreground deletions to finish and a due Job not to run for ever without
  succeeding; `Convergence.RecordedExactlyWhenSomeSucceeds` does not. That passes keep coming
  is assumed in `Convergence` and derived in `Requests`, where a request is only assumed to be
  served in the end and no success to be forgotten. There the caches may be behind, but show
  what the events that have arrived are about.
- Freeze: the instance controller's copies are no older than the record, and edited specs are well
  formed. `Freeze.OlderCopyDeploysElsewhere` shows the former is needed.
- Quiescence: the spec and what the two controllers observe hold still; their snapshots need not
  be current.
- Circuit breaker histories: no operator restart, an unchanged breaker specification, a worker
  Deployment that exists, API calls that succeed and status writes that commit, and every
  breaker pass reading the flag it last wrote. Probes and the instance controller's applies
  interleave arbitrarily.
- Member and key synchronisation: no other writer of the membership; calls may fail at any
  point, before or after taking effect. The write accounting takes emails to be listed once. A
  Secret may be put in the way of a create by another writer.
- Disk usage: used is at most the total of each node, and used times 100 fits 64 bits, where a
  lemma says so. The specification itself wraps as the code does.

## Findings

Cases in which a property one might expect does not hold, each with a proof:

- An old Job read can let two migration pods run at once (`NoOverlap.StaleJobReadOverlaps`), by
  way of one kind of pass only (`NoOverlap.OwnedExactlyUntilOrphaned`).
- A migration that has succeeded is forgotten when its record is rejected for a reason other than
  a conflict: the error is only logged, and nothing asks for another pass until the Job expires and
  the migration runs again (`Requests.RejectedSuccessIsForgotten`; `Requests.DueIsAskedExactly`
  shows there is no other way).
- Failed is published after the third failure although the Job has a fourth attempt, which can
  succeed (`FailedCondition.FailedTooSoonExactly`, `FailedCondition.LastAttemptCanSucceed`).
- An apply from a copy older than the record can still deploy another target
  (`Freeze.OlderCopyDeploysElsewhere`).
- A refused retarget keeps the instance in Error after it is reverted, until the next Job pass
  (`FailedCondition.RevertedRefusalStaysFailed`).
- A component that recovers later in probe order undoes the scale-down another component's
  outage demands (`BreakerLaws.LaterRecoveryUndoesTrip`).
- Of a connection URL with an `@` in its path or query the Job's wait loop reads only what
  follows the authority, and so agrees with the health probe only by coincidence
  (`UrlParsers.TailDecidesJob`, `UrlParsers.ParsersAgree`; `UrlParsers.TailAtSignSeparates`
  shows one on which they differ).
- The Job also misreads a bracketed IPv6 host, and drops a port equal to the host text
  (`UrlParsers.ReadingsAgree`, `UrlParsers.PartsAreRead`) - unless white space next to it keeps
  the two texts apart (`JobDial.DialsAlike`).
- Replacing a CNPG reference by that cluster's own Secret is refused as a retarget
  (`Endpoints.AliasIsRefused`), because the mode of a store counts (`Endpoints.RefusalIsExact`).
- A member listed with two roles is rewritten on every pass, and only such specs fail to settle
  (`Members.SettlesExactlyWhenConsistent`).
- A key whose Secret another writer re-created with a dead key is reported as created
  (`ApiKeys.CreatedMeansLiveExactly`, `ApiKeys.DisturbedPassIsRepaired`).
- From 2^64/100 used bytes on a node's percentage is too low
  (`DiskUsage.PercentIsTrueExactlyBelowWrap`).

## Model

| member | source | states |
|---|---|---|
| `Identity.ParseRef` | internal/controller/migration_controller.go:562-573 | The loop that splits a reference yields exactly its name and its endpoint mappings, a repeated key keeping its last value |
| `Identity.CompareRefs` | internal/controller/migration_controller.go:545-557 | The map walk, in any order, decides the agreement of two references; what that is in concrete text, for recordings with no key, one or both, is said by `OldRecordings.RefusalIsExact` |
| `Identity.ListRetargeted` | internal/controller/migration_controller.go:583-611 | The component table lists exactly the recorded components that the desired identity contradicts, in table order; nothing for an empty recording |
| `Identity.CheckUpToDate` | internal/controller/migration_controller.go:482-512 | The gate with its early returns is: something is recorded, the versions match, and no recorded component is contradicted |
| `Identity.Changes` | internal/controller/migration_controller.go:593-609 | The list is empty exactly when no field has moved |
| `IdentityLaws.RoundTrip` | internal/controller/migration_controller.go:389-399 | Every part of a well-formed target - version, both references with their endpoint keys, clustering, database - comes back out of the rendered identity, for any database name, `|` and marker texts included |
| `IdentityLaws.Injective` | internal/controller/migration_controller.go:392-456 | Two well-formed targets render equal exactly when their normalised parts are equal |
| `IdentityLaws.DatabaseRecovered` | internal/controller/migration_controller.go:613-620 | The first database marker in a rendered identity is the printed one, so everything behind it is the name |
| `IdentityLaws.SplitSecretText` | internal/controller/migration_controller.go:409-435 | A rendered Secret reference splits back into its name and its two mappings |
| `IdentityLaws.GateMatchesRefusal` | internal/controller/migration_controller.go:482-611 | For every non-empty recording and every desired string, well formed or not: the gate is closed exactly when the versions match and nothing is listed as a retarget |
| `IdentityLaws.RenderedGateIsEquality` | internal/controller/migration_controller.go:473-512 | Between identities of the current builder the componentwise gate is plain string equality |
| `IdentityLaws.RenderedTargetsAgree` | internal/controller/migration_controller.go:575-611 | Between identities of the current builder nothing is listed exactly when all parts but the version are equal |
| `IdentityLaws.RefsAgreeTransitive` | internal/controller/migration_controller.go:540-557 | One-way agreement of references composes, also across recordings with fewer keys |
| `IdentityLaws.SameTargetTransitive` | internal/controller/migration_controller.go:583-611 | Not being a retarget composes over a complete middle recording, however few components the oldest one tracked |
| `IdentityLaws.IncompleteRecordingBreaksTransitivity` | internal/controller/migration_controller.go:593-605 | Completeness of the middle recording is needed: over one that lost a component, agreement does not carry |
| `IdentityLaws.BuiltIsComplete` | internal/controller/migration_controller.go:389-399 | The builder always writes a complete identity, even from tags and names that contain separators |
| `IdentityLaws.LegacyGate` | internal/controller/migration_controller.go:626-643 | A bare recorded version closes the gate exactly for the same version, unclustered, on `default` - whatever the references are |
| `OldRecordings.IdentityText` | internal/controller/migration_controller.go:389-456 | The identity of every spec in its own text: tag without its `v`, both references with their keys and defaults, clustering and database behind their literal markers |
| `OldRecordings.RefusalIsExact` | internal/controller/migration_controller.go:534-611 | Between any two recordings in literal text, each reference written as a bare name, with the key of its URL or with both keys: listed are exactly the parts the first one carries that differ in the second, in order and with both texts; a key it did not record never counts |
| `OldRecordings.GateIsExact` | internal/controller/migration_controller.go:473-512 | Between any two such recordings the gate is closed exactly for equal versions and no such difference |
| `OldRecordings.OlderRecording` | internal/controller/migration_controller.go:534-557 | After an operator upgrade: a recording with fewer keys against any spec is refused, and frozen, exactly for what it carries |
| `MigrationController.Reconcile` | internal/controller/migration_controller.go:57-316 | The whole pass as a method on the API server, its status writes accepted, lost to a conflict or rejected: its effect and its result are those of the step machine's pass; a pass that lost a race asks to be repeated, and a due migration is only left without a requeue after the Job succeeded - even if its record was rejected - or failed as often as its backoff limit |
| `PassLaws.DecidedBy` | internal/controller/migration_controller.go:85-161 | Which branch a pass takes, in the fields of the spec and the text of the record - nothing, a bare version, or a full recording: a baseline, a clean-up, a refusal, or a Job |
| `PassLaws.JobAfterPass` | internal/controller/migration_controller.go:164-230 | The Job a pass leaves, for every copy however stale and writes rejected or not: with none there, one stamped with the spec's own text exactly when the migration is due, and none otherwise; a due migration drains a Job of any other text; only a succeeded, expired Job of a migrated instance is deleted |
| `PassLaws.FreshInstanceMigrates` | internal/controller/migration_controller.go:97-101 | With nothing recorded, the required keys mapped and none of the rejected combinations, the pass creates the Job if and only if `runOnDeploy` is not false |
| `PassLaws.StatusAfterPass` | internal/controller/migration_controller.go:85-315 | The whole status an accepted pass leaves: record, version, failure count and condition, each by the case it is written in; no version is added when nothing changes |
| `PassLaws.LostPassWritesNothing` | internal/controller/status.go:37-48 | From an outdated copy, or with the write rejected, no status is written |
| `PassLaws.ResultOfPass` | internal/controller/migration_controller.go:85-316 | When the pass asks to be repeated and after how many seconds, fails or settles - for every copy, Job, and outcome of its write |
| `PassLaws.RolloutExactly` | internal/controller/langfuseinstance_controller.go:127-196 | The Deployments are applied exactly when nothing remembered of the last migration differs and the spec can be built; with nothing remembered, whenever it can be built |
| `MigrationController.ResultsAskAgain` | internal/controller/status.go:50-91 | The same about the pass as a function of the state, for every state, snapshot version and outcome of the writes |
| `MigrationController.SuccessLostExactly` | internal/controller/status.go:76-91 | A due pass that finds success settles with nothing recorded exactly when its write is rejected |
| `MigrationController.CleanupCompletedJobs` | internal/controller/migration_controller.go:331-355 | Only a succeeded Job past its hour is deleted, in the background |
| `MigrationController.ApiServer.UpdateStatus` | internal/controller/status.go:40-48 | An unchanged status is not sent; a changed one commits exactly when it is not rejected and nothing was written since the read; otherwise nothing changes and the outcome tells which |
| `MigrationController.WholePassIsARun` | internal/controller/migration_controller.go:57-316 | A pass without interruption, with its writes rejected or not, is a run of the step machine, so all results about runs apply to it |
| `ProtocolSafety.StepInv` | internal/controller/migration_controller.go:57-316 | Every step - spec edits, sibling writes, passes on stale snapshots and stale Job reads, rejected writes, Job and pod events, restarts - keeps the protocol invariant and only appends to the object's history |
| `ProtocolSafety.RecordStep` | internal/controller/migration_controller.go:85-95 | A step leaves the record alone or writes the identity of the very spec it commits on; what it writes keeps the recorded target and is earned or back-filled |
| `ProtocolSafety.TargetNeverMoves` | internal/controller/migration_controller.go:107-135 | Target immutability over whole runs: once an identity is recorded, nothing recorded later is a retarget of it - for every interleaving, snapshot and conflict |
| `ProtocolSafety.NoUnearnedSuccess` | internal/controller/migration_controller.go:232-256 | In every reachable state the record is the initial one, the stamp of a Job that succeeded, or a baseline agreeing with the recorded version |
| `ProtocolSafety.RecordedForCommittedSpec` | internal/controller/migration_controller.go:206-256 | A newly recorded identity is that of the spec on the committed object, never of a stale snapshot |
| `NoOverlap.OwnedExactlyUntilOrphaned` | internal/controller/migration_controller.go:206-230 | Along every run, with any snapshots and any Job reads: at most one migration pod is ever live and it belongs to the one Job object, under its stamp, if and only if no clean-up pass deletes a Job in the background while a migration pod is live |
| `NoOverlap.OwnerStep` | internal/controller/migration_controller.go:342-351 | Per step: of all events exactly such a clean-up pass loses the one owner |
| `NoOverlap.MigrationPodsNeverOverlap` | internal/controller/migration_controller.go:206-230 | With Job reads current when made, no clean-up pass is of that kind, so two migration pods never run at once |
| `NoOverlap.StaleJobReadOverlaps` | internal/controller/migration_controller.go:342-351 | A run in which an old Job read makes the background clean-up delete the successor Job, and two Jobs' pods run at once |
| `Convergence.RankNeverRises` | internal/controller/migration_controller.go:57-316 | With the spec settled and due Jobs spared by the expiry - or once one has succeeded - no step, whatever siblings write and whichever writes are lost or rejected, moves away from a recorded migration |
| `Convergence.PassLowersRank` | internal/controller/migration_controller.go:159-256 | One undisturbed pass lowers the rank: a leftover Job is deleted, a missing one created, a success recorded |
| `Convergence.Converges` | internal/controller/migration_controller.go:57-316 | In every fair run with a settled, migratable spec that is not a retarget, from some moment on the recorded identity covers the spec for good, whatever Job was left over |
| `Convergence.RecordedExactlyWhenSomeSucceeds` | internal/controller/migration_controller.go:159-316 | However many attempts fail, expire and are made again: the migration is recorded for good if and only if some attempt succeeds |
| `Requests.DueIsAskedExactly` | internal/controller/status.go:76-91 | Along every run - caches behind, events still to come, passes interrupted, writes lost or rejected - a due migration always has a pass under way or asked for, or has been given up on, if and only if no write that would record a success is rejected while nothing else asks for a pass |
| `Requests.RejectedSuccessIsForgotten` | internal/controller/migration_controller.go:249-256 | A run from the start in which that happens: the Job has succeeded, nothing is recorded, and the controller is idle with nothing asked for |
| `Requests.DueIsAsked` | internal/controller/migration_controller.go:693-701 | Without such a rejection nothing due is forgotten |
| `Requests.AttentiveStep` | internal/controller/migration_controller.go:693-701 | Every step keeps the accounting behind that: what a pass nobody has asked to repeat works on is still there |
| `Requests.RememberStep` | internal/controller/migration_controller.go:112-316 | Per step: exactly the rejection of a success's record leaves a due migration behind |
| `Requests.ConvergesOnRequests` | internal/controller/migration_controller.go:57-316 | Convergence without assuming that passes keep coming: it is enough that requests are served and no success is forgotten |
| `Convergence.SettlesFrom` | internal/controller/migration_controller.go:57-135 | The hypothesis of the convergence result holds in every reachable state between passes whose spec is not a retarget |
| `Convergence.RetargetIsNeverCovered` | internal/controller/migration_controller.go:112-135 | Conversely, while a retarget stands nothing covers it, with any snapshots, Job reads and Job events |
| `FailedCondition.LiftedExactly` | internal/controller/migration_controller.go:112-151 | A Failed migration condition is lifted exactly by a Job pass on the current version that creates the Job, or sees the right one succeed or still trying with problems to report |
| `FailedCondition.FailedExactlyUntilLifted` | internal/controller/migration_controller.go:164-315 | Over every run the condition stays Failed exactly as long as no such pass happens |
| `FailedCondition.RevertedRefusalStaysFailed` | internal/controller/migration_controller.go:107-135 | A refused retarget that is reverted leaves the instance Failed with its migration recorded, over every run until the spec is edited again |
| `FailedCondition.RefusedIsFailed` | internal/controller/migration_controller.go:112-151 | A pass that refuses on the current version ends Failed |
| `FailedCondition.RevertingIsStuck` | internal/controller/migration_controller.go:107-135 | Editing the spec back to one the record covers is where that state begins |
| `FailedCondition.RefusalRun` | internal/controller/migration_controller.go:107-135 | A run from the start through edit, refusal and revert to that state |
| `FailedCondition.FailedTooSoonExactly` | internal/controller/migration_controller.go:272-296 | A Job pass publishes Failed while the Job can still run exactly when the Job has failed as often as its backoff limit and no oftener |
| `FailedCondition.LastAttemptCanSucceed` | internal/resources/migration_job.go:101-103 | The attempt that is left can run and succeed |
| `Freeze.RolloutFollowsTarget` | internal/controller/langfuseinstance_controller.go:127-196 | A pass that reads a recorded full identity, or a successor of it, applies the Deployments exactly for the specs that keep that identity's target and can be built |
| `Freeze.UpgradeIsDeployed` | internal/controller/langfuseinstance_controller.go:127-196 | Over every run after a full identity is recorded: a spec read from then on is deployed by the apply of that copy if and only if it keeps the target and can be built, whatever is edited or recorded in between |
| `Freeze.DeployedTargetIsFixed` | internal/controller/langfuseinstance_controller.go:127-153 | After a full identity is recorded, every later Deployment apply deploys its target - over every run of spec edits, from any copies that are not older than the record |
| `Freeze.DeployedTargetNeverMoves` | internal/controller/langfuseinstance_controller.go:127-208 | Once Deployments run on the recorded target they never leave it, under the same reads |
| `Freeze.OlderCopyDeploysElsewhere` | internal/controller/langfuseinstance_controller.go:127-208 | A run in which a copy from before the record deploys another target after it |
| `InstanceStatus.InstanceObject.DependencyHealth` | internal/controller/phase.go:79-91 | The loop with its early return reports whether some dependency is known unhealthy and whether all are known healthy |
| `InstanceStatus.InstanceObject.Derive` | internal/controller/phase.go:46-69 | Phase and readiness are those of the decision table, and fit the status in the words of its conditions: for each of the five phases an if-and-only-if about condition types, their status and reason, ready counts and fatal issues |
| `InstanceStatus.InstanceObject.UpdateStatus` | internal/controller/langfuseinstance_controller.go:342-394 | The in-place refresh yields the new status, whose phase fits its conditions; version and public URL move only when Deployments were applied |
| `InstanceStatus.InstanceObject.ReconcileInstance` | internal/controller/langfuseinstance_controller.go:120-225 | The pass of the instance controller, edit by edit, is the status transformer, and the phase it writes fits the conditions it writes; when it ends without a write that transformer changes nothing |
| `InstanceStatus.InstanceObject.ReconcileHealth` | internal/controller/health_monitor.go:91-128 | The pass of the health monitor, check by check, is the status transformer; it holds still while a migration runs |
| `InstanceStatus.DerivedPhaseFits` | internal/controller/phase.go:42-113 | Each phase exactly: Error when frozen, failed or with a fatal issue; otherwise Migrating while MigrationsComplete is False; otherwise Degraded or Running when both components serve and some store is reported and not True, or all four are True; Pending in all other cases; ready exactly when Running |
| `StatusText.PhaseIsPublished` | internal/controller/langfuseinstance_controller.go:374-394 | What a pass of the instance controller publishes: a phase that fits, the Ready condition with that phase's reason, and version and URL exactly when not frozen |
| `StatusText.FrozenExactly` | internal/controller/langfuseinstance_controller.go:127-153 | Frozen exactly when something remembered of the last migration differs from the spec |
| `StatusText.NoticesArePublished` | internal/controller/langfuseinstance_controller.go:133-170 | The freeze is announced exactly when it holds, naming the changes; the deprecation exactly when there is one, and not touched while frozen |
| `StatusText.ComponentsArePublished` | internal/controller/langfuseinstance_controller.go:342-372 | Replica counts are the observed ones, pod issues are shown exactly for a Deployment that is not fully ready, a missing Deployment leaves its entry |
| `StatusText.OtherPasses` | internal/controller/langfuseinstance_controller.go:155-166 | A configuration error names itself and changes nothing else; an unreadable Deployment keeps the pass from writing |
| `StatusText.ProbesArePublished` | internal/controller/health_monitor.go:91-201 | Every store's condition and flag show its own probe; nothing is probed while a migration is under way |
| `StatusText.DeploymentsAreJudged` | internal/controller/health_monitor.go:203-280 | Each way a Deployment can be found has its condition: ready exactly when some replica is ready and none is missing, otherwise the first pod issue's reason |
| `StatusText.HealthKeeps` | internal/controller/health_monitor.go:91-128 | The health monitor writes six condition types and leaves phase, version, record and every other condition alone |
| `StatusFixpoint.InstancePassTwice` | internal/controller/langfuseinstance_controller.go:342-394 | The instance controller's pass is idempotent for every status and observation |
| `StatusFixpoint.HealthPassTwice` | internal/controller/health_monitor.go:91-128 | The health monitor's pass is idempotent |
| `StatusFixpoint.InstancePassKeepsHealth` | internal/controller/health_monitor.go:225-280 | Both controllers give the pod-issue fields the same value: the instance controller leaves settled what the health monitor settled |
| `StatusFixpoint.AtMostThreeWrites` | internal/controller/phase.go:42-46 | Any schedule of the two controllers' passes, on any snapshots, writes status at most three times |
| `StatusFixpoint.WritesWithinPotential` | internal/controller/status.go:37-48 | The writes still to come are bounded by a potential that every accepted write lowers |
| `StatusFixpoint.ThreeWritesHappen` | internal/controller/phase.go:42-69 | The bound is tight: a fresh instance whose Deployments are up is written three times |
| `StatusFixpoint.ThreePassesSettle` | internal/controller/phase.go:42-69 | One pass of each controller, the instance controller's last, reaches a status both agree on, from anywhere |
| `StatusFixpoint.SettledIsSilent` | internal/controller/status.go:37-48 | Nothing is ever written after that |
| `StatusFixpoint.PhaseIgnoresItsOutput` | internal/controller/phase.go:42-69 | The phase depends on nothing that the phase decision itself writes |
| `StatusFixpoint.PhaseIsTheDerivedOne` | internal/controller/langfuseinstance_controller.go:374-391 | After a pass that refreshed the status, phase and readiness are what the published conditions imply; the freeze condition stands exactly while the target has moved |
| `StatusFixpoint.FrozenPassPublishesNothing` | internal/controller/langfuseinstance_controller.go:133-152 | A frozen pass leaves version and public URL as they were and ends in Error, not ready |
| `StatusFixpoint.InstancePassKeepsBreaker` | internal/controller/langfuseinstance_controller.go:364-371 | No instance status write changes the circuit breaker's flag or reason |
| `PodIssues.PodIssuesOf` | internal/controller/pod_issues.go:104-143 | The loops over conditions and containers yield the issues of one pod in order |
| `PodIssues.CollectPodIssues` | internal/controller/pod_issues.go:71-101 | Collecting, sorting and truncating in place yields the canonical capped list |
| `PodIssues.HasFatalIssue` | internal/controller/pod_issues.go:217-224 | The scan finds a fatal issue exactly when there is one |
| `PodIssues.SortSorted` | internal/controller/pod_issues.go:87-95 | The result is sorted by (fatal first, pod, container) and has the same elements |
| `PodIssues.SortStable` | internal/controller/pod_issues.go:87-95 | Issues that share a sort key keep their order |
| `PodIssues.SortedIsDetermined` | internal/controller/pod_issues.go:85-95 | A sorted list is determined by its per-key sub-lists |
| `PodIssues.ListingOrderIsIrrelevant` | internal/controller/pod_issues.go:80-101 | For every permutation of pods with distinct names the reported list is the same, even when one pod has several issues under one key |
| `PodIssues.CapKeepsFatal` | internal/controller/pod_issues.go:97-100 | Capping at five never changes whether a fatal issue is reported |
| `PodIssues.ListedExactly` | internal/controller/pod_issues.go:104-183 | An issue is listed exactly when some pod that is neither going away nor done reports it: an unschedulable condition with a reason, a container waiting for anything but the starting reasons, or one that exited non-zero - with its text, and fatal exactly for the six reasons |
| `PodIssues.FatalExactly` | internal/controller/pod_issues.go:51-58 | A fatal issue is written exactly when a container of a live pod waits for one of the six reasons |
| `PodIssues.WrittenInOrder` | internal/controller/pod_issues.go:87-95 | The written list has fatal issues first, then goes by pod and container in the order of their first difference |
| `PodIssues.FiveAreWritten` | internal/controller/pod_issues.go:97-100 | Written are the first five of the sorted list, or all |
| `CircuitBreaker.CircuitBreakerController.Reconcile` | internal/controller/circuit_breaker.go:64-198 | One pass is the components' checks in probe order on this instance's two maps, worker and flag; a deleted instance is forgotten, other instances' maps are never touched, and the requeue is the smallest configured interval, or fifteen seconds |
| `CircuitBreaker.CircuitBreakerController.OpenCircuitBreaker` | internal/controller/circuit_breaker.go:201-272 | Opening saves the observed count only on the transition, scales to zero and raises the flag; while held at zero it does nothing |
| `CircuitBreaker.CircuitBreakerController.RecoverCircuitBreaker` | internal/controller/circuit_breaker.go:275-327 | Recovery restores the saved count (1 when missing or 0), lowers the flag and forgets the saved count |
| `CircuitBreaker.CircuitBreakerController.CheckComponent` | internal/controller/circuit_breaker.go:150-181 | Counting and acting on one probe result |
| `BreakerLaws.CounterIsTrailingRun` | internal/controller/circuit_breaker.go:160-174 | Over every history each counter is the length of the trailing run of failed probes |
| `BreakerLaws.TripExactness` | internal/controller/circuit_breaker.go:129-182 | With some scaling component at or over its threshold after a pass, the worker is at zero with the flag set exactly when no component later in probe order than the last such one recovers in that pass; in particular when none recovers |
| `BreakerLaws.OverIsTheCounter` | internal/controller/circuit_breaker.go:171-181 | Being at or over the threshold is what the counter says after the pass |
| `BreakerLaws.PassOutcome` | internal/controller/circuit_breaker.go:129-182 | For any mix of three components, worker and flag after a pass are decided by the last component that acts |
| `BreakerLaws.LaterRecoveryUndoesTrip` | internal/controller/circuit_breaker.go:123-127 | A concrete pass in which Redis recovering undoes the scale-down that an ongoing ClickHouse outage demands |
| `BreakerLaws.FlagAndRestorePoint` | internal/controller/circuit_breaker.go:221-247 | Over every history and all applies in between, the flag is up exactly while the trailing run has reached the threshold, and the saved count is the one observed when it tripped |
| `BreakerLaws.RecoveryRestoresTheTripPoint` | internal/controller/circuit_breaker.go:286-320 | The pass that ends an outage sets the worker to the count it had at the trip (1 if that was 0) and lowers the flag, whatever was applied mid-outage |
| `BreakerLaws.OutageHoldsTheWorkerAtZero` | internal/controller/circuit_breaker.go:226-247 | During an outage every failed probe leaves the worker at zero, so a lost race heals at the next probe |
| `BreakerLaws.ApplyUndoesExactly` | internal/resources/web_deployment.go:95-109 | An apply undoes the scale-down exactly when its copy does not show the flag, no autoscaler owns the count and the configured count is not zero |
| `BreakerLaws.CheckByAction` | internal/controller/circuit_breaker.go:150-327 | What one probe does, by configured action: only `scaleWorkerToZero` takes the worker down, at its threshold or at three, only with `restoreScale` does it come back, to the saved count or one; otherwise only the counter moves |
| `BreakerLaws.PassInOrder` | internal/controller/circuit_breaker.go:123-148 | A pass checks ClickHouse, then Redis, then the database, each if configured |
| `BreakerLaws.NeverScaled` | internal/controller/circuit_breaker.go:204-210 | Over every history in which no component is set to scale the worker, passes change neither replicas, flag, reason nor saved counts |
| `BreakerLaws.NeverRestored` | internal/controller/circuit_breaker.go:278-284 | Over every history without `restoreScale` no pass raises the worker, and a raised flag stays up |
| `BreakerLaws.TripNamesTheComponent` | internal/controller/circuit_breaker.go:226-265 | Over every history, the pass in which a scaling component's failures are at its threshold while no other acts leaves the worker at zero, flagged, and under that component's name unless it was held there already |
| `BreakerLaws.ApplySets` | internal/resources/web_deployment.go:95-109 | What an apply makes of the count: nothing while held or autoscaled, else the configured count, or one |
| `UrlParsers.ParsePostgresURL` | internal/controller/health_probes.go:95-130 | The step-by-step parser computes its specification on every string, error cases included |
| `UrlParsers.CutAuthority` | internal/controller/health_probes.go:96-109 | Cutting scheme, path and credentials off in turn leaves the authority without its user information |
| `UrlParsers.ParseHostport` | internal/resources/migration_job.go:64-74 | The shell function's parameter expansions compute its specification on every string |
| `UrlParsers.SameAuthority` | internal/resources/migration_job.go:66-69 | With no `@` behind the authority both parsers take the same text for it, although one cuts the path first and the other the credentials |
| `UrlParsers.ReadingsAgree` | internal/controller/health_probes.go:110-130 | On an authority text the two readings are equal exactly when it is agreeable |
| `JobDial.DialsAlike` | internal/resources/migration_job.go:64-78 | For every URL with no `@` behind its authority, white space around it included if the shell splits at it or never comes across it: the probe dials what the Job waits for - the words the shell splits off - exactly when the authority has no such white space and is agreeable, where padding takes away the shell's blind spot for a port equal to the host |
| `JobDial.TakenIsPadded` | internal/resources/migration_job.go:64-70 | What the Job takes from a URL is what it takes from the trimmed one, padded with some of what trimming takes off |
| `UrlParsers.ParsersAgree` | internal/controller/health_probes.go:89-130 | The two parsers themselves, for every URL whose white space the Job does not come across: with no `@` behind the authority they return the same host and port exactly when the authority text is agreeable; and for an agreeable authority, whatever follows it, exactly when the text the Job takes reads as the authority does |
| `UrlParsers.TailDecidesJob` | internal/resources/migration_job.go:66-70 | With an `@` behind the authority the Job reads the tail alone, whatever the credentials and the host |
| `UrlParsers.FrameIsInvisible` | internal/resources/migration_job.go:64-74 | White space in front of a scheme or behind a path or query does not change what the Job reads, although only the probe trims |
| `UrlParsers.PartsAreRead` | internal/controller/health_probes.go:89-130 | In terms of the URL's parts: both return the host and the port (5432 when absent), credentials holding any `@` or `:`; the shell alone drops a port whose text is also the host |
| `UrlParsers.TailAtSignSeparates` | internal/resources/migration_job.go:67-68 | A URL with an `@` in its path on which the two parsers disagree |
| `UrlParsers.TlsQueryIsInvisible` | internal/langfuse/config.go:316-332 | Appending the TLS query changes neither reading, for every trimmed base - with whatever path, query or credentials |
| `UrlParsers.JobIgnoresTlsQuery` | internal/langfuse/config.go:316-332 | The Job's half of that holds for every base |
| `UrlParsers.EveryAuthority` | internal/controller/health_probes.go:110-130 | What the probe makes of every authority text: of one that splits into host and port its parts, with an empty host and a port that is no number refused; of any other the text without brackets at its ends and port 5432 |
| `UrlParsers.SplitsExactly` | internal/controller/health_probes.go:115-119 | A text splits exactly when it is a host and a port around its only colon without brackets, or a bracketed host with a port behind it |
| `UrlParsers.BareBrackets` | internal/controller/health_probes.go:110-119 | A bracketed host without a port is read without its brackets |
| `UrlParsers.PortNumbers` | internal/controller/health_probes.go:124-127 | Every number of up to eighteen digits is a port, signs allowed; nothing with any other character is |
| `UrlParsers.JobReadsEnds` | internal/resources/migration_job.go:70-73 | The Job reads what stands before the first colon and behind the last, or the default when that is empty or the same as the host |
| `DatastoreConfig.Config.AddDatabaseEnv` | internal/langfuse/config.go:279-335 | Appends exactly the PostgreSQL variables of the mode, in order, or reports the deprecated mode and appends nothing |
| `DatastoreConfig.Config.AddClickHouseEnv` | internal/langfuse/config.go:375-457 | Appends the ClickHouse mode, database, credentials, endpoint and SSL variables in order, or refuses clustering on the managed node and appends nothing |
| `DatastoreConfig.Config.AddRedisEnv` | internal/langfuse/config.go:459-559 | Appends the Redis variables in order, or fails exactly for certificates on a TLS connection that is not switched on |
| `DatastoreConfig.Config.AddDatastores` | internal/langfuse/config.go:68-92 | The datastore part of the configuration fails exactly for the three rejected combinations, and otherwise appends all datastore variables |
| `DatastoreConfig.PostgresTLSQuery` | internal/langfuse/config.go:339-373 | The query built up parameter by parameter |
| `DatastoreConfig.UrlEnvReads` | internal/langfuse/config.go:318-332 | A URL variable reads its Secret key, directly or through its `_BASE` variable, and its value is that key's content with the query behind it |
| `Variables.VariablesOfTheStores` | internal/langfuse/config.go:375-559 | Each of the fifteen ClickHouse and Redis variables by name, for every spec: its literal text, the Secret key it reads, or that it is not set - texts that refer to other variables aside |
| `Variables.DatabaseUrls` | internal/langfuse/config.go:279-335 | What both database URLs are, for every spec, Secret content and surrounding list: the content of the key each reads, with the query of the TLS block behind it; the direct one only when its key is mapped |
| `Variables.QueryPerMode` | internal/langfuse/config.go:339-373 | The query text per SSL mode: TLS off for `disable`, the certificate checked for the two verifying modes, any accepted for every other, and which CA it names |
| `Endpoints.EndpointsAreRecorded` | internal/controller/migration_controller.go:401-456 | Each of the four endpoint variables reads exactly the (Secret, key) pair that can be parsed back out of the migration identity, wherever the variables stand in the list |
| `Endpoints.IdentityDecidesEndpoints` | internal/controller/migration_controller.go:401-456 | Specs that are no retarget of each other read every endpoint from the same pair; so reading some endpoint from a different pair is always refused |
| `Endpoints.RefusalIsExact` | internal/controller/migration_controller.go:401-456 | For all specs the refusal is exact: nothing is listed exactly when both stores keep their mode, all four endpoints are read from the same pairs, and clustering and database are equal |
| `Endpoints.ExternalRefusalIsExact` | internal/controller/migration_controller.go:401-456 | Between external stores the pairs, the clustering and the database alone decide |
| `Endpoints.AliasIsRefused` | internal/controller/migration_controller.go:409-423 | The mode counts: naming a CNPG cluster's own Secret keeps every endpoint and is refused nonetheless |
| `Endpoints.TlsQueryText` | internal/langfuse/config.go:339-373 | Every query the operator can compose starts at `?` and holds nothing the URL readers stop at |
| `Endpoints.ProbeAndJobShareEndpoint` | internal/controller/health_probes.go:51-80 | End to end with an external database: for every such Secret content, with or without TLS, the same two equivalences between what the probe dials and what the Job reads from its variable |
| `Members.SyncMembers` | internal/controller/langfuseorganization_controller.go:313-372 | For every pattern of failing calls: an error-free pass leaves the reconciled roster and returns the desired count; every write carried out settles exactly one mismatch, and no call is issued without a mismatch; nothing is called when nothing is asked for or the organization id is missing |
| `Members.SyncUsers` | internal/controller/langfuseorganization_controller.go:336-359 | The loop over the listed users, compared with the roster read at the start |
| `Members.RemoveUnlisted` | internal/controller/langfuseorganization_controller.go:361-369 | The removal loop takes away exactly the unlisted members |
| `Members.ReconciledMeetsSpec` | internal/controller/langfuseorganization_controller.go:313-372 | With one role per email: every listed member ends with it; in exclusive mode nobody else is left, otherwise everybody else is untouched |
| `Members.ReconciledIsSettled` | internal/controller/langfuseorganization_controller.go:313-372 | A further pass has nothing to do |
| `Members.NothingLeft` | internal/controller/langfuseorganization_controller.go:313-372 | A pass keeps a roster exactly when it has no mismatch, which is exactly when it meets the spec |
| `Members.SyncRepeatedly` | internal/controller/langfuseorganization_controller.go:145-160 | However the retried passes fail, they carry out at most as many writes as there were mismatches, and one clean pass leaves none |
| `Members.SettlesExactlyWhenConsistent` | internal/controller/langfuseorganization_controller.go:313-372 | A spec has a roster with all its users that an error-free pass keeps if and only if entries with one email carry one role |
| `Members.ConflictingEntriesNeverSettle` | internal/controller/langfuseorganization_controller.go:337-349 | Listing one member with two roles never settles: every error-free pass leaves a role other than the one it read |
| `ApiKeys.SyncAPIKeys` | internal/controller/langfuseproject_controller.go:452-563 | For every pattern of failing calls no remote key goes and no valid or unlisted Secret is touched; an error-free pass is its specification, mints as many keys as it reports rotated, and leaves a live key in every listed Secret - of distinct ones, exactly when no other writer put a dead key in between |
| `ApiKeys.SyncKey` | internal/controller/langfuseproject_controller.go:477-560 | One entry's turn, call by call, error paths included |
| `ApiKeys.PassMakesLive` | internal/controller/langfuseproject_controller.go:494-539 | An undisturbed error-free pass leaves a live key in every listed Secret, even when two entries share one |
| `ApiKeys.QuietExactlyWhenLive` | internal/controller/langfuseproject_controller.go:494-502 | A further pass creates and changes nothing exactly when every listed Secret holds a live key |
| `ApiKeys.NextPassIsQuiet` | internal/controller/langfuseproject_controller.go:452-563 | So after an undisturbed error-free pass the next one creates nothing |
| `ApiKeys.FreshKeysAddUp` | internal/controller/langfuseproject_controller.go:510-514 | With fresh keys, an error-free pass adds exactly one live key for each it mints |
| `ApiKeys.CreatedMeansLiveExactly` | internal/controller/langfuseproject_controller.go:477-560 | What every created key claims, exactly: after an error-free pass over distinct Secrets each of them holds a live key if and only if no intruder during the pass wrote a key that is dead afterwards |
| `ApiKeys.TurnLeavesLiveExactly` | internal/controller/langfuseproject_controller.go:492-547 | The same for one entry's turn, for any state |
| `ApiKeys.DisturbedPassIsRepaired` | internal/controller/langfuseproject_controller.go:539-547 | When another writer's dead Secret gets in the way the key is reported created all the same; the next pass repairs it |
| `ApiKeys.KeyOfEntry` | internal/controller/langfuseproject_controller.go:492-539 | Which key each Secret holds after an undisturbed pass: the one it held if still live, else the one minted in its own turn |
| `ApiKeys.RenewedSecretsDiffer` | internal/controller/langfuseproject_controller.go:509-539 | No key is stored twice: renewed Secrets hold different keys, none of them live before |
| `DiskUsage.SummarizeDiskUsage` | internal/controller/retention_controller.go:371-384 | The accumulating loop computes its specification, 64-bit wrap-around and the 32-bit conversion included |
| `DiskUsage.PercentIsTrueExactlyBelowWrap` | internal/controller/retention_controller.go:379-381 | A node's percentage is the true one exactly when used times 100 stays below 2^64, and never too high |
| `DiskUsage.PercentInMachineWords` | internal/controller/retention_controller.go:379-381 | Whatever a node reports, its percentage is the 64-bit quotient kept to 32 bits |
| `DiskUsage.SummaryNamesFirstFullest` | internal/controller/retention_controller.go:364-384 | For all nodes, overflowing ones included: the summary names the first of those with the highest percentage and that percentage |
| `DiskUsage.SumsAreSums` | internal/controller/retention_controller.go:374-376 | The totals are the sums over the nodes up to multiples of 2^64 |
| `DiskUsage.NotBelowAverage` | internal/controller/retention_controller.go:364-384 | The percentage the thresholds see is at least the cluster average |
| `DiskUsage.VerdictIsAboutNodes` | internal/controller/retention_controller.go:268-296 | Unknown exactly when the capacities sum to zero in 64 bits; otherwise Critical exactly when some node has reached a positive critical threshold, Warning exactly when none has but some node has reached a positive warning threshold |
| `DiskUsage.UnknownMeansNoCapacity` | internal/controller/retention_controller.go:257-266 | With capacities below 2^64 in all, that sum is zero only when no node has capacity |
| `DiskUsage.HumanizeBytes` | internal/controller/retention_controller.go:404-415 | The division loop keeps its unit index in range and ends at the largest unit not above the count, or the last |
| `DiskUsage.RenderingIsDetermined` | internal/controller/retention_controller.go:404-415 | That determines the rendering |
| `DiskUsage.UnitsInNumbers` | internal/controller/retention_controller.go:404-415 | The units in numbers: plain below 1024, then K, M, G and T up to the next power of 1024, and P for everything above |
| `DiskUsage.StorageStatus.Evaluate` | internal/controller/retention_controller.go:230-296 | What is written to status for a failed query, for no capacity and for each threshold |

## Left out

- Network probes, HTTP and TLS clients, ClickHouse queries and the Langfuse REST client: their answers are inputs.
- Builders for Services, Ingress, Route, HTTPRoute, HPA, PDB, NetworkPolicy, StatefulSets and the rest of the Deployments: struct construction with easy claims only.
- Server-side apply beyond "an undeclared replica count leaves the live one alone".
- Manager setup, watches, RBAC markers, deep copies, events, logging, observed generations, condition wording and timestamps.
- Secret generation, hashing, certificate parsing; schema drift and retention statements; auth, trusted-CA, blob, LLM, OIDC and OTEL variables, whose builders cannot fail.
- Deletion of the instance, organization or project, finalizers, and looking up or creating the organization and project themselves.
- `extraEnv` merging for Web and Worker, which may override any variable; the endpoint results are about the list the migration Job gets.
- MigrationController.Reconcile: the status write is one step and the Job create another, but `migrationPodIssues` enters as whether there were issues, and the message and recorded issue list are not part of the protocol state.
- InstanceStatus.InstanceObject.ReconcileInstance: conditions are a map by type, so their order in the list is not captured; a failed apply of a child resource, which ends the pass before its status write, is left to the schedule.
- InstanceStatus.InstanceObject.ReconcileHealth: a message is kept as what it is made from; the rendering into text is not modelled.
- PodIssues.CollectPodIssues: the library's stable sort is a specified function rather than an in-place algorithm.
- DatastoreConfig.PostgresTLSQuery: mounting the CA Secret is left out, as are the mounts of the Redis certificates; no variable depends on them beyond the fixed paths.
- JobDial.DialsAlike: the shell's pathname expansion of the split words is not modelled, so a host with `*`, `?` or `[` in it that matches a file is outside it; the wait loop itself is I/O.
- DiskUsage.HumanizeBytes: the quotient is kept exact; printing it with one decimal is not modelled.
- DiskUsage.StorageStatus.Evaluate: the summary sentence is not modelled; parsing of the query's rows is I/O.
- Members.SyncMembers: a membership list read while another client edits it is not modelled.
