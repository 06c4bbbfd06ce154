# Verified model of the cylism manager's protocols, indexes and stores

The project models the parts of the cylism manager in which several operations have to agree with each other, and
proves what they promise together. Every SQLite transaction and every single Kubernetes API call is one atomic step; a
call that fails has no effect; a Kubernetes `Update` that carries a resource version is a compare-and-swap.
`dafny verify dfyconfig.toml` checks the whole project.

| area | files | what is proved |
|---|---|---|
| Approval of Agent operations | `AgentOperationTable`, `ApprovalProtocol`, `ApprovalIntent`, `ApprovalSafety`, `ApprovalTheorems`, `ApprovalRecords`, `ApprovalReasons`, `ApprovalHandler`, `ApprovalOutcomes`, `ApprovalUndisturbed` | for every interleaving of request filing, approvers, rejecters, clock ticks, outside writers, failing calls and crashes: one side effect per operation, by the thread that won the compare-and-swap; scales land on the recorded version; the status diagram; truthful replies; approvals execute and rejections reject; which approved rows can still end; why a row expired or went stale; what each kind of request comes to undisturbed |
| Metrics storage migration | `Decimal`, `MetricsConfig`, `MetricsMigration`, `MetricsMigrationSafety` | for every serialized run with an error or a crash at any API call: no writer during a copy, cutover only after a passed copy and onto the claim it filled, nothing lost, no other claim or directory touched, settings kept through the print/parse round trip |
| ConfigMap and Secret references | `ConfigReferences`, `ConfigReferenceMeaning`, `ConfigReferenceIndex` | the index built once equals the scan for each resource, element by element and in order; the scan reports exactly the fields that name the resource, as often as they do |
| Node drain and removal | `NodeDrain`, `NodeControl` | the plan is a partition, requests go to exactly the candidates, a forced drain of a failed node leads to a removable node |
| Environment namespaces | `Environments` | no run adds a collision, repairs are bounded by the collisions, the unique index is never violated |
| Deployment templates | `Templates` | defaults exist, referenced templates stay, revisions count updates, conditional updates see what they read |
| Background generations | `BackgroundGenerations`, `BackgroundContainer` | no two generations overlap, one late run at most, cancelled tasks drain |
| Releases and dashboard | `Releases` | bulk load, per-application query and dashboard agree; the summary does not depend on map order; counts add up |
| Capabilities | `Capabilities` | the folded status view agrees with the check in every reachable store |
| Volume claims | `VolumeClaims` | label round trip for every 64-bit id; batched summaries equal point lookups |

Concurrent parts are transition systems with a total `Step(state, action)` and `Exec(state, run)`; every source of
nondeterminism is a field of an action, so a statement about all runs is a statement about all interleavings and all
failures. Parts that change objects in place are classes whose methods are tied to functions on the old state, and the
properties are proved about those functions.

## What the code does differently from what it says

- Two scale operations against one version can both end succeeded, because writing back an unchanged object keeps its
  version. In every run in which they do, that version already had the replicas one of them asked for
  (`BothSucceededMeansOneWasThere`); and at any point of any run two fresh rivals can both succeed exactly when it has
  (`BothCanSucceedIff`). Approved one after the other, the second succeeds exactly when the first asks for nothing new
  (`SecondApprovalOfOneVersion`); interleaved, it is enough that the second does (`InterleavedApprovalsBothSucceed`). At
  most one of them ever writes (`OneWriterPerVersion`).
- The deadline of an operation is compared with the clock once, before its target is read, so execution can start any
  time after it, and starts in time exactly when the approver stalls no longer than was left
  (`DeadlineBoundsTheCheckOnly`). The check itself is always within the deadline
  (`SideEffectStartsAtMostOnce`).
- `UpdateAgentOperationStatus` is documented to move only non-terminal operations (internal/store/runtime_repository.go:152-154),
  but compares with whatever `from` status it is given: a finished row moves exactly for a caller that expects its final
  status (`FinishedRowMovesIff`). The property holds because no caller does (`StepFollowsArrow`).
- An approver whose final compare-and-swap fails answers as if the outcome had been recorded. The announced outcome is in
  the row exactly when that last call worked (`AnnouncedIsStoredIff`, `Platform.Resolve`); otherwise the row stays
  approved in every continuation (`OrphanStaysApproved`), and this happens to any scale request
  (`UnrecordedExecutionHappens`). Nothing recovers approved rows: one can still end exactly while the thread that claimed
  it is at work, and never after that thread crashed or replied (`ApprovedRowCanEndIff`).
- Reconciliation is documented to keep a restart from stranding the metrics store
  (internal/k8s/victoriametrics_storage_migration.go:104-105). A crash between stopping the store and creating the copy
  job strands it: no status read starts it again (`CrashBeforeJobStrands`, `StrandedStays`). So do two errors in a row
  there, and an error after the deletion of a failed job whose store had not been restored; `StartStrandsIff` gives the
  exact condition. A status read restarts a stopped store exactly when there is a finished job (`StatusRestartsIff`).
- The copy job does not look at the archiver's exit code, and a leftover can make up the file count for a skipped file
  (`SkippedFileCanPass`). A passed copy is right exactly when every file not delivered was already there unchanged
  (`PassedCopyIsExact`). Before the job runs, the test can be trusted whatever the job delivers exactly when the claim
  holds more files of its own than it lacks, or none of its own and the shared ones unchanged (`TestIsSoundIff`); an
  empty claim is such a one (`EmptyClaimIsSound`).
- A re-installation during a copy breaks the no-writer rule, and with it the data
  (`ReinstallKeepsInvIff`, `ReinstallDuringCopyLosesData`).
- The health that lets a forced drain start looks at the first Ready condition, the removal check at any of them: with
  two Ready conditions a forced drain need not lead to a removable node (`TwoReadyConditionsDisagree`).
- The listing of namespace conflicts skips the empty namespace, the unique index does not: while two rows have an empty
  namespace and nothing else collides, updates and deletes are stored and still answered with an error
  (`StoredYetRefusedIff`, `DeletedYetRefusedIff`, `EmptyNamespacesBlockIndex`).
- A default template is enabled when it is chosen, but an update may disable it later (`DefaultStaysEnabledIff`,
  `DefaultCanBeDisabled`); and a release may be created for a template that was deleted after it was read
  (`StepKeepsReferencesIff`, `ReleaseCanDangle`).
- The dashboard's unreleased counter is off by the number of missing applications that still have releases
  (`CountsAddUp`, `UnreleasedIsRightIff`, `OrphanMiscounts`).
- A managed claim is managed by every environment exactly when its label does not name one: missing, another prefix, not
  a number, zero, or past 64 bits (`ManagedByAllIff`, `OverflowFallsToAll`).

## Model

| member | source | states |
|---|---|---|
| `AgentOperationTable.OperationStore.Create` | internal/store/runtime_repository.go:97-125 | one row per (runtime, request id): a retry gets the first row back and changes nothing; refused exactly for an incomplete request or a clashing operation id |
| `AgentOperationTable.OperationStore.UpdateStatus` | internal/store/runtime_repository.go:152-166 | changes the row exactly when its status is the expected one, reports whether it did, touches no other row and no request column |
| `AgentOperationTable.RequestNamesOneRow` | internal/store/runtime_repository.go:97-125 | two rows of one (runtime, request id) are one row |
| `AgentOperationTable.FinishedRowMovesIff` | internal/store/runtime_repository.go:152-166 | a finished row moves iff the caller expects its final status |
| `ApprovalProtocol.Advanced` | internal/api/agent/agent_operation_handler.go:170-358 | a call of an approver moves that approver only and brings it closer to its reply |
| `ApprovalProtocol.AfterReading` | internal/api/agent/agent_operation_handler.go:200-226 | a scale goes on to claim only while its Deployment has the recorded version and is marked stale only when it has another; a cleanup or pull first reads its node |
| `ApprovalProtocol.Claimed` | internal/api/agent/agent_operation_handler.go:227-231 | the thread executes iff its pending-to-approved swap succeeded; otherwise it ends and table and claims are untouched |
| `ApprovalProtocol.Ran` | internal/api/agent/agent_operation_handler.go:233-242 | exactly one side effect is started, for the thread's own operation, with the outcome it then records |
| `ApprovalProtocol.ChangeOf` | internal/api/agent/agent_operation_handler.go:181-243 | which status moves end a thread, with which approver and completion time |
| `ApprovalSafety.RunKeepsInvariant` | internal/api/agent/agent_operation_handler.go:170-358 | every run of the whole system keeps the joint invariant of table, cluster, threads, claims and side effects |
| `ApprovalIntent.EveryRunIsIntended` | internal/api/agent/agent_operation_handler.go:190-199 | in every run rows are claimed by requests to approve only, and rejected only by requests to reject, of the user on record |
| `ApprovalIntent.CallKeepsIntent` | internal/api/agent/agent_operation_handler.go:170-358 | every call keeps a request to what its user asked for |
| `ApprovalTheorems.SideEffectStartsAtMostOnce` | internal/api/agent/agent_operation_handler.go:170-350 | in every run each operation's side effect starts at most once, by the thread whose swap succeeded, a request to approve from the recorded approver, on a deadline check that passed |
| `ApprovalTheorems.SucceededScaleLandedOnItsVersion` | internal/api/agent/agent_operation_handler.go:217-243 | a scale that ends succeeded stored the requested replicas on exactly the version recorded at request time |
| `ApprovalTheorems.OneWriterPerVersion` | internal/api/agent/agent_operation_handler.go:217-243 | of all scales requested against one version at most one ever writes a new version |
| `ApprovalTheorems.BothSucceededMeansOneWasThere` | internal/api/agent/agent_operation_handler.go:217-243 | in every run, if two scales of one version both end succeeded, that version already had the replicas of one of them |
| `ApprovalTheorems.StepFollowsArrow` | internal/store/runtime_repository.go:152-166 | no single step moves a row other than pending to expired, rejected, stale or approved, and approved to succeeded or failed |
| `ApprovalTheorems.HistoryOnlyGrows` | internal/store/runtime_repository.go:97-166 | between any two points of any run: requests frozen, finished rows absorbing, approver kept, claims, side effects and versions only added |
| `ApprovalTheorems.RowsAreConsistent` | internal/store/runtime_repository.go:97-166 | completed_at is set iff succeeded or failed, approved_by iff approved, rejected, succeeded or failed, and a request names one row |
| `ApprovalReasons.ClosedForAReason` | internal/api/agent/agent_operation_handler.go:181-226 | in every run an expired row is past its deadline, and the Deployment of a stale scale has had a version after the recorded one |
| `ApprovalRecords.AnnouncedIsStoredIff` | internal/api/agent/agent_operation_handler.go:234-244 | in every run, after the last call the outcome is announced whether or not the write worked, and is in the row iff it did |
| `ApprovalRecords.OrphanStaysApproved` | internal/api/agent/agent_operation_handler.go:170-358 | an approved row whose claimer crashed or replied stays approved in every continuation |
| `ApprovalRecords.ApprovedRowCanEndIff` | internal/api/agent/agent_operation_handler.go:170-358 | in every run an approved row can still end iff the thread that claimed it is executing or recording |
| `ApprovalHandler.ReplyIsTruthful` | internal/api/agent/agent_operation_handler.go:170-358 | a reply reports an execution iff this request started one, with its outcome, which is on record unless the row was left approved; a rejection only when it is on record |
| `ApprovalHandler.Platform.Resolve` | internal/api/agent/agent_operation_handler.go:170-358 | one browser request under arbitrary interference and failures replies truthfully after at most seven calls, and is a run of the protocol; an announced outcome is the one in the row iff the last call worked, and otherwise the row is approved; a request to reject executes nothing and a request to approve rejects nothing |
| `ApprovalHandler.Platform.Turn` | internal/api/agent/agent_operation_handler.go:170-358 | one call after any activity of others extends the run, leaves the call what it is and brings it closer to its reply |
| `ApprovalHandler.OthersLeaveThread` | internal/api/agent/agent_operation_handler.go:170-358 | nothing that others do moves a request's own thread |
| `ApprovalOutcomes.CheckRuns` | internal/api/agent/agent_operation_handler.go:170-200 | an approver of a pending row within its deadline gets to reading the target, and changes nothing on the way |
| `ApprovalOutcomes.FreshApprovalSucceeds` | internal/api/agent/agent_operation_handler.go:217-243 | an undisturbed approval of an unchanged Deployment ends succeeded with the replicas written |
| `ApprovalOutcomes.OutdatedApprovalGoesStale` | internal/api/agent/agent_operation_handler.go:222-228 | an approval of a changed Deployment ends stale and touches nothing |
| `ApprovalOutcomes.SecondApprovalOfOneVersion` | internal/api/agent/agent_operation_handler.go:217-243 | approved one after the other, the second operation on one version succeeds iff the first asks for the replicas already there, and goes stale otherwise |
| `ApprovalOutcomes.InterleavedApprovalsBothSucceed` | internal/api/agent/agent_operation_handler.go:217-243 | with the first approver stalled between claim and update, both succeed if the second asks for the replicas already there |
| `ApprovalOutcomes.BothCanSucceedIff` | internal/api/agent/agent_operation_handler.go:217-243 | at any point of any run, two fresh operations of one version can both end succeeded iff it already has the replicas of one of them |
| `ApprovalOutcomes.UnrecordedExecutionHappens` | internal/api/agent/agent_operation_handler.go:234-244 | any scale request can end executed, announced and approved for ever |
| `ApprovalOutcomes.DeadlineBoundsTheCheckOnly` | internal/api/agent/agent_operation_handler.go:181-188 | execution can start any time after the deadline, and starts in time iff the stall fits in what was left |
| `ApprovalUndisturbed.RequestIsFiled` | internal/api/agent/agent_workload_handler.go:251-262 | a scale request records the version its Deployment has and a deadline fifteen minutes away, and changes nothing else |
| `ApprovalUndisturbed.RejectionRejects` | internal/api/agent/agent_operation_handler.go:189-199 | an undisturbed rejection in time ends rejected by that user, touches nothing else and says so |
| `ApprovalUndisturbed.LateRequestExpires` | internal/api/agent/agent_operation_handler.go:181-188 | past the deadline approvals and rejections alike end expired |
| `ApprovalUndisturbed.CleanupOutcome` | internal/api/agent/agent_operation_handler.go:247-296 | an undisturbed cleanup runs iff its alert is firing on its node and the node is managed, and goes stale otherwise |
| `ApprovalUndisturbed.PullOutcome` | internal/api/agent/agent_operation_handler.go:298-350 | an undisturbed pull runs iff its registry still verifies with the same image and the node is managed |
| `ApprovalUndisturbed.UnexecutableStaysPending` | internal/api/agent/agent_operation_handler.go:208-216 | without an executor or with undecodable parameters nothing changes |
| `Decimal.PrintedValue` | internal/k8s/pvc.go:94-96 | the value of a printed number is that number |
| `Decimal.ItoaAtoi` | internal/k8s/victoriametrics_component.go:528-552 | printing and parsing undo each other for every 64-bit integer |
| `Decimal.PrintParseUint64` | internal/k8s/pvc.go:500-513 | printing and parsing undo each other for every unsigned 64-bit integer |
| `MetricsConfig.ReadConfig` | internal/k8s/victoriametrics_component.go:528-552 | the loops compute the settings: first deciding volume, last retention flag, recognised iff node and storage are known |
| `MetricsConfig.ReadStorage` | internal/k8s/victoriametrics_component.go:528-552 | the first storage volume with a known source decides |
| `MetricsConfig.ReadRetention` | internal/k8s/victoriametrics_component.go:528-552 | the last retention flag of any container of that name wins |
| `MetricsConfig.StorageIff` | internal/k8s/victoriametrics_component.go:528-552 | the data is where the first storage volume of a known kind says |
| `MetricsConfig.LastFlagWins` | internal/k8s/victoriametrics_component.go:528-552 | the retention is the number in the last retention flag of the store's containers |
| `MetricsConfig.RetentionFlagRoundTrip` | internal/k8s/victoriametrics_component.go:413-453 | the rendered retention flag is read back as the same number of days |
| `MetricsConfig.RenderRoundTrip` | internal/k8s/victoriametrics_component.go:413-453 | reading a rendered Deployment gives the settings back |
| `MetricsConfig.OnClaimKeepsSettings` | internal/k8s/victoriametrics_storage_migration.go:126-135 | moving any Deployment onto the claim keeps node and retention, runs one replica and mounts the claim the job copies into |
| `MetricsMigration.MetricsStore.StartMigration` | internal/k8s/victoriametrics_storage_migration.go:16-66 | the new state of a start for every pattern of failing and crashing API calls |
| `MetricsMigration.MetricsStore.Prepare` | internal/k8s/victoriametrics_storage_migration.go:52-60 | claim, then stop, then job, each step after the previous one worked |
| `MetricsMigration.MetricsStore.Launch` | internal/k8s/victoriametrics_storage_migration.go:61-65 | a job that cannot be created brings the store back up |
| `MetricsMigration.MetricsStore.Reconcile` | internal/k8s/victoriametrics_storage_migration.go:104-137 | restore after a failed job, cutover after a passed one, nothing otherwise |
| `MetricsMigration.MetricsStore.ReportStatus` | internal/k8s/victoriametrics_component.go:82-103 | reading the status reconciles |
| `MetricsMigrationSafety.PassedCopyIsExact` | internal/k8s/victoriametrics_storage_migration.go:84-93 | over any leftovers, a copy that passes the count test is exact iff every file it did not deliver was there unchanged |
| `MetricsMigrationSafety.TestIsSoundIff` | internal/k8s/victoriametrics_storage_migration.go:84-93 | whatever the job delivers, passing means exact iff the claim has more files of its own than it lacks, or none of its own and the shared ones unchanged |
| `MetricsMigrationSafety.EmptyClaimIsSound` | internal/k8s/victoriametrics_storage_migration.go:84-93 | on an empty claim passing means exact |
| `MetricsMigrationSafety.SkippedFileCanPass` | internal/k8s/victoriametrics_storage_migration.go:84-93 | a skipped file can go unnoticed |
| `MetricsMigrationSafety.MigrationIsSafe` | internal/k8s/victoriametrics_storage_migration.go:16-137 | in every run: on a claim only after a passed job, and then on the one the job filled, no replica during a copy, node and retention never change, directory kept until the cutover |
| `MetricsMigrationSafety.MigrationLosesNothing` | internal/k8s/victoriametrics_storage_migration.go:16-137 | in every run whose passed jobs delivered their source, the files of whatever the Deployment mounts are exactly what the store last wrote |
| `MetricsMigrationSafety.MigrationLeavesOthers` | internal/k8s/victoriametrics_storage_migration.go:16-137 | in every run no claim but the store's and no directory but its own changes |
| `MetricsMigrationSafety.SourceIsPreserved` | internal/k8s/victoriametrics_storage_migration.go:14-16 | once the store is on the claim its old directory never changes |
| `MetricsMigrationSafety.StartIsRefused` | internal/k8s/victoriametrics_storage_migration.go:40-47 | while a copy runs or waits for the cutover a start changes nothing a status read would not |
| `MetricsMigrationSafety.StartLaunchesIff` | internal/k8s/victoriametrics_storage_migration.go:16-66 | with working calls a start launches the copy iff storage, directory and node are right and no copy is under way |
| `MetricsMigrationSafety.JobStateIff` | internal/k8s/victoriametrics_storage_migration.go:168-183 | passed or failed iff a counter or a condition that holds says so |
| `MetricsMigrationSafety.ReconcileIsIdempotent` | internal/k8s/victoriametrics_storage_migration.go:104-137 | a second error-free reconciliation changes nothing |
| `MetricsMigrationSafety.StatusSettlesFinishedJob` | internal/k8s/victoriametrics_storage_migration.go:104-137 | one error-free status read after a finished job leaves one replica on the right storage with node and retention unchanged |
| `MetricsMigrationSafety.CrashBeforeJobStrands` | internal/k8s/victoriametrics_storage_migration.go:57-66 | a crash between stop and job leaves a stopped store without a job |
| `MetricsMigrationSafety.StartStrandsIff` | internal/k8s/victoriametrics_storage_migration.go:16-66 | in every run, the exact pattern of failing calls with which a start leaves the store stopped without a job |
| `MetricsMigrationSafety.StrandedStays` | internal/k8s/victoriametrics_storage_migration.go:104-137 | no number of status reads starts a stranded store |
| `MetricsMigrationSafety.StatusRestartsIff` | internal/k8s/victoriametrics_storage_migration.go:104-137 | a stopped store is restarted by a status read iff there is a finished job |
| `MetricsMigrationSafety.ReinstallKeepsInvIff` | internal/k8s/victoriametrics_component.go:179-203 | a re-installation keeps the invariant iff there is no job or only a failed one |
| `MetricsMigrationSafety.ReinstallDuringCopyLosesData` | internal/k8s/victoriametrics_component.go:179-203 | a re-installation during a copy can lose everything written after it |
| `ConfigReferences.IndexAgreesWithScan` | internal/k8s/config.go:218-304 | for every namespace, non-empty name and kind the index over distinct namespaces holds exactly the scan's references in the scan's order |
| `ConfigReferences.RepeatedNamespaceCountsTwice` | internal/k8s/config.go:218-243 | without de-duplication every reference would be counted twice |
| `ConfigReferences.EmptyNameIsNeverIndexed` | internal/k8s/config.go:267-304 | the index has no entry for the empty name |
| `ConfigReferences.LookupIndexed` | internal/k8s/config.go:245-304 | indexing a list appends to each key what a scan of its own namespace's items finds, in order |
| `ConfigReferenceMeaning.ScanIff` | internal/k8s/config.go:408-537 | a scan reports a reference iff a workload of that kind, name and namespace has a field of that type that names the resource |
| `ConfigReferenceMeaning.ScanCounts` | internal/k8s/config.go:408-537 | and as often as its fields do, for all three reference types and both resource kinds |
| `ConfigReferenceMeaning.ScanIsOrdered` | internal/k8s/config.go:408-430 | Deployments, then StatefulSets, then DaemonSets |
| `ConfigReferenceMeaning.ListedIff` | internal/k8s/config.go:408-430 | the workloads a list of a namespace shows |
| `ConfigReferenceIndex.ReferenceIndex.IndexWorkload` | internal/k8s/config.go:267-304 | appends the workload's mentions in order, each under its own resource |
| `ConfigReferenceIndex.ReferenceIndex.Build` | internal/k8s/config.go:245-265 | the loops build the index of the listed namespaces |
| `ConfigReferenceIndex.ReferenceNamespaces` | internal/k8s/config.go:218-243 | each namespace of the list once, in order of first appearance |
| `ConfigReferenceIndex.FindRefsInWorkload` | internal/k8s/config.go:432-468 | the references of one workload to one resource |
| `ConfigReferenceIndex.FindConfigRefs` | internal/k8s/config.go:408-537 | the scan for one resource: Deployments, StatefulSets, DaemonSets |
| `ConfigReferenceIndex.ListUsedBy` | internal/k8s/config.go:87-119 | what a listing shows for every resource is what a scan for that resource returns, and so what the fields say |
| `NodeDrain.BuildPlan` | internal/k8s/node.go:220-255 | the loop sorts every Pod by the classifier, in Pod order |
| `NodeDrain.PlanIsPartition` | internal/k8s/node.go:220-255 | the four lists hold the entry of every Pod exactly as often as the Pod list does |
| `NodeDrain.ClassifiedIff` | internal/k8s/node.go:218-252 | each of the six reasons by the fields of the Pod alone: finished, static, of a DaemonSet, without controller, with an emptyDir, and the rest |
| `NodeDrain.RefusalIff` | internal/k8s/node.go:264-269 | the lists that make a drain refuse are empty iff every Pod at work has a controller, and none that has one holds an emptyDir |
| `NodeDrain.BlockersAre` | internal/k8s/node.go:349-370 | the removal check lists exactly the node's two obstacles and the Pods at work |
| `NodeDrain.ControllerKindIff` | internal/k8s/node.go:416-425 | the owner kind is that of the first controlling owner |
| `NodeDrain.FailedIff` | internal/k8s/node.go:489-518 | failed iff the first Ready condition is unknown and its last sign of life is older than the threshold |
| `NodeDrain.SelectedIsExact` | internal/k8s/node.go:220-255 | a list holds an entry iff it is the entry of a Pod of that list's class |
| `NodeDrain.CandidatesAreOnlyMovable` | internal/k8s/node.go:257-347 | no candidate shares its name with a skipped or blocked Pod |
| `NodeDrain.RejoinUndoesDrainIff` | internal/k8s/node.go:385-414 | a drain cordons, stamps and changes nothing else; a rejoin undoes it iff the node was schedulable and unmarked before, and always leaves it schedulable and unmarked |
| `NodeDrain.RemovableIff` | internal/k8s/node.go:349-370 | removable iff cordoned, not ready, and every remaining Pod is finished, static or of a DaemonSet |
| `NodeControl.SettledIsPartition` | internal/k8s/node.go:283-347 | evicted plus pending, or deleted plus failed, is exactly the candidate list |
| `NodeControl.ThroughIffAccepted` | internal/k8s/node.go:283-347 | a candidate is reported as evicted or deleted iff the API server accepted its request |
| `NodeControl.PendingReasons` | internal/k8s/node.go:286-298 | a pending eviction says whether the disruption budget or another error is why |
| `NodeControl.NodeAdmin.DrainPlan` | internal/k8s/node.go:220-255 | the plan of the current node and Pods, or an error |
| `NodeControl.NodeAdmin.Drain` | internal/k8s/node.go:257-299 | goes ahead iff, by their fields, all Pods at work have a controller and none holds an emptyDir unless its loss is accepted; refused leaves node and Pods alone; otherwise cordons, marks and requests exactly the candidates |
| `NodeControl.NodeAdmin.EvictAll` | internal/k8s/node.go:283-299 | one eviction request per candidate, in order, sorted by its answer |
| `NodeControl.NodeAdmin.ForceDrain` | internal/k8s/node.go:301-347 | goes ahead iff acknowledged, confirmed, not labelled a control plane, failed, and no moved Pod holds an emptyDir unless its loss is accepted; refused changes nothing; otherwise deletes exactly the candidates |
| `NodeControl.NodeAdmin.DeleteAll` | internal/k8s/node.go:335-347 | one delete request per candidate, in order, sorted by its answer |
| `NodeControl.NodeAdmin.RemovalCheck` | internal/k8s/node.go:349-370 | the list of blockers, empty iff the node may be removed |
| `NodeControl.NodeAdmin.Delete` | internal/k8s/node.go:372-383 | the Node object goes iff it is cordoned, not ready and drained |
| `NodeControl.NodeAdmin.Rejoin` | internal/k8s/node.go:385-407 | succeeds iff the node is read and, unless it already is schedulable and unmarked, written; a success leaves it so, a failure unchanged |
| `NodeControl.FailedNodeIsNotReady` | internal/k8s/node.go:489-518 | with a single Ready condition, a failed node is not ready |
| `NodeControl.ForceDrainThenRemovableIff` | internal/k8s/node.go:305-370 | after a clean forced drain the check passes iff no Ready condition is True |
| `NodeControl.ForceDrainThenRemovable` | internal/k8s/node.go:305-370 | with a single Ready condition a clean forced drain leads to a removable node with no further step |
| `NodeControl.TwoReadyConditionsDisagree` | internal/k8s/victoriametrics_component.go:649-656 | with two Ready conditions it need not |
| `Environments.RunOnlyRepairs` | internal/store/application_repository.go:50-158 | no interleaving of the transactions of any number of requests adds a collision, saves of colliding environments are bounded by the collisions there were, and the index stays respected |
| `Environments.UpdateIsARun` | internal/store/application_repository.go:74-88 | an undisturbed update is a run of the interleaved transactions |
| `Environments.DeleteIsARun` | internal/store/application_repository.go:90-95 | and so is an undisturbed delete |
| `Environments.StepNeverAddsCollision` | internal/store/application_repository.go:50-158 | one transaction adds no collision, never hits the unique index, and a save of a colliding environment strictly removes collisions |
| `Environments.CollidingRowMustMove` | internal/store/application_repository.go:74-115 | a colliding environment can only be saved with a namespace other than the shared one |
| `Environments.ReconcileOutcome` | internal/store/application_repository.go:151-158 | the index exists afterwards iff nothing collides; it is refused iff only empty namespaces do |
| `Environments.StoredYetRefusedIff` | internal/store/application_repository.go:74-88 | an update is stored and still answered with an error iff only empty namespaces collide afterwards |
| `Environments.DeletedYetRefusedIff` | internal/store/application_repository.go:90-95 | the same for a delete |
| `Environments.EmptyNamespacesBlockIndex` | internal/store/application_repository.go:117-158 | a concrete store in which that happens |
| `Environments.Holder` | internal/store/application_repository.go:102-115 | the conflicting environment with the lowest id, or none |
| `Environments.CreatedIff` | internal/store/application_repository.go:50-60 | a create is accepted iff it commits and namespace, id, and project with name are free; it then stores exactly the environment, under a fresh id for id 0, and otherwise nothing |
| `Environments.SavedIff` | internal/store/application_repository.go:74-84 | a save is accepted iff it commits and no other row has the namespace or the project with name; it then stores exactly the environment, and otherwise nothing |
| `Environments.EnvironmentStore.EnsureNamespaceAvailable` | internal/store/application_repository.go:102-115 | free iff no other environment holds the namespace; otherwise names the holder with the lowest id |
| `Environments.EnvironmentStore.Create` | internal/store/application_repository.go:50-60 | accepted, it stores exactly the environment, and otherwise nothing; the invariant kept, no collision added |
| `Environments.EnvironmentStore.Update` | internal/store/application_repository.go:74-88 | the new store and reply; the invariant kept, no collision added |
| `Environments.EnvironmentStore.Delete` | internal/store/application_repository.go:90-95 | the new store and reply; the invariant kept, no collision added |
| `Environments.EnvironmentStore.Reconcile` | internal/store/application_repository.go:151-158 | only the index may appear |
| `Templates.RunKeepsValid` | internal/store/application_repository.go:256-323 | in every run each default exists and belongs to its application, and ids are not reused |
| `Templates.RevisionCountsUpdates` | internal/store/application_repository.go:256-297 | a template's revision is 1, or where it stood, plus its accepted updates |
| `Templates.ConditionalUpdateIff` | internal/store/application_repository.go:281-297 | a conditional update is accepted iff the row is there, nothing was accepted since the revision was read and the name is free; the row it replaces is the row that was read |
| `Templates.RowStandsUntilUpdated` | internal/store/application_repository.go:256-323 | a row changes only by accepted updates and never changes its application |
| `Templates.ReferencedTemplateStays` | internal/store/application_repository.go:309-323 | no run removes a template that a release refers to |
| `Templates.StepKeepsReferencesIff` | internal/store/application_release_repository.go:11-13 | references stay intact iff no release is created for a missing template |
| `Templates.ReleaseCanDangle` | internal/store/application_release_repository.go:11-13 | a run in which one is |
| `Templates.DefaultStaysEnabledIff` | internal/store/application_repository.go:269-307 | defaults stay enabled iff no update disables the default of its application, with the right revision if any and a free name |
| `Templates.DefaultCanBeDisabled` | internal/store/application_repository.go:269-297 | an update that does |
| `Templates.CreateStores` | internal/store/application_repository.go:256-267 | accepted iff the name is free; stores the whole draft with revision 1 under a fresh id, and the default if asked |
| `Templates.UpdateStores` | internal/store/application_repository.go:269-297 | accepted iff owned, at the expected revision and with a free name; replaces everything but the id and counts one revision |
| `Templates.SetDefaultStores` | internal/store/application_repository.go:299-307 | accepted iff the template is the application's and enabled; only that default changes |
| `Templates.DeleteStores` | internal/store/application_repository.go:309-323 | refused iff a release refers to it; otherwise only the own row and the default that names it go |
| `Templates.TemplateStore.Create` | internal/store/application_repository.go:256-267 | revision 1 under a fresh id, the default set with it if asked |
| `Templates.TemplateStore.Update` | internal/store/application_repository.go:269-297 | revision plus one, or the current revision in a conflict |
| `Templates.TemplateStore.SetDefault` | internal/store/application_repository.go:299-307 | only an enabled template of that application |
| `Templates.TemplateStore.Delete` | internal/store/application_repository.go:309-323 | refused while a release refers to it; otherwise the row and the default pointing to it go together |
| `Templates.TemplateStore.CreateRelease` | internal/store/application_release_repository.go:11-13 | one more release, unchecked |
| `BackgroundGenerations.RunKeepsInv` | internal/bootstrap/container.go:123-170 | every interleaving keeps: mutual exclusion, counters equal to live tasks, only the latest generation lives |
| `BackgroundGenerations.GenerationsNeverOverlap` | internal/bootstrap/container.go:123-170 | once a newer generation exists every task of an older one is gone |
| `BackgroundGenerations.OlderGenerationsAreCancelled` | internal/bootstrap/container.go:132-135 | in every run every generation but the latest is cancelled |
| `BackgroundGenerations.WaitEndsIff` | internal/bootstrap/container.go:130-135 | a start takes a free mutex, cancels the old generation, and its wait ends iff no task of it is left |
| `BackgroundGenerations.WaitedGoesOn` | internal/bootstrap/container.go:136-137 | then it makes a fresh generation and lets go of the mutex |
| `BackgroundGenerations.PeriodicLoop` | internal/bootstrap/background.go:52-79 | an uncancelled periodic task goes round, a cancelled one returns at its check |
| `BackgroundGenerations.AtMostOneLateRun` | internal/bootstrap/background.go:52-79 | a periodic task begins at most one run after its cancellation |
| `BackgroundGenerations.OneLateRunHappens` | internal/bootstrap/background.go:52-79 | and one can happen |
| `BackgroundGenerations.CancelledTaskDrains` | internal/bootstrap/background.go:52-79 | a cancelled periodic task has at most five moves left |
| `BackgroundGenerations.LiveIsCounted` | internal/bootstrap/background.go:26-50 | a live task keeps its wait group above zero |
| `BackgroundContainer.OthersLeaveCaller` | internal/bootstrap/container.go:130-139 | while a start is inside, nothing else replaces its generation or adds a task to it |
| `BackgroundContainer.Container.StartBackground` | internal/bootstrap/container.go:123-170 | a start that gets through leaves the latest generation with exactly its jobs and every other task gone |
| `BackgroundContainer.Container.Advance` | internal/bootstrap/container.go:130-170 | one step of a start, blocked or not, keeps the invariant |
| `Releases.BulkIsPerApplication` | internal/store/application_release_repository.go:113-134 | for any order the database may choose among ties, the bulk load gives every application its own query's list |
| `Releases.ListReleasesByApplications` | internal/store/application_release_repository.go:114-134 | the grouped map equals the per-application queries and has no other entry |
| `Releases.GroupByApplication` | internal/store/application_release_repository.go:130-132 | the loop keeps each application's rows in order |
| `Releases.LatestByApplication` | internal/store/observability_repository.go:45-50 | the first row of each application |
| `Releases.FirstsAreLatest` | internal/store/observability_repository.go:38-51 | the dashboard's entry is the release with the highest sequence, for every application with releases |
| `Releases.LatestCoincide` | internal/store/observability_repository.go:38-51 | dashboard entry, head of the per-application query and head of the bulk load are one release |
| `Releases.CountKinds` | internal/store/observability_repository.go:53-61 | the counters are the numbers of applications of each kind, for every iteration order |
| `Releases.FindNewest` | internal/store/observability_repository.go:62-65 | the newest release by creation time and id, for every iteration order |
| `Releases.CountersByStatus` | internal/store/observability_repository.go:53-61 | the counters by the statuses themselves |
| `Releases.NewestIsLast` | internal/store/observability_repository.go:62-65 | the newest release was created last, with the highest id among equals |
| `Releases.Dashboard` | internal/store/observability_repository.go:32-72 | the summary of the latest releases; the newest is shown under the name of its application, for applications with unique ids |
| `Releases.SummaryIsUnique` | internal/store/observability_repository.go:32-72 | the summary does not depend on the map's iteration order |
| `Releases.CountsAddUp` | internal/store/observability_repository.go:51-67 | counters, drafts and unrecognised statuses add up to the total; the unreleased counter is off by the orphans |
| `Releases.UnreleasedIsRightIff` | internal/store/observability_repository.go:67-67 | the unreleased counter is right iff every release's application exists |
| `Releases.OrphanMiscounts` | internal/store/observability_repository.go:67-67 | a table with a missing application, where the counter is -1 |
| `Releases.RecognisedCountsAddUp` | internal/store/observability_repository.go:51-67 | counters and drafts add up to the total iff every latest status is a recognised one |
| `Capabilities.GrantStore.Replace` | internal/store/runtime_repository.go:50-66 | accepted iff all grants are valid, of that Runtime and distinct; all or nothing |
| `Capabilities.GrantStore.HasCapability` | internal/store/runtime_repository.go:80-95 | granted iff an enabled grant covers the namespace |
| `Capabilities.ReachableStoreIsValid` | internal/store/runtime_repository.go:50-78 | every store reached through replacements holds valid, unique grants |
| `Capabilities.NamespaceValidIff` | internal/runtime/kubernetes.go:68-70 | a namespace is valid iff it is at most 253 characters of DNS labels joined by dots |
| `Capabilities.ClusterOnlyIgnoresNamespace` | internal/store/runtime_repository.go:68-95 | cluster-only capabilities are granted for every namespace or none |
| `Capabilities.InvalidGrantIsLocal` | internal/store/runtime_repository.go:68-78 | without the validation they would not be |
| `Capabilities.CapabilityStatus` | internal/api/agent/agent_cluster_handler.go:21-43 | the loop computes the view of every known capability and no other |
| `Capabilities.ViewAgreesWithCheck` | internal/api/agent/agent_cluster_handler.go:21-43 | for grants in any order, the view shows a namespace iff the check grants it |
| `Capabilities.ReachableViewAgrees` | internal/api/agent/agent_cluster_handler.go:21-43 | in every reachable store they agree on all questions, and for cluster-only capabilities on all namespaces |
| `Capabilities.ViewIgnoresOrder` | internal/api/agent/agent_cluster_handler.go:25-43 | the order of the grants does not matter to the view |
| `Capabilities.ApprovalIsFixed` | internal/api/agent/agent_cluster_handler.go:23-23 | exactly scaling, pull checks and cleanups are shown as needing approval |
| `VolumeClaims.LabelRoundTrip` | internal/k8s/pvc.go:500-513 | the label written for an environment is read back as that environment |
| `VolumeClaims.CreatedClaimIsManagedByIff` | internal/k8s/pvc.go:197-209 | a claim is managed by its own environment and no other, or by all if made for environment 0 |
| `VolumeClaims.NoneOneOrAll` | internal/k8s/pvc.go:495-513 | any claim is managed by no environment, one, or all |
| `VolumeClaims.ManagedByAllIff` | internal/k8s/pvc.go:495-513 | managed by every environment iff managed and the label is not the prefix and a non-zero number that fits 64 bits |
| `VolumeClaims.OverflowFallsToAll` | internal/k8s/pvc.go:500-513 | a label past 64 bits makes the claim managed by all |
| `VolumeClaims.PointEqualsListed` | internal/k8s/pvc.go:397-493 | a claim's summary from point reads equals the one from listings, also with a missing class or volume |
| `VolumeClaims.UnnamedClassDisagrees` | internal/k8s/pvc.go:404-411 | it rests on every class having a name |
| `VolumeClaims.OwnerIff` | internal/k8s/pvc.go:465-476 | which claims are a component's, an application's or external, and which are read-only, by labels and names |
| `VolumeClaims.SizeAndBindingIff` | internal/k8s/pvc.go:457-487 | the size shown, whether the claim waits for its first consumer, and the fields taken over |
| `VolumeClaims.VolumeFields` | internal/k8s/pvc.go:488-492 | what is known of node, path and policy, with and without a volume |
| `VolumeClaims.NodeNameIs` | internal/k8s/pvc.go:555-568 | the node is the one named by the first requirement that names exactly one |
| `VolumeClaims.PointInfo` | internal/k8s/pvc.go:397-421 | the point reads, made only for named resources, and their errors |
| `VolumeClaims.BatchInfos` | internal/k8s/pvc.go:423-454 | the batch equals the point reads element by element and in order; no listing for no claims |
| `VolumeClaims.ClassesByName` | internal/k8s/pvc.go:437-440 | the map answers every name as a search of the list does |
| `VolumeClaims.VolumesByName` | internal/k8s/pvc.go:445-448 | the map answers every name as a search of the list does |

## Left out

- Alert event rows that a cleanup rewrites whole: no joint invariant with the operation row is decided by this code.
- Audit records, error texts and summaries; the exact wording is replaced by short tokens.
- JSON decoding and hashing of parameters: a row holds the decoded parameters, or that they do not decode.
- The reads of mirrors and of proxies for a pull check are one step; between them the outside may change nothing.
- A clock that runs backwards: ticks never lower it.
- Concurrent `start` and `reconcile` of the metrics migration: the code takes no lock there, the model serializes them.
- Pods that are still terminating after the replicas are set to 0: a store without replicas does not write.
- Install and uninstall of the metrics store inside runs; a re-installation on the directory is studied on its own.
- Node operations are serialized: a Pod replaced under the same name between the plan and its request is not modelled, and the API server's answers are parameters.
- Text of eviction errors: an answer is accepted, refused by a disruption budget, or failed.
- `EnvironmentStore.Create` and its siblings: SQL is modelled by its constraints (primary key, unique project and name, unique namespace once the index exists); the columns that never matter to them are dropped.
- `ListEnvironmentNamespaceConflicts`: only whether it is empty is modelled, not the listing itself.
- Template descriptions, secrets and times; a revision is unbounded.
- `UpdateApplication`, `UpdateProject` and `UpdateRelease`, whole-row saves that could rewrite the default or a release's template.
- `SystemComponent.Run` in a background generation is any task that may run and return as it likes, also after cancellation.
- External calls of `Go` on a returned generation: only the start itself adds tasks.
- The display name of an infrastructure claim's owner, and the validation of a claim request's name and size.
- HTTP routing, DTOs, rendering of Kubernetes objects, SSH, WebSocket, registry probes, certificates, cryptography, and the web front end.
