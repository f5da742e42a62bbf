# Recovery workflow of the ODF node recovery operator, in Dafny

The operator recovers an OpenShift Data Foundation cluster after a node or a disk was replaced. A
`NodeRecovery` resource is driven through fourteen conditions: enable the Ceph tools pod, wait for
pods to settle, label the nodes of pending OSD pods, scale down crashing OSDs, force-delete what is
left of them, run the OSD removal job, wait for the new volumes, restart the operator, check the
health of Ceph, restore the tools flag. Every reconcile loads the persisted status, runs one branch
against a cluster that other actors change too, and tries to write the status back even when the
branch failed. Flags and ID lists set in one condition are relied on several conditions later.

This project models one such reconcile as a function, proves the imperative controller equal to it,
and proves properties of all runs: any number of reconciles, any pods, IDs, volumes and nodes, any
failing calls, lost status writes, dying processes, and any other change to the cluster in between.

## Layout

| file | contents |
|---|---|
| `Types.dfy` | the persisted status, the cluster, the oracle of one reconcile (`Env`), the queue result |
| `Pods.dfy` | list queries, the stabilise check, the split into operational and failing pods |
| `JobLogs.dfy` | the test a removal log must pass |
| `Effects.dfy` | what each helper does to the cluster, with every call free to fail |
| `Workflow.dfy` | the fourteen branches, the inner state machine, the outer controller, the counters |
| `Controller.dfy` | the controller in place: classes for the client, the resource, the counters and both reconcilers; each method is proved equal to its function |
| `Contract.dfy`, `Branches.dfy` | the workflow graph, the step relation every branch keeps, and what decides the moves |
| `Outcomes.dfy` | the whole outcome of every condition, told by labels, phases, first pods and failed calls: move, queue result, status, and what is left of pods, volumes, deployments, job and journal |
| `Runs.dfy` | runs: requests and changes by others, interleaved while the clock advances |
| `History.dfy` | the condition list as a timed path; time bounds; termination under unique keys |
| `Correlations.dfy` | what the persisted status says about the past of the run |
| `Safety.dfy` | removal jobs, force flag, tools flag, re-entries of force deletion and termination under any store |
| `Accounting.dfy` | recorded OSDs, earned completion, what a run never takes back, no silent stall |
| `Fleet.dfy` | any number of resources in one process: the Prometheus counters, exactly |
| `Witnesses.dfy` | runs built action by action that show which stronger claims are false |

The cluster carries a journal of the requests that were served. It is never read by the controller;
run-level properties are statements about it. A run also carries a `Memory` of itself (was a
status lost, which managing pass persisted), which the controller never reads either.

## Hypotheses

Nothing is assumed about failures: each call of each reconcile may fail, and so may the status
write. Where a result needs more, it names its hypothesis (`Safety.Hypothesis`):

* `ToolsUntouched`: nobody else changes the tools flag, and the cluster version does not cross 4.15.
* `RemovalRespected`: while the recorded OSDs are being removed, nobody scales their deployments up,
  and no pod of theirs appears once they are gone.
* `ForceDeletionWorks`: while pods of recorded OSDs are force-deleted, nothing (a finalizer, a dead
  kubelet) holds one of them back.

The two nil dereferences of the source (a failing OSD pod without the claim label, and a pod of a
recorded ID that is not terminating) are not excluded. They are an outcome: nothing more is done, no
status is written, and the controller runtime (controller-runtime v0.20.4, `go.mod:20`, whose
manager recovers panics unless told otherwise, and `cmd/main.go:192-213` does not) returns the
panic to the queue as an error. `Accounting.ManagingPassPanics` and `Branches.ForceDeletePanics` say
exactly when they happen, whatever calls fail, and `Witnesses.UnclaimedPodPanics` and
`Witnesses.YoungPodPanics` reach both. The `osd` label and the OSD-ID label are separate labels
throughout: the recorded IDs come from the first, deployments and pods are selected by the second.

## What turned out false, and what holds instead

* A permissive status store does not terminate: a pod that lingers lets force deletion restart the
  30-minute timer for ever (`Witnesses.LingeringPodNeverEnds`). Force deletion is re-entered by
  exactly the requests that are kept, come in time and find pods of recorded IDs, all of them ripe
  (`Safety.ReentersExactly`, `Safety.EntriesAreCounted`), and with no hypothesis at all a run ends
  after fourteen timeouts and one more per re-entry (`Safety.RunsEndAfterTheirReentries`). With
  `ForceDeletionWorks` and `RemovalRespected` there is at most one (`Safety.ReenteredAtMostOnce`). A
  store that enforces the declared list key allows none (`History.UniqueStoreTerminates`).
* The tools flag is not always restored: if the pass that switched it on loses its status, the next
  pass takes it for on from the start (`Witnesses.LostEnablingKeepsToolsOn`). A completed recovery
  restores it iff no such status was lost (`Safety.ToolsFlagRestored`). A failed recovery does not
  restore it (`Witnesses.FailureLeavesToolsOn`); `Safety.ToolsFlagAfterFailure` says exactly when the
  flag is as it was all the same.
* The persisted force flag may understate the job (`Witnesses.LostRetryHidesTheForce`). The last
  job was forced iff the flag says so or a forced job's status was lost (`Safety.ForceFlagTellsTheJob`).
* A managing pass that fails halfway and is retried can drop an OSD it scaled down and leave stale
  operational IDs behind (`Witnesses.RetriedPassLosesAnOSD`). Both accounts are exact iff the
  persisted pass saw what the earlier ones did (`Accounting.OSDsAreAccountedFor`). Stale IDs make the
  volume wait demand more OSD pods than were listed; it never lets too few through
  (`Accounting.ReplacementIsComplete`).
* The failure counter does not count all failures: a resource failed by its removal job is counted
  nowhere (`Witnesses.JobFailureIsNotCounted`). While no status is lost, it counts every failed
  resource iff none was failed by its job (`Fleet.FailuresAreAllCountedIff`).
* Counters run ahead of the resources when a status is lost (`Witnesses.LostBeginningIsCounted`), by
  exactly what the lost statuses would have shown (`Fleet.MetricsAreConserved`,
  `Fleet.ExactIffNothingGained`).
* A force deletion can take a pod that is not terminating: only the first OSD pod of each ID is
  looked at (`Witnesses.YoungPodIsForceDeleted`). All pods it selects have been terminating for a
  minute iff the overlooked ones have (`Branches.ForceDeletesTheAged`).

## Where code and documentation disagree

The model follows the code.

* `api/v1alpha1/noderecovery_types.go:126` says a true `ForcedOSDRemoval` means that a first job timed
  out; `internal/controller/node_recovery_reconciler.go:255` also sets it when at most three OSD pods are left.
* The operator's own README (line 76) says the failure counter counts all failed operands; the branches that fail a
  resource over its removal job (`internal/controller/node_recovery_reconciler.go:289-292`, `308-322`) count none.
* The event text at `internal/controller/node_recovery_reconciler.go:105` says 5 minutes; the
  timeout is 30 (`internal/controller/const.go:18`).

## Model

| member | source | states |
|---|---|---|
| `Controller.NodeRecoveryReconciler.Reconcile` | internal/controller/noderecovery_controller.go:86-121 | the outer reconcile in place leaves exactly the persisted status, cluster, result and counters of the request function the run theorems are about, write-back after a failed branch, rejected writes and recovered panics included |
| `Controller.NodeRecovery.Reconcile` | internal/controller/node_recovery_reconciler.go:100-421 | the inner switch in place agrees with the branch functions in status, cluster, queue result and counters, or panics where they do |
| `Controller.NodeRecovery.HandleCrashLoopBackOffPods` | internal/controller/node_recovery_reconciler.go:435-450 | the recording and scaling loop, with its early exits and its nil dereference, equals its specification |
| `Controller.NodeRecovery.ScaleRookCephOSDDeploymentToZero` | internal/controller/ceph.go:61-80 | the replica loop scales in place and stops at the first failed update |
| `Controller.NodeRecovery.DeleteOldOSDRemovalJob` | internal/controller/ceph.go:106-131 | a missing job is no error; job, then pods; a failing call leaves what came before it done |
| `Controller.NodeRecovery.LabelNodesWithPodsInPendingState` | internal/controller/node_recovery_reconciler.go:556-579 | in whatever order the set of nodes is visited, the same nodes end up labelled and the same errors reported |
| `Controller.NodeRecovery.ProcessPVForNode` | internal/controller/node_recovery_reconciler.go:765-777 | the volume loop deletes in place and reports an error iff there is no volume or a recorded one is released |
| `Controller.Metrics.IncrementFailedNodeCounter` | monitoring/metrics.go:56-60 | the per-node loop counts every recorded entry |
| `Controller.Metrics.IncrementCompletedOperandCounter` | monitoring/metrics.go:63-67 | the per-node loop counts every recorded entry |
| `Controller.Instance.TransitionNextCondition` | internal/controller/node_recovery_reconciler.go:835-838 | the latest condition goes to False and the next is appended as True with a new transition time |
| `Pods.CheckPodStatus` | internal/controller/node_recovery_reconciler.go:466-479 | the early-return loop reports a pod iff some container waits to be created or initialised and none is in a crash loop |
| `Pods.AnyPodStarting` | internal/controller/node_recovery_reconciler.go:460-463 | the check passes iff no pod is starting |
| `Pods.StartingIgnoresOrder` | internal/controller/node_recovery_reconciler.go:466-479 | the verdict does not depend on container order, in spite of the early return |
| `Pods.IsPodInCrashLoopBackOffOrErrorStatus` | internal/controller/node_recovery_reconciler.go:599-607 | true iff some container waits in CrashLoopBackOff or terminated with Error |
| `Pods.ClassifyExactly` | internal/controller/node_recovery_reconciler.go:583-597 | a listed pod is failing iff some container is, and operational otherwise |
| `Pods.ClassifyInOrder` | internal/controller/node_recovery_reconciler.go:589-595 | both halves keep the order of the list |
| `Pods.ClassifyPartitions` | internal/controller/node_recovery_reconciler.go:583-597 | no pod is lost, doubled or invented |
| `Pods.DeletePodsExactly` | internal/controller/ceph.go:98-102 | a collection delete leaves the other pods alone, and of the selected ones exactly those that linger, terminating |
| `JobLogs.AcceptsIffLastLineSaysSo` | internal/controller/node_recovery_reconciler.go:781-793 | trim, split, lower and search accept a log iff the message stands, each letter small or capital, on the last line that is not blank |
| `JobLogs.AcceptanceIgnoresTrailingSpace` | internal/controller/node_recovery_reconciler.go:786 | appended white space and empty lines change nothing |
| `JobLogs.AcceptanceIgnoresEarlierLines` | internal/controller/node_recovery_reconciler.go:787-788 | lines before a log that says anything change nothing |
| `Branches.BranchContract` | internal/controller/node_recovery_reconciler.go:110-415 | every branch, whatever fails, keeps the step relation: allowed events, frame of the status, edges of the graph, and what it takes to move on |
| `Outcomes.EnableToolsOutcome` | internal/controller/node_recovery_reconciler.go:111-131 | whatever fails: reads the one flag of this cluster version, notes whether it was on, sets it alone if it was off, and moves on iff all that succeeds |
| `Outcomes.WaitForToolsOutcome` | internal/controller/node_recovery_reconciler.go:132-146 | whatever fails: the first tools pod in the cluster's order decides; the step moves on iff it is there and running, and changes nothing |
| `Outcomes.StabilizeOutcome` | internal/controller/node_recovery_reconciler.go:147-164 | whatever fails: moves on iff the list succeeds and no pod is starting, waits while one is, and changes nothing |
| `Outcomes.LabelPendingOutcome` | internal/controller/node_recovery_reconciler.go:165-185 | whatever fails: moves on iff the pods can be listed and every node of a pending one read and updated; exactly the ones that can are labelled, no other node changes, and pending pods are noted even on failure |
| `Outcomes.ManagingOutcome` | internal/controller/node_recovery_reconciler.go:186-212 | whatever fails: the failing pods before the first that cannot be handled are handled in full, in list order, and none after it; their deployments and no others are at zero; past the last pod each is recorded with its node, volume and OSD; a pod without the claim label panics |
| `Outcomes.HandleOutcome` | internal/controller/node_recovery_reconciler.go:435-450 | the loop stops at the first pod that cannot be located, listed or scaled, with exactly the deployments updated so far at zero and noted |
| `Outcomes.ScaleDownOutcome` | internal/controller/ceph.go:72-78 | deployments of the ID are scaled in turn up to the first failing update, and none from it on |
| `Outcomes.ForceDeleteOutcome` | internal/controller/node_recovery_reconciler.go:213-245 | whatever fails: the first ID that is unreadable, young or not terminating decides between error, wait and panic; past all of them the step moves on iff no OSD pod of a recorded ID is left, and otherwise deletes exactly the pods that carry one |
| `Outcomes.ProcessTemplateOutcome` | internal/controller/node_recovery_reconciler.go:246-261 | whatever fails: clears the old job as far as its calls succeed, then creates the one job for the recorded IDs, forced iff at most three OSD pods are left, in the cluster it notes |
| `Outcomes.ClearJobOutcome` | internal/controller/ceph.go:106-131 | the job goes iff it is found, deleted and does not linger; its pods go iff the earlier calls succeeded; nothing else changes |
| `Outcomes.CleanupOutcome` | internal/controller/node_recovery_reconciler.go:263-300 | whatever fails: the first job pod that is not being deleted decides; an accepted log moves on, a bad one fails the recovery, and ten minutes without success bring the forced job |
| `Outcomes.RetryCleanupOutcome` | internal/controller/node_recovery_reconciler.go:301-329 | the same for the forced attempt, whose ten minutes end the recovery |
| `Outcomes.WaitForVolumesOutcome` | internal/controller/node_recovery_reconciler.go:331-360 | whatever fails: an error iff a list of volumes fails; moves on iff every recorded node has a volume, no recorded one is released and enough OSD pods sit on bound claims; otherwise waits |
| `Outcomes.SweepOutcome` | internal/controller/node_recovery_reconciler.go:333-340 | a delete request is sent for exactly the recorded volumes that are released when their entry meets them, and exactly the volumes whose request succeeds and that do not linger are gone |
| `Outcomes.RestartOutcome` | internal/controller/node_recovery_reconciler.go:361-372 | whatever fails: with a flag set exactly the operator's pods go, or terminate if they linger; with none set nothing happens; it moves on unless that delete fails |
| `Outcomes.DeleteAffinityOutcome` | internal/controller/node_recovery_reconciler.go:373-382 | whatever fails: exactly the pods go whose name a successful delete of a pod failed by node affinity carries; moves on iff the list and all deletes succeed |
| `Outcomes.FitnessOutcome` | internal/controller/node_recovery_reconciler.go:383-403 | whatever fails: moves on iff the first tools pod is there and Ceph reports HEALTH_OK; otherwise archives the crash reports and waits, or fails |
| `Outcomes.DisableToolsOutcome` | internal/controller/node_recovery_reconciler.go:404-414 | whatever fails: completes after setting the one flag of this cluster version off, or leaving a flag to be kept alone |
| `Branches.ForceDeletePanics` | internal/controller/node_recovery_reconciler.go:226 | the exact condition, whatever fails, of the nil dereference on a pod that is not terminating |
| `Branches.CountClaimsExactly` | internal/controller/node_recovery_reconciler.go:803-824 | whatever fails: the two-stage list counts the OSD pods on bound, labelled claims, and is an error iff a list fails or there is no such claim |
| `Accounting.ManagingPassPanics` | internal/controller/node_recovery_reconciler.go:188-212 | whatever fails: the pass panics iff some failing pod lacks the claim label and every earlier one is located, listed and scaled; it moves to force deletion iff all failing pods pass, and to the restart iff none fails |
| `Runs.RequestStep` | internal/controller/noderecovery_controller.go:94-120 | every request is a step: one branch's outcome, its events, and a status kept or lost |
| `History.HistoryIsAPath` | internal/controller/node_recovery_reconciler.go:100-421 | in every run the conditions are a timed path of the workflow graph starting at the start time, only the last is True, and the completion time is set exactly on completion |
| `History.HistoryConditionByCondition` | internal/controller/node_recovery_reconciler.go:827-838 | condition by condition: edges of the switch, rising ranks except repeated force deletion, transition times at most a timeout apart; types are distinct iff force deletion was not re-entered |
| `History.MeasureStep` | internal/controller/node_recovery_reconciler.go:101-109 | a request whose status is kept ends the recovery, rises in the graph, or leaves the timer alone; only a permissive store lets force deletion restart it |
| `History.CompletionTimeBound` | internal/controller/node_recovery_reconciler.go:416-417 | a completed recovery took at most a timeout per condition, fourteen when force deletion was not re-entered |
| `History.KeysStayUnique` | config/crd/bases/odf.openshift.io_noderecoveries.yaml:108-111 | under the declared list key force deletion is entered at most once |
| `History.UniqueStoreTerminates` | api/v1alpha1/noderecovery_types.go:99-103 | under the declared list key a request fourteen timeouts after the start leaves the recovery ended, unless its own write fails |
| `Correlations.PastHolds` | internal/controller/node_recovery_reconciler.go:173-372 | in every run: recorded OSDs are non-empty iff force deletion was entered, volumes were deleted only when recorded, on their node and released, jobs only for the recorded IDs, the operator restarted iff a flag holds |
| `Safety.RemovalJobsAreSafe` | internal/controller/node_recovery_reconciler.go:199-287 | every removal job of a run was created for exactly the recorded IDs, with their deployments at zero and none of their pods existing |
| `Safety.ForceFlagTellsTheJob` | internal/controller/node_recovery_reconciler.go:255-286 | while a job is awaited, the last one created was forced iff the flag says so or a forced job's status was lost; a retry in the history implies the flag |
| `Safety.ToolsFlagRestored` | internal/controller/node_recovery_reconciler.go:404-414 | a completed recovery leaves the tools flag as found iff no enabling pass lost its status; a flag on at the start is on at the end in any case |
| `Safety.ToolsFlagAfterFailure` | internal/controller/node_recovery_reconciler.go:102-108 | a failed recovery leaves the tools flag as found iff it was on, or the first condition was never left and no enabling pass lost its status, or a disabling request was already served at the last condition |
| `Safety.ReentersExactly` | internal/controller/node_recovery_reconciler.go:235-241 | at force deletion a request in time adds an entry iff the store is permissive, the recorded pods force it, and neither the delete nor the write fails |
| `Safety.EntriesAreCounted` | internal/controller/node_recovery_reconciler.go:213-245 | in every run, force deletion was entered once plus once per request that met that condition |
| `Safety.RunsEndAfterTheirReentries` | internal/controller/node_recovery_reconciler.go:101-109 | under either store and no hypothesis, a kept request later than fourteen timeouts plus one per re-entry leaves the recovery ended |
| `Safety.ReenteredAtMostOnce` | internal/controller/node_recovery_reconciler.go:235-241 | where force-deleted OSD pods go and nobody revives them, force deletion is re-entered at most once |
| `Safety.PermissiveStoreTerminates` | internal/controller/node_recovery_reconciler.go:213-245 | then a permissive store adds one timeout to the bound |
| `Accounting.OSDsAreAccountedFor` | internal/controller/node_recovery_reconciler.go:331-347 | from force deletion on, operational and recorded OSDs add up to at least the pods listed, to exactly these iff the operational IDs are not stale, and every scaled deployment is recorded iff the persisted pass saw it; both hold when the first pass persists |
| `Accounting.ReplacementIsComplete` | internal/controller/node_recovery_reconciler.go:347-359 | in every run, the volume wait is left only with at least as many OSD pods on bound, labelled claims as the recording pass listed, and with every recorded node's volumes ready |
| `Accounting.CompletionIsEarned` | internal/controller/node_recovery_reconciler.go:263-421 | completion comes from the last condition after HEALTH_OK was read, never through an unknown type, and after force deletion only with a live, succeeded job pod and an accepted log |
| `Accounting.RunNeverTakesBack` | internal/controller/node_recovery_reconciler.go:173-217 | flags stay set, recorded OSDs stay from force deletion on, conditions and requests are never withdrawn |
| `Accounting.NoSilentStall` | internal/controller/noderecovery_controller.go:103-146 | a request that leaves the resource unfinished returns an error (a recovered panic is one), a requeue or a delay, in every run |
| `Fleet.MetricsAreConserved` | monitoring/metrics.go:56-67 | over any interleaving of any number of resources, any lost statuses and any panics, every counter is what it counts plus exactly the gains of the lost statuses; the failure counter over all labels plus the removal-job failures is the number of failed resources |
| `Fleet.ExactIffNothingGained` | internal/controller/noderecovery_controller.go:112-119 | a counter equals what it counts iff no request of the run lost a status that would have counted |
| `Fleet.FailuresAreAllCountedIff` | internal/controller/node_recovery_reconciler.go:289-322 | while no status is lost, the failure counter counts every failed resource iff none was failed by its removal job |
| `Witnesses.LingeringPodNeverEnds` | internal/controller/node_recovery_reconciler.go:241 | for every n, a run of the controller alone with n re-entries of force deletion that is still running |
| `Witnesses.LostEnablingKeepsToolsOn` | internal/controller/node_recovery_reconciler.go:111-131 | a completed run that found the tools flag off and leaves it on |
| `Witnesses.FailureLeavesToolsOn` | internal/controller/node_recovery_reconciler.go:102-131 | a failed run of the controller alone, with no status lost, that found the tools flag off and leaves it on |
| `Witnesses.RecoveryCompletes` | internal/controller/node_recovery_reconciler.go:263-420 | a run through the removal job and the volume wait to completion, so that the results on both are about runs that exist |
| `Witnesses.LostRetryHidesTheForce` | internal/controller/node_recovery_reconciler.go:276-287 | a run where a forced job is in place and the persisted flag says it is not |
| `Witnesses.RetriedPassLosesAnOSD` | internal/controller/node_recovery_reconciler.go:199-210 | a run where a scaled-down OSD is recorded nowhere and a stale operational ID is counted twice |
| `Witnesses.UnclaimedPodPanics` | internal/controller/node_recovery_reconciler.go:443 | a run of the controller alone that reaches a failing OSD pod without the claim label and panics |
| `Witnesses.YoungPodPanics` | internal/controller/node_recovery_reconciler.go:226 | a run of the controller alone that reaches a recorded pod not yet terminating and panics |
| `Witnesses.YoungPodIsForceDeleted` | internal/controller/ceph.go:92-102 | a run where force deletion takes a pod that is not terminating |
| `Witnesses.JobFailureIsNotCounted` | internal/controller/node_recovery_reconciler.go:289-293 | a run without lost statuses where a resource failed and the failure counter reads zero |
| `Witnesses.LostBeginningIsCounted` | internal/controller/noderecovery_controller.go:108-119 | a run of one lost request where the total reads one and no resource began |

## Left out

- Manager start-up, flags, TLS, scheme registration, field indexers, deepcopy code, RBAC and all other YAML: no property of their own.
- Remote execution in the tools pod, privileged pods, log streaming: the health string, the log text and the failure of each call are free inputs.
- Pods, claims and deployments are those of the operator's namespace; other namespaces are not part of this model.
- Template processing, JSON decoding and version comparison: the template is one job with its two parameters, and the version test is a boolean of the cluster. A template without these parameters, or with several objects, is not part of this model.
- LastProbeTime, Reason and Message of a condition, events and log lines: written, never read.
- A call that takes effect and still reports an error: a failing call changes nothing here (a lost status write, by contrast, is modelled).
- Stale reads from the client cache: each call sees the cluster as it is.
- The cluster is fixed during one request; other actors act between requests.
- One clock reading serves the checks of a request and one the stamps; `slack` bounds their distance. Stored times are not truncated to seconds.
- Metadata conflicts and propagation policies: an update is addressed to the listed object, and whether a deleted object outlives its deletion is a free input.
- JobLogs.Accepts: ASCII white space and letters only; Unicode space and case folding are not part of this model.
- Crashes and restarts of the controller process, which reset its counters to zero, are not part of `Fleet`; a restart between requests changes nothing else, as the controller keeps no other state.
- Two resources that recover the same cluster at once share it in `Fleet`, where only counters are followed; the removal and tools results are about one resource, the others being part of the environment.
