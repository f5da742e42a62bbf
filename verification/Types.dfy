/** The data the recovery workflow works on: the status a NodeRecovery resource persists,
    the part of the cluster the controller reads and changes, and the oracle that says how
    the API server behaves during one reconcile. */
module Types {

  datatype Option<+T> = None | Some(value: T)

  /** Seconds on the controller's clock. */
  type Time = int

  const RECONCILIATION_TIMEOUT: Time := 30 * 60
  const OSD_REMOVAL_JOB_TIMEOUT: Time := 10 * 60
  const TERMINATION_GRACE: Time := 60

  const HEALTH_OK: string := "HEALTH_OK"
  const CRASH_LOOP_BACK_OFF: string := "CrashLoopBackOff"
  const ERROR_REASON: string := "Error"
  const CONTAINER_CREATING: string := "ContainerCreating"
  const POD_INITIALIZING: string := "PodInitializing"
  const NODE_AFFINITY_REASON: string := "NodeAffinity"
  const OSD_APP: string := "rook-ceph-osd"
  const TOOLS_APP: string := "rook-ceph-tools"
  const OPERATOR_APP: string := "rook-ceph-operator"
  const OSD_REMOVAL_JOB: string := "ocs-osd-removal-job"

  /******* The persisted status *******/

  /** The fourteen condition types, and any other string the resource may carry. */
  datatype Kind =
    | EnableCephToolsPod
    | WaitForCephToolsPodRunning
    | WaitForOSDPodsStabilize
    | LabelNodesWithPendingPods
    | ManageCrashLoopBackOffPods
    | ForceDeleteRookCephOSDPods
    | ProcessOCSRemovalTemplate
    | CleanupOSDRemovalJob
    | RetryForceCleanupOSDRemovalJob
    | WaitForPersistenVolumeBound
    | RestartStorageOperator
    | DeleteFailedPodsNodeAffinity
    | StorageClusterFitnessCheck
    | DisableCephTools
    | Unknown(name: string)

  datatype Condition = Condition(kind: Kind, lastTransition: Time, active: bool)

  datatype Phase = Unset | Running | Failed | Completed

  datatype NodePV = NodePV(node: string, pv: string, osdID: string)

  datatype Status = Status(
    phase: Phase,
    conditions: seq<Condition>,
    startTime: Option<Time>,
    completionTime: Option<Time>,
    pendingPods: bool,
    crashLoopBackOffPods: bool,
    nodeDevice: seq<NodePV>,
    forcedOSDRemoval: bool,
    keepCephToolsPod: bool,
    operationalOSDIDs: seq<string>)

  /** The status of a resource nobody has reconciled yet. */
  const BLANK: Status := Status(Unset, [], None, None, false, false, [], false, false, [])

  /******* The cluster *******/

  datatype Label = App | OsdName | OsdID | PvcName | JobName | Hostname | CephImage | StorageAffinity

  type Labels = map<Label, string>

  /** Reading a missing key of a Go map gives the empty string. */
  function Get(labels: Labels, key: Label): string {
    if key in labels then labels[key] else ""
  }

  /** Waiting and terminated reasons are optional pointers in a container status. */
  datatype ContainerStatus = ContainerStatus(waiting: Option<string>, terminated: Option<string>)

  datatype PodPhase = PodPending | PodRunning | PodSucceeded | PodFailed | PodUnknown

  datatype Pod = Pod(
    name: string,
    labels: Labels,
    nodeSelector: Labels,
    phase: PodPhase,
    reason: string,
    initStatuses: seq<ContainerStatus>,
    statuses: seq<ContainerStatus>,
    deletion: Option<Time>)

  datatype Deployment = Deployment(name: string, labels: Labels, replicas: int)

  datatype VolumePhase = VolumeAvailable | VolumeBound | VolumeReleased | VolumeFailed

  datatype PV = PV(name: string, labels: Labels, phase: VolumePhase)

  datatype ClaimPhase = ClaimPending | ClaimBound | ClaimLost

  datatype PVC = PVC(name: string, labels: Labels, volume: string, phase: ClaimPhase)

  /** The OSD removal job with the two template parameters it was created with. */
  datatype Job = Job(ids: seq<string>, force: bool)

  /** What the API server (or the Ceph tools pod) did for the controller, in order. */
  datatype Event =
    | ToolsSet(value: bool)
    | Scaled(deployment: string, osdID: string)
    | ForceDeleted(ids: seq<string>)
    | JobCleared
    | JobCreated(job: Job, pods: seq<Pod>, deployments: seq<Deployment>)
    | LogsRead(pod: Pod, text: string)
    | PVDeleteSent(pv: PV, entry: NodePV)
    | OperatorDeleted
    | HealthRead(status: string)

  datatype Cluster = Cluster(
    pods: seq<Pod>,
    deployments: seq<Deployment>,
    pvs: seq<PV>,
    pvcs: seq<PVC>,
    nodes: map<string, Labels>,
    before415: bool,            // which of the two resources below owns the tools flag
    ocsInitTools: bool,         // OCSInitialization.spec.enableCephTools
    storageClusterTools: bool,  // StorageCluster.spec.enableCephTools
    job: Option<Job>,
    journal: seq<Event>)

  /** The version-dependent tools flag. */
  function ToolsOn(cl: Cluster): bool {
    if cl.before415 then cl.ocsInitTools else cl.storageClusterTools
  }

  /******* The oracle of one reconcile *******/

  /** Every call that can fail; loops number or name their calls. */
  datatype Call =
    | GetVersion(site: nat)
    | GetTools(site: nat)
    | UpdateTools
    | ListToolsPods(site: nat)
    | ListAllPods
    | ListPendingPods
    | GetNode(node: string)
    | UpdateNode(node: string)
    | ListOSDPods
    | GetPVC(i: nat)
    | GetPV(i: nat)
    | ListDeployments(i: nat)
    | UpdateDeployment(i: nat, name: string)
    | ListPodsOfID(i: nat)
    | ForceDeletePods
    | GetJob
    | DeleteJob
    | DeleteJobPods
    | GetTemplate
    | CreateJob
    | ListJobPods
    | GetLogs
    | ListNodePVs(i: nat)
    | DeletePV(i: nat, name: string)
    | ListClaims
    | ListClaimPods
    | DeleteOperatorPods
    | ListFailedPods
    | DeletePod(name: string)
    | CephStatus
    | CephArchive
    | WriteStatus

  datatype Fetch = Found | Missing | BeingDeleted | FetchFailed

  datatype Env = Env(
    fetch: Fetch,              // how the resource itself was read
    now: Time,                 // the clock when deadlines and waits are checked
    stamp: Time,               // the clock when the outcome is stamped
    fails: Call -> bool,       // which calls return an error without any effect
    lingers: string -> bool,   // names of pods and volumes a finalizer keeps past their deletion
    jobLingers: bool,          // likewise for the removal job
    health: string,            // health.status of `ceph status`
    logs: string)              // log text of the removal pod

  /** What a reconcile returns to the work queue. */
  datatype Result = Result(requeue: bool, after: int, err: bool)

  const DONE: Result := Result(false, 0, false)
  const AGAIN: Result := Result(true, 0, false)
  const ERROR: Result := Result(false, 0, true)

  function After(seconds: int): Result {
    Result(false, seconds, false)
  }

  /** True iff the queue reconciles the resource again without any outside event. */
  predicate Requeues(r: Result) {
    r.err || r.requeue || r.after > 0
  }
}
