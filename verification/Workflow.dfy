/** One reconcile of a NodeRecovery resource as a function: the inner state machine, branch by
    branch, and the outer controller around it. */
module Workflow {
  import opened Types
  import opened Pods
  import opened Effects
  import JobLogs

  /** What a branch does with the workflow position. */
  datatype Move = Stay | To(next: Kind) | Finish | GiveUp

  /** A branch returns a status (with conditions and phase still untouched), the cluster, the move
      and the work-queue result; or it dereferences nil and panics. */
  datatype Outcome =
    | Outcome(st: Status, cl: Cluster, move: Move, res: Result)
    | Panic(cl: Cluster)

  function Latest(st: Status): Condition
    requires st.conditions != []
  {
    st.conditions[|st.conditions| - 1]
  }

  /** transitionNextCondition */
  function Advance(st: Status, next: Kind, stamp: Time): Status
    requires st.conditions != []
  {
    var last := |st.conditions| - 1;
    st.(conditions := st.conditions[last := st.conditions[last].(active := false)] + [Condition(next, stamp, true)])
  }

  /** The move carried out. Without a condition there is no position to move (no reconcile gets
      here with none: the source indexes the last one first). */
  function Settle(st: Status, move: Move, stamp: Time): Status {
    match move
    case Stay => st
    case To(next) => if st.conditions == [] then st else Advance(st, next, stamp)
    case Finish => st.(phase := Completed, completionTime := Some(stamp))
    case GiveUp => st.(phase := Failed)
  }

  predicate TimedOut(st: Status, now: Time)
    requires st.conditions != []
  {
    now > Latest(st).lastTransition + RECONCILIATION_TIMEOUT
  }

  /******* The branches *******/

  function EnableTools(st: Status, cl: Cluster, env: Env): Outcome {
    match IsToolsEnabled(cl, env)
    case None => Outcome(st, cl, Stay, ERROR)
    case Some(true) =>
      Outcome(st.(keepCephToolsPod := true), cl, To(WaitForCephToolsPodRunning), After(10))
    case Some(false) =>
      match SetTools(cl, true, env)
      case None => Outcome(st, cl, Stay, ERROR)
      case Some(c) => Outcome(st, c, To(WaitForCephToolsPodRunning), After(10))
  }

  function WaitForTools(st: Status, cl: Cluster, env: Env): Outcome {
    match ToolsPod(cl, 0, env)
    case None => Outcome(st, cl, Stay, ERROR)
    case Some(pod) =>
      if pod.phase != PodRunning then Outcome(st, cl, Stay, After(10))
      else Outcome(st, cl, To(WaitForOSDPodsStabilize), AGAIN)
  }

  ghost function Stabilize(st: Status, cl: Cluster, env: Env): Outcome {
    if env.fails(ListAllPods) then Outcome(st, cl, Stay, ERROR)
    else if !Settled(cl.pods) then Outcome(st, cl, Stay, After(10))
    else Outcome(st, cl, To(LabelNodesWithPendingPods), AGAIN)
  }

  function LabelPending(st: Status, cl: Cluster, env: Env): Outcome {
    var pending := ListPods(cl.pods, PendingOSDPods);
    if env.fails(ListPendingPods) then Outcome(st, cl, Stay, ERROR)
    else if pending == [] then Outcome(st, cl, To(ManageCrashLoopBackOffPods), AGAIN)
    else
      var targets := Targets(pending);
      var c := LabelNodes(cl, targets, env);
      var marked := st.(pendingPods := true);
      if forall n :: n in targets ==> Reaches(cl, n, env)
      then Outcome(marked, c, To(ManageCrashLoopBackOffPods), AGAIN)
      else Outcome(marked, c, Stay, ERROR)
  }

  function ManageCrashes(st: Status, cl: Cluster, env: Env): Outcome {
    var osds := ListPods(cl.pods, OSDPods);
    var operational, failing := Operational(osds), Failing(osds);
    if env.fails(ListOSDPods) then Outcome(st, cl, Stay, ERROR)
    else if failing == [] then Outcome(st, cl, To(RestartStorageOperator), AGAIN)
    else
      var marked := st.(
        operationalOSDIDs := if operational == [] then st.operationalOSDIDs else OsdNames(operational),
        crashLoopBackOffPods := true);
      match Handle(failing, 0, cl, env)
      case HandlePanic(c) => Panic(c)
      case HandleError(c) => Outcome(marked, c, Stay, ERROR)
      case Handled(entries, c) =>
        Outcome(marked.(nodeDevice := entries), c, To(Kind.ForceDeleteRookCephOSDPods), After(15))
  }

  function ForceDeletePhase(st: Status, cl: Cluster, env: Env): Outcome {
    if !st.crashLoopBackOffPods then Outcome(st, cl, To(RestartStorageOperator), AGAIN)
    else
      var ids := OSDIDs(st.nodeDevice);
      match Probe(ids, 0, cl, env)
      case ProbeError => Outcome(st, cl, Stay, ERROR)
      case ProbePanic => Panic(cl)
      case StillTerminating => Outcome(st, cl, Stay, After(15))
      case Stuck(c) =>
        if c == 0 then Outcome(st, cl, To(ProcessOCSRemovalTemplate), AGAIN)
        else
          match ForceDelete(ids, cl, env)
          case None => Outcome(st, cl, Stay, ERROR)
          case Some(d) => Outcome(st, d, To(Kind.ForceDeleteRookCephOSDPods), AGAIN)
  }

  function ProcessTemplate(st: Status, cl: Cluster, env: Env): Outcome {
    var cleared := ClearJob(cl, env);
    if !cleared.ok || env.fails(ListOSDPods) then Outcome(st, cleared.cl, Stay, ERROR)
    else
      var force := |ListPods(cleared.cl.pods, OSDPods)| <= 3;
      var marked := st.(forcedOSDRemoval := force);
      match SubmitJob(OSDIDs(st.nodeDevice), force, cleared.cl, env)
      case None => Outcome(marked, cleared.cl, Stay, ERROR)
      case Some(c) => Outcome(marked, c, To(CleanupOSDRemovalJob), After(10))
  }

  /** The job pod succeeded: its log decides, then the job is cleaned up. */
  function FinishRemoval(st: Status, cl: Cluster, pod: Pod, env: Env): Outcome {
    if env.fails(GetLogs) then Outcome(st, cl, GiveUp, ERROR)
    else
      var read := Log(cl, [LogsRead(pod, env.logs)]);
      if !JobLogs.Accepts(env.logs) then Outcome(st, read, GiveUp, ERROR)
      else
        var cleared := ClearJob(read, env);
        if !cleared.ok then Outcome(st, cleared.cl, Stay, ERROR)
        else Outcome(st, cleared.cl, To(WaitForPersistenVolumeBound), AGAIN)
  }

  /** The job took too long: start over with force. */
  function ForceRetry(st: Status, cl: Cluster, env: Env): Outcome {
    var cleared := ClearJob(cl, env);
    if !cleared.ok then Outcome(st, cleared.cl, Stay, ERROR)
    else
      match SubmitJob(OSDIDs(st.nodeDevice), true, cleared.cl, env)
      case None => Outcome(st, cleared.cl, Stay, ERROR)
      case Some(c) => Outcome(st.(forcedOSDRemoval := true), c, To(RetryForceCleanupOSDRemovalJob), AGAIN)
  }

  function Cleanup(st: Status, since: Time, cl: Cluster, env: Env): Outcome {
    match JobPod(cl, env)
    case None => Outcome(st, cl, Stay, ERROR)
    case Some(pod) =>
      if pod.phase == PodSucceeded then FinishRemoval(st, cl, pod, env)
      else if env.now < since + OSD_REMOVAL_JOB_TIMEOUT then Outcome(st, cl, Stay, After(10))
      else ForceRetry(st, cl, env)
  }

  function RetryCleanup(st: Status, since: Time, cl: Cluster, env: Env): Outcome {
    match JobPod(cl, env)
    case None => Outcome(st, cl, Stay, ERROR)
    case Some(pod) =>
      if pod.phase == PodSucceeded then FinishRemoval(st, cl, pod, env)
      else if env.now < since + OSD_REMOVAL_JOB_TIMEOUT then Outcome(st, cl, Stay, After(10))
      else Outcome(st, cl, GiveUp, DONE)
  }

  ghost function WaitForVolumes(st: Status, cl: Cluster, env: Env): Outcome {
    match Sweep(st.nodeDevice, 0, cl, false, env)
    case SweepError(c) => Outcome(st, c, Stay, ERROR)
    case Swept(c, pending) =>
      if pending then Outcome(st, c, Stay, After(15))
      else
        match CountClaims(c, env)
        case None => Outcome(st, c, Stay, After(15))
        case Some(n) =>
          if n < |st.operationalOSDIDs| + |st.nodeDevice| then Outcome(st, c, Stay, After(15))
          else Outcome(st, c, To(RestartStorageOperator), AGAIN)
  }

  function Restart(st: Status, cl: Cluster, env: Env): Outcome {
    if !st.pendingPods && !st.crashLoopBackOffPods then Outcome(st, cl, To(DeleteFailedPodsNodeAffinity), After(30))
    else
      match RestartOperator(cl, env)
      case None => Outcome(st, cl, Stay, ERROR)
      case Some(c) => Outcome(st, c, To(DeleteFailedPodsNodeAffinity), After(30))
  }

  function DeleteAffinity(st: Status, cl: Cluster, env: Env): Outcome {
    var a := DeleteAffinityFailures(cl, env);
    if a.ok then Outcome(st, a.cl, To(StorageClusterFitnessCheck), AGAIN) else Outcome(st, a.cl, Stay, ERROR)
  }

  function Fitness(st: Status, cl: Cluster, env: Env): Outcome {
    if ToolsPod(cl, 0, env).None? || env.fails(CephStatus) then Outcome(st, cl, Stay, ERROR)
    else
      var c := Log(cl, [HealthRead(env.health)]);
      if env.health == HEALTH_OK then Outcome(st, c, To(DisableCephTools), AGAIN)
      else if ToolsPod(c, 1, env).None? || env.fails(CephArchive) then Outcome(st, c, Stay, ERROR)
      else Outcome(st, c, Stay, After(15))
  }

  function DisableTools(st: Status, cl: Cluster, env: Env): Outcome {
    if st.keepCephToolsPod then Outcome(st, cl, Finish, DONE)
    else
      match SetTools(cl, false, env)
      case None => Outcome(st, cl, Stay, ERROR)
      case Some(c) => Outcome(st, c, Finish, DONE)
  }

  /** The switch. An unknown type falls through to completion. */
  ghost function Branch(last: Condition, st: Status, cl: Cluster, env: Env): Outcome {
    match last.kind
    case EnableCephToolsPod => EnableTools(st, cl, env)
    case WaitForCephToolsPodRunning => WaitForTools(st, cl, env)
    case WaitForOSDPodsStabilize => Stabilize(st, cl, env)
    case LabelNodesWithPendingPods => LabelPending(st, cl, env)
    case ManageCrashLoopBackOffPods => ManageCrashes(st, cl, env)
    case ForceDeleteRookCephOSDPods => ForceDeletePhase(st, cl, env)
    case ProcessOCSRemovalTemplate => ProcessTemplate(st, cl, env)
    case CleanupOSDRemovalJob => Cleanup(st, last.lastTransition, cl, env)
    case RetryForceCleanupOSDRemovalJob => RetryCleanup(st, last.lastTransition, cl, env)
    case WaitForPersistenVolumeBound => WaitForVolumes(st, cl, env)
    case RestartStorageOperator => Restart(st, cl, env)
    case DeleteFailedPodsNodeAffinity => DeleteAffinity(st, cl, env)
    case StorageClusterFitnessCheck => Fitness(st, cl, env)
    case DisableCephTools => DisableTools(st, cl, env)
    case Unknown(_) => Outcome(st, cl, Finish, DONE)
  }

  /** NodeRecovery.Reconcile */
  ghost function Inner(st: Status, cl: Cluster, env: Env): Outcome {
    if st.conditions == [] then Panic(cl)
    else if TimedOut(st, env.now) then Outcome(st, cl, GiveUp, DONE)
    else Branch(Latest(st), st, cl, env)
  }

  /******* The outer controller *******/

  /** Whether the store takes any list of conditions or enforces the declared map key. */
  datatype Store = Permissive | UniqueTypes

  ghost predicate DistinctKinds(cs: seq<Condition>) {
    forall i, j :: 0 <= i < j < |cs| ==> cs[i].kind != cs[j].kind
  }

  ghost predicate Accepts(store: Store, st: Status) {
    store == UniqueTypes ==> DistinctKinds(st.conditions)
  }

  function Started(st: Status, now: Time): Status {
    if st.startTime.Some? then st
    else st.(startTime := Some(now), phase := Running, conditions := st.conditions + [Condition(EnableCephToolsPod, now, true)])
  }

  predicate Terminal(st: Status) {
    st.phase == Failed || st.phase == Completed
  }

  /** What one reconcile request leaves behind: the persisted status, the cluster, the result. A
      status is lost when the write failed or, after a panic, was never attempted. The controller
      runtime recovers a panic and returns it to the queue as an error. */
  datatype Pass = Pass(st: Status, cl: Cluster, res: Result, panicked: bool, lost: bool)

  /** True iff the request gets as far as the inner state machine. */
  predicate Proceeds(st: Status, env: Env) {
    env.fetch == Found && !Terminal(st)
  }

  /** NodeRecoveryReconciler.Reconcile */
  ghost function Request(store: Store, st: Status, cl: Cluster, env: Env): Pass {
    if env.fetch == FetchFailed then Pass(st, cl, ERROR, false, false)
    else if !Proceeds(st, env) then Pass(st, cl, DONE, false, false)
    else
      match Inner(Started(st, env.now), cl, env)
      case Panic(c) => Pass(st, c, ERROR, true, true)
      case Outcome(mid, c, move, res) =>
        var end := Settle(mid, move, env.stamp);
        if env.fails(WriteStatus) || !Accepts(store, end) then Pass(st, c, res.(err := true), false, true)
        else Pass(end, c, res, false, false)
  }

  /******* The counters *******/

  datatype Counters = Counters(
    total: nat,
    completed: nat,
    failed: map<Kind, nat>,
    recoveredNodes: map<string, nat>,
    failedNodes: map<string, nat>)

  function Count<K>(m: map<K, nat>, k: K): nat {
    if k in m then m[k] else 0
  }

  function Bump<K>(m: map<K, nat>, k: K): map<K, nat> {
    m[k := Count(m, k) + 1]
  }

  /** Count every recorded entry once on its node, from the i-th on. */
  function BumpNodes(m: map<string, nat>, entries: seq<NodePV>, i: nat): map<string, nat>
    requires i <= |entries|
    decreases |entries| - i
  {
    if i == |entries| then m else BumpNodes(Bump(m, entries[i].node), entries, i + 1)
  }

  /** The counters after the inner state machine ran on st with the given outcome. */
  ghost function Counted(m: Counters, st: Status, out: Outcome, now: Time): Counters {
    if st.conditions == [] then m
    else if TimedOut(st, now) then
      m.(failedNodes := BumpNodes(m.failedNodes, st.nodeDevice, 0), failed := Bump(m.failed, Latest(st).kind))
    else if out.Outcome? && out.move == Finish then
      m.(completed := m.completed + 1,
         recoveredNodes := if Latest(st).kind == DisableCephTools then BumpNodes(m.recoveredNodes, st.nodeDevice, 0) else m.recoveredNodes)
    else m
  }
}
