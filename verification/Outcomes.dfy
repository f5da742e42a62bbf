/** The whole outcome of every condition, whatever fails, told by the cluster it met: labels, phases
    and reasons as the API server holds them, the first pod of a list, and the calls that failed. */
module Outcomes {
  import opened Types
  import opened Pods
  import opened Effects
  import opened Workflow
  import opened Contract
  import opened Branches
  import opened Accounting
  import JobLogs

  /******* Labels, selectors and reasons *******/

  ghost predicate Tagged(labels: Labels, key: Label, value: string) {
    key in labels && labels[key] == value
  }

  ghost predicate OfOSD(labels: Labels, id: string) {
    Tagged(labels, App, "rook-ceph-osd") && Tagged(labels, OsdID, id)
  }

  ghost predicate IsJobPod(p: Pod) {
    Tagged(p.labels, JobName, "ocs-osd-removal-job")
  }

  /** What the selectors of the controller select. */
  lemma SelectorsSelect(p: Pod, id: string, ids: seq<string>)
    ensures Selects(AllPods, p)
    ensures Selects(Query.ToolsPods, p) <==> Tagged(p.labels, App, "rook-ceph-tools")
    ensures Selects(Query.OperatorPods, p) <==> Tagged(p.labels, App, "rook-ceph-operator")
    ensures Selects(JobPods, p) <==> IsJobPod(p)
    ensures Selects(OSDPods, p) <==> Tagged(p.labels, App, "rook-ceph-osd")
    ensures Selects(PendingOSDPods, p) <==> Tagged(p.labels, App, "rook-ceph-osd") && p.phase == PodPending
    ensures Selects(OSDPodsWithID(id), p) <==> OfOSD(p.labels, id)
    ensures Selects(PodsWithAnyID(ids), p) <==> exists k :: 0 <= k < |ids| && Tagged(p.labels, OsdID, ids[k])
  {
    assert OsdID in p.labels ==> (p.labels[OsdID] in ids <==> exists k :: 0 <= k < |ids| && ids[k] == p.labels[OsdID]);
  }

  /** What the loops of the controller look for. */
  lemma ReasonsAre(s: ContainerStatus, p: Pod, c: PVC, v: PV, entry: NodePV, d: Deployment, id: string)
    ensures InFailure(s) <==> s.waiting == Some("CrashLoopBackOff") || s.terminated == Some("Error")
    ensures Unready(s) <==> s.waiting == Some("ContainerCreating") || s.waiting == Some("PodInitializing")
    ensures AffinityFailure(p) <==> p.phase == PodFailed && p.reason == "NodeAffinity"
    ensures CountedClaim(c) <==> Tagged(c.labels, CephImage, "") && c.phase == ClaimBound
    ensures IsReleased(v, entry) <==> v.name == entry.pv && v.phase == VolumeReleased
    ensures Carries(d.labels, id) <==> OfOSD(d.labels, id)
    ensures Get(p.labels, OsdName) == if OsdName in p.labels then p.labels[OsdName] else ""
  {
  }

  /** The first pod a list gives. */
  lemma {:induction false} FirstListed(pods: seq<Pod>, q: Query) returns (k: nat)
    ensures k <= |pods| && forall j :: 0 <= j < k ==> !Selects(q, pods[j])
    ensures if k < |pods| then Selects(q, pods[k]) && ListPods(pods, q) != [] && ListPods(pods, q)[0] == pods[k]
            else ListPods(pods, q) == []
  {
    k := 0;
    if pods != [] && !Selects(q, pods[0]) {
      var m := FirstListed(pods[1..], q);
      k := m + 1;
    }
  }

  /******* The tools flag *******/

  /** The one flag of this cluster version set, and the request noted; nothing else. */
  ghost predicate FlagSet(cl: Cluster, c: Cluster, value: bool) {
    c == cl.(ocsInitTools := if cl.before415 then value else cl.ocsInitTools,
             storageClusterTools := if cl.before415 then cl.storageClusterTools else value,
             journal := cl.journal + [ToolsSet(value)])
  }

  ghost predicate FlagWritable(env: Env) {
    !env.fails(GetVersion(1)) && !env.fails(GetTools(1)) && !env.fails(UpdateTools)
  }

  lemma EnableToolsOutcome(last: Condition, st: Status, cl: Cluster, env: Env)
    requires last.kind == EnableCephToolsPod
    ensures var out := Branch(last, st, cl, env);
            var on := if cl.before415 then cl.ocsInitTools else cl.storageClusterTools;
            if env.fails(GetVersion(0)) || env.fails(GetTools(0)) || (!on && !FlagWritable(env)) then
              out == Outcome(st, cl, Stay, ERROR)
            else
              && out.Outcome? && out.move == To(WaitForCephToolsPodRunning) && out.res == Result(false, 10, false)
              && out.st == st.(keepCephToolsPod := st.keepCephToolsPod || on)
              && if on then out.cl == cl else FlagSet(cl, out.cl, true)
  {
  }

  lemma DisableToolsOutcome(last: Condition, st: Status, cl: Cluster, env: Env)
    requires last.kind == DisableCephTools
    ensures var out := Branch(last, st, cl, env);
            if !st.keepCephToolsPod && !FlagWritable(env) then out == Outcome(st, cl, Stay, ERROR)
            else
              && out.Outcome? && out.st == st && out.move == Finish && out.res == DONE
              && if st.keepCephToolsPod then out.cl == cl else FlagSet(cl, out.cl, false)
  {
  }

  /******* The gates *******/

  /** k is the first tools pod in the cluster's order, if there is one. */
  lemma WaitForToolsOutcome(last: Condition, st: Status, cl: Cluster, env: Env) returns (k: nat)
    requires last.kind == WaitForCephToolsPodRunning
    ensures k <= |cl.pods| && forall j :: 0 <= j < k ==> !Tagged(cl.pods[j].labels, App, "rook-ceph-tools")
    ensures k < |cl.pods| ==> Tagged(cl.pods[k].labels, App, "rook-ceph-tools")
    ensures Branch(last, st, cl, env) ==
            if env.fails(ListToolsPods(0)) || k == |cl.pods| then Outcome(st, cl, Stay, ERROR)
            else if cl.pods[k].phase == PodRunning then Outcome(st, cl, To(WaitForOSDPodsStabilize), AGAIN)
            else Outcome(st, cl, Stay, Result(false, 10, false))
  {
    k := FirstListed(cl.pods, Query.ToolsPods);
  }

  lemma StabilizeOutcome(last: Condition, st: Status, cl: Cluster, env: Env)
    requires last.kind == WaitForOSDPodsStabilize
    ensures Branch(last, st, cl, env) ==
            if env.fails(ListAllPods) then Outcome(st, cl, Stay, ERROR)
            else if exists p :: p in cl.pods && Starting(p) then Outcome(st, cl, Stay, Result(false, 10, false))
            else Outcome(st, cl, To(LabelNodesWithPendingPods), AGAIN)
  {
  }

  lemma FitnessOutcome(last: Condition, st: Status, cl: Cluster, env: Env) returns (k: nat)
    requires last.kind == StorageClusterFitnessCheck
    ensures k <= |cl.pods| && forall j :: 0 <= j < k ==> !Tagged(cl.pods[j].labels, App, "rook-ceph-tools")
    ensures k < |cl.pods| ==> Tagged(cl.pods[k].labels, App, "rook-ceph-tools")
    ensures var read := cl.(journal := cl.journal + [HealthRead(env.health)]);
            Branch(last, st, cl, env) ==
            if env.fails(ListToolsPods(0)) || k == |cl.pods| || env.fails(CephStatus) then Outcome(st, cl, Stay, ERROR)
            else if env.health == "HEALTH_OK" then Outcome(st, read, To(DisableCephTools), AGAIN)
            else if env.fails(ListToolsPods(1)) || env.fails(CephArchive) then Outcome(st, read, Stay, ERROR)
            else Outcome(st, read, Stay, Result(false, 15, false))
  {
    k := FirstListed(cl.pods, Query.ToolsPods);
  }

  /******* Labels for pending pods *******/

  ghost predicate Hosts(p: Pod, node: string) {
    if Hostname in p.nodeSelector then p.nodeSelector[Hostname] == node else node == ""
  }

  /** Some pending OSD pod selects the node. */
  ghost predicate Wanted(cl: Cluster, node: string) {
    exists p :: p in cl.pods && Tagged(p.labels, App, "rook-ceph-osd") && p.phase == PodPending && Hosts(p, node)
  }

  ghost predicate Labelable(cl: Cluster, node: string, env: Env) {
    node in cl.nodes && !env.fails(GetNode(node)) && !env.fails(UpdateNode(node))
  }

  lemma LabelPendingOutcome(last: Condition, st: Status, cl: Cluster, env: Env)
    requires last.kind == LabelNodesWithPendingPods
    ensures var out, listed := Branch(last, st, cl, env), !env.fails(ListPendingPods);
            var all := forall n :: Wanted(cl, n) ==> Labelable(cl, n, env);
            && out.Outcome?
            && out.st == st.(pendingPods := st.pendingPods || (listed && exists n :: Wanted(cl, n)))
            && out.move == (if listed && all then To(ManageCrashLoopBackOffPods) else Stay)
            && out.res == (if listed && all then AGAIN else ERROR)
            && out.cl == cl.(nodes := out.cl.nodes) && out.cl.nodes.Keys == cl.nodes.Keys
            && forall n :: n in cl.nodes ==>
                 out.cl.nodes[n] == if listed && Wanted(cl, n) && Labelable(cl, n, env) then cl.nodes[n][StorageAffinity := ""] else cl.nodes[n]
  {
    forall n ensures HostsPending(cl, n) <==> Wanted(cl, n) {
    }
    assert forall n :: Reaches(cl, n, env) <==> Labelable(cl, n, env);
    LabelPendingExactly(st, cl, env);
    LabelPendingResult(st, cl, env);
  }

  lemma LabelPendingResult(st: Status, cl: Cluster, env: Env)
    ensures var out := LabelPending(st, cl, env);
            && out.Outcome? && out.st == st.(pendingPods := out.st.pendingPods)
            && (out.move == To(ManageCrashLoopBackOffPods) || out.move == Stay)
            && out.res == if out.move == Stay then ERROR else AGAIN
  {
  }

  /******* Restarting the operator *******/

  /** A pod after the operator's pods were deleted. */
  ghost predicate LeftOfOperator(p: Pod, before: seq<Pod>, env: Env) {
    || (p in before && !Tagged(p.labels, App, "rook-ceph-operator"))
    || exists o :: o in before && Tagged(o.labels, App, "rook-ceph-operator") && env.lingers(o.name) && p == Terminating(o, env.now)
  }

  /** With neither flag set the operator is left alone; otherwise every operator pod goes, unless it
      lingers and terminates, and no other pod is touched. */
  lemma RestartOutcome(last: Condition, st: Status, cl: Cluster, env: Env, p: Pod)
    requires last.kind == RestartStorageOperator
    ensures var out, flagged := Branch(last, st, cl, env), st.pendingPods || st.crashLoopBackOffPods;
            if flagged && env.fails(DeleteOperatorPods) then out == Outcome(st, cl, Stay, ERROR)
            else
              && out.Outcome? && out.st == st
              && out.move == To(DeleteFailedPodsNodeAffinity) && out.res == Result(false, 30, false)
              && if !flagged then out.cl == cl
                 else
                   && out.cl == cl.(pods := out.cl.pods, journal := cl.journal + [OperatorDeleted])
                   && (p in out.cl.pods <==> LeftOfOperator(p, cl.pods, env))
  {
    DeletePodsExactly(cl.pods, Query.OperatorPods, env, p);
    assert forall o: Pod :: Selects(Query.OperatorPods, o) <==> Tagged(o.labels, App, "rook-ceph-operator");
  }

  /******* Pods failed by node affinity *******/

  ghost predicate FailedByAffinity(p: Pod) {
    p.phase == PodFailed && p.reason == "NodeAffinity"
  }

  /** A delete request for a failed pod of this name removes it. */
  ghost predicate Removes(cl: Cluster, name: string, env: Env) {
    && (exists q :: q in cl.pods && FailedByAffinity(q) && q.name == name)
    && !env.fails(DeletePod(name)) && !env.lingers(name)
  }

  lemma DeleteAffinityOutcome(last: Condition, st: Status, cl: Cluster, env: Env, p: Pod)
    requires last.kind == DeleteFailedPodsNodeAffinity
    ensures var out, listed := Branch(last, st, cl, env), !env.fails(ListFailedPods);
            var all := forall q :: q in cl.pods && FailedByAffinity(q) ==> !env.fails(DeletePod(q.name));
            && out.Outcome? && out.st == st && out.cl == cl.(pods := out.cl.pods)
            && out.move == (if listed && all then To(StorageClusterFitnessCheck) else Stay)
            && out.res == (if listed && all then AGAIN else ERROR)
            && (p in out.cl.pods <==> p in cl.pods && !(listed && Removes(cl, p.name, env)))
  {
    assert forall q :: FailedByAffinity(q) <==> AffinityFailure(q);
    DeleteAffinityExactly(st, cl, env, p);
    AffinityResult(st, cl, env);
  }

  lemma AffinityResult(st: Status, cl: Cluster, env: Env)
    ensures var out := DeleteAffinity(st, cl, env);
            && out.Outcome? && out.st == st && out.cl == cl.(pods := out.cl.pods)
            && (out.move == To(StorageClusterFitnessCheck) || out.move == Stay)
            && out.res == if out.move == Stay then ERROR else AGAIN
  {
  }

  /******* The removal job *******/

  /** A pod after the pods of the removal job were deleted. */
  ghost predicate LeftOfJob(p: Pod, before: seq<Pod>, env: Env) {
    || (p in before && !IsJobPod(p))
    || exists o :: o in before && IsJobPod(o) && env.lingers(o.name) && p == Terminating(o, env.now)
  }

  /** The cluster after an attempt to clear the job, which goes as far as its calls succeed. */
  ghost predicate Cleared(cl: Cluster, c: Cluster, env: Env) {
    var jobGone := !env.fails(GetJob) && cl.job.Some? && !env.fails(DeleteJob) && !env.jobLingers;
    && c == cl.(job := if jobGone then None else cl.job, pods := c.pods, journal := c.journal)
    && if ClearSucceeds(cl, env) then c.journal == cl.journal + [JobCleared] && forall p :: p in c.pods <==> LeftOfJob(p, cl.pods, env)
       else c.journal == cl.journal && c.pods == cl.pods
  }

  lemma ClearJobOutcome(cl: Cluster, env: Env)
    ensures ClearJob(cl, env).ok <==> ClearSucceeds(cl, env)
    ensures Cleared(cl, ClearJob(cl, env).cl, env)
  {
    forall p ensures p in DeletePods(cl.pods, JobPods, env) <==> LeftOfJob(p, cl.pods, env) {
      DeletePodsExactly(cl.pods, JobPods, env, p);
      assert forall o: Pod :: Selects(JobPods, o) <==> IsJobPod(o);
    }
  }

  /** The cluster with this job created in it; the request notes the cluster it met. */
  ghost function WithJob(c: Cluster, job: Job): Cluster {
    c.(job := Some(job), journal := c.journal + [JobCreated(job, c.pods, c.deployments)])
  }

  lemma ProcessTemplateOutcome(last: Condition, st: Status, cl: Cluster, env: Env) returns (c: Cluster)
    requires last.kind == ProcessOCSRemovalTemplate
    ensures Cleared(cl, c, env)
    ensures var force := |ListPods(c.pods, OSDPods)| <= 3;
            Branch(last, st, cl, env) ==
            if !ClearSucceeds(cl, env) || env.fails(ListOSDPods) then Outcome(st, c, Stay, ERROR)
            else if !SubmitSucceeds(cl, env) then Outcome(st.(forcedOSDRemoval := force), c, Stay, ERROR)
            else Outcome(st.(forcedOSDRemoval := force), WithJob(c, Job(OSDIDs(st.nodeDevice), force)),
                         To(CleanupOSDRemovalJob), Result(false, 10, false))
  {
    ClearJobOutcome(cl, env);
    c := ClearJob(cl, env).cl;
  }

  /** k is the first job pod that is not being deleted, if there is one. */
  ghost predicate FirstLiveJobPod(pods: seq<Pod>, k: nat) {
    && k <= |pods|
    && (forall j :: 0 <= j < k ==> !(IsJobPod(pods[j]) && pods[j].deletion.None?))
    && (k < |pods| ==> IsJobPod(pods[k]) && pods[k].deletion.None?)
  }

  lemma {:induction false} FirstLiveListed(pods: seq<Pod>) returns (k: nat)
    ensures FirstLiveJobPod(pods, k)
    ensures FirstLive(ListPods(pods, JobPods)) == if k < |pods| then Some(pods[k]) else None
  {
    k := 0;
    if pods != [] {
      var p, rest := pods[0], pods[1..];
      assert pods == [p] + rest;
      FirstOrRest(p, rest);
      if !(IsJobPod(p) && p.deletion.None?) {
        var m := FirstLiveListed(rest);
        k := m + 1;
        OneFurther(p, rest, m);
      }
    }
  }

  lemma FirstOrRest(p: Pod, rest: seq<Pod>)
    ensures FirstLive(ListPods([p] + rest, JobPods)) ==
            if IsJobPod(p) && p.deletion.None? then Some(p) else FirstLive(ListPods(rest, JobPods))
  {
    var listed := ListPods(rest, JobPods);
    JobListed(p, rest);
    LiveFirst(p, listed);
  }

  lemma JobListed(p: Pod, rest: seq<Pod>)
    ensures ListPods([p] + rest, JobPods) == (if IsJobPod(p) then [p] else []) + ListPods(rest, JobPods)
  {
    ListedFirst(p, rest, JobPods);
  }

  lemma OneFurther(p: Pod, rest: seq<Pod>, m: nat)
    requires !(IsJobPod(p) && p.deletion.None?) && FirstLiveJobPod(rest, m)
    ensures FirstLiveJobPod([p] + rest, m + 1)
  {
    assert forall j :: 1 <= j < m + 1 ==> ([p] + rest)[j] == rest[j - 1];
  }

  lemma LiveFirst(p: Pod, rest: seq<Pod>)
    ensures FirstLive([p] + rest) == if p.deletion.None? then Some(p) else FirstLive(rest)
    ensures FirstLive([] + rest) == FirstLive(rest)
  {
    assert ([p] + rest)[1..] == rest && [] + rest == rest;
  }

  /** The job pod succeeded: its log is judged, and an accepted removal cleaned up. */
  ghost predicate Judged(out: Outcome, st: Status, cl: Cluster, pod: Pod, c: Cluster, env: Env) {
    var read := cl.(journal := cl.journal + [LogsRead(pod, env.logs)]);
    if env.fails(GetLogs) then out == Outcome(st, cl, GiveUp, ERROR)
    else if !JobLogs.Accepts(env.logs) then out == Outcome(st, read, GiveUp, ERROR)
    else
      && Cleared(read, c, env)
      && out == if ClearSucceeds(cl, env) then Outcome(st, c, To(WaitForPersistenVolumeBound), AGAIN) else Outcome(st, c, Stay, ERROR)
  }

  lemma FinishRemovalOutcome(st: Status, cl: Cluster, pod: Pod, env: Env) returns (c: Cluster)
    ensures Judged(FinishRemoval(st, cl, pod, env), st, cl, pod, c, env)
  {
    var read := Log(cl, [LogsRead(pod, env.logs)]);
    ClearJobOutcome(read, env);
    c := ClearJob(read, env).cl;
  }

  lemma ForceRetryOutcome(st: Status, cl: Cluster, env: Env) returns (c: Cluster)
    ensures Cleared(cl, c, env)
    ensures ForceRetry(st, cl, env) ==
            if !ClearSucceeds(cl, env) || !SubmitSucceeds(cl, env) then Outcome(st, c, Stay, ERROR)
            else Outcome(st.(forcedOSDRemoval := true), WithJob(c, Job(OSDIDs(st.nodeDevice), true)), To(RetryForceCleanupOSDRemovalJob), AGAIN)
  {
    ClearJobOutcome(cl, env);
    c := ClearJob(cl, env).cl;
  }

  /** The first attempt is watched for ten minutes, then replaced by a forced one. */
  lemma CleanupOutcome(last: Condition, st: Status, cl: Cluster, env: Env) returns (k: nat, c: Cluster)
    requires last.kind == CleanupOSDRemovalJob
    ensures FirstLiveJobPod(cl.pods, k)
    ensures var out := Branch(last, st, cl, env);
            if env.fails(ListJobPods) || k == |cl.pods| then out == Outcome(st, cl, Stay, ERROR)
            else if cl.pods[k].phase == PodSucceeded then Judged(out, st, cl, cl.pods[k], c, env)
            else if env.now < last.lastTransition + 600 then out == Outcome(st, cl, Stay, Result(false, 10, false))
            else
              && Cleared(cl, c, env)
              && out == if !ClearSucceeds(cl, env) || !SubmitSucceeds(cl, env) then Outcome(st, c, Stay, ERROR)
                        else Outcome(st.(forcedOSDRemoval := true), WithJob(c, Job(OSDIDs(st.nodeDevice), true)),
                                     To(RetryForceCleanupOSDRemovalJob), AGAIN)
  {
    k := FirstLiveListed(cl.pods);
    if k < |cl.pods| && cl.pods[k].phase == PodSucceeded {
      c := FinishRemovalOutcome(st, cl, cl.pods[k], env);
    } else {
      c := ForceRetryOutcome(st, cl, env);
    }
  }

  /** The forced attempt is watched for ten minutes, then the recovery fails. */
  lemma RetryCleanupOutcome(last: Condition, st: Status, cl: Cluster, env: Env) returns (k: nat, c: Cluster)
    requires last.kind == RetryForceCleanupOSDRemovalJob
    ensures FirstLiveJobPod(cl.pods, k)
    ensures var out := Branch(last, st, cl, env);
            if env.fails(ListJobPods) || k == |cl.pods| then out == Outcome(st, cl, Stay, ERROR)
            else if cl.pods[k].phase == PodSucceeded then Judged(out, st, cl, cl.pods[k], c, env)
            else if env.now < last.lastTransition + 600 then out == Outcome(st, cl, Stay, Result(false, 10, false))
            else out == Outcome(st, cl, GiveUp, DONE)
  {
    k := FirstLiveListed(cl.pods);
    c := cl;
    if k < |cl.pods| {
      c := FinishRemovalOutcome(st, cl, cl.pods[k], env);
    }
  }

  /******* Force deletion *******/

  /** f is the first OSD pod of the ID, if there is one. */
  ghost predicate FirstOfID(pods: seq<Pod>, id: string, f: nat) {
    && f <= |pods|
    && (forall j :: 0 <= j < f ==> !OfOSD(pods[j].labels, id))
    && (f < |pods| ==> OfOSD(pods[f].labels, id))
  }

  /** What the lookup of one ID tells the loop. */
  datatype Sight = Unreadable | Past | Young | NotTerminating

  ghost predicate Sees(cl: Cluster, id: string, k: nat, f: nat, env: Env, sight: Sight) {
    && FirstOfID(cl.pods, id, f)
    && sight == if env.fails(ListPodsOfID(k)) then Unreadable
                else if f == |cl.pods| then Past
                else if cl.pods[f].deletion.None? then NotTerminating
                else if env.now < cl.pods[f].deletion.value + 60 then Young
                else Past
  }

  ghost predicate Seen(cl: Cluster, id: string, k: nat, env: Env, sight: Sight) {
    exists f: nat :: Sees(cl, id, k, f, env, sight)
  }

  lemma Look(cl: Cluster, id: string, k: nat, env: Env) returns (sight: Sight)
    ensures Seen(cl, id, k, env, sight)
    ensures sight == Past <==> !env.fails(ListPodsOfID(k)) && Ripe(cl, id, env.now)
    ensures var found := ListPods(cl.pods, OSDPodsWithID(id));
            && (sight == NotTerminating ==> found != [] && found[0].deletion.None?)
            && (sight == Young ==> found != [] && found[0].deletion.Some? && env.now < found[0].deletion.value + TERMINATION_GRACE)
  {
    var f := FirstListed(cl.pods, OSDPodsWithID(id));
    sight := if env.fails(ListPodsOfID(k)) then Unreadable
             else if f == |cl.pods| then Past
             else if cl.pods[f].deletion.None? then NotTerminating
             else if env.now < cl.pods[f].deletion.value + 60 then Young
             else Past;
    assert Sees(cl, id, k, f, env, sight);
  }

  ghost function Stops(sight: Sight): Probing {
    match sight
    case Unreadable => ProbeError
    case NotTerminating => ProbePanic
    case _ => StillTerminating
  }

  /** The loop goes past the IDs before the k-th, which stops it if there is one. */
  lemma {:induction false} ProbeOutcomeAt(ids: seq<string>, i: nat, cl: Cluster, env: Env) returns (k: nat, sight: Sight)
    requires i <= |ids|
    ensures i <= k <= |ids|
    ensures forall j :: i <= j < k ==> Seen(cl, ids[j], j, env, Past)
    ensures k < |ids| ==> sight != Past && Seen(cl, ids[k], k, env, sight)
    ensures AllRipe(ids, i, cl, env) <==> k == |ids|
    ensures k < |ids| ==> Probe(ids, i, cl, env) == Stops(sight)
    decreases |ids| - i
  {
    k, sight := i, Past;
    if i < |ids| {
      sight := Look(cl, ids[i], i, env);
      if sight == Past {
        k, sight := ProbeOutcomeAt(ids, i + 1, cl, env);
      }
    }
  }

  ghost predicate HasRecordedID(p: Pod, ids: seq<string>) {
    exists k :: 0 <= k < |ids| && Tagged(p.labels, OsdID, ids[k])
  }

  /** A pod after the pods of these IDs were force-deleted. */
  ghost predicate LeftOfIDs(p: Pod, before: seq<Pod>, ids: seq<string>, env: Env) {
    || (p in before && !HasRecordedID(p, ids))
    || exists o :: o in before && HasRecordedID(o, ids) && env.lingers(o.name) && p == Terminating(o, env.now)
  }

  /** No OSD pod carries a recorded ID. */
  ghost predicate AllGone(cl: Cluster, ids: seq<string>) {
    forall p, k :: p in cl.pods && 0 <= k < |ids| ==> !OfOSD(p.labels, ids[k])
  }

  lemma ForceDeleteOutcome(last: Condition, st: Status, cl: Cluster, env: Env, p: Pod) returns (k: nat, sight: Sight)
    requires last.kind == Kind.ForceDeleteRookCephOSDPods
    ensures var ids := OSDIDs(st.nodeDevice);
            && k <= |ids| && (forall j :: 0 <= j < k ==> Seen(cl, ids[j], j, env, Past))
            && (k < |ids| ==> sight != Past && Seen(cl, ids[k], k, env, sight))
    ensures var out, ids := Branch(last, st, cl, env), OSDIDs(st.nodeDevice);
            if !st.crashLoopBackOffPods then out == Outcome(st, cl, To(RestartStorageOperator), AGAIN)
            else if k < |ids| then
              out == (match sight case Unreadable => Outcome(st, cl, Stay, ERROR) case NotTerminating => Panic(cl)
                      case _ => Outcome(st, cl, Stay, Result(false, 15, false)))
            else if AllGone(cl, ids) then out == Outcome(st, cl, To(ProcessOCSRemovalTemplate), AGAIN)
            else if env.fails(ForceDeletePods) then out == Outcome(st, cl, Stay, ERROR)
            else
              && out.Outcome? && out.st == st && out.move == To(Kind.ForceDeleteRookCephOSDPods) && out.res == AGAIN
              && out.cl == cl.(pods := out.cl.pods, journal := cl.journal + [ForceDeleted(ids)])
              && (p in out.cl.pods <==> LeftOfIDs(p, cl.pods, ids, env))
  {
    k, sight := ProbeOutcomeAt(OSDIDs(st.nodeDevice), 0, cl, env);
    if st.crashLoopBackOffPods && k == |st.nodeDevice| {
      PhasePassed(st, cl, env, p);
    }
  }

  lemma PhasePassed(st: Status, cl: Cluster, env: Env, p: Pod)
    requires st.crashLoopBackOffPods && AllRipe(OSDIDs(st.nodeDevice), 0, cl, env)
    ensures var out, ids := ForceDeletePhase(st, cl, env), OSDIDs(st.nodeDevice);
            if AllGone(cl, ids) then out == Outcome(st, cl, To(ProcessOCSRemovalTemplate), AGAIN)
            else if env.fails(ForceDeletePods) then out == Outcome(st, cl, Stay, ERROR)
            else
              && out.Outcome? && out.st == st && out.move == To(Kind.ForceDeleteRookCephOSDPods) && out.res == AGAIN
              && out.cl == cl.(pods := out.cl.pods, journal := cl.journal + [ForceDeleted(ids)])
              && (p in out.cl.pods <==> LeftOfIDs(p, cl.pods, ids, env))
  {
    var ids := OSDIDs(st.nodeDevice);
    GoneIsAbsent(cl, ids);
    ProbeExactly(ids, 0, cl, env);
    assert ids[0..] == ids;
    ForceDeleteLeaves(cl, ids, env, p);
  }

  lemma GoneIsAbsent(cl: Cluster, ids: seq<string>)
    ensures AllGone(cl, ids) <==> NoOSDPods(cl.pods, ids)
    ensures ids == [] ==> AllGone(cl, ids)
  {
    forall p, k | NoOSDPods(cl.pods, ids) && p in cl.pods && 0 <= k < |ids| ensures !OfOSD(p.labels, ids[k]) {
      assert Absent(cl.pods, ids[k]);
    }
    forall id, p | AllGone(cl, ids) && id in ids && p in cl.pods ensures !Carries(p.labels, id) {
      var k :| 0 <= k < |ids| && ids[k] == id;
    }
  }

  lemma ForceDeleteLeaves(cl: Cluster, ids: seq<string>, env: Env, p: Pod)
    ensures p in DeletePods(cl.pods, PodsWithAnyID(ids), env) <==> LeftOfIDs(p, cl.pods, ids, env)
  {
    DeletePodsExactly(cl.pods, PodsWithAnyID(ids), env, p);
    forall o: Pod ensures Selects(PodsWithAnyID(ids), o) <==> HasRecordedID(o, ids) {
      SelectorsSelect(o, "", ids);
    }
  }

  /******* Volumes *******/

  /** The volume is the recorded one of the entry, on its node, and released. */
  ghost predicate Meets(v: PV, entry: NodePV) {
    Tagged(v.labels, Hostname, entry.node) && v.name == entry.pv && v.phase == VolumeReleased
  }

  ghost predicate Deletes(i: nat, name: string, env: Env) {
    !env.fails(DeletePV(i, name)) && !env.lingers(name)
  }

  /** Some entry from lo up to hi met a volume of this name and deleted it. */
  ghost predicate RemovedAmong(name: string, entries: seq<NodePV>, lo: nat, hi: nat, pvs: seq<PV>, env: Env) {
    exists a: nat, u :: lo <= a < hi && a < |entries| && u in pvs && Meets(u, entries[a]) && u.name == name && Deletes(a, name, env)
  }

  /** One of the listed volumes is the recorded one and released. */
  ghost predicate Met(vs: seq<PV>, entry: NodePV) {
    exists u :: u in vs && IsReleased(u, entry)
  }

  lemma {:induction false} SweepNodeOutcome(vs: seq<PV>, k: nat, entry: NodePV, i: nat, cl: Cluster, env: Env)
    requires k <= |vs|
    ensures var c := SweepNode(vs, k, entry, i, cl, env);
            c == cl.(pvs := c.pvs, journal := c.journal)
            && forall v :: v in c.pvs <==> v in cl.pvs && !(v.name == entry.pv && Deletes(i, v.name, env) && Met(vs[k..], entry))
    decreases |vs| - k
  {
    if k < |vs| {
      assert vs[k..] == [vs[k]] + vs[k + 1..];
      SweepNodeOutcome(vs, k + 1, entry, i, if IsReleased(vs[k], entry) then SendPVDelete(vs[k], entry, i, cl, env) else cl, env);
    }
  }

  ghost predicate SentFrom(e: Event, vs: seq<PV>, entry: NodePV) {
    exists u :: u in vs && IsReleased(u, entry) && e == PVDeleteSent(u, entry)
  }

  lemma SentFromFirst(v: PV, vs: seq<PV>, entry: NodePV)
    ensures forall e :: SentFrom(e, [v] + vs, entry) <==>
              (IsReleased(v, entry) && e == PVDeleteSent(v, entry)) || SentFrom(e, vs, entry)
  {
    assert forall u :: u in [v] + vs <==> u == v || u in vs;
  }

  lemma {:induction false} SweepNodeSends(vs: seq<PV>, k: nat, entry: NodePV, i: nat, cl: Cluster, env: Env) returns (tail: seq<Event>)
    requires k <= |vs|
    ensures SweepNode(vs, k, entry, i, cl, env).journal == cl.journal + tail
    ensures forall e :: e in tail <==> SentFrom(e, vs[k..], entry)
    decreases |vs| - k
  {
    if k == |vs| {
      tail := [];
    } else {
      SentFromFirst(vs[k], vs[k + 1..], entry);
      assert vs[k..] == [vs[k]] + vs[k + 1..];
      if IsReleased(vs[k], entry) {
        var first := [PVDeleteSent(vs[k], entry)];
        var more := SweepNodeSends(vs, k + 1, entry, i, SendPVDelete(vs[k], entry, i, cl, env), env);
        tail := first + more;
        assert (cl.journal + first) + more == cl.journal + tail;
      } else {
        tail := SweepNodeSends(vs, k + 1, entry, i, cl, env);
      }
    }
  }

  /** The volumes an entry leaves to the later ones. */
  ghost predicate Leaves(entry: NodePV, i: nat, pvs: seq<PV>, next: seq<PV>, env: Env) {
    forall v :: v in next <==>
      v in pvs && !(Deletes(i, v.name, env) && exists u :: u in pvs && Meets(u, entry) && u.name == v.name)
  }

  lemma OneEntry(entry: NodePV, i: nat, cl: Cluster, env: Env) returns (tail: seq<Event>)
    ensures var c := SweepNode(NodePVs(cl.pvs, entry.node), 0, entry, i, cl, env);
            && c == cl.(pvs := c.pvs, journal := cl.journal + tail)
            && Leaves(entry, i, cl.pvs, c.pvs, env)
    ensures forall e :: e in tail <==> SentAt(e, entry, cl.pvs)
  {
    var vs := NodePVs(cl.pvs, entry.node);
    SweepNodeOutcome(vs, 0, entry, i, cl, env);
    tail := SweepNodeSends(vs, 0, entry, i, cl, env);
    assert vs[0..] == vs;
    assert forall u :: (u in vs && IsReleased(u, entry)) <==> (u in cl.pvs && Meets(u, entry));
    assert forall e :: SentFrom(e, vs, entry) <==> SentAt(e, entry, cl.pvs);
  }

  lemma RemovedLater(name: string, entries: seq<NodePV>, i: nat, hi: nat, pvs: seq<PV>, next: seq<PV>, env: Env)
    requires i < hi <= |entries| && Leaves(entries[i], i, pvs, next, env)
    ensures RemovedAmong(name, entries, i, hi, pvs, env) <==>
            RemovedAmong(name, entries, i, i + 1, pvs, env) || RemovedAmong(name, entries, i + 1, hi, next, env)
  {
    if Deletes(i, name, env) && exists u :: u in pvs && Meets(u, entries[i]) && u.name == name {
      var u :| u in pvs && Meets(u, entries[i]) && u.name == name;
      assert RemovedAmong(name, entries, i, i + 1, pvs, env);
    } else {
      assert forall v: PV :: v.name == name ==> (v in next <==> v in pvs);
    }
  }

  lemma RemovedHere(name: string, entries: seq<NodePV>, i: nat, pvs: seq<PV>, env: Env)
    requires i < |entries|
    ensures RemovedAmong(name, entries, i, i + 1, pvs, env) <==>
            Deletes(i, name, env) && exists u :: u in pvs && Meets(u, entries[i]) && u.name == name
  {
  }

  /** A delete request is sent for the volume at the a-th entry: the entry meets it, and no earlier
      one removed it. */
  ghost predicate Requested(u: PV, a: nat, entries: seq<NodePV>, i: nat, pvs: seq<PV>, env: Env) {
    a < |entries| && u in pvs && Meets(u, entries[a]) && !RemovedAmong(u.name, entries, i, a, pvs, env)
  }

  lemma RequestedLater(u: PV, a: nat, entries: seq<NodePV>, i: nat, pvs: seq<PV>, next: seq<PV>, env: Env)
    requires i < a < |entries| && Leaves(entries[i], i, pvs, next, env)
    ensures Requested(u, a, entries, i, pvs, env) <==> Requested(u, a, entries, i + 1, next, env)
  {
    RemovedLater(u.name, entries, i, a, pvs, next, env);
    RemovedHere(u.name, entries, i, pvs, env);
  }

  /** The event is a request sent by an entry from i up to m. */
  ghost predicate SentAmong(e: Event, entries: seq<NodePV>, i: nat, m: nat, pvs: seq<PV>, env: Env) {
    exists a: nat, u :: i <= a < m && Requested(u, a, entries, i, pvs, env) && e == PVDeleteSent(u, entries[a])
  }

  ghost predicate Requests(tail: seq<Event>, entries: seq<NodePV>, i: nat, m: nat, pvs: seq<PV>, env: Env) {
    forall e :: e in tail <==> SentAmong(e, entries, i, m, pvs, env)
  }

  ghost predicate SentAt(e: Event, entry: NodePV, pvs: seq<PV>) {
    exists u :: u in pvs && Meets(u, entry) && e == PVDeleteSent(u, entry)
  }

  lemma SentHere(e: Event, entries: seq<NodePV>, i: nat, m: nat, pvs: seq<PV>, env: Env)
    requires i < m <= |entries| && SentAt(e, entries[i], pvs)
    ensures SentAmong(e, entries, i, m, pvs, env)
  {
    var u :| u in pvs && Meets(u, entries[i]) && e == PVDeleteSent(u, entries[i]);
    assert Requested(u, i, entries, i, pvs, env);
  }

  lemma SentLater(e: Event, entries: seq<NodePV>, i: nat, m: nat, pvs: seq<PV>, next: seq<PV>, env: Env)
    requires i < m <= |entries| && Leaves(entries[i], i, pvs, next, env) && SentAmong(e, entries, i + 1, m, next, env)
    ensures SentAmong(e, entries, i, m, pvs, env)
  {
    var after := i + 1;
    var a: nat, u :| after <= a < m && Requested(u, a, entries, after, next, env) && e == PVDeleteSent(u, entries[a]);
    RequestedLater(u, a, entries, i, pvs, next, env);
  }

  lemma SentWhere(e: Event, entries: seq<NodePV>, i: nat, m: nat, pvs: seq<PV>, env: Env) returns (a: nat, u: PV)
    requires SentAmong(e, entries, i, m, pvs, env)
    ensures i <= a < m && Requested(u, a, entries, i, pvs, env) && e == PVDeleteSent(u, entries[a])
  {
    a, u :| i <= a < m && Requested(u, a, entries, i, pvs, env) && e == PVDeleteSent(u, entries[a]);
  }

  lemma SentByHere(e: Event, u: PV, entries: seq<NodePV>, i: nat, pvs: seq<PV>, env: Env)
    requires Requested(u, i, entries, i, pvs, env) && e == PVDeleteSent(u, entries[i])
    ensures SentAt(e, entries[i], pvs)
  {
  }

  lemma SentHereOrLater(e: Event, entries: seq<NodePV>, i: nat, after: nat, m: nat, pvs: seq<PV>, next: seq<PV>, env: Env) returns (here: bool)
    requires i < m <= |entries| && after == i + 1 && Leaves(entries[i], i, pvs, next, env) && SentAmong(e, entries, i, m, pvs, env)
    ensures here ==> SentAt(e, entries[i], pvs)
    ensures !here ==> SentAmong(e, entries, after, m, next, env)
  {
    var a, u := SentWhere(e, entries, i, m, pvs, env);
    here := a == i;
    if here {
      SentByHere(e, u, entries, i, pvs, env);
    } else {
      SentByLater(e, u, a, entries, i, after, m, pvs, next, env);
    }
  }

  lemma SentByLater(e: Event, u: PV, a: nat, entries: seq<NodePV>, i: nat, after: nat, m: nat, pvs: seq<PV>, next: seq<PV>, env: Env)
    requires after == i + 1 <= a < m <= |entries| && Leaves(entries[i], i, pvs, next, env)
    requires Requested(u, a, entries, i, pvs, env) && e == PVDeleteSent(u, entries[a])
    ensures SentAmong(e, entries, after, m, next, env)
  {
    RequestedLater(u, a, entries, i, pvs, next, env);
  }

  lemma RequestsAdd(first: seq<Event>, more: seq<Event>, entries: seq<NodePV>, i: nat, m: nat, pvs: seq<PV>, next: seq<PV>, env: Env)
    requires i < m <= |entries| && Leaves(entries[i], i, pvs, next, env)
    requires forall e :: e in first <==> SentAt(e, entries[i], pvs)
    requires Requests(more, entries, i + 1, m, next, env)
    ensures Requests(first + more, entries, i, m, pvs, env)
  {
    forall e ensures e in first + more <==> SentAmong(e, entries, i, m, pvs, env) {
      if SentAt(e, entries[i], pvs) {
        SentHere(e, entries, i, m, pvs, env);
      } else if SentAmong(e, entries, i + 1, m, next, env) {
        SentLater(e, entries, i, m, pvs, next, env);
      } else if SentAmong(e, entries, i, m, pvs, env) {
        var _ := SentHereOrLater(e, entries, i, i + 1, m, pvs, next, env);
      }
    }
  }

  /** The volumes left are those no entry from i up to m removed. */
  ghost predicate Survive(after: seq<PV>, entries: seq<NodePV>, i: nat, m: nat, pvs: seq<PV>, env: Env) {
    forall v :: v in after <==> v in pvs && !RemovedAmong(v.name, entries, i, m, pvs, env)
  }

  /** The sweep goes up to the first entry whose list fails. Each volume recorded and released when an
      entry meets it gets a delete request, and those volumes are gone whose request succeeds and
      that do not linger; no other. */
  lemma {:induction false} SweepOutcome(entries: seq<NodePV>, i: nat, cl: Cluster, pending: bool, env: Env) returns (m: nat, tail: seq<Event>)
    requires i <= |entries|
    ensures i <= m <= |entries| && (forall a :: i <= a < m ==> !env.fails(ListNodePVs(a))) && (m < |entries| ==> env.fails(ListNodePVs(m)))
    ensures Sweep(entries, i, cl, pending, env).SweepError? <==> m < |entries|
    ensures SweptTo(Sweep(entries, i, cl, pending, env).cl, entries, i, m, cl, tail, env)
    decreases |entries| - i
  {
    if i == |entries| || env.fails(ListNodePVs(i)) {
      m, tail := i, [];
      assert cl.journal + [] == cl.journal;
    } else {
      var next, still := SweepGoesOn(entries, i, cl, pending, env);
      var first := OneEntry(entries[i], i, cl, env);
      var more;
      m, more := SweepOutcome(entries, i + 1, next, still, env);
      tail := first + more;
      SweptOn(Sweep(entries, i + 1, next, still, env).cl, entries, i, m, cl, next, first, more, env);
    }
  }

  lemma SweepGoesOn(entries: seq<NodePV>, i: nat, cl: Cluster, pending: bool, env: Env) returns (next: Cluster, still: bool)
    requires i < |entries| && !env.fails(ListNodePVs(i))
    ensures next == SweepNode(NodePVs(cl.pvs, entries[i].node), 0, entries[i], i, cl, env)
    ensures Sweep(entries, i, cl, pending, env) == Sweep(entries, i + 1, next, still, env)
  {
    var vs := NodePVs(cl.pvs, entries[i].node);
    next, still := SweepNode(vs, 0, entries[i], i, cl, env), pending || NodePending(vs, entries[i]);
  }

  /** The cluster c after the entries from i up to m were swept. */
  ghost predicate SweptTo(c: Cluster, entries: seq<NodePV>, i: nat, m: nat, cl: Cluster, tail: seq<Event>, env: Env) {
    && c == cl.(pvs := c.pvs, journal := cl.journal + tail)
    && Survive(c.pvs, entries, i, m, cl.pvs, env)
    && Requests(tail, entries, i, m, cl.pvs, env)
  }

  lemma SweptOn(c: Cluster, entries: seq<NodePV>, i: nat, m: nat, cl: Cluster, next: Cluster, first: seq<Event>, more: seq<Event>, env: Env)
    requires i < m <= |entries| && SweptTo(c, entries, i + 1, m, next, more, env)
    requires next == cl.(pvs := next.pvs, journal := cl.journal + first) && Leaves(entries[i], i, cl.pvs, next.pvs, env)
    requires forall e :: e in first <==> SentAt(e, entries[i], cl.pvs)
    ensures SweptTo(c, entries, i, m, cl, first + more, env)
  {
    assert (cl.journal + first) + more == cl.journal + (first + more);
    RequestsAdd(first, more, entries, i, m, cl.pvs, next.pvs, env);
    SurvivalAdds(c.pvs, entries, i, m, cl.pvs, next.pvs, env);
  }

  lemma SurvivesThrough(v: PV, entries: seq<NodePV>, i: nat, m: nat, pvs: seq<PV>, next: seq<PV>, env: Env)
    requires i < m <= |entries| && Leaves(entries[i], i, pvs, next, env)
    ensures (v in next && !RemovedAmong(v.name, entries, i + 1, m, next, env)) <==>
            (v in pvs && !RemovedAmong(v.name, entries, i, m, pvs, env))
  {
    RemovedLater(v.name, entries, i, m, pvs, next, env);
    RemovedHere(v.name, entries, i, pvs, env);
  }

  lemma SurvivalAdds(after: seq<PV>, entries: seq<NodePV>, i: nat, m: nat, pvs: seq<PV>, next: seq<PV>, env: Env)
    requires i < m <= |entries| && Leaves(entries[i], i, pvs, next, env)
    requires Survive(after, entries, i + 1, m, next, env)
    ensures Survive(after, entries, i, m, pvs, env)
  {
    forall v: PV ensures v in after <==> v in pvs && !RemovedAmong(v.name, entries, i, m, pvs, env) {
      SurvivesThrough(v, entries, i, m, pvs, next, env);
    }
  }

  /** The volume wait: an error iff a list of volumes fails; it moves on iff all lists succeed, the
      recorded volumes are in place and enough OSD pods sit on bound claims; otherwise it waits. */
  lemma WaitForVolumesOutcome(last: Condition, st: Status, cl: Cluster, env: Env) returns (m: nat, tail: seq<Event>)
    requires last.kind == WaitForPersistenVolumeBound
    ensures m <= |st.nodeDevice| && (forall a :: 0 <= a < m ==> !env.fails(ListNodePVs(a)))
    ensures m < |st.nodeDevice| ==> env.fails(ListNodePVs(m))
    ensures var out := Branch(last, st, cl, env);
            var claim := exists c :: c in cl.pvcs && BoundAndLabelled(c);
            && out.Outcome? && out.st == st && SweptTo(out.cl, st.nodeDevice, 0, m, cl, tail, env)
            && if m < |st.nodeDevice| then out.move == Stay && out.res == ERROR
               else if && VolumesReady(st.nodeDevice, cl) && claim && !env.fails(ListClaims) && !env.fails(ListClaimPods)
                       && HowMany(cl.pods, cl.pvcs) >= |st.operationalOSDIDs| + |st.nodeDevice|
               then out.move == To(RestartStorageOperator) && out.res == AGAIN
               else out.move == Stay && out.res == Result(false, 15, false)
  {
    m, tail := SweepOutcome(st.nodeDevice, 0, cl, false, env);
    WaitDecides(st, cl, env, m);
    WaitResult(st, cl, env);
  }

  lemma WaitDecides(st: Status, cl: Cluster, env: Env, m: nat)
    requires m <= |st.nodeDevice| && (forall a :: 0 <= a < m ==> !env.fails(ListNodePVs(a)))
    requires m < |st.nodeDevice| ==> env.fails(ListNodePVs(m))
    ensures WaitForVolumes(st, cl, env).move == To(RestartStorageOperator) <==>
            && m == |st.nodeDevice| && VolumesReady(st.nodeDevice, cl)
            && (exists c :: c in cl.pvcs && BoundAndLabelled(c)) && !env.fails(ListClaims) && !env.fails(ListClaimPods)
            && HowMany(cl.pods, cl.pvcs) >= |st.operationalOSDIDs| + |st.nodeDevice|
  {
    var _ := VolumeWaitExactly(st, cl, env);
    CountClaimsExactly(cl, env);
  }

  lemma WaitResult(st: Status, cl: Cluster, env: Env)
    ensures var out, s := WaitForVolumes(st, cl, env), Sweep(st.nodeDevice, 0, cl, false, env);
            && out.Outcome? && out.st == st && out.cl == s.cl
            && (out.move == Stay || out.move == To(RestartStorageOperator))
            && (s.SweepError? ==> out.move == Stay)
            && out.res == (if s.SweepError? then ERROR else if out.move == Stay then Result(false, 15, false) else AGAIN)
  {
  }

  /******* Recording and scaling down failing OSDs *******/

  /** The deployments of the ID before the k-th deployment at zero, all others as they were. */
  ghost predicate ScaledUpTo(ds: seq<Deployment>, r: seq<Deployment>, id: string, k: nat) {
    && |r| == |ds|
    && forall j :: 0 <= j < |ds| ==> r[j] == if j < k && OfOSD(ds[j].labels, id) then ds[j].(replicas := 0) else ds[j]
  }

  /** The event notes that one of these deployments was scaled down. */
  ghost predicate NotesScaling(e: Event, ds: seq<Deployment>, id: string, k: nat) {
    exists j :: 0 <= j < k && j < |ds| && OfOSD(ds[j].labels, id) && e == Scaled(ds[j].name, id)
  }

  /** Updates go in turn up to the k-th deployment, whose update fails if there is one. */
  ghost predicate StopsScaling(ds: seq<Deployment>, id: string, i: nat, env: Env, k: nat) {
    && k <= |ds| && (forall j :: 0 <= j < k && OfOSD(ds[j].labels, id) ==> !env.fails(UpdateDeployment(i, ds[j].name)))
    && (k < |ds| ==> OfOSD(ds[k].labels, id) && env.fails(UpdateDeployment(i, ds[k].name)))
  }

  lemma {:induction false} ScaleDownOutcome(ds: seq<Deployment>, id: string, i: nat, env: Env) returns (k: nat)
    ensures StopsScaling(ds, id, i, env, k)
    ensures ScaleDown(ds, id, i, env).ok <==> k == |ds|
    ensures ScaledUpTo(ds, ScaleDown(ds, id, i, env).deployments, id, k)
  {
    k := 0;
    if ds != [] && !(OfOSD(ds[0].labels, id) && env.fails(UpdateDeployment(i, ds[0].name))) {
      var d, rest := ds[0], ds[1..];
      var m := ScaleDownOutcome(rest, id, i, env);
      k := m + 1;
      assert forall j :: 0 <= j < |rest| ==> rest[j] == ds[j + 1];
      ScaledFurther(ds, ScaleDown(rest, id, i, env).deployments, id, m);
    }
  }

  lemma ScaledFurther(ds: seq<Deployment>, r: seq<Deployment>, id: string, m: nat)
    requires ds != [] && ScaledUpTo(ds[1..], r, id, m)
    ensures ScaledUpTo(ds, [if OfOSD(ds[0].labels, id) then ds[0].(replicas := 0) else ds[0]] + r, id, m + 1)
  {
  }

  lemma {:induction false} ScaleDownNotes(ds: seq<Deployment>, id: string, i: nat, env: Env, k: nat)
    requires StopsScaling(ds, id, i, env, k)
    ensures forall e :: e in ScaleDown(ds, id, i, env).events <==> NotesScaling(e, ds, id, k)
  {
    if k > 0 {
      var d, rest := ds[0], ds[1..];
      assert forall j :: 0 <= j < |rest| ==> rest[j] == ds[j + 1];
      ScaleDownNotes(rest, id, i, env, k - 1);
      forall e ensures NotesScaling(e, ds, id, k) <==> (OfOSD(d.labels, id) && e == Scaled(d.name, id)) || NotesScaling(e, rest, id, k - 1) {
        NotesFurther(e, ds, id, k - 1);
      }
    }
  }

  lemma NotesFurther(e: Event, ds: seq<Deployment>, id: string, m: nat)
    requires ds != []
    ensures NotesScaling(e, ds, id, m + 1) <==>
            (OfOSD(ds[0].labels, id) && e == Scaled(ds[0].name, id)) || NotesScaling(e, ds[1..], id, m)
  {
    var rest := ds[1..];
    if j :| 0 <= j < m + 1 && j < |ds| && OfOSD(ds[j].labels, id) && e == Scaled(ds[j].name, id) {
      assert j > 0 ==> rest[j - 1] == ds[j];
    }
    if j :| 0 <= j < m && j < |rest| && OfOSD(rest[j].labels, id) && e == Scaled(rest[j].name, id) {
      assert ds[j + 1] == rest[j];
    }
  }

  /** The deployment serves the OSD of a pod from lo up to hi. */
  ghost predicate ServesOne(d: Deployment, pods: seq<Pod>, lo: nat, hi: nat) {
    exists a :: lo <= a < hi && a < |pods| && OfOSD(d.labels, Get(pods[a].labels, OsdName))
  }

  /** At zero are the deployments of the pods before the k-th, and those of the k-th before the m-th
      deployment; all others are as they were. */
  ghost predicate DownTo(ds: seq<Deployment>, r: seq<Deployment>, pods: seq<Pod>, i: nat, k: nat, m: nat) {
    && |r| == |ds|
    && forall j :: 0 <= j < |ds| ==>
         r[j] == if ServesOne(ds[j], pods, i, k) || (j < m && ServesOne(ds[j], pods, k, k + 1)) then ds[j].(replicas := 0) else ds[j]
  }

  ghost predicate NotesDown(e: Event, ds: seq<Deployment>, pods: seq<Pod>, i: nat, k: nat, m: nat) {
    exists a, b :: i <= a <= k && a < |pods| && 0 <= b < |ds| && (a < k || b < m)
      && OfOSD(ds[b].labels, Get(pods[a].labels, OsdName)) && e == Scaled(ds[b].name, Get(pods[a].labels, OsdName))
  }

  /** What the loop over the failing pods did up to the k-th pod and, at it, the m-th deployment. */
  ghost predicate HandledTo(c: Cluster, cl: Cluster, pods: seq<Pod>, i: nat, k: nat, m: nat, tail: seq<Event>) {
    && c == cl.(deployments := c.deployments, journal := cl.journal + tail)
    && DownTo(cl.deployments, c.deployments, pods, i, k, m)
    && forall e :: e in tail <==> NotesDown(e, cl.deployments, pods, i, k, m)
  }

  /** Where the loop stops at the k-th pod: nowhere, if it cannot be located or its deployments not
      listed; at the m-th deployment, if that update fails. */
  ghost predicate StopsAt(pods: seq<Pod>, k: nat, m: nat, cl: Cluster, env: Env) {
    k < |pods| ==>
      && !Passes(pods[k], k, cl, env)
      && if Resolves(pods[k], cl) && !env.fails(GetPVC(k)) && !env.fails(GetPV(k)) && !env.fails(ListDeployments(k)) then
           var id, ds := Get(pods[k].labels, OsdName), cl.deployments;
           && m < |ds| && OfOSD(ds[m].labels, id) && env.fails(UpdateDeployment(k, ds[m].name))
           && forall j :: 0 <= j < m && OfOSD(ds[j].labels, id) ==> !env.fails(UpdateDeployment(k, ds[j].name))
         else m == 0
  }

  lemma DownFirst(ds: seq<Deployment>, s: Scaling, pods: seq<Pod>, i: nat, m: nat)
    requires i < |pods| && ScaledUpTo(ds, s.deployments, Get(pods[i].labels, OsdName), m)
    requires forall e :: e in s.events <==> NotesScaling(e, ds, Get(pods[i].labels, OsdName), m)
    ensures DownTo(ds, s.deployments, pods, i, i, m)
    ensures forall e :: e in s.events <==> NotesDown(e, ds, pods, i, i, m)
  {
    assert forall d: Deployment :: ServesOne(d, pods, i, i + 1) <==> OfOSD(d.labels, Get(pods[i].labels, OsdName));
    forall e ensures NotesScaling(e, ds, Get(pods[i].labels, OsdName), m) <==> NotesDown(e, ds, pods, i, i, m) {
    }
  }

  lemma DownNowhere(ds: seq<Deployment>, pods: seq<Pod>, i: nat)
    ensures DownTo(ds, ds, pods, i, i, 0)
    ensures forall e :: !NotesDown(e, ds, pods, i, i, 0)
  {
  }

  lemma DownFurther(ds: seq<Deployment>, next: seq<Deployment>, r: seq<Deployment>, pods: seq<Pod>, i: nat, k: nat, m: nat)
    requires i < k && i < |pods| && ScaledUpTo(ds, next, Get(pods[i].labels, OsdName), |ds|)
    requires DownTo(next, r, pods, i + 1, k, m)
    ensures DownTo(ds, r, pods, i, k, m)
  {
    forall j | 0 <= j < |ds|
      ensures ServesOne(ds[j], pods, i, k) <==> OfOSD(ds[j].labels, Get(pods[i].labels, OsdName)) || ServesOne(next[j], pods, i + 1, k)
      ensures ServesOne(ds[j], pods, k, k + 1) <==> ServesOne(next[j], pods, k, k + 1)
    {
      OneMoreServed(ds[j], next[j], pods, i, k);
    }
  }

  lemma OneMoreServed(d: Deployment, n: Deployment, pods: seq<Pod>, i: nat, k: nat)
    requires i < k && i < |pods| && n.labels == d.labels
    ensures ServesOne(d, pods, i, k) <==> OfOSD(d.labels, Get(pods[i].labels, OsdName)) || ServesOne(n, pods, i + 1, k)
    ensures ServesOne(d, pods, k, k + 1) <==> ServesOne(n, pods, k, k + 1)
  {
  }

  lemma NotesDownFurther(e: Event, ds: seq<Deployment>, next: seq<Deployment>, pods: seq<Pod>, i: nat, k: nat, m: nat)
    requires i < k && i < |pods| && ScaledUpTo(ds, next, Get(pods[i].labels, OsdName), |ds|)
    ensures NotesDown(e, ds, pods, i, k, m) <==>
            NotesScaling(e, ds, Get(pods[i].labels, OsdName), |ds|) || NotesDown(e, next, pods, i + 1, k, m)
  {
    if NotesDown(e, ds, pods, i, k, m) {
      NotedBefore(e, ds, next, pods, i, k, m);
    }
    if NotesScaling(e, ds, Get(pods[i].labels, OsdName), |ds|) || NotesDown(e, next, pods, i + 1, k, m) {
      NotedAfter(e, ds, next, pods, i, i + 1, k, m);
    }
  }

  lemma NotedBefore(e: Event, ds: seq<Deployment>, next: seq<Deployment>, pods: seq<Pod>, i: nat, k: nat, m: nat)
    requires i < k && i < |pods| && ScaledUpTo(ds, next, Get(pods[i].labels, OsdName), |ds|) && NotesDown(e, ds, pods, i, k, m)
    ensures NotesScaling(e, ds, Get(pods[i].labels, OsdName), |ds|) || NotesDown(e, next, pods, i + 1, k, m)
  {
    var a, b :| i <= a <= k && a < |pods| && 0 <= b < |ds| && (a < k || b < m)
      && OfOSD(ds[b].labels, Get(pods[a].labels, OsdName)) && e == Scaled(ds[b].name, Get(pods[a].labels, OsdName));
    assert OfOSD(next[b].labels, Get(pods[a].labels, OsdName)) && next[b].name == ds[b].name;
  }

  lemma NotedAfter(e: Event, ds: seq<Deployment>, next: seq<Deployment>, pods: seq<Pod>, i: nat, after: nat, k: nat, m: nat)
    requires i < k && i < |pods| && after == i + 1 && ScaledUpTo(ds, next, Get(pods[i].labels, OsdName), |ds|)
    requires NotesScaling(e, ds, Get(pods[i].labels, OsdName), |ds|) || NotesDown(e, next, pods, after, k, m)
    ensures NotesDown(e, ds, pods, i, k, m)
  {
    if NotesDown(e, next, pods, after, k, m) {
      var a, b :| after <= a <= k && a < |pods| && 0 <= b < |next| && (a < k || b < m)
        && OfOSD(next[b].labels, Get(pods[a].labels, OsdName)) && e == Scaled(next[b].name, Get(pods[a].labels, OsdName));
      assert OfOSD(ds[b].labels, Get(pods[a].labels, OsdName)) && next[b].name == ds[b].name;
    } else {
      var id := Get(pods[i].labels, OsdName);
      var j :| 0 <= j < |ds| && OfOSD(ds[j].labels, id) && e == Scaled(ds[j].name, id);
      assert i <= i <= k && (i < k || j < m);
    }
  }

  /** The deployments with every replica count forgotten decide where the loop stops. */
  lemma StopsAtStill(pods: seq<Pod>, k: nat, m: nat, cl: Cluster, next: Cluster, id: string, env: Env)
    requires next.pvcs == cl.pvcs && next.pvs == cl.pvs && ScaledUpTo(cl.deployments, next.deployments, id, |cl.deployments|)
    requires StopsAt(pods, k, m, next, env)
    ensures StopsAt(pods, k, m, cl, env)
  {
    if k < |pods| {
      PassesUnscaled(pods[k], k, cl, next, id, env);
      assert forall j :: 0 <= j < |cl.deployments| ==>
        next.deployments[j].labels == cl.deployments[j].labels && next.deployments[j].name == cl.deployments[j].name;
    }
  }

  lemma PassesUnscaled(p: Pod, j: nat, cl: Cluster, next: Cluster, id: string, env: Env)
    requires next.pvcs == cl.pvcs && next.pvs == cl.pvs && ScaledUpTo(cl.deployments, next.deployments, id, |cl.deployments|)
    ensures Passes(p, j, next, env) <==> Passes(p, j, cl, env)
  {
    var own := Get(p.labels, OsdName);
    UpdatesAlike(cl.deployments, next.deployments, own, j, env);
    UpdatesAlike(next.deployments, cl.deployments, own, j, env);
  }

  lemma UpdatesAlike(a: seq<Deployment>, b: seq<Deployment>, own: string, j: nat, env: Env)
    requires |a| == |b| && forall x :: 0 <= x < |a| ==> a[x].labels == b[x].labels && a[x].name == b[x].name
    ensures (forall d :: d in a && Carries(d.labels, own) ==> !env.fails(UpdateDeployment(j, d.name))) ==>
            forall d :: d in b && Carries(d.labels, own) ==> !env.fails(UpdateDeployment(j, d.name))
  {
    forall d | d in b && Carries(d.labels, own) ensures exists o :: o in a && Carries(o.labels, own) && o.name == d.name {
      var x :| 0 <= x < |b| && b[x] == d;
      assert a[x] in a;
    }
  }

  lemma HandledOn(c: Cluster, cl: Cluster, next: Cluster, s: Scaling, pods: seq<Pod>, i: nat, k: nat, m: nat, more: seq<Event>)
    requires i < k && i < |pods| && HandledTo(c, next, pods, i + 1, k, m, more)
    requires next == Log(cl.(deployments := s.deployments), s.events)
    requires ScaledUpTo(cl.deployments, s.deployments, Get(pods[i].labels, OsdName), |cl.deployments|)
    requires forall e :: e in s.events <==> NotesScaling(e, cl.deployments, Get(pods[i].labels, OsdName), |cl.deployments|)
    ensures HandledTo(c, cl, pods, i, k, m, s.events + more)
  {
    assert (cl.journal + s.events) + more == cl.journal + (s.events + more);
    DownFurther(cl.deployments, next.deployments, c.deployments, pods, i, k, m);
    forall e ensures e in s.events + more <==> NotesDown(e, cl.deployments, pods, i, k, m) {
      NotesDownFurther(e, cl.deployments, next.deployments, pods, i, k, m);
    }
  }

  /** The loop handles every pod before the k-th in full, and stops at the k-th. */
  lemma {:induction false} HandleOutcome(pods: seq<Pod>, i: nat, cl: Cluster, env: Env) returns (k: nat, m: nat, tail: seq<Event>)
    requires i <= |pods|
    ensures i <= k <= |pods| && (forall j :: i <= j < k ==> Passes(pods[j], j, cl, env)) && StopsAt(pods, k, m, cl, env)
    ensures HandledTo(Handle(pods, i, cl, env).cl, cl, pods, i, k, m, tail)
    decreases |pods| - i
  {
    k, m, tail := i, 0, [];
    assert cl.journal + [] == cl.journal;
    DownNowhere(cl.deployments, pods, i);
    if i < |pods| {
      var id := Get(pods[i].labels, OsdName);
      var s := ScaleDown(cl.deployments, id, i, env);
      var next := Log(cl.(deployments := s.deployments), s.events);
      var b := ScaleDownOutcome(cl.deployments, id, i, env);
      ScaleDownNotes(cl.deployments, id, i, env, b);
      PassesIff(pods[i], i, b, cl, env);
      if Passes(pods[i], i, cl, env) {
        var more;
        k, m, more := HandleOutcome(pods, i + 1, next, env);
        tail := s.events + more;
        HandleContinues(pods, i, cl, next, env);
        HandledOn(Handle(pods, i + 1, next, env).cl, cl, next, s, pods, i, k, m, more);
        StopsAtStill(pods, k, m, cl, next, id, env);
        forall j | i < j < k ensures Passes(pods[j], j, cl, env) {
          PassesUnscaled(pods[j], j, cl, next, id, env);
        }
      } else {
        HandleStops(pods, i, cl, next, env);
        if Resolves(pods[i], cl) && !env.fails(GetPVC(i)) && !env.fails(GetPV(i)) && !env.fails(ListDeployments(i)) {
          m, tail := b, s.events;
          DownFirst(cl.deployments, s, pods, i, b);
        }
      }
    }
  }

  lemma PassesIff(p: Pod, i: nat, b: nat, cl: Cluster, env: Env)
    requires StopsScaling(cl.deployments, Get(p.labels, OsdName), i, env, b)
    ensures Passes(p, i, cl, env) <==>
            && Resolves(p, cl) && !env.fails(GetPVC(i)) && !env.fails(GetPV(i)) && !env.fails(ListDeployments(i))
            && b == |cl.deployments|
  {
    assert b < |cl.deployments| ==> cl.deployments[b] in cl.deployments;
  }

  lemma HandleContinues(pods: seq<Pod>, i: nat, cl: Cluster, next: Cluster, env: Env)
    requires i < |pods| && Passes(pods[i], i, cl, env)
    requires next == (var s := ScaleDown(cl.deployments, Get(pods[i].labels, OsdName), i, env);
                      Log(cl.(deployments := s.deployments), s.events))
    ensures Handle(pods, i, cl, env).cl == Handle(pods, i + 1, next, env).cl
  {
    ScaleDownSucceedsIff(cl.deployments, Get(pods[i].labels, OsdName), i, env);
  }

  lemma HandleStops(pods: seq<Pod>, i: nat, cl: Cluster, next: Cluster, env: Env)
    requires i < |pods| && !Passes(pods[i], i, cl, env)
    requires next == (var s := ScaleDown(cl.deployments, Get(pods[i].labels, OsdName), i, env);
                      Log(cl.(deployments := s.deployments), s.events))
    ensures Handle(pods, i, cl, env).cl ==
            if Resolves(pods[i], cl) && !env.fails(GetPVC(i)) && !env.fails(GetPV(i)) && !env.fails(ListDeployments(i)) then next else cl
  {
    ScaleDownSucceedsIff(cl.deployments, Get(pods[i].labels, OsdName), i, env);
  }

  /** The managing pass: with no failing pod it goes straight to the restart; otherwise it notes the
      operational IDs, if there are any, and handles the failing pods up to the k-th. Past the last
      it records them all and moves on; at one without the claim label it panics. */
  lemma ManagingOutcome(last: Condition, st: Status, cl: Cluster, env: Env) returns (k: nat, m: nat, tail: seq<Event>)
    requires last.kind == ManageCrashLoopBackOffPods
    ensures var failing := Failing(ListPods(cl.pods, OSDPods));
            && k <= |failing| && (forall j :: 0 <= j < k ==> Passes(failing[j], j, cl, env)) && StopsAt(failing, k, m, cl, env)
    ensures var out, osds := Branch(last, st, cl, env), ListPods(cl.pods, OSDPods);
            var failing, operational := Failing(osds), Operational(osds);
            var marked := st.(operationalOSDIDs := if operational == [] then st.operationalOSDIDs else OsdNames(operational),
                              crashLoopBackOffPods := true);
            if env.fails(ListOSDPods) then out == Outcome(st, cl, Stay, ERROR)
            else if failing == [] then out == Outcome(st, cl, To(RestartStorageOperator), AGAIN)
            else
              && HandledTo(out.cl, cl, failing, 0, k, m, tail)
              && if k == |failing| then
                   && out.Outcome? && out.move == To(Kind.ForceDeleteRookCephOSDPods) && out.res == Result(false, 15, false)
                   && out.st == marked.(nodeDevice := out.st.nodeDevice) && DescribesEach(out.st.nodeDevice, failing, cl)
                 else if PvcName !in failing[k].labels then out == Panic(out.cl)
                 else out == Outcome(marked, out.cl, Stay, ERROR)
  {
    var failing := Failing(ListPods(cl.pods, OSDPods));
    k, m, tail := HandleOutcome(failing, 0, cl, env);
    HowHandled(failing, k, cl, env);
  }

  lemma HowHandled(pods: seq<Pod>, k: nat, cl: Cluster, env: Env)
    requires k <= |pods| && (forall j :: 0 <= j < k ==> Passes(pods[j], j, cl, env)) && (k < |pods| ==> !Passes(pods[k], k, cl, env))
    ensures var h := Handle(pods, 0, cl, env);
            if k == |pods| then h.Handled? && DescribesEach(h.entries, pods, cl)
            else if PvcName !in pods[k].labels then h.HandlePanic? else h.HandleError?
  {
    HandleExactly(pods, 0, cl, env);
    assert pods[0..] == pods;
    if k == |pods| {
      HandleDescribes(pods, 0, cl, env);
    } else if PvcName !in pods[k].labels {
      assert PanicsOn(pods, 0, k, cl, env);
    } else {
      assert !SomePanics(pods, 0, cl, env);
    }
  }

  /******* The switch and the outer controller *******/

  lemma UnknownOutcome(last: Condition, st: Status, cl: Cluster, env: Env)
    requires last.kind.Unknown?
    ensures Branch(last, st, cl, env) == Outcome(st, cl, Finish, DONE)
  {
  }

  /** Half an hour in one condition ends the recovery before anything else is done. */
  lemma TimeoutOutcome(st: Status, cl: Cluster, env: Env)
    requires st.conditions != [] && env.now > st.conditions[|st.conditions| - 1].lastTransition + 1800
    ensures Inner(st, cl, env) == Outcome(st, cl, GiveUp, DONE)
  {
  }

  lemma InTimeOutcome(st: Status, cl: Cluster, env: Env, last: Condition)
    requires st.conditions != [] && last == st.conditions[|st.conditions| - 1] && env.now <= last.lastTransition + 1800
    ensures Inner(st, cl, env) == Branch(last, st, cl, env)
  {
  }

  /** What a move does to the status. */
  lemma SettleOutcome(st: Status, move: Move, stamp: Time)
    requires st.conditions != []
    ensures var n, s := |st.conditions|, Settle(st, move, stamp);
            match move
            case Stay => s == st
            case Finish => s == st.(phase := Completed, completionTime := Some(stamp))
            case GiveUp => s == st.(phase := Failed)
            case To(next) =>
              && s == st.(conditions := s.conditions) && |s.conditions| == n + 1
              && s.conditions[n] == Condition(next, stamp, true)
              && s.conditions[n - 1] == Condition(st.conditions[n - 1].kind, st.conditions[n - 1].lastTransition, false)
              && forall i :: 0 <= i < n - 1 ==> s.conditions[i] == st.conditions[i]
  {
  }

  /** A request that finds an unfinished resource starts it if need be, runs the inner machine and
      writes the status back, whatever the branch returned; a failed or rejected write is an error
      too. Any other request changes nothing. */
  lemma RequestOutcome(store: Store, st: Status, cl: Cluster, env: Env)
    ensures var p := Request(store, st, cl, env);
            var s0 := if st.startTime.Some? then st
                      else st.(startTime := Some(env.now), phase := Running,
                               conditions := st.conditions + [Condition(EnableCephToolsPod, env.now, true)]);
            if env.fetch == FetchFailed then p == Pass(st, cl, ERROR, false, false)
            else if env.fetch != Found || st.phase == Failed || st.phase == Completed then p == Pass(st, cl, DONE, false, false)
            else match Inner(s0, cl, env)
              case Panic(c) => p == Pass(st, c, ERROR, true, true)
              case Outcome(mid, c, move, res) =>
                var end := Settle(mid, move, env.stamp);
                var rejected := store == UniqueTypes && exists i, j :: 0 <= i < j < |end.conditions| && end.conditions[i].kind == end.conditions[j].kind;
                if env.fails(WriteStatus) || rejected then p == Pass(st, c, Result(res.requeue, res.after, true), false, true)
                else p == Pass(end, c, res, false, false)
  {
  }
}
