/** The contract of every branch of the switch, whatever calls fail, as one step relation. The
    invariants over runs are proved from this relation alone. */
module Branches {
  import opened Types
  import opened Pods
  import opened Effects
  import opened Workflow
  import opened Contract
  import JobLogs

  /** A live job pod that succeeded, with a log that says so. */
  ghost predicate Accepted(e: Event) {
    e.LogsRead? && e.pod.deletion.None? && e.pod.phase == PodSucceeded && JobLogs.Accepts(e.text)
  }

  /** The pass observed a finished removal. */
  ghost predicate SawRemoval(events: seq<Event>) {
    exists e :: e in events && Accepted(e)
  }

  /** Which events a branch can cause, and what holds of them. */
  ghost predicate EventAllowed(e: Event, k: Kind, st: Status, cl: Cluster) {
    match e
    case ToolsSet(v) => (k == EnableCephToolsPod && v && !ToolsOn(cl)) || (k == DisableCephTools && !v && !st.keepCephToolsPod)
    case Scaled(_, id) => k == ManageCrashLoopBackOffPods && id in OsdNames(Failing(ListPods(cl.pods, OSDPods)))
    case ForceDeleted(ids) => k == ForceDeleteRookCephOSDPods && ids == OSDIDs(st.nodeDevice)
    case JobCleared =>
      k == ProcessOCSRemovalTemplate || k == CleanupOSDRemovalJob || k == RetryForceCleanupOSDRemovalJob
    case JobCreated(job, pods, deployments) =>
      && (k == ProcessOCSRemovalTemplate || k == CleanupOSDRemovalJob)
      && job.ids == OSDIDs(st.nodeDevice)
      && KeepsAbsence(cl.pods, pods) && deployments == cl.deployments
    case LogsRead(pod, _) =>
      && (k == CleanupOSDRemovalJob || k == RetryForceCleanupOSDRemovalJob)
      && pod in cl.pods && pod.deletion.None? && pod.phase == PodSucceeded
    case PVDeleteSent(pv, entry) =>
      && k == WaitForPersistenVolumeBound && entry in st.nodeDevice
      && pv in cl.pvs && IsReleased(pv, entry)
      && Hostname in pv.labels && pv.labels[Hostname] == entry.node
    case OperatorDeleted => k == RestartStorageOperator && (st.pendingPods || st.crashLoopBackOffPods)
    case HealthRead(_) => k == StorageClusterFitnessCheck
  }

  /** What any branch leaves of the cluster. */
  ghost predicate ClusterStep(k: Kind, st: Status, cl: Cluster, c: Cluster, tail: seq<Event>) {
    && c.journal == cl.journal + tail
    && (forall e :: e in tail ==> EventAllowed(e, k, st, cl))
    && c.before415 == cl.before415
    && (k != EnableCephToolsPod && k != DisableCephTools ==>
         c.ocsInitTools == cl.ocsInitTools && c.storageClusterTools == cl.storageClusterTools)
    && KeepsAbsence(cl.pods, c.pods)
    && KeepsZero(cl.deployments, c.deployments)
    && (k != ManageCrashLoopBackOffPods ==> c.deployments == cl.deployments)
    && (k != WaitForPersistenVolumeBound ==> c.pvs == cl.pvs)
  }

  /** Which fields of the status a branch can change besides its position. */
  ghost predicate StatusStep(k: Kind, st: Status, s: Status, move: Move, cl: Cluster) {
    match k
    case EnableCephToolsPod =>
      s == st.(keepCephToolsPod := st.keepCephToolsPod || (move.To? && ToolsOn(cl)))
    case LabelNodesWithPendingPods =>
      s == st.(pendingPods := s.pendingPods) && (st.pendingPods ==> s.pendingPods)
    case ManageCrashLoopBackOffPods =>
      if move == To(Kind.ForceDeleteRookCephOSDPods) then
        && s == st.(crashLoopBackOffPods := true, nodeDevice := s.nodeDevice, operationalOSDIDs := s.operationalOSDIDs)
        && s.nodeDevice != []
      else
        && s == st.(crashLoopBackOffPods := s.crashLoopBackOffPods, operationalOSDIDs := s.operationalOSDIDs)
        && (st.crashLoopBackOffPods ==> s.crashLoopBackOffPods)
    case ProcessOCSRemovalTemplate => s == st.(forcedOSDRemoval := s.forcedOSDRemoval)
    case CleanupOSDRemovalJob =>
      s == st.(forcedOSDRemoval := st.forcedOSDRemoval || move == To(RetryForceCleanupOSDRemovalJob))
    case _ => s == st
  }

  /** Where a branch can go. */
  ghost predicate MoveStep(k: Kind, st: Status, move: Move) {
    && (move.To? ==> Edge(k, move.next))
    && (move == Finish ==> k == DisableCephTools || k.Unknown?)
    && (move == GiveUp ==> k == CleanupOSDRemovalJob || k == RetryForceCleanupOSDRemovalJob)
    && (k == ForceDeleteRookCephOSDPods && move == To(RestartStorageOperator) ==> !st.crashLoopBackOffPods)
  }

  ghost predicate IsCreation(e: Event, ids: seq<string>, force: bool) {
    e.JobCreated? && e.job == Job(ids, force)
  }

  ghost predicate NoCreation(tail: seq<Event>) {
    forall e :: e in tail ==> !e.JobCreated?
  }

  /** A removal job is created right after the old one was cleared, at the end of the pass, or not
      at all. */
  ghost predicate CreatesOnlyLast(tail: seq<Event>) {
    || NoCreation(tail)
    || (|tail| == 2 && tail[0] == JobCleared && tail[1].JobCreated?)
  }

  /** What must have happened for a branch to move on. */
  ghost predicate Earned(k: Kind, st: Status, s: Status, cl: Cluster, c: Cluster, tail: seq<Event>, move: Move, env: Env) {
    var ids := OSDIDs(s.nodeDevice);
    && CreatesOnlyLast(tail)
    && match k
       case EnableCephToolsPod =>
         if move.To? then ToolsOn(c) && (ToolsOn(cl) ==> c == cl) && (!ToolsOn(cl) ==> tail == [ToolsSet(true)])
         else c == cl
       case ManageCrashLoopBackOffPods =>
         move == To(Kind.ForceDeleteRookCephOSDPods) ==>
           && ids == OsdNames(Failing(ListPods(cl.pods, OSDPods)))
           && c.deployments == Zeroed(cl.deployments, ids)
           && Drained(c.deployments, ids)
           && AllScaled(cl.deployments, ids, tail)
           && s.operationalOSDIDs ==
                (var operational := Operational(ListPods(cl.pods, OSDPods));
                 if operational == [] then st.operationalOSDIDs else OsdNames(operational))
       case ForceDeleteRookCephOSDPods =>
         && (move == To(ProcessOCSRemovalTemplate) ==> NoOSDPods(c.pods, ids))
         && (move == To(Kind.ForceDeleteRookCephOSDPods) ==> !NoOSDPods(cl.pods, ids))
         && (move == To(Kind.ForceDeleteRookCephOSDPods) && NoneHeld(cl.pods, ids, env) ==> NoOSDPods(c.pods, ids))
       case ProcessOCSRemovalTemplate =>
         if move.To? then tail != [] && IsCreation(tail[|tail| - 1], ids, s.forcedOSDRemoval)
         else NoCreation(tail)
       case CleanupOSDRemovalJob =>
         if move == To(RetryForceCleanupOSDRemovalJob) then tail != [] && IsCreation(tail[|tail| - 1], ids, true)
         else NoCreation(tail) && (move.To? ==> SawRemoval(tail))
       case RetryForceCleanupOSDRemovalJob => move.To? ==> SawRemoval(tail)
       case RestartStorageOperator =>
         move.To? ==> ((st.pendingPods || st.crashLoopBackOffPods) <==> OperatorDeleted in tail)
       case StorageClusterFitnessCheck => move.To? ==> HealthRead(HEALTH_OK) in tail
       case DisableCephTools =>
         if move != Finish || st.keepCephToolsPod then c == cl else !ToolsOn(c) && tail == [ToolsSet(false)]
       case _ => true
  }

  /** The step relation of the workflow. */
  ghost predicate StepContract(k: Kind, st: Status, cl: Cluster, out: Outcome, tail: seq<Event>, env: Env) {
    && ClusterStep(k, st, cl, out.cl, tail)
    && (out.Panic? ==> k == ManageCrashLoopBackOffPods || k == ForceDeleteRookCephOSDPods)
    && (out.Panic? ==> NoCreation(tail))
    && (out.Outcome? ==>
         && MoveStep(k, st, out.move)
         && StatusStep(k, st, out.st, out.move, cl)
         && Earned(k, st, out.st, cl, out.cl, tail, out.move, env))
  }

  /******* Helpers *******/

  /** A branch that leaves the cluster alone, or only adds one event to the journal. */
  lemma Quiet(k: Kind, st: Status, cl: Cluster, c: Cluster, tail: seq<Event>)
    requires c == cl.(journal := cl.journal + tail)
    requires forall e :: e in tail ==> EventAllowed(e, k, st, cl)
    ensures ClusterStep(k, st, cl, c, tail)
  {
  }

  lemma ClearJobContract(k: Kind, st: Status, cl: Cluster, env: Env) returns (tail: seq<Event>)
    requires k == ProcessOCSRemovalTemplate || k == CleanupOSDRemovalJob || k == RetryForceCleanupOSDRemovalJob
    ensures var a := ClearJob(cl, env);
            && ClusterStep(k, st, cl, a.cl, tail)
            && tail == if a.ok then [JobCleared] else []
  {
    tail := if ClearJob(cl, env).ok then [JobCleared] else [];
    DeletePodsKeepsAbsence(cl.pods, JobPods, env);
    assert cl.journal + [] == cl.journal;
  }

  /** A cleared job followed by a submitted one. */
  lemma ResubmitContract(k: Kind, st: Status, cl: Cluster, force: bool, env: Env, c: Cluster) returns (tail: seq<Event>)
    requires k == ProcessOCSRemovalTemplate || k == CleanupOSDRemovalJob
    requires ClearJob(cl, env).ok
    requires SubmitJob(OSDIDs(st.nodeDevice), force, ClearJob(cl, env).cl, env) == Some(c)
    ensures ClusterStep(k, st, cl, c, tail)
    ensures |tail| == 2 && tail[0] == JobCleared && IsCreation(tail[1], OSDIDs(st.nodeDevice), force)
  {
    var a := ClearJob(cl, env).cl;
    var first := ClearJobContract(k, st, cl, env);
    tail := first + [JobCreated(Job(OSDIDs(st.nodeDevice), force), a.pods, a.deployments)];
    assert (cl.journal + first) + [tail[1]] == cl.journal + tail;
  }

  /******* The volume loop *******/

  ghost predicate OnlySweeps(tail: seq<Event>, entries: seq<NodePV>, cl: Cluster) {
    forall e :: e in tail ==>
      && e.PVDeleteSent? && e.entry in entries
      && e.pv in cl.pvs && IsReleased(e.pv, e.entry)
      && Hostname in e.pv.labels && e.pv.labels[Hostname] == e.entry.node
  }

  /** Volumes only go, and only by a delete request for their name. */
  ghost predicate PVsGoBy(before: seq<PV>, after: seq<PV>, tail: seq<Event>) {
    && (forall v :: v in after ==> v in before)
    && (forall v :: v in before && v !in after ==> exists e :: e in tail && e.PVDeleteSent? && e.pv.name == v.name)
  }

  /** A stretch of the loop: delete requests for these entries, and the volumes they removed. The
      requests are for volumes that were there when the loop began. */
  ghost predicate SweepEffect(origin: Cluster, before: Cluster, after: Cluster, tail: seq<Event>, entries: seq<NodePV>) {
    && after == before.(pvs := after.pvs, journal := before.journal + tail)
    && OnlySweeps(tail, entries, origin)
    && PVsGoBy(before.pvs, after.pvs, tail)
  }

  lemma SweepNothing(origin: Cluster, cl: Cluster, entries: seq<NodePV>)
    ensures SweepEffect(origin, cl, cl, [], entries)
  {
    assert cl.journal + [] == cl.journal;
  }

  lemma SweepOne(origin: Cluster, v: PV, entry: NodePV, i: nat, cl: Cluster, env: Env)
    requires v in origin.pvs && IsReleased(v, entry) && Hostname in v.labels && v.labels[Hostname] == entry.node
    ensures SweepEffect(origin, cl, SendPVDelete(v, entry, i, cl, env), [PVDeleteSent(v, entry)], [entry])
  {
    var e := PVDeleteSent(v, entry);
    assert e in [e] && entry in [entry];
  }

  lemma SweepTwice(origin: Cluster, p: Cluster, q: Cluster, r: Cluster, a: seq<Event>, b: seq<Event>,
                   x: seq<NodePV>, y: seq<NodePV>, entries: seq<NodePV>)
    requires SweepEffect(origin, p, q, a, x) && SweepEffect(origin, q, r, b, y)
    requires (forall n :: n in x ==> n in entries) && (forall n :: n in y ==> n in entries)
    ensures SweepEffect(origin, p, r, a + b, entries)
  {
    assert (p.journal + a) + b == p.journal + (a + b);
    forall v | v in p.pvs && v !in r.pvs ensures exists e :: e in a + b && e.PVDeleteSent? && e.pv.name == v.name {
      if v in q.pvs {
        var e :| e in b && e.PVDeleteSent? && e.pv.name == v.name;
        assert e in a + b;
      } else {
        var e :| e in a && e.PVDeleteSent? && e.pv.name == v.name;
        assert e in a + b;
      }
    }
  }

  ghost predicate NoneReleased(vs: seq<PV>, entry: NodePV) {
    forall v :: v in vs ==> !IsReleased(v, entry)
  }

  lemma {:induction false} SweepNodeContract(origin: Cluster, vs: seq<PV>, k: nat, entry: NodePV, i: nat, cl: Cluster, env: Env)
    returns (tail: seq<Event>)
    requires k <= |vs|
    requires forall v :: v in vs ==> v in origin.pvs && Hostname in v.labels && v.labels[Hostname] == entry.node
    ensures SweepEffect(origin, cl, SweepNode(vs, k, entry, i, cl, env), tail, [entry])
    ensures tail == [] ==> SweepNode(vs, k, entry, i, cl, env) == cl
    ensures tail == [] <==> NoneReleased(vs[k..], entry)
    decreases |vs| - k
  {
    if k == |vs| {
      tail := [];
      SweepNothing(origin, cl, [entry]);
    } else {
      assert vs[k..] == [vs[k]] + vs[k + 1..];
      if IsReleased(vs[k], entry) {
        var next := SendPVDelete(vs[k], entry, i, cl, env);
        var more := SweepNodeContract(origin, vs, k + 1, entry, i, next, env);
        tail := [PVDeleteSent(vs[k], entry)] + more;
        SweepOne(origin, vs[k], entry, i, cl, env);
        SweepTwice(origin, cl, next, SweepNode(vs, k, entry, i, cl, env),
                   [PVDeleteSent(vs[k], entry)], more, [entry], [entry], [entry]);
      } else {
        tail := SweepNodeContract(origin, vs, k + 1, entry, i, cl, env);
      }
    }
  }

  ghost predicate OnNode(v: PV, node: string) {
    Hostname in v.labels && v.labels[Hostname] == node
  }

  /** The recorded node has a volume, and the recorded volume on it is not released. */
  ghost predicate NodeReady(pvs: seq<PV>, entry: NodePV) {
    && (exists v :: v in pvs && OnNode(v, entry.node))
    && forall v :: v in pvs && OnNode(v, entry.node) && v.name == entry.pv ==> v.phase != VolumeReleased
  }

  ghost predicate VolumesReady(entries: seq<NodePV>, cl: Cluster) {
    forall entry :: entry in entries ==> NodeReady(cl.pvs, entry)
  }

  lemma ReadyIsNotPending(pvs: seq<PV>, entry: NodePV)
    ensures NodeReady(pvs, entry) <==> !NodePending(NodePVs(pvs, entry.node), entry)
  {
    var vs := NodePVs(pvs, entry.node);
    assert forall v :: v in vs <==> v in pvs && OnNode(v, entry.node);
    if vs != [] {
      assert vs[0] in vs;
    }
  }

  lemma {:induction false} SweepContract(origin: Cluster, entries: seq<NodePV>, i: nat, cl: Cluster, pending: bool, env: Env)
    returns (tail: seq<Event>)
    requires i <= |entries|
    requires forall v :: v in cl.pvs ==> v in origin.pvs
    ensures SweepEffect(origin, cl, Sweep(entries, i, cl, pending, env).cl, tail, entries)
    ensures var s := Sweep(entries, i, cl, pending, env);
            s.Swept? && !s.pending ==> !pending && s.cl == cl && tail == [] && VolumesReady(entries[i..], cl)
    decreases |entries| - i
  {
    if i < |entries| && !env.fails(ListNodePVs(i)) {
      var entry := entries[i];
      var vs := NodePVs(cl.pvs, entry.node);
      var a := SweepNodeContract(origin, vs, 0, entry, i, cl, env);
      assert vs[0..] == vs;
      var next := SweepNode(vs, 0, entry, i, cl, env);
      var b := SweepContract(origin, entries, i + 1, next, pending || NodePending(vs, entry), env);
      tail := a + b;
      ReadySplits(entries, i, cl);
      ReadyIsNotPending(cl.pvs, entry);
      SweepTwice(origin, cl, next, Sweep(entries, i, cl, pending, env).cl, a, b, [entry], entries, entries);
    } else {
      tail := [];
      SweepNothing(origin, cl, entries);
    }
  }

  /** The loop ends with nothing pending iff all lists succeed and the volumes are ready. */
  lemma {:induction false} SweepDone(entries: seq<NodePV>, i: nat, cl: Cluster, env: Env)
    requires i <= |entries|
    ensures Sweep(entries, i, cl, false, env) == Swept(cl, false) <==> ListsSucceed(entries, i, env) && VolumesReady(entries[i..], cl)
    decreases |entries| - i
  {
    if i < |entries| && !env.fails(ListNodePVs(i)) {
      var entry := entries[i];
      var vs := NodePVs(cl.pvs, entry.node);
      ReadySplits(entries, i, cl);
      assert ListsSucceed(entries, i, env) == ListsSucceed(entries, i + 1, env);
      if NodePending(vs, entry) {
        PendingStays(entries, i + 1, SweepNode(vs, 0, entry, i, cl, env), env);
      } else {
        SweepUntouched(vs, 0, entry, i, cl, env);
        SweepDone(entries, i + 1, cl, env);
      }
    }
  }

  ghost predicate ListsSucceed(entries: seq<NodePV>, i: nat, env: Env) {
    forall k :: i <= k < |entries| ==> !env.fails(ListNodePVs(k))
  }

  lemma ReadySplits(entries: seq<NodePV>, i: nat, cl: Cluster)
    requires i < |entries|
    ensures VolumesReady(entries[i..], cl) <==>
            !NodePending(NodePVs(cl.pvs, entries[i].node), entries[i]) && VolumesReady(entries[i + 1..], cl)
  {
    ReadyIsNotPending(cl.pvs, entries[i]);
    assert entries[i..] == [entries[i]] + entries[i + 1..];
  }

  lemma {:induction false} SweepUntouched(vs: seq<PV>, k: nat, entry: NodePV, i: nat, cl: Cluster, env: Env)
    requires k <= |vs| && NoneReleased(vs, entry)
    ensures SweepNode(vs, k, entry, i, cl, env) == cl
    decreases |vs| - k
  {
    if k < |vs| {
      SweepUntouched(vs, k + 1, entry, i, cl, env);
    }
  }

  lemma {:induction false} PendingStays(entries: seq<NodePV>, i: nat, cl: Cluster, env: Env)
    requires i <= |entries|
    ensures var s := Sweep(entries, i, cl, true, env); s.Swept? ==> s.pending
    decreases |entries| - i
  {
    if i < |entries| && !env.fails(ListNodePVs(i)) {
      PendingStays(entries, i + 1, SweepNode(NodePVs(cl.pvs, entries[i].node), 0, entries[i], i, cl, env), env);
    }
  }

  /******* Branch by branch *******/

  lemma EnableToolsContract(st: Status, cl: Cluster, env: Env) returns (tail: seq<Event>)
    ensures StepContract(EnableCephToolsPod, st, cl, EnableTools(st, cl, env), tail, env)
  {
    tail := if EnableTools(st, cl, env).move.To? && !ToolsOn(cl) then [ToolsSet(true)] else [];
    assert cl.journal + [] == cl.journal;
  }

  lemma LabelledStep(st: Status, s: Status, cl: Cluster, c: Cluster, move: Move, res: Result, env: Env)
    requires c == cl.(nodes := c.nodes) && s == st.(pendingPods := s.pendingPods) && (st.pendingPods ==> s.pendingPods)
    requires move == Stay || move == To(ManageCrashLoopBackOffPods)
    ensures StepContract(LabelNodesWithPendingPods, st, cl, Outcome(s, c, move, res), [], env)
  {
    assert cl.journal + [] == cl.journal;
  }

  lemma LabelPendingContract(st: Status, cl: Cluster, env: Env) returns (tail: seq<Event>)
    ensures StepContract(LabelNodesWithPendingPods, st, cl, LabelPending(st, cl, env), tail, env)
  {
    tail := [];
    var out := LabelPending(st, cl, env);
    LabelledStep(st, out.st, cl, out.cl, out.move, out.res, env);
  }

  predicate PendingOSD(p: Pod) {
    IsOSD(p) && p.phase == PodPending
  }

  ghost predicate HostsPending(cl: Cluster, node: string) {
    exists p :: p in cl.pods && PendingOSD(p) && Get(p.nodeSelector, Hostname) == node
  }

  /** The labelling step, exactly, whatever fails: it moves on iff the pods can be listed and the node
      of every pending OSD pod read and updated; whether or not it does, exactly those nodes of a
      successful list that can be are labelled, and no node changes otherwise. */
  lemma LabelPendingExactly(st: Status, cl: Cluster, env: Env)
    ensures var out, listed := LabelPending(st, cl, env), !env.fails(ListPendingPods);
            && (out.move == To(ManageCrashLoopBackOffPods) <==> listed && forall n :: HostsPending(cl, n) ==> Reaches(cl, n, env))
            && (out.st.pendingPods <==> st.pendingPods || (listed && exists n :: HostsPending(cl, n)))
            && out.cl == cl.(nodes := out.cl.nodes) && out.cl.nodes.Keys == cl.nodes.Keys
            && forall n :: n in cl.nodes ==>
                 out.cl.nodes[n] == if listed && HostsPending(cl, n) && Reaches(cl, n, env) then cl.nodes[n][StorageAffinity := ""] else cl.nodes[n]
  {
    if !env.fails(ListPendingPods) {
      var pending := ListPods(cl.pods, PendingOSDPods);
      PendingTargets(cl, pending);
      LabelledExactly(cl, pending, env);
      if pending == [] {
        assert forall n :: !HostsPending(cl, n);
      }
    }
  }

  lemma PendingTargets(cl: Cluster, pending: seq<Pod>)
    requires pending == ListPods(cl.pods, PendingOSDPods)
    ensures forall n :: HostsPending(cl, n) <==> n in Targets(pending)
    ensures pending != [] <==> exists n :: HostsPending(cl, n)
  {
    if pending != [] {
      assert pending[0] in pending;
      assert HostsPending(cl, Get(pending[0].nodeSelector, Hostname));
    }
  }

  lemma LabelledExactly(cl: Cluster, pending: seq<Pod>, env: Env)
    requires forall n :: HostsPending(cl, n) <==> n in Targets(pending)
    ensures var c := LabelNodes(cl, Targets(pending), env);
            && c == cl.(nodes := c.nodes) && c.nodes.Keys == cl.nodes.Keys
            && forall n :: n in cl.nodes ==>
                 c.nodes[n] == if HostsPending(cl, n) && Reaches(cl, n, env) then cl.nodes[n][StorageAffinity := ""] else cl.nodes[n]
  {
  }

  /** The pass after the loop over the failing pods, however the loop ended. */
  lemma ManagedStep(st: Status, cl: Cluster, h: Handling, tail: seq<Event>, failing: seq<Pod>, operational: seq<Pod>,
                    marked: Status, out: Outcome, env: Env)
    requires failing == Failing(ListPods(cl.pods, OSDPods)) && operational == Operational(ListPods(cl.pods, OSDPods))
    requires failing != [] && HandleEffect(h, cl, OsdNames(failing), tail)
    requires marked == st.(
      operationalOSDIDs := if operational == [] then st.operationalOSDIDs else OsdNames(operational),
      crashLoopBackOffPods := true)
    requires match h
      case HandlePanic(c) => out == Panic(c)
      case HandleError(c) => out == Outcome(marked, c, Stay, ERROR)
      case Handled(entries, c) =>
        out == Outcome(marked.(nodeDevice := entries), c, To(Kind.ForceDeleteRookCephOSDPods), After(15))
    ensures StepContract(ManageCrashLoopBackOffPods, st, cl, out, tail, env)
  {
    PartlyZeroedKeepsZero(cl.deployments, h.cl.deployments, OsdNames(failing));
    if h.Handled? {
      ZeroedIsDrained(cl.deployments, OsdNames(failing));
      assert |h.entries| == |OSDIDs(h.entries)| == |failing|;
    }
  }

  lemma ManageCrashesContract(st: Status, cl: Cluster, env: Env) returns (tail: seq<Event>)
    ensures StepContract(ManageCrashLoopBackOffPods, st, cl, ManageCrashes(st, cl, env), tail, env)
  {
    var failing := Failing(ListPods(cl.pods, OSDPods));
    var operational := Operational(ListPods(cl.pods, OSDPods));
    if env.fails(ListOSDPods) || failing == [] {
      tail := [];
      assert cl.journal + [] == cl.journal;
    } else {
      tail := HandleContract(failing, 0, cl, env);
      assert failing[0..] == failing;
      var marked := st.(
        operationalOSDIDs := if operational == [] then st.operationalOSDIDs else OsdNames(operational),
        crashLoopBackOffPods := true);
      ManagedStep(st, cl, Handle(failing, 0, cl, env), tail, failing, operational, marked, ManageCrashes(st, cl, env), env);
    }
  }

  /** Force deletion takes every pod of these IDs that nothing holds back. */
  lemma ForceDeletedContract(ids: seq<string>, cl: Cluster, env: Env)
    ensures var pods := DeletePods(cl.pods, PodsWithAnyID(ids), env);
            && KeepsAbsence(cl.pods, pods)
            && (NoneHeld(cl.pods, ids, env) ==> NoOSDPods(pods, ids))
  {
    var pods := DeletePods(cl.pods, PodsWithAnyID(ids), env);
    DeletePodsKeepsAbsence(cl.pods, PodsWithAnyID(ids), env);
    forall id, p | NoneHeld(cl.pods, ids, env) && id in ids && p in pods ensures !Carries(p.labels, id) {
      if Carries(p.labels, id) {
        LeftoversWereListed(cl.pods, PodsWithAnyID(ids), env, p);
      }
    }
  }

  lemma ForceDeletedStep(st: Status, cl: Cluster, ids: seq<string>, pods: seq<Pod>, tail: seq<Event>, out: Outcome, env: Env)
    requires ids == OSDIDs(st.nodeDevice) && tail == [ForceDeleted(ids)]
    requires KeepsAbsence(cl.pods, pods) && !NoOSDPods(cl.pods, ids)
    requires NoneHeld(cl.pods, ids, env) ==> NoOSDPods(pods, ids)
    requires out == Outcome(st, Log(cl.(pods := pods), tail), To(Kind.ForceDeleteRookCephOSDPods), AGAIN)
    ensures StepContract(Kind.ForceDeleteRookCephOSDPods, st, cl, out, tail, env)
  {
  }

  lemma ForceDeletePhaseContract(st: Status, cl: Cluster, env: Env) returns (tail: seq<Event>)
    ensures StepContract(Kind.ForceDeleteRookCephOSDPods, st, cl, ForceDeletePhase(st, cl, env), tail, env)
  {
    var out, ids := ForceDeletePhase(st, cl, env), OSDIDs(st.nodeDevice);
    if st.crashLoopBackOffPods {
      ProbeExactly(ids, 0, cl, env);
      assert ids[0..] == ids;
    }
    if out.Outcome? && out.move == To(Kind.ForceDeleteRookCephOSDPods) {
      tail := [ForceDeleted(ids)];
      ForceDeletedContract(ids, cl, env);
      ForceDeletedStep(st, cl, ids, DeletePods(cl.pods, PodsWithAnyID(ids), env), tail, out, env);
    } else {
      tail := [];
      assert cl.journal + [] == cl.journal;
    }
  }

  /** The pods of an ID are gone, or the first of them has been terminating for the whole grace. */
  ghost predicate Ripe(cl: Cluster, id: string, now: Time) {
    var pods := ListPods(cl.pods, OSDPodsWithID(id));
    pods == [] || (pods[0].deletion.Some? && now >= pods[0].deletion.value + TERMINATION_GRACE)
  }

  ghost predicate AllRipe(ids: seq<string>, i: nat, cl: Cluster, env: Env) {
    forall k :: i <= k < |ids| ==> !env.fails(ListPodsOfID(k)) && Ripe(cl, ids[k], env.now)
  }

  lemma NoPodsOfID(pods: seq<Pod>, id: string)
    ensures ListPods(pods, OSDPodsWithID(id)) == [] <==> Absent(pods, id)
  {
    var found := ListPods(pods, OSDPodsWithID(id));
    if found == [] {
      forall p | p in pods ensures !Carries(p.labels, id) {
        assert p !in found;
      }
    } else {
      assert found[0] in found;
    }
  }

  /** The loop runs to its end iff every lookup succeeds and every ID is ripe, and then counts none
      iff no recorded ID has a pod. */
  lemma {:induction false} ProbeExactly(ids: seq<string>, i: nat, cl: Cluster, env: Env)
    requires i <= |ids|
    ensures Probe(ids, i, cl, env).Stuck? <==> AllRipe(ids, i, cl, env)
    ensures Probe(ids, i, cl, env) == Stuck(0) ==> NoOSDPods(cl.pods, ids[i..])
    ensures Probe(ids, i, cl, env).Stuck? && NoOSDPods(cl.pods, ids[i..]) ==> Probe(ids, i, cl, env) == Stuck(0)
    decreases |ids| - i
  {
    if i < |ids| {
      ProbeExactly(ids, i + 1, cl, env);
      assert ids[i..] == [ids[i]] + ids[i + 1..];
      NoPodsOfID(cl.pods, ids[i]);
      var head := !env.fails(ListPodsOfID(i)) && Ripe(cl, ids[i], env.now);
      assert AllRipe(ids, i, cl, env) <==> head && AllRipe(ids, i + 1, cl, env);
    }
  }

  /** The recorded pods call for a force deletion, and nothing stops it. */
  ghost predicate Forces(st: Status, cl: Cluster, env: Env) {
    var ids := OSDIDs(st.nodeDevice);
    !NoOSDPods(cl.pods, ids) && AllRipe(ids, 0, cl, env) && !env.fails(ForceDeletePods)
  }

  ghost predicate LookupsSucceed(st: Status, env: Env) {
    forall k :: 0 <= k < |st.nodeDevice| ==> !env.fails(ListPodsOfID(k))
  }

  /** The force-delete loop, exactly, whatever fails: it moves on iff the lookups succeed and no OSD
      pod of a recorded ID is left; it issues the force deletion and enters its condition again iff
      some is left, all are ripe and the deletion succeeds; otherwise it stays where it is, or panics on
      a pod that is not terminating, and changes nothing. */
  lemma ForceDeletePhaseExactly(st: Status, cl: Cluster, env: Env)
    requires st.crashLoopBackOffPods && st.nodeDevice != []
    ensures var ids, out := OSDIDs(st.nodeDevice), ForceDeletePhase(st, cl, env);
            && ((out.Outcome? && out.move == To(ProcessOCSRemovalTemplate)) <==> NoOSDPods(cl.pods, ids) && LookupsSucceed(st, env))
            && ((out.Outcome? && out.move == To(Kind.ForceDeleteRookCephOSDPods)) <==> Forces(st, cl, env))
            && (out.cl.journal == cl.journal + [ForceDeleted(ids)] <==> Forces(st, cl, env))
            && (out.cl == cl <==> !Forces(st, cl, env))
            && (out.Outcome? ==> out.st == st && (out.move.To? || out.move == Stay))
            && (LookupsSucceed(st, env) && !AllRipe(ids, 0, cl, env) ==> out == Panic(cl) || out == Outcome(st, cl, Stay, After(15)))
  {
    var ids := OSDIDs(st.nodeDevice);
    ProbeExactly(ids, 0, cl, env);
    assert ids[0..] == ids;
    if LookupsSucceed(st, env) {
      ProbeOutcome(ids, 0, cl, env);
    }
    if NoOSDPods(cl.pods, ids) {
      AbsentIsRipe(st, cl, env);
    }
    assert |cl.journal + [ForceDeleted(ids)]| != |cl.journal|;
  }

  /** What the force deletion does then. */
  lemma ForcesExactly(st: Status, cl: Cluster, env: Env)
    requires st.crashLoopBackOffPods && Forces(st, cl, env)
    ensures var ids := OSDIDs(st.nodeDevice);
            ForceDeletePhase(st, cl, env) ==
              Outcome(st, Log(cl.(pods := DeletePods(cl.pods, PodsWithAnyID(ids), env)), [ForceDeleted(ids)]),
                      To(Kind.ForceDeleteRookCephOSDPods), AGAIN)
  {
    var ids := OSDIDs(st.nodeDevice);
    ProbeExactly(ids, 0, cl, env);
    assert ids[0..] == ids;
  }

  lemma AbsentIsRipe(st: Status, cl: Cluster, env: Env)
    requires NoOSDPods(cl.pods, OSDIDs(st.nodeDevice))
    ensures LookupsSucceed(st, env) <==> AllRipe(OSDIDs(st.nodeDevice), 0, cl, env)
  {
    var ids := OSDIDs(st.nodeDevice);
    forall k | 0 <= k < |ids| ensures Ripe(cl, ids[k], env.now) {
      NoPodsOfID(cl.pods, ids[k]);
    }
  }

  lemma {:induction false} ProbeOutcome(ids: seq<string>, i: nat, cl: Cluster, env: Env)
    requires i <= |ids| && forall k :: i <= k < |ids| ==> !env.fails(ListPodsOfID(k))
    ensures Probe(ids, i, cl, env) != ProbeError
    decreases |ids| - i
  {
    if i < |ids| {
      ProbeOutcome(ids, i + 1, cl, env);
    }
  }

  /** The first pod of the k-th ID is found and not terminating, and every earlier ID is found gone
      or ripe. */
  ghost predicate PanicsAt(ids: seq<string>, i: nat, k: nat, cl: Cluster, env: Env) {
    && i <= k < |ids| && !env.fails(ListPodsOfID(k)) && ListPods(cl.pods, OSDPodsWithID(ids[k])) != []
    && ListPods(cl.pods, OSDPodsWithID(ids[k]))[0].deletion.None?
    && forall j :: i <= j < k ==> !env.fails(ListPodsOfID(j)) && Ripe(cl, ids[j], env.now)
  }

  lemma {:induction false} ProbePanics(ids: seq<string>, i: nat, cl: Cluster, env: Env)
    requires i <= |ids|
    ensures Probe(ids, i, cl, env) == ProbePanic <==> exists k: nat :: PanicsAt(ids, i, k, cl, env)
    decreases |ids| - i
  {
    if i < |ids| {
      var next := i + 1;
      ProbePanics(ids, next, cl, env);
      var passes := !env.fails(ListPodsOfID(i)) && Ripe(cl, ids[i], env.now);
      if k: nat :| PanicsAt(ids, i, k, cl, env) {
        assert k > i ==> passes && PanicsAt(ids, next, k, cl, env);
      }
      if passes {
        if k: nat :| PanicsAt(ids, next, k, cl, env) {
          assert PanicsAt(ids, i, k, cl, env);
        }
      } else if !env.fails(ListPodsOfID(i)) && ListPods(cl.pods, OSDPodsWithID(ids[i]))[0].deletion.None? {
        assert PanicsAt(ids, i, i, cl, env);
      }
    }
  }

  /** Force deletion panics iff some recorded ID has a first pod that is not terminating
      and neither a failing lookup nor a young pod stops the loop before it. */
  lemma ForceDeletePanics(st: Status, cl: Cluster, env: Env)
    requires st.crashLoopBackOffPods
    ensures ForceDeletePhase(st, cl, env).Panic? <==> exists k: nat :: PanicsAt(OSDIDs(st.nodeDevice), 0, k, cl, env)
  {
    ProbePanics(OSDIDs(st.nodeDevice), 0, cl, env);
  }

  /******* Which pods a force deletion takes *******/

  /** The pod has been terminating for the whole grace period. */
  predicate Aged(p: Pod, now: Time) {
    p.deletion.Some? && now >= p.deletion.value + TERMINATION_GRACE
  }

  /** The delete selects the pod, but the loop never looks at it: it is not the first OSD pod of its
      ID, or no OSD pod at all. */
  ghost predicate Overlooked(p: Pod, cl: Cluster, ids: seq<string>) {
    && Selects(PodsWithAnyID(ids), p)
    && var found := ListPods(cl.pods, OSDPodsWithID(p.labels[OsdID]));
       found == [] || found[0] != p
  }

  /** Where force deletion is issued, every pod it selects has been terminating for a minute iff all
      the overlooked ones have. */
  lemma ForceDeletesTheAged(st: Status, cl: Cluster, env: Env)
    requires Forces(st, cl, env)
    ensures var ids := OSDIDs(st.nodeDevice);
            (forall p :: p in cl.pods && Selects(PodsWithAnyID(ids), p) ==> Aged(p, env.now)) <==>
            (forall p :: p in cl.pods && Overlooked(p, cl, ids) ==> Aged(p, env.now))
  {
    var ids := OSDIDs(st.nodeDevice);
    forall p | p in cl.pods && Selects(PodsWithAnyID(ids), p) && !Overlooked(p, cl, ids) ensures Aged(p, env.now) {
      var k :| 0 <= k < |ids| && ids[k] == p.labels[OsdID];
      assert Ripe(cl, ids[k], env.now);
    }
  }

  /******* Clearing, submitting and judging the job *******/

  predicate ClearSucceeds(cl: Cluster, env: Env) {
    !env.fails(GetJob) && (cl.job.Some? ==> !env.fails(DeleteJob)) && !env.fails(DeleteJobPods)
  }

  /** A job of the same name that outlives its deletion blocks the new one. */
  predicate SubmitSucceeds(cl: Cluster, env: Env) {
    !env.fails(GetTemplate) && !env.fails(CreateJob) && (cl.job.None? || !env.jobLingers)
  }

  lemma ProcessedStep(st: Status, cl: Cluster, out: Outcome, tail: seq<Event>, env: Env)
    requires out.Outcome? && out.st == st.(forcedOSDRemoval := out.st.forcedOSDRemoval)
    requires ClusterStep(ProcessOCSRemovalTemplate, st, cl, out.cl, tail)
    requires if out.move == To(CleanupOSDRemovalJob)
      then |tail| == 2 && tail[0] == JobCleared && IsCreation(tail[1], OSDIDs(st.nodeDevice), out.st.forcedOSDRemoval)
      else out.move == Stay && (tail == [] || tail == [JobCleared])
    ensures StepContract(ProcessOCSRemovalTemplate, st, cl, out, tail, env)
  {
  }

  lemma ProcessTemplateContract(st: Status, cl: Cluster, env: Env) returns (tail: seq<Event>)
    ensures StepContract(ProcessOCSRemovalTemplate, st, cl, ProcessTemplate(st, cl, env), tail, env)
  {
    var out := ProcessTemplate(st, cl, env);
    if out.move.To? {
      tail := ResubmitContract(ProcessOCSRemovalTemplate, st, cl, out.st.forcedOSDRemoval, env, out.cl);
    } else {
      tail := ClearJobContract(ProcessOCSRemovalTemplate, st, cl, env);
    }
    ProcessedStep(st, cl, out, tail, env);
  }

  /** A step after a prefix of allowed events that changed nothing. */
  lemma AfterEvents(k: Kind, st: Status, cl: Cluster, c: Cluster, first: seq<Event>, more: seq<Event>)
    requires forall e :: e in first ==> EventAllowed(e, k, st, cl)
    requires ClusterStep(k, st, Log(cl, first), c, more)
    ensures ClusterStep(k, st, cl, c, first + more)
  {
    assert (cl.journal + first) + more == cl.journal + (first + more);
    forall e | e in more ensures EventAllowed(e, k, st, cl) {
      assert EventAllowed(e, k, st, Log(cl, first));
    }
  }

  lemma FinishRemovalContract(k: Kind, st: Status, cl: Cluster, pod: Pod, env: Env) returns (tail: seq<Event>)
    requires k == CleanupOSDRemovalJob || k == RetryForceCleanupOSDRemovalJob
    requires JobPod(cl, env) == Some(pod) && pod.phase == PodSucceeded
    ensures var out := FinishRemoval(st, cl, pod, env);
            && out.Outcome? && out.st == st && MoveStep(k, st, out.move)
            && ClusterStep(k, st, cl, out.cl, tail)
            && NoCreation(tail)
            && (out.move.To? ==> out.move.next == WaitForPersistenVolumeBound && SawRemoval(tail))
  {
    var first := [LogsRead(pod, env.logs)];
    var read := Log(cl, first);
    tail := [];
    assert cl.journal + [] == cl.journal;
    if !env.fails(GetLogs) {
      if JobLogs.Accepts(env.logs) {
        tail := AcceptedContract(k, st, cl, pod, env, read);
      } else {
        tail := first;
        Quiet(k, st, cl, read, tail);
      }
    }
  }

  lemma AcceptedContract(k: Kind, st: Status, cl: Cluster, pod: Pod, env: Env, read: Cluster) returns (tail: seq<Event>)
    requires k == CleanupOSDRemovalJob || k == RetryForceCleanupOSDRemovalJob
    requires JobPod(cl, env) == Some(pod) && pod.phase == PodSucceeded && JobLogs.Accepts(env.logs)
    requires read == Log(cl, [LogsRead(pod, env.logs)])
    ensures ClusterStep(k, st, cl, ClearJob(read, env).cl, tail) && NoCreation(tail) && SawRemoval(tail)
  {
    var first := [LogsRead(pod, env.logs)];
    var more := ClearJobContract(k, st, read, env);
    tail := first + more;
    AfterEvents(k, st, cl, ClearJob(read, env).cl, first, more);
    assert Accepted(tail[0]) && tail[0] in tail;
  }

  lemma FinishedStep(k: Kind, st: Status, cl: Cluster, out: Outcome, tail: seq<Event>, env: Env)
    requires k == CleanupOSDRemovalJob || k == RetryForceCleanupOSDRemovalJob
    requires out.Outcome? && out.st == st && MoveStep(k, st, out.move)
    requires ClusterStep(k, st, cl, out.cl, tail) && NoCreation(tail)
    requires out.move.To? ==> out.move.next == WaitForPersistenVolumeBound && SawRemoval(tail)
    ensures StepContract(k, st, cl, out, tail, env)
  {
  }

  lemma RetriedStep(st: Status, cl: Cluster, out: Outcome, tail: seq<Event>, env: Env)
    requires out.Outcome? && out.move == To(RetryForceCleanupOSDRemovalJob) && out.st == st.(forcedOSDRemoval := true)
    requires ClusterStep(CleanupOSDRemovalJob, st, cl, out.cl, tail)
    requires |tail| == 2 && tail[0] == JobCleared && IsCreation(tail[1], OSDIDs(st.nodeDevice), true)
    ensures StepContract(CleanupOSDRemovalJob, st, cl, out, tail, env)
  {
  }

  lemma ForceRetryContract(st: Status, cl: Cluster, env: Env) returns (tail: seq<Event>)
    ensures StepContract(CleanupOSDRemovalJob, st, cl, ForceRetry(st, cl, env), tail, env)
  {
    var out := ForceRetry(st, cl, env);
    var a := ClearJob(cl, env);
    if a.ok && SubmitJob(OSDIDs(st.nodeDevice), true, a.cl, env).Some? {
      tail := ResubmitContract(CleanupOSDRemovalJob, st, cl, true, env, out.cl);
      RetriedStep(st, cl, out, tail, env);
    } else {
      tail := ClearJobContract(CleanupOSDRemovalJob, st, cl, env);
      NotRetriedStep(st, cl, a.cl, tail, env);
    }
  }

  lemma NotRetriedStep(st: Status, cl: Cluster, c: Cluster, tail: seq<Event>, env: Env)
    requires ClusterStep(CleanupOSDRemovalJob, st, cl, c, tail) && (tail == [] || tail == [JobCleared])
    ensures StepContract(CleanupOSDRemovalJob, st, cl, Outcome(st, c, Stay, ERROR), tail, env)
  {
  }

  lemma CleanupContract(st: Status, since: Time, cl: Cluster, env: Env) returns (tail: seq<Event>)
    ensures StepContract(CleanupOSDRemovalJob, st, cl, Cleanup(st, since, cl, env), tail, env)
  {
    var pod := JobPod(cl, env);
    if pod.Some? && pod.value.phase == PodSucceeded {
      tail := FinishRemovalContract(CleanupOSDRemovalJob, st, cl, pod.value, env);
      FinishedStep(CleanupOSDRemovalJob, st, cl, FinishRemoval(st, cl, pod.value, env), tail, env);
    } else if pod.Some? && env.now >= since + OSD_REMOVAL_JOB_TIMEOUT {
      tail := ForceRetryContract(st, cl, env);
    } else {
      tail := [];
      WaitingStep(st, cl, Cleanup(st, since, cl, env), env);
    }
  }

  lemma WaitingStep(st: Status, cl: Cluster, out: Outcome, env: Env)
    requires out.Outcome? && out.st == st && out.cl == cl && out.move == Stay
    ensures StepContract(CleanupOSDRemovalJob, st, cl, out, [], env)
  {
    assert cl.journal + [] == cl.journal;
    Quiet(CleanupOSDRemovalJob, st, cl, cl, []);
  }

  lemma RetryCleanupContract(st: Status, since: Time, cl: Cluster, env: Env) returns (tail: seq<Event>)
    ensures StepContract(RetryForceCleanupOSDRemovalJob, st, cl, RetryCleanup(st, since, cl, env), tail, env)
  {
    var pod := JobPod(cl, env);
    tail := [];
    assert cl.journal + [] == cl.journal;
    if pod.Some? && pod.value.phase == PodSucceeded {
      tail := FinishRemovalContract(RetryForceCleanupOSDRemovalJob, st, cl, pod.value, env);
    }
  }

  lemma SweptStep(st: Status, cl: Cluster, c: Cluster, tail: seq<Event>)
    requires SweepEffect(cl, cl, c, tail, st.nodeDevice)
    ensures ClusterStep(WaitForPersistenVolumeBound, st, cl, c, tail) && NoCreation(tail)
  {
  }

  lemma WaitForVolumesContract(st: Status, cl: Cluster, env: Env) returns (tail: seq<Event>)
    ensures StepContract(WaitForPersistenVolumeBound, st, cl, WaitForVolumes(st, cl, env), tail, env)
  {
    tail := SweepContract(cl, st.nodeDevice, 0, cl, false, env);
    SweptStep(st, cl, Sweep(st.nodeDevice, 0, cl, false, env).cl, tail);
  }

  /** The volume wait moves on iff every lookup succeeds, every recorded node has a volume, none of
      the recorded volumes there is released, and enough OSD pods sit on counted claims; and a pass
      that sent a delete request never moves on. */
  lemma VolumeWaitExactly(st: Status, cl: Cluster, env: Env) returns (tail: seq<Event>)
    ensures var out := WaitForVolumes(st, cl, env);
            && out.cl == cl.(pvs := out.cl.pvs, journal := cl.journal + tail)
            && PVsGoBy(cl.pvs, out.cl.pvs, tail)
            && (out.move == To(RestartStorageOperator) <==>
                 && ListsSucceed(st.nodeDevice, 0, env)
                 && VolumesReady(st.nodeDevice, cl)
                 && CountClaims(cl, env).Some?
                 && CountClaims(cl, env).value >= |st.operationalOSDIDs| + |st.nodeDevice|)
            && (out.move == To(RestartStorageOperator) ==> tail == [] && out.cl == cl)
  {
    tail := SweepContract(cl, st.nodeDevice, 0, cl, false, env);
    SweepDone(st.nodeDevice, 0, cl, env);
    assert st.nodeDevice[0..] == st.nodeDevice;
  }

  /** The claim is bound and carries the image label. */
  ghost predicate BoundAndLabelled(c: PVC) {
    CephImage in c.labels && c.labels[CephImage] == "" && c.phase == ClaimBound
  }

  /** An OSD pod sits on such a claim. */
  ghost predicate OnCountedClaim(p: Pod, pvcs: seq<PVC>) {
    IsOSD(p) && PvcName in p.labels && exists c :: c in pvcs && BoundAndLabelled(c) && c.name == p.labels[PvcName]
  }

  ghost function HowMany(pods: seq<Pod>, pvcs: seq<PVC>): nat {
    if pods == [] then 0 else (if OnCountedClaim(pods[0], pvcs) then 1 else 0) + HowMany(pods[1..], pvcs)
  }

  /** The two-stage list, exactly, whatever fails: it counts the OSD pods on counted claims; it is an
      error iff a list fails or there is no such claim at all, and then no pod sits on one. */
  lemma CountClaimsExactly(cl: Cluster, env: Env)
    ensures var some := exists c :: c in cl.pvcs && BoundAndLabelled(c);
            && (CountClaims(cl, env).Some? <==> some && !env.fails(ListClaims) && !env.fails(ListClaimPods))
            && (CountClaims(cl, env).Some? ==> CountClaims(cl, env).value == HowMany(cl.pods, cl.pvcs))
            && (!some ==> HowMany(cl.pods, cl.pvcs) == 0)
  {
    var names := ClaimNames(cl.pvcs);
    CountNamed(cl.pods, cl.pvcs, names);
    assert forall c :: CountedClaim(c) <==> BoundAndLabelled(c);
    assert forall c :: c in cl.pvcs && CountedClaim(c) ==> c.name in names;
    assert names != [] ==> names[0] in names;
  }

  lemma {:induction false} CountNamed(pods: seq<Pod>, pvcs: seq<PVC>, names: seq<string>)
    requires names == ClaimNames(pvcs)
    ensures |ListPods(pods, OSDPodsOnClaims(names))| == HowMany(pods, pvcs)
    ensures names == [] ==> HowMany(pods, pvcs) == 0
  {
    if pods != [] {
      CountNamed(pods[1..], pvcs, names);
      assert forall c :: CountedClaim(c) <==> BoundAndLabelled(c);
      assert Selects(OSDPodsOnClaims(names), pods[0]) == OnCountedClaim(pods[0], pvcs);
    }
  }

  lemma RestartContract(st: Status, cl: Cluster, env: Env) returns (tail: seq<Event>)
    ensures StepContract(RestartStorageOperator, st, cl, Restart(st, cl, env), tail, env)
  {
    tail := if Restart(st, cl, env).move.To? && (st.pendingPods || st.crashLoopBackOffPods) then [OperatorDeleted] else [];
    assert cl.journal + [] == cl.journal;
    DeletePodsKeepsAbsence(cl.pods, Query.OperatorPods, env);
  }

  lemma {:induction false} DeleteEachKeepsAbsence(listed: seq<Pod>, k: nat, pods: seq<Pod>, env: Env)
    requires k <= |listed|
    ensures KeepsAbsence(pods, DeleteEach(listed, k, pods, env))
    decreases |listed| - k
  {
    if k < |listed| {
      var name := listed[k].name;
      var next := if env.fails(DeletePod(name)) || env.lingers(name) then pods else WithoutPod(pods, name);
      DeleteEachKeepsAbsence(listed, k + 1, next, env);
      assert KeepsAbsence(pods, next);
    }
  }

  lemma DeleteAffinityContract(st: Status, cl: Cluster, env: Env) returns (tail: seq<Event>)
    ensures StepContract(DeleteFailedPodsNodeAffinity, st, cl, DeleteAffinity(st, cl, env), tail, env)
  {
    tail := [];
    assert cl.journal + [] == cl.journal;
    DeleteEachKeepsAbsence(AffinityFailures(cl.pods), 0, cl.pods, env);
  }

  /** A failed pod that a delete request for this name removes. */
  ghost predicate RemovedBy(listed: seq<Pod>, k: nat, name: string, env: Env) {
    exists j :: k <= j < |listed| && listed[j].name == name && !env.fails(DeletePod(name)) && !env.lingers(name)
  }

  lemma {:induction false} DeleteEachExactly(listed: seq<Pod>, k: nat, pods: seq<Pod>, env: Env, p: Pod)
    requires k <= |listed|
    ensures p in DeleteEach(listed, k, pods, env) <==> p in pods && !RemovedBy(listed, k, p.name, env)
    decreases |listed| - k
  {
    if k < |listed| {
      var name := listed[k].name;
      var next := if env.fails(DeletePod(name)) || env.lingers(name) then pods else WithoutPod(pods, name);
      DeleteEachExactly(listed, k + 1, next, env, p);
      assert RemovedBy(listed, k, p.name, env) <==>
        RemovedBy(listed, k + 1, p.name, env) || (name == p.name && !env.fails(DeletePod(name)) && !env.lingers(name));
    }
  }

  /** The affinity step, exactly, whatever fails: it moves on iff the list and every delete request for
      a pod failed by node affinity succeed, and in any case the pods that go are those whose name
      such a request removed. */
  lemma DeleteAffinityExactly(st: Status, cl: Cluster, env: Env, p: Pod)
    ensures var out := DeleteAffinity(st, cl, env);
            && (out.move == To(StorageClusterFitnessCheck) <==>
                 !env.fails(ListFailedPods) && forall q :: q in cl.pods && AffinityFailure(q) ==> !env.fails(DeletePod(q.name)))
            && (p in out.cl.pods <==>
                 p in cl.pods
                 && !(&& !env.fails(ListFailedPods) && !env.fails(DeletePod(p.name)) && !env.lingers(p.name)
                      && exists q :: q in cl.pods && AffinityFailure(q) && q.name == p.name))
  {
    var listed := AffinityFailures(cl.pods);
    DeleteEachExactly(listed, 0, cl.pods, env, p);
    if q :| q in cl.pods && AffinityFailure(q) && q.name == p.name {
      assert q in listed;
      var j :| 0 <= j < |listed| && listed[j] == q;
    }
    if RemovedBy(listed, 0, p.name, env) {
      var j :| 0 <= j < |listed| && listed[j].name == p.name;
      assert listed[j] in listed;
    }
  }

  lemma FitnessStep(st: Status, cl: Cluster, tail: seq<Event>, move: Move, res: Result, env: Env)
    requires tail == [] || (exists h :: tail == [HealthRead(h)])
    requires move == Stay || (move == To(DisableCephTools) && HealthRead(HEALTH_OK) in tail)
    ensures StepContract(StorageClusterFitnessCheck, st, cl, Outcome(st, Log(cl, tail), move, res), tail, env)
  {
  }

  lemma FitnessContract(st: Status, cl: Cluster, env: Env) returns (tail: seq<Event>)
    ensures StepContract(StorageClusterFitnessCheck, st, cl, Fitness(st, cl, env), tail, env)
  {
    tail := if ToolsPod(cl, 0, env).None? || env.fails(CephStatus) then [] else [HealthRead(env.health)];
    assert cl.journal + [] == cl.journal;
    var out := Fitness(st, cl, env);
    FitnessStep(st, cl, tail, out.move, out.res, env);
  }

  lemma DisableToolsContract(st: Status, cl: Cluster, env: Env) returns (tail: seq<Event>)
    ensures StepContract(DisableCephTools, st, cl, DisableTools(st, cl, env), tail, env)
  {
    tail := if DisableTools(st, cl, env).move == Finish && !st.keepCephToolsPod then [ToolsSet(false)] else [];
    assert cl.journal + [] == cl.journal;
  }

  /** Every branch keeps the step relation, whatever calls fail. */
  lemma BranchContract(last: Condition, st: Status, cl: Cluster, env: Env) returns (tail: seq<Event>)
    ensures StepContract(last.kind, st, cl, Branch(last, st, cl, env), tail, env)
  {
    match last.kind
    case EnableCephToolsPod => tail := EnableToolsContract(st, cl, env);
    case LabelNodesWithPendingPods => tail := LabelPendingContract(st, cl, env);
    case ManageCrashLoopBackOffPods => tail := ManageCrashesContract(st, cl, env);
    case ForceDeleteRookCephOSDPods => tail := ForceDeletePhaseContract(st, cl, env);
    case ProcessOCSRemovalTemplate => tail := ProcessTemplateContract(st, cl, env);
    case CleanupOSDRemovalJob => tail := CleanupContract(st, last.lastTransition, cl, env);
    case RetryForceCleanupOSDRemovalJob => tail := RetryCleanupContract(st, last.lastTransition, cl, env);
    case WaitForPersistenVolumeBound => tail := WaitForVolumesContract(st, cl, env);
    case RestartStorageOperator => tail := RestartContract(st, cl, env);
    case DeleteFailedPodsNodeAffinity => tail := DeleteAffinityContract(st, cl, env);
    case StorageClusterFitnessCheck => tail := FitnessContract(st, cl, env);
    case DisableCephTools => tail := DisableToolsContract(st, cl, env);
    case _ =>
      tail := [];
      assert cl.journal + [] == cl.journal;
      Quiet(last.kind, st, cl, cl, tail);
  }
}
