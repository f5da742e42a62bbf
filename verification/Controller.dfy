/** The controller as it is written: objects updated in place, loops over the listed objects, and
    a switch on the latest condition. Every method is proved equal to its function in modules
    Effects and Workflow, so everything proved about runs holds of these methods. */
module Controller {
  import opened Types
  import opened Pods
  import opened Effects
  import opened Workflow
  import JobLogs

  /** The Kubernetes client, with the part of the API server behind it. */
  class Client {
    var cluster: Cluster
    var stored: Status       // the status subresource as last persisted
    const store: Store

    constructor (cluster: Cluster, stored: Status, store: Store)
      ensures this.cluster == cluster && this.stored == stored && this.store == store
    {
      this.cluster, this.stored, this.store := cluster, stored, store;
    }

    method List(q: Query, call: Call, env: Env) returns (items: seq<Pod>, err: bool)
      ensures err == env.fails(call)
      ensures !err ==> items == ListPods(cluster.pods, q)
    {
      err := env.fails(call);
      items := if err then [] else ListPods(cluster.pods, q);
    }
  }

  /** The fetched resource: its status fields, mutated by the reconcile. */
  class Instance {
    var phase: Phase
    var conditions: seq<Condition>
    var startTime: Option<Time>
    var completionTime: Option<Time>
    var pendingPods: bool
    var crashLoopBackOffPods: bool
    var nodeDevice: seq<NodePV>
    var forcedOSDRemoval: bool
    var keepCephToolsPod: bool
    var operationalOSDIDs: seq<string>

    function View(): Status
      reads this
    {
      Status(phase, conditions, startTime, completionTime, pendingPods, crashLoopBackOffPods,
             nodeDevice, forcedOSDRemoval, keepCephToolsPod, operationalOSDIDs)
    }

    constructor (st: Status)
      ensures View() == st
    {
      phase, conditions, startTime, completionTime := st.phase, st.conditions, st.startTime, st.completionTime;
      pendingPods, crashLoopBackOffPods, nodeDevice := st.pendingPods, st.crashLoopBackOffPods, st.nodeDevice;
      forcedOSDRemoval, keepCephToolsPod, operationalOSDIDs := st.forcedOSDRemoval, st.keepCephToolsPod, st.operationalOSDIDs;
    }

    /** transitionNextCondition */
    method TransitionNextCondition(next: Kind, stamp: Time)
      requires conditions != []
      modifies this
      ensures View() == Advance(old(View()), next, stamp)
    {
      var last := |conditions| - 1;
      conditions := conditions[last := conditions[last].(active := false)];
      conditions := conditions + [Condition(next, stamp, true)];
    }
  }

  /** The Prometheus counters. */
  class Metrics {
    var total: nat
    var completed: nat
    var failed: map<Kind, nat>
    var recoveredNodes: map<string, nat>
    var failedNodes: map<string, nat>

    function View(): Counters
      reads this
    {
      Counters(total, completed, failed, recoveredNodes, failedNodes)
    }

    constructor ()
      ensures View() == Counters(0, 0, map[], map[], map[])
    {
      total, completed, failed, recoveredNodes, failedNodes := 0, 0, map[], map[], map[];
    }

    method IncrementFailedNodeCounter(entries: seq<NodePV>)
      modifies this
      ensures View() == old(View()).(failedNodes := BumpNodes(old(failedNodes), entries, 0))
    {
      for i := 0 to |entries|
        invariant View() == old(View()).(failedNodes := failedNodes)
        invariant BumpNodes(failedNodes, entries, i) == BumpNodes(old(failedNodes), entries, 0)
      {
        failedNodes := Bump(failedNodes, entries[i].node);
      }
    }

    method IncrementCompletedOperandCounter(entries: seq<NodePV>)
      modifies this
      ensures View() == old(View()).(recoveredNodes := BumpNodes(old(recoveredNodes), entries, 0))
    {
      for i := 0 to |entries|
        invariant View() == old(View()).(recoveredNodes := recoveredNodes)
        invariant BumpNodes(recoveredNodes, entries, i) == BumpNodes(old(recoveredNodes), entries, 0)
      {
        recoveredNodes := Bump(recoveredNodes, entries[i].node);
      }
    }
  }

  method ListOperationalOSDIDsFromPods(pods: seq<Pod>) returns (ids: seq<string>)
    ensures ids == OsdNames(pods)
  {
    ids := [];
    for i := 0 to |pods|
      invariant ids == OsdNames(pods)[..i]
    {
      ids := ids + [Get(pods[i].labels, OsdName)];
    }
  }

  method GetOSDIDsFromNodeDevices(entries: seq<NodePV>) returns (ids: seq<string>)
    ensures ids == OSDIDs(entries)
  {
    ids := [];
    for i := 0 to |entries|
      invariant ids == OSDIDs(entries)[..i]
    {
      ids := ids + [entries[i].osdID];
    }
  }

  /** What a branch leaves in the instance, the cluster and the result, against its outcome. A panic
      leaves only the cluster. */
  ghost predicate Agrees(out: Outcome, st: Status, cl: Cluster, res: Result, panicked: bool, stamp: Time) {
    match out
    case Panic(c) => panicked && cl == c
    case Outcome(s, c, move, r) => !panicked && st == Settle(s, move, stamp) && cl == c && res == r
  }

  /** The rest of a scaling loop, after some deployments are done. */
  ghost function Resumed(done: seq<Deployment>, events: seq<Event>, rest: Scaling): Scaling {
    Scaling(done + rest.deployments, events + rest.events, rest.ok)
  }

  lemma ScaleStep(ds: seq<Deployment>, k: nat, id: string, i: nat, env: Env, done: seq<Deployment>, events: seq<Event>)
    requires k < |ds|
    ensures var d, rest := ds[k], ScaleDown(ds[k + 1..], id, i, env);
            Resumed(done, events, ScaleDown(ds[k..], id, i, env)) ==
            if !Carries(d.labels, id) then Resumed(done + [d], events, rest)
            else if env.fails(UpdateDeployment(i, d.name)) then Scaling(done + ds[k..], events, false)
            else Resumed(done + [d.(replicas := 0)], events + [Scaled(d.name, id)], rest)
  {
    var d, rest := ds[k], ScaleDown(ds[k + 1..], id, i, env);
    assert ds[k..] == [d] + ds[k + 1..];
    assert done + ([d] + rest.deployments) == (done + [d]) + rest.deployments;
    var z := d.(replicas := 0);
    assert done + ([z] + rest.deployments) == (done + [z]) + rest.deployments;
    assert events + ([Scaled(d.name, id)] + rest.events) == (events + [Scaled(d.name, id)]) + rest.events;
    assert events + [] == events;
  }

  lemma NextAffinityFailure(pods: seq<Pod>, i: nat, done: seq<Pod>)
    requires i < |pods|
    ensures done + AffinityFailures(pods[i..]) ==
            (if AffinityFailure(pods[i]) then done + [pods[i]] else done) + AffinityFailures(pods[i + 1..])
  {
    assert pods[i..] == [pods[i]] + pods[i + 1..];
  }

  lemma LoggedTwice(cl: Cluster, a: seq<Event>, b: seq<Event>)
    ensures Log(Log(cl, a), b) == Log(cl, a + b)
  {
    assert (cl.journal + a) + b == cl.journal + (a + b);
  }

  lemma OneMoreUpdate(ds: seq<Deployment>, now: seq<Deployment>, k: nat, d: Deployment)
    requires k < |ds| == |now| && now[k..] == ds[k..]
    ensures now[k := d][..k + 1] == now[..k] + [d] && now[k := d][k + 1..] == ds[k + 1..]
    ensures now[k] == ds[k] && now[..k + 1] == now[..k] + [now[k]] && now[k + 1..] == ds[k + 1..]
  {
    assert now[k] == now[k..][0] == ds[k..][0];
    assert now[k + 1..] == now[k..][1..] && ds[k + 1..] == ds[k..][1..];
  }

  /** Labelling one more target. */
  lemma LabelOneMore(cl: Cluster, targets: set<string>, name: string, env: Env)
    requires name !in targets
    ensures var before, after := LabelNodes(cl, targets, env), LabelNodes(cl, targets + {name}, env);
            && (name in before.nodes <==> name in cl.nodes)
            && (!Reaches(cl, name, env) ==> after == before)
            && (Reaches(cl, name, env) ==> after == before.(nodes := before.nodes[name := before.nodes[name][StorageAffinity := ""]]))
  {
    var before, after := LabelNodes(cl, targets, env), LabelNodes(cl, targets + {name}, env);
    if Reaches(cl, name, env) {
      assert after.nodes == before.nodes[name := before.nodes[name][StorageAffinity := ""]];
    } else {
      assert after.nodes == before.nodes;
    }
  }

  class NodeRecovery {
    const client: Client
    const metrics: Metrics

    constructor (client: Client, metrics: Metrics)
      ensures this.client == client && this.metrics == metrics
    {
      this.client, this.metrics := client, metrics;
    }

    /******* ceph.go *******/

    method IsCephToolsEnabled(env: Env) returns (enabled: bool, err: bool)
      ensures match IsToolsEnabled(client.cluster, env) case None => err case Some(b) => !err && enabled == b
    {
      enabled, err := false, env.fails(GetVersion(0)) || env.fails(GetTools(0));
      if !err {
        if client.cluster.before415 {
          enabled := client.cluster.ocsInitTools;
        } else {
          enabled := client.cluster.storageClusterTools;
        }
      }
    }

    method SetEnableCephToolsValue(value: bool, env: Env) returns (err: bool)
      modifies client`cluster
      ensures match SetTools(old(client.cluster), value, env)
              case None => err && client.cluster == old(client.cluster)
              case Some(c) => !err && client.cluster == c
    {
      if env.fails(GetVersion(1)) || env.fails(GetTools(1)) || env.fails(UpdateTools) {
        return true;
      }
      if client.cluster.before415 {
        client.cluster := client.cluster.(ocsInitTools := value);
      } else {
        client.cluster := client.cluster.(storageClusterTools := value);
      }
      client.cluster := Log(client.cluster, [ToolsSet(value)]);
      return false;
    }

    method ScaleRookCephOSDDeploymentToZero(id: string, i: nat, env: Env) returns (err: bool)
      modifies client`cluster
      ensures var cl, s := old(client.cluster), ScaleDown(old(client.cluster).deployments, id, i, env);
              if env.fails(ListDeployments(i)) then err && client.cluster == cl
              else err == !s.ok && client.cluster == Log(cl.(deployments := s.deployments), s.events)
    {
      if env.fails(ListDeployments(i)) {
        return true;
      }
      ghost var cl := client.cluster;
      var ds := client.cluster.deployments;
      ghost var events: seq<Event> := [];
      assert cl.journal + [] == cl.journal;
      for k := 0 to |ds|
        invariant client.cluster == Log(cl.(deployments := client.cluster.deployments), events)
        invariant |client.cluster.deployments| == |ds| && client.cluster.deployments[k..] == ds[k..]
        invariant ScaleDown(ds, id, i, env) == Resumed(client.cluster.deployments[..k], events, ScaleDown(ds[k..], id, i, env))
      {
        var d := ds[k];
        ghost var now := client.cluster.deployments;
        ScaleStep(ds, k, id, i, env, now[..k], events);
        if Carries(d.labels, id) {
          if env.fails(UpdateDeployment(i, d.name)) {
            assert now == now[..k] + ds[k..];
            return true;
          }
          d := d.(replicas := 0);
          OneMoreUpdate(ds, now, k, d);
          LoggedTwice(cl.(deployments := now[k := d]), events, [Scaled(d.name, id)]);
          client.cluster := Log(client.cluster.(deployments := client.cluster.deployments[k := d]), [Scaled(d.name, id)]);
          events := events + [Scaled(d.name, id)];
        } else {
          OneMoreUpdate(ds, now, k, d);
        }
      }
      assert client.cluster.deployments[..|ds|] + [] == client.cluster.deployments && events + [] == events;
      return false;
    }

    method ForceDeleteRookCephOSDPods(ids: seq<string>, env: Env) returns (err: bool)
      modifies client`cluster
      ensures match ForceDelete(ids, old(client.cluster), env)
              case None => err && client.cluster == old(client.cluster)
              case Some(c) => !err && client.cluster == c
    {
      if ids == [] || env.fails(ForceDeletePods) {
        return true;
      }
      client.cluster := Log(client.cluster.(pods := DeletePods(client.cluster.pods, PodsWithAnyID(ids), env)), [ForceDeleted(ids)]);
      return false;
    }

    method DeleteOldOSDRemovalJob(env: Env) returns (err: bool)
      modifies client`cluster
      ensures ClearJob(old(client.cluster), env) == Attempt(client.cluster, !err)
    {
      if env.fails(GetJob) {
        return true;
      }
      if client.cluster.job.Some? {
        if env.fails(DeleteJob) {
          return true;
        }
        if !env.jobLingers {
          client.cluster := client.cluster.(job := None);
        }
      }
      if env.fails(DeleteJobPods) {
        return true;
      }
      client.cluster := Log(client.cluster.(pods := DeletePods(client.cluster.pods, JobPods, env)), [JobCleared]);
      return false;
    }

    method GetRunningCephToolsPod(site: nat, env: Env) returns (pod: Option<Pod>)
      ensures pod == ToolsPod(client.cluster, site, env)
    {
      var pods, err := client.List(Query.ToolsPods, ListToolsPods(site), env);
      pod := if err || pods == [] then None else Some(pods[0]);
    }

    method GetCephHealthStatus(env: Env) returns (status: string, err: bool)
      modifies client`cluster
      ensures var cl := old(client.cluster);
              if ToolsPod(cl, 0, env).None? || env.fails(CephStatus) then err && client.cluster == cl
              else !err && status == env.health && client.cluster == Log(cl, [HealthRead(env.health)])
    {
      var pod := GetRunningCephToolsPod(0, env);
      if pod.None? || env.fails(CephStatus) {
        return "", true;
      }
      client.cluster := Log(client.cluster, [HealthRead(env.health)]);
      return env.health, false;
    }

    /******* node_recovery_reconciler.go, helpers *******/

    method LabelNodesWithPodsInPendingState(pods: seq<Pod>, env: Env) returns (errs: bool)
      modifies client`cluster
      ensures var cl, targets := old(client.cluster), Targets(pods);
              && client.cluster == LabelNodes(cl, targets, env)
              && (errs <==> !forall n :: n in targets ==> Reaches(cl, n, env))
    {
      ghost var cl := client.cluster;
      var nodes := {};
      for i := 0 to |pods|
        invariant nodes == Targets(pods[..i])
      {
        assert pods[..i + 1] == pods[..i] + [pods[i]];
        nodes := nodes + {Get(pods[i].nodeSelector, Hostname)};
      }
      assert pods[..|pods|] == pods;
      var todo := nodes;
      errs := false;
      ghost var done: set<string> := {};
      assert client.cluster.nodes == LabelNodes(cl, {}, env).nodes;
      while todo != {}
        invariant done !! todo && done + todo == nodes
        invariant client.cluster == LabelNodes(cl, done, env)
        invariant errs <==> exists n :: n in done && !Reaches(cl, n, env)
        decreases todo
      {
        var name :| name in todo;
        LabelOneMore(cl, done, name, env);
        if name !in client.cluster.nodes || env.fails(GetNode(name)) {
          errs := true;
        } else {
          var labels := client.cluster.nodes[name][StorageAffinity := ""];
          if env.fails(UpdateNode(name)) {
            errs := true;
          } else {
            client.cluster := client.cluster.(nodes := client.cluster.nodes[name := labels]);
          }
        }
        todo, done := todo - {name}, done + {name};
      }
      assert done == nodes;
    }

    method GetNodeDeviceNameFromPV(p: Pod, i: nat, env: Env) returns (entry: Option<NodePV>, err: bool)
      ensures match NodeDeviceOf(p, i, client.cluster, env)
              case LookupError => err
              case Unlabelled => !err && entry == None
              case Located(e) => !err && entry == Some(e)
    {
      if PvcName in p.labels {
        var pvc := FindPVC(client.cluster.pvcs, p.labels[PvcName]);
        if env.fails(GetPVC(i)) || pvc.None? {
          return None, true;
        }
        var pv := FindPV(client.cluster.pvs, pvc.value.volume);
        if env.fails(GetPV(i)) || pv.None? {
          return None, true;
        }
        return Some(NodePV(Get(pv.value.labels, Hostname), pv.value.name, Get(p.labels, OsdName))), false;
      }
      return None, false;
    }

    /** A nil entry is appended and then dereferenced. */
    method HandleCrashLoopBackOffPods(pods: seq<Pod>, env: Env) returns (entries: seq<NodePV>, err: bool, panicked: bool)
      modifies client`cluster
      ensures match Handle(pods, 0, old(client.cluster), env)
              case Handled(es, c) => !err && !panicked && entries == es && client.cluster == c
              case HandleError(c) => err && !panicked && client.cluster == c
              case HandlePanic(c) => panicked && client.cluster == c
    {
      entries, err, panicked := [], false, false;
      ghost var cl := client.cluster;
      for i := 0 to |pods|
        invariant Handle(pods, 0, cl, env) == Prepend(entries, Handle(pods, i, client.cluster, env))
      {
        ghost var rest := Handle(pods, i, client.cluster, env);
        var entry, lookupErr := GetNodeDeviceNameFromPV(pods[i], i, env);
        if lookupErr {
          err := true;
          return;
        }
        if entry.None? {
          panicked := true;
          return;
        }
        var scaleErr := ScaleRookCephOSDDeploymentToZero(entry.value.osdID, i, env);
        if scaleErr {
          err := true;
          return;
        }
        ghost var more := Handle(pods, i + 1, client.cluster, env);
        assert more.Handled? ==> entries + ([entry.value] + more.entries) == (entries + [entry.value]) + more.entries;
        entries := entries + [entry.value];
      }
      assert entries + [] == entries;
    }

    method ProcessOCSOSDRemovalTemplate(ids: seq<string>, force: bool, env: Env) returns (err: bool)
      modifies client`cluster
      ensures match SubmitJob(ids, force, old(client.cluster), env)
              case None => err && client.cluster == old(client.cluster)
              case Some(c) => !err && client.cluster == c
    {
      if env.fails(GetTemplate) || env.fails(CreateJob) || client.cluster.job.Some? {
        return true;
      }
      var job := Job(ids, force);
      var event := JobCreated(job, client.cluster.pods, client.cluster.deployments);
      client.cluster := Log(client.cluster.(job := Some(job)), [event]);
      return false;
    }

    method GetOSDRemovalPodJobCompletionStatus(env: Env) returns (pod: Option<Pod>)
      ensures pod == JobPod(client.cluster, env)
    {
      var pods, err := client.List(JobPods, ListJobPods, env);
      if err {
        return None;
      }
      for i := 0 to |pods|
        invariant FirstLive(pods) == FirstLive(pods[i..])
      {
        if pods[i].deletion.None? {
          return Some(pods[i]);
        }
      }
      return None;
    }

    method ValidateJobLogs(pod: Pod, env: Env) returns (err: bool)
      modifies client`cluster
      ensures var cl := old(client.cluster);
              if env.fails(GetLogs) then err && client.cluster == cl
              else err == !JobLogs.Accepts(env.logs) && client.cluster == Log(cl, [LogsRead(pod, env.logs)])
    {
      if env.fails(GetLogs) {
        return true;
      }
      client.cluster := Log(client.cluster, [LogsRead(pod, env.logs)]);
      return !JobLogs.Accepts(env.logs);
    }

    method ProcessPVForNode(entry: NodePV, vs: seq<PV>, i: nat, env: Env) returns (errs: bool)
      modifies client`cluster
      ensures client.cluster == SweepNode(vs, 0, entry, i, old(client.cluster), env)
      ensures errs <==> NodePending(vs, entry)
    {
      errs := vs == [];
      for k := 0 to |vs|
        invariant SweepNode(vs, k, entry, i, client.cluster, env) == SweepNode(vs, 0, entry, i, old(client.cluster), env)
        invariant errs <==> vs == [] || exists v :: v in vs[..k] && IsReleased(v, entry)
      {
        assert vs[..k + 1] == vs[..k] + [vs[k]];
        if vs[k].name == entry.pv && vs[k].phase == VolumeReleased {
          client.cluster := SendPVDelete(vs[k], entry, i, client.cluster, env);
          errs := true;
        }
      }
      assert vs[..|vs|] == vs;
    }

    method CountPVCsBoundToOSDPods(env: Env) returns (n: nat, err: bool)
      ensures match CountClaims(client.cluster, env) case None => err case Some(c) => !err && n == c
    {
      if env.fails(ListClaims) {
        return 0, true;
      }
      var names, pvcs := [], client.cluster.pvcs;
      for i := 0 to |pvcs|
        invariant ClaimNames(pvcs) == names + ClaimNames(pvcs[i..])
      {
        assert pvcs[i..] == [pvcs[i]] + pvcs[i + 1..];
        if CephImage in pvcs[i].labels && pvcs[i].labels[CephImage] == "" && pvcs[i].phase == ClaimBound {
          names := names + [pvcs[i].name];
        }
      }
      assert names + ClaimNames([]) == names;
      if names == [] {
        return 0, true;
      }
      var pods, listErr := client.List(OSDPodsOnClaims(names), ListClaimPods, env);
      return |pods|, listErr;
    }

    method DeleteRookCephOperatorPod(env: Env) returns (err: bool)
      modifies client`cluster
      ensures match RestartOperator(old(client.cluster), env)
              case None => err && client.cluster == old(client.cluster)
              case Some(c) => !err && client.cluster == c
    {
      if env.fails(DeleteOperatorPods) {
        return true;
      }
      client.cluster := Log(client.cluster.(pods := DeletePods(client.cluster.pods, Query.OperatorPods, env)), [OperatorDeleted]);
      return false;
    }

    method GetPodsInFailedPhaseWithReasonNodeAffinity() returns (failedPods: seq<Pod>)
      ensures failedPods == AffinityFailures(client.cluster.pods)
    {
      failedPods := [];
      var pods := client.cluster.pods;
      for i := 0 to |pods|
        invariant AffinityFailures(pods) == failedPods + AffinityFailures(pods[i..])
      {
        NextAffinityFailure(pods, i, failedPods);
        if pods[i].phase == PodFailed && pods[i].reason == NODE_AFFINITY_REASON {
          failedPods := failedPods + [pods[i]];
        }
      }
    }

    method DeleteFailedPodsWithReasonNodeAffinity(env: Env) returns (errs: bool)
      modifies client`cluster
      ensures DeleteAffinityFailures(old(client.cluster), env) == Attempt(client.cluster, !errs)
    {
      if env.fails(ListFailedPods) {
        return true;
      }
      var listed := GetPodsInFailedPhaseWithReasonNodeAffinity();
      var pods, failed := DeletePodsOneByOne(listed, client.cluster.pods, env);
      client.cluster := client.cluster.(pods := pods);
      return failed;
    }

    method DeletePodsOneByOne(listed: seq<Pod>, before: seq<Pod>, env: Env) returns (pods: seq<Pod>, errs: bool)
      ensures pods == DeleteEach(listed, 0, before, env)
      ensures errs == !DeletesSucceed(listed, env)
    {
      pods, errs := before, false;
      for k := 0 to |listed|
        invariant DeleteEach(listed, k, pods, env) == DeleteEach(listed, 0, before, env)
        invariant DeletesSucceed(listed, env) <==> !errs && DeletesSucceed(listed[k..], env)
      {
        assert listed[k..][1..] == listed[k + 1..];
        var name := listed[k].name;
        if env.fails(DeletePod(name)) {
          errs := true;
        } else if !env.lingers(name) {
          pods := WithoutPod(pods, name);
        }
      }
    }

    /******* node_recovery_reconciler.go, the switch *******/

    method EnableToolsBranch(instance: Instance, env: Env) returns (res: Result)
      requires instance.conditions != []
      modifies client`cluster, instance
      ensures Agrees(EnableTools(old(instance.View()), old(client.cluster), env), instance.View(), client.cluster, res, false, env.stamp)
    {
      var enabled, err := IsCephToolsEnabled(env);
      if err {
        return ERROR;
      }
      if !enabled {
        err := SetEnableCephToolsValue(true, env);
        if err {
          return ERROR;
        }
      } else {
        instance.keepCephToolsPod := true;
      }
      instance.TransitionNextCondition(WaitForCephToolsPodRunning, env.stamp);
      return After(10);
    }

    method WaitForToolsBranch(instance: Instance, env: Env) returns (res: Result)
      requires instance.conditions != []
      modifies instance
      ensures Agrees(WaitForTools(old(instance.View()), client.cluster, env), instance.View(), client.cluster, res, false, env.stamp)
    {
      var pod := GetRunningCephToolsPod(0, env);
      if pod.None? {
        return ERROR;
      }
      if pod.value.phase != PodRunning {
        return After(10);
      }
      instance.TransitionNextCondition(WaitForOSDPodsStabilize, env.stamp);
      return AGAIN;
    }

    method StabilizeBranch(instance: Instance, env: Env) returns (res: Result)
      requires instance.conditions != []
      modifies instance
      ensures Agrees(Stabilize(old(instance.View()), client.cluster, env), instance.View(), client.cluster, res, false, env.stamp)
    {
      if env.fails(ListAllPods) {
        return ERROR;
      }
      var podErr := AnyPodStarting(client.cluster.pods);
      if podErr {
        return After(10);
      }
      instance.TransitionNextCondition(LabelNodesWithPendingPods, env.stamp);
      return AGAIN;
    }

    method LabelPendingBranch(instance: Instance, env: Env) returns (res: Result)
      requires instance.conditions != []
      modifies client`cluster, instance
      ensures Agrees(LabelPending(old(instance.View()), old(client.cluster), env), instance.View(), client.cluster, res, false, env.stamp)
    {
      var pending, err := client.List(PendingOSDPods, ListPendingPods, env);
      if err {
        return ERROR;
      }
      if |pending| > 0 {
        instance.pendingPods := true;
        err := LabelNodesWithPodsInPendingState(pending, env);
        if err {
          return ERROR;
        }
      }
      instance.TransitionNextCondition(ManageCrashLoopBackOffPods, env.stamp);
      return AGAIN;
    }

    method ManageCrashesBranch(instance: Instance, env: Env) returns (res: Result, panicked: bool)
      requires instance.conditions != []
      modifies client`cluster, instance
      ensures Agrees(ManageCrashes(old(instance.View()), old(client.cluster), env), instance.View(), client.cluster, res, panicked, env.stamp)
    {
      res, panicked := ERROR, false;
      var osds, err := client.List(OSDPods, ListOSDPods, env);
      if err {
        return;
      }
      var operational, failing := Classify(osds);
      if |failing| == 0 {
        instance.TransitionNextCondition(RestartStorageOperator, env.stamp);
        res := AGAIN;
        return;
      }
      if |operational| > 0 {
        instance.operationalOSDIDs := ListOperationalOSDIDsFromPods(operational);
      }
      instance.crashLoopBackOffPods := true;
      var entries, handleErr, nilEntry := HandleCrashLoopBackOffPods(failing, env);
      if nilEntry || handleErr {
        panicked := nilEntry;
        return;
      }
      instance.nodeDevice := entries;
      instance.TransitionNextCondition(Kind.ForceDeleteRookCephOSDPods, env.stamp);
      res := After(15);
    }

    /** The loop over the recorded IDs. */
    method CountStuckIDs(ids: seq<string>, env: Env) returns (probing: Probing)
      ensures probing == Probe(ids, 0, client.cluster, env)
    {
      var c: nat := 0;
      for i := 0 to |ids|
        invariant Probe(ids, 0, client.cluster, env) == PlusStuck(c, Probe(ids, i, client.cluster, env))
      {
        var pods, err := client.List(OSDPodsWithID(ids[i]), ListPodsOfID(i), env);
        if err {
          return ProbeError;
        }
        if |pods| > 0 {
          if pods[0].deletion.None? {
            return ProbePanic;
          }
          if env.now < pods[0].deletion.value + TERMINATION_GRACE {
            return StillTerminating;
          }
          c := c + 1;
        }
      }
      return Stuck(c);
    }

    method ForceDeleteBranch(instance: Instance, env: Env) returns (res: Result, panicked: bool)
      requires instance.conditions != []
      modifies client`cluster, instance
      ensures Agrees(ForceDeletePhase(old(instance.View()), old(client.cluster), env), instance.View(), client.cluster, res, panicked, env.stamp)
    {
      res, panicked := ERROR, false;
      if !instance.crashLoopBackOffPods {
        instance.TransitionNextCondition(RestartStorageOperator, env.stamp);
        res := AGAIN;
        return;
      }
      var ids := GetOSDIDsFromNodeDevices(instance.nodeDevice);
      var probing := CountStuckIDs(ids, env);
      match probing {
        case ProbeError =>
        case ProbePanic => panicked := true;
        case StillTerminating => res := After(15);
        case Stuck(c) =>
          if c > 0 {
            var err := ForceDeleteRookCephOSDPods(ids, env);
            if err {
              return;
            }
            instance.TransitionNextCondition(Kind.ForceDeleteRookCephOSDPods, env.stamp);
          } else {
            instance.TransitionNextCondition(ProcessOCSRemovalTemplate, env.stamp);
          }
          res := AGAIN;
      }
    }

    method ProcessTemplateBranch(instance: Instance, env: Env) returns (res: Result)
      requires instance.conditions != []
      modifies client`cluster, instance
      ensures Agrees(ProcessTemplate(old(instance.View()), old(client.cluster), env), instance.View(), client.cluster, res, false, env.stamp)
    {
      var err := DeleteOldOSDRemovalJob(env);
      if err {
        return ERROR;
      }
      var osds, listErr := client.List(OSDPods, ListOSDPods, env);
      if listErr {
        return ERROR;
      }
      instance.forcedOSDRemoval := |osds| <= 3;
      var ids := GetOSDIDsFromNodeDevices(instance.nodeDevice);
      err := ProcessOCSOSDRemovalTemplate(ids, instance.forcedOSDRemoval, env);
      if err {
        return ERROR;
      }
      instance.TransitionNextCondition(CleanupOSDRemovalJob, env.stamp);
      return After(10);
    }

    method FinishRemovalBranch(instance: Instance, pod: Pod, env: Env) returns (res: Result)
      requires instance.conditions != []
      modifies client`cluster, instance
      ensures Agrees(FinishRemoval(old(instance.View()), old(client.cluster), pod, env), instance.View(), client.cluster, res, false, env.stamp)
    {
      var err := ValidateJobLogs(pod, env);
      if err {
        instance.phase := Failed;
        return ERROR;
      }
      err := DeleteOldOSDRemovalJob(env);
      if err {
        return ERROR;
      }
      instance.TransitionNextCondition(WaitForPersistenVolumeBound, env.stamp);
      return AGAIN;
    }

    method CleanupBranch(instance: Instance, since: Time, env: Env) returns (res: Result)
      requires instance.conditions != []
      modifies client`cluster, instance
      ensures Agrees(Cleanup(old(instance.View()), since, old(client.cluster), env), instance.View(), client.cluster, res, false, env.stamp)
    {
      var pod := GetOSDRemovalPodJobCompletionStatus(env);
      if pod.None? {
        return ERROR;
      }
      if pod.value.phase != PodSucceeded {
        if env.now < since + OSD_REMOVAL_JOB_TIMEOUT {
          return After(10);
        }
        var err := DeleteOldOSDRemovalJob(env);
        if err {
          return ERROR;
        }
        var ids := GetOSDIDsFromNodeDevices(instance.nodeDevice);
        err := ProcessOCSOSDRemovalTemplate(ids, true, env);
        if err {
          return ERROR;
        }
        instance.forcedOSDRemoval := true;
        instance.TransitionNextCondition(RetryForceCleanupOSDRemovalJob, env.stamp);
        return AGAIN;
      }
      res := FinishRemovalBranch(instance, pod.value, env);
    }

    method RetryCleanupBranch(instance: Instance, since: Time, env: Env) returns (res: Result)
      requires instance.conditions != []
      modifies client`cluster, instance
      ensures Agrees(RetryCleanup(old(instance.View()), since, old(client.cluster), env), instance.View(), client.cluster, res, false, env.stamp)
    {
      var pod := GetOSDRemovalPodJobCompletionStatus(env);
      if pod.None? {
        return ERROR;
      }
      if pod.value.phase != PodSucceeded {
        if env.now < since + OSD_REMOVAL_JOB_TIMEOUT {
          return After(10);
        }
        instance.phase := Failed;
        return DONE;
      }
      res := FinishRemovalBranch(instance, pod.value, env);
    }

    method WaitForVolumesBranch(instance: Instance, env: Env) returns (res: Result)
      requires instance.conditions != []
      modifies client`cluster, instance
      ensures Agrees(WaitForVolumes(old(instance.View()), old(client.cluster), env), instance.View(), client.cluster, res, false, env.stamp)
    {
      var errs := false;
      var entries := instance.nodeDevice;
      for i := 0 to |entries|
        invariant instance.View() == old(instance.View())
        invariant Sweep(entries, i, client.cluster, errs, env) == Sweep(entries, 0, old(client.cluster), false, env)
      {
        if env.fails(ListNodePVs(i)) {
          return ERROR;
        }
        var vs := NodePVs(client.cluster.pvs, entries[i].node);
        var err := ProcessPVForNode(entries[i], vs, i, env);
        errs := errs || err;
      }
      if errs {
        return After(15);
      }
      var expected := |instance.operationalOSDIDs| + |instance.nodeDevice|;
      var found, err := CountPVCsBoundToOSDPods(env);
      if err || found < expected {
        return After(15);
      }
      instance.TransitionNextCondition(RestartStorageOperator, env.stamp);
      return AGAIN;
    }

    method RestartBranch(instance: Instance, env: Env) returns (res: Result)
      requires instance.conditions != []
      modifies client`cluster, instance
      ensures Agrees(Restart(old(instance.View()), old(client.cluster), env), instance.View(), client.cluster, res, false, env.stamp)
    {
      if instance.pendingPods || instance.crashLoopBackOffPods {
        var err := DeleteRookCephOperatorPod(env);
        if err {
          return ERROR;
        }
      }
      instance.TransitionNextCondition(DeleteFailedPodsNodeAffinity, env.stamp);
      return After(30);
    }

    method DeleteAffinityBranch(instance: Instance, env: Env) returns (res: Result)
      requires instance.conditions != []
      modifies client`cluster, instance
      ensures Agrees(DeleteAffinity(old(instance.View()), old(client.cluster), env), instance.View(), client.cluster, res, false, env.stamp)
    {
      var err := DeleteFailedPodsWithReasonNodeAffinity(env);
      if err {
        return ERROR;
      }
      instance.TransitionNextCondition(StorageClusterFitnessCheck, env.stamp);
      return AGAIN;
    }

    method FitnessBranch(instance: Instance, env: Env) returns (res: Result)
      requires instance.conditions != []
      modifies client`cluster, instance
      ensures Agrees(Fitness(old(instance.View()), old(client.cluster), env), instance.View(), client.cluster, res, false, env.stamp)
    {
      var status, err := GetCephHealthStatus(env);
      if err {
        return ERROR;
      }
      if status != HEALTH_OK {
        var pod := GetRunningCephToolsPod(1, env);
        if pod.None? || env.fails(CephArchive) {
          return ERROR;
        }
        return After(15);
      }
      instance.TransitionNextCondition(DisableCephTools, env.stamp);
      return AGAIN;
    }

    /** The cases that return from inside the switch. */
    method EarlierBranch(instance: Instance, latest: Condition, env: Env) returns (res: Result, panicked: bool)
      requires instance.conditions != []
      requires latest.kind != DisableCephTools && !latest.kind.Unknown?
      modifies client`cluster, instance
      ensures Agrees(Branch(latest, old(instance.View()), old(client.cluster), env), instance.View(), client.cluster, res, panicked, env.stamp)
    {
      panicked := false;
      match latest.kind {
        case EnableCephToolsPod => res := EnableToolsBranch(instance, env);
        case WaitForCephToolsPodRunning => res := WaitForToolsBranch(instance, env);
        case WaitForOSDPodsStabilize => res := StabilizeBranch(instance, env);
        case LabelNodesWithPendingPods => res := LabelPendingBranch(instance, env);
        case ManageCrashLoopBackOffPods => res, panicked := ManageCrashesBranch(instance, env);
        case ForceDeleteRookCephOSDPods => res, panicked := ForceDeleteBranch(instance, env);
        case ProcessOCSRemovalTemplate => res := ProcessTemplateBranch(instance, env);
        case CleanupOSDRemovalJob => res := CleanupBranch(instance, latest.lastTransition, env);
        case RetryForceCleanupOSDRemovalJob => res := RetryCleanupBranch(instance, latest.lastTransition, env);
        case WaitForPersistenVolumeBound => res := WaitForVolumesBranch(instance, env);
        case RestartStorageOperator => res := RestartBranch(instance, env);
        case DeleteFailedPodsNodeAffinity => res := DeleteAffinityBranch(instance, env);
        case StorageClusterFitnessCheck => res := FitnessBranch(instance, env);
      }
    }

    /** The cases that fall out of the switch, and what follows it. */
    method FinalBranch(instance: Instance, latest: Condition, env: Env) returns (res: Result)
      requires instance.conditions != [] && latest == Latest(instance.View())
      requires latest.kind == DisableCephTools || latest.kind.Unknown?
      requires !TimedOut(instance.View(), env.now)
      modifies client`cluster, instance, metrics
      ensures var st := old(instance.View());
              var out := Branch(latest, st, old(client.cluster), env);
              && Agrees(out, instance.View(), client.cluster, res, false, env.stamp)
              && metrics.View() == Counted(old(metrics.View()), st, out, env.now)
    {
      if latest.kind == DisableCephTools {
        if !instance.keepCephToolsPod {
          var err := SetEnableCephToolsValue(false, env);
          if err {
            return ERROR;
          }
        }
        metrics.IncrementCompletedOperandCounter(instance.nodeDevice);
      }
      instance.phase := Completed;
      instance.completionTime := Some(env.stamp);
      metrics.completed := metrics.completed + 1;
      return DONE;
    }

    /** NodeRecovery.Reconcile */
    method Reconcile(instance: Instance, env: Env) returns (res: Result, panicked: bool)
      modifies client`cluster, instance, metrics
      ensures var st := old(instance.View());
              var out := Inner(st, old(client.cluster), env);
              && Agrees(out, instance.View(), client.cluster, res, panicked, env.stamp)
              && metrics.View() == Counted(old(metrics.View()), st, out, env.now)
    {
      res, panicked := DONE, false;
      if instance.conditions == [] {
        panicked := true;
        return;
      }
      var latest := instance.conditions[|instance.conditions| - 1];
      if env.now > latest.lastTransition + RECONCILIATION_TIMEOUT {
        instance.phase := Failed;
        metrics.IncrementFailedNodeCounter(instance.nodeDevice);
        metrics.failed := Bump(metrics.failed, latest.kind);
        return;
      }
      if latest.kind == DisableCephTools || latest.kind.Unknown? {
        res := FinalBranch(instance, latest, env);
      } else {
        OnlyEndsFinish(latest, instance.View(), client.cluster, env);
        res, panicked := EarlierBranch(instance, latest, env);
      }
    }
  }

  lemma OnlyEndsFinish(last: Condition, st: Status, cl: Cluster, env: Env)
    requires last.kind != DisableCephTools && !last.kind.Unknown?
    ensures var out := Branch(last, st, cl, env); out.Outcome? ==> out.move != Finish
  {
  }

  /** One more stuck ID for each already counted. */
  function PlusStuck(c: nat, p: Probing): Probing {
    match p
    case Stuck(n) => Stuck(c + n)
    case other => other
  }

  class NodeRecoveryReconciler {
    const client: Client
    const metrics: Metrics

    constructor (client: Client, metrics: Metrics)
      ensures this.client == client && this.metrics == metrics
    {
      this.client, this.metrics := client, metrics;
    }

    method StatusUpdate(instance: Instance, env: Env) returns (err: bool)
      modifies client`stored
      ensures err <==> env.fails(WriteStatus) || !Accepts(client.store, instance.View())
      ensures client.stored == if err then old(client.stored) else instance.View()
    {
      var distinct := true;
      var cs := instance.conditions;
      for j := 0 to |cs|
        invariant distinct <==> forall a, b :: 0 <= a < b < j ==> cs[a].kind != cs[b].kind
      {
        for i := 0 to j
          invariant distinct <==> (forall a, b :: 0 <= a < b < j ==> cs[a].kind != cs[b].kind)
                                  && forall a :: 0 <= a < i ==> cs[a].kind != cs[j].kind
        {
          if cs[i].kind == cs[j].kind {
            distinct := false;
          }
        }
      }
      err := env.fails(WriteStatus) || (client.store == UniqueTypes && !distinct);
      if !err {
        client.stored := instance.View();
      }
    }

    /** A resource without a start time is started and counted. */
    method Initialise(instance: Instance, env: Env)
      modifies instance, metrics
      ensures instance.View() == Started(old(instance.View()), env.now)
      ensures var m := old(metrics.View());
              metrics.View() == if old(instance.startTime).None? then m.(total := m.total + 1) else m
    {
      if instance.startTime.None? {
        instance.startTime := Some(env.now);
        instance.phase := Running;
        instance.conditions := instance.conditions + [Condition(EnableCephToolsPod, env.now, true)];
        metrics.total := metrics.total + 1;
      }
    }

    /** NodeRecoveryReconciler.Reconcile, with the recovery of a panic that the controller runtime puts
        around it: no status is written, and the panic is returned as an error. */
    method Reconcile(env: Env) returns (res: Result, panicked: bool)
      modifies client`cluster, client`stored, metrics
      ensures var p := Request(client.store, old(client.stored), old(client.cluster), env);
              && client.stored == p.st && client.cluster == p.cl
              && panicked == p.panicked && res == p.res
      ensures !Proceeds(old(client.stored), env) ==> metrics.View() == old(metrics.View())
      ensures Proceeds(old(client.stored), env) ==>
                var m, st := old(metrics.View()), old(client.stored);
                var begun := if st.startTime.None? then m.(total := m.total + 1) else m;
                metrics.View() == Counted(begun, Started(st, env.now), Inner(Started(st, env.now), old(client.cluster), env), env.now)
    {
      res, panicked := DONE, false;
      if env.fetch == FetchFailed {
        return ERROR, false;
      }
      if env.fetch != Found {
        return;
      }
      var instance := new Instance(client.stored);
      if instance.phase == Failed || instance.phase == Completed {
        return;
      }
      Initialise(instance, env);
      var recoverer := new NodeRecovery(client, metrics);
      res, panicked := recoverer.Reconcile(instance, env);
      if panicked {
        res := ERROR;
        return;
      }
      var err := StatusUpdate(instance, env);
      if err {
        res := res.(err := true);
      }
    }
  }
}
