/** What the controller's helpers do to the cluster, call by call, with every call free to fail.
    The imperative helpers in module Controller are proved equal to these functions. */
module Effects {
  import opened Types
  import opened Pods

  function Log(cl: Cluster, events: seq<Event>): Cluster {
    cl.(journal := cl.journal + events)
  }

  /******* The tools flag *******/

  function WithTools(cl: Cluster, value: bool): Cluster {
    if cl.before415
    then Log(cl.(ocsInitTools := value), [ToolsSet(value)])
    else Log(cl.(storageClusterTools := value), [ToolsSet(value)])
  }

  /** None when a call fails; the update is the last call, so a failure changes nothing. */
  function SetTools(cl: Cluster, value: bool, env: Env): Option<Cluster> {
    if env.fails(GetVersion(1)) || env.fails(GetTools(1)) || env.fails(UpdateTools) then None
    else Some(WithTools(cl, value))
  }

  function IsToolsEnabled(cl: Cluster, env: Env): Option<bool> {
    if env.fails(GetVersion(0)) || env.fails(GetTools(0)) then None else Some(ToolsOn(cl))
  }

  /** The first tools pod, which the source calls the running one. */
  function ToolsPod(cl: Cluster, site: nat, env: Env): Option<Pod> {
    var pods := ListPods(cl.pods, Query.ToolsPods);
    if env.fails(ListToolsPods(site)) || pods == [] then None else Some(pods[0])
  }

  /******* Labelling the nodes of pending pods *******/

  predicate Reaches(cl: Cluster, node: string, env: Env) {
    node in cl.nodes && !env.fails(GetNode(node)) && !env.fails(UpdateNode(node))
  }

  /** Each target is labelled unless its own calls fail, in whatever order they are visited. */
  function LabelNodes(cl: Cluster, targets: set<string>, env: Env): Cluster {
    cl.(nodes := map n | n in cl.nodes ::
      if n in targets && Reaches(cl, n, env) then cl.nodes[n][StorageAffinity := ""] else cl.nodes[n])
  }

  /******* Scaling down the deployments of failing pods *******/

  datatype Scaling = Scaling(deployments: seq<Deployment>, events: seq<Event>, ok: bool)

  /** Update the deployments of one ID in turn, up to the first update that fails. */
  function ScaleDown(ds: seq<Deployment>, id: string, i: nat, env: Env): Scaling {
    if ds == [] then Scaling([], [], true)
    else
      var d := ds[0];
      if !Carries(d.labels, id) then
        var rest := ScaleDown(ds[1..], id, i, env);
        rest.(deployments := [d] + rest.deployments)
      else if env.fails(UpdateDeployment(i, d.name)) then Scaling(ds, [], false)
      else
        var rest := ScaleDown(ds[1..], id, i, env);
        Scaling([d.(replicas := 0)] + rest.deployments, [Scaled(d.name, id)] + rest.events, rest.ok)
  }

  function FindPVC(pvcs: seq<PVC>, name: string): (r: Option<PVC>)
    ensures r.Some? ==> r.value in pvcs && r.value.name == name
    ensures r.None? ==> forall c :: c in pvcs ==> c.name != name
  {
    if pvcs == [] then None else if pvcs[0].name == name then Some(pvcs[0]) else FindPVC(pvcs[1..], name)
  }

  function FindPV(pvs: seq<PV>, name: string): (r: Option<PV>)
    ensures r.Some? ==> r.value in pvs && r.value.name == name
    ensures r.None? ==> forall v :: v in pvs ==> v.name != name
  {
    if pvs == [] then None else if pvs[0].name == name then Some(pvs[0]) else FindPV(pvs[1..], name)
  }

  datatype Lookup = Located(entry: NodePV) | Unlabelled | LookupError

  /** The node and volume behind a pod. A pod without the claim label gives the source's nil. */
  function NodeDeviceOf(p: Pod, i: nat, cl: Cluster, env: Env): Lookup {
    if PvcName !in p.labels then Unlabelled
    else
      var pvc := FindPVC(cl.pvcs, p.labels[PvcName]);
      if env.fails(GetPVC(i)) || pvc.None? then LookupError
      else
        var pv := FindPV(cl.pvs, pvc.value.volume);
        if env.fails(GetPV(i)) || pv.None? then LookupError
        else Located(NodePV(Get(pv.value.labels, Hostname), pv.value.name, Get(p.labels, OsdName)))
  }

  datatype Handling =
    | Handled(entries: seq<NodePV>, cl: Cluster)
    | HandleError(cl: Cluster)
    | HandlePanic(cl: Cluster)

  function Prepend(entries: seq<NodePV>, h: Handling): Handling {
    match h
    case Handled(es, cl) => Handled(entries + es, cl)
    case HandleError(cl) => h
    case HandlePanic(cl) => h
  }

  /** Record and scale down the failing pods from the i-th on. */
  function Handle(pods: seq<Pod>, i: nat, cl: Cluster, env: Env): Handling
    requires i <= |pods|
    decreases |pods| - i
  {
    if i == |pods| then Handled([], cl)
    else
      match NodeDeviceOf(pods[i], i, cl, env)
      case LookupError => HandleError(cl)
      case Unlabelled => HandlePanic(cl)
      case Located(entry) =>
        if env.fails(ListDeployments(i)) then HandleError(cl)
        else
          var s := ScaleDown(cl.deployments, entry.osdID, i, env);
          var next := Log(cl.(deployments := s.deployments), s.events);
          if !s.ok then HandleError(next)
          else Prepend([entry], Handle(pods, i + 1, next, env))
  }

  function OSDIDs(entries: seq<NodePV>): (ids: seq<string>)
    ensures |ids| == |entries| && forall k :: 0 <= k < |ids| ==> ids[k] == entries[k].osdID
  {
    seq(|entries|, k requires 0 <= k < |entries| => entries[k].osdID)
  }

  function OsdNames(pods: seq<Pod>): (ids: seq<string>)
    ensures |ids| == |pods| && forall k :: 0 <= k < |ids| ==> ids[k] == Get(pods[k].labels, OsdName)
  {
    seq(|pods|, k requires 0 <= k < |pods| => Get(pods[k].labels, OsdName))
  }

  /******* Waiting for terminating OSD pods *******/

  datatype Probing = ProbeError | ProbePanic | StillTerminating | Stuck(ids: nat)

  /** Look up the pods of each ID in turn: the first failure or the first pod younger than the
      grace period ends the loop, otherwise count the IDs that still have pods. */
  function Probe(ids: seq<string>, i: nat, cl: Cluster, env: Env): Probing
    requires i <= |ids|
    decreases |ids| - i
  {
    if i == |ids| then Stuck(0)
    else
      var pods := ListPods(cl.pods, OSDPodsWithID(ids[i]));
      if env.fails(ListPodsOfID(i)) then ProbeError
      else if pods == [] then Probe(ids, i + 1, cl, env)
      else if pods[0].deletion.None? then ProbePanic
      else if env.now < pods[0].deletion.value + TERMINATION_GRACE then StillTerminating
      else
        match Probe(ids, i + 1, cl, env)
        case Stuck(c) => Stuck(c + 1)
        case other => other
  }

  /** An empty `In` selector is an error of the selector library. */
  function ForceDelete(ids: seq<string>, cl: Cluster, env: Env): Option<Cluster> {
    if ids == [] || env.fails(ForceDeletePods) then None
    else Some(Log(cl.(pods := DeletePods(cl.pods, PodsWithAnyID(ids), env)), [ForceDeleted(ids)]))
  }

  /******* The removal job *******/

  datatype Attempt = Attempt(cl: Cluster, ok: bool)

  /** deleteOldOSDRemovalJob: the job if there is one, then its pods. */
  function ClearJob(cl: Cluster, env: Env): Attempt {
    if env.fails(GetJob) then Attempt(cl, false)
    else if cl.job.Some? && env.fails(DeleteJob) then Attempt(cl, false)
    else
      var c := if cl.job.Some? && !env.jobLingers then cl.(job := None) else cl;
      if env.fails(DeleteJobPods) then Attempt(c, false)
      else Attempt(Log(c.(pods := DeletePods(c.pods, JobPods, env)), [JobCleared]), true)
  }

  /** processOCSOSDRemovalTemplate: the API server refuses a second job of the same name. */
  function SubmitJob(ids: seq<string>, force: bool, cl: Cluster, env: Env): Option<Cluster> {
    if env.fails(GetTemplate) || env.fails(CreateJob) || cl.job.Some? then None
    else Some(Log(cl.(job := Some(Job(ids, force))),
                  [JobCreated(Job(ids, force), cl.pods, cl.deployments)]))
  }

  function FirstLive(pods: seq<Pod>): (r: Option<Pod>)
    ensures r.Some? ==> r.value in pods && r.value.deletion.None?
    ensures r.None? ==> forall p :: p in pods ==> p.deletion.Some?
  {
    if pods == [] then None else if pods[0].deletion.None? then Some(pods[0]) else FirstLive(pods[1..])
  }

  function JobPod(cl: Cluster, env: Env): Option<Pod> {
    if env.fails(ListJobPods) then None else FirstLive(ListPods(cl.pods, JobPods))
  }

  /******* Released volumes *******/

  function NodePVs(pvs: seq<PV>, node: string): (r: seq<PV>)
    ensures forall v :: v in r <==> v in pvs && Hostname in v.labels && v.labels[Hostname] == node
  {
    if pvs == [] then []
    else (if Hostname in pvs[0].labels && pvs[0].labels[Hostname] == node then [pvs[0]] else []) + NodePVs(pvs[1..], node)
  }

  function WithoutPV(pvs: seq<PV>, name: string): (r: seq<PV>)
    ensures forall v :: v in r <==> v in pvs && v.name != name
  {
    if pvs == [] then [] else (if pvs[0].name == name then [] else [pvs[0]]) + WithoutPV(pvs[1..], name)
  }

  predicate IsReleased(v: PV, entry: NodePV) {
    v.name == entry.pv && v.phase == VolumeReleased
  }

  /** One delete request. */
  function SendPVDelete(v: PV, entry: NodePV, i: nat, cl: Cluster, env: Env): Cluster {
    var pvs := if env.fails(DeletePV(i, v.name)) || env.lingers(v.name) then cl.pvs else WithoutPV(cl.pvs, v.name);
    Log(cl.(pvs := pvs), [PVDeleteSent(v, entry)])
  }

  /** processPVForNode on the volumes from the k-th on. */
  function SweepNode(vs: seq<PV>, k: nat, entry: NodePV, i: nat, cl: Cluster, env: Env): Cluster
    requires k <= |vs|
    decreases |vs| - k
  {
    if k == |vs| then cl
    else SweepNode(vs, k + 1, entry, i, if IsReleased(vs[k], entry) then SendPVDelete(vs[k], entry, i, cl, env) else cl, env)
  }

  ghost predicate NodePending(vs: seq<PV>, entry: NodePV) {
    vs == [] || exists v :: v in vs && IsReleased(v, entry)
  }

  datatype Sweeping = SweepError(cl: Cluster) | Swept(cl: Cluster, pending: bool)

  /** The volume loop over the recorded nodes from the i-th on; `pending` is whether some earlier
      entry already reported an error. */
  ghost function Sweep(entries: seq<NodePV>, i: nat, cl: Cluster, pending: bool, env: Env): Sweeping
    requires i <= |entries|
    decreases |entries| - i
  {
    if i == |entries| then Swept(cl, pending)
    else if env.fails(ListNodePVs(i)) then SweepError(cl)
    else
      var vs := NodePVs(cl.pvs, entries[i].node);
      Sweep(entries, i + 1, SweepNode(vs, 0, entries[i], i, cl, env), pending || NodePending(vs, entries[i]), env)
  }

  /******* Bound claims *******/

  predicate CountedClaim(c: PVC) {
    CephImage in c.labels && c.labels[CephImage] == "" && c.phase == ClaimBound
  }

  function ClaimNames(pvcs: seq<PVC>): (r: seq<string>)
    ensures forall n :: n in r <==> exists c :: c in pvcs && CountedClaim(c) && c.name == n
  {
    if pvcs == [] then []
    else
      assert pvcs == [pvcs[0]] + pvcs[1..];
      (if CountedClaim(pvcs[0]) then [pvcs[0].name] else []) + ClaimNames(pvcs[1..])
  }

  /** countPVCsBoundToODSPods: with no claim to name, the selector itself is an error. */
  function CountClaims(cl: Cluster, env: Env): Option<nat> {
    var names := ClaimNames(cl.pvcs);
    if env.fails(ListClaims) || names == [] || env.fails(ListClaimPods) then None
    else Some(|ListPods(cl.pods, OSDPodsOnClaims(names))|)
  }

  /******* Failed pods *******/

  predicate AffinityFailure(p: Pod) {
    p.phase == PodFailed && p.reason == NODE_AFFINITY_REASON
  }

  function AffinityFailures(pods: seq<Pod>): (r: seq<Pod>)
    ensures forall p :: p in r <==> p in pods && AffinityFailure(p)
  {
    if pods == [] then []
    else (if AffinityFailure(pods[0]) then [pods[0]] else []) + AffinityFailures(pods[1..])
  }

  function WithoutPod(pods: seq<Pod>, name: string): (r: seq<Pod>)
    ensures forall p :: p in r <==> p in pods && p.name != name
  {
    if pods == [] then [] else (if pods[0].name == name then [] else [pods[0]]) + WithoutPod(pods[1..], name)
  }

  /** Delete the listed pods from the k-th on; a failed delete does not stop the loop. */
  function DeleteEach(listed: seq<Pod>, k: nat, pods: seq<Pod>, env: Env): seq<Pod>
    requires k <= |listed|
    decreases |listed| - k
  {
    if k == |listed| then pods
    else
      var name := listed[k].name;
      DeleteEach(listed, k + 1, if env.fails(DeletePod(name)) || env.lingers(name) then pods else WithoutPod(pods, name), env)
  }

  function DeletesSucceed(listed: seq<Pod>, env: Env): (ok: bool)
    ensures ok <==> forall p :: p in listed ==> !env.fails(DeletePod(p.name))
  {
    listed == [] || (!env.fails(DeletePod(listed[0].name)) && DeletesSucceed(listed[1..], env))
  }

  function DeleteAffinityFailures(cl: Cluster, env: Env): Attempt {
    if env.fails(ListFailedPods) then Attempt(cl, false)
    else
      var listed := AffinityFailures(cl.pods);
      Attempt(cl.(pods := DeleteEach(listed, 0, cl.pods, env)), DeletesSucceed(listed, env))
  }

  function RestartOperator(cl: Cluster, env: Env): Option<Cluster> {
    if env.fails(DeleteOperatorPods) then None
    else Some(Log(cl.(pods := DeletePods(cl.pods, Query.OperatorPods, env)), [OperatorDeleted]))
  }
}
