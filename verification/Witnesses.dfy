/** Runs that show which stronger claims are false of the code: each lemma builds a run from an
    untouched resource, action by action. */
module Witnesses {
  import opened Types
  import opened Pods
  import opened Effects
  import opened Workflow
  import opened Contract
  import opened Branches
  import opened Runs
  import opened History
  import opened Safety
  import opened Accounting
  import opened Correlations
  import Fleet
  import JobLogs

  const CFG: Config := Config(Permissive, 0)

  /******* Building runs *******/

  ghost predicate Reached(w0: World, run: seq<Action>, w: World) {
    Init(w0) && LegalRun(CFG, w0, run) && Exec(CFG, w0, run) == w
  }

  /** Nothing but the controller acts. */
  ghost predicate Undisturbed(run: seq<Action>) {
    forall a :: a in run ==> a.Reconcile?
  }

  /** No request of the run lost its status. */
  ghost predicate Faithful(w0: World, run: seq<Action>) {
    run == [] ||
    (Faithful(w0, run[..|run| - 1]) && Retains(Exec(CFG, w0, run[..|run| - 1]), run[|run| - 1]))
  }

  ghost predicate Retains(w: World, a: Action) {
    a.Reconcile? ==> !Request(CFG.store, w.st, w.cl, a.env).lost
  }

  lemma Go(w0: World, run: seq<Action>, w: World, a: Action) returns (more: seq<Action>)
    requires Reached(w0, run, w) && Legal(CFG, w, a)
    ensures Reached(w0, more, Next(CFG, w, a))
    ensures Undisturbed(run) && a.Reconcile? ==> Undisturbed(more)
    ensures Faithful(w0, run) && Retains(w, a) ==> Faithful(w0, more)
  {
    more := run + [a];
    assert more[..|more| - 1] == run;
  }

  function Calm(now: Time): Env {
    Env(Found, now, now, (c: Call) => false, (n: string) => false, false, HEALTH_OK, "")
  }

  function Without(bad: Call, now: Time): Env {
    Calm(now).(fails := (c: Call) => c == bad)
  }

  /** The resource is at a condition since t, and it is t. */
  ghost predicate Stage(w: World, k: Kind, cl: Cluster, t: Time) {
    && At(w.st, k) && Latest(w.st).lastTransition == t && w.clock == t
    && w.st.phase == Running && w.st.startTime.Some? && w.cl == cl
  }

  /** A request in time whose status is kept. */
  lemma Serves(w: World, k: Kind, t: Time, env: Env, out: Outcome)
    requires Stage(w, k, w.cl, t) && env.fetch == Found && t <= env.now <= t + RECONCILIATION_TIMEOUT
    requires env.stamp == env.now && !env.fails(WriteStatus)
    requires out == Branch(Latest(w.st), w.st, w.cl, env) && out.Outcome?
    requires out.st.conditions == w.st.conditions && out.st.phase == Running && out.st.startTime.Some?
    ensures var n := Next(CFG, w, Reconcile(env));
            && n.st == Settle(out.st, out.move, env.now) && n.cl == out.cl && n.clock == env.now
            && (out.move.To? ==> Stage(n, out.move.next, out.cl, env.now))
            && (out.move == Stay && env.now == t ==> Stage(n, k, out.cl, t))
    ensures Retains(w, Reconcile(env))
  {
    Persists(w, env, out);
    var n := Next(CFG, w, Reconcile(env));
    assert out.move.To? ==> n.st.conditions[|n.st.conditions| - 1] == Condition(out.move.next, env.now, true);
  }

  lemma Persists(w: World, env: Env, out: Outcome)
    requires w.st.conditions != [] && w.st.startTime.Some? && w.st.phase == Running && !TimedOut(w.st, env.now)
    requires env.fetch == Found && !env.fails(WriteStatus)
    requires out == Branch(Latest(w.st), w.st, w.cl, env) && out.Outcome?
    ensures Request(CFG.store, w.st, w.cl, env) == Pass(Settle(out.st, out.move, env.stamp), out.cl, out.res, false, false)
  {
  }

  /** What later conditions rely on is the same. */
  ghost predicate SameRecord(a: Status, b: Status) {
    && a.nodeDevice == b.nodeDevice && a.operationalOSDIDs == b.operationalOSDIDs
    && a.pendingPods == b.pendingPods && a.crashLoopBackOffPods == b.crashLoopBackOffPods
    && a.keepCephToolsPod == b.keepCephToolsPod
  }

  /** A cluster the first four conditions pass through untouched. */
  ghost predicate Prepared(cl: Cluster) {
    && ToolsOn(cl)
    && ListPods(cl.pods, Query.ToolsPods) != [] && ListPods(cl.pods, Query.ToolsPods)[0].phase == PodRunning
    && Settled(cl.pods) && ListPods(cl.pods, PendingOSDPods) == []
  }

  ghost function Begin(cl: Cluster): World {
    World(BLANK, cl, 0, Memory(ToolsOn(cl), false, false, false, false, 0, false, false))
  }

  ghost predicate Fresh(st: Status) {
    && st.operationalOSDIDs == [] && st.nodeDevice == [] && !st.pendingPods && !st.crashLoopBackOffPods
    && st.keepCephToolsPod
  }

  lemma ToManaging(w0: World, before: seq<Action>, w1: World) returns (run: seq<Action>, w: World)
    requires Reached(w0, before, w1) && w1.st == BLANK && w1.clock == 0 && Prepared(w1.cl)
    ensures Reached(w0, run, w) && Stage(w, ManageCrashLoopBackOffPods, w1.cl, 0) && Fresh(w.st)
    ensures (Undisturbed(before) ==> Undisturbed(run)) && (Faithful(w0, before) ==> Faithful(w0, run))
  {
    var env := Calm(0);
    run, w := FirstTwo(w0, before, w1);
    Serves(w, WaitForOSDPodsStabilize, 0, env, Outcome(w.st, w1.cl, To(LabelNodesWithPendingPods), AGAIN));
    run := Go(w0, run, w, Reconcile(env));
    w := Next(CFG, w, Reconcile(env));
    Serves(w, LabelNodesWithPendingPods, 0, env, Outcome(w.st, w1.cl, To(ManageCrashLoopBackOffPods), AGAIN));
    run := Go(w0, run, w, Reconcile(env));
    w := Next(CFG, w, Reconcile(env));
  }

  lemma StartToManaging(cl: Cluster) returns (run: seq<Action>, w: World)
    requires Prepared(cl) && cl.journal == []
    ensures Reached(Begin(cl), run, w) && Stage(w, ManageCrashLoopBackOffPods, cl, 0) && Fresh(w.st)
    ensures Undisturbed(run) && Faithful(Begin(cl), run)
  {
    run, w := ToManaging(Begin(cl), [], Begin(cl));
  }

  lemma FirstTwo(w0: World, before: seq<Action>, w1: World) returns (run: seq<Action>, w: World)
    requires Reached(w0, before, w1) && w1.st == BLANK && w1.clock == 0 && Prepared(w1.cl)
    ensures Reached(w0, run, w) && Stage(w, WaitForOSDPodsStabilize, w1.cl, 0) && Fresh(w.st)
    ensures (Undisturbed(before) ==> Undisturbed(run)) && (Faithful(w0, before) ==> Faithful(w0, run))
  {
    var env := Calm(0);
    run := Go(w0, before, w1, Reconcile(env));
    w := Next(CFG, w1, Reconcile(env));
    var s0 := Started(BLANK, 0);
    assert EnableTools(s0, w1.cl, Calm(0)) == Outcome(s0.(keepCephToolsPod := true), w1.cl, To(WaitForCephToolsPodRunning), Types.After(10));
    Serves(w, WaitForCephToolsPodRunning, 0, env, Outcome(w.st, w1.cl, To(WaitForOSDPodsStabilize), AGAIN));
    run := Go(w0, run, w, Reconcile(env));
    w := Next(CFG, w, Reconcile(env));
  }

  /******* Clusters *******/

  function Tools(): Pod {
    Pod("tools", map[App := TOOLS_APP], map[], PodRunning, "", [], [], None)
  }

  function Osd(id: string, failing: bool): Pod {
    Pod(id, map[App := OSD_APP, OsdName := id, OsdID := id, PvcName := id], map[], PodRunning, "", [],
        if failing then [ContainerStatus(Some(CRASH_LOOP_BACK_OFF), None)] else [], None)
  }

  function OsdDeployment(id: string): Deployment {
    Deployment(id, map[App := OSD_APP, OsdID := id], 1)
  }

  function Claim(id: string): PVC {
    PVC(id, map[], id, ClaimBound)
  }

  function Volume(id: string): PV {
    PV(id, map[Hostname := "host"], VolumeBound)
  }

  /** A cluster of these OSD pods and deployments, with the tools flag on. */
  function Site(osds: seq<Pod>, deployments: seq<Deployment>, pvcs: seq<PVC>, pvs: seq<PV>): Cluster {
    Cluster([Tools()] + osds, deployments, pvs, pvcs, map[], false, false, true, None, [])
  }

  /** A running OSD pod that has left its creation phase. */
  ghost predicate Ordinary(p: Pod) {
    IsOSD(p) && p.phase == PodRunning && !Starting(p)
  }

  lemma OsdIsOrdinary(id: string, failing: bool)
    ensures Ordinary(Osd(id, failing)) && IsFailing(Osd(id, failing)) == failing
  {
    var p := Osd(id, failing);
    if failing {
      assert p.statuses[0] in p.initStatuses + p.statuses && InFailure(p.statuses[0]);
    }
  }

  lemma ToolsFacts()
    ensures Selects(Query.ToolsPods, Tools()) && !IsOSD(Tools()) && !Starting(Tools())
  {
    assert |TOOLS_APP| != |OSD_APP|;
  }

  lemma {:induction false} ListAll(pods: seq<Pod>)
    requires forall p :: p in pods ==> Ordinary(p)
    ensures ListPods(pods, OSDPods) == pods && ListPods(pods, PendingOSDPods) == []
  {
    if pods != [] {
      assert pods == [pods[0]] + pods[1..];
      ListAll(pods[1..]);
      assert pods[0] in pods && Ordinary(pods[0]);
      assert ListPods(pods, PendingOSDPods) == [] + ListPods(pods[1..], PendingOSDPods);
    }
  }

  /** What the first conditions list in such a cluster. */
  lemma SiteLists(osds: seq<Pod>)
    requires forall p :: p in osds ==> Ordinary(p)
    ensures var pods := [Tools()] + osds;
            && ListPods(pods, OSDPods) == osds && ListPods(pods, PendingOSDPods) == []
            && ListPods(pods, Query.ToolsPods) != [] && ListPods(pods, Query.ToolsPods)[0] == Tools()
  {
    ToolsFacts();
    ListAll(osds);
    assert ([Tools()] + osds)[1..] == osds;
  }

  /** Such a cluster passes the first four conditions untouched. */
  lemma SiteIsPrepared(osds: seq<Pod>, deployments: seq<Deployment>, pvcs: seq<PVC>, pvs: seq<PV>)
    requires forall p :: p in osds ==> Ordinary(p)
    ensures Prepared(Site(osds, deployments, pvcs, pvs))
  {
    ToolsFacts();
    SiteLists(osds);
  }

  lemma ClaimsResolve(p: Pod, id: string, cl: Cluster)
    requires PvcName in p.labels && p.labels[PvcName] == id
    requires Claim(id) in cl.pvcs && Volume(id) in cl.pvs
    requires forall c :: c in cl.pvcs ==> c.volume == c.name
    ensures Resolves(p, cl)
  {
    assert FindPVC(cl.pvcs, id).Some? by {
      assert Claim(id).name == id;
    }
    assert FindPV(cl.pvs, id).Some? by {
      assert Volume(id).name == id;
    }
  }

  /** The calls for the first failing pod succeed, the claim of the second is not read. */
  ghost predicate BreaksAtSecond(env: Env) {
    && !env.fails(GetPVC(0)) && !env.fails(GetPV(0)) && !env.fails(ListDeployments(0)) && env.fails(GetPVC(1))
    && forall name :: !env.fails(UpdateDeployment(0, name))
  }

  /** A pod whose deployment is scaled and a claim lookup that fails for the next one. */
  lemma HandleBreaksOff(pods: seq<Pod>, d: Deployment, cl: Cluster, env: Env) returns (h: Handling)
    requires |pods| == 2 && Resolves(pods[0], cl) && PvcName in pods[1].labels
    requires d in cl.deployments && Carries(d.labels, Get(pods[0].labels, OsdName))
    requires BreaksAtSecond(env)
    ensures h == Handle(pods, 0, cl, env) && h.HandleError?
    ensures h.cl == cl.(deployments := h.cl.deployments, journal := h.cl.journal)
    ensures ScaledIn(h.cl.journal, Get(pods[0].labels, OsdName))
  {
    var id := Get(pods[0].labels, OsdName);
    var s := ScaleDown(cl.deployments, id, 0, env);
    var next := Log(cl.(deployments := s.deployments), s.events);
    ScaleDownSucceedsIff(cl.deployments, id, 0, env);
    h := HandleError(next);
    ScaleDownContract(cl.deployments, id, 0, env);
    assert Scaled(d.name, id) in cl.journal + s.events;
  }

  /******* A failed managing pass can lose an OSD and leave stale IDs *******/

  const A: Pod := Osd("0", false)
  const A2: Pod := Osd("0", true)
  const B: Pod := Osd("1", true)
  const C: Pod := Osd("2", true)

  function ThreeOSDs(osds: seq<Pod>): Cluster {
    Site(osds, [OsdDeployment("0"), OsdDeployment("1"), OsdDeployment("2")],
         [Claim("0"), Claim("1"), Claim("2")], [Volume("0"), Volume("1"), Volume("2")])
  }

  lemma ClassifyFirst(p: Pod, rest: seq<Pod>)
    ensures Failing([p] + rest) == if IsFailing(p) then [p] + Failing(rest) else Failing(rest)
    ensures Operational([p] + rest) == if IsFailing(p) then Operational(rest) else [p] + Operational(rest)
  {
    assert ([p] + rest)[1..] == rest;
    assert [] + Failing(rest) == Failing(rest) && [] + Operational(rest) == Operational(rest);
  }

  lemma PairClassified(p: Pod, q: Pod)
    requires IsFailing(p) && IsFailing(q)
    ensures Failing([p, q]) == [p, q] && Operational([p, q]) == []
  {
    ClassifyFirst(q, []);
    ClassifyFirst(p, [q]);
    assert [p] + [q] == [p, q] && [q] + [] == [q];
  }

  lemma Classified()
    ensures Failing([A, B, C]) == [B, C] && Operational([A, B, C]) == [A]
    ensures Failing([A2, C]) == [A2, C] && Operational([A2, C]) == []
  {
    OsdIsOrdinary("0", false);
    OsdIsOrdinary("0", true);
    OsdIsOrdinary("1", true);
    OsdIsOrdinary("2", true);
    PairClassified(B, C);
    ClassifyFirst(A, [B, C]);
    assert [A] + [B, C] == [A, B, C] && [A] + [] == [A];
    PairClassified(A2, C);
  }

  lemma OrdinaryAll()
    ensures Ordinary(A) && Ordinary(A2) && Ordinary(B) && Ordinary(C)
  {
    OsdIsOrdinary("0", false);
    OsdIsOrdinary("0", true);
    OsdIsOrdinary("1", true);
    OsdIsOrdinary("2", true);
  }

  lemma TripleListed(a: Pod, b: Pod, c: Pod)
    requires Ordinary(a) && Ordinary(b) && Ordinary(c)
    ensures ListPods([Tools(), a, b, c], OSDPods) == [a, b, c]
  {
    SiteLists([a, b, c]);
    assert [Tools()] + [a, b, c] == [Tools(), a, b, c];
  }

  lemma PairListed(a: Pod, c: Pod)
    requires Ordinary(a) && Ordinary(c)
    ensures ListPods([Tools(), a, c], OSDPods) == [a, c]
  {
    SiteLists([a, c]);
    assert [Tools()] + [a, c] == [Tools(), a, c];
  }

  lemma Listed()
    ensures ListPods([Tools(), A, B, C], OSDPods) == [A, B, C] && ListPods([Tools(), A2, C], OSDPods) == [A2, C]
  {
    OrdinaryAll();
    TripleListed(A, B, C);
    PairListed(A2, C);
  }

  lemma ThreeArePrepared(cl: Cluster)
    requires cl == ThreeOSDs([A, B, C])
    ensures Prepared(cl)
  {
    OrdinaryAll();
    SiteIsPrepared([A, B, C], cl.deployments, cl.pvcs, cl.pvs);
  }

  /** A managing pass, given what it lists and how its loop ends. */
  lemma Manages(st: Status, cl: Cluster, env: Env, osds: seq<Pod>, h: Handling)
    requires !env.fails(ListOSDPods) && ListPods(cl.pods, OSDPods) == osds && Failing(osds) != []
    requires h == Handle(Failing(osds), 0, cl, env) && !h.HandlePanic?
    ensures ManageCrashes(st, cl, env) ==
      (var marked := st.(
         operationalOSDIDs := if Operational(osds) == [] then st.operationalOSDIDs else OsdNames(Operational(osds)),
         crashLoopBackOffPods := true);
       if h.Handled? then Outcome(marked.(nodeDevice := h.entries), h.cl, To(Kind.ForceDeleteRookCephOSDPods), Types.After(15))
       else Outcome(marked, h.cl, Stay, ERROR))
  {
  }

  /** The first failing pod will be scaled down and the claim of the second not read. */
  ghost predicate BreaksOff(cl: Cluster, env: Env, osds: seq<Pod>, d: Deployment) {
    && ListPods(cl.pods, OSDPods) == osds && Operational(osds) != [] && |Failing(osds)| == 2
    && Resolves(Failing(osds)[0], cl) && PvcName in Failing(osds)[1].labels
    && d in cl.deployments && Carries(d.labels, Get(Failing(osds)[0].labels, OsdName))
    && BreaksAtSecond(env) && !env.fails(ListOSDPods) && !env.fails(WriteStatus)
  }

  lemma ManagingBreaksOff(st: Status, cl: Cluster, env: Env, osds: seq<Pod>, d: Deployment) returns (out: Outcome)
    requires BreaksOff(cl, env, osds, d)
    ensures out == ManageCrashes(st, cl, env) && out.Outcome?
    ensures out.move == Stay && out.cl == cl.(deployments := out.cl.deployments, journal := out.cl.journal)
    ensures ScaledIn(out.cl.journal, Get(Failing(osds)[0].labels, OsdName))
    ensures out.st == st.(operationalOSDIDs := OsdNames(Operational(osds)), crashLoopBackOffPods := true)
  {
    var h := HandleBreaksOff(Failing(osds), d, cl, env);
    Manages(st, cl, env, osds, h);
    out := ManageCrashes(st, cl, env);
  }

  lemma ManagingServes(w: World, t: Time, env: Env, out: Outcome)
    requires Stage(w, ManageCrashLoopBackOffPods, w.cl, t) && env.fetch == Found && env.now == env.stamp == t
    requires !env.fails(WriteStatus) && out == ManageCrashes(w.st, w.cl, env) && out.Outcome?
    requires out.st.conditions == w.st.conditions && out.st.phase == Running && out.st.startTime.Some?
    ensures var n := Next(CFG, w, Reconcile(env));
            && n.st == Settle(out.st, out.move, t) && n.cl == out.cl
            && (out.move.To? ==> Stage(n, out.move.next, out.cl, t))
            && (out.move == Stay ==> Stage(n, ManageCrashLoopBackOffPods, out.cl, t))
            && (At(n.st, Kind.ForceDeleteRookCephOSDPods) ==> n.memory.seen == |ListPods(w.cl.pods, OSDPods)|)
    ensures Retains(w, Reconcile(env))
  {
    Serves(w, ManageCrashLoopBackOffPods, t, env, out);
  }

  lemma ClaimsReady(cl: Cluster)
    requires cl.pvcs == ThreeOSDs([]).pvcs && cl.pvs == ThreeOSDs([]).pvs
    ensures Resolves(A2, cl) && Resolves(B, cl) && Resolves(C, cl)
  {
    ClaimsResolve(A2, "0", cl);
    ClaimsResolve(B, "1", cl);
    ClaimsResolve(C, "2", cl);
  }

  lemma FirstDeployment(cl: Cluster, d: Deployment)
    requires d == OsdDeployment("1") && cl == ThreeOSDs([A, B, C])
    ensures d in cl.deployments && Carries(d.labels, Get(B.labels, OsdName)) && PvcName in C.labels
  {
  }

  lemma FirstReady(cl: Cluster, osds: seq<Pod>, d: Deployment)
    requires osds == [A, B, C] && cl == ThreeOSDs(osds) && d == OsdDeployment("1")
    ensures BreaksOff(cl, Without(GetPVC(1), 0), osds, d)
  {
    Listed();
    Classified();
    assert cl.pods == [Tools(), A, B, C];
    FirstDeployment(cl, d);
    ClaimsReady(cl);
  }

  /** Every listed pod fails, and everything behind it is there. */
  ghost predicate AllFailing(cl: Cluster, osds: seq<Pod>) {
    && ListPods(cl.pods, OSDPods) == osds && Failing(osds) == osds != [] && Operational(osds) == []
    && (forall p :: p in osds ==> Resolves(p, cl))
  }

  lemma AllHandled(osds: seq<Pod>, cl: Cluster, now: Time)
    requires forall p :: p in osds ==> Resolves(p, cl)
    ensures Handle(osds, 0, cl, Calm(now)).Handled?
  {
    assert forall k :: 0 <= k < |osds| ==> osds[k] in osds && Resolves(osds[k], cl);
    HandleExactly(osds, 0, cl, Calm(now));
  }

  lemma ManagingRecords(st: Status, cl: Cluster, now: Time, osds: seq<Pod>) returns (out: Outcome)
    requires AllFailing(cl, osds)
    ensures out == ManageCrashes(st, cl, Calm(now)) && out.Outcome?
    ensures out.move == To(Kind.ForceDeleteRookCephOSDPods) && out.res == Types.After(15)
    ensures out.st == st.(crashLoopBackOffPods := true, nodeDevice := out.st.nodeDevice)
    ensures OSDIDs(out.st.nodeDevice) == OsdNames(osds)
    ensures out.cl.pods == cl.pods
    ensures forall id :: ScaledIn(cl.journal, id) ==> ScaledIn(out.cl.journal, id)
  {
    AllHandled(osds, cl, now);
    var tail := HandleContract(osds, 0, cl, Calm(now));
    assert osds[0..] == osds;
    ScaledAppends(cl.journal, tail);
    Manages(st, cl, Calm(now), osds, Handle(osds, 0, cl, Calm(now)));
    out := ManageCrashes(st, cl, Calm(now));
  }

  lemma SecondReady(cl: Cluster, osds: seq<Pod>)
    requires osds == [A2, C] && cl.pods == [Tools(), A2, C]
    requires cl.pvcs == ThreeOSDs([]).pvcs && cl.pvs == ThreeOSDs([]).pvs
    ensures AllFailing(cl, osds)
  {
    Listed();
    Classified();
    ClaimsReady(cl);
  }

  lemma RecordingPass(w: World, t: Time, osds: seq<Pod>)
    requires Stage(w, ManageCrashLoopBackOffPods, w.cl, t) && AllFailing(w.cl, osds)
    ensures var n := Next(CFG, w, Reconcile(Calm(t)));
            && Stage(n, Kind.ForceDeleteRookCephOSDPods, n.cl, t) && n.st.crashLoopBackOffPods
            && n.cl.pods == w.cl.pods
            && OSDIDs(n.st.nodeDevice) == OsdNames(osds) && n.st.operationalOSDIDs == w.st.operationalOSDIDs
            && n.st.keepCephToolsPod == w.st.keepCephToolsPod
            && (forall id :: ScaledIn(w.cl.journal, id) ==> ScaledIn(n.cl.journal, id))
            && n.memory.seen == |osds|
    ensures Retains(w, Reconcile(Calm(t)))
  {
    var out := ManagingRecords(w.st, w.cl, t, osds);
    ManagingServes(w, t, Calm(t), out);
  }

  lemma RecordedHere(entries: seq<NodePV>)
    requires OSDIDs(entries) == OsdNames([A2, C])
    ensures "1" !in OSDIDs(entries) && |entries| == 2
  {
    assert |OSDIDs(entries)| == |entries|;
    assert "0"[0] != "1"[0] && "1"[0] != "2"[0];
  }

  /** OSDs 1 and 2 fail. The first managing pass scales OSD 1 to zero and then fails to read the
      claim of OSD 2. Before the retry the pod of OSD 1 is gone, as its deployment is at zero, and
      OSD 0 fails. The retry records OSDs 0 and 2: OSD 1 was scaled down in the run and is recorded
      nowhere, and the operational ID 0, left over from the first pass, is counted a second time. */
  lemma RetriedPassLosesAnOSD() returns (w0: World, run: seq<Action>, w: World)
    ensures Reached(w0, run, w)
    ensures At(w.st, Kind.ForceDeleteRookCephOSDPods)
    ensures ScaledIn(w.cl.journal, "1") && "1" !in OSDIDs(w.st.nodeDevice)
    ensures |w.st.operationalOSDIDs| + |w.st.nodeDevice| == 3 && w.memory.seen == 2
  {
    var cl := ThreeOSDs([A, B, C]);
    ThreeArePrepared(cl);
    w0 := Begin(cl);
    run, w := StartToManaging(cl);
    run, w := LoseAnOSD(w0, run, w, Without(GetPVC(1), 0), [A, B, C], OsdDeployment("1"), [Tools(), A2, C]);
  }

  lemma LoseAnOSD(w0: World, before: seq<Action>, w1: World, bad: Env, osds: seq<Pod>, d: Deployment, pods: seq<Pod>)
    returns (run: seq<Action>, w: World)
    requires Reached(w0, before, w1) && Stage(w1, ManageCrashLoopBackOffPods, w1.cl, 0)
    requires bad == Without(GetPVC(1), 0) && osds == [A, B, C] && pods == [Tools(), A2, C]
    requires w1.cl == ThreeOSDs(osds) && d == OsdDeployment("1")
    ensures Reached(w0, run, w)
    ensures At(w.st, Kind.ForceDeleteRookCephOSDPods)
    ensures ScaledIn(w.cl.journal, "1") && "1" !in OSDIDs(w.st.nodeDevice)
    ensures |w.st.operationalOSDIDs| + |w.st.nodeDevice| == 3 && w.memory.seen == 2
  {
    FirstReady(w1.cl, osds, d);
    var out := ManagingBreaksOff(w1.st, w1.cl, bad, osds, d);
    ManagingServes(w1, 0, bad, out);
    run := Go(w0, before, w1, Reconcile(bad));
    var w2 := Next(CFG, w1, Reconcile(bad));
    Classified();

    var later := w2.cl.(pods := pods);
    run := Go(w0, run, w2, Environment(later, 0));
    var w3 := Next(CFG, w2, Environment(later, 0));
    SecondReady(w3.cl, [A2, C]);

    RecordingPass(w3, 0, [A2, C]);
    run := Go(w0, run, w3, Reconcile(Calm(0)));
    w := Next(CFG, w3, Reconcile(Calm(0)));
    RecordedHere(w.st.nodeDevice);
  }

  /******* A pod that lingers keeps force deletion going for ever *******/

  function Lingering(now: Time): Env {
    Calm(now).(lingers := (n: string) => true)
  }

  /** The resource is at force deletion since t, for one OSD whose pod has been terminating since 0. */
  ghost predicate Held(w: World, t: Time, id: string) {
    && Stage(w, Kind.ForceDeleteRookCephOSDPods, w.cl, t) && w.st.crashLoopBackOffPods
    && OSDIDs(w.st.nodeDevice) == [id]
    && ListPods(w.cl.pods, OSDPodsWithID(id)) != []
    && (forall p :: p in w.cl.pods && OsdID in p.labels ==> p.deletion == Some(0))
  }

  lemma {:induction false} LingeringStays(pods: seq<Pod>, q: Query, env: Env)
    requires forall p :: p in pods && Selects(q, p) ==> env.lingers(p.name) && p.deletion.Some?
    ensures DeletePods(pods, q, env) == pods
  {
    if pods != [] {
      assert pods[0] in pods;
      LingeringStays(pods[1..], q, env);
    }
  }

  lemma ForcesOne(st: Status, cl: Cluster, id: string, env: Env)
    requires OSDIDs(st.nodeDevice) == [id] && !env.fails(ListPodsOfID(0)) && !env.fails(ForceDeletePods)
    requires ListPods(cl.pods, OSDPodsWithID(id)) != [] && Aged(ListPods(cl.pods, OSDPodsWithID(id))[0], env.now)
    ensures Forces(st, cl, env)
  {
    NoPodsOfID(cl.pods, id);
    assert id in [id];
  }

  lemma HeldBranch(st: Status, cl: Cluster, id: string, env: Env)
    requires OSDIDs(st.nodeDevice) == [id] && ListPods(cl.pods, OSDPodsWithID(id)) != [] && st.crashLoopBackOffPods
    requires forall p :: p in cl.pods && OsdID in p.labels ==> p.deletion == Some(0)
    requires env.now >= TERMINATION_GRACE && !env.fails(ListPodsOfID(0)) && !env.fails(ForceDeletePods)
    requires forall n: string :: env.lingers(n)
    ensures ForceDeletePhase(st, cl, env) ==
            Outcome(st, Log(cl, [ForceDeleted([id])]), To(Kind.ForceDeleteRookCephOSDPods), AGAIN)
  {
    assert ListPods(cl.pods, OSDPodsWithID(id))[0] in ListPods(cl.pods, OSDPodsWithID(id));
    ForcesOne(st, cl, id, env);
    ForcesExactly(st, cl, env);
    LingeringStays(cl.pods, PodsWithAnyID([id]), env);
  }

  lemma HeldStep(w: World, t: Time, id: string)
    requires Held(w, t, id) && t >= 0
    ensures var n := Next(CFG, w, Reconcile(Lingering(t + 1000)));
            && Held(n, t + 1000, id)
            && Entries(Kinds(n.st.conditions)) == Entries(Kinds(w.st.conditions)) + 1
  {
    var env := Lingering(t + 1000);
    HeldBranch(w.st, w.cl, id, env);
    Serves(w, Kind.ForceDeleteRookCephOSDPods, t, env, Outcome(w.st, Log(w.cl, [ForceDeleted([id])]), To(Kind.ForceDeleteRookCephOSDPods), AGAIN));
    HeldAgain(w, t, id, Next(CFG, w, Reconcile(env)));
  }

  lemma HeldAgain(w: World, t: Time, id: string, n: World)
    requires Held(w, t, id)
    requires Stage(n, Kind.ForceDeleteRookCephOSDPods, n.cl, t + 1000) && n.cl.pods == w.cl.pods
    requires n.st == Advance(w.st, Kind.ForceDeleteRookCephOSDPods, t + 1000)
    ensures Held(n, t + 1000, id)
    ensures Entries(Kinds(n.st.conditions)) == Entries(Kinds(w.st.conditions)) + 1
  {
    AdvanceAppends(w.st, Kind.ForceDeleteRookCephOSDPods, t + 1000);
    EntriesAppend(Kinds(w.st.conditions), Kind.ForceDeleteRookCephOSDPods);
  }

  /** One OSD pod of ID 0 besides the tools pod, terminating since d or not at all. */
  ghost predicate Alone(pods: seq<Pod>, p: Pod, d: Option<Time>) {
    && pods == [Tools(), p] && p.deletion == d
    && IsOSD(p) && OsdID in p.labels && p.labels[OsdID] == "0"
  }

  lemma OneOSD(d: Option<Time>) returns (cl: Cluster, p: Pod)
    ensures Prepared(cl) && cl.journal == [] && AllFailing(cl, [p])
    ensures Alone(cl.pods, p, d) && OsdNames([p]) == ["0"]
  {
    p := LonePod(d);
    cl := Site([p], [OsdDeployment("0")], [Claim("0")], [Volume("0")]);
    LoneReady(cl, p);
    ClaimsResolve(p, "0", cl);
  }

  lemma LonePod(d: Option<Time>) returns (p: Pod)
    ensures Ordinary(p) && IsFailing(p) && p.deletion == d && OsdNames([p]) == ["0"]
    ensures OsdID in p.labels && p.labels[OsdID] == "0" && PvcName in p.labels && p.labels[PvcName] == "0"
  {
    p := Osd("0", true).(deletion := d);
    OsdIsOrdinary("0", true);
  }

  lemma LoneReady(cl: Cluster, p: Pod)
    requires Ordinary(p) && IsFailing(p) && cl == Site([p], cl.deployments, cl.pvcs, cl.pvs)
    ensures Prepared(cl) && ListPods(cl.pods, OSDPods) == [p] && Failing([p]) == [p] && Operational([p]) == []
  {
    SiteLists([p]);
    SiteIsPrepared([p], cl.deployments, cl.pvcs, cl.pvs);
    ClassifyFirst(p, []);
    assert [p] + [] == [p];
  }

  /** One crash-looping OSD, recorded. */
  lemma ToForceDeletion(d: Option<Time>) returns (w0: World, run: seq<Action>, w: World, p: Pod)
    ensures Reached(w0, run, w) && Undisturbed(run) && Faithful(w0, run)
    ensures Stage(w, Kind.ForceDeleteRookCephOSDPods, w.cl, 0) && w.st.crashLoopBackOffPods
    ensures OSDIDs(w.st.nodeDevice) == ["0"] && Alone(w.cl.pods, p, d)
    ensures w.st.keepCephToolsPod && w.st.operationalOSDIDs == []
  {
    var cl;
    cl, p := OneOSD(d);
    w0 := Begin(cl);
    run, w := StartToManaging(cl);
    run, w := Records(w0, run, w, [p]);
  }

  lemma Records(w0: World, before: seq<Action>, w1: World, osds: seq<Pod>) returns (run: seq<Action>, w: World)
    requires Reached(w0, before, w1) && Undisturbed(before) && Faithful(w0, before)
    requires Stage(w1, ManageCrashLoopBackOffPods, w1.cl, 0) && AllFailing(w1.cl, osds) && Fresh(w1.st)
    ensures Reached(w0, run, w) && Undisturbed(run) && Faithful(w0, run)
    ensures Stage(w, Kind.ForceDeleteRookCephOSDPods, w.cl, 0) && w.st.crashLoopBackOffPods
    ensures w.st.keepCephToolsPod && w.st.operationalOSDIDs == []
    ensures OSDIDs(w.st.nodeDevice) == OsdNames(osds) && w.cl.pods == w1.cl.pods
  {
    RecordingPass(w1, 0, osds);
    run := Go(w0, before, w1, Reconcile(Calm(0)));
    w := Next(CFG, w1, Reconcile(Calm(0)));
  }

  lemma HeldFirst() returns (w0: World, run: seq<Action>, w: World)
    ensures Reached(w0, run, w) && Undisturbed(run) && Held(w, 0, "0")
    ensures Entries(Kinds(w.st.conditions)) >= 1
  {
    var p;
    w0, run, w, p := ToForceDeletion(Some(0));
    assert p in w.cl.pods && Selects(OSDPodsWithID("0"), p);
    HistoryIsAPath(CFG, w0, run);
    var ks := Kinds(w.st.conditions);
    PathLength(ks);
    assert ks[|ks| - 1] == Kind.ForceDeleteRookCephOSDPods;
  }

  /** Under a permissive store and with a pod that a finalizer holds, no bound on the running time
      exists: for every n the controller alone drives force deletion through n re-entries, a
      thousand seconds apart, and is still running. So no hypothesis on the rest of the cluster
      replaces ForceDeletionWorks in PermissiveStoreTerminates. */
  lemma {:induction false} LingeringPodNeverEnds(n: nat) returns (w0: World, run: seq<Action>, w: World)
    ensures Reached(w0, run, w) && Undisturbed(run)
    ensures Obeys(RemovalRespected, CFG, w0, run) && Obeys(ToolsUntouched, CFG, w0, run)
    ensures w.st.phase == Running && w.clock == 1000 * n && Entries(Kinds(w.st.conditions)) >= n + 1
    ensures Held(w, 1000 * n, "0")
  {
    if n == 0 {
      w0, run, w := HeldFirst();
    } else {
      w0, run, w := LingeringPodNeverEnds(n - 1);
      var t := 1000 * (n - 1);
      HeldStep(w, t, "0");
      run := Go(w0, run, w, Reconcile(Lingering(t + 1000)));
      w := Next(CFG, w, Reconcile(Lingering(t + 1000)));
    }
    UndisturbedObeys(w0, run);
  }

  lemma {:induction false} UndisturbedObeys(w0: World, run: seq<Action>)
    requires Undisturbed(run)
    ensures Obeys(RemovalRespected, CFG, w0, run) && Obeys(ToolsUntouched, CFG, w0, run)
  {
    if run != [] {
      assert Undisturbed(run[..|run| - 1]);
      UndisturbedObeys(w0, run[..|run| - 1]);
      assert run[|run| - 1] in run;
    }
  }

  /******* A lost enabling pass leaves the tools flag on *******/

  /** Nothing keeps the last conditions from passing. */
  ghost predicate Healthy(cl: Cluster) {
    AffinityFailures(cl.pods) == [] && ListPods(cl.pods, Query.ToolsPods) != []
  }

  lemma LastSteps(st: Status, cl: Cluster)
    requires Healthy(cl) && st.keepCephToolsPod
    ensures DeleteAffinity(st, cl, Calm(0)) == Outcome(st, cl, To(StorageClusterFitnessCheck), AGAIN)
    ensures Fitness(st, cl, Calm(0)) == Outcome(st, Log(cl, [HealthRead(HEALTH_OK)]), To(DisableCephTools), AGAIN)
    ensures DisableTools(st, cl, Calm(0)) == Outcome(st, cl, Finish, DONE)
  {
  }

  /** One of the last steps. */
  lemma LastStep(w0: World, before: seq<Action>, w: World, k: Kind) returns (run: seq<Action>, n: World)
    requires Reached(w0, before, w) && Stage(w, k, w.cl, 0) && Healthy(w.cl) && w.st.keepCephToolsPod
    requires k == DeleteFailedPodsNodeAffinity || k == StorageClusterFitnessCheck || k == DisableCephTools
    ensures Reached(w0, run, n) && SameRecord(w.st, n.st) && Healthy(n.cl) && ToolsOn(n.cl) == ToolsOn(w.cl)
    ensures k == DeleteFailedPodsNodeAffinity ==> Stage(n, StorageClusterFitnessCheck, n.cl, 0)
    ensures k == StorageClusterFitnessCheck ==> Stage(n, DisableCephTools, n.cl, 0)
    ensures k == DisableCephTools ==> n.st.phase == Completed
    ensures Undisturbed(before) ==> Undisturbed(run)
  {
    LastSteps(w.st, w.cl);
    Serves(w, k, 0, Calm(0), Branch(Latest(w.st), w.st, w.cl, Calm(0)));
    run := Go(w0, before, w, Reconcile(Calm(0)));
    n := Next(CFG, w, Reconcile(Calm(0)));
  }

  lemma ToCompletion(w0: World, before: seq<Action>, w1: World) returns (run: seq<Action>, w: World)
    requires Reached(w0, before, w1) && Stage(w1, DeleteFailedPodsNodeAffinity, w1.cl, 0)
    requires Healthy(w1.cl) && w1.st.keepCephToolsPod
    ensures Reached(w0, run, w) && w.st.phase == Completed && ToolsOn(w.cl) == ToolsOn(w1.cl) && SameRecord(w1.st, w.st)
    ensures Undisturbed(before) ==> Undisturbed(run)
  {
    run, w := LastStep(w0, before, w1, DeleteFailedPodsNodeAffinity);
    run, w := LastStep(w0, run, w, StorageClusterFitnessCheck);
    run, w := LastStep(w0, run, w, DisableCephTools);
  }

  /** No OSD pod, and so nothing to remove. */
  lemma IdleStep(w0: World, before: seq<Action>, w: World, k: Kind) returns (run: seq<Action>, n: World)
    requires Reached(w0, before, w) && Stage(w, k, w.cl, 0) && ListPods(w.cl.pods, OSDPods) == [] && Fresh(w.st)
    requires k == ManageCrashLoopBackOffPods || k == RestartStorageOperator
    ensures Reached(w0, run, n) && Fresh(n.st)
    ensures Stage(n, if k == ManageCrashLoopBackOffPods then RestartStorageOperator else DeleteFailedPodsNodeAffinity, w.cl, 0)
    ensures Undisturbed(before) ==> Undisturbed(run)
  {
    Serves(w, k, 0, Calm(0), Branch(Latest(w.st), w.st, w.cl, Calm(0)));
    run := Go(w0, before, w, Reconcile(Calm(0)));
    n := Next(CFG, w, Reconcile(Calm(0)));
  }

  /** A request whose status write fails leaves only its effect on the cluster. */
  lemma Loses(w: World, env: Env, s0: Status, out: Outcome)
    requires env.fetch == Found && !Terminal(w.st) && env.fails(WriteStatus) && out.Outcome?
    requires s0 == Started(w.st, env.now) && out == Inner(s0, w.cl, env)
    ensures var n := Next(CFG, w, Reconcile(env)); n.st == w.st && n.clock == env.stamp && n.cl == out.cl
  {
  }

  lemma EnablingIsLost(w: World, env: Env)
    requires w.st == BLANK && !ToolsOn(w.cl)
    requires env.fetch == Found && forall c :: env.fails(c) <==> c == WriteStatus
    ensures var n := Next(CFG, w, Reconcile(env));
            n.st == BLANK && n.clock == env.stamp && n.cl == WithTools(w.cl, true)
  {
    var s0 := FirstStatus(w.st, env.now);
    var out := Enabling(s0, w.cl, env);
    EnablingFirst(s0, w.cl, env);
    Loses(w, env, s0, out);
  }

  lemma FirstStatus(st: Status, now: Time) returns (s0: Status)
    requires st == BLANK
    ensures s0 == Started(st, now) && s0.conditions != [] && Latest(s0).kind == EnableCephToolsPod && !TimedOut(s0, now)
  {
    s0 := Started(st, now);
  }

  lemma Enabling(s0: Status, cl: Cluster, env: Env) returns (out: Outcome)
    requires (forall c :: env.fails(c) ==> c == WriteStatus) && !ToolsOn(cl)
    ensures out == EnableTools(s0, cl, env) && out.Outcome? && out.cl == WithTools(cl, true)
    ensures out.st == s0 && out.move == To(WaitForCephToolsPodRunning)
  {
    out := EnableTools(s0, cl, env);
  }

  lemma EnablingFirst(s0: Status, cl: Cluster, env: Env)
    requires s0.conditions != [] && Latest(s0).kind == EnableCephToolsPod && !TimedOut(s0, env.now)
    ensures Inner(s0, cl, env) == EnableTools(s0, cl, env)
  {
  }

  lemma NothingToRecover(cl: Cluster)
    requires cl == Site([], [], [], []).(storageClusterTools := false)
    ensures var on := WithTools(cl, true); Healthy(on) && ListPods(on.pods, OSDPods) == [] && Prepared(on)
    ensures !ToolsOn(cl)
  {
    ToolsFacts();
    SiteLists([]);
    SiteIsPrepared([], [], [], []);
    assert cl.pods == [Tools()] + [] && [Tools()][1..] == [];
  }

  /** The tools flag is off, the first pass switches it on and loses its status, so the second takes
      it for on from the start: the recovery completes and leaves the flag on, though the
      controller acted alone. */
  lemma LostEnablingKeepsToolsOn() returns (w0: World, run: seq<Action>, w: World)
    ensures Reached(w0, run, w) && Undisturbed(run) && Obeys(ToolsUntouched, CFG, w0, run)
    ensures w.st.phase == Completed && !ToolsOn(w0.cl) && ToolsOn(w.cl)
  {
    var cl := Site([], [], [], []).(storageClusterTools := false);
    NothingToRecover(cl);
    w0 := Begin(cl);
    var env := Without(WriteStatus, 0);
    EnablingIsLost(w0, env);
    run := Go(w0, [], w0, Reconcile(env));
    w := Next(CFG, w0, Reconcile(env));
    run, w := ToManaging(w0, run, w);
    run, w := IdleStep(w0, run, w, ManageCrashLoopBackOffPods);
    run, w := IdleStep(w0, run, w, RestartStorageOperator);
    run, w := ToCompletion(w0, run, w);
    UndisturbedObeys(w0, run);
  }

  /** The tools flag is off, the first pass switches it on, and no tools pod runs for half an hour: the
      recovery fails and leaves the flag on. */
  lemma FailureLeavesToolsOn() returns (w0: World, run: seq<Action>, w: World)
    ensures Reached(w0, run, w) && Undisturbed(run) && Faithful(w0, run) && Obeys(ToolsUntouched, CFG, w0, run)
    ensures w.st.phase == Failed && !ToolsOn(w0.cl) && ToolsOn(w.cl)
  {
    w0 := Begin(Site([], [], [], []).(storageClusterTools := false));
    EnablingIsKept(w0, Calm(0));
    run := Go(w0, [], w0, Reconcile(Calm(0)));
    w := Next(CFG, w0, Reconcile(Calm(0)));
    TimesOut(w, Calm(2000));
    run := Go(w0, run, w, Reconcile(Calm(2000)));
    w := Next(CFG, w, Reconcile(Calm(2000)));
    UndisturbedObeys(w0, run);
  }

  lemma EnablingIsKept(w: World, env: Env)
    requires w.st == BLANK && !ToolsOn(w.cl) && env.fetch == Found && env.now == env.stamp == 0
    requires forall c :: !env.fails(c)
    ensures Stage(Next(CFG, w, Reconcile(env)), WaitForCephToolsPodRunning, WithTools(w.cl, true), 0)
    ensures Retains(w, Reconcile(env))
  {
    var s0 := FirstStatus(w.st, env.now);
    var out := Enabling(s0, w.cl, env);
    EnablingFirst(s0, w.cl, env);
    var end := Settle(out.st, out.move, env.stamp);
    assert end.conditions[|end.conditions| - 1] == Condition(WaitForCephToolsPodRunning, 0, true);
    Keeps(w, env, s0, out);
  }

  lemma Keeps(w: World, env: Env, s0: Status, out: Outcome)
    requires env.fetch == Found && !Terminal(w.st) && !env.fails(WriteStatus) && out.Outcome?
    requires s0 == Started(w.st, env.now) && out == Inner(s0, w.cl, env)
    ensures var n := Next(CFG, w, Reconcile(env));
            n.st == Settle(out.st, out.move, env.stamp) && n.cl == out.cl && n.clock == env.stamp
    ensures Retains(w, Reconcile(env))
  {
  }

  lemma TimesOut(w: World, env: Env)
    requires Stage(w, WaitForCephToolsPodRunning, w.cl, 0) && env == Calm(2000)
    ensures var n := Next(CFG, w, Reconcile(env)); n.st.phase == Failed && n.cl == w.cl
    ensures Retains(w, Reconcile(env))
  {
    Keeps(w, env, w.st, Outcome(w.st, w.cl, GiveUp, DONE));
  }

  /******* A lost retry leaves an unforced flag beside a forced job *******/

  /** A healthy pod of another OSD. */
  ghost predicate Survivor(p: Pod) {
    Ordinary(p) && !Selects(JobPods, p) && !Carries(p.labels, "0")
  }

  lemma OtherOSD(id: string)
    requires |id| == 1 && id[0] != '0'
    ensures Survivor(Osd(id, false))
  {
    OsdIsOrdinary(id, false);
    assert Osd(id, false).labels[OsdID][0] != "0"[0];
  }

  lemma SurvivorsListed() returns (pods: seq<Pod>)
    ensures |ListPods(pods, OSDPods)| == 4 && ListPods(pods, OSDPodsWithID("0")) == []
    ensures forall p :: p in pods ==> !Selects(JobPods, p)
  {
    OtherOSD("1");
    OtherOSD("2");
    OtherOSD("3");
    OtherOSD("4");
    pods := FourListed(Osd("1", false), Osd("2", false), Osd("3", false), Osd("4", false));
  }

  lemma FourListed(a: Pod, b: Pod, c: Pod, d: Pod) returns (pods: seq<Pod>)
    requires Survivor(a) && Survivor(b) && Survivor(c) && Survivor(d)
    ensures |ListPods(pods, OSDPods)| == 4 && ListPods(pods, OSDPodsWithID("0")) == []
    ensures forall p :: p in pods ==> !Selects(JobPods, p)
  {
    pods := [a, b, c, d];
    ListAll(pods);
    NoneOfZero(pods);
  }

  lemma NoneOfZero(pods: seq<Pod>)
    requires forall p :: p in pods ==> Survivor(p)
    ensures ListPods(pods, OSDPodsWithID("0")) == []
  {
    var r := ListPods(pods, OSDPodsWithID("0"));
    assert r != [] ==> r[0] in pods && Carries(r[0].labels, "0");
  }

  lemma GoneMovesOn(w: World, id: string)
    requires Stage(w, Kind.ForceDeleteRookCephOSDPods, w.cl, 0) && w.st.crashLoopBackOffPods
    requires OSDIDs(w.st.nodeDevice) == [id] && ListPods(w.cl.pods, OSDPodsWithID(id)) == []
    ensures var n := Next(CFG, w, Reconcile(Calm(0)));
            Stage(n, ProcessOCSRemovalTemplate, w.cl, 0) && SameRecord(w.st, n.st)
    ensures Retains(w, Reconcile(Calm(0)))
  {
    assert Probe([id], 1, w.cl, Calm(0)) == Stuck(0);
    assert Probe([id], 0, w.cl, Calm(0)) == Stuck(0);
    Serves(w, Kind.ForceDeleteRookCephOSDPods, 0, Calm(0), Outcome(w.st, w.cl, To(ProcessOCSRemovalTemplate), AGAIN));
  }

  lemma UnforcedBranch(st: Status, cl: Cluster) returns (c: Cluster)
    requires (forall p :: p in cl.pods ==> !Selects(JobPods, p)) && |ListPods(cl.pods, OSDPods)| > 3
    ensures ProcessTemplate(st, cl, Calm(0)) == Outcome(st.(forcedOSDRemoval := false), c, To(CleanupOSDRemovalJob), Types.After(10))
  {
    LingeringStays(cl.pods, JobPods, Calm(0));
    c := ProcessTemplate(st, cl, Calm(0)).cl;
  }

  lemma Unforced(w: World)
    requires Stage(w, ProcessOCSRemovalTemplate, w.cl, 0)
    requires (forall p :: p in w.cl.pods ==> !Selects(JobPods, p)) && |ListPods(w.cl.pods, OSDPods)| > 3
    ensures var n := Next(CFG, w, Reconcile(Calm(0)));
            Stage(n, CleanupOSDRemovalJob, n.cl, 0) && !n.st.forcedOSDRemoval && SameRecord(w.st, n.st)
    ensures Retains(w, Reconcile(Calm(0)))
  {
    var c := UnforcedBranch(w.st, w.cl);
    Serves(w, ProcessOCSRemovalTemplate, 0, Calm(0), Outcome(w.st.(forcedOSDRemoval := false), c, To(CleanupOSDRemovalJob), Types.After(10)));
  }

  function JobIn(phase: PodPhase): Pod {
    Pod("job", map[JobName := OSD_REMOVAL_JOB], map[], phase, "", [], [], None)
  }

  lemma OnlyJobPod(cl: Cluster, env: Env, phase: PodPhase)
    requires cl.pods == [JobIn(phase)] && !env.fails(ListJobPods)
    ensures JobPod(cl, env) == Some(JobIn(phase))
  {
    assert ListPods(cl.pods, JobPods) == [JobIn(phase)];
  }

  /** Clearing and submitting both work when only the status write fails. */
  lemma Resubmits(st: Status, cl: Cluster, env: Env) returns (out: Outcome)
    requires (forall c :: env.fails(c) <==> c == WriteStatus) && !env.jobLingers
    ensures out == ForceRetry(st, cl, env) && out.Outcome?
    ensures LastJob(out.cl.journal) == Some(Job(OSDIDs(st.nodeDevice), true))
  {
    out := ForceRetry(st, cl, env);
    var a := ClearJob(cl, env);
    assert a.ok && a.cl.job.None?;
    assert out.cl.journal[|out.cl.journal| - 1].JobCreated?;
  }

  lemma RetryBranch(s: Status, cl: Cluster, env: Env)
    requires s.conditions != [] && Latest(s).kind == CleanupOSDRemovalJob && !TimedOut(s, env.now)
    requires env.now >= Latest(s).lastTransition + OSD_REMOVAL_JOB_TIMEOUT
    requires JobPod(cl, env).Some? && JobPod(cl, env).value.phase == PodRunning
    ensures Inner(s, cl, env) == ForceRetry(s, cl, env)
  {
  }

  lemma RetryIsLost(w: World, env: Env)
    requires Stage(w, CleanupOSDRemovalJob, w.cl, 0) && env.fetch == Found && env.now == 600
    requires (forall c :: env.fails(c) <==> c == WriteStatus) && !env.jobLingers
    requires JobPod(w.cl, env).Some? && JobPod(w.cl, env).value.phase == PodRunning
    ensures var n := Next(CFG, w, Reconcile(env));
            n.st == w.st && LastJob(n.cl.journal) == Some(Job(OSDIDs(w.st.nodeDevice), true))
  {
    var out := Resubmits(w.st, w.cl, env);
    RetryBranch(w.st, w.cl, env);
    Loses(w, env, w.st, out);
  }

  /** The recorded pod goes, and the unforced job of a large cluster is created. */
  lemma ToCleanup() returns (w0: World, run: seq<Action>, w: World)
    ensures Reached(w0, run, w) && Faithful(w0, run)
    ensures Stage(w, CleanupOSDRemovalJob, w.cl, 0) && !w.st.forcedOSDRemoval && OSDIDs(w.st.nodeDevice) == ["0"]
    ensures w.st.crashLoopBackOffPods && w.st.keepCephToolsPod && w.st.operationalOSDIDs == []
  {
    var p;
    w0, run, w, p := ToForceDeletion(Some(0));
    var pods := SurvivorsListed();
    var removed := w.cl.(pods := pods);
    run := Go(w0, run, w, Environment(removed, 0));
    w := Next(CFG, w, Environment(removed, 0));
    GoneMovesOn(w, "0");
    run := Go(w0, run, w, Reconcile(Calm(0)));
    w := Next(CFG, w, Reconcile(Calm(0)));
    Unforced(w);
    run := Go(w0, run, w, Reconcile(Calm(0)));
    w := Next(CFG, w, Reconcile(Calm(0)));
  }

  /** The removal job of a large cluster hangs for ten minutes; the forced retry creates its job and
      loses its status. The persisted flag still says the job in place is not forced. */
  lemma LostRetryHidesTheForce() returns (w0: World, run: seq<Action>, w: World)
    ensures Reached(w0, run, w) && At(w.st, CleanupOSDRemovalJob)
    ensures !w.st.forcedOSDRemoval && LastJob(w.cl.journal) == Some(Job(["0"], true))
  {
    w0, run, w := ToCleanup();
    var hung := w.cl.(pods := [JobIn(PodRunning)]);
    run := Go(w0, run, w, Environment(hung, 0));
    w := Next(CFG, w, Environment(hung, 0));
    var env := Without(WriteStatus, 600);
    OnlyJobPod(hung, env, PodRunning);
    RetryIsLost(w, env);
    run := Go(w0, run, w, Reconcile(env));
    w := Next(CFG, w, Reconcile(env));
  }

  /******* A whole recovery *******/

  function Vouched(): Env {
    Calm(0).(logs := JobLogs.SUCCESS_MESSAGE)
  }

  lemma SuccessIsAccepted()
    ensures JobLogs.Accepts(JobLogs.SUCCESS_MESSAGE)
  {
    var m := JobLogs.SUCCESS_MESSAGE;
    assert forall k :: 0 <= k < |m| ==> JobLogs.Reads(m[k], m[k]) && m[k] != '\n';
    assert JobLogs.LastWordIs(m, 0, |m|);
    JobLogs.AcceptsIffLastLineSaysSo(m);
  }

  lemma RemovalFinishes(st: Status, cl: Cluster, env: Env) returns (out: Outcome)
    requires JobPod(cl, env).Some? && JobPod(cl, env).value.phase == PodSucceeded
    requires JobLogs.Accepts(env.logs) && !env.fails(GetLogs) && ClearSucceeds(cl, env)
    ensures out == Cleanup(st, 0, cl, env) && out.Outcome? && out.st == st && out.move == To(WaitForPersistenVolumeBound)
  {
    out := Cleanup(st, 0, cl, env);
  }

  lemma LogIsAccepted(w: World, env: Env)
    requires Stage(w, CleanupOSDRemovalJob, w.cl, 0) && env.fetch == Found && env.now == env.stamp == 0
    requires !env.fails(GetLogs) && !env.fails(WriteStatus) && ClearSucceeds(w.cl, env) && JobLogs.Accepts(env.logs)
    requires JobPod(w.cl, env).Some? && JobPod(w.cl, env).value.phase == PodSucceeded
    ensures var n := Next(CFG, w, Reconcile(env)); Stage(n, WaitForPersistenVolumeBound, n.cl, 0) && SameRecord(w.st, n.st)
  {
    var out := RemovalFinishes(w.st, w.cl, env);
    Serves(w, CleanupOSDRemovalJob, 0, env, out);
  }

  /** A volume on the recorded node, and an OSD pod on a bound, labelled claim. */
  ghost predicate Replenished(cl: Cluster, node: string) {
    && cl.pods == [Tools(), Osd("5", false)]
    && cl.pvcs == [PVC("5", map[CephImage := ""], "new", ClaimBound)]
    && cl.pvs == [PV("new", map[Hostname := node], VolumeBound)]
  }

  lemma OnePodCounted(cl: Cluster, node: string)
    requires Replenished(cl, node)
    ensures CountClaims(cl, Calm(0)) == Some(HowMany(cl.pods, cl.pvcs)) && HowMany(cl.pods, cl.pvcs) >= 1
  {
    CountClaimsExactly(cl, Calm(0));
    var c, p := cl.pvcs[0], Osd("5", false);
    assert c in cl.pvcs && BoundAndLabelled(c) && c.name == p.labels[PvcName];
    assert OnCountedClaim(p, cl.pvcs);
    assert cl.pods[1..] == [p];
    assert HowMany([p], cl.pvcs) >= 1;
  }

  lemma VolumesAreReady(entries: seq<NodePV>, cl: Cluster)
    requires |entries| == 1 && Replenished(cl, entries[0].node)
    ensures VolumesReady(entries, cl)
  {
    var v := cl.pvs[0];
    assert v in cl.pvs && OnNode(v, entries[0].node);
  }

  lemma WaitIsOver(w: World)
    requires Stage(w, WaitForPersistenVolumeBound, w.cl, 0) && w.st.operationalOSDIDs == []
    requires |w.st.nodeDevice| == 1 && Replenished(w.cl, w.st.nodeDevice[0].node)
    ensures var n := Next(CFG, w, Reconcile(Calm(0))); Stage(n, RestartStorageOperator, w.cl, 0) && SameRecord(w.st, n.st)
  {
    OnePodCounted(w.cl, w.st.nodeDevice[0].node);
    VolumesAreReady(w.st.nodeDevice, w.cl);
    var tail := VolumeWaitExactly(w.st, w.cl, Calm(0));
    WaitOutcome(w.st, w.cl, Calm(0));
    Serves(w, WaitForPersistenVolumeBound, 0, Calm(0), WaitForVolumes(w.st, w.cl, Calm(0)));
  }

  lemma WaitOutcome(st: Status, cl: Cluster, env: Env)
    ensures WaitForVolumes(st, cl, env).Outcome? && WaitForVolumes(st, cl, env).st == st
  {
  }

  /** A run that is about to leave the volume wait. */
  lemma VolumeWaitIsLeft() returns (w0: World, run: seq<Action>, w: World)
    ensures Reached(w0, run, w) && Stage(w, WaitForPersistenVolumeBound, w.cl, 0)
    ensures At(Next(CFG, w, Reconcile(Calm(0))).st, RestartStorageOperator)
    ensures |w.st.nodeDevice| == 1 && Replenished(w.cl, w.st.nodeDevice[0].node)
    ensures w.st.operationalOSDIDs == [] && w.st.crashLoopBackOffPods && w.st.keepCephToolsPod
  {
    w0, run, w := ToCleanup();
    var done := w.cl.(pods := [JobIn(PodSucceeded)]);
    run := Go(w0, run, w, Environment(done, 0));
    w := Next(CFG, w, Environment(done, 0));
    var env := Vouched();
    SuccessIsAccepted();
    OnlyJobPod(done, env, PodSucceeded);
    LogIsAccepted(w, env);
    run := Go(w0, run, w, Reconcile(env));
    w := Next(CFG, w, Reconcile(env));
    assert |OSDIDs(w.st.nodeDevice)| == |w.st.nodeDevice|;
    var ready := w.cl.(pods := [Tools(), Osd("5", false)],
                       pvcs := [PVC("5", map[CephImage := ""], "new", ClaimBound)],
                       pvs := [PV("new", map[Hostname := w.st.nodeDevice[0].node], VolumeBound)]);
    run := Go(w0, run, w, Environment(ready, 0));
    w := Next(CFG, w, Environment(ready, 0));
    WaitIsOver(w);
  }

  lemma OperatorRestarts(w: World, node: string)
    requires Stage(w, RestartStorageOperator, w.cl, 0) && Replenished(w.cl, node)
    ensures var n := Next(CFG, w, Reconcile(Calm(0)));
            Stage(n, DeleteFailedPodsNodeAffinity, n.cl, 0) && SameRecord(w.st, n.st) && n.cl.pods == w.cl.pods
  {
    assert |TOOLS_APP| != |OPERATOR_APP| && |OSD_APP| != |OPERATOR_APP|;
    LingeringStays(w.cl.pods, Query.OperatorPods, Calm(0));
    Serves(w, RestartStorageOperator, 0, Calm(0), Restart(w.st, w.cl, Calm(0)));
  }

  lemma ReplenishedIsHealthy(cl: Cluster, node: string)
    requires cl.pods == [Tools(), Osd("5", false)]
    ensures Healthy(cl)
  {
    ToolsFacts();
    assert Tools() in ListPods(cl.pods, Query.ToolsPods);
    assert cl.pods[1..] == [Osd("5", false)] && [Osd("5", false)][1..] == [];
    assert AffinityFailures([Osd("5", false)]) == [];
  }

  /** A recovery that records an OSD, force-deletes nothing, removes it with a job whose log is
      accepted, waits for its replacement and completes: the hypotheses of the results about the
      volume wait and about completion after force deletion are met by runs. */
  lemma RecoveryCompletes() returns (w0: World, run: seq<Action>, w: World)
    ensures Reached(w0, run, w) && w.st.phase == Completed
    ensures Visited(w.st, Kind.ForceDeleteRookCephOSDPods) && Visited(w.st, CleanupOSDRemovalJob)
  {
    w0, run, w := VolumeWaitIsLeft();
    var node := w.st.nodeDevice[0].node;
    WaitIsOver(w);
    run := Go(w0, run, w, Reconcile(Calm(0)));
    w := Next(CFG, w, Reconcile(Calm(0)));
    OperatorRestarts(w, node);
    run := Go(w0, run, w, Reconcile(Calm(0)));
    w := Next(CFG, w, Reconcile(Calm(0)));
    ReplenishedIsHealthy(w.cl, node);
    run, w := ToCompletion(w0, run, w);
    PastHolds(CFG, w0, run);
    CompletionIsEarned(CFG, w0, run);
  }

  /******* Counters that count too little and too much *******/

  /** A faithful run, as the run of a fleet of one resource. */
  lemma {:induction false} AsFleet(w0: World, run: seq<Action>, w: World, s: Fleet.State) returns (acts: seq<Fleet.Act>)
    requires Reached(w0, run, w) && Faithful(w0, run)
    requires s == Fleet.State([], w0.cl, Counters(0, 0, map[], map[], map[]), w0.clock, true)
    ensures Fleet.AllAllowed(CFG, s, acts)
    ensures var t := Fleet.Play(CFG, s, acts);
            t.lossless && t.cl == w.cl && t.clock == w.clock && |t.entries| == 1 && t.entries[0].st == w.st
  {
    if run == [] {
      acts := [Fleet.Create];
      assert acts[..|acts| - 1] == [];
      assert Fleet.Play(CFG, s, acts) == Fleet.After(CFG, s, Fleet.Create);
    } else {
      var prefix, a := run[..|run| - 1], run[|run| - 1];
      var mid := Exec(CFG, w0, prefix);
      var before := AsFleet(w0, prefix, mid, s);
      acts := before + [match a case Reconcile(env) => Fleet.Serve(0, env) case Environment(cl, clock) => Fleet.Elsewhere(cl, clock)];
      assert acts[..|acts| - 1] == before;
      FleetFollows(mid, a, Fleet.Play(CFG, s, before), acts[|acts| - 1]);
    }
  }

  lemma FleetFollows(w: World, a: Action, t: Fleet.State, act: Fleet.Act)
    requires Legal(CFG, w, a) && Retains(w, a)
    requires t.lossless && t.cl == w.cl && t.clock == w.clock && |t.entries| == 1 && t.entries[0].st == w.st
    requires act == match a case Reconcile(env) => Fleet.Serve(0, env) case Environment(cl, clock) => Fleet.Elsewhere(cl, clock)
    ensures Fleet.Allowed(CFG, t, act)
    ensures var u, n := Fleet.After(CFG, t, act), Next(CFG, w, a);
            u.lossless && u.cl == n.cl && u.clock == n.clock && |u.entries| == 1 && u.entries[0].st == n.st
  {
  }

  /** A job pod that succeeds with a log that says nothing. */
  lemma LogIsRejected(w: World)
    requires Stage(w, CleanupOSDRemovalJob, w.cl, 0)
    requires JobPod(w.cl, Calm(0)).Some? && JobPod(w.cl, Calm(0)).value.phase == PodSucceeded
    ensures Next(CFG, w, Reconcile(Calm(0))).st.phase == Failed && Retains(w, Reconcile(Calm(0)))
  {
    JobLogs.AcceptsIffLastLineSaysSo("");
    Serves(w, CleanupOSDRemovalJob, 0, Calm(0), Cleanup(w.st, 0, w.cl, Calm(0)));
  }

  /** The removal job succeeds and its log says nothing: the resource fails, no status is lost, and
      the failure counter still reads zero under every label. */
  lemma JobFailureIsNotCounted() returns (s: Fleet.State, acts: seq<Fleet.Act>)
    ensures Fleet.Start(s) && Fleet.AllAllowed(CFG, s, acts)
    ensures var t := Fleet.Play(CFG, s, acts);
            t.lossless && Fleet.Sum(Fleet.FailedAnyhow, t.entries) == 1 && Fleet.Total(t.m.failed) == 0
  {
    var w0, run, w := ToCleanup();
    var done := w.cl.(pods := [JobIn(PodSucceeded)]);
    run := Go(w0, run, w, Environment(done, 0));
    w := Next(CFG, w, Environment(done, 0));
    OnlyJobPod(done, Calm(0), PodSucceeded);
    LogIsRejected(w);
    s := Fleet.State([], w0.cl, Counters(0, 0, map[], map[], map[]), w0.clock, true);
    acts := AsFleet(w0, run, w, s);
    acts := EndsByItsJob(s, acts, w);
  }

  lemma EndsByItsJob(s: Fleet.State, before: seq<Fleet.Act>, w: World) returns (acts: seq<Fleet.Act>)
    requires Fleet.Start(s) && Fleet.AllAllowed(CFG, s, before) && Stage(w, CleanupOSDRemovalJob, w.cl, 0)
    requires Next(CFG, w, Reconcile(Calm(0))).st.phase == Failed && Retains(w, Reconcile(Calm(0)))
    requires var t := Fleet.Play(CFG, s, before);
             t.lossless && t.cl == w.cl && t.clock == w.clock && |t.entries| == 1 && t.entries[0].st == w.st
    ensures Fleet.AllAllowed(CFG, s, acts)
    ensures var t := Fleet.Play(CFG, s, acts);
            t.lossless && Fleet.Sum(Fleet.FailedAnyhow, t.entries) == 1 && Fleet.Total(t.m.failed) == 0
  {
    var act := Fleet.Serve(0, Calm(0));
    acts := before + [act];
    assert acts[..|acts| - 1] == before;
    FleetFollows(w, Reconcile(Calm(0)), Fleet.Play(CFG, s, before), act);
    Fleet.FleetHolds(CFG, s, before);
    Fleet.MetricsAreConserved(CFG, s, acts, EnableCephToolsPod, "");
    OneEntry(Fleet.Play(CFG, s, acts).entries);
  }

  lemma OneEntry(entries: seq<Fleet.Entry>)
    requires |entries| == 1 && entries[0].st.phase == Failed && !entries[0].byTimeout
    ensures Fleet.Sum(Fleet.FailedAnyhow, entries) == 1 && Fleet.Sum(Fleet.JobFailed, entries) == 1
  {
    assert entries[..0] == [];
  }

  /** The first status of a resource is lost: it was counted, and nothing shows that it began. */
  lemma LostBeginningIsCounted() returns (s: Fleet.State, acts: seq<Fleet.Act>)
    ensures Fleet.Start(s) && Fleet.AllAllowed(CFG, s, acts) && |acts| == 2
    ensures var t := Fleet.Play(CFG, s, acts); t.m.total == 1 && Fleet.Sum(Fleet.Begun, t.entries) == 0
  {
    s := Fleet.State([], Site([], [], [], []).(storageClusterTools := false), Counters(0, 0, map[], map[], map[]), 0, true);
    var created, env := Fleet.After(CFG, s, Fleet.Create), Without(WriteStatus, 0);
    BeginningIsLost(s, created, env);
    acts := TwoActs(s, Fleet.Create, created, Fleet.Serve(0, env));
  }

  lemma TwoActs(s: Fleet.State, a: Fleet.Act, mid: Fleet.State, b: Fleet.Act) returns (acts: seq<Fleet.Act>)
    requires Fleet.Allowed(CFG, s, a) && mid == Fleet.After(CFG, s, a) && Fleet.Allowed(CFG, mid, b)
    ensures acts == [a, b] && Fleet.AllAllowed(CFG, s, acts) && Fleet.Play(CFG, s, acts) == Fleet.After(CFG, mid, b)
  {
    acts := [a, b];
    assert acts[..1] == [a] && [a][..0] == [];
    assert Fleet.Play(CFG, s, [a]) == mid;
  }

  lemma BeginningIsLost(s: Fleet.State, t: Fleet.State, env: Env)
    requires Fleet.Start(s) && t == Fleet.After(CFG, s, Fleet.Create) && !ToolsOn(s.cl) && s.clock == env.now == env.stamp
    requires env.fetch == Found && forall c :: env.fails(c) <==> c == WriteStatus
    ensures Fleet.Allowed(CFG, t, Fleet.Serve(0, env))
    ensures var u := Fleet.After(CFG, t, Fleet.Serve(0, env)); u.m.total == 1 && Fleet.Sum(Fleet.Begun, u.entries) == 0
  {
    var w := Begin(t.cl);
    var s0 := FirstStatus(BLANK, env.now);
    var out := Enabling(s0, t.cl, env);
    EnablingFirst(s0, t.cl, env);
    Loses(w, env, s0, out);
    TotalIsCounted(t.m, s0, out, env.now);
  }

  lemma TotalIsCounted(m: Counters, s0: Status, out: Outcome, now: Time)
    ensures Counted(m.(total := m.total + 1), s0, out, now).total == m.total + 1
  {
  }

  /******* Runs that panic *******/

  lemma PanicsHere(w: World, env: Env)
    requires w.st.conditions != [] && w.st.startTime.Some? && w.st.phase == Running && env.fetch == Found
    requires !TimedOut(w.st, env.now) && Branch(Latest(w.st), w.st, w.cl, env).Panic?
    ensures Request(CFG.store, w.st, w.cl, env).panicked
  {
  }

  /** A failing OSD pod without the claim label is reached and panics. */
  lemma UnclaimedPodPanics() returns (w0: World, run: seq<Action>, w: World)
    ensures Reached(w0, run, w) && Undisturbed(run) && At(w.st, ManageCrashLoopBackOffPods)
    ensures Request(CFG.store, w.st, w.cl, Calm(0)).panicked
  {
    var p := Unclaimed();
    var cl := Site([p], [], [], []);
    LoneReady(cl, p);
    w0 := Begin(cl);
    run, w := StartToManaging(cl);
    UnclaimedPanics(w, p);
  }

  lemma Unclaimed() returns (p: Pod)
    ensures Ordinary(p) && IsFailing(p) && PvcName !in p.labels
  {
    p := Osd("0", true).(labels := map[App := OSD_APP, OsdName := "0", OsdID := "0"]);
    assert p.statuses[0] in p.initStatuses + p.statuses && InFailure(p.statuses[0]);
  }

  lemma UnclaimedPanics(w: World, p: Pod)
    requires Stage(w, ManageCrashLoopBackOffPods, w.cl, 0) && ListPods(w.cl.pods, OSDPods) == [p]
    requires IsFailing(p) && PvcName !in p.labels
    ensures Request(CFG.store, w.st, w.cl, Calm(0)).panicked
  {
    ClassifyFirst(p, []);
    assert [p] + [] == [p];
    ManagingPassPanics(w.st, w.cl, Calm(0));
    assert PanicsOn([p], 0, 0, w.cl, Calm(0));
    PanicsHere(w, Calm(0));
  }

  /** A recorded pod that is not terminating yet is reached by force deletion, which panics, though no
      one but the controller acted. */
  lemma YoungPodPanics() returns (w0: World, run: seq<Action>, w: World)
    ensures Reached(w0, run, w) && Undisturbed(run) && At(w.st, Kind.ForceDeleteRookCephOSDPods)
    ensures Request(CFG.store, w.st, w.cl, Calm(15)).panicked
  {
    var p;
    w0, run, w, p := ToForceDeletion(None);
    YoungPanics(w, p, Calm(15));
  }

  lemma AloneListed(pods: seq<Pod>, p: Pod, d: Option<Time>)
    requires Alone(pods, p, d)
    ensures ListPods(pods, OSDPodsWithID("0")) == [p]
  {
    assert pods[1..] == [p] && [p][1..] == [];
  }

  lemma YoungPanics(w: World, p: Pod, env: Env)
    requires Stage(w, Kind.ForceDeleteRookCephOSDPods, w.cl, 0) && w.st.crashLoopBackOffPods && env == Calm(15)
    requires OSDIDs(w.st.nodeDevice) == ["0"] && Alone(w.cl.pods, p, None)
    ensures Request(CFG.store, w.st, w.cl, env).panicked
  {
    AloneListed(w.cl.pods, p, None);
    ForceDeletePanics(w.st, w.cl, env);
    assert PanicsAt(["0"], 0, 0, w.cl, env);
    PanicsHere(w, env);
  }

  /******* A force deletion that takes a pod it never looked at *******/

  /** A second pod of the ID is not terminating, but the first one is: both are force-deleted. */
  lemma YoungPodIsForceDeleted() returns (w0: World, run: seq<Action>, w: World, young: Pod, next: World)
    ensures Reached(w0, run, w) && next == Next(CFG, w, Reconcile(Calm(1000)))
    ensures At(w.st, Kind.ForceDeleteRookCephOSDPods)
    ensures young in w.cl.pods && young.deletion.None? && young !in next.cl.pods
  {
    var p;
    w0, run, w, p := ToForceDeletion(Some(0));
    young := p.(name := "young", deletion := None);
    var joined := w.cl.(pods := w.cl.pods + [young]);
    run := Go(w0, run, w, Environment(joined, 0));
    next := w;
    w := Next(CFG, w, Environment(joined, 0));
    YoungIsTaken(w.st, w.cl, next.cl.pods, p, young, Calm(1000));
    Serves(w, Kind.ForceDeleteRookCephOSDPods, 0, Calm(1000), ForceDeletePhase(w.st, w.cl, Calm(1000)));
    next := Next(CFG, w, Reconcile(Calm(1000)));
  }

  lemma YoungIsTaken(st: Status, cl: Cluster, before: seq<Pod>, p: Pod, young: Pod, env: Env)
    requires OSDIDs(st.nodeDevice) == ["0"] && st.crashLoopBackOffPods && env.now >= TERMINATION_GRACE
    requires !env.fails(ListPodsOfID(0)) && !env.fails(ForceDeletePods) && !env.lingers(young.name)
    requires Alone(before, p, Some(0)) && cl.pods == before + [young]
    requires Selects(PodsWithAnyID(["0"]), young)
    ensures var out := ForceDeletePhase(st, cl, env);
            out.Outcome? && out.move == To(Kind.ForceDeleteRookCephOSDPods) && out.st == st && young !in out.cl.pods
  {
    AloneListed(before, p, Some(0));
    FirstStays(before, [young], "0");
    ForcesOne(st, cl, "0", env);
    ForcesExactly(st, cl, env);
    DeletePodsExactly(cl.pods, PodsWithAnyID(["0"]), env, young);
  }

  lemma {:induction false} FirstStays(a: seq<Pod>, b: seq<Pod>, id: string)
    requires ListPods(a, OSDPodsWithID(id)) != []
    ensures ListPods(a + b, OSDPodsWithID(id)) != []
    ensures ListPods(a + b, OSDPodsWithID(id))[0] == ListPods(a, OSDPodsWithID(id))[0]
  {
    assert (a + b)[0] == a[0] && (a + b)[1..] == a[1..] + b;
    if !Carries(a[0].labels, id) {
      FirstStays(a[1..], b, id);
    }
  }
}
