/** Accounting over whole runs: the recorded OSDs against the pods that were listed and the
    deployments that were scaled, the earned completion, what a run never takes back, and the
    absence of silent stalls. */
module Accounting {
  import opened Types
  import opened Pods
  import opened Effects
  import opened Workflow
  import opened Contract
  import opened Branches
  import opened Runs
  import opened History
  import opened Correlations
  import opened Safety

  /******* Recorded, listed and scaled OSDs *******/

  /** Once force deletion is entered, recorded operational and failing OSDs add up to at least the
      pods the recording pass listed, and to exactly these iff the operational IDs are not left over
      from an earlier pass; and
      every scaled deployment is recorded iff that pass saw all earlier scaled IDs failing. */
  ghost predicate AccountInv(st: Status, journal: seq<Event>, m: Memory) {
    && (!m.tried ==> st.operationalOSDIDs == [] && forall id :: !ScaledIn(journal, id))
    && (Visited(st, Kind.ForceDeleteRookCephOSDPods) ==>
         && m.tried
         && |st.operationalOSDIDs| + |st.nodeDevice| >= m.seen
         && (|st.operationalOSDIDs| + |st.nodeDevice| == m.seen <==> m.aligned)
         && (AllScaledAmong(journal, OSDIDs(st.nodeDevice)) <==> m.covered)
         && (m.first ==> m.aligned && m.covered))
  }

  lemma ScaledAppends(a: seq<Event>, b: seq<Event>)
    ensures forall id :: ScaledIn(a + b, id) <==> ScaledIn(a, id) || ScaledIn(b, id)
  {
    forall id ensures ScaledIn(a + b, id) <==> ScaledIn(a, id) || ScaledIn(b, id) {
      if e :| e in a && e.Scaled? && e.osdID == id {
        assert e in a + b;
      }
      if e :| e in b && e.Scaled? && e.osdID == id {
        assert e in a + b;
      }
    }
  }

  lemma ScaledOnlyManaging(k: Kind, s0: Status, cl: Cluster, out: Outcome, tail: seq<Event>, env: Env)
    requires StepContract(k, s0, cl, out, tail, env)
    ensures k != ManageCrashLoopBackOffPods ==> forall id :: !ScaledIn(tail, id)
    ensures out.Outcome? && k != ManageCrashLoopBackOffPods ==>
              out.st.operationalOSDIDs == s0.operationalOSDIDs && out.st.nodeDevice == s0.nodeDevice
    ensures out.Outcome? ==> (out.move == To(Kind.ForceDeleteRookCephOSDPods) ==>
              k == ManageCrashLoopBackOffPods || k == Kind.ForceDeleteRookCephOSDPods)
  {
    forall e | e in tail && k != ManageCrashLoopBackOffPods ensures !e.Scaled? {
      assert EventAllowed(e, k, s0, cl);
    }
  }

  /** The recording pass. */
  lemma RecordingFacts(s0: Status, cl: Cluster, out: Outcome, tail: seq<Event>, env: Env)
    requires StepContract(ManageCrashLoopBackOffPods, s0, cl, out, tail, env)
    requires out.Outcome? && out.move == To(Kind.ForceDeleteRookCephOSDPods)
    ensures var osds := ListPods(cl.pods, OSDPods);
            var ids := OSDIDs(out.st.nodeDevice);
            && ids == OsdNames(Failing(osds))
            && |out.st.operationalOSDIDs| + |out.st.nodeDevice| >= |osds|
            && (|out.st.operationalOSDIDs| + |out.st.nodeDevice| == |osds| <==>
                 Operational(osds) != [] || s0.operationalOSDIDs == [])
            && AllScaledAmong(tail, ids)
  {
    var osds := ListPods(cl.pods, OSDPods);
    ClassifyPartitions(osds);
    assert |OSDIDs(out.st.nodeDevice)| == |out.st.nodeDevice|;
    forall id | ScaledIn(tail, id) ensures id in OSDIDs(out.st.nodeDevice) {
      var e :| e in tail && e.Scaled? && e.osdID == id;
      assert EventAllowed(e, ManageCrashLoopBackOffPods, s0, cl);
    }
  }

  lemma ScaledAmongAppends(a: seq<Event>, b: seq<Event>, ids: seq<string>)
    requires AllScaledAmong(b, ids)
    ensures AllScaledAmong(a + b, ids) <==> AllScaledAmong(a, ids)
  {
    ScaledAppends(a, b);
  }

  lemma Recorded(s0: Status, p: Status, journal: seq<Event>, tail: seq<Event>, m: Memory, after: Memory, ids: seq<string>, aligned: bool, listed: nat)
    requires !m.tried ==> s0.operationalOSDIDs == [] && forall id :: !ScaledIn(journal, id)
    requires s0.operationalOSDIDs == [] ==> aligned
    requires ids == OSDIDs(p.nodeDevice)
    requires |p.operationalOSDIDs| + |p.nodeDevice| >= listed
    requires |p.operationalOSDIDs| + |p.nodeDevice| == listed <==> aligned
    requires AllScaledAmong(tail, ids)
    requires after.tried && after.first == !m.tried && after.seen == listed && after.aligned == aligned
    requires after.covered == AllScaledAmong(journal, ids)
    ensures AccountInv(p, journal + tail, after)
  {
    ScaledAmongAppends(journal, tail, ids);
  }

  lemma Unrecorded(s0: Status, p: Status, journal: seq<Event>, tail: seq<Event>, m: Memory, after: Memory)
    requires AccountInv(s0, journal, m)
    requires p.operationalOSDIDs == s0.operationalOSDIDs && p.nodeDevice == s0.nodeDevice
    requires Visited(p, Kind.ForceDeleteRookCephOSDPods) <==> Visited(s0, Kind.ForceDeleteRookCephOSDPods)
    requires forall id :: !ScaledIn(tail, id)
    requires after.tried == m.tried && after.first == m.first && after.seen == m.seen
    requires after.aligned == m.aligned && after.covered == m.covered
    ensures AccountInv(p, journal + tail, after)
  {
    ScaledAppends(journal, tail);
  }

  lemma ManagingStep(w: World, env: Env, p: Pass, out: Outcome, tail: seq<Event>)
    requires At(w.st, ManageCrashLoopBackOffPods) && Behind(w.st) && Proceeds(w.st, env) && !TimedOut(w.st, env.now)
    requires StepContract(ManageCrashLoopBackOffPods, w.st, w.cl, out, tail, env)
    requires if p.lost then p.st == w.st else out.Outcome? && MovedBy(w.st, out.st, out.move, p.st, env)
    requires AccountInv(w.st, w.cl.journal, w.memory)
    ensures AccountInv(p.st, w.cl.journal + tail, Remember(w, env, p))
  {
    var osds, after := ListPods(w.cl.pods, OSDPods), Remember(w, env, p);
    assert !Visited(w.st, Kind.ForceDeleteRookCephOSDPods);
    if !p.lost {
      Placing(w.st, out.st, out.move, p.st, env);
      if out.move == To(Kind.ForceDeleteRookCephOSDPods) {
        RecordingFacts(w.st, w.cl, out, tail, env);
        Recorded(w.st, p.st, w.cl.journal, tail, w.memory, after, OSDIDs(out.st.nodeDevice), after.aligned, |osds|);
      }
    }
  }

  /** Outside ManageCrashLoopBackOffPods a run remembers nothing new about its OSDs. */
  lemma RememberIdle(w: World, env: Env, p: Pass)
    requires !Proceeds(w.st, env) || !At(w.st, ManageCrashLoopBackOffPods) || TimedOut(w.st, env.now)
    ensures var m, after := w.memory, Remember(w, env, p);
            && after.tried == m.tried && after.first == m.first && after.seen == m.seen
            && after.aligned == m.aligned && after.covered == m.covered
  {
  }

  lemma OtherStep(k: Kind, s0: Status, cl: Cluster, out: Outcome, tail: seq<Event>, p: Pass, env: Env, m: Memory, after: Memory)
    requires s0.conditions != [] && Latest(s0).kind == k && k != ManageCrashLoopBackOffPods
    requires StepContract(k, s0, cl, out, tail, env) && !p.lost && out.Outcome? && MovedBy(s0, out.st, out.move, p.st, env)
    requires Behind(s0) && AccountInv(s0, cl.journal, m)
    requires k == Kind.ForceDeleteRookCephOSDPods ==> Visited(s0, k)
    requires after.tried == m.tried && after.first == m.first && after.seen == m.seen
    requires after.aligned == m.aligned && after.covered == m.covered
    ensures AccountInv(p.st, cl.journal + tail, after)
  {
    ScaledOnlyManaging(k, s0, cl, out, tail, env);
    Placing(s0, out.st, out.move, p.st, env);
    Unrecorded(s0, p.st, cl.journal, tail, m, after);
  }

  lemma LostOrTimedOut(k: Kind, st: Status, s0: Status, cl: Cluster, out: Outcome, tail: seq<Event>, env: Env, m: Memory, after: Memory)
    requires k != ManageCrashLoopBackOffPods && StepContract(k, s0, cl, out, tail, env)
    requires AccountInv(st, cl.journal, m)
    requires after.tried == m.tried && after.first == m.first && after.seen == m.seen
    requires after.aligned == m.aligned && after.covered == m.covered
    ensures AccountInv(st, cl.journal + tail, after)
  {
    ScaledOnlyManaging(k, s0, cl, out, tail, env);
    Unrecorded(st, st, cl.journal, tail, m, after);
  }

  lemma AccountStep(store: Store, w: World, env: Env, p: Pass, out: Outcome, tail: seq<Event>, after: Memory)
    requires PassStep(store, w.st, w.cl, env, p, out, tail) && Proceeds(w.st, env)
    requires Regular(w.st) && (w.st.conditions != [] ==> Behind(w.st))
    requires Behind(Started(w.st, env.now)) && AccountInv(Started(w.st, env.now), w.cl.journal, w.memory)
    requires AccountInv(w.st, w.cl.journal, w.memory)
    requires !TimedOut(Started(w.st, env.now), env.now) && !At(w.st, ManageCrashLoopBackOffPods)
    requires after.tried == w.memory.tried && after.first == w.memory.first && after.seen == w.memory.seen
    requires after.aligned == w.memory.aligned && after.covered == w.memory.covered
    ensures AccountInv(p.st, p.cl.journal, after)
  {
    var s0 := Started(w.st, env.now);
    var k := Latest(s0).kind;
    if p.lost {
      LostOrTimedOut(k, w.st, s0, w.cl, out, tail, env, w.memory, after);
    } else {
      PassMoves(store, w.st, w.cl, env, p, out, tail);
      assert Visited(s0, k);
      OtherStep(k, s0, w.cl, out, tail, p, env, w.memory, after);
    }
  }

  lemma AccountTimedOut(st: Status, s0: Status, p: Pass, cl: Cluster, tail: seq<Event>, m: Memory, after: Memory)
    requires AccountInv(st, cl.journal, m) && AccountInv(s0, cl.journal, m) && tail == []
    requires p.st == st || p.st == s0.(phase := Failed)
    requires after.tried == m.tried && after.first == m.first && after.seen == m.seen
    requires after.aligned == m.aligned && after.covered == m.covered
    ensures AccountInv(p.st, cl.journal + tail, after)
  {
    assert cl.journal + tail == cl.journal;
  }

  lemma AccountPass(store: Store, w: World, env: Env, p: Pass, out: Outcome, tail: seq<Event>)
    requires PassStep(store, w.st, w.cl, env, p, out, tail)
    requires Regular(w.st) && Behind(Started(w.st, env.now))
    requires AccountInv(w.st, w.cl.journal, w.memory)
    ensures AccountInv(p.st, p.cl.journal, Remember(w, env, p))
  {
    var s0 := Started(w.st, env.now);
    assert w.st == BLANK ==> Kinds(s0.conditions) == [EnableCephToolsPod];
    if Proceeds(w.st, env) && !TimedOut(s0, env.now) && At(w.st, ManageCrashLoopBackOffPods) {
      if !p.lost {
        PassMoves(store, w.st, w.cl, env, p, out, tail);
      }
      ManagingStep(w, env, p, out, tail);
    } else {
      RememberIdle(w, env, p);
      var after := Remember(w, env, p);
      if Proceeds(w.st, env) {
        if TimedOut(s0, env.now) {
          AccountTimedOut(w.st, s0, p, w.cl, tail, w.memory, after);
        } else {
          AccountStep(store, w, env, p, out, tail, after);
        }
      }
    }
  }

  lemma AccountRequest(cfg: Config, w: World, env: Env)
    requires HistoryInv(w.st, cfg.slack, w.clock) && w.clock <= env.now
    requires AccountInv(w.st, w.cl.journal, w.memory)
    ensures var end := Next(cfg, w, Reconcile(env)); AccountInv(end.st, end.cl.journal, end.memory)
  {
    StartedHistory(w.st, cfg.slack, w.clock, env.now);
    PathIsBehind(Started(w.st, env.now), cfg.slack, env.now);
    var p := Request(cfg.store, w.st, w.cl, env);
    var out, tail := RequestStep(cfg.store, w.st, w.cl, env);
    AccountPass(cfg.store, w, env, p, out, tail);
  }

  /** In every run, with any failures and lost writes. In particular, when the first managing pass
      is the one that persists, the recorded OSDs add up to the pods it listed, and every deployment
      scaled in the whole run is recorded. */
  lemma {:induction false} OSDsAreAccountedFor(cfg: Config, w: World, run: seq<Action>)
    requires Init(w) && LegalRun(cfg, w, run)
    ensures var end := Exec(cfg, w, run); AccountInv(end.st, end.cl.journal, end.memory)
  {
    if run == [] {
      assert Kinds(BLANK.conditions) == [];
    } else {
      var prefix, a := run[..|run| - 1], run[|run| - 1];
      OSDsAreAccountedFor(cfg, w, prefix);
      HistoryIsAPath(cfg, w, prefix);
      if a.Reconcile? {
        AccountRequest(cfg, Exec(cfg, w, prefix), a.env);
      }
    }
  }

  /** The entry names the volume bound to the pod's claim, that volume's node, and the pod's OSD. */
  ghost predicate Describes(entry: NodePV, p: Pod, cl: Cluster) {
    && PvcName in p.labels
    && entry.osdID == Get(p.labels, OsdName)
    && exists c, v :: c in cl.pvcs && c.name == p.labels[PvcName] && v in cl.pvs && v.name == c.volume
                      && entry.pv == v.name && entry.node == Get(v.labels, Hostname)
  }

  lemma LocatedDescribes(p: Pod, i: nat, cl: Cluster, env: Env)
    requires NodeDeviceOf(p, i, cl, env).Located?
    ensures Describes(NodeDeviceOf(p, i, cl, env).entry, p, cl)
  {
    var c := FindPVC(cl.pvcs, p.labels[PvcName]).value;
    var v := FindPV(cl.pvs, c.volume).value;
    assert c in cl.pvcs && v in cl.pvs;
  }

  ghost predicate DescribesEach(es: seq<NodePV>, pods: seq<Pod>, cl: Cluster) {
    |es| == |pods| && forall k :: 0 <= k < |es| ==> Describes(es[k], pods[k], cl)
  }

  /** Entries are recorded in the order of the pods, each describing its own. */
  lemma {:induction false} HandleDescribes(pods: seq<Pod>, i: nat, cl: Cluster, env: Env)
    requires i <= |pods| && Handle(pods, i, cl, env).Handled?
    ensures DescribesEach(Handle(pods, i, cl, env).entries, pods[i..], cl)
    decreases |pods| - i
  {
    if i < |pods| {
      var entry, next := HandledFirst(pods, i, cl, env);
      LocatedDescribes(pods[i], i, cl, env);
      HandleDescribes(pods, i + 1, next, env);
      assert pods[i..] == [pods[i]] + pods[i + 1..];
      DescribedToo(entry, Handle(pods, i + 1, next, env).entries, pods[i], pods[i + 1..], cl, next);
    }
  }

  lemma HandledFirst(pods: seq<Pod>, i: nat, cl: Cluster, env: Env) returns (entry: NodePV, next: Cluster)
    requires i < |pods| && Handle(pods, i, cl, env).Handled?
    ensures NodeDeviceOf(pods[i], i, cl, env) == Located(entry)
    ensures next.pvcs == cl.pvcs && next.pvs == cl.pvs && Handle(pods, i + 1, next, env).Handled?
    ensures Handle(pods, i, cl, env).entries == [entry] + Handle(pods, i + 1, next, env).entries
  {
    entry := NodeDeviceOf(pods[i], i, cl, env).entry;
    var s := ScaleDown(cl.deployments, entry.osdID, i, env);
    next := Log(cl.(deployments := s.deployments), s.events);
  }

  lemma DescribedToo(entry: NodePV, rest: seq<NodePV>, p: Pod, pods: seq<Pod>, cl: Cluster, next: Cluster)
    requires Describes(entry, p, cl) && DescribesEach(rest, pods, next)
    requires next.pvcs == cl.pvcs && next.pvs == cl.pvs
    ensures DescribesEach([entry] + rest, [p] + pods, cl)
  {
    forall k | 0 <= k < 1 + |rest| ensures Describes(([entry] + rest)[k], ([p] + pods)[k], cl) {
      if k > 0 {
        assert Describes(rest[k - 1], pods[k - 1], next);
      }
    }
  }

  /** A managing pass that reaches its end records one entry per failing pod, in the order of the
      list and naming its node, volume and OSD, and scales exactly the deployments of their IDs to
      zero, leaving all others alone. */
  lemma ScaleDownExactly(st: Status, cl: Cluster, env: Env) returns (tail: seq<Event>)
    requires var out := ManageCrashes(st, cl, env); out.Outcome? && out.move == To(Kind.ForceDeleteRookCephOSDPods)
    ensures var out, failing := ManageCrashes(st, cl, env), Failing(ListPods(cl.pods, OSDPods));
            && DescribesEach(out.st.nodeDevice, failing, cl)
            && |out.cl.deployments| == |cl.deployments|
            && (forall k :: 0 <= k < |cl.deployments| ==>
                 out.cl.deployments[k] == ZeroIf(cl.deployments[k], OsdNames(failing)))
            && out.cl.journal == cl.journal + tail
            && (forall e :: e in tail ==> e.Scaled? && e.osdID in OsdNames(failing))
            && AllScaled(cl.deployments, OsdNames(failing), tail)
  {
    var failing := Failing(ListPods(cl.pods, OSDPods));
    tail := HandledExactly(failing, cl, env);
  }

  lemma HandledExactly(failing: seq<Pod>, cl: Cluster, env: Env) returns (tail: seq<Event>)
    requires Handle(failing, 0, cl, env).Handled?
    ensures var h, ids := Handle(failing, 0, cl, env), OsdNames(failing);
            && DescribesEach(h.entries, failing, cl)
            && |h.cl.deployments| == |cl.deployments|
            && (forall k :: 0 <= k < |cl.deployments| ==> h.cl.deployments[k] == ZeroIf(cl.deployments[k], ids))
            && h.cl.journal == cl.journal + tail
            && (forall e :: e in tail ==> e.Scaled? && e.osdID in ids)
            && AllScaled(cl.deployments, ids, tail)
  {
    tail := HandleContract(failing, 0, cl, env);
    assert failing[0..] == failing;
    HandleDescribes(failing, 0, cl, env);
    ZeroedEverywhere(cl.deployments, OsdNames(failing));
  }

  lemma ZeroedEverywhere(ds: seq<Deployment>, ids: seq<string>)
    ensures forall k :: 0 <= k < |ds| ==> Zeroed(ds, ids)[k] == ZeroIf(ds[k], ids)
  {
    forall k | 0 <= k < |ds| ensures Zeroed(ds, ids)[k] == ZeroIf(ds[k], ids) {
      ZeroedAt(ds, ids, k);
    }
  }

  /** The claim and the volume of a pod are there. */
  ghost predicate Resolves(p: Pod, cl: Cluster) {
    && PvcName in p.labels
    && FindPVC(cl.pvcs, p.labels[PvcName]).Some?
    && FindPV(cl.pvs, FindPVC(cl.pvcs, p.labels[PvcName]).value.volume).Some?
  }

  lemma {:induction false} ScaleDownSucceedsIff(ds: seq<Deployment>, id: string, i: nat, env: Env)
    ensures ScaleDown(ds, id, i, env).ok <==> forall d :: d in ds && Carries(d.labels, id) ==> !env.fails(UpdateDeployment(i, d.name))
  {
    if ds != [] {
      ScaleDownSucceedsIff(ds[1..], id, i, env);
      assert ds == [ds[0]] + ds[1..];
    }
  }

  /** The j-th failing pod can be located, and every deployment of its ID listed and updated. */
  ghost predicate Passes(p: Pod, j: nat, cl: Cluster, env: Env) {
    && Resolves(p, cl) && !env.fails(GetPVC(j)) && !env.fails(GetPV(j)) && !env.fails(ListDeployments(j))
    && forall d :: d in cl.deployments && Carries(d.labels, Get(p.labels, OsdName)) ==> !env.fails(UpdateDeployment(j, d.name))
  }

  /** The k-th failing pod lacks the claim label, and every earlier one passes. */
  ghost predicate PanicsOn(pods: seq<Pod>, i: nat, k: nat, cl: Cluster, env: Env) {
    i <= k < |pods| && PvcName !in pods[k].labels && forall j :: i <= j < k ==> Passes(pods[j], j, cl, env)
  }

  ghost predicate SomePanics(pods: seq<Pod>, i: nat, cl: Cluster, env: Env) {
    exists k: nat :: PanicsOn(pods, i, k, cl, env)
  }

  ghost predicate AllPass(pods: seq<Pod>, i: nat, cl: Cluster, env: Env) {
    forall j :: i <= j < |pods| ==> Passes(pods[j], j, cl, env)
  }

  /** Scaling down renames and relabels nothing. */
  lemma PassesStill(p: Pod, j: nat, cl: Cluster, next: Cluster, ids: seq<string>, env: Env)
    requires next.pvcs == cl.pvcs && next.pvs == cl.pvs && next.deployments == Zeroed(cl.deployments, ids)
    ensures Passes(p, j, next, env) <==> Passes(p, j, cl, env)
  {
    var ds, id := cl.deployments, Get(p.labels, OsdName);
    ZeroedEverywhere(ds, ids);
    forall d | d in ds && Carries(d.labels, id)
      ensures exists z :: z in next.deployments && z.name == d.name && Carries(z.labels, id)
    {
      var k :| 0 <= k < |ds| && ds[k] == d;
      assert ZeroIf(d, ids) in next.deployments;
    }
  }

  lemma HandleFirst(pods: seq<Pod>, i: nat, cl: Cluster, next: Cluster, env: Env)
    requires i < |pods|
    requires next == (var s := ScaleDown(cl.deployments, Get(pods[i].labels, OsdName), i, env);
                      Log(cl.(deployments := s.deployments), s.events))
    ensures var h, rest := Handle(pods, i, cl, env), Handle(pods, i + 1, next, env);
            if Passes(pods[i], i, cl, env) then (h.HandlePanic? <==> rest.HandlePanic?) && (h.Handled? <==> rest.Handled?)
            else !h.Handled? && (h.HandlePanic? <==> PvcName !in pods[i].labels)
  {
    ScaleDownSucceedsIff(cl.deployments, Get(pods[i].labels, OsdName), i, env);
  }

  /** The loop over the failing pods, exactly, whatever fails. */
  lemma {:induction false} HandleExactly(pods: seq<Pod>, i: nat, cl: Cluster, env: Env)
    requires i <= |pods|
    ensures Handle(pods, i, cl, env).HandlePanic? <==> SomePanics(pods, i, cl, env)
    ensures Handle(pods, i, cl, env).Handled? <==> AllPass(pods, i, cl, env)
    decreases |pods| - i
  {
    if i < |pods| {
      var id := Get(pods[i].labels, OsdName);
      var s := ScaleDown(cl.deployments, id, i, env);
      var next := Log(cl.(deployments := s.deployments), s.events);
      HandleFirst(pods, i, cl, next, env);
      if Passes(pods[i], i, cl, env) {
        ScaleDownSucceedsIff(cl.deployments, id, i, env);
        ScaleDownContract(cl.deployments, id, i, env);
        HandleExactly(pods, i + 1, next, env);
        LaterPods(pods, i, i + 1, cl, next, [id], env);
      } else {
        OnlyFirstPanics(pods, i, cl, env);
      }
    }
  }

  lemma LaterPods(pods: seq<Pod>, i: nat, rest: nat, cl: Cluster, next: Cluster, ids: seq<string>, env: Env)
    requires i < |pods| && rest == i + 1 && Passes(pods[i], i, cl, env)
    requires next.pvcs == cl.pvcs && next.pvs == cl.pvs && next.deployments == Zeroed(cl.deployments, ids)
    ensures SomePanics(pods, i, cl, env) <==> SomePanics(pods, rest, next, env)
    ensures AllPass(pods, i, cl, env) <==> AllPass(pods, rest, next, env)
  {
    forall j | rest <= j < |pods| ensures Passes(pods[j], j, next, env) <==> Passes(pods[j], j, cl, env) {
      PassesStill(pods[j], j, cl, next, ids, env);
    }
    if k: nat :| PanicsOn(pods, i, k, cl, env) {
      assert PanicsOn(pods, rest, k, next, env);
    }
    if k: nat :| PanicsOn(pods, rest, k, next, env) {
      assert PanicsOn(pods, i, k, cl, env);
    }
  }

  lemma OnlyFirstPanics(pods: seq<Pod>, i: nat, cl: Cluster, env: Env)
    requires i < |pods| && !Passes(pods[i], i, cl, env)
    ensures SomePanics(pods, i, cl, env) <==> PvcName !in pods[i].labels
    ensures !AllPass(pods, i, cl, env)
  {
    assert PvcName !in pods[i].labels ==> PanicsOn(pods, i, i, cl, env);
    assert forall k: nat :: PanicsOn(pods, i, k, cl, env) ==> k == i;
  }

  /** The managing pass, exactly, whatever fails: it panics iff the list succeeds and some failing pod
      lacks the claim label while every earlier one passes; it moves on to force deletion iff some pod
      fails and all failing ones pass, and straight to the restart iff none fails. */
  lemma ManagingPassPanics(st: Status, cl: Cluster, env: Env)
    ensures var out, failing := ManageCrashes(st, cl, env), Failing(ListPods(cl.pods, OSDPods));
            && (out.Panic? <==> !env.fails(ListOSDPods) && SomePanics(failing, 0, cl, env))
            && (out.Outcome? ==>
                 && (out.move == To(Kind.ForceDeleteRookCephOSDPods) <==>
                      !env.fails(ListOSDPods) && failing != [] && AllPass(failing, 0, cl, env))
                 && (out.move == To(RestartStorageOperator) <==> !env.fails(ListOSDPods) && failing == [])
                 && (out.move.To? || out.move == Stay))
  {
    var failing := Failing(ListPods(cl.pods, OSDPods));
    HandleExactly(failing, 0, cl, env);
    assert SomePanics(failing, 0, cl, env) ==> failing != [];
  }

  /******* Leaving the volume wait *******/

  lemma LeftTheWait(store: Store, st: Status, cl: Cluster, env: Env)
    requires At(st, WaitForPersistenVolumeBound) && st.startTime.Some?
    requires At(Request(store, st, cl, env).st, RestartStorageOperator)
    ensures WaitForVolumes(st, cl, env).move == To(RestartStorageOperator)
  {
    var out := Inner(st, cl, env);
    assert out == if TimedOut(st, env.now) then Outcome(st, cl, GiveUp, DONE) else WaitForVolumes(st, cl, env);
    assert out.Outcome? && out.st == st;
  }

  lemma ReadyToLeave(st: Status, cl: Cluster, env: Env)
    requires WaitForVolumes(st, cl, env).move == To(RestartStorageOperator)
    ensures HowMany(cl.pods, cl.pvcs) >= |st.operationalOSDIDs| + |st.nodeDevice|
    ensures VolumesReady(st.nodeDevice, cl)
  {
    var _ := VolumeWaitExactly(st, cl, env);
    CountClaimsExactly(cl, env);
  }

  /** A run that leaves the volume wait has as many OSD pods on bound, labelled claims as the
      recording pass listed OSD pods: operational IDs left over from an earlier pass can only make the
      wait demand more. And every recorded node has a volume, none of the recorded ones released. */
  lemma ReplacementIsComplete(cfg: Config, w: World, run: seq<Action>, env: Env)
    requires Init(w) && LegalRun(cfg, w, run) && Legal(cfg, Exec(cfg, w, run), Reconcile(env))
    requires At(Exec(cfg, w, run).st, WaitForPersistenVolumeBound)
    requires At(Next(cfg, Exec(cfg, w, run), Reconcile(env)).st, RestartStorageOperator)
    ensures var end := Exec(cfg, w, run);
            && HowMany(end.cl.pods, end.cl.pvcs) >= |end.st.operationalOSDIDs| + |end.st.nodeDevice| >= end.memory.seen
            && (end.memory.first ==> end.memory.aligned)
            && VolumesReady(end.st.nodeDevice, end.cl)
  {
    HistoryIsAPath(cfg, w, run);
    PastHolds(cfg, w, run);
    OSDsAreAccountedFor(cfg, w, run);
    LeavingTheWait(cfg, Exec(cfg, w, run), env);
  }

  lemma LeavingTheWait(cfg: Config, end: World, env: Env)
    requires HistoryInv(end.st, cfg.slack, end.clock) && StatusInv(end.st)
    requires AccountInv(end.st, end.cl.journal, end.memory)
    requires At(end.st, WaitForPersistenVolumeBound)
    requires At(Request(cfg.store, end.st, end.cl, env).st, RestartStorageOperator)
    ensures HowMany(end.cl.pods, end.cl.pvcs) >= |end.st.operationalOSDIDs| + |end.st.nodeDevice| >= end.memory.seen
    ensures end.memory.first ==> end.memory.aligned
    ensures VolumesReady(end.st.nodeDevice, end.cl)
  {
    LeftTheWait(cfg.store, end.st, end.cl, env);
    ReadyToLeave(end.st, end.cl, env);
    assert Visited(end.st, Kind.ForceDeleteRookCephOSDPods);
  }

  /******* Completion is earned *******/

  /** A completed recovery went through the fitness check and read HEALTH_OK there, never met an
      unknown condition type, and, if it force-deleted pods, saw a live job pod succeed with an
      accepted log. */
  lemma CompletionIsEarned(cfg: Config, w: World, run: seq<Action>)
    requires Init(w) && LegalRun(cfg, w, run)
    requires Exec(cfg, w, run).st.phase == Completed
    ensures var end := Exec(cfg, w, run);
            && At(end.st, DisableCephTools) && Visited(end.st, StorageClusterFitnessCheck)
            && HealthRead(HEALTH_OK) in end.cl.journal
            && (forall k :: Visited(end.st, k) ==> !k.Unknown?)
            && (Visited(end.st, Kind.ForceDeleteRookCephOSDPods) ==>
                 && Visited(end.st, CleanupOSDRemovalJob)
                 && SawRemoval(end.cl.journal))
            && (OperatorDeleted in end.cl.journal <==> end.st.pendingPods || end.st.crashLoopBackOffPods)
  {
    HistoryIsAPath(cfg, w, run);
    PastHolds(cfg, w, run);
    var end := Exec(cfg, w, run);
    CompletedPast(end.st, end.cl.journal, cfg.slack, end.clock);
  }

  lemma CompletedPast(st: Status, journal: seq<Event>, slack: nat, clock: Time)
    requires HistoryInv(st, slack, clock) && PastInv(st, journal) && st.phase == Completed
    ensures At(st, DisableCephTools) && Visited(st, StorageClusterFitnessCheck)
    ensures HealthRead(HEALTH_OK) in journal
    ensures forall k :: Visited(st, k) ==> !k.Unknown?
    ensures Visited(st, Kind.ForceDeleteRookCephOSDPods) ==> Visited(st, CleanupOSDRemovalJob) && SawRemoval(journal)
    ensures OperatorDeleted in journal <==> st.pendingPods || st.crashLoopBackOffPods
  {
    var ks := Kinds(st.conditions);
    PathIsBehind(st, slack, clock);
    assert Visited(st, DisableCephTools);
    PathStart(ks);
    PathEdge(ks, |ks| - 1);
    assert ks[|ks| - 2] == StorageClusterFitnessCheck;
    if Visited(st, Kind.ForceDeleteRookCephOSDPods) {
      ReachedThroughCleanup(ks);
    }
    if OperatorDeleted in journal {
      assert EventInv(OperatorDeleted, st);
    }
  }

  /** The volume wait is only reached through the job. */
  lemma {:induction false} ReachedThroughCleanup(ks: seq<Kind>)
    requires IsPath(ks) && WaitForPersistenVolumeBound in ks
    ensures CleanupOSDRemovalJob in ks
  {
    PathStart(ks);
    var i :| 0 <= i < |ks| && ks[i] == WaitForPersistenVolumeBound;
    PathEdge(ks, i);
    if ks[i - 1] == RetryForceCleanupOSDRemovalJob {
      PathEdge(ks, i - 1);
    }
  }

  /******* What a run never takes back *******/

  /** Flags once set stay set, the recorded OSDs stay from force deletion on, and the journal only
      grows, whatever comes after. */
  ghost predicate NeverTakesBack(a: World, b: World) {
    && (a.st.pendingPods ==> b.st.pendingPods)
    && (a.st.crashLoopBackOffPods ==> b.st.crashLoopBackOffPods)
    && (forall k :: Visited(a.st, k) ==> Visited(b.st, k))
    && (Visited(a.st, Kind.ForceDeleteRookCephOSDPods) ==>
         b.st.nodeDevice == a.st.nodeDevice && b.st.operationalOSDIDs == a.st.operationalOSDIDs)
    && a.cl.journal <= b.cl.journal
  }

  lemma MonotoneFields(k: Kind, s0: Status, s: Status, move: Move, cl: Cluster)
    requires StatusStep(k, s0, s, move, cl)
    ensures (s0.pendingPods ==> s.pendingPods) && (s0.crashLoopBackOffPods ==> s.crashLoopBackOffPods)
    ensures k != ManageCrashLoopBackOffPods ==> s.nodeDevice == s0.nodeDevice && s.operationalOSDIDs == s0.operationalOSDIDs
  {
  }

  lemma RequestNeverTakesBack(cfg: Config, w: World, env: Env)
    requires HistoryInv(w.st, cfg.slack, w.clock) && w.clock <= env.now
    ensures NeverTakesBack(w, Next(cfg, w, Reconcile(env)))
  {
    StartedHistory(w.st, cfg.slack, w.clock, env.now);
    var p := Request(cfg.store, w.st, w.cl, env);
    var out, tail := RequestStep(cfg.store, w.st, w.cl, env);
    PassNeverTakesBack(cfg, w, env, p, out, tail);
  }

  lemma PassNeverTakesBack(cfg: Config, w: World, env: Env, p: Pass, out: Outcome, tail: seq<Event>)
    requires HistoryInv(w.st, cfg.slack, w.clock) && w.clock <= env.now
    requires PassStep(cfg.store, w.st, w.cl, env, p, out, tail)
    ensures NeverTakesBack(w, w.(st := p.st, cl := p.cl))
  {
    if Proceeds(w.st, env) && !p.lost {
      var s0 := Started(w.st, env.now);
      StartedHistory(w.st, cfg.slack, w.clock, env.now);
      PathIsBehind(s0, cfg.slack, env.now);
      PassMoves(cfg.store, w.st, w.cl, env, p, out, tail);
      Placing(s0, out.st, out.move, p.st, env);
      assert forall k :: Visited(w.st, k) ==> Visited(s0, k);
      if !TimedOut(s0, env.now) {
        MonotoneFields(Latest(s0).kind, s0, out.st, out.move, w.cl);
      }
    }
  }

  lemma {:induction false} RunNeverTakesBack(cfg: Config, w: World, run: seq<Action>, more: seq<Action>)
    requires Init(w) && LegalRun(cfg, w, run + more)
    ensures LegalRun(cfg, w, run)
    ensures NeverTakesBack(Exec(cfg, w, run), Exec(cfg, w, run + more))
    decreases |more|
  {
    if more == [] {
      assert run + more == run;
    } else {
      var prefix, a := more[..|more| - 1], more[|more| - 1];
      assert (run + more)[..|run + more| - 1] == run + prefix;
      RunNeverTakesBack(cfg, w, run, prefix);
      HistoryIsAPath(cfg, w, run + prefix);
      if a.Reconcile? {
        RequestNeverTakesBack(cfg, Exec(cfg, w, run + prefix), a.env);
      }
      TakesBackTransitive(Exec(cfg, w, run), Exec(cfg, w, run + prefix), Exec(cfg, w, run + more));
    }
  }

  lemma TakesBackTransitive(a: World, b: World, c: World)
    requires NeverTakesBack(a, b) && NeverTakesBack(b, c)
    ensures NeverTakesBack(a, c)
  {
  }

  /******* No silent stall *******/

  /** Every branch that neither finishes nor gives up asks for another reconcile. */
  lemma BranchRequeues(last: Condition, st: Status, cl: Cluster, env: Env)
    ensures var out := Branch(last, st, cl, env);
            out.Outcome? && (out.move == Stay || out.move.To?) ==> Requeues(out.res)
  {
  }

  /** A request that found the resource and left it unfinished is followed by another one: it
      returned an error (a recovered panic is one), a requeue or a delay. */
  lemma NoSilentStall(cfg: Config, w: World, run: seq<Action>, env: Env)
    requires Init(w) && LegalRun(cfg, w, run) && Legal(cfg, Exec(cfg, w, run), Reconcile(env))
    ensures var end := Exec(cfg, w, run);
            var p := Request(cfg.store, end.st, end.cl, env);
            (env.fetch == Found || env.fetch == FetchFailed) && !Terminal(p.st) ==> Requeues(p.res)
  {
    HistoryIsAPath(cfg, w, run);
    RequestRequeues(cfg, Exec(cfg, w, run), env);
  }

  lemma RequestRequeues(cfg: Config, w: World, env: Env)
    requires HistoryInv(w.st, cfg.slack, w.clock) && w.clock <= env.now
    ensures var p := Request(cfg.store, w.st, w.cl, env);
            (env.fetch == Found || env.fetch == FetchFailed) && !Terminal(p.st) ==> Requeues(p.res)
  {
    if Proceeds(w.st, env) {
      var s0 := Started(w.st, env.now);
      StartedHistory(w.st, cfg.slack, w.clock, env.now);
      if !TimedOut(s0, env.now) {
        BranchRequeues(Latest(s0), s0, w.cl, env);
      }
    }
  }
}
