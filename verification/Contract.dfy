/** The workflow graph, and what recording and scaling down the failing OSDs does to the cluster,
    whatever calls fail. */
module Contract {
  import opened Types
  import opened Pods
  import opened Effects

  /******* The workflow graph *******/

  function Rank(k: Kind): nat {
    match k
    case EnableCephToolsPod => 0
    case WaitForCephToolsPodRunning => 1
    case WaitForOSDPodsStabilize => 2
    case LabelNodesWithPendingPods => 3
    case ManageCrashLoopBackOffPods => 4
    case ForceDeleteRookCephOSDPods => 5
    case ProcessOCSRemovalTemplate => 6
    case CleanupOSDRemovalJob => 7
    case RetryForceCleanupOSDRemovalJob => 8
    case WaitForPersistenVolumeBound => 9
    case RestartStorageOperator => 10
    case DeleteFailedPodsNodeAffinity => 11
    case StorageClusterFitnessCheck => 12
    case DisableCephTools => 13
    case Unknown(_) => 14
  }

  /** The transitions written in the switch. */
  predicate Edge(a: Kind, b: Kind) {
    match a
    case EnableCephToolsPod => b == WaitForCephToolsPodRunning
    case WaitForCephToolsPodRunning => b == WaitForOSDPodsStabilize
    case WaitForOSDPodsStabilize => b == LabelNodesWithPendingPods
    case LabelNodesWithPendingPods => b == ManageCrashLoopBackOffPods
    case ManageCrashLoopBackOffPods => b == RestartStorageOperator || b == ForceDeleteRookCephOSDPods
    case ForceDeleteRookCephOSDPods =>
      b == RestartStorageOperator || b == ForceDeleteRookCephOSDPods || b == ProcessOCSRemovalTemplate
    case ProcessOCSRemovalTemplate => b == CleanupOSDRemovalJob
    case CleanupOSDRemovalJob => b == RetryForceCleanupOSDRemovalJob || b == WaitForPersistenVolumeBound
    case RetryForceCleanupOSDRemovalJob => b == WaitForPersistenVolumeBound
    case WaitForPersistenVolumeBound => b == RestartStorageOperator
    case RestartStorageOperator => b == DeleteFailedPodsNodeAffinity
    case DeleteFailedPodsNodeAffinity => b == StorageClusterFitnessCheck
    case StorageClusterFitnessCheck => b == DisableCephTools
    case DisableCephTools => false
    case Unknown(_) => false
  }

  /******* Scaling down *******/

  /** The deployment serves one of these IDs. */
  ghost predicate Serves(d: Deployment, ids: seq<string>) {
    exists id :: id in ids && Carries(d.labels, id)
  }

  ghost function ZeroIf(d: Deployment, ids: seq<string>): Deployment {
    if Serves(d, ids) then d.(replicas := 0) else d
  }

  /** Every deployment of these IDs at zero replicas, everything else as it was. */
  ghost function Zeroed(ds: seq<Deployment>, ids: seq<string>): (r: seq<Deployment>)
    ensures |r| == |ds|
  {
    if ds == [] then [] else [ZeroIf(ds[0], ids)] + Zeroed(ds[1..], ids)
  }

  /** Each deployment is as it was, or serves one of the IDs and went to zero. */
  ghost predicate PartlyZeroed(ds: seq<Deployment>, r: seq<Deployment>, ids: seq<string>) {
    && |r| == |ds|
    && (ds == [] || ((r[0] == ds[0] || r[0] == ZeroIf(ds[0], ids)) && PartlyZeroed(ds[1..], r[1..], ids)))
  }

  ghost predicate OnlyScaled(events: seq<Event>, ids: seq<string>) {
    forall e :: e in events ==> e.Scaled? && e.osdID in ids
  }

  lemma {:induction false} ZeroedAt(ds: seq<Deployment>, ids: seq<string>, k: nat)
    requires k < |ds|
    ensures Zeroed(ds, ids)[k] == ZeroIf(ds[k], ids)
  {
    if k > 0 {
      ZeroedAt(ds[1..], ids, k - 1);
    }
  }

  lemma ZeroedIsDrained(ds: seq<Deployment>, ids: seq<string>)
    ensures Drained(Zeroed(ds, ids), ids)
  {
    forall id, d | id in ids && d in Zeroed(ds, ids) && Carries(d.labels, id) ensures d.replicas == 0 {
      var k :| 0 <= k < |ds| && Zeroed(ds, ids)[k] == d;
      ZeroedAt(ds, ids, k);
    }
  }

  lemma {:induction false} ZeroedTwice(ds: seq<Deployment>, a: seq<string>, b: seq<string>)
    ensures Zeroed(Zeroed(ds, a), b) == Zeroed(ds, a + b)
  {
    if ds != [] {
      ZeroedTwice(ds[1..], a, b);
      var d := ds[0];
      assert forall id :: id in a + b <==> id in a || id in b;
      if id :| id in a && Carries(d.labels, id) {
        assert id in a + b;
      }
      if id :| id in b && Carries(d.labels, id) {
        assert id in a + b && Carries(ZeroIf(d, a).labels, id);
      }
      assert ZeroIf(ZeroIf(d, a), b) == ZeroIf(d, a + b);
      assert Zeroed(ds, a)[1..] == Zeroed(ds[1..], a);
    }
  }

  lemma {:induction false} PartlyZeroedKeepsZero(ds: seq<Deployment>, r: seq<Deployment>, ids: seq<string>)
    requires PartlyZeroed(ds, r, ids)
    ensures KeepsZero(ds, r)
  {
    if ds != [] {
      PartlyZeroedKeepsZero(ds[1..], r[1..], ids);
      assert ds == [ds[0]] + ds[1..] && r == [r[0]] + r[1..];
      forall id | AtZero(ds, id) ensures AtZero(r, id) {
        assert AtZero(ds[1..], id);
        assert ds[0] in ds;
      }
    }
  }

  lemma {:induction false} PartlyZeroedUnchanged(ds: seq<Deployment>, ids: seq<string>)
    ensures PartlyZeroed(ds, ds, ids)
  {
    if ds != [] {
      PartlyZeroedUnchanged(ds[1..], ids);
    }
  }

  lemma {:induction false} PartlyZeroedTwice(ds: seq<Deployment>, m: seq<Deployment>, r: seq<Deployment>, a: seq<string>, b: seq<string>)
    requires PartlyZeroed(ds, m, a) && PartlyZeroed(m, r, b)
    ensures PartlyZeroed(ds, r, a + b)
  {
    if ds != [] {
      PartlyZeroedTwice(ds[1..], m[1..], r[1..], a, b);
      var d := ds[0];
      ZeroedTwice([d], a, b);
      if m[0] != d {
        var id :| id in a && Carries(d.labels, id);
        assert id in a + b;
      }
      if r[0] != m[0] {
        var id :| id in b && Carries(m[0].labels, id);
        assert id in a + b && Carries(d.labels, id);
      }
      assert r[0] == d || r[0] == ZeroIf(d, a + b);
    }
  }

  lemma {:induction false} ScaleDownContract(ds: seq<Deployment>, id: string, i: nat, env: Env)
    ensures var s := ScaleDown(ds, id, i, env);
            && PartlyZeroed(ds, s.deployments, [id])
            && OnlyScaled(s.events, [id])
            && (s.ok ==> s.deployments == Zeroed(ds, [id]))
            && (s.ok ==> forall d :: d in ds && Carries(d.labels, id) ==> Scaled(d.name, id) in s.events)
  {
    if ds != [] {
      ScaleDownContract(ds[1..], id, i, env);
      PartlyZeroedUnchanged(ds, [id]);
      assert id in [id];
      assert Carries(ds[0].labels, id) == Serves(ds[0], [id]);
      assert ds == [ds[0]] + ds[1..];
      var s := ScaleDown(ds, id, i, env);
      var rest := ScaleDown(ds[1..], id, i, env);
      if Carries(ds[0].labels, id) && env.fails(UpdateDeployment(i, ds[0].name)) {
      } else {
        assert s.deployments[1..] == rest.deployments;
      }
    }
  }

  /** What recording and scaling the failing pods of these IDs may do to the cluster, and, when
      it ends well, exactly does. */
  ghost predicate HandleEffect(h: Handling, cl: Cluster, ids: seq<string>, tail: seq<Event>) {
    && h.cl == cl.(deployments := h.cl.deployments, journal := cl.journal + tail)
    && PartlyZeroed(cl.deployments, h.cl.deployments, ids)
    && OnlyScaled(tail, ids)
    && (h.Handled? ==>
         && OSDIDs(h.entries) == ids
         && h.cl.deployments == Zeroed(cl.deployments, ids)
         && AllScaled(cl.deployments, ids, tail))
  }

  ghost predicate AllScaled(ds: seq<Deployment>, ids: seq<string>, events: seq<Event>) {
    forall d, id :: d in ds && id in ids && Carries(d.labels, id) ==> Scaled(d.name, id) in events
  }

  lemma {:induction false} ZeroedNone(ds: seq<Deployment>)
    ensures Zeroed(ds, []) == ds
  {
    if ds != [] {
      ZeroedNone(ds[1..]);
    }
  }

  /** The events of the first ID and of the rest together cover all deployments they serve. */
  lemma HandledTail(ds: seq<Deployment>, s: Scaling, id: string, rest: seq<string>, more: seq<Event>)
    requires s.deployments == Zeroed(ds, [id])
    requires forall d :: d in ds && Carries(d.labels, id) ==> Scaled(d.name, id) in s.events
    requires AllScaled(s.deployments, rest, more)
    ensures AllScaled(ds, [id] + rest, s.events + more)
  {
    forall d, x | d in ds && x in [id] + rest && Carries(d.labels, x) ensures Scaled(d.name, x) in s.events + more {
      if x in rest {
        var k :| 0 <= k < |ds| && ds[k] == d;
        ZeroedAt(ds, [id], k);
        assert ZeroIf(d, [id]) in s.deployments;
      }
    }
  }

  lemma {:induction false} HandleContract(pods: seq<Pod>, i: nat, cl: Cluster, env: Env) returns (tail: seq<Event>)
    requires i <= |pods|
    ensures HandleEffect(Handle(pods, i, cl, env), cl, OsdNames(pods[i..]), tail)
    decreases |pods| - i
  {
    tail := [];
    assert cl.journal + [] == cl.journal;
    PartlyZeroedUnchanged(cl.deployments, OsdNames(pods[i..]));
    if i == |pods| {
      ZeroedNone(cl.deployments);
      return;
    }
    var look := NodeDeviceOf(pods[i], i, cl, env);
    if !look.Located? || env.fails(ListDeployments(i)) {
      return;
    }
    var id, rest := look.entry.osdID, OsdNames(pods[i + 1..]);
    assert OsdNames(pods[i..]) == [id] + rest;
    var s := ScaleDown(cl.deployments, id, i, env);
    ScaleDownContract(cl.deployments, id, i, env);
    var next := Log(cl.(deployments := s.deployments), s.events);
    if s.ok {
      var more := HandleContract(pods, i + 1, next, env);
      tail := s.events + more;
      HandleThenRest(cl, s, look.entry, Handle(pods, i + 1, next, env), rest, more);
    } else {
      tail := s.events;
      PartlyZeroedUnchanged(s.deployments, rest);
      PartlyZeroedTwice(cl.deployments, s.deployments, s.deployments, [id], rest);
    }
  }

  lemma HandleThenRest(cl: Cluster, s: Scaling, entry: NodePV, g: Handling, rest: seq<string>, more: seq<Event>)
    requires s.ok && s.deployments == Zeroed(cl.deployments, [entry.osdID])
    requires PartlyZeroed(cl.deployments, s.deployments, [entry.osdID]) && OnlyScaled(s.events, [entry.osdID])
    requires forall d :: d in cl.deployments && Carries(d.labels, entry.osdID) ==> Scaled(d.name, entry.osdID) in s.events
    requires HandleEffect(g, Log(cl.(deployments := s.deployments), s.events), rest, more)
    ensures HandleEffect(Prepend([entry], g), cl, [entry.osdID] + rest, s.events + more)
  {
    var id := entry.osdID;
    assert (cl.journal + s.events) + more == cl.journal + (s.events + more);
    PartlyZeroedTwice(cl.deployments, s.deployments, g.cl.deployments, [id], rest);
    if g.Handled? {
      HandledTail(cl.deployments, s, id, rest, more);
      ZeroedTwice(cl.deployments, [id], rest);
      assert OSDIDs([entry] + g.entries) == [id] + OSDIDs(g.entries);
    }
  }
}
