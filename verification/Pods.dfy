/** Pod selection and classification: the list queries of the controller, and the loops over
    container statuses proved against what they are meant to decide. */
module Pods {
  import opened Types

  /******* List queries *******/

  /** The label and field selectors the controller lists or deletes pods with. */
  datatype Query =
    | AllPods
    | OSDPods
    | PendingOSDPods
    | OSDPodsWithID(id: string)
    | OSDPodsOnClaims(claims: seq<string>)
    | PodsWithAnyID(ids: seq<string>)
    | ToolsPods
    | OperatorPods
    | JobPods
    | FailedPods

  predicate IsOSD(p: Pod) {
    App in p.labels && p.labels[App] == OSD_APP
  }

  predicate Carries(labels: Labels, id: string) {
    && App in labels && labels[App] == OSD_APP
    && OsdID in labels && labels[OsdID] == id
  }

  predicate Selects(q: Query, p: Pod) {
    match q
    case AllPods => true
    case OSDPods => IsOSD(p)
    case PendingOSDPods => IsOSD(p) && p.phase == PodPending
    case OSDPodsWithID(id) => Carries(p.labels, id)
    case OSDPodsOnClaims(claims) => IsOSD(p) && PvcName in p.labels && p.labels[PvcName] in claims
    case PodsWithAnyID(ids) => OsdID in p.labels && p.labels[OsdID] in ids
    case ToolsPods => App in p.labels && p.labels[App] == TOOLS_APP
    case OperatorPods => App in p.labels && p.labels[App] == OPERATOR_APP
    case JobPods => JobName in p.labels && p.labels[JobName] == OSD_REMOVAL_JOB
    case FailedPods => p.phase == PodFailed
  }

  function ListPods(pods: seq<Pod>, q: Query): (r: seq<Pod>)
    ensures forall p :: p in r <==> p in pods && Selects(q, p)
    ensures |r| <= |pods|
  {
    if pods == [] then []
    else (if Selects(q, pods[0]) then [pods[0]] else []) + ListPods(pods[1..], q)
  }

  /** Deleting a selection: each selected pod goes, unless a finalizer keeps it terminating. */
  function DeletePods(pods: seq<Pod>, q: Query, env: Env): seq<Pod> {
    if pods == [] then []
    else
      var p := pods[0];
      var rest := DeletePods(pods[1..], q, env);
      if !Selects(q, p) then [p] + rest
      else if env.lingers(p.name) then
        [if p.deletion.None? then p.(deletion := Some(env.now)) else p] + rest
      else rest
  }

  /** A pod once its deletion was requested. */
  ghost function Terminating(p: Pod, now: Time): Pod {
    p.(deletion := Some(if p.deletion.Some? then p.deletion.value else now))
  }

  /** Exactly the unselected pods are untouched, and what is left of the selected ones are those that
      linger, terminating from now on if they were not before. */
  lemma {:induction false} DeletePodsExactly(pods: seq<Pod>, q: Query, env: Env, p: Pod)
    ensures !Selects(q, p) ==> (p in DeletePods(pods, q, env) <==> p in pods)
    ensures Selects(q, p) ==>
      (p in DeletePods(pods, q, env) <==>
        exists o :: o in pods && Selects(q, o) && env.lingers(o.name) && p == Terminating(o, env.now))
  {
    if pods != [] {
      DeletePodsExactly(pods[1..], q, env, p);
      assert pods == [pods[0]] + pods[1..];
      assert Selects(q, Terminating(pods[0], env.now)) == Selects(q, pods[0]);
    }
  }

  lemma ListedFirst(p: Pod, rest: seq<Pod>, q: Query)
    ensures ListPods([p] + rest, q) == (if Selects(q, p) then [p] else []) + ListPods(rest, q)
  {
    assert ([p] + rest)[1..] == rest;
  }

  lemma {:induction false} ListedInOrder(a: seq<Pod>, b: seq<Pod>, q: Query)
    ensures ListPods(a + b, q) == ListPods(a, q) + ListPods(b, q)
  {
    if a == [] {
      assert a + b == b;
    } else {
      var p, rest := a[0], a[1..];
      assert a == [p] + rest && a + b == [p] + (rest + b);
      ListedInOrder(rest, b, q);
      ListedFirst(p, rest, q);
      ListedFirst(p, rest + b, q);
      Regroup(if Selects(q, p) then [p] else [], ListPods(rest, q), ListPods(b, q));
    }
  }

  lemma Regroup(a: seq<Pod>, b: seq<Pod>, c: seq<Pod>)
    ensures a + (b + c) == (a + b) + c
  {
  }

  lemma DeletedFirst(p: Pod, rest: seq<Pod>, q: Query, env: Env)
    ensures DeletePods([p] + rest, q, env) == DeletePods([p], q, env) + DeletePods(rest, q, env)
  {
    assert ([p] + rest)[1..] == rest && [p][1..] == [];
  }

  /** Deleting leaves the order of the pods alone, and so does listing them. */
  lemma {:induction false} DeletedInOrder(a: seq<Pod>, b: seq<Pod>, q: Query, env: Env)
    ensures DeletePods(a + b, q, env) == DeletePods(a, q, env) + DeletePods(b, q, env)
  {
    if a == [] {
      assert a + b == b;
    } else {
      var p, rest := a[0], a[1..];
      assert a == [p] + rest && a + b == [p] + (rest + b);
      DeletedInOrder(rest, b, q, env);
      DeletedFirst(p, rest, q, env);
      DeletedFirst(p, rest + b, q, env);
      Regroup(DeletePods([p], q, env), DeletePods(rest, q, env), DeletePods(b, q, env));
    }
  }

  /** A selected pod that is left was in the list, and differs at most in its deletion time. */
  lemma {:induction false} LeftoversWereListed(pods: seq<Pod>, q: Query, env: Env, p: Pod)
    requires p in DeletePods(pods, q, env) && Selects(q, p)
    ensures exists o :: o in pods && p == o.(deletion := p.deletion) && env.lingers(o.name)
  {
    if p !in DeletePods(pods[1..], q, env) {
      assert pods[0] in pods && p == pods[0].(deletion := p.deletion);
    } else {
      LeftoversWereListed(pods[1..], q, env, p);
    }
  }

  /** No OSD pod with this ID exists. */
  ghost predicate Absent(pods: seq<Pod>, id: string) {
    forall p :: p in pods ==> !Carries(p.labels, id)
  }

  /** Every OSD deployment with this ID is at zero replicas. */
  ghost predicate AtZero(deployments: seq<Deployment>, id: string) {
    forall d :: d in deployments && Carries(d.labels, id) ==> d.replicas == 0
  }

  ghost predicate NoOSDPods(pods: seq<Pod>, ids: seq<string>) {
    forall id :: id in ids ==> Absent(pods, id)
  }

  /** Nothing holds back an OSD pod of these IDs when it is deleted. */
  ghost predicate NoneHeld(pods: seq<Pod>, ids: seq<string>, env: Env) {
    forall p, id :: p in pods && id in ids && Carries(p.labels, id) ==> !env.lingers(p.name)
  }

  ghost predicate Drained(deployments: seq<Deployment>, ids: seq<string>) {
    forall id :: id in ids ==> AtZero(deployments, id)
  }

  /** No ID gains its first OSD pod. */
  ghost predicate KeepsAbsence(before: seq<Pod>, after: seq<Pod>) {
    forall id :: Absent(before, id) ==> Absent(after, id)
  }

  /** No ID at zero is scaled up. */
  ghost predicate KeepsZero(before: seq<Deployment>, after: seq<Deployment>) {
    forall id :: AtZero(before, id) ==> AtZero(after, id)
  }

  lemma {:induction false} DeletePodsKeepsAbsence(pods: seq<Pod>, q: Query, env: Env)
    ensures KeepsAbsence(pods, DeletePods(pods, q, env))
  {
    if pods != [] {
      DeletePodsKeepsAbsence(pods[1..], q, env);
      forall id | Absent(pods, id) ensures Absent(DeletePods(pods, q, env), id) {
        assert Absent(pods[1..], id);
        assert pods[0] in pods;
      }
    }
  }

  /******* Has every pod left its creation phase? *******/

  predicate WaitsFor(s: ContainerStatus, reason: string) {
    s.waiting == Some(reason)
  }

  predicate Unready(s: ContainerStatus) {
    WaitsFor(s, CONTAINER_CREATING) || WaitsFor(s, POD_INITIALIZING)
  }

  /** A pod is starting if some container waits to be created or initialised and no container
      is in a crash loop. */
  ghost predicate Starting(p: Pod) {
    && (forall s :: s in p.initStatuses + p.statuses ==> !WaitsFor(s, CRASH_LOOP_BACK_OFF))
    && (exists s :: s in p.initStatuses + p.statuses && Unready(s))
  }

  ghost predicate Settled(pods: seq<Pod>) {
    forall p :: p in pods ==> !Starting(p)
  }

  method CheckPodStatus(pod: Pod) returns (podErrors: bool)
    ensures podErrors <==> Starting(pod)
  {
    podErrors := false;
    var all := pod.initStatuses + pod.statuses;
    for i := 0 to |all|
      invariant forall s :: s in all[..i] ==> !WaitsFor(s, CRASH_LOOP_BACK_OFF)
      invariant podErrors <==> exists s :: s in all[..i] && Unready(s)
    {
      assert all[..i+1] == all[..i] + [all[i]];
      var status := all[i];
      if status.waiting.Some? {
        if status.waiting.value == CRASH_LOOP_BACK_OFF {
          assert status in all;
          return false;
        }
        if status.waiting.value == CONTAINER_CREATING || status.waiting.value == POD_INITIALIZING {
          assert Unready(status);
          podErrors := true;
        }
      }
    }
    assert all[..|all|] == all;
  }

  method AnyPodStarting(pods: seq<Pod>) returns (errs: bool)
    ensures errs <==> !Settled(pods)
  {
    errs := false;
    for i := 0 to |pods|
      invariant errs <==> !Settled(pods[..i])
    {
      var err := CheckPodStatus(pods[i]);
      errs := errs || err;
      assert pods[..i+1] == pods[..i] + [pods[i]];
    }
    assert pods[..|pods|] == pods;
  }

  /** The stabilise check is blind to the order of a pod's containers, and to which of them are
      init containers. */
  lemma StartingIgnoresOrder(p: Pod, q: Pod)
    requires multiset(p.initStatuses + p.statuses) == multiset(q.initStatuses + q.statuses)
    ensures Starting(p) == Starting(q)
  {
    forall s ensures s in p.initStatuses + p.statuses <==> s in q.initStatuses + q.statuses {
      assert s in multiset(p.initStatuses + p.statuses) <==> s in multiset(q.initStatuses + q.statuses);
    }
  }

  /******* Operational and failing OSD pods *******/

  predicate InFailure(s: ContainerStatus) {
    s.waiting == Some(CRASH_LOOP_BACK_OFF) || s.terminated == Some(ERROR_REASON)
  }

  predicate IsFailing(p: Pod) {
    exists s :: s in p.initStatuses + p.statuses && InFailure(s)
  }

  function Failing(pods: seq<Pod>): seq<Pod>
  {
    if pods == [] then []
    else (if IsFailing(pods[0]) then [pods[0]] else []) + Failing(pods[1..])
  }

  function Operational(pods: seq<Pod>): seq<Pod>
  {
    if pods == [] then []
    else (if IsFailing(pods[0]) then [] else [pods[0]]) + Operational(pods[1..])
  }

  method IsPodInCrashLoopBackOffOrErrorStatus(statuses: seq<ContainerStatus>) returns (failing: bool)
    ensures failing <==> exists s :: s in statuses && InFailure(s)
  {
    for i := 0 to |statuses|
      invariant forall s :: s in statuses[..i] ==> !InFailure(s)
    {
      assert statuses[..i+1] == statuses[..i] + [statuses[i]];
      if statuses[i].waiting == Some(CRASH_LOOP_BACK_OFF) || statuses[i].terminated == Some(ERROR_REASON) {
        assert InFailure(statuses[i]);
        return true;
      }
    }
    assert statuses[..|statuses|] == statuses;
    return false;
  }

  method Classify(pods: seq<Pod>) returns (operational: seq<Pod>, failing: seq<Pod>)
    ensures operational == Operational(pods) && failing == Failing(pods)
  {
    operational, failing := [], [];
    for i := 0 to |pods|
      invariant operational == Operational(pods[..i]) && failing == Failing(pods[..i])
    {
      assert pods[..i+1] == pods[..i] + [pods[i]];
      ClassifyInOrder(pods[..i], [pods[i]]);
      var bad := IsPodInCrashLoopBackOffOrErrorStatus(pods[i].initStatuses + pods[i].statuses);
      if bad {
        failing := failing + [pods[i]];
      } else {
        operational := operational + [pods[i]];
      }
    }
    assert pods[..|pods|] == pods;
  }

  /** The failing half holds exactly the failing pods, the operational half all others. */
  lemma {:induction false} ClassifyExactly(pods: seq<Pod>, p: Pod)
    ensures p in Failing(pods) <==> p in pods && IsFailing(p)
    ensures p in Operational(pods) <==> p in pods && !IsFailing(p)
  {
    if pods != [] {
      ClassifyExactly(pods[1..], p);
      assert pods == [pods[0]] + pods[1..];
    }
  }

  lemma {:induction false} FailingInOrder(a: seq<Pod>, b: seq<Pod>)
    ensures Failing(a + b) == Failing(a) + Failing(b)
  {
    if a == [] {
      assert a + b == b;
    } else {
      var head := if IsFailing(a[0]) then [a[0]] else [];
      assert (a + b)[1..] == a[1..] + b;
      FailingInOrder(a[1..], b);
      assert Failing(a + b) == head + Failing(a[1..] + b);
      Regroup(head, Failing(a[1..]), Failing(b));
    }
  }

  lemma {:induction false} OperationalInOrder(a: seq<Pod>, b: seq<Pod>)
    ensures Operational(a + b) == Operational(a) + Operational(b)
  {
    if a == [] {
      assert a + b == b;
    } else {
      var head := if IsFailing(a[0]) then [] else [a[0]];
      assert (a + b)[1..] == a[1..] + b;
      OperationalInOrder(a[1..], b);
      assert Operational(a + b) == head + Operational(a[1..] + b);
    }
  }

  /** Both halves keep the order in which the pods were listed: classifying is a concatenation
      homomorphism. */
  lemma ClassifyInOrder(a: seq<Pod>, b: seq<Pod>)
    ensures Failing(a + b) == Failing(a) + Failing(b)
    ensures Operational(a + b) == Operational(a) + Operational(b)
  {
    FailingInOrder(a, b);
    OperationalInOrder(a, b);
  }

  /** The two halves partition the list: nothing is lost, doubled or invented. */
  lemma {:induction false} ClassifyPartitions(pods: seq<Pod>)
    ensures multiset(Operational(pods)) + multiset(Failing(pods)) == multiset(pods)
    ensures |Operational(pods)| + |Failing(pods)| == |pods|
  {
    if pods != [] {
      ClassifyPartitions(pods[1..]);
      assert pods == [pods[0]] + pods[1..];
    }
  }

  /******* Node targets of pending pods *******/

  function Targets(pods: seq<Pod>): set<string> {
    set p | p in pods :: Get(p.nodeSelector, Hostname)
  }
}
