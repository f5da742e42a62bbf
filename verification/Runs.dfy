/** Runs of the operator: reconcile requests, in any number and with any failures, interleaved
    with whatever else happens to the cluster while the clock advances. */
module Runs {
  import opened Types
  import opened Pods
  import opened Effects
  import opened Workflow
  import opened Branches

  /** The status store, and a bound on how long one reconcile takes. */
  datatype Config = Config(store: Store, slack: nat)

  /** What a run remembers about itself; no part of it is read by the controller. */
  datatype Memory = Memory(
    toolsAtStart: bool,   // the tools flag when the run began
    lostEnable: bool,     // some pass switched the tools flag on and lost its status
    lostRetry: bool,      // some pass created the forced job and lost its status
    tried: bool,          // some pass has entered ManageCrashLoopBackOffPods
    first: bool,          // the persisted ManageCrashLoopBackOffPods pass was the first one
    seen: nat,            // how many OSD pods that pass listed
    aligned: bool,        // it listed an operational pod, or found no operational IDs recorded
    covered: bool)        // its failing pods carry every ID scaled down before

  datatype World = World(st: Status, cl: Cluster, clock: Time, memory: Memory)

  datatype Action =
    | Reconcile(env: Env)
    | Environment(cl: Cluster, clock: Time)

  ghost predicate Init(w: World) {
    && w.st == BLANK
    && w.cl.journal == []
    && w.memory == Memory(ToolsOn(w.cl), false, false, false, false, 0, false, false)
  }

  /** Time does not run backwards, a reconcile takes at most the slack, and the journal is the
      controller's own. */
  ghost predicate Legal(cfg: Config, w: World, a: Action) {
    match a
    case Reconcile(env) => w.clock <= env.now <= env.stamp <= env.now + cfg.slack
    case Environment(cl, clock) => w.clock <= clock && cl.journal == w.cl.journal
  }

  ghost function NewEvents(before: Cluster, after: Cluster): seq<Event> {
    if |before.journal| <= |after.journal| then after.journal[|before.journal|..] else []
  }

  ghost predicate At(st: Status, k: Kind) {
    st.conditions != [] && Latest(st).kind == k
  }

  ghost predicate ScaledIn(events: seq<Event>, id: string) {
    exists e :: e in events && e.Scaled? && e.osdID == id
  }

  /** Every ID scaled down so far is among these. */
  ghost predicate AllScaledAmong(events: seq<Event>, ids: seq<string>) {
    forall id :: ScaledIn(events, id) ==> id in ids
  }

  ghost function Remember(w: World, env: Env, p: Pass): Memory {
    var m, new_ := w.memory, NewEvents(w.cl, p.cl);
    var managing := Proceeds(w.st, env) && At(w.st, ManageCrashLoopBackOffPods) && !TimedOut(w.st, env.now);
    var osds := ListPods(w.cl.pods, OSDPods);
    var recorded := managing && At(p.st, Kind.ForceDeleteRookCephOSDPods);
    Memory(
      m.toolsAtStart,
      m.lostEnable || (p.lost && ToolsSet(true) in new_),
      m.lostRetry || (p.lost && At(w.st, CleanupOSDRemovalJob) && !NoCreation(new_)),
      m.tried || managing,
      if recorded then !m.tried else m.first,
      if recorded then |osds| else m.seen,
      if recorded then Operational(osds) != [] || w.st.operationalOSDIDs == [] else m.aligned,
      if recorded then AllScaledAmong(w.cl.journal, OsdNames(Failing(osds))) else m.covered)
  }

  ghost function Next(cfg: Config, w: World, a: Action): World {
    match a
    case Environment(cl, clock) => w.(cl := cl, clock := clock)
    case Reconcile(env) =>
      var p := Request(cfg.store, w.st, w.cl, env);
      World(p.st, p.cl, env.stamp, Remember(w, env, p))
  }

  ghost function Exec(cfg: Config, w: World, run: seq<Action>): World {
    if run == [] then w else Next(cfg, Exec(cfg, w, run[..|run| - 1]), run[|run| - 1])
  }

  ghost predicate LegalRun(cfg: Config, w: World, run: seq<Action>) {
    run == [] ||
    (LegalRun(cfg, w, run[..|run| - 1]) && Legal(cfg, Exec(cfg, w, run[..|run| - 1]), run[|run| - 1]))
  }

  /** One request seen through the step relation: the branch's outcome, the events it caused, and
      whether its status was kept. */
  ghost predicate PassStep(store: Store, st: Status, cl: Cluster, env: Env, p: Pass, out: Outcome, tail: seq<Event>) {
    if !Proceeds(st, env) then p.st == st && p.cl == cl && !p.lost && tail == []
    else
      var s0 := Started(st, env.now);
      && s0.conditions != []
      && p.cl == out.cl && p.cl.journal == cl.journal + tail
      && (if TimedOut(s0, env.now) then out == Outcome(s0, cl, GiveUp, DONE) && tail == []
          else StepContract(Latest(s0).kind, s0, cl, out, tail, env))
      && p.panicked == out.Panic? && (out.Panic? ==> p.lost)
      && (if p.lost then p.st == st
          else out.Outcome? && p.st == Settle(out.st, out.move, env.stamp) && Accepts(store, p.st))
  }

  lemma RequestStep(store: Store, st: Status, cl: Cluster, env: Env) returns (out: Outcome, tail: seq<Event>)
    requires Started(st, env.now).conditions != []
    ensures PassStep(store, st, cl, env, Request(store, st, cl, env), out, tail)
    ensures Proceeds(st, env) ==> out == Inner(Started(st, env.now), cl, env)
    ensures tail == NewEvents(cl, Request(store, st, cl, env).cl)
  {
    var s0 := Started(st, env.now);
    out, tail := Inner(s0, cl, env), [];
    assert cl.journal + [] == cl.journal;
    if Proceeds(st, env) && !TimedOut(s0, env.now) {
      tail := BranchContract(Latest(s0), s0, cl, env);
      assert (cl.journal + tail)[|cl.journal|..] == tail;
    }
  }
}
