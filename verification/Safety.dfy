/** Whole-run safety: the removal job, the force flag, the tools flag, and termination under any
    store. Each result names the hypothesis on the environment it
    needs, if any. */
module Safety {
  import opened Types
  import opened Pods
  import opened Effects
  import opened Workflow
  import opened Contract
  import opened Branches
  import opened Runs
  import opened History
  import opened Correlations

  /******* Hypotheses on the environment *******/

  datatype Hypothesis =
    | ToolsUntouched      // nobody else changes the tools flag, nor the version that selects it
    | RemovalRespected    // nobody revives the recorded OSDs before their removal is over
    | ForceDeletionWorks  // no finalizer holds an OSD pod of a recorded ID while it is force-deleted

  ghost predicate Removing(st: Status) {
    5 <= Position(st) <= 8 && !Terminal(st)
  }

  /** The environment starts OSD pods only for deployments with replicas, and does not scale up the
      deployments of recorded IDs while these are being removed. */
  ghost predicate Respects(st: Status, before: Cluster, after: Cluster) {
    Removing(st) ==> forall id :: id in OSDIDs(st.nodeDevice) && AtZero(before.deployments, id) ==>
      AtZero(after.deployments, id) && (Absent(before.pods, id) ==> Absent(after.pods, id))
  }

  ghost predicate Assumed(h: Hypothesis, w: World, a: Action) {
    match h
    case ToolsUntouched =>
      a.Environment? ==> a.cl.before415 == w.cl.before415 && ToolsOn(a.cl) == ToolsOn(w.cl)
    case RemovalRespected => a.Environment? ==> Respects(w.st, w.cl, a.cl)
    case ForceDeletionWorks =>
      a.Reconcile? && At(w.st, Kind.ForceDeleteRookCephOSDPods) ==> NoneHeld(w.cl.pods, OSDIDs(w.st.nodeDevice), a.env)
  }

  ghost predicate Obeys(h: Hypothesis, cfg: Config, w: World, run: seq<Action>) {
    run == [] ||
    (Obeys(h, cfg, w, run[..|run| - 1]) && Assumed(h, Exec(cfg, w, run[..|run| - 1]), run[|run| - 1]))
  }

  /** Untouched, or started with a history. */
  ghost predicate Regular(st: Status) {
    st == BLANK || (st.conditions != [] && st.startTime.Some?)
  }

  /******* The force flag and the job *******/

  ghost function LastJob(events: seq<Event>): Option<Job> {
    if events == [] then None
    else
      var e := events[|events| - 1];
      if e.JobCreated? then Some(e.job) else LastJob(events[..|events| - 1])
  }

  lemma {:induction false} LastJobAppends(a: seq<Event>, b: seq<Event>)
    ensures NoCreation(b) ==> LastJob(a + b) == LastJob(a)
    ensures b != [] && b[|b| - 1].JobCreated? ==> LastJob(a + b) == Some(b[|b| - 1].job)
  {
    if b == [] {
      assert a + b == a;
    } else {
      var c := b[..|b| - 1];
      assert (a + b)[..|a + b| - 1] == a + c;
      if NoCreation(b) {
        assert b[|b| - 1] in b;
        LastJobAppends(a, c);
      }
    }
  }

  /** While the job is awaited, the last job created was forced iff the flag says so or a forced
      job's status was lost. */
  ghost predicate ForceInv(st: Status, journal: seq<Event>, lostRetry: bool) {
    && (lostRetry ==> Position(st) >= 7)
    && (7 <= Position(st) <= 8 ==>
         && LastJob(journal).Some?
         && LastJob(journal).value.force == (st.forcedOSDRemoval || lostRetry))
  }

  /** Only two branches create jobs, the second only a forced one. */
  lemma CreationBranches(k: Kind, s0: Status, cl: Cluster, out: Outcome, tail: seq<Event>, env: Env)
    requires StepContract(k, s0, cl, out, tail, env)
    ensures k != ProcessOCSRemovalTemplate && k != CleanupOSDRemovalJob ==> NoCreation(tail)
    ensures k == CleanupOSDRemovalJob && !NoCreation(tail) ==> LastJob(cl.journal + tail) == Some(Job(OSDIDs(s0.nodeDevice), true))
  {
    if k == CleanupOSDRemovalJob {
      LastJobAppends(cl.journal, tail);
    } else if k != ProcessOCSRemovalTemplate {
      forall e | e in tail ensures !e.JobCreated? {
        assert EventAllowed(e, k, s0, cl);
      }
    }
  }

  lemma ForceMoves(k: Kind, s0: Status, cl: Cluster, out: Outcome, tail: seq<Event>, env: Env)
    requires StepContract(k, s0, cl, out, tail, env) && out.Outcome?
    ensures out.move == To(CleanupOSDRemovalJob) ==>
              k == ProcessOCSRemovalTemplate && LastJob(cl.journal + tail) == Some(Job(OSDIDs(s0.nodeDevice), out.st.forcedOSDRemoval))
    ensures out.move == To(RetryForceCleanupOSDRemovalJob) ==>
              k == CleanupOSDRemovalJob && !NoCreation(tail) && out.st.forcedOSDRemoval
    ensures k == CleanupOSDRemovalJob && out.move != To(RetryForceCleanupOSDRemovalJob) ==> NoCreation(tail)
    ensures k == CleanupOSDRemovalJob || k == RetryForceCleanupOSDRemovalJob ==>
              out.st.forcedOSDRemoval == (s0.forcedOSDRemoval || out.move == To(RetryForceCleanupOSDRemovalJob))
    ensures out.move.To? ==> Edge(k, out.move.next)
  {
    LastJobAppends(cl.journal, tail);
    if k == CleanupOSDRemovalJob && out.move == To(RetryForceCleanupOSDRemovalJob) {
      assert tail[|tail| - 1] in tail;
    }
  }
  lemma ForceLost(k: Kind, s0: Status, journal: seq<Event>, tail: seq<Event>, lost: bool)
    requires s0.conditions != [] && Latest(s0).kind == k && ForceInv(s0, journal, lost)
    requires k != ProcessOCSRemovalTemplate && k != CleanupOSDRemovalJob ==> NoCreation(tail)
    requires k == CleanupOSDRemovalJob && !NoCreation(tail) ==> LastJob(journal + tail) == Some(Job(OSDIDs(s0.nodeDevice), true))
    ensures ForceInv(s0, journal + tail, lost || (k == CleanupOSDRemovalJob && !NoCreation(tail)))
  {
    LastJobAppends(journal, tail);
  }

  lemma ForceMoved(k: Kind, s0: Status, s: Status, move: Move, p: Status, journal: seq<Event>, tail: seq<Event>, lost: bool)
    requires s0.conditions != [] && Latest(s0).kind == k && ForceInv(s0, journal, lost)
    requires k != ProcessOCSRemovalTemplate && k != CleanupOSDRemovalJob ==> NoCreation(tail)
    requires move == To(CleanupOSDRemovalJob) ==>
               k == ProcessOCSRemovalTemplate && LastJob(journal + tail) == Some(Job(OSDIDs(s0.nodeDevice), s.forcedOSDRemoval))
    requires move == To(RetryForceCleanupOSDRemovalJob) ==>
               k == CleanupOSDRemovalJob && s.forcedOSDRemoval
               && LastJob(journal + tail) == Some(Job(OSDIDs(s0.nodeDevice), true))
    requires k == CleanupOSDRemovalJob && move != To(RetryForceCleanupOSDRemovalJob) ==> NoCreation(tail)
    requires k == CleanupOSDRemovalJob || k == RetryForceCleanupOSDRemovalJob ==>
               s.forcedOSDRemoval == (s0.forcedOSDRemoval || move == To(RetryForceCleanupOSDRemovalJob))
    requires move.To? ==> Edge(k, move.next)
    requires Placed(s0, p, move) && SameFacts(s, p)
    ensures ForceInv(p, journal + tail, lost)
  {
    LastJobAppends(journal, tail);
    if move.To? {
      EdgesRise(k, move.next);
    }
  }

  lemma ForceInvStep(store: Store, st: Status, cl: Cluster, env: Env, p: Pass, out: Outcome, tail: seq<Event>, lost: bool)
    requires PassStep(store, st, cl, env, p, out, tail) && Regular(st)
    requires ForceInv(st, cl.journal, lost)
    ensures ForceInv(p.st, p.cl.journal, lost || (p.lost && At(st, CleanupOSDRemovalJob) && !NoCreation(tail)))
  {
    if Proceeds(st, env) {
      var s0 := Started(st, env.now);
      var k := Latest(s0).kind;
      if TimedOut(s0, env.now) {
        assert cl.journal + tail == cl.journal;
      } else if p.lost {
        CreationBranches(k, s0, cl, out, tail, env);
        ForceLost(k, s0, cl.journal, tail, lost);
      } else {
        PassMoves(store, st, cl, env, p, out, tail);
        ForceKept(k, s0, cl, out, tail, p.st, env, lost);
      }
    }
  }

  lemma ForceKept(k: Kind, s0: Status, cl: Cluster, out: Outcome, tail: seq<Event>, p: Status, env: Env, lost: bool)
    requires s0.conditions != [] && Latest(s0).kind == k && ForceInv(s0, cl.journal, lost)
    requires StepContract(k, s0, cl, out, tail, env) && out.Outcome?
    requires MovedBy(s0, out.st, out.move, p, env)
    ensures ForceInv(p, cl.journal + tail, lost)
  {
    CreationBranches(k, s0, cl, out, tail, env);
    Placing(s0, out.st, out.move, p, env);
    ForceMoves(k, s0, cl, out, tail, env);
    ForceMoved(k, s0, out.st, out.move, p, cl.journal, tail, lost);
  }


  /** In every run, with any failures and lost writes: while the job is awaited the last job created
      was forced iff the flag says so or a forced job's status was lost. So the flag implies a
      forced job, and the two agree in a run that lost no such write. */
  lemma {:induction false} ForceFlagTellsTheJob(cfg: Config, w: World, run: seq<Action>)
    requires Init(w) && LegalRun(cfg, w, run)
    ensures var end := Exec(cfg, w, run); ForceInv(end.st, end.cl.journal, end.memory.lostRetry)
    ensures var end := Exec(cfg, w, run); Visited(end.st, RetryForceCleanupOSDRemovalJob) ==> end.st.forcedOSDRemoval
  {
    PastHolds(cfg, w, run);
    if run != [] {
      var prefix, a := run[..|run| - 1], run[|run| - 1];
      ForceFlagTellsTheJob(cfg, w, prefix);
      HistoryIsAPath(cfg, w, prefix);
      if a.Reconcile? {
        ForceRequest(cfg, Exec(cfg, w, prefix), a.env);
      }
    }
  }

  lemma ForceRequest(cfg: Config, w: World, env: Env)
    requires HistoryInv(w.st, cfg.slack, w.clock) && w.clock <= env.now
    requires ForceInv(w.st, w.cl.journal, w.memory.lostRetry)
    ensures var end := Next(cfg, w, Reconcile(env)); ForceInv(end.st, end.cl.journal, end.memory.lostRetry)
  {
    StartedHistory(w.st, cfg.slack, w.clock, env.now);
    var p := Request(cfg.store, w.st, w.cl, env);
    var out, tail := RequestStep(cfg.store, w.st, w.cl, env);
    ForceInvStep(cfg.store, w.st, w.cl, env, p, out, tail, w.memory.lostRetry);
  }

  /******* Removal-job safety *******/

  /** Every removal job was created for exactly the recorded IDs, in order, when their deployments
      were at zero and none of their pods existed. */
  ghost predicate SafeCreation(e: Event, st: Status) {
    var ids := OSDIDs(st.nodeDevice);
    e.JobCreated? ==> e.job.ids == ids && ids != [] && Drained(e.deployments, ids) && NoOSDPods(e.pods, ids)
  }

  ghost predicate RemovalInv(st: Status, cl: Cluster) {
    var ids := OSDIDs(st.nodeDevice);
    && (forall e :: e in cl.journal ==> SafeCreation(e, st))
    && (Removing(st) ==> Drained(cl.deployments, ids))
    && (Removing(st) && Position(st) >= 6 ==> NoOSDPods(cl.pods, ids))
  }

  lemma RemovalInvLost(k: Kind, s0: Status, cl: Cluster, c: Cluster, tail: seq<Event>)
    requires Behind(s0) && StatusInv(s0) && Latest(s0).kind == k && !Terminal(s0)
    requires RemovalInv(s0, cl) && ClusterStep(k, s0, cl, c, tail)
    ensures RemovalInv(s0, c)
  {
    forall e | e in tail ensures SafeCreation(e, s0) {
      assert EventAllowed(e, k, s0, cl);
      if e.JobCreated? {
        assert Visited(s0, Kind.ForceDeleteRookCephOSDPods);
      }
    }
  }

  /** What entering force deletion and leaving it for the job take. */
  lemma RemovalEarned(k: Kind, s0: Status, s: Status, move: Move, cl: Cluster, c: Cluster, tail: seq<Event>, env: Env)
    requires MoveStep(k, s0, move) && StatusStep(k, s0, s, move, cl) && Earned(k, s0, s, cl, c, tail, move, env)
    ensures k == ManageCrashLoopBackOffPods && move == To(Kind.ForceDeleteRookCephOSDPods) ==> Drained(c.deployments, OSDIDs(s.nodeDevice))
    ensures move == To(ProcessOCSRemovalTemplate) ==>
              k == Kind.ForceDeleteRookCephOSDPods && NoOSDPods(c.pods, OSDIDs(s.nodeDevice))
    ensures k != ManageCrashLoopBackOffPods ==> s.nodeDevice == s0.nodeDevice
  {
  }

  lemma RemovalInvMoves(k: Kind, s0: Status, s: Status, move: Move, p: Status, c: Cluster)
    requires Behind(s0) && Latest(s0).kind == k && !Terminal(s0) && RemovalInv(s0, c)
    requires move.To? ==> Edge(k, move.next)
    requires k == ManageCrashLoopBackOffPods && move == To(Kind.ForceDeleteRookCephOSDPods) ==> Drained(c.deployments, OSDIDs(s.nodeDevice))
    requires move == To(ProcessOCSRemovalTemplate) ==>
               k == Kind.ForceDeleteRookCephOSDPods && NoOSDPods(c.pods, OSDIDs(s.nodeDevice))
    requires if k == ManageCrashLoopBackOffPods then forall e :: e in c.journal ==> !e.JobCreated? else s.nodeDevice == s0.nodeDevice
    requires Placed(s0, p, move) && SameFacts(s, p)
    ensures RemovalInv(p, c)
  {
    if move.To? {
      EdgesRise(k, move.next);
    }
    if k == ManageCrashLoopBackOffPods {
      assert forall e :: e in c.journal ==> SafeCreation(e, p);
    } else {
      assert forall e :: SafeCreation(e, s0) ==> SafeCreation(e, p);
    }
  }

  lemma RemovalBlank(now: Time, cl: Cluster)
    ensures RemovalInv(BLANK, cl) <==> RemovalInv(Started(BLANK, now), cl)
  {
    var s := Started(BLANK, now);
    assert forall e :: SafeCreation(e, BLANK) <==> SafeCreation(e, s);
  }

  lemma RemovalFailed(s0: Status, p: Status, cl: Cluster)
    requires RemovalInv(s0, cl) && p == s0.(phase := Failed)
    ensures RemovalInv(p, cl)
  {
    assert forall e :: SafeCreation(e, s0) <==> SafeCreation(e, p);
  }

  /** One request on a started status. */
  lemma RemovalPass(store: Store, st: Status, s0: Status, cl: Cluster, env: Env, p: Pass, out: Outcome, tail: seq<Event>)
    requires PassStep(store, st, cl, env, p, out, tail) && Proceeds(st, env) && s0 == Started(st, env.now)
    requires Behind(s0) && PastInv(s0, cl.journal) && RemovalInv(s0, cl)
    ensures if p.lost then RemovalInv(s0, p.cl) else RemovalInv(p.st, p.cl)
  {
    if !p.lost {
      PassMoves(store, st, cl, env, p, out, tail);
    }
    if TimedOut(s0, env.now) {
      if !p.lost {
        RemovalFailed(s0, p.st, cl);
      }
    } else {
      RemovalInvLost(Latest(s0).kind, s0, cl, p.cl, tail);
      if !p.lost {
        RemovalKept(s0, cl, out, tail, p.st, env);
      }
    }
  }

  lemma RemovalStep(store: Store, slack: nat, st: Status, clock: Time, cl: Cluster, env: Env, p: Pass, out: Outcome, tail: seq<Event>)
    requires HistoryInv(st, slack, clock) && clock <= env.now && PastInv(st, cl.journal)
    requires PassStep(store, st, cl, env, p, out, tail)
    requires RemovalInv(st, cl)
    ensures RemovalInv(p.st, p.cl)
  {
    if Proceeds(st, env) {
      var s0 := Started(st, env.now);
      StartedHistory(st, slack, clock, env.now);
      PathIsBehind(s0, slack, env.now);
      if st == BLANK {
        BlankOrStarted(env.now, cl.journal);
        RemovalBlank(env.now, cl);
        RemovalBlank(env.now, p.cl);
      }
      RemovalPass(store, st, s0, cl, env, p, out, tail);
    }
  }

  lemma RemovalKept(s0: Status, cl: Cluster, out: Outcome, tail: seq<Event>, p: Status, env: Env)
    requires Behind(s0) && PastInv(s0, cl.journal) && !Terminal(s0)
    requires StepContract(Latest(s0).kind, s0, cl, out, tail, env) && out.Outcome?
    requires MovedBy(s0, out.st, out.move, p, env) && RemovalInv(s0, out.cl)
    ensures RemovalInv(p, out.cl)
  {
    Placing(s0, out.st, out.move, p, env);
    JournalInvLost(s0, cl, tail);
    var k := Latest(s0).kind;
    RemovalEarned(k, s0, out.st, out.move, cl, out.cl, tail, env);
    forall e | k == ManageCrashLoopBackOffPods && e in out.cl.journal ensures !e.JobCreated? {
      assert EventInv(e, s0);
    }
    RemovalInvMoves(k, s0, out.st, out.move, p, out.cl);
  }

  /** Under an environment that does not revive the recorded OSDs while they are being removed, the
      invariant holds in every run, whatever fails. */
  lemma {:induction false} RemovalJobsAreSafe(cfg: Config, w: World, run: seq<Action>)
    requires Init(w) && LegalRun(cfg, w, run) && Obeys(RemovalRespected, cfg, w, run)
    ensures var end := Exec(cfg, w, run); RemovalInv(end.st, end.cl)
  {
    if run != [] {
      var prefix, a := run[..|run| - 1], run[|run| - 1];
      RemovalJobsAreSafe(cfg, w, prefix);
      PastHolds(cfg, w, prefix);
      HistoryIsAPath(cfg, w, prefix);
      if a.Reconcile? {
        RemovalRequest(cfg, Exec(cfg, w, prefix), a.env);
      }
    }
  }

  lemma RemovalRequest(cfg: Config, w: World, env: Env)
    requires HistoryInv(w.st, cfg.slack, w.clock) && w.clock <= env.now && PastInv(w.st, w.cl.journal)
    requires RemovalInv(w.st, w.cl)
    ensures var p := Request(cfg.store, w.st, w.cl, env); RemovalInv(p.st, p.cl)
  {
    StartedHistory(w.st, cfg.slack, w.clock, env.now);
    var p := Request(cfg.store, w.st, w.cl, env);
    var out, tail := RequestStep(cfg.store, w.st, w.cl, env);
    RemovalStep(cfg.store, cfg.slack, w.st, w.clock, w.cl, env, p, out, tail);
  }

  /******* The tools flag *******/

  /** Past the first condition the flag is on iff no disabling request was served, and whether it is to
      be kept tells what it was at the start, unless the enabling pass lost its status; only the last
      condition disables, and only a flag that is not to be kept. */
  ghost predicate ToolsInv(st: Status, cl: Cluster, toolsAtStart: bool, lostEnable: bool) {
    var disabled := ToolsSet(false) in cl.journal;
    && (lostEnable ==> !toolsAtStart)
    && (Position(st) == 0 ==> !st.keepCephToolsPod && ToolsOn(cl) == (toolsAtStart || lostEnable))
    && (Position(st) > 0 ==> st.keepCephToolsPod == (toolsAtStart || lostEnable) && ToolsOn(cl) == !disabled)
    && (disabled ==> Position(st) == 13 && !st.keepCephToolsPod)
    && (st.phase == Completed ==> Position(st) == 13 && disabled == !st.keepCephToolsPod)
  }

  /** What one branch does to the flag and to the decision to keep it. */
  lemma ToolsBranch(k: Kind, s0: Status, cl: Cluster, out: Outcome, tail: seq<Event>, env: Env)
    requires StepContract(k, s0, cl, out, tail, env)
    ensures k != EnableCephToolsPod && k != DisableCephTools ==> ToolsOn(out.cl) == ToolsOn(cl) && ToolsSet(true) !in tail
    ensures k == DisableCephTools ==> ToolsSet(true) !in tail && (s0.keepCephToolsPod ==> ToolsOn(out.cl) == ToolsOn(cl))
    ensures k != DisableCephTools ==> ToolsSet(false) !in tail
    ensures k == DisableCephTools ==> ToolsOn(out.cl) == (ToolsOn(cl) && ToolsSet(false) !in tail)
    ensures k == DisableCephTools ==> (ToolsSet(false) in tail <==> out.Outcome? && out.move == Finish && !s0.keepCephToolsPod)
    ensures k == EnableCephToolsPod ==> (
              && out.Outcome?
              && ToolsOn(out.cl) == (ToolsOn(cl) || ToolsSet(true) in tail)
              && (ToolsSet(true) in tail ==> !ToolsOn(cl))
              && (out.move.To? ==> ToolsOn(out.cl))
              && (!out.move.To? ==> ToolsSet(true) !in tail)
              && out.st.keepCephToolsPod == (s0.keepCephToolsPod || (out.move.To? && ToolsOn(cl))))
    ensures out.Outcome? && k != EnableCephToolsPod ==> out.st.keepCephToolsPod == s0.keepCephToolsPod
  {
    assert ToolsSet(true) in tail ==> EventAllowed(ToolsSet(true), k, s0, cl);
    assert ToolsSet(false) in tail ==> EventAllowed(ToolsSet(false), k, s0, cl);
    assert k == DisableCephTools && cl.journal + tail == cl.journal ==> tail == [];
    if k == EnableCephToolsPod && !out.move.To? {
      assert cl.journal + tail == cl.journal ==> tail == [];
    }
  }

  lemma ToolsLost(k: Kind, s0: Status, cl: Cluster, out: Outcome, tail: seq<Event>, env: Env, start: bool, lost: bool)
    requires Behind(s0) && Latest(s0).kind == k && !Terminal(s0) && ToolsInv(s0, cl, start, lost)
    requires StepContract(k, s0, cl, out, tail, env)
    ensures ToolsInv(s0, out.cl, start, lost || ToolsSet(true) in tail)
  {
    ToolsBranch(k, s0, cl, out, tail, env);
    assert Visited(s0, k);
  }

  lemma ToolsKept(k: Kind, s0: Status, cl: Cluster, out: Outcome, tail: seq<Event>, p: Status, env: Env, start: bool, lost: bool)
    requires Behind(s0) && Latest(s0).kind == k && !Terminal(s0) && ToolsInv(s0, cl, start, lost)
    requires StepContract(k, s0, cl, out, tail, env) && out.Outcome? && MovedBy(s0, out.st, out.move, p, env)
    ensures ToolsInv(p, out.cl, start, lost)
  {
    ToolsBranch(k, s0, cl, out, tail, env);
    Placing(s0, out.st, out.move, p, env);
    assert Visited(s0, k);
    if out.move.To? {
      EdgesRise(k, out.move.next);
    }
  }

  lemma ToolsStep(store: Store, st: Status, cl: Cluster, env: Env, p: Pass, out: Outcome, tail: seq<Event>, start: bool, lost: bool)
    requires PassStep(store, st, cl, env, p, out, tail) && Regular(st) && Behind(Started(st, env.now))
    requires ToolsInv(st, cl, start, lost)
    ensures ToolsInv(p.st, p.cl, start, lost || (p.lost && ToolsSet(true) in tail))
  {
    if Proceeds(st, env) {
      var s0 := Started(st, env.now);
      if !TimedOut(s0, env.now) {
        if p.lost {
          ToolsLost(Latest(s0).kind, s0, cl, out, tail, env, start, lost);
        } else {
          PassMoves(store, st, cl, env, p, out, tail);
          ToolsKept(Latest(s0).kind, s0, cl, out, tail, p.st, env, start, lost);
        }
      }
    }
  }

  /** If nobody else touches the flag, a completed recovery leaves the tools flag as it found it
      iff no pass that switched the flag on lost its status; and in any case a flag that was on at
      the start is on at the end. */
  lemma ToolsFlagRestored(cfg: Config, w: World, run: seq<Action>)
    requires Init(w) && LegalRun(cfg, w, run) && Obeys(ToolsUntouched, cfg, w, run)
    requires Exec(cfg, w, run).st.phase == Completed
    ensures var end := Exec(cfg, w, run);
            && (ToolsOn(end.cl) == ToolsOn(w.cl) <==> !end.memory.lostEnable)
            && (ToolsOn(w.cl) ==> ToolsOn(end.cl))
  {
    ToolsHold(cfg, w, run);
  }

  /** A failed recovery leaves the flag as it found it iff it was on, or it never left the first
      condition and lost no enabling pass, or it had already served a disabling request: in
      particular a flag that was off is left on by any failure after the first condition and before
      the last. */
  lemma ToolsFlagAfterFailure(cfg: Config, w: World, run: seq<Action>)
    requires Init(w) && LegalRun(cfg, w, run) && Obeys(ToolsUntouched, cfg, w, run)
    requires Exec(cfg, w, run).st.phase == Failed
    ensures var end := Exec(cfg, w, run);
            && (ToolsOn(end.cl) == ToolsOn(w.cl) <==>
                 || ToolsOn(w.cl)
                 || (Position(end.st) == 0 && !end.memory.lostEnable)
                 || ToolsSet(false) in end.cl.journal)
            && (ToolsSet(false) in end.cl.journal ==> At(end.st, DisableCephTools))
  {
    ToolsHold(cfg, w, run);
    HistoryIsAPath(cfg, w, run);
    var end := Exec(cfg, w, run);
    DisabledAtTheEnd(end.st, end.cl, ToolsOn(w.cl), end.memory.lostEnable);
  }

  lemma DisabledAtTheEnd(st: Status, cl: Cluster, start: bool, lost: bool)
    requires ToolsInv(st, cl, start, lost)
    ensures ToolsSet(false) in cl.journal ==> At(st, DisableCephTools)
    ensures ToolsOn(cl) == start <==> start || (Position(st) == 0 && !lost) || ToolsSet(false) in cl.journal
  {
    if Position(st) == 13 {
      RankInjective(DisableCephTools, Latest(st).kind);
    }
  }

  lemma {:induction false} ToolsHold(cfg: Config, w: World, run: seq<Action>)
    requires Init(w) && LegalRun(cfg, w, run) && Obeys(ToolsUntouched, cfg, w, run)
    ensures var end := Exec(cfg, w, run);
            && end.memory.toolsAtStart == ToolsOn(w.cl)
            && ToolsInv(end.st, end.cl, end.memory.toolsAtStart, end.memory.lostEnable)
  {
    if run != [] {
      var prefix, a := run[..|run| - 1], run[|run| - 1];
      ToolsHold(cfg, w, prefix);
      HistoryIsAPath(cfg, w, prefix);
      if a.Reconcile? {
        ToolsRequest(cfg, Exec(cfg, w, prefix), a.env);
      }
    }
  }

  lemma ToolsRequest(cfg: Config, w: World, env: Env)
    requires HistoryInv(w.st, cfg.slack, w.clock) && w.clock <= env.now
    requires ToolsInv(w.st, w.cl, w.memory.toolsAtStart, w.memory.lostEnable)
    ensures var end := Next(cfg, w, Reconcile(env));
            && end.memory.toolsAtStart == w.memory.toolsAtStart
            && ToolsInv(end.st, end.cl, end.memory.toolsAtStart, end.memory.lostEnable)
  {
    StartedHistory(w.st, cfg.slack, w.clock, env.now);
    PathIsBehind(Started(w.st, env.now), cfg.slack, env.now);
    var p := Request(cfg.store, w.st, w.cl, env);
    var out, tail := RequestStep(cfg.store, w.st, w.cl, env);
    ToolsStep(cfg.store, w.st, w.cl, env, p, out, tail, w.memory.toolsAtStart, w.memory.lostEnable);
  }

  /******* Termination under a permissive store *******/

  /** Force deletion is re-entered at most once, and then finds no pod left. */
  ghost predicate EntriesInv(st: Status, cl: Cluster) {
    var n := Entries(Kinds(st.conditions));
    n <= 2 && (n == 2 && Position(st) == 5 && !Terminal(st) ==> NoOSDPods(cl.pods, OSDIDs(st.nodeDevice)))
  }

  lemma EntriesAppend(ks: seq<Kind>, k: Kind)
    ensures Entries(ks + [k]) == Entries(ks) + (if k == Kind.ForceDeleteRookCephOSDPods then 1 else 0)
  {
    assert (ks + [k])[..|ks|] == ks;
  }

  lemma ForceDeleteFacts(s0: Status, cl: Cluster, out: Outcome, tail: seq<Event>, env: Env)
    requires StepContract(Kind.ForceDeleteRookCephOSDPods, s0, cl, out, tail, env)
    ensures KeepsAbsence(cl.pods, out.cl.pods)
    ensures out.Outcome? ==> out.st == s0
    ensures out.Outcome? && out.move == To(Kind.ForceDeleteRookCephOSDPods) ==>
              && !NoOSDPods(cl.pods, OSDIDs(s0.nodeDevice))
              && (NoneHeld(cl.pods, OSDIDs(s0.nodeDevice), env) ==> NoOSDPods(out.cl.pods, OSDIDs(s0.nodeDevice)))
  {
  }

  lemma EntriesStep(store: Store, st: Status, cl: Cluster, env: Env, p: Pass, out: Outcome, tail: seq<Event>)
    requires PassStep(store, st, cl, env, p, out, tail) && Proceeds(st, env) && EntriesInv(st, cl)
    requires var s0 := Started(st, env.now);
             && EntriesInv(s0, cl) && Behind(s0)
             && (Kind.ForceDeleteRookCephOSDPods in Kinds(s0.conditions) <==> Entries(Kinds(s0.conditions)) > 0)
    requires st != BLANK ==> Started(st, env.now) == st
    requires At(st, Kind.ForceDeleteRookCephOSDPods) ==> NoneHeld(cl.pods, OSDIDs(st.nodeDevice), env)
    ensures EntriesInv(p.st, p.cl)
  {
    var s0 := Started(st, env.now);
    if Position(s0) == 5 {
      RankInjective(Kind.ForceDeleteRookCephOSDPods, Latest(s0).kind);
      if !TimedOut(s0, env.now) {
        ForceDeleteFacts(s0, cl, out, tail, env);
      }
    }
    if p.lost {
      EntriesLost(st, cl, p.cl);
    } else {
      PassMoves(store, st, cl, env, p, out, tail);
      EntriesMoved(s0, cl, out, p.st, env);
    }
  }

  lemma EntriesLost(st: Status, cl: Cluster, c: Cluster)
    requires EntriesInv(st, cl) && (Position(st) == 5 && !Terminal(st) ==> KeepsAbsence(cl.pods, c.pods))
    ensures EntriesInv(st, c)
  {
  }

  lemma EntriesMoved(s0: Status, cl: Cluster, out: Outcome, p: Status, env: Env)
    requires out.Outcome? && MovedBy(s0, out.st, out.move, p, env) && EntriesInv(s0, cl) && !Terminal(s0)
    requires Kind.ForceDeleteRookCephOSDPods in Kinds(s0.conditions) <==> Entries(Kinds(s0.conditions)) > 0
    requires Behind(s0)
    requires At(s0, Kind.ForceDeleteRookCephOSDPods) && !TimedOut(s0, env.now) ==>
               && KeepsAbsence(cl.pods, out.cl.pods) && out.st == s0
               && (out.move == To(Kind.ForceDeleteRookCephOSDPods) ==>
                    && !NoOSDPods(cl.pods, OSDIDs(s0.nodeDevice))
                    && NoOSDPods(out.cl.pods, OSDIDs(s0.nodeDevice)))
    ensures EntriesInv(p, out.cl)
  {
    if out.move == To(Kind.ForceDeleteRookCephOSDPods) {
      EntriesEntered(s0, cl, out, p, env);
    } else if out.move.To? {
      EntriesElsewhere(s0, cl, out, p, env);
    } else if Position(s0) == 5 && !Terminal(p) {
      RankInjective(Kind.ForceDeleteRookCephOSDPods, Latest(s0).kind);
    }
  }

  lemma EntriesEntered(s0: Status, cl: Cluster, out: Outcome, p: Status, env: Env)
    requires out.Outcome? && MovedBy(s0, out.st, out.move, p, env) && EntriesInv(s0, cl) && !Terminal(s0)
    requires out.move == To(Kind.ForceDeleteRookCephOSDPods) && Behind(s0)
    requires Kind.ForceDeleteRookCephOSDPods in Kinds(s0.conditions) <==> Entries(Kinds(s0.conditions)) > 0
    requires At(s0, Kind.ForceDeleteRookCephOSDPods) && !TimedOut(s0, env.now) ==>
               && out.st == s0
               && !NoOSDPods(cl.pods, OSDIDs(s0.nodeDevice))
               && NoOSDPods(out.cl.pods, OSDIDs(s0.nodeDevice))
    ensures EntriesInv(p, out.cl)
  {
    var k := Latest(s0).kind;
    AdvanceAppends(out.st, out.move.next, env.stamp);
    EntriesAppend(Kinds(s0.conditions), out.move.next);
    EdgesRise(k, out.move.next);
    assert k != Kind.ForceDeleteRookCephOSDPods ==> !Visited(s0, Kind.ForceDeleteRookCephOSDPods);
  }

  lemma EntriesElsewhere(s0: Status, cl: Cluster, out: Outcome, p: Status, env: Env)
    requires out.Outcome? && MovedBy(s0, out.st, out.move, p, env) && EntriesInv(s0, cl)
    requires out.move.To? && out.move.next != Kind.ForceDeleteRookCephOSDPods
    ensures EntriesInv(p, out.cl)
  {
    AdvanceAppends(out.st, out.move.next, env.stamp);
    EntriesAppend(Kinds(s0.conditions), out.move.next);
    EnteredElsewhere(Latest(s0).kind, out.move.next);
  }

  lemma EnteredElsewhere(k: Kind, next: Kind)
    requires Edge(k, next) && next != Kind.ForceDeleteRookCephOSDPods
    ensures Rank(next) != 5
  {
  }

  lemma EntriesReady(st: Status, slack: nat, clock: Time, cl: Cluster, now: Time)
    requires HistoryInv(st, slack, clock) && clock <= now && EntriesInv(st, cl)
    ensures var s0 := Started(st, now);
            && EntriesInv(s0, cl) && Behind(s0)
            && (Kind.ForceDeleteRookCephOSDPods in Kinds(s0.conditions) <==> Entries(Kinds(s0.conditions)) > 0)
            && s0.conditions != [] && (st != BLANK ==> s0 == st)
  {
    var s0 := Started(st, now);
    StartedHistory(st, slack, clock, now);
    PathIsBehind(s0, slack, now);
    PathLength(Kinds(s0.conditions));
    if st == BLANK {
      assert Kinds(s0.conditions) == [] + [EnableCephToolsPod];
      EntriesAppend([], EnableCephToolsPod);
    }
  }

  lemma EntriesRequest(cfg: Config, w: World, env: Env)
    requires HistoryInv(w.st, cfg.slack, w.clock) && w.clock <= env.now && EntriesInv(w.st, w.cl)
    requires At(w.st, Kind.ForceDeleteRookCephOSDPods) ==> NoneHeld(w.cl.pods, OSDIDs(w.st.nodeDevice), env)
    ensures var p := Request(cfg.store, w.st, w.cl, env); EntriesInv(p.st, p.cl)
  {
    EntriesReady(w.st, cfg.slack, w.clock, w.cl, env.now);
    var p := Request(cfg.store, w.st, w.cl, env);
    var out, tail := RequestStep(cfg.store, w.st, w.cl, env);
    if Proceeds(w.st, env) {
      EntriesStep(cfg.store, w.st, w.cl, env, p, out, tail);
    }
  }

  /** Where force-deleted OSD pods go and nobody revives recorded OSDs, force deletion is re-entered
      at most once, whatever the store. */
  lemma {:induction false} ReenteredAtMostOnce(cfg: Config, w: World, run: seq<Action>)
    requires Init(w) && LegalRun(cfg, w, run)
    requires Obeys(RemovalRespected, cfg, w, run) && Obeys(ForceDeletionWorks, cfg, w, run)
    ensures var end := Exec(cfg, w, run); EntriesInv(end.st, end.cl)
  {
    if run != [] {
      var prefix, a := run[..|run| - 1], run[|run| - 1];
      var mid := Exec(cfg, w, prefix);
      ReenteredAtMostOnce(cfg, w, prefix);
      HistoryIsAPath(cfg, w, prefix);
      RemovalJobsAreSafe(cfg, w, prefix);
      if a.Reconcile? {
        EntriesRequest(cfg, mid, a.env);
      } else {
        RevivesNone(mid.st, mid.cl, a.cl);
      }
    } else {
      assert Kinds(BLANK.conditions) == [];
    }
  }

  lemma RevivesNone(st: Status, before: Cluster, after: Cluster)
    requires Respects(st, before, after) && RemovalInv(st, before) && EntriesInv(st, before)
    ensures EntriesInv(st, after)
  {
  }

  /** Hence a permissive store only adds one timeout to the bound. */
  lemma PermissiveStoreTerminates(cfg: Config, w: World, run: seq<Action>, env: Env)
    requires Init(w) && LegalRun(cfg, w, run) && cfg.store == Permissive
    requires Obeys(RemovalRespected, cfg, w, run) && Obeys(ForceDeletionWorks, cfg, w, run)
    requires var end := Exec(cfg, w, run);
             && Legal(cfg, end, Reconcile(env)) && env.fetch == Found && !env.fails(WriteStatus)
             && end.st.startTime.Some? && env.now > end.st.startTime.value + 15 * Bound(cfg.slack)
    ensures Terminal(Next(cfg, Exec(cfg, w, run), Reconcile(env)).st)
  {
    HistoryIsAPath(cfg, w, run);
    ReenteredAtMostOnce(cfg, w, run);
    var end := Exec(cfg, w, run);
    PathLength(Kinds(end.st.conditions));
    LateRequestEnds(cfg, end, env, 15);
  }

  /******* Re-entries, counted exactly *******/

  /** A request that enters force deletion again: it is kept, in time, finds OSD pods of recorded IDs,
      all of them ripe, and nothing fails. */
  ghost predicate Reenters(store: Store, w: World, env: Env) {
    && store == Permissive && Proceeds(w.st, env) && At(w.st, Kind.ForceDeleteRookCephOSDPods)
    && !TimedOut(w.st, env.now) && Forces(w.st, w.cl, env) && !env.fails(WriteStatus)
  }

  lemma ForceDeleteMove(last: Condition, st: Status, cl: Cluster, env: Env)
    requires last.kind == Kind.ForceDeleteRookCephOSDPods && st.crashLoopBackOffPods && st.nodeDevice != []
    ensures var out := Branch(last, st, cl, env);
            && ((out.Outcome? && out.move == To(Kind.ForceDeleteRookCephOSDPods)) <==> Forces(st, cl, env))
            && (out.Outcome? ==> out.st == st)
  {
    ForceDeletePhaseExactly(st, cl, env);
  }

  /** A request lost because of its move or its write. */
  lemma LostIff(store: Store, st: Status, cl: Cluster, env: Env, out: Outcome)
    requires Proceeds(st, env) && out == Inner(Started(st, env.now), cl, env) && out.Outcome?
    ensures Request(store, st, cl, env).lost <==>
            env.fails(WriteStatus) || !Accepts(store, Settle(out.st, out.move, env.stamp))
  {
  }

  lemma TwiceIsRejected(store: Store, st: Status, stamp: Time)
    requires At(st, Kind.ForceDeleteRookCephOSDPods)
    ensures Accepts(store, Advance(st, Kind.ForceDeleteRookCephOSDPods, stamp)) <==> store == Permissive
  {
    var n, cs := |st.conditions|, Advance(st, Kind.ForceDeleteRookCephOSDPods, stamp).conditions;
    assert cs[n - 1].kind == cs[n].kind;
  }

  /** At force deletion, a request that is in time adds an entry iff it re-enters. */
  lemma ReentersExactly(store: Store, w: World, env: Env)
    requires Proceeds(w.st, env) && At(w.st, Kind.ForceDeleteRookCephOSDPods) && !TimedOut(w.st, env.now)
    requires w.st.startTime.Some? && w.st.crashLoopBackOffPods && w.st.nodeDevice != []
    ensures var p, kinds := Request(store, w.st, w.cl, env), Kinds(w.st.conditions);
            var again := !p.lost && Kinds(p.st.conditions) == kinds + [Kind.ForceDeleteRookCephOSDPods];
            && (again <==> Reenters(store, w, env))
            && (!again ==> Entries(Kinds(p.st.conditions)) == Entries(kinds))
  {
    var out, tail := RequestStep(store, w.st, w.cl, env);
    ForceDeleteMove(Latest(w.st), w.st, w.cl, env);
    var p := Request(store, w.st, w.cl, env);
    if out.Outcome? {
      LostIff(store, w.st, w.cl, env, out);
      TwiceIsRejected(store, w.st, env.stamp);
      MoveEnters(w.st, out.move, env.stamp);
    }
  }

  lemma MoveEnters(st: Status, move: Move, stamp: Time)
    requires st.conditions != []
    ensures var before, after := Kinds(st.conditions), Kinds(Settle(st, move, stamp).conditions);
            && (after == before + [Kind.ForceDeleteRookCephOSDPods] <==> move == To(Kind.ForceDeleteRookCephOSDPods))
            && (move != To(Kind.ForceDeleteRookCephOSDPods) ==> Entries(after) == Entries(before))
  {
    var before := Kinds(st.conditions);
    if move.To? {
      AdvanceAppends(st, move.next, stamp);
      EntriesAppend(before, move.next);
      assert (before + [move.next])[|before|] == move.next;
    } else {
      assert |before + [Kind.ForceDeleteRookCephOSDPods]| != |before|;
    }
  }

  /** Elsewhere an entry is the first. */
  lemma EntersFirst(store: Store, w: World, env: Env, p: Pass, out: Outcome, tail: seq<Event>)
    requires PassStep(store, w.st, w.cl, env, p, out, tail) && Proceeds(w.st, env) && Behind(Started(w.st, env.now))
    requires Regular(w.st) && (!At(w.st, Kind.ForceDeleteRookCephOSDPods) || TimedOut(w.st, env.now))
    ensures var before, after := Kinds(Started(w.st, env.now).conditions), Kinds(p.st.conditions);
            || p.st == w.st
            || after == before
            || (after == before + [Kind.ForceDeleteRookCephOSDPods] && !Visited(w.st, Kind.ForceDeleteRookCephOSDPods))
            || (after != [] && after == before + [after[|after| - 1]] && after[|after| - 1] != Kind.ForceDeleteRookCephOSDPods)
  {
    var s0 := Started(w.st, env.now);
    if !p.lost {
      PassMoves(store, w.st, w.cl, env, p, out, tail);
      if out.move.To? {
        AdvanceAppends(out.st, out.move.next, env.stamp);
        EdgesRise(Latest(s0).kind, out.move.next);
      }
    }
  }

  ghost function Reentries(cfg: Config, w: World, run: seq<Action>): nat {
    if run == [] then 0
    else
      var prefix, a := run[..|run| - 1], run[|run| - 1];
      Reentries(cfg, w, prefix) + if a.Reconcile? && Reenters(cfg.store, Exec(cfg, w, prefix), a.env) then 1 else 0
  }

  lemma EntriesAfter(cfg: Config, w: World, env: Env)
    requires HistoryInv(w.st, cfg.slack, w.clock) && w.clock <= env.now && StatusInv(w.st)
    requires Visited(w.st, Kind.ForceDeleteRookCephOSDPods) <==> Entries(Kinds(w.st.conditions)) > 0
    ensures var p, k := Request(cfg.store, w.st, w.cl, env), Kind.ForceDeleteRookCephOSDPods;
            var n := Entries(Kinds(p.st.conditions));
            if Visited(w.st, k) then n == Entries(Kinds(w.st.conditions)) + (if Reenters(cfg.store, w, env) then 1 else 0)
            else !Reenters(cfg.store, w, env) && n == if Visited(p.st, k) then 1 else 0
  {
    var p, k := Request(cfg.store, w.st, w.cl, env), Kind.ForceDeleteRookCephOSDPods;
    assert At(w.st, k) ==> Visited(w.st, k);
    if Proceeds(w.st, env) {
      StartedHistory(w.st, cfg.slack, w.clock, env.now);
      if At(w.st, k) && !TimedOut(w.st, env.now) {
        ReentersExactly(cfg.store, w, env);
        EntriesAppend(Kinds(w.st.conditions), k);
      } else {
        var s0 := Started(w.st, env.now);
        PathIsBehind(s0, cfg.slack, env.now);
        var out, tail := RequestStep(cfg.store, w.st, w.cl, env);
        EntersFirst(cfg.store, w, env, p, out, tail);
        AppendedEntries(Kinds(w.st.conditions), Kinds(s0.conditions), Kinds(p.st.conditions));
      }
    }
  }

  /** A history before a request, when the request has started it, and after. */
  lemma AppendedEntries(old_: seq<Kind>, before: seq<Kind>, after: seq<Kind>)
    requires before == old_ || (old_ == [] && before == [EnableCephToolsPod])
    requires Kind.ForceDeleteRookCephOSDPods in old_ <==> Entries(old_) > 0
    requires || after == old_
             || after == before
             || (after == before + [Kind.ForceDeleteRookCephOSDPods] && Kind.ForceDeleteRookCephOSDPods !in old_)
             || (after != [] && after == before + [after[|after| - 1]] && after[|after| - 1] != Kind.ForceDeleteRookCephOSDPods)
    ensures if Kind.ForceDeleteRookCephOSDPods in old_ then Entries(after) == Entries(old_)
            else Entries(after) == if Kind.ForceDeleteRookCephOSDPods in after then 1 else 0
  {
    StartedEntries(old_, before);
    if after != old_ && after != before {
      OneMoreKind(before, after[|after| - 1]);
    }
  }

  lemma StartedEntries(old_: seq<Kind>, before: seq<Kind>)
    requires before == old_ || (old_ == [] && before == [EnableCephToolsPod])
    ensures Entries(before) == Entries(old_)
    ensures Kind.ForceDeleteRookCephOSDPods in before <==> Kind.ForceDeleteRookCephOSDPods in old_
  {
    if before != old_ {
      OneMoreKind([], EnableCephToolsPod);
      assert [] + [EnableCephToolsPod] == before;
    }
  }

  lemma OneMoreKind(ks: seq<Kind>, k: Kind)
    ensures Entries(ks + [k]) == Entries(ks) + (if k == Kind.ForceDeleteRookCephOSDPods then 1 else 0)
    ensures Kind.ForceDeleteRookCephOSDPods in ks + [k] <==> Kind.ForceDeleteRookCephOSDPods in ks || k == Kind.ForceDeleteRookCephOSDPods
  {
    EntriesAppend(ks, k);
  }

  /** In every run, under either store and with anything failing, force deletion was entered once
      plus once for every request that met the exact condition for re-entering it. */
  lemma {:induction false} EntriesAreCounted(cfg: Config, w: World, run: seq<Action>)
    requires Init(w) && LegalRun(cfg, w, run)
    ensures var st := Exec(cfg, w, run).st;
            && (Visited(st, Kind.ForceDeleteRookCephOSDPods) <==> Entries(Kinds(st.conditions)) > 0)
            && (Visited(st, Kind.ForceDeleteRookCephOSDPods) ==> Entries(Kinds(st.conditions)) == 1 + Reentries(cfg, w, run))
            && (!Visited(st, Kind.ForceDeleteRookCephOSDPods) ==> Reentries(cfg, w, run) == 0)
  {
    if run == [] {
      assert Kinds(BLANK.conditions) == [];
    } else {
      var prefix, a := run[..|run| - 1], run[|run| - 1];
      EntriesAreCounted(cfg, w, prefix);
      HistoryIsAPath(cfg, w, prefix);
      HistoryIsAPath(cfg, w, run);
      PastHolds(cfg, w, prefix);
      if a.Reconcile? {
        EntriesAfter(cfg, Exec(cfg, w, prefix), a.env);
        VisitedIffEntered(Exec(cfg, w, run).st, cfg.slack, Exec(cfg, w, run).clock);
      }
    }
  }

  lemma VisitedIffEntered(st: Status, slack: nat, clock: Time)
    requires HistoryInv(st, slack, clock)
    ensures Visited(st, Kind.ForceDeleteRookCephOSDPods) <==> Entries(Kinds(st.conditions)) > 0
  {
    if st != BLANK {
      PathLength(Kinds(st.conditions));
    }
  }

  /** A request that comes more than n timeouts after the start. */
  ghost predicate Overdue(cfg: Config, end: World, env: Env, n: nat) {
    end.st.startTime.Some? && env.now > end.st.startTime.value + n * Bound(cfg.slack)
  }

  /** How many timeouts the conditions of this status can take. */
  ghost function Timeouts(st: Status): nat {
    var n := Entries(Kinds(st.conditions));
    if n <= 1 then 14 else 13 + n
  }

  /** The conditions of this status take at most n timeouts, and the store takes it. */
  ghost predicate Takes(cfg: Config, end: World, n: nat) {
    HistoryInv(end.st, cfg.slack, end.clock) && Accepts(cfg.store, end.st) && n == Timeouts(end.st)
  }

  lemma EndsLate(cfg: Config, end: World, env: Env, n: nat)
    requires Takes(cfg, end, n) && env.fetch == Found && !env.fails(WriteStatus) && Overdue(cfg, end, env, n)
    ensures Terminal(Next(cfg, end, Reconcile(env)).st)
  {
    PathLength(Kinds(end.st.conditions));
    LateRequestEnds(cfg, end, env, n);
  }

  /** Every timeout beyond the fourteen is one of the requests that met the condition for re-entry. */
  lemma TimeoutsAreCounted(cfg: Config, w: World, run: seq<Action>) returns (n: nat)
    requires Init(w) && LegalRun(cfg, w, run)
    ensures n == 14 + Reentries(cfg, w, run) && Takes(cfg, Exec(cfg, w, run), n)
  {
    HistoryIsAPath(cfg, w, run);
    EntriesAreCounted(cfg, w, run);
    if cfg.store == UniqueTypes {
      KeysStayUnique(cfg, w, run);
    }
    n := Timeouts(Exec(cfg, w, run).st);
  }

  /** With no hypothesis at all: a request that comes later than fourteen timeouts, and one more for
      every re-entry, after the start leaves the recovery ended, unless its status write fails. */
  lemma RunsEndAfterTheirReentries(cfg: Config, w: World, run: seq<Action>, env: Env)
    requires Init(w) && LegalRun(cfg, w, run)
    requires env.fetch == Found && !env.fails(WriteStatus)
    requires Overdue(cfg, Exec(cfg, w, run), env, 14 + Reentries(cfg, w, run))
    ensures Terminal(Next(cfg, Exec(cfg, w, run), Reconcile(env)).st)
  {
    var n := TimeoutsAreCounted(cfg, w, run);
    EndsLate(cfg, Exec(cfg, w, run), env, n);
  }
}
