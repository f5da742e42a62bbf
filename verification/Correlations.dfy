/** What the persisted status says about the past of the run, whatever calls fail and whichever
    status writes are lost. No hypothesis on the environment is used here. */
module Correlations {
  import opened Types
  import opened Effects
  import opened Workflow
  import opened Contract
  import opened Branches
  import opened Runs
  import opened History

  /******* Moving *******/

  /** The visited types and the position after a move. */
  ghost predicate Placed(s0: Status, p: Status, move: Move) {
    && (forall k :: Visited(p, k) <==> Visited(s0, k) || (move.To? && move.next == k))
    && Position(p) == (if move.To? then Rank(move.next) else Position(s0))
    && p.conditions != []
  }

  ghost predicate SameFacts(s: Status, p: Status) {
    && p.pendingPods == s.pendingPods && p.crashLoopBackOffPods == s.crashLoopBackOffPods
    && p.nodeDevice == s.nodeDevice && p.forcedOSDRemoval == s.forcedOSDRemoval
    && p.keepCephToolsPod == s.keepCephToolsPod && p.operationalOSDIDs == s.operationalOSDIDs
  }

  lemma Placing(s0: Status, s: Status, move: Move, p: Status, env: Env)
    requires MovedBy(s0, s, move, p, env)
    ensures Placed(s0, p, move) && SameFacts(s, p)
  {
    if move.To? {
      AdvanceAppends(s, move.next, env.stamp);
    }
  }

  /** Every visited type is a declared one, at or before the current position. */
  ghost predicate Behind(st: Status) {
    && st.conditions != []
    && forall k :: Visited(st, k) ==> Rank(k) <= Position(st) && !k.Unknown?
  }

  lemma PathIsBehind(st: Status, slack: nat, clock: Time)
    requires HistoryInv(st, slack, clock) && st != BLANK
    ensures Behind(st)
  {
    forall k | Visited(st, k) ensures Rank(k) <= Position(st) && !k.Unknown? {
      LastOnPath(Kinds(st.conditions), k);
    }
  }

  /******* Status fields *******/

  /** Force deletion is only entered with failing pods recorded, and left through the volume wait. */
  ghost predicate StatusInv(st: Status) {
    && (if Visited(st, Kind.ForceDeleteRookCephOSDPods) then st.crashLoopBackOffPods && st.nodeDevice != [] else st.nodeDevice == [])
    && (5 <= Position(st) <= 9 ==> Visited(st, Kind.ForceDeleteRookCephOSDPods))
    && (10 <= Position(st) && Visited(st, Kind.ForceDeleteRookCephOSDPods) ==> Visited(st, WaitForPersistenVolumeBound))
    && (Visited(st, RetryForceCleanupOSDRemovalJob) ==> st.forcedOSDRemoval)
  }

  lemma StatusInvMoves(s0: Status, s: Status, move: Move, p: Status, cl: Cluster)
    requires Behind(s0) && StatusInv(s0)
    requires MoveStep(Latest(s0).kind, s0, move) && StatusStep(Latest(s0).kind, s0, s, move, cl)
    requires Placed(s0, p, move) && SameFacts(s, p)
    ensures StatusInv(p)
  {
    assert Visited(s0, Latest(s0).kind);
  }

  /******* Journal *******/

  /** What the events of the run say, given the status. */
  ghost predicate EventInv(e: Event, st: Status) {
    match e
    case PVDeleteSent(pv, entry) =>
      && Visited(st, Kind.ForceDeleteRookCephOSDPods) && entry in st.nodeDevice
      && IsReleased(pv, entry) && Hostname in pv.labels && pv.labels[Hostname] == entry.node
    case JobCreated(job, _, _) =>
      && Visited(st, Kind.ForceDeleteRookCephOSDPods) && Position(st) >= 6
      && job.ids == OSDIDs(st.nodeDevice)
    case OperatorDeleted => Position(st) >= 10 && (st.pendingPods || st.crashLoopBackOffPods)
    case ForceDeleted(ids) => Visited(st, Kind.ForceDeleteRookCephOSDPods) && ids == OSDIDs(st.nodeDevice) && ids != []
    case _ => true
  }

  /** What the visited conditions say happened. */
  ghost predicate Happened(st: Status, journal: seq<Event>) {
    && (Visited(st, WaitForPersistenVolumeBound) ==> SawRemoval(journal))
    && (Visited(st, DisableCephTools) ==> HealthRead(HEALTH_OK) in journal)
    && (Position(st) >= 11 && (st.pendingPods || st.crashLoopBackOffPods) ==> OperatorDeleted in journal)
  }

  ghost predicate JournalInv(st: Status, journal: seq<Event>) {
    && (forall e :: e in journal ==> EventInv(e, st))
    && Happened(st, journal)
  }

  lemma EventInvMoves(e: Event, s0: Status, s: Status, move: Move, p: Status, cl: Cluster)
    requires Behind(s0) && StatusInv(s0)
    requires MoveStep(Latest(s0).kind, s0, move) && StatusStep(Latest(s0).kind, s0, s, move, cl)
    requires Placed(s0, p, move) && SameFacts(s, p)
    requires EventInv(e, s0)
    ensures EventInv(e, p)
  {
    assert Visited(s0, Latest(s0).kind);
    if move.To? {
      EdgesRise(Latest(s0).kind, move.next);
    }
  }

  lemma EventInvNew(e: Event, s0: Status, cl: Cluster)
    requires Behind(s0) && StatusInv(s0) && EventAllowed(e, Latest(s0).kind, s0, cl)
    ensures EventInv(e, s0)
  {
    assert OSDIDs(s0.nodeDevice) == [] ==> s0.nodeDevice == [];
  }

  /** Events of a pass whose status was lost. */
  lemma JournalInvLost(s0: Status, cl: Cluster, tail: seq<Event>)
    requires Behind(s0) && StatusInv(s0) && JournalInv(s0, cl.journal)
    requires forall e :: e in tail ==> EventAllowed(e, Latest(s0).kind, s0, cl)
    ensures JournalInv(s0, cl.journal + tail)
  {
    forall e | e in tail ensures EventInv(e, s0) {
      EventInvNew(e, s0, cl);
    }
    SawMore(cl.journal, tail);
  }

  lemma SawMore(a: seq<Event>, b: seq<Event>)
    ensures SawRemoval(a) || SawRemoval(b) ==> SawRemoval(a + b)
  {
    if e :| e in a && Accepted(e) {
      assert e in a + b;
    } else if e :| e in b && Accepted(e) {
      assert e in a + b;
    }
  }

  /** What moving to three of the conditions takes. */
  lemma EarnedReasons(k: Kind, st: Status, s: Status, cl: Cluster, c: Cluster, tail: seq<Event>, move: Move, env: Env)
    requires MoveStep(k, st, move) && Earned(k, st, s, cl, c, tail, move, env)
    ensures move == To(WaitForPersistenVolumeBound) ==> SawRemoval(tail)
    ensures move == To(DisableCephTools) ==> HealthRead(HEALTH_OK) in tail
    ensures move == To(DeleteFailedPodsNodeAffinity) && (st.pendingPods || st.crashLoopBackOffPods) ==> OperatorDeleted in tail
  {
    match k
    case CleanupOSDRemovalJob =>
    case RetryForceCleanupOSDRemovalJob =>
    case RestartStorageOperator =>
    case StorageClusterFitnessCheck =>
    case _ =>
  }

  lemma FlagsAfterManaging(k: Kind, st: Status, s: Status, cl: Cluster, move: Move)
    requires StatusStep(k, st, s, move, cl) && Rank(k) >= 5
    ensures s.pendingPods == st.pendingPods && s.crashLoopBackOffPods == st.crashLoopBackOffPods
    ensures s.nodeDevice == st.nodeDevice && s.operationalOSDIDs == st.operationalOSDIDs
  {
  }

  lemma HappenedMoves(k: Kind, s0: Status, s: Status, move: Move, p: Status, old_: seq<Event>, tail: seq<Event>)
    requires Behind(s0) && Happened(s0, old_) && k == Latest(s0).kind
    requires move.To? ==> Edge(k, move.next)
    requires move == To(WaitForPersistenVolumeBound) ==> SawRemoval(tail)
    requires move == To(DisableCephTools) ==> HealthRead(HEALTH_OK) in tail
    requires move == To(DeleteFailedPodsNodeAffinity) && (s0.pendingPods || s0.crashLoopBackOffPods) ==> OperatorDeleted in tail
    requires Rank(k) >= 5 ==> s.pendingPods == s0.pendingPods && s.crashLoopBackOffPods == s0.crashLoopBackOffPods
    requires Placed(s0, p, move) && SameFacts(s, p)
    ensures Happened(p, old_ + tail)
  {
    SawMore(old_, tail);
    if move.To? {
      EdgesRise(k, move.next);
    }
  }

  lemma JournalInvMoves(s0: Status, s: Status, move: Move, p: Status, cl: Cluster, c: Cluster, tail: seq<Event>, env: Env)
    requires Behind(s0) && StatusInv(s0) && JournalInv(s0, cl.journal)
    requires JournalInv(s0, cl.journal + tail)
    requires MoveStep(Latest(s0).kind, s0, move) && StatusStep(Latest(s0).kind, s0, s, move, cl)
    requires Earned(Latest(s0).kind, s0, s, cl, c, tail, move, env)
    requires Placed(s0, p, move) && SameFacts(s, p)
    ensures JournalInv(p, cl.journal + tail)
  {
    var k := Latest(s0).kind;
    EarnedReasons(k, s0, s, cl, c, tail, move, env);
    if Rank(k) >= 5 {
      FlagsAfterManaging(k, s0, s, cl, move);
    }
    HappenedMoves(k, s0, s, move, p, cl.journal, tail);
    var all := cl.journal + tail;
    forall e | e in all ensures EventInv(e, p) {
      EventInvMoves(e, s0, s, move, p, cl);
    }
  }

  /** The blank status and the status every first pass starts from satisfy the same facts. */
  lemma BlankOrStarted(now: Time, journal: seq<Event>)
    ensures StatusInv(BLANK) && StatusInv(Started(BLANK, now))
    ensures JournalInv(BLANK, journal) <==> JournalInv(Started(BLANK, now), journal)
  {
    var s := Started(BLANK, now);
    assert Kinds(s.conditions) == [EnableCephToolsPod];
    assert forall e :: EventInv(e, BLANK) <==> EventInv(e, s);
  }

  ghost predicate PastInv(st: Status, journal: seq<Event>) {
    StatusInv(st) && JournalInv(st, journal)
  }

  lemma PastStep(store: Store, slack: nat, st: Status, clock: Time, cl: Cluster, env: Env, p: Pass, out: Outcome, tail: seq<Event>)
    requires HistoryInv(st, slack, clock) && clock <= env.now
    requires PassStep(store, st, cl, env, p, out, tail)
    requires PastInv(st, cl.journal)
    ensures PastInv(p.st, p.cl.journal)
  {
    if Proceeds(st, env) {
      var s0 := Started(st, env.now);
      StartedHistory(st, slack, clock, env.now);
      PathIsBehind(s0, slack, env.now);
      if st == BLANK {
        BlankOrStarted(env.now, cl.journal);
        BlankOrStarted(env.now, cl.journal + tail);
      }
      JournalInvLost(s0, cl, tail);
      if !p.lost {
        PassMoves(store, st, cl, env, p, out, tail);
        Placing(s0, out.st, out.move, p.st, env);
        if !TimedOut(s0, env.now) {
          StatusInvMoves(s0, out.st, out.move, p.st, cl);
          JournalInvMoves(s0, out.st, out.move, p.st, cl, out.cl, tail, env);
        } else {
          assert cl.journal + tail == cl.journal;
          FailedKeepsPast(s0, p.st, cl.journal);
        }
      }
    }
  }

  lemma FailedKeepsPast(s0: Status, p: Status, journal: seq<Event>)
    requires PastInv(s0, journal) && p == s0.(phase := Failed)
    ensures PastInv(p, journal)
  {
    assert forall e :: EventInv(e, s0) ==> EventInv(e, p);
  }

  lemma {:induction false} PastHolds(cfg: Config, w: World, run: seq<Action>)
    requires Init(w) && LegalRun(cfg, w, run)
    ensures var end := Exec(cfg, w, run); PastInv(end.st, end.cl.journal)
  {
    if run == [] {
      BlankOrStarted(0, []);
    } else {
      var prefix, a := run[..|run| - 1], run[|run| - 1];
      PastHolds(cfg, w, prefix);
      HistoryIsAPath(cfg, w, prefix);
      if a.Reconcile? {
        PastRequest(cfg, Exec(cfg, w, prefix), a.env);
      }
    }
  }

  lemma PastRequest(cfg: Config, w: World, env: Env)
    requires HistoryInv(w.st, cfg.slack, w.clock) && w.clock <= env.now && PastInv(w.st, w.cl.journal)
    ensures var p := Request(cfg.store, w.st, w.cl, env); PastInv(p.st, p.cl.journal)
  {
    StartedHistory(w.st, cfg.slack, w.clock, env.now);
    var p := Request(cfg.store, w.st, w.cl, env);
    var out, tail := RequestStep(cfg.store, w.st, w.cl, env);
    PastStep(cfg.store, cfg.slack, w.st, w.clock, w.cl, env, p, out, tail);
  }
}
