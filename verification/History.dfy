/** The condition list of a resource as a timed path of the workflow graph, over every run. */
module History {
  import opened Types
  import opened Workflow
  import opened Contract
  import opened Branches
  import opened Runs

  function Kinds(cs: seq<Condition>): (ks: seq<Kind>)
    ensures |ks| == |cs| && forall i :: 0 <= i < |cs| ==> ks[i] == cs[i].kind
  {
    seq(|cs|, i requires 0 <= i < |cs| => cs[i].kind)
  }

  function Times(cs: seq<Condition>): (ts: seq<Time>)
    ensures |ts| == |cs| && forall i :: 0 <= i < |cs| ==> ts[i] == cs[i].lastTransition
  {
    seq(|cs|, i requires 0 <= i < |cs| => cs[i].lastTransition)
  }

  ghost predicate Visited(st: Status, k: Kind) {
    k in Kinds(st.conditions)
  }

  function Position(st: Status): nat {
    if st.conditions == [] then 0 else Rank(Latest(st).kind)
  }

  /******* Paths of the graph *******/

  ghost predicate IsPath(ks: seq<Kind>) {
    && ks != []
    && if |ks| == 1 then ks[0] == EnableCephToolsPod
       else IsPath(ks[..|ks| - 1]) && Edge(ks[|ks| - 2], ks[|ks| - 1])
  }

  ghost function Entries(ks: seq<Kind>): nat {
    if ks == [] then 0
    else Entries(ks[..|ks| - 1]) + if ks[|ks| - 1] == Kind.ForceDeleteRookCephOSDPods then 1 else 0
  }

  lemma EdgesRise(a: Kind, b: Kind)
    requires Edge(a, b)
    ensures Rank(a) < Rank(b) || a == b == Kind.ForceDeleteRookCephOSDPods
    ensures !b.Unknown?
  {
  }

  lemma RankInjective(a: Kind, b: Kind)
    requires Rank(a) == Rank(b) && !a.Unknown?
    ensures a == b
  {
  }

  /** Ranks never fall along a path, and stay only at ForceDeleteRookCephOSDPods. */
  lemma {:induction false} PathRises(ks: seq<Kind>, i: nat, j: nat)
    requires IsPath(ks) && i < j < |ks|
    ensures Rank(ks[i]) < Rank(ks[j]) || ks[i] == ks[j] == Kind.ForceDeleteRookCephOSDPods
    ensures !ks[j].Unknown? && !ks[i].Unknown?
    decreases |ks|
  {
    var n := |ks| - 1;
    if j < n {
      PathRises(ks[..n], i, j);
    } else {
      EdgesRise(ks[n - 1], ks[n]);
      if i < n - 1 {
        PathRises(ks[..n], i, n - 1);
      } else if n - 1 > 0 {
        EdgesRise(ks[..n][n - 2], ks[..n][n - 1]);
      }
    }
  }

  lemma LastOnPath(ks: seq<Kind>, k: Kind)
    requires IsPath(ks) && k in ks
    ensures Rank(k) <= Rank(ks[|ks| - 1]) && !k.Unknown?
  {
    var i :| 0 <= i < |ks| && ks[i] == k;
    if i < |ks| - 1 {
      PathRises(ks, i, |ks| - 1);
    } else if i > 0 {
      PathRises(ks, 0, i);
    }
  }

  /** A path visits at most fourteen conditions plus its re-entries of force deletion. */
  lemma {:induction false} PathLength(ks: seq<Kind>)
    requires IsPath(ks)
    ensures |ks| <= Rank(ks[|ks| - 1]) + 1 + (if Entries(ks) > 0 then Entries(ks) - 1 else 0)
    ensures Entries(ks) > 0 <==> Kind.ForceDeleteRookCephOSDPods in ks
    ensures Rank(ks[|ks| - 1]) <= 13
  {
    var n := |ks| - 1;
    if n > 0 {
      PathLength(ks[..n]);
      EdgesRise(ks[n - 1], ks[n]);
      assert ks == ks[..n] + [ks[n]];
      if ks[n] == Kind.ForceDeleteRookCephOSDPods && Entries(ks[..n]) > 0 {
        LastOnPath(ks[..n], Kind.ForceDeleteRookCephOSDPods);
      }
    } else {
      assert ks[..0] == [];
    }
  }

  ghost predicate Distinct(ks: seq<Kind>) {
    forall i, j :: 0 <= i < j < |ks| ==> ks[i] != ks[j]
  }

  /** The types of a history are pairwise distinct iff force deletion was never re-entered. */
  lemma {:induction false} DistinctIffEnteredOnce(ks: seq<Kind>)
    requires IsPath(ks)
    ensures Distinct(ks) <==> Entries(ks) <= 1
  {
    var n := |ks| - 1;
    var init := ks[..n];
    if n > 0 {
      DistinctIffEnteredOnce(init);
      PathLength(init);
      if Distinct(ks) {
        assert Distinct(init);
        assert forall i :: 0 <= i < n ==> init[i] == ks[i] != ks[n];
      }
      if Entries(ks) <= 1 {
        forall i, j | 0 <= i < j < |ks| ensures ks[i] != ks[j] {
          if j < n {
            assert init[i] != init[j];
          } else {
            PathRises(ks, i, n);
            if ks[n] == Kind.ForceDeleteRookCephOSDPods {
              assert init[i] in init;
            }
          }
        }
      }
    } else {
      assert ks[..0] == [];
    }
  }

  /******* Pacing *******/

  /** Transition times never fall and follow each other within the bound. */
  ghost predicate Paced(ts: seq<Time>, bound: int) {
    |ts| >= 2 ==>
      && Paced(ts[..|ts| - 1], bound)
      && ts[|ts| - 2] <= ts[|ts| - 1] <= ts[|ts| - 2] + bound
  }

  lemma {:induction false} PacedSum(ts: seq<Time>, bound: nat)
    requires ts != [] && Paced(ts, bound)
    ensures ts[0] <= ts[|ts| - 1] <= ts[0] + (|ts| - 1) * bound
  {
    var n := |ts| - 1;
    if n > 0 {
      PacedSum(ts[..n], bound);
      assert n * bound == (n - 1) * bound + bound;
    }
  }

  /******* The invariant *******/

  ghost predicate OnlyLastActive(cs: seq<Condition>) {
    forall i :: 0 <= i < |cs| ==> (cs[i].active <==> i == |cs| - 1)
  }

  function Bound(slack: nat): nat {
    RECONCILIATION_TIMEOUT + slack
  }

  /** A resource is untouched, or its history is a timed path. */
  ghost predicate HistoryInv(st: Status, slack: nat, clock: Time) {
    st == BLANK ||
    (var ks, ts := Kinds(st.conditions), Times(st.conditions);
      && st.phase != Unset && st.startTime.Some?
      && IsPath(ks) && Paced(ts, Bound(slack)) && OnlyLastActive(st.conditions)
      && ts[0] == st.startTime.value
      && ts[|ts| - 1] <= clock
      && (st.completionTime.Some? <==> st.phase == Completed)
      && (st.phase == Completed ==>
           && ks[|ks| - 1] == DisableCephTools
           && ts[|ts| - 1] <= st.completionTime.value <= ts[|ts| - 1] + Bound(slack)))
  }

  lemma StatusFrame(k: Kind, st: Status, s: Status, move: Move, cl: Cluster)
    requires StatusStep(k, st, s, move, cl)
    ensures s.conditions == st.conditions && s.phase == st.phase
    ensures s.startTime == st.startTime && s.completionTime == st.completionTime
  {
  }

  lemma StartedHistory(st: Status, slack: nat, clock: Time, now: Time)
    requires HistoryInv(st, slack, clock) && clock <= now
    ensures HistoryInv(Started(st, now), slack, now) && Started(st, now) != BLANK && Started(st, now).conditions != []
  {
  }

  lemma AdvanceAppends(st: Status, next: Kind, stamp: Time)
    requires st.conditions != []
    ensures Kinds(Advance(st, next, stamp).conditions) == Kinds(st.conditions) + [next]
    ensures Times(Advance(st, next, stamp).conditions) == Times(st.conditions) + [stamp]
    ensures OnlyLastActive(st.conditions) ==> OnlyLastActive(Advance(st, next, stamp).conditions)
  {
  }

  lemma {:induction false} AdvancedHistory(st: Status, next: Kind, slack: nat, now: Time, stamp: Time)
    requires HistoryInv(st, slack, now) && st != BLANK && !Terminal(st)
    requires !TimedOut(st, now) && Edge(Latest(st).kind, next) && now <= stamp <= now + slack
    ensures HistoryInv(Advance(st, next, stamp), slack, stamp)
  {
    AdvanceAppends(st, next, stamp);
    var s := Advance(st, next, stamp);
    var ks, ts := Kinds(st.conditions), Times(st.conditions);
    assert (ks + [next])[..|ks|] == ks;
    assert (ts + [stamp])[..|ts|] == ts;
  }

  /** What a persisted request does to the position: the fields outside it are framed, the move is
      an edge, a finish comes from the end, and a timed-out condition only fails. */
  ghost predicate MovedBy(s0: Status, s: Status, move: Move, p: Status, env: Env) {
    && s0.conditions != []
    && s.conditions == s0.conditions && s.phase == s0.phase
    && s.startTime == s0.startTime && s.completionTime == s0.completionTime
    && p == Settle(s, move, env.stamp)
    && (move.To? ==> Edge(Latest(s0).kind, move.next))
    && (move == Finish ==> Latest(s0).kind == DisableCephTools || Latest(s0).kind.Unknown?)
    && (if TimedOut(s0, env.now) then s == s0 && move == GiveUp else true)
  }

  lemma PassMoves(store: Store, st: Status, cl: Cluster, env: Env, p: Pass, out: Outcome, tail: seq<Event>)
    requires PassStep(store, st, cl, env, p, out, tail) && Proceeds(st, env) && !p.lost
    ensures out.Outcome? && MovedBy(Started(st, env.now), out.st, out.move, p.st, env)
  {
    var s0 := Started(st, env.now);
    if !TimedOut(s0, env.now) {
      StatusFrame(Latest(s0).kind, s0, out.st, out.move, cl);
    }
  }

  lemma MovedHistory(s0: Status, s: Status, move: Move, p: Status, env: Env, slack: nat)
    requires MovedBy(s0, s, move, p, env) && !Terminal(s0)
    requires HistoryInv(s0, slack, env.now) && s0 != BLANK && env.now <= env.stamp <= env.now + slack
    requires s != BLANK
    ensures HistoryInv(p, slack, env.stamp)
  {
    match move {
      case To(next) => AdvancedHistory(s, next, slack, env.now, env.stamp);
      case Finish => LastOnPath(Kinds(s0.conditions), Latest(s0).kind);
      case _ =>
    }
  }

  /** One request keeps the invariant, whatever fails and whether or not its status is lost. */
  lemma HistoryStep(store: Store, slack: nat, st: Status, clock: Time, cl: Cluster, env: Env, p: Pass, out: Outcome, tail: seq<Event>)
    requires HistoryInv(st, slack, clock) && clock <= env.now <= env.stamp <= env.now + slack
    requires PassStep(store, st, cl, env, p, out, tail)
    ensures HistoryInv(p.st, slack, env.stamp)
  {
    if Proceeds(st, env) && !p.lost {
      StartedHistory(st, slack, clock, env.now);
      PassMoves(store, st, cl, env, p, out, tail);
      MovedHistory(Started(st, env.now), out.st, out.move, p.st, env, slack);
    }
  }

  /** In every run, with any failures and any lost writes, the history is a timed path. */
  lemma {:induction false} HistoryIsAPath(cfg: Config, w: World, run: seq<Action>)
    requires Init(w) && LegalRun(cfg, w, run)
    ensures var end := Exec(cfg, w, run); HistoryInv(end.st, cfg.slack, end.clock)
  {
    if run != [] {
      var prefix, a := run[..|run| - 1], run[|run| - 1];
      var mid := Exec(cfg, w, prefix);
      HistoryIsAPath(cfg, w, prefix);
      if a.Reconcile? {
        StartedHistory(mid.st, cfg.slack, mid.clock, a.env.now);
        var out, tail := RequestStep(cfg.store, mid.st, mid.cl, a.env);
        HistoryStep(cfg.store, cfg.slack, mid.st, mid.clock, mid.cl, a.env, Request(cfg.store, mid.st, mid.cl, a.env), out, tail);
      }
    }
  }

  /** Condition by condition: starts at EnableCephToolsPod, edges of the switch, rising ranks except
      for repeated force deletion, and only the last condition True. */
  lemma HistoryConditionByCondition(cfg: Config, w: World, run: seq<Action>, i: nat, j: nat)
    requires Init(w) && LegalRun(cfg, w, run)
    requires i < j < |Exec(cfg, w, run).st.conditions|
    ensures var cs := Exec(cfg, w, run).st.conditions;
            && cs[0].kind == EnableCephToolsPod
            && (j == i + 1 ==> Edge(cs[i].kind, cs[j].kind))
            && (Rank(cs[i].kind) < Rank(cs[j].kind) || cs[i].kind == cs[j].kind == Kind.ForceDeleteRookCephOSDPods)
            && !cs[i].active && (cs[j].active <==> j == |cs| - 1)
            && cs[i].lastTransition <= cs[j].lastTransition
            && (j == i + 1 ==> cs[j].lastTransition <= cs[i].lastTransition + Bound(cfg.slack))
    ensures var cs := Exec(cfg, w, run).st.conditions; DistinctKinds(cs) <==> Entries(Kinds(cs)) <= 1
  {
    HistoryIsAPath(cfg, w, run);
    var cs := Exec(cfg, w, run).st.conditions;
    PathRises(Kinds(cs), i, j);
    PathEdge(Kinds(cs), j);
    PathStart(Kinds(cs));
    PacedBetween(Times(cs), Bound(cfg.slack), i, j);
    DistinctIffEnteredOnce(Kinds(cs));
    assert DistinctKinds(cs) <==> Distinct(Kinds(cs));
  }

  lemma {:induction false} PathStart(ks: seq<Kind>)
    requires IsPath(ks)
    ensures ks[0] == EnableCephToolsPod
  {
    if |ks| > 1 {
      PathStart(ks[..|ks| - 1]);
    }
  }

  lemma {:induction false} PathEdge(ks: seq<Kind>, j: nat)
    requires IsPath(ks) && 0 < j < |ks|
    ensures Edge(ks[j - 1], ks[j])
  {
    if j < |ks| - 1 {
      PathEdge(ks[..|ks| - 1], j);
    }
  }

  lemma {:induction false} PacedBetween(ts: seq<Time>, bound: nat, i: nat, j: nat)
    requires Paced(ts, bound) && i < j < |ts|
    ensures ts[i] <= ts[j] && (j == i + 1 ==> ts[j] <= ts[i] + bound)
    decreases |ts|
  {
    var n := |ts| - 1;
    if j < n {
      PacedBetween(ts[..n], bound, i, j);
    } else if i < n - 1 {
      PacedBetween(ts[..n], bound, i, n - 1);
    }
  }

  /******* Time bounds and termination *******/

  lemma TimesN(n: int, m: int, b: nat)
    requires n <= m
    ensures n * b <= m * b && n * b == (n - 1) * b + b
  {
  }

  lemma CompletedInTime(st: Status, slack: nat, clock: Time)
    requires HistoryInv(st, slack, clock) && st.phase == Completed
    ensures st.startTime.Some? && st.completionTime.Some?
    ensures st.startTime.value <= st.completionTime.value <= st.startTime.value + |st.conditions| * Bound(slack)
    ensures Entries(Kinds(st.conditions)) <= 1 ==> |st.conditions| <= 14
  {
    PacedSum(Times(st.conditions), Bound(slack));
    PathLength(Kinds(st.conditions));
    TimesN(|st.conditions|, |st.conditions|, Bound(slack));
  }

  /** A completed recovery took at most thirty minutes (and the slack) per condition of its
      history, so at most fourteen times that when force deletion was not re-entered. */
  lemma CompletionTimeBound(cfg: Config, w: World, run: seq<Action>)
    requires Init(w) && LegalRun(cfg, w, run)
    requires Exec(cfg, w, run).st.phase == Completed
    ensures var st := Exec(cfg, w, run).st;
            && st.startTime.Some? && st.completionTime.Some?
            && st.startTime.value <= st.completionTime.value <= st.startTime.value + |st.conditions| * Bound(cfg.slack)
            && (Entries(Kinds(st.conditions)) <= 1 ==>
                 st.completionTime.value <= st.startTime.value + 14 * Bound(cfg.slack))
  {
    HistoryIsAPath(cfg, w, run);
    var end := Exec(cfg, w, run);
    CompletedInTime(end.st, cfg.slack, end.clock);
    if |end.st.conditions| <= 14 {
      TimesN(|end.st.conditions|, 14, Bound(cfg.slack));
    }
  }

  /** One request against the termination measure (position, start of the timer). */
  ghost predicate Measured(store: Store, s0: Status, p: Status) {
    || Terminal(p)
    || Position(p) > Position(s0)
    || (Kinds(p.conditions) == Kinds(s0.conditions) && Times(p.conditions) == Times(s0.conditions))
    || (&& store == Permissive && At(s0, Kind.ForceDeleteRookCephOSDPods)
        && Kinds(p.conditions) == Kinds(s0.conditions) + [Kind.ForceDeleteRookCephOSDPods])
  }

  lemma MovedMeasured(store: Store, s0: Status, s: Status, move: Move, p: Status, env: Env)
    requires MovedBy(s0, s, move, p, env) && Accepts(store, p)
    ensures Measured(store, s0, p)
  {
    if move.To? {
      AdvanceAppends(s, move.next, env.stamp);
      EdgesRise(Latest(s0).kind, move.next);
      var n := |s0.conditions|;
      assert p.conditions[n - 1].kind == Latest(s0).kind && p.conditions[n].kind == move.next;
    }
  }

  /** The termination measure: a request that is not lost ends the recovery, moves it up the graph,
      or leaves its position and the start of its timer alone; only a permissive store lets force
      deletion restart the timer. */
  lemma MeasureStep(cfg: Config, w: World, run: seq<Action>, env: Env)
    requires Init(w) && LegalRun(cfg, w, run)
    requires Legal(cfg, Exec(cfg, w, run), Reconcile(env)) && Proceeds(Exec(cfg, w, run).st, env)
    ensures var end := Exec(cfg, w, run);
            var p := Request(cfg.store, end.st, end.cl, env);
            if p.lost then p.st == end.st else Measured(cfg.store, Started(end.st, env.now), p.st)
  {
    HistoryIsAPath(cfg, w, run);
    RequestMeasured(cfg, Exec(cfg, w, run), env);
  }

  lemma RequestMeasured(cfg: Config, end: World, env: Env)
    requires HistoryInv(end.st, cfg.slack, end.clock) && end.clock <= env.now && Proceeds(end.st, env)
    ensures var p := Request(cfg.store, end.st, end.cl, env);
            if p.lost then p.st == end.st else Measured(cfg.store, Started(end.st, env.now), p.st)
  {
    StartedHistory(end.st, cfg.slack, end.clock, env.now);
    var p := Request(cfg.store, end.st, end.cl, env);
    var out, tail := RequestStep(cfg.store, end.st, end.cl, env);
    PassMeasured(cfg.store, end.st, end.cl, env, p, out, tail);
  }

  lemma PassMeasured(store: Store, st: Status, cl: Cluster, env: Env, p: Pass, out: Outcome, tail: seq<Event>)
    requires PassStep(store, st, cl, env, p, out, tail) && Proceeds(st, env)
    ensures if p.lost then p.st == st else Measured(store, Started(st, env.now), p.st)
  {
    if !p.lost {
      PassMoves(store, st, cl, env, p, out, tail);
      MovedMeasured(store, Started(st, env.now), out.st, out.move, p.st, env);
    }
  }

  /** Under a store that enforces the declared map key, a request that starts later than fourteen
      timeouts after the start leaves the recovery ended, unless its status write fails. */
  lemma UniqueStoreTerminates(cfg: Config, w: World, run: seq<Action>, env: Env)
    requires Init(w) && LegalRun(cfg, w, run) && cfg.store == UniqueTypes
    requires var end := Exec(cfg, w, run);
             && Legal(cfg, end, Reconcile(env)) && env.fetch == Found && !env.fails(WriteStatus)
             && end.st.startTime.Some? && env.now > end.st.startTime.value + 14 * Bound(cfg.slack)
    ensures Terminal(Next(cfg, Exec(cfg, w, run), Reconcile(env)).st)
  {
    HistoryIsAPath(cfg, w, run);
    KeysStayUnique(cfg, w, run);
    var end := Exec(cfg, w, run);
    PathLength(Kinds(end.st.conditions));
    LateRequestEnds(cfg, end, env, 14);
  }

  /** A store that enforces the key only ever holds distinct types. */
  lemma {:induction false} KeysStayUnique(cfg: Config, w: World, run: seq<Action>)
    requires Init(w) && LegalRun(cfg, w, run) && cfg.store == UniqueTypes
    ensures var st := Exec(cfg, w, run).st; DistinctKinds(st.conditions) && Entries(Kinds(st.conditions)) <= 1
  {
    var st := Exec(cfg, w, run).st;
    if run != [] {
      var prefix, a := run[..|run| - 1], run[|run| - 1];
      var mid := Exec(cfg, w, prefix);
      KeysStayUnique(cfg, w, prefix);
      HistoryIsAPath(cfg, w, prefix);
      HistoryIsAPath(cfg, w, run);
      if a.Reconcile? {
        StartedHistory(mid.st, cfg.slack, mid.clock, a.env.now);
        var _, _ := RequestStep(cfg.store, mid.st, mid.cl, a.env);
      }
    }
    if st != BLANK {
      HistoryIsAPath(cfg, w, run);
      assert Distinct(Kinds(st.conditions));
      DistinctIffEnteredOnce(Kinds(st.conditions));
    }
  }

  /** With at most n conditions, n timeouts after the start the latest condition has timed out. */
  lemma LateIsTimedOut(st: Status, slack: nat, clock: Time, now: Time, n: nat)
    requires HistoryInv(st, slack, clock) && st != BLANK
    requires |st.conditions| <= n && now > st.startTime.value + n * Bound(slack)
    ensures TimedOut(st, now)
  {
    PacedSum(Times(st.conditions), Bound(slack));
    TimesN(|st.conditions|, n, Bound(slack));
  }

  lemma LateRequestEnds(cfg: Config, end: World, env: Env, n: nat)
    requires HistoryInv(end.st, cfg.slack, end.clock) && end.st != BLANK
    requires |end.st.conditions| <= n
    requires env.fetch == Found && !env.fails(WriteStatus) && Accepts(cfg.store, end.st)
    requires env.now > end.st.startTime.value + n * Bound(cfg.slack)
    ensures Terminal(Next(cfg, end, Reconcile(env)).st)
  {
    LateIsTimedOut(end.st, cfg.slack, end.clock, env.now, n);
  }
}
