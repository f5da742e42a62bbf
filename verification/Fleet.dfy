/** Any number of NodeRecovery resources reconciled in any order by one controller process: the
    Prometheus counters against the resources. */
module Fleet {
  import opened Types
  import opened Workflow
  import opened Branches
  import opened Runs
  import opened History

  /** A resource, with how it ended if it failed. */
  datatype Entry = Entry(st: Status, byTimeout: bool)

  datatype State = State(entries: seq<Entry>, cl: Cluster, m: Counters, clock: Time, lossless: bool)

  datatype Act =
    | Create
    | Elsewhere(cl: Cluster, clock: Time)
    | Serve(i: nat, env: Env)

  ghost predicate Start(s: State) {
    s.entries == [] && s.m == Counters(0, 0, map[], map[], map[]) && s.lossless
  }

  /** The counters after one request, as the outer controller leaves them. */
  ghost function Served(m: Counters, st: Status, cl: Cluster, env: Env): Counters {
    if !Proceeds(st, env) then m
    else
      var begun := if st.startTime.None? then m.(total := m.total + 1) else m;
      Counted(begun, Started(st, env.now), Inner(Started(st, env.now), cl, env), env.now)
  }

  /** Any number of resources, served in any order with any failures, panics included. */
  ghost predicate Allowed(cfg: Config, s: State, a: Act) {
    match a
    case Create => true
    case Elsewhere(_, clock) => s.clock <= clock
    case Serve(i, env) =>
      && i < |s.entries| && s.clock <= env.now <= env.stamp <= env.now + cfg.slack
  }

  ghost function After(cfg: Config, s: State, a: Act): State {
    match a
    case Create => s.(entries := s.entries + [Entry(BLANK, false)])
    case Elsewhere(cl, clock) => s.(cl := cl, clock := clock)
    case Serve(i, env) =>
      if i >= |s.entries| then s
      else
        var e := s.entries[i];
        var p := Request(cfg.store, e.st, s.cl, env);
        var ended := Proceeds(e.st, env) && !p.lost && Started(e.st, env.now).conditions != [] && TimedOut(Started(e.st, env.now), env.now);
        State(s.entries[i := Entry(p.st, e.byTimeout || ended)], p.cl, Served(s.m, e.st, s.cl, env), env.stamp,
              s.lossless && !p.lost)
  }

  ghost function Play(cfg: Config, s: State, acts: seq<Act>): State {
    if acts == [] then s else After(cfg, Play(cfg, s, acts[..|acts| - 1]), acts[|acts| - 1])
  }

  ghost predicate AllAllowed(cfg: Config, s: State, acts: seq<Act>) {
    acts == [] ||
    (AllAllowed(cfg, s, acts[..|acts| - 1]) && Allowed(cfg, Play(cfg, s, acts[..|acts| - 1]), acts[|acts| - 1]))
  }

  /******* What each counter should count *******/

  datatype Measure =
    | Begun
    | InProgress
    | Done
    | TimeoutFailed
    | JobFailed
    | FailedAnyhow
    | TimeoutAt(kind: Kind)
    | RecoveredOn(node: string)
    | FailedOn(node: string)

  ghost function Times(entries: seq<NodePV>, node: string): nat {
    if entries == [] then 0
    else Times(entries[..|entries| - 1], node) + if entries[|entries| - 1].node == node then 1 else 0
  }

  ghost predicate Late(e: Entry) {
    e.st.phase == Failed && e.byTimeout
  }

  ghost function Worth(c: Measure, e: Entry): nat {
    match c
    case Begun => if e.st.startTime.Some? then 1 else 0
    case InProgress => if e.st.startTime.Some? && !Terminal(e.st) then 1 else 0
    case Done => if e.st.phase == Completed then 1 else 0
    case TimeoutFailed => if Late(e) then 1 else 0
    case JobFailed => if e.st.phase == Failed && !e.byTimeout then 1 else 0
    case FailedAnyhow => if e.st.phase == Failed then 1 else 0
    case TimeoutAt(k) => if Late(e) && At(e.st, k) then 1 else 0
    case RecoveredOn(n) => if e.st.phase == Completed then Times(e.st.nodeDevice, n) else 0
    case FailedOn(n) => if Late(e) then Times(e.st.nodeDevice, n) else 0
  }

  ghost function Sum(c: Measure, entries: seq<Entry>): nat {
    if entries == [] then 0 else Sum(c, entries[..|entries| - 1]) + Worth(c, entries[|entries| - 1])
  }

  /** A counter vector summed over its labels. */
  ghost function Total(m: map<Kind, nat>): nat {
    if m == map[] then 0
    else
      var k :| k in m;
      m[k] + Total(m - {k})
  }

  lemma TotalTakesOut(m: map<Kind, nat>) returns (k: Kind)
    requires m != map[]
    ensures k in m && Total(m) == m[k] + Total(m - {k})
  {
    k :| k in m && Total(m) == m[k] + Total(m - {k});
  }

  /** Whichever label is taken out first. */
  lemma {:induction false} TotalWithout(m: map<Kind, nat>, k: Kind)
    requires k in m
    ensures Total(m) == m[k] + Total(m - {k})
    decreases |m|
  {
    var j := TotalTakesOut(m);
    if j != k {
      var left := m - {j};
      TotalWithout(left, k);
      TotalWithout(m - {k}, j);
      assert left - {k} == (m - {k}) - {j};
    }
  }

  lemma TotalBump(m: map<Kind, nat>, k: Kind)
    ensures Total(Bump(m, k)) == Total(m) + 1
  {
    TotalWithout(Bump(m, k), k);
    if k in m {
      TotalWithout(m, k);
      assert Bump(m, k) - {k} == m - {k};
    } else {
      assert Bump(m, k) - {k} == m;
    }
  }

  /** The counter behind a measure; three of the measures have none of their own. */
  ghost function Reading(c: Measure, m: Counters): nat {
    match c
    case Begun => m.total
    case Done => m.completed
    case TimeoutFailed => Total(m.failed)
    case TimeoutAt(k) => Count(m.failed, k)
    case RecoveredOn(n) => Count(m.recoveredNodes, n)
    case FailedOn(n) => Count(m.failedNodes, n)
    case _ => 0
  }

  predicate Exported(c: Measure) {
    c.Begun? || c.Done? || c.TimeoutFailed? || c.TimeoutAt? || c.RecoveredOn? || c.FailedOn?
  }

  lemma {:induction false} SumUpdate(c: Measure, entries: seq<Entry>, i: nat, e: Entry)
    requires i < |entries|
    ensures Sum(c, entries[i := e]) + Worth(c, entries[i]) == Sum(c, entries) + Worth(c, e)
  {
    var n := |entries| - 1;
    var updated := entries[i := e];
    if i < n {
      SumUpdate(c, entries[..n], i, e);
      assert updated[..n] == entries[..n][i := e];
    } else {
      assert updated[..n] == entries[..n];
    }
  }

  lemma SumAppend(c: Measure, entries: seq<Entry>, e: Entry)
    ensures Sum(c, entries + [e]) == Sum(c, entries) + Worth(c, e)
  {
    assert (entries + [e])[..|entries|] == entries;
  }

  /** Begun resources are in progress, done, failed late, or failed by their job. */
  lemma {:induction false} EveryBeginningHasOneEnd(entries: seq<Entry>)
    requires forall e :: e in entries ==> (Terminal(e.st) ==> e.st.startTime.Some?)
    ensures Sum(Begun, entries) ==
            Sum(InProgress, entries) + Sum(Done, entries) + Sum(TimeoutFailed, entries) + Sum(JobFailed, entries)
    ensures Sum(FailedAnyhow, entries) == Sum(TimeoutFailed, entries) + Sum(JobFailed, entries)
  {
    if entries != [] {
      var n := |entries| - 1;
      assert entries == entries[..n] + [entries[n]];
      EveryBeginningHasOneEnd(entries[..n]);
      assert entries[n] in entries;
    }
  }

  lemma {:induction false} BumpNodesCounts(m: map<string, nat>, entries: seq<NodePV>, i: nat, node: string)
    requires i <= |entries|
    ensures Count(BumpNodes(m, entries, i), node) + Times(entries[..i], node) == Count(m, node) + Times(entries, node)
    decreases |entries| - i
  {
    if i < |entries| {
      BumpNodesCounts(Bump(m, entries[i].node), entries, i + 1, node);
      assert entries[..i + 1][..i] == entries[..i];
    } else {
      assert entries[..i] == entries;
    }
  }

  /******* One request *******/

  /** The entry a request would leave if its status is kept. */
  ghost predicate Leaves(s0: Status, out: Outcome, env: Env, p: Status, late: bool) {
    && out.Outcome? && MovedBy(s0, out.st, out.move, p, env)
    && late == TimedOut(s0, env.now)
    && (out.move == Finish ==> Latest(s0).kind == DisableCephTools && out.st.nodeDevice == s0.nodeDevice)
    && (out.move == GiveUp && !late ==> out.st.nodeDevice == s0.nodeDevice)
  }

  /** Each counter moves by exactly what the entry gains. */
  lemma CounterGains(c: Measure, m: Counters, s0: Status, out: Outcome, env: Env, p: Status, late: bool)
    requires Exported(c) && s0.startTime.Some? && !Terminal(s0)
    requires Leaves(s0, out, env, p, late)
    ensures Reading(c, Counted(m, s0, out, env.now)) == Reading(c, m) + (if c == Begun then 0 else Worth(c, Entry(p, late)))
  {
    match c {
      case RecoveredOn(n) => BumpNodesCounts(m.recoveredNodes, s0.nodeDevice, 0, n);
      case FailedOn(n) => BumpNodesCounts(m.failedNodes, s0.nodeDevice, 0, n);
      case TimeoutFailed => TotalBump(m.failed, Latest(s0).kind);
      case _ =>
    }
    assert s0.nodeDevice[..0] == [];
  }

  ghost predicate EntryInv(e: Entry, slack: nat, clock: Time) {
    && HistoryInv(e.st, slack, clock)
    && (e.byTimeout ==> e.st.phase == Failed)
  }

  ghost predicate FleetInv(s: State, slack: nat) {
    forall i :: 0 <= i < |s.entries| ==> EntryInv(s.entries[i], slack, s.clock)
  }

  lemma FinishFacts(k: Kind, st: Status, s: Status, cl: Cluster, move: Move)
    requires StatusStep(k, st, s, move, cl) && (k == DisableCephTools || k == CleanupOSDRemovalJob || k == RetryForceCleanupOSDRemovalJob)
    ensures s.nodeDevice == st.nodeDevice
  {
  }

  /** The outcome of a request that did not panic, kept or lost. */
  lemma OutcomeLeaves(store: Store, slack: nat, st: Status, clock: Time, cl: Cluster, env: Env) returns (out: Outcome, p: Status)
    requires HistoryInv(st, slack, clock) && clock <= env.now && Proceeds(st, env)
    requires !Request(store, st, cl, env).panicked
    ensures var s0 := Started(st, env.now);
            && out == Inner(s0, cl, env) && out.Outcome? && p == Settle(out.st, out.move, env.stamp)
            && Leaves(s0, out, env, p, TimedOut(s0, env.now))
            && s0.startTime.Some? && !Terminal(s0) && s0.conditions != []
            && (!Request(store, st, cl, env).lost ==> Request(store, st, cl, env).st == p)
  {
    var tail;
    StartedHistory(st, slack, clock, env.now);
    out, tail := RequestStep(store, st, cl, env);
    p := Settle(out.st, out.move, env.stamp);
    var s0 := Started(st, env.now);
    LastOnPath(Kinds(s0.conditions), Latest(s0).kind);
    PassLeaves(store, st, cl, env, Request(store, st, cl, env), out, tail);
  }

  lemma PassLeaves(store: Store, st: Status, cl: Cluster, env: Env, p: Pass, out: Outcome, tail: seq<Event>)
    requires PassStep(store, st, cl, env, p, out, tail) && Proceeds(st, env) && !p.panicked
    requires !Latest(Started(st, env.now)).kind.Unknown?
    ensures out.Outcome? && Leaves(Started(st, env.now), out, env, Settle(out.st, out.move, env.stamp), TimedOut(Started(st, env.now), env.now))
    ensures !p.lost ==> p.st == Settle(out.st, out.move, env.stamp)
  {
    var s0 := Started(st, env.now);
    if !TimedOut(s0, env.now) {
      BranchLeaves(Latest(s0).kind, s0, cl, out, tail, env);
    }
  }

  lemma BranchLeaves(k: Kind, s0: Status, cl: Cluster, out: Outcome, tail: seq<Event>, env: Env)
    requires s0.conditions != [] && k == Latest(s0).kind && !k.Unknown? && !TimedOut(s0, env.now)
    requires out.Outcome? && StepContract(k, s0, cl, out, tail, env)
    ensures Leaves(s0, out, env, Settle(out.st, out.move, env.stamp), false)
  {
    StatusFrame(k, s0, out.st, out.move, cl);
    if out.move == Finish || out.move == GiveUp {
      FinishFacts(k, s0, out.st, cl, out.move);
    }
  }

  lemma ServedGains(c: Measure, m: Counters, e: Entry, cl: Cluster, env: Env, out: Outcome, p: Status)
    requires Exported(c) && Proceeds(e.st, env) && !e.byTimeout
    requires e.st == BLANK || e.st.startTime.Some?
    requires var s0 := Started(e.st, env.now);
             && out == Inner(s0, cl, env) && s0.startTime.Some? && !Terminal(s0) && s0.conditions != []
             && Leaves(s0, out, env, p, TimedOut(s0, env.now))
    ensures Reading(c, Served(m, e.st, cl, env)) + Worth(c, e) ==
            Reading(c, m) + Worth(c, Entry(p, TimedOut(Started(e.st, env.now), env.now)))
  {
    var s0 := Started(e.st, env.now);
    var begun := if e.st.startTime.None? then m.(total := m.total + 1) else m;
    CounterGains(c, begun, s0, out, env, p, TimedOut(s0, env.now));
  }

  lemma Later(e: Entry, slack: nat, clock: Time, later: Time)
    requires EntryInv(e, slack, clock) && clock <= later
    ensures EntryInv(e, slack, later)
  {
  }

  lemma ServeKeepsEntries(cfg: Config, s: State, i: nat, env: Env)
    requires FleetInv(s, cfg.slack) && Allowed(cfg, s, Serve(i, env))
    ensures var t := After(cfg, s, Serve(i, env));
            forall j :: 0 <= j < |t.entries| ==> EntryInv(t.entries[j], cfg.slack, t.clock)
  {
    var e, t := s.entries[i], After(cfg, s, Serve(i, env));
    var p := Request(cfg.store, e.st, s.cl, env);
    StartedHistory(e.st, cfg.slack, s.clock, env.now);
    var out, tail := RequestStep(cfg.store, e.st, s.cl, env);
    HistoryStep(cfg.store, cfg.slack, e.st, s.clock, s.cl, env, p, out, tail);
    forall j | 0 <= j < |t.entries| ensures EntryInv(t.entries[j], cfg.slack, t.clock) {
      if j != i {
        Later(s.entries[j], cfg.slack, s.clock, env.stamp);
      }
    }
  }

  /** The entry a request would leave if its status were kept. */
  ghost function Intended(e: Entry, cl: Cluster, env: Env): Entry {
    var s0 := Started(e.st, env.now);
    match Inner(s0, cl, env)
    case Panic(_) => e
    case Outcome(mid, _, move, _) => Entry(Settle(mid, move, env.stamp), s0.conditions != [] && TimedOut(s0, env.now))
  }

  /** What a request with a lost status counted without the resource showing it. */
  ghost function Gain(c: Measure, cfg: Config, s: State, a: Act): int {
    match a
    case Serve(i, env) =>
      if i < |s.entries| && Request(cfg.store, s.entries[i].st, s.cl, env).lost
      then Worth(c, Intended(s.entries[i], s.cl, env)) - Worth(c, s.entries[i])
      else 0
    case _ => 0
  }

  /** A request that panics counts nothing and shows nothing: no panic comes before the total counter
      has been increased and the first status kept. */
  lemma PanicGainsNothing(cfg: Config, s: State, i: nat, env: Env)
    requires FleetInv(s, cfg.slack) && Allowed(cfg, s, Serve(i, env))
    requires Request(cfg.store, s.entries[i].st, s.cl, env).panicked
    ensures var e, t := s.entries[i], After(cfg, s, Serve(i, env));
            t.m == s.m && t.entries[i] == e && Intended(e, s.cl, env) == e
  {
    var e := s.entries[i];
    StartedHistory(e.st, cfg.slack, s.clock, env.now);
    var out, tail := RequestStep(cfg.store, e.st, s.cl, env);
    var s0 := Started(e.st, env.now);
    assert !TimedOut(s0, env.now) && Latest(s0).kind != EnableCephToolsPod;
  }

  lemma ServeGains(cfg: Config, s: State, i: nat, env: Env, c: Measure)
    requires FleetInv(s, cfg.slack) && Allowed(cfg, s, Serve(i, env)) && Exported(c)
    ensures var t := After(cfg, s, Serve(i, env));
            && Reading(c, t.m) - Sum(c, t.entries) == Reading(c, s.m) - Sum(c, s.entries) + Gain(c, cfg, s, Serve(i, env))
            && Gain(c, cfg, s, Serve(i, env)) >= 0
  {
    var e, t := s.entries[i], After(cfg, s, Serve(i, env));
    SumUpdate(c, s.entries, i, t.entries[i]);
    if Proceeds(e.st, env) && Request(cfg.store, e.st, s.cl, env).panicked {
      PanicGainsNothing(cfg, s, i, env);
    } else if Proceeds(e.st, env) {
      var out, p := OutcomeLeaves(cfg.store, cfg.slack, e.st, s.clock, s.cl, env);
      var s0 := Started(e.st, env.now);
      ServedGains(c, s.m, e, s.cl, env, out, p);
      GainsAreGains(c, e, p, TimedOut(s0, env.now), s0, out, env);
      assert Intended(e, s.cl, env) == Entry(p, TimedOut(s0, env.now));
    } else {
      assert t.entries[i] == e;
    }
  }

  /** A lost status can only leave a counter ahead. */
  lemma GainsAreGains(c: Measure, e: Entry, p: Status, late: bool, s0: Status, out: Outcome, env: Env)
    requires Exported(c) && !Terminal(e.st) && Leaves(s0, out, env, p, late) && s0.startTime.Some?
    ensures Worth(c, e) <= Worth(c, Entry(p, late))
  {
  }

  lemma ActGains(cfg: Config, s: State, a: Act, c: Measure)
    requires FleetInv(s, cfg.slack) && Allowed(cfg, s, a) && Exported(c)
    ensures var t := After(cfg, s, a);
            && Reading(c, t.m) - Sum(c, t.entries) == Reading(c, s.m) - Sum(c, s.entries) + Gain(c, cfg, s, a)
            && Gain(c, cfg, s, a) >= 0
  {
    match a {
      case Serve(i, env) => ServeGains(cfg, s, i, env, c);
      case Create =>
        SumAppend(c, s.entries, Entry(BLANK, false));
        assert Times([], "") == 0;
      case Elsewhere(_, _) =>
    }
  }

  lemma ActKeepsFleet(cfg: Config, s: State, a: Act)
    requires FleetInv(s, cfg.slack) && Allowed(cfg, s, a)
    ensures FleetInv(After(cfg, s, a), cfg.slack)
  {
    var t := After(cfg, s, a);
    match a {
      case Serve(i, env) => ServeKeepsEntries(cfg, s, i, env);
      case Create =>
      case Elsewhere(_, clock) =>
        forall j | 0 <= j < |t.entries| ensures EntryInv(t.entries[j], cfg.slack, t.clock) {
          Later(s.entries[j], cfg.slack, s.clock, clock);
        }
    }
  }

  lemma {:induction false} FleetHolds(cfg: Config, s: State, acts: seq<Act>)
    requires Start(s) && AllAllowed(cfg, s, acts)
    ensures FleetInv(Play(cfg, s, acts), cfg.slack)
  {
    if acts != [] {
      FleetHolds(cfg, s, acts[..|acts| - 1]);
      ActKeepsFleet(cfg, Play(cfg, s, acts[..|acts| - 1]), acts[|acts| - 1]);
    }
  }

  /******* Conservation *******/

  /** How far a counter runs ahead of the resources: the gains of all lost statuses. */
  ghost function Ahead(c: Measure, cfg: Config, s: State, acts: seq<Act>): int {
    if acts == [] then 0
    else
      Ahead(c, cfg, s, acts[..|acts| - 1]) + Gain(c, cfg, Play(cfg, s, acts[..|acts| - 1]), acts[|acts| - 1])
  }

  /** Every counter is what it counts plus what it is ahead, exactly. */
  lemma {:induction false} CountersAreExact(cfg: Config, s: State, acts: seq<Act>, c: Measure)
    requires Start(s) && AllAllowed(cfg, s, acts) && Exported(c)
    ensures Reading(c, Play(cfg, s, acts).m) == Sum(c, Play(cfg, s, acts).entries) + Ahead(c, cfg, s, acts)
    ensures Ahead(c, cfg, s, acts) >= 0
    ensures Play(cfg, s, acts).lossless ==> Ahead(c, cfg, s, acts) == 0
  {
    if acts != [] {
      var prefix, a := acts[..|acts| - 1], acts[|acts| - 1];
      CountersAreExact(cfg, s, prefix, c);
      FleetHolds(cfg, s, prefix);
      StaysExact(cfg, Play(cfg, s, prefix), a, c, Ahead(c, cfg, s, prefix));
    }
  }

  lemma StaysExact(cfg: Config, s: State, a: Act, c: Measure, ahead: int)
    requires FleetInv(s, cfg.slack) && Allowed(cfg, s, a) && Exported(c)
    requires Reading(c, s.m) == Sum(c, s.entries) + ahead && ahead >= 0 && (s.lossless ==> ahead == 0)
    ensures var t, more := After(cfg, s, a), ahead + Gain(c, cfg, s, a);
            Reading(c, t.m) == Sum(c, t.entries) + more && more >= ahead && (t.lossless ==> more == 0)
  {
    ActGains(cfg, s, a, c);
    if After(cfg, s, a).lossless {
      LosslessGainsNothing(cfg, s, a, c);
    }
  }

  lemma LosslessGainsNothing(cfg: Config, s: State, a: Act, c: Measure)
    requires Allowed(cfg, s, a) && After(cfg, s, a).lossless
    ensures s.lossless && Gain(c, cfg, s, a) == 0
  {
  }

  /** No act of the run lost a status that would have counted. */
  ghost predicate NothingGained(c: Measure, cfg: Config, s: State, acts: seq<Act>) {
    acts == [] ||
    (NothingGained(c, cfg, s, acts[..|acts| - 1]) && Gain(c, cfg, Play(cfg, s, acts[..|acts| - 1]), acts[|acts| - 1]) == 0)
  }

  lemma {:induction false} AheadIffSomethingGained(cfg: Config, s: State, acts: seq<Act>, c: Measure)
    requires Start(s) && AllAllowed(cfg, s, acts) && Exported(c)
    ensures Ahead(c, cfg, s, acts) == 0 <==> NothingGained(c, cfg, s, acts)
  {
    if acts != [] {
      var prefix := acts[..|acts| - 1];
      AheadIffSomethingGained(cfg, s, prefix, c);
      CountersAreExact(cfg, s, prefix, c);
      FleetHolds(cfg, s, prefix);
      GainsCount(cfg, Play(cfg, s, prefix), acts[|acts| - 1], c);
    }
  }

  lemma GainsCount(cfg: Config, s: State, a: Act, c: Measure)
    requires FleetInv(s, cfg.slack) && Allowed(cfg, s, a) && Exported(c)
    ensures Gain(c, cfg, s, a) >= 0
  {
    ActGains(cfg, s, a, c);
  }

  /** A counter is exact iff no act of the run lost a status that would have counted. */
  lemma ExactIffNothingGained(cfg: Config, s: State, acts: seq<Act>, c: Measure)
    requires Start(s) && AllAllowed(cfg, s, acts) && Exported(c)
    ensures Reading(c, Play(cfg, s, acts).m) == Sum(c, Play(cfg, s, acts).entries) <==> NothingGained(c, cfg, s, acts)
  {
    CountersAreExact(cfg, s, acts, c);
    AheadIffSomethingGained(cfg, s, acts, c);
  }

  lemma AheadOnlyByLosses(cfg: Config, s: State, acts: seq<Act>)
    requires Start(s) && AllAllowed(cfg, s, acts)
    ensures forall c :: Exported(c) ==> Ahead(c, cfg, s, acts) >= 0 && (Play(cfg, s, acts).lossless ==> Ahead(c, cfg, s, acts) == 0)
  {
    forall c | Exported(c)
      ensures Ahead(c, cfg, s, acts) >= 0 && (Play(cfg, s, acts).lossless ==> Ahead(c, cfg, s, acts) == 0)
    {
      CountersAreExact(cfg, s, acts, c);
    }
  }

  /** Metrics conservation, over any interleaving of any number of resources and any lost statuses.
      The total counts the resources in progress, the completed ones, those failed by timeout and
      those failed by their removal job; the failure counter counts the timed-out ones by their last
      condition, and summed over its labels all of these but no failure by a removal job; and each
      node's counters sum its occurrences in the records of the completed and of the timed-out
      resources. Each counter runs ahead by exactly what its lost statuses would have shown. */
  lemma MetricsAreConserved(cfg: Config, s: State, acts: seq<Act>, k: Kind, node: string)
    requires Start(s) && AllAllowed(cfg, s, acts)
    ensures var t := Play(cfg, s, acts);
            && t.m.total == Sum(InProgress, t.entries) + Sum(Done, t.entries) + Sum(TimeoutFailed, t.entries)
                            + Sum(JobFailed, t.entries) + Ahead(Begun, cfg, s, acts)
            && t.m.completed == Sum(Done, t.entries) + Ahead(Done, cfg, s, acts)
            && Count(t.m.failed, k) == Sum(TimeoutAt(k), t.entries) + Ahead(TimeoutAt(k), cfg, s, acts)
            && Total(t.m.failed) + Sum(JobFailed, t.entries) == Sum(FailedAnyhow, t.entries) + Ahead(TimeoutFailed, cfg, s, acts)
            && Count(t.m.recoveredNodes, node) == Sum(RecoveredOn(node), t.entries) + Ahead(RecoveredOn(node), cfg, s, acts)
            && Count(t.m.failedNodes, node) == Sum(FailedOn(node), t.entries) + Ahead(FailedOn(node), cfg, s, acts)
    ensures forall c :: Exported(c) ==> Ahead(c, cfg, s, acts) >= 0 && (Play(cfg, s, acts).lossless ==> Ahead(c, cfg, s, acts) == 0)
  {
    FleetHolds(cfg, s, acts);
    EveryBeginningHasOneEnd(Play(cfg, s, acts).entries);
    AheadOnlyByLosses(cfg, s, acts);
    CountersAreExact(cfg, s, acts, Begun);
    CountersAreExact(cfg, s, acts, Done);
    CountersAreExact(cfg, s, acts, TimeoutFailed);
    CountersAreExact(cfg, s, acts, TimeoutAt(k));
    CountersAreExact(cfg, s, acts, RecoveredOn(node));
    CountersAreExact(cfg, s, acts, FailedOn(node));
  }

  /** While no status is lost, the failure counter counts every failed resource iff none was failed
      by its removal job. */
  lemma FailuresAreAllCountedIff(cfg: Config, s: State, acts: seq<Act>)
    requires Start(s) && AllAllowed(cfg, s, acts) && Play(cfg, s, acts).lossless
    ensures var t := Play(cfg, s, acts);
            Total(t.m.failed) == Sum(FailedAnyhow, t.entries) <==>
            forall i :: 0 <= i < |t.entries| ==> Worth(JobFailed, t.entries[i]) == 0
  {
    MetricsAreConserved(cfg, s, acts, EnableCephToolsPod, "");
    assert Exported(TimeoutFailed);
    SumIsZero(JobFailed, Play(cfg, s, acts).entries);
  }

  lemma {:induction false} SumIsZero(c: Measure, entries: seq<Entry>)
    ensures Sum(c, entries) == 0 <==> forall i :: 0 <= i < |entries| ==> Worth(c, entries[i]) == 0
  {
    if entries != [] {
      SumIsZero(c, entries[..|entries| - 1]);
    }
  }
}
