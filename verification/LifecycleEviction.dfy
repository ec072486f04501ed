/**
 Two-phase eviction: an Active epoch has its table as long as loads are not duplicated, and an eviction that
 finds a load in flight is honoured exactly when it is marked before the task looks at the phase.
 */
module LifecycleEviction {
  import opened Common
  import opened Lifecycle
  import opened LifecycleKeys

  /** The epochs reported to the control plane after a reconnect. */
  function LoadedEpochs(s: State): set<Key> { set k | k in s.phases && s.phases[k] == Active }

  /** Every epoch that is reported as loaded is in the engine and has its table. */
  predicate ReportedHaveTables(s: State) { LoadedEpochs(s) <= s.committed * s.tables }

  /** That is so at every moment, if loads are not duplicated. */
  lemma ActiveHasTable(cfg: Config, s: State)
    requires cfg.exclusive && Reachable(cfg, s)
    ensures ReportedHaveTables(s)
  {
    var trace :| Run(cfg, Initial(cfg), trace) == s;
    forall k | k in LoadedEpochs(s) ensures k in s.committed && k in s.tables {
      EpochInvariant(cfg, trace, k);
      assert LocalOf(s, k).phase == Some(Active);
    }
  }

  // ---------------------------------------------------------------------------
  // Evictions marked before the phase check
  // ---------------------------------------------------------------------------

  predicate BeforeCheck(pc: Pc) { pc.Waiting? || pc.Fetching? || pc.Fetched? }

  /** The task will end in the removal of the phase. */
  predicate OnEvictPath(l: Local, id: nat)
  {
    && id in l.tasks && l.phase == Some(Evicting)
    && Outstanding(l.tasks[id]) && !l.tasks[id].Registering? && !l.tasks[id].Publishing?
  }

  /** The moment of the task's last update: nothing is left that should not be. */
  predicate Gone(l: Local, id: nat)
  {
    && id in l.tasks && l.tasks[id].Notifying? && l.phase == None
    && !l.tasks[id].outcome.Completed?
    && (l.tasks[id].outcome.Evicted? ==> !l.committed && (l.tasks[id].outcome.dropped ==> !l.table))
  }

  lemma EvictPathStep(l: Local, a: Action, id: nat)
    requires LocalInv(l) && LocalEnabled(true, l, a) && OnEvictPath(l, id)
    ensures var m := LocalStep(true, l, a); OnEvictPath(m, id) || Gone(m, id)
  {
    assert TaskOk(l, l.tasks[id]);
    if IsTaskAction(a) && a.id != id {
      assert !Outstanding(l.tasks[a.id]);
    }
  }

  /** A run from a reachable state stays within the invariant. */
  lemma InvariantAt(cfg: Config, s: State, trace: seq<Action>, k: Key)
    requires Reachable(cfg, s)
    ensures LoadingOwned(LocalOf(Run(cfg, s, trace), k))
    ensures cfg.exclusive ==> LocalInv(LocalOf(Run(cfg, s, trace), k))
  {
    ReachRun(cfg, s, trace);
    var whole :| Run(cfg, Initial(cfg), whole) == Run(cfg, s, trace);
    EpochInvariant(cfg, whole, k);
  }

  lemma EvictPathNext(cfg: Config, s: State, trace: seq<Action>, a: Action, k: Key, id: nat)
    requires cfg.exclusive && Reachable(cfg, s) && OnEvictPath(LocalOf(Run(cfg, s, trace), k), id)
    ensures var m := LocalOf(Step(cfg, Run(cfg, s, trace), a), k); OnEvictPath(m, id) || Gone(m, id)
  {
    var t := Run(cfg, s, trace);
    InvariantAt(cfg, s, trace, k);
    StepRefines(cfg, t, a, k);
    if LocalOf(Step(cfg, t, a), k) != LocalOf(t, k) {
      EvictPathStep(LocalOf(t, k), a, id);
    }
  }

  /** The epoch is being evicted before each of the first `n` actions of the run. */
  ghost predicate EvictingBefore(cfg: Config, s: State, trace: seq<Action>, k: Key, id: nat, n: nat)
    requires n <= |trace| + 1
  {
    forall m :: 0 <= m < n ==> OnEvictPath(LocalOf(Run(cfg, s, trace[..m]), k), id)
  }

  lemma EvictingLonger(cfg: Config, s: State, trace: seq<Action>, k: Key, id: nat, n: nat)
    requires trace != [] && n <= |trace| && EvictingBefore(cfg, s, trace[..|trace| - 1], k, id, n)
    ensures EvictingBefore(cfg, s, trace, k, id, n)
  {
    forall m | 0 <= m < n ensures OnEvictPath(LocalOf(Run(cfg, s, trace[..m]), k), id) {
      assert trace[..|trace| - 1][..m] == trace[..m];
    }
  }

  ghost predicate GoneAfter(cfg: Config, s: State, trace: seq<Action>, k: Key, id: nat, n: nat)
  {
    && 0 < n <= |trace| && EvictingBefore(cfg, s, trace, k, id, n)
    && Gone(LocalOf(Run(cfg, s, trace[..n]), k), id)
  }

  /** The epoch is being evicted all along, or up to the task's last update, which removes it. */
  ghost predicate Honoured(cfg: Config, s: State, trace: seq<Action>, k: Key, id: nat)
  {
    EvictingBefore(cfg, s, trace, k, id, |trace| + 1) || exists n :: GoneAfter(cfg, s, trace, k, id, n)
  }

  lemma StillEvicting(cfg: Config, s: State, trace: seq<Action>, k: Key, id: nat)
    requires cfg.exclusive && Reachable(cfg, s) && trace != []
    requires EvictingBefore(cfg, s, trace[..|trace| - 1], k, id, |trace|)
    ensures Honoured(cfg, s, trace, k, id)
  {
    var n := |trace| - 1;
    var init := trace[..n];
    assert init[..n] == init && trace[..n + 1] == trace;
    EvictingLonger(cfg, s, trace, k, id, n + 1);
    EvictPathNext(cfg, s, init, trace[n], k, id);
    if Gone(LocalOf(Run(cfg, s, trace), k), id) {
      assert GoneAfter(cfg, s, trace, k, id, n + 1);
    }
  }

  lemma GoneBefore(cfg: Config, s: State, trace: seq<Action>, k: Key, id: nat, g: nat)
    requires trace != [] && GoneAfter(cfg, s, trace[..|trace| - 1], k, id, g)
    ensures GoneAfter(cfg, s, trace, k, id, g)
  {
    EvictingLonger(cfg, s, trace, k, id, g);
    assert trace[..|trace| - 1][..g] == trace[..g];
  }

  /**
   An eviction that was marked before the task's phase check: in every continuation the epoch stays
   Evicting until the task's last update, which leaves neither a phase nor, if the load had succeeded, an
   entry, nor, if the drop succeeded, a table.
   */
  lemma {:induction false} EvictionHonoured(cfg: Config, s: State, trace: seq<Action>, k: Key, id: nat)
    requires cfg.exclusive && Reachable(cfg, s)
    requires id in s.tasks && s.tasks[id].key == k && BeforeCheck(s.tasks[id].pc) && IsPhase(s, k, Evicting)
    ensures Honoured(cfg, s, trace, k, id)
  {
    if trace != [] {
      var init := trace[..|trace| - 1];
      EvictionHonoured(cfg, s, init, k, id);
      if EvictingBefore(cfg, s, init, k, id, |trace|) {
        StillEvicting(cfg, s, trace, k, id);
      } else {
        var g :| GoneAfter(cfg, s, init, k, id, g);
        GoneBefore(cfg, s, trace, k, id, g);
      }
    }
  }

  // ---------------------------------------------------------------------------
  // When an eviction that found a load in flight is honoured
  // ---------------------------------------------------------------------------

  predicate Quiet(trace: seq<Action>, k: Key) { Assign(k) !in trace }

  /** However the run goes on without a new assignment: once the load is over, the epoch is gone. */
  ghost predicate EndsAbsent(cfg: Config, s: State, k: Key)
  {
    forall trace :: Quiet(trace, k) && !Busy(Run(cfg, s, trace), k) ==> k !in Run(cfg, s, trace).phases
  }

  /** The states of an epoch whose eviction is under way or done. */
  ghost predicate Leaving(l: Local)
  {
    || (exists id :: OnEvictPath(l, id))
    || (!Pending(l) && l.phase == None && (l.hand.NoHand? || l.hand.ToRemove? || l.hand.ToDrop?))
  }

  lemma LeavingStep(l: Local, a: Action)
    requires LocalInv(l) && LocalEnabled(true, l, a) && Leaving(l) && !a.Assign?
    ensures Leaving(LocalStep(true, l, a))
  {
    var m := LocalStep(true, l, a);
    if id :| OnEvictPath(l, id) {
      EvictPathStep(l, a, id);
      if Gone(m, id) {
        assert TaskOk(l, l.tasks[id]);
        assert forall i :: i in m.tasks && i != id ==> i in l.tasks && m.tasks[i] == l.tasks[i];
        assert !Pending(m);
      } else {
        assert OnEvictPath(m, id);
      }
    } else {
      assert !Pending(m);
    }
  }

  lemma {:induction false} LeavingRun(cfg: Config, s: State, trace: seq<Action>, k: Key)
    requires cfg.exclusive && Reachable(cfg, s) && Leaving(LocalOf(s, k)) && Quiet(trace, k)
    ensures Leaving(LocalOf(Run(cfg, s, trace), k))
  {
    if trace != [] {
      var n := |trace| - 1;
      LeavingRun(cfg, s, trace[..n], k);
      var t := Run(cfg, s, trace[..n]);
      InvariantAt(cfg, s, trace[..n], k);
      StepRefines(cfg, t, trace[n], k);
      if LocalOf(Step(cfg, t, trace[n]), k) != LocalOf(t, k) {
        LeavingStep(LocalOf(t, k), trace[n]);
      }
    }
  }

  predicate StillStoppable(s: State, k: Key, id: nat)
  {
    && id in s.tasks && s.tasks[id].key == k && Outstanding(s.tasks[id].pc)
    && !s.tasks[id].pc.Registering? && !s.tasks[id].pc.Publishing?
  }

  lemma LeavingEndsAbsent(cfg: Config, s: State, k: Key)
    requires cfg.exclusive && Reachable(cfg, s) && Leaving(LocalOf(s, k))
    ensures EndsAbsent(cfg, s, k)
  {
    forall trace | Quiet(trace, k) && !Busy(Run(cfg, s, trace), k) ensures k !in Run(cfg, s, trace).phases {
      LeavingRun(cfg, s, trace, k);
      BusyIffPending(Run(cfg, s, trace), k);
    }
  }

  /** The task goes on to publish the epoch, whatever the phase says. */
  lemma PublishesAnyway(cfg: Config, s: State, k: Key, id: nat)
    requires id in s.tasks && s.tasks[id].key == k && (s.tasks[id].pc.Registering? || s.tasks[id].pc.Publishing?)
    requires LocalInv(LocalOf(s, k))
    ensures !EndsAbsent(cfg, s, k)
  {
    var trace := if s.tasks[id].pc.Registering? then [Register(id, true), Publish(id)] else [Publish(id)];
    var t := Run(cfg, s, trace);
    RunOne(cfg, s, Publish(id));
    RunTwo(cfg, s, Register(id, true), Publish(id));
    assert k in t.phases && t.tasks == s.tasks[id := Task(k, Notifying(Completed))];
    var l := LocalOf(s, k);
    assert id in l.tasks && Outstanding(l.tasks[id]);
    forall i | i in t.tasks && t.tasks[i].key == k ensures !Outstanding(t.tasks[i].pc) {
      assert i != id ==> i in l.tasks && l.tasks[i] == t.tasks[i].pc;
    }
    assert Quiet(trace, k);
  }

  /**
   An eviction that found the epoch Loading and is about to mark it: the epoch ends absent in every
   continuation if and only if its task has not yet decided to publish.
   */
  lemma MarkHonouredIff(cfg: Config, s: State, k: Key)
    requires cfg.exclusive && Reachable(cfg, s) && s.handler == Marking(k)
    ensures EndsAbsent(cfg, Step(cfg, s, Mark), k) <==> exists id :: StillStoppable(s, k, id)
  {
    var t := Step(cfg, s, Mark);
    ReachStep(cfg, s, Mark);
    InvariantAt(cfg, t, [], k);
    if id :| StillStoppable(s, k, id) {
      assert OnEvictPath(LocalOf(t, k), id);
      LeavingEndsAbsent(cfg, t, k);
    } else if Busy(t, k) {
      var i :| i in t.tasks && t.tasks[i].key == k && Outstanding(t.tasks[i].pc);
      assert !StillStoppable(s, k, i);
      PublishesAnyway(cfg, t, k, i);
    } else {
      assert Run(cfg, t, []) == t && Quiet([], k) && k in t.phases;
    }
  }

  // ---------------------------------------------------------------------------
  // Stuck epochs
  // ---------------------------------------------------------------------------

  /** Marked for eviction with nobody left to evict it. */
  predicate Stuck(l: Local)
  {
    l.phase == Some(Evicting) && !Pending(l) && (l.hand.NoHand? || l.hand.ToCheck?)
  }

  lemma StuckStep(exclusive: bool, l: Local, a: Action)
    requires Stuck(l) && LocalEnabled(exclusive, l, a)
    ensures var m := LocalStep(exclusive, l, a);
            Stuck(m) && m.committed == l.committed && m.table == l.table
  {
    var m := LocalStep(exclusive, l, a);
    assert forall i :: i in m.tasks ==> i in l.tasks && m.tasks[i] == l.tasks[i];
  }

  /** A stuck epoch stays stuck: later assignments and evictions of it are ignored and its table stays. */
  lemma {:induction false} StuckForever(cfg: Config, s: State, trace: seq<Action>, k: Key)
    requires Stuck(LocalOf(s, k))
    ensures var l, m := LocalOf(s, k), LocalOf(Run(cfg, s, trace), k);
            Stuck(m) && m.committed == l.committed && m.table == l.table
  {
    if trace != [] {
      var n := |trace| - 1;
      StuckForever(cfg, s, trace[..n], k);
      var t := Run(cfg, s, trace[..n]);
      StepRefines(cfg, t, trace[n], k);
      if LocalOf(Step(cfg, t, trace[n]), k) != LocalOf(t, k) {
        StuckStep(cfg.exclusive, LocalOf(t, k), trace[n]);
      }
    }
  }

  /** Marking an epoch whose task has already made its last update leaves it stuck. */
  lemma LateMarkSticks(cfg: Config, s: State, k: Key)
    requires s.handler == Marking(k) && !Busy(s, k)
    ensures Stuck(LocalOf(Step(cfg, s, Mark), k))
  {
    StepRefines(cfg, s, Mark, k);
    BusyIffPending(s, k);
  }

  // ---------------------------------------------------------------------------
  // The failing families do occur
  // ---------------------------------------------------------------------------

  /** A single load that is about to publish its epoch. */
  function AboutToPublish(cfg: Config, k: Key): State
    requires cfg.permits > 0
  {
    State(map[k := Loading], {k}, {k}, map[0 := Task(k, Publishing)], cfg.permits - 1, Idle, false, false, Away)
  }

  lemma ReachPublishing(cfg: Config, k: Key)
    requires cfg.permits > 0
    ensures Reachable(cfg, AboutToPublish(cfg, k))
  {
    ReachStart(cfg);
    var s0 := Initial(cfg);
    ReachStep(cfg, s0, Assign(k));
    var s1 := s0.(handler := Checking(k));
    ReachStep(cfg, s1, CheckPhase);
    var s2 := s0.(handler := Inserting(k));
    ReachStep(cfg, s2, InsertLoading);
    var s3 := s0.(phases := map[k := Loading], handler := Converting(k));
    ReachStep(cfg, s3, Convert(0, true));
    var s4 := s0.(phases := map[k := Loading], tasks := map[0 := Task(k, Waiting)]);
    ReachFetched(cfg, k, s4);
  }

  lemma ReachFetched(cfg: Config, k: Key, s: State)
    requires cfg.permits > 0 && Reachable(cfg, s)
    requires s == Initial(cfg).(phases := map[k := Loading], tasks := map[0 := Task(k, Waiting)])
    ensures Reachable(cfg, AboutToPublish(cfg, k))
  {
    ReachStep(cfg, s, Acquire(0));
    var s1 := s.(tasks := map[0 := Task(k, Fetching)], free := cfg.permits - 1);
    ReachStep(cfg, s1, Load(0, true, true));
    var s2 := s1.(tasks := map[0 := Task(k, Fetched)], committed := {k}, tables := {k});
    assert Step(cfg, s1, Load(0, true, true)) == s2;
    ReachRegistered(cfg, k, s2);
  }

  lemma ReachRegistered(cfg: Config, k: Key, s: State)
    requires cfg.permits > 0 && Reachable(cfg, s)
    requires s == AboutToPublish(cfg, k).(tasks := map[0 := Task(k, Fetched)])
    ensures Reachable(cfg, AboutToPublish(cfg, k))
  {
    ReachStep(cfg, s, CheckEvict(0));
    var s1 := s.(tasks := map[0 := Task(k, Registering)]);
    assert Step(cfg, s, CheckEvict(0)) == s1;
    ReachStep(cfg, s1, Register(0, true));
    assert Step(cfg, s1, Register(0, true)) == AboutToPublish(cfg, k);
  }

  /** An eviction can find the epoch Loading and write its mark after the task's last update: stuck. */
  lemma StuckIsReachable(cfg: Config, k: Key)
    requires cfg.permits > 0
    ensures exists s :: Reachable(cfg, s) && Stuck(LocalOf(s, k)) && k in s.committed
  {
    ReachPublishing(cfg, k);
    var s0 := AboutToPublish(cfg, k);
    ReachStep(cfg, s0, Evict(k));
    var s1 := s0.(handler := Marking(k));
    ReachStep(cfg, s1, Publish(0));
    var s2 := s1.(tasks := map[0 := Task(k, Notifying(Completed))], phases := map[k := Active]);
    ReachStep(cfg, s2, Mark);
    LateMarkSticks(cfg, s2, k);
  }

  /** An eviction that marks the epoch after the check and before the publication is overwritten. */
  lemma LostEvictionIsReachable(cfg: Config, k: Key)
    requires cfg.permits > 0
    ensures exists s :: Reachable(cfg, s) && s.handler == Marking(k) && !exists id :: StillStoppable(s, k, id)
  {
    ReachPublishing(cfg, k);
    var s0 := AboutToPublish(cfg, k);
    ReachStep(cfg, s0, Evict(k));
    var s1 := s0.(handler := Marking(k));
    assert Step(cfg, s0, Evict(k)) == s1;
    assert !exists id :: StillStoppable(s1, k, id);
  }

  /** A second assignment that cannot be converted removes the phase under the first load. */
  lemma DuplicateHidesLoad(cfg: Config, k: Key)
    requires cfg.permits > 0 && !cfg.exclusive
    ensures Reachable(cfg, AboutToPublish(cfg, k).(phases := map[]))
  {
    ReachPublishing(cfg, k);
    var s0 := AboutToPublish(cfg, k);
    ReachStep(cfg, s0, Assign(k));
    var s1 := s0.(handler := Checking(k));
    ReachStep(cfg, s1, CheckPhase);
    var s2 := s0.(handler := Inserting(k));
    ReachStep(cfg, s2, InsertLoading);
    var s3 := s0.(handler := Converting(k));
    assert Step(cfg, s2, InsertLoading) == s3;
    ReachStep(cfg, s3, Convert(1, false));
    assert Step(cfg, s3, Convert(1, false)) == s0.(phases := map[]);
  }

  /** Then an eviction drops the table, and the first load publishes the epoch without it. */
  lemma DuplicateLosesTable(cfg: Config, k: Key) returns (t: State)
    requires cfg.permits > 0 && !cfg.exclusive
    ensures Reachable(cfg, t) && IsPhase(t, k, Active) && k !in t.committed && k !in t.tables
  {
    DuplicateHidesLoad(cfg, k);
    var s0 := AboutToPublish(cfg, k).(phases := map[]);
    ReachStep(cfg, s0, Evict(k));
    var s1 := s0.(handler := Removing(k));
    ReachStep(cfg, s1, Remove);
    var s2 := s0.(handler := DroppingTable(k));
    assert Step(cfg, s1, Remove) == s2;
    ReachStep(cfg, s2, DropTable(true));
    var s3 := s0.(committed := {}, tables := {});
    assert Step(cfg, s2, DropTable(true)) == s3;
    ReachStep(cfg, s3, Publish(0));
    t := Step(cfg, s3, Publish(0));
  }

  /** Active epochs have their table in every reachable state exactly when loads are not duplicated. */
  lemma ActiveHasTableIff(cfg: Config)
    requires cfg.permits > 0
    ensures (forall s :: Reachable(cfg, s) ==> ReportedHaveTables(s)) <==> cfg.exclusive
  {
    if cfg.exclusive {
      forall s | Reachable(cfg, s) ensures ReportedHaveTables(s) {
        ActiveHasTable(cfg, s);
      }
    } else {
      var t := DuplicateLosesTable(cfg, "epoch");
      assert "epoch" in LoadedEpochs(t);
    }
  }
}
