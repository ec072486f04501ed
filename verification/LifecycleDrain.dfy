/**
 Draining: once drain mode is active nothing starts loading, the waiter's notification is not lost, and the
 waiter returns only when nothing is Loading.
 */
module LifecycleDrain {
  import opened Lifecycle
  import opened LifecycleKeys

  /** Every epoch lives in one of the shards that a scan visits. */
  ghost predicate Sharded(cfg: Config) { forall k :: cfg.shardOf(k) < cfg.shards }

  function LoadingKeys(s: State): set<Key> { set k | k in s.phases && s.phases[k] == Loading }

  /** No assignment is half way between its check of the drain flag and its load task. */
  predicate NoHalfAssignment(s: State)
  {
    s.draining ==> !s.handler.Checking? && !s.handler.Inserting? && !s.handler.Converting?
  }

  predicate SinceDrain(w: Waiter) { !w.Away? && w.drained }

  /** The waiter has seen, or may still see, a load whose end will be notified. */
  predicate Expects(w: Waiter) { (w.Scanning? && w.found) || w.Parking? || w.Parked? }

  ghost predicate WaiterOk(cfg: Config, s: State)
  {
    && (SinceDrain(s.waiter) ==> s.draining)
    && (s.waiter.Parked? ==> !s.stored)
    && (SinceDrain(s.waiter) && s.waiter.Scanning? && !s.waiter.found ==>
          forall k :: k in LoadingKeys(s) ==> cfg.shardOf(k) >= s.waiter.shard)
    && (SinceDrain(s.waiter) && s.waiter.Returned? ==> LoadingKeys(s) == {})
    && (SinceDrain(s.waiter) && Expects(s.waiter) && !s.stored ==> s.tasks != map[])
  }

  ghost predicate LoadingHasTask(s: State)
  {
    forall k :: k in LoadingKeys(s) ==> s.handler == Converting(k) || Busy(s, k)
  }

  /** After Drain, no epoch becomes Loading. */
  lemma NothingStartsLoading(cfg: Config, s: State, a: Action)
    requires NoHalfAssignment(s)
    ensures NoHalfAssignment(Step(cfg, s, a))
    ensures s.draining ==> Step(cfg, s, a).draining && LoadingKeys(Step(cfg, s, a)) <= LoadingKeys(s)
  {
  }

  lemma WaiterMoves(cfg: Config, s: State, a: Action)
    requires Sharded(cfg) && NoHalfAssignment(s) && WaiterOk(cfg, s) && LoadingHasTask(s)
    requires a.Wait? || a.ScanShard? || a.EndScan? || a.Park?
    ensures WaiterOk(cfg, Step(cfg, s, a))
  {
    var t := Step(cfg, s, a);
    assert LoadingKeys(t) == LoadingKeys(s);
    if Enabled(cfg, s, a) && a.ScanShard? && LoadingIn(cfg, s, s.waiter.shard) && s.waiter.drained {
      var k :| k in s.phases && s.phases[k] == Loading && cfg.shardOf(k) == s.waiter.shard;
      assert k in LoadingKeys(s) && Busy(s, k);
    }
  }

  lemma OthersFrame(cfg: Config, s: State, a: Action)
    requires !a.Wait? && !a.ScanShard? && !a.EndScan? && !a.Park? && !a.Notify?
    ensures var t := Step(cfg, s, a); t.waiter == s.waiter && t.stored == s.stored && s.tasks.Keys <= t.tasks.Keys
  {
  }

  lemma OthersMove(cfg: Config, s: State, a: Action)
    requires NoHalfAssignment(s) && WaiterOk(cfg, s)
    requires !a.Wait? && !a.ScanShard? && !a.EndScan? && !a.Park? && !a.Notify?
    ensures WaiterOk(cfg, Step(cfg, s, a))
  {
    NothingStartsLoading(cfg, s, a);
    OthersFrame(cfg, s, a);
    WaiterUndisturbed(cfg, s, Step(cfg, s, a));
  }

  lemma WaiterUndisturbed(cfg: Config, s: State, t: State)
    requires WaiterOk(cfg, s) && t.waiter == s.waiter && t.stored == s.stored && s.tasks.Keys <= t.tasks.Keys
    requires s.draining ==> t.draining && LoadingKeys(t) <= LoadingKeys(s)
    ensures WaiterOk(cfg, t)
  {
    if s.tasks != map[] {
      var i :| i in s.tasks;
      assert i in t.tasks;
    }
  }

  lemma NotifyMoves(cfg: Config, s: State, a: Action)
    requires WaiterOk(cfg, s) && a.Notify?
    ensures WaiterOk(cfg, Step(cfg, s, a))
  {
    assert LoadingKeys(Step(cfg, s, a)) == LoadingKeys(s);
  }

  lemma AllLoadingOwned(cfg: Config, trace: seq<Action>)
    ensures LoadingHasTask(Run(cfg, Initial(cfg), trace))
  {
    var s := Run(cfg, Initial(cfg), trace);
    forall k | k in LoadingKeys(s) ensures s.handler == Converting(k) || Busy(s, k) {
      EpochInvariant(cfg, trace, k);
      BusyIffPending(s, k);
    }
  }

  lemma {:induction false} DrainInvariant(cfg: Config, trace: seq<Action>)
    requires Sharded(cfg)
    ensures var s := Run(cfg, Initial(cfg), trace);
            NoHalfAssignment(s) && WaiterOk(cfg, s) && LoadingHasTask(s)
  {
    AllLoadingOwned(cfg, trace);
    if trace != [] {
      var n := |trace| - 1;
      DrainInvariant(cfg, trace[..n]);
      var s, a := Run(cfg, Initial(cfg), trace[..n]), trace[n];
      NothingStartsLoading(cfg, s, a);
      if a.Notify? {
        NotifyMoves(cfg, s, a);
      } else if a.Wait? || a.ScanShard? || a.EndScan? || a.Park? {
        WaiterMoves(cfg, s, a);
      } else {
        OthersMove(cfg, s, a);
      }
    }
  }

  /** From the moment drain mode is active, the set of Loading epochs only shrinks. */
  lemma {:induction false} DrainOnlyShrinks(cfg: Config, s: State, trace: seq<Action>)
    requires s.draining && NoHalfAssignment(s)
    ensures var t := Run(cfg, s, trace); t.draining && NoHalfAssignment(t) && LoadingKeys(t) <= LoadingKeys(s)
  {
    if trace != [] {
      DrainOnlyShrinks(cfg, s, trace[..|trace| - 1]);
      NothingStartsLoading(cfg, Run(cfg, s, trace[..|trace| - 1]), trace[|trace| - 1]);
    }
  }

  /** After a Drain command, whatever was going on when it came, no load begins any more. */
  lemma DrainTakesEffect(cfg: Config, s: State, trace: seq<Action>)
    requires s.handler.Idle?
    ensures var t := Run(cfg, s, [Drain] + trace);
            t.draining && LoadingKeys(t) <= LoadingKeys(s) && t.tasks.Keys <= s.tasks.Keys
  {
    var d := Step(cfg, s, Drain);
    RunAfter(cfg, s, Drain, trace);
    DrainOnlyShrinks(cfg, d, trace);
    NoTaskStarts(cfg, d, trace);
    assert LoadingKeys(d) == LoadingKeys(s);
  }

  lemma {:induction false} NoTaskStarts(cfg: Config, s: State, trace: seq<Action>)
    requires s.draining && NoHalfAssignment(s)
    ensures Run(cfg, s, trace).tasks.Keys <= s.tasks.Keys
  {
    if trace != [] {
      var n := |trace| - 1;
      NoTaskStarts(cfg, s, trace[..n]);
      DrainOnlyShrinks(cfg, s, trace[..n]);
      var t := Run(cfg, s, trace[..n]);
      assert Step(cfg, t, trace[n]).tasks.Keys <= t.tasks.Keys;
    }
  }

  /** The Drain command at this place of the run is received: no other command is being handled. */
  predicate DrainedAt(cfg: Config, s: State, trace: seq<Action>, n: nat)
  {
    n < |trace| && trace[n].Drain? && Run(cfg, s, trace[..n]).handler.Idle?
  }

  lemma DrainFlag(cfg: Config, s: State, a: Action)
    ensures Step(cfg, s, a).draining <==> s.draining || (a.Drain? && s.handler.Idle?)
  {
  }

  /** Drain mode is active exactly when a Drain command has been received. */
  lemma {:induction false} DrainingIff(cfg: Config, trace: seq<Action>)
    ensures Run(cfg, Initial(cfg), trace).draining <==> exists n :: DrainedAt(cfg, Initial(cfg), trace, n)
  {
    if trace != [] {
      var n := |trace| - 1;
      var init, s := trace[..n], Run(cfg, Initial(cfg), trace[..n]);
      DrainingIff(cfg, init);
      forall m | 0 <= m < n ensures DrainedAt(cfg, Initial(cfg), trace, m) == DrainedAt(cfg, Initial(cfg), init, m) {
        assert init[..m] == trace[..m];
      }
      DrainFlag(cfg, s, trace[n]);
      assert DrainedAt(cfg, Initial(cfg), trace, n) <==> trace[n].Drain? && s.handler.Idle?;
    }
  }

  /** A waiter that was called in drain mode returns only when nothing is Loading, and nothing will be. */
  lemma ReturnMeansNothingLoading(cfg: Config, s: State, trace: seq<Action>)
    requires Sharded(cfg) && Reachable(cfg, s) && s.waiter == Returned(true)
    ensures LoadingKeys(s) == {} && LoadingKeys(Run(cfg, s, trace)) == {}
  {
    var whole :| Run(cfg, Initial(cfg), whole) == s;
    DrainInvariant(cfg, whole);
    DrainOnlyShrinks(cfg, s, trace);
  }

  // ---------------------------------------------------------------------------
  // The semaphore, and progress while the waiter is parked
  // ---------------------------------------------------------------------------

  function Holders(tasks: map<nat, Task>): set<nat> { set i | i in tasks && !tasks[i].pc.Waiting? }

  /** Permits are neither lost nor invented: at most `permits` loads run at any time. */
  ghost predicate PermitsOk(cfg: Config, s: State) { s.free + |Holders(s.tasks)| == cfg.permits }

  lemma PermitsTask(cfg: Config, s: State, t: State, id: nat, pc: Pc)
    requires PermitsOk(cfg, s) && id in s.tasks && !pc.Waiting? && t.tasks == Go(s, id, pc).tasks
    requires t.free == if s.tasks[id].pc.Waiting? then s.free - 1 else s.free
    ensures PermitsOk(cfg, t)
  {
    if s.tasks[id].pc.Waiting? {
      assert Holders(t.tasks) == Holders(s.tasks) + {id};
    } else {
      assert Holders(t.tasks) == Holders(s.tasks);
    }
  }

  lemma PermitsNotify(cfg: Config, s: State, t: State, id: nat)
    requires PermitsOk(cfg, s) && id in s.tasks && !s.tasks[id].pc.Waiting?
    requires t.tasks == s.tasks - {id} && t.free == s.free + 1
    ensures PermitsOk(cfg, t)
  {
    assert Holders(t.tasks) == Holders(s.tasks) - {id};
  }

  lemma PermitsSpawn(cfg: Config, s: State, t: State, id: nat, k: Key)
    requires PermitsOk(cfg, s) && id !in s.tasks && t.tasks == s.tasks[id := Task(k, Waiting)] && t.free == s.free
    ensures PermitsOk(cfg, t)
  {
    assert Holders(t.tasks) == Holders(s.tasks);
  }

  lemma PermitsStep(cfg: Config, s: State, a: Action)
    requires PermitsOk(cfg, s)
    ensures PermitsOk(cfg, Step(cfg, s, a))
  {
    if Enabled(cfg, s, a) {
      var t := Step(cfg, s, a);
      if a.Notify? {
        PermitsNotify(cfg, s, t, a.id);
      } else if IsTaskAction(a) {
        TaskStepPc(cfg, s, a);
        PermitsTask(cfg, s, t, a.id, t.tasks[a.id].pc);
      } else if a.Convert? && a.ok {
        PermitsSpawn(cfg, s, t, a.id, s.handler.key);
      } else {
        TasksUntouched(cfg, s, a);
      }
    }
  }

  lemma TaskStepPc(cfg: Config, s: State, a: Action)
    requires IsTaskAction(a) && !a.Notify? && Enabled(cfg, s, a)
    ensures var t := Step(cfg, s, a);
            && a.id in t.tasks && !t.tasks[a.id].pc.Waiting? && t.tasks == Go(s, a.id, t.tasks[a.id].pc).tasks
            && t.free == (if a.Acquire? then s.free - 1 else s.free)
            && (s.tasks[a.id].pc.Waiting? <==> a.Acquire?)
  {
  }

  lemma TasksUntouched(cfg: Config, s: State, a: Action)
    requires !IsTaskAction(a) && !(a.Convert? && a.ok)
    ensures Step(cfg, s, a).tasks == s.tasks && Step(cfg, s, a).free == s.free
  {
  }

  lemma {:induction false} PermitsConserved(cfg: Config, trace: seq<Action>)
    ensures PermitsOk(cfg, Run(cfg, Initial(cfg), trace))
  {
    if trace == [] {
      assert Holders(Initial(cfg).tasks) == {};
    } else {
      PermitsConserved(cfg, trace[..|trace| - 1]);
      PermitsStep(cfg, Run(cfg, Initial(cfg), trace[..|trace| - 1]), trace[|trace| - 1]);
    }
  }

  /** The next action of a task that holds a permit. */
  function NextOf(s: State, id: nat): Action
    requires id in s.tasks && !s.tasks[id].pc.Waiting?
  {
    match s.tasks[id].pc
    case Fetching => Load(id, false, false)
    case Fetched => CheckEvict(id)
    case Dropping => TaskDrop(id, true)
    case Clearing(_) => Clear(id)
    case Registering => Register(id, true)
    case Publishing => Publish(id)
    case Failing => Fail(id)
    case Notifying(_) => Notify(id)
  }

  ghost predicate TaskCanMove(cfg: Config, s: State) { exists a :: IsTaskAction(a) && Enabled(cfg, s, a) }

  lemma TasksCanMove(cfg: Config, s: State)
    requires PermitsOk(cfg, s) && cfg.permits > 0 && s.tasks != map[]
    ensures TaskCanMove(cfg, s)
  {
    if id :| id in Holders(s.tasks) {
      assert IsTaskAction(NextOf(s, id)) && Enabled(cfg, s, NextOf(s, id));
    } else {
      assert Holders(s.tasks) == {};
      var id :| id in s.tasks;
      assert id !in Holders(s.tasks);
      assert IsTaskAction(Acquire(id)) && Enabled(cfg, s, Acquire(id));
    }
  }

  /** No lost wakeup: a parked waiter has a load task to wait for, and some task can go on. */
  lemma ParkedCanBeWoken(cfg: Config, s: State)
    requires Sharded(cfg) && cfg.permits > 0 && Reachable(cfg, s) && s.waiter == Parked(true)
    ensures !s.stored && s.tasks != map[] && TaskCanMove(cfg, s)
  {
    var trace :| Run(cfg, Initial(cfg), trace) == s;
    DrainInvariant(cfg, trace);
    PermitsConserved(cfg, trace);
    TasksCanMove(cfg, s);
  }

  // ---------------------------------------------------------------------------
  // The tasks that are left when drain mode begins come to an end
  // ---------------------------------------------------------------------------

  /** An upper bound on the actions a task has yet to take. */
  function Remaining(pc: Pc): nat
  {
    match pc
    case Waiting => 7
    case Fetching => 6
    case Fetched => 5
    case Dropping => 4
    case Clearing(_) => 3
    case Registering => 4
    case Publishing => 3
    case Failing => 3
    case Notifying(_) => 1
  }

  ghost function Work(tasks: map<nat, Task>): nat
    decreases tasks.Keys
  {
    if tasks == map[] then 0
    else
      var i :| i in tasks;
      Remaining(tasks[i].pc) + Work(tasks - {i})
  }

  lemma {:induction false} WorkSplit(tasks: map<nat, Task>, i: nat)
    requires i in tasks
    ensures Work(tasks) == Remaining(tasks[i].pc) + Work(tasks - {i})
    decreases tasks.Keys
  {
    var j :| j in tasks && Work(tasks) == Remaining(tasks[j].pc) + Work(tasks - {j});
    if i != j {
      WorkSplit(tasks - {j}, i);
      WorkSplit(tasks - {i}, j);
      assert tasks - {j} - {i} == tasks - {i} - {j};
    }
  }

  lemma GoWork(s: State, id: nat, pc: Pc)
    requires id in s.tasks
    ensures Work(Go(s, id, pc).tasks) == Work(s.tasks) - Remaining(s.tasks[id].pc) + Remaining(pc)
  {
    var after := Go(s, id, pc).tasks;
    WorkSplit(s.tasks, id);
    WorkSplit(after, id);
    assert after - {id} == s.tasks - {id};
  }

  lemma WorkStep(cfg: Config, s: State, a: Action)
    requires s.draining && NoHalfAssignment(s) && Enabled(cfg, s, a)
    ensures var t := Step(cfg, s, a);
            if IsTaskAction(a) then Work(t.tasks) < Work(s.tasks) else t.tasks == s.tasks
  {
    var t := Step(cfg, s, a);
    if a.Notify? {
      WorkSplit(s.tasks, a.id);
    } else if IsTaskAction(a) {
      TaskStepPc(cfg, s, a);
      PcAdvances(cfg, s, a);
      GoWork(s, a.id, t.tasks[a.id].pc);
    } else {
      TasksUntouched(cfg, s, a);
    }
  }

  lemma PcAdvances(cfg: Config, s: State, a: Action)
    requires IsTaskAction(a) && !a.Notify? && Enabled(cfg, s, a)
    ensures a.id in Step(cfg, s, a).tasks && Remaining(Step(cfg, s, a).tasks[a.id].pc) < Remaining(s.tasks[a.id].pc)
  {
  }

  /** The task actions that take effect along a run. */
  function TaskActions(cfg: Config, s: State, trace: seq<Action>): nat
  {
    if trace == [] then 0
    else
      var n := |trace| - 1;
      TaskActions(cfg, s, trace[..n])
      + (if IsTaskAction(trace[n]) && Enabled(cfg, Run(cfg, s, trace[..n]), trace[n]) then 1 else 0)
  }

  /** In drain mode a run holds a bounded number of task actions. */
  lemma {:induction false} DrainIsBounded(cfg: Config, s: State, trace: seq<Action>)
    requires s.draining && NoHalfAssignment(s)
    ensures TaskActions(cfg, s, trace) + Work(Run(cfg, s, trace).tasks) <= Work(s.tasks)
  {
    if trace != [] {
      var n := |trace| - 1;
      DrainIsBounded(cfg, s, trace[..n]);
      DrainOnlyShrinks(cfg, s, trace[..n]);
      var t := Run(cfg, s, trace[..n]);
      if Enabled(cfg, t, trace[n]) {
        WorkStep(cfg, t, trace[n]);
      }
    }
  }

  lemma SinceDrainStep(cfg: Config, s: State, a: Action)
    requires s.draining && SinceDrain(s.waiter)
    ensures Step(cfg, s, a).draining && SinceDrain(Step(cfg, s, a).waiter)
  {
  }

  lemma {:induction false} StaysSinceDrain(cfg: Config, s: State, trace: seq<Action>)
    requires s.draining && SinceDrain(s.waiter)
    ensures Run(cfg, s, trace).draining && SinceDrain(Run(cfg, s, trace).waiter)
  {
    if trace != [] {
      StaysSinceDrain(cfg, s, trace[..|trace| - 1]);
      SinceDrainStep(cfg, Run(cfg, s, trace[..|trace| - 1]), trace[|trace| - 1]);
    }
  }

  /** A waiter that is parked in drain mode is not parked any more once the tasks have done their work. */
  lemma ParkedIsWoken(cfg: Config, s: State, trace: seq<Action>)
    requires Sharded(cfg) && Reachable(cfg, s) && s.waiter == Parked(true)
    requires TaskActions(cfg, s, trace) >= Work(s.tasks)
    ensures !Run(cfg, s, trace).waiter.Parked?
  {
    var whole :| Run(cfg, Initial(cfg), whole) == s;
    DrainInvariant(cfg, whole);
    DrainIsBounded(cfg, s, trace);
    StaysSinceDrain(cfg, s, trace);
    var t := Run(cfg, s, trace);
    ReachRun(cfg, s, trace);
    if t.waiter.Parked? {
      var all :| Run(cfg, Initial(cfg), all) == t;
      DrainInvariant(cfg, all);
    }
  }

  // ---------------------------------------------------------------------------
  // A waiter that is called before drain mode
  // ---------------------------------------------------------------------------

  /** Parked with no task left and nothing to be assigned. */
  predicate Hung(s: State) { s.waiter.Parked? && s.tasks == map[] && s.draining && NoHalfAssignment(s) }

  lemma {:induction false} HungForever(cfg: Config, s: State, trace: seq<Action>)
    requires Hung(s)
    ensures Hung(Run(cfg, s, trace))
  {
    if trace != [] {
      HungForever(cfg, s, trace[..|trace| - 1]);
      var t, a := Run(cfg, s, trace[..|trace| - 1]), trace[|trace| - 1];
      NothingStartsLoading(cfg, t, a);
      HungStep(cfg, t, a);
    }
  }

  lemma HungStep(cfg: Config, s: State, a: Action)
    requires Hung(s)
    ensures Step(cfg, s, a).waiter == s.waiter && Step(cfg, s, a).tasks == map[]
  {
  }

  lemma {:induction false} ReachSeen(cfg: Config, s: State, k: Key)
    requires Reachable(cfg, s) && s.waiter.Scanning? && s.waiter.shard <= cfg.shards
    requires IsPhase(s, k, Loading) && cfg.shardOf(k) < cfg.shards
    requires s.waiter.found || s.waiter.shard <= cfg.shardOf(k)
    ensures Reachable(cfg, s.(waiter := Parking(s.waiter.drained)))
    decreases cfg.shards - s.waiter.shard
  {
    if s.waiter.shard < cfg.shards {
      ReachStep(cfg, s, ScanShard);
      var t := Step(cfg, s, ScanShard);
      if s.waiter.shard == cfg.shardOf(k) {
        assert LoadingIn(cfg, s, s.waiter.shard);
      }
      ReachSeen(cfg, t, k);
      assert t.(waiter := Parking(s.waiter.drained)) == s.(waiter := Parking(s.waiter.drained));
    } else {
      ReachStep(cfg, s, EndScan);
    }
  }

  /**
   Called before Drain, the waiter can see the Loading phase of an assignment whose conversion then fails:
   that removal is not notified, and the waiter waits for ever.
   */
  lemma EarlyWaiterCanHang(cfg: Config, k: Key) returns (s: State)
    requires Sharded(cfg)
    ensures Reachable(cfg, s) && Hung(s) && s.waiter == Parked(false) && LoadingKeys(s) == {}
  {
    ReachStart(cfg);
    var s0 := Initial(cfg);
    ReachStep(cfg, s0, Assign(k));
    ReachStep(cfg, s0.(handler := Checking(k)), CheckPhase);
    ReachStep(cfg, s0.(handler := Inserting(k)), InsertLoading);
    var s1 := s0.(phases := map[k := Loading], handler := Converting(k));
    ReachStep(cfg, s1, Wait);
    var s2 := s1.(waiter := Scanning(0, false, false));
    ReachSeen(cfg, s2, k);
    s := HangFrom(cfg, k, s1.(waiter := Parking(false)));
  }

  lemma HangFrom(cfg: Config, k: Key, s: State) returns (t: State)
    requires Reachable(cfg, s)
    requires s == Initial(cfg).(phases := map[k := Loading], handler := Converting(k), waiter := Parking(false))
    ensures Reachable(cfg, t) && Hung(t) && t.waiter == Parked(false) && LoadingKeys(t) == {}
  {
    ReachStep(cfg, s, Convert(0, false));
    var s1 := Initial(cfg).(waiter := Parking(false));
    assert Step(cfg, s, Convert(0, false)) == s1;
    ReachStep(cfg, s1, Park);
    var s2 := s1.(waiter := Parked(false));
    ReachStep(cfg, s2, Drain);
    t := s2.(draining := true);
  }

  /** A parked waiter always has a task that can go on exactly when it was called in drain mode. */
  lemma NoLostWakeupIff(cfg: Config, drained: bool)
    requires Sharded(cfg) && cfg.permits > 0
    ensures (forall s :: Reachable(cfg, s) && s.waiter == Parked(drained) ==> TaskCanMove(cfg, s)) <==> drained
  {
    if drained {
      forall s | Reachable(cfg, s) && s.waiter == Parked(true) ensures TaskCanMove(cfg, s) {
        ParkedCanBeWoken(cfg, s);
      }
    } else {
      var s := EarlyWaiterCanHang(cfg, "k");
      assert !TaskCanMove(cfg, s);
    }
  }
}
