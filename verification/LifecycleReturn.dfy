/**
 What the return of wait_for_drain leaves behind.  The waiter looks for Loading epochs only, so the load of an
 epoch that is being evicted can outlive the wait; this file says exactly when.
 */
module LifecycleReturn {
  import opened Common
  import opened Lifecycle
  import opened LifecycleKeys
  import opened LifecycleDrain

  /** Loads may still be running when the waiter returns, but only those of epochs being evicted. */
  lemma ReturnLeavesOnlyEvicting(cfg: Config, s: State, k: Key)
    requires Sharded(cfg) && cfg.exclusive && Reachable(cfg, s) && s.waiter == Returned(true) && Busy(s, k)
    ensures IsPhase(s, k, Evicting)
  {
    var trace :| Run(cfg, Initial(cfg), trace) == s;
    DrainInvariant(cfg, trace);
    EpochInvariant(cfg, trace, k);
    var id :| id in s.tasks && s.tasks[id].key == k && Outstanding(s.tasks[id].pc);
    var l := LocalOf(s, k);
    assert id in l.tasks && TaskOk(l, l.tasks[id]);
    assert k !in LoadingKeys(s);
  }

  /** A run without a new eviction command. */
  predicate NoEvict(trace: seq<Action>) { forall i :: 0 <= i < |trace| ==> !trace[i].Evict? }

  ghost predicate Leads(cfg: Config, s: State, t: State)
  {
    exists trace :: NoEvict(trace) && Run(cfg, s, trace) == t
  }

  lemma LeadsNowhere(cfg: Config, s: State)
    ensures Leads(cfg, s, s)
  {
    assert NoEvict([]) && Run(cfg, s, []) == s;
  }

  lemma LeadsOn(cfg: Config, s: State, t: State, a: Action)
    requires Leads(cfg, s, t) && !a.Evict?
    ensures Leads(cfg, s, Step(cfg, t, a))
  {
    var trace :| NoEvict(trace) && Run(cfg, s, trace) == t;
    assert (trace + [a])[..|trace|] == trace;
    assert NoEvict(trace + [a]) && Run(cfg, s, trace + [a]) == Step(cfg, t, a);
  }

  lemma LeadsReachable(cfg: Config, s: State, t: State)
    requires Reachable(cfg, s) && Leads(cfg, s, t)
    ensures Reachable(cfg, t)
  {
    var trace :| NoEvict(trace) && Run(cfg, s, trace) == t;
    ReachRun(cfg, s, trace);
  }

  /** The wait ends although some load has not. */
  ghost predicate EarlyReturn(s: State) { s.waiter == Returned(true) && exists k :: Busy(s, k) }

  // ---------------------------------------------------------------------------
  // What can be seen before the call
  // ---------------------------------------------------------------------------

  /** The load of an epoch that is being evicted, or for which the handler is about to say so. */
  predicate AtRisk(s: State, k: Key) { Busy(s, k) && (IsPhase(s, k, Evicting) || s.handler == Marking(k)) }

  /** The epoch counts as Loading until its own load ends. */
  predicate StaysLoading(s: State, k: Key) { IsPhase(s, k, Loading) && s.handler != Marking(k) }

  predicate Holds(s: State, k: Key)
  {
    exists i :: i in s.tasks && s.tasks[i].key == k && Outstanding(s.tasks[i].pc) && !s.tasks[i].pc.Waiting?
  }

  /** The waiter has nothing to wait for, or all it waits for can end without the permit of this epoch. */
  ghost predicate CanOvertake(cfg: Config, s: State, k: Key)
  {
    (forall x :: !StaysLoading(s, x)) || cfg.permits >= 2 || (cfg.permits == 1 && !Holds(s, k))
  }

  // ---------------------------------------------------------------------------
  // Backwards from an early return
  // ---------------------------------------------------------------------------

  /** In drain mode a step starts no load, takes no permit back and, without an eviction, adds no risk. */
  lemma TasksOnlyAge(cfg: Config, s: State, a: Action, i: nat)
    requires s.draining && NoHalfAssignment(s) && i in Step(cfg, s, a).tasks
    ensures i in s.tasks && s.tasks[i].key == Step(cfg, s, a).tasks[i].key
    ensures Outstanding(Step(cfg, s, a).tasks[i].pc) ==> Outstanding(s.tasks[i].pc)
    ensures Step(cfg, s, a).tasks[i].pc.Waiting? ==> s.tasks[i].pc.Waiting?
  {
  }

  lemma BusyBefore(cfg: Config, s: State, a: Action, k: Key)
    requires s.draining && NoHalfAssignment(s) && Busy(Step(cfg, s, a), k)
    ensures Busy(s, k)
  {
    var t := Step(cfg, s, a);
    var i :| i in t.tasks && t.tasks[i].key == k && Outstanding(t.tasks[i].pc);
    TasksOnlyAge(cfg, s, a, i);
  }

  lemma RiskBefore(cfg: Config, s: State, a: Action, k: Key)
    requires s.draining && NoHalfAssignment(s) && !a.Evict? && AtRisk(Step(cfg, s, a), k)
    ensures AtRisk(s, k)
  {
    BusyBefore(cfg, s, a, k);
  }

  lemma {:induction false} RiskFromStart(cfg: Config, s: State, trace: seq<Action>, k: Key)
    requires s.draining && NoHalfAssignment(s) && NoEvict(trace) && AtRisk(Run(cfg, s, trace), k)
    ensures AtRisk(s, k)
  {
    if trace != [] {
      var n := |trace| - 1;
      DrainOnlyShrinks(cfg, s, trace[..n]);
      RiskBefore(cfg, Run(cfg, s, trace[..n]), trace[n], k);
      RiskFromStart(cfg, s, trace[..n], k);
    }
  }

  /** An epoch has at most one load that is not over. */
  lemma OneLoadEach(cfg: Config, s: State, k: Key, i: nat, j: nat)
    requires cfg.exclusive && Reachable(cfg, s) && i in s.tasks && j in s.tasks
    requires s.tasks[i].key == k && s.tasks[j].key == k && Outstanding(s.tasks[i].pc) && Outstanding(s.tasks[j].pc)
    ensures i == j
  {
    var trace :| Run(cfg, Initial(cfg), trace) == s;
    EpochInvariant(cfg, trace, k);
    var l := LocalOf(s, k);
    assert i in l.tasks && j in l.tasks;
  }

  lemma HoldsOn(cfg: Config, s: State, a: Action, k: Key)
    requires cfg.exclusive && Reachable(cfg, s) && s.draining && NoHalfAssignment(s)
    requires Holds(s, k) && Busy(Step(cfg, s, a), k)
    ensures Holds(Step(cfg, s, a), k)
  {
    var t := Step(cfg, s, a);
    var i :| i in s.tasks && s.tasks[i].key == k && Outstanding(s.tasks[i].pc) && !s.tasks[i].pc.Waiting?;
    var j :| j in t.tasks && t.tasks[j].key == k && Outstanding(t.tasks[j].pc);
    TasksOnlyAge(cfg, s, a, j);
    OneLoadEach(cfg, s, k, i, j);
  }

  /** Nobody but the load of `k` has a permit, and there is none to be had. */
  ghost predicate Starved(cfg: Config, s: State, k: Key)
  {
    cfg.permits == 0 || (cfg.permits == 1 && Holds(s, k))
  }

  lemma OthersWait(cfg: Config, s: State, k: Key)
    requires PermitsOk(cfg, s) && Starved(cfg, s, k)
    ensures s.free == 0
    ensures forall i :: i in s.tasks && s.tasks[i].key != k ==> s.tasks[i].pc.Waiting?
  {
    var h := Holders(s.tasks);
    forall i | i in s.tasks && s.tasks[i].key != k ensures s.tasks[i].pc.Waiting? {
      if i in h {
        SubsetSize({i}, h);
        var j :| j in s.tasks && s.tasks[j].key == k && Outstanding(s.tasks[j].pc) && !s.tasks[j].pc.Waiting?;
        AtMostOne(h, i, j);
      }
    }
    if cfg.permits == 1 {
      var j :| j in s.tasks && s.tasks[j].key == k && Outstanding(s.tasks[j].pc) && !s.tasks[j].pc.Waiting?;
      assert j in h;
    }
  }

  lemma AtMostOne(h: set<nat>, i: nat, j: nat)
    requires i in h && j in h && |h| <= 1
    ensures i == j
  {
    SubsetSize({i, j}, h);
  }

  /** An epoch whose tasks all wait for a permit, when there is none, and which no command is about. */
  lemma StuckStep(cfg: Config, s: State, a: Action, x: Key)
    requires s.draining && !a.Evict? && s.free == 0 && StaysLoading(s, x) && LocalOf(s, x).hand.NoHand?
    requires forall i :: i in s.tasks && s.tasks[i].key == x ==> s.tasks[i].pc.Waiting?
    ensures StaysLoading(Step(cfg, s, a), x)
  {
    StepRefines(cfg, s, a, x);
  }

  lemma StarvedStep(cfg: Config, s: State, a: Action, k: Key, x: Key)
    requires Sharded(cfg) && cfg.exclusive && Reachable(cfg, s) && s.draining && !a.Evict?
    requires x != k && StaysLoading(s, x) && Starved(cfg, s, k)
    ensures StaysLoading(Step(cfg, s, a), x)
  {
    var trace :| Run(cfg, Initial(cfg), trace) == s;
    EpochInvariant(cfg, trace, x);
    DrainInvariant(cfg, trace);
    PermitsConserved(cfg, trace);
    OthersWait(cfg, s, k);
    StuckLocally(s, x);
    StuckStep(cfg, s, a, x);
  }

  /** The command being handled is not about an epoch that stays Loading. */
  lemma StuckLocally(s: State, x: Key)
    requires s.draining && NoHalfAssignment(s) && LocalInv(LocalOf(s, x)) && StaysLoading(s, x)
    ensures LocalOf(s, x).hand.NoHand?
  {
    var l := LocalOf(s, x);
    assert LoadingOwned(l) && Pending(l);
    var i :| i in l.tasks && Outstanding(l.tasks[i]);
    assert TaskOk(l, l.tasks[i]);
  }

  lemma {:induction false} StarvedForever(cfg: Config, s: State, trace: seq<Action>, k: Key, x: Key)
    requires Sharded(cfg) && cfg.exclusive && Reachable(cfg, s) && s.draining && NoHalfAssignment(s) && NoEvict(trace)
    requires x != k && StaysLoading(s, x) && Starved(cfg, s, k) && Busy(Run(cfg, s, trace), k)
    ensures StaysLoading(Run(cfg, s, trace), x) && Starved(cfg, Run(cfg, s, trace), k)
  {
    if trace != [] {
      var n := |trace| - 1;
      var t := Run(cfg, s, trace[..n]);
      DrainOnlyShrinks(cfg, s, trace[..n]);
      ReachRun(cfg, s, trace[..n]);
      BusyBefore(cfg, t, trace[n], k);
      StarvedForever(cfg, s, trace[..n], k, x);
      StarvedStep(cfg, t, trace[n], k, x);
      if Holds(t, k) {
        HoldsOn(cfg, t, trace[n], k);
      }
    }
  }

  lemma ReturnNeedsOvertaking(cfg: Config, s: State, trace: seq<Action>, k: Key)
    requires Sharded(cfg) && cfg.exclusive && Reachable(cfg, s) && s.draining && NoHalfAssignment(s) && NoEvict(trace)
    requires Run(cfg, s, trace).waiter == Returned(true) && Busy(Run(cfg, s, trace), k) && AtRisk(s, k)
    ensures CanOvertake(cfg, s, k)
  {
    if !CanOvertake(cfg, s, k) {
      var x :| StaysLoading(s, x);
      StarvedForever(cfg, s, trace, k, x);
      assert x in LoadingKeys(Run(cfg, s, trace));
      ReachRun(cfg, s, trace);
      ReturnMeansNothingLoading(cfg, Run(cfg, s, trace), []);
    }
  }

  lemma EarlyReturnOnlyIf(cfg: Config, s: State, trace: seq<Action>, k: Key)
    requires Sharded(cfg) && cfg.exclusive && Reachable(cfg, s) && s.draining && NoEvict(trace)
    requires Run(cfg, s, trace).waiter == Returned(true) && Busy(Run(cfg, s, trace), k)
    ensures AtRisk(s, k) && CanOvertake(cfg, s, k)
  {
    var before :| Run(cfg, Initial(cfg), before) == s;
    DrainInvariant(cfg, before);
    ReachRun(cfg, s, trace);
    ReturnLeavesOnlyEvicting(cfg, Run(cfg, s, trace), k);
    RiskFromStart(cfg, s, trace, k);
    ReturnNeedsOvertaking(cfg, s, trace, k);
  }

  // ---------------------------------------------------------------------------
  // Forwards to an early return
  // ---------------------------------------------------------------------------

  /** The load `id` of an epoch that is being evicted, while everything else is brought to its end. */
  ghost predicate Overtaken(cfg: Config, s: State, k: Key, id: nat)
  {
    && s.draining && s.waiter.Away? && Reachable(cfg, s) && IsPhase(s, k, Evicting)
    && id in s.tasks && s.tasks[id].key == k && Outstanding(s.tasks[id].pc)
    && (cfg.permits >= 2 || (cfg.permits == 1 && s.tasks[id].pc.Waiting?))
  }

  /** An action of another task that can be taken. */
  ghost predicate Advances(cfg: Config, s: State, a: Action, id: nat)
  {
    IsTaskAction(a) && Enabled(cfg, s, a) && a.id != id
  }

  lemma OtherCanMove(cfg: Config, s: State, k: Key, id: nat, other: nat) returns (a: Action)
    requires Overtaken(cfg, s, k, id) && other in s.tasks && other != id
    ensures Advances(cfg, s, a, id)
  {
    var trace :| Run(cfg, Initial(cfg), trace) == s;
    PermitsConserved(cfg, trace);
    if i :| i in Holders(s.tasks) && i != id {
      a := NextOf(s, i);
    } else {
      assert Holders(s.tasks) <= {id};
      SubsetSize(Holders(s.tasks), {id});
      assert other !in Holders(s.tasks);
      assert !(id in Holders(s.tasks)) ==> Holders(s.tasks) == {};
      a := Acquire(other);
    }
  }

  lemma OtherKeepsPhase(cfg: Config, s: State, k: Key, a: Action)
    requires IsTaskAction(a) && Enabled(cfg, s, a) && (s.tasks[a.id].key != k || a.Notify?)
    ensures IsPhase(Step(cfg, s, a), k, Evicting) == IsPhase(s, k, Evicting)
  {
  }

  lemma OtherKeepsTask(cfg: Config, s: State, a: Action, id: nat)
    requires Advances(cfg, s, a, id) && id in s.tasks
    ensures var t := Step(cfg, s, a);
            && id in t.tasks && t.tasks[id] == s.tasks[id] && t.draining == s.draining
            && (s.waiter.Away? ==> t.waiter.Away?)
  {
  }

  lemma OtherMoves(cfg: Config, s: State, k: Key, id: nat, a: Action)
    requires cfg.exclusive && Overtaken(cfg, s, k, id) && Advances(cfg, s, a, id)
    ensures Overtaken(cfg, Step(cfg, s, a), k, id)
  {
    ReachStep(cfg, s, a);
    OtherKeepsTask(cfg, s, a, id);
    if s.tasks[a.id].key == k && Outstanding(s.tasks[a.id].pc) {
      OneLoadEach(cfg, s, k, id, a.id);
    } else {
      OtherKeepsPhase(cfg, s, k, a);
    }
  }

  lemma {:induction false} OthersFinish(cfg: Config, s0: State, s: State, k: Key, id: nat) returns (t: State)
    requires Sharded(cfg) && cfg.exclusive && Leads(cfg, s0, s) && Overtaken(cfg, s, k, id)
    ensures Leads(cfg, s0, t) && Overtaken(cfg, t, k, id) && t.tasks.Keys == {id}
    decreases Work(s.tasks)
  {
    if other :| other in s.tasks && other != id {
      var a := OtherCanMove(cfg, s, k, id, other);
      OtherMoves(cfg, s, k, id, a);
      LeadsOn(cfg, s0, s, a);
      var trace :| Run(cfg, Initial(cfg), trace) == s;
      DrainInvariant(cfg, trace);
      WorkStep(cfg, s, a);
      t := OthersFinish(cfg, s0, Step(cfg, s, a), k, id);
    } else {
      t := s;
      assert s.tasks.Keys == {id};
    }
  }

  lemma LastOneLeft(cfg: Config, s: State, k: Key, id: nat)
    requires Sharded(cfg) && Overtaken(cfg, s, k, id) && s.tasks.Keys == {id}
    ensures LoadingKeys(s) == {}
  {
    var trace :| Run(cfg, Initial(cfg), trace) == s;
    DrainInvariant(cfg, trace);
    assert forall i :: i in s.tasks ==> i in s.tasks.Keys && i == id;
    assert forall x :: Busy(s, x) ==> x == k;
    assert k !in LoadingKeys(s);
  }

  lemma {:induction false} ScanFindsNothing(cfg: Config, s0: State, s: State)
    requires Leads(cfg, s0, s) && s.waiter.Scanning? && !s.waiter.found && LoadingKeys(s) == {}
    requires s.waiter.shard <= cfg.shards
    ensures Leads(cfg, s0, s.(waiter := Returned(s.waiter.drained)))
    decreases cfg.shards - s.waiter.shard
  {
    if s.waiter.shard < cfg.shards {
      LeadsOn(cfg, s0, s, ScanShard);
      if LoadingIn(cfg, s, s.waiter.shard) {
        var k :| k in s.phases && s.phases[k] == Loading && cfg.shardOf(k) == s.waiter.shard;
        assert k in LoadingKeys(s);
      }
      var t := s.(waiter := s.waiter.(shard := s.waiter.shard + 1));
      assert LoadingKeys(t) == LoadingKeys(s);
      ScanFindsNothing(cfg, s0, t);
    } else {
      LeadsOn(cfg, s0, s, EndScan);
    }
  }

  /** With nothing Loading, a call returns at once, whatever is still running. */
  lemma CallReturns(cfg: Config, s0: State, s: State, k: Key) returns (t: State)
    requires Leads(cfg, s0, s) && s.draining && s.waiter.Away? && LoadingKeys(s) == {} && Busy(s, k)
    ensures Leads(cfg, s0, t) && EarlyReturn(t) && Busy(t, k)
  {
    LeadsOn(cfg, s0, s, Wait);
    var scan := s.(waiter := Scanning(0, false, true));
    assert LoadingKeys(scan) == LoadingKeys(s);
    ScanFindsNothing(cfg, s0, scan);
    t := scan.(waiter := Returned(true));
    var i :| i in s.tasks && s.tasks[i].key == k && Outstanding(s.tasks[i].pc);
    assert i in t.tasks && Busy(t, k);
  }

  /** After the pending mark, if there is one, exactly the epochs that stay Loading are Loading. */
  lemma MarkFirst(cfg: Config, s: State, k: Key) returns (t: State)
    requires AtRisk(s, k)
    ensures Leads(cfg, s, t) && t == s.(phases := t.phases, handler := t.handler) && IsPhase(t, k, Evicting)
    ensures forall x :: x in LoadingKeys(t) <==> StaysLoading(s, x)
  {
    LeadsNowhere(cfg, s);
    t := s;
    if s.handler.Marking? {
      LeadsOn(cfg, s, s, Mark);
      t := Step(cfg, s, Mark);
    }
  }

  lemma EarlyReturnIf(cfg: Config, s: State, k: Key) returns (t: State)
    requires Sharded(cfg) && cfg.exclusive && Reachable(cfg, s) && s.draining && s.waiter.Away?
    requires AtRisk(s, k) && CanOvertake(cfg, s, k)
    ensures Leads(cfg, s, t) && EarlyReturn(t)
  {
    var marked := MarkFirst(cfg, s, k);
    var id :| id in s.tasks && s.tasks[id].key == k && Outstanding(s.tasks[id].pc);
    assert Busy(marked, k);
    if forall x :: !StaysLoading(s, x) {
      t := CallReturns(cfg, s, marked, k);
    } else {
      LeadsReachable(cfg, s, marked);
      assert Overtaken(cfg, marked, k, id);
      var last := OthersFinish(cfg, s, marked, k, id);
      LastOneLeft(cfg, last, k, id);
      assert Busy(last, k);
      t := CallReturns(cfg, s, last, k);
    }
  }

  /**
   Before a call in drain mode, and with no eviction to come: some run returns while a load is in flight
   exactly when a load is at risk and all the waiter waits for can end without that load's permit.
   */
  lemma ReturnsEarlyIff(cfg: Config, s: State)
    requires Sharded(cfg) && cfg.exclusive && Reachable(cfg, s) && s.draining && s.waiter.Away?
    ensures (exists t :: Leads(cfg, s, t) && EarlyReturn(t)) <==> exists k :: AtRisk(s, k) && CanOvertake(cfg, s, k)
  {
    if t :| Leads(cfg, s, t) && EarlyReturn(t) {
      var trace :| NoEvict(trace) && Run(cfg, s, trace) == t;
      var k :| Busy(t, k);
      EarlyReturnOnlyIf(cfg, s, trace, k);
    }
    if k :| AtRisk(s, k) && CanOvertake(cfg, s, k) {
      var t := EarlyReturnIf(cfg, s, k);
    }
  }

  /** With no load at risk before the call and no eviction after it, a return means that every load is over. */
  lemma ReturnMeansLoadsOver(cfg: Config, s: State, trace: seq<Action>)
    requires Sharded(cfg) && cfg.exclusive && Reachable(cfg, s) && s.draining && NoEvict(trace)
    requires forall k :: !AtRisk(s, k)
    requires Run(cfg, s, trace).waiter == Returned(true)
    ensures forall k :: !Busy(Run(cfg, s, trace), k)
  {
    forall k | Busy(Run(cfg, s, trace), k) ensures false {
      EarlyReturnOnlyIf(cfg, s, trace, k);
    }
  }

  /** Such a wait exists: the waiter can return while a load is in flight. */
  lemma ReturnDuringLoad(cfg: Config, k: Key) returns (s: State)
    ensures Reachable(cfg, s) && EarlyReturn(s) && Busy(s, k)
  {
    ReachStart(cfg);
    var s0 := Initial(cfg);
    ReachStep(cfg, s0, Assign(k));
    ReachStep(cfg, s0.(handler := Checking(k)), CheckPhase);
    ReachStep(cfg, s0.(handler := Inserting(k)), InsertLoading);
    var s1 := s0.(phases := map[k := Loading], handler := Converting(k));
    ReachStep(cfg, s1, Convert(0, true));
    var s2 := s0.(phases := map[k := Loading], tasks := map[0 := Task(k, Waiting)]);
    ReachStep(cfg, s2, Evict(k));
    ReachStep(cfg, s2.(handler := Marking(k)), Mark);
    s := ReturnFrom(cfg, k, s2.(phases := map[k := Evicting]));
  }

  lemma ReturnFrom(cfg: Config, k: Key, s: State) returns (t: State)
    requires Reachable(cfg, s)
    requires s == Initial(cfg).(phases := map[k := Evicting], tasks := map[0 := Task(k, Waiting)])
    ensures Reachable(cfg, t) && EarlyReturn(t) && Busy(t, k)
  {
    ReachStep(cfg, s, Drain);
    var s1 := s.(draining := true);
    LeadsNowhere(cfg, s1);
    assert s1.tasks[0].key == k && Outstanding(s1.tasks[0].pc);
    assert LoadingKeys(s1) == {};
    t := CallReturns(cfg, s1, s1, k);
    LeadsReachable(cfg, s1, t);
  }

  // ---------------------------------------------------------------------------
  // A drain can always be completed
  // ---------------------------------------------------------------------------

  lemma {:induction false} AllFinish(cfg: Config, s0: State, s: State) returns (t: State)
    requires cfg.permits > 0 && PermitsOk(cfg, s) && Leads(cfg, s0, s)
    requires s.draining && NoHalfAssignment(s) && s.waiter.Away?
    ensures Leads(cfg, s0, t) && t.tasks == map[] && t.draining && NoHalfAssignment(t) && t.waiter.Away?
    decreases Work(s.tasks)
  {
    if s.tasks == map[] {
      t := s;
    } else {
      TasksCanMove(cfg, s);
      var a :| IsTaskAction(a) && Enabled(cfg, s, a);
      WorkStep(cfg, s, a);
      PermitsStep(cfg, s, a);
      NothingStartsLoading(cfg, s, a);
      LeadsOn(cfg, s0, s, a);
      t := AllFinish(cfg, s0, Step(cfg, s, a));
    }
  }

  /**
   Drain mode can be entered and waited for from every reachable state: some continuation ends every load and
   lets the waiter return with nothing Loading.
   */
  lemma DrainCanComplete(cfg: Config, s: State) returns (t: State)
    requires Sharded(cfg) && cfg.permits > 0 && Reachable(cfg, s) && s.handler.Idle? && s.waiter.Away?
    ensures Leads(cfg, s, t) && t.waiter == Returned(true) && t.tasks == map[] && LoadingKeys(t) == {}
  {
    var whole :| Run(cfg, Initial(cfg), whole) == s;
    PermitsConserved(cfg, whole);
    LeadsNowhere(cfg, s);
    LeadsOn(cfg, s, s, Drain);
    var u := AllFinish(cfg, s, Step(cfg, s, Drain));
    LeadsReachable(cfg, s, u);
    var all :| Run(cfg, Initial(cfg), all) == u;
    DrainInvariant(cfg, all);
    assert LoadingKeys(u) == {};
    LeadsOn(cfg, s, u, Wait);
    ScanFindsNothing(cfg, s, Step(cfg, u, Wait));
    t := u.(waiter := Returned(true));
  }
}
