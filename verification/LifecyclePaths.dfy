/**
 Whole commands from beginning to end, from any state: what a load that is not disturbed leaves behind, what
 an eviction takes away again, and that the two together leave every other epoch, and the semaphore, as they were.
 */
module LifecyclePaths {
  import opened Lifecycle
  import opened LifecycleEviction

  function Assignment(k: Key, id: nat): seq<Action> { [Assign(k), CheckPhase, InsertLoading, Convert(id, true)] }

  /** The actions of a load task that meets no error and no eviction. */
  function CleanLoad(id: nat): seq<Action>
  {
    [Acquire(id), Load(id, true, true), CheckEvict(id), Register(id, true), Publish(id), Notify(id)]
  }

  function BrokenLoad(id: nat, created: bool): seq<Action>
  {
    [Acquire(id), Load(id, false, created), Fail(id), Notify(id)]
  }

  /** The actions of a load task that finds its epoch marked. */
  function EvictedLoad(id: nat, dropped: bool): seq<Action>
  {
    [Acquire(id), Load(id, true, true), CheckEvict(id), TaskDrop(id, dropped), Clear(id), Notify(id)]
  }

  /** The actions of a load task whose table does not get into the scan macro. */
  function UnregisteredLoad(id: nat): seq<Action>
  {
    [Acquire(id), Load(id, true, true), CheckEvict(id), Register(id, false), Fail(id), Notify(id)]
  }

  function Eviction(k: Key, dropped: bool): seq<Action> { [Evict(k), Remove, DropTable(dropped)] }

  /** The tables after an attempt to drop that of the epoch. */
  function Without(s: State, k: Key, dropped: bool): set<Key> { if dropped then s.tables - {k} else s.tables }

  /** Equal but for the caller that waits for the drain and the notification stored for it. */
  predicate SameBut(s: State, t: State) { t == s.(stored := t.stored, waiter := t.waiter) }

  lemma {:induction false} RunAppend(cfg: Config, s: State, first: seq<Action>, second: seq<Action>)
    ensures Run(cfg, s, first + second) == Run(cfg, Run(cfg, s, first), second)
  {
    if second == [] {
      assert first + second == first;
    } else {
      var n := |second| - 1;
      RunAppend(cfg, s, first, second[..n]);
      assert (first + second)[..|first| + n] == first + second[..n];
    }
  }

  lemma RunThree(cfg: Config, s: State, a: Action, b: Action, c: Action)
    ensures Run(cfg, s, [a, b, c]) == Step(cfg, Step(cfg, Step(cfg, s, a), b), c)
  {
    assert [a, b, c] == [a, b] + [c];
    RunAppend(cfg, s, [a, b], [c]);
    RunTwo(cfg, s, a, b);
    RunOne(cfg, Run(cfg, s, [a, b]), c);
  }

  /** A worker that is not draining accepts an assignment of an idle epoch and spawns its load. */
  lemma AssignmentSpawns(cfg: Config, s: State, k: Key, id: nat)
    requires s.handler.Idle? && !s.draining && !Busy(s, k) && !IsPhase(s, k, Evicting) && id !in s.tasks
    ensures Run(cfg, s, Assignment(k, id))
            == s.(phases := s.phases[k := Loading], tasks := s.tasks[id := Task(k, Waiting)])
  {
    assert Assignment(k, id) == [Assign(k), CheckPhase] + [InsertLoading, Convert(id, true)];
    RunAppend(cfg, s, [Assign(k), CheckPhase], [InsertLoading, Convert(id, true)]);
    RunTwo(cfg, s, Assign(k), CheckPhase);
    RunTwo(cfg, s.(handler := Inserting(k)), InsertLoading, Convert(id, true));
  }

  /** The task has a permit and its table, and is about to look at the phase. */
  function WithTable(s: State, k: Key, id: nat): State
    requires s.free > 0
  {
    s.(tasks := s.tasks[id := Task(k, Fetched)], free := s.free - 1, committed := s.committed + {k},
       tables := s.tables + {k})
  }

  lemma FetchStores(cfg: Config, s: State, k: Key, id: nat)
    requires At(s, id, Waiting) && s.tasks[id].key == k && s.free > 0 && k !in s.committed
    ensures Run(cfg, s, [Acquire(id), Load(id, true, true)]) == WithTable(s, k, id)
  {
    RunTwo(cfg, s, Acquire(id), Load(id, true, true));
    assert s.tasks[id := Task(k, Fetching)][id := Task(k, Fetched)] == s.tasks[id := Task(k, Fetched)];
  }

  lemma StoredPublishes(cfg: Config, s: State, k: Key, id: nat)
    requires At(s, id, Fetched) && s.tasks[id].key == k && !IsPhase(s, k, Evicting)
    ensures Run(cfg, s, [CheckEvict(id), Register(id, true), Publish(id)])
            == s.(phases := s.phases[k := Active], tasks := s.tasks[id := Task(k, Notifying(Completed))])
  {
    RunThree(cfg, s, CheckEvict(id), Register(id, true), Publish(id));
    var s1 := Step(cfg, s, CheckEvict(id));
    assert s1 == s.(tasks := s.tasks[id := Task(k, Registering)]);
    var s2 := Step(cfg, s1, Register(id, true));
    assert s2 == s.(tasks := s.tasks[id := Task(k, Publishing)]);
    assert s2.tasks[id := Task(k, Notifying(Completed))] == s.tasks[id := Task(k, Notifying(Completed))];
  }

  lemma MarkedClears(cfg: Config, s: State, k: Key, id: nat, dropped: bool)
    requires At(s, id, Fetched) && s.tasks[id].key == k && IsPhase(s, k, Evicting) && k in s.committed
    ensures Run(cfg, s, [CheckEvict(id), TaskDrop(id, dropped), Clear(id)])
            == s.(phases := s.phases - {k}, committed := s.committed - {k}, tables := Without(s, k, dropped),
                  tasks := s.tasks[id := Task(k, Notifying(Evicted(dropped)))])
  {
    RunThree(cfg, s, CheckEvict(id), TaskDrop(id, dropped), Clear(id));
    MarkedDrops(cfg, s, k, id, dropped);
    var s2 := Step(cfg, Step(cfg, s, CheckEvict(id)), TaskDrop(id, dropped));
    assert s2.tasks[id := Task(k, Notifying(Evicted(dropped)))] == s.tasks[id := Task(k, Notifying(Evicted(dropped)))];
  }

  lemma MarkedDrops(cfg: Config, s: State, k: Key, id: nat, dropped: bool)
    requires At(s, id, Fetched) && s.tasks[id].key == k && IsPhase(s, k, Evicting) && k in s.committed
    ensures Step(cfg, Step(cfg, s, CheckEvict(id)), TaskDrop(id, dropped))
            == s.(committed := s.committed - {k}, tables := Without(s, k, dropped),
                  tasks := s.tasks[id := Task(k, Clearing(dropped))])
  {
    var s1 := Step(cfg, s, CheckEvict(id));
    assert s1 == s.(tasks := s.tasks[id := Task(k, Dropping)]);
    assert s1.tasks[id := Task(k, Clearing(dropped))] == s.tasks[id := Task(k, Clearing(dropped))];
  }

  lemma UnregisteredFails(cfg: Config, s: State, k: Key, id: nat)
    requires At(s, id, Fetched) && s.tasks[id].key == k && !IsPhase(s, k, Evicting)
    ensures Run(cfg, s, [CheckEvict(id), Register(id, false), Fail(id)])
            == s.(phases := s.phases - {k}, tasks := s.tasks[id := Task(k, Notifying(Failed))])
  {
    RunThree(cfg, s, CheckEvict(id), Register(id, false), Fail(id));
    var s1 := Step(cfg, s, CheckEvict(id));
    assert s1 == s.(tasks := s.tasks[id := Task(k, Registering)]);
    var s2 := Step(cfg, s1, Register(id, false));
    assert s2 == s.(tasks := s.tasks[id := Task(k, Failing)]);
    assert s2.tasks[id := Task(k, Notifying(Failed))] == s.tasks[id := Task(k, Notifying(Failed))];
  }

  lemma NotifyEnds(cfg: Config, s: State, id: nat, outcome: Outcome)
    requires At(s, id, Notifying(outcome))
    ensures SameBut(s.(tasks := s.tasks - {id}, free := s.free + 1), Run(cfg, s, [Notify(id)]))
  {
    RunOne(cfg, s, Notify(id));
  }

  /** A load that is not disturbed makes its epoch Active, with entry and table, and touches nothing else. */
  lemma LoadCompletes(cfg: Config, s: State, k: Key, id: nat)
    requires s.handler.Idle? && !s.draining && !Busy(s, k) && !IsPhase(s, k, Evicting) && id !in s.tasks
    requires k !in s.committed && s.free > 0
    ensures SameBut(s.(phases := s.phases[k := Active], committed := s.committed + {k}, tables := s.tables + {k}),
                    Run(cfg, s, Assignment(k, id) + CleanLoad(id)))
  {
    var s1 := Run(cfg, s, Assignment(k, id));
    AssignmentSpawns(cfg, s, k, id);
    RunAppend(cfg, s, Assignment(k, id), CleanLoad(id));
    CleanLoadRuns(cfg, s1, k, id);
    assert s1.phases[k := Active] == s.phases[k := Active];
    assert s1.tasks - {id} == s.tasks;
  }

  lemma CleanLoadRuns(cfg: Config, s: State, k: Key, id: nat)
    requires At(s, id, Waiting) && s.tasks[id].key == k && s.free > 0 && k !in s.committed && !IsPhase(s, k, Evicting)
    ensures SameBut(s.(phases := s.phases[k := Active], committed := s.committed + {k}, tables := s.tables + {k},
                       tasks := s.tasks - {id}),
                    Run(cfg, s, CleanLoad(id)))
  {
    var fetch, publish := [Acquire(id), Load(id, true, true)], [CheckEvict(id), Register(id, true), Publish(id)];
    assert CleanLoad(id) == fetch + publish + [Notify(id)];
    RunAppend(cfg, s, fetch + publish, [Notify(id)]);
    RunAppend(cfg, s, fetch, publish);
    FetchStores(cfg, s, k, id);
    var s1 := WithTable(s, k, id);
    StoredPublishes(cfg, s1, k, id);
    var s2 := Run(cfg, s1, publish);
    NotifyEnds(cfg, s2, id, Completed);
    assert s2.tasks - {id} == s.tasks - {id};
  }

  lemma BrokenLoadFails(cfg: Config, s: State, k: Key, id: nat, created: bool)
    requires At(s, id, Waiting) && s.tasks[id].key == k && s.free > 0
    ensures Run(cfg, s, [Acquire(id), Load(id, false, created), Fail(id)])
            == s.(phases := s.phases - {k}, tables := if created then s.tables + {k} else s.tables,
                  tasks := s.tasks[id := Task(k, Notifying(Failed))], free := s.free - 1)
  {
    RunThree(cfg, s, Acquire(id), Load(id, false, created), Fail(id));
    var s1 := Step(cfg, s, Acquire(id));
    assert s1 == s.(tasks := s.tasks[id := Task(k, Fetching)], free := s.free - 1);
    var s2 := Step(cfg, s1, Load(id, false, created));
    assert s2.tasks == s.tasks[id := Task(k, Failing)];
    assert s2.tasks[id := Task(k, Notifying(Failed))] == s.tasks[id := Task(k, Notifying(Failed))];
  }

  /** A load that fails leaves no phase; of the engine's state only a table that was created stays. */
  lemma BrokenLoadRuns(cfg: Config, s: State, k: Key, id: nat, created: bool)
    requires At(s, id, Waiting) && s.tasks[id].key == k && s.free > 0
    ensures SameBut(s.(phases := s.phases - {k}, tables := if created then s.tables + {k} else s.tables,
                       tasks := s.tasks - {id}),
                    Run(cfg, s, BrokenLoad(id, created)))
  {
    var broken := [Acquire(id), Load(id, false, created), Fail(id)];
    assert BrokenLoad(id, created) == broken + [Notify(id)];
    RunAppend(cfg, s, broken, [Notify(id)]);
    BrokenLoadFails(cfg, s, k, id, created);
    var s1 := Run(cfg, s, broken);
    NotifyEnds(cfg, s1, id, Failed);
    assert s1.tasks - {id} == s.tasks - {id};
  }

  /** A load that cannot be registered leaves entry and table behind, but no phase. */
  lemma UnregisteredLoadRuns(cfg: Config, s: State, k: Key, id: nat)
    requires At(s, id, Waiting) && s.tasks[id].key == k && s.free > 0 && k !in s.committed && !IsPhase(s, k, Evicting)
    ensures SameBut(s.(phases := s.phases - {k}, committed := s.committed + {k}, tables := s.tables + {k},
                       tasks := s.tasks - {id}),
                    Run(cfg, s, UnregisteredLoad(id)))
  {
    var fetch, fail := [Acquire(id), Load(id, true, true)], [CheckEvict(id), Register(id, false), Fail(id)];
    assert UnregisteredLoad(id) == fetch + fail + [Notify(id)];
    RunAppend(cfg, s, fetch + fail, [Notify(id)]);
    RunAppend(cfg, s, fetch, fail);
    FetchStores(cfg, s, k, id);
    var s1 := WithTable(s, k, id);
    UnregisteredFails(cfg, s1, k, id);
    var s2 := Run(cfg, s1, fail);
    NotifyEnds(cfg, s2, id, Failed);
    assert s2.tasks - {id} == s.tasks - {id};
  }

  /** An eviction of an Active epoch takes away its phase and entry, and its table if the drop succeeds. */
  lemma EvictionRemoves(cfg: Config, s: State, k: Key, dropped: bool)
    requires s.handler.Idle? && IsPhase(s, k, Active) && k in s.committed
    ensures Run(cfg, s, Eviction(k, dropped))
            == s.(phases := s.phases - {k}, committed := s.committed - {k}, tables := Without(s, k, dropped))
  {
    RunThree(cfg, s, Evict(k), Remove, DropTable(dropped));
  }

  /** An eviction that comes while the load is waiting makes the task itself take everything away. */
  lemma EvictionInFlight(cfg: Config, s: State, k: Key, id: nat, dropped: bool)
    requires s.handler.Idle? && IsPhase(s, k, Loading) && At(s, id, Waiting) && s.tasks[id].key == k
    requires s.free > 0 && k !in s.committed
    ensures SameBut(s.(phases := s.phases - {k}, tables := if dropped then s.tables - {k} else s.tables + {k},
                       tasks := s.tasks - {id}),
                    Run(cfg, s, [Evict(k), Mark] + EvictedLoad(id, dropped)))
  {
    RunAppend(cfg, s, [Evict(k), Mark], EvictedLoad(id, dropped));
    RunTwo(cfg, s, Evict(k), Mark);
    var s1 := s.(phases := s.phases[k := Evicting]);
    EvictedLoadRuns(cfg, s1, k, id, dropped);
    assert s1.phases - {k} == s.phases - {k};
  }

  lemma EvictedLoadRuns(cfg: Config, s: State, k: Key, id: nat, dropped: bool)
    requires IsPhase(s, k, Evicting) && At(s, id, Waiting) && s.tasks[id].key == k && s.free > 0 && k !in s.committed
    ensures SameBut(s.(phases := s.phases - {k}, tables := if dropped then s.tables - {k} else s.tables + {k},
                       tasks := s.tasks - {id}),
                    Run(cfg, s, EvictedLoad(id, dropped)))
  {
    var fetch, clear := [Acquire(id), Load(id, true, true)], [CheckEvict(id), TaskDrop(id, dropped), Clear(id)];
    assert EvictedLoad(id, dropped) == fetch + clear + [Notify(id)];
    RunAppend(cfg, s, fetch + clear, [Notify(id)]);
    RunAppend(cfg, s, fetch, clear);
    FetchStores(cfg, s, k, id);
    var s1 := WithTable(s, k, id);
    MarkedClears(cfg, s1, k, id, dropped);
    var s2 := Run(cfg, s1, clear);
    NotifyEnds(cfg, s2, id, Evicted(dropped));
    assert s1.committed - {k} == s.committed && s1.tables - {k} == s.tables - {k};
    assert s2.tasks - {id} == s.tasks - {id};
  }

  /** A load that is not disturbed puts its epoch into the report, and an eviction takes it out again. */
  lemma ReportFollows(cfg: Config, s: State, k: Key, id: nat)
    requires s.handler.Idle? && !s.draining && !Busy(s, k) && !IsPhase(s, k, Evicting) && id !in s.tasks
    requires k !in s.committed && s.free > 0
    ensures var load := Assignment(k, id) + CleanLoad(id);
            && LoadedEpochs(Run(cfg, s, load)) == LoadedEpochs(s) + {k}
            && LoadedEpochs(Run(cfg, s, load + Eviction(k, true))) == LoadedEpochs(s) - {k}
  {
    var load := Assignment(k, id) + CleanLoad(id);
    LoadCompletes(cfg, s, k, id);
    RunAppend(cfg, s, load, Eviction(k, true));
    EvictionRemoves(cfg, Run(cfg, s, load), k, true);
  }

  /** Loading an unknown epoch and evicting it again changes nothing but the waiter's notification. */
  lemma LoadThenEvict(cfg: Config, s: State, k: Key, id: nat)
    requires s.handler.Idle? && !s.draining && !Busy(s, k) && id !in s.tasks && s.free > 0
    requires k !in s.phases && k !in s.committed && k !in s.tables
    ensures SameBut(s, Run(cfg, s, Assignment(k, id) + CleanLoad(id) + Eviction(k, true)))
  {
    var load := Assignment(k, id) + CleanLoad(id);
    RunAppend(cfg, s, load, Eviction(k, true));
    LoadCompletes(cfg, s, k, id);
    var t := Run(cfg, s, load);
    EvictionRemoves(cfg, t, k, true);
    assert t.phases - {k} == s.phases && t.committed - {k} == s.committed && t.tables - {k} == s.tables;
  }
}
