/**
 The lifecycle seen from one epoch.  Every action touches one epoch only, so what an epoch goes through is a
 small machine of its own; its invariants give the guarantees of two-phase eviction over all interleavings.
 */
module LifecycleKeys {
  import opened Common
  import opened Lifecycle

  datatype Hand = NoHand | ToCheck | ToInsert | ToConvert | ToMark | ToRemove | ToDrop

  /** What one epoch sees: its phase, its entry and table in the engine, its tasks and the command about it. */
  datatype Local = Local(
    phase: Option<Phase>,
    committed: bool,
    table: bool,
    tasks: map<nat, Pc>,
    hand: Hand)

  function HandOf(h: Handler, k: Key): Hand
  {
    match h
    case Idle => NoHand
    case Checking(x) => if x == k then ToCheck else NoHand
    case Inserting(x) => if x == k then ToInsert else NoHand
    case Converting(x) => if x == k then ToConvert else NoHand
    case Marking(x) => if x == k then ToMark else NoHand
    case Removing(x) => if x == k then ToRemove else NoHand
    case DroppingTable(x) => if x == k then ToDrop else NoHand
  }

  function TasksOf(tasks: map<nat, Task>, k: Key): map<nat, Pc>
  {
    map i | i in tasks && tasks[i].key == k :: tasks[i].pc
  }

  function LocalOf(s: State, k: Key): Local
  {
    Local(if k in s.phases then Some(s.phases[k]) else None,
          k in s.committed, k in s.tables, TasksOf(s.tasks, k), HandOf(s.handler, k))
  }

  predicate Pending(l: Local) { exists i :: i in l.tasks && Outstanding(l.tasks[i]) }

  predicate AtLocal(l: Local, id: nat, pc: Pc) { id in l.tasks && l.tasks[id] == pc }

  predicate IsTaskAction(a: Action)
  {
    || a.Acquire? || a.Load? || a.CheckEvict? || a.TaskDrop? || a.Clear? || a.Register? || a.Publish? || a.Fail?
    || a.Notify?
  }

  predicate ContinuesCommand(a: Action)
  {
    a.CheckPhase? || a.InsertLoading? || a.Convert? || a.Mark? || a.Remove? || a.DropTable?
  }

  /** Commands go to the epoch they name, later steps to the epoch of the command or task they continue. */
  function Subject(s: State, a: Action): Option<Key>
  {
    if a.Assign? then if s.draining then None else Some(a.key)
    else if a.Evict? then Some(a.key)
    else if ContinuesCommand(a) then if s.handler.Idle? then None else Some(s.handler.key)
    else if IsTaskAction(a) && a.id in s.tasks then Some(s.tasks[a.id].key)
    else None
  }

  predicate LocalEnabled(exclusive: bool, l: Local, a: Action)
  {
    match a
    case Assign(_) => l.hand.NoHand? && (exclusive ==> !Pending(l))
    case CheckPhase => l.hand.ToCheck?
    case InsertLoading => l.hand.ToInsert?
    case Convert(id, _) => l.hand.ToConvert? && id !in l.tasks
    case Evict(_) => l.hand.NoHand?
    case Mark => l.hand.ToMark?
    case Remove => l.hand.ToRemove?
    case DropTable(_) => l.hand.ToDrop?
    case Acquire(id) => AtLocal(l, id, Waiting)
    case Load(id, ok, _) => AtLocal(l, id, Fetching) && (ok ==> !l.committed)
    case CheckEvict(id) => AtLocal(l, id, Fetched)
    case TaskDrop(id, _) => AtLocal(l, id, Dropping)
    case Clear(id) => id in l.tasks && l.tasks[id].Clearing?
    case Register(id, _) => AtLocal(l, id, Registering)
    case Publish(id) => AtLocal(l, id, Publishing)
    case Fail(id) => AtLocal(l, id, Failing)
    case Notify(id) => id in l.tasks && l.tasks[id].Notifying?
    case _ => false
  }

  function Forget(l: Local, ok: bool): Local
  {
    if l.committed then l.(committed := false, table := l.table && !ok) else l
  }

  function Turn(l: Local, id: nat, pc: Pc): Local { l.(tasks := l.tasks[id := pc]) }

  /** One step of the machine of an epoch. */
  function LocalStep(exclusive: bool, l: Local, a: Action): Local
    requires LocalEnabled(exclusive, l, a)
  {
    match a
    case Assign(_) => l.(hand := ToCheck)
    case CheckPhase => l.(hand := if l.phase == Some(Evicting) then NoHand else ToInsert)
    case InsertLoading => l.(phase := Some(Loading), hand := ToConvert)
    case Convert(id, ok) => if ok then Turn(l, id, Waiting).(hand := NoHand) else l.(phase := None, hand := NoHand)
    case Evict(_) =>
      l.(hand := if l.phase == Some(Loading) then ToMark else if l.phase == Some(Evicting) then NoHand else ToRemove)
    case Mark => l.(phase := Some(Evicting), hand := NoHand)
    case Remove => l.(phase := None, hand := ToDrop)
    case DropTable(ok) => Forget(l, ok).(hand := NoHand)
    case Acquire(id) => Turn(l, id, Fetching)
    case Load(id, ok, created) =>
      if ok then Turn(l, id, Fetched).(committed := true, table := true)
      else Turn(l, id, Failing).(table := l.table || created)
    case CheckEvict(id) => Turn(l, id, if l.phase == Some(Evicting) then Dropping else Registering)
    case TaskDrop(id, ok) => Turn(Forget(l, ok), id, Clearing(ok))
    case Clear(id) => Turn(l, id, Notifying(Evicted(l.tasks[id].dropped))).(phase := None)
    case Register(id, ok) => Turn(l, id, if ok then Publishing else Failing)
    case Publish(id) => Turn(l, id, Notifying(Completed)).(phase := Some(Active))
    case Fail(id) => Turn(l, id, Notifying(Failed)).(phase := None)
    case Notify(id) => l.(tasks := l.tasks - {id})
  }

  // ---------------------------------------------------------------------------
  // Every action is a step of one epoch's machine
  // ---------------------------------------------------------------------------

  lemma GoTasks(s: State, id: nat, pc: Pc, k: Key)
    requires id in s.tasks
    ensures TasksOf(Go(s, id, pc).tasks, k)
            == if s.tasks[id].key == k then TasksOf(s.tasks, k)[id := pc] else TasksOf(s.tasks, k)
  {
  }

  lemma SpawnTasks(tasks: map<nat, Task>, id: nat, task: Task, k: Key)
    requires id !in tasks
    ensures TasksOf(tasks[id := task], k)
            == if task.key == k then TasksOf(tasks, k)[id := task.pc] else TasksOf(tasks, k)
  {
  }

  lemma EndTasks(tasks: map<nat, Task>, id: nat, k: Key)
    requires id in tasks
    ensures TasksOf(tasks - {id}, k) == if tasks[id].key == k then TasksOf(tasks, k) - {id} else TasksOf(tasks, k)
  {
  }

  lemma BusyIffPending(s: State, k: Key)
    ensures Busy(s, k) <==> Pending(LocalOf(s, k))
  {
    var l := LocalOf(s, k);
    if Busy(s, k) {
      var i :| i in s.tasks && s.tasks[i].key == k && Outstanding(s.tasks[i].pc);
      assert i in l.tasks;
    }
  }

  lemma TaskEnabled(cfg: Config, s: State, a: Action)
    requires IsTaskAction(a) && Enabled(cfg, s, a)
    ensures LocalEnabled(cfg.exclusive, LocalOf(s, s.tasks[a.id].key), a)
  {
  }

  predicate EndsTask(a: Action) { a.Clear? || a.Publish? || a.Fail? || a.Notify? }

  lemma EndRefines(cfg: Config, s: State, a: Action)
    requires EndsTask(a) && Enabled(cfg, s, a)
    ensures var k := s.tasks[a.id].key;
            && LocalEnabled(cfg.exclusive, LocalOf(s, k), a)
            && LocalOf(Apply(cfg, s, a), k) == LocalStep(cfg.exclusive, LocalOf(s, k), a)
  {
    TaskEnabled(cfg, s, a);
    var k := s.tasks[a.id].key;
    match a
    case Clear(id) => GoTasks(s, id, Notifying(Evicted(s.tasks[id].pc.dropped)), k);
    case Publish(id) => GoTasks(s, id, Notifying(Completed), k);
    case Fail(id) => GoTasks(s, id, Notifying(Failed), k);
    case Notify(id) => EndTasks(s.tasks, id, k);
  }

  lemma EngineRefines(cfg: Config, s: State, a: Action)
    requires (a.Load? || a.TaskDrop?) && Enabled(cfg, s, a)
    ensures var k := s.tasks[a.id].key;
            && LocalEnabled(cfg.exclusive, LocalOf(s, k), a)
            && LocalOf(Apply(cfg, s, a), k) == LocalStep(cfg.exclusive, LocalOf(s, k), a)
  {
    TaskEnabled(cfg, s, a);
    var k := s.tasks[a.id].key;
    match a
    case Load(id, ok, _) => GoTasks(s, id, if ok then Fetched else Failing, k);
    case TaskDrop(id, ok) => GoTasks(EngineDrop(s, k, ok), id, Clearing(ok), k);
  }

  lemma TaskRefines(cfg: Config, s: State, a: Action)
    requires (a.Acquire? || a.CheckEvict? || a.Register?) && Enabled(cfg, s, a)
    ensures var k := s.tasks[a.id].key;
            && LocalEnabled(cfg.exclusive, LocalOf(s, k), a)
            && LocalOf(Apply(cfg, s, a), k) == LocalStep(cfg.exclusive, LocalOf(s, k), a)
  {
    TaskEnabled(cfg, s, a);
    var k := s.tasks[a.id].key;
    match a
    case Acquire(id) => GoTasks(s, id, Fetching, k);
    case CheckEvict(id) => GoTasks(s, id, if IsPhase(s, k, Evicting) then Dropping else Registering, k);
    case Register(id, ok) => GoTasks(s, id, if ok then Publishing else Failing, k);
  }

  lemma TaskElsewhere(cfg: Config, s: State, a: Action, k: Key)
    requires IsTaskAction(a) && Enabled(cfg, s, a) && s.tasks[a.id].key != k
    ensures LocalOf(Apply(cfg, s, a), k) == LocalOf(s, k)
  {
    var t := Apply(cfg, s, a);
    if a.Notify? {
      EndTasks(s.tasks, a.id, k);
    } else {
      assert t.tasks == Go(s, a.id, t.tasks[a.id].pc).tasks;
      GoTasks(s, a.id, t.tasks[a.id].pc, k);
    }
  }

  lemma CommandRefines(cfg: Config, s: State, a: Action, k: Key)
    requires !IsTaskAction(a) && Enabled(cfg, s, a) && Subject(s, a) == Some(k)
    ensures LocalEnabled(cfg.exclusive, LocalOf(s, k), a)
    ensures LocalOf(Apply(cfg, s, a), k) == LocalStep(cfg.exclusive, LocalOf(s, k), a)
  {
    BusyIffPending(s, k);
    if a.Convert? {
      SpawnTasks(s.tasks, a.id, Task(s.handler.key, Waiting), k);
    }
  }

  lemma CommandElsewhere(cfg: Config, s: State, a: Action, k: Key)
    requires !IsTaskAction(a) && Enabled(cfg, s, a) && Subject(s, a) != Some(k)
    ensures LocalOf(Apply(cfg, s, a), k) == LocalOf(s, k)
  {
    if a.Convert? {
      SpawnTasks(s.tasks, a.id, Task(s.handler.key, Waiting), k);
    }
  }

  /** What an action does to an epoch is a step of that epoch's machine, or nothing. */
  lemma StepRefines(cfg: Config, s: State, a: Action, k: Key)
    ensures var l, m := LocalOf(s, k), LocalOf(Step(cfg, s, a), k);
            if Enabled(cfg, s, a) && Subject(s, a) == Some(k)
            then LocalEnabled(cfg.exclusive, l, a) && m == LocalStep(cfg.exclusive, l, a)
            else m == l
  {
    if Enabled(cfg, s, a) {
      if IsTaskAction(a) {
        if s.tasks[a.id].key != k {
          TaskElsewhere(cfg, s, a, k);
        } else if EndsTask(a) {
          EndRefines(cfg, s, a);
        } else if a.Load? || a.TaskDrop? {
          EngineRefines(cfg, s, a);
        } else {
          TaskRefines(cfg, s, a);
        }
      } else if Subject(s, a) == Some(k) {
        CommandRefines(cfg, s, a, k);
      } else {
        CommandElsewhere(cfg, s, a, k);
      }
    }
  }

  // ---------------------------------------------------------------------------
  // The invariant of one epoch
  // ---------------------------------------------------------------------------

  /** A Loading phase is always somebody's to change. */
  predicate LoadingOwned(l: Local)
  {
    l.phase == Some(Loading) ==> l.hand.ToConvert? || Pending(l)
  }

  predicate Stored(pc: Pc) { pc.Fetched? || pc.Dropping? || pc.Registering? || pc.Publishing? }

  /** What holds of an outstanding task. */
  predicate TaskOk(l: Local, pc: Pc)
  {
    && (l.phase == Some(Loading) || l.phase == Some(Evicting))
    && (pc.Dropping? || pc.Clearing? ==> l.phase == Some(Evicting))
    && (Stored(pc) ==> l.committed)
    && (pc.Clearing? ==> !l.committed && (pc.dropped ==> !l.table))
    && (l.hand.NoHand? || l.hand.ToMark?)
  }

  /** With at most one outstanding load for the epoch. */
  ghost predicate LocalInv(l: Local)
  {
    && (forall i, j :: i in l.tasks && j in l.tasks && Outstanding(l.tasks[i]) && Outstanding(l.tasks[j]) ==> i == j)
    && (forall i :: i in l.tasks && Outstanding(l.tasks[i]) ==> TaskOk(l, l.tasks[i]))
    && (l.phase == Some(Active) ==> l.committed)
    && (l.committed ==> l.table)
    && (l.hand.ToConvert? ==> l.phase == Some(Loading))
    && (l.hand.ToDrop? ==> l.phase == None)
    && (l.hand.ToMark? ==> l.phase != Some(Evicting))
    && LoadingOwned(l)
  }

  lemma LoadingStaysOwned(exclusive: bool, l: Local, a: Action)
    requires LoadingOwned(l) && LocalEnabled(exclusive, l, a)
    ensures LoadingOwned(LocalStep(exclusive, l, a))
  {
    var m := LocalStep(exclusive, l, a);
    if m.phase == Some(Loading) && !m.hand.ToConvert? {
      if a.Convert? {
        assert a.id in m.tasks && Outstanding(m.tasks[a.id]);
      } else {
        var i :| i in l.tasks && Outstanding(l.tasks[i]);
        assert i in m.tasks && Outstanding(m.tasks[i]);
      }
    }
  }

  lemma CommandKeepsInv(l: Local, a: Action)
    requires LocalInv(l) && LocalEnabled(true, l, a) && !IsTaskAction(a)
    ensures LocalInv(LocalStep(true, l, a))
  {
    LoadingStaysOwned(true, l, a);
  }

  lemma EngineKeepsInv(l: Local, a: Action)
    requires LocalInv(l) && LocalEnabled(true, l, a) && (a.Load? || a.TaskDrop?)
    ensures LocalInv(LocalStep(true, l, a))
  {
    LoadingStaysOwned(true, l, a);
  }

  lemma EndKeepsInv(l: Local, a: Action)
    requires LocalInv(l) && LocalEnabled(true, l, a) && EndsTask(a)
    ensures LocalInv(LocalStep(true, l, a))
  {
    LoadingStaysOwned(true, l, a);
  }

  lemma MoveKeepsInv(l: Local, a: Action)
    requires LocalInv(l) && LocalEnabled(true, l, a) && (a.Acquire? || a.CheckEvict? || a.Register?)
    ensures LocalInv(LocalStep(true, l, a))
  {
    LoadingStaysOwned(true, l, a);
  }

  lemma TaskKeepsInv(l: Local, a: Action)
    requires LocalInv(l) && LocalEnabled(true, l, a) && IsTaskAction(a)
    ensures LocalInv(LocalStep(true, l, a))
  {
    if a.Load? || a.TaskDrop? {
      EngineKeepsInv(l, a);
    } else if EndsTask(a) {
      EndKeepsInv(l, a);
    } else {
      MoveKeepsInv(l, a);
    }
  }

  /** The invariant of every epoch, in every run. */
  lemma {:induction false} EpochInvariant(cfg: Config, trace: seq<Action>, k: Key)
    ensures LoadingOwned(LocalOf(Run(cfg, Initial(cfg), trace), k))
    ensures cfg.exclusive ==> LocalInv(LocalOf(Run(cfg, Initial(cfg), trace), k))
  {
    if trace != [] {
      var n := |trace| - 1;
      EpochInvariant(cfg, trace[..n], k);
      var s, a := Run(cfg, Initial(cfg), trace[..n]), trace[n];
      StepRefines(cfg, s, a, k);
      var l := LocalOf(s, k);
      if LocalOf(Step(cfg, s, a), k) != l {
        LoadingStaysOwned(cfg.exclusive, l, a);
        if cfg.exclusive {
          if IsTaskAction(a) {
            TaskKeepsInv(l, a);
          } else {
            CommandKeepsInv(l, a);
          }
        }
      }
    }
  }
}
