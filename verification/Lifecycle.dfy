/**
 The epoch lifecycle of the worker as a transition system: one action per access to the shared phase map,
 the semaphore, the notification, the drain flag or the engine.  Commands are handled one at a time and
 interleave with the load tasks they spawn and with the one caller that waits for the drain.
 */
module Lifecycle {
  type Key = string

  datatype Phase = Loading | Active | Evicting

  /** Where a load task stands; it holds a semaphore permit in every state but the first. */
  datatype Pc =
    | Waiting                   // for a permit
    | Fetching                  // load_epoch is running
    | Fetched                   // loaded, about to look at the phase
    | Dropping                  // eviction seen, about to drop the table
    | Clearing(dropped: bool)   // about to remove the phase
    | Registering               // about to update the scan macro
    | Publishing                // about to insert Active
    | Failing                   // about to remove the phase after an error
    | Notifying(outcome: Outcome)   // phase updated for the last time, about to notify

  datatype Outcome = Completed | Failed | Evicted(dropped: bool)

  datatype Task = Task(key: Key, pc: Pc)

  datatype Handler =
    | Idle
    | Checking(key: Key)        // assignment, about to look at the phase
    | Inserting(key: Key)       // about to insert Loading
    | Converting(key: Key)      // about to convert the request
    | Marking(key: Key)         // eviction that saw Loading, about to insert Evicting
    | Removing(key: Key)        // eviction that saw Active or nothing, about to remove the phase
    | DroppingTable(key: Key)   // about to drop the table

  /** The caller of wait_for_drain; `drained` says whether drain mode was active when its scan began. */
  datatype Waiter =
    | Away
    | Scanning(shard: nat, found: bool, drained: bool)
    | Parking(drained: bool)
    | Parked(drained: bool)
    | Returned(drained: bool)

  /**
   The phase map is read shard by shard.  `exclusive` is the assumption that the control plane sends no
   assignment for an epoch while an earlier one for it is outstanding.
   */
  datatype Config = Config(permits: nat, shards: nat, shardOf: Key -> nat, exclusive: bool)

  datatype State = State(
    phases: map<Key, Phase>,
    committed: set<Key>,
    tables: set<Key>,
    tasks: map<nat, Task>,
    free: nat,
    handler: Handler,
    draining: bool,
    stored: bool,
    waiter: Waiter)

  datatype Action =
    | Assign(key: Key)
    | CheckPhase
    | InsertLoading
    | Convert(id: nat, ok: bool)
    | Evict(key: Key)
    | Mark
    | Remove
    | DropTable(ok: bool)
    | Drain
    | Acquire(id: nat)
    | Load(id: nat, ok: bool, created: bool)
    | CheckEvict(id: nat)
    | TaskDrop(id: nat, ok: bool)
    | Clear(id: nat)
    | Register(id: nat, ok: bool)
    | Publish(id: nat)
    | Fail(id: nat)
    | Notify(id: nat)
    | Wait
    | ScanShard
    | EndScan
    | Park

  function Initial(cfg: Config): State
  {
    State(map[], {}, {}, map[], cfg.permits, Idle, false, false, Away)
  }

  /** A task that has yet to make its last update of the phase map. */
  predicate Outstanding(pc: Pc) { !pc.Notifying? }

  predicate Busy(s: State, k: Key)
  {
    exists i :: i in s.tasks && s.tasks[i].key == k && Outstanding(s.tasks[i].pc)
  }

  predicate At(s: State, id: nat, pc: Pc) { id in s.tasks && s.tasks[id].pc == pc }

  predicate IsPhase(s: State, k: Key, p: Phase) { k in s.phases && s.phases[k] == p }

  predicate LoadingIn(cfg: Config, s: State, shard: nat)
  {
    exists k :: k in s.phases && s.phases[k] == Loading && cfg.shardOf(k) == shard
  }

  predicate Enabled(cfg: Config, s: State, a: Action)
  {
    match a
    case Assign(k) => s.handler.Idle? && (cfg.exclusive ==> !Busy(s, k))
    case CheckPhase => s.handler.Checking?
    case InsertLoading => s.handler.Inserting?
    case Convert(id, ok) => s.handler.Converting? && id !in s.tasks
    case Evict(_) => s.handler.Idle?
    case Mark => s.handler.Marking?
    case Remove => s.handler.Removing?
    case DropTable(_) => s.handler.DroppingTable?
    case Drain => s.handler.Idle?
    case Acquire(id) => At(s, id, Waiting) && s.free > 0
    case Load(id, ok, _) => At(s, id, Fetching) && (ok ==> s.tasks[id].key !in s.committed)
    case CheckEvict(id) => At(s, id, Fetched)
    case TaskDrop(id, _) => At(s, id, Dropping)
    case Clear(id) => id in s.tasks && s.tasks[id].pc.Clearing?
    case Register(id, _) => At(s, id, Registering)
    case Publish(id) => At(s, id, Publishing)
    case Fail(id) => At(s, id, Failing)
    case Notify(id) => id in s.tasks && s.tasks[id].pc.Notifying?
    case Wait => s.waiter.Away?
    case ScanShard => s.waiter.Scanning? && s.waiter.shard < cfg.shards
    case EndScan => s.waiter.Scanning? && s.waiter.shard >= cfg.shards
    case Park => s.waiter.Parking?
  }

  function Go(s: State, id: nat, pc: Pc): State
    requires id in s.tasks
  {
    s.(tasks := s.tasks[id := s.tasks[id].(pc := pc)])
  }

  /** The engine forgets the epoch first, so a failed DROP leaves a table without an entry. */
  function EngineDrop(s: State, k: Key, ok: bool): State
  {
    if k in s.committed then s.(committed := s.committed - {k}, tables := if ok then s.tables - {k} else s.tables)
    else s
  }

  function Rescan(s: State): Waiter { Scanning(0, false, s.draining) }

  function Apply(cfg: Config, s: State, a: Action): State
    requires Enabled(cfg, s, a)
  {
    match a
    case Assign(k) => if s.draining then s else s.(handler := Checking(k))
    case CheckPhase =>
      s.(handler := if IsPhase(s, s.handler.key, Evicting) then Idle else Inserting(s.handler.key))
    case InsertLoading => s.(phases := s.phases[s.handler.key := Loading], handler := Converting(s.handler.key))
    case Convert(id, ok) =>
      if ok then s.(tasks := s.tasks[id := Task(s.handler.key, Waiting)], handler := Idle)
      else s.(phases := s.phases - {s.handler.key}, handler := Idle)
    case Evict(k) =>
      s.(handler := if IsPhase(s, k, Loading) then Marking(k)
                    else if IsPhase(s, k, Evicting) then Idle else Removing(k))
    case Mark => s.(phases := s.phases[s.handler.key := Evicting], handler := Idle)
    case Remove => s.(phases := s.phases - {s.handler.key}, handler := DroppingTable(s.handler.key))
    case DropTable(ok) => EngineDrop(s, s.handler.key, ok).(handler := Idle)
    case Drain => s.(draining := true)
    case Acquire(id) => Go(s, id, Fetching).(free := s.free - 1)
    case Load(id, ok, created) =>
      var k := s.tasks[id].key;
      if ok then Go(s, id, Fetched).(committed := s.committed + {k}, tables := s.tables + {k})
      else Go(s, id, Failing).(tables := if created then s.tables + {k} else s.tables)
    case CheckEvict(id) => Go(s, id, if IsPhase(s, s.tasks[id].key, Evicting) then Dropping else Registering)
    case TaskDrop(id, ok) => Go(EngineDrop(s, s.tasks[id].key, ok), id, Clearing(ok))
    case Clear(id) => Go(s, id, Notifying(Evicted(s.tasks[id].pc.dropped))).(phases := s.phases - {s.tasks[id].key})
    case Register(id, ok) => Go(s, id, if ok then Publishing else Failing)
    case Publish(id) => Go(s, id, Notifying(Completed)).(phases := s.phases[s.tasks[id].key := Active])
    case Fail(id) => Go(s, id, Notifying(Failed)).(phases := s.phases - {s.tasks[id].key})
    case Notify(id) =>
      s.(tasks := s.tasks - {id}, free := s.free + 1,
         stored := s.stored || !s.waiter.Parked?,
         waiter := if s.waiter.Parked? then Rescan(s) else s.waiter)
    case Wait => s.(waiter := Rescan(s))
    case ScanShard =>
      s.(waiter := s.waiter.(shard := s.waiter.shard + 1, found := s.waiter.found || LoadingIn(cfg, s, s.waiter.shard)))
    case EndScan => s.(waiter := if s.waiter.found then Parking(s.waiter.drained) else Returned(s.waiter.drained))
    case Park => if s.stored then s.(stored := false, waiter := Rescan(s)) else s.(waiter := Parked(s.waiter.drained))
  }

  function Step(cfg: Config, s: State, a: Action): State
  {
    if Enabled(cfg, s, a) then Apply(cfg, s, a) else s
  }

  function Run(cfg: Config, s: State, trace: seq<Action>): State
  {
    if trace == [] then s else Step(cfg, Run(cfg, s, trace[..|trace| - 1]), trace[|trace| - 1])
  }

  ghost predicate Reachable(cfg: Config, s: State)
  {
    exists trace :: Run(cfg, Initial(cfg), trace) == s
  }

  lemma ReachStart(cfg: Config)
    ensures Reachable(cfg, Initial(cfg))
  {
    assert Run(cfg, Initial(cfg), []) == Initial(cfg);
  }

  lemma ReachStep(cfg: Config, s: State, a: Action)
    requires Reachable(cfg, s)
    ensures Reachable(cfg, Step(cfg, s, a))
  {
    var trace :| Run(cfg, Initial(cfg), trace) == s;
    assert (trace + [a])[..|trace|] == trace;
    assert Run(cfg, Initial(cfg), trace + [a]) == Step(cfg, s, a);
  }

  lemma {:induction false} ReachRun(cfg: Config, s: State, trace: seq<Action>)
    requires Reachable(cfg, s)
    ensures Reachable(cfg, Run(cfg, s, trace))
  {
    if trace != [] {
      ReachRun(cfg, s, trace[..|trace| - 1]);
      ReachStep(cfg, Run(cfg, s, trace[..|trace| - 1]), trace[|trace| - 1]);
    }
  }

  lemma RunOne(cfg: Config, s: State, a: Action)
    ensures Run(cfg, s, [a]) == Step(cfg, s, a)
  {
    assert [a][..0] == [];
  }

  /** A run is its first action followed by the run of the rest. */
  lemma {:induction false} RunAfter(cfg: Config, s: State, a: Action, trace: seq<Action>)
    ensures Run(cfg, s, [a] + trace) == Run(cfg, Step(cfg, s, a), trace)
  {
    if trace == [] {
      assert [a] + trace == [a];
      RunOne(cfg, s, a);
    } else {
      var n := |trace| - 1;
      RunAfter(cfg, s, a, trace[..n]);
      assert ([a] + trace)[..n + 1] == [a] + trace[..n];
    }
  }

  lemma RunTwo(cfg: Config, s: State, a: Action, b: Action)
    ensures Run(cfg, s, [a, b]) == Step(cfg, Step(cfg, s, a), b)
  {
    assert [a, b][..1] == [a];
    RunOne(cfg, s, a);
  }
}
