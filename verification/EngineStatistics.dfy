/**
 What the engine reports about itself after a run: the statistics of each epoch, the metrics, the schemas of the
 datasets, and the bound on the rows it holds back in memory.
 */
module EngineStatistics {
  import opened Common
  import opened EpochKeys
  import opened EngineModel
  import opened EngineRuns
  import opened EngineHistory
  import opened Engine

  // ---------------------------------------------------------------------------
  // Statistics of committed epochs
  // ---------------------------------------------------------------------------

  predicate CleanIds(trace: seq<Command>)
  {
    forall i :: 0 <= i < |trace| && trace[i].StartEpoch? ==> Clean(trace[i].dataset)
  }

  /** The statistics tell what the load from command `i` to command `f` sent and measured. */
  ghost predicate Accounts(stats: EpochStats, trace: seq<Command>, threshold: nat, d: string, e: string, i: int, f: int)
  {
    && ClosedBetween(trace, States(trace, threshold), EpochKey(d, e), i, f)
    && trace[i].dataset == d && trace[i].view.epochId == e
    && stats == EpochStats(d, e, |Ingested(trace[i + 1..f], EpochKey(d, e))|, trace[f].bytes)
  }

  /**
   With clean dataset ids, after every run: the statistics of a committed epoch name its dataset and its epoch, and
   give the number of rows that were sent for it and the bytes that were measured when it was committed.
   */
  lemma StatsFaithful(trace: seq<Command>, threshold: nat, d: string, e: string)
    requires OwnChannels(trace) && CleanIds(trace) && Clean(d)
    requires EpochKey(d, e) in Run(Initial(), trace, threshold).committed
    ensures var stats := StatsOf(Run(Initial(), trace, threshold).committed, EpochKey(d, e));
            exists i, f :: Accounts(stats, trace, threshold, d, e, i, f)
  {
    var s, key := Run(Initial(), trace, threshold), EpochKey(d, e);
    CommittedTablesFaithful(trace, threshold);
    var i, f :| ClosedBetween(trace, States(trace, threshold), key, i, f);
    EpochKeyInjective(trace[i].dataset, trace[i].view.epochId, d, e);
    FirstPartIff(d, e);
    assert CommittedOk(s.committed[key], s.tables);
    assert Accounts(StatsOf(s.committed, key), trace, threshold, d, e, i, f);
  }

  // ---------------------------------------------------------------------------
  // Metrics
  // ---------------------------------------------------------------------------

  /** The command moves buffered batches into the table of its epoch. */
  predicate Flushes(s: State, c: Command, threshold: nat)
  {
    && s.running && (c.IngestBatch? || c.FinishEpoch?) && c.key in s.inProgress && !s.inProgress[c.key].failed
    && c.flush.FlushOk?
    && (c.IngestBatch? ==> s.inProgress[c.key].pendingRows + |c.batch| >= threshold)
    && (c.FinishEpoch? ==> s.inProgress[c.key].pending != [])
  }

  function Growth(s: State, t: State, table: string): int { |Rows(t.tables, table)| - |Rows(s.tables, table)| }

  /** The counters of the metrics after a step. */
  ghost predicate Counted(s: State, t: State, c: Command, flushed: bool)
  {
    && t.metrics.flushes == s.metrics.flushes + (if flushed then 1 else 0)
    && t.metrics.batchesWritten == s.metrics.batchesWritten + (if flushed then 1 else 0)
    && if flushed
       then (c.IngestBatch? || c.FinishEpoch?) && c.key in s.inProgress
            && t.metrics.rowsWritten == s.metrics.rowsWritten + Growth(s, t, s.inProgress[c.key].view.tableName)
       else t.metrics.rowsWritten == s.metrics.rowsWritten
  }

  /** One more flush, and as many more rows as the table of the epoch has grown by. */
  lemma FlushCounted(s: State, ep: EpochInProgress, flush: Flush)
    requires EpochOk(ep, s.tables) && !ep.failed && ep.view.tableName in s.tables
    ensures var (t, _, _) := FlushPending(s, ep, flush);
            var n := if ep.pending != [] && flush.FlushOk? then 1 else 0;
            && t.metrics.flushes == s.metrics.flushes + n && t.metrics.batchesWritten == s.metrics.batchesWritten + n
            && t.metrics.rowsWritten
               == s.metrics.rowsWritten + (if n == 1 then Growth(s, t, ep.view.tableName) else 0)
  {
  }

  lemma IngestCounted(s: State, c: Command, threshold: nat)
    requires Inv(s) && s.running && c.IngestBatch?
    ensures Counted(s, OnIngest(s, c, threshold), c, Flushes(s, c, threshold))
  {
    if c.key in s.inProgress && !s.inProgress[c.key].failed {
      EpochFacts(s, c.key);
      var fuller := Buffered(s.inProgress[c.key], c.batch);
      BufferedOk(s.inProgress[c.key], c.batch, s.tables);
      FlushCounted(s, fuller, c.flush);
    }
  }

  lemma ConcludeKeepsMetrics(t: State, ep: EpochInProgress, ok: bool, c: Command)
    requires c.FinishEpoch?
    ensures Conclude(t, ep, ok, c).metrics == t.metrics && Conclude(t, ep, ok, c).tables == t.tables
  {
  }

  lemma FinishCounted(s: State, c: Command, threshold: nat)
    requires Inv(s) && s.running && c.FinishEpoch?
    ensures Counted(s, OnFinish(s, c), c, Flushes(s, c, threshold))
  {
    if c.key in s.inProgress && !s.inProgress[c.key].failed {
      EpochFacts(s, c.key);
      var ep, rest := s.inProgress[c.key], s.(inProgress := s.inProgress - {c.key});
      FlushCounted(rest, ep, c.flush);
      var flushed := FlushPending(rest, ep, c.flush);
      ConcludeKeepsMetrics(flushed.0, flushed.1, flushed.2, c);
    }
  }

  /** After every command but Shutdown the gauges count the epochs, and the counters moved with the table. */
  lemma MetricsStep(s: State, c: Command, threshold: nat)
    requires Inv(s) && s.running
    ensures var t := Step(s, c, threshold);
            && Counted(s, t, c, Flushes(s, c, threshold))
            && (!c.Shutdown? ==> t.metrics.active == |t.inProgress| && t.metrics.committed == |t.committed|)
  {
    match c
    case StartEpoch(_, _, _, _, _) => RefreshCounted(s, OnStart(s, c), c, false);
    case IngestBatch(_, _, _) =>
      IngestCounted(s, c, threshold);
      RefreshCounted(s, OnIngest(s, c, threshold), c, Flushes(s, c, threshold));
    case FinishEpoch(_, _, _, _) =>
      FinishCounted(s, c, threshold);
      RefreshCounted(s, OnFinish(s, c), c, Flushes(s, c, threshold));
    case DropEpoch(_, _, _) => RefreshCounted(s, OnDrop(s, c), c, false);
    case Shutdown =>
  }

  lemma RefreshCounted(s: State, u: State, c: Command, flushed: bool)
    requires Counted(s, u, c, flushed)
    ensures Counted(s, Refresh(u), c, flushed)
    ensures Refresh(u).metrics.active == |u.inProgress| && Refresh(u).metrics.committed == |u.committed|
  {
  }

  /** As long as the engine runs, the gauges are the numbers of epochs in progress and committed. */
  lemma {:induction false} GaugesFollow(trace: seq<Command>, threshold: nat)
    requires OwnChannels(trace)
    ensures var s := Run(Initial(), trace, threshold);
            s.running ==> s.metrics.active == |s.inProgress| && s.metrics.committed == |s.committed|
  {
    if trace != [] {
      var n := |trace| - 1;
      var s := Run(Initial(), trace[..n], threshold);
      RunInvariant(trace[..n], threshold);
      if s.running {
        MetricsStep(s, trace[n], threshold);
      }
    }
  }

  // ---------------------------------------------------------------------------
  // Rows written and rows in the tables
  // ---------------------------------------------------------------------------

  ghost function TotalRows(tables: map<string, seq<Row>>): nat
    decreases tables.Keys
  {
    if tables == map[] then 0
    else
      var name :| name in tables;
      |tables[name]| + TotalRows(tables - {name})
  }

  lemma {:induction false} TotalSplit(tables: map<string, seq<Row>>, name: string)
    requires name in tables
    ensures TotalRows(tables) == |tables[name]| + TotalRows(tables - {name})
    decreases tables.Keys
  {
    var k :| k in tables && TotalRows(tables) == |tables[k]| + TotalRows(tables - {k});
    if k != name {
      TotalSplit(tables - {k}, name);
      TotalSplit(tables - {name}, k);
      assert tables - {k} - {name} == tables - {name} - {k};
    }
  }

  lemma TotalUpdate(a: map<string, seq<Row>>, name: string, rows: seq<Row>)
    ensures TotalRows(a[name := rows]) == TotalRows(a) + |rows| - |Rows(a, name)|
  {
    var b := a[name := rows];
    TotalSplit(b, name);
    if name in a {
      TotalSplit(a, name);
      assert b - {name} == a - {name};
    } else {
      assert b - {name} == a;
    }
  }

  /** Nothing goes wrong in the appender, and nothing is dropped. */
  predicate Smooth(c: Command) { (c.IngestBatch? || c.FinishEpoch? ==> c.flush.FlushOk?) && !c.DropEpoch? }

  lemma FilledTotal(s: State, t: State, name: string)
    requires name in s.tables && name in t.tables && t.tables == s.tables[name := t.tables[name]]
    ensures TotalRows(t.tables) == TotalRows(s.tables) + Growth(s, t, name)
  {
    TotalUpdate(s.tables, name, t.tables[name]);
  }

  lemma SmoothIngest(s: State, c: Command, threshold: nat)
    requires Inv(s) && s.running && c.IngestBatch? && c.flush.FlushOk?
    requires TotalRows(s.tables) == s.metrics.rowsWritten
    ensures TotalRows(OnIngest(s, c, threshold).tables) == OnIngest(s, c, threshold).metrics.rowsWritten
  {
    IngestCounted(s, c, threshold);
    if Flushes(s, c, threshold) {
      EpochFacts(s, c.key);
      IngestEffect(s, c, threshold);
      var t, name := OnIngest(s, c, threshold), s.inProgress[c.key].view.tableName;
      assert t.tables == s.tables[name := t.tables[name]];
      FilledTotal(s, t, name);
    }
  }

  lemma SmoothFinish(s: State, c: Command, threshold: nat)
    requires Inv(s) && s.running && c.FinishEpoch? && c.flush.FlushOk?
    requires TotalRows(s.tables) == s.metrics.rowsWritten
    ensures TotalRows(OnFinish(s, c).tables) == OnFinish(s, c).metrics.rowsWritten
  {
    FinishCounted(s, c, threshold);
    if Flushes(s, c, threshold) {
      EpochFacts(s, c.key);
      FinishEffect(s, c);
      RetiredTables(s, OnFinish(s, c), c.key);
      FilledTotal(s, OnFinish(s, c), s.inProgress[c.key].view.tableName);
    } else {
      NoFlushNoGrowth(s, c);
    }
  }

  lemma RetiredTables(s: State, t: State, key: string)
    requires key in s.inProgress && OnlyRetires(s, t, key) && s.inProgress[key].view.tableName in s.tables
    ensures var name := s.inProgress[key].view.tableName;
            name in t.tables && t.tables == s.tables[name := t.tables[name]]
  {
  }

  lemma NoFlushNoGrowth(s: State, c: Command)
    requires c.FinishEpoch?
    requires c.key in s.inProgress ==> s.inProgress[c.key].failed || s.inProgress[c.key].pending == []
    ensures OnFinish(s, c).tables == s.tables
  {
    if c.key in s.inProgress && !s.inProgress[c.key].failed {
      var ep, rest := s.inProgress[c.key], s.(inProgress := s.inProgress - {c.key});
      ConcludeKeepsMetrics(rest, ep, true, c);
    }
  }

  lemma SmoothStart(s: State, c: Command)
    requires c.StartEpoch? && TotalRows(s.tables) == s.metrics.rowsWritten
    ensures TotalRows(OnStart(s, c).tables) == OnStart(s, c).metrics.rowsWritten
  {
    TotalUpdate(s.tables, c.view.tableName, []);
  }

  /** Conservation: while nothing fails and nothing is dropped, the rows written are the rows in the tables. */
  lemma {:induction false} RowsConserved(trace: seq<Command>, threshold: nat)
    requires OwnChannels(trace) && forall i :: 0 <= i < |trace| ==> Smooth(trace[i])
    ensures var s := Run(Initial(), trace, threshold); TotalRows(s.tables) == s.metrics.rowsWritten
  {
    if trace != [] {
      var n := |trace| - 1;
      RowsConserved(trace[..n], threshold);
      RunInvariant(trace[..n], threshold);
      var s, c := Run(Initial(), trace[..n], threshold), trace[n];
      if s.running {
        assert Smooth(c);
        match c
        case StartEpoch(_, _, _, _, _) => SmoothStart(s, c);
        case IngestBatch(_, _, _) => SmoothIngest(s, c, threshold);
        case FinishEpoch(_, _, _, _) => SmoothFinish(s, c, threshold);
        case Shutdown =>
      }
    }
  }

  // ---------------------------------------------------------------------------
  // Memory held back, and schemas
  // ---------------------------------------------------------------------------

  ghost predicate Bounded(s: State, threshold: nat)
  {
    forall k :: k in s.inProgress ==> s.inProgress[k].pending == [] || s.inProgress[k].pendingRows < threshold
  }

  lemma IngestBounded(s: State, c: Command, threshold: nat)
    requires Bounded(s, threshold) && c.IngestBatch?
    ensures Bounded(OnIngest(s, c, threshold), threshold)
  {
    if c.key in s.inProgress && !s.inProgress[c.key].failed {
      var fuller := Buffered(s.inProgress[c.key], c.batch);
      if fuller.pendingRows >= threshold {
        FlushEmpties(s, fuller, c.flush);
      }
    }
  }

  lemma FlushEmpties(s: State, ep: EpochInProgress, flush: Flush)
    ensures FlushPending(s, ep, flush).1.pending == []
  {
  }

  lemma FinishRemoves(s: State, c: Command)
    requires c.FinishEpoch?
    ensures OnFinish(s, c).inProgress == s.inProgress - {c.key} && OnFinish(s, c).schemas == s.schemas
  {
    if c.key in s.inProgress {
      var ep, rest := s.inProgress[c.key], s.(inProgress := s.inProgress - {c.key});
      var flushed := FlushPending(rest, ep, c.flush);
      FlushKeepsRest(rest, ep, c.flush);
      ConcludeKeepsRest(flushed.0, flushed.1, flushed.2, c);
    }
  }

  lemma FlushKeepsRest(s: State, ep: EpochInProgress, flush: Flush)
    ensures var t := FlushPending(s, ep, flush).0; t.inProgress == s.inProgress && t.schemas == s.schemas
  {
  }

  lemma ConcludeKeepsRest(t: State, ep: EpochInProgress, ok: bool, c: Command)
    requires c.FinishEpoch?
    ensures var u := Conclude(t, ep, ok, c); u.inProgress == t.inProgress && u.schemas == t.schemas
  {
  }

  lemma BoundedStep(s: State, c: Command, threshold: nat)
    requires Bounded(s, threshold)
    ensures Bounded(Step(s, c, threshold), threshold)
  {
    if c.IngestBatch? {
      IngestBounded(s, c, threshold);
    } else if c.FinishEpoch? {
      FinishRemoves(s, c);
    }
  }

  /** After every run, an epoch holds back fewer rows than the flush threshold. */
  lemma {:induction false} BuffersBounded(trace: seq<Command>, threshold: nat, k: string)
    requires OwnChannels(trace) && k in Run(Initial(), trace, threshold).inProgress
    ensures var ep := Run(Initial(), trace, threshold).inProgress[k];
            ep.pending == [] || |Flatten(ep.pending)| < threshold
  {
    AllBounded(trace, threshold);
    RunInvariant(trace, threshold);
    EpochFacts(Run(Initial(), trace, threshold), k);
  }

  lemma {:induction false} AllBounded(trace: seq<Command>, threshold: nat)
    ensures Bounded(Run(Initial(), trace, threshold), threshold)
  {
    if trace != [] {
      AllBounded(trace[..|trace| - 1], threshold);
      BoundedStep(Run(Initial(), trace[..|trace| - 1], threshold), trace[|trace| - 1], threshold);
    }
  }

  predicate Accepted(s: State, c: Command)
  {
    && s.running && c.StartEpoch? && EpochKey(c.dataset, c.view.epochId) !in Tracked(s)
    && c.createOk && c.view.tableName !in s.tables
  }

  /** The schema that the last accepted load of the dataset brought. */
  ghost function LastSchema(trace: seq<Command>, threshold: nat, d: string): Option<int>
  {
    if trace == [] then None
    else
      var n := |trace| - 1;
      if Accepted(Run(Initial(), trace[..n], threshold), trace[n]) && trace[n].dataset == d then Some(trace[n].schema)
      else LastSchema(trace[..n], threshold, d)
  }

  /** The engine knows a dataset's schema from its first accepted load on, and it is that of the last one. */
  lemma {:induction false} SchemasFollow(trace: seq<Command>, threshold: nat, d: string)
    ensures var schemas := Run(Initial(), trace, threshold).schemas;
            LastSchema(trace, threshold, d) == if d in schemas then Some(schemas[d]) else None
  {
    if trace != [] {
      var n := |trace| - 1;
      SchemasFollow(trace[..n], threshold, d);
      SchemaStep(Run(Initial(), trace[..n], threshold), trace[n], threshold);
    }
  }

  lemma IngestKeepsSchemas(s: State, c: Command, threshold: nat)
    requires c.IngestBatch?
    ensures OnIngest(s, c, threshold).schemas == s.schemas
  {
    if c.key in s.inProgress {
      FlushKeepsRest(s, Buffered(s.inProgress[c.key], c.batch), c.flush);
    }
  }

  lemma StartSetsSchema(s: State, c: Command)
    requires s.running && c.StartEpoch?
    ensures OnStart(s, c).schemas == if Accepted(s, c) then s.schemas[c.dataset := c.schema] else s.schemas
  {
    var key := EpochKey(c.dataset, c.view.epochId);
    assert key in Tracked(s) <==> key in s.inProgress || key in s.committed;
  }

  lemma SchemaStep(s: State, c: Command, threshold: nat)
    ensures Step(s, c, threshold).schemas == if Accepted(s, c) then s.schemas[c.dataset := c.schema] else s.schemas
  {
    if s.running {
      match c
      case StartEpoch(_, _, _, _, _) => StartSetsSchema(s, c);
      case IngestBatch(_, _, _) => IngestKeepsSchemas(s, c, threshold);
      case FinishEpoch(_, _, _, _) => FinishRemoves(s, c);
      case _ =>
    }
  }
}
