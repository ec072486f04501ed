/**
 The engine thread: the state it owns, the handler of each command, and its command loop, which computes
 the runs of `EngineModel`.
 */
module Engine {
  import opened Common
  import opened EpochKeys
  import opened EngineModel
  import opened EngineRuns

  datatype EpochStats = EpochStats(datasetId: string, epochId: string, rows: nat, bytes: nat)

  /** The bytes of the committed epochs with the given keys. */
  ghost function TotalBytes(committed: map<string, (EpochView, TableMetadata)>, keys: set<string>): nat
    requires keys <= committed.Keys
  {
    if keys == {} then 0
    else
      var k :| k in keys;
      committed[k].1.totalBytes + TotalBytes(committed, keys - {k})
  }

  /** The sum does not depend on the order in which the keys are visited. */
  lemma {:induction false} TotalBytesRemove(committed: map<string, (EpochView, TableMetadata)>, keys: set<string>,
                                            x: string)
    requires keys <= committed.Keys && x in keys
    ensures TotalBytes(committed, keys) == committed[x].1.totalBytes + TotalBytes(committed, keys - {x})
    decreases keys
  {
    var k :| k in keys && TotalBytes(committed, keys) == committed[k].1.totalBytes + TotalBytes(committed, keys - {k});
    if k != x {
      TotalBytesRemove(committed, keys - {k}, x);
      TotalBytesRemove(committed, keys - {x}, k);
      assert keys - {k} - {x} == keys - {x} - {k};
    }
  }

  function SumBytes(stats: seq<EpochStats>): nat
  {
    if stats == [] then 0 else SumBytes(stats[..|stats| - 1]) + stats[|stats| - 1].bytes
  }

  /** Once the engine has stopped, further commands change nothing. */
  lemma {:induction false} StoppedRun(s: State, trace: seq<Command>, n: nat, threshold: nat)
    requires n <= |trace| && !Run(s, trace[..n], threshold).running
    ensures Run(s, trace, threshold) == Run(s, trace[..n], threshold)
  {
    if n < |trace| {
      var init := trace[..|trace| - 1];
      assert init[..n] == trace[..n];
      StoppedRun(s, init, n, threshold);
    } else {
      assert trace[..n] == trace;
    }
  }

  lemma RunNext(trace: seq<Command>, i: nat, threshold: nat)
    requires i < |trace|
    ensures Run(Initial(), trace[..i + 1], threshold)
            == Step(Run(Initial(), trace[..i], threshold), trace[i], threshold)
  {
    assert trace[..i + 1] == trace[..i] + [trace[i]];
    RunStep(Initial(), trace[..i], trace[i], threshold);
  }

  /** The rows that reach a table when batches are appended one by one until the appender fails. */
  method AppendBatches(batches: seq<Batch>, flush: Flush) returns (rows: seq<Row>)
    ensures rows == if flush.FlushOk? then Flatten(batches) else Written(Flatten(batches), flush.written)
  {
    rows := [];
    var i := 0;
    while i < |batches|
      invariant 0 <= i <= |batches|
      invariant rows == Flatten(batches[..i])
      invariant flush.FlushError? ==> |rows| <= flush.written
    {
      var batch := batches[i];
      assert batches[..i + 1] == batches[..i] + [batch];
      FlattenOne(batches[..i], batch);
      if flush.FlushError? && |rows| + |batch| > flush.written {
        assert batches == batches[..i + 1] + batches[i + 1..];
        FlattenAppend(batches[..i + 1], batches[i + 1..]);
        rows := rows + batch[..flush.written - |rows|];
        return;
      }
      rows := rows + batch;
      i := i + 1;
    }
    assert batches[..i] == batches;
  }

  class DuckDBEngine {
    const threshold: nat
    var running: bool
    var inProgress: map<string, EpochInProgress>
    var committed: map<string, (EpochView, TableMetadata)>
    var schemas: map<string, int>
    var metrics: Metrics
    var tables: map<string, seq<Row>>
    var answers: map<nat, seq<Answer>>

    ghost function Abs(): State
      reads this
    {
      State(running, inProgress, committed, schemas, metrics, tables, answers)
    }

    constructor (threshold: nat)
      ensures Abs() == Initial() && this.threshold == threshold
    {
      this.threshold := threshold;
      running := true;
      inProgress, committed, schemas, tables, answers := map[], map[], map[], map[], map[];
      metrics := Metrics(0, 0, 0, 0, 0);
    }

    method Reply(channel: nat, answer: Answer)
      modifies this`answers
      ensures Abs() == Say(old(Abs()), channel, answer)
    {
      answers := answers[channel := (if channel in answers then answers[channel] else []) + [answer]];
    }

    method FlushPendingBatches(ep: EpochInProgress, flush: Flush) returns (flushed: EpochInProgress, ok: bool)
      modifies this`tables, this`metrics
      ensures (Abs(), flushed, ok) == FlushPending(old(Abs()), ep, flush)
    {
      if ep.pending == [] {
        return ep, true;
      }
      var rows := AppendBatches(ep.pending, flush);
      StoreRows(ep.view.tableName, rows);
      if flush.FlushError? {
        return ep.(pending := []), false;
      }
      metrics := metrics.(batchesWritten := metrics.batchesWritten + 1,
                          rowsWritten := metrics.rowsWritten + ep.pendingRows,
                          flushes := metrics.flushes + 1);
      flushed := ep.(pending := [], pendingRows := 0, committedRows := ep.committedRows + ep.pendingRows);
      ok := true;
    }

    method StoreRows(name: string, rows: seq<Row>)
      modifies this`tables
      ensures Abs() == AppendRows(old(Abs()), name, rows)
    {
      tables := tables[name := (if name in tables then tables[name] else []) + rows];
    }

    method OnStartEpoch(c: Command)
      requires c.StartEpoch? && running
      modifies this
      ensures Abs() == OnStart(old(Abs()), c)
    {
      var key := EpochKey(c.dataset, c.view.epochId);
      if key in inProgress || key in committed {
        Reply(c.channel, Rejected(AlreadyExists));
        return;
      }
      if !c.createOk || c.view.tableName in tables {
        Reply(c.channel, Rejected(CreateFailed));
        return;
      }
      tables := tables[c.view.tableName := []];
      schemas := schemas[c.dataset := c.schema];
      inProgress := inProgress[key := EpochInProgress(c.view, [], 0, 0, false, c.channel)];
    }

    method OnIngestBatch(c: Command)
      requires c.IngestBatch?
      modifies this`inProgress, this`tables, this`metrics
      ensures Abs() == OnIngest(old(Abs()), c, threshold)
    {
      if c.key !in inProgress || inProgress[c.key].failed {
        return;
      }
      var ep := inProgress[c.key];
      ep := ep.(pending := ep.pending + [c.batch], pendingRows := ep.pendingRows + |c.batch|);
      if ep.pendingRows >= threshold {
        var flushed, ok := FlushPendingBatches(ep, c.flush);
        ep := flushed;
        if !ok {
          ep := ep.(pending := [], pendingRows := 0, failed := true);
        }
      }
      inProgress := inProgress[c.key := ep];
    }

    method OnFinishEpoch(c: Command)
      requires c.FinishEpoch?
      modifies this`inProgress, this`committed, this`tables, this`metrics, this`answers
      ensures Abs() == OnFinish(old(Abs()), c)
    {
      if c.key !in inProgress {
        return;
      }
      var ep := inProgress[c.key];
      inProgress := inProgress - {c.key};
      if ep.failed {
        Reply(ep.channel, Rejected(FlushFailed));
        return;
      }
      var flushed, ok := FlushPendingBatches(ep, c.flush);
      if !ok {
        Reply(flushed.channel, Rejected(FlushFailed));
      } else if flushed.committedRows == 0 {
        Reply(flushed.channel, Rejected(EmptyStream));
      } else if !c.schemaOk {
        Reply(flushed.channel, Rejected(SchemaFailed));
      } else {
        var metadata := TableMetadata(flushed.view.tableName, flushed.committedRows, c.bytes);
        committed := committed[c.key := (flushed.view, metadata)];
        Reply(flushed.channel, Loaded(metadata));
      }
    }

    /** The entry goes before the table is dropped, so it is gone even when the drop fails. */
    method OnDropEpoch(c: Command) returns (ok: bool)
      requires c.DropEpoch?
      modifies this`committed, this`tables
      ensures Abs() == OnDrop(old(Abs()), c)
      ensures var key := EpochKey(c.dataset, c.epochId);
              ok <==> key in old(committed) && key !in inProgress && c.dropOk
    {
      var key := EpochKey(c.dataset, c.epochId);
      if key in inProgress || key !in committed {
        return false;
      }
      var view := committed[key].0;
      committed := committed - {key};
      if c.dropOk {
        tables := tables - {view.tableName};
      }
      ok := c.dropOk;
    }

    /** Drains the epochs in progress, in any order, and tells each caller. */
    method OnShutdownRequest()
      requires ChannelsOk(Abs())
      modifies this`running, this`inProgress, this`answers
      ensures Abs() == OnShutdown(old(Abs()))
    {
      running := false;
      while inProgress != map[]
        invariant !running && ChannelsOk(Abs())
        invariant OnShutdown(Abs()) == OnShutdown(old(Abs()))
        invariant Abs() == old(Abs()).(running := false, inProgress := inProgress, answers := answers)
        decreases inProgress.Keys
      {
        var key :| key in inProgress;
        var ep := inProgress[key];
        DrainOne(Abs(), key);
        inProgress := inProgress - {key};
        Reply(ep.channel, Rejected(ShuttingDown));
      }
      NothingToDrain(Abs());
    }

    method OnListEpochs(dataset: string) returns (views: seq<EpochView>)
      ensures forall v :: v in views <==>
                exists k :: k in committed && StartsWith(k, dataset + "__") && committed[k].0 == v
      ensures |views| == |set k | k in committed && StartsWith(k, dataset + "__")|
    {
      var prefix := dataset + "__";
      var keys := Enumerate(committed.Keys);
      views := [];
      ghost var taken: set<string> := {};
      for i := 0 to |keys|
        invariant Views(committed, taken, views)
        invariant forall k :: k in taken <==> k in keys[..i] && StartsWith(k, prefix)
      {
        if StartsWith(keys[i], prefix) {
          OneMoreView(committed, taken, views, keys[i]);
          views := views + [committed[keys[i]].0];
          taken := taken + {keys[i]};
        }
      }
      assert keys[..|keys|] == keys;
      assert taken == set k | k in committed && StartsWith(k, dataset + "__");
    }

    method OnMemoryStats() returns (stats: seq<EpochStats>, total: nat)
      ensures total == TotalBytes(committed, committed.Keys)
      ensures |stats| == |committed|
      ensures forall k :: k in committed ==> StatsOf(committed, k) in stats
      ensures forall d, epoch :: Clean(d) && FiledUnder(committed, EpochKey(d, epoch), epoch) ==>
                EpochStats(d, epoch, committed[EpochKey(d, epoch)].1.totalRows,
                           committed[EpochKey(d, epoch)].1.totalBytes) in stats
    {
      var keys := Enumerate(committed.Keys);
      stats := [];
      for i := 0 to |keys|
        invariant |stats| == i
        invariant forall j :: 0 <= j < i ==> stats[j] == StatsOf(committed, keys[j])
      {
        stats := stats + [StatsOf(committed, keys[i])];
      }
      forall d, epoch | Clean(d) && FiledUnder(committed, EpochKey(d, epoch), epoch)
        ensures StatsOf(committed, EpochKey(d, epoch)).datasetId == d
      {
        FirstPartIff(d, epoch);
      }
      total := AddUp(stats);
      AllBytes(committed, keys, stats, committed.Keys);
    }

    /** One received command: its handler, and then the gauges. */
    method Handle(c: Command)
      requires running && ChannelsOk(Abs())
      modifies this
      ensures Abs() == Step(old(Abs()), c, threshold)
    {
      match c {
        case StartEpoch(_, _, _, _, _) => OnStartEpoch(c);
        case IngestBatch(_, _, _) => OnIngestBatch(c);
        case FinishEpoch(_, _, _, _) => OnFinishEpoch(c);
        case DropEpoch(_, _, _) => var _ := OnDropEpoch(c);
        case Shutdown =>
          OnShutdownRequest();
          return;
      }
      metrics := metrics.(active := |inProgress|, committed := |committed|);
    }

    /** The command loop: it ends with the channel, or at the first Shutdown. */
    method EngineMain(commands: seq<Command>)
      requires Abs() == Initial() && OwnChannels(commands)
      modifies this
      ensures Abs() == Run(Initial(), commands, threshold) && Inv(Abs())
    {
      var i := 0;
      while i < |commands| && running
        invariant 0 <= i <= |commands|
        invariant Abs() == Run(Initial(), commands[..i], threshold)
      {
        RunInvariant(commands[..i], threshold);
        Handle(commands[i]);
        RunNext(commands, i, threshold);
        i := i + 1;
      }
      if running {
        assert commands[..i] == commands;
      } else {
        StoppedRun(Initial(), commands, i, threshold);
      }
      RunInvariant(commands, threshold);
    }
  }

  /** The key holds an epoch of that id. */
  predicate FiledUnder(committed: map<string, (EpochView, TableMetadata)>, key: string, epoch: string)
  {
    key in committed && committed[key].0.epochId == epoch
  }

  function StatsOf(committed: map<string, (EpochView, TableMetadata)>, k: string): EpochStats
    requires k in committed
  {
    EpochStats(FirstPart(k), committed[k].0.epochId, committed[k].1.totalRows, committed[k].1.totalBytes)
  }

  /** Answering and removing one epoch leaves the same work for the rest of the shutdown. */
  lemma DrainOne(s: State, key: string)
    requires key in s.inProgress && ChannelsOk(s) && !s.running
    ensures var t := Say(s.(inProgress := s.inProgress - {key}), s.inProgress[key].channel, Rejected(ShuttingDown));
            ChannelsOk(t) && OnShutdown(t) == OnShutdown(s)
  {
    var ch := s.inProgress[key].channel;
    var t := Say(s.(inProgress := s.inProgress - {key}), ch, Rejected(ShuttingDown));
    assert Sent(s.answers, ch) + [Rejected(ShuttingDown)] == [Rejected(ShuttingDown)];
    DrainChannels(s.inProgress, key);
    assert Channels(t.inProgress) == Channels(s.inProgress) - {ch};
    DrainAnswers(s.answers, Channels(s.inProgress), ch);
  }

  lemma DrainAnswers(answers: map<nat, seq<Answer>>, waiting: set<nat>, ch: nat)
    requires ch in waiting && ch !in answers
    ensures var told := answers[ch := Sent(answers, ch) + [Rejected(ShuttingDown)]];
            told + (map x | x in waiting - {ch} :: Sent(told, x) + [Rejected(ShuttingDown)])
            == answers + (map x | x in waiting :: Sent(answers, x) + [Rejected(ShuttingDown)])
  {
  }

  /** The views of these epochs, one for each. */
  ghost predicate Views(committed: map<string, (EpochView, TableMetadata)>, taken: set<string>, views: seq<EpochView>)
  {
    && |views| == |taken| && taken <= committed.Keys
    && forall v :: v in views <==> exists k :: k in taken && committed[k].0 == v
  }

  lemma OneMoreView(committed: map<string, (EpochView, TableMetadata)>, taken: set<string>, views: seq<EpochView>,
                    key: string)
    requires Views(committed, taken, views) && key in committed && key !in taken
    ensures Views(committed, taken + {key}, views + [committed[key].0])
  {
    var more, all := views + [committed[key].0], taken + {key};
    forall v ensures v in more <==> exists k :: k in all && committed[k].0 == v {
      if v == committed[key].0 {
        assert key in all;
      } else if v in views {
        var k :| k in taken && committed[k].0 == v;
        assert k in all;
      }
    }
  }

  lemma {:induction false} AllBytes(committed: map<string, (EpochView, TableMetadata)>, order: seq<string>,
                                    stats: seq<EpochStats>, keys: set<string>)
    requires keys <= committed.Keys && NoDuplicates(order) && forall k :: k in order <==> k in keys
    requires |stats| == |order| && forall i :: 0 <= i < |order| ==> stats[i] == StatsOf(committed, order[i])
    ensures SumBytes(stats) == TotalBytes(committed, keys)
  {
    if order == [] {
      assert keys == {};
    } else {
      var n := |order| - 1;
      assert order == order[..n] + [order[n]];
      AllBytes(committed, order[..n], stats[..n], keys - {order[n]});
      TotalBytesRemove(committed, keys, order[n]);
    }
  }

  method AddUp(stats: seq<EpochStats>) returns (total: nat)
    ensures total == SumBytes(stats)
  {
    total := 0;
    for i := 0 to |stats|
      invariant total == SumBytes(stats[..i])
    {
      assert stats[..i + 1][..i] == stats[..i];
      total := total + stats[i].bytes;
    }
    assert stats[..|stats|] == stats;
  }

  lemma DrainChannels(epochs: map<string, EpochInProgress>, key: string)
    requires key in epochs
    ensures Channels(epochs) == Channels(epochs - {key}) + {epochs[key].channel}
  {
    forall ch | ch in Channels(epochs) ensures ch in Channels(epochs - {key}) + {epochs[key].channel} {
      var k :| k in epochs && epochs[k].channel == ch;
      assert k != key ==> k in epochs - {key} && (epochs - {key})[k].channel == ch;
    }
  }

  lemma NothingToDrain(s: State)
    requires s.inProgress == map[] && !s.running
    ensures OnShutdown(s) == s
  {
    assert Channels(s.inProgress) == {};
    assert OnShutdown(s).answers == s.answers;
  }
}
