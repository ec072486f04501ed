/**
 What every run of the storage engine keeps, whatever the database does: one owner per table, tables
 that hold exactly what was ingested, and one answer per reply channel.
 */
module EngineRuns {
  import opened Common
  import opened EpochKeys
  import opened EngineModel

  // ---------------------------------------------------------------------------
  // The invariant
  // ---------------------------------------------------------------------------

  function Tracked(s: State): set<string> { s.inProgress.Keys + s.committed.Keys }

  function TableOf(s: State, k: string): string
    requires k in Tracked(s)
  {
    if k in s.inProgress then s.inProgress[k].view.tableName else s.committed[k].0.tableName
  }

  /** Tracked tables exist and have one owner. */
  ghost predicate TablesOk(s: State)
  {
    && s.inProgress.Keys !! s.committed.Keys
    && (forall k :: k in Tracked(s) ==> TableOf(s, k) in s.tables)
    && forall k, l :: k in Tracked(s) && l in Tracked(s) && k != l ==> TableOf(s, k) != TableOf(s, l)
  }

  /** The counters of an epoch agree with its buffer and its table; a failed epoch buffers nothing. */
  ghost predicate EpochOk(ep: EpochInProgress, tables: map<string, seq<Row>>)
  {
    && ep.pendingRows == |Flatten(ep.pending)|
    && (!ep.failed ==> ep.committedRows == |Rows(tables, ep.view.tableName)|)
    && (ep.failed ==> ep.pending == [])
  }

  /** A committed table holds as many rows as its metadata says, and at least one. */
  ghost predicate CommittedOk(entry: (EpochView, TableMetadata), tables: map<string, seq<Row>>)
  {
    && entry.1.tableName == entry.0.tableName
    && entry.1.totalRows == |Rows(tables, entry.0.tableName)| > 0
  }

  ghost predicate CountsOk(s: State)
  {
    && (forall k :: k in s.inProgress ==> EpochOk(s.inProgress[k], s.tables))
    && forall k :: k in s.committed ==> CommittedOk(s.committed[k], s.tables)
  }

  /** Nothing was sent yet for an epoch in progress, and nothing is sent twice. */
  ghost predicate ChannelsOk(s: State)
  {
    && (forall k :: k in s.inProgress ==> s.inProgress[k].channel !in s.answers)
    && (forall k, l :: k in s.inProgress && l in s.inProgress && k != l ==>
                         s.inProgress[k].channel != s.inProgress[l].channel)
    && forall ch :: ch in s.answers ==> |s.answers[ch]| == 1
  }

  ghost predicate Inv(s: State) { TablesOk(s) && CountsOk(s) && ChannelsOk(s) }

  function Used(s: State): set<nat> { s.answers.Keys + Channels(s.inProgress) }

  /** A reply channel belongs to one command only. */
  predicate FreshFor(s: State, c: Command) { c.StartEpoch? ==> c.channel !in Used(s) }

  /** Tracking fewer epochs, with the same tables, keeps ownership intact. */
  lemma TablesKept(s: State, t: State)
    requires TablesOk(s) && t.inProgress.Keys !! t.committed.Keys && Tracked(t) <= Tracked(s)
    requires forall k :: k in Tracked(t) ==> TableOf(t, k) == TableOf(s, k) && TableOf(t, k) in t.tables
    ensures TablesOk(t)
  {
  }

  lemma StartTables(s: State, key: string, ep: EpochInProgress)
    requires TablesOk(s) && key !in Tracked(s) && ep.view.tableName !in s.tables
    ensures TablesOk(s.(tables := s.tables[ep.view.tableName := []], inProgress := s.inProgress[key := ep]))
  {
    var t := s.(tables := s.tables[ep.view.tableName := []], inProgress := s.inProgress[key := ep]);
    assert t.inProgress.Keys == s.inProgress.Keys + {key};
    forall k | k in Tracked(t) ensures TableOf(t, k) == if k == key then ep.view.tableName else TableOf(s, k) {
    }
  }

  lemma StartCounts(s: State, key: string, ep: EpochInProgress)
    requires TablesOk(s) && CountsOk(s) && key !in Tracked(s) && ep.view.tableName !in s.tables
    requires ep.pending == [] && ep.pendingRows == ep.committedRows == 0 && !ep.failed
    ensures CountsOk(s.(tables := s.tables[ep.view.tableName := []], inProgress := s.inProgress[key := ep]))
  {
    var t := s.(tables := s.tables[ep.view.tableName := []], inProgress := s.inProgress[key := ep]);
    forall k | k in t.inProgress ensures EpochOk(t.inProgress[k], t.tables) {
      if k != key {
        assert k in Tracked(s) && TableOf(s, k) in s.tables;
      }
    }
    forall k | k in t.committed ensures CommittedOk(t.committed[k], t.tables) {
      assert k in Tracked(s) && TableOf(s, k) in s.tables;
    }
  }

  lemma StartKeepsChannels(s: State, key: string, ep: EpochInProgress)
    requires ChannelsOk(s) && ep.channel !in Used(s)
    ensures ChannelsOk(s.(inProgress := s.inProgress[key := ep]))
  {
    forall k | k in s.inProgress ensures s.inProgress[k].channel != ep.channel {
      assert s.inProgress[k].channel in Channels(s.inProgress);
    }
  }

  lemma SayKeepsInv(s: State, channel: nat, answer: Answer)
    requires Inv(s) && channel !in Used(s)
    ensures Inv(Say(s, channel, answer))
  {
    var t := Say(s, channel, answer);
    TablesKept(s, t);
    forall k | k in s.inProgress ensures s.inProgress[k].channel != channel {
      assert s.inProgress[k].channel in Channels(s.inProgress);
    }
  }

  lemma StartKeepsInv(s: State, c: Command)
    requires Inv(s) && c.StartEpoch? && FreshFor(s, c)
    ensures Inv(OnStart(s, c))
  {
    var key := EpochKey(c.dataset, c.view.epochId);
    if key in s.inProgress || key in s.committed {
      SayKeepsInv(s, c.channel, Rejected(AlreadyExists));
    } else if !c.createOk || c.view.tableName in s.tables {
      SayKeepsInv(s, c.channel, Rejected(CreateFailed));
    } else {
      var ep := EpochInProgress(c.view, [], 0, 0, false, c.channel);
      StartTables(s, key, ep);
      StartCounts(s, key, ep);
      StartKeepsChannels(s, key, ep);
      SchemasIrrelevant(s.(tables := s.tables[c.view.tableName := []], inProgress := s.inProgress[key := ep]),
                        OnStart(s, c));
    }
  }

  /** Schemas, metrics and the running flag play no part in the invariant. */
  lemma SchemasIrrelevant(s: State, t: State)
    requires s.inProgress == t.inProgress && s.committed == t.committed && s.tables == t.tables
    ensures TablesOk(s) == TablesOk(t) && CountsOk(s) == CountsOk(t)
    ensures s.answers == t.answers ==> ChannelsOk(s) == ChannelsOk(t)
  {
    assert forall k :: k in Tracked(s) ==> TableOf(s, k) == TableOf(t, k);
    assert forall k :: k in Tracked(t) ==> TableOf(s, k) == TableOf(t, k);
  }

  /** The table and the buffer together after a flush that succeeded, and what a failed one leaves. */
  lemma FlushEffect(s: State, ep: EpochInProgress, flush: Flush)
    requires EpochOk(ep, s.tables) && !ep.failed && ep.view.tableName in s.tables
    ensures var (t, flushed, ok) := FlushPending(s, ep, flush);
            var name := ep.view.tableName;
            && t == s.(tables := t.tables, metrics := t.metrics)
            && t.tables.Keys == s.tables.Keys
            && (forall n :: n in s.tables && n != name ==> t.tables[n] == s.tables[n])
            && flushed.view == ep.view && flushed.channel == ep.channel && flushed.failed == ep.failed
            && flushed.pending == []
            && (ok ==> t.tables[name] == s.tables[name] + Flatten(ep.pending) && EpochOk(flushed, t.tables))
  {
    assert Flatten<Row>([]) == [];
  }

  /** Changing one tracked table and its owner leaves the other tables' counts alone. */
  lemma CountsElsewhere(s: State, key: string, tables: map<string, seq<Row>>)
    requires TablesOk(s) && CountsOk(s) && key in Tracked(s)
    requires forall n :: n in s.tables && n != TableOf(s, key) ==> n in tables && tables[n] == s.tables[n]
    ensures forall k :: k in s.inProgress && k != key ==> EpochOk(s.inProgress[k], tables)
    ensures forall k :: k in s.committed && k != key ==> CommittedOk(s.committed[k], tables)
  {
    forall k | k in s.inProgress && k != key ensures EpochOk(s.inProgress[k], tables) {
      assert k in Tracked(s) && TableOf(s, k) != TableOf(s, key) && TableOf(s, k) in s.tables;
    }
    forall k | k in s.committed && k != key ensures CommittedOk(s.committed[k], tables) {
      assert k in Tracked(s) && TableOf(s, k) != TableOf(s, key) && TableOf(s, k) in s.tables;
    }
  }

  lemma EpochFacts(s: State, key: string)
    requires Inv(s) && key in s.inProgress
    ensures EpochOk(s.inProgress[key], s.tables) && s.inProgress[key].view.tableName in s.tables
    ensures s.inProgress[key].channel !in s.answers && key !in s.committed
  {
    assert key in Tracked(s) && TableOf(s, key) in s.tables;
  }

  /** Ingesting touches one epoch and its own table. */
  ghost predicate OnlyEpoch(s: State, t: State, key: string)
    requires key in s.inProgress
  {
    && t.committed == s.committed && t.answers == s.answers
    && t.inProgress.Keys == s.inProgress.Keys && t.tables.Keys == s.tables.Keys
    && (forall k :: k in s.inProgress && k != key ==> t.inProgress[k] == s.inProgress[k])
    && t.inProgress[key].view == s.inProgress[key].view && t.inProgress[key].channel == s.inProgress[key].channel
    && forall n :: n in s.tables && n != s.inProgress[key].view.tableName ==> t.tables[n] == s.tables[n]
  }

  /** One more batch in the buffer. */
  function Buffered(ep: EpochInProgress, batch: Batch): EpochInProgress
  {
    ep.(pending := ep.pending + [batch], pendingRows := ep.pendingRows + |batch|)
  }

  lemma BufferedOk(ep: EpochInProgress, batch: Batch, tables: map<string, seq<Row>>)
    requires EpochOk(ep, tables) && !ep.failed
    ensures EpochOk(Buffered(ep, batch), tables)
    ensures Flatten(Buffered(ep, batch).pending) == Flatten(ep.pending) + batch
  {
    FlattenOne(ep.pending, batch);
  }

  lemma FlushedEpoch(s: State, key: string, batch: Batch, flush: Flush)
    requires key in s.inProgress && !s.inProgress[key].failed
    requires EpochOk(s.inProgress[key], s.tables) && s.inProgress[key].view.tableName in s.tables
    ensures var fuller := Buffered(s.inProgress[key], batch);
            var (t, flushed, ok) := FlushPending(s, fuller, flush);
            var ep := if ok then flushed else flushed.(pending := [], pendingRows := 0, failed := true);
            var u := t.(inProgress := s.inProgress[key := ep]);
            && OnlyEpoch(s, u, key) && EpochOk(ep, u.tables) && u.running == s.running
            && (ok ==> Stored(u, key) == Stored(s, key) + batch) && ep.failed == !ok
  {
    var fuller := Buffered(s.inProgress[key], batch);
    BufferedOk(s.inProgress[key], batch, s.tables);
    FlushEffect(s, fuller, flush);
    var rows := s.tables[fuller.view.tableName];
    assert rows + Flatten(fuller.pending) == rows + Flatten(s.inProgress[key].pending) + batch;
    assert Flatten<Row>([]) == [];
    var (t, flushed, ok) := FlushPending(s, fuller, flush);
    if ok {
      var name := fuller.view.tableName;
      assert t.tables[name] + [] == t.tables[name];
    }
  }

  lemma IngestEffect(s: State, c: Command, threshold: nat)
    requires c.IngestBatch? && c.key in s.inProgress && !s.inProgress[c.key].failed
    requires EpochOk(s.inProgress[c.key], s.tables) && s.inProgress[c.key].view.tableName in s.tables
    ensures var t := OnIngest(s, c, threshold);
            && OnlyEpoch(s, t, c.key) && t.running == s.running && EpochOk(t.inProgress[c.key], t.tables)
            && (!t.inProgress[c.key].failed ==> Stored(t, c.key) == Stored(s, c.key) + c.batch)
  {
    var ep := s.inProgress[c.key];
    if ep.pendingRows + |c.batch| < threshold {
      BufferedOk(ep, c.batch, s.tables);
      var rows := Rows(s.tables, ep.view.tableName);
      assert rows + (Flatten(ep.pending) + c.batch) == rows + Flatten(ep.pending) + c.batch;
    } else {
      FlushedEpoch(s, c.key, c.batch, c.flush);
    }
  }

  /** The rows of an epoch in progress: what is in its table and what is still buffered. */
  function Stored(s: State, key: string): seq<Row>
    requires key in s.inProgress
  {
    Rows(s.tables, s.inProgress[key].view.tableName) + Flatten(s.inProgress[key].pending)
  }

  lemma IngestKeepsInv(s: State, c: Command, threshold: nat)
    requires Inv(s) && c.IngestBatch?
    ensures Inv(OnIngest(s, c, threshold))
  {
    if c.key in s.inProgress && !s.inProgress[c.key].failed {
      EpochFacts(s, c.key);
      IngestEffect(s, c, threshold);
      UpdateKeepsInv(s, OnIngest(s, c, threshold), c.key);
    }
  }

  /** An in-progress epoch and its own table may change freely as long as its counters still agree. */
  lemma UpdateKeepsInv(s: State, t: State, key: string)
    requires Inv(s) && key in s.inProgress && OnlyEpoch(s, t, key) && EpochOk(t.inProgress[key], t.tables)
    ensures Inv(t)
  {
    assert key in Tracked(s) && TableOf(s, key) == s.inProgress[key].view.tableName;
    CountsElsewhere(s, key, t.tables);
    TablesKept(s, t);
    SameChannels(s, t);
  }

  lemma SameChannels(s: State, t: State)
    requires ChannelsOk(s) && t.answers == s.answers && t.inProgress.Keys == s.inProgress.Keys
    requires forall k :: k in s.inProgress ==> t.inProgress[k].channel == s.inProgress[k].channel
    ensures ChannelsOk(t)
  {
  }

  /** Finishing touches one epoch, its table and its channel. */
  ghost predicate OnlyRetires(s: State, t: State, key: string)
    requires key in s.inProgress
  {
    var ep := s.inProgress[key];
    && t.tables.Keys == s.tables.Keys && t.inProgress == s.inProgress - {key} && t.running == s.running
    && t.answers.Keys == s.answers.Keys + {ep.channel} && |t.answers[ep.channel]| == 1
    && (forall ch :: ch in s.answers ==> t.answers[ch] == s.answers[ch])
    && (forall n :: n in s.tables && n != ep.view.tableName ==> t.tables[n] == s.tables[n])
    && (|| (t.committed == s.committed && t.answers[ep.channel][0].Rejected?)
        || (key in t.committed && t.committed == s.committed[key := t.committed[key]] && !ep.failed
            && t.committed[key].0 == ep.view && CommittedOk(t.committed[key], t.tables)
            && t.answers[ep.channel] == [Loaded(t.committed[key].1)]
            && t.tables[ep.view.tableName] == Stored(s, key)))
  }

  /** Only the epoch's own table may have changed on the way to its answer. */
  ghost predicate OnlyTable(s: State, u: State, key: string)
    requires key in s.inProgress
  {
    && u == s.(inProgress := s.inProgress - {key}, tables := u.tables, metrics := u.metrics)
    && u.tables.Keys == s.tables.Keys
    && forall n :: n in s.tables && n != s.inProgress[key].view.tableName ==> u.tables[n] == s.tables[n]
  }

  lemma RetireRejected(s: State, u: State, key: string, reason: Reason)
    requires key in s.inProgress && OnlyTable(s, u, key) && s.inProgress[key].channel !in s.answers
    ensures OnlyRetires(s, Say(u, s.inProgress[key].channel, Rejected(reason)), key)
  {
  }

  lemma RetireLoaded(s: State, u: State, key: string, metadata: TableMetadata)
    requires key in s.inProgress && OnlyTable(s, u, key) && s.inProgress[key].channel !in s.answers
    requires var ep := s.inProgress[key];
             && CommittedOk((ep.view, metadata), u.tables) && ep.view.tableName in s.tables && !ep.failed
             && u.tables[ep.view.tableName] == Stored(s, key)
    ensures var ep := s.inProgress[key];
            OnlyRetires(s, Say(u.(committed := u.committed[key := (ep.view, metadata)]), ep.channel, Loaded(metadata)),
                        key)
  {
  }

  lemma FinishEffect(s: State, c: Command)
    requires c.FinishEpoch? && c.key in s.inProgress && c.key !in s.committed
    requires EpochOk(s.inProgress[c.key], s.tables) && s.inProgress[c.key].view.tableName in s.tables
    requires s.inProgress[c.key].channel !in s.answers
    ensures OnlyRetires(s, OnFinish(s, c), c.key)
  {
    var ep := s.inProgress[c.key];
    var rest := s.(inProgress := s.inProgress - {c.key});
    if ep.failed {
      RetireRejected(s, rest, c.key, FlushFailed);
    } else {
      FlushEffect(rest, ep, c.flush);
      var (u, flushed, ok) := FlushPending(rest, ep, c.flush);
      assert OnlyTable(s, u, c.key);
      if !ok {
        RetireRejected(s, u, c.key, FlushFailed);
      } else if flushed.committedRows == 0 {
        RetireRejected(s, u, c.key, EmptyStream);
      } else if !c.schemaOk {
        RetireRejected(s, u, c.key, SchemaFailed);
      } else {
        RetireLoaded(s, u, c.key, TableMetadata(ep.view.tableName, flushed.committedRows, c.bytes));
      }
    }
  }

  /** An epoch leaves the in-progress table: its channel is answered and it may become committed. */
  lemma RetireKeepsInv(s: State, t: State, key: string)
    requires Inv(s) && key in s.inProgress && OnlyRetires(s, t, key)
    ensures Inv(t)
  {
    assert key in Tracked(s) && TableOf(s, key) == s.inProgress[key].view.tableName;
    CountsElsewhere(s, key, t.tables);
    RetireTables(s, t, key);
    RetireChannels(s, t, key);
  }

  lemma RetireTables(s: State, t: State, key: string)
    requires TablesOk(s) && key in s.inProgress && t.tables.Keys == s.tables.Keys
    requires t.inProgress == s.inProgress - {key}
    requires || t.committed == s.committed
             || (key in t.committed && t.committed == s.committed[key := t.committed[key]]
                 && t.committed[key].0 == s.inProgress[key].view)
    ensures TablesOk(t)
  {
    forall k | k in Tracked(t) ensures k in Tracked(s) && TableOf(t, k) == TableOf(s, k) && TableOf(t, k) in t.tables {
      if k == key {
        assert TableOf(s, key) in s.tables;
      }
    }
    TablesKept(s, t);
  }

  lemma RetireChannels(s: State, t: State, key: string)
    requires ChannelsOk(s) && key in s.inProgress && t.inProgress == s.inProgress - {key}
    requires t.answers.Keys == s.answers.Keys + {s.inProgress[key].channel}
    requires |t.answers[s.inProgress[key].channel]| == 1
    requires forall ch :: ch in s.answers ==> t.answers[ch] == s.answers[ch]
    ensures ChannelsOk(t)
  {
    assert forall k :: k in t.inProgress ==> k in s.inProgress && t.inProgress[k] == s.inProgress[k] && k != key;
  }

  lemma FinishKeepsInv(s: State, c: Command)
    requires Inv(s) && c.FinishEpoch?
    ensures Inv(OnFinish(s, c))
  {
    if c.key in s.inProgress {
      EpochFacts(s, c.key);
      FinishEffect(s, c);
      RetireKeepsInv(s, OnFinish(s, c), c.key);
    }
  }

  lemma DropKeepsInv(s: State, c: Command)
    requires Inv(s) && c.DropEpoch?
    ensures Inv(OnDrop(s, c))
  {
    var key := EpochKey(c.dataset, c.epochId);
    if key !in s.inProgress && key in s.committed {
      var t := OnDrop(s, c);
      assert key in Tracked(s) && TableOf(s, key) == s.committed[key].0.tableName;
      CountsElsewhere(s, key, t.tables + map[TableOf(s, key) := []]);
      forall k | k in Tracked(t)
        ensures k in Tracked(s) && TableOf(t, k) == TableOf(s, k) && TableOf(t, k) in t.tables
      {
        assert TableOf(s, k) != TableOf(s, key);
      }
      TablesKept(s, t);
      forall k | k in s.inProgress ensures EpochOk(s.inProgress[k], t.tables) {
        assert k in Tracked(s) && TableOf(s, k) != TableOf(s, key);
      }
      forall k | k in t.committed ensures CommittedOk(s.committed[k], t.tables) {
        assert k in Tracked(s) && TableOf(s, k) != TableOf(s, key);
      }
    }
  }

  lemma ShutdownKeepsInv(s: State)
    requires Inv(s)
    ensures Inv(OnShutdown(s))
  {
    var t := OnShutdown(s);
    forall ch | ch in t.answers ensures |t.answers[ch]| == 1 {
      if ch in Channels(s.inProgress) {
        var k :| k in s.inProgress && s.inProgress[k].channel == ch;
      }
    }
    TablesKept(s, t);
  }

  /** Every command keeps the invariant, whatever the database does. */
  lemma StepKeepsInv(s: State, c: Command, threshold: nat)
    requires Inv(s) && FreshFor(s, c)
    ensures Inv(Step(s, c, threshold))
  {
    if s.running {
      match c
      case StartEpoch(_, _, _, _, _) =>
        StartKeepsInv(s, c);
        SchemasIrrelevant(OnStart(s, c), Step(s, c, threshold));
      case IngestBatch(_, _, _) =>
        IngestKeepsInv(s, c, threshold);
        SchemasIrrelevant(OnIngest(s, c, threshold), Step(s, c, threshold));
      case FinishEpoch(_, _, _, _) =>
        FinishKeepsInv(s, c);
        SchemasIrrelevant(OnFinish(s, c), Step(s, c, threshold));
      case DropEpoch(_, _, _) =>
        DropKeepsInv(s, c);
        SchemasIrrelevant(OnDrop(s, c), Step(s, c, threshold));
      case Shutdown => ShutdownKeepsInv(s);
    }
  }

  // ---------------------------------------------------------------------------
  // Runs: one answer per channel
  // ---------------------------------------------------------------------------

  lemma RunStep(s: State, trace: seq<Command>, c: Command, threshold: nat)
    ensures Run(s, trace + [c], threshold) == Step(Run(s, trace, threshold), c, threshold)
  {
    assert (trace + [c])[..|trace|] == trace;
  }

  function StartChannels(trace: seq<Command>): set<nat>
  {
    set i | 0 <= i < |trace| && trace[i].StartEpoch? :: trace[i].channel
  }

  /** Every StartEpoch command of the run brings its own reply channel. */
  predicate OwnChannels(trace: seq<Command>)
  {
    forall i, j :: 0 <= i < j < |trace| && trace[i].StartEpoch? && trace[j].StartEpoch? ==>
                     trace[i].channel != trace[j].channel
  }

  lemma StartUses(s: State, c: Command)
    requires c.StartEpoch?
    ensures Used(OnStart(s, c)) == Used(s) + {c.channel}
  {
    var key := EpochKey(c.dataset, c.view.epochId);
    var t := OnStart(s, c);
    if key !in s.inProgress && key !in s.committed && c.createOk && c.view.tableName !in s.tables {
      AddedChannel(s.inProgress, key, t.inProgress[key]);
    }
  }

  lemma AddedChannel(a: map<string, EpochInProgress>, key: string, ep: EpochInProgress)
    requires key !in a
    ensures Channels(a[key := ep]) == Channels(a) + {ep.channel}
  {
    var b := a[key := ep];
    assert b[key].channel == ep.channel;
    forall k | k in a ensures a[k].channel in Channels(b) {
      assert b[k] == a[k];
    }
  }

  lemma IngestUses(s: State, c: Command, threshold: nat)
    requires Inv(s) && c.IngestBatch?
    ensures Used(OnIngest(s, c, threshold)) == Used(s)
  {
    if c.key in s.inProgress && !s.inProgress[c.key].failed {
      EpochFacts(s, c.key);
      IngestEffect(s, c, threshold);
      SameChannelSet(s.inProgress, OnIngest(s, c, threshold).inProgress);
    }
  }

  lemma FinishKeepsUsed(s: State, c: Command)
    requires Inv(s) && c.FinishEpoch?
    ensures Used(OnFinish(s, c)) == Used(s)
  {
    if c.key in s.inProgress {
      EpochFacts(s, c.key);
      FinishEffect(s, c);
      FinishUses(s, OnFinish(s, c), c.key);
    }
  }

  lemma RefreshUses(s: State)
    ensures Used(Refresh(s)) == Used(s)
  {
  }

  lemma ShutdownUses(s: State)
    ensures Used(OnShutdown(s)) == Used(s)
  {
    assert Channels(map[]) == {};
  }

  lemma DropUses(s: State, c: Command)
    requires c.DropEpoch?
    ensures Used(OnDrop(s, c)) == Used(s)
  {
    assert OnDrop(s, c).inProgress == s.inProgress && OnDrop(s, c).answers == s.answers;
  }

  lemma OtherUses(s: State, c: Command, threshold: nat)
    requires Inv(s) && s.running && !c.StartEpoch?
    ensures Used(Step(s, c, threshold)) == Used(s)
  {
    match c
    case IngestBatch(_, _, _) => IngestUses(s, c, threshold); RefreshUses(OnIngest(s, c, threshold));
    case FinishEpoch(_, _, _, _) => FinishKeepsUsed(s, c); RefreshUses(OnFinish(s, c));
    case DropEpoch(_, _, _) => DropUses(s, c); RefreshUses(OnDrop(s, c));
    case Shutdown => ShutdownUses(s);
  }

  /** A channel is known from its command on, and never forgotten. */
  lemma StepUses(s: State, c: Command, threshold: nat)
    requires Inv(s)
    ensures s.running && c.StartEpoch? ==> Used(Step(s, c, threshold)) == Used(s) + {c.channel}
    ensures !(s.running && c.StartEpoch?) ==> Used(Step(s, c, threshold)) == Used(s)
  {
    if s.running {
      if c.StartEpoch? {
        StartUses(s, c);
        RefreshUses(OnStart(s, c));
      } else {
        OtherUses(s, c, threshold);
      }
    }
  }

  lemma SameChannelSet(a: map<string, EpochInProgress>, b: map<string, EpochInProgress>)
    requires a.Keys == b.Keys && forall k :: k in a ==> a[k].channel == b[k].channel
    ensures Channels(a) == Channels(b)
  {
    forall ch ensures ch in Channels(a) <==> ch in Channels(b) {
      if ch in Channels(a) {
        var k :| k in a && a[k].channel == ch;
        assert b[k].channel == ch;
      }
      if ch in Channels(b) {
        var k :| k in b && b[k].channel == ch;
        assert a[k].channel == ch;
      }
    }
  }

  lemma FinishUses(s: State, t: State, key: string)
    requires key in s.inProgress && OnlyRetires(s, t, key)
    ensures Used(t) == Used(s)
  {
    forall ch ensures ch in Used(t) <==> ch in Used(s) {
      if ch in Channels(s.inProgress) {
        var k :| k in s.inProgress && s.inProgress[k].channel == ch;
        if k != key {
          assert t.inProgress[k].channel == ch;
        }
      }
      if ch in Channels(t.inProgress) {
        var k :| k in t.inProgress && t.inProgress[k].channel == ch;
        assert s.inProgress[k].channel == ch;
      }
    }
  }

  /** The invariant holds after every run in which each StartEpoch brings its own channel. */
  lemma {:induction false} RunInvariant(trace: seq<Command>, threshold: nat)
    requires OwnChannels(trace)
    ensures Inv(Run(Initial(), trace, threshold))
    ensures Used(Run(Initial(), trace, threshold)) <= StartChannels(trace)
    ensures !Run(Initial(), trace, threshold).running ==> Run(Initial(), trace, threshold).inProgress == map[]
  {
    if trace != [] {
      var n := |trace| - 1;
      var init, c := trace[..n], trace[n];
      RunInvariant(init, threshold);
      var s := Run(Initial(), init, threshold);
      assert StartChannels(init) <= StartChannels(trace) by {
        assert forall i :: 0 <= i < n ==> init[i] == trace[i];
      }
      if c.StartEpoch? {
        assert c.channel !in StartChannels(init);
        assert trace[n].channel in StartChannels(trace);
      }
      StepKeepsInv(s, c, threshold);
      StepUses(s, c, threshold);
      StepStops(s, c, threshold);
    }
  }

  lemma StillRunning(s: State, c: Command, threshold: nat)
    requires s.running && !c.Shutdown?
    ensures Step(s, c, threshold).running
  {
    match c
    case StartEpoch(_, _, _, _, _) => assert OnStart(s, c).running;
    case IngestBatch(_, _, _) => assert OnIngest(s, c, threshold).running;
    case FinishEpoch(_, _, _, _) => assert OnFinish(s, c).running;
    case DropEpoch(_, _, _) => assert OnDrop(s, c).running;
  }

  lemma StepStops(s: State, c: Command, threshold: nat)
    requires !s.running ==> s.inProgress == map[]
    ensures !Step(s, c, threshold).running ==> Step(s, c, threshold).inProgress == map[]
  {
    if s.running && !c.Shutdown? {
      StillRunning(s, c, threshold);
    }
  }

  /**
   Every channel whose StartEpoch the engine received is either answered, exactly once, or held by one
   epoch in progress; after Shutdown all of them are answered.
   */
  lemma {:induction false} AnsweredOnce(trace: seq<Command>, i: int, threshold: nat)
    requires OwnChannels(trace) && 0 <= i < |trace| && trace[i].StartEpoch?
    requires Run(Initial(), trace[..i], threshold).running
    ensures var s, ch := Run(Initial(), trace, threshold), trace[i].channel;
            && (ch in s.answers <==> ch !in Channels(s.inProgress))
            && (ch in s.answers ==> |s.answers[ch]| == 1)
            && (!s.running ==> ch in s.answers)
  {
    UsedLater(trace, i, threshold);
    RunInvariant(trace, threshold);
    var s, ch := Run(Initial(), trace, threshold), trace[i].channel;
    if ch in Channels(s.inProgress) {
      var k :| k in s.inProgress && s.inProgress[k].channel == ch;
    }
  }

  lemma LastStepUses(trace: seq<Command>, threshold: nat)
    requires OwnChannels(trace) && trace != []
    ensures var n := |trace| - 1;
            var s := Run(Initial(), trace[..n], threshold);
            && Used(s) <= Used(Run(Initial(), trace, threshold))
            && (s.running && trace[n].StartEpoch? ==> trace[n].channel in Used(Run(Initial(), trace, threshold)))
  {
    var n := |trace| - 1;
    RunInvariant(trace[..n], threshold);
    StepUses(Run(Initial(), trace[..n], threshold), trace[n], threshold);
  }

  lemma {:induction false} UsedLater(trace: seq<Command>, i: int, threshold: nat)
    requires OwnChannels(trace) && 0 <= i < |trace| && trace[i].StartEpoch?
    requires Run(Initial(), trace[..i], threshold).running
    ensures trace[i].channel in Used(Run(Initial(), trace, threshold))
    decreases |trace|
  {
    LastStepUses(trace, threshold);
    var n := |trace| - 1;
    if i < n {
      var init := trace[..n];
      assert init[..i] == trace[..i] && init[i] == trace[i];
      UsedLater(init, i, threshold);
    }
  }

  /** Finishing an epoch in progress answers its channel, with success only if the epoch is committed. */
  lemma FinishAnswers(s: State, c: Command, threshold: nat)
    requires Inv(s) && s.running && c.FinishEpoch? && c.key in s.inProgress
    ensures var t, ch := Step(s, c, threshold), s.inProgress[c.key].channel;
            && c.key !in t.inProgress && ch in t.answers && |t.answers[ch]| == 1
            && (t.answers[ch][0].Loaded? <==> c.key in t.committed)
            && (c.key in t.committed ==> t.answers[ch] == [Loaded(t.committed[c.key].1)])
  {
    EpochFacts(s, c.key);
    FinishEffect(s, c);
    assert Step(s, c, threshold) == Refresh(OnFinish(s, c));
    RetiredAnswer(s, OnFinish(s, c), Step(s, c, threshold), c.key);
  }

  lemma RetiredAnswer(s: State, u: State, t: State, key: string)
    requires key in s.inProgress && key !in s.committed && OnlyRetires(s, u, key) && t == Refresh(u)
    ensures var ch := s.inProgress[key].channel;
            && key !in t.inProgress && ch in t.answers && |t.answers[ch]| == 1
            && (t.answers[ch][0].Loaded? <==> key in t.committed)
            && (key in t.committed ==> t.answers[ch] == [Loaded(t.committed[key].1)])
  {
  }
}
