/**
 A whole load from beginning to end, from any state the engine can be in: what it leaves behind when nothing
 fails, and that dropping the epoch takes it away again.
 */
module EnginePaths {
  import opened Common
  import opened EpochKeys
  import opened EngineModel
  import opened EngineRuns

  function Sending(key: string, batches: seq<Batch>): seq<Command>
  {
    seq(|batches|, i requires 0 <= i < |batches| => IngestBatch(key, batches[i], FlushOk))
  }

  lemma {:induction false} RunAppend(s: State, first: seq<Command>, second: seq<Command>, threshold: nat)
    ensures Run(s, first + second, threshold) == Run(Run(s, first, threshold), second, threshold)
  {
    if second == [] {
      assert first + second == first;
    } else {
      var n := |second| - 1;
      var init, c := second[..n], second[n];
      RunAppend(s, first, init, threshold);
      RunStep(s, first + init, c, threshold);
      RunStep(Run(s, first, threshold), init, c, threshold);
      assert second == init + [c] && first + second == first + init + [c];
    }
  }

  lemma RunOne(s: State, c: Command, threshold: nat)
    ensures Run(s, [c], threshold) == Step(s, c, threshold)
  {
    assert [c][..0] == [];
  }

  /** An epoch in progress that has met no error. */
  ghost predicate Healthy(s: State, key: string)
  {
    && s.running && key in s.inProgress && !s.inProgress[key].failed
    && EpochOk(s.inProgress[key], s.tables) && s.inProgress[key].view.tableName in s.tables
  }

  /** Nothing changed but the epoch's buffer, its table and the metrics. */
  ghost predicate OnlyFills(s: State, t: State, key: string)
    requires key in s.inProgress
  {
    OnlyEpoch(s, t, key) && t.schemas == s.schemas && t.running == s.running
  }

  lemma IngestFills(s: State, key: string, batch: Batch, threshold: nat)
    requires Healthy(s, key)
    ensures var t := Step(s, IngestBatch(key, batch, FlushOk), threshold);
            Healthy(t, key) && OnlyFills(s, t, key) && Stored(t, key) == Stored(s, key) + batch
  {
    var c := IngestBatch(key, batch, FlushOk);
    IngestEffect(s, c, threshold);
    assert !OnIngest(s, c, threshold).inProgress[key].failed && OnIngest(s, c, threshold).schemas == s.schemas;
  }

  /** All batches arrive, in order, wherever the threshold cuts them. */
  lemma {:induction false} SendingFills(s: State, key: string, batches: seq<Batch>, threshold: nat)
    requires Healthy(s, key)
    ensures var t := Run(s, Sending(key, batches), threshold);
            Healthy(t, key) && OnlyFills(s, t, key) && Stored(t, key) == Stored(s, key) + Flatten(batches)
  {
    if batches == [] {
      assert Stored(s, key) + [] == Stored(s, key);
    } else {
      var n := |batches| - 1;
      var init := batches[..n];
      SendingFills(s, key, init, threshold);
      assert Sending(key, batches)[..n] == Sending(key, init);
      FillsOn(s, Run(s, Sending(key, init), threshold), key, Flatten(init), batches[n], threshold);
      assert batches == init + [batches[n]];
      FlattenOne(init, batches[n]);
    }
  }

  lemma FillsOn(s: State, t: State, key: string, rows: seq<Row>, batch: Batch, threshold: nat)
    requires key in s.inProgress && Healthy(t, key) && OnlyFills(s, t, key) && Stored(t, key) == Stored(s, key) + rows
    ensures var u := Step(t, IngestBatch(key, batch, FlushOk), threshold);
            Healthy(u, key) && OnlyFills(s, u, key) && Stored(u, key) == Stored(s, key) + (rows + batch)
  {
    IngestFills(t, key, batch, threshold);
    FilledMore(s, t, Step(t, IngestBatch(key, batch, FlushOk), threshold), key, rows, batch);
  }

  lemma FilledMore(s: State, t: State, u: State, key: string, rows: seq<Row>, batch: Batch)
    requires key in s.inProgress && OnlyFills(s, t, key) && key in t.inProgress && OnlyFills(t, u, key)
    requires Stored(t, key) == Stored(s, key) + rows && key in u.inProgress && Stored(u, key) == Stored(t, key) + batch
    ensures OnlyFills(s, u, key) && Stored(u, key) == Stored(s, key) + (rows + batch)
  {
    OnlyFillsOn(s, t, u, key);
    assert Stored(s, key) + rows + batch == Stored(s, key) + (rows + batch);
  }

  lemma OnlyFillsOn(s: State, t: State, u: State, key: string)
    requires key in s.inProgress && OnlyFills(s, t, key) && key in t.inProgress && OnlyFills(t, u, key)
    ensures OnlyFills(s, u, key)
  {
  }

  /** The last flush of an epoch without errors moves its buffer into its table. */
  lemma LastFlush(s: State, ep: EpochInProgress)
    requires EpochOk(ep, s.tables) && !ep.failed && ep.view.tableName in s.tables
    ensures var (t, flushed, ok) := FlushPending(s, ep, FlushOk);
            var rows := s.tables[ep.view.tableName] + Flatten(ep.pending);
            && ok && t == s.(tables := s.tables[ep.view.tableName := rows], metrics := t.metrics)
            && flushed.view == ep.view && flushed.channel == ep.channel && flushed.committedRows == |rows|
  {
    FlushEffect(s, ep, FlushOk);
    var t := FlushPending(s, ep, FlushOk).0;
    assert t.tables == s.tables[ep.view.tableName := t.tables[ep.view.tableName]];
  }

  lemma ConcludeOk(t: State, ep: EpochInProgress, c: Command)
    requires c.FinishEpoch? && c.schemaOk && ep.channel !in t.answers
    ensures var n := ep.committedRows;
            var metadata := TableMetadata(ep.view.tableName, n, c.bytes);
            Conclude(t, ep, true, c)
            == t.(committed := if n == 0 then t.committed else t.committed[c.key := (ep.view, metadata)],
                  answers := t.answers[ep.channel := [if n == 0 then Rejected(EmptyStream) else Loaded(metadata)]])
  {
    forall answer: Answer ensures Sent(t.answers, ep.channel) + [answer] == [answer] {
    }
  }

  lemma FinishCommits(s: State, key: string, bytes: nat, threshold: nat)
    requires Healthy(s, key) && s.inProgress[key].channel !in s.answers
    ensures var t, ep := Step(s, FinishEpoch(key, FlushOk, true, bytes), threshold), s.inProgress[key];
            var rows, metadata := Stored(s, key), TableMetadata(ep.view.tableName, |Stored(s, key)|, bytes);
            t == s.(inProgress := s.inProgress - {key}, tables := s.tables[ep.view.tableName := rows],
                    committed := if rows == [] then s.committed else s.committed[key := (ep.view, metadata)],
                    metrics := t.metrics,
                    answers := s.answers[ep.channel := [if rows == [] then Rejected(EmptyStream)
                                                        else Loaded(metadata)]])
  {
    var c, ep := FinishEpoch(key, FlushOk, true, bytes), s.inProgress[key];
    var rest := s.(inProgress := s.inProgress - {key});
    LastFlush(rest, ep);
    var flushed := FlushPending(rest, ep, FlushOk);
    ConcludeOk(flushed.0, flushed.1, c);
  }

  function CleanLoad(d: string, view: EpochView, schema: int, channel: nat, batches: seq<Batch>, bytes: nat)
    : seq<Command>
  {
    var key := EpochKey(d, view.epochId);
    [StartEpoch(d, view, schema, channel, true)] + Sending(key, batches) + [FinishEpoch(key, FlushOk, true, bytes)]
  }

  predicate MayStart(s: State, d: string, view: EpochView, channel: nat)
  {
    && s.running && channel !in Used(s)
    && EpochKey(d, view.epochId) !in Tracked(s) && view.tableName !in s.tables
  }

  lemma StartOpens(s: State, d: string, view: EpochView, schema: int, channel: nat, threshold: nat)
    requires MayStart(s, d, view, channel)
    ensures var t, key := Step(s, StartEpoch(d, view, schema, channel, true), threshold), EpochKey(d, view.epochId);
            && t == s.(tables := s.tables[view.tableName := []], schemas := s.schemas[d := schema],
                       metrics := t.metrics,
                       inProgress := s.inProgress[key := EpochInProgress(view, [], 0, 0, false, channel)])
            && Healthy(t, key) && Stored(t, key) == []
  {
    var t, key := Step(s, StartEpoch(d, view, schema, channel, true), threshold), EpochKey(d, view.epochId);
    assert key !in s.inProgress && key !in s.committed;
    assert Flatten<Row>([]) == [];
  }

  /**
   A load that meets no error: the epoch is committed, its table holds the rows of all batches in order, and the
   caller is told so; an empty one is refused.  Nothing else changes but the dataset's schema and the metrics.
   */
  lemma LoadCommits(s: State, d: string, view: EpochView, schema: int, channel: nat, batches: seq<Batch>, bytes: nat,
                    threshold: nat)
    requires MayStart(s, d, view, channel)
    ensures var t, rows := Run(s, CleanLoad(d, view, schema, channel, batches, bytes), threshold), Flatten(batches);
            var metadata := TableMetadata(view.tableName, |rows|, bytes);
            t == s.(committed := if rows == [] then s.committed
                                 else s.committed[EpochKey(d, view.epochId) := (view, metadata)],
                    tables := s.tables[view.tableName := rows], schemas := s.schemas[d := schema], metrics := t.metrics,
                    answers := s.answers[channel := [if rows == [] then Rejected(EmptyStream) else Loaded(metadata)]])
  {
    var key, start := EpochKey(d, view.epochId), StartEpoch(d, view, schema, channel, true);
    var finish := FinishEpoch(key, FlushOk, true, bytes);
    RunAppend(s, [start] + Sending(key, batches), [finish], threshold);
    RunAppend(s, [start], Sending(key, batches), threshold);
    RunOne(s, start, threshold);
    StartOpens(s, d, view, schema, channel, threshold);
    var t1 := Step(s, start, threshold);
    SendingFills(t1, key, batches, threshold);
    var t2 := Run(t1, Sending(key, batches), threshold);
    RunOne(t2, finish, threshold);
    FinishCommits(t2, key, bytes, threshold);
    FilledState(s, t1, t2, key, view.tableName, Flatten(batches));
    assert Stored(t2, key) == Flatten(batches);
  }

  lemma FilledState(s: State, t1: State, t2: State, key: string, table: string, rows: seq<Row>)
    requires key in t1.inProgress && OnlyFills(t1, t2, key) && t1.inProgress[key].view.tableName == table
    requires key !in s.inProgress && t1.inProgress == s.inProgress[key := t1.inProgress[key]]
    requires t1.tables == s.tables[table := []]
    ensures t2.inProgress - {key} == s.inProgress
    ensures t2.tables[table := rows] == s.tables[table := rows]
  {
    assert t2.tables.Keys == s.tables.Keys + {table};
  }

  lemma DropRemoves(s: State, d: string, epochId: string, threshold: nat)
    requires s.running && EpochKey(d, epochId) !in s.inProgress && EpochKey(d, epochId) in s.committed
    ensures var t, key := Step(s, DropEpoch(d, epochId, true), threshold), EpochKey(d, epochId);
            t == s.(committed := s.committed - {key}, tables := s.tables - {s.committed[key].0.tableName},
                    metrics := t.metrics)
  {
  }

  /** Dropping a freshly loaded epoch leaves the epochs and tables as they were before the load. */
  lemma DropUndoesLoad(s: State, d: string, view: EpochView, schema: int, channel: nat, batches: seq<Batch>, bytes: nat,
                       threshold: nat)
    requires MayStart(s, d, view, channel) && Flatten(batches) != []
    ensures var load := CleanLoad(d, view, schema, channel, batches, bytes);
            var t := Run(s, load + [DropEpoch(d, view.epochId, true)], threshold);
            t.inProgress == s.inProgress && t.committed == s.committed && t.tables == s.tables && t.running
  {
    var load, drop := CleanLoad(d, view, schema, channel, batches, bytes), DropEpoch(d, view.epochId, true);
    RunAppend(s, load, [drop], threshold);
    LoadCommits(s, d, view, schema, channel, batches, bytes, threshold);
    var t := Run(s, load, threshold);
    RunOne(t, drop, threshold);
    DropUndoes(s, t, d, view.epochId, view.tableName, threshold);
  }

  lemma DropUndoes(s: State, t: State, d: string, epochId: string, table: string, threshold: nat)
    requires EpochKey(d, epochId) !in Tracked(s) && table !in s.tables && t.running && t.inProgress == s.inProgress
    requires var key := EpochKey(d, epochId);
             && key in t.committed && t.committed[key].0.tableName == table && table in t.tables
             && t.committed == s.committed[key := t.committed[key]] && t.tables == s.tables[table := t.tables[table]]
    ensures var u := Step(t, DropEpoch(d, epochId, true), threshold);
            u.inProgress == s.inProgress && u.committed == s.committed && u.tables == s.tables && u.running
  {
    var key := EpochKey(d, epochId);
    assert key !in s.inProgress && key !in s.committed;
    DropRemoves(t, d, epochId, threshold);
    RemoveAdded(s.committed, t.committed, key);
    RemoveAdded(s.tables, t.tables, table);
  }

  lemma RemoveAdded<K, V>(a: map<K, V>, b: map<K, V>, k: K)
    requires k !in a && k in b && b == a[k := b[k]]
    ensures b - {k} == a
  {
  }
}
