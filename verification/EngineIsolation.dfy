/**
 Epochs do not influence each other: a run of the engine, seen from one epoch, is a run of a small machine that
 gets the commands for this epoch only.
 */
module EngineIsolation {
  import opened Common
  import opened EpochKeys
  import opened EngineModel
  import opened EngineRuns

  function KeyOf(c: Command): string
    requires !c.Shutdown?
  {
    match c
    case StartEpoch(d, view, _, _, _) => EpochKey(d, view.epochId)
    case IngestBatch(key, _, _) => key
    case FinishEpoch(key, _, _, _) => key
    case DropEpoch(d, epochId, _) => EpochKey(d, epochId)
  }

  predicate Concerns(c: Command, k: string) { c.Shutdown? || KeyOf(c) == k }

  /** The commands of a run that are about one epoch, and Shutdown. */
  function Project(trace: seq<Command>, k: string): seq<Command>
  {
    if trace == [] then []
    else
      var c := trace[|trace| - 1];
      Project(trace[..|trace| - 1], k) + (if Concerns(c, k) then [c] else [])
  }

  /** What one epoch sees: its key, one table and one reply channel. */
  datatype Slice = Slice(
    running: bool,
    epoch: Option<EpochInProgress>,
    entry: Option<(EpochView, TableMetadata)>,
    rows: Option<seq<Row>>,
    sent: seq<Answer>)

  function SliceOf(s: State, k: string, table: string, channel: nat): Slice
  {
    Slice(s.running,
          if k in s.inProgress then Some(s.inProgress[k]) else None,
          if k in s.committed then Some(s.committed[k]) else None,
          if table in s.tables then Some(s.tables[table]) else None,
          Sent(s.answers, channel))
  }

  /** The table is used by epoch `k` only, and so is the channel. */
  ghost predicate Private(s: State, k: string, table: string, channel: nat)
  {
    && (forall l :: l in s.inProgress ==> (l == k <==> s.inProgress[l].view.tableName == table))
    && (forall l :: l in s.inProgress && l != k ==> s.inProgress[l].channel != channel)
    && (forall l :: l in s.committed ==> (l == k <==> s.committed[l].0.tableName == table))
  }

  predicate Respects(c: Command, k: string, table: string, channel: nat)
  {
    c.StartEpoch? ==> (KeyOf(c) == k <==> c.view.tableName == table) && (KeyOf(c) != k ==> c.channel != channel)
  }

  /** Tables other than `name` are the same. */
  ghost predicate SameElsewhere(a: map<string, seq<Row>>, b: map<string, seq<Row>>, name: string)
  {
    forall n :: n != name ==> (n in a <==> n in b) && (n in a ==> a[n] == b[n])
  }

  lemma FlushShape(s: State, ep: EpochInProgress, flush: Flush)
    ensures var (t, flushed, ok) := FlushPending(s, ep, flush);
            && t == s.(tables := t.tables, metrics := t.metrics)
            && SameElsewhere(t.tables, s.tables, ep.view.tableName)
            && flushed.view == ep.view && flushed.channel == ep.channel
  {
  }

  /** Which parts of the state an ingest command can reach. */
  lemma IngestShape(s: State, c: Command, threshold: nat)
    requires c.IngestBatch? && c.key in s.inProgress
    ensures var t, ep := OnIngest(s, c, threshold), s.inProgress[c.key];
            && t.committed == s.committed && t.answers == s.answers && t.running == s.running
            && c.key in t.inProgress && t.inProgress == s.inProgress[c.key := t.inProgress[c.key]]
            && t.inProgress[c.key].view == ep.view && t.inProgress[c.key].channel == ep.channel
            && SameElsewhere(t.tables, s.tables, ep.view.tableName)
  {
    var ep := s.inProgress[c.key];
    assert s.inProgress == s.inProgress[c.key := ep];
    if !ep.failed && Buffered(ep, c.batch).pendingRows >= threshold {
      FlushShape(s, Buffered(ep, c.batch), c.flush);
    }
  }

  lemma ConcludeShape(t: State, ep: EpochInProgress, ok: bool, c: Command)
    requires c.FinishEpoch?
    ensures var r := Conclude(t, ep, ok, c);
            && r == t.(committed := r.committed, answers := r.answers)
            && (forall ch :: ch != ep.channel ==> Sent(r.answers, ch) == Sent(t.answers, ch))
            && (|| r.committed == t.committed
                || (c.key in r.committed && r.committed == t.committed[c.key := r.committed[c.key]]
                    && r.committed[c.key].0 == ep.view))
  {
  }

  /** Which parts of the state a finish command can reach. */
  lemma FinishShape(s: State, c: Command)
    requires c.FinishEpoch? && c.key in s.inProgress
    ensures var t, ep := OnFinish(s, c), s.inProgress[c.key];
            && t.inProgress == s.inProgress - {c.key} && t.running == s.running
            && SameElsewhere(t.tables, s.tables, ep.view.tableName)
            && (forall ch :: ch != ep.channel ==> Sent(t.answers, ch) == Sent(s.answers, ch))
            && (|| t.committed == s.committed
                || (c.key in t.committed && t.committed == s.committed[c.key := t.committed[c.key]]
                    && t.committed[c.key].0 == ep.view))
  {
    var ep, rest := s.inProgress[c.key], s.(inProgress := s.inProgress - {c.key});
    FlushShape(rest, ep, c.flush);
    var (t, flushed, ok) := FlushPending(rest, ep, c.flush);
    ConcludeShape(t, flushed, ok, c);
  }

  /** Epochs that keep their table and channel, or turn from in progress to committed. */
  lemma PrivateKept(s: State, t: State, k: string, table: string, channel: nat)
    requires Private(s, k, table, channel)
    requires forall l :: l in t.inProgress ==> l in s.inProgress && t.inProgress[l].view == s.inProgress[l].view
                                               && t.inProgress[l].channel == s.inProgress[l].channel
    requires forall l :: l in t.committed ==> || (l in s.committed && t.committed[l].0 == s.committed[l].0)
                                              || (l in s.inProgress && t.committed[l].0 == s.inProgress[l].view)
    ensures Private(t, k, table, channel)
  {
  }

  lemma PrivateStart(s: State, c: Command, k: string, table: string, channel: nat)
    requires Private(s, k, table, channel) && c.StartEpoch? && Respects(c, k, table, channel)
    ensures Private(OnStart(s, c), k, table, channel)
  {
    var t := OnStart(s, c);
    assert t.committed == s.committed;
    assert t.inProgress == s.inProgress
        || t.inProgress == s.inProgress[KeyOf(c) := EpochInProgress(c.view, [], 0, 0, false, c.channel)];
  }

  lemma PrivateHandled(s: State, c: Command, threshold: nat, k: string, table: string, channel: nat)
    requires Private(s, k, table, channel) && Respects(c, k, table, channel) && !c.Shutdown?
    ensures Private(Handled(s, c, threshold), k, table, channel)
  {
    match c
    case StartEpoch(_, _, _, _, _) => PrivateStart(s, c, k, table, channel);
    case IngestBatch(key, _, _) =>
      if key in s.inProgress {
        IngestShape(s, c, threshold);
        PrivateKept(s, OnIngest(s, c, threshold), k, table, channel);
      }
    case FinishEpoch(key, _, _, _) =>
      if key in s.inProgress {
        FinishShape(s, c);
        PrivateKept(s, OnFinish(s, c), k, table, channel);
      }
    case DropEpoch(_, _, _) => PrivateKept(s, OnDrop(s, c), k, table, channel);
  }

  lemma PrivateStep(s: State, c: Command, threshold: nat, k: string, table: string, channel: nat)
    requires Private(s, k, table, channel) && Respects(c, k, table, channel)
    ensures Private(Step(s, c, threshold), k, table, channel)
  {
    if s.running {
      if c.Shutdown? {
        PrivateKept(s, OnShutdown(s), k, table, channel);
      } else {
        var t := Handled(s, c, threshold);
        assert Step(s, c, threshold) == Refresh(t);
        PrivateHandled(s, c, threshold, k, table, channel);
        PrivateKept(t, Refresh(t), k, table, channel);
      }
    }
  }

  lemma ForeignStart(s: State, c: Command, k: string, table: string, channel: nat)
    requires Respects(c, k, table, channel) && c.StartEpoch? && KeyOf(c) != k
    ensures SliceOf(OnStart(s, c), k, table, channel) == SliceOf(s, k, table, channel)
  {
  }

  lemma ForeignFinish(s: State, c: Command, k: string, table: string, channel: nat)
    requires Private(s, k, table, channel) && c.FinishEpoch? && c.key != k
    ensures SliceOf(OnFinish(s, c), k, table, channel) == SliceOf(s, k, table, channel)
  {
    if c.key in s.inProgress {
      FinishShape(s, c);
      var t := OnFinish(s, c);
      assert s.inProgress[c.key].view.tableName != table && s.inProgress[c.key].channel != channel;
      assert Sent(t.answers, channel) == Sent(s.answers, channel);
    }
  }

  lemma ForeignIngest(s: State, c: Command, threshold: nat, k: string, table: string, channel: nat)
    requires Private(s, k, table, channel) && c.IngestBatch? && c.key != k
    ensures SliceOf(OnIngest(s, c, threshold), k, table, channel) == SliceOf(s, k, table, channel)
  {
    if c.key in s.inProgress {
      IngestShape(s, c, threshold);
    }
  }

  lemma ForeignDrop(s: State, c: Command, k: string, table: string, channel: nat)
    requires Private(s, k, table, channel) && c.DropEpoch? && KeyOf(c) != k
    ensures SliceOf(OnDrop(s, c), k, table, channel) == SliceOf(s, k, table, channel)
  {
  }

  lemma RefreshSlice(s: State, k: string, table: string, channel: nat)
    ensures SliceOf(Refresh(s), k, table, channel) == SliceOf(s, k, table, channel)
  {
  }

  /** What the loop does with a command before it refreshes the gauges. */
  function Handled(s: State, c: Command, threshold: nat): State
    requires !c.Shutdown?
  {
    match c
    case StartEpoch(_, _, _, _, _) => OnStart(s, c)
    case IngestBatch(_, _, _) => OnIngest(s, c, threshold)
    case FinishEpoch(_, _, _, _) => OnFinish(s, c)
    case DropEpoch(_, _, _) => OnDrop(s, c)
  }

  lemma ForeignHandled(s: State, c: Command, threshold: nat, k: string, table: string, channel: nat)
    requires Private(s, k, table, channel) && Respects(c, k, table, channel) && !Concerns(c, k)
    ensures SliceOf(Handled(s, c, threshold), k, table, channel) == SliceOf(s, k, table, channel)
  {
    match c
    case StartEpoch(_, _, _, _, _) => ForeignStart(s, c, k, table, channel);
    case IngestBatch(_, _, _) => ForeignIngest(s, c, threshold, k, table, channel);
    case FinishEpoch(_, _, _, _) => ForeignFinish(s, c, k, table, channel);
    case DropEpoch(_, _, _) => ForeignDrop(s, c, k, table, channel);
  }

  /** A command for another epoch changes nothing this epoch sees. */
  lemma ForeignStep(s: State, c: Command, threshold: nat, k: string, table: string, channel: nat)
    requires Private(s, k, table, channel) && Respects(c, k, table, channel) && !Concerns(c, k)
    ensures SliceOf(Step(s, c, threshold), k, table, channel) == SliceOf(s, k, table, channel)
  {
    if s.running {
      assert Step(s, c, threshold) == Refresh(Handled(s, c, threshold));
      RefreshSlice(Handled(s, c, threshold), k, table, channel);
      ForeignHandled(s, c, threshold, k, table, channel);
    }
  }

  // The machine of a single epoch: what its commands do to what it sees.

  function Tell(sl: Slice, mine: bool, answer: Answer): Slice
  {
    if mine then sl.(sent := sl.sent + [answer]) else sl
  }

  function FlushSlice(rows: seq<Row>, ep: EpochInProgress, flush: Flush): (seq<Row>, EpochInProgress, bool)
  {
    if ep.pending == [] then (rows, ep, true)
    else if flush.FlushOk? then
      (rows + Flatten(ep.pending),
       ep.(pending := [], pendingRows := 0, committedRows := ep.committedRows + ep.pendingRows), true)
    else (rows + Written(Flatten(ep.pending), flush.written), ep.(pending := []), false)
  }

  function RowsOf(sl: Slice): seq<Row> { if sl.rows.Some? then sl.rows.value else [] }

  function SliceStart(sl: Slice, c: Command, channel: nat): Slice
    requires c.StartEpoch?
  {
    if sl.epoch.Some? || sl.entry.Some? then Tell(sl, c.channel == channel, Rejected(AlreadyExists))
    else if !c.createOk || sl.rows.Some? then Tell(sl, c.channel == channel, Rejected(CreateFailed))
    else sl.(rows := Some([]), epoch := Some(EpochInProgress(c.view, [], 0, 0, false, c.channel)))
  }

  function SliceIngest(sl: Slice, c: Command, threshold: nat): Slice
    requires c.IngestBatch?
  {
    if sl.epoch.None? || sl.epoch.value.failed then sl
    else
      var fuller := Buffered(sl.epoch.value, c.batch);
      if fuller.pendingRows < threshold then sl.(epoch := Some(fuller))
      else
        var (rows, flushed, ok) := FlushSlice(RowsOf(sl), fuller, c.flush);
        sl.(rows := Some(rows),
            epoch := Some(if ok then flushed else flushed.(pending := [], pendingRows := 0, failed := true)))
  }

  function ConcludeSlice(t: Slice, ep: EpochInProgress, ok: bool, c: Command, channel: nat): Slice
    requires c.FinishEpoch?
  {
    var mine := ep.channel == channel;
    if !ok then Tell(t, mine, Rejected(FlushFailed))
    else if ep.committedRows == 0 then Tell(t, mine, Rejected(EmptyStream))
    else if !c.schemaOk then Tell(t, mine, Rejected(SchemaFailed))
    else
      var metadata := TableMetadata(ep.view.tableName, ep.committedRows, c.bytes);
      Tell(t.(entry := Some((ep.view, metadata))), mine, Loaded(metadata))
  }

  function SliceFinish(sl: Slice, c: Command, channel: nat): Slice
    requires c.FinishEpoch?
  {
    if sl.epoch.None? then sl
    else
      var ep, rest := sl.epoch.value, sl.(epoch := None);
      var mine := ep.channel == channel;
      if ep.failed then Tell(rest, mine, Rejected(FlushFailed))
      else
        var (rows, flushed, ok) := FlushSlice(RowsOf(sl), ep, c.flush);
        var t := if ep.pending == [] then rest else rest.(rows := Some(rows));
        ConcludeSlice(t, flushed, ok, c, channel)
  }

  function SliceDrop(sl: Slice, c: Command): Slice
    requires c.DropEpoch?
  {
    if sl.epoch.Some? || sl.entry.None? then sl
    else sl.(entry := None, rows := if c.dropOk then None else sl.rows)
  }

  function SliceShutdown(sl: Slice, channel: nat): Slice
  {
    var mine := sl.epoch.Some? && sl.epoch.value.channel == channel;
    Tell(sl, mine, Rejected(ShuttingDown)).(running := false, epoch := None)
  }

  function SliceStep(sl: Slice, c: Command, threshold: nat, channel: nat): Slice
  {
    if !sl.running then sl
    else
      match c
      case StartEpoch(_, _, _, _, _) => SliceStart(sl, c, channel)
      case IngestBatch(_, _, _) => SliceIngest(sl, c, threshold)
      case FinishEpoch(_, _, _, _) => SliceFinish(sl, c, channel)
      case DropEpoch(_, _, _) => SliceDrop(sl, c)
      case Shutdown => SliceShutdown(sl, channel)
  }

  /** Several turns of the machine of one epoch. */
  function SliceRun(sl: Slice, trace: seq<Command>, threshold: nat, channel: nat): Slice
  {
    if trace == [] then sl
    else SliceStep(SliceRun(sl, trace[..|trace| - 1], threshold, channel), trace[|trace| - 1], threshold, channel)
  }

  lemma OwnStart(s: State, c: Command, k: string, table: string, channel: nat)
    requires Respects(c, k, table, channel) && c.StartEpoch? && KeyOf(c) == k
    ensures SliceOf(OnStart(s, c), k, table, channel) == SliceStart(SliceOf(s, k, table, channel), c, channel)
  {
    if k in s.inProgress || k in s.committed {
      SayRefines(s, c.channel, Rejected(AlreadyExists), k, table, channel);
    } else if !c.createOk || table in s.tables {
      SayRefines(s, c.channel, Rejected(CreateFailed), k, table, channel);
    }
  }

  lemma FlushRefines(s: State, ep: EpochInProgress, flush: Flush)
    ensures var (t, flushed, ok) := FlushPending(s, ep, flush);
            && (Rows(t.tables, ep.view.tableName), flushed, ok)
               == FlushSlice(Rows(s.tables, ep.view.tableName), ep, flush)
            && (ep.pending == [] ==> t == s)
            && (ep.pending != [] ==> ep.view.tableName in t.tables)
  {
  }

  lemma OwnIngest(s: State, c: Command, threshold: nat, k: string, table: string, channel: nat)
    requires Private(s, k, table, channel) && c.IngestBatch? && c.key == k
    ensures SliceOf(OnIngest(s, c, threshold), k, table, channel)
            == SliceIngest(SliceOf(s, k, table, channel), c, threshold)
  {
    if k in s.inProgress {
      var fuller := Buffered(s.inProgress[k], c.batch);
      assert RowsOf(SliceOf(s, k, table, channel)) == Rows(s.tables, table);
      FlushRefines(s, fuller, c.flush);
      FlushShape(s, fuller, c.flush);
    }
  }

  lemma SayRefines(s: State, ch: nat, answer: Answer, k: string, table: string, channel: nat)
    ensures SliceOf(Say(s, ch, answer), k, table, channel)
            == Tell(SliceOf(s, k, table, channel), ch == channel, answer)
  {
  }

  lemma ConcludeRefines(t: State, ep: EpochInProgress, ok: bool, c: Command, k: string, table: string, channel: nat)
    requires c.FinishEpoch? && c.key == k
    ensures SliceOf(Conclude(t, ep, ok, c), k, table, channel)
            == ConcludeSlice(SliceOf(t, k, table, channel), ep, ok, c, channel)
  {
    if !ok || ep.committedRows == 0 || !c.schemaOk {
      var reason := if !ok then FlushFailed else if ep.committedRows == 0 then EmptyStream else SchemaFailed;
      SayRefines(t, ep.channel, Rejected(reason), k, table, channel);
    } else {
      var metadata := TableMetadata(ep.view.tableName, ep.committedRows, c.bytes);
      SayRefines(t.(committed := t.committed[c.key := (ep.view, metadata)]), ep.channel, Loaded(metadata),
                 k, table, channel);
    }
  }

  /** The state after a flush, as the epoch sees it. */
  lemma FlushedSlice(s: State, ep: EpochInProgress, flush: Flush, k: string, table: string, channel: nat)
    requires ep.view.tableName == table
    ensures var sl := SliceOf(s, k, table, channel);
            var (t, flushed, ok) := FlushPending(s, ep, flush);
            var (rows, after, done) := FlushSlice(RowsOf(sl), ep, flush);
            && flushed == after && ok == done
            && SliceOf(t, k, table, channel) == if ep.pending == [] then sl else sl.(rows := Some(rows))
  {
    assert RowsOf(SliceOf(s, k, table, channel)) == Rows(s.tables, table);
    FlushRefines(s, ep, flush);
    FlushShape(s, ep, flush);
  }

  lemma OwnFinish(s: State, c: Command, k: string, table: string, channel: nat)
    requires Private(s, k, table, channel) && c.FinishEpoch? && c.key == k
    ensures SliceOf(OnFinish(s, c), k, table, channel) == SliceFinish(SliceOf(s, k, table, channel), c, channel)
  {
    if k in s.inProgress {
      var ep, rest := s.inProgress[k], s.(inProgress := s.inProgress - {k});
      FlushedSlice(rest, ep, c.flush, k, table, channel);
      var (t, flushed, ok) := FlushPending(rest, ep, c.flush);
      ConcludeRefines(t, flushed, ok, c, k, table, channel);
      SayRefines(rest, ep.channel, Rejected(FlushFailed), k, table, channel);
    }
  }

  lemma OwnShutdown(s: State, k: string, table: string, channel: nat)
    requires Private(s, k, table, channel)
    ensures SliceOf(OnShutdown(s), k, table, channel) == SliceShutdown(SliceOf(s, k, table, channel), channel)
  {
    assert channel in Channels(s.inProgress) <==> k in s.inProgress && s.inProgress[k].channel == channel;
  }

  lemma OwnDrop(s: State, c: Command, k: string, table: string, channel: nat)
    requires Private(s, k, table, channel) && c.DropEpoch? && KeyOf(c) == k
    ensures SliceOf(OnDrop(s, c), k, table, channel) == SliceDrop(SliceOf(s, k, table, channel), c)
  {
  }

  lemma OwnHandled(s: State, c: Command, threshold: nat, k: string, table: string, channel: nat)
    requires Private(s, k, table, channel) && Respects(c, k, table, channel) && !c.Shutdown? && KeyOf(c) == k
    requires s.running
    ensures SliceOf(Handled(s, c, threshold), k, table, channel)
            == SliceStep(SliceOf(s, k, table, channel), c, threshold, channel)
  {
    match c
    case StartEpoch(_, _, _, _, _) => OwnStart(s, c, k, table, channel);
    case IngestBatch(_, _, _) => OwnIngest(s, c, threshold, k, table, channel);
    case FinishEpoch(_, _, _, _) => OwnFinish(s, c, k, table, channel);
    case DropEpoch(_, _, _) => OwnDrop(s, c, k, table, channel);
  }

  /** A command for this epoch does what the machine of this epoch does. */
  lemma OwnStep(s: State, c: Command, threshold: nat, k: string, table: string, channel: nat)
    requires Private(s, k, table, channel) && Respects(c, k, table, channel) && Concerns(c, k)
    ensures SliceOf(Step(s, c, threshold), k, table, channel)
            == SliceStep(SliceOf(s, k, table, channel), c, threshold, channel)
  {
    if s.running {
      if c.Shutdown? {
        OwnShutdown(s, k, table, channel);
      } else {
        assert Step(s, c, threshold) == Refresh(Handled(s, c, threshold));
        RefreshSlice(Handled(s, c, threshold), k, table, channel);
        OwnHandled(s, c, threshold, k, table, channel);
      }
    }
  }

  /** What an epoch sees of a run is what its own machine does with its own commands. */
  lemma {:induction false} RunRefinesEpoch(s: State, trace: seq<Command>, threshold: nat,
                                           k: string, table: string, channel: nat)
    requires Private(s, k, table, channel)
    requires forall c :: c in trace ==> Respects(c, k, table, channel)
    ensures Private(Run(s, trace, threshold), k, table, channel)
    ensures SliceOf(Run(s, trace, threshold), k, table, channel)
            == SliceRun(SliceOf(s, k, table, channel), Project(trace, k), threshold, channel)
  {
    if trace != [] {
      var n := |trace| - 1;
      var init, c := trace[..n], trace[n];
      RunRefinesEpoch(s, init, threshold, k, table, channel);
      var t := Run(s, init, threshold);
      PrivateStep(t, c, threshold, k, table, channel);
      if Concerns(c, k) {
        OwnStep(t, c, threshold, k, table, channel);
        assert (Project(init, k) + [c])[..|Project(init, k)|] == Project(init, k);
      } else {
        ForeignStep(t, c, threshold, k, table, channel);
        assert Project(trace, k) == Project(init, k) + [] == Project(init, k);
      }
    }
  }

  lemma {:induction false} ProjectTwice(trace: seq<Command>, k: string)
    ensures Project(Project(trace, k), k) == Project(trace, k)
    ensures forall c :: c in Project(trace, k) ==> c in trace
  {
    if trace != [] {
      var n := |trace| - 1;
      var init, c := trace[..n], trace[n];
      ProjectTwice(init, k);
      if Concerns(c, k) {
        assert (Project(init, k) + [c])[..|Project(init, k)|] == Project(init, k);
      } else {
        assert Project(trace, k) == Project(init, k) + [] == Project(init, k);
      }
    }
  }

  /**
   Epochs do not influence each other: with a table and a reply channel of its own, an epoch sees the
   same status, rows and answers whatever commands for other epochs are interleaved with its own.
   */
  lemma EpochIsolation(trace: seq<Command>, threshold: nat, k: string, table: string, channel: nat)
    requires forall c :: c in trace ==> Respects(c, k, table, channel)
    ensures SliceOf(Run(Initial(), trace, threshold), k, table, channel)
            == SliceOf(Run(Initial(), Project(trace, k), threshold), k, table, channel)
  {
    ProjectTwice(trace, k);
    RunRefinesEpoch(Initial(), trace, threshold, k, table, channel);
    RunRefinesEpoch(Initial(), Project(trace, k), threshold, k, table, channel);
  }
}
