/**
 The storage engine as a state machine.  Commands carry the outcome of the database operations they
 trigger, so a run ranges over every way CREATE, appends, the schema query and DROP can fail.
 */
module EngineModel {
  import opened Common
  import opened EpochKeys

  type Row = int

  type Batch = seq<Row>

  datatype EpochView = EpochView(epochId: string, tableName: string)

  datatype TableMetadata = TableMetadata(tableName: string, totalRows: nat, totalBytes: nat)

  datatype Reason = AlreadyExists | CreateFailed | FlushFailed | EmptyStream | SchemaFailed | ShuttingDown

  /** The answer sent on the reply channel of a StartEpoch command. */
  datatype Answer = Loaded(metadata: TableMetadata) | Rejected(reason: Reason)

  /** How far the appender gets: all pending rows, or an error after some of them reached the table. */
  datatype Flush = FlushOk | FlushError(written: nat)

  datatype Command =
    | StartEpoch(dataset: string, view: EpochView, schema: int, channel: nat, createOk: bool)
    | IngestBatch(key: string, batch: Batch, flush: Flush)
    | FinishEpoch(key: string, flush: Flush, schemaOk: bool, bytes: nat)
    | DropEpoch(dataset: string, epochId: string, dropOk: bool)
    | Shutdown

  datatype EpochInProgress = EpochInProgress(
    view: EpochView,
    pending: seq<Batch>,
    pendingRows: nat,
    committedRows: nat,
    failed: bool,
    channel: nat)

  datatype Metrics = Metrics(batchesWritten: nat, rowsWritten: nat, flushes: nat, active: nat, committed: nat)

  datatype State = State(
    running: bool,
    inProgress: map<string, EpochInProgress>,
    committed: map<string, (EpochView, TableMetadata)>,
    schemas: map<string, int>,
    metrics: Metrics,
    tables: map<string, seq<Row>>,
    answers: map<nat, seq<Answer>>)

  function Initial(): State
  {
    State(true, map[], map[], map[], Metrics(0, 0, 0, 0, 0), map[], map[])
  }

  /** Everything that was sent on a reply channel, in order. */
  function Sent(answers: map<nat, seq<Answer>>, channel: nat): seq<Answer>
  {
    if channel in answers then answers[channel] else []
  }

  function Say(s: State, channel: nat, answer: Answer): State
  {
    s.(answers := s.answers[channel := Sent(s.answers, channel) + [answer]])
  }

  /** The rows an appender leaves in the table when it stops early. */
  function Written(rows: seq<Row>, n: nat): seq<Row> { if n <= |rows| then rows[..n] else rows }

  function Rows(tables: map<string, seq<Row>>, name: string): seq<Row> { if name in tables then tables[name] else [] }

  function AppendRows(s: State, name: string, rows: seq<Row>): State
  {
    s.(tables := s.tables[name := Rows(s.tables, name) + rows])
  }

  /** Flushing the pending batches of an epoch: the new state, the epoch, and whether it succeeded. */
  function FlushPending(s: State, ep: EpochInProgress, flush: Flush): (State, EpochInProgress, bool)
  {
    if ep.pending == [] then (s, ep, true)
    else
      var rows := Flatten(ep.pending);
      match flush
      case FlushOk =>
        (AppendRows(s, ep.view.tableName, rows)
         .(metrics := s.metrics.(batchesWritten := s.metrics.batchesWritten + 1,
                                 rowsWritten := s.metrics.rowsWritten + ep.pendingRows,
                                 flushes := s.metrics.flushes + 1)),
         ep.(pending := [], pendingRows := 0, committedRows := ep.committedRows + ep.pendingRows),
         true)
      case FlushError(n) => (AppendRows(s, ep.view.tableName, Written(rows, n)), ep.(pending := []), false)
  }

  function OnStart(s: State, c: Command): State
    requires c.StartEpoch?
  {
    var key := EpochKey(c.dataset, c.view.epochId);
    if key in s.inProgress || key in s.committed then Say(s, c.channel, Rejected(AlreadyExists))
    else if !c.createOk || c.view.tableName in s.tables then Say(s, c.channel, Rejected(CreateFailed))
    else
      s.(tables := s.tables[c.view.tableName := []],
         schemas := s.schemas[c.dataset := c.schema],
         inProgress := s.inProgress[key := EpochInProgress(c.view, [], 0, 0, false, c.channel)])
  }

  function OnIngest(s: State, c: Command, threshold: nat): State
    requires c.IngestBatch?
  {
    if c.key !in s.inProgress || s.inProgress[c.key].failed then s
    else
      var ep := s.inProgress[c.key];
      var fuller := ep.(pending := ep.pending + [c.batch], pendingRows := ep.pendingRows + |c.batch|);
      if fuller.pendingRows < threshold then s.(inProgress := s.inProgress[c.key := fuller])
      else
        var (t, flushed, ok) := FlushPending(s, fuller, c.flush);
        t.(inProgress := s.inProgress[c.key := if ok then flushed
                                               else flushed.(pending := [], pendingRows := 0, failed := true)])
  }

  /** The end of an epoch after its last flush: committed and answered, or only answered. */
  function Conclude(t: State, ep: EpochInProgress, ok: bool, c: Command): State
    requires c.FinishEpoch?
  {
    if !ok then Say(t, ep.channel, Rejected(FlushFailed))
    else if ep.committedRows == 0 then Say(t, ep.channel, Rejected(EmptyStream))
    else if !c.schemaOk then Say(t, ep.channel, Rejected(SchemaFailed))
    else
      var metadata := TableMetadata(ep.view.tableName, ep.committedRows, c.bytes);
      Say(t.(committed := t.committed[c.key := (ep.view, metadata)]), ep.channel, Loaded(metadata))
  }

  function OnFinish(s: State, c: Command): State
    requires c.FinishEpoch?
  {
    if c.key !in s.inProgress then s
    else
      var ep := s.inProgress[c.key];
      var rest := s.(inProgress := s.inProgress - {c.key});
      if ep.failed then Say(rest, ep.channel, Rejected(FlushFailed))
      else
        var (t, flushed, ok) := FlushPending(rest, ep, c.flush);
        Conclude(t, flushed, ok, c)
  }

  function OnDrop(s: State, c: Command): State
    requires c.DropEpoch?
  {
    var key := EpochKey(c.dataset, c.epochId);
    if key in s.inProgress || key !in s.committed then s
    else
      var view := s.committed[key].0;
      s.(committed := s.committed - {key}, tables := if c.dropOk then s.tables - {view.tableName} else s.tables)
  }

  function Channels(epochs: map<string, EpochInProgress>): set<nat> { set k | k in epochs :: epochs[k].channel }

  /** Every epoch in progress is told that the engine shuts down. */
  function OnShutdown(s: State): State
  {
    var waiting := Channels(s.inProgress);
    s.(running := false, inProgress := map[],
       answers := s.answers + map ch | ch in waiting :: Sent(s.answers, ch) + [Rejected(ShuttingDown)])
  }

  function Refresh(s: State): State
  {
    s.(metrics := s.metrics.(active := |s.inProgress|, committed := |s.committed|))
  }

  /** One turn of the command loop; after Shutdown no command is received any more. */
  function Step(s: State, c: Command, threshold: nat): State
  {
    if !s.running then s
    else
      match c
      case StartEpoch(_, _, _, _, _) => Refresh(OnStart(s, c))
      case IngestBatch(_, _, _) => Refresh(OnIngest(s, c, threshold))
      case FinishEpoch(_, _, _, _) => Refresh(OnFinish(s, c))
      case DropEpoch(_, _, _) => Refresh(OnDrop(s, c))
      case Shutdown => OnShutdown(s)
  }

  function Run(s: State, trace: seq<Command>, threshold: nat): State
  {
    if trace == [] then s else Step(Run(s, trace[..|trace| - 1], threshold), trace[|trace| - 1], threshold)
  }
}
