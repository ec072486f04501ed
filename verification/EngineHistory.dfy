/**
 The history of the storage engine: after every run a committed table holds exactly the rows that were sent
 for its epoch during the load that committed it.
 */
module EngineHistory {
  import opened EpochKeys
  import opened EngineModel
  import opened EngineRuns

  // ---------------------------------------------------------------------------
  // Tables hold exactly what was ingested
  // ---------------------------------------------------------------------------

  /** The rows of all batches sent for a key, in order. */
  function Ingested(trace: seq<Command>, key: string): seq<Row>
  {
    if trace == [] then []
    else
      var c := trace[|trace| - 1];
      Ingested(trace[..|trace| - 1], key) + (if c.IngestBatch? && c.key == key then c.batch else [])
  }

  lemma IngestedStep(trace: seq<Command>, i: int, c: Command, key: string)
    requires 0 <= i <= |trace|
    ensures Ingested((trace + [c])[i..], key)
            == Ingested(trace[i..], key) + if c.IngestBatch? && c.key == key then c.batch else []
  {
    var longer := (trace + [c])[i..];
    assert longer == trace[i..] + [c];
    assert longer[..|longer| - 1] == trace[i..];
  }

  predicate Starts(c: Command, key: string, view: EpochView)
  {
    c.StartEpoch? && EpochKey(c.dataset, c.view.epochId) == key && c.view == view
  }

  /** The states of a run: `past[j]` is the state after `j` commands. */
  ghost predicate Records(trace: seq<Command>, past: seq<State>) { |past| == |trace| + 1 }

  /** The epoch enters the in-progress table with command `i` and stays there up to state `f`. */
  ghost predicate OpenDuring(past: seq<State>, key: string, i: int, f: int)
  {
    && 0 <= i < f < |past| && key !in Tracked(past[i])
    && forall j :: i < j <= f ==> key in past[j].inProgress
  }

  /** The epoch was opened by command `i`, and its table and buffer hold what was sent for it since. */
  ghost predicate OpenSince(trace: seq<Command>, past: seq<State>, key: string, i: int)
    requires Records(trace, past)
  {
    var s := past[|trace|];
    && OpenDuring(past, key, i, |trace|) && Starts(trace[i], key, s.inProgress[key].view)
    && (!s.inProgress[key].failed ==> Stored(s, key) == Ingested(trace[i + 1..], key))
  }

  /**
   The epoch was opened by command `i`, committed by command `f` and stayed committed; its table holds what was
   sent for it in between.
   */
  ghost predicate ClosedBetween(trace: seq<Command>, past: seq<State>, key: string, i: int, f: int)
    requires Records(trace, past)
  {
    var s := past[|trace|];
    && OpenDuring(past, key, i, f) && f < |trace| && trace[f].FinishEpoch? && trace[f].key == key
    && (forall j :: f < j <= |trace| ==> key in past[j].committed) && Starts(trace[i], key, s.committed[key].0)
    && Rows(s.tables, s.committed[key].0.tableName) == Ingested(trace[i + 1..f], key)
    && s.committed[key].1.totalBytes == trace[f].bytes
  }

  ghost predicate Faithful(trace: seq<Command>, past: seq<State>)
  {
    && Records(trace, past)
    && (forall k :: k in past[|trace|].inProgress ==> exists i :: OpenSince(trace, past, k, i))
    && (forall k :: k in past[|trace|].committed ==> exists i, f :: ClosedBetween(trace, past, k, i, f))
  }

  /** An epoch in progress that this step does not touch. */
  ghost predicate SameOpen(s: State, t: State, c: Command, k: string)
  {
    && k in s.inProgress && k in t.inProgress && t.inProgress[k] == s.inProgress[k]
    && Rows(t.tables, s.inProgress[k].view.tableName) == Rows(s.tables, s.inProgress[k].view.tableName)
    && (c.IngestBatch? && c.key == k ==> s.inProgress[k].failed)
  }

  ghost predicate SameClosed(s: State, t: State, k: string)
  {
    && k in s.committed && k in t.committed && t.committed[k] == s.committed[k]
    && Rows(t.tables, s.committed[k].0.tableName) == Rows(s.tables, s.committed[k].0.tableName)
  }

  lemma OpenLonger(past: seq<State>, t: State, key: string, i: int)
    requires OpenDuring(past, key, i, |past| - 1) && key in t.inProgress
    ensures OpenDuring(past + [t], key, i, |past|)
  {
    assert forall j :: 0 <= j < |past| ==> (past + [t])[j] == past[j];
  }

  lemma OpenStays(trace: seq<Command>, past: seq<State>, c: Command, t: State, key: string)
    requires Records(trace, past) && SameOpen(past[|trace|], t, c, key)
    requires exists i :: OpenSince(trace, past, key, i)
    ensures exists i :: OpenSince(trace + [c], past + [t], key, i)
  {
    var i :| OpenSince(trace, past, key, i);
    IngestedStep(trace, i + 1, c, key);
    OpenLonger(past, t, key, i);
    assert (trace + [c])[i] == trace[i];
    assert OpenSince(trace + [c], past + [t], key, i);
  }

  lemma ClosedStays(trace: seq<Command>, past: seq<State>, c: Command, t: State, key: string)
    requires Records(trace, past) && SameClosed(past[|trace|], t, key)
    requires exists i, f :: ClosedBetween(trace, past, key, i, f)
    ensures exists i, f :: ClosedBetween(trace + [c], past + [t], key, i, f)
  {
    var i, f :| ClosedBetween(trace, past, key, i, f);
    var longer := past + [t];
    assert forall j :: 0 <= j < |past| ==> longer[j] == past[j];
    assert (trace + [c])[i] == trace[i] && (trace + [c])[f] == trace[f];
    assert (trace + [c])[i + 1..f] == trace[i + 1..f];
    assert ClosedBetween(trace + [c], longer, key, i, f);
  }

  /** Epochs are untouched or accounted for. */
  lemma EpochwiseFaithful(trace: seq<Command>, past: seq<State>, c: Command, t: State)
    requires Faithful(trace, past)
    requires forall k :: k in t.inProgress ==>
               SameOpen(past[|trace|], t, c, k) || exists i :: OpenSince(trace + [c], past + [t], k, i)
    requires forall k :: k in t.committed ==>
               SameClosed(past[|trace|], t, k) || exists i, f :: ClosedBetween(trace + [c], past + [t], k, i, f)
    ensures Faithful(trace + [c], past + [t])
  {
    forall k | k in t.inProgress ensures exists i :: OpenSince(trace + [c], past + [t], k, i) {
      if SameOpen(past[|trace|], t, c, k) {
        OpenStays(trace, past, c, t, k);
      }
    }
    forall k | k in t.committed ensures exists i, f :: ClosedBetween(trace + [c], past + [t], k, i, f) {
      if SameClosed(past[|trace|], t, k) {
        ClosedStays(trace, past, c, t, k);
      }
    }
  }

  /** A table that is not the one of `k` can change without touching `k`. */
  lemma TableApart(s: State, k: string, name: string)
    requires TablesOk(s) && k in Tracked(s)
    requires name !in s.tables || exists l :: l in Tracked(s) && l != k && TableOf(s, l) == name
    ensures TableOf(s, k) != name && TableOf(s, k) in s.tables
  {
  }

  /** Steps that change at most one table, and no other epoch than `key`, leave the others alone. */
  lemma Elsewhere(s: State, c: Command, t: State, key: string, name: string)
    requires TablesOk(s) && (c.IngestBatch? && c.key in s.inProgress ==> c.key == key || s.inProgress[c.key].failed)
    requires name !in s.tables || (key in Tracked(s) && TableOf(s, key) == name)
    requires forall n :: n in s.tables && n != name ==> n in t.tables && t.tables[n] == s.tables[n]
    requires forall k :: k in t.inProgress && k != key ==> k in s.inProgress && t.inProgress[k] == s.inProgress[k]
    requires forall k :: k in t.committed && k != key ==> k in s.committed && t.committed[k] == s.committed[k]
    ensures forall k :: k in t.inProgress && k != key ==> SameOpen(s, t, c, k)
    ensures forall k :: k in t.committed && k != key ==> SameClosed(s, t, k)
  {
    forall k | k in t.inProgress && k != key ensures SameOpen(s, t, c, k) {
      TableApart(s, k, name);
      assert TableOf(s, k) == s.inProgress[k].view.tableName;
    }
    forall k | k in t.committed && k != key ensures SameClosed(s, t, k) {
      assert k in Tracked(s);
      TableApart(s, k, name);
      assert TableOf(s, k) == s.committed[k].0.tableName;
    }
  }

  lemma SameFaithful(trace: seq<Command>, past: seq<State>, c: Command, t: State)
    requires Faithful(trace, past)
    requires var s := past[|trace|];
             && s.inProgress == t.inProgress && s.committed == t.committed && s.tables == t.tables
             && (c.IngestBatch? && c.key in s.inProgress ==> s.inProgress[c.key].failed)
    ensures Faithful(trace + [c], past + [t])
  {
    assert forall k :: k in t.inProgress ==> SameOpen(past[|trace|], t, c, k);
    assert forall k :: k in t.committed ==> SameClosed(past[|trace|], t, k);
    EpochwiseFaithful(trace, past, c, t);
  }

  lemma OpenedNow(trace: seq<Command>, past: seq<State>, c: Command, t: State, key: string)
    requires Records(trace, past) && key !in Tracked(past[|trace|]) && key in t.inProgress
    requires Starts(c, key, t.inProgress[key].view) && Stored(t, key) == []
    ensures OpenSince(trace + [c], past + [t], key, |trace|)
  {
    assert (past + [t])[|trace|] == past[|trace|];
    assert (trace + [c])[|trace| + 1..] == [];
  }

  lemma OpenedFaithful(trace: seq<Command>, past: seq<State>, c: Command, t: State, key: string)
    requires Faithful(trace, past) && c.StartEpoch? && key == EpochKey(c.dataset, c.view.epochId)
    requires var s := past[|trace|];
             && TablesOk(s) && key !in Tracked(s) && c.view.tableName !in s.tables
             && t.tables == s.tables[c.view.tableName := []] && t.committed == s.committed
             && t.inProgress == s.inProgress[key := EpochInProgress(c.view, [], 0, 0, false, c.channel)]
    ensures Faithful(trace + [c], past + [t])
  {
    Elsewhere(past[|trace|], c, t, key, c.view.tableName);
    OpenedNow(trace, past, c, t, key);
    EpochwiseFaithful(trace, past, c, t);
  }

  lemma StartFaithful(trace: seq<Command>, past: seq<State>, c: Command)
    requires Faithful(trace, past) && TablesOk(past[|trace|]) && c.StartEpoch?
    ensures Faithful(trace + [c], past + [OnStart(past[|trace|], c)])
  {
    var s := past[|trace|];
    var key, t := EpochKey(c.dataset, c.view.epochId), OnStart(s, c);
    if key in s.inProgress || key in s.committed || !c.createOk || c.view.tableName in s.tables {
      SameFaithful(trace, past, c, t);
    } else {
      OpenedFaithful(trace, past, c, t, key);
    }
  }

  lemma UpdatedFaithful(trace: seq<Command>, past: seq<State>, c: Command, t: State)
    requires Faithful(trace, past) && c.IngestBatch?
    requires var s := past[|trace|];
             && TablesOk(s) && c.key in s.inProgress && c.key !in s.committed
             && !s.inProgress[c.key].failed && OnlyEpoch(s, t, c.key)
             && (!t.inProgress[c.key].failed ==> Stored(t, c.key) == Stored(s, c.key) + c.batch)
    ensures Faithful(trace + [c], past + [t])
  {
    var s := past[|trace|];
    UpdatedElsewhere(s, c, t);
    StillOpen(trace, past, c, t);
    EpochwiseFaithful(trace, past, c, t);
  }

  lemma UpdatedElsewhere(s: State, c: Command, t: State)
    requires c.IngestBatch? && TablesOk(s) && c.key in s.inProgress && c.key !in s.committed && OnlyEpoch(s, t, c.key)
    ensures forall k :: k in t.inProgress && k != c.key ==> SameOpen(s, t, c, k)
    ensures forall k :: k in t.committed ==> SameClosed(s, t, k)
  {
    assert c.key in Tracked(s) && TableOf(s, c.key) == s.inProgress[c.key].view.tableName;
    Elsewhere(s, c, t, c.key, TableOf(s, c.key));
  }

  lemma StillOpen(trace: seq<Command>, past: seq<State>, c: Command, t: State)
    requires Records(trace, past) && c.IngestBatch?
    requires var s := past[|trace|];
             && c.key in s.inProgress && !s.inProgress[c.key].failed && OnlyEpoch(s, t, c.key)
             && (!t.inProgress[c.key].failed ==> Stored(t, c.key) == Stored(s, c.key) + c.batch)
    requires exists i :: OpenSince(trace, past, c.key, i)
    ensures exists i :: OpenSince(trace + [c], past + [t], c.key, i)
  {
    var i :| OpenSince(trace, past, c.key, i);
    IngestedStep(trace, i + 1, c, c.key);
    OpenLonger(past, t, c.key, i);
    assert (trace + [c])[i] == trace[i];
    assert OpenSince(trace + [c], past + [t], c.key, i);
  }

  lemma IngestFaithful(trace: seq<Command>, past: seq<State>, c: Command, threshold: nat)
    requires Faithful(trace, past) && Inv(past[|trace|]) && c.IngestBatch?
    ensures Faithful(trace + [c], past + [OnIngest(past[|trace|], c, threshold)])
  {
    var s := past[|trace|];
    if c.key in s.inProgress && !s.inProgress[c.key].failed {
      EpochFacts(s, c.key);
      IngestEffect(s, c, threshold);
      UpdatedFaithful(trace, past, c, OnIngest(s, c, threshold));
    } else {
      SameFaithful(trace, past, c, s);
    }
  }

  lemma RetiredFaithful(trace: seq<Command>, past: seq<State>, c: Command, t: State)
    requires Faithful(trace, past) && c.FinishEpoch?
    requires var s := past[|trace|];
             && TablesOk(s) && c.key in s.inProgress && c.key !in s.committed
             && s.inProgress[c.key].view.tableName in s.tables && OnlyRetires(s, t, c.key)
             && (c.key in t.committed ==> t.committed[c.key].1.totalBytes == c.bytes)
    ensures Faithful(trace + [c], past + [t])
  {
    RetiredElsewhere(past[|trace|], c, t);
    if c.key in t.committed {
      ClosedNow(trace, past, c, t);
    }
    EpochwiseFaithful(trace, past, c, t);
  }

  lemma RetiredElsewhere(s: State, c: Command, t: State)
    requires TablesOk(s) && c.FinishEpoch? && c.key in s.inProgress && c.key !in s.committed
    requires s.inProgress[c.key].view.tableName in s.tables && OnlyRetires(s, t, c.key)
    ensures c.key !in t.inProgress
    ensures forall k :: k in t.inProgress && k != c.key ==> SameOpen(s, t, c, k)
    ensures forall k :: k in t.committed && k != c.key ==> SameClosed(s, t, k)
  {
    assert c.key in Tracked(s) && TableOf(s, c.key) == s.inProgress[c.key].view.tableName;
    Elsewhere(s, c, t, c.key, TableOf(s, c.key));
  }

  lemma ClosedNow(trace: seq<Command>, past: seq<State>, c: Command, t: State)
    requires Records(trace, past) && c.FinishEpoch?
    requires var s := past[|trace|];
             && c.key in s.inProgress && c.key !in s.committed && c.key in t.committed
             && s.inProgress[c.key].view.tableName in t.tables && OnlyRetires(s, t, c.key)
             && t.committed[c.key].1.totalBytes == c.bytes
    requires exists i :: OpenSince(trace, past, c.key, i)
    ensures exists i, f :: ClosedBetween(trace + [c], past + [t], c.key, i, f)
  {
    var i :| OpenSince(trace, past, c.key, i);
    var longer := past + [t];
    assert forall j :: 0 <= j < |past| ==> longer[j] == past[j];
    assert (trace + [c])[i] == trace[i] && (trace + [c])[i + 1..|trace|] == trace[i + 1..];
    assert ClosedBetween(trace + [c], longer, c.key, i, |trace|);
  }

  lemma ConcludeBytes(t: State, ep: EpochInProgress, ok: bool, c: Command)
    requires c.FinishEpoch? && c.key !in t.committed && c.key in Conclude(t, ep, ok, c).committed
    ensures Conclude(t, ep, ok, c).committed[c.key].1.totalBytes == c.bytes
  {
  }

  lemma FlushKeepsEntries(s: State, ep: EpochInProgress, flush: Flush)
    ensures FlushPending(s, ep, flush).0.committed == s.committed
  {
  }

  lemma FinishBytes(s: State, c: Command)
    requires c.FinishEpoch? && c.key in s.inProgress && c.key !in s.committed && c.key in OnFinish(s, c).committed
    ensures OnFinish(s, c).committed[c.key].1.totalBytes == c.bytes
  {
    var ep, rest := s.inProgress[c.key], s.(inProgress := s.inProgress - {c.key});
    var flushed := FlushPending(rest, ep, c.flush);
    FlushKeepsEntries(rest, ep, c.flush);
    ConcludeBytes(flushed.0, flushed.1, flushed.2, c);
  }

  lemma FinishFaithful(trace: seq<Command>, past: seq<State>, c: Command)
    requires Faithful(trace, past) && Inv(past[|trace|]) && c.FinishEpoch?
    ensures Faithful(trace + [c], past + [OnFinish(past[|trace|], c)])
  {
    var s := past[|trace|];
    if c.key in s.inProgress {
      EpochFacts(s, c.key);
      FinishEffect(s, c);
      if c.key in OnFinish(s, c).committed {
        FinishBytes(s, c);
      }
      RetiredFaithful(trace, past, c, OnFinish(s, c));
    } else {
      SameFaithful(trace, past, c, s);
    }
  }

  lemma DropFaithful(trace: seq<Command>, past: seq<State>, c: Command)
    requires Faithful(trace, past) && TablesOk(past[|trace|]) && c.DropEpoch?
    ensures Faithful(trace + [c], past + [OnDrop(past[|trace|], c)])
  {
    var s := past[|trace|];
    var t, key := OnDrop(s, c), EpochKey(c.dataset, c.epochId);
    if key !in s.inProgress && key in s.committed {
      assert key in Tracked(s);
      Elsewhere(s, c, t, key, s.committed[key].0.tableName);
      EpochwiseFaithful(trace, past, c, t);
    } else {
      SameFaithful(trace, past, c, s);
    }
  }

  lemma ShutdownFaithful(trace: seq<Command>, past: seq<State>, c: Command)
    requires Faithful(trace, past) && c.Shutdown?
    ensures Faithful(trace + [c], past + [OnShutdown(past[|trace|])])
  {
    var t := OnShutdown(past[|trace|]);
    assert forall k :: k in t.committed ==> SameClosed(past[|trace|], t, k);
    EpochwiseFaithful(trace, past, c, t);
  }

  // Of the last state only epochs and tables matter.

  predicate SameEpochs(s: State, t: State)
  {
    s.inProgress == t.inProgress && s.committed == t.committed && s.tables == t.tables
  }

  lemma OpenSame(trace: seq<Command>, past: seq<State>, s: State, t: State, k: string, i: int)
    requires |past| == |trace| && SameEpochs(s, t) && OpenSince(trace, past + [s], k, i)
    ensures OpenSince(trace, past + [t], k, i)
  {
    var a, b := past + [s], past + [t];
    assert a[|trace|] == s && b[|trace|] == t;
    assert forall j :: 0 <= j < |past| ==> a[j] == b[j];
  }

  lemma ClosedSame(trace: seq<Command>, past: seq<State>, s: State, t: State, k: string, i: int, f: int)
    requires |past| == |trace| && SameEpochs(s, t) && ClosedBetween(trace, past + [s], k, i, f)
    ensures ClosedBetween(trace, past + [t], k, i, f)
  {
    var a, b := past + [s], past + [t];
    assert a[|trace|] == s && b[|trace|] == t;
    assert forall j :: 0 <= j < |past| ==> a[j] == b[j];
  }

  lemma FaithfulSame(trace: seq<Command>, past: seq<State>, s: State, t: State)
    requires |past| == |trace| && Faithful(trace, past + [s]) && SameEpochs(s, t)
    ensures Faithful(trace, past + [t])
  {
    assert (past + [s])[|trace|] == s && (past + [t])[|trace|] == t;
    forall k | k in t.inProgress ensures exists i :: OpenSince(trace, past + [t], k, i) {
      var i :| OpenSince(trace, past + [s], k, i);
      OpenSame(trace, past, s, t, k, i);
    }
    forall k | k in t.committed ensures exists i, f :: ClosedBetween(trace, past + [t], k, i, f) {
      var i, f :| ClosedBetween(trace, past + [s], k, i, f);
      ClosedSame(trace, past, s, t, k, i, f);
    }
  }

  lemma HandledFaithful(trace: seq<Command>, past: seq<State>, c: Command, threshold: nat)
    requires Faithful(trace, past) && Inv(past[|trace|]) && past[|trace|].running
    ensures Faithful(trace + [c], past + [Step(past[|trace|], c, threshold)])
  {
    var s := past[|trace|];
    var t := Step(s, c, threshold);
    match c
    case StartEpoch(_, _, _, _, _) =>
      StartFaithful(trace, past, c);
      FaithfulSame(trace + [c], past, OnStart(s, c), t);
    case IngestBatch(_, _, _) =>
      IngestFaithful(trace, past, c, threshold);
      FaithfulSame(trace + [c], past, OnIngest(s, c, threshold), t);
    case FinishEpoch(_, _, _, _) =>
      FinishFaithful(trace, past, c);
      FaithfulSame(trace + [c], past, OnFinish(s, c), t);
    case DropEpoch(_, _, _) =>
      DropFaithful(trace, past, c);
      FaithfulSame(trace + [c], past, OnDrop(s, c), t);
    case Shutdown => ShutdownFaithful(trace, past, c);
  }

  lemma StepFaithful(trace: seq<Command>, past: seq<State>, c: Command, threshold: nat)
    requires Faithful(trace, past) && Inv(past[|trace|])
    requires !past[|trace|].running ==> past[|trace|].inProgress == map[]
    ensures Faithful(trace + [c], past + [Step(past[|trace|], c, threshold)])
  {
    if past[|trace|].running {
      HandledFaithful(trace, past, c, threshold);
    } else {
      SameFaithful(trace, past, c, past[|trace|]);
    }
  }

  /** The states that a run goes through. */
  ghost function States(trace: seq<Command>, threshold: nat): (past: seq<State>)
    ensures |past| == |trace| + 1 && past[|trace|] == Run(Initial(), trace, threshold)
    ensures forall j :: 0 <= j <= |trace| ==> past[j] == Run(Initial(), trace[..j], threshold)
  {
    assert trace[..|trace|] == trace;
    seq(|trace| + 1, j requires 0 <= j <= |trace| => Run(Initial(), trace[..j], threshold))
  }

  lemma StatesStep(trace: seq<Command>, c: Command, threshold: nat)
    ensures States(trace + [c], threshold)
            == States(trace, threshold) + [Step(Run(Initial(), trace, threshold), c, threshold)]
  {
    var longer := trace + [c];
    var next := Step(Run(Initial(), trace, threshold), c, threshold);
    var a, b := States(longer, threshold), States(trace, threshold) + [next];
    RunStep(Initial(), trace, c, threshold);
    forall j | 0 <= j < |a| ensures a[j] == b[j] {
      if j <= |trace| {
        assert longer[..j] == trace[..j];
      } else {
        assert longer[..j] == longer;
      }
    }
  }

  lemma NextFaithful(trace: seq<Command>, c: Command, threshold: nat)
    requires OwnChannels(trace) && Faithful(trace, States(trace, threshold))
    ensures Faithful(trace + [c], States(trace + [c], threshold))
  {
    RunInvariant(trace, threshold);
    StepFaithful(trace, States(trace, threshold), c, threshold);
    StatesStep(trace, c, threshold);
  }

  lemma NothingYet(threshold: nat)
    ensures Faithful([], States([], threshold))
  {
    assert States([], threshold)[0] == Initial();
  }

  lemma {:induction false} RunFaithful(trace: seq<Command>, threshold: nat)
    requires OwnChannels(trace)
    ensures Faithful(trace, States(trace, threshold))
  {
    if trace == [] {
      NothingYet(threshold);
    } else {
      var init, c := trace[..|trace| - 1], trace[|trace| - 1];
      assert trace == init + [c];
      RunFaithful(init, threshold);
      NextFaithful(init, c, threshold);
    }
  }

  /**
   After every run, whatever failed on the way, each committed table holds exactly the rows sent for its
   epoch during its last load, their number is its metadata's row count, and it is positive.
   */
  lemma CommittedTablesFaithful(trace: seq<Command>, threshold: nat)
    requires OwnChannels(trace)
    ensures Faithful(trace, States(trace, threshold))
    ensures var s := Run(Initial(), trace, threshold);
            forall k :: k in s.committed ==> CommittedOk(s.committed[k], s.tables)
  {
    RunInvariant(trace, threshold);
    RunFaithful(trace, threshold);
  }

  /** The load that the theorem speaks about is determined by the run: it is the one that committed the epoch. */
  lemma LoadIsUnique(trace: seq<Command>, threshold: nat, k: string, i: int, f: int, i': int, f': int)
    requires OwnChannels(trace)
    requires ClosedBetween(trace, States(trace, threshold), k, i, f)
    requires ClosedBetween(trace, States(trace, threshold), k, i', f')
    ensures i == i' && f == f'
  {
    if f != f' {
      NotBoth(trace, threshold, k, if f < f' then f' else f);
    }
  }

  /** No epoch is in progress and committed at once, at any moment of a run. */
  lemma NotBoth(trace: seq<Command>, threshold: nat, k: string, j: int)
    requires OwnChannels(trace) && 0 <= j <= |trace|
    ensures var s := States(trace, threshold)[j]; !(k in s.inProgress && k in s.committed)
  {
    RunInvariant(trace[..j], threshold);
  }

  /** With clean dataset ids, keys are matched and taken apart correctly after every run. */
  lemma KeysDecode(trace: seq<Command>, threshold: nat, d: string, k: string)
    requires OwnChannels(trace) && Clean(d) && k in Run(Initial(), trace, threshold).committed
    requires forall i :: 0 <= i < |trace| && trace[i].StartEpoch? ==> Clean(trace[i].dataset)
    ensures var view := Run(Initial(), trace, threshold).committed[k].0;
            && (StartsWith(k, d + "__") <==> k == EpochKey(d, view.epochId))
            && k == EpochKey(FirstPart(k), view.epochId)
  {
    CommittedTablesFaithful(trace, threshold);
    var i, f :| ClosedBetween(trace, States(trace, threshold), k, i, f);
    PrefixIff(d, trace[i].dataset, trace[i].view.epochId);
    FirstPartIff(trace[i].dataset, trace[i].view.epochId);
    if k == EpochKey(d, trace[i].view.epochId) {
      EpochKeyInjective(d, trace[i].view.epochId, trace[i].dataset, trace[i].view.epochId);
    }
  }
}
