/**
 Tables that no epoch owns any more: which commands leave one behind, and that nothing ever removes it.
 */
module EngineOrphans {
  import opened Common
  import opened EpochKeys
  import opened EngineModel
  import opened EngineRuns
  import opened EngineIsolation

  /** A table in the database that no epoch is responsible for. */
  ghost predicate Orphan(s: State, table: string)
  {
    && table in s.tables
    && (forall k :: k in s.inProgress ==> s.inProgress[k].view.tableName != table)
    && (forall k :: k in s.committed ==> s.committed[k].0.tableName != table)
  }

  /** The epoch cannot be committed: an earlier or the last flush fails, nothing was sent, or the schema query fails. */
  predicate CannotCommit(s: State, c: Command)
    requires c.FinishEpoch? && c.key in s.inProgress
  {
    var ep := s.inProgress[c.key];
    ep.failed || (ep.pending != [] && c.flush.FlushError?) || Stored(s, c.key) == [] || !c.schemaOk
  }

  /**
   The commands that leave a table behind, told from the state before them: a finish that cannot commit, a
   drop of a committed epoch whose DROP fails, and a shutdown with epochs in progress.
   */
  ghost predicate Abandons(s: State, c: Command, table: string)
  {
    match c
    case FinishEpoch(key, _, _, _) =>
      key in s.inProgress && s.inProgress[key].view.tableName == table && CannotCommit(s, c)
    case DropEpoch(dataset, epochId, dropOk) =>
      var key := EpochKey(dataset, epochId);
      key in s.committed && s.committed[key].0.tableName == table && !dropOk
    case Shutdown => exists k :: k in s.inProgress && s.inProgress[k].view.tableName == table
    case _ => false
  }

  lemma CommitsIff(s: State, c: Command)
    requires c.FinishEpoch? && c.key in s.inProgress && c.key !in s.committed
    requires EpochOk(s.inProgress[c.key], s.tables) && s.inProgress[c.key].view.tableName in s.tables
    ensures c.key in OnFinish(s, c).committed <==> !CannotCommit(s, c)
  {
    var ep, rest := s.inProgress[c.key], s.(inProgress := s.inProgress - {c.key});
    if !ep.failed {
      var (t, flushed, ok) := FlushPending(rest, ep, c.flush);
      assert t.committed == s.committed;
      assert ok <==> ep.pending == [] || c.flush.FlushOk?;
      assert Flatten<Row>([]) == [];
      assert ok ==> flushed.committedRows == |Stored(s, c.key)|;
    }
  }

  /** An epoch that leaves the in-progress table owns its table exactly when it is committed. */
  lemma RetiredOrphan(s: State, t: State, key: string, table: string)
    requires TablesOk(s) && key in s.inProgress && key !in s.committed && OnlyRetires(s, t, key)
    ensures Orphan(t, table) <==> Orphan(s, table) || (table == s.inProgress[key].view.tableName && key !in t.committed)
  {
    var own := s.inProgress[key].view.tableName;
    assert key in Tracked(s) && TableOf(s, key) == own && own in s.tables;
    if table == own {
      forall k | k in t.inProgress ensures t.inProgress[k].view.tableName != own {
        assert k in Tracked(s) && k != key && TableOf(s, k) != TableOf(s, key);
      }
      forall k | k in s.committed ensures s.committed[k].0.tableName != own {
        assert k in Tracked(s) && TableOf(s, k) != TableOf(s, key);
      }
    } else {
      RetiredOthers(s, t, key, table);
    }
  }

  lemma RetiredOthers(s: State, t: State, key: string, table: string)
    requires key in s.inProgress && key !in s.committed && OnlyRetires(s, t, key)
    requires table != s.inProgress[key].view.tableName
    ensures Orphan(t, table) <==> Orphan(s, table)
  {
    if Orphan(t, table) {
      forall k | k in s.inProgress ensures s.inProgress[k].view.tableName != table {
        assert k != key ==> k in t.inProgress;
      }
      forall k | k in s.committed ensures s.committed[k].0.tableName != table {
        assert k in t.committed && t.committed[k] == s.committed[k];
      }
    }
  }

  lemma FinishOrphans(s: State, c: Command, table: string)
    requires Inv(s) && c.FinishEpoch?
    ensures Orphan(OnFinish(s, c), table) <==> Orphan(s, table) || Abandons(s, c, table)
  {
    if c.key in s.inProgress {
      EpochFacts(s, c.key);
      FinishEffect(s, c);
      CommitsIff(s, c);
      RetiredOrphan(s, OnFinish(s, c), c.key, table);
    }
  }

  lemma DropOrphans(s: State, c: Command, table: string)
    requires Inv(s) && c.DropEpoch?
    ensures Orphan(OnDrop(s, c), table) <==> Orphan(s, table) || Abandons(s, c, table)
  {
    var key, t := EpochKey(c.dataset, c.epochId), OnDrop(s, c);
    if key in s.committed {
      assert key !in s.inProgress;
      var own := s.committed[key].0.tableName;
      assert key in Tracked(s) && TableOf(s, key) == own && own in s.tables;
      forall k | k in Tracked(s) && k != key ensures TableOf(s, k) != own {
      }
      if table == own {
        forall k | k in t.inProgress ensures t.inProgress[k].view.tableName != own {
          assert k in Tracked(s) && TableOf(s, k) != own;
        }
        forall k | k in t.committed ensures t.committed[k].0.tableName != own {
          assert k in Tracked(s) && TableOf(s, k) != own;
        }
      } else {
        DroppedOthers(s, t, key, table);
      }
    }
  }

  lemma DroppedOthers(s: State, t: State, key: string, table: string)
    requires key in s.committed && table != s.committed[key].0.tableName
    requires t.inProgress == s.inProgress && t.committed == s.committed - {key}
    requires table in t.tables <==> table in s.tables
    ensures Orphan(t, table) <==> Orphan(s, table)
  {
    if Orphan(t, table) {
      forall k | k in s.committed ensures s.committed[k].0.tableName != table {
        assert k != key ==> k in t.committed;
      }
    }
  }

  lemma ShutdownOrphans(s: State, table: string)
    requires TablesOk(s)
    ensures Orphan(OnShutdown(s), table) <==> Orphan(s, table) || Abandons(s, Shutdown, table)
  {
    if k :| k in s.inProgress && s.inProgress[k].view.tableName == table {
      assert k in Tracked(s) && TableOf(s, k) == table && table in s.tables;
      forall l | l in s.committed ensures s.committed[l].0.tableName != table {
        assert l in Tracked(s) && l != k && TableOf(s, l) != TableOf(s, k);
      }
    }
  }

  /** New and growing epochs own their tables. */
  lemma OwnedTables(s: State, t: State, table: string)
    requires t.committed == s.committed
    requires forall k :: k in s.inProgress ==> k in t.inProgress && t.inProgress[k].view == s.inProgress[k].view
    requires forall k :: k in t.inProgress && k !in s.inProgress ==> t.inProgress[k].view.tableName !in s.tables
    requires table in t.tables && table !in s.tables ==>
               exists k :: k in t.inProgress && t.inProgress[k].view.tableName == table
    requires table in s.tables ==> table in t.tables
    ensures Orphan(t, table) <==> Orphan(s, table)
  {
  }

  lemma StartOrphans(s: State, c: Command, table: string)
    requires c.StartEpoch?
    ensures Orphan(OnStart(s, c), table) <==> Orphan(s, table)
  {
    var t, key := OnStart(s, c), KeyOf(c);
    if key in t.inProgress && key !in s.inProgress {
      assert t.inProgress[key].view.tableName == c.view.tableName;
      OwnedTables(s, t, table);
    }
  }

  lemma IngestOrphans(s: State, c: Command, threshold: nat, table: string)
    requires Inv(s) && c.IngestBatch?
    ensures Orphan(OnIngest(s, c, threshold), table) <==> Orphan(s, table)
  {
    if c.key in s.inProgress && !s.inProgress[c.key].failed {
      EpochFacts(s, c.key);
      IngestEffect(s, c, threshold);
      OwnedTables(s, OnIngest(s, c, threshold), table);
    }
  }

  /** A step orphans a table exactly when the command abandons it; an orphaned table stays so. */
  lemma OrphanStepIff(s: State, c: Command, threshold: nat, table: string)
    requires Inv(s) && s.running
    ensures Orphan(Step(s, c, threshold), table) <==> Orphan(s, table) || Abandons(s, c, table)
  {
    if c.Shutdown? {
      ShutdownOrphans(s, table);
    } else {
      var t := Handled(s, c, threshold);
      assert Step(s, c, threshold) == Refresh(t);
      assert Orphan(Refresh(t), table) <==> Orphan(t, table);
      match c
      case StartEpoch(_, _, _, _, _) => StartOrphans(s, c, table);
      case IngestBatch(_, _, _) => IngestOrphans(s, c, threshold, table);
      case FinishEpoch(_, _, _, _) => FinishOrphans(s, c, table);
      case DropEpoch(_, _, _) => DropOrphans(s, c, table);
    }
  }

  /** The command at position `i` of the run is received and abandons the table. */
  ghost predicate AbandonedAt(trace: seq<Command>, i: int, threshold: nat, table: string)
    requires 0 <= i < |trace|
  {
    var s := Run(Initial(), trace[..i], threshold);
    s.running && Abandons(s, trace[i], table)
  }

  /** After every run, the tables that no epoch owns are exactly those that some command of the run abandoned. */
  lemma {:induction false} OrphansOfRun(trace: seq<Command>, threshold: nat, table: string)
    requires OwnChannels(trace)
    ensures Orphan(Run(Initial(), trace, threshold), table)
            <==> Abandoned(trace, threshold, table)
  {
    if trace != [] {
      var n := |trace| - 1;
      var init := trace[..n];
      OrphansOfRun(init, threshold, table);
      RunInvariant(init, threshold);
      LastAbandons(trace, threshold, table);
      var s := Run(Initial(), init, threshold);
      if s.running {
        OrphanStepIff(s, trace[n], threshold, table);
      }
    }
  }

  ghost predicate Abandoned(trace: seq<Command>, threshold: nat, table: string)
  {
    exists i :: 0 <= i < |trace| && AbandonedAt(trace, i, threshold, table)
  }

  lemma LastAbandons(trace: seq<Command>, threshold: nat, table: string)
    requires trace != []
    ensures var n := |trace| - 1;
            Abandoned(trace, threshold, table)
            <==> Abandoned(trace[..n], threshold, table) || AbandonedAt(trace, n, threshold, table)
  {
    var n := |trace| - 1;
    var init := trace[..n];
    forall i | 0 <= i < n ensures AbandonedAt(init, i, threshold, table) <==> AbandonedAt(trace, i, threshold, table) {
      assert init[..i] == trace[..i] && init[i] == trace[i];
    }
  }

  /** Commands that leave a table alone, and let no epoch take it over, leave it orphaned. */
  lemma StaysOrphan(s: State, t: State, table: string)
    requires Orphan(s, table) && table in t.tables && t.tables[table] == s.tables[table]
    requires forall l :: l in t.inProgress ==> || (l in s.inProgress && t.inProgress[l].view == s.inProgress[l].view)
                                               || t.inProgress[l].view.tableName != table
    requires forall l :: l in t.committed ==> || (l in s.committed && t.committed[l].0 == s.committed[l].0)
                                              || (l in s.inProgress && t.committed[l].0 == s.inProgress[l].view)
    ensures Orphan(t, table)
  {
  }

  lemma OrphanStart(s: State, c: Command, table: string)
    requires Orphan(s, table) && c.StartEpoch?
    ensures Orphan(OnStart(s, c), table) && OnStart(s, c).tables[table] == s.tables[table]
    ensures c.view.tableName == table ==> OnStart(s, c).inProgress == s.inProgress
  {
    StaysOrphan(s, OnStart(s, c), table);
  }

  lemma OrphanHandled(s: State, c: Command, threshold: nat, table: string)
    requires Orphan(s, table) && !c.Shutdown?
    ensures var t := Handled(s, c, threshold); Orphan(t, table) && t.tables[table] == s.tables[table]
  {
    match c
    case StartEpoch(_, _, _, _, _) => OrphanStart(s, c, table);
    case IngestBatch(key, _, _) =>
      if key in s.inProgress {
        IngestShape(s, c, threshold);
        StaysOrphan(s, OnIngest(s, c, threshold), table);
      }
    case FinishEpoch(key, _, _, _) =>
      if key in s.inProgress {
        FinishShape(s, c);
        StaysOrphan(s, OnFinish(s, c), table);
      }
    case DropEpoch(_, _, _) => StaysOrphan(s, OnDrop(s, c), table);
  }

  lemma OrphanStep(s: State, c: Command, threshold: nat, table: string)
    requires Orphan(s, table)
    ensures Orphan(Step(s, c, threshold), table) && Step(s, c, threshold).tables[table] == s.tables[table]
  {
    if s.running {
      if c.Shutdown? {
        StaysOrphan(s, OnShutdown(s), table);
      } else {
        var t := Handled(s, c, threshold);
        assert Step(s, c, threshold) == Refresh(t);
        OrphanHandled(s, c, threshold, table);
        StaysOrphan(t, Refresh(t), table);
      }
    }
  }

  /** No run ever removes or changes an orphaned table. */
  lemma {:induction false} OrphanForever(s: State, trace: seq<Command>, threshold: nat, table: string)
    requires Orphan(s, table)
    ensures Orphan(Run(s, trace, threshold), table) && Run(s, trace, threshold).tables[table] == s.tables[table]
  {
    if trace != [] {
      var n := |trace| - 1;
      OrphanForever(s, trace[..n], threshold, table);
      OrphanStep(Run(s, trace[..n], threshold), trace[n], threshold, table);
    }
  }

  /** After it was orphaned, no epoch can be started under its name: every attempt is rejected. */
  lemma OrphanBlocksName(s: State, trace: seq<Command>, threshold: nat, table: string, c: Command)
    requires Orphan(s, table) && c.StartEpoch? && c.view.tableName == table && Run(s, trace, threshold).running
    ensures var t := Run(s, trace, threshold);
            && Step(t, c, threshold).inProgress == t.inProgress
            && exists reason :: Sent(Step(t, c, threshold).answers, c.channel)
                                == Sent(t.answers, c.channel) + [Rejected(reason)]
  {
    OrphanForever(s, trace, threshold, table);
    var t := Run(s, trace, threshold);
    var reason := if KeyOf(c) in t.inProgress || KeyOf(c) in t.committed then AlreadyExists else CreateFailed;
    assert OnStart(t, c) == Say(t, c.channel, Rejected(reason));
    assert Sent(Step(t, c, threshold).answers, c.channel) == Sent(t.answers, c.channel) + [Rejected(reason)];
  }
}
