/**
 Running a plan level by level, and the agreement of the two schedulers.
 */
module StageExecution {
  import opened Common
  import opened StageGraph
  import opened Scheduler

  lemma {:induction false} FlattenMember(ss: seq<seq<StageId>>, x: StageId)
    ensures x in Flatten(ss) <==> exists k :: 0 <= k < |ss| && x in ss[k]
  {
    if ss != [] {
      FlattenMember(ss[1..], x);
      if x in Flatten(ss[1..]) {
        var k :| 0 <= k < |ss[1..]| && x in ss[1..][k];
        assert x in ss[k + 1];
      }
      if k :| 0 <= k < |ss| && x in ss[k] && k > 0 {
        assert x in ss[1..][k - 1];
      }
    }
  }

  /** The stages of the levels below `k`. */
  function Below(levels: seq<seq<StageId>>, k: nat): seq<StageId>
    requires k <= |levels|
  {
    Flatten(levels[..k])
  }

  lemma BelowMember(levels: seq<seq<StageId>>, k: nat, x: StageId)
    requires k <= |levels|
    ensures x in Below(levels, k) <==> exists j :: 0 <= j < k && x in levels[j]
  {
    FlattenMember(levels[..k], x);
    if j :| 0 <= j < k && x in levels[j] {
      assert x in levels[..k][j];
    }
    if j :| 0 <= j < |levels[..k]| && x in levels[..k][j] {
      assert x in levels[j];
    }
  }

  lemma LevelOf(p: Plan, levels: seq<seq<StageId>>, s: StageId) returns (k: nat)
    requires IsLevelling(p, levels) && s in Ids(p)
    ensures k < |levels| && s in levels[k] && LongestChain(p, s, k)
  {
    assert s in Flatten(levels);
    FlattenMember(levels, s);
    k :| 0 <= k < |levels| && s in levels[k];
  }

  /** Every source of a stage is on an earlier level. */
  lemma {:induction false} SourceBelow(p: Plan, levels: seq<seq<StageId>>, k: nat, e: Edge)
    requires IsLevelling(p, levels) && !HasDangling(p) && k < |levels| && e in p.edges && e.to in levels[k]
    ensures e.from in Below(levels, k)
  {
    FlattenMember(levels, e.to);
    assert e.to in Flatten(levels) && e.to in Ids(p);
    assert e.from in Ids(p) by {
      assert e.from !in Ids(p) ==> DanglingInto(p, e.to);
    }
    var j := LevelOf(p, levels, e.from);
    var w :| IsPath(p, w) && w[|w| - 1] == e.from && |w| == j + 1;
    AppendPath(p, w, e);
    var v := w + [e.to];
    assert IsPath(p, v) && v[|v| - 1] == e.to && |v| == j + 2;
    assert LongestChain(p, e.to, k);
    BelowMember(levels, k, e.from);
  }

  lemma AppendPath(p: Plan, w: seq<StageId>, e: Edge)
    requires IsPath(p, w) && e in p.edges && e.from == w[|w| - 1] && e.to in Ids(p)
    ensures IsPath(p, w + [e.to])
  {
    var v := w + [e.to];
    assert HasEdge(p, e.from, e.to);
    forall i | 0 <= i < |v| - 1 ensures HasEdge(p, v[i], v[i + 1]) {
      if i < |w| - 1 {
        assert HasEdge(p, w[i], w[i + 1]);
      }
    }
  }

  // ---------------------------------------------------------------------------
  // Execution
  // ---------------------------------------------------------------------------

  /** A stage handed to the executor together with the outputs it can read. */
  datatype Submission = Submission(stage: StageId, available: set<StageId>)

  function Stages(log: seq<Submission>): (s: seq<StageId>)
    ensures |s| == |log| && forall i :: 0 <= i < |s| ==> s[i] == log[i].stage
  {
    seq(|log|, i requires 0 <= i < |log| => log[i].stage)
  }

  /** Every submitted stage finds the outputs of all its sources. */
  ghost predicate InputsPresent(p: Plan, log: seq<Submission>)
  {
    forall i, e :: 0 <= i < |log| && e in p.edges && e.to == log[i].stage ==> e.from in log[i].available
  }

  /** All stages of one level are submitted against the same snapshot of the outputs. */
  method SubmitLevel(p: Plan, levels: seq<seq<StageId>>, k: nat, outputs: set<StageId>)
    returns (log: seq<Submission>)
    requires IsLevelling(p, levels) && !HasDangling(p) && k < |levels|
    requires forall s :: s in outputs <==> s in Below(levels, k)
    ensures Stages(log) == levels[k] && InputsPresent(p, log)
    ensures forall i :: 0 <= i < |log| ==> log[i].available == outputs
  {
    log := [];
    for i := 0 to |levels[k]|
      invariant |log| == i && Stages(log) == levels[k][..i]
      invariant forall j :: 0 <= j < |log| ==> log[j].available == outputs
      invariant InputsPresent(p, log)
    {
      var s := levels[k][i];
      forall e | e in p.edges && e.to == s ensures e.from in outputs {
        SourceBelow(p, levels, k, e);
      }
      log := log + [Submission(s, outputs)];
    }
    assert levels[k][..|levels[k]|] == levels[k];
  }

  /** The stage at this place fails, and no stage of a lower level or before it on its own level does. */
  ghost predicate FirstFailure(levels: seq<seq<StageId>>, succeeds: StageId -> bool, k: nat, i: nat)
  {
    && k < |levels| && i < |levels[k]| && !succeeds(levels[k][i])
    && (forall s :: s in Below(levels, k) ==> succeeds(s)) && forall s :: s in levels[k][..i] ==> succeeds(s)
  }

  /**
   The execution loop over levels; `succeeds` says which stages run without error.  Whatever fails,
   every stage is submitted at most once and with all its inputs; without failure all stages run.  The first
   failure is reported, and no level above it is submitted.
   */
  method ExecuteLevels(p: Plan, levels: seq<seq<StageId>>, succeeds: StageId -> bool)
    returns (r: Result<set<StageId>, StageId>, log: seq<Submission>)
    requires IsLevelling(p, levels) && !HasDangling(p)
    ensures InputsPresent(p, log) && NoDuplicates(Stages(log))
    ensures r.Ok? <==> forall s :: s in Ids(p) ==> succeeds(s)
    ensures r.Ok? ==> r.value == Ids(p) && Stages(log) == Flatten(levels)
    ensures r.Err? ==> exists k: nat, i: nat :: FirstFailure(levels, succeeds, k, i) && r.error == levels[k][i]
                                                && Stages(log) == Below(levels, k + 1)
  {
    var outputs: set<StageId> := {};
    log := [];
    for k := 0 to |levels|
      invariant forall s :: s in outputs <==> s in Below(levels, k)
      invariant forall s :: s in outputs ==> succeeds(s)
      invariant InputsPresent(p, log) && Stages(log) == Below(levels, k)
    {
      var batch := SubmitLevel(p, levels, k, outputs);
      BelowStep(levels, k);
      assert Stages(log + batch) == Stages(log) + Stages(batch);
      BelowDistinct(levels, k + 1);
      for i := 0 to |levels[k]|
        invariant forall s :: s in outputs <==> s in Below(levels, k) || s in levels[k][..i]
        invariant forall s :: s in outputs ==> succeeds(s)
      {
        var s := levels[k][i];
        if !succeeds(s) {
          FlattenMember(levels, s);
          assert s in Flatten(levels);
          assert FirstFailure(levels, succeeds, k, i) && Stages(log + batch) == Below(levels, k + 1);
          return Err(s), log + batch;
        }
        outputs := outputs + {s};
      }
      assert levels[k][..|levels[k]|] == levels[k];
      log := log + batch;
    }
    assert levels[..|levels|] == levels;
    assert forall s :: s in outputs <==> s in Flatten(levels);
    r := Ok(outputs);
  }

  lemma BelowStep(levels: seq<seq<StageId>>, k: nat)
    requires k < |levels|
    ensures Below(levels, k + 1) == Below(levels, k) + levels[k]
  {
    assert levels[..k + 1] == levels[..k] + [levels[k]];
    FlattenOne(levels[..k], levels[k]);
  }

  lemma BelowDistinct(levels: seq<seq<StageId>>, k: nat)
    requires k <= |levels| && NoDuplicates(Flatten(levels))
    ensures NoDuplicates(Below(levels, k)) && |Below(levels, k)| <= |Flatten(levels)|
  {
    assert levels == levels[..k] + levels[k..];
    FlattenAppend(levels[..k], levels[k..]);
    var all, low := Flatten(levels), Below(levels, k);
    assert forall i :: 0 <= i < |low| ==> low[i] == all[i];
  }

  // ---------------------------------------------------------------------------
  // Agreement
  // ---------------------------------------------------------------------------

  /** A set that is closed towards the front of a list without repetitions is a prefix of it. */
  lemma {:induction false} PrefixOf(order: seq<StageId>, members: set<StageId>)
    requires NoDuplicates(order) && forall s :: s in members ==> s in order
    requires forall i, j :: 0 <= i < j < |order| && order[j] in members ==> order[i] in members
    ensures |members| <= |order| && Lists(order[..|members|], members)
  {
    var m := 0;
    while m < |order| && order[m] in members
      invariant m <= |order| && forall i :: 0 <= i < m ==> order[i] in members
    {
      m := m + 1;
    }
    var front := order[..m];
    forall s | s in members ensures s in front {
      var i :| 0 <= i < |order| && order[i] == s;
      assert i < m;
      assert front[i] == s;
    }
    ListsSize(front, members);
  }

  /**
   On a plan that can be scheduled, the topological order lists level after level: its first part is,
   for every `k`, a reordering of the levels below `k`.
   */
  lemma {:induction false} SchedulersAgree(p: Plan, levels: seq<seq<StageId>>, order: seq<StageId>, k: nat)
    requires IsLevelling(p, levels) && IsTopological(p, order)
    requires !HasCycle(p) && !HasDangling(p) && k <= |levels|
    ensures Lists(order, Ids(p))
    ensures |Below(levels, k)| <= |order|
    ensures Lists(order[..|Below(levels, k)|], Elements(Below(levels, k)))
  {
    BlockedIffDefective(p);
    assert Ids(p) == set s | s in Ids(p) && !Blocked(p, s);
    var members := Elements(Below(levels, k));
    BelowDistinct(levels, k);
    ListsSize(Below(levels, k), members);
    forall s | s in members ensures s in order {
      BelowMember(levels, k, s);
      FlattenMember(levels, s);
      assert s in Flatten(levels);
    }
    forall i, j | 0 <= i < j < |order| && order[j] in members ensures order[i] in members {
      BelowMember(levels, k, order[j]);
      var b :| 0 <= b < k && order[j] in levels[b];
      assert order[i] in order;
      var a := LevelOf(p, levels, order[i]);
      assert LongestChain(p, order[j], b);
      BelowMember(levels, k, order[i]);
    }
    PrefixOf(order, members);
  }
}
