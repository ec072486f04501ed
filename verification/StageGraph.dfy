/**
 Stage graphs: paths, cycles, blocked stages and longest chains, stated without reference to any
 scheduling algorithm.  Stage ids need not be unique and edges may name stages that do not exist.
 */
module StageGraph {
  type StageId = nat

  datatype Edge = Edge(exchange: nat, from: StageId, to: StageId)

  datatype Plan = Plan(stages: seq<StageId>, edges: seq<Edge>, root: StageId)

  function Ids(p: Plan): set<StageId> { set s | s in p.stages }

  ghost predicate HasEdge(p: Plan, a: StageId, b: StageId)
  {
    exists e :: e in p.edges && e.from == a && e.to == b
  }

  /** An edge into the stage whose source is not a stage of the plan. */
  ghost predicate DanglingInto(p: Plan, s: StageId)
  {
    exists e :: e in p.edges && e.to == s && e.from !in Ids(p)
  }

  /** A walk along edges through stages of the plan. */
  ghost predicate IsPath(p: Plan, w: seq<StageId>)
  {
    && w != []
    && (forall i :: 0 <= i < |w| ==> w[i] in Ids(p))
    && (forall i :: 0 <= i < |w| - 1 ==> HasEdge(p, w[i], w[i + 1]))
  }

  ghost predicate IsCycle(p: Plan, w: seq<StageId>)
  {
    IsPath(p, w) && |w| >= 2 && w[0] == w[|w| - 1]
  }

  ghost predicate HasCycle(p: Plan) { exists w :: IsCycle(p, w) }

  ghost predicate HasDangling(p: Plan) { exists s :: s in Ids(p) && DanglingInto(p, s) }

  ghost predicate Root(p: Plan, s: StageId)
  {
    DanglingInto(p, s) || exists c :: IsCycle(p, c) && c[0] == s
  }

  /** A stage that can be reached from a cycle or from a missing stage. */
  ghost predicate Blocked(p: Plan, s: StageId)
  {
    exists w :: IsPath(p, w) && w[|w| - 1] == s && Root(p, w[0])
  }

  /** `k` is the number of edges of the longest chain that ends in the stage. */
  ghost predicate LongestChain(p: Plan, s: StageId, k: nat)
  {
    && (exists w :: IsPath(p, w) && w[|w| - 1] == s && |w| == k + 1)
    && (forall w :: IsPath(p, w) && w[|w| - 1] == s ==> |w| <= k + 1)
  }

  lemma LongestChainUnique(p: Plan, s: StageId, j: nat, k: nat)
    requires LongestChain(p, s, j) && LongestChain(p, s, k)
    ensures j == k
  {
  }

  lemma BlockedIffDefective(p: Plan)
    ensures (exists s :: s in Ids(p) && Blocked(p, s)) <==> HasCycle(p) || HasDangling(p)
  {
    if HasCycle(p) {
      var c :| IsCycle(p, c);
      assert IsPath(p, [c[0]]) && Root(p, [c[0]][0]);
      assert Blocked(p, c[0]);
    }
    if HasDangling(p) {
      var s :| s in Ids(p) && DanglingInto(p, s);
      assert IsPath(p, [s]) && Root(p, [s][0]);
      assert Blocked(p, s);
    }
    if exists s :: s in Ids(p) && Blocked(p, s) {
      var s :| s in Ids(p) && Blocked(p, s);
      var w :| IsPath(p, w) && w[|w| - 1] == s && Root(p, w[0]);
      assert w[0] in Ids(p);
    }
  }

  // ---------------------------------------------------------------------------
  // Levels
  // ---------------------------------------------------------------------------

  /**
   The stages of `done` carry levels such that each stage is one above the highest of its sources;
   in particular all sources are in `done`.
   */
  ghost predicate Levelled(p: Plan, done: set<StageId>, level: map<StageId, nat>)
  {
    && done <= Ids(p) && SourcesBelow(p, done, level)
    && (forall s :: s in done && level[s] > 0 ==> exists e :: AttainsLevel(p, done, level, s, e))
  }

  predicate SourcesBelow(p: Plan, done: set<StageId>, level: map<StageId, nat>)
  {
    && done <= level.Keys
    && forall e :: e in p.edges && e.to in done ==> e.from in done && level[e.from] < level[e.to]
  }

  ghost predicate AttainsLevel(p: Plan, done: set<StageId>, level: map<StageId, nat>, s: StageId, e: Edge)
    requires s in level && done <= level.Keys
  {
    e in p.edges && e.to == s && e.from in done && level[e.from] + 1 == level[s]
  }

  lemma PathSlice(p: Plan, w: seq<StageId>, i: nat, j: nat)
    requires IsPath(p, w) && i < j <= |w|
    ensures IsPath(p, w[i..j])
  {
    var v := w[i..j];
    forall k | 0 <= k < |v| - 1 ensures HasEdge(p, v[k], v[k + 1]) {
      assert HasEdge(p, w[i + k], w[i + k + 1]);
    }
  }

  lemma {:induction false} PathInDone(p: Plan, done: set<StageId>, level: map<StageId, nat>, w: seq<StageId>)
    requires SourcesBelow(p, done, level) && IsPath(p, w) && w[|w| - 1] in done
    ensures forall i :: 0 <= i < |w| ==> w[i] in done
    ensures level[w[0]] + |w| - 1 <= level[w[|w| - 1]]
    decreases |w|
  {
    if |w| > 1 {
      var n := |w|;
      assert HasEdge(p, w[n - 2], w[n - 2 + 1]);
      var e :| e in p.edges && e.from == w[n - 2] && e.to == w[n - 1];
      assert e.from in done && level[e.from] < level[e.to];
      PathSlice(p, w, 0, n - 1);
      var init := w[0..n - 1];
      PathInDone(p, done, level, init);
      assert forall i :: 0 <= i < n - 1 ==> init[i] == w[i];
    }
  }

  /** The level of a stage is the length of the longest chain of edges that ends in it. */
  lemma {:induction false} LevelIsLongestChain(p: Plan, done: set<StageId>, level: map<StageId, nat>, s: StageId)
    requires Levelled(p, done, level) && s in done
    ensures LongestChain(p, s, level[s])
  {
    var w := ChainTo(p, done, level, s);
    forall v | IsPath(p, v) && v[|v| - 1] == s ensures |v| <= level[s] + 1 {
      PathInDone(p, done, level, v);
    }
  }

  lemma {:induction false} ChainTo(p: Plan, done: set<StageId>, level: map<StageId, nat>, s: StageId)
    returns (w: seq<StageId>)
    requires Levelled(p, done, level) && s in done
    ensures IsPath(p, w) && w[|w| - 1] == s && |w| == level[s] + 1
    decreases level[s]
  {
    if level[s] == 0 {
      w := [s];
    } else {
      var e :| AttainsLevel(p, done, level, s, e);
      var v := ChainTo(p, done, level, e.from);
      w := v + [s];
      assert HasEdge(p, e.from, s);
      forall i | 0 <= i < |w| - 1 ensures HasEdge(p, w[i], w[i + 1]) {
        if i < |v| - 1 {
          assert HasEdge(p, v[i], v[i + 1]);
        }
      }
    }
  }

  /** A levelled stage is not blocked. */
  lemma {:induction false} LevelledNotBlocked(p: Plan, done: set<StageId>, level: map<StageId, nat>, s: StageId)
    requires Levelled(p, done, level) && s in done
    ensures !Blocked(p, s)
  {
    if Blocked(p, s) {
      var w :| IsPath(p, w) && w[|w| - 1] == s && Root(p, w[0]);
      PathInDone(p, done, level, w);
      if c :| IsCycle(p, c) && c[0] == w[0] {
        PathInDone(p, done, level, c);
      }
      assert false;
    }
  }

  // ---------------------------------------------------------------------------
  // Stages that are never released
  // ---------------------------------------------------------------------------

  /** Every stage of the set waits for a stage of the set or for a missing one. */
  ghost predicate Stuck(p: Plan, u: set<StageId>)
  {
    u <= Ids(p) && forall s :: s in u ==> DanglingInto(p, s) || exists v :: v in u && HasEdge(p, v, s)
  }

  lemma {:induction false} Pigeonhole(w: seq<StageId>, u: set<StageId>) returns (i: nat, j: nat)
    requires forall k :: 0 <= k < |w| ==> w[k] in u
    requires |w| > |u|
    ensures i < j < |w| && w[i] == w[j]
    decreases |w|
  {
    var x := w[0];
    if k :| 1 <= k < |w| && w[k] == x {
      i, j := 0, k;
    } else {
      var tail := w[1..];
      assert forall k :: 0 <= k < |tail| ==> tail[k] == w[k + 1];
      i, j := Pigeonhole(tail, u - {x});
      i, j := i + 1, j + 1;
    }
  }

  lemma {:induction false} LongWalkBlocked(p: Plan, u: set<StageId>, w: seq<StageId>)
    requires IsPath(p, w) && |w| > |u|
    requires forall k :: 0 <= k < |w| ==> w[k] in u
    ensures Blocked(p, w[|w| - 1])
  {
    var i, j := Pigeonhole(w, u);
    PathSlice(p, w, i, j + 1);
    PathSlice(p, w, i, |w|);
    var c, v := w[i..j + 1], w[i..];
    assert IsCycle(p, c) && c[0] == v[0];
    assert w[i..|w|] == v;
    assert IsPath(p, v) && v[|v| - 1] == w[|w| - 1] && Root(p, v[0]);
  }

  lemma PathExtend(p: Plan, v: StageId, w: seq<StageId>)
    requires IsPath(p, w) && v in Ids(p) && HasEdge(p, v, w[0])
    ensures IsPath(p, [v] + w)
  {
    var longer := [v] + w;
    forall k | 0 <= k < |longer| - 1 ensures HasEdge(p, longer[k], longer[k + 1]) {
      if k > 0 {
        assert HasEdge(p, w[k - 1], w[k - 1 + 1]);
      }
    }
  }

  /** Walking backwards inside a stuck set reaches a missing stage or closes a cycle. */
  lemma {:induction false} WalkBack(p: Plan, u: set<StageId>, w: seq<StageId>)
    requires Stuck(p, u) && IsPath(p, w)
    requires forall k :: 0 <= k < |w| ==> w[k] in u
    ensures Blocked(p, w[|w| - 1])
    decreases |u| + 1 - |w|
  {
    if |w| > |u| {
      LongWalkBlocked(p, u, w);
    } else if DanglingInto(p, w[0]) {
      assert Root(p, w[0]);
    } else {
      assert w[0] in u;
      var v :| v in u && HasEdge(p, v, w[0]);
      PathExtend(p, v, w);
      var longer := [v] + w;
      WalkBack(p, u, longer);
      assert longer[|longer| - 1] == w[|w| - 1];
    }
  }

  lemma StuckIsBlocked(p: Plan, u: set<StageId>, s: StageId)
    requires Stuck(p, u) && s in u
    ensures Blocked(p, s)
  {
    WalkBack(p, u, [s]);
  }

  /** A levelled set whose complement is stuck is exactly the set of stages that are not blocked. */
  lemma ReleasedIffUnblocked(p: Plan, done: set<StageId>, level: map<StageId, nat>)
    requires Levelled(p, done, level) && Stuck(p, Ids(p) - done)
    ensures done == set s | s in Ids(p) && !Blocked(p, s)
  {
    forall s | s in Ids(p) ensures s in done <==> !Blocked(p, s) {
      if s in done {
        LevelledNotBlocked(p, done, level, s);
      } else {
        StuckIsBlocked(p, Ids(p) - done, s);
      }
    }
  }
}
