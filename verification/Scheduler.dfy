/**
 The two schedulers of stage graphs: the coordinator's execution levels and the plan's topological
 order.  Both count the unfinished sources of every stage and release a stage when the count drops to 0.
 */
module Scheduler {
  import opened Common
  import opened StageGraph

  // ---------------------------------------------------------------------------
  // Counting unfinished sources
  // ---------------------------------------------------------------------------

  function Weight(e: Edge, done: set<StageId>, s: StageId): nat
  {
    if e.to == s && e.from !in done then 1 else 0
  }

  /** The number of edges into the stage whose source is not done. */
  function Pending(edges: seq<Edge>, done: set<StageId>, s: StageId): nat
  {
    if edges == [] then 0 else Pending(edges[..|edges| - 1], done, s) + Weight(edges[|edges| - 1], done, s)
  }

  lemma {:induction false} PendingAppend(a: seq<Edge>, b: seq<Edge>, done: set<StageId>, s: StageId)
    ensures Pending(a + b, done, s) == Pending(a, done, s) + Pending(b, done, s)
  {
    if b == [] {
      assert a + b == a;
    } else {
      assert (a + b)[..|a + b| - 1] == a + b[..|b| - 1];
      PendingAppend(a, b[..|b| - 1], done, s);
    }
  }

  lemma {:induction false} PendingZeroIff(edges: seq<Edge>, done: set<StageId>, s: StageId)
    ensures Pending(edges, done, s) == 0 <==> forall e :: e in edges && e.to == s ==> e.from in done
  {
    if edges != [] {
      PendingZeroIff(edges[..|edges| - 1], done, s);
      assert edges == edges[..|edges| - 1] + [edges[|edges| - 1]];
    }
  }

  /** The count while the edges of `current` are being visited: `j` of them are behind us. */
  function Counted(edges: seq<Edge>, j: nat, done: set<StageId>, current: StageId, s: StageId): nat
    requires j <= |edges|
  {
    Pending(edges[..j], done + {current}, s) + Pending(edges[j..], done, s)
  }

  lemma CountedEnds(edges: seq<Edge>, done: set<StageId>, current: StageId, s: StageId)
    ensures Counted(edges, 0, done, current, s) == Pending(edges, done, s)
    ensures Counted(edges, |edges|, done, current, s) == Pending(edges, done + {current}, s)
  {
    assert edges[..0] == [] && edges[0..] == edges && edges[..|edges|] == edges && edges[|edges|..] == [];
  }

  lemma CountedStep(edges: seq<Edge>, j: nat, done: set<StageId>, current: StageId, s: StageId)
    requires j < |edges| && current !in done
    ensures Counted(edges, j, done, current, s)
            == Counted(edges, j + 1, done, current, s)
               + if edges[j].to == s && edges[j].from == current then 1 else 0
  {
    assert edges[j..] == [edges[j]] + edges[j + 1..];
    PendingAppend([edges[j]], edges[j + 1..], done, s);
    assert [edges[j]][..0] == [];
    assert Pending([edges[j]], done, s) == Weight(edges[j], done, s);
    assert edges[..j + 1][..j] == edges[..j];
    assert Pending(edges[..j + 1], done + {current}, s)
        == Pending(edges[..j], done + {current}, s) + Weight(edges[j], done + {current}, s);
  }

  /** The in-degree table counts, for every stage, the edges from stages that are not done. */
  ghost predicate DegreesOk(p: Plan, done: set<StageId>, degree: map<StageId, nat>)
  {
    degree.Keys == Ids(p) && forall s :: s in Ids(p) ==> degree[s] == Pending(p.edges, done, s)
  }

  /** The sequence lists the elements of the set, each once. */
  ghost predicate Lists(q: seq<StageId>, members: set<StageId>)
  {
    NoDuplicates(q) && forall s :: s in q <==> s in members
  }

  lemma ListsAppend(a: seq<StageId>, x: set<StageId>, b: seq<StageId>, y: set<StageId>)
    requires Lists(a, x) && Lists(b, y) && x !! y
    ensures Lists(a + b, x + y)
  {
    forall i, j | 0 <= i < j < |a + b| ensures (a + b)[i] != (a + b)[j] {
      if i < |a| <= j {
        assert a[i] in a && b[j - |a|] in b;
      }
    }
  }

  lemma ListsTail(q: seq<StageId>, members: set<StageId>)
    requires Lists(q, members) && q != []
    ensures q[0] in members && Lists(q[1..], members - {q[0]})
  {
    assert q[0] in q;
    assert forall i :: 0 <= i < |q| - 1 ==> q[1..][i] == q[i + 1];
    assert q == [q[0]] + q[1..];
  }

  lemma {:induction false} ListsSize(q: seq<StageId>, members: set<StageId>)
    requires Lists(q, members)
    ensures |q| == |members|
  {
    if q == [] {
      assert members == {};
    } else {
      ListsTail(q, members);
      ListsSize(q[1..], members - {q[0]});
    }
  }

  /** The stages a release step adds: those whose count dropped to zero. */
  ghost predicate Dropped(before: map<StageId, nat>, after: map<StageId, nat>, ready: set<StageId>)
    requires before.Keys == after.Keys
  {
    forall s :: s in ready <==> s in before && before[s] > 0 && after[s] == 0
  }

  /** The table while the edges of `current` are being visited. */
  ghost predicate Counting(p: Plan, j: nat, done: set<StageId>, current: StageId, degree: map<StageId, nat>)
    requires j <= |p.edges|
  {
    degree.Keys == Ids(p) && forall s :: s in Ids(p) ==> degree[s] == Counted(p.edges, j, done, current, s)
  }

  lemma CountingEnds(p: Plan, done: set<StageId>, current: StageId, degree: map<StageId, nat>)
    ensures DegreesOk(p, done, degree) ==> Counting(p, 0, done, current, degree)
    ensures Counting(p, |p.edges|, done, current, degree) ==> DegreesOk(p, done + {current}, degree)
  {
    forall s | s in Ids(p)
      ensures Counted(p.edges, 0, done, current, s) == Pending(p.edges, done, s)
      ensures Counted(p.edges, |p.edges|, done, current, s) == Pending(p.edges, done + {current}, s)
    {
      CountedEnds(p.edges, done, current, s);
    }
  }

  /** An edge of `current` is still counted when it is visited, so the decrement cannot underflow. */
  lemma CountingStep(p: Plan, j: nat, done: set<StageId>, current: StageId, degree: map<StageId, nat>)
    requires j < |p.edges| && current !in done && Counting(p, j, done, current, degree)
    ensures var e := p.edges[j];
            if e.from == current && e.to in degree
            then degree[e.to] > 0 && Counting(p, j + 1, done, current, degree[e.to := degree[e.to] - 1])
            else Counting(p, j + 1, done, current, degree)
  {
    forall s | s in Ids(p)
      ensures Counted(p.edges, j, done, current, s)
           == Counted(p.edges, j + 1, done, current, s)
              + if p.edges[j].to == s && p.edges[j].from == current then 1 else 0
    {
      CountedStep(p.edges, j, done, current, s);
    }
  }

  /** Degrees only fall, and `added` lists the stages whose degree has fallen to zero. */
  ghost predicate Released(degree0: map<StageId, nat>, degree: map<StageId, nat>, added: seq<StageId>,
                           ready: set<StageId>)
  {
    && degree0.Keys == degree.Keys && Dropped(degree0, degree, ready) && Lists(added, ready)
    && forall s :: s in degree ==> degree[s] <= degree0[s]
  }

  lemma ReleaseOne(degree0: map<StageId, nat>, degree: map<StageId, nat>, added: seq<StageId>, ready: set<StageId>,
                   stage: StageId)
    requires Released(degree0, degree, added, ready) && stage in degree && degree[stage] > 0
    ensures var less := degree[stage := degree[stage] - 1];
            if less[stage] == 0 then Released(degree0, less, added + [stage], ready + {stage})
            else Released(degree0, less, added, ready)
  {
    if degree[stage] == 1 {
      ListsAppend(added, ready, [stage], {stage});
    }
  }

  ghost predicate Visiting(p: Plan, j: nat, done: set<StageId>, current: StageId, degree0: map<StageId, nat>,
                           degree: map<StageId, nat>, added: seq<StageId>, ready: set<StageId>)
    requires j <= |p.edges|
  {
    Counting(p, j, done, current, degree) && Released(degree0, degree, added, ready)
  }

  lemma VisitStarts(p: Plan, done: set<StageId>, current: StageId, degree: map<StageId, nat>)
    requires DegreesOk(p, done, degree)
    ensures Visiting(p, 0, done, current, degree, degree, [], {})
  {
    CountingEnds(p, done, current, degree);
  }

  lemma VisitEdge(p: Plan, j: nat, done: set<StageId>, current: StageId, degree0: map<StageId, nat>,
                  degree: map<StageId, nat>, added: seq<StageId>, ready: set<StageId>)
    requires j < |p.edges| && current !in done && Visiting(p, j, done, current, degree0, degree, added, ready)
    ensures var e := p.edges[j];
            if e.from == current && e.to in degree
            then e.to in degree0 && degree0[e.to] > 0 && degree[e.to] > 0
                 && var less := degree[e.to := degree[e.to] - 1];
                    if less[e.to] == 0
                    then Visiting(p, j + 1, done, current, degree0, less, added + [e.to], ready + {e.to})
                    else Visiting(p, j + 1, done, current, degree0, less, added, ready)
            else Visiting(p, j + 1, done, current, degree0, degree, added, ready)
  {
    CountingStep(p, j, done, current, degree);
    if p.edges[j].from == current && p.edges[j].to in degree {
      ReleaseOne(degree0, degree, added, ready, p.edges[j].to);
    }
  }

  lemma VisitEnds(p: Plan, done: set<StageId>, current: StageId, degree0: map<StageId, nat>,
                  degree: map<StageId, nat>, added: seq<StageId>, ready: set<StageId>)
    requires Visiting(p, |p.edges|, done, current, degree0, degree, added, ready)
    ensures DegreesOk(p, done + {current}, degree) && degree0.Keys == degree.Keys && Dropped(degree0, degree, ready)
    ensures Lists(added, ready)
  {
    CountingEnds(p, done, current, degree);
  }

  /** The coordinator's inner loop: one decrement per outgoing edge; the counter never underflows. */
  method ReleaseDependents(p: Plan, current: StageId, degree0: map<StageId, nat>, queue0: seq<StageId>,
                           ghost done: set<StageId>)
    returns (degree: map<StageId, nat>, queue: seq<StageId>, ghost ready: set<StageId>)
    requires DegreesOk(p, done, degree0) && current !in done
    ensures DegreesOk(p, done + {current}, degree)
    ensures Dropped(degree0, degree, ready)
    ensures |queue0| <= |queue| && queue[..|queue0|] == queue0 && Lists(queue[|queue0|..], ready)
  {
    degree, queue := degree0, queue0;
    ghost var added: seq<StageId> := [];
    ready := {};
    VisitStarts(p, done, current, degree);
    for j := 0 to |p.edges|
      invariant Visiting(p, j, done, current, degree0, degree, added, ready) && queue == queue0 + added
    {
      var edge := p.edges[j];
      VisitEdge(p, j, done, current, degree0, degree, added, ready);
      if edge.from == current && edge.to in degree {
        degree := degree[edge.to := degree[edge.to] - 1];
        if degree[edge.to] == 0 {
          queue := queue + [edge.to];
          added, ready := added + [edge.to], ready + {edge.to};
        }
      }
    }
    VisitEnds(p, done, current, degree0, degree, added, ready);
    assert queue[|queue0|..] == added;
  }

  /** The plan's inner loop: a saturating decrement per downstream stage, skipping visited stages. */
  method ReleaseDownstream(p: Plan, current: StageId, degree0: map<StageId, nat>, queue0: seq<StageId>,
                           visited: set<StageId>, ghost done: set<StageId>)
    returns (degree: map<StageId, nat>, queue: seq<StageId>, ghost ready: set<StageId>)
    requires DegreesOk(p, done, degree0) && current !in done && visited == done + {current}
    requires forall s :: s in visited ==> s in degree0 && degree0[s] == 0
    ensures DegreesOk(p, done + {current}, degree)
    ensures Dropped(degree0, degree, ready)
    ensures |queue0| <= |queue| && queue[..|queue0|] == queue0 && Lists(queue[|queue0|..], ready)
  {
    degree, queue := degree0, queue0;
    ghost var added: seq<StageId> := [];
    ready := {};
    VisitStarts(p, done, current, degree);
    for j := 0 to |p.edges|
      invariant Visiting(p, j, done, current, degree0, degree, added, ready) && queue == queue0 + added
    {
      var edge := p.edges[j];
      VisitEdge(p, j, done, current, degree0, degree, added, ready);
      if edge.from == current && edge.to in degree {
        var lower: nat := if degree[edge.to] > 0 then degree[edge.to] - 1 else 0;
        degree := degree[edge.to := lower];
        if lower == 0 && edge.to !in visited {
          queue := queue + [edge.to];
          added, ready := added + [edge.to], ready + {edge.to};
        }
      }
    }
    VisitEnds(p, done, current, degree0, degree, added, ready);
    assert queue[|queue0|..] == added;
  }

  // ---------------------------------------------------------------------------
  // The frontier
  // ---------------------------------------------------------------------------

  function Elements(s: seq<StageId>): set<StageId> { set x | x in s }

  /** Done and queued stages are levelled, and they are exactly the stages without unfinished source. */
  ghost predicate Frontier(p: Plan, done: set<StageId>, queue: set<StageId>, level: map<StageId, nat>,
                           degree: map<StageId, nat>)
  {
    && DegreesOk(p, done, degree)
    && done !! queue
    && Levelled(p, done + queue, level)
    && forall s :: s in Ids(p) ==> (degree[s] == 0 <==> s in done + queue)
  }

  function Raise(level: map<StageId, nat>, ready: set<StageId>, k: nat): map<StageId, nat>
  {
    level + map s | s in ready :: k
  }

  lemma FrontierStart(p: Plan, degree: map<StageId, nat>, queue: set<StageId>)
    requires DegreesOk(p, {}, degree)
    requires queue == set s | s in Ids(p) && degree[s] == 0
    ensures Frontier(p, {}, queue, map s | s in queue :: 0, degree)
  {
    forall e | e in p.edges && e.to in queue ensures false {
      PendingZeroIff(p.edges, {}, e.to);
    }
  }

  ghost predicate AtMost(members: set<StageId>, level: map<StageId, nat>, k: nat)
  {
    forall s :: s in members ==> s in level && level[s] <= k
  }

  /** Stages whose sources all lie below, one of them exactly one below, extend a levelled set. */
  lemma LevelledExtend(p: Plan, base: set<StageId>, done: set<StageId>, level: map<StageId, nat>,
                       ready: set<StageId>, current: StageId)
    requires Levelled(p, base, level) && current in done && done <= base && ready !! base && ready <= Ids(p)
    requires AtMost(done, level, level[current])
    requires forall e :: e in p.edges && e.to in ready ==> e.from in done
    requires forall s :: s in ready ==> HasEdge(p, current, s)
    ensures Levelled(p, base + ready, Raise(level, ready, level[current] + 1))
  {
    var all, level' := base + ready, Raise(level, ready, level[current] + 1);
    forall e | e in p.edges && e.to in all ensures e.from in all && level'[e.from] < level'[e.to] {
      if e.to in ready {
        assert e.from in done;
      }
    }
    forall s | s in all && level'[s] > 0 ensures exists e :: AttainsLevel(p, all, level', s, e) {
      var e := AttainingEdge(p, base, level, ready, current, s);
    }
  }

  lemma AttainingEdge(p: Plan, base: set<StageId>, level: map<StageId, nat>, ready: set<StageId>, current: StageId,
                      s: StageId) returns (e: Edge)
    requires Levelled(p, base, level) && current in base && ready !! base && s in base + ready
    requires s in base ==> level[s] > 0
    requires s in ready ==> HasEdge(p, current, s)
    ensures AttainsLevel(p, base + ready, Raise(level, ready, level[current] + 1), s, e)
  {
    if s in ready {
      e :| e in p.edges && e.from == current && e.to == s;
    } else {
      e :| AttainsLevel(p, base, level, s, e);
    }
  }

  /** Which stages a finished stage releases. */
  lemma ReadyStages(p: Plan, done: set<StageId>, current: StageId, degree: map<StageId, nat>,
                    degree': map<StageId, nat>, ready: set<StageId>)
    requires DegreesOk(p, done, degree) && DegreesOk(p, done + {current}, degree') && Dropped(degree, degree', ready)
    ensures ready <= Ids(p)
    ensures forall s :: s in Ids(p) ==> (degree'[s] == 0 <==> degree[s] == 0 || s in ready)
    ensures forall e :: e in p.edges && e.to in ready ==> e.from in done + {current}
    ensures forall s :: s in ready ==> HasEdge(p, current, s)
  {
    forall s | s in Ids(p) ensures degree[s] == 0 ==> degree'[s] == 0 {
      PendingZeroIff(p.edges, done, s);
      PendingZeroIff(p.edges, done + {current}, s);
    }
    forall s | s in ready ensures HasEdge(p, current, s) {
      var e := ReleasingEdge(p, done, current, s);
    }
    forall e | e in p.edges && e.to in ready ensures e.from in done + {current} {
      PendingZeroIff(p.edges, done + {current}, e.to);
    }
  }

  /** Finishing a queued stage of maximal level moves the frontier; released stages get the next level. */
  lemma ReleaseStep(p: Plan, done: set<StageId>, queue: set<StageId>, current: StageId, level: map<StageId, nat>,
                    degree: map<StageId, nat>, degree': map<StageId, nat>, ready: set<StageId>)
    requires Frontier(p, done, queue, level, degree) && current in queue
    requires DegreesOk(p, done + {current}, degree') && Dropped(degree, degree', ready)
    requires AtMost(done, level, level[current])
    ensures ready !! done + queue
    ensures Frontier(p, done + {current}, queue - {current} + ready, Raise(level, ready, level[current] + 1), degree')
  {
    ReadyStages(p, done, current, degree, degree', ready);
    assert AtMost(done + {current}, level, level[current]);
    LevelledExtend(p, done + queue, done + {current}, level, ready, current);
    assert done + queue + ready == (done + {current}) + (queue - {current} + ready);
  }

  ghost function ReleasingEdge(p: Plan, done: set<StageId>, current: StageId, s: StageId): (e: Edge)
    requires Pending(p.edges, done, s) > 0 && Pending(p.edges, done + {current}, s) == 0
    ensures e in p.edges && e.from == current && e.to == s
  {
    PendingZeroIff(p.edges, done, s);
    PendingZeroIff(p.edges, done + {current}, s);
    var e :| e in p.edges && e.to == s && e.from !in done;
    e
  }

  /** With nothing left in the queue, the finished stages are exactly those that are not blocked. */
  lemma FrontierExhausted(p: Plan, done: set<StageId>, level: map<StageId, nat>, degree: map<StageId, nat>)
    requires Frontier(p, done, {}, level, degree)
    ensures Levelled(p, done, level)
    ensures done == set s | s in Ids(p) && !Blocked(p, s)
  {
    assert done + {} == done;
    forall s | s in Ids(p) - done
      ensures DanglingInto(p, s) || exists v :: v in Ids(p) - done && HasEdge(p, v, s)
    {
      PendingZeroIff(p.edges, done, s);
      var e :| e in p.edges && e.to == s && e.from !in done;
      if e.from in Ids(p) {
        assert HasEdge(p, e.from, s);
      }
    }
    ReleasedIffUnblocked(p, done, level);
  }

  lemma {:induction false} IdsCount(s: seq<StageId>)
    ensures |Elements(s)| <= |s|
    ensures |Elements(s)| == |s| <==> NoDuplicates(s)
  {
    if s != [] {
      var init, x := s[..|s| - 1], s[|s| - 1];
      IdsCount(init);
      assert s == init + [x];
      assert Elements(s) == Elements(init) + {x};
      if x in init {
        assert Elements(s) == Elements(init);
        var i :| 0 <= i < |init| && init[i] == x;
        assert s[i] == s[|s| - 1];
      } else if NoDuplicates(init) {
        assert forall i, j :: 0 <= i < j < |s| ==> s[i] != s[j];
      }
    }
  }

  // ---------------------------------------------------------------------------
  // Execution levels
  // ---------------------------------------------------------------------------

  method CountDependencies(p: Plan) returns (degree: map<StageId, nat>)
    ensures DegreesOk(p, {}, degree)
  {
    degree := map[];
    for i := 0 to |p.stages|
      invariant degree == map s | s in p.stages[..i] :: 0
    {
      degree := degree[p.stages[i] := 0];
    }
    for j := 0 to |p.edges|
      invariant degree.Keys == Ids(p)
      invariant forall s :: s in Ids(p) ==> degree[s] == Pending(p.edges[..j], {}, s)
    {
      assert p.edges[..j + 1][..j] == p.edges[..j];
      if p.edges[j].to in degree {
        degree := degree[p.edges[j].to := degree[p.edges[j].to] + 1];
      }
    }
    assert p.edges[..|p.edges|] == p.edges;
  }

  ghost predicate AtLevel(members: set<StageId>, level: map<StageId, nat>, k: nat)
  {
    forall s :: s in members ==> s in level && level[s] == k
  }

  /** Every stage in exactly one level, at the length of the longest chain that ends in it. */
  ghost predicate IsLevelling(p: Plan, levels: seq<seq<StageId>>)
  {
    && Lists(Flatten(levels), Ids(p))
    && forall k, s :: 0 <= k < |levels| && s in levels[k] ==> LongestChain(p, s, k)
  }

  /** The levels emitted so far list the finished stages and agree with the level map. */
  ghost predicate Emitted(levels: seq<seq<StageId>>, done: set<StageId>, level: map<StageId, nat>)
  {
    && Lists(Flatten(levels), done)
    && forall k, s :: 0 <= k < |levels| && s in levels[k] ==> s in done && s in level && level[s] == k
  }

  /** The ghost state of one level: what is done, what is still to do on this level, what is on the next. */
  datatype Wave = Wave(done: set<StageId>, now: set<StageId>, next: set<StageId>, level: map<StageId, nat>, k: nat)

  ghost predicate Layers(w: Wave)
  {
    && AtLevel(w.now, w.level, w.k) && AtLevel(w.next, w.level, w.k + 1) && AtMost(w.done, w.level, w.k)
    && w.now !! w.next
  }

  ghost predicate WaveOk(p: Plan, w: Wave, degree: map<StageId, nat>)
  {
    Layers(w) && Frontier(p, w.done, w.now + w.next, w.level, degree)
  }

  function Advance(w: Wave, current: StageId, ready: set<StageId>): Wave
  {
    Wave(w.done + {current}, w.now - {current}, w.next + ready, Raise(w.level, ready, w.k + 1), w.k)
  }

  lemma AdvanceLayers(w: Wave, current: StageId, ready: set<StageId>)
    requires Layers(w) && current in w.now && ready !! w.done + w.now + w.next
    ensures Layers(Advance(w, current, ready))
  {
  }

  lemma AdvanceSets(done: set<StageId>, now: set<StageId>, next: set<StageId>, current: StageId, ready: set<StageId>)
    requires now !! next && current in now
    ensures done + now + next == done + (now + next)
    ensures (now - {current}) + (next + ready) == now + next - {current} + ready
  {
  }

  ghost predicate AdvancedFrontier(p: Plan, w: Wave, current: StageId, ready: set<StageId>, degree: map<StageId, nat>)
  {
    Frontier(p, w.done + {current}, (w.now - {current}) + (w.next + ready), Raise(w.level, ready, w.k + 1), degree)
  }

  lemma AdvanceWave(p: Plan, w: Wave, current: StageId, ready: set<StageId>, degree: map<StageId, nat>)
    requires AdvancedFrontier(p, w, current, ready, degree) && Layers(Advance(w, current, ready))
    ensures WaveOk(p, Advance(w, current, ready), degree)
  {
  }

  lemma AdvanceFrontier(p: Plan, w: Wave, degree: map<StageId, nat>, degree': map<StageId, nat>, current: StageId,
                        ready: set<StageId>)
    requires WaveOk(p, w, degree) && current in w.now
    requires DegreesOk(p, w.done + {current}, degree') && Dropped(degree, degree', ready)
    ensures ready !! w.done + w.now + w.next
    ensures AdvancedFrontier(p, w, current, ready, degree')
  {
    AdvanceSets(w.done, w.now, w.next, current, ready);
    ReleaseStep(p, w.done, w.now + w.next, current, w.level, degree, degree', ready);
  }

  lemma AdvanceOk(p: Plan, w: Wave, degree: map<StageId, nat>, degree': map<StageId, nat>, current: StageId,
                  ready: set<StageId>)
    requires WaveOk(p, w, degree) && current in w.now
    requires DegreesOk(p, w.done + {current}, degree') && Dropped(degree, degree', ready)
    ensures ready !! w.done + w.now + w.next
    ensures WaveOk(p, Advance(w, current, ready), degree')
  {
    AdvanceFrontier(p, w, degree, degree', current, ready);
    AdvanceLayers(w, current, ready);
    AdvanceWave(p, w, current, ready, degree');
  }

  /** Popping the first of the `n` stages of this level and appending the released ones. */
  lemma QueueShift(queue0: seq<StageId>, n: nat, queue: seq<StageId>, now: set<StageId>, next: set<StageId>,
                   ready: set<StageId>)
    requires 0 < n <= |queue0| <= |queue| + 1 && queue[..|queue0| - 1] == queue0[1..]
    requires Lists(queue0[..n], now) && Lists(queue0[n..], next)
    requires Lists(queue[|queue0| - 1..], ready) && ready !! next
    ensures Lists(queue[..n - 1], now - {queue0[0]}) && Lists(queue[n - 1..], next + ready)
  {
    var a, b, c := queue0[..n], queue0[n..], queue[|queue0| - 1..];
    assert queue == queue0[1..] + c && queue0[1..] == a[1..] + b;
    ListsTail(a, now);
    assert queue[..n - 1] == a[1..];
    ListsAppend(b, next, c, ready);
    assert queue[n - 1..] == b + c;
  }

  /** One stage of the current level: pop it and release its dependents. */
  method ProcessNext(p: Plan, degree0: map<StageId, nat>, queue0: seq<StageId>, ghost n: nat, ghost w: Wave)
    returns (degree: map<StageId, nat>, queue: seq<StageId>, ghost ready: set<StageId>)
    requires WaveOk(p, w, degree0)
    requires 0 < n <= |queue0| && Lists(queue0[..n], w.now) && Lists(queue0[n..], w.next)
    ensures queue0[0] in w.now && ready !! w.done + w.now + w.next
    ensures WaveOk(p, Advance(w, queue0[0], ready), degree)
    ensures n - 1 <= |queue|
    ensures Lists(queue[..n - 1], w.now - {queue0[0]}) && Lists(queue[n - 1..], w.next + ready)
  {
    assert queue0[0] in queue0[..n];
    degree, queue, ready := ReleaseDependents(p, queue0[0], degree0, queue0[1..], w.done);
    AdvanceOk(p, w, degree0, degree, queue0[0], ready);
    QueueShift(queue0, n, queue, w.now, w.next, ready);
  }

  /** What happened since the level started: the batch lists the stages taken out of `now`. */
  ghost predicate Since(w0: Wave, w: Wave, batch: seq<StageId>)
  {
    && w.k == w0.k && w.now <= w0.now && w.done == w0.done + (w0.now - w.now)
    && Lists(batch, w0.now - w.now)
    && forall s :: s in w0.done + w0.now ==> s in w0.level && s in w.level && w.level[s] == w0.level[s]
  }

  lemma SinceStep(w0: Wave, w: Wave, batch: seq<StageId>, stage: StageId, ready: set<StageId>)
    requires Since(w0, w, batch) && stage in w.now && ready !! w.done + w.now
    ensures Since(w0, Advance(w, stage, ready), batch + [stage])
  {
    var v := Advance(w, stage, ready);
    ListsAppend(batch, w0.now - w.now, [stage], {stage});
    assert w0.now - v.now == (w0.now - w.now) + {stage};
    forall s | s in w0.done + w0.now ensures s in v.level && v.level[s] == w0.level[s] {
      assert s in w.done + w.now;
    }
  }

  /** In the middle of a level: the first `k` queued stages are still to be taken. */
  ghost predicate InLevel(p: Plan, w0: Wave, w: Wave, degree: map<StageId, nat>, queue: seq<StageId>,
                          batch: seq<StageId>, k: nat)
  {
    && k <= |queue| && WaveOk(p, w, degree) && Since(w0, w, batch)
    && Lists(queue[..k], w.now) && Lists(queue[k..], w.next)
  }

  method TakeStage(p: Plan, degree0: map<StageId, nat>, queue0: seq<StageId>, batch0: seq<StageId>,
                   ghost k: nat, ghost w0: Wave, ghost v: Wave)
    returns (degree: map<StageId, nat>, queue: seq<StageId>, batch: seq<StageId>, ghost w: Wave)
    requires k > 0 && InLevel(p, w0, v, degree0, queue0, batch0, k)
    ensures InLevel(p, w0, w, degree, queue, batch, k - 1)
    ensures batch == batch0 + [queue0[0]]
  {
    ghost var ready;
    degree, queue, ready := ProcessNext(p, degree0, queue0, k, v);
    SinceStep(w0, v, batch0, queue0[0], ready);
    w := Advance(v, queue0[0], ready);
    batch := batch0 + [queue0[0]];
  }

  lemma LevelStarts(p: Plan, w: Wave, degree: map<StageId, nat>, queue: seq<StageId>)
    requires WaveOk(p, w, degree) && w.next == {} && Lists(queue, w.now)
    ensures InLevel(p, w, w, degree, queue, [], |queue|)
  {
    assert queue[..|queue|] == queue && queue[|queue|..] == [];
    assert w.now - w.now == {} && w.done + {} == w.done;
    assert forall s :: s in w.done + w.now ==> s in w.done + (w.now + w.next);
  }

  lemma LevelEnds(p: Plan, w0: Wave, w: Wave, degree: map<StageId, nat>, queue: seq<StageId>, batch: seq<StageId>)
    requires InLevel(p, w0, w, degree, queue, batch, 0)
    ensures WaveOk(p, w, degree) && w.now == {} && Lists(queue, w.next) && Since(w0, w, batch)
  {
    assert queue[0..] == queue && queue[..0] == [];
  }

  /** All stages that are queued when the level starts; what they release waits for the next level. */
  method ProcessLevel(p: Plan, degree0: map<StageId, nat>, queue0: seq<StageId>, ghost w0: Wave)
    returns (degree: map<StageId, nat>, queue: seq<StageId>, batch: seq<StageId>, ghost w: Wave)
    requires WaveOk(p, w0, degree0) && w0.next == {} && Lists(queue0, w0.now)
    ensures WaveOk(p, w, degree) && w.now == {} && Lists(queue, w.next) && Since(w0, w, batch)
    ensures |batch| == |queue0|
  {
    degree, queue, batch, w := degree0, queue0, [], w0;
    LevelStarts(p, w0, degree0, queue0);
    for i := 0 to |queue0|
      invariant InLevel(p, w0, w, degree, queue, batch, |queue0| - i) && |batch| == i
    {
      degree, queue, batch, w := TakeStage(p, degree, queue, batch, |queue0| - i, w0, w);
    }
    LevelEnds(p, w0, w, degree, queue, batch);
  }

  /** Between two levels: what is emitted is done, what is queued is the next level. */
  ghost predicate Between(p: Plan, w: Wave, degree: map<StageId, nat>, queue: seq<StageId>,
                          levels: seq<seq<StageId>>, processed: nat)
  {
    && WaveOk(p, w, degree) && w.next == {} && Lists(queue, w.now)
    && w.k == |levels| && Emitted(levels, w.done, w.level) && processed == |w.done|
  }

  method NextLevel(p: Plan, degree0: map<StageId, nat>, queue0: seq<StageId>, levels0: seq<seq<StageId>>,
                   processed0: nat, ghost w0: Wave)
    returns (degree: map<StageId, nat>, queue: seq<StageId>, levels: seq<seq<StageId>>, processed: nat, ghost w: Wave)
    requires Between(p, w0, degree0, queue0, levels0, processed0) && queue0 != []
    ensures Between(p, w, degree, queue, levels, processed)
    ensures w0.done < w.done <= Ids(p)
  {
    var batch;
    assert queue0[0] in w0.now;
    degree, queue, batch, w := ProcessLevel(p, degree0, queue0, w0);
    w := NextWave(p, w0, w, degree, levels0, batch);
    levels := levels0 + [batch];
    processed := processed0 + |batch|;
  }

  /**
   Levels for parallel execution.  The call fails exactly when stage ids repeat, a source is missing or
   the graph has a cycle, and then it names the blocked stages.
   */
  method ComputeExecutionLevels(p: Plan) returns (r: Result<seq<seq<StageId>>, seq<StageId>>)
    ensures r.Ok? <==> NoDuplicates(p.stages) && !HasCycle(p) && !HasDangling(p)
    ensures r.Ok? ==> IsLevelling(p, r.value)
    ensures r.Err? ==> forall s :: s in r.error <==> s in Ids(p) && Blocked(p, s)
  {
    var degree := CountDependencies(p);
    var queue := Enumerate(set s | s in p.stages && degree[s] == 0);
    var levels: seq<seq<StageId>> := [];
    var processed: nat := 0;
    ghost var w := FirstWave(p, degree, queue);
    while queue != []
      invariant Between(p, w, degree, queue, levels, processed)
      decreases Ids(p) - w.done
    {
      degree, queue, levels, processed, w := NextLevel(p, degree, queue, levels, processed, w);
    }
    LevelsOutcome(p, w, degree, levels);
    if processed < |p.stages| {
      var stuck := Enumerate(set s | s in p.stages && degree[s] > 0);
      r := Err(stuck);
    } else {
      r := Ok(levels);
    }
  }

  lemma FirstWave(p: Plan, degree: map<StageId, nat>, queue: seq<StageId>) returns (w: Wave)
    requires DegreesOk(p, {}, degree) && Lists(queue, set s | s in p.stages && degree[s] == 0)
    ensures WaveOk(p, w, degree) && w.done == {} && w.next == {} && w.k == 0 && Lists(queue, w.now)
  {
    var first := set s | s in Ids(p) && degree[s] == 0;
    FrontierStart(p, degree, first);
    w := Wave({}, first, {}, map s | s in first :: 0, 0);
    assert first + {} == first;
  }

  /** The batch is emitted, and what it released becomes the current level. */
  lemma NextWave(p: Plan, v: Wave, w: Wave, degree: map<StageId, nat>, levels: seq<seq<StageId>>,
                 batch: seq<StageId>) returns (w': Wave)
    requires WaveOk(p, w, degree) && w.now == {} && Since(v, w, batch) && v.next == {} && v.now != {}
    requires v.now !! v.done && AtLevel(v.now, v.level, |levels|) && Emitted(levels, v.done, v.level)
    ensures w' == Wave(w.done, w.next, {}, w.level, w.k + 1) && WaveOk(p, w', degree)
    ensures Emitted(levels + [batch], w'.done, w'.level)
    ensures |w'.done| == |v.done| + |batch| && w'.done <= Ids(p) && v.done < w'.done
  {
    w' := Wave(w.done, w.next, {}, w.level, w.k + 1);
    assert {} + w.next == w.next + {};
    assert v.now - {} == v.now;
    ListsSize(batch, v.now);
    EmitLevel(levels, batch, v.done, v.now, v.level, w.level);
  }

  /** What the final comparison of the two counts decides. */
  lemma LevelsOutcome(p: Plan, w: Wave, degree: map<StageId, nat>, levels: seq<seq<StageId>>)
    requires WaveOk(p, w, degree) && Emitted(levels, w.done, w.level)
    requires w.next == {} && forall s :: s !in w.now
    ensures |w.done| >= |p.stages| <==> NoDuplicates(p.stages) && !HasCycle(p) && !HasDangling(p)
    ensures |w.done| >= |p.stages| ==> IsLevelling(p, levels)
    ensures forall s :: s in Ids(p) ==> (degree[s] > 0 <==> Blocked(p, s))
  {
    assert w.now + w.next == {};
    FrontierExhausted(p, w.done, w.level, degree);
    FinishedCount(p, w.done);
    if |w.done| >= |p.stages| {
      forall k, s | 0 <= k < |levels| && s in levels[k] ensures LongestChain(p, s, k) {
        LevelIsLongestChain(p, w.done, w.level, s);
      }
    }
  }

  lemma FinishedCount(p: Plan, done: set<StageId>)
    requires done == set s | s in Ids(p) && !Blocked(p, s)
    ensures |done| >= |p.stages| <==> NoDuplicates(p.stages) && !HasCycle(p) && !HasDangling(p)
    ensures |done| >= |p.stages| ==> done == Ids(p)
  {
    IdsCount(p.stages);
    assert Ids(p) == Elements(p.stages);
    BlockedIffDefective(p);
    SubsetSize(done, Ids(p));
    if !HasCycle(p) && !HasDangling(p) {
      assert forall s :: s in Ids(p) ==> s in done;
      assert done == Ids(p);
    }
  }

  lemma EmitLevel(levels: seq<seq<StageId>>, batch: seq<StageId>, done: set<StageId>, now: set<StageId>,
                  level0: map<StageId, nat>, level: map<StageId, nat>)
    requires Emitted(levels, done, level0) && Lists(batch, now) && now !! done
    requires AtLevel(now, level0, |levels|)
    requires forall s :: s in done + now ==> s in level && s in level0 && level[s] == level0[s]
    ensures Emitted(levels + [batch], done + now, level)
  {
    FlattenOne(levels, batch);
    ListsAppend(Flatten(levels), done, batch, now);
    var longer := levels + [batch];
    forall k, s | 0 <= k < |longer| && s in longer[k]
      ensures s in done + now && s in level && level[s] == k
    {
      if k < |levels| {
        assert s in levels[k];
      }
    }
  }

  // ---------------------------------------------------------------------------
  // Topological order
  // ---------------------------------------------------------------------------

  /** Every source of a stage is listed before it. */
  ghost predicate SourcesFirst(p: Plan, order: seq<StageId>)
  {
    forall i, e :: 0 <= i < |order| && e in p.edges && e.to == order[i] ==> e.from in order[..i]
  }

  /** Later stages do not have shorter longest chains. */
  ghost predicate NonDecreasing(p: Plan, order: seq<StageId>)
  {
    forall i, j, a, b :: 0 <= i <= j < |order| && LongestChain(p, order[i], a) && LongestChain(p, order[j], b) ==>
      a <= b
  }

  ghost predicate IsTopological(p: Plan, order: seq<StageId>)
  {
    Lists(order, set s | s in Ids(p) && !Blocked(p, s)) && SourcesFirst(p, order) && NonDecreasing(p, order)
  }

  ghost predicate Sorted(q: seq<StageId>, level: map<StageId, nat>, low: nat, high: nat)
  {
    && (forall i :: 0 <= i < |q| ==> q[i] in level && low <= level[q[i]] <= high)
    && forall i, j :: 0 <= i <= j < |q| ==> level[q[i]] <= level[q[j]]
  }

  lemma SortedAppend(q: seq<StageId>, r: seq<StageId>, level: map<StageId, nat>, ready: set<StageId>, low: nat, k: nat)
    requires Sorted(q, level, low, k) && low <= k && (forall s :: s in r ==> s in ready)
    requires forall s :: s in q ==> s !in ready
    ensures Sorted(q + r, Raise(level, ready, k), low, k)
  {
    var all, level' := q + r, Raise(level, ready, k);
    forall i | 0 <= i < |all|
      ensures all[i] in level' && level'[all[i]] == if i < |q| then level[q[i]] else k
    {
      if i < |q| {
        assert q[i] in q;
      } else {
        assert r[i - |q|] in r;
      }
    }
  }

  /** The ghost state of the worklist: visited and waiting stages, and the level of the last visited one. */
  datatype Trail = Trail(done: set<StageId>, waiting: set<StageId>, level: map<StageId, nat>, now: nat)

  /** The worklist holds exactly the waiting stages, possibly with stages that were visited since. */
  ghost predicate Holds(queue: seq<StageId>, done: set<StageId>, waiting: set<StageId>)
  {
    (forall s :: s in queue ==> s in done || s in waiting) && forall s :: s in waiting ==> s in queue
  }

  ghost predicate QueueOk(t: Trail, queue: seq<StageId>)
  {
    Holds(queue, t.done, t.waiting) && Sorted(queue, t.level, t.now, t.now + 1)
  }

  ghost predicate OrderOk(p: Plan, t: Trail, order: seq<StageId>)
  {
    Lists(order, t.done) && Sorted(order, t.level, 0, t.now) && SourcesFirst(p, order)
  }

  lemma SkipVisited(t: Trail, queue: seq<StageId>)
    requires QueueOk(t, queue) && queue != [] && queue[0] in t.done && t.done !! t.waiting
    ensures QueueOk(t, queue[1..])
  {
    SortedTail(queue, t.level, t.now, t.now + 1);
    forall s | s in t.waiting ensures s in queue[1..] {
      assert s in [queue[0]] + queue[1..];
    }
    forall s | s in queue[1..] ensures s in t.done || s in t.waiting {
      assert s in queue;
    }
  }

  function Follow(t: Trail, current: StageId, ready: set<StageId>): Trail
    requires current in t.level
  {
    var k := t.level[current];
    Trail(t.done + {current}, t.waiting - {current} + ready, Raise(t.level, ready, k + 1), k)
  }

  lemma SourcesFirstLonger(p: Plan, order: seq<StageId>, current: StageId)
    requires SourcesFirst(p, order) && forall e :: e in p.edges && e.to == current ==> e.from in order
    ensures SourcesFirst(p, order + [current])
  {
    var longer := order + [current];
    forall i, e | 0 <= i < |longer| && e in p.edges && e.to == longer[i] ensures e.from in longer[..i] {
      if i < |order| {
        assert longer[..i] == order[..i];
      } else {
        assert longer[..i] == order;
      }
    }
  }

  lemma FollowOrder(p: Plan, t: Trail, order: seq<StageId>, current: StageId)
    requires current in t.level && current !in t.done
    requires forall e :: e in p.edges && e.to == current ==> e.from in t.done
    requires Lists(order, t.done) && SourcesFirst(p, order) && Sorted(order, t.level, 0, t.now)
    requires t.now <= t.level[current]
    ensures Lists(order + [current], t.done + {current}) && SourcesFirst(p, order + [current])
    ensures Sorted(order + [current], t.level, 0, t.level[current])
  {
    ListsAppend(order, t.done, [current], {current});
    SourcesFirstLonger(p, order, current);
  }

  lemma SourcesDone(p: Plan, done: set<StageId>, waiting: set<StageId>, level: map<StageId, nat>,
                    degree: map<StageId, nat>, current: StageId)
    requires Frontier(p, done, waiting, level, degree) && current in waiting
    ensures forall e :: e in p.edges && e.to == current ==> e.from in done
  {
    PendingZeroIff(p.edges, done, current);
  }

  lemma SortedRaise(q: seq<StageId>, level: map<StageId, nat>, ready: set<StageId>, low: nat, high: nat, k: nat)
    requires Sorted(q, level, low, high) && forall s :: s in q ==> s !in ready
    ensures Sorted(q, Raise(level, ready, k), low, high)
  {
    var level' := Raise(level, ready, k);
    forall i | 0 <= i < |q| ensures q[i] in level' && level'[q[i]] == level[q[i]] {
      assert q[i] in q;
    }
  }

  lemma SortedTail(q: seq<StageId>, level: map<StageId, nat>, low: nat, high: nat)
    requires Sorted(q, level, low, high) && q != []
    ensures Sorted(q[1..], level, level[q[0]], high) && low <= level[q[0]] <= high
  {
    assert forall i :: 0 <= i < |q| - 1 ==> q[1..][i] == q[i + 1];
  }

  lemma SortedBound(q: seq<StageId>, done: set<StageId>, level: map<StageId, nat>, low: nat, high: nat)
    requires Sorted(q, level, low, high) && Lists(q, done)
    ensures AtMost(done, level, high)
  {
    forall s | s in done ensures s in level && level[s] <= high {
      assert s in q;
    }
  }

  lemma FollowMembers(queue: seq<StageId>, added: seq<StageId>, done: set<StageId>, waiting: set<StageId>,
                      ready: set<StageId>)
    requires queue != [] && Holds(queue, done, waiting) && Lists(added, ready)
    ensures Holds(queue[1..] + added, done + {queue[0]}, waiting - {queue[0]} + ready)
  {
    var current, rest := queue[0], queue[1..];
    assert queue == [current] + rest;
    forall s | s in rest + added ensures s in done + {current} || s in waiting - {current} + ready {
      if s in rest {
        assert s in queue;
      }
    }
    forall s | s in waiting - {current} + ready ensures s in rest + added {
      if s in waiting {
        assert s in queue;
      }
    }
  }

  lemma FollowSorted(queue: seq<StageId>, added: seq<StageId>, done: set<StageId>, waiting: set<StageId>,
                     ready: set<StageId>, level: map<StageId, nat>, now: nat)
    requires queue != [] && Holds(queue, done, waiting) && Lists(added, ready) && ready !! done + waiting
    requires Sorted(queue, level, now, now + 1)
    ensures var k := level[queue[0]]; Sorted(queue[1..] + added, Raise(level, ready, k + 1), k, k + 1)
  {
    var k, rest := level[queue[0]], queue[1..];
    SortedTail(queue, level, now, now + 1);
    assert queue == [queue[0]] + rest;
    forall s | s in rest ensures s !in ready {
      assert s in queue;
      assert s in done + waiting;
    }
    SortedAppend(rest, added, level, ready, k, k + 1);
  }

  lemma FollowQueue(t: Trail, queue: seq<StageId>, added: seq<StageId>, ready: set<StageId>)
    requires QueueOk(t, queue) && queue != [] && Lists(added, ready) && ready !! t.done + t.waiting
    ensures QueueOk(Follow(t, queue[0], ready), queue[1..] + added)
  {
    FollowMembers(queue, added, t.done, t.waiting, ready);
    FollowSorted(queue, added, t.done, t.waiting, ready, t.level, t.now);
  }

  lemma FollowOrdered(p: Plan, t: Trail, order: seq<StageId>, current: StageId, degree: map<StageId, nat>,
                      ready: set<StageId>)
    requires Frontier(p, t.done, t.waiting, t.level, degree) && current in t.waiting && t.now <= t.level[current]
    requires OrderOk(p, t, order) && ready !! t.done + t.waiting
    ensures OrderOk(p, Follow(t, current, ready), order + [current])
  {
    SourcesDone(p, t.done, t.waiting, t.level, degree, current);
    FollowOrder(p, t, order, current);
    var k := t.level[current];
    forall s | s in order + [current] ensures s !in ready {
      assert s in t.done + t.waiting;
    }
    SortedRaise(order + [current], t.level, ready, 0, k, k + 1);
  }

  lemma FollowFrontier(p: Plan, t: Trail, degree: map<StageId, nat>, degree': map<StageId, nat>, current: StageId,
                       ready: set<StageId>)
    requires Frontier(p, t.done, t.waiting, t.level, degree) && current in t.waiting && current !in t.done
    requires AtMost(t.done, t.level, t.level[current])
    requires DegreesOk(p, t.done + {current}, degree') && Dropped(degree, degree', ready)
    ensures var u := Follow(t, current, ready);
            Frontier(p, u.done, u.waiting, u.level, degree') && ready !! t.done + t.waiting
  {
    ReleaseStep(p, t.done, t.waiting, current, t.level, degree, degree', ready);
  }

  lemma FollowOk(p: Plan, t: Trail, degree: map<StageId, nat>, degree': map<StageId, nat>, queue: seq<StageId>,
                 added: seq<StageId>, order: seq<StageId>, ready: set<StageId>)
    requires Frontier(p, t.done, t.waiting, t.level, degree) && QueueOk(t, queue) && OrderOk(p, t, order)
    requires queue != [] && queue[0] !in t.done
    requires DegreesOk(p, t.done + {queue[0]}, degree') && Dropped(degree, degree', ready)
    requires Lists(added, ready)
    ensures var u := Follow(t, queue[0], ready);
            && Frontier(p, u.done, u.waiting, u.level, degree')
            && QueueOk(u, queue[1..] + added) && OrderOk(p, u, order + [queue[0]])
  {
    assert queue[0] in queue;
    SortedBound(order, t.done, t.level, 0, t.level[queue[0]]);
    FollowFrontier(p, t, degree, degree', queue[0], ready);
    FollowQueue(t, queue, added, ready);
    FollowOrdered(p, t, order, queue[0], degree, ready);
  }

  method CountUpstream(p: Plan) returns (degree: map<StageId, nat>)
    ensures DegreesOk(p, {}, degree)
  {
    degree := map s | s in p.stages :: |Upstream(p.edges, s)|;
    forall s | s in Ids(p) ensures degree[s] == Pending(p.edges, {}, s) {
      UpstreamCount(p.edges, s);
    }
  }

  /** The sources of the edges into a stage, one per edge. */
  function Upstream(edges: seq<Edge>, s: StageId): seq<StageId>
  {
    if edges == [] then []
    else Upstream(edges[..|edges| - 1], s) + (if edges[|edges| - 1].to == s then [edges[|edges| - 1].from] else [])
  }

  lemma {:induction false} UpstreamCount(edges: seq<Edge>, s: StageId)
    ensures |Upstream(edges, s)| == Pending(edges, {}, s)
  {
    if edges != [] {
      UpstreamCount(edges[..|edges| - 1], s);
    }
  }

  /**
   The stages that can be scheduled, each once and after all its sources, in non-decreasing order of
   their longest chains.  Exactly the blocked stages are left out.
   */
  method TopologicalOrder(p: Plan) returns (order: seq<StageId>)
    ensures IsTopological(p, order)
  {
    var degree := CountUpstream(p);
    var queue: seq<StageId> := [];
    for i := 0 to |p.stages|
      invariant forall s :: s in queue <==> s in p.stages[..i] && degree[s] == 0
    {
      if degree[p.stages[i]] == 0 {
        queue := queue + [p.stages[i]];
      }
    }
    assert p.stages[..|p.stages|] == p.stages;
    order := [];
    var visited: set<StageId> := {};
    ghost var t := FirstTrail(p, degree, queue);
    while queue != []
      invariant Frontier(p, t.done, t.waiting, t.level, degree)
      invariant QueueOk(t, queue) && OrderOk(p, t, order) && visited == t.done
      decreases Ids(p) - visited, |queue|
    {
      var current := queue[0];
      if current in visited {
        SkipVisited(t, queue);
        queue := queue[1..];
      } else {
        degree, queue, t := Visit(p, degree, queue, order, visited, t);
        order := order + [current];
        visited := visited + {current};
      }
    }
    TrailEnd(p, t, degree, order);
  }

  /** One visit of the worklist loop. */
  method Visit(p: Plan, degree0: map<StageId, nat>, queue0: seq<StageId>, ghost order: seq<StageId>,
               visited: set<StageId>, ghost t0: Trail)
    returns (degree: map<StageId, nat>, queue: seq<StageId>, ghost t: Trail)
    requires Frontier(p, t0.done, t0.waiting, t0.level, degree0) && QueueOk(t0, queue0) && OrderOk(p, t0, order)
    requires queue0 != [] && queue0[0] !in visited && visited == t0.done
    ensures queue0[0] in Ids(p) && t.done == t0.done + {queue0[0]}
    ensures Frontier(p, t.done, t.waiting, t.level, degree) && QueueOk(t, queue) && OrderOk(p, t, order + [queue0[0]])
  {
    VisitedCounts(p, t0, degree0, queue0);
    ghost var ready;
    degree, queue, ready := ReleaseDownstream(p, queue0[0], degree0, queue0[1..], visited + {queue0[0]}, t0.done);
    ghost var added := queue[|queue0| - 1..];
    assert queue == queue0[1..] + added;
    FollowOk(p, t0, degree0, degree, queue0, added, order, ready);
    t := Follow(t0, queue0[0], ready);
  }

  lemma FirstTrail(p: Plan, degree: map<StageId, nat>, queue: seq<StageId>) returns (t: Trail)
    requires DegreesOk(p, {}, degree) && forall s :: s in queue <==> s in p.stages && degree[s] == 0
    ensures Frontier(p, t.done, t.waiting, t.level, degree) && QueueOk(t, queue) && OrderOk(p, t, []) && t.done == {}
  {
    var first := set s | s in Ids(p) && degree[s] == 0;
    FrontierStart(p, degree, first);
    t := Trail({}, first, map s | s in first :: 0, 0);
    assert forall i :: 0 <= i < |queue| ==> queue[i] in first;
  }

  lemma VisitedCounts(p: Plan, t: Trail, degree: map<StageId, nat>, queue: seq<StageId>)
    requires Frontier(p, t.done, t.waiting, t.level, degree) && QueueOk(t, queue)
    requires queue != [] && queue[0] !in t.done
    ensures queue[0] in Ids(p) && queue[0] in t.waiting
    ensures forall s :: s in t.done + {queue[0]} ==> s in degree && degree[s] == 0
  {
    assert queue[0] in queue;
  }

  lemma TrailEnd(p: Plan, t: Trail, degree: map<StageId, nat>, order: seq<StageId>)
    requires Frontier(p, t.done, t.waiting, t.level, degree) && QueueOk(t, []) && OrderOk(p, t, order)
    ensures IsTopological(p, order)
  {
    assert t.waiting == {};
    FrontierExhausted(p, t.done, t.level, degree);
    forall i, j, a, b | 0 <= i <= j < |order| && LongestChain(p, order[i], a) && LongestChain(p, order[j], b)
      ensures a <= b
    {
      assert order[i] in order && order[j] in order;
      LevelIsLongestChain(p, t.done, t.level, order[i]);
      LevelIsLongestChain(p, t.done, t.level, order[j]);
      LongestChainUnique(p, order[i], a, t.level[order[i]]);
      LongestChainUnique(p, order[j], b, t.level[order[j]]);
    }
  }
}
