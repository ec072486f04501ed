/**
 Wiring of the streaming pipeline: one channel per exchange, whose receiving end is taken out of the
 channel table by the consumer and whose sending end is cloned by the producer.
 */
module Pipeline {
  import opened Common
  import opened StageGraph

  datatype StageInput = LocalCatalog | ExchangeInput(exchange: nat)

  datatype Stage = Stage(id: StageId, inputs: seq<StageInput>)

  /** Who holds which end: one receiver per exchange, and the stages that hold a sender. */
  datatype Wiring = Wiring(receiver: map<nat, StageId>, senders: set<(nat, StageId)>)

  /** The exchanges a list of inputs consumes, in order. */
  function Consumed(inputs: seq<StageInput>): seq<nat>
  {
    if inputs == [] then []
    else
      var last := inputs[|inputs| - 1];
      Consumed(inputs[..|inputs| - 1]) + (if last.ExchangeInput? then [last.exchange] else [])
  }

  function AllConsumed(stages: seq<Stage>): seq<nat>
  {
    if stages == [] then []
    else AllConsumed(stages[..|stages| - 1]) + Consumed(stages[|stages| - 1].inputs)
  }

  function Exchanges(edges: seq<Edge>): set<nat> { set e | e in edges :: e.exchange }

  function Members(s: seq<nat>): set<nat> { set x | x in s }

  /** Every exchange input names an exchange of the plan, and no exchange is consumed twice. */
  predicate Resolvable(consumed: seq<nat>, exchanges: set<nat>)
  {
    NoDuplicates(consumed) && Members(consumed) <= exchanges
  }

  lemma ResolvablePrefix(a: seq<nat>, b: seq<nat>, exchanges: set<nat>)
    requires Resolvable(a + b, exchanges)
    ensures Resolvable(a, exchanges)
  {
    assert forall i :: 0 <= i < |a| ==> a[i] == (a + b)[i];
    assert forall x :: x in a ==> x in a + b;
  }

  lemma ResolvableStep(a: seq<nat>, x: nat, exchanges: set<nat>)
    requires Resolvable(a, exchanges)
    ensures Resolvable(a + [x], exchanges) <==> x in exchanges - Members(a)
    ensures Members(a + [x]) == Members(a) + {x}
  {
    var b := a + [x];
    if x in a {
      var i :| 0 <= i < |a| && a[i] == x;
      assert b[i] == b[|a|];
    }
    assert x in b;
  }

  /** Takes the receivers a stage needs out of the table; fails on a missing or consumed exchange. */
  method ResolveInputs(stage: Stage, table0: set<nat>, ghost before: seq<nat>, ghost exchanges: set<nat>)
    returns (ok: bool, table: set<nat>, taken: seq<nat>)
    requires Resolvable(before, exchanges) && table0 == exchanges - Members(before)
    ensures ok <==> Resolvable(before + Consumed(stage.inputs), exchanges)
    ensures ok ==> taken == Consumed(stage.inputs) && table == exchanges - Members(before + taken)
  {
    table, taken := table0, [];
    ghost var all := before;
    assert before + [] == before;
    for i := 0 to |stage.inputs|
      invariant taken == Consumed(stage.inputs[..i]) && all == before + taken
      invariant Resolvable(all, exchanges) && table == exchanges - Members(all)
    {
      assert stage.inputs[..i + 1][..i] == stage.inputs[..i];
      var input := stage.inputs[i];
      if input.ExchangeInput? {
        ResolvableStep(all, input.exchange, exchanges);
        assert before + (taken + [input.exchange]) == all + [input.exchange];
        if input.exchange !in table {
          ConsumedPrefix(stage.inputs, i + 1);
          ghost var rest :| Consumed(stage.inputs) == Consumed(stage.inputs[..i + 1]) + rest;
          assert before + Consumed(stage.inputs) == all + [input.exchange] + rest;
          if Resolvable(all + [input.exchange] + rest, exchanges) {
            ResolvablePrefix(all + [input.exchange], rest, exchanges);
          }
          return false, table, taken;
        }
        table := table - {input.exchange};
        taken := taken + [input.exchange];
        all := all + [input.exchange];
      } else {
        assert before + (taken + []) == all;
      }
    }
    assert stage.inputs[..|stage.inputs|] == stage.inputs;
    ok := true;
  }

  lemma {:induction false} ConsumedPrefix(inputs: seq<StageInput>, i: nat)
    requires i <= |inputs|
    ensures exists rest :: Consumed(inputs) == Consumed(inputs[..i]) + rest
    decreases |inputs|
  {
    if i == |inputs| {
      assert inputs[..i] == inputs;
      assert Consumed(inputs) == Consumed(inputs) + [];
    } else {
      var init := inputs[..|inputs| - 1];
      ConsumedPrefix(init, i);
      assert init[..i] == inputs[..i];
      var rest :| Consumed(init) == Consumed(init[..i]) + rest;
      var last := inputs[|inputs| - 1];
      var more := if last.ExchangeInput? then [last.exchange] else [];
      assert Consumed(inputs) == Consumed(inputs[..i]) + (rest + more);
    }
  }

  lemma {:induction false} AllConsumedPrefix(stages: seq<Stage>, i: nat)
    requires i <= |stages|
    ensures exists rest :: AllConsumed(stages) == AllConsumed(stages[..i]) + rest
    decreases |stages|
  {
    if i == |stages| {
      assert stages[..i] == stages;
      assert AllConsumed(stages) == AllConsumed(stages) + [];
    } else {
      var init := stages[..|stages| - 1];
      AllConsumedPrefix(init, i);
      assert init[..i] == stages[..i];
      var rest :| AllConsumed(init) == AllConsumed(init[..i]) + rest;
      assert AllConsumed(stages) == AllConsumed(stages[..i]) + (rest + Consumed(stages[|stages| - 1].inputs));
    }
  }

  /** A producer gets a sender for every edge whose channel is still in the table when it is spawned. */
  ghost predicate Sends(stages: seq<Stage>, edges: seq<Edge>, i: int, x: nat, s: StageId)
    requires 0 <= i < |stages|
  {
    && stages[i].id == s && x !in AllConsumed(stages[..i + 1])
    && exists e :: e in edges && e.from == s && e.exchange == x
  }

  /** A consumer holds the receiver of every exchange among its inputs. */
  ghost predicate Receives(stages: seq<Stage>, i: int, x: nat, s: StageId)
    requires 0 <= i < |stages|
  {
    stages[i].id == s && x in Consumed(stages[i].inputs)
  }

  ghost predicate Wired(stages: seq<Stage>, edges: seq<Edge>, w: Wiring)
  {
    && SendersOk(stages, edges, w.senders)
    && (forall x :: x in w.receiver <==> x in AllConsumed(stages))
    && (forall x :: x in w.receiver ==> exists i :: 0 <= i < |stages| && Receives(stages, i, x, w.receiver[x]))
  }

  ghost predicate SendersOk(stages: seq<Stage>, edges: seq<Edge>, senders: set<(nat, StageId)>)
  {
    forall x: nat, s: StageId :: (x, s) in senders <==> exists i :: 0 <= i < |stages| && Sends(stages, edges, i, x, s)
  }

  /** The senders a stage takes: one for every edge out of it whose channel is still in the table. */
  function Outputs(edges: seq<Edge>, id: StageId, table: set<nat>): set<(nat, StageId)>
  {
    set e | e in edges && e.from == id && e.exchange in table :: (e.exchange, id)
  }

  lemma SendersStep(stages: seq<Stage>, edges: seq<Edge>, senders: set<(nat, StageId)>, stage: Stage,
                    more: set<(nat, StageId)>)
    requires SendersOk(stages, edges, senders)
    requires more == Outputs(edges, stage.id, Exchanges(edges) - Members(AllConsumed(stages + [stage])))
    ensures SendersOk(stages + [stage], edges, senders + more)
  {
    var all, n := stages + [stage], |stages|;
    assert all[..n + 1] == all;
    forall x: nat, s: StageId
      ensures (x, s) in senders + more <==> exists i :: 0 <= i < |all| && Sends(all, edges, i, x, s)
    {
      forall i | 0 <= i < n ensures Sends(all, edges, i, x, s) <==> Sends(stages, edges, i, x, s) {
        assert all[..i + 1] == stages[..i + 1];
      }
      assert forall e :: e in edges ==> e.exchange in Exchanges(edges);
      assert (x, s) in more <==> Sends(all, edges, n, x, s);
    }
  }

  lemma WiredStep(stages: seq<Stage>, edges: seq<Edge>, w: Wiring, stage: Stage, more: set<(nat, StageId)>)
    requires Wired(stages, edges, w)
    requires more == Outputs(edges, stage.id, Exchanges(edges) - Members(AllConsumed(stages + [stage])))
    ensures Wired(stages + [stage], edges,
                  Wiring(w.receiver + map x | x in Consumed(stage.inputs) :: stage.id, w.senders + more))
  {
    var all, receiver := stages + [stage], w.receiver + map x | x in Consumed(stage.inputs) :: stage.id;
    SendersStep(stages, edges, w.senders, stage, more);
    assert all[..|stages|] == stages && AllConsumed(all) == AllConsumed(stages) + Consumed(stage.inputs);
    forall x | x in receiver ensures exists i :: 0 <= i < |all| && Receives(all, i, x, receiver[x]) {
      if x in Consumed(stage.inputs) {
        assert all[|stages|] == stage;
        assert Receives(all, |stages|, x, receiver[x]);
      } else {
        var i :| 0 <= i < |stages| && Receives(stages, i, x, w.receiver[x]);
        assert all[i] == stages[i] && receiver[x] == w.receiver[x];
        assert Receives(all, i, x, receiver[x]);
      }
    }
  }

  lemma Unresolvable(stages: seq<Stage>, i: nat, exchanges: set<nat>)
    requires i <= |stages| && !Resolvable(AllConsumed(stages[..i]), exchanges)
    ensures !Resolvable(AllConsumed(stages), exchanges)
  {
    AllConsumedPrefix(stages, i);
    var more :| AllConsumed(stages) == AllConsumed(stages[..i]) + more;
    if Resolvable(AllConsumed(stages), exchanges) {
      ResolvablePrefix(AllConsumed(stages[..i]), more, exchanges);
    }
  }

  /** The spawn loop of the streaming pipeline; it fails exactly on unresolvable inputs. */
  method WirePipeline(stages: seq<Stage>, edges: seq<Edge>) returns (r: Option<Wiring>)
    ensures r.Some? <==> Resolvable(AllConsumed(stages), Exchanges(edges))
    ensures r.Some? ==> Wired(stages, edges, r.value)
  {
    var table: set<nat> := set e | e in edges :: e.exchange;
    var w := Wiring(map[], {});
    for i := 0 to |stages|
      invariant Resolvable(AllConsumed(stages[..i]), Exchanges(edges))
      invariant table == Exchanges(edges) - Members(AllConsumed(stages[..i]))
      invariant Wired(stages[..i], edges, w)
    {
      var stage := stages[i];
      assert stages[..i + 1] == stages[..i] + [stage];
      assert stages[..i + 1][..i] == stages[..i];
      var ok, rest, taken := ResolveInputs(stage, table, AllConsumed(stages[..i]), Exchanges(edges));
      if !ok {
        Unresolvable(stages, i + 1, Exchanges(edges));
        return None;
      }
      table := rest;
      var outputs := Outputs(edges, stage.id, table);
      WiredStep(stages[..i], edges, w, stage, outputs);
      w := Wiring(w.receiver + map x | x in taken :: stage.id, w.senders + outputs);
    }
    assert stages[..|stages|] == stages;
    r := Some(w);
  }

  // ---------------------------------------------------------------------------
  // When the wiring is complete
  // ---------------------------------------------------------------------------

  /** Stage and exchange ids are unique and every exchange is an input of its target stage only. */
  ghost predicate WellFormed(stages: seq<Stage>, edges: seq<Edge>)
  {
    && (forall i, j :: 0 <= i < j < |stages| ==> stages[i].id != stages[j].id)
    && (forall e, f :: e in edges && f in edges && e.exchange == f.exchange ==> e == f)
    && Resolvable(AllConsumed(stages), Exchanges(edges))
    && (forall e :: e in edges ==> exists i :: 0 <= i < |stages| && stages[i].id == e.from)
    && (forall e :: e in edges ==> exists i :: 0 <= i < |stages| && Receives(stages, i, e.exchange, e.to))
  }

  /** Every stage is listed after the stages it reads from. */
  ghost predicate ProducersFirst(stages: seq<Stage>, edges: seq<Edge>)
  {
    forall e, i, j | e in edges && 0 <= i < |stages| && 0 <= j < |stages| ::
      stages[i].id == e.from && stages[j].id == e.to ==> i < j
  }

  /** Each exchange has its one sender at the producer and its receiver at the consumer. */
  ghost predicate Complete(edges: seq<Edge>, w: Wiring)
  {
    forall e :: e in edges ==>
      && e.exchange in w.receiver && w.receiver[e.exchange] == e.to
      && (e.exchange, e.from) in w.senders
      && forall s :: (e.exchange, s) in w.senders ==> s == e.from
  }

  predicate Takes(stages: seq<Stage>, i: int, x: nat)
    requires 0 <= i < |stages|
  {
    x in Consumed(stages[i].inputs)
  }

  lemma {:induction false} ConsumedWhere(stages: seq<Stage>, x: nat)
    ensures x in AllConsumed(stages) <==> exists i :: 0 <= i < |stages| && Takes(stages, i, x)
  {
    if stages != [] {
      var n := |stages| - 1;
      var init := stages[..n];
      ConsumedWhere(init, x);
      assert forall i :: 0 <= i < n ==> Takes(init, i, x) == Takes(stages, i, x);
      assert x in AllConsumed(stages) <==> x in AllConsumed(init) || Takes(stages, n, x);
    }
  }

  lemma DistinctParts(a: seq<nat>, b: seq<nat>, x: nat)
    requires NoDuplicates(a + b) && x in a
    ensures x !in b
  {
    var i :| 0 <= i < |a| && a[i] == x;
    assert (a + b)[i] == x;
    forall j | 0 <= j < |b| ensures b[j] != x {
      assert (a + b)[|a| + j] == b[j];
    }
  }

  /** In a resolvable plan, an exchange is an input of one stage only. */
  lemma {:induction false} ConsumedOnce(stages: seq<Stage>, x: nat, i: int, j: int)
    requires NoDuplicates(AllConsumed(stages)) && 0 <= i < |stages| && 0 <= j < |stages|
    requires x in Consumed(stages[i].inputs) && x in Consumed(stages[j].inputs)
    ensures i == j
  {
    if i != j {
      var n := |stages|;
      var init, last := stages[..n - 1], Consumed(stages[n - 1].inputs);
      assert AllConsumed(stages) == AllConsumed(init) + last;
      if i < n - 1 && j < n - 1 {
        assert forall k :: 0 <= k < |AllConsumed(init)| ==> AllConsumed(init)[k] == AllConsumed(stages)[k];
        ConsumedOnce(init, x, i, j);
      } else {
        var k := if i < n - 1 then i else j;
        assert Takes(init, k, x);
        ConsumedWhere(init, x);
        DistinctParts(AllConsumed(init), last, x);
      }
    }
  }

  /** A producer keeps its sender exactly when it is spawned before the consumer. */
  lemma SenderKeptIff(stages: seq<Stage>, edges: seq<Edge>, w: Wiring, e: Edge, i: int, j: int)
    requires WellFormed(stages, edges) && Wired(stages, edges, w) && e in edges
    requires 0 <= i < |stages| && stages[i].id == e.from
    requires 0 <= j < |stages| && Receives(stages, j, e.exchange, e.to)
    ensures (e.exchange, e.from) in w.senders <==> i < j
  {
    var x := e.exchange;
    ConsumedWhere(stages[..i + 1], x);
    if i < j && x in AllConsumed(stages[..i + 1]) {
      var k :| 0 <= k < |stages[..i + 1]| && Takes(stages[..i + 1], k, x);
      ConsumedOnce(stages, x, k, j);
    }
    if i < j {
      assert Sends(stages, edges, i, x, e.from);
    } else {
      assert Takes(stages[..i + 1], j, x);
    }
    if (x, e.from) in w.senders {
      var k :| 0 <= k < |stages| && Sends(stages, edges, k, x, e.from);
      assert k == i;
    }
  }

  /**
   In a well-formed plan the wiring connects every producer to its consumer, and nobody else, exactly
   when the stages are listed producers first; otherwise some producer silently has no channel.
   */
  lemma {:induction false} CompleteIffProducersFirst(stages: seq<Stage>, edges: seq<Edge>, w: Wiring)
    requires WellFormed(stages, edges) && Wired(stages, edges, w)
    ensures Complete(edges, w) <==> ProducersFirst(stages, edges)
  {
    forall e | e in edges
      ensures e.exchange in w.receiver && w.receiver[e.exchange] == e.to
      ensures forall s :: (e.exchange, s) in w.senders ==> s == e.from
    {
      var j :| 0 <= j < |stages| && Receives(stages, j, e.exchange, e.to);
      ConsumedWhere(stages, e.exchange);
      assert Takes(stages, j, e.exchange);
      var k :| 0 <= k < |stages| && Receives(stages, k, e.exchange, w.receiver[e.exchange]);
      ConsumedOnce(stages, e.exchange, j, k);
      forall s | (e.exchange, s) in w.senders ensures s == e.from {
        var i :| 0 <= i < |stages| && Sends(stages, edges, i, e.exchange, s);
      }
    }
    if Complete(edges, w) {
      forall e, i, j | && e in edges && 0 <= i < |stages| && 0 <= j < |stages|
                       && stages[i].id == e.from && stages[j].id == e.to
        ensures i < j
      {
        var k :| 0 <= k < |stages| && Receives(stages, k, e.exchange, e.to);
        SenderKeptIff(stages, edges, w, e, i, k);
      }
    }
    if ProducersFirst(stages, edges) {
      forall e | e in edges ensures (e.exchange, e.from) in w.senders {
        var i :| 0 <= i < |stages| && stages[i].id == e.from;
        var j :| 0 <= j < |stages| && Receives(stages, j, e.exchange, e.to);
        SenderKeptIff(stages, edges, w, e, i, j);
      }
    }
  }

  lemma TwoStagesConsume(first: Stage, second: Stage)
    ensures AllConsumed([first, second]) == Consumed(first.inputs) + Consumed(second.inputs)
  {
    assert [first, second][..1] == [first] && [first][..0] == [];
    assert AllConsumed([first]) == AllConsumed([]) + Consumed(first.inputs);
  }

  lemma TwoStages(first: Stage, second: Stage, x: nat)
    requires first.id != second.id && first.inputs == [ExchangeInput(x)] && second.inputs == [LocalCatalog]
    ensures WellFormed([first, second], [Edge(x, second.id, first.id)])
  {
    var stages, e := [first, second], Edge(x, second.id, first.id);
    assert Consumed([]) == [] && [ExchangeInput(x)][..0] == [] && [LocalCatalog][..0] == [];
    assert Consumed(first.inputs) == [x] && Consumed(second.inputs) == [];
    TwoStagesConsume(first, second);
    assert e in [e];
    assert Exchanges([e]) == {x} && AllConsumed(stages) == [x];
    assert stages[1].id == e.from && Receives(stages, 0, e.exchange, e.to);
  }

  /** Two stages, the consumer listed first: a well-formed plan that is wired without its sender. */
  lemma ConsumerFirstIsCut(first: Stage, second: Stage, x: nat, w: Wiring)
    requires first.id != second.id && first.inputs == [ExchangeInput(x)] && second.inputs == [LocalCatalog]
    requires Wired([first, second], [Edge(x, second.id, first.id)], w)
    ensures WellFormed([first, second], [Edge(x, second.id, first.id)])
    ensures !Complete([Edge(x, second.id, first.id)], w)
  {
    var stages, e := [first, second], Edge(x, second.id, first.id);
    TwoStages(first, second, x);
    assert e in [e] && stages[1].id == e.from && stages[0].id == e.to;
    assert !ProducersFirst(stages, [e]);
    CompleteIffProducersFirst(stages, [e], w);
  }
}
