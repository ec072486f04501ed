/**
 Nested queries as the discovery and the rewrite see them: tables can occur in FROM clauses, joins, CTEs, set
 operations and in subqueries inside expressions.
 */
module QueryTree {
  import opened Common

  datatype Query = Query(ctes: seq<Cte>, body: Body)

  datatype Cte = Cte(name: string, query: Query)

  /** `filter`, `having` and `on` hold at most one expression; wildcards of the select list are left out. */
  datatype Body =
    | Select(from: seq<FromItem>, filter: seq<Expr>, items: seq<Expr>, having: seq<Expr>)
    | Enclosed(query: Query)
    | SetOperation(left: Body, right: Body)
    | Modification              // INSERT or UPDATE in place of a SELECT
    | Values                    // VALUES, TABLE and the like

  datatype FromItem = FromItem(relation: Factor, joins: seq<JoinClause>)

  datatype JoinClause = JoinClause(relation: Factor, on: seq<Expr>)

  /** `extras` is what can be attached to a table: a sample, hints, a version, partitions, arguments. */
  datatype Factor =
    | Table(path: seq<string>, alias: Option<string>, extras: seq<nat>)
    | MacroCall(dataset: string, range: nat, alias: Option<string>)
    | Derived(query: Query, alias: Option<string>)
    | Parenthesised(item: FromItem)
    | OtherFactor(id: nat)

  datatype Expr =
    | Subquery(id: nat, query: Query)                 // scalar, IN and EXISTS subqueries
    | Compound(id: nat, operands: seq<Expr>)          // operators, BETWEEN, parentheses, function calls
    | Case(operand: seq<Expr>, arms: seq<Expr>, otherwise: seq<Expr>)
    | OtherExpr(id: nat)

  /** What a traversal finds at its leaves. */
  datatype Leaf = Relation(factor: Factor) | Modifies

  predicate IsLeaf(f: Factor) { f.Table? || f.MacroCall? || f.OtherFactor? }

  /** All of a query, all but the WHEN and THEN arms of CASE, or these arms only. */
  datatype Mode = All | Outside | Arms

  // ---------------------------------------------------------------------------
  // Collecting from the leaves, in the order in which they are visited
  // ---------------------------------------------------------------------------

  function AtLeaf<U>(m: Mode, pick: Leaf -> seq<U>, leaf: Leaf): seq<U> { if m.Arms? then [] else pick(leaf) }

  function Collect<U>(q: Query, m: Mode, pick: Leaf -> seq<U>): seq<U>
    decreases q
  {
    CollectCtes(q.ctes, m, pick) + CollectBody(q.body, m, pick)
  }

  function CollectCtes<U>(cs: seq<Cte>, m: Mode, pick: Leaf -> seq<U>): seq<U>
    decreases cs
  {
    if cs == [] then [] else Collect(cs[0].query, m, pick) + CollectCtes(cs[1..], m, pick)
  }

  function CollectBody<U>(b: Body, m: Mode, pick: Leaf -> seq<U>): seq<U>
    decreases b
  {
    match b
    case Select(from, filter, items, having) =>
      CollectFrom(from, m, pick) + CollectExprs(filter, m, pick) + CollectExprs(items, m, pick)
      + CollectExprs(having, m, pick)
    case Enclosed(query) => Collect(query, m, pick)
    case SetOperation(left, right) => CollectBody(left, m, pick) + CollectBody(right, m, pick)
    case Modification => AtLeaf(m, pick, Modifies)
    case Values => []
  }

  function CollectFrom<U>(from: seq<FromItem>, m: Mode, pick: Leaf -> seq<U>): seq<U>
    decreases from
  {
    if from == [] then [] else CollectItem(from[0], m, pick) + CollectFrom(from[1..], m, pick)
  }

  function CollectItem<U>(item: FromItem, m: Mode, pick: Leaf -> seq<U>): seq<U>
    decreases item
  {
    CollectFactor(item.relation, m, pick) + CollectJoins(item.joins, m, pick)
  }

  function CollectJoins<U>(js: seq<JoinClause>, m: Mode, pick: Leaf -> seq<U>): seq<U>
    decreases js
  {
    if js == [] then [] else CollectJoin(js[0], m, pick) + CollectJoins(js[1..], m, pick)
  }

  function CollectJoin<U>(j: JoinClause, m: Mode, pick: Leaf -> seq<U>): seq<U>
    decreases j
  {
    CollectFactor(j.relation, m, pick) + CollectExprs(j.on, m, pick)
  }

  function CollectFactor<U>(f: Factor, m: Mode, pick: Leaf -> seq<U>): seq<U>
    decreases f
  {
    match f
    case Derived(query, _) => Collect(query, m, pick)
    case Parenthesised(item) => CollectItem(item, m, pick)
    case _ => AtLeaf(m, pick, Relation(f))
  }

  function CollectExprs<U>(es: seq<Expr>, m: Mode, pick: Leaf -> seq<U>): seq<U>
    decreases es
  {
    if es == [] then [] else CollectExpr(es[0], m, pick) + CollectExprs(es[1..], m, pick)
  }

  function CollectExpr<U>(e: Expr, m: Mode, pick: Leaf -> seq<U>): seq<U>
    decreases e
  {
    match e
    case Subquery(_, query) => Collect(query, m, pick)
    case Compound(_, operands) => CollectExprs(operands, m, pick)
    case Case(operand, arms, otherwise) =>
      CollectExprs(operand, m, pick)
      + (if m.Outside? then [] else CollectExprs(arms, All, pick))
      + CollectExprs(otherwise, m, pick)
    case OtherExpr(_) => []
  }

  // ---------------------------------------------------------------------------
  // Changing the leaves in place, outside the arms of CASE
  // ---------------------------------------------------------------------------

  function Map(q: Query, f: Factor -> Factor): Query
    decreases q
  {
    Query(MapCtes(q.ctes, f), MapBody(q.body, f))
  }

  function MapCtes(cs: seq<Cte>, f: Factor -> Factor): (r: seq<Cte>)
    decreases cs
  {
    if cs == [] then [] else [Cte(cs[0].name, Map(cs[0].query, f))] + MapCtes(cs[1..], f)
  }

  function MapBody(b: Body, f: Factor -> Factor): Body
    decreases b
  {
    match b
    case Select(from, filter, items, having) =>
      Select(MapFrom(from, f), MapExprs(filter, f), MapExprs(items, f), MapExprs(having, f))
    case Enclosed(query) => Enclosed(Map(query, f))
    case SetOperation(left, right) => SetOperation(MapBody(left, f), MapBody(right, f))
    case _ => b
  }

  function MapFrom(from: seq<FromItem>, f: Factor -> Factor): seq<FromItem>
    decreases from
  {
    if from == [] then [] else [MapItem(from[0], f)] + MapFrom(from[1..], f)
  }

  function MapItem(item: FromItem, f: Factor -> Factor): FromItem
    decreases item
  {
    FromItem(MapFactor(item.relation, f), MapJoins(item.joins, f))
  }

  function MapJoins(js: seq<JoinClause>, f: Factor -> Factor): seq<JoinClause>
    decreases js
  {
    if js == [] then [] else [MapJoin(js[0], f)] + MapJoins(js[1..], f)
  }

  function MapJoin(j: JoinClause, f: Factor -> Factor): JoinClause
    decreases j
  {
    JoinClause(MapFactor(j.relation, f), MapExprs(j.on, f))
  }

  function MapFactor(factor: Factor, f: Factor -> Factor): Factor
    decreases factor
  {
    match factor
    case Derived(query, alias) => Derived(Map(query, f), alias)
    case Parenthesised(item) => Parenthesised(MapItem(item, f))
    case _ => f(factor)
  }

  function MapExprs(es: seq<Expr>, f: Factor -> Factor): seq<Expr>
    decreases es
  {
    if es == [] then [] else [MapExpr(es[0], f)] + MapExprs(es[1..], f)
  }

  function MapExpr(e: Expr, f: Factor -> Factor): Expr
    decreases e
  {
    match e
    case Subquery(id, query) => Subquery(id, Map(query, f))
    case Compound(id, operands) => Compound(id, MapExprs(operands, f))
    case Case(operand, arms, otherwise) => Case(MapExprs(operand, f), arms, MapExprs(otherwise, f))
    case OtherExpr(_) => e
  }

  // ---------------------------------------------------------------------------
  // Collecting is picking from the list of leaves, outside and inside the arms
  // ---------------------------------------------------------------------------

  function Leaves(leaf: Leaf): seq<Leaf> { [leaf] }

  function PickAll<U>(leaves: seq<Leaf>, pick: Leaf -> seq<U>): seq<U>
  {
    if leaves == [] then [] else pick(leaves[0]) + PickAll(leaves[1..], pick)
  }

  lemma {:induction false} PickAllAppend<U>(a: seq<Leaf>, b: seq<Leaf>, pick: Leaf -> seq<U>)
    ensures PickAll(a + b, pick) == PickAll(a, pick) + PickAll(b, pick)
  {
    if a == [] {
      assert a + b == b;
    } else {
      assert (a + b)[1..] == a[1..] + b;
      PickAllAppend(a[1..], b, pick);
    }
  }

  lemma PickOne<U>(leaf: Leaf, pick: Leaf -> seq<U>)
    ensures PickAll([leaf], pick) == pick(leaf)
  {
    assert [leaf][1..] == [] && pick(leaf) + [] == pick(leaf);
  }

  // Each class of the syntax: what is collected is picked from the leaves; everything is what is outside the
  // arms and what is inside; what is outside is part of everything.

  lemma {:induction false} CollectsQuery<U>(q: Query, m: Mode, pick: Leaf -> seq<U>)
    ensures Collect(q, m, pick) == PickAll(Collect(q, m, Leaves), pick)
    ensures |Collect(q, All, pick)| == |Collect(q, Outside, pick)| + |Collect(q, Arms, pick)|
    ensures Collect(q, Arms, pick) == [] ==> Collect(q, All, pick) == Collect(q, Outside, pick)
    ensures forall x :: x in Collect(q, Outside, pick) ==> x in Collect(q, All, pick)
    decreases q, 0
  {
    CollectsCtes(q.ctes, m, pick);
    CollectsBody(q.body, m, pick);
    PickAllAppend(CollectCtes(q.ctes, m, Leaves), CollectBody(q.body, m, Leaves), pick);
  }

  lemma {:induction false} CollectsCtes<U>(cs: seq<Cte>, m: Mode, pick: Leaf -> seq<U>)
    ensures CollectCtes(cs, m, pick) == PickAll(CollectCtes(cs, m, Leaves), pick)
    ensures |CollectCtes(cs, All, pick)| == |CollectCtes(cs, Outside, pick)| + |CollectCtes(cs, Arms, pick)|
    ensures CollectCtes(cs, Arms, pick) == [] ==> CollectCtes(cs, All, pick) == CollectCtes(cs, Outside, pick)
    ensures forall x :: x in CollectCtes(cs, Outside, pick) ==> x in CollectCtes(cs, All, pick)
    decreases cs, 0
  {
    if cs != [] {
      CollectsQuery(cs[0].query, m, pick);
      CollectsCtes(cs[1..], m, pick);
      PickAllAppend(Collect(cs[0].query, m, Leaves), CollectCtes(cs[1..], m, Leaves), pick);
    }
  }

  lemma {:induction false} CollectsBody<U>(b: Body, m: Mode, pick: Leaf -> seq<U>)
    ensures CollectBody(b, m, pick) == PickAll(CollectBody(b, m, Leaves), pick)
    ensures |CollectBody(b, All, pick)| == |CollectBody(b, Outside, pick)| + |CollectBody(b, Arms, pick)|
    ensures CollectBody(b, Arms, pick) == [] ==> CollectBody(b, All, pick) == CollectBody(b, Outside, pick)
    ensures forall x :: x in CollectBody(b, Outside, pick) ==> x in CollectBody(b, All, pick)
    decreases b, 0
  {
    match b
    case Select(from, filter, items, having) =>
      CollectsFrom(from, m, pick);
      CollectsExprs(filter, m, pick);
      CollectsExprs(items, m, pick);
      CollectsExprs(having, m, pick);
      var first, second := CollectFrom(from, m, Leaves), CollectExprs(filter, m, Leaves);
      var third := CollectExprs(items, m, Leaves);
      PickAllAppend(first, second, pick);
      PickAllAppend(first + second, third, pick);
      PickAllAppend(first + second + third, CollectExprs(having, m, Leaves), pick);
    case Enclosed(query) => CollectsQuery(query, m, pick);
    case SetOperation(left, right) =>
      CollectsBody(left, m, pick);
      CollectsBody(right, m, pick);
      PickAllAppend(CollectBody(left, m, Leaves), CollectBody(right, m, Leaves), pick);
    case _ => PickOne(Modifies, pick);
  }

  lemma {:induction false} CollectsFrom<U>(from: seq<FromItem>, m: Mode, pick: Leaf -> seq<U>)
    ensures CollectFrom(from, m, pick) == PickAll(CollectFrom(from, m, Leaves), pick)
    ensures |CollectFrom(from, All, pick)| == |CollectFrom(from, Outside, pick)| + |CollectFrom(from, Arms, pick)|
    ensures CollectFrom(from, Arms, pick) == [] ==> CollectFrom(from, All, pick) == CollectFrom(from, Outside, pick)
    ensures forall x :: x in CollectFrom(from, Outside, pick) ==> x in CollectFrom(from, All, pick)
    decreases from, 0
  {
    if from != [] {
      CollectsItem(from[0], m, pick);
      CollectsFrom(from[1..], m, pick);
      PickAllAppend(CollectItem(from[0], m, Leaves), CollectFrom(from[1..], m, Leaves), pick);
    }
  }

  lemma {:induction false} CollectsItem<U>(item: FromItem, m: Mode, pick: Leaf -> seq<U>)
    ensures CollectItem(item, m, pick) == PickAll(CollectItem(item, m, Leaves), pick)
    ensures |CollectItem(item, All, pick)| == |CollectItem(item, Outside, pick)| + |CollectItem(item, Arms, pick)|
    ensures CollectItem(item, Arms, pick) == [] ==> CollectItem(item, All, pick) == CollectItem(item, Outside, pick)
    ensures forall x :: x in CollectItem(item, Outside, pick) ==> x in CollectItem(item, All, pick)
    decreases item, 0
  {
    CollectsFactor(item.relation, m, pick);
    CollectsJoins(item.joins, m, pick);
    PickAllAppend(CollectFactor(item.relation, m, Leaves), CollectJoins(item.joins, m, Leaves), pick);
  }

  lemma {:induction false} CollectsJoins<U>(js: seq<JoinClause>, m: Mode, pick: Leaf -> seq<U>)
    ensures CollectJoins(js, m, pick) == PickAll(CollectJoins(js, m, Leaves), pick)
    ensures |CollectJoins(js, All, pick)| == |CollectJoins(js, Outside, pick)| + |CollectJoins(js, Arms, pick)|
    ensures CollectJoins(js, Arms, pick) == [] ==> CollectJoins(js, All, pick) == CollectJoins(js, Outside, pick)
    ensures forall x :: x in CollectJoins(js, Outside, pick) ==> x in CollectJoins(js, All, pick)
    decreases js, 0
  {
    if js != [] {
      CollectsJoin(js[0], m, pick);
      CollectsJoins(js[1..], m, pick);
      PickAllAppend(CollectJoin(js[0], m, Leaves), CollectJoins(js[1..], m, Leaves), pick);
    }
  }

  lemma {:induction false} CollectsJoin<U>(j: JoinClause, m: Mode, pick: Leaf -> seq<U>)
    ensures CollectJoin(j, m, pick) == PickAll(CollectJoin(j, m, Leaves), pick)
    ensures |CollectJoin(j, All, pick)| == |CollectJoin(j, Outside, pick)| + |CollectJoin(j, Arms, pick)|
    ensures CollectJoin(j, Arms, pick) == [] ==> CollectJoin(j, All, pick) == CollectJoin(j, Outside, pick)
    ensures forall x :: x in CollectJoin(j, Outside, pick) ==> x in CollectJoin(j, All, pick)
    decreases j, 0
  {
    CollectsFactor(j.relation, m, pick);
    CollectsExprs(j.on, m, pick);
    PickAllAppend(CollectFactor(j.relation, m, Leaves), CollectExprs(j.on, m, Leaves), pick);
  }

  lemma {:induction false} CollectsFactor<U>(factor: Factor, m: Mode, pick: Leaf -> seq<U>)
    ensures CollectFactor(factor, m, pick) == PickAll(CollectFactor(factor, m, Leaves), pick)
    ensures |CollectFactor(factor, All, pick)|
            == |CollectFactor(factor, Outside, pick)| + |CollectFactor(factor, Arms, pick)|
    ensures CollectFactor(factor, Arms, pick) == [] ==>
              CollectFactor(factor, All, pick) == CollectFactor(factor, Outside, pick)
    ensures forall x :: x in CollectFactor(factor, Outside, pick) ==> x in CollectFactor(factor, All, pick)
    decreases factor, 0
  {
    match factor
    case Derived(query, _) => CollectsQuery(query, m, pick);
    case Parenthesised(item) => CollectsItem(item, m, pick);
    case _ => PickOne(Relation(factor), pick);
  }

  lemma {:induction false} CollectsExprs<U>(es: seq<Expr>, m: Mode, pick: Leaf -> seq<U>)
    ensures CollectExprs(es, m, pick) == PickAll(CollectExprs(es, m, Leaves), pick)
    ensures |CollectExprs(es, All, pick)| == |CollectExprs(es, Outside, pick)| + |CollectExprs(es, Arms, pick)|
    ensures CollectExprs(es, Arms, pick) == [] ==> CollectExprs(es, All, pick) == CollectExprs(es, Outside, pick)
    ensures forall x :: x in CollectExprs(es, Outside, pick) ==> x in CollectExprs(es, All, pick)
    decreases es, 0
  {
    if es != [] {
      CollectsExpr(es[0], m, pick);
      CollectsExprs(es[1..], m, pick);
      PickAllAppend(CollectExpr(es[0], m, Leaves), CollectExprs(es[1..], m, Leaves), pick);
    }
  }

  lemma {:induction false} CollectsExpr<U>(e: Expr, m: Mode, pick: Leaf -> seq<U>)
    ensures CollectExpr(e, m, pick) == PickAll(CollectExpr(e, m, Leaves), pick)
    ensures |CollectExpr(e, All, pick)| == |CollectExpr(e, Outside, pick)| + |CollectExpr(e, Arms, pick)|
    ensures CollectExpr(e, Arms, pick) == [] ==> CollectExpr(e, All, pick) == CollectExpr(e, Outside, pick)
    ensures forall x :: x in CollectExpr(e, Outside, pick) ==> x in CollectExpr(e, All, pick)
    decreases e, 0
  {
    match e
    case Subquery(_, query) => CollectsQuery(query, m, pick);
    case Compound(_, operands) => CollectsExprs(operands, m, pick);
    case Case(operand, arms, otherwise) =>
      var inside := if m.Outside? then [] else CollectExprs(arms, All, Leaves);
      CollectsExprs(operand, m, pick);
      CollectsExprs(arms, All, pick);
      CollectsExprs(otherwise, m, pick);
      PickAllAppend(CollectExprs(operand, m, Leaves), inside, pick);
      PickAllAppend(CollectExprs(operand, m, Leaves) + inside, CollectExprs(otherwise, m, Leaves), pick);
    case OtherExpr(_) =>
  }

  // ---------------------------------------------------------------------------
  // Changing the leaves, undoing the change, and changing nothing
  // ---------------------------------------------------------------------------

  ghost predicate KeepsLeaves(f: Factor -> Factor) { forall x :: IsLeaf(x) ==> IsLeaf(f(x)) }

  /** Picking from a changed leaf is picking differently from the original. */
  ghost predicate PicksAfter<U>(pick: Leaf -> seq<U>, f: Factor -> Factor, after: Leaf -> seq<U>)
  {
    after(Modifies) == pick(Modifies) && forall x :: IsLeaf(x) ==> after(Relation(x)) == pick(Relation(f(x)))
  }

  /** At each of these leaves, the second function undoes the first. */
  ghost predicate Undone(leaves: seq<Leaf>, f: Factor -> Factor, g: Factor -> Factor)
  {
    forall leaf :: leaf in leaves && leaf.Relation? ==> g(f(leaf.factor)) == leaf.factor
  }

  ghost predicate Fixed(leaves: seq<Leaf>, f: Factor -> Factor)
  {
    forall leaf :: leaf in leaves && leaf.Relation? ==> f(leaf.factor) == leaf.factor
  }

  // Each class of the syntax: what the changed query holds is what the original held, changed; a second change
  // restores the original exactly when it does so at every leaf; a change of no leaf changes nothing.

  lemma {:induction false} MapsQuery<U>(q: Query, f: Factor -> Factor, g: Factor -> Factor,
                                        pick: Leaf -> seq<U>, after: Leaf -> seq<U>)
    requires KeepsLeaves(f) && PicksAfter(pick, f, after)
    ensures Collect(Map(q, f), Outside, pick) == Collect(q, Outside, after)
    ensures Map(Map(q, f), g) == q <==> Undone(Collect(q, Outside, Leaves), f, g)
    ensures Fixed(Collect(q, Outside, Leaves), f) ==> Map(q, f) == q
    decreases q, 0
  {
    MapsCtes(q.ctes, f, g, pick, after);
    MapsBody(q.body, f, g, pick, after);
  }

  lemma {:induction false} MapsCtes<U>(cs: seq<Cte>, f: Factor -> Factor, g: Factor -> Factor,
                                          pick: Leaf -> seq<U>, after: Leaf -> seq<U>)
    requires KeepsLeaves(f) && PicksAfter(pick, f, after)
    ensures CollectCtes(MapCtes(cs, f), Outside, pick) == CollectCtes(cs, Outside, after)
    ensures MapCtes(MapCtes(cs, f), g) == cs <==> Undone(CollectCtes(cs, Outside, Leaves), f, g)
    ensures Fixed(CollectCtes(cs, Outside, Leaves), f) ==> MapCtes(cs, f) == cs
    decreases cs, 0
  {
    if cs != [] {
      MapsQuery(cs[0].query, f, g, pick, after);
      MapsCtes(cs[1..], f, g, pick, after);
      assert MapCtes(cs, f)[1..] == MapCtes(cs[1..], f);
      assert cs == [cs[0]] + cs[1..];
      LeavesOfTwo(Collect(cs[0].query, Outside, Leaves), CollectCtes(cs[1..], Outside, Leaves), f, g);
    }
  }

  lemma {:induction false} MapsBody<U>(b: Body, f: Factor -> Factor, g: Factor -> Factor,
                                       pick: Leaf -> seq<U>, after: Leaf -> seq<U>)
    requires KeepsLeaves(f) && PicksAfter(pick, f, after)
    ensures CollectBody(MapBody(b, f), Outside, pick) == CollectBody(b, Outside, after)
    ensures MapBody(MapBody(b, f), g) == b <==> Undone(CollectBody(b, Outside, Leaves), f, g)
    ensures Fixed(CollectBody(b, Outside, Leaves), f) ==> MapBody(b, f) == b
    decreases b, 0
  {
    match b
    case Select(from, filter, items, having) =>
      MapsFrom(from, f, g, pick, after);
      MapsExprs(filter, f, g, pick, after);
      MapsExprs(items, f, g, pick, after);
      MapsExprs(having, f, g, pick, after);
    case Enclosed(query) => MapsQuery(query, f, g, pick, after);
    case SetOperation(left, right) =>
      MapsBody(left, f, g, pick, after);
      MapsBody(right, f, g, pick, after);
    case _ =>
  }

  lemma LeavesOfTwo(a: seq<Leaf>, b: seq<Leaf>, f: Factor -> Factor, g: Factor -> Factor)
    ensures Undone(a + b, f, g) <==> Undone(a, f, g) && Undone(b, f, g)
    ensures Fixed(a + b, f) <==> Fixed(a, f) && Fixed(b, f)
  {
    assert forall leaf :: leaf in a || leaf in b <==> leaf in a + b;
  }

  lemma {:induction false} MapsFrom<U>(from: seq<FromItem>, f: Factor -> Factor, g: Factor -> Factor,
                                       pick: Leaf -> seq<U>, after: Leaf -> seq<U>)
    requires KeepsLeaves(f) && PicksAfter(pick, f, after)
    ensures CollectFrom(MapFrom(from, f), Outside, pick) == CollectFrom(from, Outside, after)
    ensures MapFrom(MapFrom(from, f), g) == from <==> Undone(CollectFrom(from, Outside, Leaves), f, g)
    ensures Fixed(CollectFrom(from, Outside, Leaves), f) ==> MapFrom(from, f) == from
    decreases from, 0
  {
    if from != [] {
      MapsItem(from[0], f, g, pick, after);
      MapsFrom(from[1..], f, g, pick, after);
      assert MapFrom(from, f)[1..] == MapFrom(from[1..], f) && MapFrom(from, f)[0] == MapItem(from[0], f);
      assert from == [from[0]] + from[1..];
      LeavesOfTwo(CollectItem(from[0], Outside, Leaves), CollectFrom(from[1..], Outside, Leaves), f, g);
    }
  }

  lemma {:induction false} MapsItem<U>(item: FromItem, f: Factor -> Factor, g: Factor -> Factor,
                                       pick: Leaf -> seq<U>, after: Leaf -> seq<U>)
    requires KeepsLeaves(f) && PicksAfter(pick, f, after)
    ensures CollectItem(MapItem(item, f), Outside, pick) == CollectItem(item, Outside, after)
    ensures MapItem(MapItem(item, f), g) == item <==> Undone(CollectItem(item, Outside, Leaves), f, g)
    ensures Fixed(CollectItem(item, Outside, Leaves), f) ==> MapItem(item, f) == item
    decreases item, 0
  {
    MapsFactor(item.relation, f, g, pick, after);
    MapsJoins(item.joins, f, g, pick, after);
  }

  lemma {:induction false} MapsJoins<U>(js: seq<JoinClause>, f: Factor -> Factor, g: Factor -> Factor,
                                        pick: Leaf -> seq<U>, after: Leaf -> seq<U>)
    requires KeepsLeaves(f) && PicksAfter(pick, f, after)
    ensures CollectJoins(MapJoins(js, f), Outside, pick) == CollectJoins(js, Outside, after)
    ensures MapJoins(MapJoins(js, f), g) == js <==> Undone(CollectJoins(js, Outside, Leaves), f, g)
    ensures Fixed(CollectJoins(js, Outside, Leaves), f) ==> MapJoins(js, f) == js
    decreases js, 0
  {
    if js != [] {
      MapsJoin(js[0], f, g, pick, after);
      MapsJoins(js[1..], f, g, pick, after);
      assert MapJoins(js, f)[1..] == MapJoins(js[1..], f) && MapJoins(js, f)[0] == MapJoin(js[0], f);
      assert js == [js[0]] + js[1..];
      LeavesOfTwo(CollectJoin(js[0], Outside, Leaves), CollectJoins(js[1..], Outside, Leaves), f, g);
    }
  }

  lemma {:induction false} MapsJoin<U>(j: JoinClause, f: Factor -> Factor, g: Factor -> Factor,
                                       pick: Leaf -> seq<U>, after: Leaf -> seq<U>)
    requires KeepsLeaves(f) && PicksAfter(pick, f, after)
    ensures CollectJoin(MapJoin(j, f), Outside, pick) == CollectJoin(j, Outside, after)
    ensures MapJoin(MapJoin(j, f), g) == j <==> Undone(CollectJoin(j, Outside, Leaves), f, g)
    ensures Fixed(CollectJoin(j, Outside, Leaves), f) ==> MapJoin(j, f) == j
    decreases j, 0
  {
    MapsFactor(j.relation, f, g, pick, after);
    MapsExprs(j.on, f, g, pick, after);
  }

  lemma {:induction false} MapsFactor<U>(factor: Factor, f: Factor -> Factor, g: Factor -> Factor,
                                         pick: Leaf -> seq<U>, after: Leaf -> seq<U>)
    requires KeepsLeaves(f) && PicksAfter(pick, f, after)
    ensures CollectFactor(MapFactor(factor, f), Outside, pick) == CollectFactor(factor, Outside, after)
    ensures MapFactor(MapFactor(factor, f), g) == factor <==> Undone(CollectFactor(factor, Outside, Leaves), f, g)
    ensures Fixed(CollectFactor(factor, Outside, Leaves), f) ==> MapFactor(factor, f) == factor
    decreases factor, 0
  {
    match factor
    case Derived(query, _) => MapsQuery(query, f, g, pick, after);
    case Parenthesised(item) => MapsItem(item, f, g, pick, after);
    case _ => MapsLeaf(factor, f, g, pick, after);
  }

  lemma MapsLeaf<U>(factor: Factor, f: Factor -> Factor, g: Factor -> Factor, pick: Leaf -> seq<U>,
                    after: Leaf -> seq<U>)
    requires IsLeaf(factor) && IsLeaf(f(factor)) && pick(Relation(f(factor))) == after(Relation(factor))
    ensures CollectFactor(MapFactor(factor, f), Outside, pick) == CollectFactor(factor, Outside, after)
    ensures MapFactor(MapFactor(factor, f), g) == factor <==> Undone(CollectFactor(factor, Outside, Leaves), f, g)
    ensures Fixed(CollectFactor(factor, Outside, Leaves), f) ==> MapFactor(factor, f) == factor
  {
    OneLeaf(factor, f, g);
  }

  lemma OneLeaf(factor: Factor, f: Factor -> Factor, g: Factor -> Factor)
    requires IsLeaf(factor)
    ensures Undone(CollectFactor(factor, Outside, Leaves), f, g) <==> g(f(factor)) == factor
    ensures Fixed(CollectFactor(factor, Outside, Leaves), f) <==> f(factor) == factor
  {
    assert CollectFactor(factor, Outside, Leaves) == [Relation(factor)] && Relation(factor) in [Relation(factor)];
  }

  lemma {:induction false} MapsExprs<U>(es: seq<Expr>, f: Factor -> Factor, g: Factor -> Factor,
                                        pick: Leaf -> seq<U>, after: Leaf -> seq<U>)
    requires KeepsLeaves(f) && PicksAfter(pick, f, after)
    ensures CollectExprs(MapExprs(es, f), Outside, pick) == CollectExprs(es, Outside, after)
    ensures MapExprs(MapExprs(es, f), g) == es <==> Undone(CollectExprs(es, Outside, Leaves), f, g)
    ensures Fixed(CollectExprs(es, Outside, Leaves), f) ==> MapExprs(es, f) == es
    decreases es, 0
  {
    if es != [] {
      MapsExpr(es[0], f, g, pick, after);
      MapsExprs(es[1..], f, g, pick, after);
      assert MapExprs(es, f)[1..] == MapExprs(es[1..], f) && MapExprs(es, f)[0] == MapExpr(es[0], f);
      assert es == [es[0]] + es[1..];
      LeavesOfTwo(CollectExpr(es[0], Outside, Leaves), CollectExprs(es[1..], Outside, Leaves), f, g);
    }
  }

  lemma {:induction false} MapsExpr<U>(e: Expr, f: Factor -> Factor, g: Factor -> Factor,
                                       pick: Leaf -> seq<U>, after: Leaf -> seq<U>)
    requires KeepsLeaves(f) && PicksAfter(pick, f, after)
    ensures CollectExpr(MapExpr(e, f), Outside, pick) == CollectExpr(e, Outside, after)
    ensures MapExpr(MapExpr(e, f), g) == e <==> Undone(CollectExpr(e, Outside, Leaves), f, g)
    ensures Fixed(CollectExpr(e, Outside, Leaves), f) ==> MapExpr(e, f) == e
    decreases e, 0
  {
    match e
    case Subquery(_, query) => MapsQuery(query, f, g, pick, after);
    case Compound(_, operands) => MapsExprs(operands, f, g, pick, after);
    case Case(operand, arms, otherwise) =>
      MapsExprs(operand, f, g, pick, after);
      MapsExprs(otherwise, f, g, pick, after);
    case OtherExpr(_) =>
  }
}
