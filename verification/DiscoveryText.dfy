/**
 Nothing in the text of a query escapes the discovery: the leaves of a query in the order in which SQL writes them
 are the leaves that the traversal visits, each as often as it is written.
 */
module DiscoveryText {
  import opened QueryTree
  import opened Discovery

  // ---------------------------------------------------------------------------
  // The leaves in the order of the text: WITH, the select list, FROM, WHERE, HAVING
  // ---------------------------------------------------------------------------

  function Written(q: Query): seq<Leaf> { WrittenCtes(q.ctes) + WrittenBody(q.body) }

  function WrittenCtes(cs: seq<Cte>): seq<Leaf>
  {
    if cs == [] then [] else WrittenCte(cs[0]) + WrittenCtes(cs[1..])
  }

  function WrittenCte(c: Cte): seq<Leaf> { Written(c.query) }

  function WrittenBody(b: Body): seq<Leaf>
  {
    match b
    case Select(from, filter, items, having) =>
      WrittenExprs(items) + WrittenFrom(from) + WrittenExprs(filter) + WrittenExprs(having)
    case Enclosed(query) => Written(query)
    case SetOperation(left, right) => WrittenBody(left) + WrittenBody(right)
    case Modification => [Modifies]
    case Values => []
  }

  function WrittenFrom(from: seq<FromItem>): seq<Leaf>
  {
    if from == [] then [] else WrittenItem(from[0]) + WrittenFrom(from[1..])
  }

  function WrittenItem(item: FromItem): seq<Leaf> { WrittenFactor(item.relation) + WrittenJoins(item.joins) }

  function WrittenJoins(js: seq<JoinClause>): seq<Leaf>
  {
    if js == [] then [] else WrittenJoin(js[0]) + WrittenJoins(js[1..])
  }

  function WrittenJoin(j: JoinClause): seq<Leaf> { WrittenFactor(j.relation) + WrittenExprs(j.on) }

  function WrittenFactor(f: Factor): seq<Leaf>
  {
    match f
    case Derived(query, _) => Written(query)
    case Parenthesised(item) => WrittenItem(item)
    case Table(_, _, _) => [Relation(f)]
    case MacroCall(_, _, _) => [Relation(f)]
    case OtherFactor(_) => [Relation(f)]
  }

  function WrittenExprs(es: seq<Expr>): seq<Leaf>
  {
    if es == [] then [] else WrittenExpr(es[0]) + WrittenExprs(es[1..])
  }

  function WrittenExpr(e: Expr): seq<Leaf>
  {
    match e
    case Subquery(_, query) => Written(query)
    case Compound(_, operands) => WrittenExprs(operands)
    case Case(operand, arms, otherwise) => WrittenExprs(operand) + WrittenExprs(arms) + WrittenExprs(otherwise)
    case OtherExpr(_) => []
  }

  // ---------------------------------------------------------------------------
  // All of them are visited
  // ---------------------------------------------------------------------------

  lemma {:induction false} QueryVisited(q: Query)
    ensures multiset(Written(q)) == multiset(Collect(q, All, Leaves))
    decreases q, 0
  {
    CtesVisited(q.ctes);
    BodyVisited(q.body);
  }

  lemma {:induction false} CtesVisited(cs: seq<Cte>)
    ensures multiset(WrittenCtes(cs)) == multiset(CollectCtes(cs, All, Leaves))
    decreases cs, 0
  {
    if cs != [] {
      CteVisited(cs[0]);
      CtesVisited(cs[1..]);
    }
  }

  lemma {:induction false} CteVisited(c: Cte)
    ensures multiset(WrittenCte(c)) == multiset(Collect(c.query, All, Leaves))
    decreases c, 0
  {
    QueryVisited(c.query);
  }

  lemma {:induction false} BodyVisited(b: Body)
    ensures multiset(WrittenBody(b)) == multiset(CollectBody(b, All, Leaves))
    decreases b, 0
  {
    match b
    case Select(from, filter, items, having) =>
      ExprsVisited(items);
      FromVisited(from);
      ExprsVisited(filter);
      ExprsVisited(having);
    case Enclosed(query) => QueryVisited(query);
    case SetOperation(left, right) =>
      BodyVisited(left);
      BodyVisited(right);
    case _ =>
  }

  lemma {:induction false} FromVisited(from: seq<FromItem>)
    ensures multiset(WrittenFrom(from)) == multiset(CollectFrom(from, All, Leaves))
    decreases from, 0
  {
    if from != [] {
      ItemVisited(from[0]);
      FromVisited(from[1..]);
    }
  }

  lemma {:induction false} ItemVisited(item: FromItem)
    ensures multiset(WrittenItem(item)) == multiset(CollectItem(item, All, Leaves))
    decreases item, 0
  {
    FactorVisited(item.relation);
    JoinsVisited(item.joins);
  }

  lemma {:induction false} JoinsVisited(js: seq<JoinClause>)
    ensures multiset(WrittenJoins(js)) == multiset(CollectJoins(js, All, Leaves))
    decreases js, 0
  {
    if js != [] {
      JoinVisited(js[0]);
      JoinsVisited(js[1..]);
    }
  }

  lemma {:induction false} JoinVisited(j: JoinClause)
    ensures multiset(WrittenJoin(j)) == multiset(CollectJoin(j, All, Leaves))
    decreases j, 0
  {
    FactorVisited(j.relation);
    ExprsVisited(j.on);
  }

  lemma {:induction false} FactorVisited(f: Factor)
    ensures multiset(WrittenFactor(f)) == multiset(CollectFactor(f, All, Leaves))
    decreases f, 0
  {
    match f
    case Derived(query, _) => QueryVisited(query);
    case Parenthesised(item) => ItemVisited(item);
    case _ =>
  }

  lemma {:induction false} ExprsVisited(es: seq<Expr>)
    ensures multiset(WrittenExprs(es)) == multiset(CollectExprs(es, All, Leaves))
    decreases es, 0
  {
    if es != [] {
      ExprVisited(es[0]);
      ExprsVisited(es[1..]);
    }
  }

  lemma {:induction false} ExprVisited(e: Expr)
    ensures multiset(WrittenExpr(e)) == multiset(CollectExpr(e, All, Leaves))
    decreases e, 0
  {
    match e
    case Subquery(_, query) => QueryVisited(query);
    case Compound(_, operands) => ExprsVisited(operands);
    case Case(operand, arms, otherwise) =>
      ExprsVisited(operand);
      ExprsVisited(arms);
      ExprsVisited(otherwise);
    case OtherExpr(_) =>
  }

  // ---------------------------------------------------------------------------
  // What is found
  // ---------------------------------------------------------------------------

  /** A sequence is one of its elements and the others. */
  lemma TakeOut(b: seq<Leaf>, i: nat)
    requires i < |b|
    ensures multiset(b[..i] + b[i + 1..]) == multiset(b) - multiset{b[i]}
  {
    assert b == b[..i] + ([b[i]] + b[i + 1..]);
  }

  lemma PickTakenOut<U>(b: seq<Leaf>, i: nat, pick: Leaf -> seq<U>)
    requires i < |b|
    ensures multiset(PickAll(b, pick)) == multiset(pick(b[i])) + multiset(PickAll(b[..i] + b[i + 1..], pick))
  {
    var before, after := b[..i], b[i + 1..];
    assert b == before + ([b[i]] + after) && ([b[i]] + after)[1..] == after;
    PickAllAppend(before, [b[i]] + after, pick);
    PickAllAppend(before, after, pick);
  }

  lemma {:induction false} PickReordered<U>(a: seq<Leaf>, b: seq<Leaf>, pick: Leaf -> seq<U>)
    requires multiset(a) == multiset(b)
    ensures multiset(PickAll(a, pick)) == multiset(PickAll(b, pick))
  {
    if a == [] {
      NoneLeft(b);
    } else {
      var i := Find(b, a[0], a);
      TakeOut(a, 0);
      TakeOut(b, i);
      assert a[..0] + a[1..] == a[1..];
      PickReordered(a[1..], b[..i] + b[i + 1..], pick);
      PickTakenOut(a, 0, pick);
      PickTakenOut(b, i, pick);
    }
  }

  lemma NoneLeft(b: seq<Leaf>)
    requires multiset(b) == multiset{}
    ensures b == []
  {
    assert |multiset(b)| == |b|;
  }

  lemma Find(b: seq<Leaf>, leaf: Leaf, a: seq<Leaf>) returns (i: nat)
    requires leaf in a && multiset(a) == multiset(b)
    ensures i < |b| && b[i] == leaf
  {
    assert leaf in multiset(a);
    i :| i < |b| && b[i] == leaf;
  }

  /**
   The registered tables that the discovery reports are those of the text, each as often as the text names it; and
   it fails exactly when there is a modification in the text.
   */
  lemma TextIsDiscovered(registered: set<string>, q: Query)
    ensures multiset(Collect(q, All, Registered(registered))) == multiset(PickAll(Written(q), Registered(registered)))
    ensures Collect(q, All, IsModification) != [] <==> Modifies in Written(q)
  {
    var leaves := Collect(q, All, Leaves);
    QueryVisited(q);
    CollectsQuery(q, All, Registered(registered));
    PickReordered(Written(q), leaves, Registered(registered));
    CollectsQuery(q, All, IsModification);
    ModificationsPicked(leaves);
    assert Modifies in multiset(leaves) <==> Modifies in multiset(Written(q));
  }

  lemma {:induction false} ModificationsPicked(leaves: seq<Leaf>)
    ensures PickAll(leaves, IsModification) != [] <==> Modifies in leaves
  {
    if leaves != [] {
      ModificationsPicked(leaves[1..]);
    }
  }
}
