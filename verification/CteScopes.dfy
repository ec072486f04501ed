/**
 Common table expressions and the registry.  A bare table name means a CTE of that name when one is in scope, but
 discovery and rewrite ask the registry only: this file says when that makes no difference.
 */
module CteScopes {
  import opened Common
  import opened QueryTree
  import opened Discovery

  /** The leaf is a bare table name that a CTE in scope has taken. */
  predicate IsHidden(hidden: set<string>, leaf: Leaf)
  {
    leaf.Relation? && leaf.factor.Table? && |leaf.factor.path| == 1 && Fold(leaf.factor.path[0]) in hidden
  }

  function CteNames(cs: seq<Cte>): set<string> { set i | 0 <= i < |cs| :: Fold(cs[i].name) }

  // What is found at the leaves that CTEs hide, or at those that they do not hide.  A CTE sees the ones before it,
  // the body of a query sees all of them.

  function Find<U>(q: Query, m: Mode, pick: Leaf -> seq<U>, hidden: set<string>, taken: bool): seq<U>
    decreases q
  {
    FindInCtes(q.ctes, m, pick, hidden, taken) + FindInBody(q.body, m, pick, hidden + CteNames(q.ctes), taken)
  }

  function FindInCtes<U>(cs: seq<Cte>, m: Mode, pick: Leaf -> seq<U>, hidden: set<string>, taken: bool): seq<U>
    decreases cs
  {
    if cs == [] then []
    else Find(cs[0].query, m, pick, hidden, taken)
         + FindInCtes(cs[1..], m, pick, hidden + {Fold(cs[0].name)}, taken)
  }

  function FindAtLeaf<U>(m: Mode, pick: Leaf -> seq<U>, leaf: Leaf, hidden: set<string>, taken: bool): seq<U>
  {
    if IsHidden(hidden, leaf) == taken then AtLeaf(m, pick, leaf) else []
  }

  function FindInBody<U>(b: Body, m: Mode, pick: Leaf -> seq<U>, hidden: set<string>, taken: bool): seq<U>
    decreases b
  {
    match b
    case Select(from, filter, items, having) =>
      FindInFrom(from, m, pick, hidden, taken) + FindInExprs(filter, m, pick, hidden, taken)
      + FindInExprs(items, m, pick, hidden, taken) + FindInExprs(having, m, pick, hidden, taken)
    case Enclosed(query) => Find(query, m, pick, hidden, taken)
    case SetOperation(left, right) =>
      FindInBody(left, m, pick, hidden, taken) + FindInBody(right, m, pick, hidden, taken)
    case Modification => FindAtLeaf(m, pick, Modifies, hidden, taken)
    case Values => []
  }

  function FindInFrom<U>(from: seq<FromItem>, m: Mode, pick: Leaf -> seq<U>, hidden: set<string>, taken: bool): seq<U>
    decreases from
  {
    if from == [] then []
    else FindInItem(from[0], m, pick, hidden, taken) + FindInFrom(from[1..], m, pick, hidden, taken)
  }

  function FindInItem<U>(item: FromItem, m: Mode, pick: Leaf -> seq<U>, hidden: set<string>, taken: bool): seq<U>
    decreases item
  {
    FindInFactor(item.relation, m, pick, hidden, taken) + FindInJoins(item.joins, m, pick, hidden, taken)
  }

  function FindInJoins<U>(js: seq<JoinClause>, m: Mode, pick: Leaf -> seq<U>, hidden: set<string>, taken: bool): seq<U>
    decreases js
  {
    if js == [] then []
    else FindInJoin(js[0], m, pick, hidden, taken) + FindInJoins(js[1..], m, pick, hidden, taken)
  }

  function FindInJoin<U>(j: JoinClause, m: Mode, pick: Leaf -> seq<U>, hidden: set<string>, taken: bool): seq<U>
    decreases j
  {
    FindInFactor(j.relation, m, pick, hidden, taken) + FindInExprs(j.on, m, pick, hidden, taken)
  }

  function FindInFactor<U>(f: Factor, m: Mode, pick: Leaf -> seq<U>, hidden: set<string>, taken: bool): seq<U>
    decreases f
  {
    match f
    case Derived(query, _) => Find(query, m, pick, hidden, taken)
    case Parenthesised(item) => FindInItem(item, m, pick, hidden, taken)
    case _ => FindAtLeaf(m, pick, Relation(f), hidden, taken)
  }

  function FindInExprs<U>(es: seq<Expr>, m: Mode, pick: Leaf -> seq<U>, hidden: set<string>, taken: bool): seq<U>
    decreases es
  {
    if es == [] then []
    else FindInExpr(es[0], m, pick, hidden, taken) + FindInExprs(es[1..], m, pick, hidden, taken)
  }

  function FindInExpr<U>(e: Expr, m: Mode, pick: Leaf -> seq<U>, hidden: set<string>, taken: bool): seq<U>
    decreases e
  {
    match e
    case Subquery(_, query) => Find(query, m, pick, hidden, taken)
    case Compound(_, operands) => FindInExprs(operands, m, pick, hidden, taken)
    case Case(operand, arms, otherwise) =>
      FindInExprs(operand, m, pick, hidden, taken)
      + (if m.Outside? then [] else FindInExprs(arms, All, pick, hidden, taken))
      + FindInExprs(otherwise, m, pick, hidden, taken)
    case OtherExpr(_) => []
  }

  // ---------------------------------------------------------------------------
  // Hidden and visible leaves make up all leaves
  // ---------------------------------------------------------------------------

  /** What is found in all is what is found in plain sight, but for what is hidden. */
  predicate Splits<U(==)>(all: seq<U>, visible: seq<U>, hidden: seq<U>)
  {
    |all| == |visible| + |hidden| && (hidden == [] ==> all == visible)
  }

  lemma SplitsAppend<U>(a: seq<U>, va: seq<U>, ha: seq<U>, b: seq<U>, vb: seq<U>, hb: seq<U>)
    requires Splits(a, va, ha) && Splits(b, vb, hb)
    ensures Splits(a + b, va + vb, ha + hb)
  {
    if ha + hb == [] {
      assert ha == [] && hb == [];
    }
  }

  lemma {:induction false} FindsQuery<U>(q: Query, m: Mode, pick: Leaf -> seq<U>, hidden: set<string>)
    ensures Splits(Collect(q, m, pick), Find(q, m, pick, hidden, false), Find(q, m, pick, hidden, true))
    decreases q, 0
  {
    var inner := hidden + CteNames(q.ctes);
    FindsCtes(q.ctes, m, pick, hidden);
    FindsBody(q.body, m, pick, inner);
    SplitsAppend(CollectCtes(q.ctes, m, pick), FindInCtes(q.ctes, m, pick, hidden, false),
                 FindInCtes(q.ctes, m, pick, hidden, true), CollectBody(q.body, m, pick),
                 FindInBody(q.body, m, pick, inner, false), FindInBody(q.body, m, pick, inner, true));
  }

  lemma {:induction false} FindsCtes<U>(cs: seq<Cte>, m: Mode, pick: Leaf -> seq<U>, hidden: set<string>)
    ensures Splits(CollectCtes(cs, m, pick), FindInCtes(cs, m, pick, hidden, false),
                   FindInCtes(cs, m, pick, hidden, true))
    decreases cs, 0
  {
    if cs != [] {
      var q, rest, more := cs[0].query, cs[1..], hidden + {Fold(cs[0].name)};
      FindsQuery(q, m, pick, hidden);
      FindsCtes(rest, m, pick, more);
      SplitsAppend(Collect(q, m, pick), Find(q, m, pick, hidden, false), Find(q, m, pick, hidden, true),
                   CollectCtes(rest, m, pick), FindInCtes(rest, m, pick, more, false),
                   FindInCtes(rest, m, pick, more, true));
    }
  }

  lemma {:induction false} FindsSelect<U>(b: Body, m: Mode, pick: Leaf -> seq<U>, hidden: set<string>)
    requires b.Select?
    ensures Splits(CollectBody(b, m, pick), FindInBody(b, m, pick, hidden, false), FindInBody(b, m, pick, hidden, true))
    decreases b, 0
  {
    FindsFrom(b.from, m, pick, hidden);
    FindsExprs(b.filter, m, pick, hidden);
    FindsExprs(b.items, m, pick, hidden);
    FindsExprs(b.having, m, pick, hidden);
    var c1, v1, h1 := CollectFrom(b.from, m, pick), FindInFrom(b.from, m, pick, hidden, false),
                      FindInFrom(b.from, m, pick, hidden, true);
    var c2, v2, h2 := CollectExprs(b.filter, m, pick), FindInExprs(b.filter, m, pick, hidden, false),
                      FindInExprs(b.filter, m, pick, hidden, true);
    var c3, v3, h3 := CollectExprs(b.items, m, pick), FindInExprs(b.items, m, pick, hidden, false),
                      FindInExprs(b.items, m, pick, hidden, true);
    var c4, v4, h4 := CollectExprs(b.having, m, pick), FindInExprs(b.having, m, pick, hidden, false),
                      FindInExprs(b.having, m, pick, hidden, true);
    SplitsAppend(c1, v1, h1, c2, v2, h2);
    SplitsAppend(c1 + c2, v1 + v2, h1 + h2, c3, v3, h3);
    SplitsAppend(c1 + c2 + c3, v1 + v2 + v3, h1 + h2 + h3, c4, v4, h4);
  }

  lemma {:induction false} FindsBody<U>(b: Body, m: Mode, pick: Leaf -> seq<U>, hidden: set<string>)
    ensures Splits(CollectBody(b, m, pick), FindInBody(b, m, pick, hidden, false), FindInBody(b, m, pick, hidden, true))
    decreases b, 1
  {
    match b
    case Select(_, _, _, _) => FindsSelect(b, m, pick, hidden);
    case Enclosed(query) => FindsQuery(query, m, pick, hidden);
    case SetOperation(left, right) =>
      FindsBody(left, m, pick, hidden);
      FindsBody(right, m, pick, hidden);
      SplitsAppend(CollectBody(left, m, pick), FindInBody(left, m, pick, hidden, false),
                   FindInBody(left, m, pick, hidden, true), CollectBody(right, m, pick),
                   FindInBody(right, m, pick, hidden, false), FindInBody(right, m, pick, hidden, true));
    case _ =>
  }

  lemma {:induction false} FindsFrom<U>(from: seq<FromItem>, m: Mode, pick: Leaf -> seq<U>, hidden: set<string>)
    ensures Splits(CollectFrom(from, m, pick), FindInFrom(from, m, pick, hidden, false),
                   FindInFrom(from, m, pick, hidden, true))
    decreases from, 0
  {
    if from != [] {
      FindsItem(from[0], m, pick, hidden);
      FindsFrom(from[1..], m, pick, hidden);
      SplitsAppend(CollectItem(from[0], m, pick), FindInItem(from[0], m, pick, hidden, false),
                   FindInItem(from[0], m, pick, hidden, true), CollectFrom(from[1..], m, pick),
                   FindInFrom(from[1..], m, pick, hidden, false), FindInFrom(from[1..], m, pick, hidden, true));
    }
  }

  lemma {:induction false} FindsItem<U>(item: FromItem, m: Mode, pick: Leaf -> seq<U>, hidden: set<string>)
    ensures Splits(CollectItem(item, m, pick), FindInItem(item, m, pick, hidden, false),
                   FindInItem(item, m, pick, hidden, true))
    decreases item, 0
  {
    FindsFactor(item.relation, m, pick, hidden);
    FindsJoins(item.joins, m, pick, hidden);
    SplitsAppend(CollectFactor(item.relation, m, pick), FindInFactor(item.relation, m, pick, hidden, false),
                 FindInFactor(item.relation, m, pick, hidden, true), CollectJoins(item.joins, m, pick),
                 FindInJoins(item.joins, m, pick, hidden, false), FindInJoins(item.joins, m, pick, hidden, true));
  }

  lemma {:induction false} FindsJoins<U>(js: seq<JoinClause>, m: Mode, pick: Leaf -> seq<U>, hidden: set<string>)
    ensures Splits(CollectJoins(js, m, pick), FindInJoins(js, m, pick, hidden, false),
                   FindInJoins(js, m, pick, hidden, true))
    decreases js, 0
  {
    if js != [] {
      FindsJoin(js[0], m, pick, hidden);
      FindsJoins(js[1..], m, pick, hidden);
      SplitsAppend(CollectJoin(js[0], m, pick), FindInJoin(js[0], m, pick, hidden, false),
                   FindInJoin(js[0], m, pick, hidden, true), CollectJoins(js[1..], m, pick),
                   FindInJoins(js[1..], m, pick, hidden, false), FindInJoins(js[1..], m, pick, hidden, true));
    }
  }

  lemma {:induction false} FindsJoin<U>(j: JoinClause, m: Mode, pick: Leaf -> seq<U>, hidden: set<string>)
    ensures Splits(CollectJoin(j, m, pick), FindInJoin(j, m, pick, hidden, false), FindInJoin(j, m, pick, hidden, true))
    decreases j, 0
  {
    FindsFactor(j.relation, m, pick, hidden);
    FindsExprs(j.on, m, pick, hidden);
    SplitsAppend(CollectFactor(j.relation, m, pick), FindInFactor(j.relation, m, pick, hidden, false),
                 FindInFactor(j.relation, m, pick, hidden, true), CollectExprs(j.on, m, pick),
                 FindInExprs(j.on, m, pick, hidden, false), FindInExprs(j.on, m, pick, hidden, true));
  }

  lemma {:induction false} FindsFactor<U>(f: Factor, m: Mode, pick: Leaf -> seq<U>, hidden: set<string>)
    ensures Splits(CollectFactor(f, m, pick), FindInFactor(f, m, pick, hidden, false),
                   FindInFactor(f, m, pick, hidden, true))
    decreases f, 0
  {
    match f
    case Derived(query, _) => FindsQuery(query, m, pick, hidden);
    case Parenthesised(item) => FindsItem(item, m, pick, hidden);
    case _ =>
  }

  lemma {:induction false} FindsExprs<U>(es: seq<Expr>, m: Mode, pick: Leaf -> seq<U>, hidden: set<string>)
    ensures Splits(CollectExprs(es, m, pick), FindInExprs(es, m, pick, hidden, false),
                   FindInExprs(es, m, pick, hidden, true))
    decreases es, 0
  {
    if es != [] {
      FindsExpr(es[0], m, pick, hidden);
      FindsExprs(es[1..], m, pick, hidden);
      SplitsAppend(CollectExpr(es[0], m, pick), FindInExpr(es[0], m, pick, hidden, false),
                   FindInExpr(es[0], m, pick, hidden, true), CollectExprs(es[1..], m, pick),
                   FindInExprs(es[1..], m, pick, hidden, false), FindInExprs(es[1..], m, pick, hidden, true));
    }
  }

  lemma {:induction false} FindsCase<U>(e: Expr, m: Mode, pick: Leaf -> seq<U>, hidden: set<string>)
    requires e.Case?
    ensures Splits(CollectExpr(e, m, pick), FindInExpr(e, m, pick, hidden, false), FindInExpr(e, m, pick, hidden, true))
    decreases e, 0
  {
    FindsExprs(e.operand, m, pick, hidden);
    FindsExprs(e.arms, All, pick, hidden);
    FindsExprs(e.otherwise, m, pick, hidden);
    var c1, v1, h1 := CollectExprs(e.operand, m, pick), FindInExprs(e.operand, m, pick, hidden, false),
                      FindInExprs(e.operand, m, pick, hidden, true);
    var c2: seq<U> := if m.Outside? then [] else CollectExprs(e.arms, All, pick);
    var v2: seq<U> := if m.Outside? then [] else FindInExprs(e.arms, All, pick, hidden, false);
    var h2: seq<U> := if m.Outside? then [] else FindInExprs(e.arms, All, pick, hidden, true);
    var c3, v3, h3 := CollectExprs(e.otherwise, m, pick), FindInExprs(e.otherwise, m, pick, hidden, false),
                      FindInExprs(e.otherwise, m, pick, hidden, true);
    SplitsAppend(c1, v1, h1, c2, v2, h2);
    SplitsAppend(c1 + c2, v1 + v2, h1 + h2, c3, v3, h3);
  }

  lemma {:induction false} FindsExpr<U>(e: Expr, m: Mode, pick: Leaf -> seq<U>, hidden: set<string>)
    ensures Splits(CollectExpr(e, m, pick), FindInExpr(e, m, pick, hidden, false), FindInExpr(e, m, pick, hidden, true))
    decreases e, 1
  {
    match e
    case Subquery(_, query) => FindsQuery(query, m, pick, hidden);
    case Compound(_, operands) => FindsExprs(operands, m, pick, hidden);
    case Case(_, _, _) => FindsCase(e, m, pick, hidden);
    case OtherExpr(_) =>
  }

  // ---------------------------------------------------------------------------
  // The rewrite and the names that CTEs take
  // ---------------------------------------------------------------------------

  /** The registered tables, outside the arms of CASE, that mean the dataset. */
  function MeantDatasets(registered: set<string>, q: Query): seq<Ref>
  {
    Find(q, Outside, Registered(registered), {}, false)
  }

  /** Those that mean a CTE. */
  function MeantCtes(registered: set<string>, q: Query): seq<Ref>
  {
    Find(q, Outside, Registered(registered), {}, true)
  }

  /**
   The macro calls of the output are the references that mean a dataset, in order, exactly when no reference to a
   registered name is in the scope of a CTE of that name.
   */
  lemma CallsAreMeantIff(registered: set<string>, ranges: string -> nat, q: Query)
    requires Pristine(q)
    ensures Collect(Transformed(registered, ranges, q), Outside, Call) == MeantDatasets(registered, q)
            <==> MeantCtes(registered, q) == []
  {
    ReplacedAreFound(registered, ranges, q);
    FindsQuery(q, Outside, Registered(registered), {});
  }

  /** `WITH name AS (VALUES ...) SELECT ... FROM name`: the reference to the CTE becomes a macro call. */
  lemma CteIsReplaced(name: string, ranges: string -> nat)
    ensures var q := Query([Cte(name, Query([], Values))],
                           Select([FromItem(Table([name], None, []), [])], [], [OtherExpr(0)], []));
            && MeantDatasets({name}, q) == []
            && Collect(Transformed({name}, ranges, q), Outside, Call) == [Ref(name, None)]
  {
    var table := Table([name], None, []);
    var item := FromItem(table, []);
    var cte := Cte(name, Query([], Values));
    var body := Select([item], [], [OtherExpr(0)], []);
    var q := Query([cte], body);
    var pick := Registered({name});
    assert [cte][1..] == [] && [item][1..] == [] && [OtherExpr(0)][1..] == [];
    assert cte == [cte][0] && Fold(name) in CteNames([cte]);
    assert FindInItem(item, Outside, pick, CteNames([cte]), false) == [];
    assert FindInFrom([item], Outside, pick, CteNames([cte]), false) == [];
    assert FindInExprs([OtherExpr(0)], Outside, pick, CteNames([cte]), false) == [];
    assert {} + CteNames([cte]) == CteNames([cte]);
    assert FindInBody(body, Outside, pick, CteNames([cte]), false) == [];
    assert FindInCtes([cte], Outside, pick, {}, false) == [];
    OneTable(name, pick, [Ref(name, None)]);
    OneTable(name, Leaves, [Relation(table)]);
    ReplacedAreFound({name}, ranges, q);
  }

  lemma OneTable<U>(name: string, pick: Leaf -> seq<U>, found: seq<U>)
    requires pick(Relation(Table([name], None, []))) == found
    ensures var q := Query([Cte(name, Query([], Values))],
                           Select([FromItem(Table([name], None, []), [])], [], [OtherExpr(0)], []));
            Collect(q, Outside, pick) == found
  {
    var item := FromItem(Table([name], None, []), []);
    var cte := Cte(name, Query([], Values));
    assert [cte][1..] == [] && [item][1..] == [] && [OtherExpr(0)][1..] == [];
    assert CollectItem(item, Outside, pick) == found;
    assert CollectFrom([item], Outside, pick) == found;
    assert CollectExprs([OtherExpr(0)], Outside, pick) == [];
    assert CollectBody(Values, Outside, pick) == [];
    assert Collect(cte.query, Outside, pick) == [];
    assert CollectCtes([cte], Outside, pick) == [];
  }
}
