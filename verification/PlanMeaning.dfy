/**
 What queries and plans mean, for any meaning of tables, joins and clauses: the plan that is built from a query
 has the rows of the query, and so has the query that is written back from the plan.
 */
module PlanMeaning {
  import opened Common
  import opened QueryText
  import opened PlanRoundTrip

  /** A meaning of everything that is not looked into.  Rows are of any type, and operators arbitrary functions. */
  datatype Sense<!R> = Sense(
    table: string -> seq<R>,
    renamed: (Option<string>, bool, seq<R>) -> seq<R>,
    join: (JoinOp, Constraint, bool, seq<R>, seq<R>) -> seq<R>,
    filter: (Atom, seq<R>) -> seq<R>,
    project: (seq<Atom>, seq<Atom>, seq<R>) -> seq<R>,
    window: (seq<Atom>, seq<Atom>, seq<R>) -> seq<R>,
    aggregate: (GroupBy, seq<Atom>, seq<Atom>, Option<Atom>, seq<R>) -> seq<R>,
    qualify: (Atom, seq<R>) -> seq<R>,
    distinct: seq<R> -> seq<R>,
    sort: (seq<Atom>, seq<R>) -> seq<R>,
    sortAll: seq<R> -> seq<R>,
    other: (seq<Atom>, seq<R>) -> seq<R>,
    count: Atom -> nat)

  function Skip<R>(rows: seq<R>, n: nat): seq<R> { if n <= |rows| then rows[n..] else [] }

  function First<R>(rows: seq<R>, n: nat): seq<R> { if n <= |rows| then rows[..n] else rows }

  // ---------------------------------------------------------------------------
  // The meaning of a query
  // ---------------------------------------------------------------------------

  function FactorRows<R>(m: Sense<R>, f: Factor): seq<R>
    decreases f
  {
    match f
    case Table(text) => m.table(text)
    case Derived(query, alias, lateral) => m.renamed(alias, lateral, Rows(m, query))
  }

  function JoinRows<R>(m: Sense<R>, left: seq<R>, j: JoinClause): seq<R>
    decreases j
  {
    m.join(j.op, j.constraint, j.global, left, FactorRows(m, j.relation))
  }

  function JoinsRows<R>(m: Sense<R>, left: seq<R>, js: seq<JoinClause>): seq<R>
    decreases js
  {
    if js == [] then left else JoinsRows(m, JoinRows(m, left, js[0]), js[1..])
  }

  function ItemRows<R>(m: Sense<R>, item: FromItem): seq<R>
    decreases item
  {
    JoinsRows(m, FactorRows(m, item.relation), item.joins)
  }

  /** A comma between FROM items is a cross join of what stands on its two sides. */
  function MoreRows<R>(m: Sense<R>, left: seq<R>, items: seq<FromItem>): seq<R>
    decreases items
  {
    if items == [] then left
    else MoreRows(m, m.join(Cross, NoConstraint, false, left, ItemRows(m, items[0])), items[1..])
  }

  function FromRows<R>(m: Sense<R>, from: seq<FromItem>): seq<R>
    decreases from
  {
    if from == [] then [] else MoreRows(m, ItemRows(m, from[0]), from[1..])
  }

  predicate Windowed(q: Query) { exists i :: 0 <= i < |q.items| && q.items[i].window }

  /**
   GROUP BY, an aggregate function or HAVING makes groups; otherwise items with a window function look at all rows.
   A query without select list selects everything.
   */
  function SelectRows<R>(m: Sense<R>, q: Query, rows: seq<R>): seq<R>
  {
    var items := if q.items == [] then [STAR] else q.items;
    if Grouped(q.group) || q.having.Some? || exists i :: 0 <= i < |q.items| && q.items[i].aggregate
    then m.aggregate(q.group, items, q.windows, q.having, rows)
    else if Windowed(q) then m.window(items, q.windows, rows)
    else m.project(items, q.windows, rows)
  }

  function OrderRows<R>(m: Sense<R>, order: OrderBy, rows: seq<R>): seq<R>
  {
    match order
    case Unordered => rows
    case OrderBy(keys) => if keys == [] then rows else m.sort(keys, rows)
    case OrderAll => m.sortAll(rows)
  }

  /** LIMIT n OFFSET k skips k rows and keeps n; LIMIT k, n keeps the rows from number k up to number k + n. */
  function LimitRows<R>(m: Sense<R>, limits: Limits, rows: seq<R>): seq<R>
  {
    match limits
    case NoLimits => rows
    case LimitOffset(limit, offset) =>
      var rest := if offset.Some? then Skip(rows, m.count(offset.value)) else rows;
      if limit.Some? then First(rest, m.count(limit.value)) else rest
    case OffsetComma(skip, count) =>
      var from, to := m.count(skip), m.count(skip) + m.count(count);
      if from > |rows| then [] else if to > |rows| then rows[from..] else rows[from..to]
  }

  /** FETCH FIRST n keeps n of the rows that are left. */
  function CutRows<R>(m: Sense<R>, q: Query, rows: seq<R>): seq<R>
  {
    var limited := LimitRows(m, q.limits, rows);
    if q.fetch.Some? then First(limited, m.count(q.fetch.value)) else limited
  }

  /** The clauses of one block, from WHERE to ORDER BY, over the rows of its FROM clause. */
  function BlockRows<R>(m: Sense<R>, q: Query, from: seq<R>): seq<R>
  {
    var kept := if q.filter.Some? then m.filter(q.filter.value, from) else from;
    var selected := SelectRows(m, q, kept);
    var qualified := if q.qualify.Some? then m.qualify(q.qualify.value, selected) else selected;
    var unique := if q.distinct then m.distinct(qualified) else qualified;
    var treated := if q.others == [] then unique else m.other(q.others, unique);
    OrderRows(m, q.order, treated)
  }

  function Rows<R>(m: Sense<R>, q: Query): seq<R>
    decreases q
  {
    CutRows(m, q, BlockRows(m, q, FromRows(m, q.from)))
  }

  // ---------------------------------------------------------------------------
  // The meaning of a plan
  // ---------------------------------------------------------------------------

  function PlanRows<R>(m: Sense<R>, plan: Plan): seq<R>
  {
    match plan
    case Scan(text) => m.table(text)
    case Filter(input, condition) => m.filter(condition, PlanRows(m, input))
    case Project(input, items) => m.project(if items == [] then [STAR] else items, [], PlanRows(m, input))
    case Window(input, items) => m.window(if items == [] then [STAR] else items, [], PlanRows(m, input))
    case Aggregate(input, group, items, having) =>
      m.aggregate(group, if items == [] then [STAR] else items, [], having, PlanRows(m, input))
    case Sort(input, keys) => m.sort(keys, PlanRows(m, input))
    case Limit(input, limit, offset) =>
      var rows := PlanRows(m, input);
      var rest := if offset.Some? then Skip(rows, m.count(offset.value)) else rows;
      if limit.Some? then First(rest, m.count(limit.value)) else rest
    case Join(left, right, op, constraint) => m.join(op, constraint, false, PlanRows(m, left), PlanRows(m, right))
    case SubqueryScan(input, alias) => m.renamed(Some(alias), false, PlanRows(m, input))
  }

  // ---------------------------------------------------------------------------
  // The clauses that a plan can hold
  // ---------------------------------------------------------------------------

  /** FETCH beside LIMIT is dropped, which does no harm when both say the same. */
  predicate OneLimit(q: Query)
  {
    q.fetch.None? || (match q.limits
                      case NoLimits => true
                      case LimitOffset(limit, _) => limit.None? || limit == q.fetch
                      case OffsetComma(_, count) => Some(count) == q.fetch)
  }

  /** No clause of the block is one that the builder passes over. */
  predicate HeldBlock(q: Query)
  {
    && !q.distinct && q.qualify.None? && q.windows == [] && q.others == [] && !q.order.OrderAll?
    && (q.having.Some? ==> Aggregated(q))
  }

  predicate Held(q: Query) { HeldBlock(q) && OneLimit(q) && HeldItems(q.from) }

  predicate HeldItems(items: seq<FromItem>) { items == [] || (HeldItem(items[0]) && HeldItems(items[1..])) }

  predicate HeldItem(item: FromItem) { HeldFactor(item.relation) && HeldJoins(item.joins) }

  predicate HeldJoins(js: seq<JoinClause>) { js == [] || (HeldJoin(js[0]) && HeldJoins(js[1..])) }

  predicate HeldJoin(j: JoinClause) { !j.global && HeldFactor(j.relation) }

  predicate HeldFactor(f: Factor) { f.Derived? ==> !f.lateral && Held(f.query) }

  // ---------------------------------------------------------------------------
  // The plan has the rows of the query
  // ---------------------------------------------------------------------------

  lemma {:induction false} FactorBuilt<R>(m: Sense<R>, f: Factor)
    requires FactorPlan(f).Ok? && HeldFactor(f)
    ensures PlanRows(m, FactorPlan(f).value) == FactorRows(m, f)
    decreases f, 0
  {
    if f.Derived? {
      PlanKeepsRows(m, f.query);
    }
  }

  lemma {:induction false} JoinBuilt<R>(m: Sense<R>, plan: Plan, j: JoinClause)
    requires JoinPlan(plan, j).Ok? && HeldJoin(j)
    ensures PlanRows(m, JoinPlan(plan, j).value) == JoinRows(m, PlanRows(m, plan), j)
    decreases j, 0
  {
    FactorBuilt(m, j.relation);
  }

  lemma {:induction false} JoinsBuilt<R>(m: Sense<R>, plan: Plan, js: seq<JoinClause>)
    requires JoinsPlan(plan, js).Ok? && HeldJoins(js)
    ensures PlanRows(m, JoinsPlan(plan, js).value) == JoinsRows(m, PlanRows(m, plan), js)
    decreases js, 0
  {
    if js != [] {
      JoinBuilt(m, plan, js[0]);
      JoinsBuilt(m, JoinPlan(plan, js[0]).value, js[1..]);
    }
  }

  lemma {:induction false} ItemBuilt<R>(m: Sense<R>, item: FromItem)
    requires ItemPlan(item).Ok? && HeldItem(item)
    ensures PlanRows(m, ItemPlan(item).value) == ItemRows(m, item)
    decreases item, 0
  {
    FactorBuilt(m, item.relation);
    JoinsBuilt(m, FactorPlan(item.relation).value, item.joins);
  }

  lemma {:induction false} MoreBuilt<R>(m: Sense<R>, plan: Plan, items: seq<FromItem>)
    requires MorePlan(plan, items).Ok? && HeldItems(items)
    ensures PlanRows(m, MorePlan(plan, items).value) == MoreRows(m, PlanRows(m, plan), items)
    decreases items, 0
  {
    if items != [] {
      ItemBuilt(m, items[0]);
      MoreBuilt(m, Join(plan, ItemPlan(items[0]).value, Cross, NoConstraint), items[1..]);
    }
  }

  lemma {:induction false} FromBuilt<R>(m: Sense<R>, from: seq<FromItem>)
    requires FromPlan(from).Ok? && HeldItems(from)
    ensures PlanRows(m, FromPlan(from).value) == FromRows(m, from)
    decreases from, 0
  {
    ItemBuilt(m, from[0]);
    MoreBuilt(m, ItemPlan(from[0]).value, from[1..]);
  }

  /** The rows of the nodes that the builder puts over the FROM clause, up to the sorting. */
  function NodeRows<R>(m: Sense<R>, q: Query, from: seq<R>): seq<R>
  {
    var kept := if q.filter.Some? then m.filter(q.filter.value, from) else from;
    var items := if q.items == [] then [STAR] else q.items;
    var selected := if Aggregated(q) then m.aggregate(q.group, items, [], q.having, kept)
                    else if Windowed(q) then m.window(items, [], kept)
                    else m.project(items, [], kept);
    match q.order
    case Unordered => selected
    case OrderBy(keys) => if keys == [] then selected else m.sort(keys, selected)
    case OrderAll => m.sort([], selected)
  }

  lemma SelectNodes<R>(m: Sense<R>, q: Query, from: Plan)
    ensures PlanRows(m, SelectPlan(q, from)) == NodeRows(m, q.(order := Unordered), PlanRows(m, from))
  {
    assert Aggregated(q.(order := Unordered)) == Aggregated(q) && Windowed(q.(order := Unordered)) == Windowed(q);
  }

  lemma SortNodes<R>(m: Sense<R>, q: Query, from: Plan)
    ensures PlanRows(m, SortPlan(q, SelectPlan(q, from))) == NodeRows(m, q, PlanRows(m, from))
  {
    SelectNodes(m, q, from);
    assert Aggregated(q.(order := Unordered)) == Aggregated(q) && Windowed(q.(order := Unordered)) == Windowed(q);
  }

  lemma BlockBuilt<R>(m: Sense<R>, q: Query, from: seq<R>)
    requires HeldBlock(q)
    ensures NodeRows(m, q, from) == BlockRows(m, q, from)
  {
  }

  /** Whatever form the limits have, the plan keeps the rows that they keep. */
  lemma LimitBuilt<R>(m: Sense<R>, q: Query, plan: Plan)
    requires OneLimit(q)
    ensures PlanRows(m, LimitPlan(q, plan)) == CutRows(m, q, PlanRows(m, plan))
  {
  }

  /** For every meaning of tables, joins and clauses: the plan of a query has the rows of the query. */
  lemma {:induction false} PlanKeepsRows<R>(m: Sense<R>, q: Query)
    requires QueryPlan(q).Ok? && Held(q)
    ensures PlanRows(m, QueryPlan(q).value) == Rows(m, q)
    decreases q, 0
  {
    FromBuilt(m, q.from);
    var from := FromPlan(q.from).value;
    SortNodes(m, q, from);
    BlockBuilt(m, q, PlanRows(m, from));
    LimitBuilt(m, q, SortPlan(q, SelectPlan(q, from)));
  }

  // ---------------------------------------------------------------------------
  // The text that is written from the plan has them too
  // ---------------------------------------------------------------------------

  /** The long words of joins mean what the short ones mean. */
  ghost predicate Synonyms<R(!new)>(m: Sense<R>)
  {
    forall c: Constraint, g: bool, left: seq<R>, right: seq<R> ::
      && m.join(InnerWord, c, g, left, right) == m.join(Plain, c, g, left, right)
      && m.join(LeftOuter, c, g, left, right) == m.join(LeftJoin, c, g, left, right)
      && m.join(RightOuter, c, g, left, right) == m.join(RightJoin, c, g, left, right)
  }

  /** Nothing of the FROM clause is left unwritten, and no join changes its place. */
  predicate Writable(q: Query) { q.from != [] && WritableItem(q.from[0]) && WritableMore(q.from[1..]) }

  predicate WritableMore(items: seq<FromItem>)
  {
    items == [] || (WritableFactor(items[0].relation) && items[0].joins == [] && WritableMore(items[1..]))
  }

  predicate WritableItem(item: FromItem) { WritableFactor(item.relation) && WritableJoins(item.joins) }

  predicate WritableJoins(js: seq<JoinClause>) { js == [] || (WritableJoin(js[0]) && WritableJoins(js[1..])) }

  predicate WritableJoin(j: JoinClause)
  {
    !j.constraint.Natural? && (j.op.AsOf? ==> j.op.condition.None?) && WritableFactor(j.relation)
  }

  predicate WritableFactor(f: Factor) { f.Derived? ==> Writable(f.query) }

  lemma {:induction false} FactorWritten<R(!new)>(m: Sense<R>, f: Factor)
    requires Synonyms(m) && HeldFactor(f) && WritableFactor(f)
    ensures FactorRows(m, NormalOfFactor(f)) == FactorRows(m, f)
    decreases f, 0
  {
    if f.Derived? {
      RewritingKeepsRows(m, f.query);
    }
  }

  lemma {:induction false} JoinWritten<R(!new)>(m: Sense<R>, left: seq<R>, j: JoinClause)
    requires Synonyms(m) && HeldJoin(j) && WritableJoin(j)
    ensures JoinRows(m, left, NormalOfJoin(j)) == JoinRows(m, left, j)
    decreases j, 0
  {
    FactorWritten(m, j.relation);
  }

  lemma {:induction false} JoinsWritten<R(!new)>(m: Sense<R>, left: seq<R>, js: seq<JoinClause>)
    requires Synonyms(m) && HeldJoins(js) && WritableJoins(js)
    ensures JoinsRows(m, left, NormalOfJoins(js)) == JoinsRows(m, left, js)
    decreases js, 0
  {
    if js != [] {
      JoinWritten(m, left, js[0]);
      JoinsWritten(m, JoinRows(m, left, js[0]), js[1..]);
      assert NormalOfJoins(js)[1..] == NormalOfJoins(js[1..]);
    }
  }

  lemma {:induction false} JoinsRowsAppend<R>(m: Sense<R>, left: seq<R>, a: seq<JoinClause>, b: seq<JoinClause>)
    ensures JoinsRows(m, left, a + b) == JoinsRows(m, JoinsRows(m, left, a), b)
    decreases a
  {
    if a == [] {
      assert a + b == b;
    } else {
      assert (a + b)[1..] == a[1..] + b && (a + b)[0] == a[0];
      JoinsRowsAppend(m, JoinRows(m, left, a[0]), a[1..], b);
    }
  }

  lemma {:induction false} CrossWritten<R(!new)>(m: Sense<R>, left: seq<R>, item: FromItem)
    requires Synonyms(m) && HeldItem(item) && WritableFactor(item.relation) && item.joins == []
    ensures JoinRows(m, left, CrossWith(item)) == m.join(Cross, NoConstraint, false, left, ItemRows(m, item))
    decreases item, 0
  {
    FactorWritten(m, item.relation);
  }

  lemma {:induction false} MoreWritten<R(!new)>(m: Sense<R>, left: seq<R>, items: seq<FromItem>)
    requires Synonyms(m) && HeldItems(items) && WritableMore(items)
    ensures JoinsRows(m, left, NormalOfMore(items)) == MoreRows(m, left, items)
    decreases items, 0
  {
    if items != [] {
      var cross, more := CrossWith(items[0]), NormalOfMore(items[1..]);
      CrossWritten(m, left, items[0]);
      assert OwnJoins(items[0]) == [] && [cross] + OwnJoins(items[0]) == [cross];
      assert ([cross] + more)[1..] == more;
      MoreWritten(m, JoinRows(m, left, cross), items[1..]);
    }
  }

  lemma {:induction false} ItemWritten<R(!new)>(m: Sense<R>, item: FromItem)
    requires Synonyms(m) && HeldItem(item) && WritableItem(item)
    ensures FactorRows(m, FirstRelation(item)) == FactorRows(m, item.relation)
    ensures JoinsRows(m, FactorRows(m, item.relation), OwnJoins(item)) == ItemRows(m, item)
    decreases item, 0
  {
    FactorWritten(m, item.relation);
    JoinsWritten(m, FactorRows(m, item.relation), item.joins);
  }

  lemma {:induction false} FromWritten<R(!new)>(m: Sense<R>, from: seq<FromItem>)
    requires Synonyms(m) && HeldItems(from) && from != [] && WritableItem(from[0]) && WritableMore(from[1..])
    ensures FromRows(m, NormalOfFrom(from)) == FromRows(m, from)
    decreases from, 0
  {
    var first, own, more := FactorRows(m, from[0].relation), OwnJoins(from[0]), NormalOfMore(from[1..]);
    ItemWritten(m, from[0]);
    JoinsRowsAppend(m, first, own, more);
    MoreWritten(m, JoinsRows(m, first, from[0].joins), from[1..]);
    assert NormalOfFrom(from)[1..] == [];
  }

  lemma LimitsWritten<R>(m: Sense<R>, q: Query, rows: seq<R>)
    requires OneLimit(q)
    ensures CutRows(m, Normalize(q), rows) == CutRows(m, q, rows)
  {
  }

  lemma BlockWritten<R>(m: Sense<R>, q: Query, rows: seq<R>)
    requires HeldBlock(q)
    ensures BlockRows(m, Normalize(q), rows) == BlockRows(m, q, rows)
  {
    assert !STAR.aggregate && !STAR.window;
    assert Windowed(Normalize(q)) == Windowed(q);
  }

  /** For every meaning in which the join words agree: what is written back has the rows of the query. */
  lemma {:induction false} RewritingKeepsRows<R(!new)>(m: Sense<R>, q: Query)
    requires Synonyms(m) && Held(q) && Writable(q)
    ensures Rows(m, Normalize(q)) == Rows(m, q)
    decreases q, 0
  {
    FromWritten(m, q.from);
    BlockWritten(m, q, FromRows(m, q.from));
    LimitsWritten(m, q, BlockRows(m, q, FromRows(m, q.from)));
  }
}
