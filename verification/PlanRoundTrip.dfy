/**
 Building a logical plan from a query and regenerating SQL from the plan: the text that comes out is that of
 a normal form of the query, and is the query itself exactly when the query is in that form.
 */
module PlanRoundTrip {
  import opened Common
  import opened QueryText

  datatype Plan =
    | Scan(text: string)
    | Filter(input: Plan, condition: Atom)
    | Project(input: Plan, items: seq<Atom>)
    | Aggregate(input: Plan, group: GroupBy, items: seq<Atom>, having: Option<Atom>)
    | Window(input: Plan, items: seq<Atom>)
    | Sort(input: Plan, keys: seq<Atom>)
    | Limit(input: Plan, limit: Option<Atom>, offset: Option<Atom>)
    | Join(left: Plan, right: Plan, op: JoinOp, constraint: Constraint)
    | SubqueryScan(input: Plan, alias: string)

  datatype Error = SelectWithoutFrom | DerivedWithoutAlias

  type Built = Result<Plan, Error>

  // ---------------------------------------------------------------------------
  // Building
  // ---------------------------------------------------------------------------

  function FactorPlan(f: Factor): Built
  {
    match f
    case Table(text) => Ok(Scan(text))
    case Derived(query, alias, _) =>
      var inner := QueryPlan(query);
      if inner.Err? then inner
      else if alias.None? then Err(DerivedWithoutAlias)
      else Ok(SubqueryScan(inner.value, alias.value))
  }

  function JoinPlan(plan: Plan, j: JoinClause): Built
    decreases j
  {
    var right := FactorPlan(j.relation);
    if right.Err? then right else Ok(Join(plan, right.value, j.op, j.constraint))
  }

  function JoinsPlan(plan: Plan, js: seq<JoinClause>): Built
    decreases js
  {
    if js == [] then Ok(plan)
    else
      var joined := JoinPlan(plan, js[0]);
      if joined.Err? then joined else JoinsPlan(joined.value, js[1..])
  }

  function ItemPlan(item: FromItem): Built
  {
    var first := FactorPlan(item.relation);
    if first.Err? then first else JoinsPlan(first.value, item.joins)
  }

  /** Further FROM items are cross joined to the plan so far. */
  function MorePlan(plan: Plan, items: seq<FromItem>): Built
    decreases items
  {
    if items == [] then Ok(plan)
    else
      var right := ItemPlan(items[0]);
      if right.Err? then right else MorePlan(Join(plan, right.value, Cross, NoConstraint), items[1..])
  }

  function FromPlan(from: seq<FromItem>): Built
  {
    if from == [] then Err(SelectWithoutFrom)
    else
      var first := ItemPlan(from[0]);
      if first.Err? then first else MorePlan(first.value, from[1..])
  }

  function SelectPlan(q: Query, from: Plan): Plan
  {
    var filtered := if q.filter.Some? then Filter(from, q.filter.value) else from;
    if Aggregated(q) then Aggregate(filtered, q.group, q.items, q.having)
    else if exists i :: 0 <= i < |q.items| && q.items[i].window then Window(filtered, q.items)
    else Project(filtered, q.items)
  }

  function SortPlan(q: Query, plan: Plan): Plan
  {
    match q.order
    case Unordered => plan
    case OrderBy(keys) => if keys == [] then plan else Sort(plan, keys)
    case OrderAll => Sort(plan, [])
  }

  /** LIMIT and OFFSET, from either form of the clause; FETCH counts as a limit when there is none. */
  function LimitsOf(q: Query): (Option<Atom>, Option<Atom>)
  {
    var (limit, offset) :=
      match q.limits
      case NoLimits => (None, None)
      case LimitOffset(l, o) => (l, o)
      case OffsetComma(skip, count) => (Some(count), Some(skip));
    (if limit.None? then q.fetch else limit, offset)
  }

  function LimitPlan(q: Query, plan: Plan): Plan
  {
    var (limit, offset) := LimitsOf(q);
    if limit.Some? || offset.Some? then Limit(plan, limit, offset) else plan
  }

  function QueryPlan(q: Query): Built
  {
    var from := FromPlan(q.from);
    if from.Err? then from else Ok(LimitPlan(q, SortPlan(q, SelectPlan(q, from.value))))
  }

  method BuildTableFactor(f: Factor) returns (r: Built)
    ensures r == FactorPlan(f)
    decreases f
  {
    match f {
      case Table(text) => return Ok(Scan(text));
      case Derived(query, alias, _) =>
        var inner := BuildFromQuery(query);
        if inner.Err? {
          return inner;
        }
        if alias.None? {
          return Err(DerivedWithoutAlias);
        }
        return Ok(SubqueryScan(inner.value, alias.value));
    }
  }

  method BuildJoin(plan: Plan, j: JoinClause) returns (r: Built)
    ensures r == JoinPlan(plan, j)
    decreases j
  {
    var right := BuildTableFactor(j.relation);
    if right.Err? {
      return right;
    }
    return Ok(Join(plan, right.value, j.op, j.constraint));
  }

  method BuildTableWithJoins(item: FromItem) returns (r: Built)
    ensures r == ItemPlan(item)
    decreases item
  {
    r := BuildTableFactor(item.relation);
    if r.Err? {
      return;
    }
    for i := 0 to |item.joins|
      invariant r.Ok? && JoinsPlan(r.value, item.joins[i..]) == ItemPlan(item)
    {
      assert item.joins[i..][1..] == item.joins[i + 1..];
      r := BuildJoin(r.value, item.joins[i]);
      if r.Err? {
        return;
      }
    }
  }

  method BuildFromClause(from: seq<FromItem>) returns (r: Built)
    ensures r == FromPlan(from)
    decreases from
  {
    if from == [] {
      return Err(SelectWithoutFrom);
    }
    r := BuildTableWithJoins(from[0]);
    if r.Err? {
      return;
    }
    for i := 1 to |from|
      invariant r.Ok? && MorePlan(r.value, from[i..]) == FromPlan(from)
    {
      assert from[i..][1..] == from[i + 1..];
      var right := BuildTableWithJoins(from[i]);
      if right.Err? {
        return right;
      }
      r := Ok(Join(r.value, right.value, Cross, NoConstraint));
    }
  }

  method BuildFromQuery(q: Query) returns (r: Built)
    ensures r == QueryPlan(q)
    decreases q
  {
    r := BuildFromClause(q.from);
    if r.Err? {
      return;
    }
    var plan := SelectPlan(q, r.value);
    match q.order {
      case OrderBy(keys) =>
        if keys != [] {
          plan := Sort(plan, keys);
        }
      case OrderAll => plan := Sort(plan, []);
      case Unordered =>
    }
    var (limit, offset) := LimitsOf(q);
    if limit.Some? || offset.Some? {
      plan := Limit(plan, limit, offset);
    }
    r := Ok(plan);
  }

  // ---------------------------------------------------------------------------
  // Generating
  // ---------------------------------------------------------------------------

  const STAR: Atom := Atom("*", false, false)

  function SelectList(items: seq<Atom>, rest: Text): Text
  {
    if items == [] then [Piece(STAR)] + rest else Commas(items, rest)
  }

  function Select(items: seq<Atom>, from: Text): Text { [SELECT] + SelectList(items, [FROM] + from) }

  /** The plans that can stand in a FROM clause as they are. */
  predicate InFrom(plan: Plan) { plan.Scan? || plan.Join? || plan.Filter? || plan.SubqueryScan? }

  /** The SQL of a plan, followed by `rest`. */
  function SqlOf(plan: Plan, rest: Text): Text
    decreases plan, 1
  {
    match plan
    case Limit(input, limit, offset) => SqlOf(input, Clause(LIMIT, limit, Clause(OFFSET, offset, rest)))
    case Sort(input, keys) => SqlOf(input, if keys == [] then rest else [ORDER_BY] + Commas(keys, rest))
    case Aggregate(input, group, items, having) =>
      Select(items, FragmentOf(input, PrintGroup(group, Clause(HAVING, having, rest))))
    case Project(input, items) => Select(items, FragmentOf(input, rest))
    case Window(input, items) => Select(items, FragmentOf(input, rest))
    case SubqueryScan(input, _) => SqlOf(input, rest)
    case _ => Select([], FragmentOf(plan, rest))
  }

  /** What is written after FROM. */
  function FragmentOf(plan: Plan, rest: Text): Text
    decreases plan, if InFrom(plan) then 0 else 2
  {
    match plan
    case Scan(text) => [TableText(text)] + rest
    case Join(left, right, op, constraint) =>
      FragmentOf(left, [JOIN(Word(op))] + FragmentOf(right, PrintConstraint(constraint, rest)))
    case Filter(input, condition) => FragmentOf(input, [WHERE, Piece(condition)] + rest)
    case SubqueryScan(input, alias) => [OPEN] + SqlOf(input, [CLOSE] + ([AsAlias(alias)] + rest))
    case _ => [OPEN] + SqlOf(plan, [CLOSE] + ([AsAlias("__subquery")] + rest))
  }

  method WriteSelectItems(sql: Text, items: seq<Atom>, ghost rest: Text) returns (out: Text)
    ensures out + rest == sql + SelectList(items, rest)
  {
    if items == [] {
      return sql + [Piece(STAR)];
    }
    out := WriteCommas(sql, items, rest);
  }

  method WriteCommas(sql: Text, xs: seq<Atom>, ghost rest: Text) returns (out: Text)
    ensures out + rest == sql + Commas(xs, rest)
  {
    out := sql;
    for i := 0 to |xs|
      invariant if i == 0 then out == sql
                else out + (if i < |xs| then [COMMA] + Commas(xs[i..], rest) else rest) == sql + Commas(xs, rest)
    {
      if i > 0 {
        out := out + [COMMA];
      }
      CommasFirst(xs[i..], rest);
      assert xs[i..][1..] == xs[i + 1..];
      out := out + [Piece(xs[i])];
    }
  }

  lemma CommasFirst(xs: seq<Atom>, rest: Text)
    requires xs != []
    ensures Commas(xs, rest) == [Piece(xs[0])] + (if |xs| > 1 then [COMMA] + Commas(xs[1..], rest) else rest)
  {
  }

  method WriteClause(sql: Text, word: Token, e: Option<Atom>, ghost rest: Text) returns (out: Text)
    ensures out + rest == sql + Clause(word, e, rest)
  {
    out := if e.Some? then sql + [word, Piece(e.value)] else sql;
  }

  method WriteConstraint(sql: Text, c: Constraint, ghost rest: Text) returns (out: Text)
    ensures out + rest == sql + PrintConstraint(c, rest)
  {
    match c {
      case On(e) => out := sql + [ON, Piece(e)];
      case Using(columns) =>
        out := WriteCommas(sql + [USING, OPEN], columns, [CLOSE] + rest);
        Glue(sql, [USING, OPEN], Commas(columns, [CLOSE] + rest));
        Glue(out, [CLOSE], rest);
        out := out + [CLOSE];
      case Natural => out := sql;
      case NoConstraint => out := sql;
    }
  }

  method WriteGroup(sql: Text, g: GroupBy, ghost rest: Text) returns (out: Text)
    ensures out + rest == sql + PrintGroup(g, rest)
  {
    match g {
      case GroupAll => out := sql + [GROUP_BY_ALL];
      case Groups(exprs) =>
        out := sql;
        if exprs != [] {
          out := WriteCommas(sql + [GROUP_BY], exprs, rest);
        }
    }
  }

  /** A whole SELECT up to the end of its FROM clause. */
  method WriteSelect(sql: Text, items: seq<Atom>, input: Plan, ghost rest: Text) returns (out: Text)
    ensures out + rest == sql + Select(items, FragmentOf(input, rest))
    decreases input, if InFrom(input) then 3 else 7
  {
    ghost var from := FragmentOf(input, rest);
    out := WriteSelectItems(sql + [SELECT], items, [FROM] + from);
    Glue(sql, [SELECT], SelectList(items, [FROM] + from));
    Glue(out, [FROM], from);
    out := GenerateFromFragment(input, out + [FROM], rest);
  }

  /** Appends the SQL of the plan to the buffer. */
  method GenerateSql(plan: Plan, sql: Text, ghost rest: Text) returns (out: Text)
    ensures out + rest == sql + SqlOf(plan, rest)
    decreases plan, 4
  {
    match plan {
      case Limit(input, limit, offset) =>
        ghost var skip := Clause(OFFSET, offset, rest);
        out := GenerateSql(input, sql, Clause(LIMIT, limit, skip));
        out := WriteClause(out, LIMIT, limit, skip);
        out := WriteClause(out, OFFSET, offset, rest);
      case Sort(input, keys) =>
        if keys == [] {
          out := GenerateSql(input, sql, rest);
        } else {
          out := GenerateSql(input, sql, [ORDER_BY] + Commas(keys, rest));
          Glue(out, [ORDER_BY], Commas(keys, rest));
          out := WriteCommas(out + [ORDER_BY], keys, rest);
        }
      case Aggregate(input, group, items, having) =>
        ghost var tail := Clause(HAVING, having, rest);
        out := WriteSelect(sql, items, input, PrintGroup(group, tail));
        out := WriteGroup(out, group, tail);
        out := WriteClause(out, HAVING, having, rest);
      case Project(input, items) => out := WriteSelect(sql, items, input, rest);
      case Window(input, items) => out := WriteSelect(sql, items, input, rest);
      case SubqueryScan(input, _) => out := GenerateSql(input, sql, rest);
      case _ => out := WriteSelect(sql, [], plan, rest);
    }
  }

  method GenerateFromFragment(plan: Plan, sql: Text, ghost rest: Text) returns (out: Text)
    ensures out + rest == sql + FragmentOf(plan, rest)
    decreases plan, if InFrom(plan) then 0 else 6
  {
    match plan {
      case Scan(text) => out := sql + [TableText(text)];
      case Join(left, right, op, constraint) =>
        ghost var after := PrintConstraint(constraint, rest);
        out := GenerateFromFragment(left, sql, [JOIN(Word(op))] + FragmentOf(right, after));
        Glue(out, [JOIN(Word(op))], FragmentOf(right, after));
        out := GenerateFromFragment(right, out + [JOIN(Word(op))], after);
        out := WriteConstraint(out, constraint, rest);
      case Filter(input, condition) =>
        out := GenerateFromFragment(input, sql, [WHERE, Piece(condition)] + rest);
        Glue(out, [WHERE, Piece(condition)], rest);
        out := out + [WHERE, Piece(condition)];
      case SubqueryScan(input, alias) =>
        out := Enclose(input, sql, alias, rest);
      case _ =>
        out := Enclose(plan, sql, "__subquery", rest);
    }
  }

  /** A parenthesised query with its alias. */
  method Enclose(plan: Plan, sql: Text, alias: string, ghost rest: Text) returns (out: Text)
    ensures out + rest == sql + ([OPEN] + SqlOf(plan, [CLOSE] + ([AsAlias(alias)] + rest)))
    decreases plan, 5
  {
    ghost var after := [CLOSE] + ([AsAlias(alias)] + rest);
    out := GenerateSql(plan, sql + [OPEN], after);
    Glue(sql, [OPEN], SqlOf(plan, after));
    assert out + after == out + [CLOSE, AsAlias(alias)] + rest;
    out := out + [CLOSE, AsAlias(alias)];
  }

  lemma Glue(a: Text, b: Text, c: Text)
    ensures (a + b) + c == a + (b + c)
  {
  }

  // ---------------------------------------------------------------------------
  // The normal form
  // ---------------------------------------------------------------------------

  function NormalOfFactor(f: Factor): Factor
  {
    match f
    case Table(_) => f
    case Derived(query, alias, _) => Derived(Normalize(query), alias, false)
  }

  function NormalOfJoin(j: JoinClause): JoinClause
  {
    JoinClause(Word(j.op), NormalOfFactor(j.relation), if j.constraint.Natural? then NoConstraint else j.constraint,
               false)
  }

  function NormalOfJoins(js: seq<JoinClause>): seq<JoinClause>
  {
    if js == [] then [] else [NormalOfJoin(js[0])] + NormalOfJoins(js[1..])
  }

  function CrossWith(item: FromItem): JoinClause
  {
    JoinClause(Cross, NormalOfFactor(item.relation), NoConstraint, false)
  }

  /** A further FROM item becomes a cross join, and its joins go on at the top level. */
  function NormalOfMore(items: seq<FromItem>): seq<JoinClause>
  {
    if items == [] then [] else [CrossWith(items[0])] + OwnJoins(items[0]) + NormalOfMore(items[1..])
  }

  function OwnJoins(item: FromItem): seq<JoinClause> { NormalOfJoins(item.joins) }

  function FirstRelation(item: FromItem): Factor { NormalOfFactor(item.relation) }

  function NormalOfFrom(from: seq<FromItem>): seq<FromItem>
  {
    if from == [] then [] else [FromItem(FirstRelation(from[0]), OwnJoins(from[0]) + NormalOfMore(from[1..]))]
  }

  function NormalOfLimits(q: Query): Limits
  {
    var (limit, offset) := LimitsOf(q);
    if limit.None? && offset.None? then NoLimits else LimitOffset(limit, offset)
  }

  /** What survives the way through the plan. */
  function Normalize(q: Query): Query
  {
    Query(false,
          if q.items == [] then [STAR] else q.items,
          NormalOfFrom(q.from),
          q.filter,
          q.group,
          if Aggregated(q) then q.having else None,
          if q.order.OrderBy? && q.order.keys != [] then q.order else Unordered,
          NormalOfLimits(q),
          None, None, [], [])
  }

  // ---------------------------------------------------------------------------
  // The generated text is that of the normal form
  // ---------------------------------------------------------------------------

  lemma {:induction false} FactorText(f: Factor, rest: Text)
    requires FactorPlan(f).Ok?
    ensures FragmentOf(FactorPlan(f).value, rest) == PrintFactor(NormalOfFactor(f), rest)
    ensures NormalFactor(NormalOfFactor(f))
    decreases f, 0
  {
    if f.Derived? {
      GeneratedText(f.query, [CLOSE] + ([AsAlias(f.alias.value)] + rest));
    }
  }

  lemma {:induction false} JoinText(plan: Plan, j: JoinClause, rest: Text)
    requires JoinPlan(plan, j).Ok?
    ensures FragmentOf(JoinPlan(plan, j).value, rest) == FragmentOf(plan, PrintJoin(NormalOfJoin(j), rest))
    ensures NormalJoin(NormalOfJoin(j))
    decreases j, 0
  {
    FactorText(j.relation, PrintConstraint(j.constraint, rest));
  }

  lemma {:induction false} JoinsText(plan: Plan, js: seq<JoinClause>, rest: Text)
    requires JoinsPlan(plan, js).Ok?
    ensures FragmentOf(JoinsPlan(plan, js).value, rest) == FragmentOf(plan, PrintJoins(NormalOfJoins(js), rest))
    ensures NormalJoins(NormalOfJoins(js))
    decreases js, 0
  {
    if js != [] {
      var joined := JoinPlan(plan, js[0]).value;
      JoinsText(joined, js[1..], rest);
      JoinText(plan, js[0], PrintJoins(NormalOfJoins(js[1..]), rest));
      assert NormalOfJoins(js)[1..] == NormalOfJoins(js[1..]);
    }
  }

  lemma {:induction false} ItemText(item: FromItem, rest: Text)
    requires ItemPlan(item).Ok?
    ensures FragmentOf(ItemPlan(item).value, rest) == PrintFactor(FirstRelation(item), PrintJoins(OwnJoins(item), rest))
    ensures NormalFactor(FirstRelation(item)) && NormalJoins(OwnJoins(item))
    decreases item, 0
  {
    JoinsText(FactorPlan(item.relation).value, item.joins, rest);
    FactorText(item.relation, PrintJoins(NormalOfJoins(item.joins), rest));
  }

  lemma {:induction false} PrintJoinsAppend(a: seq<JoinClause>, b: seq<JoinClause>, rest: Text)
    ensures PrintJoins(a + b, rest) == PrintJoins(a, PrintJoins(b, rest))
  {
    if a == [] {
      assert a + b == b;
    } else {
      assert (a + b)[1..] == a[1..] + b && (a + b)[0] == a[0];
      PrintJoinsAppend(a[1..], b, rest);
    }
  }

  lemma {:induction false} NormalJoinsAppend(a: seq<JoinClause>, b: seq<JoinClause>)
    ensures NormalJoins(a + b) <==> NormalJoins(a) && NormalJoins(b)
  {
    if a == [] {
      assert a + b == b;
    } else {
      assert (a + b)[1..] == a[1..] + b && (a + b)[0] == a[0];
      NormalJoinsAppend(a[1..], b);
    }
  }

  lemma {:induction false} MoreText(plan: Plan, items: seq<FromItem>, rest: Text)
    requires MorePlan(plan, items).Ok?
    ensures FragmentOf(MorePlan(plan, items).value, rest) == FragmentOf(plan, PrintJoins(NormalOfMore(items), rest))
    ensures NormalJoins(NormalOfMore(items))
    decreases items, 0
  {
    if items != [] {
      var right := ItemPlan(items[0]).value;
      MoreText(Join(plan, right, Cross, NoConstraint), items[1..], rest);
      var more := PrintJoins(NormalOfMore(items[1..]), rest);
      ItemText(items[0], more);
      CrossText(items[0], NormalOfMore(items[1..]), rest);
      var own := OwnJoins(items[0]);
      NormalJoinsAppend([CrossWith(items[0])], own);
      NormalJoinsAppend([CrossWith(items[0])] + own, NormalOfMore(items[1..]));
    }
  }

  lemma CrossText(item: FromItem, more: seq<JoinClause>, rest: Text)
    ensures PrintJoins([CrossWith(item)] + OwnJoins(item) + more, rest)
            == [JOIN(Cross)] + PrintFactor(FirstRelation(item), PrintJoins(OwnJoins(item), PrintJoins(more, rest)))
  {
    var all := [CrossWith(item)] + OwnJoins(item) + more;
    assert all[1..] == OwnJoins(item) + more && all[0] == CrossWith(item);
    PrintJoinsAppend(OwnJoins(item), more, rest);
  }

  lemma {:induction false} FromText(from: seq<FromItem>, rest: Text)
    requires FromPlan(from).Ok?
    ensures |NormalOfFrom(from)| == 1 && NormalItem(NormalOfFrom(from)[0])
    ensures FragmentOf(FromPlan(from).value, rest) == PrintFrom(NormalOfFrom(from)[0], rest)
    decreases from, 0
  {
    var more := PrintJoins(NormalOfMore(from[1..]), rest);
    MoreText(ItemPlan(from[0]).value, from[1..], rest);
    ItemText(from[0], more);
    PrintJoinsAppend(OwnJoins(from[0]), NormalOfMore(from[1..]), rest);
    NormalJoinsAppend(OwnJoins(from[0]), NormalOfMore(from[1..]));
  }

  lemma SelectText(q: Query, from: Plan, rest: Text)
    ensures SqlOf(SelectPlan(q, from), rest)
            == Select(q.items, FragmentOf(from, Clause(WHERE, q.filter,
                 PrintGroup(q.group, Clause(HAVING, if Aggregated(q) then q.having else None, rest)))))
  {
  }

  lemma LimitText(q: Query, plan: Plan, rest: Text)
    ensures SqlOf(LimitPlan(q, plan), rest) == SqlOf(plan, PrintLimits(NormalOfLimits(q), rest))
  {
  }

  lemma SortText(q: Query, plan: Plan, rest: Text)
    ensures SqlOf(SortPlan(q, plan), rest) == SqlOf(plan, PrintOrder(Normalize(q).order, rest))
  {
  }

  lemma {:induction false} GeneratedText(q: Query, rest: Text)
    requires QueryPlan(q).Ok?
    ensures SqlOf(QueryPlan(q).value, rest) == Print(Normalize(q), rest)
    ensures Normal(Normalize(q))
    decreases q, 0
  {
    var n := Normalize(q);
    var from := FromPlan(q.from).value;
    var select := SelectPlan(q, from);
    var limits := PrintLimits(n.limits, rest);
    var order := PrintOrder(n.order, limits);
    LimitText(q, SortPlan(q, select), rest);
    SortText(q, select, limits);
    SelectText(q, from, order);
    FromText(q.from, PrintTail(n, rest));
    assert PrintTail(n, rest) == Clause(WHERE, q.filter, PrintGroup(q.group, Clause(HAVING, n.having, order)));
    assert SelectList(q.items, []) == Commas(n.items, []);
  }

  // ---------------------------------------------------------------------------
  // The round trip
  // ---------------------------------------------------------------------------

  /** Parsing the SQL that is regenerated from the plan of a query gives the normal form of the query. */
  lemma RoundTrip(q: Query)
    requires QueryPlan(q).Ok?
    ensures ParseQuery(SqlOf(QueryPlan(q).value, [])) == Some((Normalize(q), []))
  {
    GeneratedText(q, []);
    QueryBack(Normalize(q), []);
  }

  // ---------------------------------------------------------------------------
  // Queries that differ from their normal form in the spelling of joins only
  // ---------------------------------------------------------------------------

  /** The query with every join spelled the short way, at every depth. */
  function Shorten(q: Query): Query
  {
    if |q.from| == 1 then q.(from := [ShortItem(q.from[0])]) else q
  }

  function ShortItem(item: FromItem): FromItem { FromItem(ShortFactor(item.relation), ShortJoins(item.joins)) }

  function ShortFactor(f: Factor): Factor { if f.Derived? then f.(query := Shorten(f.query)) else f }

  function ShortJoin(j: JoinClause): JoinClause { j.(op := Short(j.op), relation := ShortFactor(j.relation)) }

  function ShortJoins(js: seq<JoinClause>): seq<JoinClause>
  {
    if js == [] then [] else [ShortJoin(js[0])] + ShortJoins(js[1..])
  }

  lemma {:induction false} FactorShort(f: Factor)
    ensures NormalFactor(ShortFactor(f)) ==> NormalOfFactor(f) == ShortFactor(f)
    ensures NormalFactor(f) ==> ShortFactor(f) == f
    decreases f, 0
  {
    if f.Derived? {
      KeywordsOnly(f.query);
    }
  }

  lemma {:induction false} JoinShort(j: JoinClause)
    ensures NormalJoin(ShortJoin(j)) ==> NormalOfJoin(j) == ShortJoin(j)
    ensures NormalJoin(j) ==> ShortJoin(j) == j
    decreases j, 0
  {
    FactorShort(j.relation);
  }

  lemma {:induction false} JoinsShort(js: seq<JoinClause>)
    ensures NormalJoins(ShortJoins(js)) ==> NormalOfJoins(js) == ShortJoins(js)
    ensures NormalJoins(js) ==> ShortJoins(js) == js
    decreases js, 0
  {
    if js != [] {
      assert ShortJoins(js)[1..] == ShortJoins(js[1..]);
      JoinShort(js[0]);
      JoinsShort(js[1..]);
    }
  }

  lemma {:induction false} ItemShort(item: FromItem)
    ensures NormalItem(ShortItem(item)) ==> FromItem(FirstRelation(item), OwnJoins(item)) == ShortItem(item)
    ensures NormalItem(item) ==> ShortItem(item) == item
    decreases item, 0
  {
    FactorShort(item.relation);
    JoinsShort(item.joins);
  }

  lemma {:induction false} FromShort(from: seq<FromItem>)
    requires |from| == 1
    ensures NormalItem(ShortItem(from[0])) ==> NormalOfFrom(from) == [ShortItem(from[0])]
    ensures NormalItem(from[0]) ==> ShortItem(from[0]) == from[0]
    decreases from, 0
  {
    ItemShort(from[0]);
    assert from[1..] == [] && OwnJoins(from[0]) + [] == OwnJoins(from[0]);
  }

  /** A query that is in normal form but for the words of its joins comes back with the short words. */
  lemma {:induction false} KeywordsOnly(q: Query)
    ensures Normal(Shorten(q)) ==> Normalize(q) == Shorten(q)
    ensures Normal(q) ==> Shorten(q) == q
    decreases q, 0
  {
    if |q.from| == 1 {
      FromShort(q.from);
      assert [q.from[0]] == q.from;
    }
    assert Aggregated(Shorten(q)) == Aggregated(q);
  }

  // ---------------------------------------------------------------------------
  // Which queries come back unchanged
  // ---------------------------------------------------------------------------

  /** The query itself comes back if and only if it is in normal form. */
  lemma RoundTripIff(q: Query)
    requires QueryPlan(q).Ok?
    ensures ParseQuery(SqlOf(QueryPlan(q).value, [])) == Some((q, [])) <==> Normal(q)
  {
    RoundTrip(q);
    GeneratedText(q, []);
    if Normal(q) {
      KeywordsOnly(q);
    }
  }

  /** Building and regenerating once more changes nothing. */
  lemma NormalizeIsIdempotent(q: Query)
    requires QueryPlan(q).Ok?
    ensures Normalize(Normalize(q)) == Normalize(q)
  {
    GeneratedText(q, []);
    KeywordsOnly(Normalize(q));
  }

  // ---------------------------------------------------------------------------
  // When building fails
  // ---------------------------------------------------------------------------

  predicate Buildable(q: Query) { q.from != [] && BuildableItems(q.from) }

  predicate BuildableItems(items: seq<FromItem>)
  {
    items == [] || (BuildableItem(items[0]) && BuildableItems(items[1..]))
  }

  predicate BuildableItem(item: FromItem) { BuildableFactor(item.relation) && BuildableJoins(item.joins) }

  predicate BuildableJoins(js: seq<JoinClause>) { js == [] || (BuildableJoin(js[0]) && BuildableJoins(js[1..])) }

  predicate BuildableJoin(j: JoinClause) { BuildableFactor(j.relation) }

  predicate BuildableFactor(f: Factor) { f.Derived? ==> f.alias.Some? && Buildable(f.query) }

  /** What is wrong with a query, in the order of its text: what is inside a derived table comes before its alias. */
  function Defects(q: Query): seq<Error> { if q.from == [] then [SelectWithoutFrom] else DefectsOfItems(q.from) }

  function DefectsOfItems(items: seq<FromItem>): seq<Error>
  {
    if items == [] then [] else DefectsOfItem(items[0]) + DefectsOfItems(items[1..])
  }

  function DefectsOfItem(item: FromItem): seq<Error> { DefectsOfFactor(item.relation) + DefectsOfJoins(item.joins) }

  function DefectsOfJoins(js: seq<JoinClause>): seq<Error>
  {
    if js == [] then [] else DefectsOfJoin(js[0]) + DefectsOfJoins(js[1..])
  }

  function DefectsOfJoin(j: JoinClause): seq<Error> { DefectsOfFactor(j.relation) }

  function DefectsOfFactor(f: Factor): seq<Error>
  {
    if f.Table? then [] else Defects(f.query) + (if f.alias.None? then [DerivedWithoutAlias] else [])
  }

  /** A plan if nothing is wrong, and the first defect otherwise. */
  predicate Reports(r: Built, defects: seq<Error>) { if defects == [] then r.Ok? else r == Err(defects[0]) }

  lemma {:induction false} FactorBuilds(f: Factor)
    ensures FactorPlan(f).Ok? <==> BuildableFactor(f)
    ensures Reports(FactorPlan(f), DefectsOfFactor(f))
    decreases f, 0
  {
    if f.Derived? {
      BuildsIff(f.query);
    }
  }

  lemma {:induction false} JoinBuilds(plan: Plan, j: JoinClause)
    ensures JoinPlan(plan, j).Ok? <==> BuildableJoin(j)
    ensures Reports(JoinPlan(plan, j), DefectsOfJoin(j))
    decreases j, 0
  {
    FactorBuilds(j.relation);
  }

  lemma {:induction false} JoinsBuild(plan: Plan, js: seq<JoinClause>)
    ensures JoinsPlan(plan, js).Ok? <==> BuildableJoins(js)
    ensures Reports(JoinsPlan(plan, js), DefectsOfJoins(js))
    decreases js, 0
  {
    if js != [] {
      JoinBuilds(plan, js[0]);
      if JoinPlan(plan, js[0]).Ok? {
        JoinsBuild(JoinPlan(plan, js[0]).value, js[1..]);
      }
    }
  }

  lemma {:induction false} ItemBuilds(item: FromItem)
    ensures ItemPlan(item).Ok? <==> BuildableItem(item)
    ensures Reports(ItemPlan(item), DefectsOfItem(item))
    decreases item, 0
  {
    FactorBuilds(item.relation);
    if FactorPlan(item.relation).Ok? {
      JoinsBuild(FactorPlan(item.relation).value, item.joins);
    }
  }

  lemma {:induction false} MoreBuilds(plan: Plan, items: seq<FromItem>)
    ensures MorePlan(plan, items).Ok? <==> BuildableItems(items)
    ensures Reports(MorePlan(plan, items), DefectsOfItems(items))
    decreases items, 0
  {
    if items != [] {
      ItemBuilds(items[0]);
      if ItemPlan(items[0]).Ok? {
        MoreBuilds(Join(plan, ItemPlan(items[0]).value, Cross, NoConstraint), items[1..]);
      }
    }
  }

  lemma {:induction false} FromBuilds(from: seq<FromItem>)
    ensures FromPlan(from).Ok? <==> from != [] && BuildableItems(from)
    ensures Reports(FromPlan(from), if from == [] then [SelectWithoutFrom] else DefectsOfItems(from))
    decreases from, 0
  {
    if from != [] {
      ItemBuilds(from[0]);
      if ItemPlan(from[0]).Ok? {
        MoreBuilds(ItemPlan(from[0]).value, from[1..]);
      }
    }
  }

  /**
   A plan is built unless some SELECT, at any depth, has no FROM or some derived table has no alias; the error is the
   first of these.
   */
  lemma {:induction false} BuildsIff(q: Query)
    ensures QueryPlan(q).Ok? <==> Buildable(q)
    ensures Reports(QueryPlan(q), Defects(q))
    decreases q, 0
  {
    FromBuilds(q.from);
  }

  // ---------------------------------------------------------------------------
  // A plan in a FROM clause
  // ---------------------------------------------------------------------------

  /** The plan of a query that stands in a FROM clause is written, and read back, as a derived table `__subquery`. */
  lemma SubplanText(q: Query, rest: Text)
    requires QueryPlan(q).Ok? && (rest == [] || !rest[0].AsAlias?)
    ensures ParseFactor(FragmentOf(QueryPlan(q).value, rest))
            == Some((Derived(Normalize(q), Some("__subquery"), false), rest))
  {
    var f := Derived(Normalize(q), Some("__subquery"), false);
    GeneratedText(q, [CLOSE] + ([AsAlias("__subquery")] + rest));
    assert !InFrom(QueryPlan(q).value);
    assert FragmentOf(QueryPlan(q).value, rest) == PrintFactor(f, rest);
    FactorBack(f, rest);
  }

  // ---------------------------------------------------------------------------
  // A query that does not come back
  // ---------------------------------------------------------------------------

  /** `SELECT DISTINCT a FROM t`, or without DISTINCT. */
  function SelectFromTable(distinct: bool): Query
  {
    Query(distinct, [Atom("a", false, false)], [FromItem(Table("t"), [])], None, Groups([]), None, Unordered, NoLimits,
          None, None, [], [])
  }

  lemma DistinctIsDropped()
    ensures var plan := QueryPlan(SelectFromTable(true));
            plan.Ok? && ParseQuery(SqlOf(plan.value, [])) == Some((SelectFromTable(false), []))
  {
    var q, item := SelectFromTable(true), FromItem(Table("t"), []);
    assert q.from[1..] == [] && OwnJoins(item) == [] && NormalOfMore([]) == [];
    assert ItemPlan(item) == Ok(Scan("t"));
    assert FromPlan(q.from).Ok?;
    assert FirstRelation(item) == Table("t") && OwnJoins(item) + NormalOfMore([]) == [];
    assert NormalOfFrom(q.from) == [FromItem(FirstRelation(item), OwnJoins(item) + NormalOfMore(q.from[1..]))];
    RoundTrip(q);
  }
}
