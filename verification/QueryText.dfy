/**
 Single-block queries, the text they are written as, and a parser for that text.  Expressions, select items,
 sort keys and plain table factors print themselves and are atoms here; nesting, clauses and joins are not.
 */
module QueryText {
  import opened Common

  /** A piece of SQL that prints itself; the two attributes are what a walk over the piece finds. */
  datatype Atom = Atom(text: string, aggregate: bool, window: bool)

  datatype JoinOp =
    | Plain | InnerWord | LeftJoin | LeftOuter | RightJoin | RightOuter | FullOuter | Cross
    | AsOf(condition: Option<Atom>)   // with its MATCH_CONDITION
    | Other(word: nat)                // semi, anti, apply and straight joins

  datatype Constraint = On(e: Atom) | Using(columns: seq<Atom>) | Natural | NoConstraint

  datatype Factor = Table(text: string) | Derived(query: Query, alias: Option<string>, lateral: bool)

  datatype JoinClause = JoinClause(op: JoinOp, relation: Factor, constraint: Constraint, global: bool)

  datatype FromItem = FromItem(relation: Factor, joins: seq<JoinClause>)

  datatype GroupBy = Groups(exprs: seq<Atom>) | GroupAll

  datatype OrderBy = Unordered | OrderBy(keys: seq<Atom>) | OrderAll

  datatype Limits =
    | NoLimits
    | LimitOffset(limit: Option<Atom>, offset: Option<Atom>)
    | OffsetComma(skip: Atom, count: Atom)

  /**
   `windows` are the definitions of the WINDOW clause; `others` are the clauses that the builder does not look
   at: TOP, INTO, LATERAL VIEW, PREWHERE, CONNECT BY, CLUSTER, DISTRIBUTE and SORT BY, LIMIT BY, INTERPOLATE,
   the word after OFFSET, locks, FOR, SETTINGS, FORMAT and pipe operators.
   */
  datatype Query = Query(
    distinct: bool,
    items: seq<Atom>,
    from: seq<FromItem>,
    filter: Option<Atom>,
    group: GroupBy,
    having: Option<Atom>,
    order: OrderBy,
    limits: Limits,
    fetch: Option<Atom>,
    qualify: Option<Atom>,
    windows: seq<Atom>,
    others: seq<Atom>)

  datatype Token =
    | SELECT | FROM | WHERE | GROUP_BY | GROUP_BY_ALL | HAVING | ORDER_BY | LIMIT | OFFSET
    | JOIN(op: JoinOp) | ON | USING | OPEN | CLOSE | COMMA
    | Piece(atom: Atom) | TableText(text: string) | AsAlias(name: string)

  type Text = seq<Token>

  /** Of the spellings of a join that mean the same, the short one. */
  function Short(op: JoinOp): JoinOp
  {
    match op
    case InnerWord => Plain
    case LeftOuter => LeftJoin
    case RightOuter => RightJoin
    case _ => op
  }

  /** The words that are written for a join: the short ones, and nothing of a match condition. */
  function Word(op: JoinOp): JoinOp { if op.AsOf? then AsOf(None) else Short(op) }

  // The printing functions take the text that follows, so that texts are built from the end.

  function Commas(xs: seq<Atom>, rest: Text): Text
  {
    if xs == [] then rest
    else if |xs| == 1 then [Piece(xs[0])] + rest
    else [Piece(xs[0]), COMMA] + Commas(xs[1..], rest)
  }

  function Clause(word: Token, e: Option<Atom>, rest: Text): Text
  {
    if e.Some? then [word, Piece(e.value)] + rest else rest
  }

  function PrintConstraint(c: Constraint, rest: Text): Text
  {
    match c
    case On(e) => [ON, Piece(e)] + rest
    case Using(columns) => [USING, OPEN] + Commas(columns, [CLOSE] + rest)
    case Natural => rest
    case NoConstraint => rest
  }

  function PrintGroup(g: GroupBy, rest: Text): Text
  {
    match g
    case Groups(exprs) => if exprs == [] then rest else [GROUP_BY] + Commas(exprs, rest)
    case GroupAll => [GROUP_BY_ALL] + rest
  }

  function PrintOrder(o: OrderBy, rest: Text): Text
  {
    if o.OrderBy? && o.keys != [] then [ORDER_BY] + Commas(o.keys, rest) else rest
  }

  function PrintLimits(l: Limits, rest: Text): Text
  {
    if l.LimitOffset? then Clause(LIMIT, l.limit, Clause(OFFSET, l.offset, rest)) else rest
  }

  /** What follows the FROM clause. */
  function PrintTail(q: Query, rest: Text): Text
  {
    Clause(WHERE, q.filter,
           PrintGroup(q.group, Clause(HAVING, q.having, PrintOrder(q.order, PrintLimits(q.limits, rest)))))
  }

  function PrintFactor(f: Factor, rest: Text): Text
  {
    match f
    case Table(text) => [TableText(text)] + rest
    case Derived(query, alias, _) =>
      [OPEN] + Print(query, [CLOSE] + (if alias.Some? then [AsAlias(alias.value)] + rest else rest))
  }

  function PrintJoin(j: JoinClause, rest: Text): Text
  {
    [JOIN(j.op)] + PrintFactor(j.relation, PrintConstraint(j.constraint, rest))
  }

  function PrintJoins(js: seq<JoinClause>, rest: Text): Text
  {
    if js == [] then rest else PrintJoin(js[0], PrintJoins(js[1..], rest))
  }

  function PrintFrom(item: FromItem, rest: Text): Text { PrintFactor(item.relation, PrintJoins(item.joins, rest)) }

  /** The text of a query in normal form, followed by `rest`. */
  function Print(q: Query, rest: Text): Text
  {
    var tail := PrintTail(q, rest);
    [SELECT] + Commas(q.items, [FROM] + (if q.from == [] then tail else PrintFrom(q.from[0], tail)))
  }

  // ---------------------------------------------------------------------------
  // Parsing
  // ---------------------------------------------------------------------------

  predicate Starts(ts: Text, t: Token) { ts != [] && ts[0] == t }

  function ParseCommas(ts: Text): (r: Option<(seq<Atom>, Text)>)
    ensures r.Some? ==> |r.value.1| < |ts|
  {
    if ts == [] || !ts[0].Piece? then None
    else if Starts(ts[1..], COMMA) then
      var more := ParseCommas(ts[2..]);
      if more.None? then None else Some(([ts[0].atom] + more.value.0, more.value.1))
    else Some(([ts[0].atom], ts[1..]))
  }

  function ParseClause(word: Token, ts: Text): (r: (Option<Atom>, Text))
    ensures |r.1| <= |ts|
  {
    if Starts(ts, word) && |ts| > 1 && ts[1].Piece? then (Some(ts[1].atom), ts[2..]) else (None, ts)
  }

  function ParseConstraint(ts: Text): (r: Option<(Constraint, Text)>)
    ensures r.Some? ==> |r.value.1| <= |ts|
  {
    if Starts(ts, ON) then
      if |ts| > 1 && ts[1].Piece? then Some((On(ts[1].atom), ts[2..])) else None
    else if Starts(ts, USING) then
      if !Starts(ts[1..], OPEN) then None
      else if Starts(ts[2..], CLOSE) then Some((Using([]), ts[3..]))
      else
        var columns := ParseCommas(ts[2..]);
        if columns.None? || !Starts(columns.value.1, CLOSE) then None
        else Some((Using(columns.value.0), columns.value.1[1..]))
    else Some((NoConstraint, ts))
  }

  function ParseGroup(ts: Text): (r: Option<(GroupBy, Text)>)
    ensures r.Some? ==> |r.value.1| <= |ts|
  {
    if Starts(ts, GROUP_BY_ALL) then Some((GroupAll, ts[1..]))
    else if Starts(ts, GROUP_BY) then
      var exprs := ParseCommas(ts[1..]);
      if exprs.None? then None else Some((Groups(exprs.value.0), exprs.value.1))
    else Some((Groups([]), ts))
  }

  function ParseOrder(ts: Text): (r: Option<(OrderBy, Text)>)
    ensures r.Some? ==> |r.value.1| <= |ts|
  {
    if Starts(ts, ORDER_BY) then
      var keys := ParseCommas(ts[1..]);
      if keys.None? then None else Some((OrderBy(keys.value.0), keys.value.1))
    else Some((Unordered, ts))
  }

  function ParseLimits(ts: Text): (r: (Limits, Text))
    ensures |r.1| <= |ts|
  {
    var (limit, r1) := ParseClause(LIMIT, ts);
    var (offset, r2) := ParseClause(OFFSET, r1);
    (if limit.None? && offset.None? then NoLimits else LimitOffset(limit, offset), r2)
  }

  function ParseTail(items: seq<Atom>, item: FromItem, ts: Text): (r: Option<(Query, Text)>)
    ensures r.Some? ==> |r.value.1| <= |ts|
  {
    var (filter, r1) := ParseClause(WHERE, ts);
    var group := ParseGroup(r1);
    if group.None? then None
    else
      var (having, r2) := ParseClause(HAVING, group.value.1);
      var order := ParseOrder(r2);
      if order.None? then None
      else
        var (limits, r3) := ParseLimits(order.value.1);
        var q := Query(false, items, [item], filter, group.value.0, having, order.value.0, limits, None, None, [], []);
        Some((q, r3))
  }

  function ParseAlias(q: Query, ts: Text): (r: Option<(Factor, Text)>)
    ensures r.Some? ==> |r.value.1| < |ts|
  {
    if !Starts(ts, CLOSE) then None
    else if |ts| > 1 && ts[1].AsAlias? then Some((Derived(q, Some(ts[1].name), false), ts[2..]))
    else Some((Derived(q, None, false), ts[1..]))
  }

  function ParseFactor(ts: Text): (r: Option<(Factor, Text)>)
    ensures r.Some? ==> |r.value.1| < |ts|
    decreases |ts|, 0
  {
    if ts == [] then None
    else if ts[0].TableText? then Some((Table(ts[0].text), ts[1..]))
    else if ts[0] == OPEN then
      var inner := ParseQuery(ts[1..]);
      if inner.None? then None else ParseAlias(inner.value.0, inner.value.1)
    else None
  }

  function ParseJoins(ts: Text): (r: Option<(seq<JoinClause>, Text)>)
    ensures r.Some? ==> |r.value.1| <= |ts|
    decreases |ts|, 0
  {
    if ts == [] || !ts[0].JOIN? then Some(([], ts))
    else
      var f := ParseFactor(ts[1..]);
      if f.None? then None
      else
        var c := ParseConstraint(f.value.1);
        if c.None? then None
        else
          var more := ParseJoins(c.value.1);
          if more.None? then None
          else Some(([JoinClause(ts[0].op, f.value.0, c.value.0, false)] + more.value.0, more.value.1))
  }

  function ParseQuery(ts: Text): (r: Option<(Query, Text)>)
    ensures r.Some? ==> |r.value.1| < |ts|
    decreases |ts|, 1
  {
    if !Starts(ts, SELECT) then None
    else
      var items := ParseCommas(ts[1..]);
      if items.None? || !Starts(items.value.1, FROM) then None
      else
        var f := ParseFactor(items.value.1[1..]);
        if f.None? then None
        else
          var joins := ParseJoins(f.value.1);
          if joins.None? then None
          else ParseTail(items.value.0, FromItem(f.value.0, joins.value.0), joins.value.1)
  }

  // ---------------------------------------------------------------------------
  // The parser undoes the printer
  // ---------------------------------------------------------------------------

  predicate Grouped(g: GroupBy) { g.GroupAll? || g.exprs != [] }

  predicate Aggregated(q: Query) { Grouped(q.group) || exists i :: 0 <= i < |q.items| && q.items[i].aggregate }

  /**
   The queries that the generator writes: one FROM item, derived tables with an alias and without LATERAL, joins
   spelled the short way and without GLOBAL or a match condition, no DISTINCT, NATURAL, FETCH, ORDER BY ALL,
   QUALIFY, WINDOW or other clause, and HAVING only with an aggregation.
   */
  predicate Normal(q: Query)
  {
    && !q.distinct && q.items != [] && |q.from| == 1 && NormalItem(q.from[0])
    && (q.having.Some? ==> Aggregated(q))
    && (q.order.OrderBy? ==> q.order.keys != []) && !q.order.OrderAll?
    && (q.limits.LimitOffset? ==> q.limits.limit.Some? || q.limits.offset.Some?) && !q.limits.OffsetComma?
    && q.fetch.None? && q.qualify.None? && q.windows == [] && q.others == []
  }

  predicate NormalItem(item: FromItem) { NormalFactor(item.relation) && NormalJoins(item.joins) }

  predicate NormalFactor(f: Factor) { f.Derived? ==> Normal(f.query) && f.alias.Some? && !f.lateral }

  predicate NormalJoin(j: JoinClause)
  {
    NormalFactor(j.relation) && !j.constraint.Natural? && Word(j.op) == j.op && !j.global
  }

  predicate NormalJoins(js: seq<JoinClause>) { js == [] || (NormalJoin(js[0]) && NormalJoins(js[1..])) }

  /** What may follow a query: nothing, or the parenthesis that encloses it. */
  predicate Ends(rest: Text) { rest == [] || rest[0] == CLOSE }

  lemma {:induction false} CommasBack(xs: seq<Atom>, rest: Text)
    requires xs != [] && !Starts(rest, COMMA)
    ensures ParseCommas(Commas(xs, rest)) == Some((xs, rest))
  {
    var ts := Commas(xs, rest);
    if |xs| == 1 {
      assert ts[1..] == rest && [xs[0]] == xs;
    } else {
      assert ts[2..] == Commas(xs[1..], rest) && ts[1] == COMMA;
      CommasBack(xs[1..], rest);
      assert [xs[0]] + xs[1..] == xs;
    }
  }

  lemma ClauseBack(word: Token, e: Option<Atom>, rest: Text)
    requires !Starts(rest, word)
    ensures ParseClause(word, Clause(word, e, rest)) == (e, rest)
  {
    if e.Some? {
      assert Clause(word, e, rest)[2..] == rest;
    }
  }

  lemma ConstraintBack(c: Constraint, rest: Text)
    requires !c.Natural? && !Starts(rest, ON) && !Starts(rest, USING)
    ensures ParseConstraint(PrintConstraint(c, rest)) == Some((c, rest))
  {
    var ts := PrintConstraint(c, rest);
    match c
    case On(e) => assert ts[2..] == rest;
    case Using(columns) => UsingBack(columns, rest);
    case NoConstraint =>
  }

  lemma UsingBack(columns: seq<Atom>, rest: Text)
    ensures ParseConstraint(PrintConstraint(Using(columns), rest)) == Some((Using(columns), rest))
  {
    var ts, r := PrintConstraint(Using(columns), rest), [CLOSE] + rest;
    var list := Commas(columns, r);
    assert ts == [USING, OPEN] + list && ts[1..] == [OPEN] + list && ts[2..] == list;
    assert r[1..] == rest;
    if columns == [] {
      assert ts[3..] == list[1..];
    } else {
      CommasBack(columns, r);
    }
  }

  lemma GroupBack(g: GroupBy, rest: Text)
    requires !Starts(rest, GROUP_BY) && !Starts(rest, GROUP_BY_ALL) && !Starts(rest, COMMA)
    ensures ParseGroup(PrintGroup(g, rest)) == Some((g, rest))
  {
    var ts := PrintGroup(g, rest);
    if g.GroupAll? {
      assert ts[1..] == rest;
    } else if g.exprs != [] {
      assert ts[1..] == Commas(g.exprs, rest);
      CommasBack(g.exprs, rest);
    }
  }

  lemma OrderBack(o: OrderBy, rest: Text)
    requires !o.OrderAll? && (o.OrderBy? ==> o.keys != []) && !Starts(rest, ORDER_BY) && !Starts(rest, COMMA)
    ensures ParseOrder(PrintOrder(o, rest)) == Some((o, rest))
  {
    if o.OrderBy? {
      assert PrintOrder(o, rest)[1..] == Commas(o.keys, rest);
      CommasBack(o.keys, rest);
    }
  }

  lemma LimitsBack(l: Limits, rest: Text)
    requires !l.OffsetComma? && (l.LimitOffset? ==> l.limit.Some? || l.offset.Some?) && Ends(rest)
    ensures ParseLimits(PrintLimits(l, rest)) == (l, rest)
  {
    if l.LimitOffset? {
      ClauseBack(LIMIT, l.limit, Clause(OFFSET, l.offset, rest));
      ClauseBack(OFFSET, l.offset, rest);
    }
  }

  lemma TailBack(q: Query, rest: Text)
    requires Normal(q) && Ends(rest)
    ensures ParseTail(q.items, q.from[0], PrintTail(q, rest)) == Some((q, rest))
  {
    var r4 := PrintLimits(q.limits, rest);
    var r3 := PrintOrder(q.order, r4);
    var r2 := Clause(HAVING, q.having, r3);
    var r1 := PrintGroup(q.group, r2);
    TailOrder(q, rest, r4, r3, r2, r1);
    ClauseBack(WHERE, q.filter, r1);
    GroupBack(q.group, r2);
    ClauseBack(HAVING, q.having, r3);
    OrderBack(q.order, r4);
    LimitsBack(q.limits, rest);
    assert [q.from[0]] == q.from;
  }

  /** No clause of the tail can be taken for an earlier one. */
  lemma TailOrder(q: Query, rest: Text, r4: Text, r3: Text, r2: Text, r1: Text)
    requires Ends(rest) && r4 == PrintLimits(q.limits, rest) && r3 == PrintOrder(q.order, r4)
    requires r2 == Clause(HAVING, q.having, r3) && r1 == PrintGroup(q.group, r2)
    ensures !Starts(r4, ORDER_BY) && !Starts(r4, COMMA) && !Starts(r3, HAVING)
    ensures !Starts(r2, GROUP_BY) && !Starts(r2, GROUP_BY_ALL) && !Starts(r2, COMMA) && !Starts(r1, WHERE)
  {
  }

  /** What may follow a FROM clause. */
  predicate AfterFrom(rest: Text)
  {
    rest == [] || (!rest[0].JOIN? && rest[0] != ON && rest[0] != USING && !rest[0].AsAlias?)
  }

  lemma TailIsAfterFrom(q: Query, rest: Text)
    requires Ends(rest)
    ensures AfterFrom(PrintTail(q, rest))
  {
  }

  lemma AliasBack(q: Query, alias: string, rest: Text)
    ensures ParseAlias(q, [CLOSE] + ([AsAlias(alias)] + rest)) == Some((Derived(q, Some(alias), false), rest))
  {
    var ts := [CLOSE] + ([AsAlias(alias)] + rest);
    assert ts[1] == AsAlias(alias) && ts[2..] == rest;
  }

  lemma DerivedBack(q: Query, inner: Text, r: Text, f: Factor, rest: Text)
    requires ParseQuery(inner) == Some((q, r)) && ParseAlias(q, r) == Some((f, rest))
    ensures ParseFactor([OPEN] + inner) == Some((f, rest))
  {
    assert ([OPEN] + inner)[1..] == inner;
  }

  lemma {:induction false} FactorBack(f: Factor, rest: Text)
    requires NormalFactor(f) && (rest == [] || !rest[0].AsAlias?)
    ensures ParseFactor(PrintFactor(f, rest)) == Some((f, rest))
    decreases f, 0
  {
    match f
    case Table(_) => assert PrintFactor(f, rest)[1..] == rest;
    case Derived(q, alias, _) =>
      var r := [CLOSE] + ([AsAlias(alias.value)] + rest);
      QueryBack(q, r);
      AliasBack(q, alias.value, rest);
      DerivedBack(q, Print(q, r), r, f, rest);
  }

  lemma JoinsFirst(js: seq<JoinClause>, rest: Text)
    ensures js == [] ==> PrintJoins(js, rest) == rest
    ensures js != [] ==> PrintJoins(js, rest) != [] && PrintJoins(js, rest)[0].JOIN?
  {
  }

  lemma ParseJoinsStep(j: JoinClause, js: seq<JoinClause>, factor: Text, constraint: Text, more: Text, rest: Text)
    requires !j.global && ParseFactor(factor) == Some((j.relation, constraint))
    requires ParseConstraint(constraint) == Some((j.constraint, more)) && ParseJoins(more) == Some((js, rest))
    ensures ParseJoins([JOIN(j.op)] + factor) == Some(([j] + js, rest))
  {
    assert ([JOIN(j.op)] + factor)[1..] == factor;
  }

  lemma {:induction false} JoinsBack(js: seq<JoinClause>, rest: Text)
    requires NormalJoins(js) && AfterFrom(rest)
    ensures ParseJoins(PrintJoins(js, rest)) == Some((js, rest))
    decreases js, 0
  {
    if js != [] {
      var j, more := js[0], PrintJoins(js[1..], rest);
      var constraint := PrintConstraint(j.constraint, more);
      JoinsFirst(js[1..], rest);
      JoinBack(j, more);
      JoinsBack(js[1..], rest);
      ParseJoinsStep(j, js[1..], PrintFactor(j.relation, constraint), constraint, more, rest);
      assert [j] + js[1..] == js;
    }
  }

  lemma {:induction false} JoinBack(j: JoinClause, more: Text)
    requires NormalJoin(j) && (more == [] || (more[0] != ON && more[0] != USING && !more[0].AsAlias?))
    ensures var r := PrintConstraint(j.constraint, more);
            && ParseFactor(PrintFactor(j.relation, r)) == Some((j.relation, r))
            && ParseConstraint(r) == Some((j.constraint, more))
    decreases j, 0
  {
    FactorBack(j.relation, PrintConstraint(j.constraint, more));
    ConstraintBack(j.constraint, more);
  }

  lemma {:induction false} ItemBack(item: FromItem, rest: Text)
    requires NormalItem(item) && AfterFrom(rest)
    ensures var r := PrintJoins(item.joins, rest);
            && ParseFactor(PrintFactor(item.relation, r)) == Some((item.relation, r))
            && ParseJoins(r) == Some((item.joins, rest))
    decreases item, 0
  {
    var r := PrintJoins(item.joins, rest);
    JoinsFirst(item.joins, rest);
    FactorBack(item.relation, r);
    JoinsBack(item.joins, rest);
  }

  /** Parsing the text of a query in normal form gives the query back, however deeply it is nested. */
  lemma {:induction false} QueryBack(q: Query, rest: Text)
    requires Normal(q) && Ends(rest)
    ensures ParseQuery(Print(q, rest)) == Some((q, rest))
    decreases q, 0
  {
    var item, tail := q.from[0], PrintTail(q, rest);
    var from := PrintFrom(item, tail);
    var r := [FROM] + from;
    CommasBack(q.items, r);
    TailIsAfterFrom(q, rest);
    ItemBack(item, tail);
    TailBack(q, rest);
    ParseQueryStep(q.items, item, Commas(q.items, r), from, PrintJoins(item.joins, tail), tail, Some((q, rest)));
  }

  lemma ParseQueryStep(items: seq<Atom>, item: FromItem, list: Text, from: Text, joins: Text, tail: Text,
                       r: Option<(Query, Text)>)
    requires ParseCommas(list) == Some((items, [FROM] + from)) && ParseFactor(from) == Some((item.relation, joins))
    requires ParseJoins(joins) == Some((item.joins, tail)) && ParseTail(items, item, tail) == r
    ensures ParseQuery([SELECT] + list) == r
  {
    assert ([SELECT] + list)[1..] == list && ([FROM] + from)[1..] == from;
    assert FromItem(item.relation, item.joins) == item;
  }
}
