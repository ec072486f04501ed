/**
 The conditions under which plans and rewritten queries keep their rows cannot be weakened.  In the free meaning,
 whose rows are the terms that describe how they came about, every clause that is lost shows.
 */
module PlanMeaningExact {
  import opened Common
  import opened QueryText
  import opened PlanRoundTrip
  import opened PlanMeaning

  datatype Term =
    | TableTerm(text: string)
    | RenamedTerm(alias: Option<string>, lateral: bool, rows: seq<Term>)
    | JoinTerm(op: JoinOp, constraint: Constraint, global: bool, left: seq<Term>, right: seq<Term>)
    | FilterTerm(condition: Atom, rows: seq<Term>)
    | ProjectTerm(items: seq<Atom>, windows: seq<Atom>, rows: seq<Term>)
    | WindowTerm(items: seq<Atom>, windows: seq<Atom>, rows: seq<Term>)
    | AggregateTerm(group: GroupBy, items: seq<Atom>, windows: seq<Atom>, having: Option<Atom>, rows: seq<Term>)
    | QualifyTerm(condition: Atom, rows: seq<Term>)
    | DistinctTerm(rows: seq<Term>)
    | SortTerm(keys: seq<Atom>, rows: seq<Term>)
    | SortAllTerm(rows: seq<Term>)
    | OtherTerm(clauses: seq<Atom>, rows: seq<Term>)

  /** Enough rows for one OFFSET and one LIMIT to leave some. */
  function Copies(t: Term): seq<Term> { [t, t, t, t] }

  /** The free meaning, in which the atom `f` counts one and every other atom two. */
  function Free(f: Atom): Sense<Term>
  {
    Sense(text => Copies(TableTerm(text)),
          (alias, lateral, rows) => Copies(RenamedTerm(alias, lateral, rows)),
          (op, constraint, global, left, right) => Copies(JoinTerm(Short(op), constraint, global, left, right)),
          (condition, rows) => Copies(FilterTerm(condition, rows)),
          (items, windows, rows) => Copies(ProjectTerm(items, windows, rows)),
          (items, windows, rows) => Copies(WindowTerm(items, windows, rows)),
          (group, items, windows, having, rows) => Copies(AggregateTerm(group, items, windows, having, rows)),
          (condition, rows) => Copies(QualifyTerm(condition, rows)),
          rows => Copies(DistinctTerm(rows)),
          (keys, rows) => Copies(SortTerm(keys, rows)),
          rows => Copies(SortAllTerm(rows)),
          (clauses, rows) => Copies(OtherTerm(clauses, rows)),
          a => if a == f then 1 else 2)
  }

  lemma FreeSynonyms(f: Atom)
    ensures Synonyms(Free(f))
  {
  }

  lemma CopiesEqual(a: Term, b: Term)
    requires Copies(a) == Copies(b)
    ensures a == b
  {
    assert Copies(a)[0] == Copies(b)[0];
  }

  // ---------------------------------------------------------------------------
  // Limits
  // ---------------------------------------------------------------------------

  /** The limit that is seen when `f` counts one. */
  predicate OneLimitFor(q: Query, f: Atom) { q.fetch == Some(f) ==> OneLimit(q) }

  /** The rows that the Limit node of the plan, or the limits of the normal form, keep. */
  function PlanCut<R>(m: Sense<R>, q: Query, rows: seq<R>): seq<R>
  {
    var limits := LimitsOf(q);
    LimitRows(m, LimitOffset(limits.0, limits.1), rows)
  }

  lemma PlanCutRows<R>(m: Sense<R>, q: Query, plan: Plan, rows: seq<R>)
    ensures PlanRows(m, LimitPlan(q, plan)) == PlanCut(m, q, PlanRows(m, plan))
    ensures CutRows(m, Normalize(q), rows) == PlanCut(m, q, rows)
  {
  }

  /** Limits leave the rows as they are and lose not all of them. */
  lemma LimitCopies(f: Atom, limits: Limits, t: Term)
    ensures var rows := LimitRows(Free(f), limits, Copies(t)); |rows| > 0 && rows[0] == t
  {
    match limits
    case NoLimits =>
    case LimitOffset(limit, offset) =>
      var rest := if offset.Some? then Skip(Copies(t), Free(f).count(offset.value)) else Copies(t);
      assert |rest| > 1 && rest[0] == t;
    case OffsetComma(skip, count) =>
  }

  lemma CutCopies(f: Atom, q: Query, t: Term)
    ensures var rows := CutRows(Free(f), q, Copies(t)); |rows| > 0 && rows[0] == t
    ensures var rows := PlanCut(Free(f), q, Copies(t)); |rows| > 0 && rows[0] == t
  {
    var limits := LimitsOf(q);
    LimitCopies(f, q.limits, t);
    LimitCopies(f, LimitOffset(limits.0, limits.1), t);
  }

  lemma CutLengths(f: Atom, q: Query, t: Term)
    requires CutRows(Free(f), q, Copies(t)) == PlanCut(Free(f), q, Copies(t))
    ensures OneLimitFor(q, f)
  {
  }

  lemma CutExact(f: Atom, q: Query, x: Term, y: Term)
    requires CutRows(Free(f), q, Copies(x)) == PlanCut(Free(f), q, Copies(y))
    ensures x == y && OneLimitFor(q, f)
  {
    CutCopies(f, q, x);
    CutCopies(f, q, y);
    CutLengths(f, q, x);
  }

  // ---------------------------------------------------------------------------
  // The clauses of a block
  // ---------------------------------------------------------------------------

  function Kept(q: Query, from: seq<Term>): seq<Term>
  {
    if q.filter.Some? then Copies(FilterTerm(q.filter.value, from)) else from
  }

  lemma KeptEqual(q: Query, a: seq<Term>, b: seq<Term>)
    requires Kept(q, a) == Kept(q, b)
    ensures a == b
  {
    if q.filter.Some? {
      CopiesEqual(FilterTerm(q.filter.value, a), FilterTerm(q.filter.value, b));
    }
  }

  function Items(q: Query): seq<Atom> { if q.items == [] then [STAR] else q.items }

  /** The term of a block before the sorting. */
  function Treated(q: Query, from: seq<Term>): Term
  {
    var selected := if Aggregated(q) || q.having.Some?
                    then AggregateTerm(q.group, Items(q), q.windows, q.having, Kept(q, from))
                    else if Windowed(q) then WindowTerm(Items(q), q.windows, Kept(q, from))
                    else ProjectTerm(Items(q), q.windows, Kept(q, from));
    var qualified := if q.qualify.Some? then QualifyTerm(q.qualify.value, Copies(selected)) else selected;
    var unique := if q.distinct then DistinctTerm(Copies(qualified)) else qualified;
    if q.others == [] then unique else OtherTerm(q.others, Copies(unique))
  }

  function Ordered(order: OrderBy, t: Term): Term
  {
    match order
    case Unordered => t
    case OrderBy(keys) => if keys == [] then t else SortTerm(keys, Copies(t))
    case OrderAll => SortAllTerm(Copies(t))
  }

  lemma BlockTerm(f: Atom, q: Query, from: seq<Term>)
    ensures BlockRows(Free(f), q, from) == Copies(Ordered(q.order, Treated(q, from)))
  {
  }

  /** The term of the nodes that select, in the plan and in the normal form. */
  function Plainly(q: Query, from: seq<Term>): Term
  {
    if Aggregated(q) then AggregateTerm(q.group, Items(q), [], q.having, Kept(q, from))
    else if Windowed(q) then WindowTerm(Items(q), [], Kept(q, from))
    else ProjectTerm(Items(q), [], Kept(q, from))
  }

  lemma NodeTerm(f: Atom, q: Query, from: seq<Term>)
    ensures NodeRows(Free(f), q, from)
            == Copies(if q.order.OrderAll? then SortTerm([], Copies(Plainly(q, from)))
                      else Ordered(q.order, Plainly(q, from)))
  {
  }

  lemma NormalTerm(f: Atom, q: Query, from: seq<Term>)
    ensures BlockRows(Free(f), Normalize(q), from)
            == Copies(if q.order.OrderAll? then Plainly(q, from) else Ordered(q.order, Plainly(q, from)))
  {
    BlockTerm(f, Normalize(q), from);
    assert !STAR.aggregate && !STAR.window;
    assert Items(Normalize(q)) == Items(q) && Kept(Normalize(q), from) == Kept(q, from);
    assert Aggregated(Normalize(q)) == Aggregated(q) && Windowed(Normalize(q)) == Windowed(q);
  }

  lemma TreatedExact(q: Query, a: seq<Term>, b: seq<Term>)
    requires Treated(q, a) == Plainly(q, b)
    ensures a == b && !q.distinct && q.qualify.None? && q.windows == [] && q.others == []
    ensures q.having.Some? ==> Aggregated(q)
  {
    KeptEqual(q, a, b);
  }

  lemma BlockExact(q: Query, a: seq<Term>, b: seq<Term>)
    requires Ordered(q.order, Treated(q, a))
             == (if q.order.OrderAll? then SortTerm([], Copies(Plainly(q, b))) else Ordered(q.order, Plainly(q, b)))
          || Ordered(q.order, Treated(q, a))
             == (if q.order.OrderAll? then Plainly(q, b) else Ordered(q.order, Plainly(q, b)))
    ensures a == b && HeldBlock(q)
  {
    if q.order.OrderBy? && q.order.keys != [] {
      CopiesEqual(Treated(q, a), Plainly(q, b));
    }
    TreatedExact(q, a, b);
  }

  // ---------------------------------------------------------------------------
  // Plans
  // ---------------------------------------------------------------------------

  /** `Held` with the limits as they are seen when `f` counts one. */
  predicate HeldFor(q: Query, f: Atom) { HeldBlock(q) && OneLimitFor(q, f) && HeldItemsFor(q.from, f) }

  predicate HeldItemsFor(items: seq<FromItem>, f: Atom)
  {
    items == [] || (HeldItemFor(items[0], f) && HeldItemsFor(items[1..], f))
  }

  predicate HeldItemFor(item: FromItem, f: Atom) { HeldFactorFor(item.relation, f) && HeldJoinsFor(item.joins, f) }

  predicate HeldJoinsFor(js: seq<JoinClause>, f: Atom)
  {
    js == [] || (HeldJoinFor(js[0], f) && HeldJoinsFor(js[1..], f))
  }

  predicate HeldJoinFor(j: JoinClause, f: Atom) { !j.global && HeldFactorFor(j.relation, f) }

  predicate HeldFactorFor(t: Factor, f: Atom) { t.Derived? ==> !t.lateral && HeldFor(t.query, f) }

  lemma {:induction false} FactorHeld(t: Factor, f: Atom)
    requires FactorPlan(t).Ok? && PlanRows(Free(f), FactorPlan(t).value) == FactorRows(Free(f), t)
    ensures HeldFactorFor(t, f)
    decreases t, 0
  {
    if t.Derived? {
      var plan := QueryPlan(t.query).value;
      assert FactorPlan(t).value == SubqueryScan(plan, t.alias.value);
      CopiesEqual(RenamedTerm(t.alias, false, PlanRows(Free(f), plan)),
                  RenamedTerm(t.alias, t.lateral, Rows(Free(f), t.query)));
      QueryHeld(t.query, f);
    }
  }

  lemma {:induction false} JoinHeld(plan: Plan, left: seq<Term>, j: JoinClause, f: Atom)
    requires JoinPlan(plan, j).Ok? && PlanRows(Free(f), JoinPlan(plan, j).value) == JoinRows(Free(f), left, j)
    ensures PlanRows(Free(f), plan) == left && HeldJoinFor(j, f)
    decreases j, 0
  {
    var right := FactorPlan(j.relation).value;
    CopiesEqual(JoinTerm(Short(j.op), j.constraint, false, PlanRows(Free(f), plan), PlanRows(Free(f), right)),
                JoinTerm(Short(j.op), j.constraint, j.global, left, FactorRows(Free(f), j.relation)));
    FactorHeld(j.relation, f);
  }

  lemma {:induction false} JoinsHeld(plan: Plan, left: seq<Term>, js: seq<JoinClause>, f: Atom)
    requires JoinsPlan(plan, js).Ok? && PlanRows(Free(f), JoinsPlan(plan, js).value) == JoinsRows(Free(f), left, js)
    ensures PlanRows(Free(f), plan) == left && HeldJoinsFor(js, f)
    decreases js, 0
  {
    if js != [] {
      JoinsHeld(JoinPlan(plan, js[0]).value, JoinRows(Free(f), left, js[0]), js[1..], f);
      JoinHeld(plan, left, js[0], f);
    }
  }

  lemma {:induction false} ItemHeld(item: FromItem, f: Atom)
    requires ItemPlan(item).Ok? && PlanRows(Free(f), ItemPlan(item).value) == ItemRows(Free(f), item)
    ensures HeldItemFor(item, f)
    decreases item, 0
  {
    JoinsHeld(FactorPlan(item.relation).value, FactorRows(Free(f), item.relation), item.joins, f);
    FactorHeld(item.relation, f);
  }

  lemma {:induction false} MoreHeld(plan: Plan, left: seq<Term>, items: seq<FromItem>, f: Atom)
    requires MorePlan(plan, items).Ok?
    requires PlanRows(Free(f), MorePlan(plan, items).value) == MoreRows(Free(f), left, items)
    ensures PlanRows(Free(f), plan) == left && HeldItemsFor(items, f)
    decreases items, 0
  {
    if items != [] {
      var right, rows := ItemPlan(items[0]).value, ItemRows(Free(f), items[0]);
      var crossed := Free(f).join(Cross, NoConstraint, false, left, rows);
      MoreHeld(Join(plan, right, Cross, NoConstraint), crossed, items[1..], f);
      CopiesEqual(JoinTerm(Cross, NoConstraint, false, PlanRows(Free(f), plan), PlanRows(Free(f), right)),
                  JoinTerm(Cross, NoConstraint, false, left, rows));
      ItemHeld(items[0], f);
    }
  }

  lemma {:induction false} FromHeld(from: seq<FromItem>, f: Atom)
    requires FromPlan(from).Ok? && PlanRows(Free(f), FromPlan(from).value) == FromRows(Free(f), from)
    ensures HeldItemsFor(from, f)
    decreases from, 0
  {
    MoreHeld(ItemPlan(from[0]).value, ItemRows(Free(f), from[0]), from[1..], f);
    ItemHeld(from[0], f);
  }

  lemma {:induction false} QueryHeld(q: Query, f: Atom)
    requires QueryPlan(q).Ok? && PlanRows(Free(f), QueryPlan(q).value) == Rows(Free(f), q)
    ensures HeldFor(q, f)
    decreases q, 0
  {
    var m, from := Free(f), FromPlan(q.from).value;
    var a, b := FromRows(m, q.from), PlanRows(m, from);
    PlanCutRows(m, q, SortPlan(q, SelectPlan(q, from)), []);
    SortNodes(m, q, from);
    BlockTerm(f, q, a);
    NodeTerm(f, q, b);
    var x := Ordered(q.order, Treated(q, a));
    var y := if q.order.OrderAll? then SortTerm([], Copies(Plainly(q, b))) else Ordered(q.order, Plainly(q, b));
    CutExact(f, q, x, y);
    BlockExact(q, a, b);
    FromHeld(q.from, f);
  }

  // ---------------------------------------------------------------------------
  // Held in the free meanings is held
  // ---------------------------------------------------------------------------

  lemma {:induction false} FactorAllHeld(t: Factor)
    requires forall f :: HeldFactorFor(t, f)
    ensures HeldFactor(t)
    decreases t, 0
  {
    if t.Derived? {
      assert HeldFactorFor(t, STAR);
      forall f ensures HeldFor(t.query, f) {
        assert HeldFactorFor(t, f);
      }
      AllHeld(t.query);
    }
  }

  lemma {:induction false} JoinAllHeld(j: JoinClause)
    requires forall f :: HeldJoinFor(j, f)
    ensures HeldJoin(j)
    decreases j, 0
  {
    assert HeldJoinFor(j, STAR);
    forall f ensures HeldFactorFor(j.relation, f) {
      assert HeldJoinFor(j, f);
    }
    FactorAllHeld(j.relation);
  }

  lemma {:induction false} JoinsAllHeld(js: seq<JoinClause>)
    requires forall f :: HeldJoinsFor(js, f)
    ensures HeldJoins(js)
    decreases js, 0
  {
    if js != [] {
      forall f ensures HeldJoinFor(js[0], f) && HeldJoinsFor(js[1..], f) {
        assert HeldJoinsFor(js, f);
      }
      JoinAllHeld(js[0]);
      JoinsAllHeld(js[1..]);
    }
  }

  lemma {:induction false} ItemAllHeld(item: FromItem)
    requires forall f :: HeldItemFor(item, f)
    ensures HeldItem(item)
    decreases item, 0
  {
    forall f ensures HeldFactorFor(item.relation, f) && HeldJoinsFor(item.joins, f) {
      assert HeldItemFor(item, f);
    }
    FactorAllHeld(item.relation);
    JoinsAllHeld(item.joins);
  }

  lemma {:induction false} ItemsAllHeld(items: seq<FromItem>)
    requires forall f :: HeldItemsFor(items, f)
    ensures HeldItems(items)
    decreases items, 0
  {
    if items != [] {
      forall f ensures HeldItemFor(items[0], f) && HeldItemsFor(items[1..], f) {
        assert HeldItemsFor(items, f);
      }
      ItemAllHeld(items[0]);
      ItemsAllHeld(items[1..]);
    }
  }

  lemma {:induction false} AllHeld(q: Query)
    requires forall f :: HeldFor(q, f)
    ensures Held(q)
    decreases q, 0
  {
    assert HeldFor(q, if q.fetch.Some? then q.fetch.value else STAR);
    forall f ensures HeldItemsFor(q.from, f) {
      assert HeldFor(q, f);
    }
    ItemsAllHeld(q.from);
  }

  /** The plan has the rows of the query, whatever tables, joins and clauses mean. */
  ghost predicate PlanFaithful(q: Query)
    requires QueryPlan(q).Ok?
  {
    forall m: Sense<Term> :: PlanRows(m, QueryPlan(q).value) == Rows(m, q)
  }

  /** That is so exactly when the query holds none of the clauses that the builder passes over, at any depth. */
  lemma PlanKeepsRowsIff(q: Query)
    requires QueryPlan(q).Ok?
    ensures PlanFaithful(q) <==> Held(q)
  {
    if Held(q) {
      forall m: Sense<Term> ensures PlanRows(m, QueryPlan(q).value) == Rows(m, q) {
        PlanKeepsRows(m, q);
      }
    }
    if PlanFaithful(q) {
      forall f ensures HeldFor(q, f) {
        QueryHeld(q, f);
      }
      AllHeld(q);
    }
  }

  // ---------------------------------------------------------------------------
  // Rewritten queries
  // ---------------------------------------------------------------------------

  lemma {:induction false} FactorRewritten(t: Factor, f: Atom)
    requires BuildableFactor(t) && FactorRows(Free(f), NormalOfFactor(t)) == FactorRows(Free(f), t)
    ensures HeldFactorFor(t, f) && WritableFactor(t)
    decreases t, 0
  {
    if t.Derived? {
      CopiesEqual(RenamedTerm(t.alias, false, Rows(Free(f), Normalize(t.query))),
                  RenamedTerm(t.alias, t.lateral, Rows(Free(f), t.query)));
      QueryRewritten(t.query, f);
    }
  }

  lemma {:induction false} JoinRewritten(a: seq<Term>, b: seq<Term>, j: JoinClause, f: Atom)
    requires BuildableJoin(j) && JoinRows(Free(f), a, NormalOfJoin(j)) == JoinRows(Free(f), b, j)
    ensures a == b && HeldJoinFor(j, f) && WritableJoin(j)
    decreases j, 0
  {
    var n := NormalOfJoin(j);
    CopiesEqual(JoinTerm(Short(n.op), n.constraint, false, a, FactorRows(Free(f), n.relation)),
                JoinTerm(Short(j.op), j.constraint, j.global, b, FactorRows(Free(f), j.relation)));
    FactorRewritten(j.relation, f);
  }

  lemma {:induction false} JoinsRewritten(a: seq<Term>, b: seq<Term>, js: seq<JoinClause>, f: Atom)
    requires BuildableJoins(js) && JoinsRows(Free(f), a, NormalOfJoins(js)) == JoinsRows(Free(f), b, js)
    ensures a == b && HeldJoinsFor(js, f) && WritableJoins(js)
    decreases js, 0
  {
    if js != [] {
      assert NormalOfJoins(js)[1..] == NormalOfJoins(js[1..]);
      JoinsRewritten(JoinRows(Free(f), a, NormalOfJoin(js[0])), JoinRows(Free(f), b, js[0]), js[1..], f);
      JoinRewritten(a, b, js[0], f);
    }
  }

  /** What joins end in is a join. */
  lemma {:induction false} JoinsEnd(f: Atom, left: seq<Term>, js: seq<JoinClause>)
    requires js != []
    ensures var last := js[|js| - 1];
            JoinsRows(Free(f), left, js)
            == JoinRows(Free(f), JoinsRows(Free(f), left, js[..|js| - 1]), last)
  {
    var n := |js| - 1;
    assert js == js[..n] + [js[n]];
    JoinsRowsAppend(Free(f), left, js[..n], [js[n]]);
    assert [js[n]][1..] == [];
  }

  lemma FactorIsNoJoin(f: Atom, t: Factor, left: seq<Term>, js: seq<JoinClause>)
    requires js != []
    ensures FactorRows(Free(f), t) != JoinsRows(Free(f), left, js)
  {
    JoinsEnd(f, left, js);
    var last := js[|js| - 1];
    var join := JoinTerm(Short(last.op), last.constraint, last.global, JoinsRows(Free(f), left, js[..|js| - 1]),
                         FactorRows(Free(f), last.relation));
    assert JoinsRows(Free(f), left, js)[0] == join;
    match t
    case Table(text) => assert FactorRows(Free(f), t)[0] == TableTerm(text);
    case Derived(query, alias, lateral) =>
      assert FactorRows(Free(f), t)[0] == RenamedTerm(alias, lateral, Rows(Free(f), query));
  }

  /** A later FROM item with joins of its own does not come back in the same place. */
  lemma LaterItemIsPlain(f: Atom, a: seq<Term>, b: seq<Term>, item: FromItem)
    requires JoinsRows(Free(f), JoinRows(Free(f), a, CrossWith(item)), OwnJoins(item))
             == Free(f).join(Cross, NoConstraint, false, b, ItemRows(Free(f), item))
    ensures item.joins == []
  {
    if item.joins != [] {
      var own, start := OwnJoins(item), JoinRows(Free(f), a, CrossWith(item));
      var last, before := own[|own| - 1], JoinsRows(Free(f), start, own[..|own| - 1]);
      JoinsEnd(f, start, own);
      CopiesEqual(JoinTerm(Short(last.op), last.constraint, last.global, before, FactorRows(Free(f), last.relation)),
                  JoinTerm(Cross, NoConstraint, false, b, ItemRows(Free(f), item)));
      FactorIsNoJoin(f, last.relation, FactorRows(Free(f), item.relation), item.joins);
    }
  }

  lemma {:induction false} CrossRewritten(a: seq<Term>, b: seq<Term>, item: FromItem, f: Atom)
    requires BuildableItem(item)
    requires JoinsRows(Free(f), JoinRows(Free(f), a, CrossWith(item)), OwnJoins(item))
             == Free(f).join(Cross, NoConstraint, false, b, ItemRows(Free(f), item))
    ensures a == b && HeldItemFor(item, f) && WritableFactor(item.relation) && item.joins == []
    decreases item, 0
  {
    LaterItemIsPlain(f, a, b, item);
    CopiesEqual(JoinTerm(Cross, NoConstraint, false, a, FactorRows(Free(f), NormalOfFactor(item.relation))),
                JoinTerm(Cross, NoConstraint, false, b, ItemRows(Free(f), item)));
    FactorRewritten(item.relation, f);
  }

  lemma {:induction false} MoreRewritten(a: seq<Term>, b: seq<Term>, items: seq<FromItem>, f: Atom)
    requires BuildableItems(items) && JoinsRows(Free(f), a, NormalOfMore(items)) == MoreRows(Free(f), b, items)
    ensures a == b && HeldItemsFor(items, f) && WritableMore(items)
    decreases items, 0
  {
    if items != [] {
      var cross, own, more := CrossWith(items[0]), OwnJoins(items[0]), NormalOfMore(items[1..]);
      JoinsRowsAppend(Free(f), a, [cross] + own, more);
      JoinsRowsAppend(Free(f), a, [cross], own);
      assert [cross][1..] == [] && JoinsRows(Free(f), a, [cross]) == JoinRows(Free(f), a, cross);
      MoreRewritten(JoinsRows(Free(f), JoinRows(Free(f), a, cross), own),
                    Free(f).join(Cross, NoConstraint, false, b, ItemRows(Free(f), items[0])), items[1..], f);
      CrossRewritten(a, b, items[0], f);
    }
  }

  lemma {:induction false} FirstRewritten(item: FromItem, f: Atom)
    requires BuildableItem(item)
    requires JoinsRows(Free(f), FactorRows(Free(f), FirstRelation(item)), OwnJoins(item)) == ItemRows(Free(f), item)
    ensures HeldItemFor(item, f) && WritableItem(item)
    decreases item, 0
  {
    JoinsRewritten(FactorRows(Free(f), FirstRelation(item)), FactorRows(Free(f), item.relation), item.joins, f);
    FactorRewritten(item.relation, f);
  }

  lemma {:induction false} FromRewritten(from: seq<FromItem>, f: Atom)
    requires from != [] && BuildableItems(from) && FromRows(Free(f), NormalOfFrom(from)) == FromRows(Free(f), from)
    ensures HeldItemsFor(from, f) && WritableItem(from[0]) && WritableMore(from[1..])
    decreases from, 0
  {
    var first, own, more := FactorRows(Free(f), FirstRelation(from[0])), OwnJoins(from[0]), NormalOfMore(from[1..]);
    assert NormalOfFrom(from)[1..] == [];
    JoinsRowsAppend(Free(f), first, own, more);
    MoreRewritten(JoinsRows(Free(f), first, own), ItemRows(Free(f), from[0]), from[1..], f);
    FirstRewritten(from[0], f);
  }

  lemma {:induction false} QueryRewritten(q: Query, f: Atom)
    requires Buildable(q) && Rows(Free(f), Normalize(q)) == Rows(Free(f), q)
    ensures HeldFor(q, f) && Writable(q)
    decreases q, 0
  {
    var m := Free(f);
    var a, b := FromRows(m, q.from), FromRows(m, NormalOfFrom(q.from));
    PlanCutRows(m, q, Scan(""), BlockRows(m, Normalize(q), b));
    BlockTerm(f, q, a);
    NormalTerm(f, q, b);
    var x := Ordered(q.order, Treated(q, a));
    var y := if q.order.OrderAll? then Plainly(q, b) else Ordered(q.order, Plainly(q, b));
    CutExact(f, q, x, y);
    BlockExact(q, a, b);
    FromRewritten(q.from, f);
  }

  /** What is written back has the rows of the query, in every meaning in which the join words agree. */
  ghost predicate TextFaithful(q: Query)
  {
    forall m: Sense<Term> :: Synonyms(m) ==> Rows(m, Normalize(q)) == Rows(m, q)
  }

  /**
   That is so exactly when besides no NATURAL and no match condition is left unwritten, and no later FROM item has
   joins of its own.
   */
  lemma RewritingKeepsRowsIff(q: Query)
    requires QueryPlan(q).Ok?
    ensures TextFaithful(q) <==> Held(q) && Writable(q)
  {
    BuildsIff(q);
    if Held(q) && Writable(q) {
      forall m: Sense<Term> | Synonyms(m) ensures Rows(m, Normalize(q)) == Rows(m, q) {
        RewritingKeepsRows(m, q);
      }
    }
    if TextFaithful(q) {
      forall f ensures HeldFor(q, f) && Writable(q) {
        FreeSynonyms(f);
        QueryRewritten(q, f);
      }
      assert HeldFor(q, STAR);
      AllHeld(q);
    }
  }
}
