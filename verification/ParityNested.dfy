/**
 Date-range pruning of nested queries.  Ranges are read off the outermost WHERE clause only, but they are given
 to every reference to a dataset, in subqueries, derived tables and common table expressions too.
 */
module ParityNested {
  import opened Common
  import opened Intervals
  import opened Predicates
  import opened Parity
  import opened ParityLimits

  // ---------------------------------------------------------------------------
  // Nested queries
  // ---------------------------------------------------------------------------

  datatype View = View(db: Database, m: Meaning)

  /**
   A block and the blocks inside it.  Their answers enter the block in any way: `sees` gives the tables that are
   derived from them and the meaning of the expressions that contain them.
   */
  datatype Nest = Nest(main: Query, subs: seq<Nest>, sees: seq<seq<Row>> -> View)

  function AnswerOf(n: Nest, reg: Registry): seq<Row>
  {
    var v := n.sees(AnswersOf(n.subs, reg));
    Answer(n.main, reg, v.db, v.m)
  }

  function AnswersOf(ns: seq<Nest>, reg: Registry): seq<seq<Row>>
  {
    if |ns| == 0 then [] else [AnswerOf(ns[0], reg)] + AnswersOf(ns[1..], reg)
  }

  function RewriteBlock(q: Query, ranges: map<string, Interval>, reg: Registry): Query
  {
    Query(Rewrite(q.from, ranges, reg), q.filter)
  }

  function RewriteNest(n: Nest, ranges: map<string, Interval>, reg: Registry): Nest
  {
    Nest(RewriteBlock(n.main, ranges, reg), RewriteAll(n.subs, ranges, reg), n.sees)
  }

  function RewriteAll(ns: seq<Nest>, ranges: map<string, Interval>, reg: Registry): seq<Nest>
  {
    if |ns| == 0 then [] else [RewriteNest(ns[0], ranges, reg)] + RewriteAll(ns[1..], ranges, reg)
  }

  /** The transformer: `tables` are the references it has discovered, at any depth and in any order. */
  function TransformNest(n: Nest, tables: seq<From>, reg: Registry): Nest
    requires forall i :: 0 <= i < |tables| ==> tables[i].Table?
  {
    RewriteNest(n, Ranges(tables, n.main.filter, reg), reg)
  }

  /** Every block, with what it sees, meets the hypotheses under the shared ranges. */
  ghost predicate NestSupported(n: Nest, ranges: map<string, Interval>, reg: Registry)
  {
    && SupportedBy(n.main, ranges, reg, n.sees(AnswersOf(n.subs, reg)).db)
    && AllSupported(n.subs, ranges, reg)
  }

  ghost predicate AllSupported(ns: seq<Nest>, ranges: map<string, Interval>, reg: Registry)
  {
    |ns| == 0 || (NestSupported(ns[0], ranges, reg) && AllSupported(ns[1..], ranges, reg))
  }

  lemma {:induction false} BlocksParity(n: Nest, ranges: map<string, Interval>, reg: Registry)
    requires NestSupported(n, ranges, reg)
    ensures AnswerOf(RewriteNest(n, ranges, reg), reg) == AnswerOf(n, reg)
    decreases n, 0
  {
    AllBlocksParity(n.subs, ranges, reg);
    var v := n.sees(AnswersOf(n.subs, reg));
    BlockParity(n.main, ranges, reg, v.db, v.m);
  }

  lemma {:induction false} AllBlocksParity(ns: seq<Nest>, ranges: map<string, Interval>, reg: Registry)
    requires AllSupported(ns, ranges, reg)
    ensures AnswersOf(RewriteAll(ns, ranges, reg), reg) == AnswersOf(ns, reg)
    decreases ns, 0
  {
    if |ns| > 0 {
      BlocksParity(ns[0], ranges, reg);
      AllBlocksParity(ns[1..], ranges, reg);
      assert RewriteAll(ns, ranges, reg)[1..] == RewriteAll(ns[1..], ranges, reg);
    }
  }

  /**
   Semantic parity of nested queries: if no block restricts a dataset to days outside the range that the
   outermost clause gives it, the transformed query returns the rows of the original one.
   */
  lemma NestedSemanticParity(n: Nest, tables: seq<From>, reg: Registry)
    requires forall i :: 0 <= i < |tables| ==> tables[i].Table?
    requires NestSupported(n, Ranges(tables, n.main.filter, reg), reg)
    ensures AnswerOf(TransformNest(n, tables, reg), reg) == AnswerOf(n, reg)
  {
    BlocksParity(n, Ranges(tables, n.main.filter, reg), reg);
  }

  // ---------------------------------------------------------------------------
  // One dataset in a subquery
  // ---------------------------------------------------------------------------

  /** The references that were discovered, among them `t`, a dataset whose name survives in `inner`. */
  ghost predicate Discovered(t: From, inner: Option<Expr>, tables: seq<From>, reg: Registry, columns: set<string>)
  {
    && (forall i :: 0 <= i < |tables| ==> tables[i].Table?)
    && t in tables && t.name in reg && (t.alias.None? ==> Fold(t.name) != Fold(reg[t.name].macroName))
    && (inner.Some? ==>
          && Binds(inner.value, [Relation(Fold(EffectiveName(t)), columns)])
          && !Qualifies(inner.value, if t.alias.None? then {Fold(t.name)} else {}))
  }

  lemma {:induction false} RangeFromLast(tables: seq<From>, filter: Option<Expr>, reg: Registry, p: int)
    returns (k: int)
    requires forall i :: 0 <= i < |tables| ==> tables[i].Table?
    requires 0 <= p < |tables| && tables[p].name in reg
    ensures 0 <= k < |tables| && tables[k].name == tables[p].name && tables[p].name in Ranges(tables, filter, reg)
    ensures Ranges(tables, filter, reg)[tables[p].name] == RangeOf(tables[k], filter, reg)
  {
    var n := |tables| - 1;
    if tables[n].name == tables[p].name {
      k := n;
    } else {
      assert tables[..n][p] == tables[p];
      k := RangeFromLast(tables[..n], filter, reg, p);
    }
  }

  lemma RangeExists(t: From, outer: Expr, tables: seq<From>, reg: Registry)
    requires (forall i :: 0 <= i < |tables| ==> tables[i].Table?) && t in tables && t.name in reg
    ensures t.name in Ranges(tables, Some(outer), reg)
  {
    var p :| 0 <= p < |tables| && tables[p] == t;
    RangesCover(tables, Some(outer), reg, p);
  }

  /** The range with which the dataset is scanned. */
  ghost function ScanRange(t: From, outer: Expr, tables: seq<From>, reg: Registry): Interval
    requires (forall i :: 0 <= i < |tables| ==> tables[i].Table?) && t in tables && t.name in reg
  {
    RangeExists(t, outer, tables, reg);
    Ranges(tables, Some(outer), reg)[t.name]
  }

  /** The subquery `SELECT * FROM t WHERE inner` has the same answer before and after, with these rows stored. */
  ghost predicate NestedSame(t: From, inner: Option<Expr>, outer: Expr, tables: seq<From>, reg: Registry,
                             columns: set<string>, m: Meaning, rows: seq<Tuple>)
    requires t.Table? && forall i :: 0 <= i < |tables| ==> tables[i].Table?
  {
    var q, db := Query(t, inner), Holding(t.name, columns, [rows]);
    Answer(RewriteBlock(q, Ranges(tables, Some(outer), reg), reg), reg, db, m) == Answer(q, reg, db, m)
  }

  lemma {:induction false} SelectScanned(rows: seq<Tuple>, column: string, range: Interval, env: Env, keep: Row -> bool)
    requires forall u :: u in rows && keep([Some(u)]) ==> ScanKeeps(u, column, range, env)
    ensures Select(Singles(ScanRows(rows, column, range, env)), keep) == Select(Singles(rows), keep)
  {
    if rows != [] {
      var u, tail := rows[0], rows[1..];
      var kept := ScanRows(tail, column, range, env);
      SelectScanned(tail, column, range, env, keep);
      assert Singles(rows)[1..] == Singles(tail);
      assert Singles([u] + kept)[1..] == Singles(kept);
      assert [] + kept == kept;
      if !keep([Some(u)]) && ScanKeeps(u, column, range, env) {
        assert [] + Select(Singles(kept), keep) == Select(Singles(kept), keep);
      }
    }
  }

  /** Both forms of the subquery resolve names alike, so they differ by the scan only. */
  lemma NestedAnswers(t: From, inner: Option<Expr>, outer: Expr, tables: seq<From>, reg: Registry,
                      columns: set<string>, m: Meaning, rows: seq<Tuple>)
    requires Discovered(t, inner, tables, reg, columns)
    ensures var q, db := Query(t, inner), Holding(t.name, columns, [rows]);
            var c, range := Fold(reg[t.name].timeColumn), ScanRange(t, outer, tables, reg);
            var keep := Holds(inner, [Relation(Fold(EffectiveName(t)), columns)], m);
            && Answer(q, reg, db, m) == Select(Singles(rows), keep)
            && Answer(RewriteBlock(q, Ranges(tables, Some(outer), reg), reg), reg, db, m)
               == Select(Singles(ScanRows(rows, c, range, m.env)), keep)
  {
    var db := Holding(t.name, columns, [rows]);
    RangeExists(t, outer, tables, reg);
    var g := Rewrite(t, Ranges(tables, Some(outer), reg), reg);
    var s, s' := [RelationOf(t, db)], [RelationOf(g, db)];
    var lost := if t.alias.None? then {Fold(t.name)} else {};
    var gained := if t.alias.None? then {Fold(reg[t.name].macroName)} else {};
    OneEpoch(rows);
    assert s == [Relation(Fold(EffectiveName(t)), columns)];
    assert ScopeOf(t, db) == s && ScopeOf(g, db) == s';
    assert Renamed(s, s', lost, gained);
    forall row: Row ensures Holds(inner, s, m)(row) == Holds(inner, s', m)(row) {
      if inner.Some? {
        SameTruth(inner.value, s, s', lost, gained, row, m);
      }
    }
    SelectCongruent(Eval(g, reg, db, m), Holds(inner, s, m), Holds(inner, s', m));
  }

  lemma ScannedIsSame(t: From, inner: Option<Expr>, outer: Expr, tables: seq<From>, reg: Registry,
                      columns: set<string>, m: Meaning, rows: seq<Tuple>)
    requires Discovered(t, inner, tables, reg, columns)
    requires var c, range := Fold(reg[t.name].timeColumn), ScanRange(t, outer, tables, reg);
             var keep := Holds(inner, [Relation(Fold(EffectiveName(t)), columns)], m);
             forall u :: u in rows && keep([Some(u)]) ==> ScanKeeps(u, c, range, m.env)
    ensures NestedSame(t, inner, outer, tables, reg, columns, m, rows)
  {
    NestedAnswers(t, inner, outer, tables, reg, columns, m, rows);
    SelectScanned(rows, Fold(reg[t.name].timeColumn), ScanRange(t, outer, tables, reg), m.env,
                  Holds(inner, [Relation(Fold(EffectiveName(t)), columns)], m));
  }

  lemma DroppedIsMissed(t: From, inner: Option<Expr>, outer: Expr, tables: seq<From>, reg: Registry,
                        columns: set<string>, m: Meaning, u: Tuple)
    requires Discovered(t, inner, tables, reg, columns)
    requires Holds(inner, [Relation(Fold(EffectiveName(t)), columns)], m)([Some(u)])
    requires !ScanKeeps(u, Fold(reg[t.name].timeColumn), ScanRange(t, outer, tables, reg), m.env)
    ensures !NestedSame(t, inner, outer, tables, reg, columns, m, [u])
  {
    var keep := Holds(inner, [Relation(Fold(EffectiveName(t)), columns)], m);
    NestedAnswers(t, inner, outer, tables, reg, columns, m, [u]);
    assert Singles([u])[0] == [Some(u)] && [u][1..] == [];
    SelectMembers(Singles([u]), keep);
    assert [Some(u)] in Select(Singles([u]), keep);
  }

  // ---------------------------------------------------------------------------
  // Exactly when a subquery is left alone
  // ---------------------------------------------------------------------------

  /** The range starts no later and ends no earlier than the wide scan. */
  predicate ContainsWideScan(i: Interval, env: Env)
  {
    && (i.start.Some? ==> DayOf(i.start.value, env) <= WIDE_SCAN_START)
    && (i.end.Some? ==> WIDE_SCAN_END <= DayOf(i.end.value, env))
  }

  ghost predicate AllDated(rows: seq<Tuple>, column: string) { forall u :: u in rows ==> Dated(u, column) }

  lemma NarrowRangeDrops(range: Interval, column: string, env: Env) returns (u: Tuple)
    requires !ContainsWideScan(range, env)
    ensures Dated(u, column) && !ScanKeeps(u, column, range, env)
  {
    var early := range.start.Some? && DayOf(range.start.value, env) > WIDE_SCAN_START;
    u := OneTuple(column, if early then WIDE_SCAN_START else WIDE_SCAN_END - 1);
  }

  /**
   A subquery that reads a whole dataset keeps its answer, for all dated contents, exactly when the range that the
   outermost clause gives the dataset contains the wide scan.
   */
  lemma NestedWholeIff(t: From, outer: Expr, tables: seq<From>, reg: Registry, columns: set<string>, m: Meaning)
    requires Discovered(t, None, tables, reg, columns)
    ensures (forall rows :: AllDated(rows, Fold(reg[t.name].timeColumn)) ==>
               NestedSame(t, None, outer, tables, reg, columns, m, rows))
            <==> ContainsWideScan(ScanRange(t, outer, tables, reg), m.env)
  {
    var c, range := Fold(reg[t.name].timeColumn), ScanRange(t, outer, tables, reg);
    if ContainsWideScan(range, m.env) {
      forall rows | AllDated(rows, c) ensures NestedSame(t, None, outer, tables, reg, columns, m, rows) {
        ScannedIsSame(t, None, outer, tables, reg, columns, m, rows);
      }
    } else {
      var u := NarrowRangeDrops(range, c, m.env);
      DroppedIsMissed(t, None, outer, tables, reg, columns, m, u);
      assert AllDated([u], c);
    }
  }

  /** The clause of the subquery bounds its date by literals. */
  ghost predicate BoundsInner(t: From, inner: Expr, tables: seq<From>, reg: Registry, columns: set<string>)
  {
    && Discovered(t, Some(inner), tables, reg, columns) && Fold(reg[t.name].timeColumn) in columns
    && OnlyTimeBounds(inner, EffectiveName(t), reg[t.name].timeColumn)
  }

  function InnerDays(t: From, inner: Expr, reg: Registry): Interval
    requires t.Table? && t.name in reg
  {
    Analyze(inner, EffectiveName(t), reg[t.name].timeColumn)
  }

  lemma InnerSelects(t: From, inner: Expr, tables: seq<From>, reg: Registry, columns: set<string>, m: Meaning, u: Tuple)
    requires BoundsInner(t, inner, tables, reg, columns)
    requires Dated(u, Fold(reg[t.name].timeColumn)) && u[Fold(reg[t.name].timeColumn)].tick == 0
    ensures Holds(Some(inner), [Relation(Fold(EffectiveName(t)), columns)], m)([Some(u)])
            <==> Contains(InnerDays(t, inner, reg), m.env, u[Fold(reg[t.name].timeColumn)].day)
  {
    var c, row := Fold(reg[t.name].timeColumn), [Some(u)];
    assert Cell(row, 0, c) == u[c];
    AnalyzerExact(inner, [Relation(Fold(EffectiveName(t)), columns)], row, m, 0, EffectiveName(t),
                  reg[t.name].timeColumn);
  }

  /** Every day of the wide scan that the inner clause asks for is in the range of the outer one. */
  ghost predicate InnerWithinOuter(inner: Interval, outer: Interval, env: Env)
  {
    forall day :: Wide(day) && Contains(inner, env, day) ==> Contains(outer, env, day)
  }

  /**
   A subquery with date bounds of its own keeps its answer, for all contents with whole days, exactly when every
   day it asks for is in the range that the outermost clause gives the dataset.
   */
  lemma NestedDaysIff(t: From, inner: Expr, outer: Expr, tables: seq<From>, reg: Registry, columns: set<string>,
                      m: Meaning)
    requires BoundsInner(t, inner, tables, reg, columns)
    ensures (forall rows :: WholeDays(rows, Fold(reg[t.name].timeColumn)) ==>
               NestedSame(t, Some(inner), outer, tables, reg, columns, m, rows))
            <==> InnerWithinOuter(InnerDays(t, inner, reg), ScanRange(t, outer, tables, reg), m.env)
  {
    if InnerWithinOuter(InnerDays(t, inner, reg), ScanRange(t, outer, tables, reg), m.env) {
      forall rows | WholeDays(rows, Fold(reg[t.name].timeColumn))
        ensures NestedSame(t, Some(inner), outer, tables, reg, columns, m, rows)
      {
        InnerIsScanned(t, inner, outer, tables, reg, columns, m, rows);
      }
    } else {
      var day :| && Wide(day) && Contains(InnerDays(t, inner, reg), m.env, day)
                 && !Contains(ScanRange(t, outer, tables, reg), m.env, day);
      InnerIsDropped(t, inner, outer, tables, reg, columns, m, day);
    }
  }

  lemma InnerIsScanned(t: From, inner: Expr, outer: Expr, tables: seq<From>, reg: Registry, columns: set<string>,
                       m: Meaning, rows: seq<Tuple>)
    requires BoundsInner(t, inner, tables, reg, columns) && WholeDays(rows, Fold(reg[t.name].timeColumn))
    requires InnerWithinOuter(InnerDays(t, inner, reg), ScanRange(t, outer, tables, reg), m.env)
    ensures NestedSame(t, Some(inner), outer, tables, reg, columns, m, rows)
  {
    var c, range := Fold(reg[t.name].timeColumn), ScanRange(t, outer, tables, reg);
    forall u: Tuple | u in rows && Holds(Some(inner), [Relation(Fold(EffectiveName(t)), columns)], m)([Some(u)])
      ensures ScanKeeps(u, c, range, m.env)
    {
      InnerSelects(t, inner, tables, reg, columns, m, u);
      assert Wide(u[c].day);
    }
    ScannedIsSame(t, Some(inner), outer, tables, reg, columns, m, rows);
  }

  lemma InnerIsDropped(t: From, inner: Expr, outer: Expr, tables: seq<From>, reg: Registry, columns: set<string>,
                       m: Meaning, day: int)
    requires BoundsInner(t, inner, tables, reg, columns)
    requires Wide(day) && Contains(InnerDays(t, inner, reg), m.env, day)
    requires !Contains(ScanRange(t, outer, tables, reg), m.env, day)
    ensures exists rows :: WholeDays(rows, Fold(reg[t.name].timeColumn))
                           && !NestedSame(t, Some(inner), outer, tables, reg, columns, m, rows)
  {
    var c := Fold(reg[t.name].timeColumn);
    var u := OneTuple(c, day);
    InnerSelects(t, inner, tables, reg, columns, m, u);
    DroppedIsMissed(t, Some(inner), outer, tables, reg, columns, m, u);
    assert WholeDays([u], c);
  }

  // ---------------------------------------------------------------------------
  // Clauses that say nothing about the dataset
  // ---------------------------------------------------------------------------

  /** A comparison that the analyzer takes for one on this table's time column. */
  predicate Bounds(e: Expr, table: string, timeColumn: string)
  {
    match e
    case BinaryOp(l, op, r) =>
      if op.And? || op.Or? then Bounds(l, table, timeColumn) || Bounds(r, table, timeColumn)
      else IsTimeColumn(l, table, timeColumn) || IsTimeColumn(r, table, timeColumn)
    case Between(x, _, _, _) => IsTimeColumn(x, table, timeColumn)
    case Nested(inner) => Bounds(inner, table, timeColumn)
    case _ => false
  }

  /** A clause that compares no column of this name, bare or qualified by the table, gives no range. */
  lemma {:induction false} UnrelatedClause(e: Expr, table: string, timeColumn: string)
    requires !Bounds(e, table, timeColumn)
    ensures Analyze(e, table, timeColumn) == Universe()
  {
    match e
    case BinaryOp(l, op, r) =>
      if op.And? || op.Or? {
        UnrelatedClause(l, table, timeColumn);
        UnrelatedClause(r, table, timeColumn);
      }
    case Nested(inner) => UnrelatedClause(inner, table, timeColumn);
    case _ =>
  }

  /** A subquery is left alone when the outermost clause compares no column of that name. */
  lemma UnrelatedClauseKeepsNested(t: From, inner: Option<Expr>, outer: Expr, tables: seq<From>, reg: Registry,
                                   columns: set<string>, m: Meaning, rows: seq<Tuple>)
    requires Discovered(t, inner, tables, reg, columns) && AllDated(rows, Fold(reg[t.name].timeColumn))
    requires forall i :: 0 <= i < |tables| && tables[i].name == t.name ==>
               !Bounds(outer, EffectiveName(tables[i]), reg[t.name].timeColumn)
    ensures NestedSame(t, inner, outer, tables, reg, columns, m, rows)
  {
    var p :| 0 <= p < |tables| && tables[p] == t;
    var k := RangeFromLast(tables, Some(outer), reg, p);
    UnrelatedClause(outer, EffectiveName(tables[k]), reg[t.name].timeColumn);
    ScannedIsSame(t, inner, outer, tables, reg, columns, m, rows);
  }

  // ---------------------------------------------------------------------------
  // A query that fails
  // ---------------------------------------------------------------------------

  /** `dt >= day 10 AND EXISTS (...)`. */
  function SinceDayTen(): Expr
  {
    BinaryOp(BinaryOp(Identifier("dt"), GtEq, StringLiteral(DateText(10))), And, Opaque(0))
  }

  /** A row of `other` dated day 20 and a row of `sales` dated day 5. */
  function TwoTables(): Database
  {
    Database(map["sales" := [[OneTuple("dt", 5)]]], map["other" := [OneTuple("dt", 20)]],
             map["sales" := {"dt"}, "other" := {"dt"}])
  }

  /** EXISTS is TRUE when the subquery has an answer. */
  function SeeExists(): seq<seq<Row>> -> View
  {
    answers => View(TwoTables(), AnyMeaning().(boolOf := (_, _) => Truth(|answers| == 1 && answers[0] != [])))
  }

  function SeeNothing(): seq<seq<Row>> -> View { _ => View(TwoTables(), AnyMeaning()) }

  /** `SELECT * FROM other WHERE dt >= day 10 AND EXISTS (SELECT * FROM sales)`. */
  function ExistsQuery(): Nest
  {
    Nest(Query(Table("other", None), Some(SinceDayTen())), [Nest(Query(Table("sales", None), None), [], SeeNothing())],
         SeeExists())
  }

  const OTHER_AND_SALES: seq<From> := [Table("other", None), Table("sales", None)]

  lemma SalesRange()
    ensures Ranges(OTHER_AND_SALES, Some(SinceDayTen()), Sales()) == map["sales" := Interval(Some(Literal(10)), None)]
  {
    var other, sales := Table("other", None), Table("sales", None);
    assert Fold("dt") == "dt";
    assert [other, sales][..1] == [other] && [other][..0] == [];
    assert Ranges([other], Some(SinceDayTen()), Sales()) == map[];
    assert Analyze(SinceDayTen().left, "sales", "dt") == Interval(Some(Literal(10)), None);
    assert Analyze(SinceDayTen(), "sales", "dt") == Interval(Some(Literal(10)), None);
  }

  lemma OtherTruth(m: Meaning)
    ensures var scope, row := ScopeOf(Table("other", None), TwoTables()), [Some(OneTuple("dt", 20))];
            EvalBool(SinceDayTen(), scope, row, m) == And3(True, m.boolOf(Opaque(0), row))
  {
    var scope, row := ScopeOf(Table("other", None), TwoTables()), [Some(OneTuple("dt", 20))];
    assert Fold("dt") == "dt" && scope[0].columns == {"dt"} && ColumnPosition(scope, "dt") == 0;
    assert EvalValue(Identifier("dt"), scope, row, m) == Time(20, 0);
    assert EvalBool(SinceDayTen().left, scope, row, m) == True;
  }

  /** Whether EXISTS holds decides about the row of `other`. */
  lemma OtherRow(answers: seq<seq<Row>>)
    ensures var v, row := SeeExists()(answers), [Some(OneTuple("dt", 20))];
            row in Answer(Query(Table("other", None), Some(SinceDayTen())), Sales(), v.db, v.m)
            <==> |answers| == 1 && answers[0] != []
  {
    var v, row := SeeExists()(answers), [Some(OneTuple("dt", 20))];
    var t := Table("other", None);
    OtherTruth(v.m);
    assert Eval(t, Sales(), v.db, v.m) == Singles([OneTuple("dt", 20)]);
    assert Singles([OneTuple("dt", 20)])[0] == row;
    SelectMembers(Eval(t, Sales(), v.db, v.m), Holds(Some(SinceDayTen()), ScopeOf(t, v.db), v.m));
  }

  /** The stored row of `sales` is read by the original subquery and not by the rewritten one. */
  lemma SalesRow()
    ensures var sub, ranges := ExistsQuery().subs[0], map["sales" := Interval(Some(Literal(10)), None)];
            AnswerOf(sub, Sales()) != [] && AnswerOf(RewriteNest(sub, ranges, Sales()), Sales()) == []
  {
    var t, db := Table("sales", None), TwoTables();
    var ranges: map<string, Interval> := map["sales" := Interval(Some(Literal(10)), None)];
    var g := Rewrite(t, ranges, Sales());
    var m := AnyMeaning();
    assert Fold("dt") == "dt";
    OneEpoch([OneTuple("dt", 5)]);
    assert StoredRows("sales", db) == [OneTuple("dt", 5)] && [OneTuple("dt", 5)][1..] == [];
    assert Eval(t, Sales(), db, m) == Singles([OneTuple("dt", 5)]);
    assert Singles([OneTuple("dt", 5)])[0] == [Some(OneTuple("dt", 5))];
    SelectMembers(Eval(t, Sales(), db, m), Holds(None, ScopeOf(t, db), m));
    assert LeafTuples(g, Sales(), db, m.env) == [];
    assert Eval(g, Sales(), db, m) == [];
  }

  lemma OneSubquery(n: Nest, ranges: map<string, Interval>, reg: Registry)
    ensures AnswersOf([n], reg) == [AnswerOf(n, reg)]
    ensures RewriteAll([n], ranges, reg) == [RewriteNest(n, ranges, reg)]
  {
    assert [n][1..] == [];
  }

  lemma ExistsAnswer(sub: Nest)
    ensures var n := Nest(ExistsQuery().main, [sub], SeeExists());
            [Some(OneTuple("dt", 20))] in AnswerOf(n, Sales()) <==> AnswerOf(sub, Sales()) != []
  {
    OneSubquery(sub, map[], Sales());
    OtherRow([AnswerOf(sub, Sales())]);
  }

  lemma ExistsTransformed()
    ensures var ranges := map["sales" := Interval(Some(Literal(10)), None)];
            TransformNest(ExistsQuery(), OTHER_AND_SALES, Sales())
            == Nest(ExistsQuery().main, [RewriteNest(ExistsQuery().subs[0], ranges, Sales())], SeeExists())
  {
    SalesRange();
    OneSubquery(ExistsQuery().subs[0], map["sales" := Interval(Some(Literal(10)), None)], Sales());
  }

  /** The outermost `dt` is a column of `other`, but it prunes `sales`: the transformed query loses its row. */
  lemma NestedChangesResult()
    ensures var n := ExistsQuery();
            AnswerOf(TransformNest(n, OTHER_AND_SALES, Sales()), Sales()) != AnswerOf(n, Sales())
  {
    var sub := ExistsQuery().subs[0];
    ExistsTransformed();
    SalesRow();
    ExistsAnswer(sub);
    ExistsAnswer(RewriteNest(sub, map["sales" := Interval(Some(Literal(10)), None)], Sales()));
  }
}
