/**
 Where date-range pruning keeps the result of a query and where it does not: names after the rewrite, dates
 outside the wide scan, and two occurrences of one dataset.
 */
module ParityLimits {
  import opened Common
  import opened Intervals
  import opened Predicates
  import opened Parity

  // ---------------------------------------------------------------------------
  // Names
  // ---------------------------------------------------------------------------

  lemma {:induction false} RangesCover(leaves: seq<From>, filter: Option<Expr>, reg: Registry, p: int)
    requires forall i :: 0 <= i < |leaves| ==> leaves[i].Table?
    requires 0 <= p < |leaves| && leaves[p].name in reg
    ensures leaves[p].name in Ranges(leaves, filter, reg)
  {
    if p < |leaves| - 1 {
      assert leaves[..|leaves| - 1][p] == leaves[p];
      RangesCover(leaves[..|leaves| - 1], filter, reg, p);
    }
  }

  /** Every table is visible under a name of its own, which no macro call takes over. */
  ghost predicate DistinctNames(leaves: seq<From>, reg: Registry)
  {
    && (forall i :: 0 <= i < |leaves| ==> leaves[i].Table?)
    && (forall i, j :: 0 <= i < j < |leaves| ==> Fold(EffectiveName(leaves[i])) != Fold(EffectiveName(leaves[j])))
    && (forall i :: 0 <= i < |leaves| ==> Fold(EffectiveName(leaves[i])) !in GainedNames(leaves, reg))
  }

  lemma DistinctNameOk(leaves: seq<From>, filter: Option<Expr>, reg: Registry, p: int)
    requires DistinctNames(leaves, reg) && 0 <= p < |leaves|
    ensures NameOk(leaves[p], Ranges(leaves, filter, reg), reg, LostNames(leaves, reg), GainedNames(leaves, reg))
  {
    var t := leaves[p];
    if t.name in reg {
      RangesCover(leaves, filter, reg, p);
    }
    if Fold(EffectiveName(t)) in LostNames(leaves, reg) {
      var i :| 0 <= i < |leaves| && leaves[i].name in reg && leaves[i].alias.None?
               && Fold(EffectiveName(leaves[i])) == Fold(EffectiveName(t));
      assert i == p;
    }
  }

  /** What resolved in the query resolves in the transformed one unless it names a dataset without alias. */
  lemma TransformBindsIff(e: Expr, q: Query, reg: Registry, db: Database)
    requires DistinctNames(Leaves(q.from), reg) && Binds(e, ScopeOf(q.from, db))
    ensures Binds(e, ScopeOf(Transform(q, reg).from, db)) <==> !Qualifies(e, LostNames(Leaves(q.from), reg))
  {
    var leaves := Leaves(q.from);
    var ranges, lost, gained := Ranges(leaves, q.filter, reg), LostNames(leaves, reg), GainedNames(leaves, reg);
    forall i | 0 <= i < |leaves| ensures NameOk(leaves[i], ranges, reg, lost, gained) {
      DistinctNameOk(leaves, q.filter, reg, i);
    }
    RenamedTree(q.from, ranges, reg, db, lost, gained);
    RewriteBindsIff(e, ScopeOf(q.from, db), ScopeOf(Transform(q, reg).from, db), lost, gained);
  }

  // ---------------------------------------------------------------------------
  // Whole datasets
  // ---------------------------------------------------------------------------

  lemma {:induction false} ScanKeepsAllIff(rows: seq<Tuple>, column: string, env: Env)
    ensures |ScanRows(rows, column, Universe(), env)| <= |rows|
    ensures ScanRows(rows, column, Universe(), env) == rows <==> (forall t :: t in rows ==> Dated(t, column))
  {
    if rows != [] {
      ScanKeepsAllIff(rows[1..], column, env);
      assert rows == [rows[0]] + rows[1..];
      assert ScanKeeps(rows[0], column, Universe(), env) <==> Dated(rows[0], column);
    }
  }

  lemma SinglesInjective(a: seq<Tuple>, b: seq<Tuple>)
    requires Singles(a) == Singles(b)
    ensures a == b
  {
    forall i | 0 <= i < |a| ensures a[i] == b[i] {
      assert Singles(a)[i] == [Some(a[i])] && Singles(b)[i] == [Some(b[i])];
    }
  }

  lemma {:induction false} SelectAll(rows: seq<Row>, p: Row -> bool)
    requires forall row :: row in rows ==> p(row)
    ensures Select(rows, p) == rows
  {
    if rows != [] {
      SelectAll(rows[1..], p);
      assert rows == [rows[0]] + rows[1..];
    }
  }

  /**
   Reading a whole dataset survives the rewrite exactly when every stored date is non-null and inside
   the range of the wide scan.
   */
  lemma {:induction false} WholeDatasetParityIff(name: string, alias: Option<string>, reg: Registry, db: Database,
                                                 m: Meaning)
    requires name in reg
    ensures var q := Query(Table(name, alias), None);
            Answer(Transform(q, reg), reg, db, m) == Answer(q, reg, db, m)
            <==> forall t :: t in StoredRows(name, db) ==> Dated(t, Fold(reg[name].timeColumn))
  {
    var q := Query(Table(name, alias), None);
    var rows, column := StoredRows(name, db), Fold(reg[name].timeColumn);
    var t := q.from;
    assert Ranges([t], None, reg) == Ranges([], None, reg)[name := Universe()] by {
      assert [t][..0] == [];
    }
    SelectAll(Eval(t, reg, db, m), Holds(None, ScopeOf(t, db), m));
    var g := Transform(q, reg).from;
    assert g == Scan(name, reg[name].macroName, alias, Universe());
    SelectAll(Eval(g, reg, db, m), Holds(None, ScopeOf(g, db), m));
    ScanKeepsAllIff(rows, column, m.env);
    if Singles(ScanRows(rows, column, Universe(), m.env)) == Singles(rows) {
      SinglesInjective(ScanRows(rows, column, Universe(), m.env), rows);
    }
  }

  // ---------------------------------------------------------------------------
  // Two occurrences of one dataset
  // ---------------------------------------------------------------------------

  /** `SELECT * FROM dataset a JOIN dataset b WHERE left AND right`. */
  datatype SelfJoin = SelfJoin(kind: Kind, dataset: string, a: string, b: string, left: Expr, right: Expr)
  {
    function Statement(): Query
    {
      Query(Join(kind, Table(dataset, Some(a)), Table(dataset, Some(b)), None), Some(BinaryOp(left, And, right)))
    }

    function Names(columns: set<string>): Scope { [Relation(Fold(a), columns), Relation(Fold(b), columns)] }

    function LeftDays(reg: Registry): Interval
      requires dataset in reg
    {
      Analyze(left, a, reg[dataset].timeColumn)
    }

    function RightDays(reg: Registry): Interval
      requires dataset in reg
    {
      Analyze(right, b, reg[dataset].timeColumn)
    }
  }

  /** One dataset with the given contents. */
  function Holding(name: string, columns: set<string>, epochs: seq<seq<Tuple>>): Database
  {
    Database(map[name := epochs], map[], map[name := columns])
  }

  predicate Wide(day: int) { WIDE_SCAN_START <= day < WIDE_SCAN_END }

  /** Stored dates are whole days inside the wide scan. */
  ghost predicate WholeDays(rows: seq<Tuple>, column: string)
  {
    forall u: Tuple :: u in rows ==> Dated(u, column) && u[column].tick == 0
  }

  /** Each conjunct bounds the date of its own occurrence by literal dates. */
  ghost predicate BoundsEach(j: SelfJoin, reg: Registry, columns: set<string>)
  {
    && j.dataset in reg && Fold(j.a) != Fold(j.b) && Fold(reg[j.dataset].timeColumn) in columns
    && OnlyTimeBounds(j.left, j.a, reg[j.dataset].timeColumn)
    && OnlyTimeBounds(j.right, j.b, reg[j.dataset].timeColumn)
    && Binds(j.left, j.Names(columns)) && Binds(j.right, j.Names(columns))
  }

  /** The time column of one table is not the time column of another when both have one. */
  lemma BoundIsQualified(e: Expr, scope: Scope, p: int, table: string, other: string, timeColumn: string)
    requires |scope| == 2 && 0 <= p < 2 && scope[p].name == Fold(table) && Fold(table) != Fold(other)
    requires Fold(timeColumn) in scope[0].columns && Fold(timeColumn) in scope[1].columns
    requires Binds(e, scope) && IsTimeColumn(e, table, timeColumn)
    ensures !IsTimeColumn(e, other, timeColumn)
  {
    assert ColumnPosition(scope, Fold(timeColumn)) == 0;
  }

  lemma {:induction false} OtherUnseen(e: Expr, scope: Scope, p: int, table: string, other: string, timeColumn: string)
    requires |scope| == 2 && 0 <= p < 2 && scope[p].name == Fold(table) && Fold(table) != Fold(other)
    requires Fold(timeColumn) in scope[0].columns && Fold(timeColumn) in scope[1].columns
    requires Binds(e, scope) && OnlyTimeBounds(e, table, timeColumn)
    ensures Analyze(e, other, timeColumn) == Universe()
  {
    match e
    case BinaryOp(l, op, r) =>
      if op.And? {
        OtherUnseen(l, scope, p, table, other, timeColumn);
        OtherUnseen(r, scope, p, table, other, timeColumn);
      } else {
        BoundIsQualified(if IsTimeColumn(l, table, timeColumn) then l else r, scope, p, table, other, timeColumn);
      }
    case Between(x, _, _, _) => BoundIsQualified(x, scope, p, table, other, timeColumn);
    case Nested(inner) => OtherUnseen(inner, scope, p, table, other, timeColumn);
  }

  /** What the two conjuncts demand of a joined row. */
  lemma DemandsOf(j: SelfJoin, reg: Registry, columns: set<string>, row: Row, m: Meaning)
    requires BoundsEach(j, reg, columns)
    requires var c := Fold(reg[j.dataset].timeColumn); WholeDay(Cell(row, 0, c)) && WholeDay(Cell(row, 1, c))
    ensures var c := Fold(reg[j.dataset].timeColumn);
            Holds(j.Statement().filter, j.Names(columns), m)(row)
            <==> Covered(j.LeftDays(reg), m.env, Cell(row, 0, c)) && Covered(j.RightDays(reg), m.env, Cell(row, 1, c))
    ensures LiteralBounds(j.LeftDays(reg)) && !IsUniverse(j.LeftDays(reg))
    ensures LiteralBounds(j.RightDays(reg)) && !IsUniverse(j.RightDays(reg))
  {
    AnalyzerExact(j.left, j.Names(columns), row, m, 0, j.a, reg[j.dataset].timeColumn);
    AnalyzerExact(j.right, j.Names(columns), row, m, 1, j.b, reg[j.dataset].timeColumn);
  }

  /** Both occurrences are scanned with the range of the second one. */
  function SharedRange(j: SelfJoin, reg: Registry): Interval
    requires j.dataset in reg
  {
    Intersect(Universe(), j.RightDays(reg))
  }

  lemma SharedRangeIsLast(j: SelfJoin, reg: Registry, columns: set<string>)
    requires BoundsEach(j, reg, columns)
    ensures Ranges(Leaves(j.Statement().from), j.Statement().filter, reg) == map[j.dataset := SharedRange(j, reg)]
    ensures LiteralBounds(SharedRange(j, reg)) && !IsUniverse(SharedRange(j, reg))
    ensures forall env: Env, day :: Contains(SharedRange(j, reg), env, day) <==> Contains(j.RightDays(reg), env, day)
  {
    var q := j.Statement();
    var ta, tb := q.from.left, q.from.right;
    PairLeaves(j);
    assert [ta, tb][..1] == [ta] && [ta][..0] == [];
    OtherUnseen(j.left, j.Names(columns), 0, j.a, j.b, reg[j.dataset].timeColumn);
    assert RangeOf(tb, q.filter, reg) == SharedRange(j, reg);
    assert Ranges([ta, tb], q.filter, reg) == Ranges([ta], q.filter, reg)[j.dataset := SharedRange(j, reg)];
    assert Ranges([ta], q.filter, reg) == Ranges([], q.filter, reg)[j.dataset := RangeOf(ta, q.filter, reg)];
    DemandsOf(j, reg, columns, [None, None], AnyMeaning());
    forall env: Env, day
      ensures Contains(SharedRange(j, reg), env, day) <==> Contains(j.RightDays(reg), env, day)
    {
      IntersectExact(Universe(), j.RightDays(reg), env, day);
    }
  }

  /** The days of the first occurrence are days of the second, or the second has none. */
  ghost predicate SharingHarmless(j: SelfJoin, reg: Registry)
    requires j.dataset in reg
  {
    var env := AnyMeaning().env;
    || (forall day :: Wide(day) && Contains(j.LeftDays(reg), env, day) ==> Contains(j.RightDays(reg), env, day))
    || (forall day :: Wide(day) ==> !Contains(j.RightDays(reg), env, day))
  }

  ghost predicate SelfJoinParity(j: SelfJoin, reg: Registry, columns: set<string>, epochs: seq<seq<Tuple>>, m: Meaning)
  {
    var q, db := j.Statement(), Holding(j.dataset, columns, epochs);
    Answer(Transform(q, reg), reg, db, m) == Answer(q, reg, db, m)
  }

  lemma HarmlessAccepted(j: SelfJoin, reg: Registry, columns: set<string>, epochs: seq<seq<Tuple>>, m: Meaning,
                         row: Row)
    requires BoundsEach(j, reg, columns) && SharingHarmless(j, reg)
    requires WholeDays(Flatten(epochs), Fold(reg[j.dataset].timeColumn))
    requires CellsStored(row, j.Statement().from, Holding(j.dataset, columns, epochs))
    requires Holds(j.Statement().filter, j.Names(columns), m)(row)
    ensures Accepts(Guards(j.Statement().from, map[j.dataset := SharedRange(j, reg)], reg), row, m.env)
  {
    var c := Fold(reg[j.dataset].timeColumn);
    var f, db := j.Statement().from, Holding(j.dataset, columns, epochs);
    PairLeaves(j);
    forall p | 0 <= p < 2 ensures row[p].Some? ==> Dated(row[p].value, c) && row[p].value[c].tick == 0 {
      assert SourceName(Leaves(f)[p]) == j.dataset;
    }
    DemandsOf(j, reg, columns, row, m);
    SharedRangeIsLast(j, reg, columns);
    var x, y := Cell(row, 0, c).day, Cell(row, 1, c).day;
    assert Wide(x) && Contains(j.LeftDays(reg), AnyMeaning().env, x);
    assert Wide(y) && Contains(j.RightDays(reg), AnyMeaning().env, y);
    assert Contains(SharedRange(j, reg), m.env, x) && Contains(SharedRange(j, reg), m.env, y);
  }

  lemma PairLeaves(j: SelfJoin)
    ensures Leaves(j.Statement().from) == [Table(j.dataset, Some(j.a)), Table(j.dataset, Some(j.b))]
  {
    var f := j.Statement().from;
    assert Leaves(f.left) == [f.left] && Leaves(f.right) == [f.right];
    assert Leaves(f) == Leaves(f.left) + Leaves(f.right);
  }

  lemma PairLeavesOk(j: SelfJoin, reg: Registry, columns: set<string>, epochs: seq<seq<Tuple>>)
    requires BoundsEach(j, reg, columns) && WholeDays(Flatten(epochs), Fold(reg[j.dataset].timeColumn))
    ensures var db, ranges := Holding(j.dataset, columns, epochs), map[j.dataset := SharedRange(j, reg)];
            LeavesOk(j.Statement().from, ranges, reg, db, {}, {})
  {
    PairLeaves(j);
  }

  lemma HarmlessKeepsResult(j: SelfJoin, reg: Registry, columns: set<string>, epochs: seq<seq<Tuple>>, m: Meaning)
    requires BoundsEach(j, reg, columns) && SharingHarmless(j, reg)
    requires WholeDays(Flatten(epochs), Fold(reg[j.dataset].timeColumn))
    ensures SelfJoinParity(j, reg, columns, epochs, m)
  {
    var q, db := j.Statement(), Holding(j.dataset, columns, epochs);
    var ranges := map[j.dataset := SharedRange(j, reg)];
    SharedRangeIsLast(j, reg, columns);
    assert ScopeOf(q.from, db) == j.Names(columns);
    PairLeavesOk(j, reg, columns, epochs);
    forall row | CellsStored(row, q.from, db) && Holds(q.filter, ScopeOf(q.from, db), m)(row)
      ensures Accepts(Guards(q.from, ranges, reg), row, m.env)
    {
      HarmlessAccepted(j, reg, columns, epochs, m, row);
    }
    NothingLost(q.filter.value);
    ParityFromGuards(q, ranges, reg, db, m, {}, {});
  }

  lemma {:induction false} NothingLost(e: Expr)
    ensures !Qualifies(e, {})
  {
    match e
    case Cast(inner, _) => NothingLost(inner);
    case BinaryOp(l, _, r) =>
      NothingLost(l);
      NothingLost(r);
    case Between(x, low, high, _) =>
      NothingLost(x);
      NothingLost(low);
      NothingLost(high);
    case Nested(inner) => NothingLost(inner);
    case _ =>
  }

  lemma {:induction false} MatchIsKept(l: Row, rs: seq<Row>, on: Row -> bool, r: Row)
    requires r in rs && on(l + r)
    ensures l + r in Matches(l, rs, on)
  {
    if r != rs[0] {
      MatchIsKept(l, rs[1..], on, r);
    }
  }

  lemma {:induction false} PairIsJoined(ls: seq<Row>, rs: seq<Row>, on: Row -> bool, pad: bool, w: nat, l: Row, r: Row)
    requires l in ls && r in rs && on(l + r)
    ensures l + r in LeftPart(ls, rs, on, pad, w)
  {
    if l == ls[0] {
      MatchIsKept(l, rs, on, r);
    } else {
      PairIsJoined(ls[1..], rs, on, pad, w, l, r);
    }
  }

  lemma PairIsEvaluated(f: From, reg: Registry, db: Database, m: Meaning, l: Row, r: Row)
    requires f.Join? && l in Eval(f.left, reg, db, m) && r in Eval(f.right, reg, db, m)
    requires Holds(f.on, ScopeOf(f, db), m)(l + r)
    ensures l + r in Eval(f, reg, db, m)
  {
    var pad := f.kind.LeftOuter? || f.kind.FullOuter?;
    PairIsJoined(Eval(f.left, reg, db, m), Eval(f.right, reg, db, m), Holds(f.on, ScopeOf(f, db), m), pad,
                 |Leaves(f.right)|, l, r);
  }

  /** The first tuple of a row of a self-join passed the scan. */
  lemma FirstWasScanned(f: From, reg: Registry, db: Database, m: Meaning, row: Row, u: Tuple)
    requires f.Join? && f.left.Scan? && f.left.dataset in reg
    requires row in Eval(f, reg, db, m) && row != [] && row[0] == Some(u)
    ensures ScanKeeps(u, Fold(reg[f.left.dataset].timeColumn), f.left.range, m.env)
  {
    var ls, rs, on := Eval(f.left, reg, db, m), Eval(f.right, reg, db, m), Holds(f.on, ScopeOf(f, db), m);
    var wl, wr := |Leaves(f.left)|, |Leaves(f.right)|;
    var pad := f.kind.LeftOuter? || f.kind.FullOuter?;
    if row in LeftPart(ls, rs, on, pad, wr) {
      LeftPartMembers(ls, rs, on, pad, wr, row);
      var l, r :| l in ls && (r in rs || r == Nulls(wr)) && row == l + r;
      assert l == [Some(u)];
      ScanSubset(StoredRows(f.left.dataset, db), Fold(reg[f.left.dataset].timeColumn), f.left.range, m.env);
    } else {
      RightPartMembers(ls, rs, on, wl, row);
    }
  }

  function OneTuple(column: string, day: int): Tuple { map[column := Time(day, 0)] }

  lemma PairOfDays(j: SelfJoin, reg: Registry, columns: set<string>, m: Meaning, x: int, y: int)
    requires BoundsEach(j, reg, columns) && Wide(x) && Wide(y)
    requires Contains(j.LeftDays(reg), AnyMeaning().env, x) && Contains(j.RightDays(reg), AnyMeaning().env, y)
    ensures var c := Fold(reg[j.dataset].timeColumn);
            var db := Holding(j.dataset, columns, [[OneTuple(c, x), OneTuple(c, y)]]);
            [Some(OneTuple(c, x)), Some(OneTuple(c, y))] in Answer(j.Statement(), reg, db, m)
  {
    var c := Fold(reg[j.dataset].timeColumn);
    var u, v := OneTuple(c, x), OneTuple(c, y);
    var q, db := j.Statement(), Holding(j.dataset, columns, [[u, v]]);
    var row := [Some(u), Some(v)];
    OneEpoch([u, v]);
    var stored := Singles([u, v]);
    assert stored[0] == [Some(u)] && stored[1] == [Some(v)] && row == stored[0] + stored[1];
    assert Eval(q.from.left, reg, db, m) == stored && Eval(q.from.right, reg, db, m) == stored;
    PairIsEvaluated(q.from, reg, db, m, stored[0], stored[1]);
    DemandsOf(j, reg, columns, row, m);
    assert ScopeOf(q.from, db) == j.Names(columns);
    SelectMembers(Eval(q.from, reg, db, m), Holds(q.filter, ScopeOf(q.from, db), m));
  }

  lemma OneEpoch(rows: seq<Tuple>)
    ensures Flatten([rows]) == rows
  {
    assert [rows][1..] == [];
  }

  lemma TransformedPair(j: SelfJoin, reg: Registry, columns: set<string>)
    requires BoundsEach(j, reg, columns)
    ensures var f := Transform(j.Statement(), reg).from;
            f.Join? && f.left.Scan? && f.left.dataset == j.dataset && f.left.range == SharedRange(j, reg)
  {
    SharedRangeIsLast(j, reg, columns);
    var ranges := map[j.dataset := SharedRange(j, reg)];
    var t := Table(j.dataset, Some(j.a));
    assert Rewrite(t, ranges, reg) == Scan(j.dataset, reg[j.dataset].macroName, Some(j.a), ranges[j.dataset]);
    assert Transform(j.Statement(), reg).from.left == Rewrite(t, ranges, reg);
  }

  /** Otherwise two rows are enough to lose one of the result. */
  lemma HarmLosesRow(j: SelfJoin, reg: Registry, columns: set<string>, m: Meaning, x: int, y: int)
    requires BoundsEach(j, reg, columns) && Wide(x) && Wide(y)
    requires Contains(j.LeftDays(reg), AnyMeaning().env, x) && Contains(j.RightDays(reg), AnyMeaning().env, y)
    requires !Contains(j.RightDays(reg), AnyMeaning().env, x)
    ensures var c := Fold(reg[j.dataset].timeColumn);
            !SelfJoinParity(j, reg, columns, [[OneTuple(c, x), OneTuple(c, y)]], m)
  {
    var c := Fold(reg[j.dataset].timeColumn);
    var u, v := OneTuple(c, x), OneTuple(c, y);
    var q, db := j.Statement(), Holding(j.dataset, columns, [[u, v]]);
    PairOfDays(j, reg, columns, m, x, y);
    SharedRangeIsLast(j, reg, columns);
    TransformedPair(j, reg, columns);
    var q' := Transform(q, reg);
    var row := [Some(u), Some(v)];
    SelectMembers(Eval(q'.from, reg, db, m), Holds(q'.filter, ScopeOf(q'.from, db), m));
    if row in Answer(q', reg, db, m) {
      FirstWasScanned(q'.from, reg, db, m, row, u);
    }
  }

  /**
   Ranges are kept per dataset, so both occurrences are scanned with the range of the second.  The self-join
   keeps its result, for all contents, exactly when the days of the first occurrence are days of the second
   or the second has no days.
   */
  lemma SelfJoinParityIff(j: SelfJoin, reg: Registry, columns: set<string>)
    requires BoundsEach(j, reg, columns)
    ensures (forall epochs, m: Meaning :: WholeDays(Flatten(epochs), Fold(reg[j.dataset].timeColumn)) ==>
               SelfJoinParity(j, reg, columns, epochs, m))
            <==> SharingHarmless(j, reg)
  {
    var c, env := Fold(reg[j.dataset].timeColumn), AnyMeaning().env;
    if SharingHarmless(j, reg) {
      forall epochs, m: Meaning | WholeDays(Flatten(epochs), c) ensures SelfJoinParity(j, reg, columns, epochs, m) {
        HarmlessKeepsResult(j, reg, columns, epochs, m);
      }
    } else {
      var x :| Wide(x) && Contains(j.LeftDays(reg), env, x) && !Contains(j.RightDays(reg), env, x);
      var y :| Wide(y) && Contains(j.RightDays(reg), env, y);
      HarmLosesRow(j, reg, columns, AnyMeaning(), x, y);
      OneEpoch([OneTuple(c, x), OneTuple(c, y)]);
      assert WholeDays(Flatten([[OneTuple(c, x), OneTuple(c, y)]]), c);
    }
  }

  function Sales(): Registry { map["sales" := Dataset("dt", "scan_sales")] }

  function On(name: string, day: int): Expr
  {
    BinaryOp(CompoundIdentifier([name, "dt"]), Eq, StringLiteral(DateText(day)))
  }

  /** `SELECT * FROM sales a JOIN sales b WHERE a.dt = day 1 AND b.dt = day 2`. */
  function TwoDaysApart(): SelfJoin { SelfJoin(Inner, "sales", "a", "b", On("a", 1), On("b", 2)) }

  lemma TwoDaysApartBounds()
    ensures BoundsEach(TwoDaysApart(), Sales(), {"dt"})
    ensures TwoDaysApart().LeftDays(Sales()) == Point(Literal(1))
    ensures TwoDaysApart().RightDays(Sales()) == Point(Literal(2))
  {
    assert Fold("a") == "a" && Fold("b") == "b" && Fold("dt") == "dt" && "a" != "b";
    var scope := TwoDaysApart().Names({"dt"});
    assert scope[0].name == "a" && scope[1].name == "b";
    assert NamePosition(scope, "a") == 0 && NamePosition(scope, "b") == 1;
  }

  /** The transformed query does not return what the query returns. */
  lemma SelfJoinChangesResult(m: Meaning)
    ensures var q, db := TwoDaysApart().Statement(), Holding("sales", {"dt"}, [[OneTuple("dt", 1), OneTuple("dt", 2)]]);
            Answer(Transform(q, Sales()), Sales(), db, m) != Answer(q, Sales(), db, m)
  {
    TwoDaysApartBounds();
    assert Fold("dt") == "dt";
    HarmLosesRow(TwoDaysApart(), Sales(), {"dt"}, m, 1, 2);
  }

  /** In a query on `sales` the column `sales.dt` resolves; in the transformed query it does not. */
  lemma QualifiedColumnIsLost()
    ensures var q, db := Query(Table("sales", None), None), Holding("sales", {"dt"}, []);
            var e := CompoundIdentifier(["sales", "dt"]);
            Binds(e, ScopeOf(q.from, db)) && !Binds(e, ScopeOf(Transform(q, Sales()).from, db))
  {
    var q, db := Query(Table("sales", None), None), Holding("sales", {"dt"}, []);
    var e := CompoundIdentifier(["sales", "dt"]);
    var leaves := Leaves(q.from);
    assert leaves == [Table("sales", None)] && leaves[0].name in Sales();
    assert |Fold("sales")| == 5 && |Fold("scan_sales")| == 10 && Fold("dt") == "dt";
    assert GainedNames(leaves, Sales()) == {Fold("scan_sales")};
    assert Fold(EffectiveName(leaves[0])) in LostNames(leaves, Sales());
    assert NamePosition(ScopeOf(q.from, db), Fold("sales")) == 0;
    TransformBindsIff(e, q, Sales(), db);
  }
}
