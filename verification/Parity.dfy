/**
 Date-range pruning as a query rewrite.  A logical dataset is the union of its epoch tables; the
 transformer replaces it by `scan_X(start, end)`, which filters that union by the date bounds found in
 the WHERE clause, and keeps the WHERE clause.  The main theorem says the result does not change.
 */
module Parity {
  import opened Common
  import opened Intervals
  import opened Predicates

  // ---------------------------------------------------------------------------
  // Queries and databases
  // ---------------------------------------------------------------------------

  datatype Kind = Inner | LeftOuter | RightOuter | FullOuter

  /** A FROM clause; a cross join is an inner join without a condition. */
  datatype From =
    | Table(name: string, alias: Option<string>)
    | Scan(dataset: string, macroName: string, alias: Option<string>, range: Interval)
    | Join(kind: Kind, left: From, right: From, on: Option<Expr>)

  datatype Query = Query(from: From, filter: Option<Expr>)

  datatype Dataset = Dataset(timeColumn: string, macroName: string)

  type Registry = map<string, Dataset>

  /** Epoch tables per logical dataset, ordinary tables, and the (folded) columns of both. */
  datatype Database = Database(
    epochs: map<string, seq<seq<Tuple>>>,
    tables: map<string, seq<Tuple>>,
    columns: map<string, set<string>>)

  function EffectiveName(t: From): string
    requires !t.Join?
  {
    if t.alias.Some? then t.alias.value else if t.Table? then t.name else t.macroName
  }

  function SourceName(t: From): string
    requires !t.Join?
  {
    if t.Table? then t.name else t.dataset
  }

  function Leaves(f: From): (s: seq<From>)
    ensures s != [] && forall i :: 0 <= i < |s| ==> !s[i].Join?
  {
    if f.Join? then Leaves(f.left) + Leaves(f.right) else [f]
  }

  function RelationOf(t: From, db: Database): Relation
    requires !t.Join?
  {
    Relation(Fold(EffectiveName(t)), if SourceName(t) in db.columns then db.columns[SourceName(t)] else {})
  }

  function ScopeOf(f: From, db: Database): (s: Scope)
    ensures |s| == |Leaves(f)|
    ensures forall i :: 0 <= i < |s| ==> s[i] == RelationOf(Leaves(f)[i], db)
  {
    if f.Join? then ScopeOf(f.left, db) + ScopeOf(f.right, db) else [RelationOf(f, db)]
  }

  // ---------------------------------------------------------------------------
  // Meaning
  // ---------------------------------------------------------------------------

  function StoredRows(name: string, db: Database): seq<Tuple>
  {
    if name in db.epochs then Flatten(db.epochs[name]) else if name in db.tables then db.tables[name] else []
  }

  /** `CAST(column AS DATE) >= start AND CAST(column AS DATE) < end`, open ends filled by the wide scan. */
  predicate ScanKeeps(t: Tuple, column: string, range: Interval, env: Env)
  {
    var start := if range.start.Some? then DayOf(range.start.value, env) else WIDE_SCAN_START;
    var end := if range.end.Some? then DayOf(range.end.value, env) else WIDE_SCAN_END;
    column in t && t[column].Time? && start <= t[column].day < end
  }

  function ScanRows(rows: seq<Tuple>, column: string, range: Interval, env: Env): seq<Tuple>
  {
    if rows == [] then []
    else (if ScanKeeps(rows[0], column, range, env) then [rows[0]] else []) + ScanRows(rows[1..], column, range, env)
  }

  function LeafTuples(t: From, reg: Registry, db: Database, env: Env): seq<Tuple>
    requires !t.Join?
  {
    if t.Table? then StoredRows(t.name, db)
    else if t.dataset in reg then ScanRows(StoredRows(t.dataset, db), Fold(reg[t.dataset].timeColumn), t.range, env)
    else []
  }

  function Singles(ts: seq<Tuple>): (rows: seq<Row>)
    ensures |rows| == |ts| && forall i :: 0 <= i < |ts| ==> rows[i] == [Some(ts[i])]
  {
    seq(|ts|, i requires 0 <= i < |ts| => [Some(ts[i])])
  }

  function Nulls(n: nat): (row: Row)
    ensures |row| == n && forall i :: 0 <= i < n ==> row[i].None?
  {
    seq(n, _ => None)
  }

  function Matches(l: Row, rs: seq<Row>, on: Row -> bool): seq<Row>
  {
    if rs == [] then [] else (if on(l + rs[0]) then [l + rs[0]] else []) + Matches(l, rs[1..], on)
  }

  /** All pairs that satisfy the condition; with `pad`, unmatched left rows are null-extended. */
  function LeftPart(ls: seq<Row>, rs: seq<Row>, on: Row -> bool, pad: bool, width: nat): seq<Row>
  {
    if ls == [] then []
    else
      var ms := Matches(ls[0], rs, on);
      (if ms == [] && pad then [ls[0] + Nulls(width)] else ms) + LeftPart(ls[1..], rs, on, pad, width)
  }

  predicate Matched(ls: seq<Row>, r: Row, on: Row -> bool)
  {
    exists i :: 0 <= i < |ls| && on(ls[i] + r)
  }

  /** The unmatched right rows, null-extended on the left. */
  function RightPart(ls: seq<Row>, rs: seq<Row>, on: Row -> bool, width: nat): seq<Row>
  {
    if rs == [] then []
    else (if Matched(ls, rs[0], on) then [] else [Nulls(width) + rs[0]]) + RightPart(ls, rs[1..], on, width)
  }

  function JoinRows(kind: Kind, ls: seq<Row>, rs: seq<Row>, on: Row -> bool, wl: nat, wr: nat): seq<Row>
  {
    LeftPart(ls, rs, on, kind.LeftOuter? || kind.FullOuter?, wr)
    + (if kind.RightOuter? || kind.FullOuter? then RightPart(ls, rs, on, wl) else [])
  }

  function Holds(e: Option<Expr>, scope: Scope, m: Meaning): Row -> bool
  {
    (row: Row) => e.None? || EvalBool(e.value, scope, row, m) == True
  }

  function Eval(f: From, reg: Registry, db: Database, m: Meaning): seq<Row>
  {
    if f.Join? then
      JoinRows(f.kind, Eval(f.left, reg, db, m), Eval(f.right, reg, db, m), Holds(f.on, ScopeOf(f, db), m),
               |Leaves(f.left)|, |Leaves(f.right)|)
    else Singles(LeafTuples(f, reg, db, m.env))
  }

  function Select(rows: seq<Row>, p: Row -> bool): seq<Row>
  {
    if rows == [] then [] else (if p(rows[0]) then [rows[0]] else []) + Select(rows[1..], p)
  }

  /** The rows of `SELECT * FROM from WHERE filter`. */
  function Answer(q: Query, reg: Registry, db: Database, m: Meaning): seq<Row>
  {
    Select(Eval(q.from, reg, db, m), Holds(q.filter, ScopeOf(q.from, db), m))
  }

  // ---------------------------------------------------------------------------
  // The transformer
  // ---------------------------------------------------------------------------

  /** One interval per dataset; a later reference to the same dataset overwrites an earlier one. */
  function Ranges(leaves: seq<From>, filter: Option<Expr>, reg: Registry): map<string, Interval>
    requires forall i :: 0 <= i < |leaves| ==> !leaves[i].Join?
  {
    if leaves == [] then map[]
    else
      var rest := Ranges(leaves[..|leaves| - 1], filter, reg);
      var t := leaves[|leaves| - 1];
      if t.Table? && t.name in reg then rest[t.name := RangeOf(t, filter, reg)] else rest
  }

  function RangeOf(t: From, filter: Option<Expr>, reg: Registry): Interval
    requires t.Table? && t.name in reg
  {
    if filter.None? then Universe() else Analyze(filter.value, EffectiveName(t), reg[t.name].timeColumn)
  }

  /** The loop that fills the interval map, table reference by table reference. */
  method ExtractIntervals(e: Expr, tables: seq<From>, reg: Registry) returns (intervals: map<string, Interval>)
    requires forall i :: 0 <= i < |tables| ==> tables[i].Table?
    ensures intervals == Ranges(tables, Some(e), reg)
  {
    intervals := map[];
    for i := 0 to |tables|
      invariant intervals == Ranges(tables[..i], Some(e), reg)
    {
      assert tables[..i + 1][..i] == tables[..i];
      if tables[i].name in reg {
        intervals := intervals[tables[i].name := Analyze(e, EffectiveName(tables[i]), reg[tables[i].name].timeColumn)];
      }
    }
    assert tables[..|tables|] == tables;
  }

  function Rewrite(f: From, ranges: map<string, Interval>, reg: Registry): (g: From)
    ensures |Leaves(g)| == |Leaves(f)|
  {
    match f
    case Join(k, l, r, on) => Join(k, Rewrite(l, ranges, reg), Rewrite(r, ranges, reg), on)
    case Table(name, alias) =>
      if name in ranges && name in reg then Scan(name, reg[name].macroName, alias, ranges[name]) else f
    case Scan(_, _, _, _) => f
  }

  function Transform(q: Query, reg: Registry): Query
  {
    Query(Rewrite(q.from, Ranges(Leaves(q.from), q.filter, reg), reg), q.filter)
  }

  // ---------------------------------------------------------------------------
  // Rows that can still pass the WHERE clause
  // ---------------------------------------------------------------------------

  /** What a pruned table demands of its part of a joined row. */
  datatype Guard = Free | Within(column: string, range: Interval)

  predicate Admits(g: Guard, cell: Option<Tuple>, env: Env)
  {
    g.Within? ==> cell.Some? && g.column in cell.value && cell.value[g.column].Time?
                  && Contains(g.range, env, cell.value[g.column].day)
  }

  predicate Accepts(gs: seq<Guard>, row: Row, env: Env)
  {
    |row| == |gs| && forall i :: 0 <= i < |gs| ==> Admits(gs[i], row[i], env)
  }

  predicate AllFree(gs: seq<Guard>) { forall i :: 0 <= i < |gs| ==> gs[i].Free? }

  function Restrict(rows: seq<Row>, gs: seq<Guard>, env: Env): seq<Row>
  {
    Select(rows, row => Accepts(gs, row, env))
  }

  predicate Width(rows: seq<Row>, n: nat) { forall i :: 0 <= i < |rows| ==> |rows[i]| == n }

  lemma {:induction false} SelectAppend(a: seq<Row>, b: seq<Row>, p: Row -> bool)
    ensures Select(a + b, p) == Select(a, p) + Select(b, p)
  {
    if a == [] {
      assert a + b == b;
    } else {
      assert (a + b)[1..] == a[1..] + b;
      SelectAppend(a[1..], b, p);
    }
  }

  lemma {:induction false} SelectCongruent(rows: seq<Row>, p: Row -> bool, q: Row -> bool)
    requires forall row :: row in rows ==> p(row) == q(row)
    ensures Select(rows, p) == Select(rows, q)
  {
    if rows != [] {
      SelectCongruent(rows[1..], p, q);
    }
  }

  /** Selecting by a stronger condition first changes nothing. */
  lemma {:induction false} SelectTwice(rows: seq<Row>, p: Row -> bool, q: Row -> bool)
    requires forall row :: row in rows && q(row) ==> p(row)
    ensures Select(Select(rows, p), q) == Select(rows, q)
  {
    if rows != [] {
      SelectTwice(rows[1..], p, q);
      if p(rows[0]) {
        SelectAppend([rows[0]], Select(rows[1..], p), q);
      } else {
        assert [] + Select(rows[1..], p) == Select(rows[1..], p);
      }
    }
  }

  lemma {:induction false} SelectMembers(rows: seq<Row>, p: Row -> bool)
    ensures forall row :: row in Select(rows, p) <==> row in rows && p(row)
  {
    if rows != [] {
      SelectMembers(rows[1..], p);
      assert rows == [rows[0]] + rows[1..];
    }
  }

  lemma {:induction false} RestrictFree(rows: seq<Row>, gs: seq<Guard>, env: Env)
    requires Width(rows, |gs|) && AllFree(gs)
    ensures Restrict(rows, gs, env) == rows
  {
    if rows != [] {
      assert forall i :: 0 <= i < |rows[1..]| ==> rows[1..][i] == rows[i + 1];
      RestrictFree(rows[1..], gs, env);
      assert rows == [rows[0]] + rows[1..];
    }
  }

  lemma AcceptsSplit(gl: seq<Guard>, gr: seq<Guard>, l: Row, r: Row, env: Env)
    requires |l| == |gl| && |r| == |gr|
    ensures Accepts(gl + gr, l + r, env) <==> Accepts(gl, l, env) && Accepts(gr, r, env)
  {
    if Accepts(gl + gr, l + r, env) {
      forall i | 0 <= i < |gl| ensures Admits(gl[i], l[i], env) {
        assert (gl + gr)[i] == gl[i] && (l + r)[i] == l[i];
      }
      forall i | 0 <= i < |gr| ensures Admits(gr[i], r[i], env) {
        assert (gl + gr)[|gl| + i] == gr[i] && (l + r)[|gl| + i] == r[i];
      }
    }
  }

  lemma NullsAccepted(gs: seq<Guard>, env: Env)
    ensures Accepts(gs, Nulls(|gs|), env) <==> AllFree(gs)
  {
    if Accepts(gs, Nulls(|gs|), env) {
      forall i | 0 <= i < |gs| ensures gs[i].Free? {
        assert Admits(gs[i], Nulls(|gs|)[i], env);
      }
    }
  }

  lemma RestrictAppend(a: seq<Row>, b: seq<Row>, gs: seq<Guard>, env: Env)
    ensures Restrict(a + b, gs, env) == Restrict(a, gs, env) + Restrict(b, gs, env)
  {
    SelectAppend(a, b, row => Accepts(gs, row, env));
  }

  lemma RestrictCons(rows: seq<Row>, gs: seq<Guard>, env: Env)
    requires rows != []
    ensures Restrict(rows, gs, env)
            == if Accepts(gs, rows[0], env) then [rows[0]] + Restrict(rows[1..], gs, env)
               else Restrict(rows[1..], gs, env)
  {
    var tail := Restrict(rows[1..], gs, env);
    assert [] + tail == tail;
  }

  /** One more row on the right, before and after pruning. */
  lemma RestrictMatch(l: Row, r: Row, tail: seq<Row>, on: Row -> bool, gl: seq<Guard>, gr: seq<Guard>, env: Env)
    requires |l| == |gl| && |r| == |gr|
    ensures Restrict(Matches(l, [r] + tail, on), gl + gr, env)
            == (if on(l + r) && Accepts(gl, l, env) && Accepts(gr, r, env) then [l + r] else [])
               + Restrict(Matches(l, tail, on), gl + gr, env)
  {
    assert ([r] + tail)[1..] == tail;
    AcceptsSplit(gl, gr, l, r, env);
    RestrictAppend(if on(l + r) then [l + r] else [], Matches(l, tail, on), gl + gr, env);
    RestrictOne(l + r, gl + gr, env);
  }

  lemma {:induction false} RestrictMatches(l: Row, rs: seq<Row>, on: Row -> bool, gl: seq<Guard>, gr: seq<Guard>,
                                           env: Env)
    requires |l| == |gl| && Width(rs, |gr|)
    ensures Restrict(Matches(l, rs, on), gl + gr, env)
            == if Accepts(gl, l, env) then Matches(l, Restrict(rs, gr, env), on) else []
  {
    if rs == [] {
      RestrictOne([], gl + gr, env);
    } else {
      var r, tail := rs[0], rs[1..];
      assert forall i :: 0 <= i < |tail| ==> tail[i] == rs[i + 1];
      assert rs == [r] + tail;
      RestrictMatches(l, tail, on, gl, gr, env);
      RestrictMatch(l, r, tail, on, gl, gr, env);
      RestrictCons(rs, gr, env);
      if Accepts(gr, r, env) {
        assert Restrict(rs, gr, env)[1..] == Restrict(tail, gr, env);
      }
    }
  }

  lemma RestrictOne(row: Row, gs: seq<Guard>, env: Env)
    ensures Restrict([], gs, env) == []
    ensures Restrict([row], gs, env) == if Accepts(gs, row, env) then [row] else []
  {
    RestrictCons([row], gs, env);
    assert [row][1..] == [];
  }

  /** Pruning commutes with the matched part of a join; padded rows survive only if the right side is free. */
  lemma {:induction false} RestrictLeftPart(ls: seq<Row>, rs: seq<Row>, on: Row -> bool, pad: bool, gl: seq<Guard>,
                                            gr: seq<Guard>, env: Env)
    requires Width(ls, |gl|) && Width(rs, |gr|)
    ensures Restrict(LeftPart(ls, rs, on, pad, |gr|), gl + gr, env)
            == LeftPart(Restrict(ls, gl, env), Restrict(rs, gr, env), on, pad && AllFree(gr), |gr|)
  {
    if ls != [] {
      var l, tail := ls[0], ls[1..];
      assert forall i :: 0 <= i < |tail| ==> tail[i] == ls[i + 1];
      RestrictLeftPart(tail, rs, on, pad, gl, gr, env);
      var ms := Matches(l, rs, on);
      var first := if ms == [] && pad then [l + Nulls(|gr|)] else ms;
      RestrictAppend(first, LeftPart(tail, rs, on, pad, |gr|), gl + gr, env);
      RestrictFirst(l, rs, on, pad, gl, gr, env);
      RestrictCons(ls, gl, env);
      var rest := LeftPart(Restrict(tail, gl, env), Restrict(rs, gr, env), on, pad && AllFree(gr), |gr|);
      assert [] + rest == rest;
      if Accepts(gl, l, env) {
        assert Restrict(ls, gl, env)[1..] == Restrict(tail, gl, env);
      }
    }
  }

  lemma RestrictFirst(l: Row, rs: seq<Row>, on: Row -> bool, pad: bool, gl: seq<Guard>, gr: seq<Guard>, env: Env)
    requires |l| == |gl| && Width(rs, |gr|)
    ensures var ms, ns := Matches(l, rs, on), Matches(l, Restrict(rs, gr, env), on);
            Restrict(if ms == [] && pad then [l + Nulls(|gr|)] else ms, gl + gr, env)
            == if !Accepts(gl, l, env) then []
               else if ns == [] && pad && AllFree(gr) then [l + Nulls(|gr|)] else ns
  {
    RestrictMatches(l, rs, on, gl, gr, env);
    if AllFree(gr) {
      RestrictFree(rs, gr, env);
    }
    AcceptsSplit(gl, gr, l, Nulls(|gr|), env);
    NullsAccepted(gr, env);
    RestrictOne(l + Nulls(|gr|), gl + gr, env);
  }

  lemma {:induction false} RestrictRightPart(ls: seq<Row>, rs: seq<Row>, on: Row -> bool, gl: seq<Guard>,
                                             gr: seq<Guard>, env: Env)
    requires Width(rs, |gr|)
    ensures Restrict(RightPart(ls, rs, on, |gl|), gl + gr, env)
            == if AllFree(gl) then RightPart(ls, Restrict(rs, gr, env), on, |gl|) else []
  {
    if rs == [] {
      RestrictOne([], gl + gr, env);
    } else {
      var r, tail := rs[0], rs[1..];
      assert forall i :: 0 <= i < |tail| ==> tail[i] == rs[i + 1];
      RestrictRightPart(ls, tail, on, gl, gr, env);
      RightPartStep(ls, r, tail, on, gl, gr, env);
      RestrictCons(rs, gr, env);
      if Accepts(gr, r, env) {
        assert Restrict(rs, gr, env)[1..] == Restrict(tail, gr, env);
      }
    }
  }

  lemma RightPartStep(ls: seq<Row>, r: Row, tail: seq<Row>, on: Row -> bool, gl: seq<Guard>, gr: seq<Guard>, env: Env)
    requires |r| == |gr|
    ensures Restrict(RightPart(ls, [r] + tail, on, |gl|), gl + gr, env)
            == (if !Matched(ls, r, on) && AllFree(gl) && Accepts(gr, r, env) then [Nulls(|gl|) + r] else [])
               + Restrict(RightPart(ls, tail, on, |gl|), gl + gr, env)
  {
    assert ([r] + tail)[1..] == tail;
    var first := if Matched(ls, r, on) then [] else [Nulls(|gl|) + r];
    RestrictAppend(first, RightPart(ls, tail, on, |gl|), gl + gr, env);
    RestrictOne(Nulls(|gl|) + r, gl + gr, env);
    AcceptsSplit(gl, gr, Nulls(|gl|), r, env);
    NullsAccepted(gl, env);
  }

  /**
   What can still pass the filters of a join is determined by what can still pass the filters of its
   inputs, for every kind of join.
   */
  lemma {:induction false} JoinParity(kind: Kind, ls: seq<Row>, rs: seq<Row>, ls': seq<Row>, rs': seq<Row>,
                                      on: Row -> bool, gl: seq<Guard>, gr: seq<Guard>, env: Env)
    requires Width(ls, |gl|) && Width(rs, |gr|) && Width(ls', |gl|) && Width(rs', |gr|)
    requires Restrict(ls, gl, env) == Restrict(ls', gl, env)
    requires Restrict(rs, gr, env) == Restrict(rs', gr, env)
    ensures Restrict(JoinRows(kind, ls, rs, on, |gl|, |gr|), gl + gr, env)
            == Restrict(JoinRows(kind, ls', rs', on, |gl|, |gr|), gl + gr, env)
  {
    var pad, keep := kind.LeftOuter? || kind.FullOuter?, kind.RightOuter? || kind.FullOuter?;
    RestrictLeftPart(ls, rs, on, pad, gl, gr, env);
    RestrictLeftPart(ls', rs', on, pad, gl, gr, env);
    RestrictRightPart(ls, rs, on, gl, gr, env);
    RestrictRightPart(ls', rs', on, gl, gr, env);
    if AllFree(gl) {
      RestrictFree(ls, gl, env);
      RestrictFree(ls', gl, env);
    }
    RestrictAppend(LeftPart(ls, rs, on, pad, |gr|), if keep then RightPart(ls, rs, on, |gl|) else [], gl + gr, env);
    RestrictAppend(LeftPart(ls', rs', on, pad, |gr|), if keep then RightPart(ls', rs', on, |gl|) else [], gl + gr, env);
  }

  // ---------------------------------------------------------------------------
  // Names after the rewrite
  // ---------------------------------------------------------------------------

  /** A reference qualified by one of the given (folded) names. */
  predicate Qualifies(e: Expr, names: set<string>)
  {
    match e
    case CompoundIdentifier(parts) => |parts| >= 2 && Fold(parts[|parts| - 2]) in names
    case Cast(inner, _) => Qualifies(inner, names)
    case BinaryOp(l, _, r) => Qualifies(l, names) || Qualifies(r, names)
    case Between(x, low, high, _) => Qualifies(x, names) || Qualifies(low, names) || Qualifies(high, names)
    case Nested(inner) => Qualifies(inner, names)
    case _ => false
  }

  /** Same columns; names differ only where a relation named in `lost` got a name from `gained`. */
  ghost predicate Renamed(s: Scope, t: Scope, lost: set<string>, gained: set<string>)
  {
    && |s| == |t|
    && (forall i :: 0 <= i < |s| ==> s[i].columns == t[i].columns)
    && (forall i :: 0 <= i < |s| ==> s[i].name !in gained)
    && (forall i :: 0 <= i < |s| ==> if s[i].name in lost then t[i].name in gained else t[i].name == s[i].name)
  }

  lemma {:induction false} SameColumnPosition(s: Scope, t: Scope, lost: set<string>, gained: set<string>, c: string)
    requires Renamed(s, t, lost, gained)
    ensures ColumnPosition(s, c) == ColumnPosition(t, c)
    ensures BoundColumn(s, c) == BoundColumn(t, c)
  {
    var i, j := ColumnPosition(s, c), ColumnPosition(t, c);
    assert forall k :: 0 <= k < |s| ==> (c in s[k].columns <==> c in t[k].columns);
  }

  /** A bound name stays bound, to the same relation, exactly when it was not lost. */
  lemma {:induction false} SameNamePosition(s: Scope, t: Scope, lost: set<string>, gained: set<string>, n: string)
    requires Renamed(s, t, lost, gained) && BoundName(s, n)
    ensures BoundName(t, n) <==> n !in lost
    ensures n !in lost ==> NamePosition(s, n) == NamePosition(t, n)
  {
    var i := NamePosition(s, n);
    assert s[i].name == n;
    forall j | 0 <= j < |t| && t[j].name == n ensures s[j].name == n && n !in lost {
      assert t[j].name !in gained;
    }
    if n !in lost {
      assert t[i].name == n;
    }
  }

  /**
   A reference that resolved before the rewrite resolves after it, to the same column, exactly when it
   is not qualified by the name of a dataset without alias: the macro call is visible under another name.
   */
  lemma {:induction false} RewriteBindsIff(e: Expr, s: Scope, t: Scope, lost: set<string>, gained: set<string>)
    requires Renamed(s, t, lost, gained) && Binds(e, s)
    ensures Binds(e, t) <==> !Qualifies(e, lost)
  {
    match e
    case Identifier(x) => SameColumnPosition(s, t, lost, gained, Fold(x));
    case CompoundIdentifier(parts) =>
      if |parts| >= 2 {
        SameNamePosition(s, t, lost, gained, Fold(parts[|parts| - 2]));
      } else {
        SameColumnPosition(s, t, lost, gained, Fold(parts[0]));
      }
    case Cast(inner, _) => RewriteBindsIff(inner, s, t, lost, gained);
    case BinaryOp(l, _, r) =>
      RewriteBindsIff(l, s, t, lost, gained);
      RewriteBindsIff(r, s, t, lost, gained);
    case Between(x, low, high, _) =>
      RewriteBindsIff(x, s, t, lost, gained);
      RewriteBindsIff(low, s, t, lost, gained);
      RewriteBindsIff(high, s, t, lost, gained);
    case Nested(inner) => RewriteBindsIff(inner, s, t, lost, gained);
    case _ =>
  }

  lemma {:induction false} SameValue(e: Expr, s: Scope, t: Scope, lost: set<string>, gained: set<string>, row: Row,
                                     m: Meaning)
    requires Renamed(s, t, lost, gained) && Binds(e, s) && !Qualifies(e, lost)
    ensures EvalValue(e, s, row, m) == EvalValue(e, t, row, m)
  {
    match e
    case Identifier(x) => SameColumnPosition(s, t, lost, gained, Fold(x));
    case CompoundIdentifier(parts) =>
      if |parts| >= 2 {
        SameNamePosition(s, t, lost, gained, Fold(parts[|parts| - 2]));
      } else {
        SameColumnPosition(s, t, lost, gained, Fold(parts[0]));
      }
    case Cast(inner, _) => SameValue(inner, s, t, lost, gained, row, m);
    case Nested(inner) => SameValue(inner, s, t, lost, gained, row, m);
    case _ =>
  }

  lemma {:induction false} SameTruth(e: Expr, s: Scope, t: Scope, lost: set<string>, gained: set<string>, row: Row,
                                     m: Meaning)
    requires Renamed(s, t, lost, gained) && Binds(e, s) && !Qualifies(e, lost)
    ensures EvalBool(e, s, row, m) == EvalBool(e, t, row, m)
  {
    match e
    case BinaryOp(l, op, r) =>
      if op.And? || op.Or? {
        SameTruth(l, s, t, lost, gained, row, m);
        SameTruth(r, s, t, lost, gained, row, m);
      } else {
        SameValue(l, s, t, lost, gained, row, m);
        SameValue(r, s, t, lost, gained, row, m);
      }
    case Between(x, low, high, _) =>
      SameValue(x, s, t, lost, gained, row, m);
      SameValue(low, s, t, lost, gained, row, m);
      SameValue(high, s, t, lost, gained, row, m);
    case Nested(inner) => SameTruth(inner, s, t, lost, gained, row, m);
    case _ =>
  }

  // ---------------------------------------------------------------------------
  // Rows of a join
  // ---------------------------------------------------------------------------

  lemma {:induction false} MatchesMembers(l: Row, rs: seq<Row>, on: Row -> bool)
    ensures forall row :: row in Matches(l, rs, on) ==> exists r :: r in rs && row == l + r
  {
    if rs != [] {
      MatchesMembers(l, rs[1..], on);
      forall row | row in Matches(l, rs, on) ensures exists r :: r in rs && row == l + r {
        if row in Matches(l, rs[1..], on) {
          var r :| r in rs[1..] && row == l + r;
          assert r in rs;
        } else {
          assert row == l + rs[0] && rs[0] in rs;
        }
      }
    }
  }

  /** A row of the left part is a left row with a right row or with nulls. */
  lemma {:induction false} LeftPartMembers(ls: seq<Row>, rs: seq<Row>, on: Row -> bool, pad: bool, w: nat, row: Row)
    requires row in LeftPart(ls, rs, on, pad, w)
    ensures exists l, r :: l in ls && (r in rs || r == Nulls(w)) && row == l + r
  {
    var ms := Matches(ls[0], rs, on);
    if row in LeftPart(ls[1..], rs, on, pad, w) {
      LeftPartMembers(ls[1..], rs, on, pad, w, row);
      var l, r :| l in ls[1..] && (r in rs || r == Nulls(w)) && row == l + r;
      assert l in ls;
    } else if ms == [] && pad {
      assert row == ls[0] + Nulls(w) && ls[0] in ls;
    } else {
      assert row in ms;
      MatchesMembers(ls[0], rs, on);
      var r :| r in rs && row == ls[0] + r;
      assert ls[0] in ls;
    }
  }

  lemma {:induction false} RightPartMembers(ls: seq<Row>, rs: seq<Row>, on: Row -> bool, w: nat, row: Row)
    requires row in RightPart(ls, rs, on, w)
    ensures exists r :: r in rs && row == Nulls(w) + r
  {
    if row in RightPart(ls, rs[1..], on, w) {
      RightPartMembers(ls, rs[1..], on, w, row);
      var r :| r in rs[1..] && row == Nulls(w) + r;
      assert r in rs;
    } else {
      assert row == Nulls(w) + rs[0] && rs[0] in rs;
    }
  }

  /** Every tuple of the row is a stored tuple of the leaf at its position. */
  ghost predicate CellsStored(row: Row, f: From, db: Database)
  {
    && |row| == |Leaves(f)|
    && forall p :: 0 <= p < |row| && row[p].Some? ==> row[p].value in StoredRows(SourceName(Leaves(f)[p]), db)
  }

  lemma {:induction false} ScanSubset(rows: seq<Tuple>, column: string, range: Interval, env: Env)
    ensures forall t :: t in ScanRows(rows, column, range, env) <==> t in rows && ScanKeeps(t, column, range, env)
  {
    if rows != [] {
      ScanSubset(rows[1..], column, range, env);
      assert rows == [rows[0]] + rows[1..];
    }
  }

  lemma CellsJoin(f: From, l: Row, r: Row, db: Database)
    requires f.Join?
    requires CellsStored(l, f.left, db) || l == Nulls(|Leaves(f.left)|)
    requires CellsStored(r, f.right, db) || r == Nulls(|Leaves(f.right)|)
    ensures CellsStored(l + r, f, db)
  {
    var n := |Leaves(f.left)|;
    forall p | 0 <= p < |l + r| && (l + r)[p].Some?
      ensures (l + r)[p].value in StoredRows(SourceName(Leaves(f)[p]), db)
    {
      if p < n {
        assert (l + r)[p] == l[p] && Leaves(f)[p] == Leaves(f.left)[p];
      } else {
        assert (l + r)[p] == r[p - n] && Leaves(f)[p] == Leaves(f.right)[p - n];
      }
    }
  }

  lemma {:induction false} EvalRowsStored(f: From, reg: Registry, db: Database, m: Meaning, row: Row)
    requires row in Eval(f, reg, db, m)
    ensures CellsStored(row, f, db)
  {
    if f.Join? {
      var ls, rs, on := Eval(f.left, reg, db, m), Eval(f.right, reg, db, m), Holds(f.on, ScopeOf(f, db), m);
      var wl, wr := |Leaves(f.left)|, |Leaves(f.right)|;
      var pad := f.kind.LeftOuter? || f.kind.FullOuter?;
      var l, r;
      if row in LeftPart(ls, rs, on, pad, wr) {
        LeftPartMembers(ls, rs, on, pad, wr, row);
        l, r :| l in ls && (r in rs || r == Nulls(wr)) && row == l + r;
      } else {
        RightPartMembers(ls, rs, on, wl, row);
        l := Nulls(wl);
        r :| r in rs && row == l + r;
      }
      if l in ls {
        EvalRowsStored(f.left, reg, db, m, l);
      }
      if r in rs {
        EvalRowsStored(f.right, reg, db, m, r);
      }
      CellsJoin(f, l, r, db);
    } else if f.Scan? && f.dataset in reg {
      ScanSubset(StoredRows(f.dataset, db), Fold(reg[f.dataset].timeColumn), f.range, m.env);
    }
  }

  lemma EvalWidth(f: From, reg: Registry, db: Database, m: Meaning)
    ensures Width(Eval(f, reg, db, m), |Leaves(f)|)
  {
    var rows := Eval(f, reg, db, m);
    forall i | 0 <= i < |rows| ensures |rows[i]| == |Leaves(f)| {
      EvalRowsStored(f, reg, db, m, rows[i]);
    }
  }

  lemma {:induction false} MatchesCongruent(l: Row, rs: seq<Row>, on: Row -> bool, on': Row -> bool)
    requires forall row :: on(row) == on'(row)
    ensures Matches(l, rs, on) == Matches(l, rs, on')
  {
    if rs != [] {
      MatchesCongruent(l, rs[1..], on, on');
    }
  }

  lemma {:induction false} LeftPartCongruent(ls: seq<Row>, rs: seq<Row>, on: Row -> bool, on': Row -> bool, pad: bool,
                                             w: nat)
    requires forall row :: on(row) == on'(row)
    ensures LeftPart(ls, rs, on, pad, w) == LeftPart(ls, rs, on', pad, w)
  {
    if ls != [] {
      MatchesCongruent(ls[0], rs, on, on');
      LeftPartCongruent(ls[1..], rs, on, on', pad, w);
    }
  }

  lemma {:induction false} RightPartCongruent(ls: seq<Row>, rs: seq<Row>, on: Row -> bool, on': Row -> bool, w: nat)
    requires forall row :: on(row) == on'(row)
    ensures RightPart(ls, rs, on, w) == RightPart(ls, rs, on', w)
  {
    if rs != [] {
      RightPartCongruent(ls, rs[1..], on, on', w);
    }
  }

  // ---------------------------------------------------------------------------
  // The parity theorem
  // ---------------------------------------------------------------------------

  function GuardOf(t: From, ranges: map<string, Interval>, reg: Registry): Guard
    requires !t.Join?
  {
    if t.Table? && t.name in reg && t.name in ranges && !IsUniverse(ranges[t.name])
    then Within(Fold(reg[t.name].timeColumn), ranges[t.name]) else Free
  }

  function Guards(f: From, ranges: map<string, Interval>, reg: Registry): (gs: seq<Guard>)
    ensures |gs| == |Leaves(f)|
    ensures forall i :: 0 <= i < |gs| ==> gs[i] == GuardOf(Leaves(f)[i], ranges, reg)
  {
    if f.Join? then Guards(f.left, ranges, reg) + Guards(f.right, ranges, reg) else [GuardOf(f, ranges, reg)]
  }

  /** A stored tuple has its date, and the date lies in the range of a scan without predicate. */
  predicate Dated(t: Tuple, column: string)
  {
    column in t && t[column].Time? && WIDE_SCAN_START <= t[column].day < WIDE_SCAN_END
  }

  /** A leaf without alias that is a dataset loses its name and is visible under a gained one. */
  ghost predicate NameOk(t: From, ranges: map<string, Interval>, reg: Registry, lost: set<string>, gained: set<string>)
    requires !t.Join?
  {
    && t.Table? && Fold(EffectiveName(t)) !in gained
    && (Fold(EffectiveName(t)) in lost <==> t.name in reg && t.alias.None?)
    && (t.name in reg ==> t.name in ranges && (t.alias.None? ==> Fold(reg[t.name].macroName) in gained))
  }

  ghost predicate LeafOk(t: From, ranges: map<string, Interval>, reg: Registry, db: Database, lost: set<string>,
                         gained: set<string>)
    requires !t.Join?
  {
    && NameOk(t, ranges, reg, lost, gained)
    && (t.name in reg ==>
          forall u: Tuple :: u in StoredRows(t.name, db) ==> Dated(u, Fold(reg[t.name].timeColumn)))
  }

  /** Every join condition resolves and does not rely on a name the rewrite takes away. */
  ghost predicate ConditionsOk(f: From, db: Database, lost: set<string>)
  {
    f.Join? ==>
      && ConditionsOk(f.left, db, lost) && ConditionsOk(f.right, db, lost)
      && (f.on.Some? ==> Binds(f.on.value, ScopeOf(f, db)) && !Qualifies(f.on.value, lost))
  }

  lemma AcceptsOne(g: Guard, cell: Option<Tuple>, env: Env)
    ensures Accepts([g], [cell], env) <==> Admits(g, cell, env)
  {
    if Accepts([g], [cell], env) {
      assert Admits([g][0], [cell][0], env);
    }
  }

  lemma RestrictSingles(t: Tuple, tail: seq<Tuple>, g: Guard, env: Env)
    ensures Restrict(Singles([t] + tail), [g], env)
            == if Admits(g, Some(t), env) then [[Some(t)]] + Restrict(Singles(tail), [g], env)
               else Restrict(Singles(tail), [g], env)
  {
    assert Singles([t] + tail)[1..] == Singles(tail);
    RestrictCons(Singles([t] + tail), [g], env);
    AcceptsOne(g, Some(t), env);
  }

  /** The scan keeps every dated row that the guard admits. */
  lemma AdmittedIsScanned(t: Tuple, column: string, range: Interval, env: Env)
    requires Dated(t, column) && Admits(if IsUniverse(range) then Free else Within(column, range), Some(t), env)
    ensures ScanKeeps(t, column, range, env)
  {
  }

  lemma {:induction false} ScanParity(rows: seq<Tuple>, column: string, range: Interval, env: Env)
    requires forall t :: t in rows ==> Dated(t, column)
    ensures var g := if IsUniverse(range) then Free else Within(column, range);
            Restrict(Singles(rows), [g], env) == Restrict(Singles(ScanRows(rows, column, range, env)), [g], env)
  {
    var g := if IsUniverse(range) then Free else Within(column, range);
    if rows != [] {
      var t, tail := rows[0], rows[1..];
      var kept := ScanRows(tail, column, range, env);
      ScanParity(tail, column, range, env);
      assert rows == [t] + tail && [] + kept == kept;
      RestrictSingles(t, tail, g, env);
      RestrictSingles(t, kept, g, env);
      if Admits(g, Some(t), env) {
        AdmittedIsScanned(t, column, range, env);
      }
    }
  }

  lemma {:induction false} LeavesRewritten(f: From, ranges: map<string, Interval>, reg: Registry)
    ensures forall p :: 0 <= p < |Leaves(f)| ==>
              Leaves(Rewrite(f, ranges, reg))[p] == Rewrite(Leaves(f)[p], ranges, reg)
  {
    if f.Join? {
      LeavesRewritten(f.left, ranges, reg);
      LeavesRewritten(f.right, ranges, reg);
    }
  }

  lemma {:induction false} RenamedTree(f: From, ranges: map<string, Interval>, reg: Registry, db: Database,
                                       lost: set<string>, gained: set<string>)
    requires forall i :: 0 <= i < |Leaves(f)| ==> NameOk(Leaves(f)[i], ranges, reg, lost, gained)
    ensures Renamed(ScopeOf(f, db), ScopeOf(Rewrite(f, ranges, reg), db), lost, gained)
  {
    var s, t := ScopeOf(f, db), ScopeOf(Rewrite(f, ranges, reg), db);
    LeavesRewritten(f, ranges, reg);
    forall i | 0 <= i < |s|
      ensures s[i].columns == t[i].columns && s[i].name !in gained
      ensures if s[i].name in lost then t[i].name in gained else t[i].name == s[i].name
    {
      var leaf := Leaves(f)[i];
      assert NameOk(leaf, ranges, reg, lost, gained);
      assert t[i] == RelationOf(Rewrite(leaf, ranges, reg), db);
    }
  }

  ghost predicate LeavesOk(f: From, ranges: map<string, Interval>, reg: Registry, db: Database, lost: set<string>,
                           gained: set<string>)
  {
    forall i :: 0 <= i < |Leaves(f)| ==> LeafOk(Leaves(f)[i], ranges, reg, db, lost, gained)
  }

  lemma NamesOk(f: From, ranges: map<string, Interval>, reg: Registry, db: Database, lost: set<string>,
                gained: set<string>)
    requires LeavesOk(f, ranges, reg, db, lost, gained)
    ensures forall i :: 0 <= i < |Leaves(f)| ==> NameOk(Leaves(f)[i], ranges, reg, lost, gained)
  {
    forall i | 0 <= i < |Leaves(f)| ensures NameOk(Leaves(f)[i], ranges, reg, lost, gained) {
      assert LeafOk(Leaves(f)[i], ranges, reg, db, lost, gained);
    }
  }

  /** Pruned or not, the FROM clause yields the same rows that can still pass the guards. */
  ghost predicate SameGuarded(f: From, ranges: map<string, Interval>, reg: Registry, db: Database, m: Meaning)
  {
    Restrict(Eval(f, reg, db, m), Guards(f, ranges, reg), m.env)
    == Restrict(Eval(Rewrite(f, ranges, reg), reg, db, m), Guards(f, ranges, reg), m.env)
  }

  lemma PartsOk(f: From, ranges: map<string, Interval>, reg: Registry, db: Database, lost: set<string>,
                gained: set<string>)
    requires f.Join? && LeavesOk(f, ranges, reg, db, lost, gained)
    ensures LeavesOk(f.left, ranges, reg, db, lost, gained) && LeavesOk(f.right, ranges, reg, db, lost, gained)
  {
    forall i | 0 <= i < |Leaves(f.left)| ensures LeafOk(Leaves(f.left)[i], ranges, reg, db, lost, gained) {
      assert Leaves(f)[i] == Leaves(f.left)[i];
    }
    forall i | 0 <= i < |Leaves(f.right)| ensures LeafOk(Leaves(f.right)[i], ranges, reg, db, lost, gained) {
      assert Leaves(f)[i + |Leaves(f.left)|] == Leaves(f.right)[i];
    }
  }

  lemma LeafParity(f: From, ranges: map<string, Interval>, reg: Registry, db: Database, m: Meaning,
                   lost: set<string>, gained: set<string>)
    requires !f.Join? && LeafOk(f, ranges, reg, db, lost, gained)
    ensures SameGuarded(f, ranges, reg, db, m)
  {
    if f.name in reg {
      ScanParity(StoredRows(f.name, db), Fold(reg[f.name].timeColumn), ranges[f.name], m.env);
    }
  }

  /** The same for whole trees of joins, whatever their conditions. */
  lemma {:induction false} TreeParity(f: From, ranges: map<string, Interval>, reg: Registry, db: Database, m: Meaning,
                                      lost: set<string>, gained: set<string>)
    requires LeavesOk(f, ranges, reg, db, lost, gained) && ConditionsOk(f, db, lost)
    ensures SameGuarded(f, ranges, reg, db, m)
  {
    if f.Join? {
      PartsOk(f, ranges, reg, db, lost, gained);
      TreeParity(f.left, ranges, reg, db, m, lost, gained);
      TreeParity(f.right, ranges, reg, db, m, lost, gained);
      JoinStep(f, ranges, reg, db, m, lost, gained);
    } else {
      assert Leaves(f)[0] == f;
      LeafParity(f, ranges, reg, db, m, lost, gained);
    }
  }

  lemma {:induction false} JoinStep(f: From, ranges: map<string, Interval>, reg: Registry, db: Database, m: Meaning,
                                    lost: set<string>, gained: set<string>)
    requires f.Join? && ConditionsOk(f, db, lost)
    requires LeavesOk(f, ranges, reg, db, lost, gained)
    requires SameGuarded(f.left, ranges, reg, db, m) && SameGuarded(f.right, ranges, reg, db, m)
    ensures SameGuarded(f, ranges, reg, db, m)
  {
    var g := Rewrite(f, ranges, reg);
    var on, on' := Holds(f.on, ScopeOf(f, db), m), Holds(g.on, ScopeOf(g, db), m);
    NamesOk(f, ranges, reg, db, lost, gained);
    RenamedTree(f, ranges, reg, db, lost, gained);
    forall row: Row ensures on(row) == on'(row) {
      if f.on.Some? {
        SameTruth(f.on.value, ScopeOf(f, db), ScopeOf(g, db), lost, gained, row, m);
      }
    }
    var ls, rs := Eval(f.left, reg, db, m), Eval(f.right, reg, db, m);
    var ls', rs' := Eval(g.left, reg, db, m), Eval(g.right, reg, db, m);
    EvalWidth(f.left, reg, db, m);
    EvalWidth(f.right, reg, db, m);
    EvalWidth(g.left, reg, db, m);
    EvalWidth(g.right, reg, db, m);
    JoinParity(f.kind, ls, rs, ls', rs', on, Guards(f.left, ranges, reg), Guards(f.right, ranges, reg), m.env);
    LeftPartCongruent(ls', rs', on, on', f.kind.LeftOuter? || f.kind.FullOuter?, |Leaves(f.right)|);
    RightPartCongruent(ls', rs', on, on', |Leaves(f.left)|);
  }

  /** The names under which datasets without alias were visible, and the macro names that replace them. */
  function LostNames(leaves: seq<From>, reg: Registry): set<string>
    requires forall i :: 0 <= i < |leaves| ==> !leaves[i].Join?
  {
    set i | 0 <= i < |leaves| && leaves[i].Table? && leaves[i].name in reg && leaves[i].alias.None? ::
      Fold(EffectiveName(leaves[i]))
  }

  function GainedNames(leaves: seq<From>, reg: Registry): set<string>
    requires forall i :: 0 <= i < |leaves| ==> !leaves[i].Join?
  {
    set i | 0 <= i < |leaves| && leaves[i].Table? && leaves[i].name in reg && leaves[i].alias.None? ::
      Fold(reg[leaves[i].name].macroName)
  }

  /** The times stored for a dataset are ones the analyzer and the wide scan can handle. */
  ghost predicate StoredTimesOk(t: From, filter: Option<Expr>, reg: Registry, db: Database)
    requires t.Table? && t.name in reg
  {
    var column := Fold(reg[t.name].timeColumn);
    && column in RelationOf(t, db).columns
    && forall u: Tuple :: u in StoredRows(t.name, db) ==>
         && Dated(u, column)
         && (filter.Some? ==>
               u[column].tick == 0 || !HasStrictLower(filter.value, EffectiveName(t), reg[t.name].timeColumn))
  }

  ghost predicate Widens(outer: Interval, inner: Interval)
  {
    IsUniverse(outer) || (!IsUniverse(inner) && forall env: Env :: Covers(outer, inner, env))
  }

  /** The dataset is scanned with a range that is not narrower than the one this clause gives this occurrence. */
  ghost predicate InRange(t: From, filter: Option<Expr>, ranges: map<string, Interval>, reg: Registry)
    requires t.Table? && t.name in reg
  {
    t.name in ranges && Widens(ranges[t.name], RangeOf(t, filter, reg))
  }

  /** The hypotheses of the theorem: what a caller must know about a block, its ranges and the stored data. */
  ghost predicate SupportedBy(q: Query, ranges: map<string, Interval>, reg: Registry, db: Database)
  {
    var leaves := Leaves(q.from);
    var lost := LostNames(leaves, reg);
    && (forall i :: 0 <= i < |leaves| ==> leaves[i].Table?)
    && (forall i :: 0 <= i < |leaves| && leaves[i].name in reg ==> InRange(leaves[i], q.filter, ranges, reg))
    && (forall i, j :: 0 <= i < j < |leaves| ==> Fold(EffectiveName(leaves[i])) != Fold(EffectiveName(leaves[j])))
    && (forall i :: 0 <= i < |leaves| ==> Fold(EffectiveName(leaves[i])) !in GainedNames(leaves, reg))
    && (forall i :: 0 <= i < |leaves| && leaves[i].name in reg ==> StoredTimesOk(leaves[i], q.filter, reg, db))
    && ConditionsOk(q.from, db, lost)
    && (q.filter.Some? ==>
          && Binds(q.filter.value, ScopeOf(q.from, db)) && !Qualifies(q.filter.value, lost)
          && ParameterSafe(q.filter.value))
  }

  /**
   The same with the ranges of the query itself.  They are kept per dataset, so all occurrences of a dataset are
   scanned with the range of the last one; that is harmless for an occurrence whose own range is not wider.
   */
  ghost predicate Supported(q: Query, reg: Registry, db: Database)
  {
    SupportedBy(q, Ranges(Leaves(q.from), q.filter, reg), reg, db)
  }

  /** When a dataset occurs once, its range is the one analyzed for that occurrence. */
  lemma {:induction false} RangeAt(leaves: seq<From>, filter: Option<Expr>, reg: Registry, p: int)
    requires forall i :: 0 <= i < |leaves| ==> leaves[i].Table?
    requires forall i, j :: 0 <= i < j < |leaves| && leaves[i].name in reg ==> leaves[i].name != leaves[j].name
    requires 0 <= p < |leaves| && leaves[p].name in reg
    ensures leaves[p].name in Ranges(leaves, filter, reg)
    ensures Ranges(leaves, filter, reg)[leaves[p].name] == RangeOf(leaves[p], filter, reg)
    ensures InRange(leaves[p], filter, Ranges(leaves, filter, reg), reg)
  {
    if p < |leaves| - 1 {
      assert leaves[..|leaves| - 1][p] == leaves[p];
      RangeAt(leaves[..|leaves| - 1], filter, reg, p);
    }
  }

  lemma SupportedLeaf(q: Query, ranges: map<string, Interval>, reg: Registry, db: Database, p: int)
    requires SupportedBy(q, ranges, reg, db) && 0 <= p < |Leaves(q.from)|
    ensures var leaves := Leaves(q.from);
            LeafOk(leaves[p], ranges, reg, db, LostNames(leaves, reg), GainedNames(leaves, reg))
  {
    var leaves := Leaves(q.from);
    var t := leaves[p];
    if t.name in reg {
      assert InRange(t, q.filter, ranges, reg);
      assert StoredTimesOk(t, q.filter, reg, db);
    }
    if Fold(EffectiveName(t)) in LostNames(leaves, reg) {
      var i :| 0 <= i < |leaves| && leaves[i].name in reg && leaves[i].alias.None?
               && Fold(EffectiveName(leaves[i])) == Fold(EffectiveName(t));
      assert i == p;
    }
  }

  /** A row on which the WHERE clause is TRUE satisfies the demands of every pruned table. */
  lemma {:induction false} FilterImpliesGuards(q: Query, ranges: map<string, Interval>, reg: Registry, db: Database,
                                               m: Meaning, row: Row)
    requires SupportedBy(q, ranges, reg, db) && CellsStored(row, q.from, db)
    requires Holds(q.filter, ScopeOf(q.from, db), m)(row)
    ensures Accepts(Guards(q.from, ranges, reg), row, m.env)
  {
    var leaves := Leaves(q.from);
    var gs := Guards(q.from, ranges, reg);
    forall p | 0 <= p < |gs| ensures Admits(gs[p], row[p], m.env) {
      var t := leaves[p];
      if gs[p].Within? {
        assert InRange(t, q.filter, ranges, reg);
        assert StoredTimesOk(t, q.filter, reg, db);
        var column := reg[t.name].timeColumn;
        var scope := ScopeOf(q.from, db);
        assert scope[p] == RelationOf(t, db);
        assert InScope(scope, p, EffectiveName(t), column);
        if row[p].Some? {
          assert row[p].value in StoredRows(t.name, db);
        }
        AnalyzerSound(q.filter.value, scope, row, m, p, EffectiveName(t), column);
        assert Covers(gs[p].range, RangeOf(t, q.filter, reg), m.env);
      }
    }
  }

  /** The WHERE clause resolves, relies on no lost name, and is TRUE only on rows that the guards accept. */
  ghost predicate FilterGuarded(q: Query, ranges: map<string, Interval>, reg: Registry, db: Database, m: Meaning,
                                lost: set<string>)
  {
    && (q.filter.Some? ==> Binds(q.filter.value, ScopeOf(q.from, db)) && !Qualifies(q.filter.value, lost))
    && forall row :: CellsStored(row, q.from, db) && Holds(q.filter, ScopeOf(q.from, db), m)(row) ==>
         Accepts(Guards(q.from, ranges, reg), row, m.env)
  }

  /** Selecting after pruning by a weaker condition is selecting without pruning. */
  lemma SelectPruned(xs: seq<Row>, ys: seq<Row>, gs: seq<Guard>, env: Env, keep: Row -> bool, keep': Row -> bool)
    requires Restrict(xs, gs, env) == Restrict(ys, gs, env)
    requires forall row :: keep(row) == keep'(row)
    requires forall row :: (row in xs || row in ys) && keep(row) ==> Accepts(gs, row, env)
    ensures Select(xs, keep) == Select(ys, keep')
  {
    SelectTwice(xs, row => Accepts(gs, row, env), keep);
    SelectTwice(ys, row => Accepts(gs, row, env), keep);
    SelectCongruent(ys, keep, keep');
  }

  /** If the guards let through every row the WHERE clause accepts, the rewrite keeps the result. */
  lemma ParityFromGuards(q: Query, ranges: map<string, Interval>, reg: Registry, db: Database, m: Meaning,
                         lost: set<string>, gained: set<string>)
    requires LeavesOk(q.from, ranges, reg, db, lost, gained) && ConditionsOk(q.from, db, lost)
    requires FilterGuarded(q, ranges, reg, db, m, lost)
    ensures Answer(Query(Rewrite(q.from, ranges, reg), q.filter), reg, db, m) == Answer(q, reg, db, m)
  {
    TreeParity(q.from, ranges, reg, db, m, lost, gained);
    NamesOk(q.from, ranges, reg, db, lost, gained);
    RenamedTree(q.from, ranges, reg, db, lost, gained);
    var f, g := q.from, Rewrite(q.from, ranges, reg);
    var keep, keep' := Holds(q.filter, ScopeOf(f, db), m), Holds(q.filter, ScopeOf(g, db), m);
    forall row: Row ensures keep(row) == keep'(row) {
      if q.filter.Some? {
        SameTruth(q.filter.value, ScopeOf(f, db), ScopeOf(g, db), lost, gained, row, m);
      }
    }
    var xs, ys := Eval(f, reg, db, m), Eval(g, reg, db, m);
    forall row | (row in xs || row in ys) && keep(row) ensures Accepts(Guards(f, ranges, reg), row, m.env) {
      if row in xs {
        EvalRowsStored(f, reg, db, m, row);
      } else {
        EvalRowsStored(g, reg, db, m, row);
        CellsRewritten(f, ranges, reg, db, row);
      }
    }
    SelectPruned(xs, ys, Guards(f, ranges, reg), m.env, keep, keep');
  }

  /** A block that is rewritten with given ranges returns its rows. */
  lemma BlockParity(q: Query, ranges: map<string, Interval>, reg: Registry, db: Database, m: Meaning)
    requires SupportedBy(q, ranges, reg, db)
    ensures Answer(Query(Rewrite(q.from, ranges, reg), q.filter), reg, db, m) == Answer(q, reg, db, m)
  {
    var leaves := Leaves(q.from);
    var lost, gained := LostNames(leaves, reg), GainedNames(leaves, reg);
    forall i | 0 <= i < |leaves| ensures LeafOk(leaves[i], ranges, reg, db, lost, gained) {
      SupportedLeaf(q, ranges, reg, db, i);
    }
    forall row | CellsStored(row, q.from, db) && Holds(q.filter, ScopeOf(q.from, db), m)(row)
      ensures Accepts(Guards(q.from, ranges, reg), row, m.env)
    {
      FilterImpliesGuards(q, ranges, reg, db, m, row);
    }
    ParityFromGuards(q, ranges, reg, db, m, lost, gained);
  }

  /**
   Semantic parity: for every FROM clause of inner, cross and outer joins, every WHERE clause and every
   content of the epoch tables, the rewritten query returns exactly the rows of the original query.
   */
  lemma SemanticParity(q: Query, reg: Registry, db: Database, m: Meaning)
    requires Supported(q, reg, db)
    ensures Answer(Transform(q, reg), reg, db, m) == Answer(q, reg, db, m)
  {
    BlockParity(q, Ranges(Leaves(q.from), q.filter, reg), reg, db, m);
  }

  lemma {:induction false} CellsRewritten(f: From, ranges: map<string, Interval>, reg: Registry, db: Database, row: Row)
    requires CellsStored(row, Rewrite(f, ranges, reg), db)
    ensures CellsStored(row, f, db)
  {
    LeavesRewritten(f, ranges, reg);
  }

  /** A query on one dataset meets the hypotheses of the theorem unless it names what the rewrite takes away. */
  lemma OneDatasetIsSupported(t: From, filter: Option<Expr>, reg: Registry, db: Database)
    requires t.Table? && t.name in reg && StoredTimesOk(t, filter, reg, db)
    requires t.alias.None? ==> Fold(t.name) != Fold(reg[t.name].macroName)
    requires filter.Some? ==> Binds(filter.value, [RelationOf(t, db)]) && ParameterSafe(filter.value)
    requires filter.Some? ==> !Qualifies(filter.value, if t.alias.None? then {Fold(t.name)} else {})
    ensures Supported(Query(t, filter), reg, db)
  {
    var leaves := Leaves(t);
    assert leaves == [t];
    RangeAt(leaves, filter, reg, 0);
    assert LostNames(leaves, reg) == if t.alias.None? then {Fold(t.name)} else {} by {
      assert leaves[0] == t;
    }
    assert GainedNames(leaves, reg) == if t.alias.None? then {Fold(reg[t.name].macroName)} else {} by {
      assert leaves[0] == t;
    }
    assert ScopeOf(t, db) == [RelationOf(t, db)];
  }
}
