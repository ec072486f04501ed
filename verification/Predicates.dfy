/**
 WHERE clauses: their three-valued meaning over a joined row, and the analyzer that bounds the dates
 one table can contribute.  Everything the analyzer does not look into (functions, subqueries, NOT,
 IS NULL, ...) is an `Opaque` node whose meaning is an arbitrary function of the row.
 */
module Predicates {
  import opened Common
  import opened Intervals

  // ---------------------------------------------------------------------------
  // Syntax
  // ---------------------------------------------------------------------------

  datatype Op = And | Or | Eq | Lt | LtEq | Gt | GtEq | OtherOp(name: string)

  /** The text of a string literal: either a valid date or something else. */
  datatype Text = DateText(day: int) | OtherText(chars: string)

  datatype Expr =
    | Identifier(name: string)
    | CompoundIdentifier(parts: seq<string>)
    | StringLiteral(text: Text)
    | Placeholder(param: string)
    | DateLiteral(text: Text)
    | Cast(inner: Expr, toDate: bool)
    | BinaryOp(left: Expr, op: Op, right: Expr)
    | Between(operand: Expr, low: Expr, high: Expr, negated: bool)
    | Nested(inner: Expr)
    | Opaque(id: int)

  // ---------------------------------------------------------------------------
  // Meaning
  // ---------------------------------------------------------------------------

  /** A point in time has a day and a time of day; a DATE has tick 0. */
  datatype Value = Null | Time(day: int, tick: nat) | Other(tag: int)

  datatype Tri = True | False | Unknown

  /** A relation of the FROM clause: the name it is visible under and its columns, both folded. */
  datatype Relation = Relation(name: string, columns: set<string>)

  type Scope = seq<Relation>

  type Tuple = map<string, Value>

  /** One joined row: a tuple per relation of the scope, or None where an outer join padded it. */
  type Row = seq<Option<Tuple>>

  datatype Meaning = Meaning(
    boolOf: (Expr, Row) -> Tri,
    valueOf: (Expr, Row) -> Value,
    compareOther: (Op, Value, Value) -> Tri,
    env: Env)

  function And3(a: Tri, b: Tri): Tri
  {
    if a == False || b == False then False else if a == True && b == True then True else Unknown
  }

  function Or3(a: Tri, b: Tri): Tri
  {
    if a == True || b == True then True else if a == False && b == False then False else Unknown
  }

  function Not3(a: Tri): Tri
  {
    match a case True => False case False => True case Unknown => Unknown
  }

  function Truth(b: bool): Tri { if b then True else False }

  predicate Comparison(op: Op) { op.Eq? || op.Lt? || op.LtEq? || op.Gt? || op.GtEq? }

  predicate Before(a: Value, b: Value)
    requires a.Time? && b.Time?
  {
    a.day < b.day || (a.day == b.day && a.tick < b.tick)
  }

  function Compare(op: Op, a: Value, b: Value, m: Meaning): Tri
    requires Comparison(op)
  {
    if a.Null? || b.Null? then Unknown
    else if a.Time? && b.Time? then
      match op
      case Eq => Truth(a == b)
      case Lt => Truth(Before(a, b))
      case LtEq => Truth(!Before(b, a))
      case Gt => Truth(Before(b, a))
      case GtEq => Truth(!Before(a, b))
    else m.compareOther(op, a, b)
  }

  function Cell(row: Row, i: int, column: string): Value
  {
    if 0 <= i < |row| && row[i].Some? && column in row[i].value then row[i].value[column] else Null
  }

  /** The position of the relation that owns a bare column name. */
  function ColumnPosition(scope: Scope, column: string): (i: nat)
    ensures i <= |scope|
    ensures i < |scope| ==> column in scope[i].columns
    ensures forall j :: 0 <= j < i ==> column !in scope[j].columns
  {
    if scope == [] then 0
    else if column in scope[0].columns then 0
    else
      var i := ColumnPosition(scope[1..], column);
      assert forall j :: 1 <= j < 1 + i ==> scope[j] == scope[1..][j - 1];
      1 + i
  }

  function NamePosition(scope: Scope, name: string): (i: nat)
    ensures i <= |scope|
    ensures i < |scope| ==> scope[i].name == name
    ensures forall j :: 0 <= j < i ==> scope[j].name != name
  {
    if scope == [] then 0
    else if scope[0].name == name then 0
    else
      var i := NamePosition(scope[1..], name);
      assert forall j :: 1 <= j < 1 + i ==> scope[j] == scope[1..][j - 1];
      1 + i
  }

  function EvalValue(e: Expr, scope: Scope, row: Row, m: Meaning): Value
  {
    match e
    case Identifier(x) => Cell(row, ColumnPosition(scope, Fold(x)), Fold(x))
    case CompoundIdentifier(parts) =>
      var n := |parts|;
      if n >= 2 then Cell(row, NamePosition(scope, Fold(parts[n - 2])), Fold(parts[n - 1]))
      else if n == 1 then Cell(row, ColumnPosition(scope, Fold(parts[0])), Fold(parts[0]))
      else m.valueOf(e, row)
    case StringLiteral(DateText(d)) => Time(d, 0)
    case DateLiteral(DateText(d)) => Time(d, 0)
    case Placeholder(p) => Time(m.env(p), 0)
    case Cast(inner, true) =>
      var v := EvalValue(inner, scope, row, m);
      (match v case Null => Null case Time(d, _) => Time(d, 0) case Other(_) => m.valueOf(e, row))
    case Nested(inner) => EvalValue(inner, scope, row, m)
    case _ => m.valueOf(e, row)
  }

  function EvalBool(e: Expr, scope: Scope, row: Row, m: Meaning): Tri
  {
    match e
    case BinaryOp(l, op, r) =>
      if op.And? then And3(EvalBool(l, scope, row, m), EvalBool(r, scope, row, m))
      else if op.Or? then Or3(EvalBool(l, scope, row, m), EvalBool(r, scope, row, m))
      else if Comparison(op) then Compare(op, EvalValue(l, scope, row, m), EvalValue(r, scope, row, m), m)
      else m.boolOf(e, row)
    case Between(x, low, high, negated) =>
      var v := EvalValue(x, scope, row, m);
      var inside := And3(Compare(GtEq, v, EvalValue(low, scope, row, m), m),
                         Compare(LtEq, v, EvalValue(high, scope, row, m), m));
      if negated then Not3(inside) else inside
    case Nested(inner) => EvalBool(inner, scope, row, m)
    case _ => m.boolOf(e, row)
  }

  predicate BoundColumn(scope: Scope, column: string)
  {
    var i := ColumnPosition(scope, column);
    i < |scope| && forall j :: i < j < |scope| ==> column !in scope[j].columns
  }

  predicate BoundName(scope: Scope, name: string)
  {
    var i := NamePosition(scope, name);
    i < |scope| && forall j :: i < j < |scope| ==> scope[j].name != name
  }

  /** Name resolution succeeds: every reference denotes exactly one column of the scope. */
  predicate Binds(e: Expr, scope: Scope)
  {
    match e
    case Identifier(x) => BoundColumn(scope, Fold(x))
    case CompoundIdentifier(parts) =>
      var n := |parts|;
      if n >= 2 then
        BoundName(scope, Fold(parts[n - 2]))
        && Fold(parts[n - 1]) in scope[NamePosition(scope, Fold(parts[n - 2]))].columns
      else n == 1 && BoundColumn(scope, Fold(parts[0]))
    case Cast(inner, _) => Binds(inner, scope)
    case BinaryOp(l, _, r) => Binds(l, scope) && Binds(r, scope)
    case Between(x, low, high, _) => Binds(x, scope) && Binds(low, scope) && Binds(high, scope)
    case Nested(inner) => Binds(inner, scope)
    case _ => true
  }

  // ---------------------------------------------------------------------------
  // The analyzer
  // ---------------------------------------------------------------------------

  predicate IsTimeColumn(e: Expr, table: string, timeColumn: string)
  {
    match e
    case Identifier(x) => Fold(x) == Fold(timeColumn)
    case CompoundIdentifier(parts) =>
      var n := |parts|;
      if n >= 2 then Fold(parts[n - 1]) == Fold(timeColumn) && Fold(parts[n - 2]) == Fold(table)
      else n == 1 && Fold(parts[0]) == Fold(timeColumn)
    case _ => false
  }

  function DateBoundOf(e: Expr): Option<DateBound>
  {
    match e
    case StringLiteral(DateText(d)) => Some(Literal(d))
    case DateLiteral(DateText(d)) => Some(Literal(d))
    case Placeholder(p) => Some(Parameter(p))
    case Cast(inner, true) => DateBoundOf(inner)
    case _ => None
  }

  /** The interval of `column op bound`. */
  function ComparisonInterval(op: Op, b: DateBound): Interval
  {
    match op
    case GtEq => Interval(Some(b), None)
    case Gt => Interval(Some(AddOneDay(b)), None)
    case Lt => Interval(None, Some(b))
    case LtEq => Interval(None, Some(AddOneDay(b)))
    case Eq => Point(b)
    case _ => Universe()
  }

  /** `bound op column` says the same as `column Flip(op) bound`. */
  function Flip(op: Op): Op
  {
    match op
    case Lt => Gt
    case LtEq => GtEq
    case Gt => Lt
    case GtEq => LtEq
    case other => other
  }

  /** The comparison as seen from the time column: operator and other side. */
  function AsComparison(l: Expr, op: Op, r: Expr, table: string, timeColumn: string): Option<(Op, Expr)>
  {
    if IsTimeColumn(l, table, timeColumn) then Some((op, r))
    else if IsTimeColumn(r, table, timeColumn) then Some((Flip(op), l))
    else None
  }

  function Analyze(e: Expr, table: string, timeColumn: string): Interval
  {
    match e
    case BinaryOp(l, op, r) =>
      if op.And? then Intersect(Analyze(l, table, timeColumn), Analyze(r, table, timeColumn))
      else if op.Or? then Union(Analyze(l, table, timeColumn), Analyze(r, table, timeColumn))
      else
        var c := AsComparison(l, op, r, table, timeColumn);
        if c.Some? && DateBoundOf(c.value.1).Some?
        then ComparisonInterval(c.value.0, DateBoundOf(c.value.1).value)
        else Universe()
    case Between(x, low, high, negated) =>
      if !negated && IsTimeColumn(x, table, timeColumn) && DateBoundOf(low).Some? && DateBoundOf(high).Some?
      then Interval(Some(DateBoundOf(low).value), Some(AddOneDay(DateBoundOf(high).value)))
      else Universe()
    case Nested(inner) => Analyze(inner, table, timeColumn)
    case _ => Universe()
  }

  // ---------------------------------------------------------------------------
  // Soundness
  // ---------------------------------------------------------------------------

  /** A strict lower bound on the time column: the analyzer skips that whole day. */
  predicate HasStrictLower(e: Expr, table: string, timeColumn: string)
  {
    match e
    case BinaryOp(l, op, r) =>
      if op.And? || op.Or? then HasStrictLower(l, table, timeColumn) || HasStrictLower(r, table, timeColumn)
      else
        var c := AsComparison(l, op, r, table, timeColumn);
        c.Some? && c.value.0.Gt?
    case Nested(inner) => HasStrictLower(inner, table, timeColumn)
    case _ => false
  }

  predicate ParameterBound(e: Expr) { DateBoundOf(e).Some? && DateBoundOf(e).value.Parameter? }

  predicate HasParameter(e: Expr)
  {
    match e
    case BinaryOp(l, op, r) =>
      if op.And? || op.Or? then HasParameter(l) || HasParameter(r) else ParameterBound(l) || ParameterBound(r)
    case Between(_, low, high, _) => ParameterBound(low) || ParameterBound(high)
    case Nested(inner) => HasParameter(inner)
    case _ => false
  }

  /**
   Parameters occur only as lower bounds or strict upper bounds, and never below an OR: the places
   where it does not matter that a parameter cannot be advanced by a day or compared.
   */
  predicate ParameterSafe(e: Expr)
  {
    match e
    case BinaryOp(l, op, r) =>
      if op.And? then ParameterSafe(l) && ParameterSafe(r)
      else if op.Or? then !HasParameter(l) && !HasParameter(r)
      else
        && (ParameterBound(r) ==> !op.LtEq? && !op.Eq?)
        && (ParameterBound(l) ==> !op.GtEq? && !op.Eq?)
    case Between(_, _, high, _) => !ParameterBound(high)
    case Nested(inner) => ParameterSafe(inner)
    case _ => true
  }

  /** The interval does not exclude the value: a bounded interval demands a non-null date inside it. */
  predicate Covered(i: Interval, env: Env, v: Value)
  {
    IsUniverse(i) || (v.Time? && Contains(i, env, v.day))
  }

  /** The value of a time column for which the analyzer can be trusted with `e`. */
  predicate Trusted(v: Value, e: Expr, table: string, timeColumn: string)
  {
    match v
    case Null => true
    case Time(day, tick) =>
      if tick == 0 then day != MAX_DAY else day == MAX_DAY || !HasStrictLower(e, table, timeColumn)
    case Other(_) => false
  }

  predicate InScope(scope: Scope, p: int, table: string, timeColumn: string)
  {
    0 <= p < |scope| && scope[p].name == Fold(table) && Fold(timeColumn) in scope[p].columns
  }

  lemma {:induction false} TimeColumnValue(e: Expr, scope: Scope, row: Row, m: Meaning, p: int, table: string,
                                           timeColumn: string)
    requires InScope(scope, p, table, timeColumn) && Binds(e, scope) && IsTimeColumn(e, table, timeColumn)
    ensures EvalValue(e, scope, row, m) == Cell(row, p, Fold(timeColumn))
  {
    match e
    case Identifier(x) => assert ColumnPosition(scope, Fold(x)) == p;
    case CompoundIdentifier(parts) =>
      if |parts| == 1 {
        assert ColumnPosition(scope, Fold(parts[0])) == p;
      } else {
        assert NamePosition(scope, Fold(parts[|parts| - 2])) == p;
      }
  }

  /** The relation and the column that a reference denotes. */
  function Denoted(e: Expr, scope: Scope): Option<(nat, string)>
  {
    match e
    case Identifier(x) => Some((ColumnPosition(scope, Fold(x)), Fold(x)))
    case CompoundIdentifier(parts) =>
      var n := |parts|;
      if n >= 2 then Some((NamePosition(scope, Fold(parts[n - 2])), Fold(parts[n - 1])))
      else if n == 1 then Some((ColumnPosition(scope, Fold(parts[0])), Fold(parts[0])))
      else None
    case _ => None
  }

  /** A reference that binds is taken for the table's time column exactly when that is the column it denotes. */
  lemma TimeColumnIff(e: Expr, scope: Scope, p: int, table: string, timeColumn: string)
    requires InScope(scope, p, table, timeColumn) && Binds(e, scope)
    ensures IsTimeColumn(e, table, timeColumn) <==> Denoted(e, scope) == Some((p, Fold(timeColumn)))
  {
  }

  lemma {:induction false} DateBoundValue(e: Expr, scope: Scope, row: Row, m: Meaning)
    requires DateBoundOf(e).Some?
    ensures EvalValue(e, scope, row, m) == Time(DayOf(DateBoundOf(e).value, m.env), 0)
  {
    match e
    case Cast(inner, toDate) => DateBoundValue(inner, scope, row, m);
    case _ =>
  }

  lemma LiteralBoundsPreserved(e: Expr, table: string, timeColumn: string)
    requires !HasParameter(e)
    ensures LiteralBounds(Analyze(e, table, timeColumn))
  {
  }

  lemma CompareFlip(op: Op, a: Value, b: Value, m: Meaning)
    requires Comparison(op) && a.Time? && b.Time?
    ensures Compare(op, a, b, m) == Compare(Flip(op), b, a, m)
  {
  }

  lemma {:induction false} ComparisonSound(l: Expr, op: Op, r: Expr, scope: Scope, row: Row, m: Meaning, p: int,
                                           table: string, timeColumn: string)
    requires InScope(scope, p, table, timeColumn) && Comparison(op)
    requires Binds(BinaryOp(l, op, r), scope) && ParameterSafe(BinaryOp(l, op, r))
    requires Trusted(Cell(row, p, Fold(timeColumn)), BinaryOp(l, op, r), table, timeColumn)
    requires EvalBool(BinaryOp(l, op, r), scope, row, m) == True
    ensures Covered(Analyze(BinaryOp(l, op, r), table, timeColumn), m.env, Cell(row, p, Fold(timeColumn)))
  {
    var c := AsComparison(l, op, r, table, timeColumn);
    if c.Some? && DateBoundOf(c.value.1).Some? {
      var v := Cell(row, p, Fold(timeColumn));
      DateBoundValue(c.value.1, scope, row, m);
      if IsTimeColumn(l, table, timeColumn) {
        TimeColumnValue(l, scope, row, m, p, table, timeColumn);
      } else {
        TimeColumnValue(r, scope, row, m, p, table, timeColumn);
        var b := EvalValue(l, scope, row, m);
        assert v.Time?;
        CompareFlip(op, b, v, m);
      }
      assert Compare(c.value.0, v, EvalValue(c.value.1, scope, row, m), m) == True;
    }
  }

  lemma BetweenSound(x: Expr, low: Expr, high: Expr, negated: bool, scope: Scope, row: Row, m: Meaning, p: int,
                     table: string, timeColumn: string)
    requires InScope(scope, p, table, timeColumn) && Binds(x, scope) && !ParameterBound(high)
    requires Trusted(Cell(row, p, Fold(timeColumn)), Between(x, low, high, negated), table, timeColumn)
    requires EvalBool(Between(x, low, high, negated), scope, row, m) == True
    ensures Covered(Analyze(Between(x, low, high, negated), table, timeColumn), m.env, Cell(row, p, Fold(timeColumn)))
  {
    if !negated && IsTimeColumn(x, table, timeColumn) && DateBoundOf(low).Some? && DateBoundOf(high).Some? {
      TimeColumnValue(x, scope, row, m, p, table, timeColumn);
      DateBoundValue(low, scope, row, m);
      DateBoundValue(high, scope, row, m);
    }
  }

  /** What is trusted with a conjunction or disjunction is trusted with its parts. */
  lemma TrustedParts(v: Value, l: Expr, op: Op, r: Expr, table: string, timeColumn: string)
    requires (op.And? || op.Or?) && Trusted(v, BinaryOp(l, op, r), table, timeColumn)
    ensures Trusted(v, l, table, timeColumn) && Trusted(v, r, table, timeColumn)
  {
  }

  /**
   If the clause is TRUE on a joined row, then the interval found for a table is the universe, or the
   table's date is non-null and inside the interval.
   */
  lemma {:induction false} AnalyzerSound(e: Expr, scope: Scope, row: Row, m: Meaning, p: int, table: string,
                                         timeColumn: string)
    requires InScope(scope, p, table, timeColumn) && Binds(e, scope) && ParameterSafe(e)
    requires Trusted(Cell(row, p, Fold(timeColumn)), e, table, timeColumn)
    requires EvalBool(e, scope, row, m) == True
    ensures Covered(Analyze(e, table, timeColumn), m.env, Cell(row, p, Fold(timeColumn)))
  {
    match e
    case BinaryOp(l, op, r) =>
      if op.And? {
        TrustedParts(Cell(row, p, Fold(timeColumn)), l, op, r, table, timeColumn);
        AnalyzerSound(l, scope, row, m, p, table, timeColumn);
        AnalyzerSound(r, scope, row, m, p, table, timeColumn);
      } else if op.Or? {
        ParameterFreeIsSafe(l);
        ParameterFreeIsSafe(r);
        TrustedParts(Cell(row, p, Fold(timeColumn)), l, op, r, table, timeColumn);
        if EvalBool(l, scope, row, m) == True {
          AnalyzerSound(l, scope, row, m, p, table, timeColumn);
        } else {
          AnalyzerSound(r, scope, row, m, p, table, timeColumn);
        }
        EitherCovered(l, r, table, timeColumn, m.env, Cell(row, p, Fold(timeColumn)));
      } else if Comparison(op) {
        ComparisonSound(l, op, r, scope, row, m, p, table, timeColumn);
      }
    case Between(x, low, high, negated) =>
      BetweenSound(x, low, high, negated, scope, row, m, p, table, timeColumn);
    case Nested(inner) => AnalyzerSound(inner, scope, row, m, p, table, timeColumn);
    case _ =>
  }

  /** What either side of an OR covers, the union covers. */
  lemma EitherCovered(l: Expr, r: Expr, table: string, timeColumn: string, env: Env, v: Value)
    requires !HasParameter(l) && !HasParameter(r)
    requires Covered(Analyze(l, table, timeColumn), env, v) || Covered(Analyze(r, table, timeColumn), env, v)
    ensures Covered(Union(Analyze(l, table, timeColumn), Analyze(r, table, timeColumn)), env, v)
  {
    LiteralBoundsPreserved(l, table, timeColumn);
    LiteralBoundsPreserved(r, table, timeColumn);
    UnionIsLeastCover(Analyze(l, table, timeColumn), Analyze(r, table, timeColumn), env);
  }

  lemma ParameterFreeIsSafe(e: Expr)
    requires !HasParameter(e)
    ensures ParameterSafe(e)
  {
  }

  // ---------------------------------------------------------------------------
  // Exactness
  // ---------------------------------------------------------------------------

  /** A date literal, plain or typed, or one that is cast to DATE. */
  predicate LiteralBound(e: Expr): (literal: bool)
    ensures literal <==> DateBoundOf(e).Some? && DateBoundOf(e).value.Literal?
  {
    match e
    case StringLiteral(text) => text.DateText?
    case DateLiteral(text) => text.DateText?
    case Cast(inner, toDate) => toDate && LiteralBound(inner)
    case _ => false
  }

  /** OR-free clauses that only restrict the time column of one table by literal bounds. */
  predicate OnlyTimeBounds(e: Expr, table: string, timeColumn: string)
  {
    match e
    case BinaryOp(l, op, r) =>
      if op.And? then OnlyTimeBounds(l, table, timeColumn) && OnlyTimeBounds(r, table, timeColumn)
      else
        var c := AsComparison(l, op, r, table, timeColumn);
        Comparison(op) && c.Some? && LiteralBound(c.value.1)
    case Between(x, low, high, negated) =>
      !negated && IsTimeColumn(x, table, timeColumn) && LiteralBound(low) && LiteralBound(high)
    case Nested(inner) => OnlyTimeBounds(inner, table, timeColumn)
    case _ => false
  }

  /** A null or a whole day that has a successor. */
  predicate WholeDay(v: Value) { v.Null? || (v.Time? && v.tick == 0 && v.day < MAX_DAY) }

  lemma ComparisonExact(l: Expr, op: Op, r: Expr, scope: Scope, row: Row, m: Meaning, p: int, table: string,
                        timeColumn: string)
    requires InScope(scope, p, table, timeColumn) && Comparison(op) && WholeDay(Cell(row, p, Fold(timeColumn)))
    requires Binds(BinaryOp(l, op, r), scope) && OnlyTimeBounds(BinaryOp(l, op, r), table, timeColumn)
    ensures var i := Analyze(BinaryOp(l, op, r), table, timeColumn);
            && LiteralBounds(i) && !IsUniverse(i)
            && (EvalBool(BinaryOp(l, op, r), scope, row, m) == True
                <==> Covered(i, m.env, Cell(row, p, Fold(timeColumn))))
  {
    var v := Cell(row, p, Fold(timeColumn));
    var c := AsComparison(l, op, r, table, timeColumn);
    DateBoundValue(c.value.1, scope, row, m);
    if IsTimeColumn(l, table, timeColumn) {
      TimeColumnValue(l, scope, row, m, p, table, timeColumn);
    } else {
      TimeColumnValue(r, scope, row, m, p, table, timeColumn);
      if v.Time? {
        CompareFlip(op, EvalValue(l, scope, row, m), v, m);
      }
    }
  }

  /** On such clauses the interval holds exactly the dates that satisfy the clause. */
  lemma {:induction false} AnalyzerExact(e: Expr, scope: Scope, row: Row, m: Meaning, p: int, table: string,
                                         timeColumn: string)
    requires InScope(scope, p, table, timeColumn) && Binds(e, scope) && OnlyTimeBounds(e, table, timeColumn)
    requires WholeDay(Cell(row, p, Fold(timeColumn)))
    ensures LiteralBounds(Analyze(e, table, timeColumn)) && !IsUniverse(Analyze(e, table, timeColumn))
    ensures EvalBool(e, scope, row, m) == True
            <==> Covered(Analyze(e, table, timeColumn), m.env, Cell(row, p, Fold(timeColumn)))
  {
    var v := Cell(row, p, Fold(timeColumn));
    match e
    case BinaryOp(l, op, r) =>
      if op.And? {
        AnalyzerExact(l, scope, row, m, p, table, timeColumn);
        AnalyzerExact(r, scope, row, m, p, table, timeColumn);
        if v.Time? {
          IntersectExact(Analyze(l, table, timeColumn), Analyze(r, table, timeColumn), m.env, v.day);
        }
      } else {
        ComparisonExact(l, op, r, scope, row, m, p, table, timeColumn);
      }
    case Between(x, low, high, negated) =>
      TimeColumnValue(x, scope, row, m, p, table, timeColumn);
      DateBoundValue(low, scope, row, m);
      DateBoundValue(high, scope, row, m);
    case Nested(inner) => AnalyzerExact(inner, scope, row, m, p, table, timeColumn);
  }

  // ---------------------------------------------------------------------------
  // Where soundness ends
  // ---------------------------------------------------------------------------

  const SALES: Relation := Relation("sales", {"dt"})

  /** Every parameter-free clause over one table is analyzed soundly for a row stored at this time. */
  ghost predicate SoundAt(v: Value)
  {
    forall e: Expr, m: Meaning | Binds(e, [SALES]) && !HasParameter(e)
                                 && EvalBool(e, [SALES], [Some(map["dt" := v])], m) == True ::
      Covered(Analyze(e, "sales", "dt"), m.env, v)
  }

  function AnyMeaning(): Meaning
  {
    Meaning((_, _) => Unknown, (_, _) => Null, (_, _, _) => Unknown, _ => 0)
  }

  /**
   Of the times the calendar can represent, the analyzer is sound for exactly the whole days that have
   a successor (and for the hours of the last day, which `>` cannot skip).
   */
  lemma {:induction false} SoundAtExactlyWholeDays(day: int, tick: nat)
    requires day <= MAX_DAY
    ensures SoundAt(Time(day, tick)) <==> (tick == 0 <==> day != MAX_DAY)
  {
    var v := Time(day, tick);
    var row := [Some(map["dt" := v])];
    assert Fold("dt") == "dt" && Fold("sales") == "sales";
    assert Cell(row, 0, "dt") == v;
    if tick == 0 <==> day != MAX_DAY {
      forall e: Expr, m: Meaning | Binds(e, [SALES]) && !HasParameter(e) && EvalBool(e, [SALES], row, m) == True
        ensures Covered(Analyze(e, "sales", "dt"), m.env, v)
      {
        ParameterFreeIsSafe(e);
        AnalyzerSound(e, [SALES], row, m, 0, "sales", "dt");
      }
    } else if tick == 0 {
      UnsoundAt(Eq, v);
    } else {
      UnsoundAt(Gt, v);
    }
  }

  /** `dt = day` and `dt > day` bounded by the day the row is stored at. */
  lemma UnsoundAt(op: Op, v: Value)
    requires v.Time?
    requires (op == Eq && v == Time(MAX_DAY, 0)) || (op == Gt && v.tick > 0 && v.day < MAX_DAY)
    ensures !SoundAt(v)
  {
    var row := [Some(map["dt" := v])];
    var column := Identifier("dt");
    var bound := StringLiteral(DateText(v.day));
    var e := BinaryOp(column, op, bound);
    assert Fold("dt") == "dt";
    assert Cell(row, 0, "dt") == v;
    assert ColumnPosition([SALES], "dt") == 0;
    assert EvalValue(column, [SALES], row, AnyMeaning()) == v;
    assert EvalBool(e, [SALES], row, AnyMeaning()) == True;
    assert Binds(column, [SALES]) && Binds(bound, [SALES]) && Binds(e, [SALES]);
    assert DateBoundOf(column) == None && DateBoundOf(bound) == Some(Literal(v.day));
    assert !HasParameter(e);
    assert !Covered(Analyze(e, "sales", "dt"), AnyMeaning().env, v);
  }

  /** `dt op ?`, with a parameter. */
  function AgainstParameter(op: Op): Expr { BinaryOp(Identifier("dt"), op, Placeholder("?")) }

  predicate TrueAt(op: Op, m: Meaning, day: int)
  {
    EvalBool(AgainstParameter(op), [SALES], [Some(map["dt" := Time(day, 0)])], m) == True
  }

  predicate CoveredAt(op: Op, m: Meaning, day: int)
  {
    Covered(Analyze(AgainstParameter(op), "sales", "dt"), m.env, Time(day, 0))
  }

  /** A parameter cannot be advanced by a day: `dt <= ?` and `dt = ?` exclude the parameter's own day. */
  lemma ParameterBoundExcluded(op: Op, day: int)
    requires op.LtEq? || op.Eq?
    ensures TrueAt(op, AnyMeaning().(env := _ => day), day) && !CoveredAt(op, AnyMeaning().(env := _ => day), day)
  {
    var m := AnyMeaning().(env := _ => day);
    var row := [Some(map["dt" := Time(day, 0)])];
    assert Fold("dt") == "dt" && ColumnPosition([SALES], "dt") == 0;
    assert EvalValue(Identifier("dt"), [SALES], row, m) == Time(day, 0);
    assert EvalValue(Placeholder("?"), [SALES], row, m) == Time(day, 0);
  }

  /** The days of a comparison with a parameter: `>` keeps the parameter's own day, `<=` and `=` lose it. */
  lemma ParameterDays(op: Op, m: Meaning, day: int)
    requires Comparison(op)
    ensures CoveredAt(op, m, day) <==>
            if op.Gt? || op.GtEq? then m.env("?") <= day else if op.Lt? || op.LtEq? then day < m.env("?") else false
  {
    assert Fold("dt") == "dt";
  }

  /** A comparison with a parameter is analyzed soundly, for all days and parameters, unless it is `<=` or `=`. */
  lemma ParameterComparisonSoundIff(op: Op)
    requires Comparison(op)
    ensures (forall m: Meaning, day: int :: day < MAX_DAY && TrueAt(op, m, day) ==> CoveredAt(op, m, day))
            <==> !op.LtEq? && !op.Eq?
  {
    if op.LtEq? || op.Eq? {
      ParameterBoundExcluded(op, 0);
    } else {
      forall m: Meaning, day: int | day < MAX_DAY && TrueAt(op, m, day) ensures CoveredAt(op, m, day) {
        var row := [Some(map["dt" := Time(day, 0)])];
        assert Fold("dt") == "dt" && Fold("sales") == "sales" && Cell(row, 0, "dt") == Time(day, 0);
        AnalyzerSound(AgainstParameter(op), [SALES], row, m, 0, "sales", "dt");
      }
    }
  }
}
