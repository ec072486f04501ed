/**
 How tight the analyzer is.  The days a clause may need are defined by sets: the days of a comparison are those
 on which it is TRUE, AND intersects, and OR takes the convex hull.  The analyzer computes exactly these days.
 */
module PredicateDays {
  import opened Common
  import opened Intervals
  import opened Predicates

  predicate EarlyLiteral(e: Expr) { LiteralBound(e) ==> DateBoundOf(e).value.day < MAX_DAY }

  /** Every date the clause compares with has a successor in the calendar. */
  predicate BeforeLastDay(e: Expr)
  {
    match e
    case BinaryOp(l, op, r) =>
      if op.And? || op.Or? then BeforeLastDay(l) && BeforeLastDay(r) else EarlyLiteral(l) && EarlyLiteral(r)
    case Between(_, low, high, _) => EarlyLiteral(low) && EarlyLiteral(high)
    case Nested(inner) => BeforeLastDay(inner)
    case _ => true
  }

  /** The clause over a table that has nothing but its time column. */
  predicate TrueOn(e: Expr, table: string, timeColumn: string, day: int)
  {
    var scope := [Relation(Fold(table), {Fold(timeColumn)})];
    EvalBool(e, scope, [Some(map[Fold(timeColumn) := Time(day, 0)])], AnyMeaning()) == True
  }

  /** Not before every day of the set and not after every day of it. */
  ghost predicate Enclosed(days: iset<int>, day: int)
  {
    exists first, last :: first in days && last in days && first <= day <= last
  }

  ghost function Hull(days: iset<int>): iset<int> { iset day | Enclosed(days, day) }

  /** The days that one interval can bound the clause to. */
  ghost function Days(e: Expr, table: string, timeColumn: string): iset<int>
  {
    match e
    case BinaryOp(l, And, r) => Days(l, table, timeColumn) * Days(r, table, timeColumn)
    case BinaryOp(l, Or, r) => Hull(Days(l, table, timeColumn) + Days(r, table, timeColumn))
    case Nested(inner) => Days(inner, table, timeColumn)
    case _ => iset day | OnlyTimeBounds(e, table, timeColumn) ==> TrueOn(e, table, timeColumn, day)
  }

  ghost function DaysIn(i: Interval, env: Env): iset<int> { iset day | Contains(i, env, day) }

  // ---------------------------------------------------------------------------
  // Union is the convex hull, intersection the intersection
  // ---------------------------------------------------------------------------

  lemma IntervalsAreConvex(i: Interval, env: Env, day: int, first: int, last: int)
    requires Contains(i, env, first) && Contains(i, env, last) && first <= day <= last
    ensures Contains(i, env, day)
  {
  }

  /** A day of a nonempty interval that is not after the given one, if the interval reaches that far down. */
  lemma DayBelow(i: Interval, env: Env, day: int) returns (first: int)
    requires LiteralBounds(i) && !IsEmpty(i) && (i.start.Some? ==> i.start.value.day <= day)
    ensures Contains(i, env, first) && first <= day
  {
    first := if i.start.Some? then i.start.value.day
             else if i.end.Some? && i.end.value.day <= day then i.end.value.day - 1 else day;
  }

  lemma DayAbove(i: Interval, env: Env, day: int) returns (last: int)
    requires LiteralBounds(i) && !IsEmpty(i) && (i.end.Some? ==> day < i.end.value.day)
    ensures Contains(i, env, last) && day <= last
  {
    last := if i.end.Some? then i.end.value.day - 1
            else if i.start.Some? && i.start.value.day >= day then i.start.value.day else day;
  }

  lemma UnionIsHull(a: Interval, b: Interval, env: Env, day: int)
    requires LiteralBounds(a) && LiteralBounds(b)
    ensures Contains(Union(a, b), env, day) <==> Enclosed(DaysIn(a, env) + DaysIn(b, env), day)
  {
    var both, union := DaysIn(a, env) + DaysIn(b, env), Union(a, b);
    if Enclosed(both, day) {
      var first, last :| first in both && last in both && first <= day <= last;
      UnionIsLeastCover(a, b, env);
      IntervalsAreConvex(union, env, day, first, last);
    }
    if Contains(union, env, day) {
      UnionIsEnclosed(a, b, env, day);
    }
  }

  lemma UnionIsEnclosed(a: Interval, b: Interval, env: Env, day: int)
    requires LiteralBounds(a) && LiteralBounds(b) && Contains(Union(a, b), env, day)
    ensures Enclosed(DaysIn(a, env) + DaysIn(b, env), day)
  {
    var both := DaysIn(a, env) + DaysIn(b, env);
    if IsEmpty(a) || IsEmpty(b) {
      assert day in both;
    } else {
      var lower := if b.start.None? || (a.start.Some? && b.start.value.day <= a.start.value.day) then b else a;
      var upper := if b.end.None? || (a.end.Some? && a.end.value.day <= b.end.value.day) then b else a;
      var first := DayBelow(lower, env, day);
      var last := DayAbove(upper, env, day);
      assert first in both && last in both;
    }
  }

  // ---------------------------------------------------------------------------
  // The analyzer computes the days
  // ---------------------------------------------------------------------------

  lemma ComparisonDays(l: Expr, op: Op, r: Expr, table: string, timeColumn: string, env: Env, day: int)
    requires !op.And? && !op.Or? && BeforeLastDay(BinaryOp(l, op, r))
    requires OnlyTimeBounds(BinaryOp(l, op, r), table, timeColumn)
    ensures Contains(Analyze(BinaryOp(l, op, r), table, timeColumn), env, day)
            <==> TrueOn(BinaryOp(l, op, r), table, timeColumn, day)
  {
    var scope := [Relation(Fold(table), {Fold(timeColumn)})];
    var row, m := [Some(map[Fold(timeColumn) := Time(day, 0)])], AnyMeaning();
    var c := AsComparison(l, op, r, table, timeColumn);
    DateBoundValue(c.value.1, scope, row, m);
    assert Cell(row, 0, Fold(timeColumn)) == Time(day, 0);
    if IsTimeColumn(l, table, timeColumn) {
      TimeColumnAlone(l, table, timeColumn, day);
    } else {
      TimeColumnAlone(r, table, timeColumn, day);
      CompareFlip(op, EvalValue(l, scope, row, m), Time(day, 0), m);
    }
  }

  lemma TimeColumnAlone(e: Expr, table: string, timeColumn: string, day: int)
    requires IsTimeColumn(e, table, timeColumn)
    ensures EvalValue(e, [Relation(Fold(table), {Fold(timeColumn)})], [Some(map[Fold(timeColumn) := Time(day, 0)])],
                      AnyMeaning()) == Time(day, 0)
  {
    var scope := [Relation(Fold(table), {Fold(timeColumn)})];
    var row := [Some(map[Fold(timeColumn) := Time(day, 0)])];
    assert scope[1..] == [];
    assert ColumnPosition(scope, Fold(timeColumn)) == 0 && NamePosition(scope, Fold(table)) == 0;
    TimeColumnValue(e, scope, row, AnyMeaning(), 0, table, timeColumn);
  }

  lemma BetweenDays(x: Expr, low: Expr, high: Expr, table: string, timeColumn: string, env: Env, day: int)
    requires OnlyTimeBounds(Between(x, low, high, false), table, timeColumn)
    requires BeforeLastDay(Between(x, low, high, false))
    ensures Contains(Analyze(Between(x, low, high, false), table, timeColumn), env, day)
            <==> TrueOn(Between(x, low, high, false), table, timeColumn, day)
  {
    var scope := [Relation(Fold(table), {Fold(timeColumn)})];
    var row, m := [Some(map[Fold(timeColumn) := Time(day, 0)])], AnyMeaning();
    TimeColumnAlone(x, table, timeColumn, day);
    DateBoundValue(low, scope, row, m);
    DateBoundValue(high, scope, row, m);
  }

  /** For every clause without parameters: the interval holds exactly the days of the clause. */
  lemma {:induction false} AnalyzerDays(e: Expr, table: string, timeColumn: string, env: Env)
    requires !HasParameter(e) && BeforeLastDay(e)
    ensures DaysIn(Analyze(e, table, timeColumn), env) == Days(e, table, timeColumn)
  {
    match e
    case BinaryOp(l, op, r) =>
      if op.And? || op.Or? {
        AnalyzerDays(l, table, timeColumn, env);
        AnalyzerDays(r, table, timeColumn, env);
        ConnectedDays(l, op, r, table, timeColumn, env);
      } else if OnlyTimeBounds(e, table, timeColumn) {
        forall day ensures Contains(Analyze(e, table, timeColumn), env, day) <==> TrueOn(e, table, timeColumn, day) {
          ComparisonDays(l, op, r, table, timeColumn, env, day);
        }
      }
    case Between(x, low, high, negated) =>
      if OnlyTimeBounds(e, table, timeColumn) {
        forall day ensures Contains(Analyze(e, table, timeColumn), env, day) <==> TrueOn(e, table, timeColumn, day) {
          BetweenDays(x, low, high, table, timeColumn, env, day);
        }
      }
    case Nested(inner) => AnalyzerDays(inner, table, timeColumn, env);
    case _ =>
  }

  lemma ConnectedDays(l: Expr, op: Op, r: Expr, table: string, timeColumn: string, env: Env)
    requires (op.And? || op.Or?) && !HasParameter(BinaryOp(l, op, r))
    requires DaysIn(Analyze(l, table, timeColumn), env) == Days(l, table, timeColumn)
    requires DaysIn(Analyze(r, table, timeColumn), env) == Days(r, table, timeColumn)
    ensures DaysIn(Analyze(BinaryOp(l, op, r), table, timeColumn), env)
            == Days(BinaryOp(l, op, r), table, timeColumn)
  {
    var a, b := Analyze(l, table, timeColumn), Analyze(r, table, timeColumn);
    LiteralBoundsPreserved(l, table, timeColumn);
    LiteralBoundsPreserved(r, table, timeColumn);
    forall day
      ensures Contains(Analyze(BinaryOp(l, op, r), table, timeColumn), env, day)
              <==> day in Days(BinaryOp(l, op, r), table, timeColumn)
    {
      if op.And? {
        IntersectExact(a, b, env, day);
      } else {
        UnionIsHull(a, b, env, day);
      }
    }
  }

  /** `dt op d`. */
  function AgainstLiteral(op: Op, d: int): Expr { BinaryOp(Identifier("dt"), op, StringLiteral(DateText(d))) }

  /**
   The condition on the dates is exact: of the comparisons with the last day of the calendar, the two that advance
   no bound keep their days, and the other three do not.
   */
  lemma ComparisonDaysIff(op: Op, d: int, env: Env)
    requires Comparison(op) && d <= MAX_DAY
    ensures DaysIn(Analyze(AgainstLiteral(op, d), "sales", "dt"), env) == Days(AgainstLiteral(op, d), "sales", "dt")
            <==> BeforeLastDay(AgainstLiteral(op, d)) || op.GtEq? || op.Lt?
  {
    var e, column := AgainstLiteral(op, d), Identifier("dt");
    assert IsTimeColumn(column, "sales", "dt") && OnlyTimeBounds(e, "sales", "dt");
    forall day ensures TrueOn(e, "sales", "dt", day) == CompareDays(op, day, d) {
      TimeColumnAlone(column, "sales", "dt", day);
    }
    assert MAX_DAY in Days(e, "sales", "dt") <==> CompareDays(op, MAX_DAY, d);
    assert MAX_DAY in DaysIn(Analyze(e, "sales", "dt"), env)
      <==> Contains(ComparisonInterval(op, Literal(d)), env, MAX_DAY);
    forall day ensures day in Days(e, "sales", "dt") <==> CompareDays(op, day, d) {
    }
  }

  predicate CompareDays(op: Op, day: int, d: int)
    requires Comparison(op)
  {
    match op case Eq => day == d case Lt => day < d case LtEq => day <= d case Gt => day > d case GtEq => day >= d
  }

  // ---------------------------------------------------------------------------
  // Disjunctions: no smaller interval would do
  // ---------------------------------------------------------------------------

  /** A disjunction, however nested, of conjunctions of literal bounds on the time column. */
  predicate EitherBounds(e: Expr, table: string, timeColumn: string)
  {
    || OnlyTimeBounds(e, table, timeColumn)
    || (e.BinaryOp? && e.op.Or? && EitherBounds(e.left, table, timeColumn) && EitherBounds(e.right, table, timeColumn))
    || (e.Nested? && EitherBounds(e.inner, table, timeColumn))
  }

  lemma {:induction false} BoundsDays(e: Expr, table: string, timeColumn: string, day: int)
    requires OnlyTimeBounds(e, table, timeColumn) && day in Days(e, table, timeColumn)
    ensures TrueOn(e, table, timeColumn, day)
  {
    match e
    case BinaryOp(l, op, r) =>
      if op.And? {
        BoundsDays(l, table, timeColumn, day);
        BoundsDays(r, table, timeColumn, day);
      }
    case Nested(inner) => BoundsDays(inner, table, timeColumn, day);
    case _ =>
  }

  ghost predicate HoldsAll(c: Interval, env: Env, e: Expr, table: string, timeColumn: string)
  {
    forall day :: TrueOn(e, table, timeColumn, day) ==> Contains(c, env, day)
  }

  lemma {:induction false} EitherDays(e: Expr, table: string, timeColumn: string, c: Interval, env: Env, day: int)
    requires EitherBounds(e, table, timeColumn) && HoldsAll(c, env, e, table, timeColumn)
    requires day in Days(e, table, timeColumn)
    ensures Contains(c, env, day)
  {
    if OnlyTimeBounds(e, table, timeColumn) {
      BoundsDays(e, table, timeColumn, day);
    } else if e.Nested? {
      assert forall d :: TrueOn(e.inner, table, timeColumn, d) ==> TrueOn(e, table, timeColumn, d);
      EitherDays(e.inner, table, timeColumn, c, env, day);
    } else {
      var l, r := e.left, e.right;
      assert forall d :: TrueOn(l, table, timeColumn, d) ==> TrueOn(e, table, timeColumn, d);
      assert forall d :: TrueOn(r, table, timeColumn, d) ==> TrueOn(e, table, timeColumn, d);
      var both := Days(l, table, timeColumn) + Days(r, table, timeColumn);
      forall d | d in both ensures Contains(c, env, d) {
        if d in Days(l, table, timeColumn) {
          EitherDays(l, table, timeColumn, c, env, d);
        } else {
          EitherDays(r, table, timeColumn, c, env, d);
        }
      }
      var first, last :| first in both && last in both && first <= day <= last;
      IntervalsAreConvex(c, env, day, first, last);
    }
  }

  lemma {:induction false} EitherHasNoParameter(e: Expr, table: string, timeColumn: string)
    requires EitherBounds(e, table, timeColumn)
    ensures !HasParameter(e)
  {
    match e
    case BinaryOp(l, op, r) =>
      if op.And? || op.Or? {
        EitherHasNoParameter(l, table, timeColumn);
        EitherHasNoParameter(r, table, timeColumn);
      }
    case Nested(inner) => EitherHasNoParameter(inner, table, timeColumn);
    case _ =>
  }

  /**
   The analyzer prunes a disjunction of date ranges as much as one interval can: every interval that holds all
   days on which the clause is TRUE covers the one that was found.
   */
  lemma AnalyzerTight(e: Expr, table: string, timeColumn: string, c: Interval, env: Env)
    requires EitherBounds(e, table, timeColumn) && BeforeLastDay(e) && HoldsAll(c, env, e, table, timeColumn)
    ensures Covers(c, Analyze(e, table, timeColumn), env)
  {
    EitherHasNoParameter(e, table, timeColumn);
    AnalyzerDays(e, table, timeColumn, env);
    forall day | Contains(Analyze(e, table, timeColumn), env, day) ensures Contains(c, env, day) {
      assert day in DaysIn(Analyze(e, table, timeColumn), env);
      EitherDays(e, table, timeColumn, c, env, day);
    }
  }
}
