/**
 Half-open date intervals: the algebra that turns a WHERE clause into one range per table.
 Dates are day numbers counted from 1970-01-01.  A query parameter is a bound whose day is only
 known from the environment of the execution.
 */
module Intervals {
  import opened Common

  /** The last day the calendar library can represent; it has no successor. */
  const MAX_DAY: int := 95026236

  /** 1970-01-01 and 9999-12-31, the bounds of a scan without a predicate. */
  const WIDE_SCAN_START: int := 0
  const WIDE_SCAN_END: int := 2932896

  datatype DateBound = Literal(day: int) | Parameter(name: string)

  /** The days the parameters of one execution stand for. */
  type Env = string -> int

  function DayOf(b: DateBound, env: Env): int
  {
    match b
    case Literal(d) => d
    case Parameter(p) => env(p)
  }

  predicate StringLeq(a: string, b: string)
  {
    a == [] || (b != [] && (a[0] < b[0] || (a[0] == b[0] && StringLeq(a[1..], b[1..]))))
  }

  /** The ordering of bounds: literals by date, then parameters by name. */
  predicate Leq(a: DateBound, b: DateBound)
  {
    match (a, b)
    case (Literal(x), Literal(y)) => x <= y
    case (Literal(_), Parameter(_)) => true
    case (Parameter(_), Literal(_)) => false
    case (Parameter(x), Parameter(y)) => StringLeq(x, y)
  }

  function Max(a: DateBound, b: DateBound): DateBound { if Leq(a, b) then b else a }

  function Min(a: DateBound, b: DateBound): DateBound { if Leq(a, b) then a else b }

  /** The following day; the last representable day and parameters stay as they are. */
  function AddOneDay(b: DateBound): DateBound
  {
    match b
    case Literal(d) => if d == MAX_DAY then b else Literal(d + 1)
    case Parameter(_) => b
  }

  datatype Interval = Interval(start: Option<DateBound>, end: Option<DateBound>)

  function Empty(): Interval { Interval(Some(Literal(WIDE_SCAN_END)), Some(Literal(WIDE_SCAN_START))) }

  function Universe(): Interval { Interval(None, None) }

  function Point(b: DateBound): Interval { Interval(Some(b), Some(AddOneDay(b))) }

  /** Emptiness is only claimed when both bounds are literal. */
  predicate IsEmpty(i: Interval)
  {
    i.start.Some? && i.end.Some? && i.start.value.Literal? && i.end.value.Literal?
    && i.start.value.day >= i.end.value.day
  }

  predicate IsUniverse(i: Interval) { i.start.None? && i.end.None? }

  function Intersect(a: Interval, b: Interval): Interval
  {
    if IsEmpty(a) || IsEmpty(b) then Empty()
    else
      var start := if a.start.None? then b.start else if b.start.None? then a.start
                   else Some(Max(a.start.value, b.start.value));
      var end := if a.end.None? then b.end else if b.end.None? then a.end
                 else Some(Min(a.end.value, b.end.value));
      Interval(start, end)
  }

  function Union(a: Interval, b: Interval): Interval
  {
    if IsEmpty(a) then b
    else if IsEmpty(b) then a
    else if IsUniverse(a) || IsUniverse(b) then Universe()
    else
      var start := if a.start.None? || b.start.None? then None
                   else Some(Min(a.start.value, b.start.value));
      var end := if a.end.None? || b.end.None? then None
                 else Some(Max(a.end.value, b.end.value));
      Interval(start, end)
  }

  // ---------------------------------------------------------------------------
  // Meaning
  // ---------------------------------------------------------------------------

  /** The set of days an interval denotes. */
  predicate Contains(i: Interval, env: Env, day: int)
  {
    (i.start.Some? ==> DayOf(i.start.value, env) <= day) && (i.end.Some? ==> day < DayOf(i.end.value, env))
  }

  predicate LiteralBounds(i: Interval)
  {
    (i.start.Some? ==> i.start.value.Literal?) && (i.end.Some? ==> i.end.value.Literal?)
  }

  ghost predicate Covers(outer: Interval, inner: Interval, env: Env)
  {
    forall day :: Contains(inner, env, day) ==> Contains(outer, env, day)
  }

  /** With literal bounds, emptiness is decided exactly. */
  lemma IsEmptyExact(i: Interval, env: Env)
    requires LiteralBounds(i)
    ensures IsEmpty(i) <==> (forall day :: !Contains(i, env, day))
  {
    if !IsEmpty(i) {
      var witness_ := if i.start.Some? then i.start.value.day
                      else if i.end.Some? then i.end.value.day - 1 else 0;
      assert Contains(i, env, witness_);
    }
  }

  /** Emptiness is never claimed of an interval with a parameter, even if no day can be in it. */
  lemma EmptyOnlyByLiterals(i: Interval, env: Env)
    ensures IsEmpty(i) <==> i.start.Some? && i.end.Some? && LiteralBounds(i) && forall day :: !Contains(i, env, day)
  {
    if LiteralBounds(i) {
      IsEmptyExact(i, env);
    }
  }

  /** An empty side makes an intersection the wide scan reversed, and leaves the other side of a union. */
  lemma EmptySide(a: Interval, b: Interval)
    requires IsEmpty(a)
    ensures Intersect(a, b) == Intersect(b, a)
            == Interval(Some(Literal(WIDE_SCAN_END)), Some(Literal(WIDE_SCAN_START)))
    ensures Union(a, b) == b && (!IsEmpty(b) ==> Union(b, a) == b)
  {
  }

  /** With literal bounds, intersection is the intersection of the denoted sets. */
  lemma IntersectExact(a: Interval, b: Interval, env: Env, day: int)
    requires LiteralBounds(a) && LiteralBounds(b)
    ensures LiteralBounds(Intersect(a, b))
    ensures Contains(Intersect(a, b), env, day) <==> Contains(a, env, day) && Contains(b, env, day)
  {
  }

  /** Whatever the parameters turn out to be, intersection loses no common day. */
  lemma IntersectKeeps(a: Interval, b: Interval, env: Env, day: int)
    requires Contains(a, env, day) && Contains(b, env, day)
    ensures Contains(Intersect(a, b), env, day)
  {
  }

  /** With literal bounds, union is the least interval that covers both sides. */
  lemma UnionIsLeastCover(a: Interval, b: Interval, env: Env)
    requires LiteralBounds(a) && LiteralBounds(b)
    ensures LiteralBounds(Union(a, b))
    ensures Covers(Union(a, b), a, env) && Covers(Union(a, b), b, env)
    ensures forall c | LiteralBounds(c) && Covers(c, a, env) && Covers(c, b, env) :: Covers(c, Union(a, b), env)
  {
    forall c, day | LiteralBounds(c) && Covers(c, a, env) && Covers(c, b, env) && Contains(Union(a, b), env, day)
      ensures Contains(c, env, day)
    {
      if !IsEmpty(a) && !IsEmpty(b) {
        CoverBounds(c, a, env);
        CoverBounds(c, b, env);
      }
    }
  }

  /** An interval covers a nonempty one exactly when its bounds are at least as wide. */
  lemma CoverBounds(c: Interval, a: Interval, env: Env)
    requires LiteralBounds(a) && LiteralBounds(c) && !IsEmpty(a)
    ensures Covers(c, a, env) <==>
            && (c.start.Some? ==> a.start.Some? && c.start.value.day <= a.start.value.day)
            && (c.end.Some? ==> a.end.Some? && a.end.value.day <= c.end.value.day)
  {
    if Covers(c, a, env) {
      var low := if a.start.Some? then a.start.value.day
                 else if a.end.Some? then a.end.value.day - 1 else 0;
      var high := if a.end.Some? then a.end.value.day - 1 else low;
      assert Contains(a, env, low) && Contains(a, env, high);
      if c.start.Some? && a.start.None? {
        var below := if low < c.start.value.day then low else c.start.value.day - 1;
        assert Contains(a, env, below);
      }
      if c.end.Some? && a.end.None? {
        var above := if high > c.end.value.day then high else c.end.value.day + 1;
        assert Contains(a, env, above);
      }
    }
  }

  /** A point denotes its own day, unless that day has no successor: then it denotes nothing. */
  lemma PointExact(d: int, env: Env, day: int)
    ensures Contains(Point(Literal(d)), env, day) <==> day == d && d != MAX_DAY
  {
  }

  /** With parameters union can lose days: the literal is taken as the smaller start. */
  lemma UnionLosesParameterDays()
    ensures exists a, b, env: Env, day ::
              Contains(a, env, day) && !Contains(Union(a, b), env, day)
  {
    var a := Interval(Some(Parameter("?")), None);
    var b := Interval(Some(Literal(5)), None);
    var env: Env := _ => 0;
    assert Contains(a, env, 0);
    assert !Contains(Union(a, b), env, 0);
  }

  /** The union of two intervals holds both, whatever the parameters turn out to be. */
  ghost predicate UnionHolds(a: Interval, b: Interval)
  {
    forall env: Env :: Covers(Union(a, b), a, env) && Covers(Union(a, b), b, env)
  }

  lemma LaterStartIsLost(x: DateBound, y: DateBound, env: Env)
    requires DayOf(Min(x, y), env) > DayOf(if Min(x, y) == x then y else x, env)
    ensures !UnionHolds(Interval(Some(x), None), Interval(Some(y), None))
  {
    var a, b := Interval(Some(x), None), Interval(Some(y), None);
    var lost := if Min(x, y) == x then y else x;
    var day := DayOf(lost, env);
    assert Union(a, b) == Interval(Some(Min(x, y)), None);
    assert !Contains(Union(a, b), env, day) && Contains(if lost == x then a else b, env, day);
    assert !Covers(Union(a, b), if lost == x then a else b, env);
  }

  lemma EarlierEndIsLost(x: DateBound, y: DateBound, env: Env)
    requires DayOf(Max(x, y), env) < DayOf(if Max(x, y) == x then y else x, env)
    ensures !UnionHolds(Interval(None, Some(x)), Interval(None, Some(y)))
  {
    var a, b := Interval(None, Some(x)), Interval(None, Some(y));
    var lost := if Max(x, y) == x then y else x;
    var day := DayOf(lost, env) - 1;
    assert Union(a, b) == Interval(None, Some(Max(x, y)));
    assert !Contains(Union(a, b), env, day) && Contains(if lost == x then a else b, env, day);
    assert !Covers(Union(a, b), if lost == x then a else b, env);
  }

  /** An environment in which the first bound lies after the second. */
  function After(x: DateBound, y: DateBound): (env: Env)
    requires x != y && !(x.Literal? && y.Literal?)
    ensures DayOf(x, env) > DayOf(y, env)
  {
    if x.Literal? then (p => x.day - 1)
    else if y.Literal? then (p => y.day + 1)
    else (p => if p == x.name then 1 else 0)
  }

  /** Two half-bounded ranges are both in their union exactly when the bounds are equal or both literal. */
  lemma UnionHoldsIff(x: DateBound, y: DateBound)
    ensures UnionHolds(Interval(Some(x), None), Interval(Some(y), None)) <==> x == y || (x.Literal? && y.Literal?)
    ensures UnionHolds(Interval(None, Some(x)), Interval(None, Some(y))) <==> x == y || (x.Literal? && y.Literal?)
  {
    if x != y && !(x.Literal? && y.Literal?) {
      var low, high := Min(x, y), Max(x, y);
      LaterStartIsLost(x, y, After(low, if low == x then y else x));
      EarlierEndIsLost(x, y, After(if high == x then y else x, high));
    }
  }

  /** The intersection holds nothing but common days, whatever the parameters turn out to be. */
  ghost predicate IntersectionExact(a: Interval, b: Interval)
  {
    forall env: Env, day :: Contains(Intersect(a, b), env, day) ==> Contains(a, env, day) && Contains(b, env, day)
  }

  lemma StartIsIgnored(x: DateBound, y: DateBound, env: Env)
    requires DayOf(Max(x, y), env) < DayOf(if Max(x, y) == x then y else x, env)
    ensures !IntersectionExact(Interval(Some(x), None), Interval(Some(y), None))
  {
    var a, b, day := Interval(Some(x), None), Interval(Some(y), None), DayOf(Max(x, y), env);
    assert Intersect(a, b) == Interval(Some(Max(x, y)), None);
    assert Contains(Intersect(a, b), env, day) && !(Contains(a, env, day) && Contains(b, env, day));
  }

  lemma EndIsIgnored(x: DateBound, y: DateBound, env: Env)
    requires DayOf(Min(x, y), env) > DayOf(if Min(x, y) == x then y else x, env)
    ensures !IntersectionExact(Interval(None, Some(x)), Interval(None, Some(y)))
  {
    var a, b, day := Interval(None, Some(x)), Interval(None, Some(y)), DayOf(Min(x, y), env) - 1;
    assert Intersect(a, b) == Interval(None, Some(Min(x, y)));
    assert Contains(Intersect(a, b), env, day) && !(Contains(a, env, day) && Contains(b, env, day));
  }

  /** Two half-bounded ranges are intersected exactly if and only if the bounds are equal or both literal. */
  lemma IntersectionExactIff(x: DateBound, y: DateBound)
    ensures IntersectionExact(Interval(Some(x), None), Interval(Some(y), None))
            <==> x == y || (x.Literal? && y.Literal?)
    ensures IntersectionExact(Interval(None, Some(x)), Interval(None, Some(y)))
            <==> x == y || (x.Literal? && y.Literal?)
  {
    if x != y && !(x.Literal? && y.Literal?) {
      var low, high := Min(x, y), Max(x, y);
      StartIsIgnored(x, y, After(if high == x then y else x, high));
      EndIsIgnored(x, y, After(low, if low == x then y else x));
    }
  }

  /** Two parameters are ordered by their names: AND starts at the later name and ends at the earlier one. */
  lemma ParameterBounds(p: string, q: string, env: Env, day: int)
    requires StringLeq(p, q)
    ensures var a, b := Interval(Some(Parameter(p)), None), Interval(Some(Parameter(q)), None);
            && (Contains(Intersect(a, b), env, day) <==> env(q) <= day)
            && (Contains(Union(a, b), env, day) <==> env(p) <= day)
    ensures var a, b := Interval(None, Some(Parameter(p))), Interval(None, Some(Parameter(q)));
            && (Contains(Intersect(a, b), env, day) <==> day < env(p))
            && (Contains(Union(a, b), env, day) <==> day < env(q))
  {
  }

  /** Names are ordered by the first character in which they differ; a prefix comes first. */
  lemma {:induction false} NamesByFirstDifference(common: string, a: string, b: string)
    requires a == [] || b == [] || a[0] != b[0]
    ensures StringLeq(common + a, common + b) <==> a == [] || (b != [] && a[0] < b[0])
  {
    if common == [] {
      assert common + a == a && common + b == b;
    } else {
      assert (common + a)[1..] == common[1..] + a && (common + b)[1..] == common[1..] + b;
      NamesByFirstDifference(common[1..], a, b);
    }
  }

  /** Where a literal meets a parameter, AND starts at the parameter and ends at the literal, OR the reverse. */
  lemma MixedBounds(d: int, p: string, env: Env, day: int)
    ensures var a, b := Interval(Some(Literal(d)), None), Interval(Some(Parameter(p)), None);
            && (Contains(Intersect(a, b), env, day) <==> env(p) <= day)
            && (Contains(Intersect(b, a), env, day) <==> env(p) <= day)
            && (Contains(Union(a, b), env, day) <==> d <= day)
            && (Contains(Union(b, a), env, day) <==> d <= day)
    ensures var a, b := Interval(None, Some(Literal(d))), Interval(None, Some(Parameter(p)));
            && (Contains(Intersect(a, b), env, day) <==> day < d)
            && (Contains(Intersect(b, a), env, day) <==> day < d)
            && (Contains(Union(a, b), env, day) <==> day < env(p))
            && (Contains(Union(b, a), env, day) <==> day < env(p))
  {
  }
}
