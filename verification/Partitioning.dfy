/**
 Evaluating an operator separately on every part of a partitioned input and putting the results together:
 when that gives the same rows as evaluating it once, for joins, grouping and window functions.
 */
module Partitioning {
  import opened Common

  function FlatMap<T, U>(xs: seq<T>, f: T -> seq<U>): seq<U>
  {
    if xs == [] then [] else f(xs[0]) + FlatMap(xs[1..], f)
  }

  /** The rows that an exchange sends to part `p`. */
  function Part<T>(xs: seq<T>, part: T -> nat, p: nat): seq<T>
  {
    if xs == [] then []
    else if part(xs[0]) == p then [xs[0]] + Part(xs[1..], part, p)
    else Part(xs[1..], part, p)
  }

  lemma {:induction false} PartMembers<T>(xs: seq<T>, part: T -> nat, p: nat)
    ensures forall x :: x in Part(xs, part, p) ==> x in xs && part(x) == p
    ensures forall x :: x in xs && part(x) == p ==> x in Part(xs, part, p)
  {
    if xs != [] {
      PartMembers(xs[1..], part, p);
    }
  }

  /** The results of the parts 0 to n - 1, one after the other. */
  function Gather<U>(result: nat -> seq<U>, n: nat): seq<U>
  {
    if n == 0 then [] else Gather(result, n - 1) + result(n - 1)
  }

  lemma {:induction false} FlatMapSame<T, U>(xs: seq<T>, f: T -> seq<U>, g: T -> seq<U>)
    requires forall x :: x in xs ==> f(x) == g(x)
    ensures FlatMap(xs, f) == FlatMap(xs, g)
  {
    if xs != [] {
      FlatMapSame(xs[1..], f, g);
    }
  }

  lemma {:induction false} GatherSame<U>(a: nat -> seq<U>, b: nat -> seq<U>, n: nat)
    requires forall p :: 0 <= p < n ==> a(p) == b(p)
    ensures Gather(a, n) == Gather(b, n)
  {
    if n > 0 {
      GatherSame(a, b, n - 1);
    }
  }

  /** Adding a piece to the result of one part adds it to the gathered rows. */
  lemma {:induction false} GatherInsert<U>(a: nat -> seq<U>, b: nat -> seq<U>, n: nat, p: nat, piece: seq<U>)
    requires p < n && a(p) == piece + b(p)
    requires forall q :: 0 <= q < n && q != p ==> a(q) == b(q)
    ensures multiset(Gather(a, n)) == multiset(piece) + multiset(Gather(b, n))
  {
    if p == n - 1 {
      GatherSame(a, b, n - 1);
    } else {
      GatherInsert(a, b, n - 1, p, piece);
    }
  }

  lemma {:induction false} GatherAdds<U>(a: nat -> seq<U>, b: nat -> seq<U>, c: nat -> seq<U>, n: nat)
    requires forall p :: 0 <= p < n ==> a(p) == b(p) + c(p)
    ensures multiset(Gather(a, n)) == multiset(Gather(b, n)) + multiset(Gather(c, n))
  {
    if n > 0 {
      GatherAdds(a, b, c, n - 1);
    }
  }

  lemma {:induction false} GatherNothing<U>(a: nat -> seq<U>, n: nat)
    requires forall p :: 0 <= p < n ==> a(p) == []
    ensures Gather(a, n) == []
  {
    if n > 0 {
      GatherNothing(a, n - 1);
    }
  }

  /** Row by row work may be done part by part. */
  lemma {:induction false} RowwiseByParts<T, U>(xs: seq<T>, part: T -> nat, n: nat, f: T -> seq<U>)
    requires forall x :: x in xs ==> part(x) < n
    ensures multiset(Gather((p: nat) => FlatMap(Part(xs, part, p), f), n)) == multiset(FlatMap(xs, f))
  {
    var whole := (p: nat) => FlatMap(Part(xs, part, p), f);
    if xs == [] {
      GatherNothing(whole, n);
    } else {
      var rest := (p: nat) => FlatMap(Part(xs[1..], part, p), f);
      var p := part(xs[0]);
      assert Part(xs, part, p) == [xs[0]] + Part(xs[1..], part, p);
      assert ([xs[0]] + Part(xs[1..], part, p))[1..] == Part(xs[1..], part, p);
      GatherInsert(whole, rest, n, p, f(xs[0]));
      RowwiseByParts(xs[1..], part, n, f);
    }
  }

  // ---------------------------------------------------------------------------
  // Joins
  // ---------------------------------------------------------------------------

  datatype JoinKind = Inner | Left | Right | Full

  datatype Pair<L, R> = Pair(left: Option<L>, right: Option<R>)

  function Matches<L, R>(l: L, rs: seq<R>, on: (L, R) -> bool): seq<Pair<L, R>>
  {
    FlatMap(rs, r => if on(l, r) then [Pair(Some(l), Some(r))] else [])
  }

  predicate KeepsLeft(kind: JoinKind) { kind.Left? || kind.Full? }

  predicate KeepsRight(kind: JoinKind) { kind.Right? || kind.Full? }

  function LeftPart<L, R>(kind: JoinKind, l: L, rs: seq<R>, on: (L, R) -> bool): seq<Pair<L, R>>
  {
    var ms := Matches(l, rs, on);
    if ms == [] && KeepsLeft(kind) then [Pair(Some(l), None)] else ms
  }

  predicate Unmatched<L, R>(r: R, ls: seq<L>, on: (L, R) -> bool)
  {
    forall i :: 0 <= i < |ls| ==> !on(ls[i], r)
  }

  function RightPart<L, R>(kind: JoinKind, r: R, ls: seq<L>, on: (L, R) -> bool): seq<Pair<L, R>>
  {
    if KeepsRight(kind) && Unmatched(r, ls, on) then [Pair(None, Some(r))] else []
  }

  /** The join of two row sequences: matches, and the unmatched rows of the sides that are kept. */
  function Join<L, R>(kind: JoinKind, ls: seq<L>, rs: seq<R>, on: (L, R) -> bool): seq<Pair<L, R>>
  {
    FlatMap(ls, l => LeftPart(kind, l, rs, on)) + FlatMap(rs, r => RightPart(kind, r, ls, on))
  }

  lemma {:induction false} MatchesInPart<L, R>(l: L, rs: seq<R>, on: (L, R) -> bool, pr: R -> nat, p: nat)
    requires forall r :: r in rs && on(l, r) ==> pr(r) == p
    ensures Matches(l, Part(rs, pr, p), on) == Matches(l, rs, on)
  {
    if rs != [] {
      MatchesInPart(l, rs[1..], on, pr, p);
      if pr(rs[0]) == p {
        assert Part(rs, pr, p)[1..] == Part(rs[1..], pr, p);
      }
    }
  }

  lemma UnmatchedInPart<L, R>(r: R, ls: seq<L>, on: (L, R) -> bool, pl: L -> nat, p: nat)
    requires forall l :: l in ls && on(l, r) ==> pl(l) == p
    ensures Unmatched(r, Part(ls, pl, p), on) <==> Unmatched(r, ls, on)
  {
    var part := Part(ls, pl, p);
    PartMembers(ls, pl, p);
    if Unmatched(r, ls, on) {
      forall i | 0 <= i < |part| ensures !on(part[i], r) {
        assert part[i] in part && part[i] in ls;
      }
    }
    if Unmatched(r, part, on) {
      forall i | 0 <= i < |ls| ensures !on(ls[i], r) {
        assert ls[i] in ls && (pl(ls[i]) == p ==> ls[i] in part);
      }
    }
  }

  /** Matching rows are always sent to the same part. */
  ghost predicate CoLocated<L, R>(ls: seq<L>, rs: seq<R>, on: (L, R) -> bool, pl: L -> nat, pr: R -> nat)
  {
    forall l, r :: l in ls && r in rs && on(l, r) ==> pl(l) == pr(r)
  }

  lemma JoinInPart<L, R>(kind: JoinKind, ls: seq<L>, rs: seq<R>, on: (L, R) -> bool, pl: L -> nat, pr: R -> nat, p: nat)
    requires CoLocated(ls, rs, on, pl, pr)
    ensures Join(kind, Part(ls, pl, p), Part(rs, pr, p), on)
            == FlatMap(Part(ls, pl, p), l => LeftPart(kind, l, rs, on))
               + FlatMap(Part(rs, pr, p), r => RightPart(kind, r, ls, on))
  {
    var ls', rs' := Part(ls, pl, p), Part(rs, pr, p);
    PartMembers(ls, pl, p);
    PartMembers(rs, pr, p);
    forall l | l in ls' ensures LeftPart(kind, l, rs', on) == LeftPart(kind, l, rs, on) {
      MatchesInPart(l, rs, on, pr, p);
    }
    FlatMapSame(ls', l => LeftPart(kind, l, rs', on), l => LeftPart(kind, l, rs, on));
    forall r | r in rs' ensures RightPart(kind, r, ls', on) == RightPart(kind, r, ls, on) {
      UnmatchedInPart(r, ls, on, pl, p);
    }
    FlatMapSame(rs', r => RightPart(kind, r, ls', on), r => RightPart(kind, r, ls, on));
  }

  /**
   When matching rows meet in the same part, joining part by part gives the same rows, as often, for inner,
   left, right and full joins and any number of parts.
   */
  lemma JoinByParts<L, R>(kind: JoinKind, ls: seq<L>, rs: seq<R>, on: (L, R) -> bool, pl: L -> nat, pr: R -> nat,
                          n: nat)
    requires CoLocated(ls, rs, on, pl, pr)
    requires (forall l :: l in ls ==> pl(l) < n) && (forall r :: r in rs ==> pr(r) < n)
    ensures multiset(Gather((p: nat) => Join(kind, Part(ls, pl, p), Part(rs, pr, p), on), n))
            == multiset(Join(kind, ls, rs, on))
  {
    var lf, rf := l => LeftPart(kind, l, rs, on), r => RightPart(kind, r, ls, on);
    var lefts, rights := (p: nat) => FlatMap(Part(ls, pl, p), lf), (p: nat) => FlatMap(Part(rs, pr, p), rf);
    var joins := (p: nat) => Join(kind, Part(ls, pl, p), Part(rs, pr, p), on);
    forall p: nat | 0 <= p < n ensures joins(p) == lefts(p) + rights(p) {
      JoinInPart(kind, ls, rs, on, pl, pr, p);
    }
    GatherAdds(joins, lefts, rights, n);
    RowwiseByParts(ls, pl, n, lf);
    RowwiseByParts(rs, pr, n, rf);
  }

  lemma {:induction false} NoRows<T, U>(xs: seq<T>, f: T -> seq<U>)
    requires forall x :: x in xs ==> f(x) == []
    ensures FlatMap(xs, f) == []
  {
    if xs != [] {
      NoRows(xs[1..], f);
    }
  }

  lemma InnerIsMatches<L, R>(ls: seq<L>, rs: seq<R>, on: (L, R) -> bool)
    ensures Join(Inner, ls, rs, on) == FlatMap(ls, l => Matches(l, rs, on))
  {
    NoRows(rs, r => RightPart(Inner, r, ls, on));
    FlatMapSame(ls, l => LeftPart(Inner, l, rs, on), l => Matches(l, rs, on));
  }

  /** Without co-location, an inner join by parts pairs each left row with the right rows of its own part. */
  lemma InnerByParts<L, R>(ls: seq<L>, rs: seq<R>, on: (L, R) -> bool, pl: L -> nat, pr: R -> nat, n: nat)
    requires forall l :: l in ls ==> pl(l) < n
    ensures multiset(Gather((p: nat) => Join(Inner, Part(ls, pl, p), Part(rs, pr, p), on), n))
            == multiset(FlatMap(ls, l => Matches(l, Part(rs, pr, pl(l)), on)))
  {
    var f := l => Matches(l, Part(rs, pr, pl(l)), on);
    var joins := (p: nat) => Join(Inner, Part(ls, pl, p), Part(rs, pr, p), on);
    forall p: nat | 0 <= p < n ensures joins(p) == FlatMap(Part(ls, pl, p), f) {
      InnerIsMatches(Part(ls, pl, p), Part(rs, pr, p), on);
      PartMembers(ls, pl, p);
      FlatMapSame(Part(ls, pl, p), l => Matches(l, Part(rs, pr, p), on), f);
    }
    GatherSame(joins, (p: nat) => FlatMap(Part(ls, pl, p), f), n);
    RowwiseByParts(ls, pl, n, f);
  }

  lemma {:induction false} FewerMatches<L, R>(l: L, rs: seq<R>, on: (L, R) -> bool, pr: R -> nat, p: nat)
    ensures |Matches(l, Part(rs, pr, p), on)| <= |Matches(l, rs, on)|
    ensures (exists r :: r in rs && on(l, r) && pr(r) != p) ==>
              |Matches(l, Part(rs, pr, p), on)| < |Matches(l, rs, on)|
  {
    if rs != [] {
      FewerMatches(l, rs[1..], on, pr, p);
      if pr(rs[0]) == p {
        assert Part(rs, pr, p)[1..] == Part(rs[1..], pr, p);
      }
    }
  }

  lemma {:induction false} FewerRows<T, U>(xs: seq<T>, f: T -> seq<U>, g: T -> seq<U>, x: T)
    requires forall y :: y in xs ==> |f(y)| <= |g(y)|
    ensures |FlatMap(xs, f)| <= |FlatMap(xs, g)|
    ensures x in xs && |f(x)| < |g(x)| ==> |FlatMap(xs, f)| < |FlatMap(xs, g)|
  {
    if xs != [] {
      FewerRows(xs[1..], f, g, x);
    }
  }

  /** An inner join may be evaluated part by part exactly when matching rows meet in the same part. */
  lemma InnerByPartsIff<L, R>(ls: seq<L>, rs: seq<R>, on: (L, R) -> bool, pl: L -> nat, pr: R -> nat, n: nat)
    requires (forall l :: l in ls ==> pl(l) < n) && (forall r :: r in rs ==> pr(r) < n)
    ensures (multiset(Gather((p: nat) => Join(Inner, Part(ls, pl, p), Part(rs, pr, p), on), n))
             == multiset(Join(Inner, ls, rs, on)))
            <==> CoLocated(ls, rs, on, pl, pr)
  {
    if CoLocated(ls, rs, on, pl, pr) {
      JoinByParts(Inner, ls, rs, on, pl, pr, n);
    } else {
      var l, r :| l in ls && r in rs && on(l, r) && pl(l) != pr(r);
      var f, g := l => Matches(l, Part(rs, pr, pl(l)), on), l => Matches(l, rs, on);
      forall x | x in ls ensures |f(x)| <= |g(x)| {
        FewerMatches(x, rs, on, pr, pl(x));
      }
      FewerMatches(l, rs, on, pr, pl(l));
      FewerRows(ls, f, g, l);
      InnerByParts(ls, rs, on, pl, pr, n);
      InnerIsMatches(ls, rs, on);
      assert |multiset(FlatMap(ls, f))| != |multiset(FlatMap(ls, g))|;
    }
  }

  // ---------------------------------------------------------------------------
  // Grouping
  // ---------------------------------------------------------------------------

  /** The rows whose group is `v`, in order. */
  function Members<T, G(==)>(xs: seq<T>, g: T -> G, v: G): (r: seq<T>)
    ensures forall x :: x in r ==> x in xs && g(x) == v
  {
    if xs == [] then []
    else if g(xs[0]) == v then [xs[0]] + Members(xs[1..], g, v)
    else Members(xs[1..], g, v)
  }

  function Others<T, G(==)>(xs: seq<T>, g: T -> G, v: G): (r: seq<T>)
    ensures |r| <= |xs|
    ensures forall x :: x in r ==> x in xs && g(x) != v
  {
    if xs == [] then []
    else if g(xs[0]) == v then Others(xs[1..], g, v)
    else [xs[0]] + Others(xs[1..], g, v)
  }

  /** One output row for each group; an aggregate may depend on the rows of its group and their order. */
  function GroupBy<T, G(==), U>(xs: seq<T>, g: T -> G, agg: seq<T> -> U): seq<U>
    decreases |xs|
  {
    if xs == [] then []
    else [agg(Members(xs, g, g(xs[0])))] + GroupBy(Others(xs[1..], g, g(xs[0])), g, agg)
  }

  /** Rows of one group are always sent to the same part. */
  ghost predicate Together<T, G>(xs: seq<T>, g: T -> G, part: T -> nat)
  {
    forall x, y :: x in xs && y in xs && g(x) == g(y) ==> part(x) == part(y)
  }

  lemma {:induction false} MembersInPart<T, G>(xs: seq<T>, g: T -> G, v: G, part: T -> nat, p: nat)
    requires forall x :: x in xs && g(x) == v ==> part(x) == p
    ensures Members(Part(xs, part, p), g, v) == Members(xs, g, v)
  {
    if xs != [] {
      MembersInPart(xs[1..], g, v, part, p);
      if part(xs[0]) == p {
        assert Part(xs, part, p)[1..] == Part(xs[1..], part, p);
      }
    }
  }

  lemma {:induction false} OthersInPart<T, G>(xs: seq<T>, g: T -> G, v: G, part: T -> nat, p: nat)
    ensures Part(Others(xs, g, v), part, p) == Others(Part(xs, part, p), g, v)
  {
    if xs != [] {
      OthersInPart(xs[1..], g, v, part, p);
      if part(xs[0]) == p {
        assert Part(xs, part, p)[1..] == Part(xs[1..], part, p);
      }
      if g(xs[0]) != v {
        assert Others(xs, g, v)[1..] == Others(xs[1..], g, v);
      }
    }
  }

  lemma {:induction false} NoMembers<T, G>(xs: seq<T>, g: T -> G, v: G)
    requires forall x :: x in xs ==> g(x) != v
    ensures Others(xs, g, v) == xs
  {
    if xs != [] {
      NoMembers(xs[1..], g, v);
    }
  }

  /** Taking out the first group takes it out of the part it is in and leaves the other parts alone. */
  lemma GroupLeavesPart<T, G, U>(xs: seq<T>, g: T -> G, agg: seq<T> -> U, part: T -> nat, q: nat)
    requires xs != [] && Together(xs, g, part)
    ensures var v := g(xs[0]);
            var rest := GroupBy(Part(Others(xs[1..], g, v), part, q), g, agg);
            GroupBy(Part(xs, part, q), g, agg) == if q == part(xs[0]) then [agg(Members(xs, g, v))] + rest else rest
  {
    var v := g(xs[0]);
    assert forall x :: x in xs[1..] ==> x in xs;
    OthersInPart(xs[1..], g, v, part, q);
    if q == part(xs[0]) {
      MembersInPart(xs, g, v, part, q);
      assert Part(xs, part, q)[1..] == Part(xs[1..], part, q);
    } else {
      PartMembers(xs[1..], part, q);
      NoMembers(Part(xs[1..], part, q), g, v);
    }
  }

  /** When groups are not split, grouping part by part gives the same output rows. */
  lemma {:induction false} GroupByParts<T, G, U>(xs: seq<T>, g: T -> G, agg: seq<T> -> U, part: T -> nat, n: nat)
    requires Together(xs, g, part) && forall x :: x in xs ==> part(x) < n
    ensures multiset(Gather((p: nat) => GroupBy(Part(xs, part, p), g, agg), n)) == multiset(GroupBy(xs, g, agg))
    decreases |xs|
  {
    var whole := (p: nat) => GroupBy(Part(xs, part, p), g, agg);
    if xs == [] {
      GatherNothing(whole, n);
    } else {
      var v := g(xs[0]);
      var others := Others(xs[1..], g, v);
      var rest := (p: nat) => GroupBy(Part(others, part, p), g, agg);
      forall q: nat | 0 <= q < n
        ensures whole(q) == if q == part(xs[0]) then [agg(Members(xs, g, v))] + rest(q) else rest(q)
      {
        GroupLeavesPart(xs, g, agg, part, q);
      }
      assert forall x :: x in xs[1..] ==> x in xs;
      GatherInsert(whole, rest, n, part(xs[0]), [agg(Members(xs, g, v))]);
      GroupByParts(others, g, agg, part, n);
    }
  }

  // ---------------------------------------------------------------------------
  // Window functions
  // ---------------------------------------------------------------------------

  /** For one window: the rows of its partition before and after the current row. */
  datatype Frame<T> = Frame(before: seq<T>, after: seq<T>)

  function Frames<T, G(==)>(specs: seq<T -> G>, before: seq<T>, x: T, after: seq<T>): seq<Frame<T>>
  {
    if specs == [] then []
    else
      [Frame(Members(before, specs[0], specs[0](x)), Members(after, specs[0], specs[0](x)))]
      + Frames(specs[1..], before, x, after)
  }

  /** One output row for each row, from the row and its place in the partition of each window. */
  function Windows<T, G(==), U>(before: seq<T>, xs: seq<T>, specs: seq<T -> G>, f: (T, seq<Frame<T>>) -> U): seq<U>
    decreases |xs|
  {
    if xs == [] then []
    else [f(xs[0], Frames(specs, before, xs[0], xs[1..]))] + Windows(before + [xs[0]], xs[1..], specs, f)
  }

  lemma {:induction false} FramesInPart<T, G>(specs: seq<T -> G>, before: seq<T>, x: T, after: seq<T>, part: T -> nat)
    requires forall i :: 0 <= i < |specs| ==> Together(before + [x] + after, specs[i], part)
    ensures Frames(specs, Part(before, part, part(x)), x, Part(after, part, part(x))) == Frames(specs, before, x, after)
  {
    if specs != [] {
      var all := before + [x] + after;
      assert Together(all, specs[0], part) && x in all;
      assert forall y :: y in before || y in after ==> y in all;
      MembersInPart(before, specs[0], specs[0](x), part, part(x));
      MembersInPart(after, specs[0], specs[0](x), part, part(x));
      assert forall i :: 0 <= i < |specs[1..]| ==> specs[1..][i] == specs[i + 1];
      FramesInPart(specs[1..], before, x, after, part);
    }
  }

  lemma {:induction false} PartAppend<T>(a: seq<T>, x: T, part: T -> nat, p: nat)
    ensures Part(a + [x], part, p) == if part(x) == p then Part(a, part, p) + [x] else Part(a, part, p)
  {
    if a == [] {
      assert a + [x] == [x] && [x][1..] == [];
    } else {
      assert (a + [x])[1..] == a[1..] + [x] && (a + [x])[0] == a[0];
      PartAppend(a[1..], x, part, p);
    }
  }

  lemma {:induction false} WindowsFromParts<T, G, U>(
      before: seq<T>, xs: seq<T>, specs: seq<T -> G>, f: (T, seq<Frame<T>>) -> U, part: T -> nat, n: nat)
    requires forall i :: 0 <= i < |specs| ==> Together(before + xs, specs[i], part)
    requires forall x :: x in xs ==> part(x) < n
    ensures multiset(Gather((p: nat) => Windows(Part(before, part, p), Part(xs, part, p), specs, f), n))
            == multiset(Windows(before, xs, specs, f))
    decreases |xs|
  {
    var whole := (p: nat) => Windows(Part(before, part, p), Part(xs, part, p), specs, f);
    if xs == [] {
      GatherNothing(whole, n);
    } else {
      var x, after := xs[0], xs[1..];
      var rest := (p: nat) => Windows(Part(before + [x], part, p), Part(after, part, p), specs, f);
      assert before + xs == before + [x] + after == (before + [x]) + after;
      FramesInPart(specs, before, x, after, part);
      var row := f(x, Frames(specs, before, x, after));
      forall q: nat | 0 <= q < n ensures whole(q) == if q == part(x) then [row] + rest(q) else rest(q) {
        PartAppend(before, x, part, q);
        if q == part(x) {
          assert Part(xs, part, q)[1..] == Part(after, part, q);
        }
      }
      GatherInsert(whole, rest, n, part(x), [row]);
      WindowsFromParts(before + [x], after, specs, f, part, n);
    }
  }

  /** When no window partition is split, evaluating the windows part by part gives the same output rows. */
  lemma WindowsByParts<T, G, U>(xs: seq<T>, specs: seq<T -> G>, f: (T, seq<Frame<T>>) -> U, part: T -> nat, n: nat)
    requires forall i :: 0 <= i < |specs| ==> Together(xs, specs[i], part)
    requires forall x :: x in xs ==> part(x) < n
    ensures multiset(Gather((p: nat) => Windows([], Part(xs, part, p), specs, f), n))
            == multiset(Windows([], xs, specs, f))
  {
    assert [] + xs == xs;
    WindowsFromParts([], xs, specs, f, part, n);
    GatherSame((p: nat) => Windows(Part([], part, p), Part(xs, part, p), specs, f),
               (p: nat) => Windows([], Part(xs, part, p), specs, f), n);
  }
}
