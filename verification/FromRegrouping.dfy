/**
 A FROM clause `a, b JOIN c, ...` is regenerated as `a CROSS JOIN b JOIN c CROSS JOIN ...`: one item, joined from
 the left.  Now the joins of a later item see the relations of the earlier items, and run after the product
 with them.  This file says when that leaves names, bindings and rows as they were.
 */
module FromRegrouping {
  import opened Predicates
  import opened Parity
  import opened FromScopes

  // ---------------------------------------------------------------------------
  // Joining before or after the product
  // ---------------------------------------------------------------------------

  function Prefixed(prow: Row, rows: seq<Row>): (r: seq<Row>)
    ensures |r| == |rows|
  {
    seq(|rows|, i requires 0 <= i < |rows| => prow + rows[i])
  }

  lemma {:induction false} AllMatch(prow: Row, rows: seq<Row>)
    ensures Matches(prow, rows, Everything()) == Prefixed(prow, rows)
  {
    if rows != [] {
      AllMatch(prow, rows[1..]);
    }
  }

  /** On rows that begin with `prow`, the one condition is the other on the rest. */
  ghost predicate Carries(prow: Row, on: Row -> bool, on': Row -> bool) { forall x: Row :: on'(prow + x) == on(x) }

  lemma {:induction false} PrefixMatches(prow: Row, l: Row, rs: seq<Row>, on: Row -> bool, on': Row -> bool)
    requires Carries(prow, on, on')
    ensures Matches(prow + l, rs, on') == Prefixed(prow, Matches(l, rs, on))
  {
    if rs != [] {
      PrefixMatches(prow, l, rs[1..], on, on');
      assert prow + l + rs[0] == prow + (l + rs[0]);
    }
  }

  /** The rows that one left row contributes. */
  function FirstRows(l: Row, rs: seq<Row>, on: Row -> bool, pad: bool, w: nat): seq<Row>
  {
    var ms := Matches(l, rs, on);
    if ms == [] && pad then [l + Nulls(w)] else ms
  }

  lemma PrefixFirst(prow: Row, l: Row, rs: seq<Row>, on: Row -> bool, on': Row -> bool, pad: bool, w: nat)
    requires Carries(prow, on, on')
    ensures FirstRows(prow + l, rs, on', pad, w) == Prefixed(prow, FirstRows(l, rs, on, pad, w))
  {
    PrefixMatches(prow, l, rs, on, on');
    assert prow + l + Nulls(w) == prow + (l + Nulls(w));
  }

  lemma PrefixedAppend(prow: Row, a: seq<Row>, b: seq<Row>)
    ensures Prefixed(prow, a + b) == Prefixed(prow, a) + Prefixed(prow, b)
  {
  }

  lemma {:induction false} PrefixLeftPart(prow: Row, ls: seq<Row>, rs: seq<Row>, on: Row -> bool, on': Row -> bool,
                                          pad: bool, w: nat)
    requires Carries(prow, on, on')
    ensures LeftPart(Prefixed(prow, ls), rs, on', pad, w) == Prefixed(prow, LeftPart(ls, rs, on, pad, w))
  {
    if ls != [] {
      var rest := LeftPart(ls[1..], rs, on, pad, w);
      PrefixLeftPart(prow, ls[1..], rs, on, on', pad, w);
      PrefixFirst(prow, ls[0], rs, on, on', pad, w);
      assert Prefixed(prow, ls)[1..] == Prefixed(prow, ls[1..]);
      assert LeftPart(ls, rs, on, pad, w) == FirstRows(ls[0], rs, on, pad, w) + rest;
      PrefixedAppend(prow, FirstRows(ls[0], rs, on, pad, w), rest);
    }
  }

  lemma {:induction false} LeftPartAppend(a: seq<Row>, b: seq<Row>, rs: seq<Row>, on: Row -> bool, pad: bool, w: nat)
    ensures LeftPart(a + b, rs, on, pad, w) == LeftPart(a, rs, on, pad, w) + LeftPart(b, rs, on, pad, w)
  {
    if a == [] {
      assert a + b == b;
    } else {
      assert (a + b)[1..] == a[1..] + b;
      LeftPartAppend(a[1..], b, rs, on, pad, w);
    }
  }

  lemma {:induction false} ProductThenJoin(ps: seq<Row>, ls: seq<Row>, rs: seq<Row>, on: Row -> bool, on': Row -> bool,
                                           pad: bool, w: nat)
    requires forall prow :: prow in ps ==> Carries(prow, on, on')
    ensures LeftPart(Product(ps, ls), rs, on', pad, w) == Product(ps, LeftPart(ls, rs, on, pad, w))
  {
    if ps != [] {
      var prow, rest := ps[0], ps[1..];
      ProductThenJoin(rest, ls, rs, on, on', pad, w);
      AllMatch(prow, ls);
      AllMatch(prow, LeftPart(ls, rs, on, pad, w));
      LeftPartAppend(Prefixed(prow, ls), Product(rest, ls), rs, on', pad, w);
      PrefixLeftPart(prow, ls, rs, on, on', pad, w);
    }
  }

  lemma TestCarries(p: Visible, v: Visible, c: Clause, prow: Row)
    requires |prow| == |p.rels| && NamesApart(p.rels, Extend(v, c).rels)
    requires ClauseBinds(v, c) && !Clash(c, ColumnsOf(p.groups))
    ensures Carries(prow, Test(v, c), Test(Beside(p, v), c))
  {
    forall x: Row ensures Test(Beside(p, v), c)(prow + x) == Test(v, c)(x) {
      TestBeside(p, v, c, prow, x);
    }
  }

  lemma NoRightRows(kind: Kind, ls: seq<Row>, rs: seq<Row>, on: Row -> bool, wl: nat, wr: nat)
    requires !KeepsRight(kind)
    ensures JoinRows(kind, ls, rs, on, wl, wr) == LeftPart(ls, rs, on, kind.LeftOuter?, wr)
  {
  }

  lemma JoinBeside(p: Visible, ps: seq<Row>, v: Visible, ls: seq<Row>, c: Clause)
    requires ClauseBinds(v, c) && NamesApart(p.rels, Extend(v, c).rels) && Width(ps, |p.rels|)
    requires !Clash(c, ColumnsOf(p.groups)) && !KeepsRight(c.kind)
    ensures var rs, w := Singles(c.right.rows), |p.rels| + |v.rels|;
            JoinRows(c.kind, Product(ps, ls), rs, Test(Beside(p, v), c), w, 1)
            == Product(ps, JoinRows(c.kind, ls, rs, Test(v, c), |v.rels|, 1))
  {
    forall prow | prow in ps ensures Carries(prow, Test(v, c), Test(Beside(p, v), c)) {
      TestCarries(p, v, c, prow);
    }
    var rs := Singles(c.right.rows);
    ProductThenJoin(ps, ls, rs, Test(v, c), Test(Beside(p, v), c), c.kind.LeftOuter?, 1);
    NoRightRows(c.kind, ls, rs, Test(v, c), |v.rels|, 1);
    NoRightRows(c.kind, Product(ps, ls), rs, Test(Beside(p, v), c), |p.rels| + |v.rels|, 1);
  }

  /** Inner and left joins of an item commute with the product with the items before it. */
  lemma {:induction false} RowsBeside(p: Visible, ps: seq<Row>, v: Visible, ls: seq<Row>, cs: seq<Clause>)
    requires JoinsBind(v, cs) && NamesApart(p.rels, ScopeAfter(v, cs).rels) && Width(ps, |p.rels|)
    requires !AnyClash(cs, ColumnsOf(p.groups)) && !AnyKeepsRight(cs)
    ensures RowsAfter(Beside(p, v), Product(ps, ls), cs) == Product(ps, RowsAfter(v, ls, cs))
  {
    if |cs| > 0 {
      var before, c := cs[..|cs| - 1], cs[|cs| - 1];
      LastClause(cs, ColumnsOf(p.groups));
      ApartBefore(p.rels, v, cs);
      RowsBeside(p, ps, v, ls, before);
      ScopeBeside(p, v, before);
      JoinBeside(p, ps, ScopeAfter(v, before), RowsAfter(v, ls, before), c);
    }
  }

  // ---------------------------------------------------------------------------
  // Lists of joins
  // ---------------------------------------------------------------------------

  lemma {:induction false} AppendScope(v: Visible, a: seq<Clause>, b: seq<Clause>)
    ensures ScopeAfter(v, a + b) == ScopeAfter(ScopeAfter(v, a), b)
    ensures JoinsBind(v, a + b) <==> JoinsBind(v, a) && JoinsBind(ScopeAfter(v, a), b)
  {
    if |b| == 0 {
      assert a + b == a;
    } else {
      AppendScope(v, a, b[..|b| - 1]);
      assert (a + b)[..|a + b| - 1] == a + b[..|b| - 1];
    }
  }

  lemma {:induction false} AppendRows(v: Visible, rows: seq<Row>, a: seq<Clause>, b: seq<Clause>)
    ensures RowsAfter(v, rows, a + b) == RowsAfter(ScopeAfter(v, a), RowsAfter(v, rows, a), b)
  {
    if |b| == 0 {
      assert a + b == a;
    } else {
      var before := b[..|b| - 1];
      AppendRows(v, rows, a, before);
      AppendScope(v, a, before);
      assert (a + b)[..|a + b| - 1] == a + before && (a + b)[|a + b| - 1] == b[|b| - 1];
    }
  }

  lemma OneJoin(v: Visible, rows: seq<Row>, c: Clause)
    ensures ScopeAfter(v, [c]) == Extend(v, c) && (JoinsBind(v, [c]) <==> ClauseBinds(v, c))
    ensures RowsAfter(v, rows, [c]) == JoinRows(c.kind, rows, Singles(c.right.rows), Test(v, c), |v.rels|, 1)
  {
    assert [c][..0] == [];
  }

  lemma {:induction false} SameLeftPart(ls: seq<Row>, rs: seq<Row>, on: Row -> bool, on': Row -> bool, w: nat, w': nat)
    requires forall row :: on(row) == on'(row)
    ensures LeftPart(ls, rs, on, false, w) == LeftPart(ls, rs, on', false, w')
  {
    if ls != [] {
      MatchesCongruent(ls[0], rs, on, on');
      SameLeftPart(ls[1..], rs, on, on', w, w');
    }
  }

  lemma CrossRows(v: Visible, rows: seq<Row>, r: Rel)
    ensures var c := Clause(Inner, r, Always);
            JoinRows(Inner, rows, Singles(r.rows), Test(v, c), |v.rels|, 1) == Product(rows, Singles(r.rows))
  {
    var c := Clause(Inner, r, Always);
    NoRightRows(Inner, rows, Singles(r.rows), Test(v, c), |v.rels|, 1);
    SameLeftPart(rows, Singles(r.rows), Test(v, c), Everything(), 1, 0);
  }

  /** What the regenerated clause does with one more item. */
  lemma ItemAppended(v: Visible, rows: seq<Row>, i: Item)
    ensures var cs := [Clause(Inner, i.first, Always)] + i.joins;
            && ScopeAfter(v, cs) == ScopeAfter(Beside(v, Leaf(i.first)), i.joins)
            && (JoinsBind(v, cs) <==> JoinsBind(Beside(v, Leaf(i.first)), i.joins))
            && RowsAfter(v, rows, cs)
               == RowsAfter(Beside(v, Leaf(i.first)), Product(rows, Singles(i.first.rows)), i.joins)
  {
    var c := Clause(Inner, i.first, Always);
    AppendScope(v, [c], i.joins);
    AppendRows(v, rows, [c], i.joins);
    OneJoin(v, rows, c);
    CrossIsBeside(v, i.first);
    CrossRows(v, rows, i.first);
  }

  // ---------------------------------------------------------------------------
  // Columns and widths
  // ---------------------------------------------------------------------------

  function RelColumns(rels: Scope): set<string> { set i, c | 0 <= i < |rels| && c in rels[i].columns :: c }

  lemma {:induction false} RightColumns(columns: seq<string>, merged: seq<string>, n: nat, c: string)
    ensures c in ColumnsOf(RightGroups(columns, merged, n)) <==> c in columns && c !in merged
  {
    if columns != [] {
      RightColumns(columns[1..], merged, n, c);
      var here: seq<Group> := if columns[0] in merged then [] else [Group(columns[0], [n])];
      ColumnsAppend(here, RightGroups(columns[1..], merged, n), c);
    }
  }

  lemma ColumnsAppend(a: seq<Group>, b: seq<Group>, c: string)
    ensures c in ColumnsOf(a + b) <==> c in ColumnsOf(a) || c in ColumnsOf(b)
  {
    if c in ColumnsOf(a) {
      var i :| 0 <= i < |a| && a[i].column == c;
      assert (a + b)[i].column == c;
    }
    if c in ColumnsOf(b) {
      var i :| 0 <= i < |b| && b[i].column == c;
      assert (a + b)[|a| + i].column == c;
    }
  }

  lemma RelColumnsAppend(a: Scope, b: Scope)
    ensures RelColumns(a + b) == RelColumns(a) + RelColumns(b)
  {
    forall c ensures c in RelColumns(a + b) <==> c in RelColumns(a) || c in RelColumns(b) {
      if c in RelColumns(a) {
        var i :| 0 <= i < |a| && c in a[i].columns;
        assert c in (a + b)[i].columns;
      }
      if c in RelColumns(b) {
        var i :| 0 <= i < |b| && c in b[i].columns;
        assert c in (a + b)[|a| + i].columns;
      }
    }
  }

  /** Every column of a relation can be named, and nothing else. */
  predicate ColumnsComplete(v: Visible) { ColumnsOf(v.groups) == RelColumns(v.rels) }

  lemma ExtendComplete(v: Visible, c: Clause)
    requires ColumnsComplete(v) && ClauseBinds(v, c)
    ensures ColumnsComplete(Extend(v, c))
  {
    var n, merged := |v.rels|, Compared(v, c);
    var left, right := MergeLeft(v.groups, merged, n), RightGroups(c.right.columns, merged, n);
    RelColumnsAppend(v.rels, [RelationIn(c.right)]);
    assert RelColumns([RelationIn(c.right)]) == RelationIn(c.right).columns by {
      assert [RelationIn(c.right)][0] == RelationIn(c.right);
    }
    assert ColumnsOf(left) == ColumnsOf(v.groups) by {
      assert forall i :: 0 <= i < |left| ==> left[i].column == v.groups[i].column;
    }
    forall k ensures k in ColumnsOf(left + right) <==> k in RelColumns(v.rels) || k in RelationIn(c.right).columns {
      ColumnsAppend(left, right, k);
      RightColumns(c.right.columns, merged, n, k);
      if k in merged {
        assert v.groups[First(v.groups, k)].column == k;
      }
    }
  }

  lemma {:induction false} JoinsComplete(v: Visible, cs: seq<Clause>)
    requires ColumnsComplete(v) && JoinsBind(v, cs)
    ensures ColumnsComplete(ScopeAfter(v, cs))
  {
    if |cs| > 0 {
      JoinsComplete(v, cs[..|cs| - 1]);
      ExtendComplete(ScopeAfter(v, cs[..|cs| - 1]), cs[|cs| - 1]);
    }
  }

  lemma LeafComplete(r: Rel)
    ensures ColumnsComplete(Leaf(r))
  {
    assert Leaf(r).rels[0] == RelationIn(r);
    assert forall c :: c in RelationIn(r).columns <==> c in r.columns;
    forall c ensures c in ColumnsOf(Leaf(r).groups) <==> c in RelColumns(Leaf(r).rels) {
      RightColumns(r.columns, [], 0, c);
    }
  }

  lemma BesideComplete(p: Visible, v: Visible)
    requires ColumnsComplete(p) && ColumnsComplete(v)
    ensures ColumnsComplete(Beside(p, v))
  {
    RelColumnsAppend(p.rels, v.rels);
    var gs := Shifted(v.groups, |p.rels|);
    assert ColumnsOf(gs) == ColumnsOf(v.groups) by {
      assert forall i :: 0 <= i < |gs| ==> gs[i].column == v.groups[i].column;
    }
    forall c ensures c in ColumnsOf(p.groups + gs) <==> c in ColumnsOf(p.groups) || c in ColumnsOf(gs) {
      ColumnsAppend(p.groups, gs, c);
    }
  }

  lemma JoinWidth(kind: Kind, ls: seq<Row>, rs: seq<Row>, on: Row -> bool, wl: nat, wr: nat)
    requires Width(ls, wl) && Width(rs, wr)
    ensures Width(JoinRows(kind, ls, rs, on, wl, wr), wl + wr)
  {
    var rows := JoinRows(kind, ls, rs, on, wl, wr);
    forall i | 0 <= i < |rows| ensures |rows[i]| == wl + wr {
      var pad := kind.LeftOuter? || kind.FullOuter?;
      if rows[i] in LeftPart(ls, rs, on, pad, wr) {
        LeftPartMembers(ls, rs, on, pad, wr, rows[i]);
      } else {
        RightPartMembers(ls, rs, on, wl, rows[i]);
      }
    }
  }

  lemma {:induction false} RowsWidth(v: Visible, rows: seq<Row>, cs: seq<Clause>)
    requires Width(rows, |v.rels|)
    ensures Width(RowsAfter(v, rows, cs), |ScopeAfter(v, cs).rels|)
  {
    if |cs| > 0 {
      var before, c := cs[..|cs| - 1], cs[|cs| - 1];
      RowsWidth(v, rows, before);
      var left := ScopeAfter(v, before);
      JoinWidth(c.kind, RowsAfter(v, rows, before), Singles(c.right.rows), Test(left, c), |left.rels|, 1);
    }
  }

  // ---------------------------------------------------------------------------
  // Lists of items
  // ---------------------------------------------------------------------------

  predicate FromBinds(items: seq<Item>) { forall i :: 0 <= i < |items| ==> ItemBinds(items[i]) }

  /** Relations of different items have different names. */
  predicate NamesDistinct(items: seq<Item>)
  {
    var n := |items| - 1;
    n > 0 ==> NamesDistinct(items[..n]) && NamesApart(FromScope(items[..n]).rels, ItemScope(items[n]).rels)
  }

  /** A join of a later item names, without qualifying it, a column of a relation of an earlier item. */
  predicate Clashing(items: seq<Item>)
  {
    var n := |items| - 1;
    n > 0 && (Clashing(items[..n]) || AnyClash(items[n].joins, RelColumns(FromScope(items[..n]).rels)))
  }

  predicate LaterKeepsRight(items: seq<Item>)
  {
    var n := |items| - 1;
    n > 0 && (LaterKeepsRight(items[..n]) || AnyKeepsRight(items[n].joins))
  }

  predicate LaterNatural(items: seq<Item>)
  {
    var n := |items| - 1;
    n > 0 && (LaterNatural(items[..n]) || AnyNatural(items[n].joins))
  }

  lemma {:induction false} FromComplete(items: seq<Item>)
    requires |items| > 0 && FromBinds(items)
    ensures ColumnsComplete(FromScope(items))
  {
    var n := |items| - 1;
    LeafComplete(items[n].first);
    JoinsComplete(Leaf(items[n].first), items[n].joins);
    if n > 0 {
      FromComplete(items[..n]);
      BesideComplete(FromScope(items[..n]), ItemScope(items[n]));
    }
  }

  lemma ProductWidth(ps: seq<Row>, ls: seq<Row>, wl: nat, wr: nat)
    requires Width(ps, wl) && Width(ls, wr)
    ensures Width(Product(ps, ls), wl + wr)
  {
    JoinWidth(Inner, ps, ls, Everything(), wl, wr);
    NoRightRows(Inner, ps, ls, Everything(), wl, wr);
    SameLeftPart(ps, ls, Everything(), Everything(), wr, 0);
  }

  lemma {:induction false} FromWidth(items: seq<Item>)
    requires |items| > 0
    ensures Width(FromRows(items), |FromScope(items).rels|)
  {
    var n := |items| - 1;
    RowsWidth(Leaf(items[n].first), Singles(items[n].first.rows), items[n].joins);
    if n > 0 {
      FromWidth(items[..n]);
      ProductWidth(FromRows(items[..n]), ItemRows(items[n]), |FromScope(items[..n]).rels|, |ItemScope(items[n]).rels|);
    }
  }

  /** The regenerated clause of a list, from that of the list without its last item. */
  lemma RegroupLast(items: seq<Item>)
    requires |items| > 1
    ensures var n := |items| - 1;
            var before, i := Regroup(items[..n]), items[n];
            var v := Beside(ItemScope(before), Leaf(i.first));
            && ItemScope(Regroup(items)) == ScopeAfter(v, i.joins)
            && (ItemBinds(Regroup(items)) <==> ItemBinds(before) && JoinsBind(v, i.joins))
            && ItemRows(Regroup(items)) == RowsAfter(v, Product(ItemRows(before), Singles(i.first.rows)), i.joins)
  {
    var n := |items| - 1;
    var before, i := Regroup(items[..n]), items[n];
    var cs := [Clause(Inner, i.first, Always)] + i.joins;
    assert Regroup(items).joins == before.joins + cs;
    AppendScope(Leaf(before.first), before.joins, cs);
    AppendRows(Leaf(before.first), Singles(before.first.rows), before.joins, cs);
    ItemAppended(ItemScope(before), ItemRows(before), i);
  }

  /** Without a clash the regenerated clause makes the same names visible. */
  lemma {:induction false} RegroupScope(items: seq<Item>)
    requires |items| > 0 && FromBinds(items) && !Clashing(items)
    ensures ItemScope(Regroup(items)) == FromScope(items)
  {
    var n := |items| - 1;
    if n > 0 {
      RegroupScope(items[..n]);
      RegroupLast(items);
      FromComplete(items[..n]);
      ScopeBeside(FromScope(items[..n]), Leaf(items[n].first), items[n].joins);
    }
  }

  /**
   A FROM clause that resolves as written resolves as regenerated exactly when no join of a later item names,
   bare or by USING, a column of an earlier item.
   */
  lemma {:induction false} RegroupBindsIff(items: seq<Item>)
    requires |items| > 0 && FromBinds(items) && NamesDistinct(items) && !LaterNatural(items)
    ensures ItemBinds(Regroup(items)) <==> !Clashing(items)
  {
    var n := |items| - 1;
    if n > 0 {
      RegroupBindsIff(items[..n]);
      RegroupLast(items);
      if !Clashing(items[..n]) {
        RegroupScope(items[..n]);
        FromComplete(items[..n]);
        JoinsBindBesideIff(FromScope(items[..n]), Leaf(items[n].first), items[n].joins);
      }
    }
  }

  /**
   Without a clash, and with inner, cross and left joins only in the later items, the regenerated clause
   resolves, makes the same names visible, and has the same rows in the same order.
   */
  lemma {:induction false} RegroupingKeepsRows(items: seq<Item>)
    requires |items| > 0 && FromBinds(items) && NamesDistinct(items) && !Clashing(items) && !LaterKeepsRight(items)
    ensures ItemBinds(Regroup(items)) && ItemScope(Regroup(items)) == FromScope(items)
    ensures ItemRows(Regroup(items)) == FromRows(items)
  {
    var n := |items| - 1;
    if n > 0 {
      RegroupingKeepsRows(items[..n]);
      RegroupScope(items);
      RegroupLast(items);
      FromComplete(items[..n]);
      FromWidth(items[..n]);
      var p, leaf, joins := FromScope(items[..n]), Leaf(items[n].first), items[n].joins;
      JoinsBindBeside(p, leaf, joins);
      RowsBeside(p, FromRows(items[..n]), leaf, Singles(items[n].first.rows), joins);
    }
  }

  // ---------------------------------------------------------------------------
  // Joins that keep right rows
  // ---------------------------------------------------------------------------

  predicate SameRel(a: Rel, b: Rel) { a.name == b.name && a.columns == b.columns }

  /** The same join, but for the contents of the relation and the test of an ON condition. */
  ghost predicate SameClause(a: Clause, b: Clause)
  {
    && a.kind == b.kind && SameRel(a.right, b.right)
    && if a.constraint.On? then b.constraint.On? && b.constraint.refs == a.constraint.refs
       else b.constraint == a.constraint
  }

  ghost predicate SameItem(a: Item, b: Item)
  {
    && SameRel(a.first, b.first) && |a.joins| == |b.joins|
    && forall i :: 0 <= i < |a.joins| ==> SameClause(a.joins[i], b.joins[i])
  }

  ghost predicate SameShape(a: seq<Item>, b: seq<Item>)
  {
    |a| == |b| && forall i :: 0 <= i < |a| ==> SameItem(a[i], b[i])
  }

  /** Only ON conditions and cross joins. */
  predicate Tested(items: seq<Item>)
  {
    forall i :: 0 <= i < |items| ==>
      forall j :: 0 <= j < |items[i].joins| ==>
        items[i].joins[j].constraint.On? || items[i].joins[j].constraint.Always?
  }

  lemma {:induction false} SameJoins(v: Visible, a: seq<Clause>, b: seq<Clause>)
    requires |a| == |b| && forall i :: 0 <= i < |a| ==> SameClause(a[i], b[i])
    ensures ScopeAfter(v, a) == ScopeAfter(v, b) && (JoinsBind(v, a) <==> JoinsBind(v, b))
    ensures forall columns :: AnyClash(a, columns) == AnyClash(b, columns)
    ensures AnyKeepsRight(a) == AnyKeepsRight(b) && AnyNatural(a) == AnyNatural(b)
  {
    if |a| > 0 {
      var n := |a| - 1;
      SameJoins(v, a[..n], b[..n]);
      assert SameClause(a[n], b[n]);
      forall columns ensures AnyClash(a, columns) == AnyClash(b, columns) {
        LastClause(a, columns);
        LastClause(b, columns);
      }
      LastClause(a, {});
      LastClause(b, {});
      SameBinding(ScopeAfter(v, a[..n]), a[n], b[n]);
    }
  }

  lemma SameBinding(v: Visible, a: Clause, b: Clause)
    requires SameClause(a, b)
    ensures Extend(v, a) == Extend(v, b) && (ClauseBinds(v, a) <==> ClauseBinds(v, b))
  {
  }

  lemma SameItems(a: Item, b: Item)
    requires SameItem(a, b)
    ensures ItemScope(a) == ItemScope(b) && ItemBinds(a) == ItemBinds(b)
    ensures forall columns :: AnyClash(a.joins, columns) == AnyClash(b.joins, columns)
    ensures AnyKeepsRight(a.joins) == AnyKeepsRight(b.joins) && AnyNatural(a.joins) == AnyNatural(b.joins)
  {
    SameJoins(Leaf(a.first), a.joins, b.joins);
  }

  lemma {:induction false} SameFrom(a: seq<Item>, b: seq<Item>)
    requires |a| > 0 && SameShape(a, b)
    ensures FromScope(a) == FromScope(b) && FromBinds(a) == FromBinds(b) && NamesDistinct(a) == NamesDistinct(b)
    ensures Clashing(a) == Clashing(b) && LaterKeepsRight(a) == LaterKeepsRight(b) && LaterNatural(a) == LaterNatural(b)
  {
    var n := |a| - 1;
    forall i | 0 <= i <= n ensures ItemScope(a[i]) == ItemScope(b[i]) && ItemBinds(a[i]) == ItemBinds(b[i]) {
      SameItems(a[i], b[i]);
    }
    if n > 0 {
      SameItems(a[n], b[n]);
      SameFrom(a[..n], b[..n]);
    }
  }

  // The contents that tell the two clauses apart: nothing before item `k`, one tuple in every relation from it on.

  function Content(full: bool): seq<Tuple> { if full then [map[]] else [] }

  function FilledClause(c: Clause, full: bool): Clause
  {
    Clause(c.kind, c.right.(rows := Content(full)),
           if c.constraint.On? then c.constraint.(test := _ => true) else c.constraint)
  }

  function FilledItem(i: Item, full: bool): (r: Item)
    ensures |r.joins| == |i.joins|
  {
    Item(i.first.(rows := Content(full)),
         seq(|i.joins|, j requires 0 <= j < |i.joins| => FilledClause(i.joins[j], full)))
  }

  function Filled(items: seq<Item>, k: nat): (r: seq<Item>)
    ensures |r| == |items|
  {
    seq(|items|, i requires 0 <= i < |items| => FilledItem(items[i], i >= k))
  }

  lemma FilledSame(items: seq<Item>, k: nat)
    ensures SameShape(items, Filled(items, k))
  {
  }

  lemma {:induction false} NothingJoined(v: Visible, rows: seq<Row>, cs: seq<Clause>)
    requires rows == [] && forall i :: 0 <= i < |cs| ==> cs[i].right.rows == []
    ensures RowsAfter(v, rows, cs) == []
  {
    if |cs| > 0 {
      NothingJoined(v, rows, cs[..|cs| - 1]);
    }
  }

  lemma {:induction false} NoProduct(ps: seq<Row>, ls: seq<Row>)
    requires ps == [] || ls == []
    ensures Product(ps, ls) == []
  {
    if ps != [] {
      NoProduct(ps[1..], ls);
    }
  }

  /** The product with an empty item is empty. */
  lemma {:induction false} EmptyItem(items: seq<Item>)
    requires |items| > 0 && ItemRows(items[0]) == []
    ensures FromRows(items) == []
  {
    var n := |items| - 1;
    if n > 0 {
      EmptyItem(items[..n]);
      NoProduct(FromRows(items[..n]), ItemRows(items[n]));
    }
  }

  lemma WrittenIsEmpty(items: seq<Item>, k: nat)
    requires 0 < k < |items|
    ensures FromRows(Filled(items, k)) == []
  {
    var i := Filled(items, k)[0];
    assert i == FilledItem(items[0], false);
    NothingJoined(Leaf(i.first), Singles(i.first.rows), i.joins);
    EmptyItem(Filled(items, k));
  }

  /** A clause whose condition is true of every row and whose relation is not empty. */
  ghost predicate Open(c: Clause)
  {
    |c.right.rows| > 0 && (c.constraint.Always? || (c.constraint.On? && forall vs :: c.constraint.test(vs)))
  }

  lemma JoinNotEmpty(kind: Kind, ls: seq<Row>, rs: seq<Row>, on: Row -> bool, wl: nat, wr: nat)
    requires (forall row :: on(row)) && rs != [] && (ls != [] || KeepsRight(kind))
    ensures JoinRows(kind, ls, rs, on, wl, wr) != []
  {
    if ls != [] {
      assert Matches(ls[0], rs, on) != [];
    } else {
      assert !Matched(ls, rs[0], on);
    }
  }

  lemma {:induction false} StaysNotEmpty(v: Visible, rows: seq<Row>, cs: seq<Clause>, j: nat)
    requires j < |cs| && KeepsRight(cs[j].kind) && forall i :: j <= i < |cs| ==> Open(cs[i])
    ensures RowsAfter(v, rows, cs) != []
  {
    var n := |cs| - 1;
    var before, c := cs[..n], cs[n];
    if j < n {
      assert forall i :: 0 <= i < n ==> before[i] == cs[i];
      StaysNotEmpty(v, rows, before, j);
    }
    assert Open(c);
    var left := ScopeAfter(v, before);
    assert forall row :: Test(left, c)(row);
    JoinNotEmpty(c.kind, RowsAfter(v, rows, before), Singles(c.right.rows), Test(left, c), |left.rels|, 1);
  }

  /** In the regenerated clause, a right-keeping join of item `k` is followed by open joins only. */
  lemma {:induction false} OpenTail(items: seq<Item>, k: nat, j: nat) returns (at: nat)
    requires 0 < k < |items| && Tested(items) && j < |items[k].joins| && KeepsRight(items[k].joins[j].kind)
    ensures var cs := Regroup(Filled(items, k)).joins;
            at < |cs| && KeepsRight(cs[at].kind) && forall i :: at <= i < |cs| ==> Open(cs[i])
  {
    var n := |items| - 1;
    var all := Filled(items, k);
    var before := Regroup(all[..n]).joins;
    var cs := Regroup(all).joins;
    assert cs == before + [Clause(Inner, all[n].first, Always)] + all[n].joins;
    forall i | 0 <= i < |all[n].joins| ensures Open(all[n].joins[i]) {
      assert items[n].joins[i].constraint.On? || items[n].joins[i].constraint.Always?;
    }
    if k == n {
      at := |before| + 1 + j;
      assert cs[at] == all[n].joins[j];
    } else {
      assert Filled(items[..n], k) == all[..n];
      at := OpenTail(items[..n], k, j);
      assert forall i :: 0 <= i < |before| ==> cs[i] == before[i];
    }
    forall i | at <= i < |cs| ensures Open(cs[i]) {
      if i > |before| {
        assert cs[i] == all[n].joins[i - |before| - 1];
      }
    }
  }

  ghost predicate Preserved(items: seq<Item>)
    requires |items| > 0
  {
    ItemBinds(Regroup(items)) && ItemRows(Regroup(items)) == FromRows(items)
  }

  ghost predicate AlwaysPreserved(items: seq<Item>)
    requires |items| > 0
  {
    forall other :: SameShape(items, other) ==> Preserved(other)
  }

  lemma {:induction false} LaterKeepsRightAt(items: seq<Item>) returns (k: nat, j: nat)
    requires LaterKeepsRight(items)
    ensures 0 < k < |items| && j < |items[k].joins| && KeepsRight(items[k].joins[j].kind)
  {
    var n := |items| - 1;
    if LaterKeepsRight(items[..n]) {
      k, j := LaterKeepsRightAt(items[..n]);
    } else {
      k := n;
      j :| 0 <= j < |items[n].joins| && KeepsRight(items[n].joins[j].kind);
    }
  }

  lemma RightRowsAppear(items: seq<Item>)
    requires |items| > 0 && Tested(items) && LaterKeepsRight(items)
    ensures !AlwaysPreserved(items)
  {
    var k, j := LaterKeepsRightAt(items);
    var all := Filled(items, k);
    FilledSame(items, k);
    WrittenIsEmpty(items, k);
    var at := OpenTail(items, k, j);
    var g := Regroup(all);
    StaysNotEmpty(Leaf(g.first), Singles(g.first.rows), g.joins, at);
    assert SameShape(items, all) && !Preserved(all);
  }

  lemma SameAsSelf(items: seq<Item>)
    ensures SameShape(items, items)
  {
  }

  lemma ClashBreaks(items: seq<Item>)
    requires |items| > 0 && FromBinds(items) && NamesDistinct(items) && Tested(items) && Clashing(items)
    ensures !AlwaysPreserved(items)
  {
    TestedNotNatural(items);
    RegroupBindsIff(items);
    SameAsSelf(items);
    assert !Preserved(items);
  }

  lemma NoClashPreserves(items: seq<Item>)
    requires |items| > 0 && FromBinds(items) && NamesDistinct(items) && !Clashing(items) && !LaterKeepsRight(items)
    ensures AlwaysPreserved(items)
  {
    forall other | SameShape(items, other) ensures Preserved(other) {
      SameFrom(items, other);
      RegroupingKeepsRows(other);
    }
  }

  /**
   With ON conditions, the regenerated clause resolves and has the rows of the original, for all contents and
   all tests, exactly when no join of a later item names a bare column of an earlier item or keeps right rows.
   */
  lemma RegroupingIsSafeIff(items: seq<Item>)
    requires |items| > 0 && FromBinds(items) && NamesDistinct(items) && Tested(items)
    ensures AlwaysPreserved(items) <==> !Clashing(items) && !LaterKeepsRight(items)
  {
    if Clashing(items) {
      ClashBreaks(items);
    } else if LaterKeepsRight(items) {
      RightRowsAppear(items);
    } else {
      NoClashPreserves(items);
    }
  }

  lemma {:induction false} TestedNotNatural(items: seq<Item>)
    requires Tested(items)
    ensures !LaterNatural(items)
  {
    var n := |items| - 1;
    if n > 0 {
      assert forall i :: 0 <= i < n ==> items[..n][i] == items[i];
      TestedNotNatural(items[..n]);
      assert !AnyNatural(items[n].joins);
    }
  }

  // ---------------------------------------------------------------------------
  // A clause that does not resolve any more
  // ---------------------------------------------------------------------------

  /** `a, b JOIN c USING (k)`, where all three relations have a column k. */
  function UsingShared(): seq<Item>
  {
    [Item(Rel("a", ["k"], []), []),
     Item(Rel("b", ["k"], []), [Clause(Inner, Rel("c", ["k"], []), Using(["k"]))])]
  }

  lemma OneColumn(n: nat)
    ensures RightGroups(["k"], [], n) == [Group("k", [n])] && Unique(RightGroups(["k"], [], n), "k")
  {
    assert ["k"][1..] == [];
  }

  /** As regenerated, `a CROSS JOIN b JOIN c USING (k)` has two columns k on the left. */
  lemma UsingSharedIsAmbiguous()
    ensures FromBinds(UsingShared()) && !ItemBinds(Regroup(UsingShared()))
  {
    var items := UsingShared();
    var a, b, c := items[0], items[1], items[1].joins[0];
    assert items[..1] == [a] && b.joins[..0] == [];
    OneColumn(0);
    assert ClauseBinds(Leaf(b.first), c) && JoinsBind(Leaf(b.first), b.joins);
    assert ScopeAfter(Leaf(b.first), []) == Leaf(b.first);
    assert ItemScope(a).rels == [RelationIn(a.first)];
    assert ItemScope(b).rels == [RelationIn(b.first), RelationIn(c.right)];
    assert FromScope(items[..1]) == ItemScope(a);
    assert NamesDistinct(items[..1]) && NamesDistinct(items);
    assert "k" == a.first.columns[0] && "k" in RelationIn(a.first).columns;
    assert ItemScope(a).rels[0] == RelationIn(a.first) && "k" in RelColumns(ItemScope(a).rels);
    assert "k" == c.constraint.columns[0] && "k" in BareColumns(c);
    assert "k" in BareColumns(c) * RelColumns(ItemScope(a).rels);
    assert Clash(b.joins[0], RelColumns(FromScope(items[..1]).rels)) && Clashing(items);
    assert !AnyNatural(b.joins) && !LaterNatural(items);
    RegroupBindsIff(items);
  }
}
