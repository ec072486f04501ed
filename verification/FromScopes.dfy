/**
 FROM clauses with their names and rows: which columns the joins of an item can mention, merged by USING and
 NATURAL, what a join condition means, and what becomes of both next to the relations of other items.
 */
module FromScopes {
  import opened Predicates
  import opened Parity

  // ---------------------------------------------------------------------------
  // FROM clauses
  // ---------------------------------------------------------------------------

  /** A relation with the name it is visible under; names and columns are folded. */
  datatype Rel = Rel(name: string, columns: seq<string>, rows: seq<Tuple>)

  datatype Ref = Bare(column: string) | Qualified(name: string, column: string)

  /** An ON condition is a test of the values of the columns it refers to. */
  datatype Constraint = Always | On(refs: seq<Ref>, test: seq<Value> -> bool) | Using(columns: seq<string>) | Natural

  datatype Clause = Clause(kind: Kind, right: Rel, constraint: Constraint)

  datatype Item = Item(first: Rel, joins: seq<Clause>)

  predicate KeepsRight(kind: Kind) { kind.RightOuter? || kind.FullOuter? }

  /** The regenerated clause. */
  function Regroup(items: seq<Item>): Item
    requires |items| > 0
  {
    var n := |items| - 1;
    if n == 0 then items[0]
    else
      var before := Regroup(items[..n]);
      Item(before.first, before.joins + [Clause(Inner, items[n].first, Always)] + items[n].joins)
  }

  // ---------------------------------------------------------------------------
  // Names
  // ---------------------------------------------------------------------------

  /** A bare column: the positions of the relations that have it, merged by USING. */
  datatype Group = Group(column: string, members: seq<nat>)

  datatype Visible = Visible(rels: Scope, groups: seq<Group>)

  function First(gs: seq<Group>, c: string): (i: nat)
    ensures i <= |gs|
    ensures i < |gs| ==> gs[i].column == c
    ensures forall j :: 0 <= j < i ==> gs[j].column != c
  {
    if |gs| == 0 || gs[0].column == c then 0
    else
      var i := First(gs[1..], c);
      assert forall j :: 1 <= j < 1 + i ==> gs[j] == gs[1..][j - 1];
      1 + i
  }

  predicate Unique(gs: seq<Group>, c: string)
  {
    var i := First(gs, c);
    i < |gs| && forall j :: i < j < |gs| ==> gs[j].column != c
  }

  function ColumnsOf(gs: seq<Group>): set<string> { set i | 0 <= i < |gs| :: gs[i].column }

  /** The columns of the relation at position `n` that are not merged into a group on the left. */
  function RightGroups(columns: seq<string>, merged: seq<string>, n: nat): seq<Group>
  {
    if columns == [] then []
    else (if columns[0] in merged then [] else [Group(columns[0], [n])]) + RightGroups(columns[1..], merged, n)
  }

  function MergeLeft(gs: seq<Group>, merged: seq<string>, n: nat): (r: seq<Group>)
    ensures |r| == |gs|
  {
    seq(|gs|, i requires 0 <= i < |gs| =>
      if gs[i].column in merged then Group(gs[i].column, gs[i].members + [n]) else gs[i])
  }

  function RelationIn(r: Rel): Relation { Relation(r.name, set i | 0 <= i < |r.columns| :: r.columns[i]) }

  function Leaf(r: Rel): Visible { Visible([RelationIn(r)], RightGroups(r.columns, [], 0)) }

  function Shared(columns: seq<string>, gs: seq<Group>): seq<string>
  {
    if columns == [] then []
    else (if First(gs, columns[0]) < |gs| then [columns[0]] else []) + Shared(columns[1..], gs)
  }

  /** The columns a join compares by name. */
  function Compared(v: Visible, c: Clause): seq<string>
  {
    match c.constraint
    case Using(columns) => columns
    case Natural => Shared(c.right.columns, v.groups)
    case _ => []
  }

  function Extend(v: Visible, c: Clause): Visible
  {
    var n, merged := |v.rels|, Compared(v, c);
    Visible(v.rels + [RelationIn(c.right)], MergeLeft(v.groups, merged, n) + RightGroups(c.right.columns, merged, n))
  }

  function ShiftedNat(ms: seq<nat>, n: nat): (r: seq<nat>)
    ensures |r| == |ms|
  {
    seq(|ms|, i requires 0 <= i < |ms| => ms[i] + n)
  }

  function Shifted(gs: seq<Group>, n: nat): (r: seq<Group>)
    ensures |r| == |gs|
  {
    seq(|gs|, i requires 0 <= i < |gs| => Group(gs[i].column, ShiftedNat(gs[i].members, n)))
  }

  function Beside(p: Visible, v: Visible): Visible
  {
    Visible(p.rels + v.rels, p.groups + Shifted(v.groups, |p.rels|))
  }

  function Coalesce(ms: seq<nat>, c: string, row: Row): Value
  {
    if ms == [] then Null
    else
      var v := Cell(row, ms[0], c);
      if v.Null? then Coalesce(ms[1..], c, row) else v
  }

  predicate RefBound(v: Visible, ref: Ref)
  {
    match ref
    case Bare(c) => Unique(v.groups, c)
    case Qualified(n, c) => BoundName(v.rels, n) && c in v.rels[NamePosition(v.rels, n)].columns
  }

  function RefValue(v: Visible, ref: Ref, row: Row): Value
  {
    match ref
    case Bare(c) =>
      var i := First(v.groups, c);
      if i < |v.groups| then Coalesce(v.groups[i].members, c, row) else Null
    case Qualified(n, c) => Cell(row, NamePosition(v.rels, n), c)
  }

  /** Every column the condition mentions denotes exactly one column of what is joined. */
  predicate ClauseBinds(v: Visible, c: Clause)
  {
    match c.constraint
    case Always => true
    case On(refs, _) => forall i :: 0 <= i < |refs| ==> RefBound(Extend(v, c), refs[i])
    case _ => forall k :: k in Compared(v, c) ==> Unique(v.groups, k) && Unique(RightGroups(c.right.columns, [], 0), k)
  }

  function ScopeAfter(v: Visible, cs: seq<Clause>): Visible
  {
    if |cs| == 0 then v else Extend(ScopeAfter(v, cs[..|cs| - 1]), cs[|cs| - 1])
  }

  predicate JoinsBind(v: Visible, cs: seq<Clause>)
  {
    |cs| > 0 ==> JoinsBind(v, cs[..|cs| - 1]) && ClauseBinds(ScopeAfter(v, cs[..|cs| - 1]), cs[|cs| - 1])
  }

  predicate ItemBinds(i: Item) { JoinsBind(Leaf(i.first), i.joins) }

  function ItemScope(i: Item): Visible { ScopeAfter(Leaf(i.first), i.joins) }

  function FromScope(items: seq<Item>): Visible
    requires |items| > 0
  {
    var n := |items| - 1;
    if n == 0 then ItemScope(items[0]) else Beside(FromScope(items[..n]), ItemScope(items[n]))
  }

  // ---------------------------------------------------------------------------
  // Rows
  // ---------------------------------------------------------------------------

  function RefValues(v: Visible, refs: seq<Ref>, row: Row): (r: seq<Value>)
    ensures |r| == |refs|
  {
    seq(|refs|, i requires 0 <= i < |refs| => RefValue(v, refs[i], row))
  }

  predicate Satisfies(v: Visible, c: Clause, row: Row)
  {
    match c.constraint
    case Always => true
    case On(refs, test) => test(RefValues(Extend(v, c), refs, row))
    case _ =>
      forall k :: k in Compared(v, c) ==>
        !RefValue(v, Bare(k), row).Null? && RefValue(v, Bare(k), row) == Cell(row, |v.rels|, k)
  }

  function Test(v: Visible, c: Clause): Row -> bool { row => Satisfies(v, c, row) }

  function RowsAfter(v: Visible, rows: seq<Row>, cs: seq<Clause>): seq<Row>
  {
    if |cs| == 0 then rows
    else
      var before, c := cs[..|cs| - 1], cs[|cs| - 1];
      var left := ScopeAfter(v, before);
      JoinRows(c.kind, RowsAfter(v, rows, before), Singles(c.right.rows), Test(left, c), |left.rels|, 1)
  }

  function ItemRows(i: Item): seq<Row> { RowsAfter(Leaf(i.first), Singles(i.first.rows), i.joins) }

  function Everything(): Row -> bool { row => true }

  function Product(ps: seq<Row>, ls: seq<Row>): seq<Row> { LeftPart(ps, ls, Everything(), false, 0) }

  function FromRows(items: seq<Item>): seq<Row>
    requires |items| > 0
  {
    var n := |items| - 1;
    if n == 0 then ItemRows(items[0]) else Product(FromRows(items[..n]), ItemRows(items[n]))
  }

  // ---------------------------------------------------------------------------
  // Looking names up beside other relations
  // ---------------------------------------------------------------------------

  /** Next to groups that do not have the column, it is found where it was. */
  lemma FirstBeside(ps: seq<Group>, gs: seq<Group>, n: nat, c: string)
    requires c !in ColumnsOf(ps)
    ensures First(ps + Shifted(gs, n), c) == |ps| + First(gs, c)
  {
    var all := ps + Shifted(gs, n);
    assert forall i :: 0 <= i < |ps| ==> all[i] == ps[i] && ps[i].column != c;
    assert forall i :: 0 <= i < |gs| ==> all[|ps| + i].column == gs[i].column;
    var i, j := First(all, c), First(gs, c);
    if j < |gs| {
      assert all[|ps| + j].column == c;
    }
    if |ps| <= i < |all| {
      assert gs[i - |ps|].column == c;
    }
  }

  /** A column that was unambiguous stays so exactly when the relations before do not have it. */
  lemma UniqueBesideIff(ps: seq<Group>, gs: seq<Group>, n: nat, c: string)
    requires Unique(gs, c)
    ensures Unique(ps + Shifted(gs, n), c) <==> c !in ColumnsOf(ps)
  {
    var all := ps + Shifted(gs, n);
    assert forall i :: 0 <= i < |gs| ==> all[|ps| + i].column == gs[i].column;
    if c in ColumnsOf(ps) {
      var i :| 0 <= i < |ps| && ps[i].column == c;
      assert all[i].column == c && all[|ps| + First(gs, c)].column == c;
    } else {
      FirstBeside(ps, gs, n, c);
      forall j | |ps| + First(gs, c) < j < |all| ensures all[j].column != c {
        assert all[j].column == gs[j - |ps|].column;
      }
    }
  }

  lemma NameBeside(ps: Scope, rels: Scope, name: string)
    requires forall i :: 0 <= i < |ps| ==> ps[i].name != name
    ensures NamePosition(ps + rels, name) == |ps| + NamePosition(rels, name)
    ensures BoundName(ps + rels, name) == BoundName(rels, name)
  {
    var all := ps + rels;
    assert forall i :: 0 <= i < |ps| ==> all[i] == ps[i];
    assert forall i :: 0 <= i < |rels| ==> all[|ps| + i] == rels[i];
    var i, j := NamePosition(all, name), NamePosition(rels, name);
    if j < |rels| {
      assert all[|ps| + j].name == name;
    }
    if |ps| <= i < |all| {
      assert rels[i - |ps|].name == name;
    }
    if BoundName(all, name) {
      forall k | j < k < |rels| ensures rels[k].name != name {
        assert all[|ps| + k] == rels[k];
      }
    }
  }

  lemma {:induction false} CoalesceBeside(prow: Row, row: Row, ms: seq<nat>, c: string)
    ensures Coalesce(ShiftedNat(ms, |prow|), c, prow + row) == Coalesce(ms, c, row)
  {
    if ms != [] {
      assert ShiftedNat(ms, |prow|)[1..] == ShiftedNat(ms[1..], |prow|);
      assert Cell(prow + row, ms[0] + |prow|, c) == Cell(row, ms[0], c);
      CoalesceBeside(prow, row, ms[1..], c);
    }
  }

  predicate NamesApart(ps: Scope, rels: Scope)
  {
    forall i, j :: 0 <= i < |ps| && 0 <= j < |rels| ==> ps[i].name != rels[j].name
  }

  /** The reference does not name a column or relation of `p`. */
  predicate Foreign(p: Visible, ref: Ref)
  {
    match ref
    case Bare(c) => c !in ColumnsOf(p.groups)
    case Qualified(n, _) => forall i :: 0 <= i < |p.rels| ==> p.rels[i].name != n
  }

  lemma RefBeside(p: Visible, v: Visible, ref: Ref, prow: Row, row: Row)
    requires |prow| == |p.rels| && Foreign(p, ref) && RefBound(v, ref)
    ensures RefBound(Beside(p, v), ref) && RefValue(Beside(p, v), ref, prow + row) == RefValue(v, ref, row)
  {
    match ref
    case Bare(c) =>
      UniqueBesideIff(p.groups, v.groups, |p.rels|, c);
      FirstBeside(p.groups, v.groups, |p.rels|, c);
      var i := First(v.groups, c);
      assert Beside(p, v).groups[|p.groups| + i] == Shifted(v.groups, |p.rels|)[i];
      CoalesceBeside(prow, row, v.groups[i].members, c);
    case Qualified(n, c) =>
      NameBeside(p.rels, v.rels, n);
      var i := NamePosition(v.rels, n);
      assert (p.rels + v.rels)[|p.rels| + i] == v.rels[i];
      assert Cell(prow + row, |prow| + i, c) == Cell(row, i, c);
  }

  // ---------------------------------------------------------------------------
  // One join beside other relations
  // ---------------------------------------------------------------------------

  /** The columns that a join names without saying whose they are. */
  function BareColumns(c: Clause): set<string>
  {
    match c.constraint
    case Always => {}
    case On(refs, _) => set i | 0 <= i < |refs| && refs[i].Bare? :: refs[i].column
    case Using(columns) => set i | 0 <= i < |columns| :: columns[i]
    case Natural => set i | 0 <= i < |c.right.columns| :: c.right.columns[i]
  }

  predicate Clash(c: Clause, columns: set<string>) { BareColumns(c) * columns != {} }

  lemma {:induction false} SharedBeside(columns: seq<string>, ps: seq<Group>, gs: seq<Group>, n: nat)
    requires forall i :: 0 <= i < |columns| ==> columns[i] !in ColumnsOf(ps)
    ensures Shared(columns, ps + Shifted(gs, n)) == Shared(columns, gs)
  {
    if columns != [] {
      FirstBeside(ps, gs, n, columns[0]);
      SharedBeside(columns[1..], ps, gs, n);
    }
  }

  lemma {:induction false} SharedSubset(columns: seq<string>, gs: seq<Group>)
    ensures forall k :: k in Shared(columns, gs) ==> k in columns
  {
    if columns != [] {
      SharedSubset(columns[1..], gs);
    }
  }

  lemma ComparedBeside(p: Visible, v: Visible, c: Clause)
    requires !Clash(c, ColumnsOf(p.groups))
    ensures Compared(Beside(p, v), c) == Compared(v, c)
    ensures forall k :: k in Compared(v, c) ==> k !in ColumnsOf(p.groups)
  {
    forall k | k in BareColumns(c) ensures k !in ColumnsOf(p.groups) {
      assert k in BareColumns(c) * ColumnsOf(p.groups) || k !in ColumnsOf(p.groups);
    }
    if c.constraint.Natural? {
      SharedBeside(c.right.columns, p.groups, v.groups, |p.rels|);
      SharedSubset(c.right.columns, v.groups);
    }
  }

  lemma {:induction false} RightGroupsShift(columns: seq<string>, merged: seq<string>, m: nat, n: nat)
    ensures RightGroups(columns, merged, m + n) == Shifted(RightGroups(columns, merged, m), n)
  {
    if columns != [] {
      RightGroupsShift(columns[1..], merged, m, n);
      var here: seq<Group> := if columns[0] in merged then [] else [Group(columns[0], [m])];
      var rest := RightGroups(columns[1..], merged, m);
      assert ShiftedNat([m], n) == [m + n];
      assert Shifted(here + rest, n) == Shifted(here, n) + Shifted(rest, n);
    }
  }

  lemma MergeBeside(ps: seq<Group>, gs: seq<Group>, merged: seq<string>, m: nat, n: nat)
    requires forall k :: k in merged ==> k !in ColumnsOf(ps)
    ensures MergeLeft(ps + Shifted(gs, n), merged, m + n) == ps + Shifted(MergeLeft(gs, merged, m), n)
  {
    var all, r := MergeLeft(ps + Shifted(gs, n), merged, m + n), ps + Shifted(MergeLeft(gs, merged, m), n);
    forall i | 0 <= i < |all| ensures all[i] == r[i] {
      if i < |ps| {
        assert ps[i].column in ColumnsOf(ps);
      } else {
        var g := gs[i - |ps|];
        assert ShiftedNat(g.members + [m], n) == ShiftedNat(g.members, n) + [m + n];
      }
    }
  }

  /** Joining after the product gives the names of joining before it. */
  lemma ExtendBeside(p: Visible, v: Visible, c: Clause)
    requires !Clash(c, ColumnsOf(p.groups))
    ensures Extend(Beside(p, v), c) == Beside(p, Extend(v, c))
  {
    ComparedBeside(p, v, c);
    var merged, m, n := Compared(v, c), |v.rels|, |p.rels|;
    MergeBeside(p.groups, v.groups, merged, m, n);
    RightGroupsShift(c.right.columns, merged, m, n);
    var left, right := MergeLeft(v.groups, merged, m), RightGroups(c.right.columns, merged, m);
    assert Shifted(left + right, n) == Shifted(left, n) + Shifted(right, n);
    assert p.rels + v.rels + [RelationIn(c.right)] == p.rels + (v.rels + [RelationIn(c.right)]);
  }

  lemma CrossIsBeside(p: Visible, r: Rel)
    ensures Extend(p, Clause(Inner, r, Always)) == Beside(p, Leaf(r))
  {
    assert MergeLeft(p.groups, [], |p.rels|) == p.groups;
    RightGroupsShift(r.columns, [], 0, |p.rels|);
  }

  /** The references of an ON condition that binds name nothing in `p`, unless they clash. */
  lemma RefsForeign(p: Visible, v: Visible, c: Clause)
    requires NamesApart(p.rels, Extend(v, c).rels) && ClauseBinds(v, c) && !Clash(c, ColumnsOf(p.groups))
    requires c.constraint.On?
    ensures forall i :: 0 <= i < |c.constraint.refs| ==> Foreign(p, c.constraint.refs[i])
  {
    forall i | 0 <= i < |c.constraint.refs| ensures Foreign(p, c.constraint.refs[i]) {
      var ref := c.constraint.refs[i];
      assert RefBound(Extend(v, c), ref);
      if ref.Bare? {
        assert ref.column in BareColumns(c);
        assert ref.column in BareColumns(c) * ColumnsOf(p.groups) || ref.column !in ColumnsOf(p.groups);
      }
    }
  }

  lemma OnBeside(p: Visible, v: Visible, c: Clause, prow: Row, row: Row)
    requires |prow| == |p.rels| && NamesApart(p.rels, Extend(v, c).rels) && c.constraint.On?
    requires ClauseBinds(v, c) && !Clash(c, ColumnsOf(p.groups))
    ensures RefValues(Extend(Beside(p, v), c), c.constraint.refs, prow + row)
            == RefValues(Extend(v, c), c.constraint.refs, row)
  {
    ExtendBeside(p, v, c);
    RefsForeign(p, v, c);
    var refs := c.constraint.refs;
    forall i | 0 <= i < |refs|
      ensures RefValue(Beside(p, Extend(v, c)), refs[i], prow + row) == RefValue(Extend(v, c), refs[i], row)
    {
      RefBeside(p, Extend(v, c), refs[i], prow, row);
    }
  }

  /** A row satisfies the condition after the product exactly when its own part does before. */
  lemma TestBeside(p: Visible, v: Visible, c: Clause, prow: Row, row: Row)
    requires |prow| == |p.rels| && NamesApart(p.rels, Extend(v, c).rels)
    requires ClauseBinds(v, c) && !Clash(c, ColumnsOf(p.groups))
    ensures Satisfies(Beside(p, v), c, prow + row) == Satisfies(v, c, row)
  {
    if c.constraint.On? {
      OnBeside(p, v, c, prow, row);
    } else if !c.constraint.Always? {
      ComparedBeside(p, v, c);
      forall k | k in Compared(v, c)
        ensures RefValue(Beside(p, v), Bare(k), prow + row) == RefValue(v, Bare(k), row)
        ensures Cell(prow + row, |p.rels| + |v.rels|, k) == Cell(row, |v.rels|, k)
      {
        RefBeside(p, v, Bare(k), prow, row);
      }
    }
  }

  /** A join that binds in its item binds after the product exactly when none of its bare columns clashes. */
  lemma ClauseBindsIff(p: Visible, v: Visible, c: Clause)
    requires NamesApart(p.rels, Extend(v, c).rels) && ClauseBinds(v, c) && !c.constraint.Natural?
    ensures ClauseBinds(Beside(p, v), c) <==> !Clash(c, ColumnsOf(p.groups))
  {
    if Clash(c, ColumnsOf(p.groups)) {
      var k :| k in BareColumns(c) * ColumnsOf(p.groups);
      ClashUnbound(p, v, c, k);
    } else {
      StillBinds(p, v, c);
    }
  }

  lemma StillBinds(p: Visible, v: Visible, c: Clause)
    requires NamesApart(p.rels, Extend(v, c).rels) && ClauseBinds(v, c) && !Clash(c, ColumnsOf(p.groups))
    ensures ClauseBinds(Beside(p, v), c)
  {
    if c.constraint.On? {
      ExtendBeside(p, v, c);
      RefsForeign(p, v, c);
      var refs := c.constraint.refs;
      forall i | 0 <= i < |refs| ensures RefBound(Extend(Beside(p, v), c), refs[i]) {
        RefBeside(p, Extend(v, c), refs[i], Nulls(|p.rels|), []);
      }
    } else {
      ComparedBeside(p, v, c);
      forall k | k in Compared(v, c) ensures c.constraint.Always? || Unique(Beside(p, v).groups, k) {
        if !c.constraint.Always? {
          UniqueBesideIff(p.groups, v.groups, |p.rels|, k);
        }
      }
    }
  }

  lemma ClashUnbound(p: Visible, v: Visible, c: Clause, k: string)
    requires ClauseBinds(v, c) && !c.constraint.Natural? && k in BareColumns(c) && k in ColumnsOf(p.groups)
    ensures !ClauseBinds(Beside(p, v), c)
  {
    if c.constraint.On? {
      var refs := c.constraint.refs;
      var i :| 0 <= i < |refs| && refs[i].Bare? && refs[i].column == k;
      assert RefBound(Extend(v, c), refs[i]);
      OnScopeBeside(p, v, c);
      UniqueBesideIff(p.groups, Extend(v, c).groups, |p.rels|, k);
      assert !RefBound(Extend(Beside(p, v), c), refs[i]);
    } else {
      UniqueBesideIff(p.groups, v.groups, |p.rels|, k);
      assert k in Compared(Beside(p, v), c);
    }
  }

  /** An ON condition merges no columns, so its scope is that of the product whatever it mentions. */
  lemma OnScopeBeside(p: Visible, v: Visible, c: Clause)
    requires c.constraint.On?
    ensures Extend(Beside(p, v), c).groups == p.groups + Shifted(Extend(v, c).groups, |p.rels|)
  {
    var plain := c.(constraint := Always);
    ExtendBeside(p, v, plain);
    assert Extend(Beside(p, v), c) == Extend(Beside(p, v), plain) && Extend(v, c) == Extend(v, plain);
  }

  // ---------------------------------------------------------------------------
  // The joins of an item beside other relations
  // ---------------------------------------------------------------------------

  predicate AnyClash(cs: seq<Clause>, columns: set<string>) { exists i :: 0 <= i < |cs| && Clash(cs[i], columns) }

  predicate AnyNatural(cs: seq<Clause>) { exists i :: 0 <= i < |cs| && cs[i].constraint.Natural? }

  predicate AnyKeepsRight(cs: seq<Clause>) { exists i :: 0 <= i < |cs| && KeepsRight(cs[i].kind) }

  lemma LastClause(cs: seq<Clause>, columns: set<string>)
    requires |cs| > 0
    ensures var before, c := cs[..|cs| - 1], cs[|cs| - 1];
            && (AnyClash(cs, columns) <==> AnyClash(before, columns) || Clash(c, columns))
            && (AnyNatural(cs) <==> AnyNatural(before) || c.constraint.Natural?)
            && (AnyKeepsRight(cs) <==> AnyKeepsRight(before) || KeepsRight(c.kind))
  {
    var n := |cs| - 1;
    var before := cs[..n];
    assert forall i :: 0 <= i < n ==> before[i] == cs[i];
    if AnyClash(cs, columns) && !Clash(cs[n], columns) {
      var i :| 0 <= i < |cs| && Clash(cs[i], columns);
      assert Clash(before[i], columns);
    }
    if AnyNatural(cs) && !cs[n].constraint.Natural? {
      var i :| 0 <= i < |cs| && cs[i].constraint.Natural?;
      assert before[i].constraint.Natural?;
    }
    if AnyKeepsRight(cs) && !KeepsRight(cs[n].kind) {
      var i :| 0 <= i < |cs| && KeepsRight(cs[i].kind);
      assert KeepsRight(before[i].kind);
    }
  }

  lemma {:induction false} ScopeRels(v: Visible, cs: seq<Clause>)
    ensures ScopeAfter(v, cs).rels == v.rels + seq(|cs|, i requires 0 <= i < |cs| => RelationIn(cs[i].right))
  {
    if |cs| > 0 {
      ScopeRels(v, cs[..|cs| - 1]);
    }
  }

  lemma ApartBefore(ps: Scope, v: Visible, cs: seq<Clause>)
    requires |cs| > 0 && NamesApart(ps, ScopeAfter(v, cs).rels)
    ensures NamesApart(ps, ScopeAfter(v, cs[..|cs| - 1]).rels)
  {
    var a, b := ScopeAfter(v, cs[..|cs| - 1]).rels, ScopeAfter(v, cs).rels;
    assert forall i :: 0 <= i < |a| ==> a[i] == b[i];
  }

  lemma {:induction false} ScopeBeside(p: Visible, v: Visible, cs: seq<Clause>)
    requires !AnyClash(cs, ColumnsOf(p.groups))
    ensures ScopeAfter(Beside(p, v), cs) == Beside(p, ScopeAfter(v, cs))
  {
    if |cs| > 0 {
      LastClause(cs, ColumnsOf(p.groups));
      ScopeBeside(p, v, cs[..|cs| - 1]);
      ExtendBeside(p, ScopeAfter(v, cs[..|cs| - 1]), cs[|cs| - 1]);
    }
  }

  lemma {:induction false} JoinsBindBesideIff(p: Visible, v: Visible, cs: seq<Clause>)
    requires JoinsBind(v, cs) && NamesApart(p.rels, ScopeAfter(v, cs).rels) && !AnyNatural(cs)
    ensures JoinsBind(Beside(p, v), cs) <==> !AnyClash(cs, ColumnsOf(p.groups))
  {
    if |cs| > 0 {
      var before, c := cs[..|cs| - 1], cs[|cs| - 1];
      LastClause(cs, ColumnsOf(p.groups));
      ApartBefore(p.rels, v, cs);
      JoinsBindBesideIff(p, v, before);
      if !AnyClash(before, ColumnsOf(p.groups)) {
        ScopeBeside(p, v, before);
        ClauseBindsIff(p, ScopeAfter(v, before), c);
      }
    }
  }

  lemma {:induction false} JoinsBindBeside(p: Visible, v: Visible, cs: seq<Clause>)
    requires JoinsBind(v, cs) && NamesApart(p.rels, ScopeAfter(v, cs).rels) && !AnyClash(cs, ColumnsOf(p.groups))
    ensures JoinsBind(Beside(p, v), cs)
  {
    if |cs| > 0 {
      var before := cs[..|cs| - 1];
      LastClause(cs, ColumnsOf(p.groups));
      ApartBefore(p.rels, v, cs);
      JoinsBindBeside(p, v, before);
      ScopeBeside(p, v, before);
      StillBinds(p, ScopeAfter(v, before), cs[|cs| - 1]);
    }
  }
}
