/**
 Distribution keys of GROUP BY and of window functions: rows of one group, or of one window partition, agree
 on them, so that grouping and windows may be evaluated part by part.
 */
module GroupKeys {
  import opened Common
  import opened KeyExprs
  import opened Partitioning

  datatype Grouping = AllColumns | Exprs(exprs: seq<Expr>)

  function GroupKeysOf(g: Grouping): seq<ColumnRef>
  {
    match g
    case AllColumns => []
    case Exprs(exprs) => ToColumnRefs(exprs)
  }

  /** The column references among the expressions name columns of the rows. */
  ghost predicate RefsBind(es: seq<Expr>, schema: Schema)
  {
    forall i :: 0 <= i < |es| && ToColumnRef(es[i]).Some? ==> RefBinds(ToColumnRef(es[i]).value, schema)
  }

  lemma {:induction false} RefsComeFromExprs(es: seq<Expr>, ref: ColumnRef)
    requires ref in ToColumnRefs(es)
    ensures exists i :: 0 <= i < |es| && ToColumnRef(es[i]) == Some(ref)
  {
    if ToColumnRef(es[0]) == Some(ref) {
    } else {
      RefsComeFromExprs(es[1..], ref);
      var i :| 0 <= i < |es[1..]| && ToColumnRef(es[1..][i]) == Some(ref);
      assert ToColumnRef(es[i + 1]) == Some(ref);
    }
  }

  lemma {:induction false} EvalAllAt(env: Env, es: seq<Expr>, row: Row)
    ensures |EvalAll(env, es, row)| == |es|
    ensures forall i :: 0 <= i < |es| ==> EvalAll(env, es, row)[i] == Eval(env, es[i], row)
  {
    if es != [] {
      EvalAllAt(env, es[1..], row);
    }
  }

  /** Rows with the same values of the expressions have the same value of every column among them. */
  lemma SameColumn(env: Env, es: seq<Expr>, ref: ColumnRef, x: Row, y: Row)
    requires x.Keys == y.Keys && Identifies(x.Keys, ref.column) && RefsBind(es, x.Keys)
    requires ref in ToColumnRefs(es) && EvalAll(env, es, x) == EvalAll(env, es, y)
    ensures ByName(x, ref.column) == ByName(y, ref.column)
  {
    RefsComeFromExprs(es, ref);
    var i :| 0 <= i < |es| && ToColumnRef(es[i]) == Some(ref);
    EvalAllAt(env, es, x);
    EvalAllAt(env, es, y);
    RefEval(env, es[i], x);
    RefEval(env, es[i], y);
    StrippedValue(ref, x);
    StrippedValue(ref, y);
  }

  lemma SameKeys(env: Env, es: seq<Expr>, keys: seq<ColumnRef>, x: Row, y: Row)
    requires x.Keys == y.Keys && KeysIdentify(x.Keys, keys) && RefsBind(es, x.Keys)
    requires EvalAll(env, es, x) == EvalAll(env, es, y)
    requires Covers(es, keys)
    ensures KeyValues(keys, x) == KeyValues(keys, y)
  {
    forall i | 0 <= i < |keys| ensures ByName(x, keys[i].column) == ByName(y, keys[i].column) {
      assert keys[i] in keys && Among(es, keys[i]);
      var ref :| ref in ToColumnRefs(es) && Fold(ref.column) == Fold(keys[i].column);
      SameColumn(env, es, ref, x, y);
      ByNameLower(x, ref.column, keys[i].column);
      ByNameLower(y, ref.column, keys[i].column);
    }
    KeyValuesEqual(keys, x, keys, y);
  }

  lemma ByNameLower(row: Row, a: string, b: string)
    requires Fold(a) == Fold(b) && Identifies(row.Keys, a)
    ensures ByName(row, a) == ByName(row, b)
  {
    if Has(row.Keys, a) {
      var c :| c in row.Keys && c.1 == Fold(a);
      assert Has(row.Keys, b);
    }
  }

  /** The key is, up to its qualifier, one of the expressions. */
  ghost predicate Among(es: seq<Expr>, key: ColumnRef)
  {
    exists ref :: ref in ToColumnRefs(es) && Fold(ref.column) == Fold(key.column)
  }

  ghost predicate Covers(es: seq<Expr>, keys: seq<ColumnRef>) { forall key :: key in keys ==> Among(es, key) }

  /** The GROUP BY of a distributed stage: grouping part by part gives the rows of grouping once. */
  lemma PartitionWiseGroupBy<U>(env: Env, es: seq<Expr>, xs: seq<Row>, schema: Schema, agg: seq<Row> -> U,
                                hash: seq<Value> -> nat, n: nat)
    requires n > 0 && RowsOf(xs, schema) && KeysIdentify(schema, GroupKeysOf(Exprs(es))) && RefsBind(es, schema)
    ensures var g := row => EvalAll(env, es, row);
            var part := row => PartOf(hash, n, GroupKeysOf(Exprs(es)), row);
            multiset(Gather((p: nat) => GroupBy(Part(xs, part, p), g, agg), n)) == multiset(GroupBy(xs, g, agg))
  {
    var g := row => EvalAll(env, es, row);
    var keys := GroupKeysOf(Exprs(es));
    var part := row => PartOf(hash, n, keys, row);
    forall x, y | x in xs && y in xs && g(x) == g(y) ensures part(x) == part(y) {
      SameKeys(env, es, keys, x, y);
    }
    GroupByParts(xs, g, agg, part, n);
  }

  /** GROUP BY ALL has no keys: all rows go to one part, so that any grouping may be evaluated there. */
  lemma PartitionWiseGroupAll<G(!new), U>(xs: seq<Row>, g: Row -> G, agg: seq<Row> -> U,
                                             hash: seq<Value> -> nat, n: nat)
    requires n > 0
    ensures var part := row => PartOf(hash, n, GroupKeysOf(AllColumns), row);
            multiset(Gather((p: nat) => GroupBy(Part(xs, part, p), g, agg), n)) == multiset(GroupBy(xs, g, agg))
  {
    var part := row => PartOf(hash, n, GroupKeysOf(AllColumns), row);
    forall x, y | x in xs && y in xs && g(x) == g(y) ensures part(x) == part(y) {
      assert KeyValues(GroupKeysOf(AllColumns), x) == KeyValues(GroupKeysOf(AllColumns), y) == [];
    }
    GroupByParts(xs, g, agg, part, n);
  }

  /** The keys of a GROUP BY are its columns: each of them, and no other expression. */
  lemma {:induction false} GroupKeysAreColumns(es: seq<Expr>, ref: ColumnRef)
    ensures ref in GroupKeysOf(Exprs(es)) <==> exists i :: 0 <= i < |es| && ToColumnRef(es[i]) == Some(ref)
  {
    if ref in ToColumnRefs(es) {
      RefsComeFromExprs(es, ref);
    } else if i :| 0 <= i < |es| && ToColumnRef(es[i]) == Some(ref) {
      RefIsListed(es, i);
    }
  }

  /** When every expression is a column, the keys tell the groups apart: two rows share a group iff they share them. */
  lemma {:induction false} GroupKeysDecide(env: Env, es: seq<Expr>, x: Row, y: Row)
    requires x.Keys == y.Keys && RefsBind(es, x.Keys) && KeysIdentify(x.Keys, GroupKeysOf(Exprs(es)))
    requires forall e :: e in es ==> ToColumnRef(e).Some?
    ensures EvalAll(env, es, x) == EvalAll(env, es, y)
            <==> KeyValues(GroupKeysOf(Exprs(es)), x) == KeyValues(GroupKeysOf(Exprs(es)), y)
  {
    KeyValuesAreValues(env, es, x);
    KeyValuesAreValues(env, es, y);
  }

  lemma {:induction false} KeyValuesAreValues(env: Env, es: seq<Expr>, row: Row)
    requires RefsBind(es, row.Keys) && KeysIdentify(row.Keys, ToColumnRefs(es))
    requires forall e :: e in es ==> ToColumnRef(e).Some?
    ensures KeyValues(ToColumnRefs(es), row) == EvalAll(env, es, row)
  {
    if es != [] {
      var ref := ToColumnRef(es[0]).value;
      assert es[0] in es && ToColumnRefs(es) == [ref] + ToColumnRefs(es[1..]);
      assert ref in ToColumnRefs(es) && forall key :: key in ToColumnRefs(es[1..]) ==> key in ToColumnRefs(es);
      RefEval(env, es[0], row);
      StrippedValue(ref, row);
      assert forall i :: 0 <= i < |es[1..]| ==> es[1..][i] == es[i + 1];
      KeyValuesAreValues(env, es[1..], row);
    }
  }

  // ---------------------------------------------------------------------------
  // Windows
  // ---------------------------------------------------------------------------

  /** The PARTITION BY lists that the visitor reaches, in order. */
  function Visited(e: Expr): seq<seq<Expr>>
  {
    match e
    case Call(_, args, over) => (if over.Inline? then [over.partitionBy] else []) + VisitedAll(args)
    case Binary(_, l, r) => Visited(l) + Visited(r)
    case Unary(_, inner) => Visited(inner)
    case Nested(inner) => Visited(inner)
    case Case(branches) => VisitedAll(branches)
    case _ => []
  }

  function VisitedAll(es: seq<Expr>): seq<seq<Expr>>
  {
    if es == [] then [] else Visited(es[0]) + VisitedAll(es[1..])
  }

  /** The PARTITION BY lists of all windows, wherever they are and however they are named. */
  function Windowed(named: string -> seq<Expr>, e: Expr): seq<seq<Expr>>
  {
    match e
    case Call(_, args, over) =>
      (match over
       case NoOver => []
       case Inline(columns) => [columns]
       case Named(name) => [named(name)])
      + WindowedAll(named, args)
    case Binary(_, l, r) => Windowed(named, l) + Windowed(named, r)
    case Unary(_, inner) => Windowed(named, inner)
    case Nested(inner) => Windowed(named, inner)
    case Case(branches) => WindowedAll(named, branches)
    case Opaque(_, inside) => WindowedAll(named, inside)
    case _ => []
  }

  function WindowedAll(named: string -> seq<Expr>, es: seq<Expr>): seq<seq<Expr>>
  {
    if es == [] then [] else Windowed(named, es[0]) + WindowedAll(named, es[1..])
  }

  function Intersect(a: seq<ColumnRef>, b: seq<ColumnRef>): seq<ColumnRef>
  {
    if a == [] then []
    else (if exists y :: y in b && SameRef(a[0], y) then [a[0]] else []) + Intersect(a[1..], b)
  }

  /** The keys common to the windows. */
  function CommonKeys(specs: seq<seq<Expr>>): seq<ColumnRef>
  {
    if specs == [] then []
    else if |specs| == 1 then ToColumnRefs(specs[0])
    else Intersect(CommonKeys(specs[..|specs| - 1]), ToColumnRefs(specs[|specs| - 1]))
  }

  method IntersectColumnRefs(a: seq<ColumnRef>, b: seq<ColumnRef>) returns (r: seq<ColumnRef>)
    ensures r == Intersect(a, b)
  {
    r := [];
    for i := 0 to |a|
      invariant r + Intersect(a[i..], b) == Intersect(a, b)
    {
      assert a[i..][1..] == a[i + 1..];
      if exists y :: y in b && SameRef(a[i], y) {
        r := r + [a[i]];
      }
    }
  }

  ghost function SoFar(specs: seq<seq<Expr>>): Option<seq<ColumnRef>>
  {
    if specs == [] then None else Some(CommonKeys(specs))
  }

  /** The windows of one select item narrow the common keys, one after the other. */
  method Narrow(common: Option<seq<ColumnRef>>, specs: seq<seq<Expr>>, ghost seen: seq<seq<Expr>>)
    returns (narrowed: Option<seq<ColumnRef>>)
    requires common == SoFar(seen)
    ensures narrowed == SoFar(seen + specs)
  {
    narrowed := common;
    assert seen + specs[..0] == seen;
    for j := 0 to |specs|
      invariant narrowed == SoFar(seen + specs[..j])
    {
      ghost var before, after := seen + specs[..j], seen + specs[..j + 1];
      assert after[..|after| - 1] == before && after[|after| - 1] == specs[j];
      var next := ToColumnRefs(specs[j]);
      if narrowed.None? {
        narrowed := Some(next);
      } else {
        var common' := IntersectColumnRefs(narrowed.value, next);
        narrowed := Some(common');
      }
    }
    assert specs[..|specs|] == specs;
  }

  method ExtractWindowKeys(items: seq<Expr>) returns (keys: seq<ColumnRef>)
    ensures keys == CommonKeys(VisitedAll(items))
  {
    var common: Option<seq<ColumnRef>> := None;
    ghost var seen: seq<seq<Expr>> := [];
    for i := 0 to |items|
      invariant seen + VisitedAll(items[i..]) == VisitedAll(items)
      invariant common == SoFar(seen)
    {
      assert items[i..][1..] == items[i + 1..];
      common := Narrow(common, Visited(items[i]), seen);
      seen := seen + Visited(items[i]);
    }
    assert items[|items|..] == [] && seen + [] == seen;
    keys := if common.None? then [] else common.value;
  }

  lemma {:induction false} IntersectMembers(a: seq<ColumnRef>, b: seq<ColumnRef>, x: ColumnRef)
    requires x in Intersect(a, b)
    ensures x in a && exists y :: y in b && SameRef(x, y)
  {
    if x in Intersect(a[1..], b) {
      IntersectMembers(a[1..], b, x);
    }
  }

  /** Every common key is a partition column of every visited window. */
  lemma {:induction false} CommonKeysCovered(specs: seq<seq<Expr>>, i: nat)
    requires i < |specs|
    ensures Covers(specs[i], CommonKeys(specs))
  {
    var keys := CommonKeys(specs);
    if |specs| > 1 {
      var n := |specs| - 1;
      if i < n {
        CommonKeysCovered(specs[..n], i);
      }
      forall key | key in keys ensures Among(specs[i], key) {
        IntersectMembers(CommonKeys(specs[..n]), ToColumnRefs(specs[n]), key);
      }
    }
  }

  predicate HasColumn(spec: seq<Expr>, key: ColumnRef) { exists y :: y in ToColumnRefs(spec) && SameRef(key, y) }

  /** The key is a partition column of each of the windows. */
  predicate InAll(specs: seq<seq<Expr>>, key: ColumnRef)
  {
    forall i :: 0 <= i < |specs| ==> HasColumn(specs[i], key)
  }

  ghost function Kept(keys: seq<ColumnRef>, specs: seq<seq<Expr>>): seq<ColumnRef>
  {
    if keys == [] then [] else (if InAll(specs, keys[0]) then [keys[0]] else []) + Kept(keys[1..], specs)
  }

  /**
   Nothing is lost on the way: the common keys are the columns of the first window that every other window has
   too, in the order of the first window.
   */
  lemma {:induction false} CommonKeysExact(specs: seq<seq<Expr>>)
    requires specs != []
    ensures CommonKeys(specs) == Kept(ToColumnRefs(specs[0]), specs[1..])
  {
    var first, n := ToColumnRefs(specs[0]), |specs| - 1;
    if n == 0 {
      assert specs[1..] == [];
      KeptByNone(first);
    } else {
      CommonKeysExact(specs[..n]);
      assert specs[..n][1..] == specs[1..][..n - 1] && specs[1..][n - 1] == specs[n];
      KeptByOneMore(first, specs[1..]);
    }
  }

  lemma {:induction false} KeptByNone(keys: seq<ColumnRef>)
    ensures Kept(keys, []) == keys
  {
    if keys != [] {
      KeptByNone(keys[1..]);
    }
  }

  lemma {:induction false} KeptByOneMore(keys: seq<ColumnRef>, specs: seq<seq<Expr>>)
    requires specs != []
    ensures Kept(keys, specs) == Intersect(Kept(keys, specs[..|specs| - 1]), ToColumnRefs(specs[|specs| - 1]))
  {
    var n := |specs| - 1;
    if keys != [] {
      var key, rest := keys[0], Kept(keys[1..], specs[..n]);
      KeptByOneMore(keys[1..], specs);
      InOneMore(specs, key);
      assert [] + rest == rest && ([key] + rest)[1..] == rest && ([key] + rest)[0] == key;
    }
  }

  lemma InOneMore(specs: seq<seq<Expr>>, key: ColumnRef)
    requires specs != []
    ensures InAll(specs, key) <==> InAll(specs[..|specs| - 1], key) && HasColumn(specs[|specs| - 1], key)
  {
    var n := |specs| - 1;
    assert specs == specs[..n] + [specs[n]];
  }

  ghost function Spec(env: Env, columns: seq<Expr>): Row -> seq<Value> { row => EvalAll(env, columns, row) }

  ghost function Specs(env: Env, bys: seq<seq<Expr>>): seq<Row -> seq<Value>>
  {
    seq(|bys|, i requires 0 <= i < |bys| => Spec(env, bys[i]))
  }

  /** Windows may be evaluated part by part whenever each of them has all keys among its columns. */
  lemma CoveredWindows<U>(env: Env, bys: seq<seq<Expr>>, keys: seq<ColumnRef>, xs: seq<Row>, schema: Schema,
                          f: (Row, seq<Frame<Row>>) -> U, hash: seq<Value> -> nat, n: nat)
    requires n > 0 && RowsOf(xs, schema) && KeysIdentify(schema, keys)
    requires forall i :: 0 <= i < |bys| ==> RefsBind(bys[i], schema) && Covers(bys[i], keys)
    ensures var part := row => PartOf(hash, n, keys, row);
            multiset(Gather((p: nat) => Windows([], Part(xs, part, p), Specs(env, bys), f), n))
            == multiset(Windows([], xs, Specs(env, bys), f))
  {
    var part := row => PartOf(hash, n, keys, row);
    var specs := Specs(env, bys);
    forall i | 0 <= i < |specs| ensures Together(xs, specs[i], part) {
      forall x, y | x in xs && y in xs && specs[i](x) == specs[i](y) ensures part(x) == part(y) {
        SameKeys(env, bys[i], keys, x, y);
      }
    }
    WindowsByParts(xs, specs, f, part, n);
  }

  /**
   The windows of a distributed stage: if the visitor reaches every window of the select list, evaluating
   them part by part gives the rows of evaluating them once.
   */
  lemma PartitionWiseWindows<U>(env: Env, items: seq<Expr>, named: string -> seq<Expr>, xs: seq<Row>, schema: Schema,
                                f: (Row, seq<Frame<Row>>) -> U, hash: seq<Value> -> nat, n: nat)
    requires n > 0 && RowsOf(xs, schema) && KeysIdentify(schema, CommonKeys(VisitedAll(items)))
    requires WindowedAll(named, items) == VisitedAll(items)
    requires forall list :: list in WindowedAll(named, items) ==> RefsBind(list, schema)
    ensures var bys := WindowedAll(named, items);
            var part := row => PartOf(hash, n, CommonKeys(VisitedAll(items)), row);
            multiset(Gather((p: nat) => Windows([], Part(xs, part, p), Specs(env, bys), f), n))
            == multiset(Windows([], xs, Specs(env, bys), f))
  {
    var bys := WindowedAll(named, items);
    forall i | 0 <= i < |bys| ensures RefsBind(bys[i], schema) && Covers(bys[i], CommonKeys(bys)) {
      assert bys[i] in bys;
      CommonKeysCovered(bys, i);
    }
    CoveredWindows(env, bys, CommonKeys(bys), xs, schema, f, hash, n);
  }

  // ---------------------------------------------------------------------------
  // Windows that the visitor does not reach
  // ---------------------------------------------------------------------------

  /** No window is referred to by name, and none is inside an expression that is not looked into. */
  predicate AllInline(e: Expr)
  {
    match e
    case Call(_, args, over) => !over.Named? && EachInline(args)
    case Binary(_, l, r) => AllInline(l) && AllInline(r)
    case Unary(_, inner) => AllInline(inner)
    case Nested(inner) => AllInline(inner)
    case Case(branches) => EachInline(branches)
    case Opaque(_, inside) => !HasWindowIn(inside)
    case _ => true
  }

  predicate EachInline(es: seq<Expr>) { es == [] || (AllInline(es[0]) && EachInline(es[1..])) }

  predicate HasWindow(e: Expr)
  {
    match e
    case Call(_, args, over) => !over.NoOver? || HasWindowIn(args)
    case Binary(_, l, r) => HasWindow(l) || HasWindow(r)
    case Unary(_, inner) => HasWindow(inner)
    case Nested(inner) => HasWindow(inner)
    case Case(branches) => HasWindowIn(branches)
    case Opaque(_, inside) => HasWindowIn(inside)
    case _ => false
  }

  predicate HasWindowIn(es: seq<Expr>) { es != [] && (HasWindow(es[0]) || HasWindowIn(es[1..])) }

  lemma {:induction false} WindowedIff(named: string -> seq<Expr>, e: Expr)
    ensures Windowed(named, e) != [] <==> HasWindow(e)
  {
    match e
    case Call(_, args, _) => WindowedAllIff(named, args);
    case Binary(_, l, r) =>
      WindowedIff(named, l);
      WindowedIff(named, r);
    case Unary(_, inner) => WindowedIff(named, inner);
    case Nested(inner) => WindowedIff(named, inner);
    case Case(branches) => WindowedAllIff(named, branches);
    case Opaque(_, inside) => WindowedAllIff(named, inside);
    case _ =>
  }

  lemma {:induction false} WindowedAllIff(named: string -> seq<Expr>, es: seq<Expr>)
    ensures WindowedAll(named, es) != [] <==> HasWindowIn(es)
  {
    if es != [] {
      WindowedIff(named, es[0]);
      WindowedAllIff(named, es[1..]);
    }
  }

  lemma {:induction false} ReachesIff(named: string -> seq<Expr>, e: Expr)
    ensures |Visited(e)| <= |Windowed(named, e)|
    ensures |Visited(e)| == |Windowed(named, e)| <==> AllInline(e)
    ensures AllInline(e) ==> Visited(e) == Windowed(named, e)
  {
    match e
    case Call(_, args, _) => ReachesAllIff(named, args);
    case Binary(_, l, r) =>
      ReachesIff(named, l);
      ReachesIff(named, r);
    case Unary(_, inner) => ReachesIff(named, inner);
    case Nested(inner) => ReachesIff(named, inner);
    case Case(branches) => ReachesAllIff(named, branches);
    case Opaque(_, inside) => WindowedAllIff(named, inside);
    case _ =>
  }

  /** The visitor reaches every window exactly when all are inline and in plain sight. */
  lemma {:induction false} ReachesAllIff(named: string -> seq<Expr>, es: seq<Expr>)
    ensures |VisitedAll(es)| <= |WindowedAll(named, es)|
    ensures |VisitedAll(es)| == |WindowedAll(named, es)| <==> EachInline(es)
    ensures VisitedAll(es) == WindowedAll(named, es) <==> EachInline(es)
  {
    if es != [] {
      ReachesIff(named, es[0]);
      ReachesAllIff(named, es[1..]);
    }
  }

  /** Rows of one window partition agree on all keys. */
  ghost predicate KeysFixed(env: Env, list: seq<Expr>, keys: seq<ColumnRef>, schema: Schema)
  {
    forall x: Row, y: Row :: x.Keys == schema && y.Keys == schema && EvalAll(env, list, x) == EvalAll(env, list, y) ==>
                               KeyValues(keys, x) == KeyValues(keys, y)
  }

  lemma CoveredKeysFixed(env: Env, list: seq<Expr>, keys: seq<ColumnRef>, schema: Schema)
    requires KeysIdentify(schema, keys) && RefsBind(list, schema) && Covers(list, keys)
    ensures KeysFixed(env, list, keys, schema)
  {
    forall x: Row, y: Row | x.Keys == schema && y.Keys == schema && EvalAll(env, list, x) == EvalAll(env, list, y)
      ensures KeyValues(keys, x) == KeyValues(keys, y)
    {
      SameKeys(env, list, keys, x, y);
    }
  }

  lemma UncoveredKeyVaries(env: Env, list: seq<Expr>, keys: seq<ColumnRef>, schema: Schema, i: nat, c: Column)
    requires RefsBind(list, schema) && forall e :: e in list ==> ToColumnRef(e).Some?
    requires i < |keys| && !Among(list, keys[i]) && Identifies(schema, keys[i].column)
    requires c in schema && c.1 == Fold(keys[i].column)
    ensures !KeysFixed(env, list, keys, schema)
  {
    var x: Row := map d | d in schema :: Num(0);
    var y: Row := map d | d in schema :: if d == c then Num(1) else Num(0);
    OneColumnApart(env, list, keys[i], x, y, c);
    KeyValuesAt(keys, x, i);
    KeyValuesAt(keys, y, i);
  }

  /** For a PARTITION BY list of columns, that holds exactly when every key is one of the columns. */
  lemma KeysFixedIff(env: Env, list: seq<Expr>, keys: seq<ColumnRef>, schema: Schema)
    requires KeysIdentify(schema, keys) && RefsBind(list, schema) && forall e :: e in list ==> ToColumnRef(e).Some?
    requires forall key :: key in keys ==> Has(schema, key.column)
    ensures KeysFixed(env, list, keys, schema) <==> Covers(list, keys)
  {
    if Covers(list, keys) {
      CoveredKeysFixed(env, list, keys, schema);
    } else {
      var key :| key in keys && !Among(list, key);
      var i :| 0 <= i < |keys| && keys[i] == key;
      var c :| c in schema && c.1 == Fold(key.column);
      UncoveredKeyVaries(env, list, keys, schema, i, c);
    }
  }

  lemma OneColumnApart(env: Env, list: seq<Expr>, key: ColumnRef, x: Row, y: Row, c: Column)
    requires x.Keys == y.Keys && RefsBind(list, x.Keys) && c in x.Keys && c.1 == Fold(key.column)
    requires Identifies(x.Keys, key.column)
    requires (forall e :: e in list ==> ToColumnRef(e).Some?) && !Among(list, key)
    requires forall d :: d in x.Keys && d != c ==> x[d] == Num(0) && y[d] == Num(0)
    ensures EvalAll(env, list, x) == EvalAll(env, list, y)
    ensures ByName(x, key.column) == x[c] && ByName(y, key.column) == y[c]
  {
    EvalAllAt(env, list, x);
    EvalAllAt(env, list, y);
    forall i | 0 <= i < |list| ensures Eval(env, list[i], x) == Eval(env, list[i], y) {
      assert list[i] in list;
      var ref := ToColumnRef(list[i]).value;
      RefIsListed(list, i);
      assert ref in ToColumnRefs(list) && Fold(ref.column) != Fold(key.column);
      RefEval(env, list[i], x);
      RefEval(env, list[i], y);
    }
  }

  lemma {:induction false} RefIsListed(es: seq<Expr>, i: nat)
    requires i < |es| && ToColumnRef(es[i]).Some?
    ensures ToColumnRef(es[i]).value in ToColumnRefs(es)
  {
    if i > 0 {
      RefIsListed(es[1..], i - 1);
    }
  }

  lemma {:induction false} KeyValuesAt(keys: seq<ColumnRef>, row: Row, i: nat)
    requires i < |keys|
    ensures |KeyValues(keys, row)| == |keys| && KeyValues(keys, row)[i] == ByName(row, keys[i].column)
  {
    if i > 0 {
      KeyValuesAt(keys[1..], row, i - 1);
    } else if |keys| > 1 {
      KeyValuesAt(keys[1..], row, 0);
    }
  }

  /** A window referred to by name does not empty the keys: it is passed over. */
  lemma NamedWindowIsPassedOver(w: string, column: string, named: string -> seq<Expr>)
    ensures var items := [Call(0, [], Named(w)), Call(1, [], Inline([Ident(column)]))];
            && CommonKeys(VisitedAll(items)) == [ColumnRef(None, column)]
            && named(w) in WindowedAll(named, items)
            && (named(w) == [] ==> !Covers(named(w), CommonKeys(VisitedAll(items))))
  {
    var byName, inline := Call(0, [], Named(w)), Call(1, [], Inline([Ident(column)]));
    var items := [byName, inline];
    assert items[1..] == [inline] && [inline][1..] == [];
    assert Visited(byName) == [] && Visited(inline) == [[Ident(column)]];
    assert VisitedAll([inline]) == [[Ident(column)]];
    assert VisitedAll(items) == [[Ident(column)]];
    assert ToColumnRefs([Ident(column)]) == [ColumnRef(None, column)] by {
      assert [Ident(column)][1..] == [];
    }
    assert Windowed(named, byName) == [named(w)];
    assert ColumnRef(None, column) in CommonKeys(VisitedAll(items));
  }
}
