/**
 Equi-join keys: what is extracted from an ON or USING clause, when the rows of every joining pair agree on
 it, and the partition-wise join that this justifies.
 */
module JoinKeys {
  import opened Common
  import opened KeyExprs
  import opened Partitioning

  /** One side of a join, as far as names matter. */
  datatype Source =
    | Scan(table: string, alias: Option<string>, columns: set<string>)
    | Derived(alias_: string, columns: set<string>)
    | Inputs(children: seq<Source>)

  /** All table names and aliases of a side; a base name is collected even when an alias hides it. */
  ghost function Names(s: Source): set<string>
  {
    match s
    case Scan(table, alias, _) => {table} + (if alias.Some? then {alias.value} else {})
    case Derived(alias, _) => {alias}
    case Inputs(children) => NamesAll(children)
  }

  ghost function NamesAll(ss: seq<Source>): set<string>
  {
    if ss == [] then {} else Names(ss[0]) + NamesAll(ss[1..])
  }

  method CollectTableNames(s: Source, names: set<string>) returns (all: set<string>)
    ensures all == names + Names(s)
  {
    match s {
      case Scan(table, alias, _) =>
        all := names + {table};
        if alias.Some? {
          all := all + {alias.value};
        }
      case Derived(alias, _) => all := names + {alias};
      case Inputs(children) =>
        all := names;
        for i := 0 to |children|
          invariant all + NamesAll(children[i..]) == names + NamesAll(children)
        {
          assert children[i..][1..] == children[i + 1..];
          all := CollectTableNames(children[i], all);
        }
    }
  }

  /** The columns that SQL can name: an alias hides the name of its table. */
  ghost function Visible(s: Source): Schema
  {
    match s
    case Scan(table, alias, columns) =>
      set c | c in columns :: (Fold(if alias.Some? then alias.value else table), Fold(c))
    case Derived(alias, columns) => set c | c in columns :: (Fold(alias), Fold(c))
    case Inputs(children) => VisibleAll(children)
  }

  ghost function VisibleAll(ss: seq<Source>): Schema
  {
    if ss == [] then {} else Visible(ss[0]) + VisibleAll(ss[1..])
  }

  predicate FromTables(ref: ColumnRef, names: set<string>)
  {
    ref.table.Some? && exists name :: name in names && Fold(name) == Fold(ref.table.value)
  }

  /** Every visible column belongs to a collected name. */
  lemma {:induction false} VisibleIsCollected(s: Source, c: Column)
    requires c in Visible(s)
    ensures exists name :: name in Names(s) && Fold(name) == c.0
  {
    match s
    case Scan(table, alias, _) =>
      var name := if alias.Some? then alias.value else table;
      assert name in Names(s);
    case Derived(alias, _) => assert alias in Names(s);
    case Inputs(children) => VisibleIsCollectedAll(children, c);
  }

  lemma {:induction false} VisibleIsCollectedAll(ss: seq<Source>, c: Column)
    requires c in VisibleAll(ss)
    ensures exists name :: name in NamesAll(ss) && Fold(name) == c.0
  {
    if c in Visible(ss[0]) {
      VisibleIsCollected(ss[0], c);
      var name :| name in Names(ss[0]) && Fold(name) == c.0;
      assert name in NamesAll(ss);
    } else {
      VisibleIsCollectedAll(ss[1..], c);
      var name :| name in NamesAll(ss[1..]) && Fold(name) == c.0;
      assert name in NamesAll(ss);
    }
  }

  // ---------------------------------------------------------------------------
  // Extraction
  // ---------------------------------------------------------------------------

  datatype KeyPair = KeyPair(left: ColumnRef, right: ColumnRef)

  /** The key of one equality: a column of each side, in either order, as far as the names tell. */
  function EqualityKeys(l: Expr, r: Expr, ln: set<string>, rn: set<string>): seq<KeyPair>
  {
    var a, b := ToColumnRef(l), ToColumnRef(r);
    if a.None? || b.None? then []
    else if FromTables(a.value, ln) && FromTables(b.value, rn) then [KeyPair(a.value, b.value)]
    else if FromTables(a.value, rn) && FromTables(b.value, ln) then [KeyPair(b.value, a.value)]
    else []
  }

  function EquiKeys(e: Expr, ln: set<string>, rn: set<string>): seq<KeyPair>
  {
    match e
    case Binary(Equals, l, r) => EqualityKeys(l, r, ln, rn)
    case Binary(Conj, l, r) => EquiKeys(l, ln, rn) + EquiKeys(r, ln, rn)
    case Nested(inner) => EquiKeys(inner, ln, rn)
    case _ => []
  }

  function Lefts(ks: seq<KeyPair>): seq<ColumnRef> { seq(|ks|, i requires 0 <= i < |ks| => ks[i].left) }

  function Rights(ks: seq<KeyPair>): seq<ColumnRef> { seq(|ks|, i requires 0 <= i < |ks| => ks[i].right) }

  /** The two key lists grow together while the conjunction is walked. */
  method ExtractEquiKeys(e: Expr, ln: set<string>, rn: set<string>, ls: seq<ColumnRef>, rs: seq<ColumnRef>)
    returns (left: seq<ColumnRef>, right: seq<ColumnRef>)
    ensures left == ls + Lefts(EquiKeys(e, ln, rn)) && right == rs + Rights(EquiKeys(e, ln, rn))
  {
    left, right := ls, rs;
    match e {
      case Binary(Equals, l, r) =>
        var a, b := ToColumnRef(l), ToColumnRef(r);
        if a.Some? && b.Some? {
          if FromTables(a.value, ln) && FromTables(b.value, rn) {
            left, right := left + [a.value], right + [b.value];
          } else if FromTables(a.value, rn) && FromTables(b.value, ln) {
            left, right := left + [b.value], right + [a.value];
          }
        }
      case Binary(Conj, l, r) =>
        left, right := ExtractEquiKeys(l, ln, rn, left, right);
        left, right := ExtractEquiKeys(r, ln, rn, left, right);
      case Nested(inner) => left, right := ExtractEquiKeys(inner, ln, rn, left, right);
      case _ =>
    }
  }

  // ---------------------------------------------------------------------------
  // When the keys agree
  // ---------------------------------------------------------------------------

  ghost predicate Attributed(a: ColumnRef, b: ColumnRef, key: KeyPair, ls: Schema, rs: Schema)
    requires a.table.Some? && b.table.Some?
  {
    && Target(a) in ls && Target(b) in rs
    && Fold(key.left.column) == Fold(a.column) && Fold(key.right.column) == Fold(b.column)
  }

  /** The equality compares a column of the left side with one of the right side, named like the keys. */
  ghost predicate Faithful(a: ColumnRef, b: ColumnRef, key: KeyPair, ls: Schema, rs: Schema)
  {
    && a.table.Some? && b.table.Some?
    && (Attributed(a, b, key, ls, rs) || Attributed(b, a, key, ls, rs))
  }

  /** Every equality from which a key is taken is faithful to it. */
  ghost predicate WellAttributed(e: Expr, ln: set<string>, rn: set<string>, ls: Schema, rs: Schema)
  {
    match e
    case Binary(Equals, l, r) =>
      forall key :: key in EqualityKeys(l, r, ln, rn) ==>
        Faithful(ToColumnRef(l).value, ToColumnRef(r).value, key, ls, rs)
    case Binary(Conj, l, r) => WellAttributed(l, ln, rn, ls, rs) && WellAttributed(r, ln, rn, ls, rs)
    case Nested(inner) => WellAttributed(inner, ln, rn, ls, rs)
    case _ => true
  }

  ghost predicate KeysAgree(key: KeyPair, l: Row, r: Row)
  {
    && Has(l.Keys, key.left.column) && Has(r.Keys, key.right.column)
    && ByName(l, key.left.column) == ByName(r, key.right.column)
  }

  ghost predicate IsTrue(env: Env, e: Expr, l: Row, r: Row) { Eval(env, e, l + r) == Truth(true) }

  /** No column is visible on both sides, and each key has a name that identifies its column on its own side. */
  ghost predicate Joinable(ls: Schema, rs: Schema, keys: seq<KeyPair>)
  {
    ls !! rs && forall key :: key in keys ==> Identifies(ls, key.left.column) && Identifies(rs, key.right.column)
  }

  lemma ColumnByName(row: Row, c: Column, column: string)
    requires Identifies(row.Keys, column) && c in row && c.1 == Fold(column)
    ensures Has(row.Keys, column) && ByName(row, column) == row[c]
  {
    assert c in row.Keys;
  }

  lemma FaithfulKeysAgree(env: Env, a: Expr, b: Expr, key: KeyPair, l: Row, r: Row)
    requires Joinable(l.Keys, r.Keys, [key]) && ToColumnRef(a).Some? && ToColumnRef(b).Some?
    requires Faithful(ToColumnRef(a).value, ToColumnRef(b).value, key, l.Keys, r.Keys)
    requires IsTrue(env, Binary(Equals, a, b), l, r)
    ensures KeysAgree(key, l, r)
  {
    var x, y := ToColumnRef(a).value, ToColumnRef(b).value;
    RefEval(env, a, l + r);
    RefEval(env, b, l + r);
    assert key in [key];
    if && Target(x) in l.Keys && Target(y) in r.Keys
       && Fold(key.left.column) == Fold(x.column) && Fold(key.right.column) == Fold(y.column) {
      ColumnByName(l, Target(x), key.left.column);
      ColumnByName(r, Target(y), key.right.column);
    } else {
      ColumnByName(l, Target(y), key.left.column);
      ColumnByName(r, Target(x), key.right.column);
    }
  }

  /** Any pair of rows that makes the ON clause TRUE agrees on every extracted key. */
  lemma {:induction false} EquiKeysAgree(env: Env, e: Expr, ln: set<string>, rn: set<string>, l: Row, r: Row)
    requires Joinable(l.Keys, r.Keys, EquiKeys(e, ln, rn)) && WellAttributed(e, ln, rn, l.Keys, r.Keys)
    requires IsTrue(env, e, l, r)
    ensures forall key :: key in EquiKeys(e, ln, rn) ==> KeysAgree(key, l, r)
  {
    match e
    case Binary(Equals, a, b) =>
      forall key | key in EqualityKeys(a, b, ln, rn) ensures KeysAgree(key, l, r) {
        FaithfulKeysAgree(env, a, b, key, l, r);
      }
    case Binary(Conj, a, b) =>
      EquiKeysAgree(env, a, ln, rn, l, r);
      EquiKeysAgree(env, b, ln, rn, l, r);
    case Nested(inner) => EquiKeysAgree(env, inner, ln, rn, l, r);
    case _ =>
  }

  // ---------------------------------------------------------------------------
  // When attribution by name is right
  // ---------------------------------------------------------------------------

  /** Every qualified reference of an equality conjunct names a visible column. */
  ghost predicate EqualitiesBind(e: Expr, ls: Schema, rs: Schema)
  {
    match e
    case Binary(Equals, l, r) => RefExprBinds(l, ls + rs) && RefExprBinds(r, ls + rs)
    case Binary(Conj, l, r) => EqualitiesBind(l, ls, rs) && EqualitiesBind(r, ls, rs)
    case Nested(inner) => EqualitiesBind(inner, ls, rs)
    case _ => true
  }

  ghost predicate RefExprBinds(e: Expr, schema: Schema)
  {
    ToColumnRef(e).Some? && ToColumnRef(e).value.table.Some? ==> Target(ToColumnRef(e).value) in schema
  }

  /** No visible relation of one side shares a name, hidden or not, with the other side. */
  ghost predicate NamesApart(left: Source, right: Source)
  {
    && (forall c, name :: c in Visible(left) && name in Names(right) ==> Fold(name) != c.0)
    && (forall c, name :: c in Visible(right) && name in Names(left) ==> Fold(name) != c.0)
  }

  lemma {:induction false} ApartIsWellAttributed(e: Expr, left: Source, right: Source)
    requires NamesApart(left, right) && EqualitiesBind(e, Visible(left), Visible(right))
    ensures WellAttributed(e, Names(left), Names(right), Visible(left), Visible(right))
  {
    match e
    case Binary(Equals, l, r) =>
    case Binary(Conj, l, r) =>
      ApartIsWellAttributed(l, left, right);
      ApartIsWellAttributed(r, left, right);
    case Nested(inner) => ApartIsWellAttributed(inner, left, right);
    case _ =>
  }

  // ---------------------------------------------------------------------------
  // No key is missed
  // ---------------------------------------------------------------------------

  /** The conditions that AND joins, through parentheses, from left to right. */
  function Conjuncts(e: Expr): seq<Expr>
  {
    match e
    case Binary(Conj, l, r) => Conjuncts(l) + Conjuncts(r)
    case Nested(inner) => Conjuncts(inner)
    case _ => [e]
  }

  /** The clause is TRUE exactly when all of its conjuncts are. */
  lemma {:induction false} ConjunctsTrue(env: Env, e: Expr, row: Row)
    ensures Eval(env, e, row) == Truth(true) <==> forall c :: c in Conjuncts(e) ==> Eval(env, c, row) == Truth(true)
  {
    match e
    case Binary(Conj, l, r) =>
      ConjunctsTrue(env, l, row);
      ConjunctsTrue(env, r, row);
    case Nested(inner) => ConjunctsTrue(env, inner, row);
    case _ => assert e in Conjuncts(e);
  }

  /** The key of a condition by the columns it compares: an equality of a column of each side. */
  ghost function CrossKey(c: Expr, ls: Schema, rs: Schema): seq<KeyPair>
  {
    if c.Binary? && c.op.Equals? && Qualified(c.left) && Qualified(c.right) then
      var a, b := ToColumnRef(c.left).value, ToColumnRef(c.right).value;
      if Target(a) in ls && Target(b) in rs then [KeyPair(a, b)]
      else if Target(b) in ls && Target(a) in rs then [KeyPair(b, a)]
      else []
    else []
  }

  predicate Qualified(e: Expr) { ToColumnRef(e).Some? && ToColumnRef(e).value.table.Some? }

  ghost function CrossKeys(cs: seq<Expr>, ls: Schema, rs: Schema): seq<KeyPair>
  {
    if cs == [] then [] else CrossKey(cs[0], ls, rs) + CrossKeys(cs[1..], ls, rs)
  }

  lemma {:induction false} CrossKeysConcat(cs: seq<Expr>, ds: seq<Expr>, ls: Schema, rs: Schema)
    ensures CrossKeys(cs + ds, ls, rs) == CrossKeys(cs, ls, rs) + CrossKeys(ds, ls, rs)
  {
    if cs == [] {
      assert cs + ds == ds;
    } else {
      assert (cs + ds)[1..] == cs[1..] + ds;
      CrossKeysConcat(cs[1..], ds, ls, rs);
    }
  }

  lemma SideByName(ref: ColumnRef, left: Source, right: Source)
    requires NamesApart(left, right) && ref.table.Some? && Target(ref) in Visible(left) + Visible(right)
    ensures FromTables(ref, Names(left)) <==> Target(ref) in Visible(left)
    ensures FromTables(ref, Names(right)) <==> Target(ref) in Visible(right)
  {
    if Target(ref) in Visible(left) {
      VisibleIsCollected(left, Target(ref));
    }
    if Target(ref) in Visible(right) {
      VisibleIsCollected(right, Target(ref));
    }
  }

  lemma OneCrossKey(l: Expr, r: Expr, left: Source, right: Source)
    requires NamesApart(left, right)
    requires RefExprBinds(l, Visible(left) + Visible(right)) && RefExprBinds(r, Visible(left) + Visible(right))
    ensures EqualityKeys(l, r, Names(left), Names(right))
            == CrossKey(Binary(Equals, l, r), Visible(left), Visible(right))
  {
    if Qualified(l) && Qualified(r) {
      SideByName(ToColumnRef(l).value, left, right);
      SideByName(ToColumnRef(r).value, left, right);
    }
  }

  /** An equality between a column of each side always gives its key. */
  lemma CrossEqualityIsKey(l: Expr, r: Expr, left: Source, right: Source)
    requires NamesApart(left, right) && ToColumnRef(l).Some? && ToColumnRef(r).Some?
    requires var a, b := ToColumnRef(l).value, ToColumnRef(r).value;
             && a.table.Some? && b.table.Some?
             && ((Target(a) in Visible(left) && Target(b) in Visible(right))
                 || (Target(b) in Visible(left) && Target(a) in Visible(right)))
    ensures var a, b := ToColumnRef(l).value, ToColumnRef(r).value;
            EqualityKeys(l, r, Names(left), Names(right))
            == if Target(a) in Visible(left) then [KeyPair(a, b)] else [KeyPair(b, a)]
  {
    OneCrossKey(l, r, left, right);
    SideByName(ToColumnRef(l).value, left, right);
    SideByName(ToColumnRef(r).value, left, right);
  }

  /**
   The keys are those of the conjuncts that equate a visible column of one side with one of the other: all of
   them, in the order of the clause and once for each.
   */
  lemma {:induction false} EquiKeysComplete(e: Expr, left: Source, right: Source)
    requires NamesApart(left, right) && EqualitiesBind(e, Visible(left), Visible(right))
    ensures EquiKeys(e, Names(left), Names(right)) == CrossKeys(Conjuncts(e), Visible(left), Visible(right))
  {
    match e
    case Binary(Equals, l, r) =>
      OneCrossKey(l, r, left, right);
      assert [e][1..] == [];
    case Binary(Conj, l, r) =>
      EquiKeysComplete(l, left, right);
      EquiKeysComplete(r, left, right);
      CrossKeysConcat(Conjuncts(l), Conjuncts(r), Visible(left), Visible(right));
    case Nested(inner) => EquiKeysComplete(inner, left, right);
    case _ => assert [e][1..] == [];
  }

  ghost function Filled(schema: Schema, special: Column, v: Value, rest: Value): (row: Row)
    ensures row.Keys == schema
  {
    map c | c in schema :: if c == special then v else rest
  }

  lemma FilledByName(schema: Schema, special: Column, v: Value, rest: Value, column: string)
    requires special in schema ==> special.1 != Fold(column)
    ensures Has(schema, column) ==> ByName(Filled(schema, special, v, rest), column) == rest
  {
  }

  /**
   For an equality of two bound columns: every pair of rows that makes it TRUE agrees on the extracted key
   if and only if the equality is faithful to it.
   */
  lemma EqualityKeyAgreesIff(env: Env, a: Expr, b: Expr, key: KeyPair, ln: set<string>, rn: set<string>,
                             ls: Schema, rs: Schema)
    requires Joinable(ls, rs, [key]) && EqualityKeys(a, b, ln, rn) == [key]
    requires RefExprBinds(a, ls + rs) && RefExprBinds(b, ls + rs)
    ensures (forall l: Row, r: Row :: l.Keys == ls && r.Keys == rs && IsTrue(env, Binary(Equals, a, b), l, r) ==>
               KeysAgree(key, l, r))
            <==> Faithful(ToColumnRef(a).value, ToColumnRef(b).value, key, ls, rs)
  {
    var x, y := ToColumnRef(a).value, ToColumnRef(b).value;
    if Faithful(x, y, key, ls, rs) {
      forall l: Row, r: Row | l.Keys == ls && r.Keys == rs && IsTrue(env, Binary(Equals, a, b), l, r)
        ensures KeysAgree(key, l, r)
      {
        FaithfulKeysAgree(env, a, b, key, l, r);
      }
    } else {
      var l, r := DisagreeingRows(env, a, b, key, ls, rs);
    }
  }

  lemma DisagreeingRows(env: Env, a: Expr, b: Expr, key: KeyPair, ls: Schema, rs: Schema) returns (l: Row, r: Row)
    requires ls !! rs && ToColumnRef(a).Some? && ToColumnRef(b).Some?
    requires var x, y := ToColumnRef(a).value, ToColumnRef(b).value;
             && x.table.Some? && y.table.Some? && Target(x) in ls + rs && Target(y) in ls + rs
             && (key == KeyPair(x, y) || key == KeyPair(y, x)) && !Faithful(x, y, key, ls, rs)
    ensures l.Keys == ls && r.Keys == rs && IsTrue(env, Binary(Equals, a, b), l, r) && !KeysAgree(key, l, r)
  {
    var x, y := ToColumnRef(a).value, ToColumnRef(b).value;
    var p, q := if Target(x) in ls then Target(x) else Target(y), if Target(y) in rs then Target(y) else Target(x);
    if (Target(x) in ls) == (Target(y) in ls) {
      var nowhere := ("", "");
      l, r := Filled(ls, nowhere, Num(0), Num(0)), Filled(rs, nowhere, Num(1), Num(1));
    } else {
      l, r := Filled(ls, p, Num(0), Num(1)), Filled(rs, q, Num(0), Num(2));
      FilledByName(ls, p, Num(0), Num(1), key.left.column);
      FilledByName(rs, q, Num(0), Num(2), key.right.column);
    }
    RefEval(env, a, l + r);
    RefEval(env, b, l + r);
  }

  /** A base name that an alias hides misleads the attribution of `t JOIN t AS b ON t.x = t.y`. */
  lemma HiddenNameMisleads(t: string, b: string, x: string, y: string)
    requires Fold(t) != Fold(b) && Fold(x) != Fold(y)
    ensures var left, right := Scan(t, None, {x, y}), Scan(t, Some(b), {x, y});
            var e := Binary(Equals, Compound([t, x]), Compound([t, y]));
            && EqualitiesBind(e, Visible(left), Visible(right))
            && EquiKeys(e, Names(left), Names(right)) == [KeyPair(ColumnRef(Some(t), x), ColumnRef(Some(t), y))]
            && !WellAttributed(e, Names(left), Names(right), Visible(left), Visible(right))
  {
    var left, right := Scan(t, None, {x, y}), Scan(t, Some(b), {x, y});
    var e := Binary(Equals, Compound([t, x]), Compound([t, y]));
    assert t in Names(left) && t in Names(right);
    var key := KeyPair(ColumnRef(Some(t), x), ColumnRef(Some(t), y));
    assert EqualityKeys(Compound([t, x]), Compound([t, y]), Names(left), Names(right)) == [key];
    assert !Faithful(ColumnRef(Some(t), x), ColumnRef(Some(t), y), key, Visible(left), Visible(right));
    assert key in EqualityKeys(Compound([t, x]), Compound([t, y]), Names(left), Names(right));
  }

  // ---------------------------------------------------------------------------
  // The partition-wise join
  // ---------------------------------------------------------------------------

  lemma SameParts(env: Env, e: Expr, ln: set<string>, rn: set<string>, l: Row, r: Row, hash: seq<Value> -> nat, n: nat)
    requires n > 0 && Joinable(l.Keys, r.Keys, EquiKeys(e, ln, rn)) && WellAttributed(e, ln, rn, l.Keys, r.Keys)
    requires IsTrue(env, e, l, r)
    ensures PartOf(hash, n, Lefts(EquiKeys(e, ln, rn)), l) == PartOf(hash, n, Rights(EquiKeys(e, ln, rn)), r)
  {
    EquiKeysAgree(env, e, ln, rn, l, r);
    var ks := EquiKeys(e, ln, rn);
    assert forall i :: 0 <= i < |ks| ==> ks[i] in ks;
    KeyValuesEqual(Lefts(ks), l, Rights(ks), r);
  }

  /**
   The join by an ON clause may be evaluated part by part after distributing both sides by the extracted
   keys, for every hash function, number of parts and kind of join.
   */
  lemma PartitionWiseJoin(env: Env, e: Expr, kind: JoinKind, left: Source, right: Source,
                          ls: seq<Row>, rs: seq<Row>, hash: seq<Value> -> nat, n: nat)
    requires n > 0 && RowsOf(ls, Visible(left)) && RowsOf(rs, Visible(right))
    requires Joinable(Visible(left), Visible(right), EquiKeys(e, Names(left), Names(right)))
    requires WellAttributed(e, Names(left), Names(right), Visible(left), Visible(right))
    ensures var keys := EquiKeys(e, Names(left), Names(right));
            var pl, pr := row => PartOf(hash, n, Lefts(keys), row), row => PartOf(hash, n, Rights(keys), row);
            var on := (l, r) => IsTrue(env, e, l, r);
            multiset(Gather((p: nat) => Join(kind, Part(ls, pl, p), Part(rs, pr, p), on), n))
            == multiset(Join(kind, ls, rs, on))
  {
    var keys := EquiKeys(e, Names(left), Names(right));
    var pl, pr := row => PartOf(hash, n, Lefts(keys), row), row => PartOf(hash, n, Rights(keys), row);
    var on := (l, r) => IsTrue(env, e, l, r);
    forall l, r | l in ls && r in rs && on(l, r) ensures pl(l) == pr(r) {
      SameParts(env, e, Names(left), Names(right), l, r, hash, n);
    }
    JoinByParts(kind, ls, rs, on, pl, pr, n);
  }

  /** The inner join of these rows may be evaluated part by part. */
  ghost predicate JoinsByParts(env: Env, e: Expr, keys: seq<KeyPair>, xs: seq<Row>, ys: seq<Row>,
                               hash: seq<Value> -> nat, n: nat)
    requires n > 0
  {
    var pl, pr := row => PartOf(hash, n, Lefts(keys), row), row => PartOf(hash, n, Rights(keys), row);
    var on := (l, r) => IsTrue(env, e, l, r);
    multiset(Gather((p: nat) => Join(Inner, Part(xs, pl, p), Part(ys, pr, p), on), n))
    == multiset(Join(Inner, xs, ys, on))
  }

  lemma FaithfulJoinsByParts(env: Env, a: Expr, b: Expr, key: KeyPair, ls: Schema, rs: Schema, xs: seq<Row>,
                             ys: seq<Row>, hash: seq<Value> -> nat, n: nat)
    requires n > 0 && Joinable(ls, rs, [key]) && RowsOf(xs, ls) && RowsOf(ys, rs)
    requires ToColumnRef(a).Some? && ToColumnRef(b).Some?
    requires Faithful(ToColumnRef(a).value, ToColumnRef(b).value, key, ls, rs)
    ensures JoinsByParts(env, Binary(Equals, a, b), [key], xs, ys, hash, n)
  {
    var e, keys := Binary(Equals, a, b), [key];
    var pl, pr := row => PartOf(hash, n, Lefts(keys), row), row => PartOf(hash, n, Rights(keys), row);
    var on := (l, r) => IsTrue(env, e, l, r);
    forall l, r | l in xs && r in ys && on(l, r) ensures pl(l) == pr(r) {
      FaithfulKeysAgree(env, a, b, key, l, r);
      KeyValuesEqual(Lefts(keys), l, Rights(keys), r);
    }
    JoinByParts(Inner, xs, ys, on, pl, pr, n);
  }

  /** Two values apart, for an exchange with two parts. */
  ghost function Tell(v: Value): seq<Value> -> nat { vs => if vs == [v] then 0 else 1 }

  lemma DisagreeingRowsPart(env: Env, e: Expr, key: KeyPair, l: Row, r: Row)
    requires IsTrue(env, e, l, r) && ByName(l, key.left.column) != ByName(r, key.right.column)
    ensures !JoinsByParts(env, e, [key], [l], [r], Tell(ByName(l, key.left.column)), 2)
  {
    var hash, keys := Tell(ByName(l, key.left.column)), [key];
    var pl, pr := row => PartOf(hash, 2, Lefts(keys), row), row => PartOf(hash, 2, Rights(keys), row);
    var on := (l, r) => IsTrue(env, e, l, r);
    OneKeyValue(key.left, l);
    OneKeyValue(key.right, r);
    assert Lefts(keys) == [key.left] && Rights(keys) == [key.right];
    assert pl(l) == 0 && pr(r) == 1 && on(l, r) && l in [l] && r in [r];
    InnerByPartsIff([l], [r], on, pl, pr, 2);
  }

  lemma OneKeyValue(key: ColumnRef, row: Row)
    ensures KeyValues([key], row) == [ByName(row, key.column)]
  {
    assert [key][1..] == [];
  }

  /**
   For one equality of two bound columns, whose key columns both sides have: the join by parts is the join,
   for all rows, hash functions and numbers of parts, if and only if the equality is faithful to the key.
   */
  lemma EqualityJoinByPartsIff(env: Env, a: Expr, b: Expr, key: KeyPair, ln: set<string>, rn: set<string>,
                               ls: Schema, rs: Schema)
    requires Joinable(ls, rs, [key]) && EqualityKeys(a, b, ln, rn) == [key]
    requires RefExprBinds(a, ls + rs) && RefExprBinds(b, ls + rs)
    requires Has(ls, key.left.column) && Has(rs, key.right.column)
    ensures (forall xs, ys, hash: seq<Value> -> nat, n: nat | n > 0 && RowsOf(xs, ls) && RowsOf(ys, rs) ::
               JoinsByParts(env, Binary(Equals, a, b), [key], xs, ys, hash, n))
            <==> Faithful(ToColumnRef(a).value, ToColumnRef(b).value, key, ls, rs)
  {
    if Faithful(ToColumnRef(a).value, ToColumnRef(b).value, key, ls, rs) {
      forall xs, ys, hash: seq<Value> -> nat, n: nat | n > 0 && RowsOf(xs, ls) && RowsOf(ys, rs)
        ensures JoinsByParts(env, Binary(Equals, a, b), [key], xs, ys, hash, n)
      {
        FaithfulJoinsByParts(env, a, b, key, ls, rs, xs, ys, hash, n);
      }
    } else {
      var l, r := DisagreeingRows(env, a, b, key, ls, rs);
      assert RowsOf([l], ls) && RowsOf([r], rs);
      DisagreeingRowsPart(env, Binary(Equals, a, b), key, l, r);
    }
  }

  /** The same for USING, whose keys are the named columns of both sides. */
  function UsingKeys(columns: seq<string>): seq<ColumnRef>
  {
    seq(|columns|, i requires 0 <= i < |columns| => ColumnRef(None, columns[i]))
  }

  ghost predicate UsingMatches(columns: seq<string>, l: Row, r: Row)
  {
    forall i :: 0 <= i < |columns| ==> SqlEquals(ByName(l, columns[i]), ByName(r, columns[i])) == Truth(true)
  }

  /** The USING columns are the keys and nothing else is: rows match exactly when no key is null and all agree. */
  lemma {:induction false} UsingMatchesIff(columns: seq<string>, l: Row, r: Row)
    ensures UsingMatches(columns, l, r)
            <==> KeyValues(UsingKeys(columns), l) == KeyValues(UsingKeys(columns), r)
                 && Null !in KeyValues(UsingKeys(columns), l)
  {
    if columns != [] {
      var rest := columns[1..];
      UsingMatchesIff(rest, l, r);
      assert UsingKeys(columns)[1..] == UsingKeys(rest);
      UsingFirst(columns, l, r);
      var x, y := ByName(l, columns[0]), ByName(r, columns[0]);
      var xs, ys := KeyValues(UsingKeys(rest), l), KeyValues(UsingKeys(rest), r);
      assert [x] + xs == [y] + ys <==> x == y && xs == ys by {
        assert ([x] + xs)[1..] == xs && ([y] + ys)[1..] == ys;
      }
    }
  }

  lemma UsingFirst(columns: seq<string>, l: Row, r: Row)
    requires columns != []
    ensures UsingMatches(columns, l, r)
            <==> && SqlEquals(ByName(l, columns[0]), ByName(r, columns[0])) == Truth(true)
                 && UsingMatches(columns[1..], l, r)
  {
    var rest := columns[1..];
    assert forall i :: 0 <= i < |rest| ==> rest[i] == columns[i + 1];
    if UsingMatches(rest, l, r) && SqlEquals(ByName(l, columns[0]), ByName(r, columns[0])) == Truth(true) {
      forall i | 0 <= i < |columns|
        ensures SqlEquals(ByName(l, columns[i]), ByName(r, columns[i])) == Truth(true)
      {
        if i > 0 {
          assert rest[i - 1] == columns[i];
        }
      }
    }
  }

  lemma PartitionWiseUsing(columns: seq<string>, kind: JoinKind, ls: seq<Row>, rs: seq<Row>,
                           hash: seq<Value> -> nat, n: nat)
    requires n > 0
    ensures var part := row => PartOf(hash, n, UsingKeys(columns), row);
            var on := (l, r) => UsingMatches(columns, l, r);
            multiset(Gather((p: nat) => Join(kind, Part(ls, part, p), Part(rs, part, p), on), n))
            == multiset(Join(kind, ls, rs, on))
  {
    var keys := UsingKeys(columns);
    var part := row => PartOf(hash, n, keys, row);
    var on := (l, r) => UsingMatches(columns, l, r);
    forall l, r | l in ls && r in rs && on(l, r) ensures part(l) == part(r) {
      assert forall i :: 0 <= i < |keys| ==> ByName(l, keys[i].column) == ByName(r, keys[i].column) by {
        assert forall i :: 0 <= i < |columns| ==> keys[i].column == columns[i];
      }
      KeyValuesEqual(keys, l, keys, r);
    }
    JoinByParts(kind, ls, rs, on, part, part, n);
  }
}
