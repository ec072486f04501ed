/**
 The expressions from which distribution keys are taken, their meaning on rows, and the column references
 that stand for the keys.
 */
module KeyExprs {
  import opened Common

  datatype Value = Null | Num(n: int) | Truth(b: bool)

  datatype Operator = Equals | Conj | OtherOp(id: nat)

  /** The OVER clause of a call: none, an inline window, or the name of a window. */
  datatype Over = NoOver | Inline(partitionBy: seq<Expr>) | Named(name: string)

  /** `Opaque` stands for every other kind of expression: casts, subqueries, IN lists and so on. */
  datatype Expr =
    | Ident(name: string)
    | Compound(parts: seq<string>)
    | Binary(op: Operator, left: Expr, right: Expr)
    | Unary(id: nat, inner: Expr)
    | Nested(inner: Expr)
    | Call(id: nat, args: seq<Expr>, over: Over)
    | Case(branches: seq<Expr>)
    | Opaque(id: nat, inside: seq<Expr>)

  datatype ColumnRef = ColumnRef(table: Option<string>, column: string)

  /** The reference an expression stands for; of a longer name only the last two parts are kept. */
  function ToColumnRef(e: Expr): Option<ColumnRef>
  {
    if e.Ident? then Some(ColumnRef(None, e.name))
    else if e.Compound? && |e.parts| >= 2 then Some(ColumnRef(Some(e.parts[|e.parts| - 2]), e.parts[|e.parts| - 1]))
    else None
  }

  function ToColumnRefs(es: seq<Expr>): seq<ColumnRef>
  {
    if es == [] then []
    else (if ToColumnRef(es[0]).Some? then [ToColumnRef(es[0]).value] else []) + ToColumnRefs(es[1..])
  }

  predicate SameRef(a: ColumnRef, b: ColumnRef)
  {
    && Fold(a.column) == Fold(b.column)
    && (a.table.Some? && b.table.Some? ==> Fold(a.table.value) == Fold(b.table.value))
  }

  /** A name of two or more parts stands for the column of its last two, whatever precedes them. */
  lemma LongNames(prefix: seq<string>, table: string, column: string)
    ensures ToColumnRef(Compound(prefix + [table, column])) == Some(ColumnRef(Some(table), column))
  {
  }

  /** The reference may name that column: it has its name and, if qualified, is qualified by its relation. */
  predicate MayName(ref: ColumnRef, c: (string, string))
  {
    Fold(ref.column) == c.1 && (ref.table.Some? ==> Fold(ref.table.value) == c.0)
  }

  /** References match exactly when some column may be named by both. */
  lemma SameRefIff(a: ColumnRef, b: ColumnRef)
    ensures SameRef(a, b) <==> exists c :: MayName(a, c) && MayName(b, c)
  {
    if SameRef(a, b) {
      var table := if a.table.Some? then Fold(a.table.value) else if b.table.Some? then Fold(b.table.value) else "";
      var c := (table, Fold(a.column));
      assert MayName(a, c) && MayName(b, c);
    }
  }

  // ---------------------------------------------------------------------------
  // Rows and evaluation
  // ---------------------------------------------------------------------------

  /** A column: the visible name of its relation and its own name, in lower case. */
  type Column = (string, string)

  type Schema = set<Column>

  type Row = map<Column, Value>

  /** At most one column has that name, so that the name identifies it without a qualifier. */
  ghost predicate Identifies(schema: Schema, column: string)
  {
    forall a, b :: a in schema && b in schema && a.1 == Fold(column) && b.1 == Fold(column) ==> a == b
  }

  /** The names of the keys identify columns; other columns may share their names. */
  ghost predicate KeysIdentify(schema: Schema, keys: seq<ColumnRef>)
  {
    forall key :: key in keys ==> Identifies(schema, key.column)
  }

  ghost predicate RowsOf(rows: seq<Row>, schema: Schema) { forall row :: row in rows ==> row.Keys == schema }

  ghost predicate Has(schema: Schema, column: string) { exists c :: c in schema && c.1 == Fold(column) }

  /** The value of the column of that name. */
  ghost function ByName(row: Row, column: string): Value
  {
    if Has(row.Keys, column) then
      var c :| c in row.Keys && c.1 == Fold(column);
      row[c]
    else Null
  }

  /** The column that a qualified reference names. */
  function Target(ref: ColumnRef): Column
    requires ref.table.Some?
  {
    (Fold(ref.table.value), Fold(ref.column))
  }

  /** What a reference evaluates to. */
  ghost function RefValue(ref: ColumnRef, row: Row): Value
  {
    if ref.table.None? then ByName(row, ref.column)
    else if Target(ref) in row then row[Target(ref)]
    else Null
  }

  ghost predicate RefBinds(ref: ColumnRef, schema: Schema)
  {
    if ref.table.None? then Has(schema, ref.column) else Target(ref) in schema
  }

  /** The meaning of everything that key extraction does not look into. */
  datatype Env = Env(
    op: (nat, Value, Value) -> Value,
    call: (nat, seq<Value>, Row) -> Value,
    other: (nat, Row) -> Value)

  function SqlEquals(a: Value, b: Value): Value { if a.Null? || b.Null? then Null else Truth(a == b) }

  function SqlAnd(a: Value, b: Value): Value
  {
    if a == Truth(false) || b == Truth(false) then Truth(false)
    else if a == Truth(true) && b == Truth(true) then Truth(true)
    else Null
  }

  ghost function Eval(env: Env, e: Expr, row: Row): Value
  {
    match e
    case Ident(x) => RefValue(ColumnRef(None, x), row)
    case Compound(parts) =>
      var n := |parts|;
      if n >= 2 then RefValue(ColumnRef(Some(parts[n - 2]), parts[n - 1]), row) else Null
    case Binary(op, l, r) =>
      var a, b := Eval(env, l, row), Eval(env, r, row);
      (match op
       case Equals => SqlEquals(a, b)
       case Conj => SqlAnd(a, b)
       case OtherOp(id) => env.op(id, a, b))
    case Unary(id, inner) => env.call(id, [Eval(env, inner, row)], row)
    case Nested(inner) => Eval(env, inner, row)
    case Call(id, args, _) => env.call(id, EvalAll(env, args, row), row)
    case Case(branches) => env.call(0, EvalAll(env, branches, row), row)
    case Opaque(id, _) => env.other(id, row)
  }

  ghost function EvalAll(env: Env, es: seq<Expr>, row: Row): seq<Value>
  {
    if es == [] then [] else [Eval(env, es[0], row)] + EvalAll(env, es[1..], row)
  }

  lemma RefEval(env: Env, e: Expr, row: Row)
    requires ToColumnRef(e).Some?
    ensures Eval(env, e, row) == RefValue(ToColumnRef(e).value, row)
  {
  }

  /** Dropping the qualifier does not change the column when its name identifies it. */
  lemma StrippedValue(ref: ColumnRef, row: Row)
    requires Identifies(row.Keys, ref.column) && RefBinds(ref, row.Keys)
    ensures RefValue(ref, row) == ByName(row, ref.column)
  {
    if ref.table.Some? {
      assert Target(ref) in row.Keys && Target(ref).1 == Fold(ref.column);
    }
  }

  /** The values by which an exchange distributes a row; qualifiers are stripped. */
  ghost function KeyValues(keys: seq<ColumnRef>, row: Row): seq<Value>
  {
    if keys == [] then [] else [ByName(row, keys[0].column)] + KeyValues(keys[1..], row)
  }

  /** The part a row is sent to, for any hash function. */
  ghost function PartOf(hash: seq<Value> -> nat, n: nat, keys: seq<ColumnRef>, row: Row): nat
    requires n > 0
  {
    hash(KeyValues(keys, row)) % n
  }

  lemma {:induction false} KeyValuesEqual(a: seq<ColumnRef>, x: Row, b: seq<ColumnRef>, y: Row)
    requires |a| == |b| && forall i :: 0 <= i < |a| ==> ByName(x, a[i].column) == ByName(y, b[i].column)
    ensures KeyValues(a, x) == KeyValues(b, y)
  {
    if a != [] {
      assert forall i :: 0 <= i < |a[1..]| ==> a[1..][i] == a[i + 1] && b[1..][i] == b[i + 1];
      KeyValuesEqual(a[1..], x, b[1..], y);
    }
  }
}
