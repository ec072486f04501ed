/**
 Finding the logical tables of a query and replacing them by macro calls: the two traversals agree, except on
 subqueries in the arms of CASE, and erasing the calls restores the query.
 */
module Discovery {
  import opened Common
  import opened QueryTree

  datatype Ref = Ref(dataset: string, alias: Option<string>)

  datatype TableReference = TableReference(dataset: string, alias: Option<string>, scope: nat)

  /** The dataset a table name stands for: its last part, whatever the schema. */
  function LastName(path: seq<string>): string { if path == [] then "" else path[|path| - 1] }

  /** The reference to a registered dataset at a leaf. */
  function Registered(registered: set<string>): Leaf -> seq<Ref>
  {
    (leaf: Leaf) =>
      if leaf.Relation? && leaf.factor.Table? && LastName(leaf.factor.path) in registered
      then [Ref(LastName(leaf.factor.path), leaf.factor.alias)] else []
  }

  function IsModification(leaf: Leaf): seq<Leaf> { if leaf.Modifies? then [leaf] else [] }

  function RefOf(t: TableReference): Ref { Ref(t.dataset, t.alias) }

  function RefsOf(ts: seq<TableReference>): seq<Ref>
  {
    seq(|ts|, i requires 0 <= i < |ts| => RefOf(ts[i]))
  }

  /** The tables a visit has to report, and whether it has to fail. */
  datatype Outcome = Outcome(refs: seq<Ref>, modifications: seq<Leaf>)

  function Then(a: Outcome, b: Outcome): Outcome { Outcome(a.refs + b.refs, a.modifications + b.modifications) }

  /** The state of a discovery. */
  datatype Snapshot = Snapshot(tables: seq<TableReference>, scopes: seq<nat>, nextScope: nat)

  predicate Sound(s: Snapshot)
  {
    s.scopes != [] && forall i :: 0 <= i < |s.scopes| ==> s.scopes[i] < s.nextScope
  }

  function Top(scopes: seq<nat>): nat
    requires scopes != []
  {
    scopes[|scopes| - 1]
  }

  /** The tables that were added belong to the current scope or to one entered meanwhile. */
  predicate Added(s: Snapshot, t: Snapshot, refs: seq<Ref>)
    requires Sound(s)
  {
    && s.tables <= t.tables && RefsOf(t.tables) == RefsOf(s.tables) + refs
    && forall i :: |s.tables| <= i < |t.tables| ==>
                     t.tables[i].scope == Top(s.scopes) || s.nextScope <= t.tables[i].scope < t.nextScope
  }

  /**
   A visit fails exactly when it meets a modification; otherwise it reports every table, in order, and leaves
   the scopes as they were.
   */
  predicate Visited(s: Snapshot, t: Snapshot, ok: bool, found: Outcome)
    requires Sound(s)
  {
    && Sound(t) && s.nextScope <= t.nextScope
    && (ok <==> found.modifications == [])
    && (ok ==> t.scopes == s.scopes && Added(s, t, found.refs))
  }

  lemma VisitThen(s: Snapshot, t: Snapshot, u: Snapshot, a: Outcome, b: Outcome, ok: bool)
    requires Sound(s) && Visited(s, t, true, a) && Visited(t, u, ok, b)
    ensures Visited(s, u, ok, Then(a, b))
  {
    assert a.modifications + b.modifications == b.modifications;
    if ok {
      assert RefsOf(u.tables) == RefsOf(s.tables) + (a.refs + b.refs);
      forall i | |s.tables| <= i < |u.tables|
        ensures u.tables[i].scope == Top(s.scopes) || s.nextScope <= u.tables[i].scope < u.nextScope
      {
        if i < |t.tables| {
          assert u.tables[i] == t.tables[i];
        }
      }
    }
  }

  /** None of the tables that were added belongs to the current scope: they are in scopes entered meanwhile. */
  predicate InOwnScopes(s: Snapshot, t: Snapshot)
  {
    forall i :: |s.tables| <= i < |t.tables| ==> s.nextScope <= t.tables[i].scope
  }

  lemma OwnScopesThen(s: Snapshot, t: Snapshot, u: Snapshot, a: Outcome, b: Outcome)
    requires Sound(s) && Visited(s, t, true, a) && Visited(t, u, true, b) && InOwnScopes(s, t) && InOwnScopes(t, u)
    ensures InOwnScopes(s, u)
  {
    forall i | |s.tables| <= i < |u.tables| ensures s.nextScope <= u.tables[i].scope {
      if i < |t.tables| {
        assert u.tables[i] == t.tables[i];
      }
    }
  }

  lemma VisitFails(s: Snapshot, t: Snapshot, found: Outcome, rest: Outcome)
    requires Sound(s) && Visited(s, t, false, found)
    ensures Visited(s, t, false, Then(found, rest))
  {
  }

  lemma ThenAgain(a: Outcome, b: Outcome, c: Outcome)
    ensures Then(Then(a, b), c) == Then(a, Then(b, c))
  {
  }

  lemma VisitNothing(s: Snapshot)
    requires Sound(s)
    ensures Visited(s, s, true, Outcome([], []))
  {
  }

  /** A visit inside a scope of its own is a visit of the surrounding scope. */
  lemma ScopeVisited(s: Snapshot, t: Snapshot, ok: bool, found: Outcome)
    requires Sound(s) && Visited(Entered(s), t, ok, found)
    ensures Visited(s, Left(t), ok, found) && (ok ==> InOwnScopes(s, Left(t)))
  {
    assert Sound(Left(t));
    if ok {
      assert Left(t).scopes == s.scopes && Top(Entered(s).scopes) == s.nextScope;
    }
  }

  function Entered(s: Snapshot): (t: Snapshot)
    requires Sound(s)
    ensures Sound(t)
  {
    s.(scopes := s.scopes + [s.nextScope], nextScope := s.nextScope + 1)
  }

  function Left(s: Snapshot): Snapshot { if |s.scopes| > 1 then s.(scopes := s.scopes[..|s.scopes| - 1]) else s }

  class TableDiscovery {
    const registered: set<string>
    var tables: seq<TableReference>
    var scopes: seq<nat>
    var nextScope: nat

    ghost function Now(): Snapshot
      reads this
    {
      Snapshot(tables, scopes, nextScope)
    }

    constructor (registered: set<string>)
      ensures this.registered == registered && Now() == Snapshot([], [0], 1)
    {
      this.registered := registered;
      tables, scopes, nextScope := [], [0], 1;
    }

    method EnterScope()
      requires Sound(Now())
      modifies this`scopes, this`nextScope
      ensures Now() == Entered(old(Now()))
    {
      scopes := scopes + [nextScope];
      nextScope := nextScope + 1;
    }

    method ExitScope()
      modifies this`scopes
      ensures Now() == Left(old(Now()))
    {
      if |scopes| > 1 {
        scopes := scopes[..|scopes| - 1];
      }
    }

    ghost function InQuery(q: Query): Outcome
    {
      Outcome(Collect(q, All, Registered(registered)), Collect(q, All, IsModification))
    }

    ghost function InCtes(cs: seq<Cte>): Outcome
    {
      Outcome(CollectCtes(cs, All, Registered(registered)), CollectCtes(cs, All, IsModification))
    }

    ghost function InBody(b: Body): Outcome
    {
      Outcome(CollectBody(b, All, Registered(registered)), CollectBody(b, All, IsModification))
    }

    ghost function InFrom(from: seq<FromItem>): Outcome
    {
      Outcome(CollectFrom(from, All, Registered(registered)), CollectFrom(from, All, IsModification))
    }

    ghost function InItem(item: FromItem): Outcome
    {
      Outcome(CollectItem(item, All, Registered(registered)), CollectItem(item, All, IsModification))
    }

    ghost function InJoins(js: seq<JoinClause>): Outcome
    {
      Outcome(CollectJoins(js, All, Registered(registered)), CollectJoins(js, All, IsModification))
    }

    ghost function InJoin(j: JoinClause): Outcome
    {
      Outcome(CollectJoin(j, All, Registered(registered)), CollectJoin(j, All, IsModification))
    }

    ghost function InFactor(f: Factor): Outcome
    {
      Outcome(CollectFactor(f, All, Registered(registered)), CollectFactor(f, All, IsModification))
    }

    ghost function InExprs(es: seq<Expr>): Outcome
    {
      Outcome(CollectExprs(es, All, Registered(registered)), CollectExprs(es, All, IsModification))
    }

    ghost function InExpr(e: Expr): Outcome
    {
      Outcome(CollectExpr(e, All, Registered(registered)), CollectExpr(e, All, IsModification))
    }

    /** A subquery is visited in a scope of its own. */
    method VisitScoped(q: Query) returns (ok: bool)
      requires Sound(Now())
      modifies this
      ensures Visited(old(Now()), Now(), ok, InQuery(q)) && (ok ==> InOwnScopes(old(Now()), Now()))
      decreases q, 1
    {
      EnterScope();
      ok := VisitQuery(q);
      ScopeVisited(old(Now()), Now(), ok, InQuery(q));
      ExitScope();
    }

    method VisitQuery(q: Query) returns (ok: bool)
      requires Sound(Now())
      modifies this
      ensures Visited(old(Now()), Now(), ok, InQuery(q))
      decreases q, 0
    {
      ok := VisitCtes(q.ctes);
      if ok {
        ghost var mid := Now();
        ok := VisitBody(q.body);
        VisitThen(old(Now()), mid, Now(), InCtes(q.ctes), InBody(q.body), ok);
      }
    }

    method VisitCtes(cs: seq<Cte>) returns (ok: bool)
      requires Sound(Now())
      modifies this
      ensures Visited(old(Now()), Now(), ok, InCtes(cs)) && (ok ==> InOwnScopes(old(Now()), Now()))
      decreases cs, 0
    {
      VisitNothing(Now());
      ghost var done := Outcome([], []);
      for i := 0 to |cs|
        invariant Sound(Now()) && Visited(old(Now()), Now(), true, done) && InOwnScopes(old(Now()), Now())
        invariant Then(done, InCtes(cs[i..])) == InCtes(cs)
      {
        ghost var mid := Now();
        assert cs[i..][1..] == cs[i + 1..];
        ghost var rest := InCtes(cs[i + 1..]);
        assert InCtes(cs[i..]) == Then(InQuery(cs[i].query), rest);
        ThenAgain(done, InQuery(cs[i].query), rest);
        ok := VisitScoped(cs[i].query);
        VisitThen(old(Now()), mid, Now(), done, InQuery(cs[i].query), ok);
        if !ok {
          VisitFails(old(Now()), Now(), Then(done, InQuery(cs[i].query)), rest);
          return;
        }
        OwnScopesThen(old(Now()), mid, Now(), done, InQuery(cs[i].query));
        done := Then(done, InQuery(cs[i].query));
      }
      assert Then(done, InCtes([])) == done;
      ok := true;
    }

    method VisitBody(b: Body) returns (ok: bool)
      requires Sound(Now())
      modifies this
      ensures Visited(old(Now()), Now(), ok, InBody(b))
      decreases b, 0
    {
      match b {
        case Select(from, filter, items, having) => ok := VisitSelect(b);
        case Enclosed(query) => ok := VisitScoped(query);
        case SetOperation(left, right) =>
          ok := VisitBody(left);
          if ok {
            ghost var mid := Now();
            ok := VisitBody(right);
            VisitThen(old(Now()), mid, Now(), InBody(left), InBody(right), ok);
          }
        case Modification => ok := false;
        case Values => ok := true;
      }
    }

    method VisitSelect(b: Body) returns (ok: bool)
      requires Sound(Now()) && b.Select?
      modifies this
      ensures Visited(old(Now()), Now(), ok, InBody(b))
      decreases b, -1
    {
      ghost var found := InFrom(b.from);
      ok := VisitFrom(b.from);
      if ok {
        ghost var mid := Now();
        ok := VisitExprs(b.filter);
        VisitThen(old(Now()), mid, Now(), found, InExprs(b.filter), ok);
        found := Then(found, InExprs(b.filter));
      }
      if ok {
        ghost var mid := Now();
        ok := VisitExprs(b.items);
        VisitThen(old(Now()), mid, Now(), found, InExprs(b.items), ok);
        found := Then(found, InExprs(b.items));
      }
      if ok {
        ghost var mid := Now();
        ok := VisitExprs(b.having);
        VisitThen(old(Now()), mid, Now(), found, InExprs(b.having), ok);
      }
    }

    method VisitFrom(from: seq<FromItem>) returns (ok: bool)
      requires Sound(Now())
      modifies this
      ensures Visited(old(Now()), Now(), ok, InFrom(from))
      decreases from, 0
    {
      VisitNothing(Now());
      ghost var done := Outcome([], []);
      for i := 0 to |from|
        invariant Sound(Now()) && Visited(old(Now()), Now(), true, done)
        invariant Then(done, InFrom(from[i..])) == InFrom(from)
      {
        ghost var mid := Now();
        assert from[i..][1..] == from[i + 1..];
        ghost var rest := InFrom(from[i + 1..]);
        assert InFrom(from[i..]) == Then(InItem(from[i]), rest);
        ThenAgain(done, InItem(from[i]), rest);
        ok := VisitTableWithJoins(from[i]);
        VisitThen(old(Now()), mid, Now(), done, InItem(from[i]), ok);
        done := Then(done, InItem(from[i]));
        if !ok {
          VisitFails(old(Now()), Now(), done, rest);
          return;
        }
      }
      assert Then(done, InFrom([])) == done;
      ok := true;
    }

    method VisitTableWithJoins(item: FromItem) returns (ok: bool)
      requires Sound(Now())
      modifies this
      ensures Visited(old(Now()), Now(), ok, InItem(item))
      decreases item, 0
    {
      ok := VisitTableFactor(item.relation);
      if ok {
        ghost var mid := Now();
        ok := VisitJoins(item.joins);
        VisitThen(old(Now()), mid, Now(), InFactor(item.relation), InJoins(item.joins), ok);
      }
    }

    method VisitJoin(j: JoinClause) returns (ok: bool)
      requires Sound(Now())
      modifies this
      ensures Visited(old(Now()), Now(), ok, InJoin(j))
      decreases j, 0
    {
      ok := VisitTableFactor(j.relation);
      if ok {
        ghost var mid := Now();
        ok := VisitExprs(j.on);
        VisitThen(old(Now()), mid, Now(), InFactor(j.relation), InExprs(j.on), ok);
      }
    }

    method VisitJoins(js: seq<JoinClause>) returns (ok: bool)
      requires Sound(Now())
      modifies this
      ensures Visited(old(Now()), Now(), ok, InJoins(js))
      decreases js, 0
    {
      VisitNothing(Now());
      ghost var done := Outcome([], []);
      for i := 0 to |js|
        invariant Sound(Now()) && Visited(old(Now()), Now(), true, done)
        invariant Then(done, InJoins(js[i..])) == InJoins(js)
      {
        ghost var mid := Now();
        assert js[i..][1..] == js[i + 1..];
        ghost var rest := InJoins(js[i + 1..]);
        assert InJoins(js[i..]) == Then(InJoin(js[i]), rest);
        ThenAgain(done, InJoin(js[i]), rest);
        ok := VisitJoin(js[i]);
        VisitThen(old(Now()), mid, Now(), done, InJoin(js[i]), ok);
        done := Then(done, InJoin(js[i]));
        if !ok {
          VisitFails(old(Now()), Now(), done, rest);
          return;
        }
      }
      assert Then(done, InJoins([])) == done;
      ok := true;
    }

    method VisitTableFactor(f: Factor) returns (ok: bool)
      requires Sound(Now())
      modifies this
      ensures Visited(old(Now()), Now(), ok, InFactor(f))
      ensures ok && f.Table? ==>
                forall i :: |old(tables)| <= i < |tables| ==> tables[i].scope == Top(old(scopes))
      ensures ok && f.Derived? ==> InOwnScopes(old(Now()), Now())
      decreases f, 0
    {
      ok := true;
      match f {
        case Table(path, alias, _) =>
          var name := LastName(path);
          if name in registered {
            tables := tables + [TableReference(name, alias, scopes[|scopes| - 1])];
          }
        case Derived(query, _) => ok := VisitScoped(query);
        case Parenthesised(item) => ok := VisitTableWithJoins(item);
        case _ =>
      }
    }

    method VisitExprs(es: seq<Expr>) returns (ok: bool)
      requires Sound(Now())
      modifies this
      ensures Visited(old(Now()), Now(), ok, InExprs(es)) && (ok ==> InOwnScopes(old(Now()), Now()))
      decreases es, 0
    {
      VisitNothing(Now());
      ghost var done := Outcome([], []);
      for i := 0 to |es|
        invariant Sound(Now()) && Visited(old(Now()), Now(), true, done) && InOwnScopes(old(Now()), Now())
        invariant Then(done, InExprs(es[i..])) == InExprs(es)
      {
        ghost var mid := Now();
        assert es[i..][1..] == es[i + 1..];
        ghost var rest := InExprs(es[i + 1..]);
        assert InExprs(es[i..]) == Then(InExpr(es[i]), rest);
        ThenAgain(done, InExpr(es[i]), rest);
        ok := VisitExpr(es[i]);
        VisitThen(old(Now()), mid, Now(), done, InExpr(es[i]), ok);
        if !ok {
          VisitFails(old(Now()), Now(), Then(done, InExpr(es[i])), rest);
          return;
        }
        OwnScopesThen(old(Now()), mid, Now(), done, InExpr(es[i]));
        done := Then(done, InExpr(es[i]));
      }
      assert Then(done, InExprs([])) == done;
      ok := true;
    }

    method VisitExpr(e: Expr) returns (ok: bool)
      requires Sound(Now())
      modifies this
      ensures Visited(old(Now()), Now(), ok, InExpr(e)) && (ok ==> InOwnScopes(old(Now()), Now()))
      decreases e, 0
    {
      match e {
        case Subquery(_, query) => ok := VisitScoped(query);
        case Compound(_, operands) => ok := VisitExprs(operands);
        case Case(operand, arms, otherwise) =>
          ghost var found := InExprs(operand);
          ok := VisitExprs(operand);
          if ok {
            ghost var mid := Now();
            ok := VisitExprs(arms);
            VisitThen(old(Now()), mid, Now(), found, InExprs(arms), ok);
            if ok {
              OwnScopesThen(old(Now()), mid, Now(), found, InExprs(arms));
            }
            found := Then(found, InExprs(arms));
          }
          if ok {
            ghost var mid := Now();
            ok := VisitExprs(otherwise);
            VisitThen(old(Now()), mid, Now(), found, InExprs(otherwise), ok);
            if ok {
              OwnScopesThen(old(Now()), mid, Now(), found, InExprs(otherwise));
            }
          }
        case OtherExpr(_) => ok := true;
      }
    }
  }

  // ---------------------------------------------------------------------------
  // The rewrite
  // ---------------------------------------------------------------------------

  /** A table whose dataset has a replacement becomes a macro call with the same alias. */
  function Replace(ranges: map<string, nat>): Factor -> Factor
  {
    (x: Factor) =>
      if x.Table? && LastName(x.path) in ranges
      then MacroCall(LastName(x.path), ranges[LastName(x.path)], x.alias) else x
  }

  function Datasets(refs: seq<Ref>): set<string> { set i | 0 <= i < |refs| :: refs[i].dataset }

  /** The rewritten query; a query without logical tables is not touched. */
  function Transformed(registered: set<string>, ranges: string -> nat, q: Query): Query
  {
    var refs := Collect(q, All, Registered(registered));
    if refs == [] then q else Map(q, Replace(map d | d in Datasets(refs) :: ranges(d)))
  }

  method Discover(registered: set<string>, q: Query) returns (r: Option<seq<TableReference>>)
    ensures r.None? <==> Collect(q, All, IsModification) != []
    ensures r.Some? ==> RefsOf(r.value) == Collect(q, All, Registered(registered))
  {
    var discovery := new TableDiscovery(registered);
    var ok := discovery.VisitQuery(q);
    if !ok {
      return None;
    }
    assert RefsOf([]) == [];
    r := Some(discovery.tables);
  }

  /** The replacements, one for each dataset, and the datasets in the order of their occurrences. */
  method Replacements(tables: seq<TableReference>, ranges: string -> nat)
    returns (m: map<string, nat>, replaced: seq<string>)
    ensures m == map d | d in Datasets(RefsOf(tables)) :: ranges(d)
    ensures |replaced| == |tables| && forall i :: 0 <= i < |tables| ==> replaced[i] == tables[i].dataset
  {
    m, replaced := map[], [];
    ghost var refs := RefsOf(tables);
    for i := 0 to |tables|
      invariant m == map d | d in Datasets(refs[..i]) :: ranges(d)
      invariant |replaced| == i && forall j :: 0 <= j < i ==> replaced[j] == tables[j].dataset
    {
      OneMore(refs, i);
      m := m[tables[i].dataset := ranges(tables[i].dataset)];
      replaced := replaced + [tables[i].dataset];
    }
    assert refs[..|tables|] == refs;
  }

  method Transform(registered: set<string>, ranges: string -> nat, q: Query) returns (r: Option<(Query, seq<string>)>)
    ensures r.None? <==> Collect(q, All, IsModification) != []
    ensures r.Some? ==> r.value.0 == Transformed(registered, ranges, q)
    ensures r.Some? ==> var refs := Collect(q, All, Registered(registered));
                        r.value.1 == seq(|refs|, i requires 0 <= i < |refs| => refs[i].dataset)
  {
    var found := Discover(registered, q);
    if found.None? {
      return None;
    }
    var tables := found.value;
    ghost var refs := RefsOf(tables);
    if tables == [] {
      assert refs == [];
      return Some((q, []));
    }
    assert refs[0] == RefOf(tables[0]);
    var m, replaced := Replacements(tables, ranges);
    assert forall i :: 0 <= i < |tables| ==> refs[i].dataset == tables[i].dataset;
    return Some((Map(q, Replace(m)), replaced));
  }

  lemma OneMore(refs: seq<Ref>, i: nat)
    requires i < |refs|
    ensures Datasets(refs[..i + 1]) == Datasets(refs[..i]) + {refs[i].dataset}
  {
    forall d | d in Datasets(refs[..i + 1]) ensures d in Datasets(refs[..i]) + {refs[i].dataset} {
      var j :| 0 <= j < i + 1 && refs[..i + 1][j].dataset == d;
      assert j < i ==> refs[..i][j].dataset == d;
    }
    forall d | d in Datasets(refs[..i]) ensures d in Datasets(refs[..i + 1]) {
      var j :| 0 <= j < i && refs[..i][j].dataset == d;
      assert refs[..i + 1][j].dataset == d;
    }
    assert refs[..i + 1][i].dataset == refs[i].dataset;
  }

  // ---------------------------------------------------------------------------
  // Discovery and rewrite agree
  // ---------------------------------------------------------------------------

  /** The macro call at a leaf. */
  function Call(leaf: Leaf): seq<Ref>
  {
    if leaf.Relation? && leaf.factor.MacroCall? then [Ref(leaf.factor.dataset, leaf.factor.alias)] else []
  }

  /** The user's query holds no macro calls. */
  ghost predicate Pristine(q: Query)
  {
    forall leaf :: leaf in Collect(q, Outside, Leaves) ==> !(leaf.Relation? && leaf.factor.MacroCall?)
  }

  lemma {:induction false} PickSame<U>(leaves: seq<Leaf>, a: Leaf -> seq<U>, b: Leaf -> seq<U>)
    requires forall leaf :: leaf in leaves ==> a(leaf) == b(leaf)
    ensures PickAll(leaves, a) == PickAll(leaves, b)
  {
    if leaves != [] {
      PickSame(leaves[1..], a, b);
    }
  }

  lemma {:induction false} PickedFrom<U>(leaves: seq<Leaf>, pick: Leaf -> seq<U>, leaf: Leaf, x: U)
    requires leaf in leaves && x in pick(leaf)
    ensures x in PickAll(leaves, pick)
  {
    if leaf != leaves[0] {
      PickedFrom(leaves[1..], pick, leaf, x);
    }
  }

  /** Outside the arms of CASE, every registered table has a replacement. */
  lemma RegisteredIsReplaced(registered: set<string>, q: Query, leaf: Leaf)
    requires leaf in Collect(q, Outside, Leaves) && leaf.Relation? && leaf.factor.Table?
    ensures LastName(leaf.factor.path) in registered <==>
              LastName(leaf.factor.path) in Datasets(Collect(q, All, Registered(registered)))
  {
    var name, pick := LastName(leaf.factor.path), Registered(registered);
    var refs := Collect(q, All, pick);
    if name in registered {
      CollectsQuery(q, Outside, pick);
      PickedFrom(Collect(q, Outside, Leaves), pick, leaf, Ref(name, leaf.factor.alias));
      CollectsQuery(q, All, pick);
      var i :| 0 <= i < |refs| && refs[i] == Ref(name, leaf.factor.alias);
      assert refs[i].dataset in Datasets(refs);
    }
    if name in Datasets(refs) {
      var i :| 0 <= i < |refs| && refs[i].dataset == name;
      CollectsQuery(q, All, pick);
      OnlyRegistered(Collect(q, All, Leaves), registered, i);
    }
  }

  lemma {:induction false} OnlyRegistered(leaves: seq<Leaf>, registered: set<string>, i: nat)
    requires i < |PickAll(leaves, Registered(registered))|
    ensures PickAll(leaves, Registered(registered))[i].dataset in registered
  {
    var here := Registered(registered)(leaves[0]);
    if i >= |here| {
      OnlyRegistered(leaves[1..], registered, i - |here|);
    }
  }

  /** What Replace does, in terms of registration, at the leaves of the query. */
  lemma ReplacesRegistered(registered: set<string>, ranges: string -> nat, q: Query, leaf: Leaf)
    requires leaf in Collect(q, Outside, Leaves) && leaf.Relation? && !leaf.factor.MacroCall?
    ensures var refs := Collect(q, All, Registered(registered));
            var f := Replace(map d | d in Datasets(refs) :: ranges(d));
            Call(Relation(f(leaf.factor))) == Registered(registered)(leaf)
  {
    if leaf.factor.Table? {
      RegisteredIsReplaced(registered, q, leaf);
    }
  }

  /** The macro calls of the output are the registered tables outside the arms of CASE, in the same order. */
  lemma ReplacedAreFound(registered: set<string>, ranges: string -> nat, q: Query)
    requires Pristine(q)
    ensures Collect(Transformed(registered, ranges, q), Outside, Call) == Collect(q, Outside, Registered(registered))
  {
    var refs := Collect(q, All, Registered(registered));
    var leaves := Collect(q, Outside, Leaves);
    CollectsQuery(q, Outside, Registered(registered));
    if refs == [] {
      CollectsQuery(q, All, Registered(registered));
      CollectsQuery(q, Outside, Call);
      assert Collect(q, Outside, Registered(registered)) == [];
      NoCalls(leaves);
    } else {
      var f := Replace(map d | d in Datasets(refs) :: ranges(d));
      var after := (leaf: Leaf) => if leaf.Relation? then Call(Relation(f(leaf.factor))) else [];
      MapsQuery(q, f, f, Call, after);
      CollectsQuery(q, Outside, after);
      forall leaf | leaf in leaves ensures after(leaf) == Registered(registered)(leaf) {
        if leaf.Relation? {
          ReplacesRegistered(registered, ranges, q, leaf);
        }
      }
      PickSame(leaves, after, Registered(registered));
    }
  }

  lemma {:induction false} PickedSomewhere<U>(leaves: seq<Leaf>, pick: Leaf -> seq<U>, x: U) returns (leaf: Leaf)
    requires x in PickAll(leaves, pick)
    ensures leaf in leaves && x in pick(leaf)
  {
    if x in pick(leaves[0]) {
      leaf := leaves[0];
    } else {
      leaf := PickedSomewhere(leaves[1..], pick, x);
    }
  }

  /** Every macro call of the output carries the range of its dataset. */
  lemma CallsCarryRanges(registered: set<string>, ranges: string -> nat, q: Query, call: Leaf)
    requires Pristine(q) && call in Collect(Transformed(registered, ranges, q), Outside, Leaves)
    requires call.Relation? && call.factor.MacroCall?
    ensures call.factor.range == ranges(call.factor.dataset) && call.factor.dataset in registered
  {
    var refs := Collect(q, All, Registered(registered));
    if refs != [] {
      var leaf := CallComesFrom(q, Replace(map d | d in Datasets(refs) :: ranges(d)), call);
      RegisteredIsReplaced(registered, q, leaf);
    }
  }

  lemma CallComesFrom(q: Query, f: Factor -> Factor, call: Leaf) returns (leaf: Leaf)
    requires Pristine(q) && KeepsLeaves(f) && call in Collect(Map(q, f), Outside, Leaves)
    requires (forall x: Factor :: f(x) == x || x.Table?) && call.Relation? && call.factor.MacroCall?
    ensures leaf in Collect(q, Outside, Leaves) && leaf.Relation? && leaf.factor.Table?
    ensures call.factor == f(leaf.factor)
  {
    var after := (leaf: Leaf) => if leaf.Relation? then [Relation(f(leaf.factor))] else [leaf];
    MapsQuery(q, f, f, Leaves, after);
    CollectsQuery(q, Outside, after);
    leaf := PickedSomewhere(Collect(q, Outside, Leaves), after, call);
  }

  lemma {:induction false} NoCalls(leaves: seq<Leaf>)
    requires forall leaf :: leaf in leaves ==> !(leaf.Relation? && leaf.factor.MacroCall?)
    ensures PickAll(leaves, Call) == []
  {
    if leaves != [] {
      NoCalls(leaves[1..]);
    }
  }

  /**
   The tables that are discovered are the tables that are replaced, in the same order, if and only if no
   registered table occurs in a subquery in a WHEN or THEN arm of a CASE.
   */
  lemma DiscoveryAgreesIff(registered: set<string>, ranges: string -> nat, q: Query)
    requires Pristine(q)
    ensures Collect(q, All, Registered(registered)) == Collect(Transformed(registered, ranges, q), Outside, Call)
            <==> Collect(q, Arms, Registered(registered)) == []
  {
    ReplacedAreFound(registered, ranges, q);
    CollectsQuery(q, All, Registered(registered));
  }

  /** A table in a THEN arm is discovered but left as it is. */
  lemma ArmTableIsKept(name: string, ranges: string -> nat)
    ensures var table := Table([name], None, []);
            var inner := Query([], Select([FromItem(table, [])], [], [OtherExpr(0)], []));
            var outer := Query([], Select([], [], [Case([], [Subquery(0, inner)], [])], []));
            && Collect(outer, All, Registered({name})) == [Ref(name, None)]
            && Transformed({name}, ranges, outer) == outer
  {
    var pick := Registered({name});
    var table := Table([name], None, []);
    var item := FromItem(table, []);
    var inner := Query([], Select([item], [], [OtherExpr(0)], []));
    var arm := Subquery(0, inner);
    var expr := Case([], [arm], []);
    var outer := Query([], Select([], [], [expr], []));
    assert CollectItem(item, All, pick) == [Ref(name, None)];
    assert [item][1..] == [] && [OtherExpr(0)][1..] == [] && [arm][1..] == [] && [expr][1..] == [];
    assert CollectFrom([item], All, pick) == [Ref(name, None)];
    assert CollectExprs([OtherExpr(0)], All, pick) == [];
    assert Collect(inner, All, pick) == [Ref(name, None)];
    assert CollectExprs([arm], All, pick) == [Ref(name, None)];
    assert CollectExprs([expr], All, pick) == [Ref(name, None)];
    assert CollectExpr(expr, Outside, Leaves) == [];
    assert CollectExprs([expr], Outside, Leaves)
           == CollectExpr(expr, Outside, Leaves) + CollectExprs([], Outside, Leaves);
    assert CollectExprs([expr], Outside, Leaves) == [];
    var none: seq<FromItem> := [];
    assert outer.body == Select(none, [], [expr], []) && CollectFrom(none, Outside, Leaves) == [];
    assert CollectBody(outer.body, Outside, Leaves) == [];
    assert Collect(outer, Outside, Leaves) == [];
    var f := Replace(map d | d in Datasets([Ref(name, None)]) :: ranges(d));
    MapsQuery(outer, f, f, Nothing, Nothing);
  }

  // ---------------------------------------------------------------------------
  // Erasing the macro calls
  // ---------------------------------------------------------------------------

  function Nothing(leaf: Leaf): seq<Leaf> { [] }

  function EraseCall(x: Factor): Factor { if x.MacroCall? then Table([x.dataset], x.alias, []) else x }

  /** A registered table is written as a name only: without a schema and with nothing attached. */
  predicate NameOnly(registered: set<string>, x: Factor)
  {
    x.Table? && LastName(x.path) in registered ==> |x.path| == 1 && x.extras == []
  }

  ghost predicate NamesOnly(registered: set<string>, q: Query)
  {
    forall leaf :: leaf in Collect(q, Outside, Leaves) && leaf.Relation? ==> NameOnly(registered, leaf.factor)
  }

  lemma ErasedLeaf(registered: set<string>, ranges: string -> nat, q: Query, leaf: Leaf)
    requires leaf in Collect(q, Outside, Leaves) && leaf.Relation? && !leaf.factor.MacroCall?
    ensures var refs := Collect(q, All, Registered(registered));
            var f := Replace(map d | d in Datasets(refs) :: ranges(d));
            EraseCall(f(leaf.factor)) == leaf.factor <==> NameOnly(registered, leaf.factor)
  {
    if leaf.factor.Table? {
      RegisteredIsReplaced(registered, q, leaf);
      var path := leaf.factor.path;
      assert |path| == 1 ==> path == [LastName(path)];
    }
  }

  /**
   Erasing the macro calls from the output gives the original query back, unchanged everywhere, if and only if
   no replaced table was written with a schema or had anything attached.
   */
  lemma ErasureRestoresIff(registered: set<string>, ranges: string -> nat, q: Query)
    requires Pristine(q)
    ensures Map(Transformed(registered, ranges, q), EraseCall) == q <==> NamesOnly(registered, q)
  {
    var refs := Collect(q, All, Registered(registered));
    var leaves := Collect(q, Outside, Leaves);
    var f := Replace(map d | d in Datasets(refs) :: ranges(d));
    MapsQuery(q, f, EraseCall, Nothing, Nothing);
    forall leaf | leaf in leaves && leaf.Relation?
      ensures EraseCall(f(leaf.factor)) == leaf.factor <==> NameOnly(registered, leaf.factor)
    {
      ErasedLeaf(registered, ranges, q, leaf);
    }
    if refs == [] {
      assert Datasets(refs) == {};
      MapsQuery(q, f, f, Nothing, Nothing);
    }
  }

  /** `SELECT ... FROM schema.dataset`: the schema cannot be restored from the macro call. */
  lemma SchemaIsLost(schema: string, dataset: string, ranges: string -> nat)
    ensures var q := Query([], Select([FromItem(Table([schema, dataset], None, []), [])], [], [OtherExpr(0)], []));
            Map(Transformed({dataset}, ranges, q), EraseCall) != q
  {
    var table := Table([schema, dataset], None, []);
    var item := FromItem(table, []);
    var body := Select([item], [], [OtherExpr(0)], []);
    var q := Query([], body);
    assert [item][1..] == [] && [OtherExpr(0)][1..] == [];
    assert CollectItem(item, Outside, Leaves) == [Relation(table)];
    assert CollectFrom([item], Outside, Leaves) == [Relation(table)];
    assert CollectExprs([OtherExpr(0)], Outside, Leaves) == [];
    assert CollectBody(body, Outside, Leaves) == [Relation(table)];
    assert Collect(q, Outside, Leaves) == [Relation(table)];
    assert Relation(table) in Collect(q, Outside, Leaves) && !NameOnly({dataset}, table);
    ErasureRestoresIff({dataset}, ranges, q);
  }
}
