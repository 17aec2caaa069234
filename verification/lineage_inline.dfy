/** A CTE reference means the same as a derived table with the CTE's body and the visible name. */
module CteInlining {
  import opened Common
  import opened LineageAst
  import opened ScopeRules
  import opened ResolveRules

  /** Replaces CTE references by derived tables, through at most `k` levels of CTEs, and drops every `WITH`. */
  function InlineQuery(query: Query, parent: CteMap, k: nat): (r: Query)
    ensures FreeQuery(r)
    decreases k, query, 1
  {
    Query([], InlineSetExpr(query.body, WithCtes(parent, query.withs), k))
  }

  function InlineSetExpr(body: SetExpr, ctes: CteMap, k: nat): (r: SetExpr)
    ensures FreeBody(r)
    decreases k, body, 1
  {
    match body
    case Select(projection, from) => Select(InlineItems(projection, ctes, k), InlineFrom(from, ctes, k))
    case Nested(query) => Nested(InlineQuery(query, ctes, k))
    case SetOperation(op, left, right) =>
      SetOperation(op, InlineSetExpr(left, ctes, k), InlineSetExpr(right, ctes, k))
    case Values(rows) => Values(InlineRows(rows, ctes, k))
    case OtherBody => OtherBody
  }

  function InlineRows(rows: seq<Row>, ctes: CteMap, k: nat): (r: seq<Row>)
    ensures forall i | 0 <= i < |r| :: FreeRow(r[i])
    decreases k, rows, 1
  {
    if rows == [] then [] else [Row(InlineExprs(rows[0].content, ctes, k))] + InlineRows(rows[1..], ctes, k)
  }

  function InlineItems(items: seq<SelectItem>, ctes: CteMap, k: nat): (r: seq<SelectItem>)
    ensures forall i | 0 <= i < |r| :: FreeItem(r[i])
    decreases k, items, 1
  {
    if items == [] then [] else [InlineItem(items[0], ctes, k)] + InlineItems(items[1..], ctes, k)
  }

  function InlineItem(item: SelectItem, ctes: CteMap, k: nat): (r: SelectItem)
    ensures FreeItem(r)
    decreases k, item, 1
  {
    match item
    case UnnamedExpr(expr) => UnnamedExpr(InlineExpr(expr, ctes, k))
    case ExprWithAlias(expr, alias) => ExprWithAlias(InlineExpr(expr, ctes, k), alias)
    case ExprWithAliases(expr, aliases) => ExprWithAliases(InlineExpr(expr, ctes, k), aliases)
    case _ => item
  }

  function InlineFrom(from: seq<TableWithJoins>, ctes: CteMap, k: nat): (r: seq<TableWithJoins>)
    ensures forall i | 0 <= i < |r| :: FreeTables(r[i])
    decreases k, from, 1
  {
    if from == [] then [] else [InlineTables(from[0], ctes, k)] + InlineFrom(from[1..], ctes, k)
  }

  function InlineTables(tables: TableWithJoins, ctes: CteMap, k: nat): (r: TableWithJoins)
    ensures FreeTables(r)
    decreases k, tables, 1
  {
    TableWithJoins(InlineFactor(tables.relation, ctes, k), InlineFactors(tables.joins, ctes, k))
  }

  function InlineFactors(factors: seq<TableFactor>, ctes: CteMap, k: nat): (r: seq<TableFactor>)
    ensures forall i | 0 <= i < |r| :: FreeFactor(r[i])
    decreases k, factors, 1
  {
    if factors == [] then [] else [InlineFactor(factors[0], ctes, k)] + InlineFactors(factors[1..], ctes, k)
  }

  function InlineFactor(factor: TableFactor, ctes: CteMap, k: nat): (r: TableFactor)
    ensures FreeFactor(r)
    decreases k, factor, 1
  {
    match factor
    case Table(name, alias) =>
      var folded := Fold(LastIdent(name));
      if folded in ctes && k > 0 then
        Derived(InlineQuery(ctes[folded], ctes, k - 1), Some(VisibleName(name, alias)))
      else factor
    case Derived(subquery, alias) => Derived(InlineQuery(subquery, ctes, k), alias)
    case NestedJoin(tables) => NestedJoin(InlineTables(tables, ctes, k))
    case OtherFactor => factor
  }

  function InlineExpr(expr: Expr, ctes: CteMap, k: nat): (r: Expr)
    ensures FreeExpr(r)
    decreases k, expr, 1
  {
    match expr
    case Subquery(query) => Subquery(InlineQuery(query, ctes, k))
    case Apply(op, args) => Apply(op, InlineExprs(args, ctes, k))
    case _ => expr
  }

  function InlineExprs(exprs: seq<Expr>, ctes: CteMap, k: nat): (r: seq<Expr>)
    ensures forall i | 0 <= i < |r| :: FreeExpr(r[i])
    decreases k, exprs, 1
  {
    if exprs == [] then [] else [InlineExpr(exprs[0], ctes, k)] + InlineExprs(exprs[1..], ctes, k)
  }

  // A query without any `WITH`, down to its subqueries.

  predicate FreeQuery(query: Query)
    decreases query
  {
    query.withs == [] && FreeBody(query.body)
  }

  predicate FreeBody(body: SetExpr)
    decreases body
  {
    match body
    case Select(projection, from) =>
      && (forall i | 0 <= i < |projection| :: FreeItem(projection[i]))
      && (forall i | 0 <= i < |from| :: FreeTables(from[i]))
    case Nested(query) => FreeQuery(query)
    case SetOperation(_, left, right) => FreeBody(left) && FreeBody(right)
    case Values(rows) => forall i | 0 <= i < |rows| :: FreeRow(rows[i])
    case OtherBody => true
  }

  predicate FreeRow(row: Row)
    decreases row
  {
    forall i | 0 <= i < |row.content| :: FreeExpr(row.content[i])
  }

  predicate FreeItem(item: SelectItem)
    decreases item
  {
    item.UnnamedExpr? || item.ExprWithAlias? || item.ExprWithAliases? ==> FreeExpr(item.expr)
  }

  predicate FreeTables(tables: TableWithJoins)
    decreases tables
  {
    FreeFactor(tables.relation) && forall i | 0 <= i < |tables.joins| :: FreeFactor(tables.joins[i])
  }

  predicate FreeFactor(factor: TableFactor)
    decreases factor
  {
    match factor
    case Derived(subquery, _) => FreeQuery(subquery)
    case NestedJoin(tables) => FreeTables(tables)
    case _ => true
  }

  predicate FreeExpr(expr: Expr)
    decreases expr
  {
    match expr
    case Subquery(query) => FreeQuery(query)
    case Apply(_, args) => forall i | 0 <= i < |args| :: FreeExpr(args[i])
    case _ => true
  }

  /** A query that resolves resolves to the same columns once inlined, with no CTE left in the environment. */
  lemma {:induction false} QueryInlines(query: Query, parent: CteMap, active: set<string>, depth: nat, k: nat)
    requires ResolveQuery(query, parent, active, depth).Ok? && k >= Remaining(depth)
    ensures ResolveQuery(InlineQuery(query, parent, k), map[], {}, depth) == ResolveQuery(query, parent, active, depth)
    decreases Remaining(depth), query, 1
  {
    SetExprInlines(query.body, WithCtes(parent, query.withs), active, depth, k);
  }

  lemma {:induction false} SetExprInlines(body: SetExpr, ctes: CteMap, active: set<string>, depth: nat, k: nat)
    requires depth <= MAX_DEPTH && k >= Remaining(depth) && ResolveSetExpr(body, ctes, active, depth).Ok?
    ensures ResolveSetExpr(InlineSetExpr(body, ctes, k), map[], {}, depth) == ResolveSetExpr(body, ctes, active, depth)
    decreases Remaining(depth), body, 1
  {
    match body
    case Select(projection, from) =>
      FromInlines(from, [], ctes, active, depth, k);
      ItemsInline(projection, BuildScope(from, [], ctes, active, depth).value, ctes, active, depth, k, []);
    case Nested(query) => QueryInlines(query, ctes, active, depth + 1, k);
    case SetOperation(_, left, right) =>
      SetExprInlines(left, ctes, active, depth, k);
      SetExprInlines(right, ctes, active, depth, k);
    case Values(rows) => RowsInline(rows, ctes, active, depth, k, []);
    case OtherBody =>
  }

  lemma {:induction false} RowsInline(rows: seq<Row>, ctes: CteMap, active: set<string>, depth: nat, k: nat,
                                      out: Columns)
    requires depth <= MAX_DEPTH && k >= Remaining(depth) && ResolveRows(rows, ctes, active, depth, out).Ok?
    ensures ResolveRows(InlineRows(rows, ctes, k), map[], {}, depth, out) == ResolveRows(rows, ctes, active, depth, out)
    decreases Remaining(depth), rows, 1
  {
    if rows != [] {
      CellsInline(rows[0].content, ctes, active, depth, k, 0, out);
      RowsInline(rows[1..], ctes, active, depth, k, ResolveCells(rows[0].content, ctes, active, depth, 0, out).value);
      assert InlineRows(rows, ctes, k)[1..] == InlineRows(rows[1..], ctes, k);
    }
  }

  lemma {:induction false} CellsInline(cells: seq<Expr>, ctes: CteMap, active: set<string>, depth: nat, k: nat, i: nat,
                                       out: Columns)
    requires depth <= MAX_DEPTH && k >= Remaining(depth) && ResolveCells(cells, ctes, active, depth, i, out).Ok?
    ensures ResolveCells(InlineExprs(cells, ctes, k), map[], {}, depth, i, out)
            == ResolveCells(cells, ctes, active, depth, i, out)
    decreases Remaining(depth), cells, 1
  {
    if cells != [] {
      ExprInlines(cells[0], [], ctes, active, depth, k);
      var sources := CollectSources(cells[0], [], ctes, active, depth).value;
      var next := if i < |out| then out[i := out[i].(sources := out[i].sources + sources)]
                  else Push(out, None, sources);
      CellsInline(cells[1..], ctes, active, depth, k, i + 1, next);
      assert InlineExprs(cells, ctes, k)[1..] == InlineExprs(cells[1..], ctes, k);
    }
  }

  lemma {:induction false} ItemsInline(items: seq<SelectItem>, scope: seq<Relation>, ctes: CteMap, active: set<string>,
                                       depth: nat, k: nat, out: Columns)
    requires depth <= MAX_DEPTH && k >= Remaining(depth) && ResolveItems(items, scope, ctes, active, depth, out).Ok?
    ensures ResolveItems(InlineItems(items, ctes, k), scope, map[], {}, depth, out)
            == ResolveItems(items, scope, ctes, active, depth, out)
    decreases Remaining(depth), items, 1
  {
    if items != [] {
      ItemInlines(items[0], scope, ctes, active, depth, k, out);
      ItemsInline(items[1..], scope, ctes, active, depth, k,
                  ResolveItem(items[0], scope, ctes, active, depth, out).value);
      assert InlineItems(items, ctes, k)[1..] == InlineItems(items[1..], ctes, k);
    }
  }

  lemma {:induction false} ItemInlines(item: SelectItem, scope: seq<Relation>, ctes: CteMap, active: set<string>,
                                       depth: nat, k: nat, out: Columns)
    requires depth <= MAX_DEPTH && k >= Remaining(depth) && ResolveItem(item, scope, ctes, active, depth, out).Ok?
    ensures ResolveItem(InlineItem(item, ctes, k), scope, map[], {}, depth, out)
            == ResolveItem(item, scope, ctes, active, depth, out)
    decreases Remaining(depth), item, 1
  {
    match item
    case UnnamedExpr(expr) => ExprInlines(expr, scope, ctes, active, depth, k);
    case ExprWithAlias(expr, _) => ExprInlines(expr, scope, ctes, active, depth, k);
    case ExprWithAliases(expr, _) => ExprInlines(expr, scope, ctes, active, depth, k);
    case _ =>
  }

  lemma {:induction false} FromInlines(from: seq<TableWithJoins>, scope: seq<Relation>, ctes: CteMap,
                                       active: set<string>, depth: nat, k: nat)
    requires depth <= MAX_DEPTH && k >= Remaining(depth) && BuildScope(from, scope, ctes, active, depth).Ok?
    ensures BuildScope(InlineFrom(from, ctes, k), scope, map[], {}, depth)
            == BuildScope(from, scope, ctes, active, depth)
    decreases Remaining(depth), from, 1
  {
    if from != [] {
      TablesInline(from[0], scope, ctes, active, depth, k);
      FromInlines(from[1..], AddTableWithJoins(from[0], scope, ctes, active, depth).value, ctes, active, depth, k);
      assert InlineFrom(from, ctes, k)[1..] == InlineFrom(from[1..], ctes, k);
    }
  }

  lemma {:induction false} TablesInline(tables: TableWithJoins, scope: seq<Relation>, ctes: CteMap, active: set<string>,
                                        depth: nat, k: nat)
    requires depth <= MAX_DEPTH && k >= Remaining(depth) && AddTableWithJoins(tables, scope, ctes, active, depth).Ok?
    ensures AddTableWithJoins(InlineTables(tables, ctes, k), scope, map[], {}, depth)
            == AddTableWithJoins(tables, scope, ctes, active, depth)
    decreases Remaining(depth), tables, 1
  {
    FactorInlines(tables.relation, scope, ctes, active, depth, k);
    FactorsInline(tables.joins, AddTableFactor(tables.relation, scope, ctes, active, depth).value, ctes, active, depth,
                  k);
  }

  lemma {:induction false} FactorsInline(factors: seq<TableFactor>, scope: seq<Relation>, ctes: CteMap,
                                         active: set<string>, depth: nat, k: nat)
    requires depth <= MAX_DEPTH && k >= Remaining(depth) && AddTableFactors(factors, scope, ctes, active, depth).Ok?
    ensures AddTableFactors(InlineFactors(factors, ctes, k), scope, map[], {}, depth)
            == AddTableFactors(factors, scope, ctes, active, depth)
    decreases Remaining(depth), factors, 1
  {
    if factors != [] {
      FactorInlines(factors[0], scope, ctes, active, depth, k);
      FactorsInline(factors[1..], AddTableFactor(factors[0], scope, ctes, active, depth).value, ctes, active, depth, k);
      assert InlineFactors(factors, ctes, k)[1..] == InlineFactors(factors[1..], ctes, k);
    }
  }

  lemma {:induction false} FactorInlines(factor: TableFactor, scope: seq<Relation>, ctes: CteMap, active: set<string>,
                                         depth: nat, k: nat)
    requires depth <= MAX_DEPTH && k >= Remaining(depth) && AddTableFactor(factor, scope, ctes, active, depth).Ok?
    ensures AddTableFactor(InlineFactor(factor, ctes, k), scope, map[], {}, depth)
            == AddTableFactor(factor, scope, ctes, active, depth)
    decreases Remaining(depth), factor, 1
  {
    match factor
    case Table(name, _) =>
      var folded := Fold(LastIdent(name));
      if folded in ctes {
        QueryInlines(ctes[folded], ctes, active + {folded}, depth + 1, k - 1);
      }
    case Derived(subquery, _) => QueryInlines(subquery, ctes, active, depth + 1, k);
    case NestedJoin(tables) => TablesInline(tables, scope, ctes, active, depth, k);
    case OtherFactor =>
  }

  lemma {:induction false} ExprInlines(expr: Expr, scope: seq<Relation>, ctes: CteMap, active: set<string>, depth: nat,
                                       k: nat)
    requires depth <= MAX_DEPTH && k >= Remaining(depth) && CollectSources(expr, scope, ctes, active, depth).Ok?
    ensures CollectSources(InlineExpr(expr, ctes, k), scope, map[], {}, depth)
            == CollectSources(expr, scope, ctes, active, depth)
    decreases Remaining(depth), expr, 1
  {
    match expr
    case Subquery(query) => QueryInlines(query, ctes, active, depth + 1, k);
    case Apply(_, args) => ExprsInline(args, scope, ctes, active, depth, k);
    case _ =>
  }

  lemma {:induction false} ExprsInline(exprs: seq<Expr>, scope: seq<Relation>, ctes: CteMap, active: set<string>,
                                       depth: nat, k: nat)
    requires depth <= MAX_DEPTH && k >= Remaining(depth) && CollectAll(exprs, scope, ctes, active, depth).Ok?
    ensures CollectAll(InlineExprs(exprs, ctes, k), scope, map[], {}, depth)
            == CollectAll(exprs, scope, ctes, active, depth)
    decreases Remaining(depth), exprs, 1
  {
    if exprs != [] {
      ExprInlines(exprs[0], scope, ctes, active, depth, k);
      ExprsInline(exprs[1..], scope, ctes, active, depth, k);
      assert InlineExprs(exprs, ctes, k)[1..] == InlineExprs(exprs[1..], ctes, k);
    }
  }
}
