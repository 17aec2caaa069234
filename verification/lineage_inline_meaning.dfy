/** Inlining CTE references does not change what a query computes. */
module InlinedMeaning {
  import opened Common
  import opened LineageAst
  import opened ResolveRules
  import opened CteInlining
  import opened QueryMeaning

  /** A query evaluable through `k` levels of CTE references has the same result inlined, without any CTE reference. */
  lemma {:induction false} QueryMeans(engine: Engine, db: Database, query: Query, parent: CteMap, k: nat, fuel: nat)
    requires EvalQuery(engine, db, query, parent, k).Some?
    ensures EvalQuery(engine, db, InlineQuery(query, parent, k), map[], fuel) == EvalQuery(engine, db, query, parent, k)
    decreases k, query, 1
  {
    BodyMeans(engine, db, query.body, WithCtes(parent, query.withs), k, fuel);
  }

  lemma {:induction false} BodyMeans(engine: Engine, db: Database, body: SetExpr, ctes: CteMap, k: nat, fuel: nat)
    requires EvalSetExpr(engine, db, body, ctes, k).Some?
    ensures EvalSetExpr(engine, db, InlineSetExpr(body, ctes, k), map[], fuel) == EvalSetExpr(engine, db, body, ctes, k)
    decreases k, body, 1
  {
    match body
    case Select(projection, from) =>
      FromMeans(engine, db, from, [], ctes, k, fuel);
      var scope := BindFrom(engine, db, from, [], ctes, k).value;
      ItemsMean(engine, db, projection, scope, Product(Counts(scope)), ctes, k, fuel, []);
    case Nested(query) => QueryMeans(engine, db, query, ctes, k, fuel);
    case SetOperation(_, left, right) =>
      BodyMeans(engine, db, left, ctes, k, fuel);
      BodyMeans(engine, db, right, ctes, k, fuel);
    case Values(rows) => RowsMean(engine, db, rows, ctes, k, fuel, ResultSet(0, []));
    case OtherBody =>
  }

  lemma {:induction false} RowsMean(engine: Engine, db: Database, rows: seq<Row>, ctes: CteMap, k: nat, fuel: nat,
                                    acc: ResultSet)
    requires EvalRows(engine, db, rows, ctes, k, acc).Some?
    ensures EvalRows(engine, db, InlineRows(rows, ctes, k), map[], fuel, acc)
            == EvalRows(engine, db, rows, ctes, k, acc)
    decreases k, rows, 1
  {
    if rows != [] {
      CellsMean(engine, db, rows[0].content, ctes, k, fuel);
      RowsMean(engine, db, rows[1..], ctes, k, fuel,
               AppendRow(acc, EvalCells(engine, db, rows[0].content, ctes, k).value));
      assert InlineRows(rows, ctes, k)[1..] == InlineRows(rows[1..], ctes, k);
    }
  }

  lemma {:induction false} CellsMean(engine: Engine, db: Database, cells: seq<Expr>, ctes: CteMap, k: nat, fuel: nat)
    requires EvalCells(engine, db, cells, ctes, k).Some?
    ensures EvalCells(engine, db, InlineExprs(cells, ctes, k), map[], fuel) == EvalCells(engine, db, cells, ctes, k)
    decreases k, cells, 1
  {
    if cells != [] {
      ExprMeans(engine, db, cells[0], [], [[]], ctes, k, fuel);
      CellsMean(engine, db, cells[1..], ctes, k, fuel);
      assert InlineExprs(cells, ctes, k)[1..] == InlineExprs(cells[1..], ctes, k);
    }
  }

  lemma {:induction false} ItemsMean(engine: Engine, db: Database, items: seq<SelectItem>, scope: seq<Bound>,
                                     joined: seq<seq<nat>>, ctes: CteMap, k: nat, fuel: nat, cols: seq<Column>)
    requires EvalItems(engine, db, items, scope, joined, ctes, k, cols).Some?
    ensures EvalItems(engine, db, InlineItems(items, ctes, k), scope, joined, map[], fuel, cols)
            == EvalItems(engine, db, items, scope, joined, ctes, k, cols)
    decreases k, items, 1
  {
    if items != [] {
      ItemMeans(engine, db, items[0], scope, joined, ctes, k, fuel);
      ItemsMean(engine, db, items[1..], scope, joined, ctes, k, fuel,
                cols + EvalItem(engine, db, items[0], scope, joined, ctes, k).value);
      assert InlineItems(items, ctes, k)[1..] == InlineItems(items[1..], ctes, k);
    }
  }

  lemma {:induction false} ItemMeans(engine: Engine, db: Database, item: SelectItem, scope: seq<Bound>,
                                     joined: seq<seq<nat>>, ctes: CteMap, k: nat, fuel: nat)
    requires EvalItem(engine, db, item, scope, joined, ctes, k).Some?
    ensures EvalItem(engine, db, InlineItem(item, ctes, k), scope, joined, map[], fuel)
            == EvalItem(engine, db, item, scope, joined, ctes, k)
    decreases k, item, 1
  {
    match item
    case UnnamedExpr(expr) => ExprMeans(engine, db, expr, scope, joined, ctes, k, fuel);
    case ExprWithAlias(expr, _) => ExprMeans(engine, db, expr, scope, joined, ctes, k, fuel);
    case ExprWithAliases(expr, _) => ExprMeans(engine, db, expr, scope, joined, ctes, k, fuel);
    case _ =>
  }

  lemma {:induction false} FromMeans(engine: Engine, db: Database, from: seq<TableWithJoins>, scope: seq<Bound>,
                                     ctes: CteMap, k: nat, fuel: nat)
    requires BindFrom(engine, db, from, scope, ctes, k).Some?
    ensures BindFrom(engine, db, InlineFrom(from, ctes, k), scope, map[], fuel)
            == BindFrom(engine, db, from, scope, ctes, k)
    decreases k, from, 1
  {
    if from != [] {
      TablesMean(engine, db, from[0], scope, ctes, k, fuel);
      FromMeans(engine, db, from[1..], BindTables(engine, db, from[0], scope, ctes, k).value, ctes, k, fuel);
      assert InlineFrom(from, ctes, k)[1..] == InlineFrom(from[1..], ctes, k);
    }
  }

  lemma {:induction false} TablesMean(engine: Engine, db: Database, tables: TableWithJoins, scope: seq<Bound>,
                                      ctes: CteMap, k: nat, fuel: nat)
    requires BindTables(engine, db, tables, scope, ctes, k).Some?
    ensures BindTables(engine, db, InlineTables(tables, ctes, k), scope, map[], fuel)
            == BindTables(engine, db, tables, scope, ctes, k)
    decreases k, tables, 1
  {
    FactorMeans(engine, db, tables.relation, scope, ctes, k, fuel);
    FactorsMean(engine, db, tables.joins, BindFactor(engine, db, tables.relation, scope, ctes, k).value, ctes, k, fuel);
  }

  lemma {:induction false} FactorsMean(engine: Engine, db: Database, factors: seq<TableFactor>, scope: seq<Bound>,
                                       ctes: CteMap, k: nat, fuel: nat)
    requires BindFactors(engine, db, factors, scope, ctes, k).Some?
    ensures BindFactors(engine, db, InlineFactors(factors, ctes, k), scope, map[], fuel)
            == BindFactors(engine, db, factors, scope, ctes, k)
    decreases k, factors, 1
  {
    if factors != [] {
      FactorMeans(engine, db, factors[0], scope, ctes, k, fuel);
      FactorsMean(engine, db, factors[1..], BindFactor(engine, db, factors[0], scope, ctes, k).value, ctes, k, fuel);
      assert InlineFactors(factors, ctes, k)[1..] == InlineFactors(factors[1..], ctes, k);
    }
  }

  lemma {:induction false} FactorMeans(engine: Engine, db: Database, factor: TableFactor, scope: seq<Bound>,
                                       ctes: CteMap, k: nat, fuel: nat)
    requires BindFactor(engine, db, factor, scope, ctes, k).Some?
    ensures BindFactor(engine, db, InlineFactor(factor, ctes, k), scope, map[], fuel)
            == BindFactor(engine, db, factor, scope, ctes, k)
    decreases k, factor, 1
  {
    match factor
    case Table(name, _) =>
      var folded := Fold(LastIdent(name));
      if folded in ctes {
        QueryMeans(engine, db, ctes[folded], ctes, k - 1, fuel);
      }
    case Derived(subquery, _) => QueryMeans(engine, db, subquery, ctes, k, fuel);
    case NestedJoin(tables) => TablesMean(engine, db, tables, scope, ctes, k, fuel);
    case OtherFactor =>
  }

  lemma {:induction false} ExprMeans(engine: Engine, db: Database, expr: Expr, scope: seq<Bound>, joined: seq<seq<nat>>,
                                     ctes: CteMap, k: nat, fuel: nat)
    requires EvalExpr(engine, db, expr, scope, joined, ctes, k).Some?
    ensures EvalExpr(engine, db, InlineExpr(expr, ctes, k), scope, joined, map[], fuel)
            == EvalExpr(engine, db, expr, scope, joined, ctes, k)
    decreases k, expr, 1
  {
    match expr
    case Subquery(query) => QueryMeans(engine, db, query, ctes, k, fuel);
    case Apply(_, args) => ExprsMean(engine, db, args, scope, joined, ctes, k, fuel);
    case _ =>
  }

  lemma {:induction false} ExprsMean(engine: Engine, db: Database, exprs: seq<Expr>, scope: seq<Bound>,
                                     joined: seq<seq<nat>>, ctes: CteMap, k: nat, fuel: nat)
    requires EvalExprs(engine, db, exprs, scope, joined, ctes, k).Some?
    ensures EvalExprs(engine, db, InlineExprs(exprs, ctes, k), scope, joined, map[], fuel)
            == EvalExprs(engine, db, exprs, scope, joined, ctes, k)
    decreases k, exprs, 1
  {
    if exprs != [] {
      ExprMeans(engine, db, exprs[0], scope, joined, ctes, k, fuel);
      ExprsMean(engine, db, exprs[1..], scope, joined, ctes, k, fuel);
      assert InlineExprs(exprs, ctes, k)[1..] == InlineExprs(exprs[1..], ctes, k);
    }
  }
}
