/** The depth limit and the active-CTE set only ever turn success into failure. */
module ResolveGuards {
  import opened Common
  import opened LineageAst
  import opened ScopeRules
  import opened ResolveRules

  /** Two states of the guards, the second one no stricter. */
  datatype Guards = Guards(active: set<string>, depth: nat, active': set<string>, depth': nat) {
    ghost predicate Looser() {
      active' <= active && depth' <= depth <= MAX_DEPTH
    }

    function Deeper(): Guards {
      Guards(active, depth + 1, active', depth' + 1)
    }

    function Entering(name: string): Guards {
      Guards(active + {name}, depth + 1, active' + {name}, depth' + 1)
    }
  }

  /** A query that resolves at some depth under some active names resolves alike higher up under fewer. */
  lemma {:induction false} QueryGuards(query: Query, parent: CteMap, g: Guards)
    requires g.active' <= g.active && g.depth' <= g.depth
    requires ResolveQuery(query, parent, g.active, g.depth).Ok?
    ensures ResolveQuery(query, parent, g.active', g.depth') == ResolveQuery(query, parent, g.active, g.depth)
    decreases Remaining(g.depth), query, 1
  {
    SetExprGuards(query.body, WithCtes(parent, query.withs), g);
  }

  lemma {:induction false} SetExprGuards(body: SetExpr, ctes: CteMap, g: Guards)
    requires g.Looser() && ResolveSetExpr(body, ctes, g.active, g.depth).Ok?
    ensures ResolveSetExpr(body, ctes, g.active', g.depth') == ResolveSetExpr(body, ctes, g.active, g.depth)
    decreases Remaining(g.depth), body, 1
  {
    match body
    case Select(projection, from) =>
      FromGuards(from, [], ctes, g);
      ItemsGuards(projection, BuildScope(from, [], ctes, g.active, g.depth).value, ctes, g, []);
    case Nested(query) => QueryGuards(query, ctes, g.Deeper());
    case SetOperation(_, left, right) =>
      SetExprGuards(left, ctes, g);
      SetExprGuards(right, ctes, g);
    case Values(rows) => RowsGuards(rows, ctes, g, []);
    case OtherBody =>
  }

  lemma {:induction false} RowsGuards(rows: seq<Row>, ctes: CteMap, g: Guards, out: Columns)
    requires g.Looser() && ResolveRows(rows, ctes, g.active, g.depth, out).Ok?
    ensures ResolveRows(rows, ctes, g.active', g.depth', out) == ResolveRows(rows, ctes, g.active, g.depth, out)
    decreases Remaining(g.depth), rows, 1
  {
    if rows != [] {
      CellsGuards(rows[0].content, ctes, g, 0, out);
      RowsGuards(rows[1..], ctes, g, ResolveCells(rows[0].content, ctes, g.active, g.depth, 0, out).value);
    }
  }

  lemma {:induction false} CellsGuards(cells: seq<Expr>, ctes: CteMap, g: Guards, i: nat, out: Columns)
    requires g.Looser() && ResolveCells(cells, ctes, g.active, g.depth, i, out).Ok?
    ensures ResolveCells(cells, ctes, g.active', g.depth', i, out)
            == ResolveCells(cells, ctes, g.active, g.depth, i, out)
    decreases Remaining(g.depth), cells, 1
  {
    if cells != [] {
      ExprGuards(cells[0], [], ctes, g);
      var sources := CollectSources(cells[0], [], ctes, g.active, g.depth).value;
      var next := if i < |out| then out[i := out[i].(sources := out[i].sources + sources)]
                  else Push(out, None, sources);
      CellsGuards(cells[1..], ctes, g, i + 1, next);
    }
  }

  lemma {:induction false} ItemsGuards(items: seq<SelectItem>, scope: seq<Relation>, ctes: CteMap, g: Guards,
                                       out: Columns)
    requires g.Looser() && ResolveItems(items, scope, ctes, g.active, g.depth, out).Ok?
    ensures ResolveItems(items, scope, ctes, g.active', g.depth', out)
            == ResolveItems(items, scope, ctes, g.active, g.depth, out)
    decreases Remaining(g.depth), items, 1
  {
    if items != [] {
      ItemGuards(items[0], scope, ctes, g, out);
      ItemsGuards(items[1..], scope, ctes, g, ResolveItem(items[0], scope, ctes, g.active, g.depth, out).value);
    }
  }

  lemma {:induction false} ItemGuards(item: SelectItem, scope: seq<Relation>, ctes: CteMap, g: Guards, out: Columns)
    requires g.Looser() && ResolveItem(item, scope, ctes, g.active, g.depth, out).Ok?
    ensures ResolveItem(item, scope, ctes, g.active', g.depth', out)
            == ResolveItem(item, scope, ctes, g.active, g.depth, out)
    decreases Remaining(g.depth), item, 1
  {
    match item
    case UnnamedExpr(expr) => ExprGuards(expr, scope, ctes, g);
    case ExprWithAlias(expr, _) => ExprGuards(expr, scope, ctes, g);
    case ExprWithAliases(expr, _) => ExprGuards(expr, scope, ctes, g);
    case _ =>
  }

  lemma {:induction false} FromGuards(from: seq<TableWithJoins>, scope: seq<Relation>, ctes: CteMap, g: Guards)
    requires g.Looser() && BuildScope(from, scope, ctes, g.active, g.depth).Ok?
    ensures BuildScope(from, scope, ctes, g.active', g.depth') == BuildScope(from, scope, ctes, g.active, g.depth)
    decreases Remaining(g.depth), from, 1
  {
    if from != [] {
      TablesGuards(from[0], scope, ctes, g);
      FromGuards(from[1..], AddTableWithJoins(from[0], scope, ctes, g.active, g.depth).value, ctes, g);
    }
  }

  lemma {:induction false} TablesGuards(tables: TableWithJoins, scope: seq<Relation>, ctes: CteMap, g: Guards)
    requires g.Looser() && AddTableWithJoins(tables, scope, ctes, g.active, g.depth).Ok?
    ensures AddTableWithJoins(tables, scope, ctes, g.active', g.depth')
            == AddTableWithJoins(tables, scope, ctes, g.active, g.depth)
    decreases Remaining(g.depth), tables, 1
  {
    FactorGuards(tables.relation, scope, ctes, g);
    FactorsGuards(tables.joins, AddTableFactor(tables.relation, scope, ctes, g.active, g.depth).value, ctes, g);
  }

  lemma {:induction false} FactorsGuards(factors: seq<TableFactor>, scope: seq<Relation>, ctes: CteMap, g: Guards)
    requires g.Looser() && AddTableFactors(factors, scope, ctes, g.active, g.depth).Ok?
    ensures AddTableFactors(factors, scope, ctes, g.active', g.depth')
            == AddTableFactors(factors, scope, ctes, g.active, g.depth)
    decreases Remaining(g.depth), factors, 1
  {
    if factors != [] {
      FactorGuards(factors[0], scope, ctes, g);
      FactorsGuards(factors[1..], AddTableFactor(factors[0], scope, ctes, g.active, g.depth).value, ctes, g);
    }
  }

  lemma {:induction false} FactorGuards(factor: TableFactor, scope: seq<Relation>, ctes: CteMap, g: Guards)
    requires g.Looser() && AddTableFactor(factor, scope, ctes, g.active, g.depth).Ok?
    ensures AddTableFactor(factor, scope, ctes, g.active', g.depth')
            == AddTableFactor(factor, scope, ctes, g.active, g.depth)
    decreases Remaining(g.depth), factor, 1
  {
    match factor
    case Table(name, _) =>
      var folded := Fold(LastIdent(name));
      if folded in ctes {
        QueryGuards(ctes[folded], ctes, g.Entering(folded));
      }
    case Derived(subquery, _) => QueryGuards(subquery, ctes, g.Deeper());
    case NestedJoin(tables) => TablesGuards(tables, scope, ctes, g);
    case OtherFactor =>
  }

  lemma {:induction false} ExprGuards(expr: Expr, scope: seq<Relation>, ctes: CteMap, g: Guards)
    requires g.Looser() && CollectSources(expr, scope, ctes, g.active, g.depth).Ok?
    ensures CollectSources(expr, scope, ctes, g.active', g.depth')
            == CollectSources(expr, scope, ctes, g.active, g.depth)
    decreases Remaining(g.depth), expr, 1
  {
    match expr
    case Subquery(query) => QueryGuards(query, ctes, g.Deeper());
    case Apply(_, args) => ExprsGuards(args, scope, ctes, g);
    case _ =>
  }

  lemma {:induction false} ExprsGuards(exprs: seq<Expr>, scope: seq<Relation>, ctes: CteMap, g: Guards)
    requires g.Looser() && CollectAll(exprs, scope, ctes, g.active, g.depth).Ok?
    ensures CollectAll(exprs, scope, ctes, g.active', g.depth') == CollectAll(exprs, scope, ctes, g.active, g.depth)
    decreases Remaining(g.depth), exprs, 1
  {
    if exprs != [] {
      ExprGuards(exprs[0], scope, ctes, g);
      ExprsGuards(exprs[1..], scope, ctes, g);
    }
  }
}
