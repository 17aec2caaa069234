/** How queries are nested in one another: by a derived table, a subquery, parentheses, or reading a CTE. */
module QueryRuns {
  import opened Common
  import opened LineageAst
  import opened ResolveRules

  /** A query nested in another one, under the CTEs visible there; `cte` is the folded name of the CTE read, if any. */
  datatype Step = Step(cte: Option<string>, query: Query, ctes: CteMap)

  function QuerySteps(query: Query, parent: CteMap): seq<Step> {
    BodySteps(query.body, WithCtes(parent, query.withs))
  }

  function BodySteps(body: SetExpr, ctes: CteMap): seq<Step>
    decreases body
  {
    match body
    case Select(projection, from) => FromSteps(from, ctes) + ItemsSteps(projection, ctes)
    case Nested(query) => [Step(None, query, ctes)]
    case SetOperation(_, left, right) => BodySteps(left, ctes) + BodySteps(right, ctes)
    case Values(rows) => RowsSteps(rows, ctes)
    case OtherBody => []
  }

  function RowsSteps(rows: seq<Row>, ctes: CteMap): seq<Step>
    decreases rows
  {
    if rows == [] then [] else ExprsSteps(rows[0].content, ctes) + RowsSteps(rows[1..], ctes)
  }

  function ItemsSteps(items: seq<SelectItem>, ctes: CteMap): seq<Step>
    decreases items
  {
    if items == [] then [] else ItemSteps(items[0], ctes) + ItemsSteps(items[1..], ctes)
  }

  function ItemSteps(item: SelectItem, ctes: CteMap): seq<Step>
    decreases item
  {
    match item
    case UnnamedExpr(expr) => ExprSteps(expr, ctes)
    case ExprWithAlias(expr, _) => ExprSteps(expr, ctes)
    case ExprWithAliases(expr, _) => ExprSteps(expr, ctes)
    case _ => []
  }

  function FromSteps(from: seq<TableWithJoins>, ctes: CteMap): seq<Step>
    decreases from
  {
    if from == [] then [] else TablesSteps(from[0], ctes) + FromSteps(from[1..], ctes)
  }

  function TablesSteps(tables: TableWithJoins, ctes: CteMap): seq<Step>
    decreases tables
  {
    FactorSteps(tables.relation, ctes) + FactorsSteps(tables.joins, ctes)
  }

  function FactorsSteps(factors: seq<TableFactor>, ctes: CteMap): seq<Step>
    decreases factors
  {
    if factors == [] then [] else FactorSteps(factors[0], ctes) + FactorsSteps(factors[1..], ctes)
  }

  function FactorSteps(factor: TableFactor, ctes: CteMap): seq<Step>
    decreases factor
  {
    match factor
    case Table(name, _) =>
      var folded := Fold(LastIdent(name));
      if folded in ctes then [Step(Some(folded), ctes[folded], ctes)] else []
    case Derived(subquery, _) => [Step(None, subquery, ctes)]
    case NestedJoin(tables) => TablesSteps(tables, ctes)
    case OtherFactor => []
  }

  function ExprSteps(expr: Expr, ctes: CteMap): seq<Step>
    decreases expr
  {
    match expr
    case Subquery(query) => [Step(None, query, ctes)]
    case Apply(_, args) => ExprsSteps(args, ctes)
    case _ => []
  }

  function ExprsSteps(exprs: seq<Expr>, ctes: CteMap): seq<Step>
    decreases exprs
  {
    if exprs == [] then [] else ExprSteps(exprs[0], ctes) + ExprsSteps(exprs[1..], ctes)
  }

  /** Each step is nested directly in the one before it, the first one in `query`. */
  predicate IsRun(query: Query, parent: CteMap, run: seq<Step>)
    decreases |run|
  {
    run != [] ==> run[0] in QuerySteps(query, parent) && IsRun(run[0].query, run[0].ctes, run[1..])
  }

  /** The query a run ends in. */
  function End(query: Query, parent: CteMap, run: seq<Step>): (Query, CteMap) {
    if run == [] then (query, parent) else (run[|run| - 1].query, run[|run| - 1].ctes)
  }

  /** No CTE of `active` is read, and none twice: no CTE is read while it is being read. */
  predicate NoneTwice(run: seq<Step>, active: set<string>) {
    forall i :: 0 <= i < |run| && run[i].cte.Some? ==>
      && run[i].cte.value !in active
      && forall j :: 0 <= j < i ==> run[j].cte != run[i].cte
  }
}
