/** What the table names of a query satisfy, down to its CTE bodies and subqueries. */
module TableNames {
  import opened LineageAst

  predicate QueryNames(query: Query, ok: ObjectName -> bool)
    decreases query
  {
    (forall i | 0 <= i < |query.withs| :: QueryNames(query.withs[i].query, ok)) && BodyNames(query.body, ok)
  }

  predicate BodyNames(body: SetExpr, ok: ObjectName -> bool)
    decreases body
  {
    match body
    case Select(projection, from) =>
      && (forall i | 0 <= i < |projection| :: ItemNames(projection[i], ok))
      && (forall i | 0 <= i < |from| :: TablesNames(from[i], ok))
    case Nested(query) => QueryNames(query, ok)
    case SetOperation(_, left, right) => BodyNames(left, ok) && BodyNames(right, ok)
    case Values(rows) => forall i | 0 <= i < |rows| :: RowNames(rows[i], ok)
    case OtherBody => true
  }

  predicate RowNames(row: Row, ok: ObjectName -> bool)
    decreases row
  {
    forall i | 0 <= i < |row.content| :: ExprNames(row.content[i], ok)
  }

  predicate ItemNames(item: SelectItem, ok: ObjectName -> bool)
    decreases item
  {
    match item
    case UnnamedExpr(expr) => ExprNames(expr, ok)
    case ExprWithAlias(expr, _) => ExprNames(expr, ok)
    case ExprWithAliases(expr, _) => ExprNames(expr, ok)
    case _ => true
  }

  predicate TablesNames(tables: TableWithJoins, ok: ObjectName -> bool)
    decreases tables
  {
    FactorNames(tables.relation, ok) && forall i | 0 <= i < |tables.joins| :: FactorNames(tables.joins[i], ok)
  }

  predicate FactorNames(factor: TableFactor, ok: ObjectName -> bool)
    decreases factor
  {
    match factor
    case Table(name, _) => ok(name)
    case Derived(subquery, _) => QueryNames(subquery, ok)
    case NestedJoin(tables) => TablesNames(tables, ok)
    case OtherFactor => true
  }

  predicate ExprNames(expr: Expr, ok: ObjectName -> bool)
    decreases expr
  {
    match expr
    case Subquery(query) => QueryNames(query, ok)
    case Apply(_, args) => forall i | 0 <= i < |args| :: ExprNames(args[i], ok)
    case _ => true
  }
}
