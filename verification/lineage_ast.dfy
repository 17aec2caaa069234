/** The part of the SQL syntax tree the lineage resolver looks at, and its result types. */
module LineageAst {
  import opened Common

  datatype NamePart = Ident(value: string) | Function

  /** A dotted object name and its text as the parser prints it. */
  datatype ObjectName = ObjectName(parts: seq<NamePart>, text: string)

  datatype Query = Query(withs: seq<Cte>, body: SetExpr)

  datatype Cte = Cte(alias: string, query: Query)

  datatype SetOperator = UnionAll | OtherSetOperator

  datatype SetExpr =
    | Select(projection: seq<SelectItem>, from: seq<TableWithJoins>)
    | Nested(query: Query)
    | SetOperation(op: SetOperator, left: SetExpr, right: SetExpr)
    | Values(rows: seq<Row>)
    | OtherBody

  datatype Row = Row(content: seq<Expr>)

  datatype SelectItem =
    | UnnamedExpr(expr: Expr)
    | ExprWithAlias(expr: Expr, alias: string)
    | ExprWithAliases(expr: Expr, aliases: seq<string>)
    | Wildcard
    | QualifiedWildcard(name: ObjectName)
    | ExprWildcard

  datatype TableWithJoins = TableWithJoins(relation: TableFactor, joins: seq<TableFactor>)

  datatype TableFactor =
    | Table(name: ObjectName, alias: Option<string>)
    | Derived(subquery: Query, alias: Option<string>)
    | NestedJoin(tables: TableWithJoins)
    | OtherFactor

  /** Operators, functions, casts, literals and predicates are all `Apply`. */
  datatype Expr =
    | Identifier(id: string)
    | CompoundIdentifier(parts: seq<string>)
    | Subquery(query: Query)
    | Apply(op: string, args: seq<Expr>)

  /** A table by its case-folded comparison key. */
  datatype TableRef = TableRef(database: Option<string>, schema: Option<string>, name: string)

  /** A column of a physical table by its case-folded comparison key. */
  datatype SourceRef = SourceRef(table: TableRef, column: string)

  datatype OutputColumn = OutputColumn(name: Option<string>, position: nat, sources: set<SourceRef>)

  datatype Reason =
    | WildcardOnExpression
    | AmbiguousUnqualified
    | NotInAnyRelation
    | InSeveralRelations
    | NotProducedBy(relation: string)
    | WildcardOverBaseTable

  datatype LineageError =
    | DepthLimitExceeded
    | CircularReference(cte: string)
    | UnresolvedColumn(column: string, reason: Reason)
    | UnknownTable(table: string)

  function LastIdent(name: ObjectName): string {
    if name.parts != [] && name.parts[|name.parts| - 1].Ident? then name.parts[|name.parts| - 1].value else ""
  }

  function Idents(parts: seq<NamePart>): seq<string> {
    if parts == [] then []
    else (if parts[0].Ident? then [parts[0].value] else []) + Idents(parts[1..])
  }

  /** Keeps the last three identifier parts as database, schema and table. */
  function TableRefOf(name: ObjectName): TableRef {
    var ids := Idents(name.parts);
    var n := |ids|;
    if n == 0 then TableRef(None, None, Fold(name.text))
    else TableRef(if n >= 3 then Some(Fold(ids[n - 3])) else None,
                  if n >= 2 then Some(Fold(ids[n - 2])) else None,
                  Fold(ids[n - 1]))
  }

  lemma IdentsEndWithLast(parts: seq<NamePart>)
    requires parts != [] && parts[|parts| - 1].Ident?
    ensures Idents(parts) != [] && Idents(parts)[|Idents(parts)| - 1] == parts[|parts| - 1].value
  {
    if |parts| > 1 {
      IdentsEndWithLast(parts[1..]);
    }
  }

  /** The name a projected expression gets without an alias. */
  function OutputName(expr: Expr): Option<string> {
    match expr
    case Identifier(id) => Some(id)
    case CompoundIdentifier(parts) => if parts == [] then None else Some(parts[|parts| - 1])
    case _ => None
  }

  /** The qualifier and column of an identifier expression; `None` for `CompoundIdentifier([])`. */
  function ColumnReference(expr: Expr): Option<(Option<string>, string)>
  {
    match expr
    case Identifier(id) => Some((None, id))
    case CompoundIdentifier(parts) =>
      if |parts| >= 2 then Some((Some(parts[|parts| - 2]), parts[|parts| - 1]))
      else if |parts| == 1 then Some((None, parts[0]))
      else None
    case _ => None
  }
}
