/** The column names a query exposes and the references that denote one column, without sources or guards. */
module Headings {
  import opened Common
  import opened LineageAst
  import opened ResolveRules

  type Heading = seq<Option<string>>

  /** A relation of a `FROM` list with its column names; those of a base table are not known. */
  datatype Exposed = Exposed(visible: string, columns: Option<Heading>)

  predicate Bears(name: Option<string>, wanted: string) {
    name.Some? && Fold(name.value) == Fold(wanted)
  }

  predicate Has(names: Heading, column: string) {
    exists k :: 0 <= k < |names| && Bears(names[k], column)
  }

  /** The relation may produce the column, as far as its names are known. */
  predicate MayHave(rel: Exposed, column: string) {
    rel.columns.Some? ==> Has(rel.columns.value, column)
  }

  /** The first relation of that name. */
  predicate FirstNamed(scope: seq<Exposed>, name: string, r: int) {
    && 0 <= r < |scope| && Fold(scope[r].visible) == Fold(name)
    && forall j :: 0 <= j < r ==> Fold(scope[j].visible) != Fold(name)
  }

  /** Exactly the relation at `r` may produce the column, and unless it is alone no base table leaves that open. */
  predicate OnlyOne(scope: seq<Exposed>, column: string, r: int) {
    && 0 <= r < |scope| && MayHave(scope[r], column)
    && (forall j :: 0 <= j < |scope| && j != r ==> !MayHave(scope[j], column))
    && (|scope| > 1 ==> scope[r].columns.Some?)
  }

  ghost predicate Denotes(scope: seq<Exposed>, qualifier: Option<string>, column: string) {
    match qualifier
    case Some(name) => exists r :: FirstNamed(scope, name, r) && MayHave(scope[r], column)
    case None => exists r :: OnlyOne(scope, column, r)
  }

  // ----- the names a query exposes -----

  ghost function QueryHeading(query: Query, parent: CteMap, fuel: nat): Heading
    decreases fuel, query, 1
  {
    BodyHeading(query.body, WithCtes(parent, query.withs), fuel)
  }

  ghost function BodyHeading(body: SetExpr, ctes: CteMap, fuel: nat): Heading
    decreases fuel, body, 1
  {
    match body
    case Select(projection, from) => ItemsHeading(projection, FromHeading(from, ctes, fuel))
    case Nested(query) => QueryHeading(query, ctes, fuel)
    case SetOperation(_, left, _) => BodyHeading(left, ctes, fuel)
    case Values(rows) => seq(Width(rows), _ => None)
    case OtherBody => []
  }

  /** The length of the longest row. */
  function Width(rows: seq<Row>): nat {
    if rows == [] then 0
    else
      var first, rest := |rows[0].content|, Width(rows[1..]);
      if first > rest then first else rest
  }

  ghost function ItemsHeading(items: seq<SelectItem>, scope: seq<Exposed>): Heading {
    if items == [] then [] else ItemHeading(items[0], scope) + ItemsHeading(items[1..], scope)
  }

  /** An alias, an identifier's last part, no name for another expression, or the columns a wildcard stands for. */
  ghost function ItemHeading(item: SelectItem, scope: seq<Exposed>): Heading {
    match item
    case UnnamedExpr(Identifier(id)) => [Some(id)]
    case UnnamedExpr(CompoundIdentifier(parts)) => [if parts == [] then None else Some(parts[|parts| - 1])]
    case UnnamedExpr(_) => [None]
    case ExprWithAlias(_, alias) => [Some(alias)]
    case ExprWithAliases(_, aliases) => [if aliases == [] then None else Some(aliases[0])]
    case Wildcard => AllNames(scope)
    case QualifiedWildcard(name) =>
      if r :| FirstNamed(scope, LastIdent(name), r) then scope[r].columns.GetOr([]) else []
    case ExprWildcard => []
  }

  function AllNames(scope: seq<Exposed>): Heading {
    if scope == [] then [] else scope[0].columns.GetOr([]) + AllNames(scope[1..])
  }

  ghost function FromHeading(from: seq<TableWithJoins>, ctes: CteMap, fuel: nat): seq<Exposed>
    decreases fuel, from, 1
  {
    if from == [] then [] else TablesHeading(from[0], ctes, fuel) + FromHeading(from[1..], ctes, fuel)
  }

  ghost function TablesHeading(tables: TableWithJoins, ctes: CteMap, fuel: nat): seq<Exposed>
    decreases fuel, tables, 1
  {
    FactorHeading(tables.relation, ctes, fuel) + FactorsHeading(tables.joins, ctes, fuel)
  }

  ghost function FactorsHeading(factors: seq<TableFactor>, ctes: CteMap, fuel: nat): seq<Exposed>
    decreases fuel, factors, 1
  {
    if factors == [] then [] else FactorHeading(factors[0], ctes, fuel) + FactorsHeading(factors[1..], ctes, fuel)
  }

  /** The alias names a relation, or else a table's last identifier; `fuel` bounds the nesting of CTE references. */
  ghost function FactorHeading(factor: TableFactor, ctes: CteMap, fuel: nat): seq<Exposed>
    decreases fuel, factor, 1
  {
    match factor
    case Table(name, alias) =>
      var folded := Fold(LastIdent(name));
      var visible := if alias.Some? then alias.value else LastIdent(name);
      if folded !in ctes then [Exposed(visible, None)]
      else if fuel == 0 then []
      else [Exposed(visible, Some(QueryHeading(ctes[folded], ctes, fuel - 1)))]
    case Derived(subquery, alias) =>
      [Exposed(if alias.Some? then alias.value else "", Some(QueryHeading(subquery, ctes, fuel)))]
    case NestedJoin(tables) => TablesHeading(tables, ctes, fuel)
    case OtherFactor => []
  }

  // ----- the references of one query, without those of the queries nested in it -----

  ghost predicate BodyDenotes(body: SetExpr, ctes: CteMap, fuel: nat)
    decreases body
  {
    match body
    case Select(projection, from) =>
      forall i :: 0 <= i < |projection| ==> ItemDenotes(projection[i], FromHeading(from, ctes, fuel))
    case Nested(_) => true
    case SetOperation(_, left, right) => BodyDenotes(left, ctes, fuel) && BodyDenotes(right, ctes, fuel)
    case Values(rows) =>
      forall i, j :: 0 <= i < |rows| && 0 <= j < |rows[i].content| ==> ExprDenotes(rows[i].content[j], [])
    case OtherBody => true
  }

  /** A wildcard needs known columns, and one on an expression is never accepted. */
  ghost predicate ItemDenotes(item: SelectItem, scope: seq<Exposed>) {
    match item
    case UnnamedExpr(expr) => ExprDenotes(expr, scope)
    case ExprWithAlias(expr, _) => ExprDenotes(expr, scope)
    case ExprWithAliases(expr, _) => ExprDenotes(expr, scope)
    case Wildcard => forall r :: 0 <= r < |scope| ==> scope[r].columns.Some?
    case QualifiedWildcard(name) => exists r :: FirstNamed(scope, LastIdent(name), r) && scope[r].columns.Some?
    case ExprWildcard => false
  }

  ghost predicate ExprDenotes(expr: Expr, scope: seq<Exposed>)
    decreases expr
  {
    match expr
    case Identifier(id) => Denotes(scope, None, id)
    case CompoundIdentifier(parts) =>
      var n := |parts|;
      if n == 0 then true
      else Denotes(scope, if n == 1 then None else Some(parts[n - 2]), parts[n - 1])
    case Subquery(_) => true
    case Apply(_, args) => forall i :: 0 <= i < |args| ==> ExprDenotes(args[i], scope)
  }
}
