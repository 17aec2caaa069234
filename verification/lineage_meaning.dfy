/** What a filter-free query computes on a database, column by column. */
module QueryMeaning {
  import opened Common
  import opened LineageAst
  import opened ScopeRules
  import opened ResolveRules

  datatype Value = Null | Int(n: int) | Text(s: string)

  datatype Column = Column(name: Option<string>, cells: seq<Value>)

  datatype ResultSet = ResultSet(rows: nat, cols: seq<Column>)

  /** A relation bound in a `FROM` list. */
  datatype Bound = Bound(visible: string, data: ResultSet)

  /** Existing tables with their column names, row counts and cells. */
  datatype Database = Database(catalog: TableRef -> Option<seq<string>>,
                               rows: TableRef -> nat,
                               cell: (TableRef, string, nat) -> Value)

  /** The engine: what row-wise operators compute, and what a subquery contributes as a value. */
  datatype Engine = Engine(apply: (string, seq<Value>) -> Value, subquery: ResultSet -> Value)

  function At(cells: seq<Value>, i: nat): Value {
    if i < |cells| then cells[i] else Null
  }

  ghost function BaseTable(db: Database, table: TableRef): Option<ResultSet> {
    var names := db.catalog(table);
    if names.None? then None
    else
      var n := db.rows(table);
      Some(ResultSet(n, seq(|names.value|, j requires 0 <= j < |names.value| =>
        Column(Some(names.value[j]), seq(n, i requires 0 <= i < n => db.cell(table, Fold(names.value[j]), i))))))
  }

  function ColumnNames(cols: seq<Column>): (r: seq<Option<string>>)
    ensures |r| == |cols|
    ensures forall i :: 0 <= i < |r| ==> r[i] == cols[i].name
  {
    seq(|cols|, i requires 0 <= i < |cols| => cols[i].name)
  }

  function BoundNames(scope: seq<Bound>): (r: seq<Option<string>>)
    ensures |r| == |scope|
    ensures forall i :: 0 <= i < |r| ==> r[i] == Some(scope[i].visible)
  {
    seq(|scope|, i requires 0 <= i < |scope| => Some(scope[i].visible))
  }

  predicate Holds(scope: seq<Bound>, r: int, column: string)
    requires 0 <= r < |scope|
  {
    FindName(ColumnNames(scope[r].data.cols), column).Some?
  }

  /** `r` is the one relation holding an unqualified `column`. */
  ghost predicate OnlyHolder(scope: seq<Bound>, column: string, r: int) {
    && 0 <= r < |scope|
    && Holds(scope, r, column)
    && forall other :: 0 <= other < |scope| && Holds(scope, other, column) ==> other == r
  }

  /** The relation and the column within it that a reference denotes. */
  ghost function Lookup(scope: seq<Bound>, qualifier: Option<string>, column: string): (at: Option<(nat, nat)>)
    ensures at.Some? ==> at.value.0 < |scope| && at.value.1 < |scope[at.value.0].data.cols|
  {
    var r := if qualifier.Some? then FindName(BoundNames(scope), qualifier.value)
             else if r: nat :| OnlyHolder(scope, column, r) then Some(r)
             else None;
    if r.None? then None
    else
      var c := FindName(ColumnNames(scope[r.value].data.cols), column);
      if c.None? then None else Some((r.value, c.value))
  }

  function Counts(scope: seq<Bound>): seq<nat> {
    seq(|scope|, i requires 0 <= i < |scope| => scope[i].data.rows)
  }

  /** Each prefix extended by every row of a relation with `n` rows. */
  function Cross(prefixes: seq<seq<nat>>, n: nat): seq<seq<nat>> {
    if prefixes == [] then []
    else seq(n, i requires 0 <= i < n => prefixes[0] + [i]) + Cross(prefixes[1..], n)
  }

  /** The rows of a join without conditions, as one row index per relation; the first relation varies slowest. */
  function Product(counts: seq<nat>): seq<seq<nat>> {
    if counts == [] then [[]] else Cross(Product(counts[..|counts| - 1]), counts[|counts| - 1])
  }

  /** A column of relation `r` seen from the joined rows. */
  function Lift(cells: seq<Value>, r: nat, joined: seq<seq<nat>>): seq<Value> {
    seq(|joined|, k requires 0 <= k < |joined| => if r < |joined[k]| then At(cells, joined[k][r]) else Null)
  }

  function LiftAll(cols: seq<Column>, r: nat, joined: seq<seq<nat>>): seq<Column> {
    seq(|cols|, i requires 0 <= i < |cols| => Column(cols[i].name, Lift(cols[i].cells, r, joined)))
  }

  function WildcardFrom(scope: seq<Bound>, r: nat, joined: seq<seq<nat>>): seq<Column>
    decreases |scope| - r
  {
    if r >= |scope| then [] else LiftAll(scope[r].data.cols, r, joined) + WildcardFrom(scope, r + 1, joined)
  }

  function ArgumentsAt(columns: seq<seq<Value>>, k: nat): seq<Value> {
    seq(|columns|, j requires 0 <= j < |columns| => At(columns[j], k))
  }

  /** `None` is a query the engine rejects or one outside the fragment; `fuel` bounds the nesting of CTE references. */
  ghost function EvalQuery(engine: Engine, db: Database, query: Query, parent: CteMap, fuel: nat): Option<ResultSet>
    decreases fuel, query, 1
  {
    EvalSetExpr(engine, db, query.body, WithCtes(parent, query.withs), fuel)
  }

  ghost function EvalSetExpr(engine: Engine, db: Database, body: SetExpr, ctes: CteMap, fuel: nat): Option<ResultSet>
    decreases fuel, body, 1
  {
    match body
    case Select(projection, from) =>
      var scope := BindFrom(engine, db, from, [], ctes, fuel);
      if scope.None? then None
      else
        var joined := Product(Counts(scope.value));
        var cols := EvalItems(engine, db, projection, scope.value, joined, ctes, fuel, []);
        if cols.None? then None else Some(ResultSet(|joined|, cols.value))
    case Nested(query) => EvalQuery(engine, db, query, ctes, fuel)
    case SetOperation(op, left, right) =>
      var l := EvalSetExpr(engine, db, left, ctes, fuel);
      var r := EvalSetExpr(engine, db, right, ctes, fuel);
      if op != UnionAll || l.None? || r.None? || |l.value.cols| != |r.value.cols| then None
      else Some(UnionOf(l.value, r.value))
    case Values(rows) => EvalRows(engine, db, rows, ctes, fuel, ResultSet(0, []))
    case OtherBody => None
  }

  function UnionOf(l: ResultSet, r: ResultSet): ResultSet
    requires |l.cols| == |r.cols|
  {
    ResultSet(l.rows + r.rows,
              seq(|l.cols|, i requires 0 <= i < |l.cols| => Column(l.cols[i].name, l.cols[i].cells + r.cols[i].cells)))
  }

  ghost function EvalRows(engine: Engine, db: Database, rows: seq<Row>, ctes: CteMap, fuel: nat, acc: ResultSet)
    : Option<ResultSet>
    decreases fuel, rows, 1
  {
    if rows == [] then Some(acc)
    else
      var cells := EvalCells(engine, db, rows[0].content, ctes, fuel);
      if cells.None? || (acc.rows > 0 && |cells.value| != |acc.cols|) then None
      else EvalRows(engine, db, rows[1..], ctes, fuel, AppendRow(acc, cells.value))
  }

  function AppendRow(acc: ResultSet, cells: seq<Value>): ResultSet
    requires acc.rows > 0 ==> |cells| == |acc.cols|
  {
    ResultSet(acc.rows + 1,
              seq(|cells|, j requires 0 <= j < |cells| =>
                Column(None, if acc.rows == 0 then [cells[j]] else acc.cols[j].cells + [cells[j]])))
  }

  ghost function EvalCells(engine: Engine, db: Database, cells: seq<Expr>, ctes: CteMap, fuel: nat): Option<seq<Value>>
    decreases fuel, cells, 1
  {
    if cells == [] then Some([])
    else
      var first := EvalExpr(engine, db, cells[0], [], [[]], ctes, fuel);
      var rest := EvalCells(engine, db, cells[1..], ctes, fuel);
      if first.None? || rest.None? then None else Some([At(first.value, 0)] + rest.value)
  }

  ghost function EvalItems(engine: Engine, db: Database, items: seq<SelectItem>, scope: seq<Bound>,
                           joined: seq<seq<nat>>, ctes: CteMap, fuel: nat, cols: seq<Column>): Option<seq<Column>>
    decreases fuel, items, 1
  {
    if items == [] then Some(cols)
    else
      var next := EvalItem(engine, db, items[0], scope, joined, ctes, fuel);
      if next.None? then None
      else EvalItems(engine, db, items[1..], scope, joined, ctes, fuel, cols + next.value)
  }

  ghost function EvalItem(engine: Engine, db: Database, item: SelectItem, scope: seq<Bound>, joined: seq<seq<nat>>,
                          ctes: CteMap, fuel: nat): Option<seq<Column>>
    decreases fuel, item, 1
  {
    match item
    case Wildcard => Some(WildcardFrom(scope, 0, joined))
    case QualifiedWildcard(name) =>
      var r := FindName(BoundNames(scope), LastIdent(name));
      if r.None? then None else Some(LiftAll(scope[r.value].data.cols, r.value, joined))
    case ExprWildcard => None
    case UnnamedExpr(expr) => OneColumn(ItemName(item), EvalExpr(engine, db, expr, scope, joined, ctes, fuel))
    case ExprWithAlias(expr, _) => OneColumn(ItemName(item), EvalExpr(engine, db, expr, scope, joined, ctes, fuel))
    case ExprWithAliases(expr, _) => OneColumn(ItemName(item), EvalExpr(engine, db, expr, scope, joined, ctes, fuel))
  }

  function OneColumn(name: Option<string>, cells: Option<seq<Value>>): Option<seq<Column>> {
    if cells.None? then None else Some([Column(name, cells.value)])
  }

  ghost function BindFrom(engine: Engine, db: Database, from: seq<TableWithJoins>, scope: seq<Bound>, ctes: CteMap,
                          fuel: nat): Option<seq<Bound>>
    decreases fuel, from, 1
  {
    if from == [] then Some(scope)
    else
      var next := BindTables(engine, db, from[0], scope, ctes, fuel);
      if next.None? then None else BindFrom(engine, db, from[1..], next.value, ctes, fuel)
  }

  ghost function BindTables(engine: Engine, db: Database, tables: TableWithJoins, scope: seq<Bound>, ctes: CteMap,
                            fuel: nat): Option<seq<Bound>>
    decreases fuel, tables, 1
  {
    var first := BindFactor(engine, db, tables.relation, scope, ctes, fuel);
    if first.None? then None else BindFactors(engine, db, tables.joins, first.value, ctes, fuel)
  }

  ghost function BindFactors(engine: Engine, db: Database, factors: seq<TableFactor>, scope: seq<Bound>, ctes: CteMap,
                             fuel: nat): Option<seq<Bound>>
    decreases fuel, factors, 1
  {
    if factors == [] then Some(scope)
    else
      var next := BindFactor(engine, db, factors[0], scope, ctes, fuel);
      if next.None? then None else BindFactors(engine, db, factors[1..], next.value, ctes, fuel)
  }

  ghost function BindFactor(engine: Engine, db: Database, factor: TableFactor, scope: seq<Bound>, ctes: CteMap,
                            fuel: nat): Option<seq<Bound>>
    decreases fuel, factor, 1
  {
    match factor
    case Table(name, alias) =>
      var folded := Fold(LastIdent(name));
      if folded in ctes && fuel == 0 then None
      else
        var data := if folded in ctes then EvalQuery(engine, db, ctes[folded], ctes, fuel - 1)
                    else BaseTable(db, TableRefOf(name));
        BindAs(scope, VisibleName(name, alias), data)
    case Derived(subquery, alias) => BindAs(scope, alias.GetOr(""), EvalQuery(engine, db, subquery, ctes, fuel))
    case NestedJoin(tables) => BindTables(engine, db, tables, scope, ctes, fuel)
    case OtherFactor => None
  }

  function BindAs(scope: seq<Bound>, visible: string, data: Option<ResultSet>): Option<seq<Bound>> {
    if data.None? then None else Some(scope + [Bound(visible, data.value)])
  }

  /** One value per joined row. */
  ghost function EvalExpr(engine: Engine, db: Database, expr: Expr, scope: seq<Bound>, joined: seq<seq<nat>>,
                          ctes: CteMap, fuel: nat): Option<seq<Value>>
    decreases fuel, expr, 1
  {
    match expr
    case Subquery(query) =>
      var data := EvalQuery(engine, db, query, ctes, fuel);
      if data.None? then None
      else Some(seq(|joined|, k requires 0 <= k < |joined| => engine.subquery(data.value)))
    case Apply(op, args) =>
      var columns := EvalExprs(engine, db, args, scope, joined, ctes, fuel);
      if columns.None? then None
      else Some(seq(|joined|, k requires 0 <= k < |joined| => engine.apply(op, ArgumentsAt(columns.value, k))))
    case _ =>
      var reference := ColumnReference(expr);
      if reference.None? then None
      else
        var at := Lookup(scope, reference.value.0, reference.value.1);
        if at.None? then None
        else Some(Lift(scope[at.value.0].data.cols[at.value.1].cells, at.value.0, joined))
  }

  ghost function EvalExprs(engine: Engine, db: Database, exprs: seq<Expr>, scope: seq<Bound>, joined: seq<seq<nat>>,
                           ctes: CteMap, fuel: nat): Option<seq<seq<Value>>>
    decreases fuel, exprs, 1
  {
    if exprs == [] then Some([])
    else
      var first := EvalExpr(engine, db, exprs[0], scope, joined, ctes, fuel);
      var rest := EvalExprs(engine, db, exprs[1..], scope, joined, ctes, fuel);
      if first.None? || rest.None? then None else Some([first.value] + rest.value)
  }
}
