/** A query of the fragment that resolves also evaluates, on any database that has the columns it mentions. */
module LineageProgress {
  import opened Common
  import opened LineageAst
  import opened ScopeRules
  import opened ResolveRules
  import opened QueryMeaning
  import opened LineageSoundness

  // ----- the fragment, against a database -----

  ghost predicate HasColumn(db: Database, table: TableRef, column: string) {
    var t := BaseTable(db, table);
    t.Some? && FindName(ColumnNames(t.value.cols), column).Some?
  }

  /** If the reference falls on a base table, the table has the column. */
  ghost predicate ColumnFits(db: Database, scope: seq<Relation>, qualifier: Option<string>, column: string) {
    var r := if qualifier.Some? then FindName(Visibles(scope), qualifier.value)
             else if |scope| == 1 then Some(0) else None;
    r.Some? && scope[r.value].expose.Physical? ==> HasColumn(db, scope[r.value].expose.table, column)
  }

  ghost predicate QueryFits(db: Database, query: Query, parent: CteMap, active: set<string>, depth: nat)
    decreases Remaining(depth), query, 1
  {
    depth <= MAX_DEPTH && BodyFits(db, query.body, WithCtes(parent, query.withs), active, depth)
  }

  ghost predicate BodyFits(db: Database, body: SetExpr, ctes: CteMap, active: set<string>, depth: nat)
    requires depth <= MAX_DEPTH
    decreases Remaining(depth), body, 1
  {
    match body
    case Select(projection, from) =>
      && FromFits(db, from, ctes, active, depth)
      && (BuildScope(from, [], ctes, active, depth).Ok? ==>
            forall i :: 0 <= i < |projection| ==>
              ItemFits(db, projection[i], BuildScope(from, [], ctes, active, depth).value, ctes, active, depth))
    case Nested(query) => QueryFits(db, query, ctes, active, depth + 1)
    case SetOperation(op, left, right) =>
      && op == UnionAll && BodyFits(db, left, ctes, active, depth) && BodyFits(db, right, ctes, active, depth)
      && var l, r := ResolveSetExpr(left, ctes, active, depth), ResolveSetExpr(right, ctes, active, depth);
         (l.Ok? && r.Ok? ==> |l.value| == |r.value|)
    case Values(rows) =>
      forall i :: 0 <= i < |rows| ==>
        |rows[i].content| == |rows[0].content| && RowFits(db, rows[i], ctes, active, depth)
    case OtherBody => false
  }

  ghost predicate RowFits(db: Database, row: Row, ctes: CteMap, active: set<string>, depth: nat)
    requires depth <= MAX_DEPTH
    decreases Remaining(depth), row, 1
  {
    forall j :: 0 <= j < |row.content| ==> ExprFits(db, row.content[j], [], ctes, active, depth)
  }

  ghost predicate ItemFits(db: Database, item: SelectItem, scope: seq<Relation>, ctes: CteMap, active: set<string>,
                           depth: nat)
    requires depth <= MAX_DEPTH
    decreases Remaining(depth), item, 1
  {
    match item
    case UnnamedExpr(expr) => ExprFits(db, expr, scope, ctes, active, depth)
    case ExprWithAlias(expr, _) => ExprFits(db, expr, scope, ctes, active, depth)
    case ExprWithAliases(expr, _) => ExprFits(db, expr, scope, ctes, active, depth)
    case _ => true
  }

  ghost predicate FromFits(db: Database, from: seq<TableWithJoins>, ctes: CteMap, active: set<string>, depth: nat)
    requires depth <= MAX_DEPTH
    decreases Remaining(depth), from, 1
  {
    forall i :: 0 <= i < |from| ==> TablesFit(db, from[i], ctes, active, depth)
  }

  ghost predicate TablesFit(db: Database, tables: TableWithJoins, ctes: CteMap, active: set<string>, depth: nat)
    requires depth <= MAX_DEPTH
    decreases Remaining(depth), tables, 1
  {
    && FactorFits(db, tables.relation, ctes, active, depth)
    && forall i :: 0 <= i < |tables.joins| ==> FactorFits(db, tables.joins[i], ctes, active, depth)
  }

  ghost predicate FactorFits(db: Database, factor: TableFactor, ctes: CteMap, active: set<string>, depth: nat)
    requires depth <= MAX_DEPTH
    decreases Remaining(depth), factor, 1
  {
    match factor
    case Table(name, _) =>
      var folded := Fold(LastIdent(name));
      if folded in ctes then QueryFits(db, ctes[folded], ctes, active + {folded}, depth + 1)
      else BaseTable(db, TableRefOf(name)).Some?
    case Derived(subquery, _) => QueryFits(db, subquery, ctes, active, depth + 1)
    case NestedJoin(tables) => TablesFit(db, tables, ctes, active, depth)
    case OtherFactor => false
  }

  ghost predicate ExprFits(db: Database, expr: Expr, scope: seq<Relation>, ctes: CteMap, active: set<string>,
                           depth: nat)
    requires depth <= MAX_DEPTH
    decreases Remaining(depth), expr, 1
  {
    match expr
    case Subquery(query) => QueryFits(db, query, ctes, active, depth + 1)
    case Apply(_, args) => forall i :: 0 <= i < |args| ==> ExprFits(db, args[i], scope, ctes, active, depth)
    case _ =>
      var reference := ColumnReference(expr);
      reference.Some? && ColumnFits(db, scope, reference.value.0, reference.value.1)
  }

  // ----- progress -----

  /** One database compared with itself. */
  function Same(engine: Engine, db: Database): World {
    World(engine, db, db)
  }

  lemma {:induction false} QueryEvaluates(engine: Engine, db: Database, query: Query, parent: CteMap,
                                          active: set<string>, depth: nat, fuel: nat)
    requires ResolveQuery(query, parent, active, depth).Ok? && QueryFits(db, query, parent, active, depth)
    requires fuel >= Remaining(depth)
    ensures EvalQuery(engine, db, query, parent, fuel).Some?
    decreases Remaining(depth), query, 1
  {
    BodyEvaluates(engine, db, query.body, WithCtes(parent, query.withs), active, depth, fuel);
  }

  lemma {:induction false} BodyEvaluates(engine: Engine, db: Database, body: SetExpr, ctes: CteMap, active: set<string>,
                                         depth: nat, fuel: nat)
    requires depth <= MAX_DEPTH && ResolveSetExpr(body, ctes, active, depth).Ok?
             && BodyFits(db, body, ctes, active, depth)
    requires fuel >= Remaining(depth)
    ensures EvalSetExpr(engine, db, body, ctes, fuel).Some?
    decreases Remaining(depth), body, 1
  {
    match body
    case Select(projection, from) =>
      FromEvaluates(engine, db, from, [], ctes, active, depth, fuel);
      FromSound(Same(engine, db), from, [], [], [], ctes, active, depth, fuel);
      var scope := BuildScope(from, [], ctes, active, depth).value;
      var b := BindFrom(engine, db, from, [], ctes, fuel).value;
      ItemsEvaluate(engine, db, projection, scope, b, Product(Counts(b)), ctes, active, depth, fuel, [], []);
    case Nested(query) => QueryEvaluates(engine, db, query, ctes, active, depth + 1, fuel);
    case SetOperation(_, left, right) =>
      BodyEvaluates(engine, db, left, ctes, active, depth, fuel);
      BodyEvaluates(engine, db, right, ctes, active, depth, fuel);
      SetExprSound(Same(engine, db), left, ctes, active, depth, fuel);
      SetExprSound(Same(engine, db), right, ctes, active, depth, fuel);
    case Values(rows) =>
      RowsEvaluate(engine, db, rows, ctes, active, depth, fuel, [], ResultSet(0, []));
  }

  lemma {:induction false} RowsEvaluate(engine: Engine, db: Database, rows: seq<Row>, ctes: CteMap, active: set<string>,
                                        depth: nat, fuel: nat, out: Columns, acc: ResultSet)
    requires depth <= MAX_DEPTH && ResolveRows(rows, ctes, active, depth, out).Ok? && fuel >= Remaining(depth)
    requires forall i :: 0 <= i < |rows| ==>
               && |rows[i].content| == |rows[0].content| && RowFits(db, rows[i], ctes, active, depth)
               && (acc.rows > 0 ==> |rows[i].content| == |acc.cols|)
    ensures EvalRows(engine, db, rows, ctes, fuel, acc).Some?
    decreases Remaining(depth), rows, 1
  {
    if rows != [] {
      var cells := rows[0].content;
      CellsEvaluate(engine, db, cells, ctes, active, depth, fuel, 0, out);
      var next := AppendRow(acc, EvalCells(engine, db, cells, ctes, fuel).value);
      assert forall i :: 0 <= i < |rows| - 1 ==> rows[1..][i] == rows[i + 1];
      RowsEvaluate(engine, db, rows[1..], ctes, active, depth, fuel,
                   ResolveCells(cells, ctes, active, depth, 0, out).value, next);
    }
  }

  lemma {:induction false} CellsEvaluate(engine: Engine, db: Database, cells: seq<Expr>, ctes: CteMap,
                                         active: set<string>, depth: nat, fuel: nat, i: nat, out: Columns)
    requires depth <= MAX_DEPTH && ResolveCells(cells, ctes, active, depth, i, out).Ok? && fuel >= Remaining(depth)
    requires forall j :: 0 <= j < |cells| ==> ExprFits(db, cells[j], [], ctes, active, depth)
    ensures var r := EvalCells(engine, db, cells, ctes, fuel); r.Some? && |r.value| == |cells|
    decreases Remaining(depth), cells, 1
  {
    if cells != [] {
      ExprEvaluates(engine, db, cells[0], [], [], [[]], ctes, active, depth, fuel);
      var sources := CollectSources(cells[0], [], ctes, active, depth).value;
      var next := if i < |out| then out[i := out[i].(sources := out[i].sources + sources)]
                  else Push(out, None, sources);
      CellsEvaluate(engine, db, cells[1..], ctes, active, depth, fuel, i + 1, next);
    }
  }

  lemma {:induction false} ItemsEvaluate(engine: Engine, db: Database, items: seq<SelectItem>, scope: seq<Relation>,
                                         b: seq<Bound>, joined: seq<seq<nat>>, ctes: CteMap, active: set<string>,
                                         depth: nat, fuel: nat, out: Columns, cols: seq<Column>)
    requires depth <= MAX_DEPTH && ResolveItems(items, scope, ctes, active, depth, out).Ok? && fuel >= Remaining(depth)
    requires MatchedScope(Same(engine, db), scope, b, b)
    requires forall i :: 0 <= i < |items| ==> ItemFits(db, items[i], scope, ctes, active, depth)
    ensures EvalItems(engine, db, items, b, joined, ctes, fuel, cols).Some?
    decreases Remaining(depth), items, 1
  {
    hide MatchedScope;
    if items != [] {
      ItemEvaluates(engine, db, items[0], scope, b, joined, ctes, active, depth, fuel, out);
      var next := EvalItem(engine, db, items[0], b, joined, ctes, fuel).value;
      ItemsEvaluate(engine, db, items[1..], scope, b, joined, ctes, active, depth, fuel,
                    ResolveItem(items[0], scope, ctes, active, depth, out).value, cols + next);
    }
  }

  lemma {:induction false} ItemEvaluates(engine: Engine, db: Database, item: SelectItem, scope: seq<Relation>,
                                         b: seq<Bound>, joined: seq<seq<nat>>, ctes: CteMap, active: set<string>,
                                         depth: nat, fuel: nat, out: Columns)
    requires depth <= MAX_DEPTH && ResolveItem(item, scope, ctes, active, depth, out).Ok? && fuel >= Remaining(depth)
    requires MatchedScope(Same(engine, db), scope, b, b) && ItemFits(db, item, scope, ctes, active, depth)
    ensures EvalItem(engine, db, item, b, joined, ctes, fuel).Some?
    decreases Remaining(depth), item, 1
  {
    match item
    case Wildcard =>
    case ExprWildcard =>
    case QualifiedWildcard(name) => assert Visibles(scope) == BoundNames(b);
    case UnnamedExpr(expr) => ExprEvaluates(engine, db, expr, scope, b, joined, ctes, active, depth, fuel);
    case ExprWithAlias(expr, _) => ExprEvaluates(engine, db, expr, scope, b, joined, ctes, active, depth, fuel);
    case ExprWithAliases(expr, _) => ExprEvaluates(engine, db, expr, scope, b, joined, ctes, active, depth, fuel);
  }

  lemma {:induction false} FromEvaluates(engine: Engine, db: Database, from: seq<TableWithJoins>, b: seq<Bound>,
                                         ctes: CteMap, active: set<string>, depth: nat, fuel: nat)
    requires depth <= MAX_DEPTH && fuel >= Remaining(depth) && FromFits(db, from, ctes, active, depth)
    requires exists scope :: BuildScope(from, scope, ctes, active, depth).Ok?
    ensures BindFrom(engine, db, from, b, ctes, fuel).Some?
    decreases Remaining(depth), from, 1
  {
    if from != [] {
      var scope :| BuildScope(from, scope, ctes, active, depth).Ok?;
      TablesEvaluate(engine, db, from[0], scope, b, ctes, active, depth, fuel);
      assert BuildScope(from[1..], AddTableWithJoins(from[0], scope, ctes, active, depth).value, ctes, active,
                        depth).Ok?;
      FromEvaluates(engine, db, from[1..], BindTables(engine, db, from[0], b, ctes, fuel).value, ctes, active, depth,
                    fuel);
    }
  }

  lemma {:induction false} TablesEvaluate(engine: Engine, db: Database, tables: TableWithJoins, scope: seq<Relation>,
                                          b: seq<Bound>, ctes: CteMap, active: set<string>, depth: nat, fuel: nat)
    requires depth <= MAX_DEPTH && fuel >= Remaining(depth) && TablesFit(db, tables, ctes, active, depth)
    requires AddTableWithJoins(tables, scope, ctes, active, depth).Ok?
    ensures BindTables(engine, db, tables, b, ctes, fuel).Some?
    decreases Remaining(depth), tables, 1
  {
    FactorEvaluates(engine, db, tables.relation, scope, b, ctes, active, depth, fuel);
    FactorsEvaluate(engine, db, tables.joins, AddTableFactor(tables.relation, scope, ctes, active, depth).value,
                    BindFactor(engine, db, tables.relation, b, ctes, fuel).value, ctes, active, depth, fuel);
  }

  lemma {:induction false} FactorsEvaluate(engine: Engine, db: Database, factors: seq<TableFactor>,
                                           scope: seq<Relation>, b: seq<Bound>, ctes: CteMap, active: set<string>,
                                           depth: nat, fuel: nat)
    requires depth <= MAX_DEPTH && fuel >= Remaining(depth)
    requires forall i :: 0 <= i < |factors| ==> FactorFits(db, factors[i], ctes, active, depth)
    requires AddTableFactors(factors, scope, ctes, active, depth).Ok?
    ensures BindFactors(engine, db, factors, b, ctes, fuel).Some?
    decreases Remaining(depth), factors, 1
  {
    if factors != [] {
      FactorEvaluates(engine, db, factors[0], scope, b, ctes, active, depth, fuel);
      FactorsEvaluate(engine, db, factors[1..], AddTableFactor(factors[0], scope, ctes, active, depth).value,
                      BindFactor(engine, db, factors[0], b, ctes, fuel).value, ctes, active, depth, fuel);
    }
  }

  lemma {:induction false} FactorEvaluates(engine: Engine, db: Database, factor: TableFactor, scope: seq<Relation>,
                                           b: seq<Bound>, ctes: CteMap, active: set<string>, depth: nat, fuel: nat)
    requires depth <= MAX_DEPTH && fuel >= Remaining(depth) && FactorFits(db, factor, ctes, active, depth)
    requires AddTableFactor(factor, scope, ctes, active, depth).Ok?
    ensures BindFactor(engine, db, factor, b, ctes, fuel).Some?
    decreases Remaining(depth), factor, 1
  {
    match factor
    case Table(name, _) =>
      var folded := Fold(LastIdent(name));
      if folded in ctes {
        QueryEvaluates(engine, db, ctes[folded], ctes, active + {folded}, depth + 1, fuel - 1);
      }
    case Derived(subquery, _) => QueryEvaluates(engine, db, subquery, ctes, active, depth + 1, fuel);
    case NestedJoin(tables) => TablesEvaluate(engine, db, tables, scope, b, ctes, active, depth, fuel);
  }

  lemma {:induction false} ExprEvaluates(engine: Engine, db: Database, expr: Expr, scope: seq<Relation>, b: seq<Bound>,
                                         joined: seq<seq<nat>>, ctes: CteMap, active: set<string>, depth: nat,
                                         fuel: nat)
    requires depth <= MAX_DEPTH && fuel >= Remaining(depth) && ExprFits(db, expr, scope, ctes, active, depth)
    requires MatchedScope(Same(engine, db), scope, b, b) && CollectSources(expr, scope, ctes, active, depth).Ok?
    ensures EvalExpr(engine, db, expr, b, joined, ctes, fuel).Some?
    decreases Remaining(depth), expr, 1
  {
    match expr
    case Subquery(query) => QueryEvaluates(engine, db, query, ctes, active, depth + 1, fuel);
    case Apply(_, args) => ExprsEvaluate(engine, db, args, scope, b, joined, ctes, active, depth, fuel);
    case _ =>
      var reference := ColumnReference(expr).value;
      ColumnEvaluates(engine, db, scope, b, reference.0, reference.1);
  }

  lemma {:induction false} ExprsEvaluate(engine: Engine, db: Database, exprs: seq<Expr>, scope: seq<Relation>,
                                         b: seq<Bound>, joined: seq<seq<nat>>, ctes: CteMap, active: set<string>,
                                         depth: nat, fuel: nat)
    requires depth <= MAX_DEPTH && fuel >= Remaining(depth)
    requires forall i :: 0 <= i < |exprs| ==> ExprFits(db, exprs[i], scope, ctes, active, depth)
    requires MatchedScope(Same(engine, db), scope, b, b) && CollectAll(exprs, scope, ctes, active, depth).Ok?
    ensures EvalExprs(engine, db, exprs, b, joined, ctes, fuel).Some?
    decreases Remaining(depth), exprs, 1
  {
    if exprs != [] {
      ExprEvaluates(engine, db, exprs[0], scope, b, joined, ctes, active, depth, fuel);
      ExprsEvaluate(engine, db, exprs[1..], scope, b, joined, ctes, active, depth, fuel);
    }
  }

  /** A relation that resolves a column holds it. */
  lemma HeldIn(engine: Engine, db: Database, rel: Relation, b: Bound, column: string)
    requires MatchedBound(Same(engine, db), rel, b, b) && ResolveInRelation(rel, column).Ok?
    requires rel.expose.Physical? ==> HasColumn(db, rel.expose.table, column)
    ensures FindName(ColumnNames(b.data.cols), column).Some?
  {
    match rel.expose
    case Virtual(columns) => assert Names(columns) == ColumnNames(b.data.cols);
    case Physical(table) =>
  }

  lemma ColumnEvaluates(engine: Engine, db: Database, scope: seq<Relation>, b: seq<Bound>, qualifier: Option<string>,
                        column: string)
    requires MatchedScope(Same(engine, db), scope, b, b) && ResolveColumn(scope, qualifier, column).Ok?
    requires ColumnFits(db, scope, qualifier, column)
    ensures Lookup(b, qualifier, column).Some?
  {
    if qualifier.Some? {
      assert Visibles(scope) == BoundNames(b);
      var r := FindName(Visibles(scope), qualifier.value).value;
      HeldIn(engine, db, scope[r], b[r], column);
    } else if |scope| == 1 {
      HeldIn(engine, db, scope[0], b[0], column);
      HolderFound(b, column, 0);
    } else {
      CandidatesCountProducers(scope, column);
      var i :| OnlyProducer(scope, column, i);
      HoldersAreProducers(Same(engine, db), scope, b, b, column, i);
      HolderFound(b, column, i);
    }
  }

  /**
   * A top-level query of the fragment that resolves evaluates, and its result has exactly the reported columns: as
   * many, under the reported names.
   */
  lemma ResolvedEvaluates(engine: Engine, db: Database, query: Query, fuel: nat)
    requires Resolve(query).Ok? && QueryFits(db, query, map[], {}, 0) && fuel >= MAX_DEPTH + 1
    ensures var t := EvalQuery(engine, db, query, map[], fuel);
            && t.Some? && |t.value.cols| == |Resolve(query).value|
            && forall i :: 0 <= i < |Resolve(query).value| ==> t.value.cols[i].name == Resolve(query).value[i].name
  {
    hide QueryFits, EvalQuery, ResolveQuery;
    QueryEvaluates(engine, db, query, map[], {}, 0, fuel);
    QuerySound(Same(engine, db), query, map[], {}, 0, fuel);
    var v := VirtualFrom(Resolve(query).value);
    assert forall i :: 0 <= i < |v| ==> v[i].name == Resolve(query).value[i].name;
  }
}
