/** Every reported source belongs to a table whose name is no CTE in scope, as far as the names the query uses allow. */
module ResolveOrigin {
  import opened Common
  import opened LineageAst
  import opened ScopeRules
  import opened ResolveRules
  import opened TableNames

  // ----- names that tell a table from a CTE -----

  predicate EndsInIdent(name: ObjectName) {
    name.parts != [] && name.parts[|name.parts| - 1].Ident?
  }

  /** The name compared with the CTE names is the table name that is reported. */
  predicate SafeName(name: ObjectName) {
    TableRefOf(name).name == Fold(LastIdent(name))
  }

  /** Names that end in an identifier are safe, and of the others only those reported as the empty name. */
  lemma SafeExactly(name: ObjectName)
    ensures SafeName(name) <==> EndsInIdent(name) || TableRefOf(name).name == ""
  {
    if EndsInIdent(name) {
      IdentsEndWithLast(name.parts);
    }
  }

  /**
   * A physical factor is reported under a CTE's name exactly if its name is bound and does not end in an identifier.
   */
  lemma FactorShadowing(name: ObjectName, alias: Option<string>, scope: seq<Relation>, ctes: CteMap,
                        active: set<string>, depth: nat)
    requires depth <= MAX_DEPTH && Fold(LastIdent(name)) !in ctes
    ensures var r := AddTableFactor(Table(name, alias), scope, ctes, active, depth);
            && r.Ok? && r.value != [] && r.value[|r.value| - 1].expose.Physical?
            && (r.value[|r.value| - 1].expose.table.name in ctes
                <==> !EndsInIdent(name) && TableRefOf(name).name in ctes)
  {
    if EndsInIdent(name) {
      SafeExactly(name);
    }
  }

  function Shadowing(name: ObjectName): Query {
    Query([Cte(TableRefOf(name).name, Query([], Values([])))],
          Select([UnnamedExpr(CompoundIdentifier(["x", "c"]))], [TableWithJoins(Table(name, Some("x")), [])]))
  }

  /**
   * Every other name is read past a CTE of its own table name, in a query that resolves to a source of just that name.
   */
  lemma UnsafeNameIsShadowed(name: ObjectName)
    requires !SafeName(name)
    ensures var query := Shadowing(name);
            && TableRefOf(name).name in WithNames(query.withs)
            && Resolve(query) == Ok([OutputColumn(Some("c"), 0, {SourceRef(TableRefOf(name), Fold("c"))})])
  {
    var query, table := Shadowing(name), TableRefOf(name);
    SafeExactly(name);
    FoldIdempotent(if Idents(name.parts) == [] then name.text else Idents(name.parts)[|Idents(name.parts)| - 1]);
    assert Fold(table.name) == table.name;
    assert Fold(query.withs[0].alias) in WithNames(query.withs);
    var ctes: CteMap := map[][table.name := query.withs[0].query];
    assert Fold(query.withs[0].alias) == table.name && query.withs[1..] == [];
    assert WithCtes(map[], query.withs) == WithCtes(ctes, query.withs[1..]) == ctes;
    var projection, from := query.body.projection, query.body.from;
    var scope := [Relation("x", Physical(table))];
    assert from[1..] == [] && projection[1..] == [] && from[0].joins == [];
    assert LastIdent(name) == "" && Fold("") == "" && table.name != "";
    var nothing: seq<Relation> := [];
    assert nothing + scope == scope && VisibleName(name, Some("x")) == "x";
    assert AddTableFactor(from[0].relation, nothing, ctes, {}, 0) == Ok(nothing + scope);
    assert AddTableWithJoins(from[0], [], ctes, {}, 0) == Ok(scope);
    assert BuildScope(from, [], ctes, {}, 0) == BuildScope(from[1..], scope, ctes, {}, 0) == Ok(scope);
    assert Named(Visibles(scope)[0], "x") && FindName(Visibles(scope), "x") == Some(0);
    assert ResolveColumn(scope, Some("x"), "c") == Ok({SourceRef(table, Fold("c"))});
    var cols := [OutputColumn(Some("c"), 0, {SourceRef(table, Fold("c"))})];
    assert CollectSources(projection[0].expr, scope, ctes, {}, 0) == Ok(cols[0].sources);
    assert ItemName(projection[0]) == Some("c") && Push([], Some("c"), cols[0].sources) == cols;
    assert ResolveItem(projection[0], scope, ctes, {}, 0, []) == Ok(cols);
    assert ResolveItems(projection, scope, ctes, {}, 0, []) == Ok(cols);
    assert ResolveSetExpr(query.body, ctes, {}, 0) == Ok(cols);
  }

  /**
   * One such query: `WITH t AS (VALUES ...) SELECT x.c FROM ... AS x`, where the table name is the identifier `t`
   * followed by a function part, reports the column `c` of a table `t`.
   */
  lemma ShadowedExample()
    ensures var name := ObjectName([Ident("t"), Function], "t()");
            && TableRefOf(name) == TableRef(None, None, "t") && Fold("t") in WithNames(Shadowing(name).withs)
            && Resolve(Shadowing(name)) == Ok([OutputColumn(Some("c"), 0, {SourceRef(TableRef(None, None, "t"), "c")})])
  {
    var name := ObjectName([Ident("t"), Function], "t()");
    assert name.parts[1..] == [Function] && [Function][1..] == [];
    assert Idents([Function]) == [];
    assert Idents(name.parts) == ["t"];
    assert Fold("t") == "t" && Fold("c") == "c";
    UnsafeNameIsShadowed(name);
  }

  // ----- origins -----

  predicate SafeQuery(query: Query) {
    QueryNames(query, SafeName)
  }

  /** Every CTE body in scope uses safe names only. */
  predicate SafeCtes(ctes: CteMap) {
    forall n :: n in ctes ==> SafeQuery(ctes[n])
  }

  ghost predicate Unshadowed(s: SourceRef, names: set<string>) {
    s.table.name !in names
  }

  ghost predicate AllUnshadowed(sources: Sources, names: set<string>) {
    forall s :: s in sources ==> Unshadowed(s, names)
  }

  ghost predicate ColumnsUnshadowed(cols: Columns, names: set<string>) {
    forall i :: 0 <= i < |cols| ==> AllUnshadowed(cols[i].sources, names)
  }

  ghost predicate RelationUnshadowed(rel: Relation, names: set<string>) {
    match rel.expose
    case Physical(table) => table.name !in names
    case Virtual(columns) => forall i :: 0 <= i < |columns| ==> AllUnshadowed(columns[i].sources, names)
  }

  ghost predicate ScopeUnshadowed(scope: seq<Relation>, names: set<string>) {
    forall i :: 0 <= i < |scope| ==> RelationUnshadowed(scope[i], names)
  }

  lemma {:induction false} WithCtesSafe(parent: CteMap, withs: seq<Cte>)
    requires SafeCtes(parent) && forall i :: 0 <= i < |withs| ==> SafeQuery(withs[i].query)
    ensures SafeCtes(WithCtes(parent, withs))
    decreases |withs|
  {
    if withs != [] {
      WithCtesSafe(parent[Fold(withs[0].alias) := withs[0].query], withs[1..]);
    }
  }

  /** With safe names, no reported table bears a name bound by an enclosing `WITH` or by the query's own. */
  lemma {:induction false} QueryOrigin(query: Query, parent: CteMap, active: set<string>, depth: nat,
                                       names: set<string>)
    requires ResolveQuery(query, parent, active, depth).Ok?
    requires names <= parent.Keys + WithNames(query.withs)
    requires SafeCtes(parent) && SafeQuery(query)
    ensures ColumnsUnshadowed(ResolveQuery(query, parent, active, depth).value, names)
    decreases Remaining(depth), query, 1
  {
    WithCtesNames(parent, query.withs);
    WithCtesSafe(parent, query.withs);
    SetExprOrigin(query.body, WithCtes(parent, query.withs), active, depth, names);
  }

  lemma {:induction false} SetExprOrigin(body: SetExpr, ctes: CteMap, active: set<string>, depth: nat,
                                         names: set<string>)
    requires SafeCtes(ctes) && BodyNames(body, SafeName)
    requires depth <= MAX_DEPTH && names <= ctes.Keys && ResolveSetExpr(body, ctes, active, depth).Ok?
    ensures ColumnsUnshadowed(ResolveSetExpr(body, ctes, active, depth).value, names)
    decreases Remaining(depth), body, 1
  {
    match body
    case Select(projection, from) =>
      FromOrigin(from, [], ctes, active, depth, names);
      ItemsOrigin(projection, BuildScope(from, [], ctes, active, depth).value, ctes, active, depth, [], names);
    case Nested(query) => QueryOrigin(query, ctes, active, depth + 1, names);
    case SetOperation(_, left, right) =>
      SetExprOrigin(left, ctes, active, depth, names);
      SetExprOrigin(right, ctes, active, depth, names);
      MergeOrigin(ResolveSetExpr(left, ctes, active, depth).value, ResolveSetExpr(right, ctes, active, depth).value, [],
                  names);
    case Values(rows) => RowsOrigin(rows, ctes, active, depth, [], names);
    case OtherBody =>
  }

  lemma {:induction false} MergeOrigin(left: Columns, right: Columns, out: Columns, names: set<string>)
    requires ColumnsUnshadowed(left, names) && ColumnsUnshadowed(right, names) && ColumnsUnshadowed(out, names)
    ensures ColumnsUnshadowed(Merge(left, right, out), names)
    decreases |left| - |out|
  {
    var i := |out|;
    if i < |left| {
      var sources := left[i].sources + if i < |right| then right[i].sources else {};
      assert AllUnshadowed(left[i].sources, names);
      MergeOrigin(left, right, Push(out, left[i].name, sources), names);
    }
  }

  lemma {:induction false} RowsOrigin(rows: seq<Row>, ctes: CteMap, active: set<string>, depth: nat, out: Columns,
                                      names: set<string>)
    requires SafeCtes(ctes) && forall i :: 0 <= i < |rows| ==> RowNames(rows[i], SafeName)
    requires depth <= MAX_DEPTH && names <= ctes.Keys && ResolveRows(rows, ctes, active, depth, out).Ok?
    requires ColumnsUnshadowed(out, names)
    ensures ColumnsUnshadowed(ResolveRows(rows, ctes, active, depth, out).value, names)
    decreases Remaining(depth), rows, 1
  {
    if rows != [] {
      CellsOrigin(rows[0].content, ctes, active, depth, 0, out, names);
      RowsOrigin(rows[1..], ctes, active, depth, ResolveCells(rows[0].content, ctes, active, depth, 0, out).value,
                 names);
    }
  }

  lemma {:induction false} CellsOrigin(cells: seq<Expr>, ctes: CteMap, active: set<string>, depth: nat, i: nat,
                                       out: Columns, names: set<string>)
    requires SafeCtes(ctes) && forall j :: 0 <= j < |cells| ==> ExprNames(cells[j], SafeName)
    requires depth <= MAX_DEPTH && names <= ctes.Keys && ResolveCells(cells, ctes, active, depth, i, out).Ok?
    requires ColumnsUnshadowed(out, names)
    ensures ColumnsUnshadowed(ResolveCells(cells, ctes, active, depth, i, out).value, names)
    decreases Remaining(depth), cells, 1
  {
    if cells != [] {
      ExprOrigin(cells[0], [], ctes, active, depth, names);
      var sources := CollectSources(cells[0], [], ctes, active, depth).value;
      var next := if i < |out| then out[i := out[i].(sources := out[i].sources + sources)]
                  else Push(out, None, sources);
      if i < |out| { assert AllUnshadowed(out[i].sources, names); }
      CellsOrigin(cells[1..], ctes, active, depth, i + 1, next, names);
    }
  }

  lemma {:induction false} ItemsOrigin(items: seq<SelectItem>, scope: seq<Relation>, ctes: CteMap, active: set<string>,
                                       depth: nat, out: Columns, names: set<string>)
    requires SafeCtes(ctes) && forall i :: 0 <= i < |items| ==> ItemNames(items[i], SafeName)
    requires depth <= MAX_DEPTH && names <= ctes.Keys && ResolveItems(items, scope, ctes, active, depth, out).Ok?
    requires ScopeUnshadowed(scope, names) && ColumnsUnshadowed(out, names)
    ensures ColumnsUnshadowed(ResolveItems(items, scope, ctes, active, depth, out).value, names)
    decreases Remaining(depth), items, 1
  {
    if items != [] {
      ItemOrigin(items[0], scope, ctes, active, depth, out, names);
      ItemsOrigin(items[1..], scope, ctes, active, depth, ResolveItem(items[0], scope, ctes, active, depth, out).value,
                  names);
    }
  }

  lemma {:induction false} ItemOrigin(item: SelectItem, scope: seq<Relation>, ctes: CteMap, active: set<string>,
                                      depth: nat, out: Columns, names: set<string>)
    requires SafeCtes(ctes) && ItemNames(item, SafeName)
    requires depth <= MAX_DEPTH && names <= ctes.Keys && ResolveItem(item, scope, ctes, active, depth, out).Ok?
    requires ScopeUnshadowed(scope, names) && ColumnsUnshadowed(out, names)
    ensures ColumnsUnshadowed(ResolveItem(item, scope, ctes, active, depth, out).value, names)
    decreases Remaining(depth), item, 1
  {
    match item
    case Wildcard =>
      ExpandOrigin(scope, [], names);
      PushOrigin(out, ExpandAll(scope, []).value, names);
    case QualifiedWildcard(name) => PushOrigin(out, ExpandQualified(scope, LastIdent(name)).value, names);
    case UnnamedExpr(expr) => ExprOrigin(expr, scope, ctes, active, depth, names);
    case ExprWithAlias(expr, _) => ExprOrigin(expr, scope, ctes, active, depth, names);
    case ExprWithAliases(expr, _) => ExprOrigin(expr, scope, ctes, active, depth, names);
    case ExprWildcard =>
  }

  ghost predicate ExpandedUnshadowed(expanded: Expanded, names: set<string>) {
    forall i :: 0 <= i < |expanded| ==> AllUnshadowed(expanded[i].sources, names)
  }

  lemma {:induction false} ExpandOrigin(scope: seq<Relation>, expanded: Expanded, names: set<string>)
    requires ScopeUnshadowed(scope, names) && ExpandedUnshadowed(expanded, names) && ExpandAll(scope, expanded).Ok?
    ensures ExpandedUnshadowed(ExpandAll(scope, expanded).value, names)
    decreases |scope|
  {
    if scope != [] {
      assert RelationUnshadowed(scope[0], names);
      ExpandOrigin(scope[1..], expanded + ExpandRelation(scope[0]).value, names);
    }
  }

  lemma {:induction false} PushOrigin(out: Columns, expanded: Expanded, names: set<string>)
    requires ColumnsUnshadowed(out, names) && ExpandedUnshadowed(expanded, names)
    ensures ColumnsUnshadowed(PushExpanded(out, expanded), names)
    decreases |expanded|
  {
    if expanded != [] {
      PushOrigin(Push(out, expanded[0].name, expanded[0].sources), expanded[1..], names);
    }
  }

  lemma {:induction false} FromOrigin(from: seq<TableWithJoins>, scope: seq<Relation>, ctes: CteMap,
                                      active: set<string>, depth: nat, names: set<string>)
    requires SafeCtes(ctes) && forall i :: 0 <= i < |from| ==> TablesNames(from[i], SafeName)
    requires depth <= MAX_DEPTH && names <= ctes.Keys && BuildScope(from, scope, ctes, active, depth).Ok?
    requires ScopeUnshadowed(scope, names)
    ensures ScopeUnshadowed(BuildScope(from, scope, ctes, active, depth).value, names)
    decreases Remaining(depth), from, 1
  {
    if from != [] {
      TablesOrigin(from[0], scope, ctes, active, depth, names);
      FromOrigin(from[1..], AddTableWithJoins(from[0], scope, ctes, active, depth).value, ctes, active, depth, names);
    }
  }

  lemma {:induction false} TablesOrigin(tables: TableWithJoins, scope: seq<Relation>, ctes: CteMap, active: set<string>,
                                        depth: nat, names: set<string>)
    requires SafeCtes(ctes) && TablesNames(tables, SafeName)
    requires depth <= MAX_DEPTH && names <= ctes.Keys && AddTableWithJoins(tables, scope, ctes, active, depth).Ok?
    requires ScopeUnshadowed(scope, names)
    ensures ScopeUnshadowed(AddTableWithJoins(tables, scope, ctes, active, depth).value, names)
    decreases Remaining(depth), tables, 1
  {
    FactorOrigin(tables.relation, scope, ctes, active, depth, names);
    FactorsOrigin(tables.joins, AddTableFactor(tables.relation, scope, ctes, active, depth).value, ctes, active, depth,
                  names);
  }

  lemma {:induction false} FactorsOrigin(factors: seq<TableFactor>, scope: seq<Relation>, ctes: CteMap,
                                         active: set<string>, depth: nat, names: set<string>)
    requires SafeCtes(ctes) && forall i :: 0 <= i < |factors| ==> FactorNames(factors[i], SafeName)
    requires depth <= MAX_DEPTH && names <= ctes.Keys && AddTableFactors(factors, scope, ctes, active, depth).Ok?
    requires ScopeUnshadowed(scope, names)
    ensures ScopeUnshadowed(AddTableFactors(factors, scope, ctes, active, depth).value, names)
    decreases Remaining(depth), factors, 1
  {
    if factors != [] {
      FactorOrigin(factors[0], scope, ctes, active, depth, names);
      FactorsOrigin(factors[1..], AddTableFactor(factors[0], scope, ctes, active, depth).value, ctes, active, depth,
                    names);
    }
  }

  lemma {:induction false} FactorOrigin(factor: TableFactor, scope: seq<Relation>, ctes: CteMap, active: set<string>,
                                        depth: nat, names: set<string>)
    requires SafeCtes(ctes) && FactorNames(factor, SafeName)
    requires depth <= MAX_DEPTH && names <= ctes.Keys && AddTableFactor(factor, scope, ctes, active, depth).Ok?
    requires ScopeUnshadowed(scope, names)
    ensures ScopeUnshadowed(AddTableFactor(factor, scope, ctes, active, depth).value, names)
    decreases Remaining(depth), factor, 1
  {
    match factor
    case Table(name, _) =>
      var folded := Fold(LastIdent(name));
      if folded in ctes {
        QueryOrigin(ctes[folded], ctes, active + {folded}, depth + 1, names);
      } else {
        assert RelationUnshadowed(Relation(VisibleName(name, factor.alias), Physical(TableRefOf(name))), names);
      }
    case Derived(subquery, _) => QueryOrigin(subquery, ctes, active, depth + 1, names);
    case NestedJoin(tables) => TablesOrigin(tables, scope, ctes, active, depth, names);
    case OtherFactor =>
  }

  lemma {:induction false} ExprOrigin(expr: Expr, scope: seq<Relation>, ctes: CteMap, active: set<string>, depth: nat,
                                      names: set<string>)
    requires SafeCtes(ctes) && ExprNames(expr, SafeName)
    requires depth <= MAX_DEPTH && names <= ctes.Keys && CollectSources(expr, scope, ctes, active, depth).Ok?
    requires ScopeUnshadowed(scope, names)
    ensures AllUnshadowed(CollectSources(expr, scope, ctes, active, depth).value, names)
    decreases Remaining(depth), expr, 1
  {
    match expr
    case Subquery(query) => QueryOrigin(query, ctes, active, depth + 1, names);
    case Apply(_, args) => ExprsOrigin(args, scope, ctes, active, depth, names);
    case _ =>
      var reference := ColumnReference(expr);
      if reference.Some? {
        ColumnOrigin(scope, reference.value.0, reference.value.1, names);
      }
  }

  lemma {:induction false} ExprsOrigin(exprs: seq<Expr>, scope: seq<Relation>, ctes: CteMap, active: set<string>,
                                       depth: nat, names: set<string>)
    requires SafeCtes(ctes) && forall i :: 0 <= i < |exprs| ==> ExprNames(exprs[i], SafeName)
    requires depth <= MAX_DEPTH && names <= ctes.Keys && CollectAll(exprs, scope, ctes, active, depth).Ok?
    requires ScopeUnshadowed(scope, names)
    ensures AllUnshadowed(CollectAll(exprs, scope, ctes, active, depth).value, names)
    decreases Remaining(depth), exprs, 1
  {
    if exprs != [] {
      ExprOrigin(exprs[0], scope, ctes, active, depth, names);
      ExprsOrigin(exprs[1..], scope, ctes, active, depth, names);
    }
  }

  lemma InRelationOrigin(rel: Relation, column: string, names: set<string>)
    requires RelationUnshadowed(rel, names) && ResolveInRelation(rel, column).Ok?
    ensures AllUnshadowed(ResolveInRelation(rel, column).value, names)
  {
    if rel.expose.Physical? {
      var s := SourceRef(rel.expose.table, Fold(column));
      assert ResolveInRelation(rel, column).value == {s};
    }
  }

  lemma ColumnOrigin(scope: seq<Relation>, qualifier: Option<string>, column: string, names: set<string>)
    requires ScopeUnshadowed(scope, names) && ResolveColumn(scope, qualifier, column).Ok?
    ensures AllUnshadowed(ResolveColumn(scope, qualifier, column).value, names)
  {
    if qualifier.Some? {
      InRelationOrigin(RelationNamed(scope, qualifier.value).value, column, names);
    } else if |scope| == 1 {
      InRelationOrigin(scope[0], column, names);
    } else {
      CandidatesCountProducers(scope, column);
      var i :| 0 <= i < |scope| && Produces(scope, column, i)
               && ResolveInRelation(scope[i], column) == Ok(Candidates(scope, column)[0]);
      InRelationOrigin(scope[i], column, names);
    }
  }

  /** The sources of a top-level query with safe names avoid all its CTE names. */
  lemma ReportedTablesAreNoCtes(query: Query, i: nat, s: SourceRef)
    requires Resolve(query).Ok? && SafeQuery(query) && i < |Resolve(query).value|
    ensures s in Resolve(query).value[i].sources ==> s.table.name !in WithNames(query.withs)
  {
    QueryOrigin(query, map[], {}, 0, WithNames(query.withs));
    assert AllUnshadowed(Resolve(query).value[i].sources, WithNames(query.withs));
  }
}
