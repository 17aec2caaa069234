/** An inlined query mentions no CTE name any more. */
module InlinedReferences {
  import opened Common
  import opened LineageAst
  import opened ScopeRules
  import opened ResolveRules
  import opened CteInlining
  import opened TableNames

  /** The table names the resolver would not read as a CTE of `names`. */
  function Avoids(names: set<string>): ObjectName -> bool {
    (name: ObjectName) => Fold(LastIdent(name)) !in names
  }

  /**
   * Inlining a query that resolves leaves no table factor, at any depth, that reads as a CTE in scope: every reference
   * to an enclosing `WITH` or to the query's own has been replaced.
   */
  lemma {:induction false} QueryReplaced(query: Query, parent: CteMap, active: set<string>, depth: nat, k: nat,
                                         names: set<string>)
    requires ResolveQuery(query, parent, active, depth).Ok? && k >= Remaining(depth)
    requires names <= parent.Keys + WithNames(query.withs)
    ensures QueryNames(InlineQuery(query, parent, k), Avoids(names))
    decreases Remaining(depth), query, 1
  {
    WithCtesNames(parent, query.withs);
    BodyReplaced(query.body, WithCtes(parent, query.withs), active, depth, k, names);
  }

  lemma {:induction false} BodyReplaced(body: SetExpr, ctes: CteMap, active: set<string>, depth: nat, k: nat,
                                        names: set<string>)
    requires depth <= MAX_DEPTH && k >= Remaining(depth) && names <= ctes.Keys
    requires ResolveSetExpr(body, ctes, active, depth).Ok?
    ensures BodyNames(InlineSetExpr(body, ctes, k), Avoids(names))
    decreases Remaining(depth), body, 1
  {
    match body
    case Select(projection, from) =>
      FromReplaced(from, [], ctes, active, depth, k, names);
      ItemsReplaced(projection, BuildScope(from, [], ctes, active, depth).value, ctes, active, depth, k, [], names);
    case Nested(query) => QueryReplaced(query, ctes, active, depth + 1, k, names);
    case SetOperation(_, left, right) =>
      BodyReplaced(left, ctes, active, depth, k, names);
      BodyReplaced(right, ctes, active, depth, k, names);
    case Values(rows) => RowsReplaced(rows, ctes, active, depth, k, [], names);
    case OtherBody =>
  }

  lemma {:induction false} RowsReplaced(rows: seq<Row>, ctes: CteMap, active: set<string>, depth: nat, k: nat,
                                        out: Columns, names: set<string>)
    requires depth <= MAX_DEPTH && k >= Remaining(depth) && names <= ctes.Keys
    requires ResolveRows(rows, ctes, active, depth, out).Ok?
    ensures forall i :: 0 <= i < |InlineRows(rows, ctes, k)| ==> RowNames(InlineRows(rows, ctes, k)[i], Avoids(names))
    decreases Remaining(depth), rows, 1
  {
    if rows != [] {
      CellsReplaced(rows[0].content, ctes, active, depth, k, 0, out, names);
      RowsReplaced(rows[1..], ctes, active, depth, k, ResolveCells(rows[0].content, ctes, active, depth, 0, out).value,
                   names);
    }
  }

  lemma {:induction false} CellsReplaced(cells: seq<Expr>, ctes: CteMap, active: set<string>, depth: nat, k: nat,
                                         i: nat, out: Columns, names: set<string>)
    requires depth <= MAX_DEPTH && k >= Remaining(depth) && names <= ctes.Keys
    requires ResolveCells(cells, ctes, active, depth, i, out).Ok?
    ensures forall j :: 0 <= j < |InlineExprs(cells, ctes, k)| ==>
              ExprNames(InlineExprs(cells, ctes, k)[j], Avoids(names))
    decreases Remaining(depth), cells, 1
  {
    if cells != [] {
      ExprReplaced(cells[0], [], ctes, active, depth, k, names);
      var sources := CollectSources(cells[0], [], ctes, active, depth).value;
      var next := if i < |out| then out[i := out[i].(sources := out[i].sources + sources)]
                  else Push(out, None, sources);
      CellsReplaced(cells[1..], ctes, active, depth, k, i + 1, next, names);
    }
  }

  lemma {:induction false} ItemsReplaced(items: seq<SelectItem>, scope: seq<Relation>, ctes: CteMap,
                                         active: set<string>, depth: nat, k: nat, out: Columns, names: set<string>)
    requires depth <= MAX_DEPTH && k >= Remaining(depth) && names <= ctes.Keys
    requires ResolveItems(items, scope, ctes, active, depth, out).Ok?
    ensures forall i :: 0 <= i < |InlineItems(items, ctes, k)| ==>
              ItemNames(InlineItems(items, ctes, k)[i], Avoids(names))
    decreases Remaining(depth), items, 1
  {
    if items != [] {
      ItemReplaced(items[0], scope, ctes, active, depth, k, out, names);
      ItemsReplaced(items[1..], scope, ctes, active, depth, k,
                    ResolveItem(items[0], scope, ctes, active, depth, out).value, names);
    }
  }

  lemma {:induction false} ItemReplaced(item: SelectItem, scope: seq<Relation>, ctes: CteMap, active: set<string>,
                                        depth: nat, k: nat, out: Columns, names: set<string>)
    requires depth <= MAX_DEPTH && k >= Remaining(depth) && names <= ctes.Keys
    requires ResolveItem(item, scope, ctes, active, depth, out).Ok?
    ensures ItemNames(InlineItem(item, ctes, k), Avoids(names))
    decreases Remaining(depth), item, 1
  {
    match item
    case UnnamedExpr(expr) => ExprReplaced(expr, scope, ctes, active, depth, k, names);
    case ExprWithAlias(expr, _) => ExprReplaced(expr, scope, ctes, active, depth, k, names);
    case ExprWithAliases(expr, _) => ExprReplaced(expr, scope, ctes, active, depth, k, names);
    case _ =>
  }

  lemma {:induction false} FromReplaced(from: seq<TableWithJoins>, scope: seq<Relation>, ctes: CteMap,
                                        active: set<string>, depth: nat, k: nat, names: set<string>)
    requires depth <= MAX_DEPTH && k >= Remaining(depth) && names <= ctes.Keys
    requires BuildScope(from, scope, ctes, active, depth).Ok?
    ensures forall i :: 0 <= i < |InlineFrom(from, ctes, k)| ==>
              TablesNames(InlineFrom(from, ctes, k)[i], Avoids(names))
    decreases Remaining(depth), from, 1
  {
    if from != [] {
      TablesReplaced(from[0], scope, ctes, active, depth, k, names);
      FromReplaced(from[1..], AddTableWithJoins(from[0], scope, ctes, active, depth).value, ctes, active, depth, k,
                   names);
    }
  }

  lemma {:induction false} TablesReplaced(tables: TableWithJoins, scope: seq<Relation>, ctes: CteMap,
                                          active: set<string>, depth: nat, k: nat, names: set<string>)
    requires depth <= MAX_DEPTH && k >= Remaining(depth) && names <= ctes.Keys
    requires AddTableWithJoins(tables, scope, ctes, active, depth).Ok?
    ensures TablesNames(InlineTables(tables, ctes, k), Avoids(names))
    decreases Remaining(depth), tables, 1
  {
    FactorReplaced(tables.relation, scope, ctes, active, depth, k, names);
    FactorsReplaced(tables.joins, AddTableFactor(tables.relation, scope, ctes, active, depth).value, ctes, active,
                    depth, k, names);
  }

  lemma {:induction false} FactorsReplaced(factors: seq<TableFactor>, scope: seq<Relation>, ctes: CteMap,
                                           active: set<string>, depth: nat, k: nat, names: set<string>)
    requires depth <= MAX_DEPTH && k >= Remaining(depth) && names <= ctes.Keys
    requires AddTableFactors(factors, scope, ctes, active, depth).Ok?
    ensures forall i :: 0 <= i < |InlineFactors(factors, ctes, k)| ==>
              FactorNames(InlineFactors(factors, ctes, k)[i], Avoids(names))
    decreases Remaining(depth), factors, 1
  {
    if factors != [] {
      FactorReplaced(factors[0], scope, ctes, active, depth, k, names);
      FactorsReplaced(factors[1..], AddTableFactor(factors[0], scope, ctes, active, depth).value, ctes, active, depth,
                      k, names);
    }
  }

  lemma {:induction false} FactorReplaced(factor: TableFactor, scope: seq<Relation>, ctes: CteMap, active: set<string>,
                                          depth: nat, k: nat, names: set<string>)
    requires depth <= MAX_DEPTH && k >= Remaining(depth) && names <= ctes.Keys
    requires AddTableFactor(factor, scope, ctes, active, depth).Ok?
    ensures FactorNames(InlineFactor(factor, ctes, k), Avoids(names))
    decreases Remaining(depth), factor, 1
  {
    match factor
    case Table(name, _) =>
      var folded := Fold(LastIdent(name));
      if folded in ctes {
        QueryReplaced(ctes[folded], ctes, active + {folded}, depth + 1, k - 1, names);
      }
    case Derived(subquery, _) => QueryReplaced(subquery, ctes, active, depth + 1, k, names);
    case NestedJoin(tables) => TablesReplaced(tables, scope, ctes, active, depth, k, names);
    case OtherFactor =>
  }

  lemma {:induction false} ExprReplaced(expr: Expr, scope: seq<Relation>, ctes: CteMap, active: set<string>, depth: nat,
                                        k: nat, names: set<string>)
    requires depth <= MAX_DEPTH && k >= Remaining(depth) && names <= ctes.Keys
    requires CollectSources(expr, scope, ctes, active, depth).Ok?
    ensures ExprNames(InlineExpr(expr, ctes, k), Avoids(names))
    decreases Remaining(depth), expr, 1
  {
    match expr
    case Subquery(query) => QueryReplaced(query, ctes, active, depth + 1, k, names);
    case Apply(_, args) => ExprsReplaced(args, scope, ctes, active, depth, k, names);
    case _ =>
  }

  lemma {:induction false} ExprsReplaced(exprs: seq<Expr>, scope: seq<Relation>, ctes: CteMap, active: set<string>,
                                         depth: nat, k: nat, names: set<string>)
    requires depth <= MAX_DEPTH && k >= Remaining(depth) && names <= ctes.Keys
    requires CollectAll(exprs, scope, ctes, active, depth).Ok?
    ensures forall i :: 0 <= i < |InlineExprs(exprs, ctes, k)| ==>
              ExprNames(InlineExprs(exprs, ctes, k)[i], Avoids(names))
    decreases Remaining(depth), exprs, 1
  {
    if exprs != [] {
      ExprReplaced(exprs[0], scope, ctes, active, depth, k, names);
      ExprsReplaced(exprs[1..], scope, ctes, active, depth, k, names);
    }
  }
}
