/** The resolver as the program runs it: scopes and collectors are updated in place, columns pushed in loops. */
module LineageResolver {
  import opened Common
  import opened LineageAst
  import opened ScopeRules
  import opened ResolveRules
  import opened VisitorEvents
  import opened LineageScope

  method ResolveQueryIn(query: Query, parent: CteMap, active: set<string>, depth: nat) returns (r: Resolved)
    ensures r == ResolveRules.ResolveQuery(query, parent, active, depth)
    decreases Remaining(depth), query, 2
  {
    if depth > MAX_DEPTH {
      return Err(DepthLimitExceeded);
    }
    var ctes := parent;
    for k := 0 to |query.withs|
      invariant WithCtes(parent, query.withs) == WithCtes(ctes, query.withs[k..])
    {
      assert query.withs[k..][1..] == query.withs[k + 1..];
      ctes := ctes[Fold(query.withs[k].alias) := query.withs[k].query];
    }
    r := ResolveSetExpr(query.body, ctes, active, depth);
  }

  method ResolveSetExpr(body: SetExpr, ctes: CteMap, active: set<string>, depth: nat) returns (r: Resolved)
    requires depth <= MAX_DEPTH
    ensures r == ResolveRules.ResolveSetExpr(body, ctes, active, depth)
    decreases Remaining(depth), body, 2
  {
    match body
    case Select(projection, from) => r := ResolveSelect(projection, from, ctes, active, depth);
    case Nested(query) => r := ResolveQueryIn(query, ctes, active, depth + 1);
    case SetOperation(_, left, right) =>
      var leftCols := ResolveSetExpr(left, ctes, active, depth);
      if leftCols.Err? { return leftCols; }
      var rightCols := ResolveSetExpr(right, ctes, active, depth);
      if rightCols.Err? { return rightCols; }
      var out: Columns := [];
      for i := 0 to |leftCols.value|
        invariant |out| == i
        invariant Merge(leftCols.value, rightCols.value, []) == Merge(leftCols.value, rightCols.value, out)
      {
        var sources := leftCols.value[i].sources;
        if i < |rightCols.value| {
          sources := sources + rightCols.value[i].sources;
        } else {
          assert sources + {} == sources;
        }
        out := Push(out, leftCols.value[i].name, sources);
      }
      r := Ok(out);
    case Values(rows) => r := ResolveValues(rows, ctes, active, depth);
    case OtherBody => r := Ok([]);
  }

  method ResolveValues(rows: seq<Row>, ctes: CteMap, active: set<string>, depth: nat) returns (r: Resolved)
    requires depth <= MAX_DEPTH
    ensures r == ResolveRows(rows, ctes, active, depth, [])
    decreases Remaining(depth), rows, 2
  {
    var scope := new Scope();
    var out: Columns := [];
    for k := 0 to |rows|
      invariant scope.relations == []
      invariant ResolveRows(rows, ctes, active, depth, []) == ResolveRows(rows[k..], ctes, active, depth, out)
    {
      assert rows[k..][0] == rows[k] && rows[k..][1..] == rows[k + 1..];
      var cells := rows[k].content;
      ghost var before := out;
      for i := 0 to |cells|
        invariant scope.relations == []
        invariant ResolveCells(cells, ctes, active, depth, 0, before)
                  == ResolveCells(cells[i..], ctes, active, depth, i, out)
      {
        assert cells[i..][0] == cells[i] && cells[i..][1..] == cells[i + 1..];
        var sources := CollectSources(cells[i], scope, ctes, active, depth);
        if sources.Err? { return Err(sources.error); }
        if i < |out| {
          out := out[i := out[i].(sources := out[i].sources + sources.value)];
        } else {
          out := Push(out, None, sources.value);
        }
      }
    }
    r := Ok(out);
  }

  method ResolveSelect(projection: seq<SelectItem>, from: seq<TableWithJoins>, ctes: CteMap, active: set<string>,
                       depth: nat) returns (r: Resolved)
    requires depth <= MAX_DEPTH
    ensures r == ResolveRules.ResolveSetExpr(Select(projection, from), ctes, active, depth)
    decreases Remaining(depth), Select(projection, from), 1
  {
    var built, scope := BuildScope(from, ctes, active, depth);
    if built.Err? { return Err(built.error); }
    var out: Columns := [];
    for k := 0 to |projection|
      invariant Ok(scope.relations) == ResolveRules.BuildScope(from, [], ctes, active, depth)
      invariant ResolveItems(projection, scope.relations, ctes, active, depth, [])
                == ResolveItems(projection[k..], scope.relations, ctes, active, depth, out)
    {
      assert projection[k..][0] == projection[k] && projection[k..][1..] == projection[k + 1..];
      var item := projection[k];
      match item {
        case Wildcard =>
          var expanded := scope.ExpandWildcard();
          if expanded.Err? { return Err(expanded.error); }
          out := PushAll(out, expanded.value);
        case QualifiedWildcard(name) =>
          var expanded := scope.ExpandQualifiedWildcard(LastIdent(name));
          if expanded.Err? { return Err(expanded.error); }
          out := PushAll(out, expanded.value);
        case ExprWildcard =>
          return Err(UnresolvedColumn("*", WildcardOnExpression));
        case _ =>
          assert item in projection && item.expr < item;
          var sources := CollectSources(item.expr, scope, ctes, active, depth);
          if sources.Err? { return Err(sources.error); }
          out := Push(out, ItemName(item), sources.value);
      }
    }
    r := Ok(out);
  }

  method PushAll(before: Columns, expanded: Expanded) returns (out: Columns)
    ensures out == PushExpanded(before, expanded)
  {
    out := before;
    for i := 0 to |expanded|
      invariant PushExpanded(before, expanded) == PushExpanded(out, expanded[i..])
    {
      assert expanded[i..][1..] == expanded[i + 1..];
      out := Push(out, expanded[i].name, expanded[i].sources);
    }
  }

  method BuildScope(from: seq<TableWithJoins>, ctes: CteMap, active: set<string>, depth: nat)
    returns (r: Result<(), LineageError>, scope: Scope)
    requires depth <= MAX_DEPTH
    ensures fresh(scope)
    ensures Added(r, scope.relations, ResolveRules.BuildScope(from, [], ctes, active, depth))
    decreases Remaining(depth), from, 2
  {
    scope := new Scope();
    for k := 0 to |from|
      invariant ResolveRules.BuildScope(from, [], ctes, active, depth)
                == ResolveRules.BuildScope(from[k..], scope.relations, ctes, active, depth)
    {
      assert from[k..][0] == from[k] && from[k..][1..] == from[k + 1..];
      r := AddTableWithJoins(from[k], scope, ctes, active, depth);
      if r.Err? { return; }
    }
    r := Ok(());
  }

  /** A scope update that succeeds leaves the relations the rules give; one that fails reports their error. */
  ghost predicate Added(r: Result<(), LineageError>, relations: seq<Relation>,
                        rules: Result<seq<Relation>, LineageError>) {
    match rules
    case Ok(expected) => r == Ok(()) && relations == expected
    case Err(error) => r == Err(error)
  }

  method AddTableWithJoins(tables: TableWithJoins, scope: Scope, ctes: CteMap, active: set<string>, depth: nat)
    returns (r: Result<(), LineageError>)
    requires depth <= MAX_DEPTH
    modifies scope
    ensures Added(r, scope.relations, ResolveRules.AddTableWithJoins(tables, old(scope.relations), ctes, active, depth))
    decreases Remaining(depth), tables, 2
  {
    r := AddTableFactor(tables.relation, scope, ctes, active, depth);
    if r.Err? { return; }
    ghost var first := scope.relations;
    for k := 0 to |tables.joins|
      invariant AddTableFactors(tables.joins, first, ctes, active, depth)
                == AddTableFactors(tables.joins[k..], scope.relations, ctes, active, depth)
    {
      assert tables.joins[k..][0] == tables.joins[k] && tables.joins[k..][1..] == tables.joins[k + 1..];
      r := AddTableFactor(tables.joins[k], scope, ctes, active, depth);
      if r.Err? { return; }
    }
    r := Ok(());
  }

  method AddTableFactor(factor: TableFactor, scope: Scope, ctes: CteMap, active: set<string>, depth: nat)
    returns (r: Result<(), LineageError>)
    requires depth <= MAX_DEPTH
    modifies scope
    ensures Added(r, scope.relations, ResolveRules.AddTableFactor(factor, old(scope.relations), ctes, active, depth))
    decreases Remaining(depth), factor, 2
  {
    r := Ok(());
    match factor
    case Table(name, alias) =>
      var visible := VisibleName(name, alias);
      var folded := Fold(LastIdent(name));
      if folded in ctes {
        if folded in active {
          return Err(CircularReference(LastIdent(name)));
        }
        var cols := ResolveQueryIn(ctes[folded], ctes, active + {folded}, depth + 1);
        if cols.Err? { return Err(cols.error); }
        scope.Push(visible, Virtual(VirtualFrom(cols.value)));
      } else {
        scope.Push(visible, Physical(TableRefOf(name)));
      }
    case Derived(subquery, alias) =>
      var cols := ResolveQueryIn(subquery, ctes, active, depth + 1);
      if cols.Err? { return Err(cols.error); }
      scope.Push(alias.GetOr(""), Virtual(VirtualFrom(cols.value)));
    case NestedJoin(tables) => r := AddTableWithJoins(tables, scope, ctes, active, depth);
    case OtherFactor =>
  }

  method CollectSources(expr: Expr, scope: Scope, ctes: CteMap, active: set<string>, depth: nat)
    returns (r: Result<Sources, LineageError>)
    requires depth <= MAX_DEPTH
    ensures r == ResolveRules.CollectSources(expr, scope.relations, ctes, active, depth)
    decreases Remaining(depth), expr, 2
  {
    var collector := new ExprCollector(scope, ctes, active, depth);
    var events := ExprEvents(expr);
    for k := 0 to |events|
      invariant collector.Fixed(scope, ctes, active, depth)
      invariant Run(events, State(0, {}), scope.relations, ctes, active, depth)
                == Run(events[k..], collector.Now(), scope.relations, ctes, active, depth)
    {
      assert events[k..][0] == events[k] && events[k..][1..] == events[k + 1..];
      var visited: Result<(), LineageError>;
      match events[k] {
        case PreQuery(query) => visited := collector.PreVisitQuery(query);
        case PostQuery(_) => collector.PostVisitQuery(); visited := Ok(());
        case PreExpr(e) => visited := collector.PreVisitExpr(e);
      }
      VisitCollects(expr, {}, scope.relations, ctes, active, depth);
      if visited.Err? { return Err(visited.error); }
    }
    VisitCollects(expr, {}, scope.relations, ctes, active, depth);
    r := Ok(collector.sources);
    assert {} + collector.sources == collector.sources;
  }

  /** Collects column references; `queryDepth` is above 0 while the visitor is inside a subquery. */
  class ExprCollector {
    const scope: Scope
    const ctes: CteMap
    const active: set<string>
    const depth: nat
    var queryDepth: nat
    var sources: Sources

    constructor (scope: Scope, ctes: CteMap, active: set<string>, depth: nat)
      ensures Fixed(scope, ctes, active, depth) && Now() == State(0, {})
    {
      this.scope, this.ctes, this.active, this.depth := scope, ctes, active, depth;
      queryDepth, sources := 0, {};
    }

    ghost predicate Fixed(scope: Scope, ctes: CteMap, active: set<string>, depth: nat) {
      this.scope == scope && this.ctes == ctes && this.active == active && this.depth == depth
    }

    ghost function Now(): State
      reads this
    {
      State(queryDepth, sources)
    }

    ghost predicate Stepped(r: Result<(), LineageError>, expected: Outcome)
      reads this
    {
      match expected
      case Ok(s) => r == Ok(()) && Now() == s
      case Err(error) => r == Err(error)
    }

    method PreVisitQuery(query: Query) returns (r: Result<(), LineageError>)
      requires depth <= MAX_DEPTH
      modifies this
      ensures Stepped(r, Step(PreQuery(query), old(Now()), scope.relations, ctes, active, depth))
      decreases Remaining(depth + 1), query, 3
    {
      if queryDepth == 0 {
        var cols := ResolveQueryIn(query, ctes, active, depth + 1);
        if cols.Err? { return Err(cols.error); }
        ghost var before := sources;
        for i := 0 to |cols.value|
          invariant queryDepth == 0
          invariant sources == before + AllSources(cols.value[..i])
        {
          sources := sources + cols.value[i].sources;
          assert AllSources(cols.value[..i + 1]) == AllSources(cols.value[..i]) + cols.value[i].sources;
        }
        assert cols.value[..|cols.value|] == cols.value;
      }
      queryDepth := queryDepth + 1;
      r := Ok(());
    }

    method PostVisitQuery()
      modifies this
      ensures queryDepth == (if old(queryDepth) == 0 then 0 else old(queryDepth) - 1) && sources == old(sources)
    {
      queryDepth := if queryDepth == 0 then 0 else queryDepth - 1;
    }

    method PreVisitExpr(expr: Expr) returns (r: Result<(), LineageError>)
      requires depth <= MAX_DEPTH
      modifies this
      ensures Stepped(r, Step(PreExpr(expr), old(Now()), scope.relations, ctes, active, depth))
    {
      if queryDepth > 0 {
        return Ok(());
      }
      var reference := ColumnReference(expr);
      if reference.Some? {
        var found := scope.ResolveColumn(reference.value.0, reference.value.1);
        if found.Err? { return Err(found.error); }
        sources := sources + found.value;
      }
      r := Ok(());
    }
  }

  /** Resolves a top-level query. */
  method Resolve(query: Query) returns (r: Resolved)
    ensures r == ResolveRules.Resolve(query)
  {
    r := ResolveQueryIn(query, map[], {}, 0);
  }
}
