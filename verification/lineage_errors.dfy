/** What each error of the resolver means, and when a query is accepted. */
module ErrorMeaning {
  import opened Common
  import opened LineageAst
  import opened ScopeRules
  import opened ResolveRules
  import opened Headings
  import opened QueryRuns
  import opened Acceptance

  // ----- what a run shows to be wrong -----

  /** The error is about a reference, not about nesting. */
  predicate Unresolved(e: LineageError) {
    e.UnresolvedColumn? || e.UnknownTable?
  }

  /** The run ends in reading `cte` while it is being read already. */
  predicate ReadsAgain(run: seq<Step>, active: set<string>, cte: string) {
    && run != [] && run[|run| - 1].cte == Some(cte)
    && (cte in active || exists i :: 0 <= i < |run| - 1 && run[i].cte == Some(cte))
  }

  /** Too many nestings, a CTE read while being read, or a reference that denotes nothing at the end of the run. */
  ghost predicate Blames(query: Query, parent: CteMap, run: seq<Step>, active: set<string>, depth: nat,
                         e: LineageError) {
    match e
    case DepthLimitExceeded => depth + |run| > 64
    case CircularReference(cte) => ReadsAgain(run, active, Fold(cte))
    case _ => !QueryDenotes(End(query, parent, run).0, End(query, parent, run).1)
  }

  ghost predicate Blamed(query: Query, parent: CteMap, active: set<string>, depth: nat, e: LineageError) {
    exists run :: IsRun(query, parent, run) && Blames(query, parent, run, active, depth, e)
  }

  ghost predicate BlamedStep(step: Step, active: set<string>, depth: nat, e: LineageError) {
    exists run :: IsRun(step.query, step.ctes, run) && Blames(step.query, step.ctes, [step] + run, active, depth, e)
  }

  ghost predicate BlamedSteps(steps: seq<Step>, active: set<string>, depth: nat, e: LineageError) {
    exists step :: step in steps && BlamedStep(step, active, depth, e)
  }

  lemma StepOfQuery(step: Step, active: set<string>, depth: nat, e: LineageError)
    requires Blamed(step.query, step.ctes, Entered(active, step.cte), depth + 1, e)
    ensures BlamedSteps([step], active, depth, e)
  {
    var run: seq<Step> :| IsRun(step.query, step.ctes, run)
               && Blames(step.query, step.ctes, run, Entered(active, step.cte), depth + 1, e);
    var whole := [step] + run;
    assert End(step.query, step.ctes, whole) == End(step.query, step.ctes, run);
    if e.CircularReference? {
      var cte := Fold(e.cte);
      assert whole[|whole| - 1] == run[|run| - 1];
      if cte !in Entered(active, step.cte) {
        var i :| 0 <= i < |run| - 1 && run[i].cte == Some(cte);
        assert whole[i + 1] == run[i];
      } else if cte !in active {
        assert whole[0].cte == Some(cte);
      }
    }
    assert BlamedStep(step, active, depth, e);
  }

  lemma EnteredNone(active: set<string>)
    ensures Entered(active, None) == active
  {
  }

  lemma QueryOfSteps(query: Query, parent: CteMap, active: set<string>, depth: nat, e: LineageError)
    requires BlamedSteps(QuerySteps(query, parent), active, depth, e)
             || (Unresolved(e) && !QueryDenotes(query, parent))
    ensures Blamed(query, parent, active, depth, e)
  {
    if BlamedSteps(QuerySteps(query, parent), active, depth, e) {
      var step :| step in QuerySteps(query, parent) && BlamedStep(step, active, depth, e);
      var run: seq<Step> :| IsRun(step.query, step.ctes, run)
        && Blames(step.query, step.ctes, [step] + run, active, depth, e);
      var whole := [step] + run;
      assert whole[1..] == run && IsRun(query, parent, whole);
      assert End(query, parent, whole) == End(step.query, step.ctes, whole);
      assert Blames(query, parent, whole, active, depth, e);
    } else {
      assert IsRun(query, parent, []) && Blames(query, parent, [], active, depth, e);
    }
  }

  // ----- every error has such a run -----

  lemma {:induction false} QueryBlames(query: Query, parent: CteMap, active: set<string>, depth: nat)
    requires ResolveQuery(query, parent, active, depth).Err?
    ensures Blamed(query, parent, active, depth, ResolveQuery(query, parent, active, depth).error)
    decreases Remaining(depth), query, 1
  {
    var e := ResolveQuery(query, parent, active, depth).error;
    if depth > MAX_DEPTH {
      assert IsRun(query, parent, []) && Blames(query, parent, [], active, depth, e);
    } else {
      BodyBlames(query.body, WithCtes(parent, query.withs), active, depth);
      hide BlamedSteps, Blamed;
      QueryOfSteps(query, parent, active, depth, e);
    }
  }

  lemma {:induction false} BodyBlames(body: SetExpr, ctes: CteMap, active: set<string>, depth: nat)
    requires depth <= MAX_DEPTH && ResolveSetExpr(body, ctes, active, depth).Err?
    ensures var e := ResolveSetExpr(body, ctes, active, depth).error;
            BlamedSteps(BodySteps(body, ctes), active, depth, e)
            || (Unresolved(e) && !BodyDenotes(body, ctes, NESTING))
    decreases Remaining(depth), body, 1
  {
    hide BlamedStep, Blamed;
    match body
    case Select(projection, from) =>
      if BuildScope(from, [], ctes, active, depth).Err? {
        FromBlames(from, [], ctes, active, depth);
      } else {
        FromAccepted(from, [], ctes, active, depth, NESTING);
        var scope := BuildScope(from, [], ctes, active, depth).value;
        assert Exposure(scope) == FromHeading(from, ctes, NESTING);
        ItemsBlame(projection, scope, ctes, active, depth, []);
      }
    case Nested(query) =>
      QueryBlames(query, ctes, active, depth + 1);
      EnteredNone(active);
      StepOfQuery(Step(None, query, ctes), active, depth, ResolveSetExpr(body, ctes, active, depth).error);
    case SetOperation(_, left, right) =>
      if ResolveSetExpr(left, ctes, active, depth).Err? {
        BodyBlames(left, ctes, active, depth);
      } else {
        BodyBlames(right, ctes, active, depth);
      }
    case Values(rows) => RowsBlame(rows, ctes, active, depth, []);
  }

  lemma {:induction false} RowsBlame(rows: seq<Row>, ctes: CteMap, active: set<string>, depth: nat, out: Columns)
    requires depth <= MAX_DEPTH && ResolveRows(rows, ctes, active, depth, out).Err?
    ensures var e := ResolveRows(rows, ctes, active, depth, out).error;
            BlamedSteps(RowsSteps(rows, ctes), active, depth, e)
            || (Unresolved(e)
                && exists i, j :: 0 <= i < |rows| && 0 <= j < |rows[i].content| && !ExprDenotes(rows[i].content[j], []))
    decreases Remaining(depth), rows, 1
  {
    hide BlamedStep, ExprDenotes;
    if ResolveCells(rows[0].content, ctes, active, depth, 0, out).Err? {
      CellsBlame(rows[0].content, ctes, active, depth, 0, out);
    } else {
      RowsBlame(rows[1..], ctes, active, depth, ResolveCells(rows[0].content, ctes, active, depth, 0, out).value);
      if i, j :| 0 <= i < |rows| - 1 && 0 <= j < |rows[1..][i].content| && !ExprDenotes(rows[1..][i].content[j], []) {
        assert rows[1..][i] == rows[i + 1];
      }
    }
  }

  lemma {:induction false} CellsBlame(cells: seq<Expr>, ctes: CteMap, active: set<string>, depth: nat, i: nat,
                                      out: Columns)
    requires depth <= MAX_DEPTH && ResolveCells(cells, ctes, active, depth, i, out).Err?
    ensures var e := ResolveCells(cells, ctes, active, depth, i, out).error;
            BlamedSteps(ExprsSteps(cells, ctes), active, depth, e)
            || (Unresolved(e) && exists j :: 0 <= j < |cells| && !ExprDenotes(cells[j], []))
    decreases Remaining(depth), cells, 1
  {
    hide BlamedStep, ExprDenotes;
    assert Exposure([]) == [];
    if CollectSources(cells[0], [], ctes, active, depth).Err? {
      ExprBlames(cells[0], [], ctes, active, depth);
    } else {
      var sources := CollectSources(cells[0], [], ctes, active, depth).value;
      var next := if i < |out| then out[i := out[i].(sources := out[i].sources + sources)]
                  else Push(out, None, sources);
      CellsBlame(cells[1..], ctes, active, depth, i + 1, next);
      if j :| 0 <= j < |cells| - 1 && !ExprDenotes(cells[1..][j], []) {
        assert cells[1..][j] == cells[j + 1];
      }
    }
  }

  lemma {:induction false} ItemsBlame(items: seq<SelectItem>, scope: seq<Relation>, ctes: CteMap, active: set<string>,
                                      depth: nat, out: Columns)
    requires depth <= MAX_DEPTH && ResolveItems(items, scope, ctes, active, depth, out).Err?
    ensures var e := ResolveItems(items, scope, ctes, active, depth, out).error;
            BlamedSteps(ItemsSteps(items, ctes), active, depth, e)
            || (Unresolved(e) && exists i :: 0 <= i < |items| && !ItemDenotes(items[i], Exposure(scope)))
    decreases Remaining(depth), items, 1
  {
    hide BlamedStep, ItemDenotes, ResolveItem;
    if ResolveItem(items[0], scope, ctes, active, depth, out).Err? {
      ItemBlames(items[0], scope, ctes, active, depth, out);
    } else {
      ItemsBlame(items[1..], scope, ctes, active, depth, ResolveItem(items[0], scope, ctes, active, depth, out).value);
      if i :| 0 <= i < |items| - 1 && !ItemDenotes(items[1..][i], Exposure(scope)) {
        assert items[1..][i] == items[i + 1];
      }
    }
  }

  lemma {:induction false} ItemBlames(item: SelectItem, scope: seq<Relation>, ctes: CteMap, active: set<string>,
                                      depth: nat, out: Columns)
    requires depth <= MAX_DEPTH && ResolveItem(item, scope, ctes, active, depth, out).Err?
    ensures var e := ResolveItem(item, scope, ctes, active, depth, out).error;
            BlamedSteps(ItemSteps(item, ctes), active, depth, e)
            || (Unresolved(e) && !ItemDenotes(item, Exposure(scope)))
    decreases Remaining(depth), item, 1
  {
    hide BlamedSteps, ExprDenotes, CollectSources;
    match item
    case UnnamedExpr(expr) => ExprBlames(expr, scope, ctes, active, depth);
    case ExprWithAlias(expr, _) => ExprBlames(expr, scope, ctes, active, depth);
    case ExprWithAliases(expr, _) => ExprBlames(expr, scope, ctes, active, depth);
    case Wildcard =>
      WildcardExactly(scope, []);
      WildcardUnresolved(scope, []);
    case QualifiedWildcard(name) => QualifiedExactly(scope, LastIdent(name));
    case ExprWildcard =>
  }

  lemma {:induction false} WildcardUnresolved(scope: seq<Relation>, before: Expanded)
    ensures ExpandAll(scope, before).Err? ==> Unresolved(ExpandAll(scope, before).error)
  {
    if scope != [] && scope[0].expose.Virtual? {
      WildcardUnresolved(scope[1..], before + scope[0].expose.columns);
    }
  }

  lemma {:induction false} FromBlames(from: seq<TableWithJoins>, scope: seq<Relation>, ctes: CteMap,
                                      active: set<string>, depth: nat)
    requires depth <= MAX_DEPTH && BuildScope(from, scope, ctes, active, depth).Err?
    ensures BlamedSteps(FromSteps(from, ctes), active, depth, BuildScope(from, scope, ctes, active, depth).error)
    decreases Remaining(depth), from, 1
  {
    hide BlamedStep;
    var first := AddTableWithJoins(from[0], scope, ctes, active, depth);
    if first.Err? {
      TablesBlame(from[0], scope, ctes, active, depth);
    } else {
      FromBlames(from[1..], first.value, ctes, active, depth);
    }
  }

  lemma {:induction false} TablesBlame(tables: TableWithJoins, scope: seq<Relation>, ctes: CteMap, active: set<string>,
                                       depth: nat)
    requires depth <= MAX_DEPTH && AddTableWithJoins(tables, scope, ctes, active, depth).Err?
    ensures BlamedSteps(TablesSteps(tables, ctes), active, depth,
                        AddTableWithJoins(tables, scope, ctes, active, depth).error)
    decreases Remaining(depth), tables, 1
  {
    hide BlamedStep;
    var first := AddTableFactor(tables.relation, scope, ctes, active, depth);
    if first.Err? {
      FactorBlames(tables.relation, scope, ctes, active, depth);
    } else {
      FactorsBlame(tables.joins, first.value, ctes, active, depth);
    }
  }

  lemma {:induction false} FactorsBlame(factors: seq<TableFactor>, scope: seq<Relation>, ctes: CteMap,
                                        active: set<string>, depth: nat)
    requires depth <= MAX_DEPTH && AddTableFactors(factors, scope, ctes, active, depth).Err?
    ensures BlamedSteps(FactorsSteps(factors, ctes), active, depth,
                        AddTableFactors(factors, scope, ctes, active, depth).error)
    decreases Remaining(depth), factors, 1
  {
    hide BlamedStep;
    var first := AddTableFactor(factors[0], scope, ctes, active, depth);
    if first.Err? {
      FactorBlames(factors[0], scope, ctes, active, depth);
    } else {
      FactorsBlame(factors[1..], first.value, ctes, active, depth);
    }
  }

  lemma {:induction false} FactorBlames(factor: TableFactor, scope: seq<Relation>, ctes: CteMap, active: set<string>,
                                        depth: nat)
    requires depth <= MAX_DEPTH && AddTableFactor(factor, scope, ctes, active, depth).Err?
    ensures BlamedSteps(FactorSteps(factor, ctes), active, depth,
                        AddTableFactor(factor, scope, ctes, active, depth).error)
    decreases Remaining(depth), factor, 1
  {
    hide Blamed;
    var e := AddTableFactor(factor, scope, ctes, active, depth).error;
    match factor
    case Table(name, _) =>
      var folded := Fold(LastIdent(name));
      var step := Step(Some(folded), ctes[folded], ctes);
      if folded in active {
        assert IsRun(step.query, step.ctes, []) && ReadsAgain([step] + [], active, Fold(e.cte));
        assert BlamedStep(step, active, depth, e);
      } else {
        QueryBlames(ctes[folded], ctes, active + {folded}, depth + 1);
        StepOfQuery(step, active, depth, e);
      }
    case Derived(subquery, _) =>
      QueryBlames(subquery, ctes, active, depth + 1);
      EnteredNone(active);
      StepOfQuery(Step(None, subquery, ctes), active, depth, e);
    case NestedJoin(tables) => TablesBlame(tables, scope, ctes, active, depth);
  }

  lemma {:induction false} ExprBlames(expr: Expr, scope: seq<Relation>, ctes: CteMap, active: set<string>, depth: nat)
    requires depth <= MAX_DEPTH && CollectSources(expr, scope, ctes, active, depth).Err?
    ensures var e := CollectSources(expr, scope, ctes, active, depth).error;
            BlamedSteps(ExprSteps(expr, ctes), active, depth, e)
            || (Unresolved(e) && !ExprDenotes(expr, Exposure(scope)))
    decreases Remaining(depth), expr, 1
  {
    hide Blamed, Denotes;
    match expr
    case Subquery(query) =>
      QueryBlames(query, ctes, active, depth + 1);
      EnteredNone(active);
      StepOfQuery(Step(None, query, ctes), active, depth, CollectSources(expr, scope, ctes, active, depth).error);
    case Apply(_, args) => ExprsBlame(args, scope, ctes, active, depth);
    case _ =>
      var reference := ColumnReference(expr).value;
      ColumnExactly(scope, reference.0, reference.1);
  }

  lemma {:induction false} ExprsBlame(exprs: seq<Expr>, scope: seq<Relation>, ctes: CteMap, active: set<string>,
                                      depth: nat)
    requires depth <= MAX_DEPTH && CollectAll(exprs, scope, ctes, active, depth).Err?
    ensures var e := CollectAll(exprs, scope, ctes, active, depth).error;
            BlamedSteps(ExprsSteps(exprs, ctes), active, depth, e)
            || (Unresolved(e) && exists i :: 0 <= i < |exprs| && !ExprDenotes(exprs[i], Exposure(scope)))
    decreases Remaining(depth), exprs, 1
  {
    hide BlamedStep, ExprDenotes;
    if CollectSources(exprs[0], scope, ctes, active, depth).Err? {
      ExprBlames(exprs[0], scope, ctes, active, depth);
    } else {
      ExprsBlame(exprs[1..], scope, ctes, active, depth);
      if i :| 0 <= i < |exprs| - 1 && !ExprDenotes(exprs[1..][i], Exposure(scope)) {
        assert exprs[1..][i] == exprs[i + 1];
      }
    }
  }

  // ----- main results -----

  lemma BlamedIsNotFine(query: Query, parent: CteMap, run: seq<Step>, active: set<string>, depth: nat, e: LineageError)
    requires Blames(query, parent, run, active, depth, e)
    ensures !FineRun(query, parent, run, active, depth)
  {
  }

  /**
   * A query resolves exactly if no chain of nested queries is longer than 64, none reads a CTE while it is being read,
   * and in every query reached each reference and wildcard denotes columns. Its columns then bear its heading's names.
   */
  lemma ResolvesExactly(query: Query)
    ensures Resolve(query).Ok? <==>
            forall run :: IsRun(query, map[], run) ==>
              && |run| <= 64 && NoneTwice(run, {})
              && QueryDenotes(End(query, map[], run).0, End(query, map[], run).1)
    ensures Resolve(query).Ok? ==> Columned(Resolve(query).value) == QueryHeading(query, map[], NESTING)
  {
    hide QueryDenotes, IsRun;
    if Resolve(query).Ok? {
      QueryAccepted(query, map[], {}, 0, NESTING);
      forall run | IsRun(query, map[], run) ensures FineRun(query, map[], run, {}, 0) {
      }
    } else {
      var e := Resolve(query).error;
      QueryBlames(query, map[], {}, 0);
      var run: seq<Step> :| IsRun(query, map[], run) && Blames(query, map[], run, {}, 0, e);
      BlamedIsNotFine(query, map[], run, {}, 0, e);
    }
  }

  /** A circular reference is one: some chain of nested queries reads the CTE, and in reading it reads it again. */
  lemma CircularMeans(query: Query, cte: string) returns (run: seq<Step>, i: nat)
    requires Resolve(query) == Err(CircularReference(cte))
    ensures IsRun(query, map[], run) && i < |run| - 1
    ensures run[i].cte == Some(Fold(cte)) == run[|run| - 1].cte
  {
    QueryBlames(query, map[], {}, 0);
    run :| IsRun(query, map[], run) && Blames(query, map[], run, {}, 0, CircularReference(cte));
    i :| 0 <= i < |run| - 1 && run[i].cte == Some(Fold(cte));
  }

  /** A query is nested too deeply only if some chain of nested queries is longer than 64. */
  lemma DepthMeans(query: Query) returns (run: seq<Step>)
    requires Resolve(query) == Err(DepthLimitExceeded)
    ensures IsRun(query, map[], run) && |run| > 64
  {
    QueryBlames(query, map[], {}, 0);
    run :| IsRun(query, map[], run) && Blames(query, map[], run, {}, 0, DepthLimitExceeded);
  }

  /** A table named by one identifier. */
  function Reading(name: string): TableFactor {
    Table(ObjectName([Ident(name)], name), None)
  }

  /** `SELECT * FROM <name>`, with these `WITH` items. */
  function All(withs: seq<Cte>, name: string): Query {
    Query(withs, Select([Wildcard], [TableWithJoins(Reading(name), [])]))
  }

  /**
   * CTEs being read are told apart by name alone: one that rebinds its own name in a `WITH` of its own is refused as
   * circular, although `WITH a AS (WITH a AS (VALUES ...) SELECT * FROM a) SELECT * FROM a` reads no query twice.
   */
  lemma RebindingIsCircular()
    ensures var query := All([Cte("a", All([Cte("a", Query([], Values([])))], "a"))], "a");
            Resolve(query) == Err(CircularReference("a"))
  {
    var inner := All([Cte("a", Query([], Values([])))], "a");
    var query := All([Cte("a", inner)], "a");
    var ctes: CteMap := map["a" := inner];
    var ctes': CteMap := map["a" := Query([], Values([]))];
    assert Fold("a") == "a";
    assert query.withs[1..] == [] && inner.withs[1..] == [];
    assert WithCtes(map[], query.withs) == WithCtes(ctes, query.withs[1..]) == ctes;
    assert WithCtes(ctes, inner.withs) == WithCtes(ctes', inner.withs[1..]) == ctes';
    var table := TableWithJoins(Reading("a"), []);
    var nothing: seq<Relation> := [];
    assert LastIdent(ObjectName([Ident("a")], "a")) == "a";
    assert {} + {"a"} == {"a"};
    assert AddTableFactor(Reading("a"), nothing, ctes', {"a"}, 1) == Err(CircularReference("a"));
    assert BuildScope([table], nothing, ctes', {"a"}, 1) == Err(CircularReference("a"));
    assert ResolveSetExpr(inner.body, ctes', {"a"}, 1) == Err(CircularReference("a"));
    assert ResolveQuery(inner, ctes, {"a"}, 1) == Err(CircularReference("a"));
    assert AddTableFactor(Reading("a"), nothing, ctes, {}, 0) == Err(CircularReference("a"));
    assert BuildScope([table], nothing, ctes, {}, 0) == Err(CircularReference("a"));
  }
}
