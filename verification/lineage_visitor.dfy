/** The order in which the syntax-tree visitor announces queries and expressions, and what the collector makes of it. */
module VisitorEvents {
  import opened Common
  import opened LineageAst
  import opened ScopeRules
  import opened ResolveRules

  datatype Event = PreQuery(query: Query) | PostQuery(query: Query) | PreExpr(expr: Expr)

  function QueryEvents(query: Query): seq<Event>
    decreases query, 1
  {
    [PreQuery(query)] + CteEvents(query.withs) + BodyEvents(query.body) + [PostQuery(query)]
  }

  function CteEvents(withs: seq<Cte>): seq<Event>
    decreases withs, 1
  {
    if withs == [] then [] else QueryEvents(withs[0].query) + CteEvents(withs[1..])
  }

  function BodyEvents(body: SetExpr): seq<Event>
    decreases body, 1
  {
    match body
    case Select(projection, from) => ItemEvents(projection) + FromEvents(from)
    case Nested(query) => QueryEvents(query)
    case SetOperation(_, left, right) => BodyEvents(left) + BodyEvents(right)
    case Values(rows) => RowEvents(rows)
    case OtherBody => []
  }

  function RowEvents(rows: seq<Row>): seq<Event>
    decreases rows, 1
  {
    if rows == [] then [] else ArgumentEvents(rows[0].content) + RowEvents(rows[1..])
  }

  function ItemEvents(items: seq<SelectItem>): seq<Event>
    decreases items, 1
  {
    if items == [] then [] else ItemEvent(items[0]) + ItemEvents(items[1..])
  }

  function ItemEvent(item: SelectItem): seq<Event>
    decreases item, 1
  {
    match item
    case UnnamedExpr(expr) => ExprEvents(expr)
    case ExprWithAlias(expr, _) => ExprEvents(expr)
    case ExprWithAliases(expr, _) => ExprEvents(expr)
    case _ => []
  }

  function FromEvents(from: seq<TableWithJoins>): seq<Event>
    decreases from, 1
  {
    if from == [] then [] else TablesEvents(from[0]) + FromEvents(from[1..])
  }

  function TablesEvents(tables: TableWithJoins): seq<Event>
    decreases tables, 1
  {
    FactorEvents(tables.relation) + JoinEvents(tables.joins)
  }

  function JoinEvents(factors: seq<TableFactor>): seq<Event>
    decreases factors, 1
  {
    if factors == [] then [] else FactorEvents(factors[0]) + JoinEvents(factors[1..])
  }

  function FactorEvents(factor: TableFactor): seq<Event>
    decreases factor, 1
  {
    match factor
    case Derived(subquery, _) => QueryEvents(subquery)
    case NestedJoin(tables) => TablesEvents(tables)
    case _ => []
  }

  function ExprEvents(expr: Expr): seq<Event>
    decreases expr, 1
  {
    [PreExpr(expr)] + (match expr
                       case Subquery(query) => QueryEvents(query)
                       case Apply(_, args) => ArgumentEvents(args)
                       case _ => [])
  }

  function ArgumentEvents(exprs: seq<Expr>): seq<Event>
    decreases exprs, 1
  {
    if exprs == [] then [] else ExprEvents(exprs[0]) + ArgumentEvents(exprs[1..])
  }

  /** What the collector holds between two callbacks. */
  datatype State = State(queryDepth: nat, sources: Sources)

  type Outcome = Result<State, LineageError>

  function Step(event: Event, s: State, scope: seq<Relation>, ctes: CteMap, active: set<string>, depth: nat): Outcome
    requires depth <= MAX_DEPTH
  {
    match event
    case PreQuery(query) =>
      if s.queryDepth == 0 then
        var cols :- ResolveQuery(query, ctes, active, depth + 1);
        Ok(State(1, s.sources + AllSources(cols)))
      else Ok(s.(queryDepth := s.queryDepth + 1))
    case PostQuery(_) => Ok(s.(queryDepth := if s.queryDepth == 0 then 0 else s.queryDepth - 1))
    case PreExpr(expr) =>
      var reference := ColumnReference(expr);
      if s.queryDepth > 0 || reference.None? then Ok(s)
      else
        var found :- ResolveColumn(scope, reference.value.0, reference.value.1);
        Ok(s.(sources := s.sources + found))
  }

  function Run(events: seq<Event>, s: State, scope: seq<Relation>, ctes: CteMap, active: set<string>,
               depth: nat): Outcome
    requires depth <= MAX_DEPTH
    decreases |events|
  {
    if events == [] then Ok(s)
    else
      var next :- Step(events[0], s, scope, ctes, active, depth);
      Run(events[1..], next, scope, ctes, active, depth)
  }

  lemma {:induction false} RunConcat(a: seq<Event>, b: seq<Event>, s: State, scope: seq<Relation>, ctes: CteMap,
                                     active: set<string>, depth: nat)
    requires depth <= MAX_DEPTH
    ensures var first := Run(a, s, scope, ctes, active, depth);
            Run(a + b, s, scope, ctes, active, depth)
            == if first.Err? then first else Run(b, first.value, scope, ctes, active, depth)
    decreases |a|
  {
    if a == [] {
      assert a + b == b;
    } else {
      assert (a + b)[1..] == a[1..] + b;
      var next := Step(a[0], s, scope, ctes, active, depth);
      if next.Ok? {
        RunConcat(a[1..], b, next.value, scope, ctes, active, depth);
      }
    }
  }

  /** The query depth after `events`, or 0 as soon as it gets there. */
  function Track(events: seq<Event>, d: nat): nat
    decreases |events|
  {
    if events == [] || d == 0 then d
    else Track(events[1..], if events[0].PreQuery? then d + 1 else if events[0].PostQuery? then d - 1 else d)
  }

  lemma {:induction false} TrackConcat(a: seq<Event>, b: seq<Event>, d: nat)
    ensures Track(a + b, d) == Track(b, Track(a, d))
    decreases |a|
  {
    if a == [] {
      assert a + b == b;
    } else if d > 0 {
      assert (a + b)[1..] == a[1..] + b;
      TrackConcat(a[1..], b, if a[0].PreQuery? then d + 1 else if a[0].PostQuery? then d - 1 else d);
    }
  }

  /** Inside a query, nothing is resolved and nothing collected. */
  lemma {:induction false} InsideIsInert(events: seq<Event>, s: State, scope: seq<Relation>, ctes: CteMap,
                                         active: set<string>, depth: nat)
    requires depth <= MAX_DEPTH && Track(events, s.queryDepth) > 0
    ensures Run(events, s, scope, ctes, active, depth) == Ok(s.(queryDepth := Track(events, s.queryDepth)))
    decreases |events|
  {
    if events != [] {
      var next := Step(events[0], s, scope, ctes, active, depth).value;
      InsideIsInert(events[1..], next, scope, ctes, active, depth);
    }
  }

  // Every subtree announces as many query ends as query starts, and never an end first.

  lemma {:induction false} QueryBalanced(query: Query, d: nat)
    requires d > 0
    ensures Track(QueryEvents(query), d) == d
    decreases query, 1
  {
    var inner := CteEvents(query.withs) + BodyEvents(query.body);
    CtesBalanced(query.withs, d + 1);
    BodyBalanced(query.body, d + 1);
    TrackConcat(CteEvents(query.withs), BodyEvents(query.body), d + 1);
    TrackConcat(inner, [PostQuery(query)], d + 1);
    assert QueryEvents(query) == [PreQuery(query)] + (inner + [PostQuery(query)]);
    assert QueryEvents(query)[1..] == inner + [PostQuery(query)];
    assert Track([PostQuery(query)], d + 1) == d;
  }

  lemma {:induction false} CtesBalanced(withs: seq<Cte>, d: nat)
    requires d > 0
    ensures Track(CteEvents(withs), d) == d
    decreases withs, 1
  {
    if withs != [] {
      QueryBalanced(withs[0].query, d);
      CtesBalanced(withs[1..], d);
      TrackConcat(QueryEvents(withs[0].query), CteEvents(withs[1..]), d);
    }
  }

  lemma {:induction false} BodyBalanced(body: SetExpr, d: nat)
    requires d > 0
    ensures Track(BodyEvents(body), d) == d
    decreases body, 1
  {
    match body
    case Select(projection, from) =>
      ItemsBalanced(projection, d);
      FromBalanced(from, d);
      TrackConcat(ItemEvents(projection), FromEvents(from), d);
    case Nested(query) => QueryBalanced(query, d);
    case SetOperation(_, left, right) =>
      BodyBalanced(left, d);
      BodyBalanced(right, d);
      TrackConcat(BodyEvents(left), BodyEvents(right), d);
    case Values(rows) => RowsBalanced(rows, d);
    case OtherBody =>
  }

  lemma {:induction false} RowsBalanced(rows: seq<Row>, d: nat)
    requires d > 0
    ensures Track(RowEvents(rows), d) == d
    decreases rows, 1
  {
    if rows != [] {
      ArgumentsBalanced(rows[0].content, d);
      RowsBalanced(rows[1..], d);
      TrackConcat(ArgumentEvents(rows[0].content), RowEvents(rows[1..]), d);
    }
  }

  lemma {:induction false} ItemsBalanced(items: seq<SelectItem>, d: nat)
    requires d > 0
    ensures Track(ItemEvents(items), d) == d
    decreases items, 1
  {
    if items != [] {
      ItemBalanced(items[0], d);
      ItemsBalanced(items[1..], d);
      TrackConcat(ItemEvent(items[0]), ItemEvents(items[1..]), d);
    }
  }

  lemma {:induction false} ItemBalanced(item: SelectItem, d: nat)
    requires d > 0
    ensures Track(ItemEvent(item), d) == d
    decreases item, 1
  {
    match item
    case UnnamedExpr(expr) => ExprBalanced(expr, d);
    case ExprWithAlias(expr, _) => ExprBalanced(expr, d);
    case ExprWithAliases(expr, _) => ExprBalanced(expr, d);
    case _ =>
  }

  lemma {:induction false} FromBalanced(from: seq<TableWithJoins>, d: nat)
    requires d > 0
    ensures Track(FromEvents(from), d) == d
    decreases from, 1
  {
    if from != [] {
      TablesBalanced(from[0], d);
      FromBalanced(from[1..], d);
      TrackConcat(TablesEvents(from[0]), FromEvents(from[1..]), d);
    }
  }

  lemma {:induction false} TablesBalanced(tables: TableWithJoins, d: nat)
    requires d > 0
    ensures Track(TablesEvents(tables), d) == d
    decreases tables, 1
  {
    FactorBalanced(tables.relation, d);
    JoinsBalanced(tables.joins, d);
    TrackConcat(FactorEvents(tables.relation), JoinEvents(tables.joins), d);
  }

  lemma {:induction false} JoinsBalanced(factors: seq<TableFactor>, d: nat)
    requires d > 0
    ensures Track(JoinEvents(factors), d) == d
    decreases factors, 1
  {
    if factors != [] {
      FactorBalanced(factors[0], d);
      JoinsBalanced(factors[1..], d);
      TrackConcat(FactorEvents(factors[0]), JoinEvents(factors[1..]), d);
    }
  }

  lemma {:induction false} FactorBalanced(factor: TableFactor, d: nat)
    requires d > 0
    ensures Track(FactorEvents(factor), d) == d
    decreases factor, 1
  {
    match factor
    case Derived(subquery, _) => QueryBalanced(subquery, d);
    case NestedJoin(tables) => TablesBalanced(tables, d);
    case _ =>
  }

  lemma {:induction false} ExprBalanced(expr: Expr, d: nat)
    requires d > 0
    ensures Track(ExprEvents(expr), d) == d
    decreases expr, 1
  {
    match expr
    case Subquery(query) =>
      QueryBalanced(query, d);
      assert ExprEvents(expr)[1..] == QueryEvents(query);
    case Apply(_, args) =>
      ArgumentsBalanced(args, d);
      assert ExprEvents(expr)[1..] == ArgumentEvents(args);
    case _ =>
      assert ExprEvents(expr)[1..] == [];
  }

  lemma {:induction false} ArgumentsBalanced(exprs: seq<Expr>, d: nat)
    requires d > 0
    ensures Track(ArgumentEvents(exprs), d) == d
    decreases exprs, 1
  {
    if exprs != [] {
      ExprBalanced(exprs[0], d);
      ArgumentsBalanced(exprs[1..], d);
      TrackConcat(ExprEvents(exprs[0]), ArgumentEvents(exprs[1..]), d);
    }
  }

  /** A top-level subquery counts once, with its output columns only. */
  lemma {:induction false} SubqueryVisit(query: Query, sources: Sources, scope: seq<Relation>, ctes: CteMap,
                                         active: set<string>, depth: nat)
    requires depth <= MAX_DEPTH
    ensures var cols := ResolveQuery(query, ctes, active, depth + 1);
            Run(QueryEvents(query), State(0, sources), scope, ctes, active, depth)
            == if cols.Err? then Err(cols.error) else Ok(State(0, sources + AllSources(cols.value)))
  {
    var cols := ResolveQuery(query, ctes, active, depth + 1);
    var inner := CteEvents(query.withs) + BodyEvents(query.body);
    assert QueryEvents(query)[1..] == inner + [PostQuery(query)];
    if cols.Ok? {
      var inside := State(1, sources + AllSources(cols.value));
      CtesBalanced(query.withs, 1);
      BodyBalanced(query.body, 1);
      TrackConcat(CteEvents(query.withs), BodyEvents(query.body), 1);
      InsideIsInert(inner, inside, scope, ctes, active, depth);
      RunConcat(inner, [PostQuery(query)], inside, scope, ctes, active, depth);
    }
  }

  /** Visiting an expression collects exactly its sources, or stops at its first error. */
  lemma {:induction false} VisitCollects(expr: Expr, sources: Sources, scope: seq<Relation>, ctes: CteMap,
                                         active: set<string>, depth: nat)
    requires depth <= MAX_DEPTH
    ensures var found := CollectSources(expr, scope, ctes, active, depth);
            Run(ExprEvents(expr), State(0, sources), scope, ctes, active, depth)
            == if found.Err? then Err(found.error) else Ok(State(0, sources + found.value))
    decreases expr, 1
  {
    match expr
    case Subquery(query) =>
      assert ExprEvents(expr)[1..] == QueryEvents(query);
      SubqueryVisit(query, sources, scope, ctes, active, depth);
    case Apply(_, args) =>
      assert ExprEvents(expr)[1..] == ArgumentEvents(args);
      VisitCollectsAll(args, sources, scope, ctes, active, depth);
    case _ =>
      assert ExprEvents(expr)[1..] == [];
      assert sources + {} == sources;
  }

  lemma {:induction false} VisitCollectsAll(exprs: seq<Expr>, sources: Sources, scope: seq<Relation>, ctes: CteMap,
                                            active: set<string>, depth: nat)
    requires depth <= MAX_DEPTH
    ensures var found := CollectAll(exprs, scope, ctes, active, depth);
            Run(ArgumentEvents(exprs), State(0, sources), scope, ctes, active, depth)
            == if found.Err? then Err(found.error) else Ok(State(0, sources + found.value))
    decreases exprs, 1
  {
    if exprs == [] {
      assert sources + {} == sources;
    } else {
      VisitCollects(exprs[0], sources, scope, ctes, active, depth);
      RunConcat(ExprEvents(exprs[0]), ArgumentEvents(exprs[1..]), State(0, sources), scope, ctes, active, depth);
      var first := CollectSources(exprs[0], scope, ctes, active, depth);
      if first.Ok? {
        VisitCollectsAll(exprs[1..], sources + first.value, scope, ctes, active, depth);
        var rest := CollectAll(exprs[1..], scope, ctes, active, depth);
        if rest.Ok? {
          assert (sources + first.value) + rest.value == sources + (first.value + rest.value);
        }
      }
    }
  }
}
