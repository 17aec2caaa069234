/** What the resolver computes, as functions: every loop is a fold from the left over what it has so far. */
module ResolveRules {
  import opened Common
  import opened LineageAst
  import opened ScopeRules

  /** Maximum query-nesting depth. */
  const MAX_DEPTH: nat := 64

  /** Folded CTE name to defining query. */
  type CteMap = map<string, Query>
  type Columns = seq<OutputColumn>
  type Resolved = Result<Columns, LineageError>

  function Remaining(depth: nat): nat {
    if depth > MAX_DEPTH then 0 else MAX_DEPTH + 1 - depth
  }

  function Push(out: Columns, name: Option<string>, sources: Sources): Columns {
    out + [OutputColumn(name, |out|, sources)]
  }

  function PushExpanded(out: Columns, expanded: Expanded): Columns
    decreases |expanded|
  {
    if expanded == [] then out
    else PushExpanded(Push(out, expanded[0].name, expanded[0].sources), expanded[1..])
  }

  function VirtualFrom(cols: Columns): (r: seq<VirtCol>)
    ensures |r| == |cols|
    ensures forall i :: 0 <= i < |r| ==> r[i] == VirtCol(cols[i].name, cols[i].sources)
  {
    seq(|cols|, i requires 0 <= i < |cols| => VirtCol(cols[i].name, cols[i].sources))
  }

  /** All names of one `WITH` become visible together; a later one replaces an earlier one of the same name. */
  function WithCtes(parent: CteMap, withs: seq<Cte>): CteMap
    decreases |withs|
  {
    if withs == [] then parent else WithCtes(parent[Fold(withs[0].alias) := withs[0].query], withs[1..])
  }

  /** The folded names one `WITH` binds. */
  function WithNames(withs: seq<Cte>): set<string> {
    set i | 0 <= i < |withs| :: Fold(withs[i].alias)
  }

  lemma {:induction false} WithCtesNames(parent: CteMap, withs: seq<Cte>)
    ensures WithCtes(parent, withs).Keys == parent.Keys + WithNames(withs)
    decreases |withs|
  {
    if withs != [] {
      WithCtesNames(parent[Fold(withs[0].alias) := withs[0].query], withs[1..]);
      assert WithNames(withs) == {Fold(withs[0].alias)} + WithNames(withs[1..]) by {
        forall n | n in WithNames(withs) ensures n == Fold(withs[0].alias) || n in WithNames(withs[1..]) {
          var i :| 0 <= i < |withs| && n == Fold(withs[i].alias);
          if i > 0 { assert withs[1..][i - 1] == withs[i]; }
        }
        forall n | n in WithNames(withs[1..]) ensures n in WithNames(withs) {
          var i :| 0 <= i < |withs| - 1 && n == Fold(withs[1..][i].alias);
          assert withs[i + 1] == withs[1..][i];
        }
      }
    }
  }

  function ResolveQuery(query: Query, parent: CteMap, active: set<string>, depth: nat): Resolved
    decreases Remaining(depth), query, 1
  {
    if depth > MAX_DEPTH then Err(DepthLimitExceeded)
    else ResolveSetExpr(query.body, WithCtes(parent, query.withs), active, depth)
  }

  function ResolveSetExpr(body: SetExpr, ctes: CteMap, active: set<string>, depth: nat): Resolved
    requires depth <= MAX_DEPTH
    decreases Remaining(depth), body, 1
  {
    match body
    case Select(projection, from) =>
      var scope :- BuildScope(from, [], ctes, active, depth);
      ResolveItems(projection, scope, ctes, active, depth, [])
    case Nested(query) => ResolveQuery(query, ctes, active, depth + 1)
    case SetOperation(_, left, right) =>
      var l :- ResolveSetExpr(left, ctes, active, depth);
      var r :- ResolveSetExpr(right, ctes, active, depth);
      Ok(Merge(l, r, []))
    case Values(rows) => ResolveRows(rows, ctes, active, depth, [])
    case OtherBody => Ok([])
  }

  /** Left columns, each with the sources of the right column at its position, if any. */
  function Merge(left: Columns, right: Columns, out: Columns): Columns
    decreases |left| - |out|
  {
    var i := |out|;
    if i >= |left| then out
    else Merge(left, right,
               Push(out, left[i].name, left[i].sources + if i < |right| then right[i].sources else {}))
  }

  function ResolveRows(rows: seq<Row>, ctes: CteMap, active: set<string>, depth: nat, out: Columns): Resolved
    requires depth <= MAX_DEPTH
    decreases Remaining(depth), rows, 1
  {
    if rows == [] then Ok(out)
    else
      var next :- ResolveCells(rows[0].content, ctes, active, depth, 0, out);
      ResolveRows(rows[1..], ctes, active, depth, next)
  }

  /** The cells of one row from position `i` on. */
  function ResolveCells(cells: seq<Expr>, ctes: CteMap, active: set<string>, depth: nat, i: nat, out: Columns): Resolved
    requires depth <= MAX_DEPTH
    decreases Remaining(depth), cells, 1
  {
    if cells == [] then Ok(out)
    else
      var sources :- CollectSources(cells[0], [], ctes, active, depth);
      var next := if i < |out| then out[i := out[i].(sources := out[i].sources + sources)]
                  else Push(out, None, sources);
      ResolveCells(cells[1..], ctes, active, depth, i + 1, next)
  }

  function ResolveItems(items: seq<SelectItem>, scope: seq<Relation>, ctes: CteMap, active: set<string>, depth: nat,
                        out: Columns): Resolved
    requires depth <= MAX_DEPTH
    decreases Remaining(depth), items, 1
  {
    if items == [] then Ok(out)
    else
      var next :- ResolveItem(items[0], scope, ctes, active, depth, out);
      ResolveItems(items[1..], scope, ctes, active, depth, next)
  }

  function ItemName(item: SelectItem): Option<string> {
    match item
    case UnnamedExpr(expr) => OutputName(expr)
    case ExprWithAlias(_, alias) => Some(alias)
    case ExprWithAliases(_, aliases) => if aliases == [] then None else Some(aliases[0])
    case _ => None
  }

  function ResolveItem(item: SelectItem, scope: seq<Relation>, ctes: CteMap, active: set<string>, depth: nat,
                       out: Columns): Resolved
    requires depth <= MAX_DEPTH
    decreases Remaining(depth), item, 1
  {
    match item
    case Wildcard =>
      var expanded :- ExpandAll(scope, []);
      Ok(PushExpanded(out, expanded))
    case QualifiedWildcard(name) =>
      var expanded :- ExpandQualified(scope, LastIdent(name));
      Ok(PushExpanded(out, expanded))
    case ExprWildcard => Err(UnresolvedColumn("*", WildcardOnExpression))
    case UnnamedExpr(expr) =>
      var sources :- CollectSources(expr, scope, ctes, active, depth);
      Ok(Push(out, ItemName(item), sources))
    case ExprWithAlias(expr, _) =>
      var sources :- CollectSources(expr, scope, ctes, active, depth);
      Ok(Push(out, ItemName(item), sources))
    case ExprWithAliases(expr, _) =>
      var sources :- CollectSources(expr, scope, ctes, active, depth);
      Ok(Push(out, ItemName(item), sources))
  }

  function BuildScope(from: seq<TableWithJoins>, scope: seq<Relation>, ctes: CteMap, active: set<string>, depth: nat)
    : Result<seq<Relation>, LineageError>
    requires depth <= MAX_DEPTH
    decreases Remaining(depth), from, 1
  {
    if from == [] then Ok(scope)
    else
      var next :- AddTableWithJoins(from[0], scope, ctes, active, depth);
      BuildScope(from[1..], next, ctes, active, depth)
  }

  function AddTableWithJoins(tables: TableWithJoins, scope: seq<Relation>, ctes: CteMap, active: set<string>,
                             depth: nat)
    : Result<seq<Relation>, LineageError>
    requires depth <= MAX_DEPTH
    decreases Remaining(depth), tables, 1
  {
    var first :- AddTableFactor(tables.relation, scope, ctes, active, depth);
    AddTableFactors(tables.joins, first, ctes, active, depth)
  }

  function AddTableFactors(factors: seq<TableFactor>, scope: seq<Relation>, ctes: CteMap, active: set<string>,
                           depth: nat)
    : Result<seq<Relation>, LineageError>
    requires depth <= MAX_DEPTH
    decreases Remaining(depth), factors, 1
  {
    if factors == [] then Ok(scope)
    else
      var next :- AddTableFactor(factors[0], scope, ctes, active, depth);
      AddTableFactors(factors[1..], next, ctes, active, depth)
  }

  function VisibleName(name: ObjectName, alias: Option<string>): string {
    alias.GetOr(LastIdent(name))
  }

  function AddTableFactor(factor: TableFactor, scope: seq<Relation>, ctes: CteMap, active: set<string>, depth: nat)
    : Result<seq<Relation>, LineageError>
    requires depth <= MAX_DEPTH
    decreases Remaining(depth), factor, 1
  {
    match factor
    case Table(name, alias) =>
      var folded := Fold(LastIdent(name));
      if folded in ctes then
        if folded in active then Err(CircularReference(LastIdent(name)))
        else
          var cols :- ResolveQuery(ctes[folded], ctes, active + {folded}, depth + 1);
          Ok(scope + [Relation(VisibleName(name, alias), Virtual(VirtualFrom(cols)))])
      else Ok(scope + [Relation(VisibleName(name, alias), Physical(TableRefOf(name)))])
    case Derived(subquery, alias) =>
      var cols :- ResolveQuery(subquery, ctes, active, depth + 1);
      Ok(scope + [Relation(alias.GetOr(""), Virtual(VirtualFrom(cols)))])
    case NestedJoin(tables) => AddTableWithJoins(tables, scope, ctes, active, depth)
    case OtherFactor => Ok(scope)
  }

  function AllSources(cols: Columns): Sources {
    set i, s | 0 <= i < |cols| && s in cols[i].sources :: s
  }

  /** Sources of every column an expression mentions; a subquery counts with all its output columns. */
  function CollectSources(expr: Expr, scope: seq<Relation>, ctes: CteMap, active: set<string>, depth: nat)
    : Result<Sources, LineageError>
    requires depth <= MAX_DEPTH
    decreases Remaining(depth), expr, 1
  {
    match expr
    case Subquery(query) =>
      var cols :- ResolveQuery(query, ctes, active, depth + 1);
      Ok(AllSources(cols))
    case Apply(_, args) => CollectAll(args, scope, ctes, active, depth)
    case _ =>
      var reference := ColumnReference(expr);
      if reference.None? then Ok({})
      else ResolveColumn(scope, reference.value.0, reference.value.1)
  }

  function CollectAll(exprs: seq<Expr>, scope: seq<Relation>, ctes: CteMap, active: set<string>, depth: nat)
    : Result<Sources, LineageError>
    requires depth <= MAX_DEPTH
    decreases Remaining(depth), exprs, 1
  {
    if exprs == [] then Ok({})
    else
      var first :- CollectSources(exprs[0], scope, ctes, active, depth);
      var rest :- CollectAll(exprs[1..], scope, ctes, active, depth);
      Ok(first + rest)
  }

  /** A top-level query: no inherited CTEs. */
  function Resolve(query: Query): Resolved {
    ResolveQuery(query, map[], {}, 0)
  }
}
