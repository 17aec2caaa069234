/** What accepted queries are like, and under which names their columns are reported. */
module Acceptance {
  import opened Common
  import opened LineageAst
  import opened ScopeRules
  import opened ResolveRules
  import opened Headings
  import opened QueryRuns

  /** As many CTE references as can be nested in an accepted query. */
  const NESTING: nat := 65

  ghost predicate QueryDenotes(query: Query, parent: CteMap) {
    BodyDenotes(query.body, WithCtes(parent, query.withs), NESTING)
  }

  // ----- scopes and their headings -----

  function Columned(cols: Columns): (r: Heading)
    ensures |r| == |cols| && forall i :: 0 <= i < |r| ==> r[i] == cols[i].name
  {
    seq(|cols|, i requires 0 <= i < |cols| => cols[i].name)
  }

  function Exposure(scope: seq<Relation>): (r: seq<Exposed>)
    ensures |r| == |scope|
    ensures forall i :: 0 <= i < |r| ==> r[i].visible == scope[i].visible
    ensures forall i :: 0 <= i < |r| ==>
              r[i].columns == if scope[i].expose.Physical? then None else Some(Names(scope[i].expose.columns))
  {
    seq(|scope|, i requires 0 <= i < |scope| =>
      Exposed(scope[i].visible,
              if scope[i].expose.Physical? then None else Some(Names(scope[i].expose.columns))))
  }

  lemma NamedAt(scope: seq<Relation>, name: string)
    ensures var at := FindName(Visibles(scope), name);
            if at.Some? then FirstNamed(Exposure(scope), name, at.value)
            else forall r :: !FirstNamed(Exposure(scope), name, r)
  {
    var at := FindName(Visibles(scope), name);
    assert forall i :: 0 <= i < |scope| ==> Named(Visibles(scope)[i], name) == (Fold(scope[i].visible) == Fold(name));
  }

  lemma FirstNamedIsUnique(scope: seq<Exposed>, name: string, r: int, r': int)
    requires FirstNamed(scope, name, r) && FirstNamed(scope, name, r')
    ensures r == r'
  {
  }

  lemma HasIsFound(columns: seq<VirtCol>, column: string)
    ensures Has(Names(columns), column) <==> FindName(Names(columns), column).Some?
  {
    var at := FindName(Names(columns), column);
    assert forall k :: 0 <= k < |columns| ==> Bears(Names(columns)[k], column) == Named(Names(columns)[k], column);
    if at.Some? { assert Bears(Names(columns)[at.value], column); }
  }

  lemma InRelationExactly(rel: Relation, column: string)
    ensures ResolveInRelation(rel, column).Ok? <==> MayHave(Exposure([rel])[0], column)
  {
    assert [rel][0] == rel;
    if rel.expose.Virtual? {
      HasIsFound(rel.expose.columns, column);
    }
  }

  /** A column reference is accepted exactly if it denotes one column. */
  lemma ColumnExactly(scope: seq<Relation>, qualifier: Option<string>, column: string)
    ensures ResolveColumn(scope, qualifier, column).Ok? <==> Denotes(Exposure(scope), qualifier, column)
  {
    var e := Exposure(scope);
    forall i | 0 <= i < |scope| ensures MayHave(e[i], column) <==> ResolveInRelation(scope[i], column).Ok? {
      InRelationExactly(scope[i], column);
      assert Exposure([scope[i]])[0] == e[i];
    }
    match qualifier
    case Some(name) =>
      NamedAt(scope, name);
      var at := FindName(Visibles(scope), name);
      if at.Some? {
        forall r | FirstNamed(e, name, r) ensures r == at.value { FirstNamedIsUnique(e, name, r, at.value); }
      }
    case None => UnqualifiedExactly(scope, column);
  }

  lemma UnqualifiedExactly(scope: seq<Relation>, column: string)
    requires forall i :: 0 <= i < |scope| ==>
               (MayHave(Exposure(scope)[i], column) <==> ResolveInRelation(scope[i], column).Ok?)
    ensures ResolveColumn(scope, None, column).Ok? <==> exists r :: OnlyOne(Exposure(scope), column, r)
  {
    var e := Exposure(scope);
    if |scope| == 1 {
      assert OnlyOne(e, column, 0) <==> MayHave(e[0], column);
    } else if HasPhysical(scope) {
      var p :| 0 <= p < |scope| && scope[p].expose.Physical?;
      assert MayHave(e[p], column) && e[p].columns.None?;
    } else {
      CandidatesCountProducers(scope, column);
      forall i | 0 <= i < |scope| ensures Produces(scope, column, i) == MayHave(e[i], column) {
        InRelationExactly(scope[i], column);
      }
      hide Produces, Candidates, MayHave, ResolveInRelation;
      assert forall r :: OnlyOne(e, column, r) <==> OnlyProducer(scope, column, r);
    }
  }

  /** `*` is accepted exactly if no base table is in scope, and stands for all columns in order. */
  lemma {:induction false} WildcardExactly(scope: seq<Relation>, before: Expanded)
    ensures var r := ExpandAll(scope, before);
            && (r.Ok? <==> forall i :: 0 <= i < |scope| ==> Exposure(scope)[i].columns.Some?)
            && (r.Ok? ==> Names(r.value) == Names(before) + AllNames(Exposure(scope)))
  {
    if scope != [] {
      var e := Exposure(scope);
      assert Exposure(scope[1..]) == e[1..];
      assert forall i :: 1 <= i < |scope| ==> e[i] == Exposure(scope[1..])[i - 1];
      if scope[0].expose.Virtual? {
        WildcardExactly(scope[1..], before + scope[0].expose.columns);
        assert Names(before + scope[0].expose.columns) == Names(before) + Names(scope[0].expose.columns);
      } else {
        assert e[0].columns.None?;
      }
    }
  }

  lemma {:induction false} PushedNames(out: Columns, expanded: Expanded)
    ensures Columned(PushExpanded(out, expanded)) == Columned(out) + Names(expanded)
    decreases |expanded|
  {
    if expanded != [] {
      var next := Push(out, expanded[0].name, expanded[0].sources);
      PushedNames(next, expanded[1..]);
      assert Columned(next) == Columned(out) + [expanded[0].name];
      assert Names(expanded) == [expanded[0].name] + Names(expanded[1..]);
    }
  }

  // ----- runs that may not occur -----

  ghost predicate FineRun(query: Query, parent: CteMap, run: seq<Step>, active: set<string>, depth: nat) {
    && depth + |run| <= 64
    && NoneTwice(run, active)
    && QueryDenotes(End(query, parent, run).0, End(query, parent, run).1)
  }

  ghost predicate SafeRuns(query: Query, parent: CteMap, active: set<string>, depth: nat) {
    forall run :: IsRun(query, parent, run) ==> FineRun(query, parent, run, active, depth)
  }

  function Entered(active: set<string>, cte: Option<string>): set<string> {
    active + if cte.Some? then {cte.value} else {}
  }

  ghost predicate SafeStep(step: Step, active: set<string>, depth: nat) {
    (step.cte.Some? ==> step.cte.value !in active)
    && SafeRuns(step.query, step.ctes, Entered(active, step.cte), depth + 1)
  }

  ghost predicate SafeSteps(steps: seq<Step>, active: set<string>, depth: nat) {
    forall step :: step in steps ==> SafeStep(step, active, depth)
  }

  lemma SafeConcat(a: seq<Step>, b: seq<Step>, active: set<string>, depth: nat)
    requires SafeSteps(a, active, depth) && SafeSteps(b, active, depth)
    ensures SafeSteps(a + b, active, depth)
  {
    hide SafeStep;
  }

  lemma NoSteps(active: set<string>, depth: nat)
    ensures SafeSteps([], active, depth)
  {
  }

  lemma NoneTwiceCons(step: Step, run: seq<Step>, active: set<string>)
    requires step.cte.Some? ==> step.cte.value !in active
    requires NoneTwice(run, Entered(active, step.cte))
    ensures NoneTwice([step] + run, active)
  {
    var whole := [step] + run;
    forall i | 0 <= i < |whole| && whole[i].cte.Some?
      ensures whole[i].cte.value !in active && forall j :: 0 <= j < i ==> whole[j].cte != whole[i].cte
    {
      if i > 0 {
        assert whole[i] == run[i - 1];
        forall j | 0 <= j < i ensures whole[j].cte != whole[i].cte {
          if j > 0 { assert whole[j] == run[j - 1]; }
        }
      }
    }
  }

  lemma RunsOfSteps(query: Query, parent: CteMap, active: set<string>, depth: nat)
    requires depth <= MAX_DEPTH && QueryDenotes(query, parent)
    requires SafeSteps(QuerySteps(query, parent), active, depth)
    ensures SafeRuns(query, parent, active, depth)
  {
    hide QuerySteps, QueryDenotes, NoneTwice;
    forall run | IsRun(query, parent, run) ensures FineRun(query, parent, run, active, depth) {
      if run == [] {
        NothingTwice(active);
      } else {
        var step, rest := run[0], run[1..];
        assert SafeStep(step, active, depth);
        assert FineRun(step.query, step.ctes, rest, Entered(active, step.cte), depth + 1);
        NoneTwiceCons(step, rest, active);
        assert run == [step] + rest;
        assert End(query, parent, run) == End(step.query, step.ctes, rest);
      }
    }
  }

  lemma NothingTwice(active: set<string>)
    ensures NoneTwice([], active)
  {
  }

  // ----- what is accepted is fine -----

  /** A query that resolves has fine runs only, and its columns bear the names of its heading. */
  lemma {:induction false} QueryAccepted(query: Query, parent: CteMap, active: set<string>, depth: nat, fuel: nat)
    requires ResolveQuery(query, parent, active, depth).Ok? && fuel >= Remaining(depth)
    ensures SafeRuns(query, parent, active, depth)
    ensures Columned(ResolveQuery(query, parent, active, depth).value) == QueryHeading(query, parent, fuel)
    decreases Remaining(depth), query, 1
  {
    hide SafeRuns, SafeSteps, BodyHeading, BodyDenotes;
    var ctes := WithCtes(parent, query.withs);
    BodyAccepted(query.body, ctes, active, depth, fuel);
    BodyAccepted(query.body, ctes, active, depth, NESTING);
    RunsOfSteps(query, parent, active, depth);
  }

  lemma {:induction false} BodyAccepted(body: SetExpr, ctes: CteMap, active: set<string>, depth: nat, fuel: nat)
    requires depth <= MAX_DEPTH && ResolveSetExpr(body, ctes, active, depth).Ok? && fuel >= Remaining(depth)
    ensures SafeSteps(BodySteps(body, ctes), active, depth) && BodyDenotes(body, ctes, fuel)
    ensures Columned(ResolveSetExpr(body, ctes, active, depth).value) == BodyHeading(body, ctes, fuel)
    decreases Remaining(depth), body, 1
  {
    hide SafeStep;
    match body
    case Select(projection, from) =>
      FromAccepted(from, [], ctes, active, depth, fuel);
      var scope := BuildScope(from, [], ctes, active, depth).value;
      assert Exposure(scope) == FromHeading(from, ctes, fuel);
      ItemsAccepted(projection, scope, ctes, active, depth, []);
      SafeConcat(FromSteps(from, ctes), ItemsSteps(projection, ctes), active, depth);
    case Nested(query) =>
      QueryAccepted(query, ctes, active, depth + 1, fuel);
      OneStep(Step(None, query, ctes), active, depth);
    case SetOperation(_, left, right) =>
      BodyAccepted(left, ctes, active, depth, fuel);
      BodyAccepted(right, ctes, active, depth, fuel);
      MergedNames(ResolveSetExpr(left, ctes, active, depth).value, ResolveSetExpr(right, ctes, active, depth).value,
                  []);
      SafeConcat(BodySteps(left, ctes), BodySteps(right, ctes), active, depth);
    case Values(rows) => RowsAccepted(rows, ctes, active, depth, []);
    case OtherBody =>
  }

  lemma OneStep(step: Step, active: set<string>, depth: nat)
    requires step.cte.Some? ==> step.cte.value !in active
    requires SafeRuns(step.query, step.ctes, if step.cte.Some? then active + {step.cte.value} else active, depth + 1)
    ensures SafeSteps([step], active, depth)
  {
    assert active + {} == active;
  }

  lemma {:induction false} MergedNames(left: Columns, right: Columns, out: Columns)
    requires |out| <= |left|
    ensures Columned(Merge(left, right, out)) == Columned(out) + Columned(left)[|out|..]
    decreases |left| - |out|
  {
    var i := |out|;
    if i < |left| {
      var next := Push(out, left[i].name, left[i].sources + if i < |right| then right[i].sources else {});
      MergedNames(left, right, next);
      assert Columned(next) == Columned(out) + [left[i].name];
      assert Columned(left)[i..] == [left[i].name] + Columned(left)[i + 1..];
    }
  }

  lemma {:induction false} RowsAccepted(rows: seq<Row>, ctes: CteMap, active: set<string>, depth: nat, out: Columns)
    requires depth <= MAX_DEPTH && ResolveRows(rows, ctes, active, depth, out).Ok?
    requires forall j :: 0 <= j < |out| ==> out[j].name == None
    ensures SafeSteps(RowsSteps(rows, ctes), active, depth)
    ensures forall i, j :: 0 <= i < |rows| && 0 <= j < |rows[i].content| ==> ExprDenotes(rows[i].content[j], [])
    ensures var r := ResolveRows(rows, ctes, active, depth, out).value;
            && |r| == (if Width(rows) > |out| then Width(rows) else |out|)
            && forall j :: 0 <= j < |r| ==> r[j].name == None
    decreases Remaining(depth), rows, 1
  {
    hide SafeStep, ExprDenotes, CollectSources;
    if rows != [] {
      CellsAccepted(rows[0].content, ctes, active, depth, 0, out);
      RowsAccepted(rows[1..], ctes, active, depth, ResolveCells(rows[0].content, ctes, active, depth, 0, out).value);
      forall i, j | 0 <= i < |rows| && 0 <= j < |rows[i].content| ensures ExprDenotes(rows[i].content[j], []) {
        if i > 0 { assert rows[i] == rows[1..][i - 1]; }
      }
    }
  }

  lemma {:induction false} CellsAccepted(cells: seq<Expr>, ctes: CteMap, active: set<string>, depth: nat, i: nat,
                                         out: Columns)
    requires depth <= MAX_DEPTH && ResolveCells(cells, ctes, active, depth, i, out).Ok? && i <= |out|
    requires forall j :: 0 <= j < |out| ==> out[j].name == None
    ensures SafeSteps(ExprsSteps(cells, ctes), active, depth)
    ensures forall j :: 0 <= j < |cells| ==> ExprDenotes(cells[j], [])
    ensures var r := ResolveCells(cells, ctes, active, depth, i, out).value;
            && |r| == (if i + |cells| > |out| then i + |cells| else |out|)
            && forall j :: 0 <= j < |r| ==> r[j].name == None
    decreases Remaining(depth), cells, 1
  {
    hide SafeStep, ExprDenotes, CollectSources;
    if cells != [] {
      ExprAccepted(cells[0], [], ctes, active, depth);
      assert Exposure([]) == [];
      var sources := CollectSources(cells[0], [], ctes, active, depth).value;
      var next := if i < |out| then out[i := out[i].(sources := out[i].sources + sources)]
                  else Push(out, None, sources);
      CellsAccepted(cells[1..], ctes, active, depth, i + 1, next);
      forall j | 0 <= j < |cells| ensures ExprDenotes(cells[j], []) {
        if j > 0 { assert cells[j] == cells[1..][j - 1]; }
      }
    }
  }

  lemma {:induction false} ItemsAccepted(items: seq<SelectItem>, scope: seq<Relation>, ctes: CteMap,
                                         active: set<string>, depth: nat, out: Columns)
    requires depth <= MAX_DEPTH && ResolveItems(items, scope, ctes, active, depth, out).Ok?
    ensures SafeSteps(ItemsSteps(items, ctes), active, depth)
    ensures forall i :: 0 <= i < |items| ==> ItemDenotes(items[i], Exposure(scope))
    ensures Columned(ResolveItems(items, scope, ctes, active, depth, out).value)
            == Columned(out) + ItemsHeading(items, Exposure(scope))
    decreases Remaining(depth), items, 1
  {
    hide SafeStep, ItemDenotes, ItemHeading, ResolveItem;
    if items != [] {
      ItemAccepted(items[0], scope, ctes, active, depth, out);
      ItemsAccepted(items[1..], scope, ctes, active, depth,
                    ResolveItem(items[0], scope, ctes, active, depth, out).value);
      forall i | 0 <= i < |items| ensures ItemDenotes(items[i], Exposure(scope)) {
        if i > 0 { assert items[i] == items[1..][i - 1]; }
      }
    }
  }

  lemma {:induction false} ItemAccepted(item: SelectItem, scope: seq<Relation>, ctes: CteMap, active: set<string>,
                                        depth: nat, out: Columns)
    requires depth <= MAX_DEPTH && ResolveItem(item, scope, ctes, active, depth, out).Ok?
    ensures SafeSteps(ItemSteps(item, ctes), active, depth) && ItemDenotes(item, Exposure(scope))
    ensures Columned(ResolveItem(item, scope, ctes, active, depth, out).value)
            == Columned(out) + ItemHeading(item, Exposure(scope))
    decreases Remaining(depth), item, 1
  {
    hide SafeStep, ExprDenotes, CollectSources, FirstNamed;
    match item
    case UnnamedExpr(expr) => ExprAccepted(expr, scope, ctes, active, depth);
    case ExprWithAlias(expr, _) => ExprAccepted(expr, scope, ctes, active, depth);
    case ExprWithAliases(expr, _) => ExprAccepted(expr, scope, ctes, active, depth);
    case Wildcard =>
      WildcardExactly(scope, []);
      PushedNames(out, ExpandAll(scope, []).value);
    case QualifiedWildcard(name) =>
      QualifiedExactly(scope, LastIdent(name));
      PushedNames(out, ExpandQualified(scope, LastIdent(name)).value);
  }

  /** `name.*` is accepted exactly if the first relation of that name is no base table, and stands for its columns. */
  lemma QualifiedExactly(scope: seq<Relation>, name: string)
    ensures var r, e := ExpandQualified(scope, name), Exposure(scope);
            && (r.Ok? <==> exists i :: FirstNamed(e, name, i) && e[i].columns.Some?)
            && (r.Ok? ==> forall i :: FirstNamed(e, name, i) ==> e[i].columns == Some(Names(r.value)))
  {
    var e := Exposure(scope);
    NamedAt(scope, name);
    var at := FindName(Visibles(scope), name);
    if at.Some? {
      forall i | FirstNamed(e, name, i) ensures i == at.value { FirstNamedIsUnique(e, name, i, at.value); }
    }
  }

  lemma Regrouped(a: seq<Exposed>, b: seq<Exposed>, c: seq<Exposed>)
    ensures a + b + c == a + (b + c)
  {
  }

  lemma ExposureConcat(a: seq<Relation>, b: seq<Relation>)
    ensures Exposure(a + b) == Exposure(a) + Exposure(b)
  {
  }

  lemma {:induction false} FromAccepted(from: seq<TableWithJoins>, scope: seq<Relation>, ctes: CteMap,
                                        active: set<string>, depth: nat, fuel: nat)
    requires depth <= MAX_DEPTH && BuildScope(from, scope, ctes, active, depth).Ok? && fuel >= Remaining(depth)
    ensures SafeSteps(FromSteps(from, ctes), active, depth)
    ensures Exposure(BuildScope(from, scope, ctes, active, depth).value)
            == Exposure(scope) + FromHeading(from, ctes, fuel)
    decreases Remaining(depth), from, 1
  {
    hide SafeSteps, Exposure, AddTableWithJoins, TablesSteps, TablesHeading;
    if from != [] {
      var next := AddTableWithJoins(from[0], scope, ctes, active, depth).value;
      TablesAccepted(from[0], scope, ctes, active, depth, fuel);
      FromAccepted(from[1..], next, ctes, active, depth, fuel);
      SafeConcat(TablesSteps(from[0], ctes), FromSteps(from[1..], ctes), active, depth);
      Regrouped(Exposure(scope), TablesHeading(from[0], ctes, fuel), FromHeading(from[1..], ctes, fuel));
    } else {
      NoSteps(active, depth);
      assert Exposure(scope) + [] == Exposure(scope);
    }
  }

  lemma {:induction false} TablesAccepted(tables: TableWithJoins, scope: seq<Relation>, ctes: CteMap,
                                          active: set<string>, depth: nat, fuel: nat)
    requires depth <= MAX_DEPTH && AddTableWithJoins(tables, scope, ctes, active, depth).Ok?
    requires fuel >= Remaining(depth)
    ensures SafeSteps(TablesSteps(tables, ctes), active, depth)
    ensures Exposure(AddTableWithJoins(tables, scope, ctes, active, depth).value)
            == Exposure(scope) + TablesHeading(tables, ctes, fuel)
    decreases Remaining(depth), tables, 1
  {
    hide SafeSteps, Exposure, AddTableFactor, AddTableFactors, FactorSteps, FactorsSteps, FactorHeading, FactorsHeading;
    var next := AddTableFactor(tables.relation, scope, ctes, active, depth).value;
    FactorAccepted(tables.relation, scope, ctes, active, depth, fuel);
    FactorsAccepted(tables.joins, next, ctes, active, depth, fuel);
    SafeConcat(FactorSteps(tables.relation, ctes), FactorsSteps(tables.joins, ctes), active, depth);
    Regrouped(Exposure(scope), FactorHeading(tables.relation, ctes, fuel), FactorsHeading(tables.joins, ctes, fuel));
  }

  lemma {:induction false} FactorsAccepted(factors: seq<TableFactor>, scope: seq<Relation>, ctes: CteMap,
                                           active: set<string>, depth: nat, fuel: nat)
    requires depth <= MAX_DEPTH && AddTableFactors(factors, scope, ctes, active, depth).Ok?
    requires fuel >= Remaining(depth)
    ensures SafeSteps(FactorsSteps(factors, ctes), active, depth)
    ensures Exposure(AddTableFactors(factors, scope, ctes, active, depth).value)
            == Exposure(scope) + FactorsHeading(factors, ctes, fuel)
    decreases Remaining(depth), factors, 1
  {
    hide SafeSteps, Exposure, AddTableFactor, FactorSteps, FactorHeading;
    if factors != [] {
      var next := AddTableFactor(factors[0], scope, ctes, active, depth).value;
      FactorAccepted(factors[0], scope, ctes, active, depth, fuel);
      FactorsAccepted(factors[1..], next, ctes, active, depth, fuel);
      SafeConcat(FactorSteps(factors[0], ctes), FactorsSteps(factors[1..], ctes), active, depth);
      Regrouped(Exposure(scope), FactorHeading(factors[0], ctes, fuel), FactorsHeading(factors[1..], ctes, fuel));
    } else {
      NoSteps(active, depth);
      assert Exposure(scope) + [] == Exposure(scope);
    }
  }

  lemma {:induction false} FactorAccepted(factor: TableFactor, scope: seq<Relation>, ctes: CteMap, active: set<string>,
                                          depth: nat, fuel: nat)
    requires depth <= MAX_DEPTH && AddTableFactor(factor, scope, ctes, active, depth).Ok? && fuel >= Remaining(depth)
    ensures SafeSteps(FactorSteps(factor, ctes), active, depth)
    ensures Exposure(AddTableFactor(factor, scope, ctes, active, depth).value)
            == Exposure(scope) + FactorHeading(factor, ctes, fuel)
    decreases Remaining(depth), factor, 1
  {
    hide SafeRuns;
    match factor
    case Table(name, alias) =>
      var folded := Fold(LastIdent(name));
      if folded in ctes {
        QueryAccepted(ctes[folded], ctes, active + {folded}, depth + 1, fuel - 1);
        OneStep(Step(Some(folded), ctes[folded], ctes), active, depth);
        OneExposed(scope, VisibleName(name, alias),
                   ResolveQuery(ctes[folded], ctes, active + {folded}, depth + 1).value);
      } else {
        ExposureConcat(scope, [Relation(VisibleName(name, alias), Physical(TableRefOf(name)))]);
      }
    case Derived(subquery, alias) =>
      QueryAccepted(subquery, ctes, active, depth + 1, fuel);
      OneStep(Step(None, subquery, ctes), active, depth);
      OneExposed(scope, alias.GetOr(""), ResolveQuery(subquery, ctes, active, depth + 1).value);
    case NestedJoin(tables) => TablesAccepted(tables, scope, ctes, active, depth, fuel);
    case OtherFactor =>
  }

  lemma OneExposed(scope: seq<Relation>, visible: string, cols: Columns)
    ensures Exposure(scope + [Relation(visible, Virtual(VirtualFrom(cols)))])
            == Exposure(scope) + [Exposed(visible, Some(Columned(cols)))]
  {
    assert Names(VirtualFrom(cols)) == Columned(cols);
  }

  lemma {:induction false} ExprAccepted(expr: Expr, scope: seq<Relation>, ctes: CteMap, active: set<string>, depth: nat)
    requires depth <= MAX_DEPTH && CollectSources(expr, scope, ctes, active, depth).Ok?
    ensures SafeSteps(ExprSteps(expr, ctes), active, depth) && ExprDenotes(expr, Exposure(scope))
    decreases Remaining(depth), expr, 1
  {
    hide SafeRuns, Denotes;
    match expr
    case Subquery(query) =>
      QueryAccepted(query, ctes, active, depth + 1, NESTING);
      OneStep(Step(None, query, ctes), active, depth);
    case Apply(_, args) => ExprsAccepted(args, scope, ctes, active, depth);
    case _ =>
      var reference := ColumnReference(expr);
      if reference.Some? {
        ColumnExactly(scope, reference.value.0, reference.value.1);
      }
  }

  lemma {:induction false} ExprsAccepted(exprs: seq<Expr>, scope: seq<Relation>, ctes: CteMap, active: set<string>,
                                         depth: nat)
    requires depth <= MAX_DEPTH && CollectAll(exprs, scope, ctes, active, depth).Ok?
    ensures SafeSteps(ExprsSteps(exprs, ctes), active, depth)
    ensures forall i :: 0 <= i < |exprs| ==> ExprDenotes(exprs[i], Exposure(scope))
    decreases Remaining(depth), exprs, 1
  {
    hide SafeStep, ExprDenotes;
    if exprs != [] {
      ExprAccepted(exprs[0], scope, ctes, active, depth);
      ExprsAccepted(exprs[1..], scope, ctes, active, depth);
      forall i | 0 <= i < |exprs| ensures ExprDenotes(exprs[i], Exposure(scope)) {
        if i > 0 { assert exprs[i] == exprs[1..][i - 1]; }
      }
    }
  }
}
