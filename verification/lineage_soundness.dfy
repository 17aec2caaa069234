/** The lineage of an output column names every base column its values depend on. */
module LineageSoundness {
  import opened Common
  import opened LineageAst
  import opened ScopeRules
  import opened ResolveRules
  import opened QueryMeaning

  /** One engine and two databases to compare. */
  datatype World = World(engine: Engine, db: Database, db': Database) {
    /** The same tables with the same columns and row counts. */
    ghost predicate SameShape() {
      forall t: TableRef :: db.catalog(t) == db'.catalog(t) && db.rows(t) == db'.rows(t)
    }
  }

  /** The two databases hold the same cells in column `s`. */
  ghost predicate AgreeOn(w: World, s: SourceRef) {
    forall i: nat :: i < w.db.rows(s.table) ==> w.db.cell(s.table, s.column, i) == w.db'.cell(s.table, s.column, i)
  }

  ghost predicate Agree(w: World, sources: Sources) {
    forall s :: s in sources ==> AgreeOn(w, s)
  }

  /** Column by column: the same name, and the same cells if the databases agree on its sources. */
  ghost predicate Matched(w: World, lineage: seq<VirtCol>, c: seq<Column>, c': seq<Column>) {
    && |lineage| == |c| == |c'|
    && forall i :: 0 <= i < |lineage| ==>
         && lineage[i].name == c[i].name == c'[i].name
         && (Agree(w, lineage[i].sources) ==> c[i].cells == c'[i].cells)
  }

  ghost predicate MatchedSets(w: World, lineage: seq<VirtCol>, t: ResultSet, t': ResultSet) {
    t.rows == t'.rows && Matched(w, lineage, t.cols, t'.cols)
  }

  /** Both databases give a result or neither does, and the results match. */
  ghost predicate MatchedResults(w: World, lineage: seq<VirtCol>, t: Option<ResultSet>, t': Option<ResultSet>) {
    t.Some? == t'.Some? && (t.Some? ==> MatchedSets(w, lineage, t.value, t'.value))
  }

  ghost predicate MatchedBound(w: World, rel: Relation, b: Bound, b': Bound) {
    && rel.visible == b.visible == b'.visible
    && b.data.rows == b'.data.rows
    && match rel.expose
       case Physical(table) => Some(b.data) == BaseTable(w.db, table) && Some(b'.data) == BaseTable(w.db', table)
       case Virtual(columns) => Matched(w, columns, b.data.cols, b'.data.cols)
  }

  ghost predicate MatchedScope(w: World, scope: seq<Relation>, b: seq<Bound>, b': seq<Bound>) {
    && |scope| == |b| == |b'|
    && forall i :: 0 <= i < |scope| ==> MatchedBound(w, scope[i], b[i], b'[i])
  }

  ghost predicate MatchedScopes(w: World, scope: seq<Relation>, b: Option<seq<Bound>>, b': Option<seq<Bound>>) {
    b.Some? == b'.Some? && (b.Some? ==> MatchedScope(w, scope, b.value, b'.value))
  }

  // ----- the main induction -----

  lemma {:induction false} QuerySound(w: World, query: Query, parent: CteMap, active: set<string>, depth: nat,
                                      fuel: nat)
    requires w.SameShape() && ResolveQuery(query, parent, active, depth).Ok?
    ensures MatchedResults(w, VirtualFrom(ResolveQuery(query, parent, active, depth).value),
                           EvalQuery(w.engine, w.db, query, parent, fuel),
                           EvalQuery(w.engine, w.db', query, parent, fuel))
    decreases fuel, query, 1
  {
    SetExprSound(w, query.body, WithCtes(parent, query.withs), active, depth, fuel);
  }

  lemma {:induction false} SetExprSound(w: World, body: SetExpr, ctes: CteMap, active: set<string>, depth: nat,
                                        fuel: nat)
    requires w.SameShape() && depth <= MAX_DEPTH && ResolveSetExpr(body, ctes, active, depth).Ok?
    ensures MatchedResults(w, VirtualFrom(ResolveSetExpr(body, ctes, active, depth).value),
                           EvalSetExpr(w.engine, w.db, body, ctes, fuel),
                           EvalSetExpr(w.engine, w.db', body, ctes, fuel))
    decreases fuel, body, 1
  {
    match body
    case Select(projection, from) =>
      FromSound(w, from, [], [], [], ctes, active, depth, fuel);
      var scope := BuildScope(from, [], ctes, active, depth).value;
      var b := BindFrom(w.engine, w.db, from, [], ctes, fuel);
      var b' := BindFrom(w.engine, w.db', from, [], ctes, fuel);
      if b.Some? {
        assert Counts(b.value) == Counts(b'.value) by {
          assert forall i :: 0 <= i < |scope| ==> MatchedBound(w, scope[i], b.value[i], b'.value[i]);
        }
        ItemsSound(w, projection, scope, b.value, b'.value, Product(Counts(b.value)), ctes, active, depth, fuel, [], [],
                   []);
      }
    case Nested(query) => QuerySound(w, query, ctes, active, depth + 1, fuel);
    case SetOperation(op, left, right) =>
      SetExprSound(w, left, ctes, active, depth, fuel);
      SetExprSound(w, right, ctes, active, depth, fuel);
      if op == UnionAll {
        UnionSound(w, ResolveSetExpr(left, ctes, active, depth).value, ResolveSetExpr(right, ctes, active, depth).value,
                   EvalSetExpr(w.engine, w.db, left, ctes, fuel), EvalSetExpr(w.engine, w.db', left, ctes, fuel),
                   EvalSetExpr(w.engine, w.db, right, ctes, fuel), EvalSetExpr(w.engine, w.db', right, ctes, fuel));
      }
    case Values(rows) => RowsSound(w, rows, ctes, active, depth, fuel, [], ResultSet(0, []), ResultSet(0, []));
    case OtherBody =>
  }

  lemma {:induction false} MergeAt(left: Columns, right: Columns, out: Columns)
    requires |out| <= |left|
    requires forall i :: 0 <= i < |out| ==>
               out[i] == OutputColumn(left[i].name, i, left[i].sources + if i < |right| then right[i].sources else {})
    ensures |Merge(left, right, out)| == |left|
    ensures forall i :: 0 <= i < |left| ==>
              Merge(left, right, out)[i]
              == OutputColumn(left[i].name, i, left[i].sources + if i < |right| then right[i].sources else {})
    decreases |left| - |out|
  {
    var i := |out|;
    if i < |left| {
      MergeAt(left, right, Push(out, left[i].name, left[i].sources + if i < |right| then right[i].sources else {}));
    }
  }

  lemma UnionSound(w: World, left: Columns, right: Columns, l: Option<ResultSet>, l': Option<ResultSet>,
                   r: Option<ResultSet>, r': Option<ResultSet>)
    requires MatchedResults(w, VirtualFrom(left), l, l') && MatchedResults(w, VirtualFrom(right), r, r')
    ensures l.Some? && r.Some? && |l.value.cols| == |r.value.cols| ==>
              MatchedSets(w, VirtualFrom(Merge(left, right, [])), UnionOf(l.value, r.value),
                          UnionOf(l'.value, r'.value))
  {
    if l.Some? && r.Some? && |l.value.cols| == |r.value.cols| {
      MergeAt(left, right, []);
      var merged := Merge(left, right, []);
      forall i | 0 <= i < |merged| && Agree(w, merged[i].sources)
        ensures UnionOf(l.value, r.value).cols[i].cells == UnionOf(l'.value, r'.value).cols[i].cells
      {
        assert Agree(w, VirtualFrom(left)[i].sources) && Agree(w, VirtualFrom(right)[i].sources);
      }
    }
  }

  // ----- VALUES -----

  lemma {:induction false} RowsSound(w: World, rows: seq<Row>, ctes: CteMap, active: set<string>, depth: nat, fuel: nat,
                                     out: Columns, acc: ResultSet, acc': ResultSet)
    requires w.SameShape() && depth <= MAX_DEPTH && ResolveRows(rows, ctes, active, depth, out).Ok?
    requires MatchedSets(w, VirtualFrom(out), acc, acc') && (acc.rows == 0 ==> out == [])
    requires forall i :: 0 <= i < |out| ==> out[i].name == None
    ensures MatchedResults(w, VirtualFrom(ResolveRows(rows, ctes, active, depth, out).value),
                           EvalRows(w.engine, w.db, rows, ctes, fuel, acc),
                           EvalRows(w.engine, w.db', rows, ctes, fuel, acc'))
    decreases fuel, rows, 1
  {
    if rows != [] {
      var cells := rows[0].content;
      CellsSound(w, cells, ctes, active, depth, fuel, 0, out);
      var next := ResolveCells(cells, ctes, active, depth, 0, out).value;
      var v := EvalCells(w.engine, w.db, cells, ctes, fuel);
      var v' := EvalCells(w.engine, w.db', cells, ctes, fuel);
      if v.Some? && (acc.rows > 0 ==> |v.value| == |acc.cols|) {
        forall j | 0 <= j < |next| && Agree(w, next[j].sources)
          ensures AppendRow(acc, v.value).cols[j].cells == AppendRow(acc', v'.value).cols[j].cells
        {
          if j < |out| {
            assert Agree(w, VirtualFrom(out)[j].sources);
          }
        }
        RowsSound(w, rows[1..], ctes, active, depth, fuel, next, AppendRow(acc, v.value), AppendRow(acc', v'.value));
      }
    }
  }

  /** Resolving a row never loses a column's sources, and each position has those of its cell. */
  lemma {:induction false} CellsGrow(cells: seq<Expr>, ctes: CteMap, active: set<string>, depth: nat, i: nat,
                                     out: Columns)
    requires depth <= MAX_DEPTH && ResolveCells(cells, ctes, active, depth, i, out).Ok?
    requires i <= |out| && forall j :: 0 <= j < |out| ==> out[j].name == None
    ensures var next := ResolveCells(cells, ctes, active, depth, i, out).value;
            && |next| == (if i + |cells| > |out| then i + |cells| else |out|)
            && (forall j :: 0 <= j < |next| ==> next[j].name == None)
            && (forall j :: 0 <= j < |out| ==> out[j].sources <= next[j].sources)
            && (forall j :: 0 <= j < |cells| ==> var found := CollectSources(cells[j], [], ctes, active, depth);
                                                 found.Ok? && found.value <= next[i + j].sources)
    decreases cells
  {
    hide CollectSources;
    if cells != [] {
      var sources := CollectSources(cells[0], [], ctes, active, depth).value;
      var step := if i < |out| then out[i := out[i].(sources := out[i].sources + sources)]
                  else Push(out, None, sources);
      CellsGrow(cells[1..], ctes, active, depth, i + 1, step);
      var next := ResolveCells(cells, ctes, active, depth, i, out).value;
      assert sources <= step[i].sources <= next[i].sources;
      forall j | 0 <= j < |cells|
        ensures var found := CollectSources(cells[j], [], ctes, active, depth);
                found.Ok? && found.value <= next[i + j].sources
      {
        if j > 0 { assert cells[j] == cells[1..][j - 1]; }
      }
    }
  }

  /** The cells of a row, each depending only on its own sources. */
  lemma {:induction false} CellValues(w: World, cells: seq<Expr>, ctes: CteMap, active: set<string>, depth: nat,
                                      fuel: nat)
    requires w.SameShape() && depth <= MAX_DEPTH
    requires forall j :: 0 <= j < |cells| ==> CollectSources(cells[j], [], ctes, active, depth).Ok?
    ensures var v := EvalCells(w.engine, w.db, cells, ctes, fuel);
            var v' := EvalCells(w.engine, w.db', cells, ctes, fuel);
            && v.Some? == v'.Some?
            && (v.Some? ==> |v.value| == |v'.value| == |cells|)
            && (v.Some? ==>
                  forall j :: 0 <= j < |cells| && Agree(w, CollectSources(cells[j], [], ctes, active, depth).value) ==>
                                v.value[j] == v'.value[j])
    decreases fuel, cells, 1
  {
    if cells != [] {
      EmptyScopes(w);
      ExprSound(w, cells[0], [], [], [], [[]], ctes, active, depth, fuel);
      hide CollectSources, EvalExpr, MatchedScope, Agree;
      CellValues(w, cells[1..], ctes, active, depth, fuel);
      var v := EvalCells(w.engine, w.db, cells, ctes, fuel);
      var v' := EvalCells(w.engine, w.db', cells, ctes, fuel);
      if v.Some? {
        forall j | 0 <= j < |cells| && Agree(w, CollectSources(cells[j], [], ctes, active, depth).value)
          ensures v.value[j] == v'.value[j]
        {
          if j > 0 { assert cells[j] == cells[1..][j - 1]; }
        }
      }
    }
  }

  lemma CellsSound(w: World, cells: seq<Expr>, ctes: CteMap, active: set<string>, depth: nat, fuel: nat, i: nat,
                   out: Columns)
    requires w.SameShape() && depth <= MAX_DEPTH && ResolveCells(cells, ctes, active, depth, i, out).Ok?
    requires i <= |out| && forall j :: 0 <= j < |out| ==> out[j].name == None
    ensures var next := ResolveCells(cells, ctes, active, depth, i, out).value;
            var v := EvalCells(w.engine, w.db, cells, ctes, fuel);
            var v' := EvalCells(w.engine, w.db', cells, ctes, fuel);
            && |next| == (if i + |cells| > |out| then i + |cells| else |out|)
            && (forall j :: 0 <= j < |next| ==> next[j].name == None)
            && (forall j :: 0 <= j < |out| ==> out[j].sources <= next[j].sources)
            && v.Some? == v'.Some?
            && (v.Some? ==> |v.value| == |v'.value| == |cells|)
            && (v.Some? ==> forall j :: 0 <= j < |cells| && Agree(w, next[i + j].sources) ==> v.value[j] == v'.value[j])
    decreases fuel, cells, 2
  {
    hide CollectSources, EvalCells, ResolveCells, Agree;
    CellsGrow(cells, ctes, active, depth, i, out);
    CellValues(w, cells, ctes, active, depth, fuel);
    var next := ResolveCells(cells, ctes, active, depth, i, out).value;
    forall j | 0 <= j < |cells| && Agree(w, next[i + j].sources)
      ensures Agree(w, CollectSources(cells[j], [], ctes, active, depth).value)
    {
      AgreeOnFewer(w, CollectSources(cells[j], [], ctes, active, depth).value, next[i + j].sources);
    }
  }

  lemma EmptyScopes(w: World)
    ensures MatchedScope(w, [], [], [])
  {
  }

  lemma AgreeOnFewer(w: World, fewer: Sources, sources: Sources)
    requires fewer <= sources && Agree(w, sources)
    ensures Agree(w, fewer)
  {
  }

  // ----- projection -----

  lemma {:induction false} PushExpandedAppends(out: Columns, expanded: Expanded)
    ensures VirtualFrom(PushExpanded(out, expanded)) == VirtualFrom(out) + expanded
    decreases |expanded|
  {
    if expanded != [] {
      var next := Push(out, expanded[0].name, expanded[0].sources);
      PushExpandedAppends(next, expanded[1..]);
      assert VirtualFrom(next) == VirtualFrom(out) + [expanded[0]];
    }
  }

  lemma {:induction false} ItemsSound(w: World, items: seq<SelectItem>, scope: seq<Relation>, b: seq<Bound>,
                                      b': seq<Bound>, joined: seq<seq<nat>>, ctes: CteMap, active: set<string>,
                                      depth: nat, fuel: nat, out: Columns, cols: seq<Column>, cols': seq<Column>)
    requires w.SameShape() && depth <= MAX_DEPTH && ResolveItems(items, scope, ctes, active, depth, out).Ok?
    requires MatchedScope(w, scope, b, b') && Matched(w, VirtualFrom(out), cols, cols')
    ensures var r := EvalItems(w.engine, w.db, items, b, joined, ctes, fuel, cols);
            var r' := EvalItems(w.engine, w.db', items, b', joined, ctes, fuel, cols');
            && r.Some? == r'.Some?
            && (r.Some? ==> Matched(w, VirtualFrom(ResolveItems(items, scope, ctes, active, depth, out).value),
                                    r.value, r'.value))
    decreases fuel, items, 1
  {
    if items != [] {
      ItemSound(w, items[0], scope, b, b', joined, ctes, active, depth, fuel, out);
      var next := ResolveItem(items[0], scope, ctes, active, depth, out).value;
      var c := EvalItem(w.engine, w.db, items[0], b, joined, ctes, fuel);
      var c' := EvalItem(w.engine, w.db', items[0], b', joined, ctes, fuel);
      if c.Some? {
        MatchedConcat(w, VirtualFrom(out), cols, cols', VirtualFrom(next)[|out|..], c.value, c'.value);
        assert VirtualFrom(next) == VirtualFrom(out) + VirtualFrom(next)[|out|..];
        ItemsSound(w, items[1..], scope, b, b', joined, ctes, active, depth, fuel, next, cols + c.value,
                   cols' + c'.value);
      }
    }
  }

  lemma MatchedConcat(w: World, v: seq<VirtCol>, c: seq<Column>, c': seq<Column>, u: seq<VirtCol>, d: seq<Column>,
                      d': seq<Column>)
    requires Matched(w, v, c, c') && Matched(w, u, d, d')
    ensures Matched(w, v + u, c + d, c' + d')
  {
  }

  lemma {:induction false} ItemSound(w: World, item: SelectItem, scope: seq<Relation>, b: seq<Bound>, b': seq<Bound>,
                                     joined: seq<seq<nat>>, ctes: CteMap, active: set<string>, depth: nat, fuel: nat,
                                     out: Columns)
    requires w.SameShape() && depth <= MAX_DEPTH && ResolveItem(item, scope, ctes, active, depth, out).Ok?
    requires MatchedScope(w, scope, b, b')
    ensures var next := VirtualFrom(ResolveItem(item, scope, ctes, active, depth, out).value);
            var r := EvalItem(w.engine, w.db, item, b, joined, ctes, fuel);
            var r' := EvalItem(w.engine, w.db', item, b', joined, ctes, fuel);
            && |out| <= |next| && next[..|out|] == VirtualFrom(out)
            && r.Some? == r'.Some?
            && (r.Some? ==> Matched(w, next[|out|..], r.value, r'.value))
    decreases fuel, item, 1
  {
    match item
    case Wildcard =>
      PushExpandedAppends(out, ExpandAll(scope, []).value);
      WildcardSound(w, scope, b, b', 0, joined, []);
      assert scope[0..] == scope;
    case QualifiedWildcard(name) =>
      PushExpandedAppends(out, ExpandQualified(scope, LastIdent(name)).value);
      assert Visibles(scope) == BoundNames(b) == BoundNames(b');
      var r := FindName(Visibles(scope), LastIdent(name)).value;
      assert MatchedBound(w, scope[r], b[r], b'[r]);
      LiftMatched(w, scope[r].expose.columns, b[r].data.cols, b'[r].data.cols, r, joined);
    case ExprWildcard =>
    case UnnamedExpr(expr) => ExprSound(w, expr, scope, b, b', joined, ctes, active, depth, fuel);
    case ExprWithAlias(expr, _) => ExprSound(w, expr, scope, b, b', joined, ctes, active, depth, fuel);
    case ExprWithAliases(expr, _) => ExprSound(w, expr, scope, b, b', joined, ctes, active, depth, fuel);
  }

  lemma LiftMatched(w: World, v: seq<VirtCol>, c: seq<Column>, c': seq<Column>, r: nat, joined: seq<seq<nat>>)
    requires Matched(w, v, c, c')
    ensures Matched(w, v, LiftAll(c, r, joined), LiftAll(c', r, joined))
  {
  }

  lemma {:induction false} WildcardSound(w: World, scope: seq<Relation>, b: seq<Bound>, b': seq<Bound>, r: nat,
                                         joined: seq<seq<nat>>, before: Expanded)
    requires MatchedScope(w, scope, b, b') && r <= |scope| && ExpandAll(scope[r..], before).Ok?
    ensures var expanded := ExpandAll(scope[r..], before).value;
            && |before| <= |expanded| && expanded[..|before|] == before
            && Matched(w, expanded[|before|..], WildcardFrom(b, r, joined), WildcardFrom(b', r, joined))
    decreases |scope| - r
  {
    if r < |scope| {
      assert scope[r..][1..] == scope[r + 1..];
      assert MatchedBound(w, scope[r], b[r], b'[r]);
      var columns := scope[r].expose.columns;
      WildcardSound(w, scope, b, b', r + 1, joined, before + columns);
      LiftMatched(w, columns, b[r].data.cols, b'[r].data.cols, r, joined);
      var expanded := ExpandAll(scope[r..], before).value;
      assert expanded[..|before|] == expanded[..|before + columns|][..|before|];
      assert expanded[|before|..] == columns + expanded[|before + columns|..] by {
        assert expanded == expanded[..|before + columns|] + expanded[|before + columns|..];
      }
      MatchedConcat(w, columns, LiftAll(b[r].data.cols, r, joined), LiftAll(b'[r].data.cols, r, joined),
                    expanded[|before + columns|..], WildcardFrom(b, r + 1, joined), WildcardFrom(b', r + 1, joined));
    }
  }

  // ----- FROM -----

  lemma {:induction false} FromSound(w: World, from: seq<TableWithJoins>, scope: seq<Relation>, b: seq<Bound>,
                                     b': seq<Bound>, ctes: CteMap, active: set<string>, depth: nat, fuel: nat)
    requires w.SameShape() && depth <= MAX_DEPTH && BuildScope(from, scope, ctes, active, depth).Ok?
    requires MatchedScope(w, scope, b, b')
    ensures MatchedScopes(w, BuildScope(from, scope, ctes, active, depth).value,
                          BindFrom(w.engine, w.db, from, b, ctes, fuel),
                          BindFrom(w.engine, w.db', from, b', ctes, fuel))
    decreases fuel, from, 1
  {
    if from != [] {
      TablesSound(w, from[0], scope, b, b', ctes, active, depth, fuel);
      var n := BindTables(w.engine, w.db, from[0], b, ctes, fuel);
      var n' := BindTables(w.engine, w.db', from[0], b', ctes, fuel);
      if n.Some? {
        FromSound(w, from[1..], AddTableWithJoins(from[0], scope, ctes, active, depth).value, n.value, n'.value, ctes,
                  active, depth, fuel);
      }
    }
  }

  lemma {:induction false} TablesSound(w: World, tables: TableWithJoins, scope: seq<Relation>, b: seq<Bound>,
                                       b': seq<Bound>, ctes: CteMap, active: set<string>, depth: nat, fuel: nat)
    requires w.SameShape() && depth <= MAX_DEPTH && AddTableWithJoins(tables, scope, ctes, active, depth).Ok?
    requires MatchedScope(w, scope, b, b')
    ensures MatchedScopes(w, AddTableWithJoins(tables, scope, ctes, active, depth).value,
                          BindTables(w.engine, w.db, tables, b, ctes, fuel),
                          BindTables(w.engine, w.db', tables, b', ctes, fuel))
    decreases fuel, tables, 1
  {
    FactorSound(w, tables.relation, scope, b, b', ctes, active, depth, fuel);
    var n := BindFactor(w.engine, w.db, tables.relation, b, ctes, fuel);
    var n' := BindFactor(w.engine, w.db', tables.relation, b', ctes, fuel);
    if n.Some? {
      FactorsSound(w, tables.joins, AddTableFactor(tables.relation, scope, ctes, active, depth).value, n.value,
                   n'.value, ctes, active, depth, fuel);
    }
  }

  lemma {:induction false} FactorsSound(w: World, factors: seq<TableFactor>, scope: seq<Relation>, b: seq<Bound>,
                                        b': seq<Bound>, ctes: CteMap, active: set<string>, depth: nat, fuel: nat)
    requires w.SameShape() && depth <= MAX_DEPTH && AddTableFactors(factors, scope, ctes, active, depth).Ok?
    requires MatchedScope(w, scope, b, b')
    ensures MatchedScopes(w, AddTableFactors(factors, scope, ctes, active, depth).value,
                          BindFactors(w.engine, w.db, factors, b, ctes, fuel),
                          BindFactors(w.engine, w.db', factors, b', ctes, fuel))
    decreases fuel, factors, 1
  {
    if factors != [] {
      FactorSound(w, factors[0], scope, b, b', ctes, active, depth, fuel);
      var n := BindFactor(w.engine, w.db, factors[0], b, ctes, fuel);
      var n' := BindFactor(w.engine, w.db', factors[0], b', ctes, fuel);
      if n.Some? {
        FactorsSound(w, factors[1..], AddTableFactor(factors[0], scope, ctes, active, depth).value, n.value, n'.value,
                     ctes, active, depth, fuel);
      }
    }
  }

  lemma {:induction false} FactorSound(w: World, factor: TableFactor, scope: seq<Relation>, b: seq<Bound>,
                                       b': seq<Bound>, ctes: CteMap, active: set<string>, depth: nat, fuel: nat)
    requires w.SameShape() && depth <= MAX_DEPTH && AddTableFactor(factor, scope, ctes, active, depth).Ok?
    requires MatchedScope(w, scope, b, b')
    ensures MatchedScopes(w, AddTableFactor(factor, scope, ctes, active, depth).value,
                          BindFactor(w.engine, w.db, factor, b, ctes, fuel),
                          BindFactor(w.engine, w.db', factor, b', ctes, fuel))
    decreases fuel, factor, 1
  {
    match factor
    case Table(name, alias) =>
      var folded := Fold(LastIdent(name));
      if folded in ctes {
        if fuel > 0 {
          QuerySound(w, ctes[folded], ctes, active + {folded}, depth + 1, fuel - 1);
        }
      } else {
        assert w.db.catalog(TableRefOf(name)) == w.db'.catalog(TableRefOf(name));
        assert w.db.rows(TableRefOf(name)) == w.db'.rows(TableRefOf(name));
      }
    case Derived(subquery, _) => QuerySound(w, subquery, ctes, active, depth + 1, fuel);
    case NestedJoin(tables) => TablesSound(w, tables, scope, b, b', ctes, active, depth, fuel);
    case OtherFactor =>
  }

  // ----- expressions -----

  lemma {:induction false} ExprSound(w: World, expr: Expr, scope: seq<Relation>, b: seq<Bound>, b': seq<Bound>,
                                     joined: seq<seq<nat>>, ctes: CteMap, active: set<string>, depth: nat, fuel: nat)
    requires w.SameShape() && depth <= MAX_DEPTH && CollectSources(expr, scope, ctes, active, depth).Ok?
    requires MatchedScope(w, scope, b, b')
    ensures var c := EvalExpr(w.engine, w.db, expr, b, joined, ctes, fuel);
            var c' := EvalExpr(w.engine, w.db', expr, b', joined, ctes, fuel);
            && c.Some? == c'.Some?
            && (c.Some? && Agree(w, CollectSources(expr, scope, ctes, active, depth).value) ==> c.value == c'.value)
    decreases fuel, expr, 1
  {
    match expr
    case Subquery(query) =>
      QuerySound(w, query, ctes, active, depth + 1, fuel);
      SubquerySound(w, ResolveQuery(query, ctes, active, depth + 1).value, EvalQuery(w.engine, w.db, query, ctes, fuel),
                    EvalQuery(w.engine, w.db', query, ctes, fuel));
    case Apply(_, args) => ExprsSound(w, args, scope, b, b', joined, ctes, active, depth, fuel);
    case _ =>
      var reference := ColumnReference(expr);
      if reference.Some? {
        ColumnSound(w, scope, b, b', reference.value.0, reference.value.1);
      }
  }

  lemma SubquerySound(w: World, cols: Columns, t: Option<ResultSet>, t': Option<ResultSet>)
    requires MatchedResults(w, VirtualFrom(cols), t, t')
    ensures t.Some? && Agree(w, AllSources(cols)) ==> t == t'
  {
    if t.Some? && Agree(w, AllSources(cols)) {
      forall i | 0 <= i < |cols| ensures t.value.cols[i] == t'.value.cols[i] {
        assert VirtualFrom(cols)[i].sources <= AllSources(cols);
        assert Agree(w, VirtualFrom(cols)[i].sources);
      }
      assert t.value.cols == t'.value.cols;
    }
  }

  lemma {:induction false} ExprsSound(w: World, exprs: seq<Expr>, scope: seq<Relation>, b: seq<Bound>, b': seq<Bound>,
                                      joined: seq<seq<nat>>, ctes: CteMap, active: set<string>, depth: nat, fuel: nat)
    requires w.SameShape() && depth <= MAX_DEPTH && CollectAll(exprs, scope, ctes, active, depth).Ok?
    requires MatchedScope(w, scope, b, b')
    ensures var c := EvalExprs(w.engine, w.db, exprs, b, joined, ctes, fuel);
            var c' := EvalExprs(w.engine, w.db', exprs, b', joined, ctes, fuel);
            && c.Some? == c'.Some?
            && (c.Some? && Agree(w, CollectAll(exprs, scope, ctes, active, depth).value) ==> c.value == c'.value)
    decreases fuel, exprs, 1
  {
    if exprs != [] {
      ExprSound(w, exprs[0], scope, b, b', joined, ctes, active, depth, fuel);
      ExprsSound(w, exprs[1..], scope, b, b', joined, ctes, active, depth, fuel);
    }
  }

  // ----- names -----

  /** Whether the relation produces the column does not depend on the data; its cells only on its sources. */
  lemma InRelationSound(w: World, rel: Relation, b: Bound, b': Bound, column: string)
    requires w.SameShape() && MatchedBound(w, rel, b, b') && ResolveInRelation(rel, column).Ok?
    ensures var c := FindName(ColumnNames(b.data.cols), column);
            && c == FindName(ColumnNames(b'.data.cols), column)
            && (c.Some? && Agree(w, ResolveInRelation(rel, column).value) ==>
                  b.data.cols[c.value].cells == b'.data.cols[c.value].cells)
  {
    match rel.expose
    case Virtual(columns) =>
      assert Names(columns) == ColumnNames(b.data.cols) == ColumnNames(b'.data.cols);
    case Physical(table) =>
      BaseTableSound(w, table, b.data, b'.data, column);
  }

  lemma BaseTableSound(w: World, table: TableRef, t: ResultSet, t': ResultSet, column: string)
    requires Some(t) == BaseTable(w.db, table) && Some(t') == BaseTable(w.db', table) && t.rows == t'.rows
    requires w.db.catalog(table) == w.db'.catalog(table)
    ensures ColumnNames(t.cols) == ColumnNames(t'.cols)
    ensures var c := FindName(ColumnNames(t.cols), column);
            c.Some? && Agree(w, {SourceRef(table, Fold(column))}) ==> t.cols[c.value].cells == t'.cols[c.value].cells
  {
    var c := FindName(ColumnNames(t.cols), column);
    if c.Some? && Agree(w, {SourceRef(table, Fold(column))}) {
      var s := SourceRef(table, Fold(column));
      assert s in {s};
      assert AgreeOn(w, s);
      var name := t.cols[c.value].name.value;
      assert Fold(name) == Fold(column);
      forall i: nat | i < t.rows ensures t.cols[c.value].cells[i] == t'.cols[c.value].cells[i] {
        assert w.db.cell(s.table, s.column, i) == w.db'.cell(s.table, s.column, i);
      }
    }
  }

  /** With `i` the only holder on both sides, an unqualified column is looked up there. */
  lemma HolderFound(b: seq<Bound>, column: string, i: nat)
    requires OnlyHolder(b, column, i)
    ensures Lookup(b, None, column) == Some((i, FindName(ColumnNames(b[i].data.cols), column).value))
  {
    assert forall r: nat :: OnlyHolder(b, column, r) ==> r == i;
  }

  lemma HoldersAreProducers(w: World, scope: seq<Relation>, b: seq<Bound>, b': seq<Bound>, column: string, i: nat)
    requires MatchedScope(w, scope, b, b') && !HasPhysical(scope)
    requires i < |scope| && Produces(scope, column, i)
    requires forall j :: 0 <= j < |scope| && Produces(scope, column, j) ==> j == i
    ensures OnlyHolder(b, column, i) && OnlyHolder(b', column, i)
  {
    forall j | 0 <= j < |scope|
      ensures Holds(b, j, column) == Holds(b', j, column) == (j == i)
    {
      assert MatchedBound(w, scope[j], b[j], b'[j]);
      assert Names(scope[j].expose.columns) == ColumnNames(b[j].data.cols) == ColumnNames(b'[j].data.cols);
      assert Holds(b, j, column) == Produces(scope, column, j);
    }
  }

  lemma SingleColumnSound(w: World, scope: seq<Relation>, b: seq<Bound>, b': seq<Bound>, column: string)
    requires w.SameShape() && MatchedScope(w, scope, b, b') && |scope| == 1 && ResolveColumn(scope, None, column).Ok?
    ensures Lookup(b, None, column) == Lookup(b', None, column)
    ensures var at := Lookup(b, None, column);
            at.Some? && Agree(w, ResolveColumn(scope, None, column).value) ==>
              b[at.value.0].data.cols[at.value.1].cells == b'[at.value.0].data.cols[at.value.1].cells
  {
    InRelationSound(w, scope[0], b[0], b'[0], column);
    if Holds(b, 0, column) {
      HolderFound(b, column, 0);
      HolderFound(b', column, 0);
    } else {
      assert forall r: nat :: !OnlyHolder(b, column, r) && !OnlyHolder(b', column, r);
    }
  }

  lemma ColumnSound(w: World, scope: seq<Relation>, b: seq<Bound>, b': seq<Bound>, qualifier: Option<string>,
                    column: string)
    requires w.SameShape() && MatchedScope(w, scope, b, b') && ResolveColumn(scope, qualifier, column).Ok?
    ensures Lookup(b, qualifier, column) == Lookup(b', qualifier, column)
    ensures var at := Lookup(b, qualifier, column);
            at.Some? && Agree(w, ResolveColumn(scope, qualifier, column).value) ==>
              b[at.value.0].data.cols[at.value.1].cells == b'[at.value.0].data.cols[at.value.1].cells
  {
    if qualifier.Some? {
      assert Visibles(scope) == BoundNames(b) == BoundNames(b');
      var r := FindName(Visibles(scope), qualifier.value).value;
      InRelationSound(w, scope[r], b[r], b'[r], column);
    } else if |scope| == 1 {
      SingleColumnSound(w, scope, b, b', column);
    } else {
      CandidatesCountProducers(scope, column);
      var i :| OnlyProducer(scope, column, i);
      HoldersAreProducers(w, scope, b, b', column, i);
      HolderFound(b, column, i);
      HolderFound(b', column, i);
      InRelationSound(w, scope[i], b[i], b'[i], column);
    }
  }

  /** If a query resolves, output column `i` is the same on any two databases of one shape that agree on its sources. */
  lemma LineageIsSound(w: World, query: Query, fuel: nat, i: nat)
    requires w.SameShape() && Resolve(query).Ok? && i < |Resolve(query).value|
    ensures var t := EvalQuery(w.engine, w.db, query, map[], fuel);
            var t' := EvalQuery(w.engine, w.db', query, map[], fuel);
            && t.Some? == t'.Some?
            && (t.Some? ==> t.value.rows == t'.value.rows)
            && (t.Some? ==> |t.value.cols| == |t'.value.cols| == |Resolve(query).value|)
            && (t.Some? ==> t.value.cols[i].name == t'.value.cols[i].name == Resolve(query).value[i].name)
            && (t.Some? && Agree(w, Resolve(query).value[i].sources) ==> t.value.cols[i] == t'.value.cols[i])
  {
    QuerySound(w, query, map[], {}, 0, fuel);
    var v := VirtualFrom(Resolve(query).value);
    assert v[i] == VirtCol(Resolve(query).value[i].name, Resolve(query).value[i].sources);
  }
}
