/** The lineage of an output column names no column too many: changing any one of its sources can change its cells. */
module LineageExactness {
  import opened Common
  import opened LineageAst
  import opened ScopeRules
  import opened ResolveRules
  import opened QueryMeaning
  import opened LineageSoundness
  import opened QueryRuns

  // ----- the change -----

  /** An engine that forgets nothing: different arguments give different results. */
  ghost predicate Free(engine: Engine) {
    && (forall op: string, a: seq<Value>, a': seq<Value> :: engine.apply(op, a) == engine.apply(op, a') ==> a == a')
    && (forall t: ResultSet, t': ResultSet :: engine.subquery(t) == engine.subquery(t') ==> t == t')
  }

  /** Tables have rows, and the two databases differ in every row of column `s`. */
  ghost predicate Changed(w: World, s: SourceRef) {
    && w.SameShape() && Free(w.engine) && (forall t: TableRef :: w.db.rows(t) > 0)
    && forall i: nat :: i < w.db.rows(s.table) ==> w.db.cell(s.table, s.column, i) != w.db'.cell(s.table, s.column, i)
  }

  /** No `VALUES` without rows. */
  predicate BodyFilled(body: SetExpr)
    decreases body
  {
    match body
    case Values(rows) => rows != []
    case SetOperation(_, left, right) => BodyFilled(left) && BodyFilled(right)
    case _ => true
  }

  ghost predicate Filled(query: Query, parent: CteMap) {
    forall run :: IsRun(query, parent, run) ==> BodyFilled(End(query, parent, run).0.body)
  }

  ghost predicate FilledSteps(steps: seq<Step>) {
    forall step :: step in steps ==> Filled(step.query, step.ctes)
  }

  lemma FilledParts(query: Query, parent: CteMap)
    requires Filled(query, parent)
    ensures BodyFilled(query.body) && FilledSteps(QuerySteps(query, parent))
  {
    assert IsRun(query, parent, []) && End(query, parent, []).0 == query;
    forall step | step in QuerySteps(query, parent) ensures Filled(step.query, step.ctes) {
      forall run | IsRun(step.query, step.ctes, run) ensures BodyFilled(End(step.query, step.ctes, run).0.body) {
        var whole := [step] + run;
        assert whole[1..] == run && IsRun(query, parent, whole);
        assert End(query, parent, whole) == End(step.query, step.ctes, run);
      }
    }
  }

  // ----- what a change shows in -----

  /** `n` cells each, which differ wherever `s` is a source. */
  ghost predicate Shows(s: SourceRef, v: seq<VirtCol>, c: seq<Column>, c': seq<Column>, n: nat) {
    && |v| == |c| == |c'|
    && forall i :: 0 <= i < |v| ==>
         |c[i].cells| == n == |c'[i].cells| && (s in v[i].sources ==> c[i].cells != c'[i].cells)
  }

  ghost predicate SetShows(s: SourceRef, v: seq<VirtCol>, t: ResultSet, t': ResultSet) {
    t.rows == t'.rows > 0 && Shows(s, v, t.cols, t'.cols, t.rows)
  }

  ghost predicate BoundShows(s: SourceRef, rel: Relation, b: Bound, b': Bound) {
    && b.data.rows == b'.data.rows > 0
    && (rel.expose.Virtual? ==> Shows(s, rel.expose.columns, b.data.cols, b'.data.cols, b.data.rows))
  }

  ghost predicate ScopeShows(s: SourceRef, scope: seq<Relation>, b: seq<Bound>, b': seq<Bound>) {
    && |scope| == |b| == |b'|
    && forall i :: 0 <= i < |scope| ==> BoundShows(s, scope[i], b[i], b'[i])
  }

  /** The joined rows reach every row of every relation. */
  ghost predicate Reaches(joined: seq<seq<nat>>, b: seq<Bound>) {
    && joined != []
    && (forall k :: 0 <= k < |joined| ==> |joined[k]| == |b|)
    && (forall k, r :: 0 <= k < |joined| && 0 <= r < |b| ==> joined[k][r] < b[r].data.rows)
    && (forall r, j: nat :: 0 <= r < |b| && j < b[r].data.rows ==> RowReached(joined, r, j))
  }

  ghost predicate RowReached(joined: seq<seq<nat>>, r: nat, j: nat) {
    exists k :: 0 <= k < |joined| && r < |joined[k]| && joined[k][r] == j
  }

  // ----- products -----

  lemma {:induction false} CrossAt(prefixes: seq<seq<nat>>, n: nat, p: nat, j: nat) returns (k: nat)
    requires p < |prefixes| && j < n
    ensures k < |Cross(prefixes, n)| && Cross(prefixes, n)[k] == prefixes[p] + [j]
    decreases |prefixes|
  {
    if p == 0 {
      k := j;
    } else {
      k := CrossAt(prefixes[1..], n, p - 1, j);
      k := k + n;
    }
  }

  lemma {:induction false} CrossFrom(prefixes: seq<seq<nat>>, n: nat, k: nat) returns (p: nat, j: nat)
    requires k < |Cross(prefixes, n)|
    ensures p < |prefixes| && j < n && Cross(prefixes, n)[k] == prefixes[p] + [j]
    decreases |prefixes|
  {
    if k < n {
      p, j := 0, k;
    } else {
      p, j := CrossFrom(prefixes[1..], n, k - n);
      p := p + 1;
    }
  }

  lemma {:induction false} ProductReaches(counts: seq<nat>)
    requires forall r :: 0 <= r < |counts| ==> counts[r] > 0
    ensures Product(counts) != []
    ensures forall k :: 0 <= k < |Product(counts)| ==> |Product(counts)[k]| == |counts|
    ensures forall k, r :: 0 <= k < |Product(counts)| && 0 <= r < |counts| ==> Product(counts)[k][r] < counts[r]
    ensures forall r, j: nat :: 0 <= r < |counts| && j < counts[r] ==> RowReached(Product(counts), r, j)
    decreases |counts|
  {
    if counts != [] {
      var n := |counts| - 1;
      var front, all := Product(counts[..n]), Product(counts);
      ProductReaches(counts[..n]);
      var some := CrossAt(front, counts[n], 0, 0);
      forall k | 0 <= k < |all|
        ensures |all[k]| == |counts| && forall r :: 0 <= r < |counts| ==> all[k][r] < counts[r]
      {
        var p, j := CrossFrom(front, counts[n], k);
      }
      forall r, j: nat | 0 <= r < |counts| && j < counts[r] ensures RowReached(all, r, j) {
        if r < n {
          assert RowReached(front, r, j);
          var p :| 0 <= p < |front| && r < |front[p]| && front[p][r] == j;
          var k := CrossAt(front, counts[n], p, 0);
          assert all[k][r] == j;
        } else {
          var k := CrossAt(front, counts[n], 0, j);
          assert all[k][r] == j;
        }
      }
    }
  }

  lemma ScopeReached(s: SourceRef, scope: seq<Relation>, b: seq<Bound>, b': seq<Bound>)
    requires ScopeShows(s, scope, b, b')
    ensures Counts(b) == Counts(b') && Reaches(Product(Counts(b)), b)
  {
    assert forall i :: 0 <= i < |scope| ==> BoundShows(s, scope[i], b[i], b'[i]);
    var counts := Counts(b);
    var joined := Product(counts);
    assert forall r :: 0 <= r < |b| ==> counts[r] == b[r].data.rows > 0;
    ProductReaches(counts);
    forall k, r | 0 <= k < |joined| && 0 <= r < |b| ensures joined[k][r] < b[r].data.rows {
      assert joined[k][r] < counts[r];
    }
    forall r, j: nat | 0 <= r < |b| && j < b[r].data.rows ensures RowReached(joined, r, j) {
      assert j < counts[r];
    }
  }

  /** Cells that differ still do when seen from the joined rows. */
  lemma LiftShows(cells: seq<Value>, cells': seq<Value>, r: nat, joined: seq<seq<nat>>, b: seq<Bound>)
    requires Reaches(joined, b) && r < |b| && |cells| == |cells'| == b[r].data.rows && cells != cells'
    ensures Lift(cells, r, joined) != Lift(cells', r, joined)
  {
    var j: nat :| j < |cells| && cells[j] != cells'[j];
    assert RowReached(joined, r, j);
    var k :| 0 <= k < |joined| && r < |joined[k]| && joined[k][r] == j;
    assert Lift(cells, r, joined)[k] != Lift(cells', r, joined)[k];
  }

  lemma LiftAllShows(s: SourceRef, v: seq<VirtCol>, c: seq<Column>, c': seq<Column>, r: nat, joined: seq<seq<nat>>,
                     b: seq<Bound>)
    requires Reaches(joined, b) && r < |b| && Shows(s, v, c, c', b[r].data.rows)
    ensures Shows(s, v, LiftAll(c, r, joined), LiftAll(c', r, joined), |joined|)
  {
    var d, d' := LiftAll(c, r, joined), LiftAll(c', r, joined);
    forall i | 0 <= i < |v|
      ensures |d[i].cells| == |joined| == |d'[i].cells| && (s in v[i].sources ==> d[i].cells != d'[i].cells)
    {
      assert d[i].cells == Lift(c[i].cells, r, joined) && d'[i].cells == Lift(c'[i].cells, r, joined);
      if s in v[i].sources {
        LiftShows(c[i].cells, c'[i].cells, r, joined, b);
      }
    }
  }

  lemma ShowsConcat(s: SourceRef, v: seq<VirtCol>, c: seq<Column>, c': seq<Column>, u: seq<VirtCol>, d: seq<Column>,
                    d': seq<Column>, n: nat)
    requires Shows(s, v, c, c', n) && Shows(s, u, d, d', n)
    ensures Shows(s, v + u, c + d, c' + d', n)
  {
  }

  // ----- the main induction -----

  lemma {:induction false} QueryShows(w: World, s: SourceRef, query: Query, parent: CteMap, active: set<string>,
                                      depth: nat, fuel: nat)
    requires Changed(w, s) && Filled(query, parent) && ResolveQuery(query, parent, active, depth).Ok?
    requires EvalQuery(w.engine, w.db, query, parent, fuel).Some?
    ensures EvalQuery(w.engine, w.db', query, parent, fuel).Some?
    ensures SetShows(s, VirtualFrom(ResolveQuery(query, parent, active, depth).value),
                     EvalQuery(w.engine, w.db, query, parent, fuel).value,
                     EvalQuery(w.engine, w.db', query, parent, fuel).value)
    decreases fuel, query, 1
  {
    hide Filled, SetShows;
    FilledParts(query, parent);
    QuerySound(w, query, parent, active, depth, fuel);
    BodyShows(w, s, query.body, WithCtes(parent, query.withs), active, depth, fuel);
  }

  lemma {:induction false} BodyShows(w: World, s: SourceRef, body: SetExpr, ctes: CteMap, active: set<string>,
                                     depth: nat, fuel: nat)
    requires Changed(w, s) && BodyFilled(body) && FilledSteps(BodySteps(body, ctes)) && depth <= MAX_DEPTH
    requires ResolveSetExpr(body, ctes, active, depth).Ok?
    requires EvalSetExpr(w.engine, w.db, body, ctes, fuel).Some? && EvalSetExpr(w.engine, w.db', body, ctes, fuel).Some?
    ensures SetShows(s, VirtualFrom(ResolveSetExpr(body, ctes, active, depth).value),
                     EvalSetExpr(w.engine, w.db, body, ctes, fuel).value,
                     EvalSetExpr(w.engine, w.db', body, ctes, fuel).value)
    decreases fuel, body, 1
  {
    hide Filled, SetShows, MatchedScope;
    match body
    case Select(projection, from) =>
      FromSound(w, from, [], [], [], ctes, active, depth, fuel);
      EmptyScopes(w);
      FromShows(w, s, from, [], [], [], ctes, active, depth, fuel);
      SelectShows(w, s, body, ctes, active, depth, fuel);
    case Nested(query) =>
      assert Step(None, query, ctes) in BodySteps(body, ctes);
      QueryShows(w, s, query, ctes, active, depth + 1, fuel);
    case SetOperation(op, left, right) =>
      BodyShows(w, s, left, ctes, active, depth, fuel);
      BodyShows(w, s, right, ctes, active, depth, fuel);
      UnionShows(s, ResolveSetExpr(left, ctes, active, depth).value, ResolveSetExpr(right, ctes, active, depth).value,
                 EvalSetExpr(w.engine, w.db, left, ctes, fuel).value,
                 EvalSetExpr(w.engine, w.db', left, ctes, fuel).value,
                 EvalSetExpr(w.engine, w.db, right, ctes, fuel).value,
                 EvalSetExpr(w.engine, w.db', right, ctes, fuel).value);
    case Values(rows) =>
      RowsShow(w, s, rows, ctes, active, depth, fuel, [], ResultSet(0, []), ResultSet(0, []));
  }

  lemma {:induction false} SelectShows(w: World, s: SourceRef, body: SetExpr, ctes: CteMap, active: set<string>,
                                       depth: nat, fuel: nat)
    requires Changed(w, s) && body.Select? && FilledSteps(ItemsSteps(body.projection, ctes)) && depth <= MAX_DEPTH
    requires ResolveSetExpr(body, ctes, active, depth).Ok?
    requires EvalSetExpr(w.engine, w.db, body, ctes, fuel).Some? && EvalSetExpr(w.engine, w.db', body, ctes, fuel).Some?
    requires var scope := BuildScope(body.from, [], ctes, active, depth);
             var b := BindFrom(w.engine, w.db, body.from, [], ctes, fuel);
             var b' := BindFrom(w.engine, w.db', body.from, [], ctes, fuel);
             scope.Ok? && b.Some? && b'.Some? && MatchedScope(w, scope.value, b.value, b'.value)
             && ScopeShows(s, scope.value, b.value, b'.value)
    ensures SetShows(s, VirtualFrom(ResolveSetExpr(body, ctes, active, depth).value),
                     EvalSetExpr(w.engine, w.db, body, ctes, fuel).value,
                     EvalSetExpr(w.engine, w.db', body, ctes, fuel).value)
    decreases fuel, body, 0
  {
    hide MatchedScope, Filled, Reaches;
    var scope := BuildScope(body.from, [], ctes, active, depth).value;
    var b := BindFrom(w.engine, w.db, body.from, [], ctes, fuel).value;
    var b' := BindFrom(w.engine, w.db', body.from, [], ctes, fuel).value;
    var joined := Product(Counts(b));
    ScopeReached(s, scope, b, b');
    assert joined != [] by { ReachesSome(joined, b); }
    ItemsShow(w, s, body.projection, scope, b, b', joined, ctes, active, depth, fuel, [], [], []);
  }

  lemma ReachesSome(joined: seq<seq<nat>>, b: seq<Bound>)
    requires Reaches(joined, b)
    ensures joined != []
  {
  }

  lemma UnionShows(s: SourceRef, left: Columns, right: Columns, l: ResultSet, l': ResultSet, r: ResultSet,
                   r': ResultSet)
    requires SetShows(s, VirtualFrom(left), l, l') && SetShows(s, VirtualFrom(right), r, r')
    requires |l.cols| == |r.cols|
    ensures SetShows(s, VirtualFrom(Merge(left, right, [])), UnionOf(l, r), UnionOf(l', r'))
  {
    MergeAt(left, right, []);
    var merged, t, t' := VirtualFrom(Merge(left, right, [])), UnionOf(l, r), UnionOf(l', r');
    forall i | 0 <= i < |merged|
      ensures |t.cols[i].cells| == t.rows == |t'.cols[i].cells|
              && (s in merged[i].sources ==> t.cols[i].cells != t'.cols[i].cells)
    {
      assert VirtualFrom(left)[i].sources == left[i].sources && VirtualFrom(right)[i].sources == right[i].sources;
      AppendDiffers(l.cols[i].cells, l'.cols[i].cells, r.cols[i].cells, r'.cols[i].cells);
    }
  }

  lemma AppendDiffers(a: seq<Value>, a': seq<Value>, c: seq<Value>, c': seq<Value>)
    requires |a| == |a'|
    ensures a != a' || c != c' ==> a + c != a' + c'
  {
    assert (a + c)[..|a|] == a && (a' + c')[..|a|] == a' && (a + c)[|a|..] == c && (a' + c')[|a|..] == c';
  }

  // ----- VALUES -----

  /** A row extends each column's sources by those of its cell, and no others. */
  lemma {:induction false} CellsExactly(cells: seq<Expr>, ctes: CteMap, active: set<string>, depth: nat, i: nat,
                                        out: Columns)
    requires depth <= MAX_DEPTH && ResolveCells(cells, ctes, active, depth, i, out).Ok? && i <= |out|
    ensures var next := ResolveCells(cells, ctes, active, depth, i, out).value;
            && |next| == (if i + |cells| > |out| then i + |cells| else |out|)
            && (forall j :: 0 <= j < |cells| ==> CollectSources(cells[j], [], ctes, active, depth).Ok?)
            && forall j :: 0 <= j < |next| ==>
                 next[j].sources == (if j < |out| then out[j].sources else {})
                                    + if i <= j < i + |cells|
                                      then CollectSources(cells[j - i], [], ctes, active, depth).value else {}
    decreases cells
  {
    hide CollectSources;
    if cells != [] {
      var sources := CollectSources(cells[0], [], ctes, active, depth).value;
      var step := if i < |out| then out[i := out[i].(sources := out[i].sources + sources)]
                  else Push(out, None, sources);
      CellsExactly(cells[1..], ctes, active, depth, i + 1, step);
      var next := ResolveCells(cells, ctes, active, depth, i, out).value;
      forall j | 0 <= j < |cells| ensures CollectSources(cells[j], [], ctes, active, depth).Ok? {
        if j > 0 { assert cells[j] == cells[1..][j - 1]; }
      }
      forall j | 0 <= j < |next|
        ensures next[j].sources == (if j < |out| then out[j].sources else {})
                                   + if i <= j < i + |cells|
                                     then CollectSources(cells[j - i], [], ctes, active, depth).value else {}
      {
        if i < j < i + |cells| { assert cells[j - i] == cells[1..][j - i - 1]; }
      }
    }
  }

  /** Each cell that has `s` among its sources differs. */
  lemma {:induction false} CellsShow(w: World, s: SourceRef, cells: seq<Expr>, ctes: CteMap, active: set<string>,
                                     depth: nat, fuel: nat)
    requires Changed(w, s) && FilledSteps(ExprsSteps(cells, ctes)) && depth <= MAX_DEPTH
    requires forall j :: 0 <= j < |cells| ==> CollectSources(cells[j], [], ctes, active, depth).Ok?
    requires EvalCells(w.engine, w.db, cells, ctes, fuel).Some? && EvalCells(w.engine, w.db', cells, ctes, fuel).Some?
    ensures var v, v' := EvalCells(w.engine, w.db, cells, ctes, fuel).value,
                         EvalCells(w.engine, w.db', cells, ctes, fuel).value;
            && |v| == |v'| == |cells|
            && forall j :: 0 <= j < |cells| && s in CollectSources(cells[j], [], ctes, active, depth).value ==>
                 v[j] != v'[j]
    decreases fuel, cells, 1
  {
    if cells != [] {
      hide CollectSources, EvalExpr, Filled, Changed;
      CellShows(w, s, cells[0], ctes, active, depth, fuel);
      CellsShow(w, s, cells[1..], ctes, active, depth, fuel);
      var v := EvalCells(w.engine, w.db, cells, ctes, fuel).value;
      var v' := EvalCells(w.engine, w.db', cells, ctes, fuel).value;
      assert v[1..] == EvalCells(w.engine, w.db, cells[1..], ctes, fuel).value;
      assert v'[1..] == EvalCells(w.engine, w.db', cells[1..], ctes, fuel).value;
      forall j | 0 <= j < |cells| && s in CollectSources(cells[j], [], ctes, active, depth).value
        ensures v[j] != v'[j]
      {
        if j > 0 { assert cells[j] == cells[1..][j - 1] && v[j] == v[1..][j - 1] && v'[j] == v'[1..][j - 1]; }
      }
    }
  }

  lemma {:induction false} CellShows(w: World, s: SourceRef, cell: Expr, ctes: CteMap, active: set<string>, depth: nat,
                                     fuel: nat)
    requires Changed(w, s) && FilledSteps(ExprSteps(cell, ctes)) && depth <= MAX_DEPTH
    requires CollectSources(cell, [], ctes, active, depth).Ok?
    requires EvalExpr(w.engine, w.db, cell, [], [[]], ctes, fuel).Some?
    requires EvalExpr(w.engine, w.db', cell, [], [[]], ctes, fuel).Some?
    ensures s in CollectSources(cell, [], ctes, active, depth).value ==>
              At(EvalExpr(w.engine, w.db, cell, [], [[]], ctes, fuel).value, 0)
              != At(EvalExpr(w.engine, w.db', cell, [], [[]], ctes, fuel).value, 0)
    decreases fuel, cell, 2
  {
    hide CollectSources, EvalExpr, MatchedScope, Filled, Changed;
    EmptyScopes(w);
    assert Reaches([[]], []);
    ExprShows(w, s, cell, [], [], [], [[]], ctes, active, depth, fuel);
    OneCell(EvalExpr(w.engine, w.db, cell, [], [[]], ctes, fuel).value,
            EvalExpr(w.engine, w.db', cell, [], [[]], ctes, fuel).value);
  }

  lemma OneCell(c: seq<Value>, c': seq<Value>)
    requires |c| == |c'| == 1
    ensures c != c' ==> At(c, 0) != At(c', 0)
  {
  }

  lemma {:induction false} RowsShow(w: World, s: SourceRef, rows: seq<Row>, ctes: CteMap, active: set<string>,
                                    depth: nat, fuel: nat, out: Columns, acc: ResultSet, acc': ResultSet)
    requires Changed(w, s) && FilledSteps(RowsSteps(rows, ctes)) && depth <= MAX_DEPTH
    requires ResolveRows(rows, ctes, active, depth, out).Ok?
    requires acc.rows == acc'.rows && Shows(s, VirtualFrom(out), acc.cols, acc'.cols, acc.rows)
    requires rows == [] ==> acc.rows > 0
    requires acc.rows == 0 ==> out == []
    requires EvalRows(w.engine, w.db, rows, ctes, fuel, acc).Some?
             && EvalRows(w.engine, w.db', rows, ctes, fuel, acc').Some?
    ensures SetShows(s, VirtualFrom(ResolveRows(rows, ctes, active, depth, out).value),
                     EvalRows(w.engine, w.db, rows, ctes, fuel, acc).value,
                     EvalRows(w.engine, w.db', rows, ctes, fuel, acc').value)
    decreases fuel, rows, 1
  {
    if rows != [] {
      hide CollectSources, ResolveCells, EvalCells, Filled, Shows;
      var cells := rows[0].content;
      CellsExactly(cells, ctes, active, depth, 0, out);
      var next := ResolveCells(cells, ctes, active, depth, 0, out).value;
      CellsShow(w, s, cells, ctes, active, depth, fuel);
      var v := EvalCells(w.engine, w.db, cells, ctes, fuel).value;
      var v' := EvalCells(w.engine, w.db', cells, ctes, fuel).value;
      RowShows(s, out, next, acc, acc', v, v', seq(|cells|, j requires 0 <= j < |cells| =>
        CollectSources(cells[j], [], ctes, active, depth).value));
      RowsShow(w, s, rows[1..], ctes, active, depth, fuel, next, AppendRow(acc, v), AppendRow(acc', v'));
    }
  }

  lemma RowShows(s: SourceRef, out: Columns, next: Columns, acc: ResultSet, acc': ResultSet, v: seq<Value>,
                 v': seq<Value>, found: seq<Sources>)
    requires acc.rows == acc'.rows && Shows(s, VirtualFrom(out), acc.cols, acc'.cols, acc.rows)
    requires acc.rows == 0 ==> out == []
    requires |found| == |v| == |v'| && (acc.rows > 0 ==> |v| == |acc.cols|)
    requires |next| == (if |v| > |out| then |v| else |out|)
    requires forall j :: 0 <= j < |next| ==>
               next[j].sources == (if j < |out| then out[j].sources else {}) + if j < |v| then found[j] else {}
    requires forall j :: 0 <= j < |v| && s in found[j] ==> v[j] != v'[j]
    ensures Shows(s, VirtualFrom(next), AppendRow(acc, v).cols, AppendRow(acc', v').cols, acc.rows + 1)
  {
    var t, t' := AppendRow(acc, v), AppendRow(acc', v');
    forall j | 0 <= j < |next|
      ensures |t.cols[j].cells| == acc.rows + 1 == |t'.cols[j].cells|
              && (s in next[j].sources ==> t.cols[j].cells != t'.cols[j].cells)
    {
      if j < |out| {
        assert VirtualFrom(out)[j].sources == out[j].sources;
        AppendDiffers(acc.cols[j].cells, acc'.cols[j].cells, [v[j]], [v'[j]]);
      }
      assert [v[j]][0] == v[j] && [v'[j]][0] == v'[j];
    }
  }

  // ----- projection -----

  lemma {:induction false} ItemsShow(w: World, s: SourceRef, items: seq<SelectItem>, scope: seq<Relation>,
                                     b: seq<Bound>, b': seq<Bound>, joined: seq<seq<nat>>, ctes: CteMap,
                                     active: set<string>, depth: nat, fuel: nat, out: Columns, cols: seq<Column>,
                                     cols': seq<Column>)
    requires Changed(w, s) && FilledSteps(ItemsSteps(items, ctes)) && depth <= MAX_DEPTH
    requires MatchedScope(w, scope, b, b') && ScopeShows(s, scope, b, b') && Reaches(joined, b)
    requires ResolveItems(items, scope, ctes, active, depth, out).Ok?
    requires Shows(s, VirtualFrom(out), cols, cols', |joined|)
    requires EvalItems(w.engine, w.db, items, b, joined, ctes, fuel, cols).Some?
    requires EvalItems(w.engine, w.db', items, b', joined, ctes, fuel, cols').Some?
    ensures Shows(s, VirtualFrom(ResolveItems(items, scope, ctes, active, depth, out).value),
                  EvalItems(w.engine, w.db, items, b, joined, ctes, fuel, cols).value,
                  EvalItems(w.engine, w.db', items, b', joined, ctes, fuel, cols').value, |joined|)
    decreases fuel, items, 1
  {
    if items != [] {
      hide MatchedScope, ScopeShows, Reaches, Filled, Shows, ResolveItem, EvalItem;
      ItemShows(w, s, items[0], scope, b, b', joined, ctes, active, depth, fuel, out);
      var next := ResolveItem(items[0], scope, ctes, active, depth, out).value;
      var c := EvalItem(w.engine, w.db, items[0], b, joined, ctes, fuel).value;
      var c' := EvalItem(w.engine, w.db', items[0], b', joined, ctes, fuel).value;
      ShowsConcat(s, VirtualFrom(out), cols, cols', VirtualFrom(next)[|out|..], c, c', |joined|);
      assert VirtualFrom(next) == VirtualFrom(out) + VirtualFrom(next)[|out|..];
      ItemsShow(w, s, items[1..], scope, b, b', joined, ctes, active, depth, fuel, next, cols + c, cols' + c');
    }
  }

  lemma {:induction false} ItemShows(w: World, s: SourceRef, item: SelectItem, scope: seq<Relation>, b: seq<Bound>,
                                     b': seq<Bound>, joined: seq<seq<nat>>, ctes: CteMap, active: set<string>,
                                     depth: nat, fuel: nat, out: Columns)
    requires Changed(w, s) && FilledSteps(ItemSteps(item, ctes)) && depth <= MAX_DEPTH
    requires MatchedScope(w, scope, b, b') && ScopeShows(s, scope, b, b') && Reaches(joined, b)
    requires ResolveItem(item, scope, ctes, active, depth, out).Ok?
    requires EvalItem(w.engine, w.db, item, b, joined, ctes, fuel).Some?
    requires EvalItem(w.engine, w.db', item, b', joined, ctes, fuel).Some?
    ensures var next := VirtualFrom(ResolveItem(item, scope, ctes, active, depth, out).value);
            && |out| <= |next| && next[..|out|] == VirtualFrom(out)
            && Shows(s, next[|out|..], EvalItem(w.engine, w.db, item, b, joined, ctes, fuel).value,
                     EvalItem(w.engine, w.db', item, b', joined, ctes, fuel).value, |joined|)
    decreases fuel, item, 1
  {
    hide Reaches, Filled, CollectSources, EvalExpr, Changed;
    match item
    case Wildcard =>
      PushExpandedAppends(out, ExpandAll(scope, []).value);
      WildcardShows(s, scope, b, b', 0, joined, []);
      assert scope[0..] == scope;
    case QualifiedWildcard(name) =>
      PushExpandedAppends(out, ExpandQualified(scope, LastIdent(name)).value);
      SameVisibles(w, scope, b, b');
      var r := FindName(Visibles(scope), LastIdent(name)).value;
      assert BoundShows(s, scope[r], b[r], b'[r]);
      LiftAllShows(s, scope[r].expose.columns, b[r].data.cols, b'[r].data.cols, r, joined, b);
    case UnnamedExpr(expr) => ExprShows(w, s, expr, scope, b, b', joined, ctes, active, depth, fuel);
    case ExprWithAlias(expr, _) => ExprShows(w, s, expr, scope, b, b', joined, ctes, active, depth, fuel);
    case ExprWithAliases(expr, _) => ExprShows(w, s, expr, scope, b, b', joined, ctes, active, depth, fuel);
  }

  lemma SameVisibles(w: World, scope: seq<Relation>, b: seq<Bound>, b': seq<Bound>)
    requires MatchedScope(w, scope, b, b')
    ensures Visibles(scope) == BoundNames(b) == BoundNames(b')
  {
    assert forall i :: 0 <= i < |scope| ==> MatchedBound(w, scope[i], b[i], b'[i]);
  }

  lemma {:induction false} WildcardShows(s: SourceRef, scope: seq<Relation>, b: seq<Bound>, b': seq<Bound>, r: nat,
                                         joined: seq<seq<nat>>, before: Expanded)
    requires ScopeShows(s, scope, b, b') && Reaches(joined, b) && r <= |scope| && ExpandAll(scope[r..], before).Ok?
    ensures var expanded := ExpandAll(scope[r..], before).value;
            && |before| <= |expanded| && expanded[..|before|] == before
            && Shows(s, expanded[|before|..], WildcardFrom(b, r, joined), WildcardFrom(b', r, joined), |joined|)
    decreases |scope| - r
  {
    hide Reaches;
    if r < |scope| {
      assert scope[r..][1..] == scope[r + 1..];
      assert BoundShows(s, scope[r], b[r], b'[r]);
      var columns := scope[r].expose.columns;
      WildcardShows(s, scope, b, b', r + 1, joined, before + columns);
      LiftAllShows(s, columns, b[r].data.cols, b'[r].data.cols, r, joined, b);
      var expanded := ExpandAll(scope[r..], before).value;
      assert expanded[|before|..] == columns + expanded[|before + columns|..];
      assert expanded[..|before|] == expanded[..|before + columns|][..|before|];
      ShowsConcat(s, columns, LiftAll(b[r].data.cols, r, joined), LiftAll(b'[r].data.cols, r, joined),
                  expanded[|before + columns|..], WildcardFrom(b, r + 1, joined), WildcardFrom(b', r + 1, joined),
                  |joined|);
    }
  }

  // ----- FROM -----

  lemma {:induction false} FromShows(w: World, s: SourceRef, from: seq<TableWithJoins>, scope: seq<Relation>,
                                     b: seq<Bound>, b': seq<Bound>, ctes: CteMap, active: set<string>, depth: nat,
                                     fuel: nat)
    requires Changed(w, s) && FilledSteps(FromSteps(from, ctes)) && depth <= MAX_DEPTH
    requires ScopeShows(s, scope, b, b') && BuildScope(from, scope, ctes, active, depth).Ok?
    requires BindFrom(w.engine, w.db, from, b, ctes, fuel).Some?
             && BindFrom(w.engine, w.db', from, b', ctes, fuel).Some?
    ensures ScopeShows(s, BuildScope(from, scope, ctes, active, depth).value,
                       BindFrom(w.engine, w.db, from, b, ctes, fuel).value,
                       BindFrom(w.engine, w.db', from, b', ctes, fuel).value)
    decreases fuel, from, 1
  {
    hide ScopeShows, Filled, Changed;
    if from != [] {
      TablesShow(w, s, from[0], scope, b, b', ctes, active, depth, fuel);
      FromShows(w, s, from[1..], AddTableWithJoins(from[0], scope, ctes, active, depth).value,
                BindTables(w.engine, w.db, from[0], b, ctes, fuel).value,
                BindTables(w.engine, w.db', from[0], b', ctes, fuel).value, ctes, active, depth, fuel);
    }
  }

  lemma {:induction false} TablesShow(w: World, s: SourceRef, tables: TableWithJoins, scope: seq<Relation>,
                                      b: seq<Bound>, b': seq<Bound>, ctes: CteMap, active: set<string>, depth: nat,
                                      fuel: nat)
    requires Changed(w, s) && FilledSteps(TablesSteps(tables, ctes)) && depth <= MAX_DEPTH
    requires ScopeShows(s, scope, b, b') && AddTableWithJoins(tables, scope, ctes, active, depth).Ok?
    requires BindTables(w.engine, w.db, tables, b, ctes, fuel).Some?
    requires BindTables(w.engine, w.db', tables, b', ctes, fuel).Some?
    ensures ScopeShows(s, AddTableWithJoins(tables, scope, ctes, active, depth).value,
                       BindTables(w.engine, w.db, tables, b, ctes, fuel).value,
                       BindTables(w.engine, w.db', tables, b', ctes, fuel).value)
    decreases fuel, tables, 1
  {
    hide ScopeShows, Filled, Changed;
    FactorShows(w, s, tables.relation, scope, b, b', ctes, active, depth, fuel);
    FactorsShow(w, s, tables.joins, AddTableFactor(tables.relation, scope, ctes, active, depth).value,
                BindFactor(w.engine, w.db, tables.relation, b, ctes, fuel).value,
                BindFactor(w.engine, w.db', tables.relation, b', ctes, fuel).value, ctes, active, depth, fuel);
  }

  lemma {:induction false} FactorsShow(w: World, s: SourceRef, factors: seq<TableFactor>, scope: seq<Relation>,
                                       b: seq<Bound>, b': seq<Bound>, ctes: CteMap, active: set<string>, depth: nat,
                                       fuel: nat)
    requires Changed(w, s) && FilledSteps(FactorsSteps(factors, ctes)) && depth <= MAX_DEPTH
    requires ScopeShows(s, scope, b, b') && AddTableFactors(factors, scope, ctes, active, depth).Ok?
    requires BindFactors(w.engine, w.db, factors, b, ctes, fuel).Some?
    requires BindFactors(w.engine, w.db', factors, b', ctes, fuel).Some?
    ensures ScopeShows(s, AddTableFactors(factors, scope, ctes, active, depth).value,
                       BindFactors(w.engine, w.db, factors, b, ctes, fuel).value,
                       BindFactors(w.engine, w.db', factors, b', ctes, fuel).value)
    decreases fuel, factors, 1
  {
    hide ScopeShows, Filled, Changed;
    if factors != [] {
      FactorShows(w, s, factors[0], scope, b, b', ctes, active, depth, fuel);
      FactorsShow(w, s, factors[1..], AddTableFactor(factors[0], scope, ctes, active, depth).value,
                  BindFactor(w.engine, w.db, factors[0], b, ctes, fuel).value,
                  BindFactor(w.engine, w.db', factors[0], b', ctes, fuel).value, ctes, active, depth, fuel);
    }
  }

  lemma {:induction false} FactorShows(w: World, s: SourceRef, factor: TableFactor, scope: seq<Relation>, b: seq<Bound>,
                                       b': seq<Bound>, ctes: CteMap, active: set<string>, depth: nat, fuel: nat)
    requires Changed(w, s) && FilledSteps(FactorSteps(factor, ctes)) && depth <= MAX_DEPTH
    requires ScopeShows(s, scope, b, b') && AddTableFactor(factor, scope, ctes, active, depth).Ok?
    requires BindFactor(w.engine, w.db, factor, b, ctes, fuel).Some?
    requires BindFactor(w.engine, w.db', factor, b', ctes, fuel).Some?
    ensures ScopeShows(s, AddTableFactor(factor, scope, ctes, active, depth).value,
                       BindFactor(w.engine, w.db, factor, b, ctes, fuel).value,
                       BindFactor(w.engine, w.db', factor, b', ctes, fuel).value)
    decreases fuel, factor, 1
  {
    hide Filled, Shows;
    match factor
    case Table(name, alias) =>
      var folded := Fold(LastIdent(name));
      if folded in ctes {
        assert Step(Some(folded), ctes[folded], ctes) in FactorSteps(factor, ctes);
        QueryShows(w, s, ctes[folded], ctes, active + {folded}, depth + 1, fuel - 1);
      } else {
        assert w.db.catalog(TableRefOf(name)) == w.db'.catalog(TableRefOf(name));
        assert w.db.rows(TableRefOf(name)) == w.db'.rows(TableRefOf(name));
      }
    case Derived(subquery, _) =>
      assert Step(None, subquery, ctes) in FactorSteps(factor, ctes);
      QueryShows(w, s, subquery, ctes, active, depth + 1, fuel);
    case NestedJoin(tables) => TablesShow(w, s, tables, scope, b, b', ctes, active, depth, fuel);
  }

  // ----- expressions -----

  lemma {:induction false} ExprShows(w: World, s: SourceRef, expr: Expr, scope: seq<Relation>, b: seq<Bound>,
                                     b': seq<Bound>, joined: seq<seq<nat>>, ctes: CteMap, active: set<string>,
                                     depth: nat, fuel: nat)
    requires Changed(w, s) && FilledSteps(ExprSteps(expr, ctes)) && depth <= MAX_DEPTH
    requires MatchedScope(w, scope, b, b') && ScopeShows(s, scope, b, b') && Reaches(joined, b)
    requires CollectSources(expr, scope, ctes, active, depth).Ok?
    requires EvalExpr(w.engine, w.db, expr, b, joined, ctes, fuel).Some?
    requires EvalExpr(w.engine, w.db', expr, b', joined, ctes, fuel).Some?
    ensures var c := EvalExpr(w.engine, w.db, expr, b, joined, ctes, fuel).value;
            var c' := EvalExpr(w.engine, w.db', expr, b', joined, ctes, fuel).value;
            && |c| == |joined| == |c'|
            && (s in CollectSources(expr, scope, ctes, active, depth).value ==> c != c')
    decreases fuel, expr, 1
  {
    hide MatchedScope, ScopeShows, Filled, SetShows, Lookup;
    match expr
    case Subquery(query) =>
      assert Step(None, query, ctes) in ExprSteps(expr, ctes);
      QueryShows(w, s, query, ctes, active, depth + 1, fuel);
      var t := EvalQuery(w.engine, w.db, query, ctes, fuel).value;
      var t' := EvalQuery(w.engine, w.db', query, ctes, fuel).value;
      SubqueryShows(s, ResolveQuery(query, ctes, active, depth + 1).value, t, t');
      var c := EvalExpr(w.engine, w.db, expr, b, joined, ctes, fuel).value;
      var c' := EvalExpr(w.engine, w.db', expr, b', joined, ctes, fuel).value;
      assert c[0] == w.engine.subquery(t) && c'[0] == w.engine.subquery(t');
    case Apply(op, args) =>
      ExprsShow(w, s, args, scope, b, b', joined, ctes, active, depth, fuel);
      ApplyShows(w.engine, op, EvalExprs(w.engine, w.db, args, b, joined, ctes, fuel).value,
                 EvalExprs(w.engine, w.db', args, b', joined, ctes, fuel).value, |joined|);
    case _ =>
      var reference := ColumnReference(expr).value;
      ColumnShows(w, s, scope, b, b', reference.0, reference.1);
      var at := Lookup(b, reference.0, reference.1).value;
      var cells, cells' := b[at.0].data.cols[at.1].cells, b'[at.0].data.cols[at.1].cells;
      if s in CollectSources(expr, scope, ctes, active, depth).value {
        LiftShows(cells, cells', at.0, joined, b);
      }
  }

  lemma SubqueryShows(s: SourceRef, cols: Columns, t: ResultSet, t': ResultSet)
    requires SetShows(s, VirtualFrom(cols), t, t')
    ensures s in AllSources(cols) ==> t != t'
  {
    if s in AllSources(cols) {
      var i :| 0 <= i < |cols| && s in cols[i].sources;
      assert s in VirtualFrom(cols)[i].sources;
    }
  }

  /** An operator whose arguments differ in some row gives different values there. */
  lemma ApplyShows(engine: Engine, op: string, columns: seq<seq<Value>>, columns': seq<seq<Value>>, n: nat)
    requires Free(engine) && |columns| == |columns'|
    requires forall j :: 0 <= j < |columns| ==> |columns[j]| == n == |columns'[j]|
    ensures columns != columns' ==>
              seq(n, k requires 0 <= k < n => engine.apply(op, ArgumentsAt(columns, k)))
              != seq(n, k requires 0 <= k < n => engine.apply(op, ArgumentsAt(columns', k)))
  {
    if columns != columns' {
      var j :| 0 <= j < |columns| && columns[j] != columns'[j];
      var k :| 0 <= k < n && columns[j][k] != columns'[j][k];
      assert ArgumentsAt(columns, k)[j] != ArgumentsAt(columns', k)[j];
      var c := seq(n, k requires 0 <= k < n => engine.apply(op, ArgumentsAt(columns, k)));
      var c' := seq(n, k requires 0 <= k < n => engine.apply(op, ArgumentsAt(columns', k)));
      assert c[k] != c'[k];
    }
  }

  lemma {:induction false} ExprsShow(w: World, s: SourceRef, exprs: seq<Expr>, scope: seq<Relation>, b: seq<Bound>,
                                     b': seq<Bound>, joined: seq<seq<nat>>, ctes: CteMap, active: set<string>,
                                     depth: nat, fuel: nat)
    requires Changed(w, s) && FilledSteps(ExprsSteps(exprs, ctes)) && depth <= MAX_DEPTH
    requires MatchedScope(w, scope, b, b') && ScopeShows(s, scope, b, b') && Reaches(joined, b)
    requires CollectAll(exprs, scope, ctes, active, depth).Ok?
    requires EvalExprs(w.engine, w.db, exprs, b, joined, ctes, fuel).Some?
    requires EvalExprs(w.engine, w.db', exprs, b', joined, ctes, fuel).Some?
    ensures var c := EvalExprs(w.engine, w.db, exprs, b, joined, ctes, fuel).value;
            var c' := EvalExprs(w.engine, w.db', exprs, b', joined, ctes, fuel).value;
            && |c| == |c'| && (forall j :: 0 <= j < |c| ==> |c[j]| == |joined| == |c'[j]|)
            && (s in CollectAll(exprs, scope, ctes, active, depth).value ==> c != c')
    decreases fuel, exprs, 1
  {
    hide MatchedScope, ScopeShows, Filled, Reaches, Changed, EvalExpr, CollectSources;
    if exprs != [] {
      ExprShows(w, s, exprs[0], scope, b, b', joined, ctes, active, depth, fuel);
      ExprsShow(w, s, exprs[1..], scope, b, b', joined, ctes, active, depth, fuel);
      var c := EvalExprs(w.engine, w.db, exprs, b, joined, ctes, fuel).value;
      var c' := EvalExprs(w.engine, w.db', exprs, b', joined, ctes, fuel).value;
      assert c[1..] == EvalExprs(w.engine, w.db, exprs[1..], b, joined, ctes, fuel).value;
      assert c'[1..] == EvalExprs(w.engine, w.db', exprs[1..], b', joined, ctes, fuel).value;
    }
  }

  // ----- names -----

  lemma InRelationShows(w: World, s: SourceRef, rel: Relation, b: Bound, b': Bound, column: string)
    requires Changed(w, s) && MatchedBound(w, rel, b, b') && BoundShows(s, rel, b, b')
    requires ResolveInRelation(rel, column).Ok? && FindName(ColumnNames(b.data.cols), column).Some?
    ensures var c := FindName(ColumnNames(b.data.cols), column).value;
            && c < |b'.data.cols| && |b.data.cols[c].cells| == b.data.rows == |b'.data.cols[c].cells|
            && (s in ResolveInRelation(rel, column).value ==> b.data.cols[c].cells != b'.data.cols[c].cells)
  {
    var c := FindName(ColumnNames(b.data.cols), column).value;
    match rel.expose
    case Virtual(columns) => assert Names(columns) == ColumnNames(b.data.cols) == ColumnNames(b'.data.cols);
    case Physical(table) =>
      assert w.db.catalog(table) == w.db'.catalog(table);
      var name := b.data.cols[c].name.value;
      assert Fold(name) == Fold(column);
      if s == SourceRef(table, Fold(column)) {
        assert b.data.cols[c].cells[0] == w.db.cell(table, Fold(name), 0);
        assert b'.data.cols[c].cells[0] == w.db'.cell(table, Fold(name), 0);
      }
  }

  lemma ColumnShows(w: World, s: SourceRef, scope: seq<Relation>, b: seq<Bound>, b': seq<Bound>,
                    qualifier: Option<string>, column: string)
    requires Changed(w, s) && MatchedScope(w, scope, b, b') && ScopeShows(s, scope, b, b')
    requires ResolveColumn(scope, qualifier, column).Ok? && Lookup(b, qualifier, column).Some?
    ensures Lookup(b', qualifier, column) == Lookup(b, qualifier, column)
    ensures var at := Lookup(b, qualifier, column).value;
            var cells, cells' := b[at.0].data.cols[at.1].cells, b'[at.0].data.cols[at.1].cells;
            && |cells| == b[at.0].data.rows == |cells'|
            && (s in ResolveColumn(scope, qualifier, column).value ==> cells != cells')
  {
    ColumnSound(w, scope, b, b', qualifier, column);
    var at := Lookup(b, qualifier, column).value;
    if qualifier.Some? {
      SameVisibles(w, scope, b, b');
      assert at.0 == FindName(Visibles(scope), qualifier.value).value;
    } else if |scope| == 1 {
      assert at.0 == 0;
    } else {
      CandidatesCountProducers(scope, column);
      var i :| OnlyProducer(scope, column, i);
      HoldersAreProducers(w, scope, b, b', column, i);
      HolderFound(b, column, i);
    }
    assert MatchedBound(w, scope[at.0], b[at.0], b'[at.0]) && BoundShows(s, scope[at.0], b[at.0], b'[at.0]);
    InRelationShows(w, s, scope[at.0], b[at.0], b'[at.0], column);
  }

  // ----- the main result -----

  /**
   * Every reported source matters: under an engine that forgets nothing, with rows in every table and every `VALUES`, a
   * database that differs in each row of a source of output column `i` gives a different column `i`.
   */
  lemma EverySourceShows(w: World, s: SourceRef, query: Query, fuel: nat, i: nat)
    requires Changed(w, s) && Filled(query, map[]) && Resolve(query).Ok? && i < |Resolve(query).value|
    requires EvalQuery(w.engine, w.db, query, map[], fuel).Some? && s in Resolve(query).value[i].sources
    ensures var t, t' := EvalQuery(w.engine, w.db, query, map[], fuel), EvalQuery(w.engine, w.db', query, map[], fuel);
            t'.Some? && i < |t.value.cols| == |t'.value.cols| && t.value.cols[i].cells != t'.value.cols[i].cells
  {
    hide Changed, Filled;
    QueryShows(w, s, query, map[], {}, 0, fuel);
    assert s in VirtualFrom(Resolve(query).value)[i].sources;
  }
}
