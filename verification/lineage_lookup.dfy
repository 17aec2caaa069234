/** What names refer to: the last CTE of a name, a table by its last three identifiers, and why a column is refused. */
module LookupLaws {
  import opened Common
  import opened LineageAst
  import opened ScopeRules
  import opened ResolveRules

  // ----- CTE names -----

  /** The last `WITH` item of a folded name. */
  function LastNamed(withs: seq<Cte>, name: string): (r: Option<nat>)
    ensures r.Some? ==> r.value < |withs| && Fold(withs[r.value].alias) == name
    ensures forall j :: (if r.Some? then r.value else -1) < j < |withs| ==> Fold(withs[j].alias) != name
  {
    if withs == [] then None
    else if Fold(withs[|withs| - 1].alias) == name then Some(|withs| - 1)
    else
      var r := LastNamed(withs[..|withs| - 1], name);
      assert forall j :: 0 <= j < |withs| - 1 ==> withs[..|withs| - 1][j] == withs[j];
      r
  }

  lemma {:induction false} WithLast(parent: CteMap, withs: seq<Cte>, last: Cte)
    ensures WithCtes(parent, withs + [last]) == WithCtes(parent, withs)[Fold(last.alias) := last.query]
    decreases |withs|
  {
    if withs == [] {
      assert [last][1..] == [] && withs + [last] == [last];
    } else {
      assert (withs + [last])[1..] == withs[1..] + [last];
      WithLast(parent[Fold(withs[0].alias) := withs[0].query], withs[1..], last);
    }
  }

  /** A name is bound to the last item that bears it, else to what it was bound to outside. */
  lemma {:induction false} LastBindingWins(parent: CteMap, withs: seq<Cte>, name: string)
    ensures var ctes, last := WithCtes(parent, withs), LastNamed(withs, name);
            if last.Some? then name in ctes && ctes[name] == withs[last.value].query
            else (name in ctes <==> name in parent) && (name in parent ==> ctes[name] == parent[name])
    decreases |withs|
  {
    if withs != [] {
      var n := |withs| - 1;
      LastBindingWins(parent, withs[..n], name);
      WithLast(parent, withs[..n], withs[n]);
      assert withs == withs[..n] + [withs[n]];
    }
  }

  // ----- table names -----

  /** Three identifiers name database, schema and table, two schema and table, one a table; the rest is dropped. */
  lemma LastThreeIdentifiers(front: seq<NamePart>, database: string, schema: string, table: string, text: string)
    ensures TableRefOf(ObjectName(front + [Ident(database), Ident(schema), Ident(table)], text))
            == TableRef(Some(Fold(database)), Some(Fold(schema)), Fold(table))
    ensures TableRefOf(ObjectName([Ident(schema), Ident(table)], text))
            == TableRef(None, Some(Fold(schema)), Fold(table))
    ensures TableRefOf(ObjectName([Ident(table)], text)) == TableRef(None, None, Fold(table))
  {
    var last := [Ident(database), Ident(schema), Ident(table)];
    assert last[1..] == [Ident(schema), Ident(table)] && last[1..][1..] == [Ident(table)] && [Ident(table)][1..] == [];
    assert Idents([Ident(table)]) == [table];
    assert Idents([Ident(schema), Ident(table)]) == [schema, table] by {
      assert [Ident(schema), Ident(table)][1..] == [Ident(table)];
    }
    assert Idents(last) == [database, schema, table];
    IdentsConcat(front, last);
  }

  lemma {:induction false} IdentsConcat(a: seq<NamePart>, b: seq<NamePart>)
    ensures Idents(a + b) == Idents(a) + Idents(b)
  {
    if a == [] {
      assert a + b == b;
    } else {
      assert (a + b)[1..] == a[1..] + b;
      IdentsConcat(a[1..], b);
    }
  }

  // ----- why a column is refused -----

  predicate Bears(rels: seq<Relation>, name: string, i: int) {
    0 <= i < |rels| && Fold(rels[i].visible) == Fold(name)
  }

  predicate Producing(rel: Relation, column: string) {
    rel.expose.Virtual?
    && exists k :: 0 <= k < |rel.expose.columns| && HasName(rel.expose.columns[k], column)
  }

  predicate HasName(c: VirtCol, column: string) {
    c.name.Some? && Fold(c.name.value) == Fold(column)
  }

  lemma ProducingIs(rels: seq<Relation>, column: string, i: nat)
    requires i < |rels|
    ensures Produces(rels, column, i) <==> Producing(rels[i], column)
  {
    if rels[i].expose.Virtual? {
      var columns := rels[i].expose.columns;
      var at := FindName(Names(columns), column);
      assert forall k :: 0 <= k < |columns| ==> HasName(columns[k], column) == Named(Names(columns)[k], column);
      if at.Some? { assert HasName(columns[at.value], column); }
    }
  }

  /**
   * Which error a refused column gives: an unknown qualifier; a virtual relation that lacks the column, as the first of
   * the qualifier's name or the only one; a base table beside others; and otherwise no producer, or more than one.
   */
  lemma RefusedBecause(rels: seq<Relation>, qualifier: Option<string>, column: string)
    ensures match ResolveColumn(rels, qualifier, column)
            case Ok(_) => true
            case Err(UnknownTable(table)) => qualifier == Some(table) && forall i :: !Bears(rels, table, i)
            case Err(UnresolvedColumn(c, NotProducedBy(name))) =>
              && c == column
              && exists i :: Refuses(rels, qualifier, column, i) && rels[i].visible == name
            case Err(UnresolvedColumn(c, AmbiguousUnqualified)) =>
              c == column && qualifier.None? && |rels| > 1 && exists i :: 0 <= i < |rels| && rels[i].expose.Physical?
            case Err(UnresolvedColumn(c, NotInAnyRelation)) =>
              c == column && qualifier.None? && forall i :: 0 <= i < |rels| ==> !Producing(rels[i], column)
            case Err(UnresolvedColumn(c, InSeveralRelations)) =>
              && c == column && qualifier.None?
              && exists i, j :: 0 <= i < j < |rels| && Producing(rels[i], column) && Producing(rels[j], column)
            case Err(_) => false
  {
    forall i | 0 <= i < |rels| ensures Produces(rels, column, i) <==> Producing(rels[i], column) {
      ProducingIs(rels, column, i);
    }
    if qualifier.Some? {
      var at := FindName(Visibles(rels), qualifier.value);
      assert forall i :: 0 <= i < |rels| ==>
               Named(Visibles(rels)[i], qualifier.value) == Bears(rels, qualifier.value, i);
      if at.Some? && ResolveInRelation(rels[at.value], column).Err? {
        assert !Produces(rels, column, at.value);
        assert Refuses(rels, qualifier, column, at.value);
      }
    } else if |rels| == 1 {
      if ResolveInRelation(rels[0], column).Err? {
        assert !Produces(rels, column, 0);
        assert Refuses(rels, qualifier, column, 0);
      }
    } else if !HasPhysical(rels) {
      CandidatesCountProducers(rels, column);
      if |Candidates(rels, column)| > 1 {
        TwoProducers(rels, column);
      }
    }
  }

  /** The relation asked is virtual and lacks the column. */
  predicate Refuses(rels: seq<Relation>, qualifier: Option<string>, column: string, i: int) {
    && 0 <= i < |rels| && rels[i].expose.Virtual? && !Producing(rels[i], column)
    && if qualifier.None? then |rels| == 1
       else Bears(rels, qualifier.value, i) && forall j :: 0 <= j < i ==> !Bears(rels, qualifier.value, j)
  }

  lemma TwoProducers(rels: seq<Relation>, column: string)
    requires |Candidates(rels, column)| > 1
    requires forall i :: 0 <= i < |rels| ==> (Produces(rels, column, i) <==> Producing(rels[i], column))
    ensures exists i, j :: 0 <= i < j < |rels| && Producing(rels[i], column) && Producing(rels[j], column)
  {
    CandidatesCountProducers(rels, column);
    var i :| 0 <= i < |rels| && Produces(rels, column, i);
    assert !OnlyProducer(rels, column, i);
    var j :| 0 <= j < |rels| && Produces(rels, column, j) && j != i;
    assert Producing(rels[i], column) && Producing(rels[j], column);
    if j < i {
      assert Producing(rels[j], column) && Producing(rels[i], column);
    }
  }
}
