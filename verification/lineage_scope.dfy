/** Name resolution over the relations visible in one `SELECT`. */
module ScopeRules {
  import opened Common
  import opened LineageAst

  /** An output column of a CTE or derived table. */
  datatype VirtCol = VirtCol(name: Option<string>, sources: set<SourceRef>)

  datatype RelExpose = Physical(table: TableRef) | Virtual(columns: seq<VirtCol>)

  datatype Relation = Relation(visible: string, expose: RelExpose)

  type Sources = set<SourceRef>
  type Expanded = seq<VirtCol>

  predicate SameName(a: string, b: string) {
    Fold(a) == Fold(b)
  }

  predicate Named(name: Option<string>, wanted: string) {
    name.Some? && SameName(name.value, wanted)
  }

  /** The first position carrying `wanted`. */
  function FindName(names: seq<Option<string>>, wanted: string): (r: Option<nat>)
    ensures r.Some? ==> r.value < |names| && Named(names[r.value], wanted)
    ensures r.Some? ==> forall i :: 0 <= i < r.value ==> !Named(names[i], wanted)
    ensures r.None? ==> forall i :: 0 <= i < |names| ==> !Named(names[i], wanted)
  {
    if names == [] then None
    else if Named(names[0], wanted) then Some(0)
    else
      var rest := FindName(names[1..], wanted);
      if rest.Some? then Some(rest.value + 1) else None
  }

  function Names(columns: seq<VirtCol>): (r: seq<Option<string>>)
    ensures |r| == |columns|
    ensures forall i :: 0 <= i < |r| ==> r[i] == columns[i].name
  {
    seq(|columns|, i requires 0 <= i < |columns| => columns[i].name)
  }

  function Visibles(rels: seq<Relation>): (r: seq<Option<string>>)
    ensures |r| == |rels|
    ensures forall i :: 0 <= i < |r| ==> r[i] == Some(rels[i].visible)
  {
    seq(|rels|, i requires 0 <= i < |rels| => Some(rels[i].visible))
  }

  function RelationNamed(rels: seq<Relation>, name: string): (r: Result<Relation, LineageError>)
  {
    var at := FindName(Visibles(rels), name);
    if at.Some? then Ok(rels[at.value]) else Err(UnknownTable(name))
  }

  function ResolveInRelation(rel: Relation, column: string): Result<Sources, LineageError> {
    match rel.expose
    case Physical(table) => Ok({SourceRef(table, Fold(column))})
    case Virtual(columns) =>
      var at := FindName(Names(columns), column);
      if at.Some? then Ok(columns[at.value].sources)
      else Err(UnresolvedColumn(column, NotProducedBy(rel.visible)))
  }

  predicate HasPhysical(rels: seq<Relation>) {
    exists i :: 0 <= i < |rels| && rels[i].expose.Physical?
  }

  /** The sources of `column` in each virtual relation that produces it. */
  function Candidates(rels: seq<Relation>, column: string): seq<Sources> {
    if rels == [] then []
    else
      var last := rels[|rels| - 1];
      var before := Candidates(rels[..|rels| - 1], column);
      if last.expose.Virtual? && FindName(Names(last.expose.columns), column).Some?
      then before + [last.expose.columns[FindName(Names(last.expose.columns), column).value].sources]
      else before
  }

  function ResolveColumn(rels: seq<Relation>, qualifier: Option<string>, column: string): Result<Sources,
                         LineageError> {
    if qualifier.Some? then
      var rel :- RelationNamed(rels, qualifier.value);
      ResolveInRelation(rel, column)
    else if |rels| == 1 then ResolveInRelation(rels[0], column)
    else if HasPhysical(rels) then Err(UnresolvedColumn(column, AmbiguousUnqualified))
    else
      var found := Candidates(rels, column);
      if |found| == 1 then Ok(found[0])
      else Err(UnresolvedColumn(column, if |found| == 0 then NotInAnyRelation else InSeveralRelations))
  }

  function ExpandRelation(rel: Relation): Result<Expanded, LineageError> {
    if rel.expose.Physical? then Err(UnresolvedColumn("*", WildcardOverBaseTable)) else Ok(rel.expose.columns)
  }

  function ExpandAll(rels: seq<Relation>, expanded: Expanded): Result<Expanded, LineageError> {
    if rels == [] then Ok(expanded)
    else
      var next :- ExpandRelation(rels[0]);
      ExpandAll(rels[1..], expanded + next)
  }

  function ExpandQualified(rels: seq<Relation>, name: string): Result<Expanded, LineageError> {
    var rel :- RelationNamed(rels, name);
    ExpandRelation(rel)
  }

  /** Whether the virtual relation at `i` produces `column`. */
  predicate Produces(rels: seq<Relation>, column: string, i: int)
    requires 0 <= i < |rels|
  {
    rels[i].expose.Virtual? && FindName(Names(rels[i].expose.columns), column).Some?
  }

  /** The relation at `i`, and no other, produces `column`. */
  predicate OnlyProducer(rels: seq<Relation>, column: string, i: int) {
    && 0 <= i < |rels| && Produces(rels, column, i)
    && forall j :: 0 <= j < |rels| && Produces(rels, column, j) ==> j == i
  }

  lemma CandidatesStep(rels: seq<Relation>, column: string)
    requires rels != []
    ensures var n := |rels| - 1;
            var front := Candidates(rels[..n], column);
            if Produces(rels, column, n)
            then ResolveInRelation(rels[n], column).Ok?
                 && Candidates(rels, column) == front + [ResolveInRelation(rels[n], column).value]
            else Candidates(rels, column) == front
  {
  }

  /** The only producer of `column`, when there is exactly one. */
  lemma {:induction false} CandidatesCountProducers(rels: seq<Relation>, column: string)
    ensures |Candidates(rels, column)| == 0 <==> forall i :: 0 <= i < |rels| ==> !Produces(rels, column, i)
    ensures |Candidates(rels, column)| == 1 <==> exists i :: OnlyProducer(rels, column, i)
    ensures forall i :: OnlyProducer(rels, column, i) ==>
              Candidates(rels, column) != [] && ResolveInRelation(rels[i], column) == Ok(Candidates(rels, column)[0])
  {
    if rels != [] {
      var n := |rels| - 1;
      var front := rels[..n];
      CandidatesCountProducers(front, column);
      CandidatesStep(rels, column);
      assert forall i :: 0 <= i < n ==> front[i] == rels[i] && Produces(front, column, i) == Produces(rels, column, i);
      hide Candidates, Produces, ResolveInRelation;
      if Produces(rels, column, n) {
        assert |Candidates(front, column)| == 0 ==> OnlyProducer(rels, column, n);
      } else {
        assert forall i :: OnlyProducer(front, column, i) <==> OnlyProducer(rels, column, i);
      }
    }
  }
}

module LineageScope {
  import opened Common
  import opened LineageAst
  import opened ScopeRules

  /** The visible relations of one `SELECT`, filled in `FROM`/`JOIN` order. */
  class Scope {
    var relations: seq<Relation>

    constructor ()
      ensures relations == []
    {
      relations := [];
    }

    method Push(visible: string, expose: RelExpose)
      modifies this
      ensures relations == old(relations) + [Relation(visible, expose)]
    {
      relations := relations + [Relation(visible, expose)];
    }

    method ResolveColumn(qualifier: Option<string>, column: string) returns (r: Result<Sources, LineageError>)
      ensures r == ScopeRules.ResolveColumn(relations, qualifier, column)
    {
      if qualifier.Some? {
        var rel := RelationNamed(relations, qualifier.value);
        return if rel.Err? then Err(rel.error) else ResolveInRelation(rel.value, column);
      }
      if |relations| == 1 {
        return ResolveInRelation(relations[0], column);
      }
      var candidates: seq<Sources> := [];
      var hasPhysical := false;
      for k := 0 to |relations|
        invariant hasPhysical == HasPhysical(relations[..k])
        invariant candidates == Candidates(relations[..k], column)
      {
        assert relations[..k + 1][..k] == relations[..k];
        assert forall i :: 0 <= i < k ==> relations[..k + 1][i] == relations[..k][i];
        match relations[k].expose
        case Physical(_) =>
          assert relations[..k + 1][k].expose.Physical?;
          hasPhysical := true;
        case Virtual(columns) =>
          var at := FindName(Names(columns), column);
          if at.Some? {
            candidates := candidates + [columns[at.value].sources];
          }
      }
      assert relations[..|relations|] == relations;
      if hasPhysical {
        return Err(UnresolvedColumn(column, AmbiguousUnqualified));
      }
      if |candidates| == 1 {
        return Ok(candidates[0]);
      }
      return Err(UnresolvedColumn(column, if |candidates| == 0 then NotInAnyRelation else InSeveralRelations));
    }

    predicate FirstOfName(name: string, i: int)
      reads this
    {
      && 0 <= i < |relations| && SameName(relations[i].visible, name)
      && forall j :: 0 <= j < i ==> !SameName(relations[j].visible, name)
    }

    method ExpandWildcard() returns (r: Result<Expanded, LineageError>)
      ensures r == ExpandAll(relations, [])
    {
      var expanded: Expanded := [];
      for k := 0 to |relations|
        invariant ExpandAll(relations, []) == ExpandAll(relations[k..], expanded)
      {
        assert relations[k..][1..] == relations[k + 1..];
        if relations[k].expose.Physical? {
          return Err(UnresolvedColumn("*", WildcardOverBaseTable));
        }
        expanded := expanded + relations[k].expose.columns;
      }
      return Ok(expanded);
    }

    /** The first relation of that name decides: the columns of a virtual one, the error of a base table. */
    method ExpandQualifiedWildcard(name: string) returns (r: Result<Expanded, LineageError>)
      ensures r == ExpandQualified(relations, name)
      ensures (forall i :: 0 <= i < |relations| ==> !SameName(relations[i].visible, name)) ==>
                r == Err(UnknownTable(name))
      ensures forall i :: FirstOfName(name, i) ==>
                match relations[i].expose
                case Physical(_) => r == Err(UnresolvedColumn("*", WildcardOverBaseTable))
                case Virtual(columns) => r == Ok(columns)
    {
      var rel := RelationNamed(relations, name);
      r := if rel.Err? then Err(rel.error) else ExpandRelation(rel.value);
    }
  }
}
