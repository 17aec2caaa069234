/** Overlap resolution of recognised spans: a stable sort, then one walk that keeps the winners. */
module SpanOverlap {
  import opened StableSorting

  type Entity = nat

  /** A recognised span; `note` stands for its explanation. */
  datatype Span = Span(entity: Entity, start: nat, end: nat, score: real, note: nat)

  datatype Dominance = Existing | Candidate | Equal

  predicate Overlaps(a: Span, b: Span) {
    a.start < b.end && b.start < a.end
  }

  predicate Covers(a: Span, b: Span) {
    a.start <= b.start && a.end >= b.end
  }

  function Dominate(existing: Span, candidate: Span): Dominance {
    if existing.entity == candidate.entity && Covers(existing, candidate) then Existing
    else if existing.entity == candidate.entity && Covers(candidate, existing) then Candidate
    else if existing.score > candidate.score then Existing
    else if existing.score < candidate.score then Candidate
    else
      var length, length' := existing.end - existing.start, candidate.end - candidate.start;
      if length > length' then Existing else if length < length' then Candidate else Equal
  }

  // ----- the stable sort -----

  /** Earlier start first; at one start, higher score first. */
  predicate Before(a: Span, b: Span) {
    a.start < b.start || (a.start == b.start && a.score > b.score)
  }

  ghost predicate Sorted(spans: seq<Span>) {
    SortedBy(spans, Before)
  }

  function StableSort(spans: seq<Span>): seq<Span> {
    SortBy(spans, Before)
  }

  lemma BeforeIsOrder()
    ensures StrictWeak(Before)
  {
  }

  /** The sort orders by start and falling score, keeps every span, and never reorders spans of one start and score. */
  lemma StableSortSorts(spans: seq<Span>)
    ensures Sorted(StableSort(spans)) && multiset(StableSort(spans)) == multiset(spans)
    ensures forall key :: SameKey(StableSort(spans), key, Before) == SameKey(spans, key, Before)
  {
    BeforeIsOrder();
    SortBySorts(spans, Before);
  }

  /** Of two sorted spans the first one starts earlier, or at the same place with at least the other's score. */
  lemma SortedByStart(spans: seq<Span>, i: nat, j: nat)
    requires i < j < |StableSort(spans)|
    ensures var a, b := StableSort(spans)[i], StableSort(spans)[j];
            a.start < b.start || (a.start == b.start && a.score >= b.score)
  {
    StableSortSorts(spans);
    assert !Before(StableSort(spans)[j], StableSort(spans)[i]);
  }

  // ----- the walk -----

  /** A survivor stays unless the candidate overlaps and dominates it. */
  predicate Stays(existing: Span, candidate: Span) {
    Overlaps(existing, candidate) ==> Dominate(existing, candidate) != Candidate
  }

  /** A survivor that keeps the candidate out. */
  predicate Blocks(existing: Span, candidate: Span) {
    Overlaps(existing, candidate) && Dominate(existing, candidate) != Candidate
  }

  function Retain(survivors: seq<Span>, candidate: Span): seq<Span> {
    if survivors == [] then []
    else
      var last := survivors[|survivors| - 1];
      Retain(survivors[..|survivors| - 1], candidate) + if Stays(last, candidate) then [last] else []
  }

  predicate Blocked(survivors: seq<Span>, candidate: Span) {
    exists i :: 0 <= i < |survivors| && Blocks(survivors[i], candidate)
  }

  function Step(survivors: seq<Span>, candidate: Span): seq<Span> {
    Retain(survivors, candidate) + if Blocked(survivors, candidate) then [] else [candidate]
  }

  /** The survivors after walking over `spans` in order. */
  function Walk(spans: seq<Span>): seq<Span> {
    if spans == [] then [] else Step(Walk(spans[..|spans| - 1]), spans[|spans| - 1])
  }

  function Resolve(results: seq<Span>): seq<Span> {
    if |results| <= 1 then results else Walk(StableSort(results))
  }

  // ----- what survives -----

  /** No two spans overlap, and later ones do not start earlier. */
  ghost predicate Apart(spans: seq<Span>) {
    forall i, j :: 0 <= i < j < |spans| ==> !Overlaps(spans[i], spans[j]) && spans[i].start <= spans[j].start
  }

  ghost predicate AllStartBy(spans: seq<Span>, start: nat) {
    forall i :: 0 <= i < |spans| ==> spans[i].start <= start
  }

  /** Of spans that do not overlap each other, at most one overlaps a span that starts no earlier. */
  lemma OneOverlap(survivors: seq<Span>, candidate: Span, i: nat, j: nat)
    requires Apart(survivors) && AllStartBy(survivors, candidate.start)
    requires i < |survivors| && j < |survivors| && i != j && Overlaps(survivors[i], candidate)
    ensures !Overlaps(survivors[j], candidate)
  {
    if i < j {
      assert !Overlaps(survivors[i], survivors[j]) && survivors[i].start <= survivors[j].start;
    } else {
      assert !Overlaps(survivors[j], survivors[i]) && survivors[j].start <= survivors[i].start;
    }
  }

  lemma {:induction false} RetainAll(survivors: seq<Span>, candidate: Span)
    requires forall i :: 0 <= i < |survivors| ==> Stays(survivors[i], candidate)
    ensures Retain(survivors, candidate) == survivors
    decreases |survivors|
  {
    if survivors != [] {
      var n := |survivors| - 1;
      RetainAll(survivors[..n], candidate);
      assert survivors == survivors[..n] + [survivors[n]];
    }
  }

  lemma {:induction false} RetainAllBut(survivors: seq<Span>, candidate: Span, k: nat)
    requires k < |survivors| && !Stays(survivors[k], candidate)
    requires forall i :: 0 <= i < |survivors| && i != k ==> Stays(survivors[i], candidate)
    ensures Retain(survivors, candidate) == survivors[..k] + survivors[k + 1..]
    decreases |survivors|
  {
    var n := |survivors| - 1;
    var front := survivors[..n];
    if k == n {
      RetainAll(front, candidate);
      assert survivors[n + 1..] == [];
    } else {
      RetainAllBut(front, candidate, k);
      assert front[..k] == survivors[..k] && survivors[k + 1..] == front[k + 1..] + [survivors[n]];
    }
  }

  /** What one step does: nothing, put the candidate behind, or let it replace the one survivor it overlaps. */
  lemma StepCases(survivors: seq<Span>, candidate: Span)
    requires Apart(survivors) && AllStartBy(survivors, candidate.start)
    ensures var next := Step(survivors, candidate);
            || (Blocked(survivors, candidate) && next == survivors)
            || (next == survivors + [candidate]
                && forall i :: 0 <= i < |survivors| ==> !Overlaps(survivors[i], candidate))
            || (exists k :: 0 <= k < |survivors| && Overlaps(survivors[k], candidate)
                            && Dominate(survivors[k], candidate) == Candidate
                            && (forall i :: 0 <= i < |survivors| && i != k ==> !Overlaps(survivors[i], candidate))
                            && next == survivors[..k] + survivors[k + 1..] + [candidate])
  {
    if k: nat :| k < |survivors| && Overlaps(survivors[k], candidate) {
      forall i: nat | i < |survivors| && i != k ensures !Overlaps(survivors[i], candidate) {
        OneOverlap(survivors, candidate, k, i);
      }
      if Blocks(survivors[k], candidate) {
        RetainAll(survivors, candidate);
        assert survivors + [] == survivors;
      } else {
        RetainAllBut(survivors, candidate, k);
      }
    } else {
      RetainAll(survivors, candidate);
    }
  }

  /** No candidate both removes a survivor and is dropped itself. */
  lemma NoLostEviction(survivors: seq<Span>, candidate: Span)
    requires Apart(survivors) && AllStartBy(survivors, candidate.start)
    ensures Blocked(survivors, candidate) ==> Step(survivors, candidate) == survivors
  {
    StepCases(survivors, candidate);
  }

  lemma StepApart(survivors: seq<Span>, candidate: Span)
    requires Apart(survivors) && AllStartBy(survivors, candidate.start)
    ensures Apart(Step(survivors, candidate)) && AllStartBy(Step(survivors, candidate), candidate.start)
  {
    StepCases(survivors, candidate);
  }

  /** Survivors never overlap and come in start order. */
  lemma {:induction false} WalkApart(spans: seq<Span>)
    requires Sorted(spans)
    ensures Apart(Walk(spans)) && (spans != [] ==> AllStartBy(Walk(spans), spans[|spans| - 1].start))
    decreases |spans|
  {
    if spans != [] {
      var n := |spans| - 1;
      WalkApart(spans[..n]);
      if n > 0 { assert !Before(spans[n], spans[n - 1]); }
      StepApart(Walk(spans[..n]), spans[n]);
    }
  }

  // ----- the last survivor is enough -----

  predicate NonEmpty(spans: seq<Span>) {
    forall i :: 0 <= i < |spans| ==> spans[i].start < spans[i].end
  }

  function LastStep(survivors: seq<Span>, candidate: Span): seq<Span> {
    if survivors == [] || !Overlaps(survivors[|survivors| - 1], candidate) then survivors + [candidate]
    else if Dominate(survivors[|survivors| - 1], candidate) == Candidate
    then survivors[..|survivors| - 1] + [candidate]
    else survivors
  }

  /** A left fold that looks at the last survivor only. */
  function LastWalk(spans: seq<Span>): seq<Span> {
    if spans == [] then [] else LastStep(LastWalk(spans[..|spans| - 1]), spans[|spans| - 1])
  }

  lemma OnlyLastOverlaps(survivors: seq<Span>, candidate: Span, k: nat)
    requires Apart(survivors) && AllStartBy(survivors, candidate.start) && NonEmpty(survivors)
    requires k < |survivors| - 1
    ensures !Overlaps(survivors[k], candidate)
  {
    var last := survivors[|survivors| - 1];
    assert !Overlaps(survivors[k], last) && survivors[k].start <= last.start;
  }

  lemma LastIsEnough(survivors: seq<Span>, candidate: Span)
    requires Apart(survivors) && AllStartBy(survivors, candidate.start) && NonEmpty(survivors)
    ensures Step(survivors, candidate) == LastStep(survivors, candidate)
  {
    StepCases(survivors, candidate);
    forall k: nat | k < |survivors| - 1 ensures !Overlaps(survivors[k], candidate) {
      OnlyLastOverlaps(survivors, candidate, k);
    }
    assert survivors != [] ==> survivors[..|survivors| - 1] + survivors[|survivors|..] == survivors[..|survivors| - 1];
  }

  lemma WalkNonEmpty(spans: seq<Span>)
    requires NonEmpty(spans)
    ensures NonEmpty(Walk(spans))
  {
    WalkSelects(spans);
    forall i | 0 <= i < |Walk(spans)| ensures Walk(spans)[i].start < Walk(spans)[i].end {
      SubsequenceMember(Walk(spans), spans, i);
    }
  }

  /** For non-empty spans, scanning every survivor gives what comparing with the last one gives. */
  lemma {:induction false} WalkIsLastWalk(spans: seq<Span>)
    requires Sorted(spans) && NonEmpty(spans)
    ensures Walk(spans) == LastWalk(spans)
    decreases |spans|
  {
    if spans != [] {
      var n := |spans| - 1;
      WalkIsLastWalk(spans[..n]);
      WalkApart(spans[..n]);
      if n > 0 { assert !Before(spans[n], spans[n - 1]); }
      WalkNonEmpty(spans[..n]);
      LastIsEnough(Walk(spans[..n]), spans[n]);
    }
  }

  /** With an empty span in between, comparing with the last survivor only would keep two overlapping spans. */
  lemma EmptySpansNeedTheFullScan()
    ensures var wide, empty, inner := Span(0, 0, 5, 0.9, 0), Span(1, 0, 0, 0.5, 0), Span(2, 2, 4, 0.3, 0);
            && Sorted([wide, empty, inner])
            && Walk([wide, empty, inner]) == [wide, empty]
            && LastWalk([wide, empty, inner]) == [wide, empty, inner]
  {
    var wide, empty, inner := Span(0, 0, 5, 0.9, 0), Span(1, 0, 0, 0.5, 0), Span(2, 2, 4, 0.3, 0);
    assert [wide, empty, inner][..2] == [wide, empty] && [wide, empty][..1] == [wide] && [wide][..0] == [];
    assert Walk([wide]) == [wide] && LastWalk([wide]) == [wide];
    RetainAll([wide], empty);
    assert Walk([wide, empty]) == [wide, empty] && LastWalk([wide, empty]) == [wide, empty];
    assert Blocks([wide, empty][0], inner);
    RetainAll([wide, empty], inner);
  }

  // ----- survivors are a selection of the input -----

  /** `a` is `b` with some elements left out. */
  predicate Subsequence(a: seq<Span>, b: seq<Span>) {
    if a == [] then true
    else if b == [] then false
    else (a[|a| - 1] == b[|b| - 1] && Subsequence(a[..|a| - 1], b[..|b| - 1])) || Subsequence(a, b[..|b| - 1])
  }

  lemma {:induction false} SubsequenceMember(a: seq<Span>, b: seq<Span>, i: nat)
    requires Subsequence(a, b) && i < |a|
    ensures a[i] in b
    decreases |b|
  {
    if a[|a| - 1] == b[|b| - 1] && Subsequence(a[..|a| - 1], b[..|b| - 1]) {
      if i < |a| - 1 { SubsequenceMember(a[..|a| - 1], b[..|b| - 1], i); }
    } else {
      SubsequenceMember(a, b[..|b| - 1], i);
    }
  }

  lemma {:induction false} RetainSelects(survivors: seq<Span>, candidate: Span, spans: seq<Span>)
    requires Subsequence(survivors, spans)
    ensures Subsequence(Retain(survivors, candidate), spans)
    decreases |spans|
  {
    if survivors != [] {
      var a, b := survivors[..|survivors| - 1], spans[..|spans| - 1];
      if survivors[|survivors| - 1] == spans[|spans| - 1] && Subsequence(a, b) {
        RetainSelects(a, candidate, b);
        var kept := Retain(a, candidate);
        assert (kept + [spans[|spans| - 1]])[..|kept|] == kept;
        if kept != [] { assert Subsequence(kept, spans); }
        assert kept + [] == kept;
      } else {
        RetainSelects(survivors, candidate, b);
      }
    }
  }

  /** The survivors are a subsequence of what was walked over. */
  lemma {:induction false} WalkSelects(spans: seq<Span>)
    ensures Subsequence(Walk(spans), spans)
    decreases |spans|
  {
    if spans != [] {
      var n := |spans| - 1;
      WalkSelects(spans[..n]);
      RetainSelects(Walk(spans[..n]), spans[n], spans[..n]);
      var kept := Retain(Walk(spans[..n]), spans[n]);
      assert (kept + [spans[n]])[..|kept|] == kept;
      assert kept + [] == kept;
      if kept != [] { assert Subsequence(kept, spans); }
    }
  }

  lemma {:induction false} SubsequenceSorted(a: seq<Span>, b: seq<Span>)
    requires Subsequence(a, b) && Sorted(b)
    ensures Sorted(a)
    decreases |b|
  {
    if a != [] {
      var n := |a| - 1;
      if a[n] == b[|b| - 1] && Subsequence(a[..n], b[..|b| - 1]) {
        SubsequenceSorted(a[..n], b[..|b| - 1]);
        forall i | 0 <= i < n ensures !Before(a[n], a[i]) {
          SubsequenceMember(a[..n], b[..|b| - 1], i);
          var k :| 0 <= k < |b| - 1 && b[k] == a[i];
        }
      } else {
        SubsequenceSorted(a, b[..|b| - 1]);
      }
    }
  }

  lemma {:induction false} ApartIsFixed(spans: seq<Span>)
    requires Apart(spans)
    ensures Walk(spans) == spans
    decreases |spans|
  {
    if spans != [] {
      var n := |spans| - 1;
      ApartIsFixed(spans[..n]);
      RetainAll(spans[..n], spans[n]);
      assert spans == spans[..n] + [spans[n]];
    }
  }

  /**
   * The output is in start order without overlaps, a subsequence of the sorted input, and resolving it again changes
   * nothing.
   */
  lemma ResolveIsFinal(results: seq<Span>)
    ensures Apart(Resolve(results)) && Sorted(Resolve(results))
    ensures Subsequence(Resolve(results), StableSort(results))
    ensures Resolve(Resolve(results)) == Resolve(results)
  {
    StableSortSorts(results);
    var sorted := StableSort(results);
    if |results| <= 1 {
      SortedIsFixed(results, Before);
      SubsequenceOfItself(results);
    } else {
      WalkApart(sorted);
      WalkSelects(sorted);
      SubsequenceSorted(Walk(sorted), sorted);
      SortedIsFixed(Walk(sorted), Before);
      ApartIsFixed(Walk(sorted));
    }
  }

  lemma {:induction false} SubsequenceOfItself(a: seq<Span>)
    ensures Subsequence(a, a)
    decreases |a|
  {
    if a != [] {
      SubsequenceOfItself(a[..|a| - 1]);
    }
  }

  // ----- nothing vanishes without a reason -----

  /** Two spans overlap, and this one covers one of its own type, scores higher, or is as good and no shorter. */
  predicate Beats(winner: Span, loser: Span) {
    && winner.start < loser.end && loser.start < winner.end
    && if winner.entity == loser.entity && winner.start <= loser.start && loser.end <= winner.end then true
       else if winner.entity == loser.entity && loser.start <= winner.start && winner.end <= loser.end then false
       else winner.score > loser.score
            || (winner.score == loser.score && winner.end - winner.start >= loser.end - loser.start)
  }

  /** Beating is winning the comparison, whichever of the two came first. */
  lemma BeatsMeans(winner: Span, loser: Span)
    ensures Beats(winner, loser) <==>
            Overlaps(winner, loser) && (Dominate(winner, loser) != Candidate || Dominate(loser, winner) == Candidate)
  {
  }

  /** Spans of `pool` leading from `x` to a survivor, each beating the one before it. */
  predicate Chain(chain: seq<Span>, x: Span, survivors: seq<Span>, pool: seq<Span>) {
    && chain != [] && chain[0] == x && chain[|chain| - 1] in survivors
    && (forall i :: 0 <= i < |chain| ==> chain[i] in pool)
    && (forall i :: 0 < i < |chain| ==> Beats(chain[i], chain[i - 1]))
  }

  /** A survivor either survives the next step or the candidate beats it and survives instead. */
  lemma SurvivorOrCandidate(survivors: seq<Span>, candidate: Span, e: Span)
    requires Apart(survivors) && AllStartBy(survivors, candidate.start) && e in survivors
    ensures var next := Step(survivors, candidate);
            e in next || (candidate in next && Beats(candidate, e))
  {
    StepCases(survivors, candidate);
    var next := Step(survivors, candidate);
    var i :| 0 <= i < |survivors| && survivors[i] == e;
    if !Blocked(survivors, candidate) && next != survivors + [candidate] {
      var k :| 0 <= k < |survivors| && Overlaps(survivors[k], candidate)
               && Dominate(survivors[k], candidate) == Candidate
               && next == survivors[..k] + survivors[k + 1..] + [candidate];
      if i < k { assert survivors[..k][i] == e; }
      if i > k { assert survivors[k + 1..][i - k - 1] == e; }
      assert next[|next| - 1] == candidate;
    }
  }

  /** One step keeps a chain to a survivor, or makes it one longer. */
  lemma LinkAfterStep(chain: seq<Span>, x: Span, survivors: seq<Span>, candidate: Span, pool: seq<Span>)
    returns (longer: seq<Span>)
    requires Apart(survivors) && AllStartBy(survivors, candidate.start)
    requires Chain(chain, x, survivors, pool)
    ensures Chain(longer, x, Step(survivors, candidate), pool + [candidate])
  {
    var e := chain[|chain| - 1];
    SurvivorOrCandidate(survivors, candidate, e);
    longer := if e in Step(survivors, candidate) then chain else chain + [candidate];
  }

  /** The candidate survives its step or a survivor keeps it out. */
  lemma LinkOfCandidate(survivors: seq<Span>, candidate: Span, pool: seq<Span>) returns (chain: seq<Span>)
    requires Apart(survivors) && AllStartBy(survivors, candidate.start)
    requires forall i :: 0 <= i < |survivors| ==> survivors[i] in pool
    ensures Chain(chain, candidate, Step(survivors, candidate), pool + [candidate])
  {
    if Blocked(survivors, candidate) {
      NoLostEviction(survivors, candidate);
      var k :| 0 <= k < |survivors| && Blocks(survivors[k], candidate);
      chain := [candidate, survivors[k]];
    } else {
      assert Step(survivors, candidate)[|Step(survivors, candidate)| - 1] == candidate;
      chain := [candidate];
    }
  }

  lemma {:induction false} WalkWitness(spans: seq<Span>, i: nat) returns (chain: seq<Span>)
    requires Sorted(spans) && i < |spans|
    ensures Chain(chain, spans[i], Walk(spans), spans)
    decreases |spans|
  {
    var n := |spans| - 1;
    var front := spans[..n];
    assert spans == front + [spans[n]];
    WalkApart(front);
    if n > 0 { assert !Before(spans[n], spans[n - 1]); }
    if i < n {
      chain := WalkWitness(front, i);
      chain := LinkAfterStep(chain, spans[i], Walk(front), spans[n], front);
    } else {
      WalkMembers(front);
      chain := LinkOfCandidate(Walk(front), spans[n], front);
    }
  }

  lemma WalkMembers(spans: seq<Span>)
    ensures forall i :: 0 <= i < |Walk(spans)| ==> Walk(spans)[i] in spans
  {
    WalkSelects(spans);
    forall i | 0 <= i < |Walk(spans)| ensures Walk(spans)[i] in spans {
      SubsequenceMember(Walk(spans), spans, i);
    }
  }

  /** Every input span is a survivor or is linked to one by overlapping input spans, each beating the one before. */
  lemma NothingVanishes(results: seq<Span>, x: Span) returns (chain: seq<Span>)
    requires x in results
    ensures Chain(chain, x, Resolve(results), results)
  {
    if |results| <= 1 {
      chain := [x];
    } else {
      StableSortSorts(results);
      var sorted := StableSort(results);
      assert x in multiset(sorted);
      var i :| 0 <= i < |sorted| && sorted[i] == x;
      chain := WalkWitness(sorted, i);
      forall j | 0 <= j < |chain| ensures chain[j] in results {
        assert chain[j] in multiset(sorted);
      }
    }
  }

  lemma SurvivorWasFound(results: seq<Span>, x: Span)
    requires x in Resolve(results)
    ensures x in results
  {
    ResolveIsFinal(results);
    StableSortSorts(results);
    var i :| 0 <= i < |Resolve(results)| && Resolve(results)[i] == x;
    SubsequenceMember(Resolve(results), StableSort(results), i);
    assert x in multiset(StableSort(results));
  }

  // ----- two spans -----

  /** Which of two overlapping spans survives, if `a` was found first. */
  predicate FirstSurvives(a: Span, b: Span) {
    var within, around := a.start <= b.start && b.end <= a.end, b.start <= a.start && a.end <= b.end;
    if a.entity == b.entity && (within || around) then within && (around ==> a.score >= b.score)
    else if a.score != b.score then a.score > b.score
    else if a.end - a.start != b.end - b.start then a.end - a.start > b.end - b.start
    else a.start <= b.start
  }

  lemma PairSorted(a: Span, b: Span)
    ensures StableSort([a, b]) == if Before(b, a) then [b, a] else [a, b]
  {
    assert [a, b][..1] == [a] && [a][..0] == [];
    assert SortBy([], Before) == [] && InsertBy(a, [], Before) == [] + [a] == [a];
    assert StableSort([a]) == [a];
    assert InsertBy(b, [], Before) == [] + [b] == [b];
    assert InsertBy(b, [a], Before) == if Before(b, a) then [b] + [a] else [a] + [b];
  }

  lemma PairWalked(first: Span, second: Span)
    ensures Walk([first, second])
            == (if Stays(first, second) then [first] else []) + (if Blocks(first, second) then [] else [second])
  {
    hide Stays, Blocks;
    assert [first, second][..1] == [first] && [first][..0] == [];
    assert Walk([first]) == [first] by {
      assert Walk([]) == [] && Retain([], first) == [] && !Blocked([], first);
    }
    assert Retain([first], second) == Retain([], second) + if Stays(first, second) then [first] else [];
    assert Blocked([first], second) == Blocks(first, second) by {
      assert [first][0] == first;
    }
  }

  /**
   * Of two spans that overlap exactly one survives: the one around the other of its type, else the one with the higher
   * score, else the longer one, else the one that starts or was found first. Two that do not both survive in order.
   */
  lemma TwoSpans(a: Span, b: Span)
    ensures Resolve([a, b])
            == if a.start < b.end && b.start < a.end then [if FirstSurvives(a, b) then a else b]
               else if b.start < a.start || (b.start == a.start && b.score > a.score) then [b, a]
               else [a, b]
  {
    hide Walk, StableSort;
    PairSorted(a, b);
    PairWalked(a, b);
    PairWalked(b, a);
  }

  /** `x` scores strictly above everything else it overlaps and no other span of its type covers it. */
  ghost predicate Unrivalled(x: Span, others: multiset<Span>) {
    forall y :: y in others && Overlaps(y, x) ==> y.score < x.score && !(y.entity == x.entity && Covers(y, x))
  }

  lemma StepKeepsUnrivalled(survivors: seq<Span>, candidate: Span, x: Span)
    requires Apart(survivors) && AllStartBy(survivors, candidate.start) && x in survivors
    requires Overlaps(candidate, x) ==>
               candidate.score < x.score && !(candidate.entity == x.entity && Covers(candidate, x))
    ensures x in Step(survivors, candidate)
  {
    SurvivorOrCandidate(survivors, candidate, x);
  }

  lemma StepAdmitsUnrivalled(survivors: seq<Span>, x: Span)
    requires forall i :: 0 <= i < |survivors| && Overlaps(survivors[i], x) ==>
               survivors[i].score < x.score && !(survivors[i].entity == x.entity && Covers(survivors[i], x))
    ensures x in Step(survivors, x)
  {
    assert forall i :: 0 <= i < |survivors| ==> !Blocks(survivors[i], x);
    assert Step(survivors, x)[|Step(survivors, x)| - 1] == x;
  }

  lemma {:induction false} WalkKeepsUnrivalled(spans: seq<Span>, x: Span)
    requires Sorted(spans) && x in spans && Unrivalled(x, multiset(spans) - multiset{x})
    ensures x in Walk(spans)
    decreases |spans|
  {
    hide Walk, Step, Overlaps, Covers, Subsequence;
    var n := |spans| - 1;
    var front, candidate := spans[..n], spans[n];
    assert spans == front + [candidate];
    assert multiset(spans) == multiset(front) + multiset{candidate};
    WalkApart(front);
    if n > 0 { assert !Before(spans[n], spans[n - 1]); }
    WalkUnfolds(spans);
    if candidate != x {
      assert x in front;
      WalkKeepsUnrivalled(front, x);
      assert candidate in multiset(spans) - multiset{x};
      StepKeepsUnrivalled(Walk(front), candidate, x);
    } else {
      WalkMembers(front);
      assert forall y :: y in front ==> y in multiset(spans) - multiset{x};
      StepAdmitsUnrivalled(Walk(front), x);
    }
  }

  lemma WalkUnfolds(spans: seq<Span>)
    requires spans != []
    ensures Walk(spans) == Step(Walk(spans[..|spans| - 1]), spans[|spans| - 1])
  {
  }

  /** A span that outscores everything it overlaps and is covered by no other span of its type always survives. */
  lemma UnrivalledSurvives(results: seq<Span>, x: Span)
    requires x in results && Unrivalled(x, multiset(results) - multiset{x})
    ensures x in Resolve(results)
  {
    if |results| > 1 {
      StableSortSorts(results);
      assert x in multiset(StableSort(results));
      WalkKeepsUnrivalled(StableSort(results), x);
    }
  }
}

/** Overlap resolution as the program runs it. */
module OverlapEngine {
  import opened SpanOverlap
  import opened StableSorting

  method SortSpans(results: seq<Span>) returns (sorted: seq<Span>)
    ensures sorted == StableSort(results)
  {
    sorted := [];
    for i := 0 to |results|
      invariant sorted == StableSort(results[..i])
    {
      assert results[..i + 1][..i] == results[..i];
      sorted := InsertBy(results[i], sorted, Before);
    }
    assert results[..|results|] == results;
  }

  /** Drops the survivors the candidate evicts; `keep` says whether none of them keeps it out. */
  method RetainSurvivors(survivors: seq<Span>, candidate: Span) returns (kept: seq<Span>, keep: bool)
    ensures kept == Retain(survivors, candidate) && keep == !Blocked(survivors, candidate)
  {
    keep := true;
    kept := [];
    for k := 0 to |survivors|
      invariant kept == Retain(survivors[..k], candidate)
      invariant keep == !Blocked(survivors[..k], candidate)
    {
      assert survivors[..k + 1][..k] == survivors[..k];
      BlockedStep(survivors, candidate, k);
      if !Overlaps(survivors[k], candidate) {
        kept := kept + [survivors[k]];
      } else {
        match Dominate(survivors[k], candidate)
        case Candidate =>
          assert kept + [] == kept;
        case _ =>
          keep := false;
          kept := kept + [survivors[k]];
      }
    }
    assert survivors[..|survivors|] == survivors;
  }

  lemma BlockedStep(survivors: seq<Span>, candidate: Span, k: nat)
    requires k < |survivors|
    ensures Blocked(survivors[..k + 1], candidate) <==>
            Blocked(survivors[..k], candidate) || Blocks(survivors[k], candidate)
  {
    assert survivors[..k + 1][k] == survivors[k];
    assert forall j :: 0 <= j < k ==> survivors[..k + 1][j] == survivors[..k][j];
  }

  method Resolve(results: seq<Span>) returns (survivors: seq<Span>)
    ensures survivors == SpanOverlap.Resolve(results)
  {
    if |results| <= 1 {
      return results;
    }
    var sorted := SortSpans(results);
    survivors := [];
    for i := 0 to |sorted|
      invariant survivors == Walk(sorted[..i])
    {
      hide Retain, Blocked;
      assert sorted[..i + 1][..i] == sorted[..i];
      var kept, keep := RetainSurvivors(survivors, sorted[i]);
      assert kept + [] == kept;
      survivors := if keep then kept + [sorted[i]] else kept;
    }
    assert sorted[..|sorted|] == sorted;
  }
}
