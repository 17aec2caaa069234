/** What redaction does to one text, told from what the patterns and the model found in it. */
module LeafLaws {
  import opened SpanOverlap
  import opened AnonymizerRules
  import opened WalkRules

  /** A span counts if a pattern found it, or if the model found it with a score that reaches the floor. */
  predicate Found(x: Span, patterns: seq<Span>, answer: seq<Span>, floor: real) {
    x in patterns || (x in answer && x.score >= floor)
  }

  predicate Boundary(text: Bytes, i: nat) {
    i == 0 || i == |text| || (i < |text| && text[i] & 0xC0 != 0x80)
  }

  /** A non-empty span of the text that splits no character. */
  predicate Fits(text: Bytes, x: Span) {
    x.start < x.end <= |text| && Boundary(text, x.start) && Boundary(text, x.end)
  }

  /** Spans that count, from `x` on, each beating the one before it. */
  predicate Leads(chain: seq<Span>, x: Span, patterns: seq<Span>, answer: seq<Span>, floor: real) {
    && chain != [] && chain[0] == x
    && (forall i :: 0 <= i < |chain| ==> Found(chain[i], patterns, answer, floor))
    && (forall i :: 0 < i < |chain| ==> Beats(chain[i], chain[i - 1]))
  }

  predicate IsRewritten(x: Span, operations: seq<Operation>, config: Config) {
    exists k :: 0 <= k < |operations| && Rewrote(operations[k], x, config)
  }

  /** `x` was found once, and all else that counts and overlaps it scores less and is not around it in its type. */
  ghost predicate Outscores(x: Span, patterns: seq<Span>, answer: seq<Span>, floor: real) {
    && (multiset(patterns) + multiset(answer))[x] == 1
    && forall y :: Found(y, patterns, answer, floor) && y != x && y.start < x.end && x.start < y.end ==>
         y.score < x.score && !(y.entity == x.entity && y.start <= x.start && x.end <= y.end)
  }

  /** Only spans that count are rewritten, each leads to one that is if it fits, and the best always are. */
  ghost predicate LeafRewritten(text: Bytes, after: Bytes, operations: seq<Operation>, patterns: seq<Span>,
                                answer: seq<Span>, floor: real, config: Config) {
    && Placed(text, operations, 0, 0, config) && after == Weave(text, operations, 0, 0, config)
    && (forall k :: 0 <= k < |operations| ==> OfFound(operations[k], patterns, answer, floor, config))
    && (forall x :: Found(x, patterns, answer, floor) ==>
          Replaced(x, text, operations, patterns, answer, floor, config))
    && (forall x :: Found(x, patterns, answer, floor) && Fits(text, x) && Outscores(x, patterns, answer, floor) ==>
          IsRewritten(x, operations, config))
  }

  ghost predicate OfFound(o: Operation, patterns: seq<Span>, answer: seq<Span>, floor: real, config: Config) {
    exists x :: Found(x, patterns, answer, floor) && Rewrote(o, x, config)
  }

  ghost predicate Replaced(x: Span, text: Bytes, operations: seq<Operation>, patterns: seq<Span>, answer: seq<Span>,
                           floor: real, config: Config) {
    exists chain :: Leads(chain, x, patterns, answer, floor)
                    && (Fits(text, chain[|chain| - 1]) ==> IsRewritten(chain[|chain| - 1], operations, config))
  }

  // ----- the pool -----

  function Pool(patterns: seq<Span>, answer: seq<Span>, floor: real): seq<Span> {
    patterns + AtLeast(answer, floor)
  }

  lemma {:induction false} AtLeastMembers(spans: seq<Span>, floor: real, x: Span)
    ensures x in AtLeast(spans, floor) <==> x in spans && x.score >= floor
    ensures multiset(AtLeast(spans, floor))[x] <= multiset(spans)[x]
    decreases |spans|
  {
    if spans != [] {
      var n := |spans| - 1;
      AtLeastMembers(spans[..n], floor, x);
      assert spans == spans[..n] + [spans[n]];
    }
  }

  lemma PoolMembers(patterns: seq<Span>, answer: seq<Span>, floor: real, x: Span)
    ensures x in Pool(patterns, answer, floor) <==> Found(x, patterns, answer, floor)
    ensures multiset(Pool(patterns, answer, floor))[x] <= (multiset(patterns) + multiset(answer))[x]
  {
    AtLeastMembers(answer, floor, x);
  }

  lemma OutscoresUnrivalled(x: Span, patterns: seq<Span>, answer: seq<Span>, floor: real)
    requires Found(x, patterns, answer, floor) && Outscores(x, patterns, answer, floor)
    ensures var pool := Pool(patterns, answer, floor);
            x in pool && Unrivalled(x, multiset(pool) - multiset{x})
  {
    var pool := Pool(patterns, answer, floor);
    PoolMembers(patterns, answer, floor, x);
    assert multiset(pool)[x] <= 1;
    forall y | y in multiset(pool) - multiset{x} && Overlaps(y, x)
      ensures y.score < x.score && !(y.entity == x.entity && Covers(y, x))
    {
      PoolMembers(patterns, answer, floor, y);
      assert y in multiset(pool);
    }
  }

  // ----- operations and survivors -----

  lemma BoundaryIs(text: Bytes, i: nat)
    ensures Boundary(text, i) <==> IsCharBoundary(text, i)
  {
    if i < |text| { Continuation(text[i]); }
  }

  lemma Continuation(b: bv8)
    ensures b & 0xC0 != 0x80 <==> !(0x80 <= b < 0xC0)
  {
  }

  /** Every operation rewrites one of the spans. */
  lemma {:induction false} OperationsOfSpans(text: Bytes, spans: seq<Span>, config: Config, p: AnonymizerRules.Progress,
                                             k: nat)
    requires |p.operations| <= k < |ApplyAll(text, spans, config, p).operations|
    ensures exists i :: 0 <= i < |spans| && Rewrote(ApplyAll(text, spans, config, p).operations[k], spans[i], config)
    decreases |spans|
  {
    if spans != [] {
      var next := Apply(text, spans[0], config, p);
      OperationsKept(text, spans[1..], config, next);
      if k < |next.operations| {
        assert ApplyAll(text, spans, config, p).operations[k] == next.operations[k];
        assert Rewrote(ApplyAll(text, spans, config, p).operations[k], spans[0], config);
      } else {
        OperationsOfSpans(text, spans[1..], config, next, k);
        var i :| 0 <= i < |spans| - 1
                 && Rewrote(ApplyAll(text, spans[1..], config, next).operations[k], spans[1..][i], config);
        assert spans[1..][i] == spans[i + 1];
      }
    }
  }

  lemma {:induction false} OperationsKept(text: Bytes, spans: seq<Span>, config: Config, p: AnonymizerRules.Progress)
    ensures p.operations <= ApplyAll(text, spans, config, p).operations
    decreases |spans|
  {
    if spans != [] {
      OperationsKept(text, spans[1..], config, Apply(text, spans[0], config, p));
    }
  }

  /** A span that fits is rewritten: nothing before it in a list without overlaps reaches into it. */
  lemma {:induction false} FittingIsRewritten(text: Bytes, spans: seq<Span>, config: Config,
                                              p: AnonymizerRules.Progress, i: nat)
    requires Apart(spans) && i < |spans| && Fitting(text, spans[i]) && p.cursor <= spans[i].start
    ensures IsRewritten(spans[i], ApplyAll(text, spans, config, p).operations, config)
    decreases |spans|
  {
    var next := Apply(text, spans[0], config, p);
    OperationsKept(text, spans[1..], config, next);
    if i == 0 {
      var n := |p.operations|;
      assert Rewrote(next.operations[n], spans[0], config);
      assert ApplyAll(text, spans, config, p).operations[n] == next.operations[n];
    } else {
      assert spans[0].start <= spans[i].start && !Overlaps(spans[0], spans[i]);
      assert spans[1..][i - 1] == spans[i];
      FittingIsRewritten(text, spans[1..], config, next, i - 1);
    }
  }

  lemma SurvivorIsRewritten(text: Bytes, results: seq<Span>, config: Config, x: Span)
    requires x in Resolve(results) && Fits(text, x)
    ensures IsRewritten(x, Anonymize(text, results, config).operations, config)
  {
    ResolveIsFinal(results);
    var surviving := Resolve(results);
    var i :| 0 <= i < |surviving| && surviving[i] == x;
    BoundaryIs(text, x.start);
    BoundaryIs(text, x.end);
    FittingIsRewritten(text, surviving, config, AnonymizerRules.Progress([], [], 0), i);
  }

  lemma OperationsAreOfSurvivors(text: Bytes, results: seq<Span>, config: Config, k: nat)
    requires k < |Anonymize(text, results, config).operations|
    ensures exists x :: x in results && Rewrote(Anonymize(text, results, config).operations[k], x, config)
  {
    var surviving := Resolve(results);
    OperationsOfSpans(text, surviving, config, AnonymizerRules.Progress([], [], 0), k);
    var i :| 0 <= i < |surviving| && Rewrote(Anonymize(text, results, config).operations[k], surviving[i], config);
    SurvivorWasFound(results, surviving[i]);
  }

  // ----- one leaf -----

  /** Rewriting a text by everything that counts treats each span as it should. */
  lemma PoolRewrites(text: Bytes, patterns: seq<Span>, answer: seq<Span>, floor: real, config: Config)
    ensures var a := Anonymize(text, Pool(patterns, answer, floor), config);
            LeafRewritten(text, a.text, a.operations, patterns, answer, floor, config)
  {
    hide Anonymize, Resolve, Pool, Placed, Weave, Rewrote, Fits, Outscores, Found;
    var pool := Pool(patterns, answer, floor);
    var a := Anonymize(text, pool, config);
    AnonymizeWeaves(text, pool, config);
    forall k | 0 <= k < |a.operations| ensures OfFound(a.operations[k], patterns, answer, floor, config) {
      OperationsAreOfSurvivors(text, pool, config, k);
      var x :| x in pool && Rewrote(a.operations[k], x, config);
      PoolMembers(patterns, answer, floor, x);
    }
    forall x | Found(x, patterns, answer, floor)
      ensures Replaced(x, text, a.operations, patterns, answer, floor, config)
    {
      PoolMembers(patterns, answer, floor, x);
      var chain := NothingVanishes(pool, x);
      forall i | 0 <= i < |chain| ensures Found(chain[i], patterns, answer, floor) {
        PoolMembers(patterns, answer, floor, chain[i]);
      }
      if Fits(text, chain[|chain| - 1]) {
        SurvivorIsRewritten(text, pool, config, chain[|chain| - 1]);
      }
      assert Leads(chain, x, patterns, answer, floor);
    }
    forall x | Found(x, patterns, answer, floor) && Fits(text, x) && Outscores(x, patterns, answer, floor)
      ensures IsRewritten(x, a.operations, config)
    {
      OutscoresUnrivalled(x, patterns, answer, floor);
      UnrivalledSurvives(pool, x);
      SurvivorIsRewritten(text, pool, config, x);
    }
  }

  /** With a model, merging and resolving again rewrites just the same. */
  lemma MergeRewrites(text: Bytes, patterns: seq<Span>, answer: seq<Span>, floor: real, config: Config)
    ensures var merged := Merge(patterns, answer, floor);
            LeafRewritten(text, Redact(text, merged, config), Operations(text, merged, config), patterns, answer, floor,
                          config)
  {
    hide Placed, Weave, LeafRewritten, Resolve;
    var pool, merged := Pool(patterns, answer, floor), Merge(patterns, answer, floor);
    MergeIsResolved(patterns, answer, floor);
    assert Anonymize(text, merged, config) == Anonymize(text, pool, config);
    PoolRewrites(text, patterns, answer, floor, config);
    RedactIsAnonymized(text, merged, config);
  }

  lemma RedactIsAnonymized(text: Bytes, spans: seq<Span>, config: Config)
    ensures Redact(text, spans, config) == Anonymize(text, spans, config).text
  {
    if Operations(text, spans, config) == [] {
      UntouchedIsVerbatim(text, spans, config);
    }
  }

  /** Without a model only the patterns count. */
  lemma PatternsRewrite(text: Bytes, patterns: seq<Span>, floor: real, config: Config)
    ensures LeafRewritten(text, Redact(text, patterns, config), Operations(text, patterns, config), patterns, [], floor,
                          config)
  {
    hide Placed, Weave, LeafRewritten, Anonymize;
    assert Pool(patterns, [], floor) == patterns;
    PoolRewrites(text, patterns, [], floor, config);
    RedactIsAnonymized(text, patterns, config);
  }
}
