/** Rewriting a text span by span, with an audit trail of what was rewritten where. */
module AnonymizerRules {
  import opened Common
  import opened SpanOverlap

  type Bytes = seq<bv8>

  /** A rewriting operator; `kind` names it in the audit trail. */
  datatype Operator = Operator(kind: nat, apply: Bytes -> Bytes)

  datatype Config = Config(perEntity: map<Entity, Operator>, default: Option<Operator>, placeholder: Entity -> Operator)

  /** The entity's own operator, else the default one, else its placeholder. */
  function Select(config: Config, entity: Entity): (r: Operator)
    ensures entity in config.perEntity ==> r == config.perEntity[entity]
    ensures entity !in config.perEntity && config.default.Some? ==> r == config.default.value
    ensures entity !in config.perEntity && config.default.None? ==> r == config.placeholder(entity)
  {
    if entity in config.perEntity then config.perEntity[entity]
    else if config.default.Some? then config.default.value
    else config.placeholder(entity)
  }

  datatype Operation =
    Operation(entity: Entity, kind: nat, originalStart: nat, originalEnd: nat, newStart: nat, newEnd: nat)

  datatype Anonymized = Anonymized(text: Bytes, operations: seq<Operation>)

  /** Offsets that do not fall inside a UTF-8 sequence. */
  predicate IsCharBoundary(text: Bytes, i: nat) {
    i == 0 || i == |text| || (i < |text| && !(0x80 <= text[i] < 0xC0))
  }

  predicate Usable(text: Bytes, cursor: nat, span: Span) {
    && cursor <= span.start <= span.end <= |text|
    && IsCharBoundary(text, span.start) && IsCharBoundary(text, span.end)
  }

  /** The new text so far, the operations applied, and how much of the old text they cover. */
  datatype Progress = Progress(text: Bytes, operations: seq<Operation>, cursor: nat)

  function Apply(text: Bytes, span: Span, config: Config, p: Progress): Progress {
    if !Usable(text, p.cursor, span) then p
    else
      var operator := Select(config, span.entity);
      var kept := p.text + text[p.cursor..span.start];
      var rewritten := operator.apply(text[span.start..span.end]);
      Progress(kept + rewritten,
               p.operations + [Operation(span.entity, operator.kind, span.start, span.end,
                                         |kept|, |kept| + |rewritten|)],
               span.end)
  }

  function ApplyAll(text: Bytes, spans: seq<Span>, config: Config, p: Progress): (r: Progress)
    ensures p.cursor <= |text| ==> r.cursor <= |text|
    decreases |spans|
  {
    if spans == [] then p else ApplyAll(text, spans[1..], config, Apply(text, spans[0], config, p))
  }

  function Anonymize(text: Bytes, results: seq<Span>, config: Config): Anonymized {
    var surviving := Resolve(results);
    var p := ApplyAll(text, surviving, config, Progress([], [], 0));
    if surviving == [] then Anonymized(text, []) else Anonymized(p.text + text[p.cursor..], p.operations)
  }

  // ----- the weave -----

  function Rewritten(text: Bytes, o: Operation, config: Config): Bytes
    requires o.originalStart <= o.originalEnd <= |text|
  {
    Select(config, o.entity).apply(text[o.originalStart..o.originalEnd])
  }

  /**
   * From offset `cursor` of the old text and `pos` of the new one, the operations follow each other without overlap in
   * both, each recorded new range has the length of its output, and gaps have one length in both.
   */
  predicate Placed(text: Bytes, operations: seq<Operation>, cursor: nat, pos: nat, config: Config)
    decreases |operations|
  {
    if operations == [] then cursor <= |text|
    else
      var o := operations[0];
      && cursor <= o.originalStart <= o.originalEnd <= |text|
      && o.newStart == pos + o.originalStart - cursor
      && o.newEnd == o.newStart + |Rewritten(text, o, config)|
      && Placed(text, operations[1..], o.originalEnd, o.newEnd, config)
  }

  /** Untouched gaps and operator outputs, alternating, and the untouched rest. */
  function Weave(text: Bytes, operations: seq<Operation>, cursor: nat, pos: nat, config: Config): Bytes
    requires Placed(text, operations, cursor, pos, config)
    decreases |operations|
  {
    if operations == [] then text[cursor..]
    else
      var o := operations[0];
      text[cursor..o.originalStart]
      + (Rewritten(text, o, config) + Weave(text, operations[1..], o.originalEnd, o.newEnd, config))
  }

  lemma {:induction false} ApplyAllWeaves(text: Bytes, spans: seq<Span>, config: Config, p: Progress)
    requires p.cursor <= |text|
    ensures var q := ApplyAll(text, spans, config, p);
            var n := |p.operations|;
            && n <= |q.operations| && q.operations[..n] == p.operations
            && Placed(text, q.operations[n..], p.cursor, |p.text|, config)
            && q.text + text[q.cursor..] == p.text + Weave(text, q.operations[n..], p.cursor, |p.text|, config)
    decreases |spans|
  {
    var q := ApplyAll(text, spans, config, p);
    var n := |p.operations|;
    if spans == [] {
      assert q.operations[n..] == [];
    } else {
      var next := Apply(text, spans[0], config, p);
      ApplyAllWeaves(text, spans[1..], config, next);
      if Usable(text, p.cursor, spans[0]) {
        ApplyWeaves(text, spans[0], config, p, q.operations);
      }
    }
  }

  /** One applied span puts its gap and output in front of the rest of the weave. */
  lemma ApplyWeaves(text: Bytes, span: Span, config: Config, p: Progress, operations: seq<Operation>)
    requires Usable(text, p.cursor, span)
    requires var next := Apply(text, span, config, p);
             var n := |p.operations|;
             && n < |operations| && operations[..n + 1] == next.operations
             && Placed(text, operations[n + 1..], next.cursor, |next.text|, config)
    ensures var next := Apply(text, span, config, p);
            var n := |p.operations|;
            && operations[..n] == p.operations
            && Placed(text, operations[n..], p.cursor, |p.text|, config)
            && p.text + Weave(text, operations[n..], p.cursor, |p.text|, config)
               == next.text + Weave(text, operations[n + 1..], next.cursor, |next.text|, config)
  {
    var next := Apply(text, span, config, p);
    var n := |p.operations|;
    assert operations[n] == operations[..n + 1][n] && operations[..n] == operations[..n + 1][..n];
    assert operations[n..][1..] == operations[n + 1..];
    var gap, output := text[p.cursor..span.start], Rewritten(text, operations[n], config);
    var rest := Weave(text, operations[n + 1..], next.cursor, |next.text|, config);
    assert next.text == p.text + gap + output;
    assert p.text + (gap + (output + rest)) == (p.text + gap + output) + rest;
  }

  /** The new text is the weave of the untouched gaps and the operator outputs. */
  lemma AnonymizeWeaves(text: Bytes, results: seq<Span>, config: Config)
    ensures var a := Anonymize(text, results, config);
            Placed(text, a.operations, 0, 0, config) && a.text == Weave(text, a.operations, 0, 0, config)
  {
    var start := Progress([], [], 0);
    ApplyAllWeaves(text, Resolve(results), config, start);
    var a := Anonymize(text, results, config);
    var q := ApplyAll(text, Resolve(results), config, start);
    assert q.operations[0..] == q.operations;
    var w := Weave(text, q.operations, 0, 0, config);
    assert [] + w == w;
    assert text[0..] == text;
  }

  /** What the new text holds at the first operation, and from its end on. */
  lemma FirstOperation(text: Bytes, anonymized: Bytes, operations: seq<Operation>, cursor: nat, pos: nat,
                       config: Config)
    requires Placed(text, operations, cursor, pos, config) && pos <= |anonymized| && operations != []
    requires anonymized[pos..] == Weave(text, operations, cursor, pos, config)
    ensures var o := operations[0];
            && pos <= o.newStart <= o.newEnd <= |anonymized|
            && anonymized[pos..o.newStart] == text[cursor..o.originalStart]
            && anonymized[o.newStart..o.newEnd] == Rewritten(text, o, config)
            && anonymized[o.newEnd..] == Weave(text, operations[1..], o.originalEnd, o.newEnd, config)
  {
    var o := operations[0];
    var rest := Weave(text, operations[1..], o.originalEnd, o.newEnd, config);
    SuffixAfter(anonymized, pos, text[cursor..o.originalStart], Rewritten(text, o, config) + rest);
    SuffixAfter(anonymized, o.newStart, Rewritten(text, o, config), rest);
  }

  /** Operation `i` lies inside both texts and its new range holds its output. */
  predicate Exact(text: Bytes, anonymized: Bytes, o: Operation, config: Config) {
    && o.originalStart <= o.originalEnd <= |text|
    && o.newStart <= o.newEnd <= |anonymized|
    && anonymized[o.newStart..o.newEnd] == Rewritten(text, o, config)
  }

  /** Two neighbouring operations are in order in both texts, with the same text in between. */
  predicate Neighbours(text: Bytes, anonymized: Bytes, o: Operation, o': Operation) {
    && o.originalEnd <= o'.originalStart <= |text| && o.newEnd <= o'.newStart <= |anonymized|
    && anonymized[o.newEnd..o'.newStart] == text[o.originalEnd..o'.originalStart]
  }

  lemma {:induction false} WeaveIsExact(text: Bytes, anonymized: Bytes, operations: seq<Operation>, cursor: nat,
                                        pos: nat, config: Config)
    requires Placed(text, operations, cursor, pos, config) && pos <= |anonymized|
    requires anonymized[pos..] == Weave(text, operations, cursor, pos, config)
    ensures forall i :: 0 <= i < |operations| ==> Exact(text, anonymized, operations[i], config)
    ensures forall i :: 0 < i < |operations| ==> Neighbours(text, anonymized, operations[i - 1], operations[i])
    decreases |operations|
  {
    if operations != [] {
      FirstOperation(text, anonymized, operations, cursor, pos, config);
      var o, rest := operations[0], operations[1..];
      WeaveIsExact(text, anonymized, rest, o.originalEnd, o.newEnd, config);
      forall i | 0 <= i < |operations| ensures Exact(text, anonymized, operations[i], config) {
        if i > 0 { assert operations[i] == rest[i - 1]; }
      }
      forall i | 0 < i < |operations| ensures Neighbours(text, anonymized, operations[i - 1], operations[i]) {
        if i == 1 {
          FirstOperation(text, anonymized, rest, o.originalEnd, o.newEnd, config);
        } else {
          assert operations[i - 1] == rest[i - 2] && operations[i] == rest[i - 1];
        }
      }
    }
  }

  /** Each operation's new range slices out exactly its rewrite; ranges are in order and disjoint in both texts. */
  lemma AuditTrailIsExact(text: Bytes, results: seq<Span>, config: Config)
    ensures var a := Anonymize(text, results, config);
            && (forall i :: 0 <= i < |a.operations| ==> Exact(text, a.text, a.operations[i], config))
            && (forall i :: 0 < i < |a.operations| ==> Neighbours(text, a.text, a.operations[i - 1], a.operations[i]))
  {
    AnonymizeWeaves(text, results, config);
    var a := Anonymize(text, results, config);
    assert a.text[0..] == a.text;
    WeaveIsExact(text, a.text, a.operations, 0, 0, config);
  }

  // ----- undoing -----

  /** The old text, read from the new text and the original slices alone. */
  function Undo(anonymized: Bytes, operations: seq<Operation>, originals: seq<Bytes>, pos: nat): Bytes
    requires |originals| == |operations| && pos <= |anonymized|
    decreases |operations|
  {
    if operations == [] then anonymized[pos..]
    else
      var o := operations[0];
      if pos <= o.newStart <= o.newEnd <= |anonymized| then
        anonymized[pos..o.newStart] + (originals[0] + Undo(anonymized, operations[1..], originals[1..], o.newEnd))
      else []
  }

  /** The slices of the old text that the operations replaced. */
  function Slices(text: Bytes, operations: seq<Operation>): (r: seq<Bytes>)
    ensures |r| == |operations|
  {
    seq(|operations|, i requires 0 <= i < |operations| =>
      var o := operations[i];
      if o.originalStart <= o.originalEnd <= |text| then text[o.originalStart..o.originalEnd] else [])
  }

  lemma {:induction false} UndoWeave(text: Bytes, anonymized: Bytes, operations: seq<Operation>, cursor: nat, pos: nat,
                                     config: Config)
    requires Placed(text, operations, cursor, pos, config) && pos <= |anonymized|
    requires anonymized[pos..] == Weave(text, operations, cursor, pos, config)
    ensures cursor <= |text| && Undo(anonymized, operations, Slices(text, operations), pos) == text[cursor..]
    decreases |operations|
  {
    if operations != [] {
      FirstOperation(text, anonymized, operations, cursor, pos, config);
      var o := operations[0];
      UndoWeave(text, anonymized, operations[1..], o.originalEnd, o.newEnd, config);
      assert Slices(text, operations)[1..] == Slices(text, operations[1..]);
      assert text[cursor..]
             == text[cursor..o.originalStart] + (text[o.originalStart..o.originalEnd] + text[o.originalEnd..]);
    }
  }

  /** Putting the original slices back into the recorded ranges recovers the text. */
  lemma AnonymizationInverts(text: Bytes, results: seq<Span>, config: Config)
    ensures var a := Anonymize(text, results, config);
            Undo(a.text, a.operations, Slices(text, a.operations), 0) == text
  {
    AnonymizeWeaves(text, results, config);
    var a := Anonymize(text, results, config);
    assert a.text[0..] == a.text && text[0..] == text;
    UndoWeave(text, a.text, a.operations, 0, 0, config);
  }

  // ----- no span is skipped -----

  /** A non-empty span inside the text whose ends are character boundaries. */
  predicate Fitting(text: Bytes, span: Span) {
    span.start < span.end && Usable(text, 0, span)
  }

  /** Operation `o` rewrote `span`. */
  predicate Rewrote(o: Operation, span: Span, config: Config) {
    && o.originalStart == span.start && o.originalEnd == span.end
    && o.entity == span.entity && o.kind == Select(config, span.entity).kind
  }

  lemma {:induction false} FittingAreApplied(text: Bytes, spans: seq<Span>, config: Config, p: Progress)
    requires Apart(spans) && forall i :: 0 <= i < |spans| ==> Fitting(text, spans[i]) && p.cursor <= spans[i].start
    ensures var q := ApplyAll(text, spans, config, p);
            var n := |p.operations|;
            && |q.operations| == n + |spans| && q.operations[..n] == p.operations
            && forall i :: 0 <= i < |spans| ==> Rewrote(q.operations[n + i], spans[i], config)
    decreases |spans|
  {
    if spans != [] {
      var rest, next := spans[1..], Apply(text, spans[0], config, p);
      forall i | 0 <= i < |rest| ensures Fitting(text, rest[i]) && next.cursor <= rest[i].start {
        assert rest[i] == spans[i + 1] && !Overlaps(spans[0], spans[i + 1]) && spans[0].start <= spans[i + 1].start;
      }
      FittingAreApplied(text, rest, config, next);
      var q, n := ApplyAll(text, spans, config, p), |p.operations|;
      assert q.operations[..n] == q.operations[..n + 1][..n];
      forall i | 0 <= i < |spans| ensures Rewrote(q.operations[n + i], spans[i], config) {
        if i == 0 {
          assert q.operations[n] == q.operations[..n + 1][n];
        } else {
          assert q.operations[(n + 1) + (i - 1)] == q.operations[n + i] && spans[i] == rest[i - 1];
        }
      }
    }
  }

  /** If every recognised span fits the text, exactly the survivors of overlap resolution are rewritten. */
  lemma SurvivorsAreRewritten(text: Bytes, results: seq<Span>, config: Config)
    requires forall x :: x in results ==> Fitting(text, x)
    ensures var a := Anonymize(text, results, config);
            var surviving := Resolve(results);
            && |a.operations| == |surviving|
            && forall i :: 0 <= i < |surviving| ==> Rewrote(a.operations[i], surviving[i], config)
  {
    ResolveIsFinal(results);
    StableSortSorts(results);
    var surviving := Resolve(results);
    forall i | 0 <= i < |surviving| ensures Fitting(text, surviving[i]) {
      SubsequenceMember(surviving, StableSort(results), i);
      assert surviving[i] in multiset(StableSort(results));
    }
    FittingAreApplied(text, surviving, config, Progress([], [], 0));
    forall i | 0 <= i < |surviving|
      ensures Rewrote(Anonymize(text, results, config).operations[i], surviving[i], config)
    {
      assert Anonymize(text, results, config).operations[0 + i] == Anonymize(text, results, config).operations[i];
    }
  }
}

/** The rewriter as the program runs it. */
module Anonymizer {
  import opened SpanOverlap
  import opened AnonymizerRules
  import OverlapEngine

  method Anonymize(text: Bytes, results: seq<Span>, config: Config) returns (r: Anonymized)
    ensures r == AnonymizerRules.Anonymize(text, results, config)
  {
    var surviving := OverlapEngine.Resolve(results);
    if surviving == [] {
      return Anonymized(text, []);
    }
    var newText: Bytes := [];
    var operations: seq<Operation> := [];
    var cursor: nat := 0;
    for i := 0 to |surviving|
      invariant cursor <= |text|
      invariant ApplyAll(text, surviving[i..], config, Progress(newText, operations, cursor))
                == ApplyAll(text, surviving, config, Progress([], [], 0))
    {
      assert surviving[i..][0] == surviving[i] && surviving[i..][1..] == surviving[i + 1..];
      var span := surviving[i];
      if span.start < cursor || span.end < span.start || span.end > |text|
         || !IsCharBoundary(text, span.start) || !IsCharBoundary(text, span.end) {
        continue;
      }
      newText := newText + text[cursor..span.start];
      var newStart := |newText|;
      var operator := Select(config, span.entity);
      newText := newText + operator.apply(text[span.start..span.end]);
      operations := operations + [Operation(span.entity, operator.kind, span.start, span.end, newStart, |newText|)];
      cursor := span.end;
    }
    r := Anonymized(newText + text[cursor..], operations);
  }
}
