/** The effect of a whole redaction on the stored texts and the counters. */
module RedactionOutcome {
  import opened SpanOverlap
  import opened AnonymizerRules
  import opened WalkRules

  /** A leaf moved out for the model: its slot, its text and its pattern spans. */
  datatype Deferred = Deferred(slot: nat, text: Bytes, spans: seq<Span>)

  datatype Walked = Walked(store: seq<Bytes>, tally: Tally, deferred: seq<Deferred>)

  predicate InRange(visits: seq<Visit>, n: nat) {
    forall i :: 0 <= i < |visits| ==> visits[i].slot < n
  }

  /** Rewrites one stored text and counts its operations. */
  function Rewrite(w: Walked, slot: nat, spans: seq<Span>, config: Config): Walked
    requires slot < |w.store|
  {
    var text := w.store[slot];
    w.(store := w.store[slot := Redact(text, spans, config)],
       tally := CountOperations(w.tally, Operations(text, spans, config)))
  }

  function VisitLeaf(engine: Engine, w: Walked, visit: Visit): Walked
    requires visit.slot < |w.store|
  {
    var text := w.store[visit.slot];
    var spans := engine.patterns(text, visit.path);
    var seen := w.(tally := w.tally.(leaves := w.tally.leaves + 1));
    if engine.model.Some? then
      seen.(store := w.store[visit.slot := []], deferred := w.deferred + [Deferred(visit.slot, text, spans)])
    else if spans == [] then seen
    else Rewrite(seen, visit.slot, spans, engine.config)
  }

  function VisitAll(engine: Engine, w: Walked, visits: seq<Visit>): (r: Walked)
    requires InRange(visits, |w.store|)
    ensures |r.store| == |w.store|
    decreases |visits|
  {
    if visits == [] then w else VisitAll(engine, VisitLeaf(engine, w, visits[0]), visits[1..])
  }

  /** Puts a leaf's text back and rewrites it with the merged spans. */
  function MergeLeaf(engine: Engine, w: Walked, leaf: Deferred, model: seq<Span>): Walked
    requires leaf.slot < |w.store|
  {
    var restored := w.(store := w.store[leaf.slot := leaf.text]);
    var spans := Merge(leaf.spans, model, engine.minScore);
    if spans == [] then restored else Rewrite(restored, leaf.slot, spans, engine.config)
  }

  function MergeAll(engine: Engine, w: Walked, deferred: seq<Deferred>, models: seq<seq<Span>>): (r: Walked)
    requires forall i :: 0 <= i < |deferred| ==> deferred[i].slot < |w.store|
    ensures |r.store| == |w.store|
    decreases |deferred|
  {
    if deferred == [] || models == [] then w
    else MergeAll(engine, MergeLeaf(engine, w, deferred[0], models[0]), deferred[1..], models[1..])
  }

  function Texts(deferred: seq<Deferred>): seq<Bytes> {
    seq(|deferred|, i requires 0 <= i < |deferred| => deferred[i].text)
  }

  function Start(store: seq<Bytes>): Walked {
    Walked(store, Tally(0, map[], 0), [])
  }

  // ----- one leaf at a time -----

  /** No leaf is visited twice. */
  predicate Distinct(visits: seq<Visit>) {
    forall i, j :: 0 <= i < j < |visits| ==> visits[i].slot != visits[j].slot
  }

  predicate Visited(visits: seq<Visit>, slot: nat) {
    exists i :: 0 <= i < |visits| && visits[i].slot == slot
  }

  lemma VisitedStep(visits: seq<Visit>)
    requires visits != []
    ensures forall slot: nat :: Visited(visits, slot) <==> slot == visits[0].slot || Visited(visits[1..], slot)
  {
    forall slot: nat | Visited(visits, slot) ensures slot == visits[0].slot || Visited(visits[1..], slot) {
      var i :| 0 <= i < |visits| && visits[i].slot == slot;
      if i > 0 { assert visits[1..][i - 1] == visits[i]; }
    }
    forall slot: nat | Visited(visits[1..], slot) ensures Visited(visits, slot) {
      var i :| 0 <= i < |visits| - 1 && visits[1..][i].slot == slot;
      assert visits[i + 1].slot == slot;
    }
  }

  /** All operations of leaves rewritten with the given spans, in visiting order. */
  function AllOperations(store: seq<Bytes>, visits: seq<Visit>, chosen: seq<seq<Span>>, config: Config): seq<Operation>
    requires InRange(visits, |store|) && |chosen| == |visits|
    decreases |visits|
  {
    if visits == [] then []
    else Operations(store[visits[0].slot], chosen[0], config) + AllOperations(store, visits[1..], chosen[1..], config)
  }

  /** `after` is `store` with each visited text rewritten by its chosen spans and everything else unchanged. */
  ghost predicate Redacted(store: seq<Bytes>, after: seq<Bytes>, visits: seq<Visit>, chosen: seq<seq<Span>>,
                           config: Config) {
    && |after| == |store| && |chosen| == |visits| && InRange(visits, |store|)
    && (forall i :: 0 <= i < |visits| ==> after[visits[i].slot] == Redact(store[visits[i].slot], chosen[i], config))
    && (forall slot: nat :: slot < |store| && !Visited(visits, slot) ==> after[slot] == store[slot])
  }

  lemma {:induction false} CountConcat(tally: Tally, a: seq<Operation>, b: seq<Operation>)
    ensures CountOperations(tally, a + b) == CountOperations(CountOperations(tally, a), b)
    decreases |b|
  {
    if b == [] {
      assert a + b == a;
    } else {
      assert (a + b)[..|a + b| - 1] == a + b[..|b| - 1];
      CountConcat(tally, a, b[..|b| - 1]);
    }
  }

  lemma {:induction false} CountLeaves(tally: Tally, operations: seq<Operation>, leaves: nat)
    ensures CountOperations(tally.(leaves := leaves), operations)
            == CountOperations(tally, operations).(leaves := leaves)
  {
    if operations != [] {
      CountLeaves(tally, operations[..|operations| - 1], leaves);
    }
  }

  /** Distinct leaves do not see each other's rewriting: the operations are those on the original texts. */
  lemma {:induction false} OperationsUnaffected(store: seq<Bytes>, store': seq<Bytes>, visits: seq<Visit>,
                                                chosen: seq<seq<Span>>, config: Config)
    requires InRange(visits, |store|) && |store'| == |store| && |chosen| == |visits|
    requires forall i :: 0 <= i < |visits| ==> store[visits[i].slot] == store'[visits[i].slot]
    ensures AllOperations(store, visits, chosen, config) == AllOperations(store', visits, chosen, config)
    decreases |visits|
  {
    if visits != [] {
      OperationsUnaffected(store, store', visits[1..], chosen[1..], config);
    }
  }

  /** Redacting the first leaf and then the others is redacting them all. */
  lemma RedactedStep(store: seq<Bytes>, after: seq<Bytes>, visits: seq<Visit>, chosen: seq<seq<Span>>, config: Config)
    requires visits != [] && |chosen| == |visits| && InRange(visits, |store|) && Distinct(visits)
    requires var slot := visits[0].slot;
             Redacted(store[slot := Redact(store[slot], chosen[0], config)], after, visits[1..], chosen[1..], config)
    ensures Redacted(store, after, visits, chosen, config)
  {
    VisitedStep(visits);
    var slot := visits[0].slot;
    var step := store[slot := Redact(store[slot], chosen[0], config)];
    assert forall i :: 0 <= i < |visits| - 1 ==> visits[1..][i] == visits[i + 1];
    assert !Visited(visits[1..], slot);
    forall i | 0 <= i < |visits| ensures after[visits[i].slot] == Redact(store[visits[i].slot], chosen[i], config) {
      if i > 0 {
        assert visits[1..][i - 1] == visits[i] && chosen[1..][i - 1] == chosen[i];
        assert after[visits[1..][i - 1].slot] == Redact(step[visits[1..][i - 1].slot], chosen[1..][i - 1], config);
      }
    }
  }

  function LeafTexts(store: seq<Bytes>, visits: seq<Visit>): seq<Bytes>
    requires InRange(visits, |store|)
  {
    seq(|visits|, i requires 0 <= i < |visits| => store[visits[i].slot])
  }

  /** The pattern spans of each visited text. */
  function PatternSpans(engine: Engine, store: seq<Bytes>, visits: seq<Visit>): (r: seq<seq<Span>>)
    requires InRange(visits, |store|)
    ensures |r| == |visits|
  {
    seq(|visits|, i requires 0 <= i < |visits| => engine.patterns(store[visits[i].slot], visits[i].path))
  }

  lemma NothingToRewrite(w: Walked, slot: nat, config: Config)
    requires slot < |w.store|
    ensures Rewrite(w, slot, [], config) == w
  {
    assert Operations(w.store[slot], [], config) == [] by { assert Resolve([]) == []; }
    assert w.store[slot := w.store[slot]] == w.store;
  }

  lemma InlineStep(engine: Engine, w: Walked, visits: seq<Visit>)
    requires engine.model.None? && InRange(visits, |w.store|) && Distinct(visits) && visits != []
    ensures var chosen := PatternSpans(engine, w.store, visits);
            var next := VisitLeaf(engine, w, visits[0]);
            var slot := visits[0].slot;
            && next.store == w.store[slot := Redact(w.store[slot], chosen[0], engine.config)]
            && next.tally == CountOperations(w.tally, Operations(w.store[slot], chosen[0], engine.config))
                             .(leaves := w.tally.leaves + 1)
            && Distinct(visits[1..]) && InRange(visits[1..], |w.store|)
            && PatternSpans(engine, next.store, visits[1..]) == chosen[1..]
            && AllOperations(next.store, visits[1..], chosen[1..], engine.config)
               == AllOperations(w.store, visits[1..], chosen[1..], engine.config)
  {
    hide Redact, Operations, CountOperations;
    var chosen := PatternSpans(engine, w.store, visits);
    var slot := visits[0].slot;
    var seen := w.(tally := w.tally.(leaves := w.tally.leaves + 1));
    NothingToRewrite(seen, slot, engine.config);
    var next := VisitLeaf(engine, w, visits[0]);
    assert next == Rewrite(seen, slot, chosen[0], engine.config);
    CountLeaves(w.tally, Operations(w.store[slot], chosen[0], engine.config), w.tally.leaves + 1);
    assert forall i :: 0 <= i < |visits| - 1 ==> visits[1..][i] == visits[i + 1];
    assert PatternSpans(engine, next.store, visits[1..]) == chosen[1..];
    OperationsUnaffected(w.store, next.store, visits[1..], chosen[1..], engine.config);
  }

  lemma CountStep(tally: Tally, first: seq<Operation>, rest: seq<Operation>, leaves: nat)
    ensures var step := CountOperations(tally, first).(leaves := tally.leaves + 1);
            CountOperations(step.(leaves := step.leaves + leaves), rest)
            == CountOperations(tally.(leaves := tally.leaves + 1 + leaves), first + rest)
  {
    CountConcat(tally.(leaves := tally.leaves + 1 + leaves), first, rest);
    CountLeaves(tally, first, tally.leaves + 1 + leaves);
  }

  lemma NothingCounted(tally: Tally)
    ensures CountOperations(tally.(leaves := tally.leaves + 0), []) == tally
  {
  }

  /** Without a model: every visited text is rewritten by its pattern spans, and the counters count just that. */
  lemma {:induction false} InlineOutcome(engine: Engine, w: Walked, visits: seq<Visit>)
    requires engine.model.None? && InRange(visits, |w.store|) && Distinct(visits)
    ensures var chosen := PatternSpans(engine, w.store, visits);
            var r := VisitAll(engine, w, visits);
            && Redacted(w.store, r.store, visits, chosen, engine.config)
            && r.tally == CountOperations(w.tally.(leaves := w.tally.leaves + |visits|),
                                          AllOperations(w.store, visits, chosen, engine.config))
    decreases |visits|
  {
    hide VisitLeaf, Operations, Redact, CountOperations;
    var chosen := PatternSpans(engine, w.store, visits);
    if visits == [] {
      NothingCounted(w.tally);
      return;
    }
    var next := VisitLeaf(engine, w, visits[0]);
    InlineStep(engine, w, visits);
    InlineOutcome(engine, next, visits[1..]);
    RedactedStep(w.store, VisitAll(engine, w, visits).store, visits, chosen, engine.config);
    CountStep(w.tally, Operations(w.store[visits[0].slot], chosen[0], engine.config),
              AllOperations(w.store, visits[1..], chosen[1..], engine.config), |visits| - 1);
    assert w.tally.leaves + 1 + (|visits| - 1) == w.tally.leaves + |visits|;
  }

  // ----- with a model -----

  /** What moving every visited text out leaves behind. */
  lemma {:induction false} DeferOutcome(engine: Engine, w: Walked, visits: seq<Visit>)
    requires engine.model.Some? && InRange(visits, |w.store|) && Distinct(visits)
    ensures var r := VisitAll(engine, w, visits);
            var chosen := PatternSpans(engine, w.store, visits);
            && r.tally == w.tally.(leaves := w.tally.leaves + |visits|)
            && r.deferred == w.deferred
                             + seq(|visits|, i requires 0 <= i < |visits| =>
                                 Deferred(visits[i].slot, w.store[visits[i].slot], chosen[i]))
            && |r.store| == |w.store|
            && (forall slot: nat :: slot < |w.store| ==>
                  r.store[slot] == if Visited(visits, slot) then [] else w.store[slot])
    decreases |visits|
  {
    if visits != [] {
      var next := VisitLeaf(engine, w, visits[0]);
      DeferOutcome(engine, next, visits[1..]);
      VisitedStep(visits);
      assert forall i :: 0 <= i < |visits| - 1 ==> visits[1..][i] == visits[i + 1];
      assert PatternSpans(engine, next.store, visits[1..]) == PatternSpans(engine, w.store, visits)[1..];
    }
  }

  /** The merged spans of each leaf. */
  function MergedSpans(engine: Engine, patterns: seq<seq<Span>>, models: seq<seq<Span>>): (r: seq<seq<Span>>)
    requires |patterns| == |models|
    ensures |r| == |patterns|
  {
    seq(|patterns|, i requires 0 <= i < |patterns| => Merge(patterns[i], models[i], engine.minScore))
  }

  /** Putting moved-out texts back: each is rewritten by its merged spans, and one without operations is as before. */
  lemma {:induction false} MergeOutcome(engine: Engine, store: seq<Bytes>, w: Walked, visits: seq<Visit>,
                                        deferred: seq<Deferred>, models: seq<seq<Span>>, chosen: seq<seq<Span>>)
    requires InRange(visits, |store|) && Distinct(visits) && |w.store| == |store|
    requires |deferred| == |visits| == |models| == |chosen|
    requires forall i :: 0 <= i < |visits| ==>
               && deferred[i].slot == visits[i].slot && deferred[i].text == store[visits[i].slot]
               && chosen[i] == Merge(deferred[i].spans, models[i], engine.minScore)
    requires forall slot: nat :: slot < |store| && !Visited(visits, slot) ==> w.store[slot] == store[slot]
    ensures var r := MergeAll(engine, w, deferred, models);
            && Redacted(store, r.store, visits, chosen, engine.config)
            && r.tally == CountOperations(w.tally, AllOperations(store, visits, chosen, engine.config))
    decreases |visits|
  {
    hide Operations, Redact, CountOperations, Merge;
    if visits == [] {
      NothingCounted(w.tally);
      assert w.tally.(leaves := w.tally.leaves + 0) == w.tally;
    } else {
      var slot := visits[0].slot;
      var next := MergeLeaf(engine, w, deferred[0], models[0]);
      MergeStep(engine, w, deferred[0], models[0], chosen[0]);
      var store' := store[slot := Redact(store[slot], chosen[0], engine.config)];
      VisitedStep(visits);
      assert forall i :: 0 <= i < |visits| - 1 ==> visits[1..][i] == visits[i + 1];
      MergeOutcome(engine, store', next, visits[1..], deferred[1..], models[1..], chosen[1..]);
      OperationsUnaffected(store, store', visits[1..], chosen[1..], engine.config);
      RedactedStep(store, MergeAll(engine, w, deferred, models).store, visits, chosen, engine.config);
      CountConcat(w.tally, Operations(store[slot], chosen[0], engine.config),
                  AllOperations(store, visits[1..], chosen[1..], engine.config));
    }
  }

  lemma MergeStep(engine: Engine, w: Walked, leaf: Deferred, model: seq<Span>, chosen: seq<Span>)
    requires leaf.slot < |w.store| && chosen == Merge(leaf.spans, model, engine.minScore)
    ensures var next := MergeLeaf(engine, w, leaf, model);
            && next.store == w.store[leaf.slot := Redact(leaf.text, chosen, engine.config)]
            && next.tally == CountOperations(w.tally, Operations(leaf.text, chosen, engine.config))
  {
    hide Redact, Operations, Merge, CountOperations;
    var restored := w.(store := w.store[leaf.slot := leaf.text]);
    NothingToRewrite(restored, leaf.slot, engine.config);
    assert MergeLeaf(engine, w, leaf, model) == Rewrite(restored, leaf.slot, chosen, engine.config);
  }
}

/** The walk as the program runs it: an explicit stack of frames and one shared path of key words. */
module Redactor {
  import opened Common
  import opened SpanOverlap
  import opened AnonymizerRules
  import opened WalkRules
  import opened RedactionOutcome
  import opened LeafLaws
  import Anonymizer
  import OverlapEngine

  /** Work left: a value, a value under a key, or words to take off the path again. */
  datatype Frame = Root(value: Value) | KeyedChild(value: Value, key: string) | Pop(count: nat)

  method PushKeyWords(path: seq<string>, key: string) returns (longer: seq<string>, count: nat)
    ensures longer == path + KeyWords(key) && count == |KeyWords(key)|
  {
    longer := path;
    var buffer := "";
    for i := 0 to |key|
      invariant longer + WordsFrom(key[i..], buffer) == path + KeyWords(key)
    {
      assert key[i..][1..] == key[i + 1..];
      if IsAsciiAlphanumeric(key[i]) {
        buffer := buffer + [FoldChar(key[i])];
      } else {
        longer := longer + Word(buffer);
        buffer := "";
      }
    }
    longer := longer + Word(buffer);
    count := |longer| - |path|;
  }

  // ----- what a stack still stands for -----

  /** The visits a stack still makes, its top frame first. */
  function StackVisits(stack: seq<Frame>, path: seq<string>): seq<Visit> {
    if stack == [] then []
    else
      var rest, top := stack[..|stack| - 1], stack[|stack| - 1];
      match top
      case Root(value) => Visits(value, path) + StackVisits(rest, path)
      case KeyedChild(value, key) => Visits(value, path + KeyWords(key)) + StackVisits(rest, path)
      case Pop(count) => StackVisits(rest, if count <= |path| then path[..|path| - count] else [])
  }

  /** Popping never takes more words than there are, and the path ends empty. */
  predicate Balanced(stack: seq<Frame>, path: seq<string>) {
    if stack == [] then path == []
    else
      var rest, top := stack[..|stack| - 1], stack[|stack| - 1];
      if top.Pop? then top.count <= |path| && Balanced(rest, path[..|path| - top.count]) else Balanced(rest, path)
  }

  function Size(value: Value): nat
    decreases value, 0
  {
    match value
    case Array(items) => 2 + ItemSize(items)
    case Object(fields) => 2 + FieldSize(fields)
    case _ => 2
  }

  function ItemSize(items: seq<Value>): nat
    decreases items, 0
  {
    if items == [] then 0 else Size(items[|items| - 1]) + ItemSize(items[..|items| - 1])
  }

  function FieldSize(fields: seq<Field>): nat
    decreases fields, 0
  {
    if fields == [] then 0 else 1 + Size(fields[|fields| - 1].value) + FieldSize(fields[..|fields| - 1])
  }

  /** Steps left. */
  function StackSize(stack: seq<Frame>): nat {
    if stack == [] then 0
    else
      var top := stack[|stack| - 1];
      StackSize(stack[..|stack| - 1])
      + (match top case Root(value) => Size(value) case KeyedChild(value, _) => Size(value) + 1 case Pop(_) => 1)
  }

  function Roots(items: seq<Value>): seq<Frame> {
    seq(|items|, i requires 0 <= i < |items| => Root(items[i]))
  }

  function Children(fields: seq<Field>): seq<Frame> {
    seq(|fields|, i requires 0 <= i < |fields| => KeyedChild(fields[i].value, fields[i].key))
  }

  lemma PushedRoot(stack: seq<Frame>, value: Value, path: seq<string>)
    ensures StackVisits(stack + [Root(value)], path) == Visits(value, path) + StackVisits(stack, path)
    ensures Balanced(stack + [Root(value)], path) == Balanced(stack, path)
    ensures StackSize(stack + [Root(value)]) == StackSize(stack) + Size(value)
  {
    hide Visits, Size;
    assert (stack + [Root(value)])[..|stack|] == stack;
  }

  lemma PushedChild(stack: seq<Frame>, value: Value, key: string, path: seq<string>)
    ensures StackVisits(stack + [KeyedChild(value, key)], path)
            == Visits(value, path + KeyWords(key)) + StackVisits(stack, path)
    ensures Balanced(stack + [KeyedChild(value, key)], path) == Balanced(stack, path)
    ensures StackSize(stack + [KeyedChild(value, key)]) == StackSize(stack) + Size(value) + 1
  {
    hide Visits, Size, KeyWords;
    assert (stack + [KeyedChild(value, key)])[..|stack|] == stack;
  }

  lemma {:induction false} RootsOnStack(stack: seq<Frame>, items: seq<Value>, path: seq<string>)
    ensures StackVisits(stack + Roots(items), path) == ItemVisits(items, path) + StackVisits(stack, path)
    ensures Balanced(stack + Roots(items), path) == Balanced(stack, path)
    ensures StackSize(stack + Roots(items)) == StackSize(stack) + ItemSize(items)
    decreases |items|
  {
    hide Visits, Size, StackVisits, Balanced, StackSize;
    if items == [] {
      assert stack + Roots(items) == stack;
    } else {
      var n := |items| - 1;
      RootsOnStack(stack, items[..n], path);
      PushedRoot(stack + Roots(items[..n]), items[n], path);
      assert stack + Roots(items) == (stack + Roots(items[..n])) + [Root(items[n])];
    }
  }

  lemma {:induction false} ChildrenOnStack(stack: seq<Frame>, fields: seq<Field>, path: seq<string>)
    ensures StackVisits(stack + Children(fields), path) == FieldVisits(fields, path) + StackVisits(stack, path)
    ensures Balanced(stack + Children(fields), path) == Balanced(stack, path)
    ensures StackSize(stack + Children(fields)) == StackSize(stack) + FieldSize(fields)
    decreases |fields|
  {
    hide Visits, Size, KeyWords, StackVisits, Balanced, StackSize;
    if fields == [] {
      assert stack + Children(fields) == stack;
    } else {
      var n := |fields| - 1;
      ChildrenOnStack(stack, fields[..n], path);
      PushedChild(stack + Children(fields[..n]), fields[n].value, fields[n].key, path);
      assert stack + Children(fields) == (stack + Children(fields[..n])) + [KeyedChild(fields[n].value, fields[n].key)];
    }
  }

  function Reversed(rows: seq<Value>): seq<Value> {
    if rows == [] then [] else Reversed(rows[1..]) + [rows[0]]
  }

  /** The rows, stacked last to first, are walked first to last. */
  lemma {:induction false} InitialStack(rows: seq<Value>)
    ensures StackVisits(Roots(Reversed(rows)), []) == RowVisits(rows)
    ensures Balanced(Roots(Reversed(rows)), [])
  {
    if rows != [] {
      InitialStack(rows[1..]);
      var s := Roots(Reversed(rows));
      assert s[|s| - 1] == Root(rows[0]) && s[..|s| - 1] == Roots(Reversed(rows[1..]));
    }
  }

  /** A keyed child leaves its words on the path and a frame below it that takes them off again. */
  lemma EnterChild(rest: seq<Frame>, path: seq<string>, words: seq<string>)
    ensures StackVisits(rest + [Pop(|words|)], path + words) == StackVisits(rest, path)
    ensures Balanced(rest + [Pop(|words|)], path + words) == Balanced(rest, path)
    ensures StackSize(rest + [Pop(|words|)]) == StackSize(rest) + 1
  {
    var s := rest + [Pop(|words|)];
    assert s[..|s| - 1] == rest && (path + words)[..|path|] == path;
  }

  // ----- the walk -----

  /** The redaction counters and the leaves set aside for the model. */
  class Progress {
    var tally: Tally
    var deferred: seq<Deferred>

    constructor ()
      ensures tally == Tally(0, map[], 0) && deferred == []
    {
      tally, deferred := Tally(0, map[], 0), [];
    }
  }

  ghost function Now(store: array<Bytes>, progress: Progress): Walked
    reads store, progress
  {
    Walked(store[..], progress.tally, progress.deferred)
  }

  method ApplySpans(store: array<Bytes>, slot: nat, spans: seq<Span>, config: Config, progress: Progress)
    requires slot < store.Length
    modifies store, progress
    ensures Now(store, progress) == Rewrite(old(Now(store, progress)), slot, spans, config)
  {
    hide AnonymizerRules.Anonymize;
    var text := store[slot];
    var anonymized := Anonymizer.Anonymize(text, spans, config);
    var operations := anonymized.operations;
    if operations == [] {
      assert store[..][slot := text] == store[..];
      return;
    }
    var tally := AddOperations(progress.tally, operations);
    progress.tally := tally;
    store[slot] := anonymized.text;
    assert store[..] == old(store[..])[slot := anonymized.text];
  }

  method AddOperations(before: Tally, operations: seq<Operation>) returns (tally: Tally)
    ensures tally == CountOperations(before, operations)
  {
    tally := before;
    for i := 0 to |operations|
      invariant tally == CountOperations(before, operations[..i])
    {
      assert operations[..i + 1][..i] == operations[..i];
      var entity := operations[i].entity;
      var count := Count(tally.byEntity, entity) + 1;
      tally := tally.(total := tally.total + 1, byEntity := tally.byEntity[entity := count]);
    }
    assert operations[..|operations|] == operations;
  }

  method TakeLeaf(engine: Engine, store: array<Bytes>, slot: nat, path: seq<string>, progress: Progress)
    requires slot < store.Length
    modifies store, progress
    ensures Now(store, progress) == VisitLeaf(engine, old(Now(store, progress)), Visit(slot, path))
  {
    progress.tally := progress.tally.(leaves := progress.tally.leaves + 1);
    var text := store[slot];
    var spans := engine.patterns(text, path);
    if engine.model.Some? {
      store[slot] := [];
      progress.deferred := progress.deferred + [Deferred(slot, text, spans)];
      assert store[..] == old(store[..])[slot := []];
    } else if spans != [] {
      ApplySpans(store, slot, spans, engine.config, progress);
    }
  }

  lemma {:induction false} VisitAllSnoc(engine: Engine, w: Walked, visits: seq<Visit>, last: Visit)
    requires InRange(visits + [last], |w.store|)
    ensures InRange(visits, |w.store|) && last.slot < |w.store|
    ensures VisitAll(engine, w, visits + [last]) == VisitLeaf(engine, VisitAll(engine, w, visits), last)
    decreases |visits|
  {
    assert (visits + [last])[|visits|] == last;
    assert forall i :: 0 <= i < |visits| ==> (visits + [last])[i] == visits[i];
    if visits == [] {
      assert (visits + [last])[1..] == [];
    } else {
      assert (visits + [last])[1..] == visits[1..] + [last];
      VisitAllSnoc(engine, VisitLeaf(engine, w, visits[0]), visits[1..], last);
    }
  }

  method PushRoots(below: seq<Frame>, items: seq<Value>) returns (stack: seq<Frame>)
    ensures stack == below + Roots(items)
  {
    stack := below;
    for i := 0 to |items|
      invariant stack == below + Roots(items[..i])
    {
      assert Roots(items[..i + 1]) == Roots(items[..i]) + [Root(items[i])];
      stack := stack + [Root(items[i])];
    }
    assert items[..|items|] == items;
  }

  method PushChildren(below: seq<Frame>, fields: seq<Field>) returns (stack: seq<Frame>)
    ensures stack == below + Children(fields)
  {
    stack := below;
    for i := 0 to |fields|
      invariant stack == below + Children(fields[..i])
    {
      assert Children(fields[..i + 1]) == Children(fields[..i]) + [KeyedChild(fields[i].value, fields[i].key)];
      stack := stack + [KeyedChild(fields[i].value, fields[i].key)];
    }
    assert fields[..|fields|] == fields;
  }

  /** Handles one value: takes a leaf, or stacks the children; `visited` is what it contributed at once. */
  method Enter(engine: Engine, value: Value, below: seq<Frame>, path: seq<string>, store: array<Bytes>,
               progress: Progress)
    returns (stack: seq<Frame>, ghost visited: seq<Visit>)
    requires value.Text? ==> value.slot < store.Length
    modifies store, progress
    ensures visited == if value.Text? then [Visit(value.slot, path)] else []
    ensures visited + StackVisits(stack, path) == Visits(value, path) + StackVisits(below, path)
    ensures Balanced(stack, path) == Balanced(below, path)
    ensures StackSize(stack) < StackSize(below) + Size(value)
    ensures Now(store, progress) == if value.Text? then VisitLeaf(engine, old(Now(store, progress)), visited[0])
                                    else old(Now(store, progress))
  {
    visited := [];
    stack := below;
    match value
    case Text(slot) =>
      visited := [Visit(slot, path)];
      TakeLeaf(engine, store, slot, path, progress);
    case Object(fields) =>
      ChildrenOnStack(below, fields, path);
      stack := PushChildren(below, fields);
      assert [] + StackVisits(stack, path) == StackVisits(stack, path);
    case Array(items) =>
      RootsOnStack(below, items, path);
      stack := PushRoots(below, items);
      assert [] + StackVisits(stack, path) == StackVisits(stack, path);
    case Scalar(_) =>
  }

  /** What popping a value frame does to the visits left: its own come first, the rest goes on as before. */
  lemma PopValue(before: seq<Frame>, outer: seq<string>, stack: seq<Frame>, path: seq<string>)
    requires before != [] && !before[|before| - 1].Pop?
    requires var top := before[|before| - 1];
             var words := if top.KeyedChild? then KeyWords(top.key) else [];
             && path == outer + words
             && stack == before[..|before| - 1] + if top.KeyedChild? then [Pop(|words|)] else []
    ensures StackVisits(before, outer) == Visits(before[|before| - 1].value, path) + StackVisits(stack, path)
    ensures Balanced(before, outer) == Balanced(stack, path)
    ensures StackSize(stack) + Size(before[|before| - 1].value) == StackSize(before)
  {
    var top := before[|before| - 1];
    if top.KeyedChild? {
      EnterChild(before[..|before| - 1], outer, KeyWords(top.key));
    } else {
      assert outer + [] == outer && before[..|before| - 1] + [] == before[..|before| - 1];
    }
  }

  lemma PopWords(before: seq<Frame>, path: seq<string>)
    requires before != [] && before[|before| - 1].Pop? && Balanced(before, path)
    ensures var rest, count := before[..|before| - 1], before[|before| - 1].count;
            && count <= |path|
            && StackVisits(before, path) == [] + StackVisits(rest, path[..|path| - count])
            && Balanced(rest, path[..|path| - count])
            && StackSize(rest) + 1 == StackSize(before)
  {
  }

  /** Takes the top frame off: words to drop from the path, or a value to handle with its key's words pushed. */
  method PopFrame(stack: seq<Frame>, path: seq<string>)
    returns (rest: seq<Frame>, inner: seq<string>, next: Option<Value>)
    requires stack != [] && Balanced(stack, path)
    ensures Balanced(rest, inner)
    ensures StackVisits(stack, path)
            == (if next.Some? then Visits(next.value, inner) else []) + StackVisits(rest, inner)
    ensures StackSize(rest) + (if next.Some? then Size(next.value) else 1) == StackSize(stack)
  {
    hide StackVisits, Balanced, StackSize, Visits, Size, KeyWords;
    var frame := stack[|stack| - 1];
    rest, inner, next := stack[..|stack| - 1], path, None;
    if frame.Pop? {
      PopWords(stack, path);
      inner := path[..|path| - frame.count];
    } else {
      next := Some(frame.value);
      if frame.KeyedChild? {
        var count;
        inner, count := PushKeyWords(path, frame.key);
        rest := rest + [Pop(count)];
      } else {
        assert path == path + [] && rest == rest + [];
      }
      PopValue(stack, path, rest, inner);
    }
  }

  /** A leaf at hand is among the visits, so its text is stored. */
  lemma LeafInRange(all: seq<Visit>, done: seq<Visit>, value: Value, path: seq<string>, rest: seq<Visit>, n: nat)
    requires InRange(all, n) && all == done + (Visits(value, path) + rest) && value.Text?
    ensures value.slot < n && InRange(done + [Visit(value.slot, path)], n)
  {
    assert all[|done|] == Visit(value.slot, path);
    assert forall i :: 0 <= i < |done| ==> all[i] == done[i];
  }

  /** Walks every leaf of `rows`, in the order and with the path the rules give; every word pushed is popped again. */
  method Walk(engine: Engine, rows: seq<Value>, store: array<Bytes>, progress: Progress)
    returns (ghost left: seq<string>)
    requires InRange(RowVisits(rows), store.Length)
    modifies store, progress
    ensures left == []
    ensures Now(store, progress) == VisitAll(engine, old(Now(store, progress)), RowVisits(rows))
  {
    hide StackVisits, Balanced, StackSize, VisitLeaf, VisitAll, Visits, RowVisits, Size, KeyWords;
    ghost var start := Now(store, progress);
    NothingVisited(engine, start);
    var path: seq<string> := [];
    var stack := PushRoots([], Reversed(rows));
    InitialStack(rows);
    assert [] + Roots(Reversed(rows)) == Roots(Reversed(rows));
    ghost var done: seq<Visit> := [];
    ghost var all := RowVisits(rows);
    while stack != []
      invariant all == done + StackVisits(stack, path)
      invariant Balanced(stack, path)
      invariant InRange(done, store.Length)
      invariant Now(store, progress) == VisitAll(engine, start, done)
      decreases StackSize(stack)
    {
      var next: Option<Value>;
      stack, path, next := PopFrame(stack, path);
      if next.Some? {
        var value := next.value;
        if value.Text? {
          LeafInRange(all, done, value, path, StackVisits(stack, path), store.Length);
          VisitAllSnoc(engine, start, done, Visit(value.slot, path));
        }
        ghost var visited;
        stack, visited := Enter(engine, value, stack, path, store, progress);
        Regroup(done, visited, StackVisits(stack, path));
        done := done + visited;
      } else {
        Regroup(done, [], StackVisits(stack, path));
      }
    }
    NothingLeft(path);
    assert done + [] == done;
    left := path;
  }

  lemma Regroup(done: seq<Visit>, visited: seq<Visit>, left: seq<Visit>)
    ensures done + (visited + left) == (done + visited) + left
    ensures visited == [] ==> done + visited == done
  {
  }

  lemma NothingVisited(engine: Engine, w: Walked)
    ensures VisitAll(engine, w, []) == w
  {
  }

  lemma NothingLeft(path: seq<string>)
    ensures StackVisits([], path) == [] && (Balanced([], path) <==> path == [])
  {
  }

  // ----- the whole redaction -----

  /** The model's spans for every deferred text, merged in. */
  method MergePass(engine: Engine, models: seq<seq<Span>>, store: array<Bytes>, progress: Progress)
    requires |models| == |progress.deferred|
    requires forall i :: 0 <= i < |progress.deferred| ==> progress.deferred[i].slot < store.Length
    modifies store, progress
    ensures Now(store, progress).(deferred := old(progress.deferred))
            == MergeAll(engine, old(Now(store, progress)), old(progress.deferred), models)
  {
    ghost var start := Now(store, progress);
    var slots := progress.deferred;
    for k := 0 to |slots|
      invariant progress.deferred == slots
      invariant MergeAll(engine, start, slots, models)
                == MergeAll(engine, Now(store, progress), slots[k..], models[k..])
    {
      hide Merge, Rewrite;
      assert slots[k..][0] == slots[k] && models[k..][0] == models[k];
      assert slots[k..][1..] == slots[k + 1..] && models[k..][1..] == models[k + 1..];
      ghost var before := Now(store, progress);
      store[slots[k].slot] := slots[k].text;
      assert store[..] == before.store[slots[k].slot := slots[k].text];
      var spans := MergeSpans(slots[k].spans, models[k], engine.minScore);
      if spans != [] {
        ApplySpans(store, slots[k].slot, spans, engine.config, progress);
        RewriteKeepsDeferred(before.(store := before.store[slots[k].slot := slots[k].text]), slots[k].slot, spans,
                             engine.config);
      }
      assert Now(store, progress) == MergeLeaf(engine, before, slots[k], models[k]);
    }
  }

  lemma RewriteKeepsDeferred(w: Walked, slot: nat, spans: seq<Span>, config: Config)
    requires slot < |w.store|
    ensures Rewrite(w, slot, spans, config).deferred == w.deferred
  {
  }

  method MergeSpans(patterns: seq<Span>, model: seq<Span>, minScore: real) returns (spans: seq<Span>)
    ensures spans == Merge(patterns, model, minScore)
  {
    var kept: seq<Span> := [];
    for i := 0 to |model|
      invariant kept == AtLeast(model[..i], minScore)
    {
      assert model[..i + 1][..i] == model[..i];
      assert kept + [] == kept;
      if model[i].score >= minScore {
        kept := kept + [model[i]];
      }
    }
    assert model[..|model|] == model;
    spans := OverlapEngine.Resolve(patterns + kept);
  }

  /** The stored texts once every visited text has been moved out. */
  ghost predicate Emptied(store: seq<Bytes>, after: seq<Bytes>, visits: seq<Visit>) {
    && |after| == |store|
    && forall slot: nat :: slot < |store| ==> after[slot] == if Visited(visits, slot) then [] else store[slot]
  }

  /** The spans that decide what becomes of each visited leaf. */
  ghost predicate Decided(engine: Engine, store: seq<Bytes>, visits: seq<Visit>, chosen: seq<seq<Span>>)
    requires engine.Aligned()
  {
    InRange(visits, |store|) &&
    var patterns := PatternSpans(engine, store, visits);
    if engine.model.None? then chosen == patterns
    else
      var texts := LeafTexts(store, visits);
      if visits == [] then chosen == []
      else engine.model.value(texts).Ok? && chosen == MergedSpans(engine, patterns, engine.model.value(texts).value)
  }

  function Flat(audit: seq<seq<Operation>>): seq<Operation> {
    if audit == [] then [] else audit[0] + Flat(audit[1..])
  }

  /** What the model says about each leaf; nothing if there is no model. */
  ghost predicate Answered(engine: Engine, store: seq<Bytes>, visits: seq<Visit>, answers: seq<seq<Span>>) {
    InRange(visits, |store|) && |answers| == |visits| &&
    if engine.model.None? then forall i :: 0 <= i < |answers| ==> answers[i] == []
    else visits != [] ==> engine.model.value(LeafTexts(store, visits)) == Ok(answers)
  }

  /** Every leaf is rewritten by what the patterns and the model found in it, as its part of the audit records. */
  ghost predicate LeavesRewritten(engine: Engine, store: seq<Bytes>, after: seq<Bytes>, visits: seq<Visit>,
                                  answers: seq<seq<Span>>, audit: seq<seq<Operation>>) {
    && Answered(engine, store, visits, answers) && |audit| == |visits| && InRange(visits, |after|)
    && forall i :: 0 <= i < |visits| ==>
         var text := store[visits[i].slot];
         LeafRewritten(text, after[visits[i].slot], audit[i], engine.patterns(text, visits[i].path), answers[i],
                       engine.minScore, engine.config)
  }

  function Audit(store: seq<Bytes>, visits: seq<Visit>, chosen: seq<seq<Span>>, config: Config)
    : (r: seq<seq<Operation>>)
    requires InRange(visits, |store|) && |chosen| == |visits|
    ensures |r| == |visits|
  {
    seq(|visits|, i requires 0 <= i < |visits| => Operations(store[visits[i].slot], chosen[i], config))
  }

  lemma {:induction false} AuditIsAll(store: seq<Bytes>, visits: seq<Visit>, chosen: seq<seq<Span>>, config: Config)
    requires InRange(visits, |store|) && |chosen| == |visits|
    ensures Flat(Audit(store, visits, chosen, config)) == AllOperations(store, visits, chosen, config)
    decreases |visits|
  {
    hide Operations;
    if visits != [] {
      AuditIsAll(store, visits[1..], chosen[1..], config);
      assert Audit(store, visits, chosen, config)[1..] == Audit(store, visits[1..], chosen[1..], config);
    }
  }

  /** The decided spans rewrite each leaf as its patterns and the model's answer ask. */
  lemma DecidedRewrites(engine: Engine, store: seq<Bytes>, after: seq<Bytes>, visits: seq<Visit>,
                        chosen: seq<seq<Span>>) returns (answers: seq<seq<Span>>)
    requires engine.Aligned() && Decided(engine, store, visits, chosen)
    requires Redacted(store, after, visits, chosen, engine.config)
    ensures LeavesRewritten(engine, store, after, visits, answers, Audit(store, visits, chosen, engine.config))
  {
    hide LeafRewritten, Redact, Operations, Merge;
    answers := if engine.model.None? || visits == [] then seq(|visits|, i => [])
               else engine.model.value(LeafTexts(store, visits)).value;
    forall i | 0 <= i < |visits|
      ensures var text := store[visits[i].slot];
              LeafRewritten(text, after[visits[i].slot], Audit(store, visits, chosen, engine.config)[i],
                            engine.patterns(text, visits[i].path), answers[i], engine.minScore, engine.config)
    {
      var text := store[visits[i].slot];
      var patterns := engine.patterns(text, visits[i].path);
      if engine.model.None? {
        PatternsRewrite(text, patterns, engine.minScore, engine.config);
      } else {
        MergeRewrites(text, patterns, answers[i], engine.minScore, engine.config);
      }
    }
  }

  /**
   * Redacts the leaves of `rows` in place. On success every leaf holds its text rewritten by its own spans, which are
   * those its patterns and the model found, every other stored text is unchanged, and the counters count the leaves and
   * the operations; on failure the model failed, the
   * leaves are empty and every other stored text is unchanged.
   */
  method Apply(engine: Engine, rows: seq<Value>, store: array<Bytes>) returns (r: Result<Tally, string>)
    requires engine.Aligned()
    requires InRange(RowVisits(rows), store.Length) && Distinct(RowVisits(rows))
    modifies store
    ensures r.Ok? ==>
              exists chosen :: Decided(engine, old(store[..]), RowVisits(rows), chosen)
                               && Redacted(old(store[..]), store[..], RowVisits(rows), chosen, engine.config)
                               && r.value == CountOperations(Tally(0, map[], |RowVisits(rows)|),
                                                             AllOperations(old(store[..]), RowVisits(rows), chosen,
                                                                           engine.config))
    ensures r.Ok? ==>
              exists answers, audit ::
                && LeavesRewritten(engine, old(store[..]), store[..], RowVisits(rows), answers, audit)
                && r.value == CountOperations(Tally(0, map[], |RowVisits(rows)|), Flat(audit))
    ensures r.Err? ==> engine.model.Some? && RowVisits(rows) != []
                       && engine.model.value(LeafTexts(old(store[..]), RowVisits(rows))) == Err(r.error)
                       && Emptied(old(store[..]), store[..], RowVisits(rows))
  {
    hide RowVisits, Redacted, AllOperations, VisitAll, MergeAll, CountOperations, LeavesRewritten, Audit;
    ghost var visits := RowVisits(rows);
    ghost var texts0 := store[..];
    var progress := new Progress();
    ghost var _ := Walk(engine, rows, store, progress);
    ghost var patterns := PatternSpans(engine, texts0, visits);
    if engine.model.None? {
      InlineOutcome(engine, Start(texts0), visits);
      assert Decided(engine, texts0, visits, patterns);
      AuditIsAll(texts0, visits, patterns, engine.config);
      ghost var answers := DecidedRewrites(engine, texts0, store[..], visits, patterns);
      return Ok(progress.tally);
    }
    DeferOutcome(engine, Start(texts0), visits);
    var deferred := progress.deferred;
    assert |deferred| == |visits|;
    assert Texts(deferred) == LeafTexts(texts0, visits);
    if deferred == [] {
      MergeOutcome(engine, texts0, Now(store, progress), visits, [], [], []);
      NothingMerged(engine, Now(store, progress));
      assert Decided(engine, texts0, visits, []);
      AuditIsAll(texts0, visits, [], engine.config);
      ghost var answers := DecidedRewrites(engine, texts0, store[..], visits, []);
      return Ok(progress.tally);
    }
    var models := engine.model.value(Texts(deferred));
    if models.Err? {
      return Err(models.error);
    }
    ghost var chosen := MergedSpans(engine, patterns, models.value);
    ghost var w := Now(store, progress);
    MergeOutcome(engine, texts0, w, visits, deferred, models.value, chosen);
    MergePass(engine, models.value, store, progress);
    assert Decided(engine, texts0, visits, chosen);
    AuditIsAll(texts0, visits, chosen, engine.config);
    ghost var answers := DecidedRewrites(engine, texts0, store[..], visits, chosen);
    r := Ok(progress.tally);
  }

  lemma NothingMerged(engine: Engine, w: Walked)
    ensures MergeAll(engine, w, [], []) == w
  {
  }
}
