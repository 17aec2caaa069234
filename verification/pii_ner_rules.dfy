/** From scored token labels to entity spans. */
module NerDecoding {
  import opened Common
  import opened SpanOverlap

  const PERSON: Entity := 0
  const LOCATION: Entity := 1
  const ORGANIZATION: Entity := 2
  const NRP: Entity := 3
  const FACILITY: Entity := 4

  /** One token's label with its offsets and confidence. */
  datatype Tag = Tag(entity: Option<Entity>, begin: bool, score: real, start: nat, end: nat)

  /** A label that closes any open span. */
  const OUTSIDE := Tag(None, false, 0.0, 0, 0)

  function EntityForCore(core: string): Option<Entity> {
    if core in ["PER", "PERSON"] then Some(PERSON)
    else if core in ["LOC", "GPE"] then Some(LOCATION)
    else if core in ["ORG", "ORGANIZATION"] then Some(ORGANIZATION)
    else if core in ["NORP", "NRP"] then Some(NRP)
    else if core == "FAC" then Some(FACILITY)
    else None
  }

  function ParseBio(raw: string): (Option<Entity>, bool) {
    if "B-" <= raw then (EntityForCore(raw[2..]), true)
    else if "I-" <= raw then (EntityForCore(raw[2..]), false)
    else (None, false)
  }

  function Max(x: real, y: real): real {
    if x < y then y else x
  }

  /** The largest score of the tags from `a` up to `b`. */
  function MaxScore(tags: seq<Tag>, a: nat, b: nat): (m: real)
    requires a < b <= |tags|
    ensures exists k :: a <= k < b && tags[k].score == m
    ensures forall k :: a <= k < b ==> tags[k].score <= m
    decreases b
  {
    if b == a + 1 then tags[a].score else Max(MaxScore(tags, a, b - 1), tags[b - 1].score)
  }

  // ----- words -----

  /** Where the run of tokens of word `id` that reaches `k` ends. */
  function WordEnd(ids: seq<Option<nat>>, k: nat, id: nat): (r: nat)
    requires k <= |ids|
    ensures k <= r <= |ids| && (forall i :: k <= i < r ==> ids[i] == Some(id)) && (r < |ids| ==> ids[r] != Some(id))
    decreases |ids| - k
  {
    if k < |ids| && ids[k] == Some(id) then WordEnd(ids, k + 1, id) else k
  }

  /** One tag for tokens `a` up to `b`: the first one's label, the largest score, the whole extent. */
  function WordTag(tags: seq<Tag>, a: nat, b: nat): Tag
    requires a < b <= |tags|
  {
    Tag(tags[a].entity, tags[a].begin, MaxScore(tags, a, b), tags[a].start, tags[b - 1].end)
  }

  function WordsFrom(tags: seq<Tag>, ids: seq<Option<nat>>, i: nat): seq<Tag>
    requires i <= |ids| && |tags| == |ids|
    decreases |ids| - i
  {
    if i == |ids| then []
    else if ids[i].None? then [OUTSIDE] + WordsFrom(tags, ids, i + 1)
    else
      var end := WordEnd(ids, i + 1, ids[i].value);
      [WordTag(tags, i, end)] + WordsFrom(tags, ids, end)
  }

  /** One tag per word, and one that closes spans per token outside any word. */
  function Words(tags: seq<Tag>, ids: seq<Option<nat>>): seq<Tag>
    requires |tags| == |ids|
  {
    WordsFrom(tags, ids, 0)
  }

  // ----- spans -----

  predicate Continues(tag: Tag, entity: Entity) {
    tag.entity == Some(entity) && !tag.begin
  }

  function RunEnd(tags: seq<Tag>, k: nat, entity: Entity): (r: nat)
    requires k <= |tags|
    ensures k <= r <= |tags| && (forall i :: k <= i < r ==> Continues(tags[i], entity))
    ensures r < |tags| ==> !Continues(tags[r], entity)
    decreases |tags| - k
  {
    if k < |tags| && Continues(tags[k], entity) then RunEnd(tags, k + 1, entity) else k
  }

  /** The span of the tags from `a` up to `b`, if it is not empty and its largest score meets the threshold. */
  function RunSpan(tags: seq<Tag>, a: nat, b: nat, threshold: real, note: nat): seq<Span>
    requires a < b <= |tags| && tags[a].entity.Some?
  {
    var score := MaxScore(tags, a, b);
    if tags[b - 1].end <= tags[a].start || !(0.0 <= score <= 1.0) || score < threshold then []
    else [Span(tags[a].entity.value, tags[a].start, tags[b - 1].end, score, note)]
  }

  function SpansFrom(tags: seq<Tag>, i: nat, threshold: real, note: nat): seq<Span>
    requires i <= |tags|
    decreases |tags| - i
  {
    if i == |tags| then []
    else if tags[i].entity.None? then SpansFrom(tags, i + 1, threshold, note)
    else
      var end := RunEnd(tags, i + 1, tags[i].entity.value);
      RunSpan(tags, i, end, threshold, note) + SpansFrom(tags, end, threshold, note)
  }

  function Spans(tags: seq<Tag>, threshold: real, note: nat): seq<Span> {
    SpansFrom(tags, 0, threshold, note)
  }

  // ----- what the spans are -----

  /** The tag at `i` does not go on with the entity before it. */
  predicate Boundary(tags: seq<Tag>, i: nat) {
    i == 0 || i >= |tags| || tags[i].entity.None? || tags[i].begin || tags[i - 1].entity != tags[i].entity
  }

  /** Tags `a` up to `b` are one entity, begun at `a` only, and neither neighbour belongs to it. */
  predicate MaximalRun(tags: seq<Tag>, a: nat, b: nat) {
    && a < b <= |tags| && tags[a].entity.Some? && Boundary(tags, a)
    && (forall k :: a < k < b ==> Continues(tags[k], tags[a].entity.value))
    && (b < |tags| ==> !Continues(tags[b], tags[a].entity.value))
  }

  /** `span` is the span of the maximal run from `a` to `b`, scored by the maximum, at or above the threshold. */
  ghost predicate SpanOfRun(tags: seq<Tag>, a: nat, b: nat, threshold: real, span: Span) {
    && MaximalRun(tags, a, b)
    && span.entity == tags[a].entity.value && span.start == tags[a].start && span.end == tags[b - 1].end
    && span.start < span.end && threshold <= span.score && 0.0 <= span.score <= 1.0
    && (exists k :: a <= k < b && tags[k].score == span.score)
    && (forall k :: a <= k < b ==> tags[k].score <= span.score)
  }

  ghost predicate FromRun(tags: seq<Tag>, from: nat, threshold: real, span: Span) {
    exists a, b :: from <= a && SpanOfRun(tags, a, b, threshold, span)
  }

  lemma RunSpanMeans(tags: seq<Tag>, a: nat, b: nat, threshold: real, note: nat, span: Span)
    requires MaximalRun(tags, a, b)
    ensures span in RunSpan(tags, a, b, threshold, note)
            <==> SpanOfRun(tags, a, b, threshold, span) && span.note == note
  {
    var score := MaxScore(tags, a, b);
    if SpanOfRun(tags, a, b, threshold, span) {
      assert span.score == score;
    }
  }

  /** A run that starts at `a` ends at only one place. */
  lemma RunIsUnique(tags: seq<Tag>, a: nat, b: nat)
    requires MaximalRun(tags, a, b)
    ensures b == RunEnd(tags, a + 1, tags[a].entity.value)
  {
  }

  /** No maximal run starts strictly inside another. */
  lemma NoneStartsInside(tags: seq<Tag>, a: nat, b: nat, c: nat)
    requires MaximalRun(tags, a, b) && a < c < b
    ensures !Boundary(tags, c)
  {
    assert Continues(tags[c], tags[a].entity.value);
    assert c - 1 == a || Continues(tags[c - 1], tags[a].entity.value);
  }

  /** The spans decoded are exactly those of the maximal runs. */
  lemma {:induction false} SpansAreRuns(tags: seq<Tag>, i: nat, threshold: real, note: nat, span: Span)
    requires i <= |tags| && Boundary(tags, i)
    ensures span in SpansFrom(tags, i, threshold, note) <==> FromRun(tags, i, threshold, span) && span.note == note
    decreases |tags| - i
  {
    if i < |tags| {
      if tags[i].entity.None? {
        SpansAreRuns(tags, i + 1, threshold, note, span);
      } else {
        var end := RunEnd(tags, i + 1, tags[i].entity.value);
        assert MaximalRun(tags, i, end);
        SpansAreRuns(tags, end, threshold, note, span);
        RunSpanMeans(tags, i, end, threshold, note, span);
        assert FromRun(tags, i, threshold, span)
               <==> SpanOfRun(tags, i, end, threshold, span) || FromRun(tags, end, threshold, span) by {
          RunsSplit(tags, i, end, threshold, span);
        }
      }
    }
  }

  lemma RunsSplit(tags: seq<Tag>, i: nat, end: nat, threshold: real, span: Span)
    requires MaximalRun(tags, i, end)
    ensures FromRun(tags, i, threshold, span)
            <==> SpanOfRun(tags, i, end, threshold, span) || FromRun(tags, end, threshold, span)
  {
    if FromRun(tags, i, threshold, span) {
      var a: nat, b: nat :| i <= a && SpanOfRun(tags, a, b, threshold, span);
      if i < a < end {
        NoneStartsInside(tags, i, end, a);
      } else if a == i {
        RunIsUnique(tags, i, b);
        RunIsUnique(tags, i, end);
      }
    }
  }

  // ----- order -----

  /** Entities follow each other without overlapping. */
  predicate Ordered(tags: seq<Tag>) {
    forall i, j :: 0 <= i < j < |tags| && tags[i].entity.Some? && tags[j].entity.Some? ==> tags[i].end <= tags[j].start
  }

  predicate OrderedSpans(spans: seq<Span>) {
    forall i, j :: 0 <= i < j < |spans| ==> spans[i].end <= spans[j].start
  }

  lemma {:induction false} SpansOrdered(tags: seq<Tag>, i: nat, threshold: real, note: nat)
    requires i <= |tags| && Boundary(tags, i) && Ordered(tags)
    ensures OrderedSpans(SpansFrom(tags, i, threshold, note))
    decreases |tags| - i
  {
    if i < |tags| {
      if tags[i].entity.None? {
        SpansOrdered(tags, i + 1, threshold, note);
      } else {
        var end := RunEnd(tags, i + 1, tags[i].entity.value);
        assert MaximalRun(tags, i, end);
        SpansOrdered(tags, end, threshold, note);
        var rest := SpansFrom(tags, end, threshold, note);
        forall span | span in rest ensures tags[end - 1].end <= span.start {
          StartsBehind(tags, i, end, threshold, note, span);
        }
      }
    }
  }

  /** Every later span starts behind a run. */
  lemma StartsBehind(tags: seq<Tag>, i: nat, end: nat, threshold: real, note: nat, span: Span)
    requires MaximalRun(tags, i, end) && Boundary(tags, end) && Ordered(tags)
    requires span in SpansFrom(tags, end, threshold, note)
    ensures tags[end - 1].end <= span.start
  {
    hide SpansFrom;
    SpansAreRuns(tags, end, threshold, note, span);
    var a: nat, b: nat :| end <= a && SpanOfRun(tags, a, b, threshold, span);
    assert end - 1 == i || Continues(tags[end - 1], tags[i].entity.value);
  }

  /** Tokens of words follow each other without overlapping. */
  predicate OrderedTokens(tags: seq<Tag>, ids: seq<Option<nat>>) {
    && |tags| == |ids|
    && (forall i, j :: 0 <= i < j < |tags| && ids[i].Some? && ids[j].Some? ==> tags[i].end <= tags[j].start)
    && (forall i :: 0 <= i < |tags| && ids[i].Some? ==> tags[i].start <= tags[i].end)
  }

  /** Every word from token `i` on starts where one of its tokens does. */
  lemma {:induction false} WordsStartAtTokens(tags: seq<Tag>, ids: seq<Option<nat>>, i: nat, w: Tag)
    requires i <= |ids| == |tags| && w in WordsFrom(tags, ids, i) && w.entity.Some?
    ensures exists k :: i <= k < |ids| && ids[k].Some? && w.start == tags[k].start
    decreases |ids| - i
  {
    if ids[i].None? {
      WordsStartAtTokens(tags, ids, i + 1, w);
    } else {
      var end := WordEnd(ids, i + 1, ids[i].value);
      if w != WordTag(tags, i, end) {
        WordsStartAtTokens(tags, ids, end, w);
      }
    }
  }

  lemma {:induction false} WordsOrdered(tags: seq<Tag>, ids: seq<Option<nat>>, i: nat)
    requires i <= |ids| && OrderedTokens(tags, ids)
    ensures Ordered(WordsFrom(tags, ids, i))
    decreases |ids| - i
  {
    if i < |ids| {
      if ids[i].None? {
        WordsOrdered(tags, ids, i + 1);
      } else {
        var end := WordEnd(ids, i + 1, ids[i].value);
        WordsOrdered(tags, ids, end);
        var rest := WordsFrom(tags, ids, end);
        forall w | w in rest && w.entity.Some? ensures tags[end - 1].end <= w.start {
          WordsStartAtTokens(tags, ids, end, w);
          assert ids[end - 1].Some?;
        }
      }
    }
  }

  /** With ordered tokens a window decodes to ordered, disjoint, non-empty spans. */
  lemma WindowSpansAreOrdered(tags: seq<Tag>, ids: seq<Option<nat>>, threshold: real, note: nat)
    requires OrderedTokens(tags, ids)
    ensures OrderedSpans(Spans(Words(tags, ids), threshold, note))
    ensures forall s :: s in Spans(Words(tags, ids), threshold, note) ==> s.start < s.end
  {
    WordsOrdered(tags, ids, 0);
    var words := Words(tags, ids);
    SpansOrdered(words, 0, threshold, note);
    forall s | s in Spans(words, threshold, note) ensures s.start < s.end {
      SpansAreRuns(words, 0, threshold, note, s);
    }
  }
}
