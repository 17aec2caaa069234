/** Recognition as the program runs it: loops with one open word or span, and chunks of padded windows. */
module NerEngine {
  import opened Common
  import opened SpanOverlap
  import opened NerDecoding
  import opened NerBatching
  import OverlapEngine

  // ----- one window -----

  /** Folds the tokens of each word into one tag. */
  method AggregateWords(tags: seq<Tag>, ids: seq<Option<nat>>) returns (out: seq<Tag>)
    requires |tags| == |ids|
    ensures out == Words(tags, ids)
  {
    hide Folded;
    out := [];
    var current: Option<nat> := None;
    ghost var begun := 0;
    NothingFolded(tags, ids);
    for i := 0 to |tags|
      invariant Folded(tags, ids, out, current, begun, i)
    {
      FoldedOpen(tags, ids, out, current, begun, i);
      if ids[i].Some? && current == ids[i] {
        FoldMore(tags, ids, out, current, begun, i);
        var last := out[|out| - 1];
        out := out[..|out| - 1] + [last.(end := tags[i].end, score := Max(last.score, tags[i].score))];
      } else {
        FoldClosed(tags, ids, out, current, begun, i);
        if ids[i].Some? {
          FoldFirst(tags, ids, out, i);
          current := ids[i];
          begun := i;
          out := out + [tags[i]];
        } else {
          FoldOutside(tags, ids, out, i);
          current := None;
          begun := 0;
          out := out + [OUTSIDE];
        }
      }
    }
    FoldClosed(tags, ids, out, current, begun, |tags|);
    AllFolded(tags, ids, out);
  }

  /** `out` holds the words of the first `i` tokens; with a word at hand, its last tag is of the tokens from `begun`. */
  ghost predicate Folded(tags: seq<Tag>, ids: seq<Option<nat>>, out: seq<Tag>, current: Option<nat>, begun: nat, i: nat)
    requires |tags| == |ids|
  {
    && i <= |ids|
    && (current.Some? ==>
          WordSoFar(ids, begun, i, current.value) && out != [] && out[|out| - 1] == WordTag(tags, begun, i))
    && Words(tags, ids)
       == if current.Some? then out[..|out| - 1] + WordsFrom(tags, ids, begun) else out + WordsFrom(tags, ids, i)
  }

  lemma NothingFolded(tags: seq<Tag>, ids: seq<Option<nat>>)
    requires |tags| == |ids|
    ensures Folded(tags, ids, [], None, 0, 0)
  {
    assert [] + WordsFrom(tags, ids, 0) == WordsFrom(tags, ids, 0);
  }

  lemma FoldedOpen(tags: seq<Tag>, ids: seq<Option<nat>>, out: seq<Tag>, current: Option<nat>, begun: nat, i: nat)
    requires |tags| == |ids| && Folded(tags, ids, out, current, begun, i)
    ensures current.Some? ==> out != []
  {
  }

  lemma FoldMore(tags: seq<Tag>, ids: seq<Option<nat>>, out: seq<Tag>, current: Option<nat>, begun: nat, i: nat)
    requires |tags| == |ids| && Folded(tags, ids, out, current, begun, i) && i < |ids|
    requires current.Some? && current == ids[i]
    ensures out != []
    ensures var last := out[|out| - 1];
            Folded(tags, ids, out[..|out| - 1] + [last.(end := tags[i].end, score := Max(last.score, tags[i].score))],
                   current, begun, i + 1)
  {
    hide MaxScore, WordsFrom;
    GrownWord(tags, begun, i);
    ExtendsWord(ids, begun, i);
  }

  /** A word that does not go on is done with. */
  lemma FoldClosed(tags: seq<Tag>, ids: seq<Option<nat>>, out: seq<Tag>, current: Option<nat>, begun: nat, i: nat)
    requires |tags| == |ids| && Folded(tags, ids, out, current, begun, i)
    requires current.Some? && i < |ids| ==> current != ids[i]
    ensures Folded(tags, ids, out, None, 0, i)
  {
    hide MaxScore;
    if current.Some? {
      EndsWord(tags, ids, begun, i, current.value);
      hide WordsFrom;
      assert out == out[..|out| - 1] + [out[|out| - 1]];
    }
  }

  lemma FoldFirst(tags: seq<Tag>, ids: seq<Option<nat>>, out: seq<Tag>, i: nat)
    requires |tags| == |ids| && i < |ids| && ids[i].Some? && Folded(tags, ids, out, None, 0, i)
    ensures Folded(tags, ids, out + [tags[i]], ids[i], i, i + 1)
  {
    hide MaxScore, WordsFrom, WordTag;
    SingleWord(tags, i);
    assert (out + [tags[i]])[..|out|] == out;
  }

  lemma FoldOutside(tags: seq<Tag>, ids: seq<Option<nat>>, out: seq<Tag>, i: nat)
    requires |tags| == |ids| && i < |ids| && ids[i].None? && Folded(tags, ids, out, None, 0, i)
    ensures Folded(tags, ids, out + [OUTSIDE], None, 0, i + 1)
  {
    hide WordEnd, WordTag, Words;
    var rest := WordsFrom(tags, ids, i + 1);
    assert WordsFrom(tags, ids, i) == [OUTSIDE] + rest;
    assert out + ([OUTSIDE] + rest) == (out + [OUTSIDE]) + rest;
  }

  lemma AllFolded(tags: seq<Tag>, ids: seq<Option<nat>>, out: seq<Tag>)
    requires |tags| == |ids| && Folded(tags, ids, out, None, 0, |ids|)
    ensures out == Words(tags, ids)
  {
    assert out + [] == out;
  }

  ghost predicate WordSoFar(ids: seq<Option<nat>>, a: nat, b: nat, id: nat) {
    a < b <= |ids| && forall k :: a <= k < b ==> ids[k] == Some(id)
  }

  lemma SingleWord(tags: seq<Tag>, i: nat)
    requires i < |tags|
    ensures WordTag(tags, i, i + 1) == tags[i]
  {
  }

  lemma GrownWord(tags: seq<Tag>, a: nat, b: nat)
    requires a < b < |tags|
    ensures WordTag(tags, a, b + 1)
            == WordTag(tags, a, b).(end := tags[b].end, score := Max(WordTag(tags, a, b).score, tags[b].score))
  {
  }

  lemma ExtendsWord(ids: seq<Option<nat>>, a: nat, b: nat)
    requires b < |ids| && ids[b].Some? && WordSoFar(ids, a, b, ids[b].value)
    ensures WordSoFar(ids, a, b + 1, ids[b].value)
  {
  }

  /** A word that cannot go on is complete. */
  lemma EndsWord(tags: seq<Tag>, ids: seq<Option<nat>>, a: nat, b: nat, id: nat)
    requires |tags| == |ids| && WordSoFar(ids, a, b, id) && (b < |ids| ==> ids[b] != Some(id))
    ensures WordsFrom(tags, ids, a) == [WordTag(tags, a, b)] + WordsFrom(tags, ids, b)
  {
    assert WordEnd(ids, a + 1, id) == b;
  }

  /** A span being accumulated. */
  datatype OpenSpan = OpenSpan(entity: Entity, start: nat, end: nat, maxScore: real)

  function Accumulated(tags: seq<Tag>, a: nat, b: nat): OpenSpan
    requires a < b <= |tags| && tags[a].entity.Some?
  {
    OpenSpan(tags[a].entity.value, tags[a].start, tags[b - 1].end, MaxScore(tags, a, b))
  }

  method Flush(spans: seq<Span>, open: Option<OpenSpan>, threshold: real, note: nat, ghost tags: seq<Tag>, ghost a: nat,
               ghost b: nat) returns (r: seq<Span>)
    requires open.Some? ==> a < b <= |tags| && tags[a].entity.Some? && open.value == Accumulated(tags, a, b)
    ensures r == if open.Some? then spans + RunSpan(tags, a, b, threshold, note) else spans
  {
    r := spans;
    if open.None? {
      return;
    }
    var o := open.value;
    if o.end <= o.start {
      return;
    }
    if !(0.0 <= o.maxScore <= 1.0) {
      return;
    }
    if o.maxScore >= threshold {
      r := r + [Span(o.entity, o.start, o.end, o.maxScore, note)];
    }
  }

  ghost predicate RunSoFar(tags: seq<Tag>, a: nat, b: nat) {
    a < b <= |tags| && tags[a].entity.Some? && forall k :: a < k < b ==> Continues(tags[k], tags[a].entity.value)
  }

  /** A run that cannot go on is complete. */
  lemma EndsRun(tags: seq<Tag>, a: nat, b: nat, threshold: real, note: nat)
    requires RunSoFar(tags, a, b) && (b < |tags| ==> !Continues(tags[b], tags[a].entity.value))
    ensures SpansFrom(tags, a, threshold, note)
            == RunSpan(tags, a, b, threshold, note) + SpansFrom(tags, b, threshold, note)
  {
    assert RunEnd(tags, a + 1, tags[a].entity.value) == b;
  }

  /** `spans` holds the spans of the runs before the one at hand, which has begun at `begun` and reaches `i`. */
  ghost predicate Merged(tags: seq<Tag>, threshold: real, note: nat, spans: seq<Span>, open: Option<OpenSpan>,
                         begun: nat, i: nat) {
    && i <= |tags|
    && (open.Some? ==> RunSoFar(tags, begun, i) && open.value == Accumulated(tags, begun, i))
    && Spans(tags, threshold, note) == spans + SpansFrom(tags, if open.Some? then begun else i, threshold, note)
  }

  lemma MergeMore(tags: seq<Tag>, threshold: real, note: nat, spans: seq<Span>, open: Option<OpenSpan>, begun: nat,
                  i: nat)
    requires Merged(tags, threshold, note, spans, open, begun, i) && i < |tags|
    requires open.Some? && Continues(tags[i], open.value.entity)
    ensures var o := open.value;
            Merged(tags, threshold, note, spans,
                   Some(o.(end := tags[i].end, maxScore := Max(o.maxScore, tags[i].score))), begun, i + 1)
  {
    hide MaxScore, SpansFrom;
    GrownRun(tags, begun, i);
  }

  /** A run that does not go on leaves its span, if it has one. */
  lemma MergeClosed(tags: seq<Tag>, threshold: real, note: nat, spans: seq<Span>, open: Option<OpenSpan>, begun: nat,
                    i: nat)
    requires Merged(tags, threshold, note, spans, open, begun, i)
    requires open.Some? && i < |tags| ==> !Continues(tags[i], open.value.entity)
    ensures open.Some? ==> begun < i <= |tags| && tags[begun].entity.Some?
    ensures Merged(tags, threshold, note,
                   if open.Some? then spans + RunSpan(tags, begun, i, threshold, note) else spans, None, 0, i)
  {
    hide MaxScore, RunSpan;
    if open.Some? {
      EndsRun(tags, begun, i, threshold, note);
      hide SpansFrom;
      var own, rest := RunSpan(tags, begun, i, threshold, note), SpansFrom(tags, i, threshold, note);
      assert spans + (own + rest) == (spans + own) + rest;
    }
  }

  lemma MergeFirst(tags: seq<Tag>, threshold: real, note: nat, spans: seq<Span>, i: nat)
    requires Merged(tags, threshold, note, spans, None, 0, i) && i < |tags| && tags[i].entity.Some?
    ensures Merged(tags, threshold, note, spans,
                   Some(OpenSpan(tags[i].entity.value, tags[i].start, tags[i].end, tags[i].score)), i, i + 1)
  {
    SingleRun(tags, i);
    hide MaxScore, SpansFrom;
  }

  lemma MergeOutside(tags: seq<Tag>, threshold: real, note: nat, spans: seq<Span>, i: nat)
    requires Merged(tags, threshold, note, spans, None, 0, i) && i < |tags| && tags[i].entity.None?
    ensures Merged(tags, threshold, note, spans, None, 0, i + 1)
  {
  }

  lemma NothingMerged(tags: seq<Tag>, threshold: real, note: nat)
    ensures Merged(tags, threshold, note, [], None, 0, 0)
  {
    assert [] + SpansFrom(tags, 0, threshold, note) == SpansFrom(tags, 0, threshold, note);
  }

  lemma AllMerged(tags: seq<Tag>, threshold: real, note: nat, spans: seq<Span>)
    requires Merged(tags, threshold, note, spans, None, 0, |tags|)
    ensures spans == Spans(tags, threshold, note)
  {
    assert spans + [] == spans;
  }

  lemma Accumulates(tags: seq<Tag>, threshold: real, note: nat, spans: seq<Span>, open: Option<OpenSpan>, begun: nat,
                    i: nat)
    requires Merged(tags, threshold, note, spans, open, begun, i) && open.Some?
    ensures begun < i <= |tags| && tags[begun].entity.Some? && open.value == Accumulated(tags, begun, i)
  {
  }

  /** Merges runs of one entity into spans. */
  method DecodeSpans(tags: seq<Tag>, threshold: real, note: nat) returns (spans: seq<Span>)
    ensures spans == Spans(tags, threshold, note)
  {
    hide Merged, RunSpan, Accumulated;
    spans := [];
    var open: Option<OpenSpan> := None;
    ghost var begun: nat := 0;
    NothingMerged(tags, threshold, note);
    for i := 0 to |tags|
      invariant Merged(tags, threshold, note, spans, open, begun, i)
    {
      var tag := tags[i];
      if open.Some? {
        Accumulates(tags, threshold, note, spans, open, begun, i);
      }
      if tag.entity.Some? {
        var continues := !tag.begin && open.Some? && open.value.entity == tag.entity.value;
        if continues {
          MergeMore(tags, threshold, note, spans, open, begun, i);
          var o := open.value;
          open := Some(o.(end := tag.end, maxScore := Max(o.maxScore, tag.score)));
        } else {
          MergeClosed(tags, threshold, note, spans, open, begun, i);
          spans := Flush(spans, open, threshold, note, tags, begun, i);
          MergeFirst(tags, threshold, note, spans, i);
          open := Some(OpenSpan(tag.entity.value, tag.start, tag.end, tag.score));
          begun := i;
        }
      } else {
        MergeClosed(tags, threshold, note, spans, open, begun, i);
        spans := Flush(spans, open, threshold, note, tags, begun, i);
        MergeOutside(tags, threshold, note, spans, i);
        open := None;
        begun := 0;
      }
    }
    if open.Some? {
      Accumulates(tags, threshold, note, spans, open, begun, |tags|);
    }
    MergeClosed(tags, threshold, note, spans, open, begun, |tags|);
    spans := Flush(spans, open, threshold, note, tags, begun, |tags|);
    AllMerged(tags, threshold, note, spans);
  }

  lemma SingleRun(tags: seq<Tag>, i: nat)
    requires i < |tags| && tags[i].entity.Some?
    ensures Accumulated(tags, i, i + 1) == OpenSpan(tags[i].entity.value, tags[i].start, tags[i].end, tags[i].score)
  {
  }

  lemma GrownRun(tags: seq<Tag>, a: nat, b: nat)
    requires a < b < |tags| && tags[a].entity.Some?
    ensures var o := Accumulated(tags, a, b);
            Accumulated(tags, a, b + 1) == o.(end := tags[b].end, maxScore := Max(o.maxScore, tags[b].score))
  {
  }

  /** The label index of largest logit and its probability. */
  method SoftmaxArgmax(engine: Engine, logits: seq<real>) returns (best: nat, score: real)
    ensures best == if logits == [] then 0 else Best(logits)
    ensures score == if logits == [] then 0.0 else engine.confidence(logits)
  {
    if logits == [] {
      return 0, 0.0;
    }
    best := 0;
    for i := 1 to |logits|
      invariant best < i && forall k :: 0 <= k < i ==>
                  logits[k] <= logits[best] && (k < best ==> logits[k] < logits[best])
    {
      if logits[i] > logits[best] {
        best := i;
      }
    }
    score := engine.confidence(logits);
  }

  method DecodeToken(engine: Engine, logits: seq<real>, enc: Encoding, t: nat) returns (tag: Tag)
    requires enc.Aligned() && t < |enc.ids|
    ensures tag == TagAt(engine, logits, enc, t)
  {
    hide ParseBio, Best;
    if enc.words[t].None? {
      return OUTSIDE;
    }
    var n := |engine.labels|;
    var row := if 0 <= t * n <= (t + 1) * n <= |logits| then logits[t * n..(t + 1) * n] else [];
    var best, score := SoftmaxArgmax(engine, row);
    var (entity, begin) := ParseBio(if best < n then engine.labels[best] else "O");
    if entity.Some? && entity.value !in engine.allowed {
      entity := None;
    }
    tag := Tag(entity, begin, score, enc.offsets[t].0, enc.offsets[t].1);
  }

  method DecodeRow(engine: Engine, logits: seq<real>, enc: Encoding) returns (spans: seq<Span>)
    requires enc.Aligned()
    ensures spans == RowSpans(engine, logits, enc)
  {
    hide TagAt, Words, Spans;
    var tags: seq<Tag> := [];
    for t := 0 to |enc.ids|
      invariant |tags| == t && forall k :: 0 <= k < t ==> tags[k] == TagAt(engine, logits, enc, k)
    {
      var tag := DecodeToken(engine, logits, enc, t);
      tags := tags + [tag];
    }
    assert tags == Tags(engine, logits, enc);
    var words := AggregateWords(tags, enc.words);
    spans := DecodeSpans(words, engine.threshold, engine.note);
  }

  // ----- one chunk -----

  lemma RowFits(r: nat, batch: nat, length: nat)
    requires r < batch
    ensures r * length + length == (r + 1) * length <= batch * length
  {
    var gap: nat := batch - (r + 1);
    assert batch * length == (r + 1) * length + gap * length;
  }

  /** Writes one row into a buffer of padding. */
  method FillRow(buffer: array<int>, base: nat, row: seq<int>)
    requires base + |row| <= buffer.Length
    modifies buffer
    ensures buffer[..] == old(buffer[..base]) + row + old(buffer[base + |row|..])
  {
    for t := 0 to |row|
      invariant buffer[..base] == old(buffer[..base])
      invariant forall k :: 0 <= k < t ==> buffer[base + k] == row[k]
      invariant forall k :: base + t <= k < buffer.Length ==> buffer[k] == old(buffer[k])
    {
      buffer[base + t] := row[t];
    }
    assert buffer[base..base + |row|] == row;
    assert buffer[base + |row|..] == old(buffer[base + |row|..]);
    assert buffer[..] == buffer[..base] + buffer[base..base + |row|] + buffer[base + |row|..];
  }

  function Padding(count: nat, pad: int): seq<int> {
    seq(count, _ => pad)
  }

  lemma FilledRow(done: seq<int>, row: seq<int>, length: nat, left: nat, pad: int)
    requires |row| <= length
    ensures done + row + Padding(length + left, pad)[|row|..] == (done + Padded(row, length, pad)) + Padding(left, pad)
  {
  }

  /** One padded tensor: rows at multiples of `length`, in a buffer of padding. */
  method Stacked(rows: seq<seq<int>>, length: nat, pad: int) returns (data: seq<int>)
    requires forall r :: 0 <= r < |rows| ==> |rows[r]| <= length
    ensures data == Stack(rows, length, pad)
  {
    hide Padding, Padded;
    var batch := |rows|;
    var buffer := new int[batch * length](_ => pad);
    assert buffer[..] == [] + Padding(batch * length, pad) by { AllPadding(buffer[..], pad); }
    for r := 0 to batch
      invariant r * length <= batch * length == buffer.Length
      invariant |Stack(rows[..r], length, pad)| == r * length
      invariant buffer[..] == Stack(rows[..r], length, pad) + Padding(batch * length - r * length, pad)
    {
      RowFits(r, batch, length);
      StackRow(buffer, rows, r, length, pad);
    }
    assert rows[..batch] == rows;
    PaddingLength(0, pad);
    data := buffer[..];
    assert data == Stack(rows, length, pad) + [];
  }

  /** Writes row `r` behind the rows before it. */
  method StackRow(buffer: array<int>, rows: seq<seq<int>>, r: nat, length: nat, pad: int)
    requires r < |rows| && |rows[r]| <= length && (r + 1) * length <= |rows| * length == buffer.Length
    requires |Stack(rows[..r], length, pad)| == r * length
    requires buffer[..] == Stack(rows[..r], length, pad) + Padding(|rows| * length - r * length, pad)
    modifies buffer
    ensures |Stack(rows[..r + 1], length, pad)| == (r + 1) * length
    ensures buffer[..] == Stack(rows[..r + 1], length, pad) + Padding(|rows| * length - (r + 1) * length, pad)
  {
    hide Padding, Padded;
    ghost var done, left := Stack(rows[..r], length, pad), |rows| * length - (r + 1) * length;
    PaddingLength(length + left, pad);
    PaddedLength(rows[r], length, pad);
    ghost var before := buffer[..];
    assert before[..r * length] == done && before[r * length..] == Padding(length + left, pad);
    FillRow(buffer, r * length, rows[r]);
    assert before[r * length + |rows[r]|..] == Padding(length + left, pad)[|rows[r]|..];
    FilledRow(done, rows[r], length, left, pad);
    assert rows[..r + 1][..r] == rows[..r];
  }

  lemma AllPadding(data: seq<int>, pad: int)
    requires forall k :: 0 <= k < |data| ==> data[k] == pad
    ensures data == [] + Padding(|data|, pad)
  {
  }

  lemma PaddingLength(count: nat, pad: int)
    ensures |Padding(count, pad)| == count
  {
  }

  lemma PaddedLength(row: seq<int>, length: nat, pad: int)
    requires |row| <= length
    ensures |Padded(row, length, pad)| == length
  {
  }

  method MaxLength(chunk: seq<Window>) returns (length: nat)
    ensures length <= MAX_SEQ_LEN
    ensures forall i :: 0 <= i < |chunk| ==> RealLength(chunk[i].enc) <= length
    ensures (exists i :: 0 <= i < |chunk| && chunk[i].enc.ids != []) ==> length > 0
  {
    length := 0;
    for i := 0 to |chunk|
      invariant forall k :: 0 <= k < i ==> |chunk[k].enc.ids| <= length
    {
      if |chunk[i].enc.ids| > length {
        length := |chunk[i].enc.ids|;
      }
    }
    if length > MAX_SEQ_LEN {
      length := MAX_SEQ_LEN;
    }
  }

  function RealRows(chunk: seq<Window>): (r: seq<Row>)
    requires forall w :: w in chunk ==> w.enc.Aligned()
    ensures |r| == |chunk|
  {
    seq(|chunk|, i requires 0 <= i < |chunk| => assert chunk[i] in chunk; RowOf(chunk[i].enc))
  }

  /** The tensors of a chunk, each row cut to the real length. */
  method BuildTensors(engine: Engine, chunk: seq<Window>, length: nat) returns (tensors: Tensors)
    requires forall w :: w in chunk ==> w.enc.Aligned()
    requires forall i :: 0 <= i < |chunk| ==> RealLength(chunk[i].enc) <= length
    ensures tensors == Batched(engine, RealRows(chunk), length)
  {
    var rows := RealRows(chunk);
    var ids := Stacked(Column(rows, (r: Row) => r.ids), length, engine.padId);
    var attention := Stacked(Column(rows, (r: Row) => r.mask), length, 0);
    var types: seq<int> := [];
    if engine.needsTypes {
      types := Stacked(Column(rows, (r: Row) => r.types), length, 0);
    }
    tensors := Tensors(|chunk|, length, ids, attention, types);
  }

  /** Runs one chunk and adds each window's spans to its text's. */
  method RunChunk(engine: Engine, chunk: seq<Window>, results: array<seq<Span>>, ghost local: Row -> seq<real>)
    returns (r: Result<(), string>)
    requires RowLocal(engine, local) && 0 < |chunk| <= NER_BATCH_SIZE && Usable(chunk, results.Length)
    modifies results
    ensures r.Ok? ==>
              forall i :: 0 <= i < results.Length ==> results[i] == old(results[i]) + Routed(engine, local, chunk, i)
    ensures r.Err? ==> SessionFails(engine, r.error)
  {
    hide RowLocal, Batched, Routed;
    var length := MaxLength(chunk);
    assert chunk[0] in chunk;
    var tensors := BuildTensors(engine, chunk, length);
    ChunkIsLocal(engine, local, chunk, length);
    var output := engine.session(tensors);
    if output.Err? {
      return Err(output.error);
    }
    if output.value.None? {
      return Ok(());
    }
    DecodeChunk(engine, chunk, length, output.value.value, results, local);
    r := Ok(());
  }

  /** The slice of each window's real tokens, decoded into its text's spans. */
  method DecodeChunk(engine: Engine, chunk: seq<Window>, length: nat, logits: seq<real>, results: array<seq<Span>>,
                     ghost local: Row -> seq<real>)
    requires Usable(chunk, results.Length)
    requires forall k :: 0 <= k < |chunk| ==>
               Slice(logits, k * (length * |engine.labels|), |RealRows(chunk)[k].ids| * |engine.labels|)
               == Some(local(RealRows(chunk)[k]))
    modifies results
    ensures forall i :: 0 <= i < results.Length ==> results[i] == old(results[i]) + Routed(engine, local, chunk, i)
  {
    var stride := length * |engine.labels|;
    for k := 0 to |chunk|
      invariant forall i :: 0 <= i < results.Length ==>
                  results[i] == old(results[i]) + Routed(engine, local, chunk[..k], i)
    {
      hide RowSpans, Slice, Routed, WindowSpans;
      var w := chunk[k];
      assert w in chunk;
      assert RealRows(chunk)[k] == RowOf(w.enc);
      WindowIsRow(engine, local, w.enc);
      var slice := Slice(logits, k * stride, RealLength(w.enc) * |engine.labels|);
      if slice.Some? {
        var spans := DecodeRow(engine, slice.value, w.enc);
        RoutedStep(engine, local, chunk, k);
        results[w.src] := results[w.src] + spans;
      }
    }
    assert chunk[..|chunk|] == chunk;
  }

  lemma ChunkIsLocal(engine: Engine, local: Row -> seq<real>, chunk: seq<Window>, length: nat)
    requires RowLocal(engine, local) && 0 < |chunk| <= NER_BATCH_SIZE && 0 < length <= MAX_SEQ_LEN
    requires forall w :: w in chunk ==> w.enc.Aligned()
    requires forall i :: 0 <= i < |chunk| ==> RealLength(chunk[i].enc) <= length
    ensures RowsLocal(engine, local, RealRows(chunk), length)
  {
    assert Fits(RealRows(chunk), length) by {
      forall i | 0 <= i < |chunk|
        ensures |RealRows(chunk)[i].ids| <= length
                && |RealRows(chunk)[i].mask| == |RealRows(chunk)[i].types| == |RealRows(chunk)[i].ids|
      {
        assert chunk[i] in chunk;
      }
    }
  }

  lemma WindowIsRow(engine: Engine, local: Row -> seq<real>, enc: Encoding)
    requires enc.Aligned()
    ensures WindowSpans(engine, local, enc) == RowSpans(engine, local(RowOf(enc)), enc)
  {
  }

  lemma RoutedStep(engine: Engine, local: Row -> seq<real>, chunk: seq<Window>, k: nat)
    requires k < |chunk| && forall w :: w in chunk ==> w.enc.Aligned()
    ensures forall i: nat :: Routed(engine, local, chunk[..k + 1], i)
                             == Routed(engine, local, chunk[..k], i)
                                + if chunk[k].src == i then WindowSpans(engine, local, chunk[k].enc) else []
  {
    assert chunk[..k + 1][..k] == chunk[..k];
  }

  // ----- the batch -----

  /** The windows of one text, behind those of the texts before it. */
  method PushText(engine: Engine, windows: seq<Window>, text: string, src: nat) returns (r: Result<seq<Window>, string>)
    requires engine.Aligned() && engine.labels != []
    ensures r.Ok? ==> r.value == windows + Labelled(Encodings(engine, text), src) && !Fails(engine, text)
    ensures r.Err? ==> Fails(engine, text) && engine.tokenize(text) == Err(r.error)
  {
    hide WithTokens, Labelled;
    if text == "" {
      NothingLabelled(src);
      assert windows + [] == windows;
      return Ok(windows);
    }
    var tokenized := engine.tokenize(text);
    if tokenized.Err? {
      return Err(tokenized.error);
    }
    var overflow, main := tokenized.value.overflow, tokenized.value.main;
    LabelledConcat(WithTokens(overflow), WithTokens([main]), src);
    assert windows + (Labelled(WithTokens(overflow), src) + Labelled(WithTokens([main]), src))
        == windows + Labelled(WithTokens(overflow), src) + Labelled(WithTokens([main]), src);
    var pushed := PushWindows(windows, overflow, src);
    pushed := PushWindows(pushed, [main], src);
    r := Ok(pushed);
  }

  /** Tokenizes every text, or stops at the first that fails. */
  method CollectWindows(engine: Engine, texts: seq<string>) returns (r: Result<seq<Window>, string>)
    requires engine.Aligned() && engine.labels != []
    ensures r.Ok? ==> r.value == Windows(engine, texts) && forall k :: 0 <= k < |texts| ==> !Fails(engine, texts[k])
    ensures r.Err? ==>
              exists k :: 0 <= k < |texts| && Fails(engine, texts[k]) && engine.tokenize(texts[k]) == Err(r.error)
  {
    hide Encodings, Labelled, Fails;
    var windows: seq<Window> := [];
    for i := 0 to |texts|
      invariant windows == Windows(engine, texts[..i])
      invariant forall k :: 0 <= k < i ==> !Fails(engine, texts[k])
    {
      MoreWindows(engine, texts, i);
      windows :- PushText(engine, windows, texts[i], i);
    }
    assert texts[..|texts|] == texts;
    r := Ok(windows);
  }

  lemma MoreWindows(engine: Engine, texts: seq<string>, i: nat)
    requires engine.Aligned() && i < |texts|
    ensures Windows(engine, texts[..i + 1]) == Windows(engine, texts[..i]) + Labelled(Encodings(engine, texts[i]), i)
  {
    assert texts[..i + 1][..i] == texts[..i];
  }

  lemma NothingLabelled(src: nat)
    ensures Labelled([], src) == []
  {
  }

  /** Runs all windows, a bounded number at a time. */
  method RunChunks(engine: Engine, windows: seq<Window>, results: array<seq<Span>>, ghost local: Row -> seq<real>)
    returns (r: Result<(), string>)
    requires RowLocal(engine, local) && Usable(windows, results.Length)
    requires forall i :: 0 <= i < results.Length ==> results[i] == []
    modifies results
    ensures r.Ok? ==> forall i :: 0 <= i < results.Length ==> results[i] == Routed(engine, local, windows, i)
    ensures r.Err? ==> SessionFails(engine, r.error)
  {
    hide RowLocal;
    var at := 0;
    while at < |windows|
      invariant at <= |windows|
      invariant forall i :: 0 <= i < results.Length ==> results[i] == Routed(engine, local, windows[..at], i)
    {
      hide Routed;
      var next := if at + NER_BATCH_SIZE <= |windows| then at + NER_BATCH_SIZE else |windows|;
      ChunkAdds(engine, local, windows, at, next);
      var ran := RunChunk(engine, windows[at..next], results, local);
      if ran.Err? {
        return ran;
      }
      at := next;
    }
    assert windows[..at] == windows;
    r := Ok(());
  }

  /** Resolves overlaps within each text's spans, in place. */
  method ResolveEach(results: array<seq<Span>>)
    modifies results
    ensures forall k :: 0 <= k < results.Length ==> results[k] == Resolve(old(results[k]))
  {
    hide Resolve;
    for i := 0 to results.Length
      invariant forall k :: 0 <= k < i ==> results[k] == Resolve(old(results[k]))
      invariant forall k :: i <= k < results.Length ==> results[k] == old(results[k])
    {
      if results[i] != [] {
        results[i] := OverlapEngine.Resolve(results[i]);
      } else {
        ResolveNothing();
      }
    }
  }

  method AnalyzeBatch(engine: Engine, texts: seq<string>, ghost local: Row -> seq<real>)
    returns (r: Result<seq<seq<Span>>, string>)
    requires engine.Aligned() && RowLocal(engine, local)
    ensures EachAlone(engine, local, texts, r)
  {
    hide RowLocal, Windows, Encodings, AllSpans, Routed, Resolve;
    var results := new seq<Span>[|texts|](_ => []);
    if engine.labels == [] {
      return Ok(results[..]);
    }
    var windows := CollectWindows(engine, texts);
    if windows.Err? {
      return Err(windows.error);
    }
    WindowsUsable(engine, local, texts);
    var ran := RunChunks(engine, windows.value, results, local);
    if ran.Err? {
      return Err(ran.error);
    }
    ResolveEach(results);
    forall i | 0 <= i < |texts| ensures results[i] == TextSpans(engine, local, texts[i]) {
      WindowsRoute(engine, local, texts, i);
    }
    r := Ok(results[..]);
  }

  lemma ResolveNothing()
    ensures Resolve([]) == []
  {
  }

  method PushWindows(windows: seq<Window>, encodings: seq<Encoding>, src: nat) returns (r: seq<Window>)
    ensures r == windows + Labelled(WithTokens(encodings), src)
  {
    r := windows;
    for k := 0 to |encodings|
      invariant r == windows + Labelled(WithTokens(encodings[..k]), src)
    {
      assert encodings[..k + 1][..k] == encodings[..k];
      if encodings[k].ids != [] {
        LabelledConcat(WithTokens(encodings[..k]), [encodings[k]], src);
        assert Labelled([encodings[k]], src) == [Window(src, encodings[k])];
        r := r + [Window(src, encodings[k])];
      }
    }
    assert encodings[..|encodings|] == encodings;
  }

  lemma LabelledConcat(a: seq<Encoding>, b: seq<Encoding>, src: nat)
    ensures Labelled(a + b, src) == Labelled(a, src) + Labelled(b, src)
  {
  }

  lemma WindowsUsable(engine: Engine, local: Row -> seq<real>, texts: seq<string>)
    requires engine.Aligned()
    ensures Usable(Windows(engine, texts), |texts|)
  {
    WindowsRoute(engine, local, texts, 0);
  }

  lemma ChunkAdds(engine: Engine, local: Row -> seq<real>, windows: seq<Window>, at: nat, next: nat)
    requires at <= next <= |windows| && forall w :: w in windows ==> w.enc.Aligned()
    ensures forall w :: w in windows[at..next] ==> w.enc.Aligned()
    ensures forall i: nat :: Routed(engine, local, windows[..next], i)
                             == Routed(engine, local, windows[..at], i) + Routed(engine, local, windows[at..next], i)
  {
    assert windows[..next] == windows[..at] + windows[at..next];
    forall i: nat ensures Routed(engine, local, windows[..next], i)
                          == Routed(engine, local, windows[..at], i) + Routed(engine, local, windows[at..next], i)
    {
      RoutedConcat(engine, local, windows[..at], windows[at..next], i);
    }
  }

  /**
   * Neighbours and batch sizes do not show: what a text gives as a batch of one is what it gives in any batch that
   * succeeds, unless the model itself fails this time.
   */
  method Analyze(engine: Engine, text: string, ghost local: Row -> seq<real>) returns (r: Result<seq<Span>, string>)
    requires engine.Aligned() && RowLocal(engine, local)
    ensures forall texts, together ::
              EachAlone(engine, local, texts, Ok(together)) ==>
                forall i :: 0 <= i < |texts| && texts[i] == text ==>
                              if r.Ok? then together[i] == r.value else SessionFails(engine, r.error)
    ensures r.Ok? ==> !Fails(engine, text) && r.value == TextSpans(engine, local, text)
    ensures r.Err? ==> SessionFails(engine, r.error) || (Fails(engine, text) && engine.tokenize(text) == Err(r.error))
  {
    var batch :- AnalyzeBatch(engine, [text], local);
    assert [text][0] == text;
    r := Ok(batch[0]);
  }
}
