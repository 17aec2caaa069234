/** What batched recognition is to compute: every text on its own. */
module NerBatching {
  import opened Common
  import opened SpanOverlap
  import opened NerDecoding

  const NER_BATCH_SIZE: nat := 16
  const MAX_SEQ_LEN: nat := 512

  /** One tokenized window of a text. */
  datatype Encoding = Encoding(ids: seq<int>, mask: seq<int>, types: seq<int>, offsets: seq<(nat, nat)>,
                               words: seq<Option<nat>>) {
    predicate Aligned() {
      |mask| == |ids| && |types| == |ids| && |offsets| == |ids| && |words| == |ids|
    }
  }

  datatype Tokenized = Tokenized(main: Encoding, overflow: seq<Encoding>)

  /** What the model is given: `batch` rows of `length` tokens each, row after row. */
  datatype Tensors = Tensors(batch: nat, length: nat, ids: seq<int>, attention: seq<int>, types: seq<int>)

  /** A loaded model; the tokenizer, the session and the softmax are unseen. */
  datatype Engine = Engine(tokenize: string -> Result<Tokenized, string>,
                           session: Tensors -> Result<Option<seq<real>>, string>,
                           confidence: seq<real> -> real,
                           labels: seq<string>,
                           threshold: real,
                           allowed: seq<Entity>,
                           needsTypes: bool,
                           padId: int,
                           note: nat) {
    ghost predicate Aligned() {
      forall text: string :: tokenize(text).Ok? ==>
        tokenize(text).value.main.Aligned() && forall e :: e in tokenize(text).value.overflow ==> e.Aligned()
    }
  }

  /** A window and the index of its text. */
  datatype Window = Window(src: nat, enc: Encoding)

  // ----- decoding one row -----

  /** The first of the largest logits. */
  function Best(logits: seq<real>): (r: nat)
    requires logits != []
    ensures r < |logits|
    ensures forall k :: 0 <= k < |logits| ==> logits[k] <= logits[r] && (k < r ==> logits[k] < logits[r])
  {
    if |logits| == 1 then 0
    else
      var before := Best(logits[..|logits| - 1]);
      assert forall k :: 0 <= k < |logits| - 1 ==> logits[..|logits| - 1][k] == logits[k];
      if logits[|logits| - 1] > logits[before] then |logits| - 1 else before
  }

  function TagAt(engine: Engine, logits: seq<real>, enc: Encoding, t: nat): Tag
    requires enc.Aligned() && t < |enc.ids|
  {
    if enc.words[t].None? then OUTSIDE
    else
      var n := |engine.labels|;
      var row := if 0 <= t * n <= (t + 1) * n <= |logits| then logits[t * n..(t + 1) * n] else [];
      var best := if row == [] then 0 else Best(row);
      var score := if row == [] then 0.0 else engine.confidence(row);
      var (entity, begin) := ParseBio(if best < |engine.labels| then engine.labels[best] else "O");
      Tag(if entity.Some? && entity.value !in engine.allowed then None else entity, begin, score,
          enc.offsets[t].0, enc.offsets[t].1)
  }

  function Tags(engine: Engine, logits: seq<real>, enc: Encoding): (r: seq<Tag>)
    requires enc.Aligned()
    ensures |r| == |enc.ids|
  {
    seq(|enc.ids|, t requires 0 <= t < |enc.ids| => TagAt(engine, logits, enc, t))
  }

  function RowSpans(engine: Engine, logits: seq<real>, enc: Encoding): seq<Span>
    requires enc.Aligned()
  {
    Spans(Words(Tags(engine, logits, enc), enc.words), engine.threshold, engine.note)
  }

  /** The word tokens of a window are in order and do not overlap. */
  predicate OrderedOffsets(enc: Encoding) {
    && enc.Aligned()
    && (forall i, j :: 0 <= i < j < |enc.ids| && enc.words[i].Some? && enc.words[j].Some? ==>
          enc.offsets[i].1 <= enc.offsets[j].0)
    && (forall i :: 0 <= i < |enc.ids| && enc.words[i].Some? ==> enc.offsets[i].0 <= enc.offsets[i].1)
  }

  /** Whatever the logits, a window with ordered tokens gives ordered, disjoint spans of allowed entities. */
  lemma RowSpansAreOrdered(engine: Engine, logits: seq<real>, enc: Encoding)
    requires OrderedOffsets(enc)
    ensures OrderedSpans(RowSpans(engine, logits, enc))
    ensures forall s :: s in RowSpans(engine, logits, enc) ==>
              s.start < s.end && s.entity in engine.allowed && engine.threshold <= s.score
  {
    hide TagAt, Words, Spans;
    var tags := Tags(engine, logits, enc);
    TagsOrdered(engine, logits, enc);
    WindowSpansAreOrdered(tags, enc.words, engine.threshold, engine.note);
    var words := Words(tags, enc.words);
    forall s | s in RowSpans(engine, logits, enc) ensures s.entity in engine.allowed && engine.threshold <= s.score {
      SpanIsAllowed(engine, logits, enc, s);
    }
  }

  lemma TagsOrdered(engine: Engine, logits: seq<real>, enc: Encoding)
    requires OrderedOffsets(enc)
    ensures OrderedTokens(Tags(engine, logits, enc), enc.words)
  {
    hide Best, ParseBio;
  }

  lemma TagIsAllowed(engine: Engine, logits: seq<real>, enc: Encoding, t: nat)
    requires enc.Aligned() && t < |enc.ids|
    ensures TagAt(engine, logits, enc, t).entity.Some? ==> TagAt(engine, logits, enc, t).entity.value in engine.allowed
  {
    hide Best, ParseBio;
  }

  lemma SpanIsAllowed(engine: Engine, logits: seq<real>, enc: Encoding, s: Span)
    requires enc.Aligned() && s in RowSpans(engine, logits, enc)
    ensures s.entity in engine.allowed && engine.threshold <= s.score
  {
    hide TagAt, WordsFrom, SpansFrom;
    var tags := Tags(engine, logits, enc);
    var words := Words(tags, enc.words);
    SpansAreRuns(words, 0, engine.threshold, engine.note, s);
    var a: nat, b: nat :| SpanOfRun(words, a, b, engine.threshold, s);
    WordsKeepLabels(tags, enc.words, 0, words[a]);
    var k: nat :| k < |enc.words| && words[a].entity == tags[k].entity;
    TagIsAllowed(engine, logits, enc, k);
  }

  /** A word's label is that of one of its tokens. */
  lemma {:induction false} WordsKeepLabels(tags: seq<Tag>, ids: seq<Option<nat>>, i: nat, w: Tag)
    requires i <= |ids| == |tags| && w in WordsFrom(tags, ids, i) && w.entity.Some?
    ensures exists k :: i <= k < |ids| && ids[k].Some? && w.entity == tags[k].entity
    decreases |ids| - i
  {
    if ids[i].None? {
      WordsKeepLabels(tags, ids, i + 1, w);
    } else {
      var end := WordEnd(ids, i + 1, ids[i].value);
      if w != WordTag(tags, i, end) {
        WordsKeepLabels(tags, ids, end, w);
      }
    }
  }

  // ----- tensors -----

  /** The tokens of one row the model sees for real. */
  datatype Row = Row(ids: seq<int>, mask: seq<int>, types: seq<int>)

  function RealLength(enc: Encoding): nat {
    if |enc.ids| <= MAX_SEQ_LEN then |enc.ids| else MAX_SEQ_LEN
  }

  function RowOf(enc: Encoding): Row
    requires enc.Aligned()
  {
    var n := RealLength(enc);
    Row(enc.ids[..n], enc.mask[..n], enc.types[..n])
  }

  function Padded(tokens: seq<int>, length: nat, pad: int): seq<int> {
    tokens + seq(if |tokens| <= length then length - |tokens| else 0, _ => pad)
  }

  function Stack(rows: seq<seq<int>>, length: nat, pad: int): seq<int> {
    if rows == [] then [] else Stack(rows[..|rows| - 1], length, pad) + Padded(rows[|rows| - 1], length, pad)
  }

  function Column(rows: seq<Row>, field: Row -> seq<int>): (r: seq<seq<int>>)
    ensures |r| == |rows|
  {
    seq(|rows|, i requires 0 <= i < |rows| => field(rows[i]))
  }

  /** Rows right-padded to one length, padding masked out. */
  function Batched(engine: Engine, rows: seq<Row>, length: nat): Tensors {
    Tensors(|rows|, length,
            Stack(Column(rows, (r: Row) => r.ids), length, engine.padId),
            Stack(Column(rows, (r: Row) => r.mask), length, 0),
            if engine.needsTypes then Stack(Column(rows, (r: Row) => r.types), length, 0) else [])
  }

  predicate Fits(rows: seq<Row>, length: nat) {
    forall i :: 0 <= i < |rows| ==> |rows[i].ids| <= length && |rows[i].mask| == |rows[i].types| == |rows[i].ids|
  }

  /** The logits of one row's real tokens, if the output reaches that far. */
  function Slice(logits: seq<real>, start: int, count: int): Option<seq<real>> {
    if 0 <= start && 0 <= count && start + count <= |logits| then Some(logits[start..start + count]) else None
  }

  /** Unless the model fails, it gives each row of any batch the logits `local` its own real tokens determine. */
  ghost predicate RowLocal(engine: Engine, local: Row -> seq<real>) {
    forall rows: seq<Row>, length: nat ::
      0 < |rows| <= NER_BATCH_SIZE && 0 < length <= MAX_SEQ_LEN && Fits(rows, length) ==>
        RowsLocal(engine, local, rows, length)
  }

  ghost predicate RowsLocal(engine: Engine, local: Row -> seq<real>, rows: seq<Row>, length: nat) {
    var out := engine.session(Batched(engine, rows, length));
    out.Ok? ==>
    && out.value.Some?
    && forall r :: 0 <= r < |rows| ==>
         Slice(out.value.value, r * (length * |engine.labels|), |rows[r].ids| * |engine.labels|) == Some(local(rows[r]))
  }

  // ----- every text on its own -----

  predicate AllAligned(encodings: seq<Encoding>) {
    forall e :: e in encodings ==> e.Aligned()
  }

  /** The windows of a text: what overflowed, then the main one; windows without tokens are dropped. */
  function Encodings(engine: Engine, text: string): (r: seq<Encoding>)
    requires engine.Aligned()
    ensures AllAligned(r) && forall e :: e in r ==> e.ids != []
  {
    if text == "" || engine.tokenize(text).Err? then []
    else
      var tokenized := engine.tokenize(text).value;
      WithTokens(tokenized.overflow) + WithTokens([tokenized.main])
  }

  function WithTokens(encodings: seq<Encoding>): (r: seq<Encoding>)
    ensures forall e :: e in r ==> e in encodings && e.ids != []
  {
    if encodings == [] then []
    else
      var last := encodings[|encodings| - 1];
      WithTokens(encodings[..|encodings| - 1]) + if last.ids != [] then [last] else []
  }

  function WindowSpans(engine: Engine, local: Row -> seq<real>, enc: Encoding): seq<Span>
    requires enc.Aligned()
  {
    RowSpans(engine, local(RowOf(enc)), enc)
  }

  function AllSpans(engine: Engine, local: Row -> seq<real>, encodings: seq<Encoding>): seq<Span>
    requires AllAligned(encodings)
  {
    if encodings == [] then []
    else
      var last := encodings[|encodings| - 1];
      AllSpans(engine, local, encodings[..|encodings| - 1]) + WindowSpans(engine, local, last)
  }

  /** One text alone: its windows' spans, resolved. */
  function TextSpans(engine: Engine, local: Row -> seq<real>, text: string): seq<Span>
    requires engine.Aligned()
  {
    if engine.labels == [] then [] else Resolve(AllSpans(engine, local, Encodings(engine, text)))
  }

  predicate Fails(engine: Engine, text: string) {
    engine.labels != [] && text != "" && engine.tokenize(text).Err?
  }

  ghost predicate SessionFails(engine: Engine, error: string) {
    exists tensors :: engine.session(tensors) == Err(error)
  }

  /** One result per text, each what the text gives alone, or an error of the tokenizer or the model. */
  ghost predicate EachAlone(engine: Engine, local: Row -> seq<real>, texts: seq<string>,
                            r: Result<seq<seq<Span>>, string>)
    requires engine.Aligned()
  {
    match r
    case Ok(results) =>
      && |results| == |texts| && (forall i :: 0 <= i < |texts| ==> !Fails(engine, texts[i]))
      && (forall i :: 0 <= i < |texts| ==> results[i] == TextSpans(engine, local, texts[i]))
    case Err(error) =>
      || SessionFails(engine, error)
      || exists i :: 0 <= i < |texts| && Fails(engine, texts[i]) && engine.tokenize(texts[i]) == Err(error)
  }

  // ----- windows of many texts -----

  function Labelled(encodings: seq<Encoding>, src: nat): seq<Window> {
    seq(|encodings|, i requires 0 <= i < |encodings| => Window(src, encodings[i]))
  }

  function Windows(engine: Engine, texts: seq<string>): seq<Window>
    requires engine.Aligned()
  {
    if texts == [] then []
    else
      var n := |texts| - 1;
      Windows(engine, texts[..n]) + Labelled(Encodings(engine, texts[n]), n)
  }

  predicate Usable(windows: seq<Window>, sources: nat) {
    forall w :: w in windows ==> w.enc.Aligned() && w.enc.ids != [] && w.src < sources
  }

  /** The spans the windows contribute to text `src`, in window order. */
  function Routed(engine: Engine, local: Row -> seq<real>, windows: seq<Window>, src: nat): seq<Span>
    requires forall w :: w in windows ==> w.enc.Aligned()
  {
    if windows == [] then []
    else
      var last := windows[|windows| - 1];
      Routed(engine, local, windows[..|windows| - 1], src)
      + if last.src == src then WindowSpans(engine, local, last.enc) else []
  }

  lemma {:induction false} RoutedConcat(engine: Engine, local: Row -> seq<real>, a: seq<Window>, b: seq<Window>,
                                        src: nat)
    requires forall w :: w in a + b ==> w.enc.Aligned()
    ensures (forall w :: w in a ==> w.enc.Aligned()) && (forall w :: w in b ==> w.enc.Aligned())
    ensures Routed(engine, local, a + b, src) == Routed(engine, local, a, src) + Routed(engine, local, b, src)
    decreases |b|
  {
    hide WindowSpans;
    assert forall w :: w in a || w in b ==> w in a + b;
    if b == [] {
      assert a + b == a;
    } else {
      var n := |b| - 1;
      assert (a + b)[..|a + b| - 1] == a + b[..n] && (a + b)[|a + b| - 1] == b[n];
      RoutedConcat(engine, local, a, b[..n], src);
    }
  }

  lemma {:induction false} RoutedLabelled(engine: Engine, local: Row -> seq<real>, encodings: seq<Encoding>, from: nat,
                                          src: nat)
    requires AllAligned(encodings)
    ensures forall w :: w in Labelled(encodings, from) ==> w.enc.Aligned()
    ensures Routed(engine, local, Labelled(encodings, from), src)
            == if from == src then AllSpans(engine, local, encodings) else []
  {
    hide WindowSpans;
    forall w | w in Labelled(encodings, from) ensures w.enc.Aligned() {
      assert w.enc in encodings;
    }
    if encodings != [] {
      var n := |encodings| - 1;
      RoutedLabelled(engine, local, encodings[..n], from, src);
      assert Labelled(encodings, from)[..n] == Labelled(encodings[..n], from);
      assert Labelled(encodings, from)[n] == Window(from, encodings[n]);
    }
  }

  /** Over all windows, each text is routed exactly the spans of its own. */
  lemma {:induction false} WindowsRoute(engine: Engine, local: Row -> seq<real>, texts: seq<string>, src: nat)
    requires engine.Aligned()
    ensures Usable(Windows(engine, texts), |texts|)
    ensures Routed(engine, local, Windows(engine, texts), src)
            == if src < |texts| then AllSpans(engine, local, Encodings(engine, texts[src])) else []
  {
    hide WindowSpans, Encodings;
    if texts != [] {
      var n := |texts| - 1;
      WindowsRoute(engine, local, texts[..n], src);
      var mine := Labelled(Encodings(engine, texts[n]), n);
      RoutedLabelled(engine, local, Encodings(engine, texts[n]), n, src);
      forall w | w in mine ensures w.enc.ids != [] && w.src < |texts| {
        assert w.enc in Encodings(engine, texts[n]);
      }
      RoutedConcat(engine, local, Windows(engine, texts[..n]), mine, src);
    }
  }
}
