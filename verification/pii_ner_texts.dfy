/** What recognition finds in a whole text, and what the model is shown of it. */
module NerTexts {
  import opened SpanOverlap
  import opened NerBatching
  import opened NerTokens

  // ----- windows -----

  /** A window of the text with at least one token. */
  predicate WindowOf(engine: Engine, text: string, enc: Encoding) {
    && text != "" && enc.ids != []
    && var tokenized := engine.tokenize(text);
       tokenized.Ok? && (enc == tokenized.value.main || enc in tokenized.value.overflow)
  }

  lemma {:induction false} KeepsTokens(encodings: seq<Encoding>, enc: Encoding)
    ensures enc in WithTokens(encodings) <==> enc in encodings && enc.ids != []
    decreases |encodings|
  {
    if encodings != [] {
      var n := |encodings| - 1;
      KeepsTokens(encodings[..n], enc);
      assert encodings == encodings[..n] + [encodings[n]];
    }
  }

  lemma WindowsAre(engine: Engine, text: string, enc: Encoding)
    requires engine.Aligned()
    ensures enc in Encodings(engine, text) <==> WindowOf(engine, text, enc)
  {
    if text != "" && engine.tokenize(text).Ok? {
      var tokenized := engine.tokenize(text).value;
      KeepsTokens(tokenized.overflow, enc);
      KeepsTokens([tokenized.main], enc);
    }
  }

  /** What the model sees of a window: its first 512 tokens. */
  function Seen(enc: Encoding): Row
    requires enc.Aligned()
  {
    if |enc.ids| <= 512 then Row(enc.ids, enc.mask, enc.types)
    else Row(enc.ids[..512], enc.mask[..512], enc.types[..512])
  }

  lemma SeenIsRow(enc: Encoding)
    requires enc.Aligned()
    ensures Seen(enc) == RowOf(enc)
  {
    assert |enc.ids| <= 512 ==> enc.ids[..|enc.ids|] == enc.ids;
    assert |enc.mask| <= 512 ==> enc.mask[..|enc.mask|] == enc.mask;
    assert |enc.types| <= 512 ==> enc.types[..|enc.types|] == enc.types;
  }

  /** The span of a run of tokens in some window of the text. */
  ghost predicate Recognized(engine: Engine, local: Row -> seq<real>, text: string, span: Span)
    requires engine.Aligned()
  {
    exists enc, a, z ::
      WindowOf(engine, text, enc) && enc.Aligned() && SpanOfTokens(engine, local(Seen(enc)), enc, a, z, span)
  }

  lemma {:induction false} AllSpansAre(engine: Engine, local: Row -> seq<real>, encodings: seq<Encoding>, span: Span)
    requires AllAligned(encodings)
    ensures span in AllSpans(engine, local, encodings)
            <==> exists i :: 0 <= i < |encodings| && span in WindowSpans(engine, local, encodings[i])
    decreases |encodings|
  {
    hide WindowSpans;
    if encodings != [] {
      var n := |encodings| - 1;
      AllSpansAre(engine, local, encodings[..n], span);
      assert forall i :: 0 <= i < n ==> encodings[..n][i] == encodings[i];
    }
  }

  lemma RecognizedExactly(engine: Engine, local: Row -> seq<real>, text: string, span: Span)
    requires engine.Aligned()
    ensures span in AllSpans(engine, local, Encodings(engine, text)) <==> Recognized(engine, local, text, span)
  {
    hide SpanOfTokens, RowSpans, Seen, RowOf, WindowOf;
    var encodings := Encodings(engine, text);
    AllSpansAre(engine, local, encodings, span);
    if span in AllSpans(engine, local, encodings) {
      var i :| 0 <= i < |encodings| && span in WindowSpans(engine, local, encodings[i]);
      var enc := encodings[i];
      WindowsAre(engine, text, enc);
      SeenIsRow(enc);
      DecodedExactly(engine, local(Seen(enc)), enc, span);
    }
    if Recognized(engine, local, text, span) {
      var enc, a: nat, z: nat :| WindowOf(engine, text, enc) && enc.Aligned()
                                 && SpanOfTokens(engine, local(Seen(enc)), enc, a, z, span);
      WindowsAre(engine, text, enc);
      SeenIsRow(enc);
      DecodedExactly(engine, local(Seen(enc)), enc, span);
      var i :| 0 <= i < |encodings| && encodings[i] == enc;
      assert span in WindowSpans(engine, local, encodings[i]);
    }
  }

  /**
   * Every span of a text's result is that of a run of tokens in one of its windows, and every such run's span is in the
   * result or linked to a span that is, each beating the one before.
   */
  lemma TextSpansMean(engine: Engine, local: Row -> seq<real>, text: string, span: Span)
    requires engine.Aligned() && engine.labels != []
    ensures span in TextSpans(engine, local, text) ==> Recognized(engine, local, text, span)
    ensures Recognized(engine, local, text, span) ==>
              exists chain: seq<Span> ::
                && chain != [] && chain[0] == span && chain[|chain| - 1] in TextSpans(engine, local, text)
                && forall i :: 0 < i < |chain| ==> Beats(chain[i], chain[i - 1])
  {
    hide Resolve, AllSpans, Recognized, Beats;
    var all := AllSpans(engine, local, Encodings(engine, text));
    if span in TextSpans(engine, local, text) {
      SurvivorWasFound(all, span);
      RecognizedExactly(engine, local, text, span);
    }
    if Recognized(engine, local, text, span) {
      RecognizedExactly(engine, local, text, span);
      var chain := NothingVanishes(all, span);
    }
  }

  // ----- tensors -----

  lemma {:induction false} StackLength(rows: seq<seq<int>>, length: nat, pad: int)
    requires forall r :: 0 <= r < |rows| ==> |rows[r]| <= length
    ensures |Stack(rows, length, pad)| == |rows| * length
    decreases |rows|
  {
    if rows != [] {
      var n := |rows| - 1;
      StackLength(rows[..n], length, pad);
      assert (n + 1) * length == n * length + length;
    }
  }

  /** Token `t` of row `r` stands at `r * length + t`; what is behind a row's own tokens is padding. */
  lemma {:induction false} StackCell(rows: seq<seq<int>>, length: nat, pad: int, r: nat, t: nat)
    requires forall k :: 0 <= k < |rows| ==> |rows[k]| <= length
    requires r < |rows| && t < length
    ensures r * length + t < |Stack(rows, length, pad)| == |rows| * length
    ensures Stack(rows, length, pad)[r * length + t] == if t < |rows[r]| then rows[r][t] else pad
    decreases |rows|
  {
    var n := |rows| - 1;
    StackLength(rows, length, pad);
    StackLength(rows[..n], length, pad);
    assert (n + 1) * length == n * length + length;
    if r < n {
      StackCell(rows[..n], length, pad, r, t);
    }
  }

  /** Each real token is shown with its mask, and its type where the model asks for types; padding is masked out. */
  lemma BatchedCells(engine: Engine, rows: seq<Row>, length: nat, r: nat, t: nat)
    requires NerBatching.Fits(rows, length) && r < |rows| && t < length
    ensures var b, at, own := Batched(engine, rows, length), r * length + t, t < |rows[r].ids|;
            && b.batch == |rows| && b.length == length && at < |b.ids| == |b.attention| == |rows| * length
            && b.ids[at] == (if own then rows[r].ids[t] else engine.padId)
            && b.attention[at] == (if own then rows[r].mask[t] else 0)
            && (if engine.needsTypes then
                  at < |b.types| == |rows| * length && b.types[at] == if own then rows[r].types[t] else 0
                else b.types == [])
  {
    StackCell(Column(rows, (w: Row) => w.ids), length, engine.padId, r, t);
    StackCell(Column(rows, (w: Row) => w.mask), length, 0, r, t);
    StackCell(Column(rows, (w: Row) => w.types), length, 0, r, t);
  }
}
