/** Which spans one row of logits gives, told from the logits, word numbers and offsets of its tokens alone. */
module NerTokens {
  import opened Common
  import opened SpanOverlap
  import opened NerDecoding
  import opened NerBatching

  // ----- what a token says -----

  /** The label cores of an entity. */
  function Cores(entity: Entity): seq<string> {
    if entity == PERSON then ["PER", "PERSON"]
    else if entity == LOCATION then ["LOC", "GPE"]
    else if entity == ORGANIZATION then ["ORG", "ORGANIZATION"]
    else if entity == NRP then ["NORP", "NRP"]
    else if entity == FACILITY then ["FAC"]
    else []
  }

  predicate IsLabelOf(raw: string, entity: Entity, begin: bool) {
    exists i :: 0 <= i < |Cores(entity)| && raw == (if begin then "B-" else "I-") + Cores(entity)[i]
  }

  /** The logit of token `t` for label `j`. */
  predicate HasLogits(engine: Engine, logits: seq<real>, t: nat) {
    engine.labels != [] && (t + 1) * |engine.labels| <= |logits|
  }

  function Own(engine: Engine, logits: seq<real>, t: nat): (r: seq<real>)
    ensures |r| == if HasLogits(engine, logits, t) then |engine.labels| else 0
  {
    if HasLogits(engine, logits, t) then
      assert 0 <= t * |engine.labels| <= (t + 1) * |engine.labels|;
      assert (t + 1) * |engine.labels| - t * |engine.labels| == |engine.labels|;
      logits[t * |engine.labels|..(t + 1) * |engine.labels|]
    else []
  }

  /** The first label among those with the largest of these logits; the first one if there are none. */
  predicate Wins(own: seq<real>, j: nat) {
    if own == [] then j == 0
    else j < |own| && forall k :: 0 <= k < |own| ==> own[k] <= own[j] && (k < j ==> own[k] < own[j])
  }

  /** By its own logits, token `t` is labelled as the beginning or inside of an allowed entity. */
  predicate Says(engine: Engine, logits: seq<real>, t: nat, entity: Entity, begin: bool) {
    && entity in engine.allowed
    && exists j :: 0 <= j < |engine.labels| && Wins(Own(engine, logits, t), j)
                   && IsLabelOf(engine.labels[j], entity, begin)
  }

  function Confidence(engine: Engine, logits: seq<real>, t: nat): real {
    var own := Own(engine, logits, t);
    if own == [] then 0.0 else engine.confidence(own)
  }

  // ----- words and runs of words -----

  /** A word starts at token `k`. */
  predicate Starts(words: seq<Option<nat>>, k: nat) {
    k < |words| && words[k].Some? && (k > 0 ==> words[k - 1] != words[k])
  }

  /** `p` is the first token of the word that token `k` belongs to. */
  ghost predicate StartOf(words: seq<Option<nat>>, p: nat, k: nat) {
    && p <= k < |words| && Starts(words, p) && forall i :: p <= i <= k ==> words[i] == words[p]
  }

  /** The word that ends right before token `a` is of this entity. */
  ghost predicate FollowsEntity(engine: Engine, logits: seq<real>, enc: Encoding, a: nat, entity: Entity) {
    a > 0 && exists p :: StartOf(enc.words, p, a - 1)
                         && (Says(engine, logits, p, entity, true) || Says(engine, logits, p, entity, false))
  }

  /**
   * The tokens from `a` up to `z` are whole words of one entity: the first word begins it or follows none of it, all
   * others go on with it, and what comes behind does not.
   */
  ghost predicate EntityRun(engine: Engine, logits: seq<real>, enc: Encoding, a: nat, z: nat, entity: Entity)
    requires enc.Aligned()
  {
    && a < z <= |enc.words| && Starts(enc.words, a)
    && (forall k :: a <= k < z ==> enc.words[k].Some?)
    && (z < |enc.words| ==> enc.words[z].None? || Starts(enc.words, z))
    && (Says(engine, logits, a, entity, true)
        || (Says(engine, logits, a, entity, false) && !FollowsEntity(engine, logits, enc, a, entity)))
    && (forall k :: a < k < z && Starts(enc.words, k) ==> Says(engine, logits, k, entity, false))
    && (Starts(enc.words, z) ==> !Says(engine, logits, z, entity, false))
  }

  /** The span of such a run: from its first to its last token, with the largest confidence of any of them. */
  ghost predicate SpanOfTokens(engine: Engine, logits: seq<real>, enc: Encoding, a: nat, z: nat, span: Span)
    requires enc.Aligned()
  {
    && EntityRun(engine, logits, enc, a, z, span.entity)
    && span.start == enc.offsets[a].0 && span.end == enc.offsets[z - 1].1 && span.start < span.end
    && (forall k :: a <= k < z ==> Confidence(engine, logits, k) <= span.score)
    && (exists k :: a <= k < z && Confidence(engine, logits, k) == span.score)
    && engine.threshold <= span.score && 0.0 <= span.score <= 1.0 && span.note == engine.note
  }

  // ----- labels -----

  lemma CoresAre(core: string, entity: Entity)
    ensures EntityForCore(core) == Some(entity) <==> exists i :: 0 <= i < |Cores(entity)| && Cores(entity)[i] == core
  {
    assert EntityForCore("PER") == EntityForCore("PERSON") == Some(PERSON);
    if EntityForCore(core) == Some(entity) {
      if entity == FACILITY {
        assert Cores(entity)[0] == core;
      } else {
        assert Cores(entity)[0] == core || Cores(entity)[1] == core;
      }
    }
  }

  lemma LabelIs(raw: string, entity: Entity, begin: bool)
    ensures IsLabelOf(raw, entity, begin) <==> ParseBio(raw) == (Some(entity), begin)
  {
    hide EntityForCore, Cores;
    var prefix := if begin then "B-" else "I-";
    if IsLabelOf(raw, entity, begin) {
      var i :| 0 <= i < |Cores(entity)| && raw == prefix + Cores(entity)[i];
      assert raw[..2] == prefix && raw[2..] == Cores(entity)[i];
      assert raw[0] == prefix[0];
      CoresAre(raw[2..], entity);
    }
    if ParseBio(raw) == (Some(entity), begin) {
      CoresAre(raw[2..], entity);
      var i :| 0 <= i < |Cores(entity)| && Cores(entity)[i] == raw[2..];
      assert raw == raw[..2] + raw[2..] == prefix + Cores(entity)[i];
    }
  }

  lemma BestWins(own: seq<real>, j: nat)
    ensures Wins(own, j) <==> j == if own == [] then 0 else Best(own)
  {
  }

  /** A word token's tag says just what its own logits say. */
  lemma TagSays(engine: Engine, logits: seq<real>, enc: Encoding, t: nat, entity: Entity, begin: bool)
    requires enc.Aligned() && t < |enc.ids| && enc.words[t].Some?
    ensures var tag := TagAt(engine, logits, enc, t);
            && (tag.entity == Some(entity) && tag.begin == begin <==> Says(engine, logits, t, entity, begin))
            && tag.score == Confidence(engine, logits, t)
            && tag.start == enc.offsets[t].0 && tag.end == enc.offsets[t].1
  {
    hide ParseBio, Best, Wins, IsLabelOf;
    var own := Own(engine, logits, t);
    OwnIsRow(engine, logits, t);
    var best := if own == [] then 0 else Best(own);
    forall j: nat ensures Wins(own, j) <==> j == best { BestWins(own, j); }
    var raw := if best < |engine.labels| then engine.labels[best] else "O";
    if best < |engine.labels| {
      LabelIs(raw, entity, begin);
    } else {
      NoLabel();
    }
  }

  lemma NoLabel()
    ensures ParseBio("O") == (None, false)
  {
    assert !("B-" <= "O") && !("I-" <= "O");
  }

  lemma OwnIsRow(engine: Engine, logits: seq<real>, t: nat)
    ensures var n := |engine.labels|;
            Own(engine, logits, t)
            == (if 0 <= t * n <= (t + 1) * n <= |logits| then logits[t * n..(t + 1) * n] else [])
  {
    var n := |engine.labels|;
    assert 0 <= t * n <= (t + 1) * n;
    if n == 0 {
      assert t * n == 0 && (t + 1) * n == 0;
    }
  }

  // ----- where words are cut -----

  /** Where each entry of the word list starts, and where the last one ends. */
  function Cuts(words: seq<Option<nat>>, i: nat): (r: seq<nat>)
    requires i <= |words|
    ensures r != [] && r[0] == i && r[|r| - 1] == |words|
    decreases |words| - i
  {
    if i == |words| then [i]
    else if words[i].None? then [i] + Cuts(words, i + 1)
    else [i] + Cuts(words, WordEnd(words, i + 1, words[i].value))
  }

  /** Where the piece that starts at token `i` ends. */
  function PieceEnd(words: seq<Option<nat>>, i: nat): (end: nat)
    requires i < |words|
    ensures i < end <= |words|
    ensures forall x :: i < x < end ==> words[x].Some? && words[x] == words[x - 1]
    ensures words[i].Some? ==> forall x :: i <= x < end ==> words[x] == words[i]
    ensures words[i].Some? && end < |words| ==> words[end] != words[i]
    ensures words[i].None? ==> end == i + 1
  {
    if words[i].None? then i + 1 else WordEnd(words, i + 1, words[i].value)
  }

  lemma CutsStep(words: seq<Option<nat>>, i: nat)
    requires i < |words|
    ensures Cuts(words, i) == [i] + Cuts(words, PieceEnd(words, i))
  {
  }

  /** The tokens from `p` up to `q` are one word, or one token of none. */
  predicate Piece(words: seq<Option<nat>>, p: nat, q: nat) {
    && p < q <= |words|
    && if words[p].None? then q == p + 1
       else Starts(words, p) && (forall k :: p <= k < q ==> words[k] == words[p])
            && (q < |words| ==> words[q] != words[p])
  }

  /** Entry `m` of the word list stands for the piece between two cuts. */
  predicate Entry(tags: seq<Tag>, words: seq<Option<nat>>, cuts: seq<nat>, list: seq<Tag>, m: nat)
    requires |tags| == |words| && |cuts| == |list| + 1 && m < |list|
  {
    && Piece(words, cuts[m], cuts[m + 1])
    && list[m] == if words[cuts[m]].None? then OUTSIDE else WordTag(tags, cuts[m], cuts[m + 1])
  }

  /** The list of words has one entry per piece. */
  lemma {:induction false} WordsAreCut(tags: seq<Tag>, words: seq<Option<nat>>, i: nat)
    requires |tags| == |words| && i <= |words|
    requires i < |words| && words[i].Some? ==> Starts(words, i)
    ensures |Cuts(words, i)| == |WordsFrom(tags, words, i)| + 1
    ensures forall m :: 0 <= m < |WordsFrom(tags, words, i)| ==>
              Entry(tags, words, Cuts(words, i), WordsFrom(tags, words, i), m)
    decreases |words| - i
  {
    if i < |words| {
      hide Cuts, WordsFrom, WordTag, PieceEnd;
      var end := PieceEnd(words, i);
      WordsAreCut(tags, words, end);
      CutsStep(words, i);
      WordsStep(tags, words, i);
      var cuts, list := Cuts(words, i), WordsFrom(tags, words, i);
      var cuts', list' := Cuts(words, end), WordsFrom(tags, words, end);
      assert Piece(words, i, end);
      forall m | 0 <= m < |list| ensures Entry(tags, words, cuts, list, m) {
        if m > 0 {
          assert Entry(tags, words, cuts', list', m - 1);
          assert cuts[m] == cuts'[m - 1] && cuts[m + 1] == cuts'[m] && list[m] == list'[m - 1];
        }
      }
    }
  }

  lemma WordsStep(tags: seq<Tag>, words: seq<Option<nat>>, i: nat)
    requires |tags| == |words| && i < |words|
    ensures var end := PieceEnd(words, i);
            WordsFrom(tags, words, i)
            == [if words[i].None? then OUTSIDE else WordTag(tags, i, end)] + WordsFrom(tags, words, end)
  {
  }

  lemma {:induction false} CutsGrow(words: seq<Option<nat>>, i: nat)
    requires i <= |words|
    ensures forall x, y :: 0 <= x < y < |Cuts(words, i)| ==> Cuts(words, i)[x] < Cuts(words, i)[y]
    decreases |words| - i
  {
    if i < |words| {
      CutsGrow(words, PieceEnd(words, i));
    }
  }

  /** Every token that starts a word or belongs to none is a cut. */
  lemma {:induction false} CutFound(words: seq<Option<nat>>, i: nat, k: nat) returns (m: nat)
    requires i <= k <= |words| && (k < |words| ==> words[k].None? || Starts(words, k) || k == i)
    ensures m < |Cuts(words, i)| && Cuts(words, i)[m] == k
    decreases |words| - i
  {
    if k == i {
      m := 0;
    } else {
      hide Cuts, PieceEnd;
      CutsStep(words, i);
      m := CutFound(words, PieceEnd(words, i), k);
      m := m + 1;
    }
  }

  /** The piece a token lies in. */
  lemma {:induction false} PieceOf(words: seq<Option<nat>>, x: nat, y: nat, k: nat) returns (m: nat)
    requires x < y < |Cuts(words, 0)| && Cuts(words, 0)[x] <= k < Cuts(words, 0)[y]
    ensures x <= m < y && Cuts(words, 0)[m] <= k < Cuts(words, 0)[m + 1]
    decreases y - x
  {
    if k >= Cuts(words, 0)[y - 1] || y == x + 1 {
      m := y - 1;
    } else {
      m := PieceOf(words, x, y - 1, k);
    }
  }

  lemma OnlyStart(words: seq<Option<nat>>, p: nat, q: nat, k: nat, p': nat)
    requires Piece(words, p, q) && words[p].Some? && p <= k < q
    ensures StartOf(words, p', k) <==> p' == p
  {
    if p < p' <= k { assert words[p' - 1] == words[p']; }
  }

  // ----- the word list against the tokens -----

  function Listed(engine: Engine, logits: seq<real>, enc: Encoding): seq<Tag>
    requires enc.Aligned()
  {
    Words(Tags(engine, logits, enc), enc.words)
  }

  lemma Listing(engine: Engine, logits: seq<real>, enc: Encoding)
    requires enc.Aligned()
    ensures var cuts, list := Cuts(enc.words, 0), Listed(engine, logits, enc);
            && |cuts| == |list| + 1
            && (forall m :: 0 <= m < |list| ==> Entry(Tags(engine, logits, enc), enc.words, cuts, list, m))
            && (forall x, y :: 0 <= x < y < |cuts| ==> cuts[x] < cuts[y])
  {
    WordsAreCut(Tags(engine, logits, enc), enc.words, 0);
    CutsGrow(enc.words, 0);
  }

  lemma EntrySays(engine: Engine, logits: seq<real>, enc: Encoding, m: nat, entity: Entity, begin: bool)
    requires enc.Aligned() && m < |Listed(engine, logits, enc)|
    ensures |Cuts(enc.words, 0)| == |Listed(engine, logits, enc)| + 1
    ensures var cuts, tag := Cuts(enc.words, 0), Listed(engine, logits, enc)[m];
            && Piece(enc.words, cuts[m], cuts[m + 1])
            && (tag.entity == Some(entity) && tag.begin == begin
                <==> enc.words[cuts[m]].Some? && Says(engine, logits, cuts[m], entity, begin))
  {
    hide Says, TagAt;
    Listing(engine, logits, enc);
    var cuts, list := Cuts(enc.words, 0), Listed(engine, logits, enc);
    assert Entry(Tags(engine, logits, enc), enc.words, cuts, list, m);
    if enc.words[cuts[m]].Some? {
      TagSays(engine, logits, enc, cuts[m], entity, begin);
    }
  }

  lemma FollowsIsBefore(engine: Engine, logits: seq<real>, enc: Encoding, x: nat, entity: Entity)
    requires enc.Aligned() && x < |Listed(engine, logits, enc)|
    ensures |Cuts(enc.words, 0)| == |Listed(engine, logits, enc)| + 1
    ensures FollowsEntity(engine, logits, enc, Cuts(enc.words, 0)[x], entity)
            <==> x > 0 && Listed(engine, logits, enc)[x - 1].entity == Some(entity)
  {
    hide Says, Listed, WordsFrom;
    Listing(engine, logits, enc);
    var cuts := Cuts(enc.words, 0);
    if x > 0 {
      var p, a := cuts[x - 1], cuts[x];
      EntrySays(engine, logits, enc, x - 1, entity, true);
      EntrySays(engine, logits, enc, x - 1, entity, false);
      if enc.words[p].Some? {
        var k := a - 1;
        forall p': nat ensures StartOf(enc.words, p', k) <==> p' == p { OnlyStart(enc.words, p, a, k, p'); }
      } else {
        assert a - 1 == p;
        assert forall p': nat :: !StartOf(enc.words, p', p);
      }
    }
  }

  /** The entries of the list say what their first tokens say. */
  ghost predicate EntriesSay(engine: Engine, logits: seq<real>, enc: Encoding, entity: Entity)
    requires enc.Aligned()
  {
    var cuts, list := Cuts(enc.words, 0), Listed(engine, logits, enc);
    && |cuts| == |list| + 1
    && (forall x, y :: 0 <= x < y < |cuts| ==> cuts[x] < cuts[y])
    && (forall m :: 0 <= m < |list| ==> Piece(enc.words, cuts[m], cuts[m + 1]))
    && (forall m, begin :: 0 <= m < |list| ==> EntryIs(engine, logits, enc, list[m], cuts[m], entity, begin))
  }

  predicate EntryIs(engine: Engine, logits: seq<real>, enc: Encoding, tag: Tag, p: nat, entity: Entity, begin: bool)
  {
    tag.entity == Some(entity) && tag.begin == begin
    <==> p < |enc.words| && enc.words[p].Some? && Says(engine, logits, p, entity, begin)
  }

  lemma AllEntriesSay(engine: Engine, logits: seq<real>, enc: Encoding, entity: Entity)
    requires enc.Aligned()
    ensures EntriesSay(engine, logits, enc, entity)
  {
    hide Says, Listed;
    Listing(engine, logits, enc);
    var cuts, list := Cuts(enc.words, 0), Listed(engine, logits, enc);
    forall m | 0 <= m < |list| ensures Piece(enc.words, cuts[m], cuts[m + 1]) {
      EntrySays(engine, logits, enc, m, entity, true);
    }
    forall m, begin | 0 <= m < |list|
      ensures EntryIs(engine, logits, enc, list[m], cuts[m], entity, begin)
    {
      EntrySays(engine, logits, enc, m, entity, begin);
    }
  }

  lemma RunToTokens(engine: Engine, logits: seq<real>, enc: Encoding, x: nat, y: nat, entity: Entity)
    requires enc.Aligned() && x < y <= |Listed(engine, logits, enc)| && EntriesSay(engine, logits, enc, entity)
    requires MaximalRun(Listed(engine, logits, enc), x, y) && Listed(engine, logits, enc)[x].entity == Some(entity)
    ensures EntityRun(engine, logits, enc, Cuts(enc.words, 0)[x], Cuts(enc.words, 0)[y], entity)
  {
    hide Says, Listed, FollowsEntity;
    var cuts, list, words := Cuts(enc.words, 0), Listed(engine, logits, enc), enc.words;
    var a, z := cuts[x], cuts[y];
    FollowsIsBefore(engine, logits, enc, x, entity);
    assert EntryIs(engine, logits, enc, list[x], a, entity, true);
    assert EntryIs(engine, logits, enc, list[x], a, entity, false);
    forall k | a <= k < z ensures words[k].Some? {
      var m := PieceOf(words, x, y, k);
      assert m > x ==> Continues(list[m], entity);
      assert EntryIs(engine, logits, enc, list[m], cuts[m], entity, list[m].begin);
      assert Piece(words, cuts[m], cuts[m + 1]);
    }
    forall k | a < k < z && Starts(words, k) ensures Says(engine, logits, k, entity, false) {
      var m := CutFound(words, 0, k);
      assert x < m < y;
      assert Continues(list[m], entity);
      assert EntryIs(engine, logits, enc, list[m], cuts[m], entity, false);
    }
    if y < |list| {
      assert Piece(words, cuts[y], cuts[y + 1]);
      assert EntryIs(engine, logits, enc, list[y], z, entity, false);
    }
    assert Piece(words, cuts[x], cuts[x + 1]);
  }

  lemma TokensToRun(engine: Engine, logits: seq<real>, enc: Encoding, x: nat, y: nat, entity: Entity)
    requires enc.Aligned() && x < y <= |Listed(engine, logits, enc)| && EntriesSay(engine, logits, enc, entity)
    requires EntityRun(engine, logits, enc, Cuts(enc.words, 0)[x], Cuts(enc.words, 0)[y], entity)
    ensures MaximalRun(Listed(engine, logits, enc), x, y) && Listed(engine, logits, enc)[x].entity == Some(entity)
  {
    hide Says, Listed, FollowsEntity;
    var cuts, list, words := Cuts(enc.words, 0), Listed(engine, logits, enc), enc.words;
    var a, z := cuts[x], cuts[y];
    FollowsIsBefore(engine, logits, enc, x, entity);
    assert EntryIs(engine, logits, enc, list[x], a, entity, true);
    assert EntryIs(engine, logits, enc, list[x], a, entity, false);
    forall m | x < m < y ensures Continues(list[m], entity) {
      var k := cuts[m];
      assert Piece(words, k, cuts[m + 1]) && a < k < z;
      assert EntryIs(engine, logits, enc, list[m], k, entity, false);
    }
    if y < |list| {
      assert Piece(words, cuts[y], cuts[y + 1]);
      assert EntryIs(engine, logits, enc, list[y], z, entity, false);
    }
  }

  // ----- scores -----

  /** A word's score is the largest confidence of its tokens; it starts with the first and ends with the last. */
  lemma EntryScores(engine: Engine, logits: seq<real>, enc: Encoding, m: nat)
    requires enc.Aligned() && m < |Listed(engine, logits, enc)|
    ensures |Cuts(enc.words, 0)| == |Listed(engine, logits, enc)| + 1
    ensures var cuts, tag := Cuts(enc.words, 0), Listed(engine, logits, enc)[m];
            var p, q := cuts[m], cuts[m + 1];
            && Piece(enc.words, p, q)
            && (enc.words[p].Some? ==>
                  && tag.start == enc.offsets[p].0 && tag.end == enc.offsets[q - 1].1
                  && (forall k :: p <= k < q ==> Confidence(engine, logits, k) <= tag.score)
                  && exists k :: p <= k < q && Confidence(engine, logits, k) == tag.score)
  {
    hide Says, TagAt, Confidence, MaxScore;
    Listing(engine, logits, enc);
    var cuts, list := Cuts(enc.words, 0), Listed(engine, logits, enc);
    var p, q := cuts[m], cuts[m + 1];
    var tags := Tags(engine, logits, enc);
    assert Entry(tags, enc.words, cuts, list, m);
    if enc.words[p].Some? {
      forall k | p <= k < q
        ensures tags[k].score == Confidence(engine, logits, k)
        ensures tags[k].start == enc.offsets[k].0 && tags[k].end == enc.offsets[k].1
      {
        TagSays(engine, logits, enc, k, 0, false);
      }
    }
  }

  lemma ScoresAgree(engine: Engine, logits: seq<real>, enc: Encoding, x: nat, y: nat, entity: Entity, span: Span)
    requires enc.Aligned() && x < y <= |Listed(engine, logits, enc)| && span.entity == entity
    requires |Cuts(enc.words, 0)| == |Listed(engine, logits, enc)| + 1
    requires EntityRun(engine, logits, enc, Cuts(enc.words, 0)[x], Cuts(enc.words, 0)[y], entity)
    requires MaximalRun(Listed(engine, logits, enc), x, y) && Listed(engine, logits, enc)[x].entity == Some(entity)
    ensures SpanOfRun(Listed(engine, logits, enc), x, y, engine.threshold, span) && span.note == engine.note
            <==> SpanOfTokens(engine, logits, enc, Cuts(enc.words, 0)[x], Cuts(enc.words, 0)[y], span)
  {
    hide Says, Listed, FollowsEntity, Confidence, EntityRun, MaximalRun, WordEnd, Cuts;
    var cuts, list, words := Cuts(enc.words, 0), Listed(engine, logits, enc), enc.words;
    var a, z := cuts[x], cuts[y];
    Listing(engine, logits, enc);
    TokensOfRun(engine, logits, enc, a, z, entity);
    EntryScores(engine, logits, enc, x);
    EntryScores(engine, logits, enc, y - 1);
    TokensStay(words, x, y);
    TopsAgree(engine, logits, enc, x, y, span.score);
  }

  lemma TokensStay(words: seq<Option<nat>>, x: nat, y: nat)
    requires x < y < |Cuts(words, 0)|
    ensures var cuts := Cuts(words, 0); cuts[x] < cuts[x + 1] <= cuts[y] && cuts[x] <= cuts[y - 1] < cuts[y]
  {
    CutsGrow(words, 0);
  }

  /** `s` is the largest confidence of these tokens. */
  ghost predicate TopOfTokens(engine: Engine, logits: seq<real>, a: nat, z: nat, s: real) {
    && (forall k :: a <= k < z ==> Confidence(engine, logits, k) <= s)
    && exists k :: a <= k < z && Confidence(engine, logits, k) == s
  }

  ghost predicate TopOfList(list: seq<Tag>, x: nat, y: nat, s: real)
    requires y <= |list|
  {
    && (forall m :: x <= m < y ==> list[m].score <= s)
    && exists m :: x <= m < y && list[m].score == s
  }

  lemma TopOfEntry(engine: Engine, logits: seq<real>, enc: Encoding, m: nat)
    requires enc.Aligned() && m < |Listed(engine, logits, enc)|
    ensures |Cuts(enc.words, 0)| == |Listed(engine, logits, enc)| + 1
    ensures var p, q := Cuts(enc.words, 0)[m], Cuts(enc.words, 0)[m + 1];
            p < |enc.words| && enc.words[p].Some? ==>
              TopOfTokens(engine, logits, p, q, Listed(engine, logits, enc)[m].score)
  {
    hide Listed, Confidence;
    EntryScores(engine, logits, enc, m);
  }

  lemma TopsAgree(engine: Engine, logits: seq<real>, enc: Encoding, x: nat, y: nat, s: real)
    requires enc.Aligned() && x < y <= |Listed(engine, logits, enc)|
    requires |Cuts(enc.words, 0)| == |Listed(engine, logits, enc)| + 1
    requires var a, z := Cuts(enc.words, 0)[x], Cuts(enc.words, 0)[y];
             a < z <= |enc.words| && forall k :: a <= k < z ==> enc.words[k].Some?
    ensures TopOfList(Listed(engine, logits, enc), x, y, s)
            <==> TopOfTokens(engine, logits, Cuts(enc.words, 0)[x], Cuts(enc.words, 0)[y], s)
  {
    hide Listed, Confidence, Cuts, TopOfTokens;
    var cuts, list := Cuts(enc.words, 0), Listed(engine, logits, enc);
    CutsGrow(enc.words, 0);
    forall m | x <= m < y ensures EntryTop(engine, logits, cuts, list, m, cuts[x], cuts[y]) {
      assert cuts[x] <= cuts[m] < cuts[m + 1] <= cuts[y];
      TopOfEntry(engine, logits, enc, m);
    }
    forall k | cuts[x] <= k < cuts[y] ensures Covered(cuts, x, y, k) {
      var m := PieceOf(enc.words, x, y, k);
      assert Within(cuts, m, k);
    }
    EntriesTop(engine, logits, cuts, list, x, y, s);
  }

  predicate Within(cuts: seq<nat>, m: nat, k: int) {
    m + 1 < |cuts| && cuts[m] <= k < cuts[m + 1]
  }

  predicate Covered(cuts: seq<nat>, x: nat, y: nat, k: int) {
    exists m :: x <= m < y && Within(cuts, m, k)
  }

  /** An entry's score is the largest confidence of its tokens, which lie between `a` and `z`. */
  ghost predicate EntryTop(engine: Engine, logits: seq<real>, cuts: seq<nat>, list: seq<Tag>, m: nat, a: nat, z: nat)
    requires |cuts| == |list| + 1 && m < |list|
  {
    a <= cuts[m] < cuts[m + 1] <= z && TopOfTokens(engine, logits, cuts[m], cuts[m + 1], list[m].score)
  }

  lemma EntriesTop(engine: Engine, logits: seq<real>, cuts: seq<nat>, list: seq<Tag>, x: nat, y: nat, s: real)
    requires |cuts| == |list| + 1 && x < y <= |list|
    requires forall m :: x <= m < y ==> EntryTop(engine, logits, cuts, list, m, cuts[x], cuts[y])
    requires forall k :: cuts[x] <= k < cuts[y] ==> Covered(cuts, x, y, k)
    ensures TopOfList(list, x, y, s) <==> TopOfTokens(engine, logits, cuts[x], cuts[y], s)
  {
    hide Confidence;
    if TopOfList(list, x, y, s) {
      forall k | cuts[x] <= k < cuts[y] ensures Confidence(engine, logits, k) <= s {
        assert Covered(cuts, x, y, k);
        var m :| x <= m < y && Within(cuts, m, k);
        assert EntryTop(engine, logits, cuts, list, m, cuts[x], cuts[y]);
      }
      var m :| x <= m < y && list[m].score == s;
      assert EntryTop(engine, logits, cuts, list, m, cuts[x], cuts[y]);
    }
    if TopOfTokens(engine, logits, cuts[x], cuts[y], s) {
      forall m | x <= m < y ensures list[m].score <= s {
        assert EntryTop(engine, logits, cuts, list, m, cuts[x], cuts[y]);
        var k :| cuts[m] <= k < cuts[m + 1] && Confidence(engine, logits, k) == list[m].score;
        assert Confidence(engine, logits, k) <= s;
      }
      var k :| cuts[x] <= k < cuts[y] && Confidence(engine, logits, k) == s;
      assert Covered(cuts, x, y, k);
      var m :| x <= m < y && Within(cuts, m, k);
      assert EntryTop(engine, logits, cuts, list, m, cuts[x], cuts[y]);
      assert list[m].score == s;
    }
  }

  lemma TokensOfRun(engine: Engine, logits: seq<real>, enc: Encoding, a: nat, z: nat, entity: Entity)
    requires enc.Aligned() && EntityRun(engine, logits, enc, a, z, entity)
    ensures a < z <= |enc.words| && forall k :: a <= k < z ==> enc.words[k].Some?
  {
  }

  // ----- the main result -----

  /**
   * The spans decoded from a row are exactly those of the maximal runs of words of one entity: a word is labelled by
   * the largest of its first token's own logits, and a run scores the largest confidence of any of its tokens.
   */
  lemma DecodedExactly(engine: Engine, logits: seq<real>, enc: Encoding, span: Span)
    requires enc.Aligned()
    ensures span in RowSpans(engine, logits, enc) <==> exists a, z :: SpanOfTokens(engine, logits, enc, a, z, span)
  {
    hide Says, Listed, Words, Tags, EntityRun, MaximalRun, SpanOfTokens, SpansFrom;
    var cuts, list, words := Cuts(enc.words, 0), Listed(engine, logits, enc), enc.words;
    Listing(engine, logits, enc);
    ListedIs(engine, logits, enc);
    AllEntriesSay(engine, logits, enc, span.entity);
    SpansAreRuns(list, 0, engine.threshold, engine.note, span);
    if span in RowSpans(engine, logits, enc) {
      var x: nat, y: nat :| SpanOfRun(list, x, y, engine.threshold, span);
      RunParts(list, x, y, span.entity);
      RunToTokens(engine, logits, enc, x, y, span.entity);
      ScoresAgree(engine, logits, enc, x, y, span.entity, span);
    }
    if a: nat, z: nat :| SpanOfTokens(engine, logits, enc, a, z, span) {
      var x, y := CutsOfRun(engine, logits, enc, a, z, span);
      TokensToRun(engine, logits, enc, x, y, span.entity);
      ScoresAgree(engine, logits, enc, x, y, span.entity, span);
      assert FromRun(list, 0, engine.threshold, span);
    }
  }

  lemma ListedIs(engine: Engine, logits: seq<real>, enc: Encoding)
    requires enc.Aligned()
    ensures RowSpans(engine, logits, enc) == SpansFrom(Listed(engine, logits, enc), 0, engine.threshold, engine.note)
  {
  }

  lemma RunParts(list: seq<Tag>, x: nat, y: nat, entity: Entity)
    requires MaximalRun(list, x, y)
    ensures x < y <= |list| && list[x].entity.Some?
  {
  }

  lemma CutsOfRun(engine: Engine, logits: seq<real>, enc: Encoding, a: nat, z: nat, span: Span)
    returns (x: nat, y: nat)
    requires enc.Aligned() && SpanOfTokens(engine, logits, enc, a, z, span)
    ensures var cuts := Cuts(enc.words, 0);
            && x < y < |cuts| && cuts[x] == a && cuts[y] == z
            && EntityRun(engine, logits, enc, a, z, span.entity)
  {
    hide Says, FollowsEntity, Confidence;
    x := CutFound(enc.words, 0, a);
    y := CutFound(enc.words, 0, z);
    CutsGrow(enc.words, 0);
  }

  // ----- locality -----

  /** The two rows of logits agree on token `t`. */
  predicate AgreeAt(engine: Engine, logits: seq<real>, logits': seq<real>, t: nat) {
    Own(engine, logits, t) == Own(engine, logits', t)
  }

  /**
   * Whether a run of tokens gives a span, and which, depends on the logits of its own tokens, of the word before it and
   * of the token behind it only.
   */
  lemma RunIsLocal(engine: Engine, logits: seq<real>, logits': seq<real>, enc: Encoding, a: nat, z: nat, span: Span)
    requires enc.Aligned()
    requires forall t :: a <= t <= z ==> AgreeAt(engine, logits, logits', t)
    requires a > 0 ==> forall p :: StartOf(enc.words, p, a - 1) ==> AgreeAt(engine, logits, logits', p)
    ensures SpanOfTokens(engine, logits, enc, a, z, span) <==> SpanOfTokens(engine, logits', enc, a, z, span)
  {
    hide Says, Own, Confidence, StartOf, Starts;
    forall t, entity, begin | AgreeAt(engine, logits, logits', t)
      ensures Says(engine, logits, t, entity, begin) <==> Says(engine, logits', t, entity, begin)
    {
      TokenIsLocal(engine, logits, logits', t, entity, begin);
    }
    forall t | AgreeAt(engine, logits, logits', t)
      ensures Confidence(engine, logits, t) == Confidence(engine, logits', t)
    {
      TokenIsLocal(engine, logits, logits', t, 0, false);
    }
    assert FollowsEntity(engine, logits, enc, a, span.entity) <==> FollowsEntity(engine, logits', enc, a, span.entity);
    assert EntityRun(engine, logits, enc, a, z, span.entity) <==> EntityRun(engine, logits', enc, a, z, span.entity);
  }

  lemma TokenIsLocal(engine: Engine, logits: seq<real>, logits': seq<real>, t: nat, entity: Entity, begin: bool)
    requires AgreeAt(engine, logits, logits', t)
    ensures Says(engine, logits, t, entity, begin) <==> Says(engine, logits', t, entity, begin)
    ensures Confidence(engine, logits, t) == Confidence(engine, logits', t)
  {
    hide Own, Wins, IsLabelOf;
  }
}
