/** Which string leaves of a JSON payload a walk reaches, under which key words, and what becomes of them. */
module WalkRules {
  import opened Common
  import opened SpanOverlap
  import opened AnonymizerRules

  /** A JSON value; a string leaf is the slot its text is stored in, so that texts can be rewritten in place. */
  datatype Value =
    | Text(slot: nat)
    | Scalar(literal: string)
    | Array(items: seq<Value>)
    | Object(fields: seq<Field>)

  datatype Field = Field(key: string, value: Value)

  // ----- key words -----

  predicate IsAsciiAlphanumeric(c: char) {
    'a' <= c <= 'z' || 'A' <= c <= 'Z' || '0' <= c <= '9'
  }

  function Word(buffer: string): seq<string> {
    if buffer == "" then [] else [buffer]
  }

  /** The lowercase words of `key`, the first one continuing `buffer`. */
  function WordsFrom(key: string, buffer: string): seq<string>
    decreases |key|
  {
    if key == "" then Word(buffer)
    else if IsAsciiAlphanumeric(key[0]) then WordsFrom(key[1..], buffer + [FoldChar(key[0])])
    else Word(buffer) + WordsFrom(key[1..], "")
  }

  function KeyWords(key: string): seq<string> {
    WordsFrom(key, "")
  }

  // ----- leaves in visiting order -----

  /** A leaf and the key words on the way to it. */
  datatype Visit = Visit(slot: nat, path: seq<string>)

  /** Children are visited last to first. */
  function Visits(value: Value, path: seq<string>): seq<Visit>
    decreases value, 0
  {
    match value
    case Text(slot) => [Visit(slot, path)]
    case Scalar(_) => []
    case Array(items) => ItemVisits(items, path)
    case Object(fields) => FieldVisits(fields, path)
  }

  function ItemVisits(items: seq<Value>, path: seq<string>): seq<Visit>
    decreases items, 0
  {
    if items == [] then []
    else
      var n := |items| - 1;
      Visits(items[n], path) + ItemVisits(items[..n], path)
  }

  function FieldVisits(fields: seq<Field>, path: seq<string>): seq<Visit>
    decreases fields, 0
  {
    if fields == [] then []
    else
      var n := |fields| - 1;
      Visits(fields[n].value, path + KeyWords(fields[n].key)) + FieldVisits(fields[..n], path)
  }

  /** All rows are visited first to last. */
  function RowVisits(rows: seq<Value>): seq<Visit> {
    if rows == [] then [] else Visits(rows[0], []) + RowVisits(rows[1..])
  }

  // ----- leaves by position -----

  /** Following `address` from `value` leads to the leaf `slot`, with the key words `path` on the way. */
  predicate Leads(value: Value, address: seq<nat>, slot: nat, path: seq<string>)
    decreases value
  {
    match value
    case Text(s) => address == [] && s == slot && path == []
    case Scalar(_) => false
    case Array(items) => address != [] && address[0] < |items| && Leads(items[address[0]], address[1..], slot, path)
    case Object(fields) =>
      && address != [] && address[0] < |fields|
      && var words := KeyWords(fields[address[0]].key);
         words <= path && Leads(fields[address[0]].value, address[1..], slot, path[|words|..])
  }

  /** Some address leads to `visit` from `value`. */
  ghost predicate Reached(value: Value, prefix: seq<string>, visit: Visit) {
    prefix <= visit.path && exists address :: Leads(value, address, visit.slot, visit.path[|prefix|..])
  }

  ghost predicate ItemReached(items: seq<Value>, prefix: seq<string>, visit: Visit) {
    exists i :: 0 <= i < |items| && Reached(items[i], prefix, visit)
  }

  ghost predicate FieldReached(fields: seq<Field>, prefix: seq<string>, visit: Visit) {
    exists i :: 0 <= i < |fields| && Reached(fields[i].value, prefix + KeyWords(fields[i].key), visit)
  }

  lemma ArrayReached(items: seq<Value>, prefix: seq<string>, visit: Visit)
    ensures Reached(Array(items), prefix, visit) <==> ItemReached(items, prefix, visit)
  {
    if Reached(Array(items), prefix, visit) {
      var address :| Leads(Array(items), address, visit.slot, visit.path[|prefix|..]);
      assert Leads(items[address[0]], address[1..], visit.slot, visit.path[|prefix|..]);
      assert Reached(items[address[0]], prefix, visit);
    }
    if ItemReached(items, prefix, visit) {
      var i: nat :| i < |items| && Reached(items[i], prefix, visit);
      var address :| Leads(items[i], address, visit.slot, visit.path[|prefix|..]);
      assert ([i] + address)[1..] == address;
      assert Leads(Array(items), [i] + address, visit.slot, visit.path[|prefix|..]);
    }
  }

  lemma ObjectReached(fields: seq<Field>, prefix: seq<string>, visit: Visit)
    ensures Reached(Object(fields), prefix, visit) <==> FieldReached(fields, prefix, visit)
  {
    if Reached(Object(fields), prefix, visit) {
      var rest := visit.path[|prefix|..];
      var address :| Leads(Object(fields), address, visit.slot, rest);
      var i := address[0];
      var words := KeyWords(fields[i].key);
      assert visit.path[|prefix + words|..] == rest[|words|..];
      assert prefix + words <= visit.path by { assert visit.path == prefix + rest; }
      assert Leads(fields[i].value, address[1..], visit.slot, visit.path[|prefix + words|..]);
      assert Reached(fields[i].value, prefix + words, visit);
    }
    if FieldReached(fields, prefix, visit) {
      var i: nat :| i < |fields| && Reached(fields[i].value, prefix + KeyWords(fields[i].key), visit);
      var words := KeyWords(fields[i].key);
      var address :| Leads(fields[i].value, address, visit.slot, visit.path[|prefix + words|..]);
      var rest := visit.path[|prefix|..];
      assert words <= rest && rest[|words|..] == visit.path[|prefix + words|..];
      assert ([i] + address)[1..] == address;
      assert Leads(Object(fields), [i] + address, visit.slot, rest);
    }
  }

  /** The visits are exactly the leaves, each with the key words on its way; array positions add none. */
  lemma {:induction false} VisitsAreLeaves(value: Value, prefix: seq<string>, visit: Visit)
    ensures visit in Visits(value, prefix) <==> Reached(value, prefix, visit)
    decreases value, 1
  {
    match value
    case Text(slot) =>
      if visit == Visit(slot, prefix) {
        assert visit.path[|prefix|..] == [];
        assert Leads(value, [], visit.slot, visit.path[|prefix|..]);
      }
      if Reached(value, prefix, visit) {
        assert visit.path == prefix + visit.path[|prefix|..];
        assert visit == Visit(slot, prefix);
        assert visit in [Visit(slot, prefix)];
      }
    case Scalar(_) =>
    case Array(items) =>
      ArrayReached(items, prefix, visit);
      ItemVisitsAreLeaves(items, prefix, visit);
    case Object(fields) =>
      ObjectReached(fields, prefix, visit);
      FieldVisitsAreLeaves(fields, prefix, visit);
  }

  lemma {:induction false} ItemVisitsAreLeaves(items: seq<Value>, prefix: seq<string>, visit: Visit)
    ensures visit in ItemVisits(items, prefix) <==> ItemReached(items, prefix, visit)
    decreases items, 1
  {
    if items != [] {
      var n := |items| - 1;
      VisitsAreLeaves(items[n], prefix, visit);
      ItemVisitsAreLeaves(items[..n], prefix, visit);
      assert ItemReached(items, prefix, visit)
             <==> ItemReached(items[..n], prefix, visit) || Reached(items[n], prefix, visit) by {
        assert forall i :: 0 <= i < n ==> items[..n][i] == items[i];
      }
    }
  }

  lemma {:induction false} FieldVisitsAreLeaves(fields: seq<Field>, prefix: seq<string>, visit: Visit)
    ensures visit in FieldVisits(fields, prefix) <==> FieldReached(fields, prefix, visit)
    decreases fields, 1
  {
    if fields != [] {
      var n := |fields| - 1;
      VisitsAreLeaves(fields[n].value, prefix + KeyWords(fields[n].key), visit);
      FieldVisitsAreLeaves(fields[..n], prefix, visit);
      assert FieldReached(fields, prefix, visit) <==>
             FieldReached(fields[..n], prefix, visit)
             || Reached(fields[n].value, prefix + KeyWords(fields[n].key), visit) by {
        assert forall i :: 0 <= i < n ==> fields[..n][i] == fields[i];
      }
    }
  }

  /** The slots of a value's leaves, each as often as it occurs. */
  function Slots(value: Value): multiset<nat>
    decreases value, 0
  {
    match value
    case Text(slot) => multiset{slot}
    case Scalar(_) => multiset{}
    case Array(items) => ItemSlots(items)
    case Object(fields) => FieldSlots(fields)
  }

  function ItemSlots(items: seq<Value>): multiset<nat>
    decreases items, 0
  {
    if items == [] then multiset{} else Slots(items[|items| - 1]) + ItemSlots(items[..|items| - 1])
  }

  function FieldSlots(fields: seq<Field>): multiset<nat>
    decreases fields, 0
  {
    if fields == [] then multiset{} else Slots(fields[|fields| - 1].value) + FieldSlots(fields[..|fields| - 1])
  }

  function VisitedSlots(visits: seq<Visit>): seq<nat> {
    seq(|visits|, i requires 0 <= i < |visits| => visits[i].slot)
  }

  lemma VisitedConcat(a: seq<Visit>, b: seq<Visit>)
    ensures multiset(VisitedSlots(a + b)) == multiset(VisitedSlots(a)) + multiset(VisitedSlots(b))
  {
    assert VisitedSlots(a + b) == VisitedSlots(a) + VisitedSlots(b);
  }

  /** Each leaf is visited as often as it occurs. */
  lemma {:induction false} VisitsEachLeaf(value: Value, path: seq<string>)
    ensures multiset(VisitedSlots(Visits(value, path))) == Slots(value)
    decreases value, 1
  {
    match value
    case Text(slot) => assert VisitedSlots(Visits(value, path)) == [slot];
    case Scalar(_) =>
    case Array(items) => ItemVisitsEachLeaf(items, path);
    case Object(fields) => FieldVisitsEachLeaf(fields, path);
  }

  lemma {:induction false} ItemVisitsEachLeaf(items: seq<Value>, path: seq<string>)
    ensures multiset(VisitedSlots(ItemVisits(items, path))) == ItemSlots(items)
    decreases items, 1
  {
    if items != [] {
      var n := |items| - 1;
      VisitsEachLeaf(items[n], path);
      ItemVisitsEachLeaf(items[..n], path);
      VisitedConcat(Visits(items[n], path), ItemVisits(items[..n], path));
    }
  }

  lemma {:induction false} FieldVisitsEachLeaf(fields: seq<Field>, path: seq<string>)
    ensures multiset(VisitedSlots(FieldVisits(fields, path))) == FieldSlots(fields)
    decreases fields, 1
  {
    if fields != [] {
      var n := |fields| - 1;
      var inner := path + KeyWords(fields[n].key);
      VisitsEachLeaf(fields[n].value, inner);
      FieldVisitsEachLeaf(fields[..n], path);
      VisitedConcat(Visits(fields[n].value, inner), FieldVisits(fields[..n], path));
    }
  }

  // ----- what becomes of a leaf -----

  /** The recognisers: patterns with key words as context, and the optional batched model. */
  datatype Engine = Engine(patterns: (Bytes, seq<string>) -> seq<Span>,
                           model: Option<seq<Bytes> -> Result<seq<seq<Span>>, string>>,
                           minScore: real,
                           config: Config) {
    /** The model answers with one span list per text. */
    ghost predicate Aligned() {
      model.Some? ==> forall texts: seq<Bytes> :: model.value(texts).Ok? ==> |model.value(texts).value| == |texts|
    }
  }

  /** Model spans below the floor are dropped, then all spans compete. */
  function Merge(patterns: seq<Span>, model: seq<Span>, minScore: real): seq<Span> {
    Resolve(patterns + AtLeast(model, minScore))
  }

  function AtLeast(spans: seq<Span>, minScore: real): seq<Span> {
    if spans == [] then []
    else AtLeast(spans[..|spans| - 1], minScore)
         + if spans[|spans| - 1].score >= minScore then [spans[|spans| - 1]] else []
  }

  function Operations(text: Bytes, spans: seq<Span>, config: Config): seq<Operation> {
    Anonymize(text, spans, config).operations
  }

  /** The text after its spans are rewritten; untouched without operations. */
  function Redact(text: Bytes, spans: seq<Span>, config: Config): Bytes {
    if Operations(text, spans, config) == [] then text else Anonymize(text, spans, config).text
  }

  /** How often each entity was rewritten. */
  datatype Tally = Tally(total: nat, byEntity: map<Entity, nat>, leaves: nat)

  function Count(byEntity: map<Entity, nat>, entity: Entity): nat {
    if entity in byEntity then byEntity[entity] else 0
  }

  function CountOperations(tally: Tally, operations: seq<Operation>): Tally {
    if operations == [] then tally
    else
      var n := |operations| - 1;
      var before := CountOperations(tally, operations[..n]);
      var entity := operations[n].entity;
      before.(total := before.total + 1, byEntity := before.byEntity[entity := Count(before.byEntity, entity) + 1])
  }

  lemma {:induction false} CountsOperations(tally: Tally, operations: seq<Operation>)
    ensures var after := CountOperations(tally, operations);
            && after.total == tally.total + |operations| && after.leaves == tally.leaves
            && forall e :: Count(after.byEntity, e) == Count(tally.byEntity, e) + OfEntity(operations, e)
  {
    if operations != [] {
      CountsOperations(tally, operations[..|operations| - 1]);
    }
  }

  /** How many of the operations are of entity `e`. */
  function OfEntity(operations: seq<Operation>, e: Entity): nat {
    if operations == [] then 0
    else OfEntity(operations[..|operations| - 1], e) + if operations[|operations| - 1].entity == e then 1 else 0
  }

  /** A leaf without operations is left exactly as it was. */
  lemma UntouchedIsVerbatim(text: Bytes, spans: seq<Span>, config: Config)
    requires Operations(text, spans, config) == []
    ensures Redact(text, spans, config) == text == Anonymize(text, spans, config).text
  {
    AnonymizeWeaves(text, spans, config);
    assert text[0..] == text;
  }

  /** The merged spans are already resolved when the rewriter resolves them again. */
  lemma MergeIsResolved(patterns: seq<Span>, model: seq<Span>, minScore: real)
    ensures Resolve(Merge(patterns, model, minScore)) == Merge(patterns, model, minScore)
  {
    ResolveIsFinal(patterns + AtLeast(model, minScore));
  }
}
