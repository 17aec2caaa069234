/** Engines that forget nothing exist: results can spell out what they were computed from. */
module FreeEngines {
  import opened QueryMeaning
  import opened LineageExactness

  /** What follows a code word shows where it ends. */
  ghost predicate SelfDelimiting<T(!new)>(code: T -> string) {
    forall a: T, a': T, r: string, r': string :: code(a) + r == code(a') + r' ==> a == a' && r == r'
  }

  function NatCode(n: nat): string {
    if n == 0 then "." else "1" + NatCode(n - 1)
  }

  lemma {:induction false} NatDelimits(n: nat, n': nat, r: string, r': string)
    requires NatCode(n) + r == NatCode(n') + r'
    ensures n == n' && r == r'
  {
    var s, s' := NatCode(n) + r, NatCode(n') + r';
    NatFirst(n, r);
    NatFirst(n', r');
    if n > 0 && n' > 0 { NatDelimits(n - 1, n' - 1, r, r'); }
  }

  lemma NatFirst(n: nat, r: string)
    ensures var s := NatCode(n) + r;
            s[0] == (if n == 0 then '.' else '1') && s[1..] == if n == 0 then r else NatCode(n - 1) + r
  {
    if n > 0 { assert "1" + NatCode(n - 1) + r == "1" + (NatCode(n - 1) + r); }
  }

  lemma Regroup(a: string, b: string, r: string)
    ensures a + b + r == a + (b + r)
  {
  }

  function TextCode(s: string): string {
    NatCode(|s|) + s
  }

  lemma TextDelimits()
    ensures SelfDelimiting(TextCode)
  {
    forall s: string, s': string, r: string, r': string | TextCode(s) + r == TextCode(s') + r'
      ensures s == s' && r == r'
    {
      Regroup(NatCode(|s|), s, r);
      Regroup(NatCode(|s'|), s', r');
      NatDelimits(|s|, |s'|, s + r, s' + r');
      assert (s + r)[..|s|] == s && (s' + r')[..|s|] == s' && (s + r)[|s|..] == r && (s' + r')[|s|..] == r';
    }
  }

  function ValueCode(v: Value): string {
    match v
    case Null => "n"
    case Int(n) => (if n < 0 then "-" else "+") + NatCode(if n < 0 then -n else n)
    case Text(s) => "t" + TextCode(s)
  }

  lemma ValueDelimits()
    ensures SelfDelimiting(ValueCode)
  {
    TextDelimits();
    forall v: Value, v': Value, r: string, r': string | ValueCode(v) + r == ValueCode(v') + r'
      ensures v == v' && r == r'
    {
      var s, s' := ValueCode(v) + r, ValueCode(v') + r';
      assert s[0] == ValueCode(v)[0] && s'[0] == ValueCode(v')[0];
      match v
      case Null => assert s[1..] == r && s'[1..] == r';
      case Int(n) =>
        var m, m' := if n < 0 then -n else n, if v'.n < 0 then -v'.n else v'.n;
        assert s[1..] == NatCode(m) + r && s'[1..] == NatCode(m') + r';
        NatDelimits(m, m', r, r');
      case Text(t) =>
        assert s[1..] == TextCode(t) + r && s'[1..] == TextCode(v'.s) + r';
    }
  }

  function AllCodes<T>(code: T -> string, s: seq<T>): string {
    if s == [] then "" else code(s[0]) + AllCodes(code, s[1..])
  }

  function SeqCode<T>(code: T -> string, s: seq<T>): string {
    NatCode(|s|) + AllCodes(code, s)
  }

  lemma {:induction false} AllDelimit<T(!new)>(code: T -> string, s: seq<T>, s': seq<T>, r: string, r': string)
    requires SelfDelimiting(code) && |s| == |s'| && AllCodes(code, s) + r == AllCodes(code, s') + r'
    ensures s == s' && r == r'
  {
    if s != [] {
      Regroup(code(s[0]), AllCodes(code, s[1..]), r);
      Regroup(code(s'[0]), AllCodes(code, s'[1..]), r');
      var rest, rest' := AllCodes(code, s[1..]) + r, AllCodes(code, s'[1..]) + r';
      assert code(s[0]) + rest == code(s'[0]) + rest';
      AllDelimit(code, s[1..], s'[1..], r, r');
      assert s == [s[0]] + s[1..] && s' == [s'[0]] + s'[1..];
    } else {
      assert "" + r == r && "" + r' == r';
    }
  }

  lemma SeqDelimits<T(!new)>(code: T -> string, s: seq<T>, s': seq<T>, r: string, r': string)
    requires SelfDelimiting(code) && SeqCode(code, s) + r == SeqCode(code, s') + r'
    ensures s == s' && r == r'
  {
    Regroup(NatCode(|s|), AllCodes(code, s), r);
    Regroup(NatCode(|s'|), AllCodes(code, s'), r');
    NatDelimits(|s|, |s'|, AllCodes(code, s) + r, AllCodes(code, s') + r');
    AllDelimit(code, s, s', r, r');
  }

  function ColumnCode(c: Column): string {
    (if c.name.None? then "0" else "1" + TextCode(c.name.value)) + SeqCode(ValueCode, c.cells)
  }

  lemma ColumnDelimits()
    ensures SelfDelimiting(ColumnCode)
  {
    TextDelimits();
    ValueDelimits();
    forall c: Column, c': Column, r: string, r': string | ColumnCode(c) + r == ColumnCode(c') + r'
      ensures c == c' && r == r'
    {
      var s, s' := ColumnCode(c) + r, ColumnCode(c') + r';
      var cells, cells' := SeqCode(ValueCode, c.cells) + r, SeqCode(ValueCode, c'.cells) + r';
      assert s[0] == (if c.name.None? then '0' else '1') && s'[0] == (if c'.name.None? then '0' else '1');
      assert s[1..] == (if c.name.None? then cells else TextCode(c.name.value) + cells);
      assert s'[1..] == (if c'.name.None? then cells' else TextCode(c'.name.value) + cells');
      assert c.name == c'.name && cells == cells';
      SeqDelimits(ValueCode, c.cells, c'.cells, r, r');
    }
  }

  /** An engine whose every result spells out its arguments. */
  function Spelling(): Engine {
    Engine((op: string, args: seq<Value>) => Value.Text(TextCode(op) + SeqCode(ValueCode, args)),
           (t: ResultSet) => Value.Text(NatCode(t.rows) + SeqCode(ColumnCode, t.cols)))
  }

  lemma SpellingIsFree()
    ensures Free(Spelling())
  {
    var engine := Spelling();
    TextDelimits();
    ValueDelimits();
    ColumnDelimits();
    forall op: string, a: seq<Value>, a': seq<Value> | engine.apply(op, a) == engine.apply(op, a') ensures a == a' {
      var c, c' := SeqCode(ValueCode, a), SeqCode(ValueCode, a');
      assert TextCode(op) + c == TextCode(op) + c';
      assert c + "" == c && c' + "" == c';
      SeqDelimits(ValueCode, a, a', "", "");
    }
    forall t: ResultSet, t': ResultSet | engine.subquery(t) == engine.subquery(t') ensures t == t' {
      var c, c' := SeqCode(ColumnCode, t.cols), SeqCode(ColumnCode, t'.cols);
      NatDelimits(t.rows, t'.rows, c, c');
      assert c + "" == c && c' + "" == c';
      SeqDelimits(ColumnCode, t.cols, t'.cols, "", "");
    }
  }
}
