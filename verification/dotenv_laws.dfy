/** Env files printed with quoted values read back exactly. */
module DotenvLaws {
  import opened Common
  import opened TemplateRules
  import opened TemplateLaws
  import opened DotenvRules

  predicate ValidKey(key: string, letters: char -> bool) {
    key != "" && forall i :: 0 <= i < |key| ==> IsKeyChar(key[i], letters)
  }

  /** Escapes what double quotes treat specially: backslash, quote and dollar. */
  function EscapeChar(c: char): string {
    if c == '\\' || c == '"' || c == '$' then ['\\', c] else [c]
  }

  function EscapeValue(value: string): string {
    if value == "" then "" else EscapeChar(value[0]) + EscapeValue(value[1..])
  }

  function PrintEntry(key: string, value: string): string {
    key + "=\"" + EscapeValue(value) + "\"\n"
  }

  function Print(entries: seq<(string, string)>): string {
    if entries == [] then "" else PrintEntry(entries[0].0, entries[0].1) + Print(entries[1..])
  }

  // ----- one value -----

  /** A value between its quotes: escaped quotes are bare again, other escapes still stand. */
  function Unquoted(value: string): string {
    if value == "" then ""
    else UnquotedChar(value[0]) + Unquoted(value[1..])
  }

  function UnquotedChar(c: char): string {
    if c == '\\' || c == '$' then ['\\', c] else [c]
  }

  lemma Reassociate(a: string, b: string, c: string, d: string)
    ensures a + b + c + d == a + (b + c + d)
  {
  }

  lemma {:induction false} QuotedReads(value: string, tail: string, chars: string)
    ensures Quoted(EscapeValue(value) + "\"" + tail, '"', false, chars)
            == Some((chars + Unquoted(value), |EscapeValue(value)| + 1))
    decreases |value|
  {
    if value == "" {
      QuoteEnds(tail, chars);
    } else {
      hide Quoted, EscapeChar, UnquotedChar;
      var e, u := EscapeChar(value[0]), UnquotedChar(value[0]);
      var escaped, unquoted := EscapeValue(value[1..]), Unquoted(value[1..]);
      QuotedReads(value[1..], tail, chars + u);
      Reassociate(e, escaped, "\"", tail);
      QuotedChar(e + escaped + "\"" + tail, value[0], escaped + "\"" + tail, chars);
      assert (chars + u) + unquoted == chars + (u + unquoted);
      assert EscapeValue(value) == e + escaped && Unquoted(value) == u + unquoted;
    }
  }

  lemma QuoteEnds(tail: string, chars: string)
    ensures Quoted("" + "\"" + tail, '"', false, chars) == Some((chars + "", 1))
  {
    assert chars + "" == chars && ("" + "\"" + tail)[0] == '"';
  }

  /** An escaped character is read in one or two steps. */
  lemma QuotedChar(s: string, c: char, rest: string, chars: string)
    requires s == EscapeChar(c) + rest
    ensures var r := Quoted(rest, '"', false, chars + UnquotedChar(c));
            Quoted(s, '"', false, chars)
            == if r.None? then None else Some((r.value.0, |EscapeChar(c)| + r.value.1))
  {
    if |EscapeChar(c)| == 2 {
      assert s[0] == '\\' && s[1..][0] == c && s[1..][1..] == rest;
      assert chars + "\\" + [c] == chars + ['\\', c];
    } else {
      assert s[0] == c && s[1..] == rest && chars + "" + [c] == chars + [c];
    }
  }

  lemma EscapeOfPair(s: string)
    requires |s| >= 2 && s[0] == '\\' && (s[1] == '\\' || s[1] == '$')
    ensures Escape(s) == (if s[1] == '$' then "$$" else "\\", 2)
  {
  }

  lemma {:induction false} ExpandUnquoted(value: string)
    ensures ExpandEscapes(Unquoted(value)) == DoubleDollars(value)
  {
    hide Escape;
    if value != "" {
      var u := Unquoted(value);
      ExpandUnquoted(value[1..]);
      if value[0] == '\\' || value[0] == '$' {
        assert u[0] == '\\' && u[1] == value[0] && u[2..] == Unquoted(value[1..]);
        assert value[..1] == [value[0]];
        EscapeOfPair(u);
      } else {
        assert u[0] == value[0] && u[1..] == Unquoted(value[1..]) && u[..1] == value[..1];
      }
    }
  }

  lemma ExtractPrinted(value: string, tail: string)
    ensures ExtractValue("\"" + EscapeValue(value) + "\"" + tail)
            == Raw(DoubleDollars(value), true, |EscapeValue(value)| + 2)
  {
    var src := "\"" + EscapeValue(value) + "\"" + tail;
    assert src[1..] == EscapeValue(value) + "\"" + tail;
    QuotedReads(value, tail, "");
    assert "" + Unquoted(value) == Unquoted(value);
    ExpandUnquoted(value);
  }

  // ----- one key -----

  lemma {:induction false} ScanPrintedKey(s: string, key: string, i: nat, letters: char -> bool)
    requires i <= |key| < |s| && s[..|key|] == key && s[|key|] == '='
    requires forall k :: 0 <= k < |key| ==> IsKeyChar(key[k], letters)
    ensures ScanKey(s, i, letters) == Key(|key|, |key| + 1, false)
    decreases |key| - i
  {
    if i < |key| {
      assert s[i] == s[..|key|][i] == key[i];
      ScanPrintedKey(s, key, i + 1, letters);
    }
  }

  lemma NoExport(s: string, key: string, letters: char -> bool)
    requires |key| < |s| && s[..|key|] == key && s[|key|] == '='
    requires ValidKey(key, letters)
    ensures ExportLength(s) == 0
  {
    if "export" <= s && |s| > 6 {
      assert forall i :: 0 <= i < 6 ==> s[i] == "export"[i];
      assert |key| >= 6;
      if |key| > 6 { assert s[6] == s[..|key|][6] == key[6]; }
    }
  }

  // ----- one statement -----

  lemma {:induction false} NewlinesConcat(a: string, b: string)
    ensures Newlines(a + b) == Newlines(a) + Newlines(b)
  {
    if a == "" {
      assert a + b == b;
    } else {
      assert (a + b)[1..] == a[1..] + b;
      NewlinesConcat(a[1..], b);
    }
  }

  lemma StartsAt(text: string, pos: nat, gap: string)
    requires gap == "" || gap == "\n"
    requires pos + |gap| < |text| && text[pos..pos + |gap|] == gap
    requires !IsWhitespace(text[pos + |gap|]) && text[pos + |gap|] != '#'
    ensures StatementStart(text, pos) == Some(pos + |gap|)
  {
    if gap == "\n" {
      assert text[pos] == text[pos..pos + 1][0] == '\n';
      assert text[pos..][1..] == text[pos + 1..];
      assert WhitespaceLength(text[pos..]) == 1 + WhitespaceLength(text[pos + 1..]);
      assert WhitespaceLength(text[pos + 1..]) == 0;
    }
  }

  lemma KeyRead(s: string, key: string, rest: string, letters: char -> bool)
    requires s == key + "=" + rest && ValidKey(key, letters)
    ensures ExportLength(s) == 0 && ScanKey(s, 0, letters) == Key(|key|, |key| + 1, false)
    ensures s[..|key|] == key && s[|key| + 1..] == rest
    ensures TrimEnd(key) == key && ' ' !in key
  {
    hide ScanKey;
    assert s[..|key|] == key && s[|key|] == '=' && s[|key| + 1..] == rest;
    NoExport(s, key, letters);
    ScanPrintedKey(s, key, 0, letters);
    assert IsKeyChar(key[|key| - 1], letters);
  }

  /** A printed entry sets its key to its value on its line, and nothing else. */
  lemma StatementReads(text: string, start: nat, key: string, value: string, tail: string, state: State,
                       context: Context)
    requires start < |text| && text[start..] == PrintEntry(key, value) + tail && ValidKey(key, context.letters)
    ensures Statement(text, start, state, context)
            == Next(state.(entries := state.entries[key := (value, LineOf(text, start))]),
                    Some(start + |PrintEntry(key, value)| - 1))
  {
    hide ScanKey, ExtractValue, Assign, ExportLength, TrimEnd, Visible, LineOf, EscapeValue, ValidKey;
    var s := text[start..];
    var rest := "\"" + EscapeValue(value) + "\"" + ("\n" + tail);
    assert s == key + "=" + rest;
    KeyRead(s, key, rest, context.letters);
    assert rest[0] == '"' && SpaceLength(rest) == 0;
    assert text[start + |key| + 1..] == s[|key| + 1..];
    ExtractPrinted(value, "\n" + tail);
    AssignLiteral(state, LineOf(text, start), key, value, Visible(context, state.entries));
  }

  lemma AssignLiteral(state: State, line: nat, key: string, value: string, lookup: Lookup)
    ensures Assign(state, line, key, DoubleDollars(value), true, lookup)
            == state.(entries := state.entries[key := (value, line)])
  {
    DoubledIsLiteral(value, lookup);
    assert Warnings(line, key, []) == [] && state.warnings + [] == state.warnings;
  }

  // ----- the whole file -----

  /** The entries after assigning each printed line in turn, the first one on line `line`. */
  function Assigned(list: seq<(string, string)>, line: nat, entries: Entries): Entries
    decreases |list|
  {
    if list == [] then entries
    else Assigned(list[1..], line + Newlines(PrintEntry(list[0].0, list[0].1)), entries[list[0].0 := (list[0].1, line)])
  }

  lemma LineAfter(text: string, start: nat, entry: string, tail: string)
    requires start <= |text| && text[start..] == entry + tail
    ensures LineOf(text, start + |entry|) == LineOf(text, start) + Newlines(entry)
  {
    assert text[..start + |entry|] == text[..start] + entry by {
      assert entry == text[start..][..|entry|];
    }
    NewlinesConcat(text[..start], entry);
  }

  lemma {:induction false} ParseReads(text: string, pos: nat, gap: string, list: seq<(string, string)>, state: State,
                                      context: Context)
    requires gap == "" || gap == "\n"
    requires pos <= |text| && text[pos..] == gap + Print(list)
    requires forall i :: 0 <= i < |list| ==> ValidKey(list[i].0, context.letters)
    ensures ParseFrom(text, pos, state, context)
            == state.(entries := Assigned(list, LineOf(text, pos + |gap|), state.entries))
    decreases |list|
  {
    hide Statement, LineOf, Newlines, PrintEntry, StatementStart, ValidKey;
    if list == [] {
      NothingLeft(text, pos, gap);
    } else {
      var key, value := list[0].0, list[0].1;
      var entry := PrintEntry(key, value);
      var start := pos + |gap|;
      var tail := Print(list[1..]);
      EntryAt(text, pos, gap, key, value, tail, context.letters);
      StatementReads(text, start, key, value, tail, state, context);
      LineAfter(text, start, entry, tail);
      var state' := state.(entries := state.entries[key := (value, LineOf(text, start))]);
      ParseReads(text, start + |entry| - 1, "\n", list[1..], state', context);
    }
  }

  lemma NothingLeft(text: string, pos: nat, gap: string)
    requires (gap == "" || gap == "\n") && pos <= |text| && text[pos..] == gap
    ensures StatementStart(text, pos).None?
  {
    if gap == "\n" { assert text[pos..][1..] == ""; }
    assert WhitespaceLength(text[pos..]) == |gap|;
  }

  lemma KeyStarts(key: string, letters: char -> bool)
    requires ValidKey(key, letters)
    ensures key != "" && !IsWhitespace(key[0]) && key[0] != '#'
  {
    assert IsKeyChar(key[0], letters);
  }

  lemma EntryAt(text: string, pos: nat, gap: string, key: string, value: string, tail: string, letters: char -> bool)
    requires (gap == "" || gap == "\n") && pos <= |text| && text[pos..] == gap + (PrintEntry(key, value) + tail)
    requires ValidKey(key, letters)
    ensures var start := pos + |gap|;
            var entry := PrintEntry(key, value);
            && |entry| > 0 && start + |entry| <= |text|
            && StatementStart(text, pos) == Some(start)
            && text[start..] == entry + tail
            && text[start + |entry| - 1..] == "\n" + tail
  {
    hide StatementStart, EscapeValue, ValidKey, IsKeyChar, IsWhitespace;
    var start := pos + |gap|;
    var entry := PrintEntry(key, value);
    KeyStarts(key, letters);
    SuffixAfter(text, pos, gap, entry + tail);
    assert entry + tail == entry[..|entry| - 1] + ("\n" + tail);
    SuffixAfter(text, start, entry[..|entry| - 1], "\n" + tail);
    assert text[start] == text[start..][0] == key[0];
    StartsAt(text, pos, gap);
  }

  /** `i` is the last place where its key is set. */
  predicate LastOfKey(list: seq<(string, string)>, i: int)
    requires 0 <= i < |list|
  {
    forall j :: i < j < |list| ==> list[j].0 != list[i].0
  }

  function Keys(list: seq<(string, string)>): set<string> {
    set i | 0 <= i < |list| :: list[i].0
  }

  lemma KeysStep(list: seq<(string, string)>)
    requires list != []
    ensures Keys(list) == {list[0].0} + Keys(list[1..])
    ensures LastOfKey(list, 0) <==> list[0].0 !in Keys(list[1..])
    ensures forall i :: 0 < i < |list| ==> (LastOfKey(list, i) <==> LastOfKey(list[1..], i - 1))
  {
    var rest := list[1..];
    assert forall j :: 0 <= j < |rest| ==> rest[j] == list[j + 1];
    forall i | 0 < i < |list| ensures list[i] == rest[i - 1] && (LastOfKey(list, i) <==> LastOfKey(rest, i - 1)) {
      if LastOfKey(rest, i - 1) {
        forall j | i < j < |list| ensures list[j].0 != list[i].0 { assert rest[j - 1] == list[j]; }
      }
    }
    if list[0].0 !in Keys(rest) {
      forall j | 0 < j < |list| ensures list[j].0 != list[0].0 { assert rest[j - 1] == list[j]; }
    }
  }

  lemma {:induction false} AssignedKeys(list: seq<(string, string)>, line: nat, entries: Entries)
    ensures Assigned(list, line, entries).Keys == entries.Keys + Keys(list)
    ensures forall key :: key in entries && key !in Keys(list) ==> Assigned(list, line, entries)[key] == entries[key]
    decreases |list|
  {
    if list != [] {
      KeysStep(list);
      AssignedKeys(list[1..], line + Newlines(PrintEntry(list[0].0, list[0].1)),
                   entries[list[0].0 := (list[0].1, line)]);
    }
  }

  lemma {:induction false} AssignedIsLast(list: seq<(string, string)>, line: nat, entries: Entries, i: nat)
    requires i < |list| && LastOfKey(list, i)
    ensures list[i].0 in Assigned(list, line, entries)
    ensures Assigned(list, line, entries)[list[i].0] == (list[i].1, line + Newlines(Print(list[..i])))
    decreases |list|
  {
    var first := PrintEntry(list[0].0, list[0].1);
    var entries' := entries[list[0].0 := (list[0].1, line)];
    KeysStep(list);
    if i == 0 {
      AssignedKeys(list[1..], line + Newlines(first), entries');
    } else {
      AssignedIsLast(list[1..], line + Newlines(first), entries', i - 1);
      assert list[..i][1..] == list[1..][..i - 1] && list[..i][0] == list[0];
      NewlinesConcat(first, Print(list[1..][..i - 1]));
    }
  }

  lemma PrintStarts(list: seq<(string, string)>, letters: char -> bool)
    requires forall i :: 0 <= i < |list| ==> ValidKey(list[i].0, letters)
    ensures WithoutMark(Print(list)) == Print(list) && LineOf(Print(list), 0) == 1
  {
    if list != [] {
      var key := list[0].0;
      assert Print(list)[0] == key[0] && IsKeyChar(key[0], letters);
    }
  }

  lemma PrintedFileParses(list: seq<(string, string)>, context: Context)
    requires forall i :: 0 <= i < |list| ==> ValidKey(list[i].0, context.letters)
    ensures Parse(Print(list), context) == Ok(Parsed(Assigned(list, 1, map[]), []))
  {
    hide ParseFrom, Print, ValidKey, Assigned, WithoutMark, LineOf;
    var text := Print(list);
    PrintStarts(list, context.letters);
    assert text[0..] == "" + text;
    ParseReads(text, 0, "", list, State(map[], [], []), context);
  }

  /**
   * Printed valid keys with arbitrary values parse to the last value of each key on its own line, without errors or
   * warnings and whatever the environment around them holds.
   */
  lemma PrintedFileReadsBack(list: seq<(string, string)>, context: Context)
    requires forall i :: 0 <= i < |list| ==> ValidKey(list[i].0, context.letters)
    ensures var r := Parse(Print(list), context);
            && r.Ok? && r.value.warnings == []
            && r.value.entries.Keys == Keys(list)
            && forall i :: 0 <= i < |list| && LastOfKey(list, i) ==>
                 r.value.entries[list[i].0] == (list[i].1, 1 + Newlines(Print(list[..i])))
  {
    hide Parse, Print, ValidKey, Assigned, Newlines, LastOfKey;
    PrintedFileParses(list, context);
    AssignedKeys(list, 1, map[]);
    forall i | 0 <= i < |list| && LastOfKey(list, i)
      ensures Assigned(list, 1, map[])[list[i].0] == (list[i].1, 1 + Newlines(Print(list[..i])))
    {
      AssignedIsLast(list, 1, map[], i);
    }
  }
}
