/** The env file parser as the program runs it: one pass over the text, collecting entries, errors and warnings. */
module DotenvParser {
  import opened Common
  import opened TemplateRules
  import opened DotenvRules
  import TemplateEngine
  import TemplateLaws

  /** Skips white space and comment lines; returns the next statement's offset. */
  method StatementStart(text: string, from: nat) returns (r: Option<nat>)
    requires from <= |text|
    ensures r == DotenvRules.StatementStart(text, from)
  {
    hide WhitespaceLength, Find;
    var pos := from;
    while true
      invariant pos <= |text|
      invariant DotenvRules.StatementStart(text, pos) == DotenvRules.StatementStart(text, from)
      decreases |text| - pos
    {
      pos := pos + WhitespaceLength(text[pos..]);
      if pos == |text| {
        return None;
      }
      if text[pos] != '#' {
        return Some(pos);
      }
      TemplateEngine.FindPositive(text[pos..], '\n');
      var lineEnd := pos + Find(text[pos..], '\n');
      if lineEnd == |text| {
        return None;
      }
      pos := lineEnd;
    }
  }

  /** Reads a quoted value with an escape flag; the length includes both quotes. */
  method ReadQuoted(src: string) returns (r: Option<(string, nat)>)
    requires src != ""
    ensures r == More(Quoted(src[1..], src[0], false, ""), 1)
  {
    var quote := src[0];
    var chars := "";
    var escaped := false;
    ghost var whole := More(Quoted(src[1..], quote, false, ""), 1);
    for i := 1 to |src|
      invariant whole == More(Quoted(src[i..], quote, escaped, chars), i)
    {
      assert src[i..][1..] == src[i + 1..] && src[i..][0] == src[i];
      var c := src[i];
      if c == quote && !escaped {
        return Some((chars, i + 1));
      }
      if c != quote && !escaped && c == '\\' {
        escaped := true;
        continue;
      }
      assert chars + "" == chars;
      if c != quote && escaped {
        chars := chars + "\\";
      }
      escaped := false;
      chars := chars + [c];
    }
    return None;
  }

  lemma {:induction false} ExpandPlainPrefix(s: string, n: nat)
    requires n <= Find(s, '\\')
    ensures DotenvRules.ExpandEscapes(s) == s[..n] + DotenvRules.ExpandEscapes(s[n..])
    decreases n
  {
    hide Escape;
    if n == 0 {
      assert s[0..] == s && s[..0] == "";
    } else {
      ExpandPlainPrefix(s[1..], n - 1);
      assert s[1..][n - 1..] == s[n..] && s[..1] + s[1..][..n - 1] == s[..n];
    }
  }

  /** Copies up to each backslash and replaces the escape there. */
  lemma NothingExpands()
    ensures DotenvRules.ExpandEscapes("") == ""
  {
  }

  lemma EscapeStep(out: string, tail: string)
    requires tail != "" && tail[0] == '\\'
    ensures out + DotenvRules.ExpandEscapes(tail)
            == out + Escape(tail).0 + DotenvRules.ExpandEscapes(tail[Escape(tail).1..])
  {
    hide Escape;
  }

  method ExpandEscapes(value: string) returns (out: string)
    ensures out == DotenvRules.ExpandEscapes(value)
  {
    hide Escape, DotenvRules.ExpandEscapes, Find;
    out := "";
    var rest := value;
    while true
      invariant out + DotenvRules.ExpandEscapes(rest) == DotenvRules.ExpandEscapes(value)
      decreases |rest|
    {
      var i := Find(rest, '\\');
      ExpandPlainPrefix(rest, i);
      out := out + rest[..i];
      if i == |rest| {
        NothingExpands();
        break;
      }
      var tail := rest[i..];
      assert tail[0] == '\\' by { TemplateLaws.FindFirst(rest, '\\'); }
      var (replacement, len) := Escape(tail);
      EscapeStep(out, tail);
      out := out + replacement;
      rest := tail[len..];
    }
  }

  method ReadValue(src: string) returns (r: Extracted)
    ensures r == DotenvRules.ExtractValue(src)
  {
    if src == "" || (src[0] != '"' && src[0] != '\'') {
      var n := Find(src, '\n');
      return Raw(TrimEnd(BeforeComment(src[..n])), true, if n < |src| then n + 1 else n);
    }
    var quoted := ReadQuoted(src);
    if quoted.None? {
      return Unterminated;
    }
    var (value, len) := quoted.value;
    if src[0] == '"' {
      var expanded := ExpandEscapes(value);
      return Raw(expanded, true, len);
    }
    return Raw(value, false, len);
  }

  /** The lists a parse fills. */
  class Collected {
    var entries: Entries
    var errors: seq<LineError>
    var warnings: seq<Warning>

    constructor ()
      ensures Now() == State(map[], [], [])
    {
      entries, errors, warnings := map[], [], [];
    }

    ghost function Now(): State
      reads this
    {
      State(entries, errors, warnings)
    }

    method Error(line: nat, reason: Reason)
      modifies this
      ensures Now() == DotenvRules.Fail(old(Now()), line, reason)
    {
      errors := errors + [LineError(line, reason)];
    }

    /** Reads the statement at `start`; returns where to go on, or `None` after an unterminated quote. */
    method TakeStatement(text: string, start: nat, context: Context) returns (pos: Option<nat>)
      requires start < |text|
      modifies this
      ensures Next(Now(), pos) == Statement(text, start, old(Now()), context)
    {
      hide DotenvRules.ExtractValue, ScanKey, ExportLength, TrimEnd, LineOf, NextLine, SpaceLength, Assign;
      var line := LineOf(text, start);
      var consumed := start + ExportLength(text[start..]);
      var statement := text[consumed..];
      var scan := ScanKey(statement, 0, context.letters);
      if scan.BadKey? {
        Error(line, UnexpectedCharacter);
        return Some(NextLine(text, start));
      }
      var key := TrimEnd(statement[..scan.keyEnd]);
      if ' ' in key {
        Error(line, SpaceInKey);
        return Some(NextLine(text, start));
      }
      var valueStart := consumed + scan.valueStart;
      var lookup := Visible(context, entries);
      if scan.inherited {
        var value := lookup(key);
        if value.Some? {
          entries := entries[key := (value.value, line)];
        }
        return Some(valueStart);
      }
      assert text[valueStart..] == statement[scan.valueStart..];
      valueStart := valueStart + SpaceLength(text[valueStart..]);
      var extracted := ReadValue(text[valueStart..]);
      if extracted.Unterminated? {
        Error(line, UnterminatedQuote);
        return None;
      }
      SetValue(line, key, extracted.raw, extracted.expand, lookup);
      return Some(valueStart + extracted.len);
    }

    method SetValue(line: nat, key: string, raw: string, expand: bool, lookup: Lookup)
      modifies this
      ensures Now() == Assign(old(Now()), line, key, raw, expand, lookup)
    {
      hide TemplateRules.Substitute;
      if !expand {
        entries := entries[key := (raw, line)];
        return;
      }
      var unset := new TemplateEngine.UnsetNames();
      var value := TemplateEngine.Substitute(raw, lookup, unset);
      if value.Err? {
        Error(line, BadTemplate(key, value.error));
        return;
      }
      assert [] + TemplateRules.Substitute(raw, lookup).unset == TemplateRules.Substitute(raw, lookup).unset;
      warnings := warnings + Warnings(line, key, unset.names);
      entries := entries[key := (value.value, line)];
    }
  }

  /** Parses a whole file; an unterminated quote ends the loop early. */
  method Parse(source: string, context: Context) returns (r: Result<Parsed, seq<LineError>>)
    ensures r == DotenvRules.Parse(source, context)
  {
    hide Statement, DotenvRules.StatementStart;
    var text := WithoutMark(source);
    var collected := new Collected();
    var pos := 0;
    var more := true;
    while more
      invariant pos <= |text|
      invariant if more then ParseFrom(text, pos, collected.Now(), context)
                             == ParseFrom(text, 0, State(map[], [], []), context)
                else collected.Now() == ParseFrom(text, 0, State(map[], [], []), context)
      decreases |text| - pos, more
    {
      var start := StatementStart(text, pos);
      if start.None? {
        more := false;
      } else {
        var next := collected.TakeStatement(text, start.value, context);
        if next.None? {
          more := false;
        } else {
          pos := next.value;
        }
      }
    }
    r := if collected.errors == [] then Ok(Parsed(collected.entries, collected.warnings)) else Err(collected.errors);
  }
}
