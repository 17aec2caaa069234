/** The env file grammar: statements, keys, quoting, escapes and the effect of each statement. */
module DotenvRules {
  import opened Common
  import opened TemplateRules

  /** What may stand around a key and its `=` without ending the statement. */
  predicate IsSpace(c: char) {
    c in {'\t', '\U{0B}', '\U{0C}', '\r', ' ', '\U{85}', '\U{A0}'}
  }

  /**
   * `letters` says which characters beyond ASCII are letters or digits; white space and the byte order mark never are.
   */
  predicate IsAlphanumeric(c: char, letters: char -> bool) {
    if c < '\U{80}' then 'a' <= c <= 'z' || 'A' <= c <= 'Z' || '0' <= c <= '9'
    else letters(c) && !IsWhitespace(c) && c != BYTE_ORDER_MARK
  }

  predicate IsKeyChar(c: char, letters: char -> bool) {
    c in {'_', '.', '-', '[', ']'} || IsAlphanumeric(c, letters)
  }

  /** The length of the blank prefix. */
  function SpaceLength(s: string): (n: nat)
    ensures n <= |s|
  {
    if s == "" || !IsSpace(s[0]) then 0 else 1 + SpaceLength(s[1..])
  }

  function WhitespaceLength(s: string): (n: nat)
    ensures n <= |s|
    ensures n < |s| ==> !IsWhitespace(s[n])
  {
    if s == "" || !IsWhitespace(s[0]) then 0 else 1 + WhitespaceLength(s[1..])
  }

  function Newlines(s: string): nat {
    if s == "" then 0 else (if s[0] == '\n' then 1 else 0) + Newlines(s[1..])
  }

  /** Skips white space and comment lines. */
  function StatementStart(text: string, pos: nat): (r: Option<nat>)
    requires pos <= |text|
    ensures r.Some? ==> pos <= r.value < |text|
    decreases |text| - pos
  {
    var p := pos + WhitespaceLength(text[pos..]);
    if p == |text| then None
    else if text[p] != '#' then Some(p)
    else
      var lineEnd := p + Find(text[p..], '\n');
      if lineEnd == |text| then None else StatementStart(text, lineEnd)
  }

  function NextLine(text: string, pos: nat): (r: nat)
    requires pos < |text|
    ensures pos < r <= |text|
  {
    var lineEnd := pos + Find(text[pos..], '\n');
    if lineEnd == |text| then |text| else lineEnd + 1
  }

  function LineOf(text: string, pos: nat): nat
    requires pos <= |text|
  {
    Newlines(text[..pos]) + 1
  }

  /** The length of a leading `export` and the blanks behind it. */
  function ExportLength(statement: string): (n: nat)
    ensures n <= |statement|
  {
    if "export" <= statement && |statement| > 6 && IsWhitespace(statement[6])
    then 6 + SpaceLength(statement[6..])
    else 0
  }

  datatype KeyScan = BadKey | Key(keyEnd: nat, valueStart: nat, inherited: bool)

  /** The key ends at `=`, `:`, a newline or the end of the text; the latter two inherit the value. */
  function ScanKey(s: string, i: nat, letters: char -> bool): (r: KeyScan)
    requires i <= |s|
    ensures r.Key? ==> i <= r.keyEnd <= r.valueStart <= |s|
    ensures r.Key? && i < |s| ==> i < r.valueStart
    decreases |s| - i
  {
    if i == |s| then Key(|s|, |s|, true)
    else if s[i] == '=' || s[i] == ':' || s[i] == '\n' then Key(i, i + 1, s[i] == '\n')
    else if IsKeyChar(s[i], letters) || IsSpace(s[i]) then ScanKey(s, i + 1, letters)
    else BadKey
  }

  datatype Extracted = Unterminated | Raw(raw: string, expand: bool, len: nat)

  /** The part of an unquoted value before ` #`. */
  function BeforeComment(s: string): string {
    if |s| < 2 then s
    else if s[0] == ' ' && s[1] == '#' then ""
    else s[..1] + BeforeComment(s[1..])
  }

  function ExtractValue(src: string): (r: Extracted)
    ensures r.Raw? ==> r.len <= |src|
  {
    if src != "" && (src[0] == '"' || src[0] == '\'') then
      var q := Quoted(src[1..], src[0], false, "");
      if q.None? then Unterminated
      else if src[0] == '"' then Raw(ExpandEscapes(q.value.0), true, 1 + q.value.1)
      else Raw(q.value.0, false, 1 + q.value.1)
    else
      var n := Find(src, '\n');
      Raw(TrimEnd(BeforeComment(src[..n])), true, if n < |src| then n + 1 else n)
  }

  /** The quoted text and the length read, closing quote included; a backslash before the quote disappears. */
  function Quoted(s: string, quote: char, escaped: bool, chars: string): (r: Option<(string, nat)>)
    ensures r.Some? ==> 0 < r.value.1 <= |s|
  {
    if s == "" then None
    else
      var c := s[0];
      if c != quote then
        if !escaped && c == '\\' then More(Quoted(s[1..], quote, true, chars), 1)
        else More(Quoted(s[1..], quote, false, chars + (if escaped then "\\" else "") + [c]), 1)
      else if escaped then More(Quoted(s[1..], quote, false, chars + [c]), 1)
      else Some((chars, 1))
  }

  function More(r: Option<(string, nat)>, n: nat): Option<(string, nat)> {
    if r.None? then None else Some((r.value.0, r.value.1 + n))
  }

  predicate IsDigit(c: char) {
    '0' <= c <= '9'
  }

  /** Up to three digits. */
  function OctalDigits(s: string, limit: nat): (n: nat)
    ensures n <= |s| && n <= limit
    ensures forall i :: 0 <= i < n ==> IsDigit(s[i])
  {
    if limit == 0 || s == "" || !IsDigit(s[0]) then 0 else 1 + OctalDigits(s[1..], limit - 1)
  }

  function DigitValue(c: char): nat
    requires IsDigit(c)
  {
    c as int - '0' as int
  }

  /** The replacement of the escape at the start of `s`, and how much of `s` it stands for. */
  function Escape(s: string): (r: (string, nat))
    requires s != "" && s[0] == '\\'
    ensures 0 < r.1 <= |s|
  {
    if |s| == 1 then ("\\", 1)
    else
      match s[1]
      case 'a' => ("\U{07}", 2)
      case 'b' => ("\U{08}", 2)
      case 'f' => ("\U{0C}", 2)
      case 'n' => ("\n", 2)
      case 'r' => ("\r", 2)
      case 't' => ("\t", 2)
      case 'v' => ("\U{0B}", 2)
      case '"' => ("\"", 2)
      case '\\' => ("\\", 2)
      case '$' => ("$$", 2)
      case '0' => Octal(s)
      case _ => ("\\", 1)
  }

  /** `\0` and exactly three octal digits of at most 0xff; anything else stays literal. */
  function Octal(s: string): (r: (string, nat))
    requires |s| >= 2
    ensures 0 < r.1 <= |s|
  {
    var digits := OctalDigits(s[2..], 3);
    if digits == 3 && s[2] < '8' && s[3] < '8' && s[4] < '8' then
      assert s[2..][0] == s[2] && s[2..][1] == s[3] && s[2..][2] == s[4];
      var code := 64 * DigitValue(s[2]) + 8 * DigitValue(s[3]) + DigitValue(s[4]);
      if code <= 0xff then ([code as char], 5) else (s[..5], 5)
    else (s[..2 + digits], 2 + digits)
  }

  function ExpandEscapes(s: string): string
    decreases |s|
  {
    if s == "" then ""
    else if s[0] != '\\' then s[..1] + ExpandEscapes(s[1..])
    else Escape(s).0 + ExpandEscapes(s[Escape(s).1..])
  }

  datatype Reason =
    | UnexpectedCharacter
    | SpaceInKey
    | UnterminatedQuote
    | BadTemplate(key: string, error: TemplateError)

  datatype LineError = LineError(line: nat, reason: Reason)

  datatype Warning = Warning(line: nat, key: string, name: string)

  type Entries = map<string, (string, nat)>

  /** What a parse has collected so far. */
  datatype State = State(entries: Entries, errors: seq<LineError>, warnings: seq<Warning>)

  /** The text around a parse: the process environment and the files read before this one. */
  datatype Context = Context(process: Lookup, earlier: Lookup, letters: char -> bool)

  /** A name reads the process first, then this file's earlier keys, then earlier files. */
  function Visible(context: Context, entries: Entries): Lookup {
    (name: string) =>
      var value := context.process(name);
      if value.Some? then value
      else if name in entries then Some(entries[name].0)
      else context.earlier(name)
  }

  function Warnings(line: nat, key: string, unset: seq<string>): (r: seq<Warning>)
    ensures |r| == |unset|
  {
    seq(|unset|, i requires 0 <= i < |unset| => Warning(line, key, unset[i]))
  }

  function Fail(state: State, line: nat, reason: Reason): State {
    state.(errors := state.errors + [LineError(line, reason)])
  }

  /** The state after one statement and where to go on; `None` when the rest cannot be split. */
  datatype Next = Next(state: State, pos: Option<nat>)

  function Statement(text: string, start: nat, state: State, context: Context): (r: Next)
    requires start < |text|
    ensures r.pos.Some? ==> start < r.pos.value <= |text|
  {
    var line := LineOf(text, start);
    var consumed := start + ExportLength(text[start..]);
    var statement := text[consumed..];
    match ScanKey(statement, 0, context.letters)
    case BadKey => Next(Fail(state, line, UnexpectedCharacter), Some(NextLine(text, start)))
    case Key(keyEnd, valueStart, inherited) =>
      var key := TrimEnd(statement[..keyEnd]);
      var lookup := Visible(context, state.entries);
      if ' ' in key then Next(Fail(state, line, SpaceInKey), Some(NextLine(text, start)))
      else if inherited then
        var value := lookup(key);
        Next(if value.Some? then state.(entries := state.entries[key := (value.value, line)]) else state,
             Some(consumed + valueStart))
      else
        var valueAt := consumed + valueStart + SpaceLength(statement[valueStart..]);
        match ExtractValue(text[valueAt..])
        case Unterminated => Next(Fail(state, line, UnterminatedQuote), None)
        case Raw(raw, expand, len) =>
          Next(Assign(state, line, key, raw, expand, lookup), Some(valueAt + len))
  }

  /** Sets a key to its value, after `${}` substitution where that applies. */
  function Assign(state: State, line: nat, key: string, raw: string, expand: bool, lookup: Lookup): State {
    if !expand then state.(entries := state.entries[key := (raw, line)])
    else
      var outcome := Substitute(raw, lookup);
      match outcome.result
      case Err(error) => Fail(state, line, BadTemplate(key, error))
      case Ok(value) => State(state.entries[key := (value, line)], state.errors,
                              state.warnings + Warnings(line, key, outcome.unset))
  }

  function ParseFrom(text: string, pos: nat, state: State, context: Context): State
    requires pos <= |text|
    decreases |text| - pos
  {
    var start := StatementStart(text, pos);
    if start.None? then state
    else
      var next := Statement(text, start.value, state, context);
      if next.pos.None? then next.state else ParseFrom(text, next.pos.value, next.state, context)
  }

  datatype Parsed = Parsed(entries: Entries, warnings: seq<Warning>)

  function Parse(text: string, context: Context): Result<Parsed, seq<LineError>> {
    var state := ParseFrom(WithoutMark(text), 0, State(map[], [], []), context);
    if state.errors == [] then Ok(Parsed(state.entries, state.warnings)) else Err(state.errors)
  }
}
