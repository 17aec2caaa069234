/** Env files in every statement form, and what they mean. */
module DotenvPrinting {
  import opened Common
  import opened TemplateRules
  import opened DotenvRules
  import TemplatePrinting

  type Segments = seq<TemplatePrinting.Segment>

  // ----- characters -----

  predicate Blank(c: char) {
    c in " \t\r\U{0B}\U{0C}\U{85}\U{A0}"
  }

  predicate Blanks(s: string) {
    forall i :: 0 <= i < |s| ==> Blank(s[i])
  }

  /** White space within a line. */
  predicate Gap(s: string) {
    forall i :: 0 <= i < |s| ==> IsWhitespace(s[i]) && s[i] != '\n'
  }

  predicate InKey(c: char, letters: char -> bool) {
    || c in "_.-[]0123456789" || 'a' <= FoldChar(c) <= 'z'
    || (c >= '\U{80}' && letters(c) && !IsWhitespace(c) && c != BYTE_ORDER_MARK)
  }

  predicate KeyChars(s: string, letters: char -> bool) {
    forall i :: 0 <= i < |s| ==> InKey(s[i], letters)
  }

  // ----- values -----

  /** How double quotes spell a character, or two that stand for themselves. */
  datatype Unit =
    | AsIs(c: char)
    | Named(c: char)
    | Zero(digits: string)
    | Kept(c: char)

  function Letter(c: char): Option<char> {
    match c
    case '\U{07}' => Some('a')
    case '\U{08}' => Some('b')
    case '\U{0C}' => Some('f')
    case '\n' => Some('n')
    case '\r' => Some('r')
    case '\t' => Some('t')
    case '\U{0B}' => Some('v')
    case '"' => Some('"')
    case '\\' => Some('\\')
    case '$' => Some('$')
    case _ => None
  }

  function Spelt(unit: Unit): string {
    match unit
    case AsIs(c) => [c]
    case Named(c) => ['\\', Letter(c).GetOr('?')]
    case Zero(digits) => "\\0" + digits
    case Kept(c) => ['\\', c]
  }

  /** A dollar behind a backslash is one that starts no reference. */
  function Stands(unit: Unit): string {
    match unit
    case AsIs(c) => [c]
    case Named(c) => if c == '$' then "$$" else [c]
    case Zero(digits) => if IsOctal(digits) then [Base8(digits) as char] else "\\0" + digits
    case Kept(c) => ['\\', c]
  }

  function Base8(digits: string): (n: nat)
    requires forall i :: 0 <= i < |digits| ==> '0' <= digits[i] <= '7'
    ensures (|digits| == 1 ==> n < 8) && (|digits| == 2 ==> n < 64) && (|digits| == 3 ==> n < 512)
  {
    if digits == "" then 0 else 8 * Base8(digits[..|digits| - 1]) + (digits[|digits| - 1] as int - '0' as int)
  }

  /** Exactly three octal digits that name a character of at most 0xff. */
  predicate IsOctal(digits: string) {
    |digits| == 3 && digits[0] <= '3' && forall i :: 0 <= i < 3 ==> '0' <= digits[i] <= '7'
  }

  function SpeltAll(units: seq<Unit>): string {
    if units == [] then "" else Spelt(units[0]) + SpeltAll(units[1..])
  }

  function StandsAll(units: seq<Unit>): string {
    if units == [] then "" else Stands(units[0]) + StandsAll(units[1..])
  }

  predicate FitUnit(unit: Unit, next: seq<Unit>) {
    match unit
    case AsIs(c) => c != '\\' && c != '"'
    case Named(c) => Letter(c).Some?
    case Zero(digits) =>
      && |digits| <= 3 && (forall i :: 0 <= i < |digits| ==> '0' <= digits[i] <= '9')
      && (|digits| < 3 && next != [] && next[0].AsIs? ==> !('0' <= next[0].c <= '9'))
    case Kept(c) => c !in "abfnrtv\"\\$0"
  }

  predicate FitUnits(units: seq<Unit>) {
    units != [] ==> FitUnit(units[0], units[1..]) && FitUnits(units[1..])
  }

  /** Between single quotes only the quote itself needs a backslash. */
  function SingleSpelt(text: string): string {
    if text == "" then "" else (if text[0] == '\'' then "\\'" else text[..1]) + SingleSpelt(text[1..])
  }

  /** A backslash is followed by another character than the quote. */
  predicate FitSingle(text: string) {
    text != "" ==>
      if text[0] != '\\' then FitSingle(text[1..])
      else |text| > 1 && text[1] != '\'' && FitSingle(text[2..])
  }

  datatype Value =
    | Unquoted(segments: Segments)
    | Single(text: string)
    | Double(units: seq<Unit>, segments: Segments)

  function PrintValue(value: Value): string {
    match value
    case Unquoted(segments) => TemplatePrinting.Print(segments)
    case Single(text) => "'" + SingleSpelt(text) + "'"
    case Double(units, _) => "\"" + SpeltAll(units) + "\""
  }

  predicate HasComment(s: string) {
    exists i :: 0 < i < |s| && s[i - 1] == ' ' && s[i] == '#'
  }

  /** An unquoted value is a template on one line without ` #`, outer white space or a leading quote. */
  predicate FitValue(value: Value, comment: Option<string>) {
    match value
    case Unquoted(segments) =>
      var text := TemplatePrinting.Print(segments);
      && TemplatePrinting.Proper(segments, "") && '\n' !in text && !HasComment(text)
      && (text == "" ==> comment.None?)
      && (text != "" ==> text[0] != '\'' && text[0] != '"' && !Blank(text[0]) && !IsWhitespace(text[|text| - 1]))
    case Single(text) => FitSingle(text)
    case Double(units, segments) =>
      && FitUnits(units) && TemplatePrinting.Proper(segments, "")
      && StandsAll(units) == TemplatePrinting.Print(segments)
  }

  // ----- lines -----

  /** One statement, or a line without one. A quoted value may span several lines; an open quote runs to the end. */
  datatype Line =
    | Skip(indent: string, comment: Option<string>)
    | Set(indent: string, prefix: Option<string>, key: string, before: string, sign: char, after: string, value: Value,
          trail: string, comment: Option<string>)
    | Inherit(indent: string, prefix: Option<string>, key: string, before: string)
    | Garbled(indent: string, front: string, bad: char, rest: string)
    | TwoWords(indent: string, first: string, second: string, sign: char, rest: string)
    | Open(indent: string, key: string, quote: char, text: string)

  function PrintExport(prefix: Option<string>): string {
    if prefix.None? then "" else "export" + prefix.value
  }

  function PrintComment(comment: Option<string>): string {
    if comment.None? then "" else " #" + comment.value
  }

  function PrintStatement(line: Line): string {
    match line
    case Skip(_, comment) => if comment.None? then "" else "#" + comment.value
    case Set(_, prefix, key, before, sign, after, value, trail, comment) =>
      PrintExport(prefix)
      + (key + (before + ([sign] + (after + (PrintValue(value) + (trail + PrintComment(comment)))))))
    case Inherit(_, prefix, key, before) => PrintExport(prefix) + (key + before)
    case Garbled(_, front, bad, rest) => front + ([bad] + rest)
    case TwoWords(_, first, second, sign, rest) => (first + " " + second) + ([sign] + rest)
    case Open(_, key, quote, text) => key + ("=" + ([quote] + text))
  }

  function PrintLine(line: Line): string {
    line.indent + PrintStatement(line)
  }

  /** The lines with a newline between any two. */
  function Print(lines: seq<Line>): string {
    if lines == [] then ""
    else PrintLine(lines[0]) + if |lines| == 1 then "" else "\n" + Print(lines[1..])
  }

  predicate FitComment(comment: Option<string>) {
    comment.Some? ==> '\n' !in comment.value
  }

  predicate FitKey(prefix: Option<string>, key: string, letters: char -> bool) {
    && key != "" && KeyChars(key, letters)
    && (if prefix.None? then key != "export" else prefix.value != "" && Blanks(prefix.value))
  }

  predicate FitLine(line: Line, last: bool, letters: char -> bool) {
    Gap(line.indent) &&
    match line
    case Skip(_, comment) => FitComment(comment)
    case Set(_, prefix, key, before, sign, after, value, trail, comment) =>
      && FitKey(prefix, key, letters) && Blanks(before) && Blanks(after) && (sign == '=' || sign == ':')
      && FitValue(value, comment) && Gap(trail) && FitComment(comment) && (PrintValue(value) == "" ==> trail == "")
    case Inherit(_, prefix, key, before) => FitKey(prefix, key, letters) && Blanks(before)
    case Garbled(_, front, bad, rest) =>
      && KeyChars(front, letters) && '\n' !in rest
      && !InKey(bad, letters) && !IsWhitespace(bad) && bad != '=' && bad != ':' && bad != BYTE_ORDER_MARK
      && (front == "" ==> bad != '#')
    case TwoWords(_, first, second, sign, rest) =>
      && FitKey(None, first, letters) && second != "" && KeyChars(second, letters) && '\n' !in rest
      && (sign == '=' || sign == ':')
    case Open(_, key, quote, text) =>
      last && FitKey(None, key, letters) && (quote == '"' || quote == '\'') && quote !in text
  }

  predicate FitLines(lines: seq<Line>, letters: char -> bool) {
    lines != [] ==> FitLine(lines[0], |lines| == 1, letters) && FitLines(lines[1..], letters)
  }

  // ----- meaning -----

  function FirstSet(values: seq<Option<string>>): Option<string> {
    if values == [] then None else if values[0].Some? then values[0] else FirstSet(values[1..])
  }

  /** What a name reads: the process, else this file so far, else earlier files. */
  function Reading(context: Context, entries: Entries, name: string): Option<string> {
    FirstSet([context.process(name), if name in entries then Some(entries[name].0) else None, context.earlier(name)])
  }

  function Readings(context: Context, entries: Entries): Lookup {
    (name: string) => Reading(context, entries, name)
  }

  /** An assignment's value, its template error, and the unset names to warn about. */
  function ValueMeans(value: Value, lookup: Lookup): Outcome {
    match value
    case Single(text) => Outcome(Ok(text), [])
    case Unquoted(segments) => TemplatePrinting.Means(segments, lookup)
    case Double(_, segments) => TemplatePrinting.Means(segments, lookup)
  }

  function LineMeans(line: Line, number: nat, state: State, context: Context): State {
    match line
    case Skip(_, _) => state
    case Set(_, _, key, _, _, _, value, _, _) =>
      var outcome := ValueMeans(value, Readings(context, state.entries));
      (match outcome.result
       case Err(error) => state.(errors := state.errors + [LineError(number, BadTemplate(key, error))])
       case Ok(text) =>
         state.(entries := state.entries[key := (text, number)],
                warnings := state.warnings + seq(|outcome.unset|, i requires 0 <= i < |outcome.unset| =>
                                                   Warning(number, key, outcome.unset[i]))))
    case Inherit(_, _, key, _) =>
      var value := Reading(context, state.entries, key);
      if value.None? then state else state.(entries := state.entries[key := (value.value, number)])
    case Garbled(_, _, _, _) => state.(errors := state.errors + [LineError(number, UnexpectedCharacter)])
    case TwoWords(_, _, _, _, _) => state.(errors := state.errors + [LineError(number, SpaceInKey)])
    case Open(_, _, _, _) => state.(errors := state.errors + [LineError(number, UnterminatedQuote)])
  }

  /** The lines one after the other, the first one with this number. */
  function Means(lines: seq<Line>, number: nat, state: State, context: Context): State {
    if lines == [] then state
    else
      Means(lines[1..], number + multiset(PrintLine(lines[0]))['\n'] + 1,
            LineMeans(lines[0], number, state, context), context)
  }
}
