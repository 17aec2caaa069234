/** A printed env file is read as what its lines mean. */
module DotenvReading {
  import opened Common
  import opened DotenvRules
  import opened DotenvPrinting
  import opened DotenvStatements
  import DotenvLaws

  // ----- line numbers -----

  lemma {:induction false} NewlinesCount(s: string)
    ensures Newlines(s) == multiset(s)['\n']
  {
    if s != "" {
      NewlinesCount(s[1..]);
      assert s == [s[0]] + s[1..];
    }
  }

  lemma LinesPassed(text: string, pos: nat, part: string, rest: string)
    requires pos <= |text| && text[pos..] == part + rest
    ensures pos + |part| <= |text| && LineOf(text, pos + |part|) == LineOf(text, pos) + multiset(part)['\n']
  {
    DotenvLaws.LineAfter(text, pos, part, rest);
    NewlinesCount(part);
  }

  // ----- one line -----

  /** No statement starts with white space or `#`. */
  lemma StatementFirst(line: Line, last: bool, letters: char -> bool)
    requires FitLine(line, last, letters) && !line.Skip?
    ensures var s := PrintStatement(line);
            s != "" && !IsWhitespace(s[0]) && s[0] != '#'
  {
    hide FitValue, InKey, Blanks, Gap, PrintValue, PrintComment;
    match line
    case Set(_, _, key, _, _, _, _, _, _) => KeyCharFacts(key[0], letters);
    case Inherit(_, _, key, _) => KeyCharFacts(key[0], letters);
    case Garbled(_, front, bad, _) =>
      if front != "" { KeyCharFacts(front[0], letters); }
    case TwoWords(_, first, _, _, _) => KeyCharFacts(first[0], letters);
    case Open(_, key, _, _) => KeyCharFacts(key[0], letters);
  }

  /** A statement starts behind its indentation, on the same line. */
  lemma StatementFound(text: string, pos: nat, line: Line, rest: string, letters: char -> bool)
    requires FitLine(line, rest == "", letters) && !line.Skip?
    requires pos <= |text| && text[pos..] == PrintLine(line) + rest
    ensures var start := pos + |line.indent|;
            && start < |text| && StatementStart(text, pos) == Some(start) && LineOf(text, start) == LineOf(text, pos)
            && text[start..] == PrintStatement(line) + rest
  {
    hide StatementStart, LineOf, PrintStatement, FitValue;
    var indent, s := line.indent, PrintStatement(line);
    assert text[pos..] == indent + (s + rest);
    StatementFirst(line, rest == "", letters);
    SuffixAfter(text, pos, indent, s + rest);
    SkipsSpace(text, pos, indent, s + rest);
    StartsHere(text, pos + |indent|, s + rest);
    LinesPassed(text, pos, indent, s + rest);
    assert '\n' !in indent;
  }

  /** Where to go on behind a statement: at the end of its line, or behind its quoted value. */
  function Behind(line: Line, rest: string): nat
    requires !line.Skip? && !line.Open?
  {
    var n := |PrintStatement(line)|;
    if line.Set? && !line.value.Unquoted? then
      |PrintExport(line.prefix)| + |line.key + line.before| + 1 + |line.after| + |PrintValue(line.value)|
    else n + if rest == "" then 0 else 1
  }

  lemma StatementReads(text: string, start: nat, line: Line, rest: string, state: State, context: Context)
    requires FitLine(line, rest == "", context.letters) && EndsLine(rest) && !line.Skip? && !line.Open?
    requires start < |text| && text[start..] == PrintStatement(line) + rest
    ensures Statement(text, start, state, context)
            == Next(LineMeans(line, LineOf(text, start), state, context), Some(start + Behind(line, rest)))
  {
    hide Statement, LineMeans, LineOf, FitLine, PrintExport, PrintValue, PrintComment;
    match line
    case Set(_, _, _, _, _, _, _, _, _) => SetRead(text, start, line, rest, state, context);
    case Inherit(_, _, _, _) => InheritRead(text, start, line, rest, state, context);
    case Garbled(_, _, _, _) => GarbledRead(text, start, line, rest, state, context);
    case TwoWords(_, _, _, _, _) => TwoWordsRead(text, start, line, rest, state, context);
  }

  lemma QuotedParts(line: Line, front: string, gap: string, comment: string, rest: string)
    requires line.Set?
    requires front
             == PrintExport(line.prefix) + (line.key + line.before) + [line.sign] + line.after + PrintValue(line.value)
    requires gap == if line.comment.None? then line.trail else line.trail + " "
    requires comment == if line.comment.None? then "" else "#" + line.comment.value
    ensures PrintStatement(line) + rest == front + (gap + (comment + rest))
    ensures |PrintStatement(line)| == |front| + |gap| + |comment|
  {
    hide PrintExport, PrintValue;
  }

  /** What is left of the line behind a quoted value is skipped. */
  lemma QuotedRest(text: string, start: nat, line: Line, rest: string)
    requires line.Set? && !line.value.Unquoted? && Gap(line.trail) && FitComment(line.comment) && EndsLine(rest)
    requires start <= |text| && text[start..] == PrintStatement(line) + rest
    ensures var n := |PrintStatement(line)|;
            && start + Behind(line, rest) <= |text| && start + n <= |text| && (rest != "" ==> start + n < |text|)
            && StatementStart(text, start + Behind(line, rest))
               == if rest == "" then None else StatementStart(text, start + n + 1)
  {
    hide StatementStart, PrintExport, PrintValue, PrintStatement;
    var front := PrintExport(line.prefix) + (line.key + line.before) + [line.sign] + line.after
      + PrintValue(line.value);
    var gap := if line.comment.None? then line.trail else line.trail + " ";
    var comment := if line.comment.None? then "" else "#" + line.comment.value;
    QuotedParts(line, front, gap, comment, rest);
    SuffixAfter(text, start, front, gap + (comment + rest));
    assert Gap(gap);
    LineSkips(text, start + |front|, gap, line.comment, rest);
  }

  /** A line is read as what it means, and reading goes on behind it. */
  lemma LineReads(text: string, pos: nat, line: Line, rest: string, state: State, context: Context)
    requires FitLine(line, rest == "", context.letters) && EndsLine(rest)
    requires pos <= |text| && text[pos..] == PrintLine(line) + rest
    ensures var n, state' := |PrintLine(line)|, LineMeans(line, LineOf(text, pos), state, context);
            && pos + n <= |text| && (rest != "" ==> pos + n < |text|)
            && ParseFrom(text, pos, state, context)
               == if rest == "" then state' else ParseFrom(text, pos + n + 1, state', context)
  {
    hide ParseFrom, LineMeans, LineOf, PrintStatement, Statement, StatementStart;
    var n, state' := |PrintLine(line)|, LineMeans(line, LineOf(text, pos), state, context);
    SuffixAfter(text, pos, PrintLine(line), rest);
    if line.Skip? {
      SkipReads(text, pos, line, rest, state, context);
    } else {
      var start := pos + |line.indent|;
      StatementFound(text, pos, line, rest, context.letters);
      if line.Open? {
        assert PrintStatement(line) + rest == PrintStatement(line);
        OpenRead(text, start, line, state, context);
        ParseStep(text, pos, start, state, context);
      } else {
        StatementReads(text, start, line, rest, state, context);
        ParseStep(text, pos, start, state, context);
        GoesOn(text, start, line, rest, state', context);
      }
    }
  }

  lemma ParseStep(text: string, pos: nat, start: nat, state: State, context: Context)
    requires pos <= |text| && start < |text| && StatementStart(text, pos) == Some(start)
    ensures var next := Statement(text, start, state, context);
            ParseFrom(text, pos, state, context)
            == if next.pos.None? then next.state else ParseFrom(text, next.pos.value, next.state, context)
  {
    hide StatementStart, Statement;
  }

  lemma SkipReads(text: string, pos: nat, line: Line, rest: string, state: State, context: Context)
    requires line.Skip? && FitLine(line, rest == "", context.letters) && EndsLine(rest)
    requires pos <= |text| && text[pos..] == PrintLine(line) + rest
    ensures var n := |PrintLine(line)|;
            && pos + n <= |text| && (rest != "" ==> pos + n < |text|)
            && LineMeans(line, LineOf(text, pos), state, context) == state
            && ParseFrom(text, pos, state, context)
               == if rest == "" then state else ParseFrom(text, pos + n + 1, state, context)
  {
    hide ParseFrom, LineOf, StatementStart;
    assert text[pos..] == line.indent + (PrintStatement(line) + rest);
    LineSkips(text, pos, line.indent, line.comment, rest);
    if rest == "" {
      NoMore(text, pos, state, context);
    } else {
      SameParse(text, pos, pos + |PrintLine(line)| + 1, state, context);
    }
  }

  /** Behind a statement, reading goes on with the next line. */
  lemma GoesOn(text: string, start: nat, line: Line, rest: string, state: State, context: Context)
    requires FitLine(line, rest == "", context.letters) && EndsLine(rest) && !line.Skip? && !line.Open?
    requires start < |text| && text[start..] == PrintStatement(line) + rest
    ensures var n := |PrintStatement(line)|;
            && start + Behind(line, rest) <= |text| && start + n <= |text| && (rest != "" ==> start + n < |text|)
            && ParseFrom(text, start + Behind(line, rest), state, context)
               == if rest == "" then state else ParseFrom(text, start + n + 1, state, context)
  {
    hide ParseFrom, PrintStatement, StatementStart, PrintValue, PrintExport, PrintComment, FitValue, FitKey;
    SuffixAfter(text, start, PrintStatement(line), rest);
    if line.Set? && !line.value.Unquoted? {
      QuotedRest(text, start, line, rest);
    } else if rest == "" {
      NothingStarts(text, start + |PrintStatement(line)|);
    }
    if rest == "" {
      NoMore(text, start + Behind(line, rest), state, context);
    } else {
      SameParse(text, start + Behind(line, rest), start + |PrintStatement(line)| + 1, state, context);
    }
  }

  // ----- the whole file -----

  lemma {:induction false} LinesRead(text: string, pos: nat, lines: seq<Line>, state: State, context: Context)
    requires FitLines(lines, context.letters) && lines != [] && pos <= |text| && text[pos..] == Print(lines)
    ensures ParseFrom(text, pos, state, context) == Means(lines, LineOf(text, pos), state, context)
    decreases |lines|
  {
    hide ParseFrom, LineMeans, LineOf, PrintLine, FitLine;
    var line, number := lines[0], LineOf(text, pos);
    var rest := if |lines| == 1 then "" else "\n" + Print(lines[1..]);
    LineReads(text, pos, line, rest, state, context);
    var state' := LineMeans(line, number, state, context);
    if |lines| > 1 {
      var part := PrintLine(line) + "\n";
      assert text[pos..] == part + Print(lines[1..]);
      SuffixAfter(text, pos, part, Print(lines[1..]));
      LinesPassed(text, pos, part, Print(lines[1..]));
      assert multiset(part)['\n'] == multiset(PrintLine(line))['\n'] + 1;
      LinesRead(text, pos + |part|, lines[1..], state', context);
    } else {
      assert lines[1..] == [];
    }
  }

  /**
   * Every env file made of such lines, in any order and form, parses to what its lines mean one after the other:
   * entries with their lines and warnings if no line is wrong, and otherwise all errors in order. A byte order mark in
   * front changes nothing.
   */
  lemma PrintedLinesRead(lines: seq<Line>, mark: bool, context: Context)
    requires FitLines(lines, context.letters)
    ensures var state := Means(lines, 1, State(map[], [], []), context);
            Parse((if mark then [BYTE_ORDER_MARK] else "") + Print(lines), context)
            == if state.errors == [] then Ok(Parsed(state.entries, state.warnings)) else Err(state.errors)
  {
    hide ParseFrom, Means, Print, FitLines;
    var text := Print(lines);
    NoMark(lines, context.letters);
    assert ([BYTE_ORDER_MARK] + text)[1..] == text && "" + text == text;
    if lines == [] {
      NothingPrinted(context);
    } else {
      assert text[0..] == text && text[..0] == "";
      LinesRead(text, 0, lines, State(map[], [], []), context);
    }
  }

  lemma NothingPrinted(context: Context)
    ensures Print([]) == "" && ParseFrom("", 0, State(map[], [], []), context) == State(map[], [], [])
    ensures Means([], 1, State(map[], [], []), context) == State(map[], [], [])
  {
  }

  lemma NoMark(lines: seq<Line>, letters: char -> bool)
    requires FitLines(lines, letters)
    ensures var text := Print(lines); text == "" || text[0] != BYTE_ORDER_MARK
  {
    if lines != [] {
      var line := lines[0];
      hide PrintStatement, FitLine, PrintValue;
      StatementMark(line, |lines| == 1, letters);
      assert line.indent != "" ==> Print(lines)[0] == line.indent[0];
      assert line.indent == "" && PrintStatement(line) != "" ==> Print(lines)[0] == PrintStatement(line)[0];
      assert line.indent == "" && PrintStatement(line) == "" ==> Print(lines) == "" || Print(lines)[0] == '\n';
    }
  }

  lemma StatementMark(line: Line, last: bool, letters: char -> bool)
    requires FitLine(line, last, letters)
    ensures PrintStatement(line) != "" ==> PrintStatement(line)[0] != BYTE_ORDER_MARK
    ensures Gap(line.indent)
  {
    hide FitValue, PrintValue, PrintComment;
  }
}
