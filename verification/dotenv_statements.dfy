/** Every line of a printed env file has the effect it means. */
module DotenvStatements {
  import opened Common
  import opened TemplateRules
  import opened DotenvRules
  import opened DotenvPrinting
  import opened DotenvValues
  import TemplateLaws
  import TemplatePrinting

  // ----- characters -----

  lemma KeyCharFacts(c: char, letters: char -> bool)
    ensures InKey(c, letters) <==> IsKeyChar(c, letters)
    ensures InKey(c, letters) ==> !IsWhitespace(c) && c != '#' && c != '=' && c != ':'
  {
  }

  lemma BlankIsSpace(c: char)
    ensures Blank(c) <==> IsSpace(c)
    ensures Blank(c) ==> IsWhitespace(c) && c != '\n' && c != '=' && c != ':' && c != '\'' && c != '"'
  {
  }

  lemma {:induction false} BlanksEnd(blanks: string, rest: string)
    requires Blanks(blanks) && (rest == "" || !Blank(rest[0]))
    ensures SpaceLength(blanks + rest) == |blanks|
    decreases |blanks|
  {
    if blanks == "" {
      assert blanks + rest == rest;
      if rest != "" { BlankIsSpace(rest[0]); }
    } else {
      assert (blanks + rest)[1..] == blanks[1..] + rest;
      BlankIsSpace(blanks[0]);
      BlanksEnd(blanks[1..], rest);
    }
  }

  lemma {:induction false} WhitespaceEnds(gap: string, rest: string)
    requires forall i :: 0 <= i < |gap| ==> IsWhitespace(gap[i])
    ensures WhitespaceLength(gap + rest) == |gap| + WhitespaceLength(rest)
    decreases |gap|
  {
    if gap == "" {
      assert gap + rest == rest;
    } else {
      assert (gap + rest)[1..] == gap[1..] + rest;
      WhitespaceEnds(gap[1..], rest);
    }
  }

  // ----- where statements start -----

  lemma SkipsSpace(text: string, pos: nat, gap: string, rest: string)
    requires pos <= |text| && text[pos..] == gap + rest && forall i :: 0 <= i < |gap| ==> IsWhitespace(gap[i])
    ensures pos + |gap| <= |text| && StatementStart(text, pos) == StatementStart(text, pos + |gap|)
  {
    hide WhitespaceLength;
    SuffixAfter(text, pos, gap, rest);
    WhitespaceEnds(gap, rest);
    StartBehind(text, pos, pos + |gap|);
  }

  lemma StartBehind(text: string, p: nat, q: nat)
    requires p <= q <= |text| && WhitespaceLength(text[p..]) == q - p + WhitespaceLength(text[q..])
    ensures StatementStart(text, p) == StatementStart(text, q)
  {
    hide WhitespaceLength, Find;
  }

  lemma StartsHere(text: string, pos: nat, rest: string)
    requires pos <= |text| && text[pos..] == rest && rest != "" && !IsWhitespace(rest[0]) && rest[0] != '#'
    ensures StatementStart(text, pos) == Some(pos)
  {
    assert text[pos] == rest[0];
  }

  lemma CommentSkips(text: string, pos: nat, comment: string, rest: string)
    requires pos <= |text| && text[pos..] == "#" + comment + rest && '\n' !in comment
    requires rest == "" || rest[0] == '\n'
    ensures pos + 1 + |comment| <= |text|
    ensures StatementStart(text, pos)
            == if rest == "" then None else StatementStart(text, pos + 1 + |comment|)
  {
    SuffixAfter(text, pos, "#" + comment, rest);
    assert text[pos] == text[pos..][0] == '#';
    LineFound("#" + comment, rest);
    assert WhitespaceLength(text[pos..]) == 0;
  }

  /** White space and a comment up to the end of a line are skipped, with the newline. */
  lemma LineSkips(text: string, pos: nat, gap: string, comment: Option<string>, rest: string)
    requires Gap(gap) && FitComment(comment) && (rest == "" || rest[0] == '\n')
    requires pos <= |text| && text[pos..] == gap + ((if comment.None? then "" else "#" + comment.value) + rest)
    ensures var n := |gap| + if comment.None? then 0 else 1 + |comment.value|;
            && pos + n <= |text| && (rest != "" ==> pos + n < |text|)
            && StatementStart(text, pos) == if rest == "" then None else StatementStart(text, pos + n + 1)
  {
    hide StatementStart;
    var c := if comment.None? then "" else "#" + comment.value;
    SkipsSpace(text, pos, gap, c + rest);
    SuffixAfter(text, pos, gap, c + rest);
    SuffixAfter(text, pos + |gap|, c, rest);
    var at := pos + |gap| + |c|;
    if comment.Some? {
      CommentSkips(text, pos + |gap|, comment.value, rest);
    }
    if rest != "" {
      assert rest == "\n" + rest[1..];
      SkipsSpace(text, at, "\n", rest[1..]);
    } else {
      NothingStarts(text, at);
    }
  }

  lemma NothingStarts(text: string, pos: nat)
    requires pos <= |text| && text[pos..] == ""
    ensures StatementStart(text, pos).None?
  {
  }

  lemma SameParse(text: string, p: nat, q: nat, state: State, context: Context)
    requires p <= |text| && q <= |text| && StatementStart(text, p) == StatementStart(text, q)
    ensures ParseFrom(text, p, state, context) == ParseFrom(text, q, state, context)
  {
    hide StatementStart, Statement;
  }

  lemma NoMore(text: string, p: nat, state: State, context: Context)
    requires p <= |text| && StatementStart(text, p).None?
    ensures ParseFrom(text, p, state, context) == state
  {
  }

  // ----- keys -----

  lemma NoPrefix(front: string, more: string, letters: char -> bool)
    requires KeyChars(front, letters) && (more == "" || !InKey(more[0], letters))
    requires front == "export" ==> more == "" || !IsWhitespace(more[0])
    ensures ExportLength(front + more) == 0
  {
    var s, e := front + more, "export";
    assert forall i :: 0 <= i < 6 ==> InKey(e[i], letters);
    if |front| > 6 { KeyCharFacts(front[6], letters); }
    assert |front| < 6 && |front| < |s| ==> s[|front|] != e[|front|];
    assert |front| == 6 ==> front == s[..6];
    assert e <= s ==> s[..6] == e;
  }

  lemma PrefixRead(prefix: Option<string>, key: string, more: string, letters: char -> bool)
    requires FitKey(prefix, key, letters) && (more == "" || !InKey(more[0], letters))
    ensures ExportLength(PrintExport(prefix) + (key + more)) == |PrintExport(prefix)|
  {
    if prefix.None? {
      assert "" + (key + more) == key + more;
      NoPrefix(key, more, letters);
    } else {
      var s := "export" + prefix.value + (key + more);
      assert s == "export" + (prefix.value + (key + more));
      Concatenated("export", prefix.value + (key + more));
      assert s[6] == prefix.value[0];
      BlankIsSpace(s[6]);
      KeyCharFacts(key[0], letters);
      BlankIsSpace(key[0]);
      assert (key + more)[0] == key[0];
      BlanksEnd(prefix.value, key + more);
    }
  }

  /** Scanning passes over key characters and blanks. */
  lemma {:induction false} ScanPasses(front: string, more: string, i: nat, letters: char -> bool)
    requires i <= |front| && forall k :: 0 <= k < |front| ==> InKey(front[k], letters) || Blank(front[k])
    ensures ScanKey(front + more, i, letters) == ScanKey(front + more, |front|, letters)
    decreases |front| - i
  {
    if i < |front| {
      var c := front[i];
      assert (front + more)[i] == c;
      KeyCharFacts(c, letters);
      BlankIsSpace(c);
      ScanPasses(front, more, i + 1, letters);
    }
  }

  lemma ScanEnds(front: string, more: string, letters: char -> bool)
    requires forall k :: 0 <= k < |front| ==> InKey(front[k], letters) || Blank(front[k])
    requires more == "" || more[0] == '=' || more[0] == ':' || more[0] == '\n'
    ensures ScanKey(front + more, 0, letters)
            == if more == "" then Key(|front|, |front|, true) else Key(|front|, |front| + 1, more[0] == '\n')
  {
    ScanPasses(front, more, 0, letters);
    if more != "" { assert (front + more)[|front|] == more[0]; }
  }

  lemma ScanStops(front: string, bad: char, more: string, letters: char -> bool)
    requires KeyChars(front, letters) && !InKey(bad, letters) && !Blank(bad)
    requires bad != '=' && bad != ':' && bad != '\n'
    ensures ScanKey(front + ([bad] + more), 0, letters) == BadKey
  {
    ScanPasses(front, [bad] + more, 0, letters);
    assert (front + ([bad] + more))[|front|] == bad;
    KeyCharFacts(bad, letters);
    BlankIsSpace(bad);
  }

  lemma KeyTrims(key: string, before: string, letters: char -> bool)
    requires key != "" && KeyChars(key, letters) && Blanks(before)
    ensures TrimEnd(key + before) == key && ' ' !in key
  {
    KeyCharFacts(key[|key| - 1], letters);
    forall i | 0 <= i < |before| ensures IsWhitespace(before[i]) { BlankIsSpace(before[i]); }
    TrailTrims(key, before);
    forall i | 0 <= i < |key| ensures key[i] != ' ' { KeyCharFacts(key[i], letters); }
  }

  lemma KeyAndBlanks(key: string, before: string, letters: char -> bool)
    requires KeyChars(key, letters) && Blanks(before)
    ensures forall k :: 0 <= k < |key + before| ==> InKey((key + before)[k], letters) || Blank((key + before)[k])
  {
  }

  // ----- assignments -----

  lemma ReadsAlike(context: Context, entries: Entries, name: string)
    ensures Visible(context, entries)(name) == Readings(context, entries)(name)
  {
    var a := context.process(name);
    var b: Option<string> := if name in entries then Some(entries[name].0) else None;
    var c := context.earlier(name);
    assert [a, b, c][1..] == [b, c] && [b, c][1..] == [c];
    assert FirstSet([c]) == c by { assert FirstSet([c][1..]) == None; }
    assert FirstSet([b, c]) == if b.Some? then b else FirstSet([c]);
    assert FirstSet([a, b, c]) == if a.Some? then a else FirstSet([b, c]);
  }

  lemma TemplateMeans(segments: Segments, context: Context, entries: Entries)
    requires TemplatePrinting.Proper(segments, "")
    ensures Substitute(TemplatePrinting.Print(segments), Visible(context, entries))
            == TemplatePrinting.Means(segments, Readings(context, entries))
  {
    hide Substitute, TemplatePrinting.Means, TemplatePrinting.Proper;
    var text := TemplatePrinting.Print(segments);
    forall name | TemplateLaws.Occurs(name, text)
      ensures Visible(context, entries)(name) == Readings(context, entries)(name)
    {
      ReadsAlike(context, entries, name);
    }
    TemplateLaws.SubstituteIsLocal(text, Visible(context, entries), Readings(context, entries));
    TemplatePrinting.PrintedMeans(segments, Readings(context, entries));
  }

  /** The text a value's extraction leaves for substitution. */
  function RawOf(value: Value): string {
    match value
    case Single(text) => text
    case Unquoted(segments) => TemplatePrinting.Print(segments)
    case Double(_, segments) => TemplatePrinting.Print(segments)
  }

  lemma AssignMeans(line: Line, number: nat, state: State, context: Context)
    requires line.Set? && FitValue(line.value, line.comment)
    ensures Assign(state, number, line.key, RawOf(line.value), !line.value.Single?, Visible(context, state.entries))
            == LineMeans(line, number, state, context)
  {
    hide Substitute, TemplatePrinting.Means, TemplatePrinting.Proper, TemplatePrinting.Print, Visible, Readings;
    hide FitUnits, StandsAll, HasComment;
    match line.value
    case Single(text) => assert state.warnings + [] == state.warnings;
    case Unquoted(segments) => TemplateMeans(segments, context, state.entries);
    case Double(_, segments) => TemplateMeans(segments, context, state.entries);
  }

  // ----- statements -----

  predicate EndsLine(rest: string) {
    rest == "" || rest[0] == '\n'
  }

  /** What follows the key and its blanks in an assignment. */
  function Assignment(line: Line): string
    requires line.Set?
  {
    [line.sign] + (line.after + (PrintValue(line.value) + (line.trail + PrintComment(line.comment))))
  }

  /** The key, its blanks and what follows are scanned as such. */
  lemma KeyScanned(key: string, before: string, more: string, letters: char -> bool)
    requires key != "" && KeyChars(key, letters) && Blanks(before)
    requires more == "" || more[0] == '=' || more[0] == ':' || more[0] == '\n'
    ensures var front := key + before;
            && ScanKey(front + more, 0, letters)
               == (if more == "" then Key(|front|, |front|, true) else Key(|front|, |front| + 1, more[0] == '\n'))
            && (front + more)[..|front|] == front && TrimEnd(front) == key && ' ' !in key
  {
    hide ScanKey, TrimEnd, KeyChars, Blanks, InKey, Blank;
    KeyAndBlanks(key, before, letters);
    ScanEnds(key + before, more, letters);
    KeyTrims(key, before, letters);
  }

  /** An `export` before the key is skipped. */
  lemma KeyFound(s: string, prefix: Option<string>, key: string, before: string, more: string, letters: char -> bool)
    requires s == PrintExport(prefix) + (key + (before + more)) && FitKey(prefix, key, letters) && Blanks(before)
    requires more == "" || more[0] == '=' || more[0] == ':' || more[0] == '\n'
    ensures ExportLength(s) == |PrintExport(prefix)| && s[|PrintExport(prefix)|..] == (key + before) + more
  {
    hide ExportLength, KeyChars, Blanks, InKey, Blank, PrintExport;
    NoKeyBehind(before, more, letters);
    PrefixRead(prefix, key, before + more, letters);
    assert key + (before + more) == (key + before) + more;
    Concatenated(PrintExport(prefix), (key + before) + more);
  }

  lemma Concatenated(a: string, b: string)
    ensures (a + b)[..|a|] == a && (a + b)[|a|..] == b
  {
  }

  lemma NoKeyBehind(before: string, more: string, letters: char -> bool)
    requires Blanks(before) && (more == "" || more[0] == '=' || more[0] == ':' || more[0] == '\n')
    ensures before + more == "" || !InKey((before + more)[0], letters)
  {
    if before + more != "" {
      var c := (before + more)[0];
      assert c == if before != "" then before[0] else more[0];
      KeyCharFacts(c, letters);
      BlankIsSpace(c);
    }
  }

  /** Behind the sign, blanks are skipped and the value is extracted. */
  lemma SetValue(text: string, at: nat, line: Line, rest: string)
    requires line.Set? && Blanks(line.after) && FitValue(line.value, line.comment) && Gap(line.trail)
    requires FitComment(line.comment) && (PrintValue(line.value) == "" ==> line.trail == "") && EndsLine(rest)
    requires at < |text| && text[at..] == Assignment(line) + rest
    ensures SpaceLength(text[at + 1..]) == |line.after| && at + 1 + |line.after| <= |text|
    ensures ExtractValue(text[at + 1 + |line.after|..])
            == Raw(RawOf(line.value), !line.value.Single?, ConsumedBy(line.value, line.trail, line.comment, rest))
  {
    hide ExtractValue, SpaceLength, FitValue, Blanks, Gap, ConsumedBy, PrintValue, PrintComment, FitComment;
    var tail := PrintValue(line.value) + (line.trail + (PrintComment(line.comment) + rest));
    ValueParts(text, at, line, rest);
    ValueFirst(line.value, line.trail, line.comment, rest);
    BlanksEnd(line.after, tail);
    ValueExtracts(line.value, line.trail, line.comment, rest);
  }

  lemma ValueParts(text: string, at: nat, line: Line, rest: string)
    requires line.Set? && at < |text| && text[at..] == Assignment(line) + rest
    ensures var tail := PrintValue(line.value) + (line.trail + (PrintComment(line.comment) + rest));
            && at + 1 + |line.after| <= |text| && text[at + 1..] == line.after + tail
            && text[at + 1 + |line.after|..] == tail
  {
    hide PrintValue, PrintComment;
    var tail := PrintValue(line.value) + (line.trail + (PrintComment(line.comment) + rest));
    assert Assignment(line) + rest == [line.sign] + (line.after + tail);
    SuffixAfter(text, at, [line.sign], line.after + tail);
    SuffixAfter(text, at + 1, line.after, tail);
  }

  /** No blank starts a printed value. */
  lemma ValueFirst(value: Value, trail: string, comment: Option<string>, rest: string)
    requires FitValue(value, comment) && (PrintValue(value) == "" ==> trail == "") && EndsLine(rest)
    ensures var tail := PrintValue(value) + (trail + (PrintComment(comment) + rest));
            tail == "" || !Blank(tail[0])
  {
    hide FitUnits, FitSingle, HasComment, TemplatePrinting.Proper;
    var p := PrintValue(value);
    var tail := p + (trail + (PrintComment(comment) + rest));
    BlankIsSpace('"');
    BlankIsSpace('\'');
    BlankIsSpace('\n');
    if p == "" {
      assert value.Unquoted? && comment.None?;
      assert tail == rest;
    } else {
      assert tail[0] == p[0];
    }
  }

  /** What a statement with a readable key and value does. */
  lemma StatementAssigns(text: string, start: nat, consumed: nat, keyEnd: nat, key: string, extracted: Extracted,
                         state: State, context: Context)
    requires start < |text| && start + ExportLength(text[start..]) == consumed && consumed + keyEnd + 1 <= |text|
    requires ScanKey(text[consumed..], 0, context.letters) == Key(keyEnd, keyEnd + 1, false)
    requires TrimEnd(text[consumed..][..keyEnd]) == key && ' ' !in key
    requires var valueAt := consumed + keyEnd + 1 + SpaceLength(text[consumed + keyEnd + 1..]);
             extracted.Raw? && ExtractValue(text[valueAt..]) == extracted
    ensures var valueAt := consumed + keyEnd + 1 + SpaceLength(text[consumed + keyEnd + 1..]);
            Statement(text, start, state, context)
            == Next(Assign(state, LineOf(text, start), key, extracted.raw, extracted.expand,
                           Visible(context, state.entries)),
                    Some(valueAt + extracted.len))
  {
    hide ExportLength, ScanKey, TrimEnd, ExtractValue, Assign, LineOf, Visible, SpaceLength;
    assert text[consumed..][keyEnd + 1..] == text[consumed + keyEnd + 1..];
  }

  /** Where the parts of a printed assignment stand. */
  lemma SetParts(text: string, start: nat, line: Line, rest: string)
    requires line.Set? && start < |text| && text[start..] == PrintStatement(line) + rest
    ensures var prefix, front, more := PrintExport(line.prefix), line.key + line.before, Assignment(line) + rest;
            var consumed := start + |prefix|;
            && text[start..] == prefix + (line.key + (line.before + more))
            && consumed + |front| < |text| && text[consumed..] == front + more && text[consumed + |front|..] == more
            && more[0] == line.sign
  {
    hide PrintExport, PrintValue, PrintComment;
    var prefix, front, more := PrintExport(line.prefix), line.key + line.before, Assignment(line) + rest;
    assert text[start..] == prefix + (line.key + (line.before + more));
    assert line.key + (line.before + more) == front + more;
    SuffixAfter(text, start, prefix, front + more);
    SuffixAfter(text, start + |prefix|, front, more);
  }

  /** An assignment is read as such, up to the end of its value. */
  lemma SetRead(text: string, start: nat, line: Line, rest: string, state: State, context: Context)
    requires line.Set? && FitLine(line, rest == "", context.letters) && EndsLine(rest)
    requires start < |text| && text[start..] == PrintStatement(line) + rest
    ensures var valueAt := start + |PrintExport(line.prefix)| + |line.key + line.before| + 1 + |line.after|;
            Statement(text, start, state, context)
            == Next(LineMeans(line, LineOf(text, start), state, context),
                    Some(valueAt + ConsumedBy(line.value, line.trail, line.comment, rest)))
  {
    hide ExportLength, ScanKey, TrimEnd, ExtractValue, Assign, LineMeans, LineOf, PrintValue, PrintExport, PrintComment;
    hide FitValue, KeyChars, Blanks, Gap, ConsumedBy, Visible, SpaceLength, PrintStatement, Assignment, Statement;
    var front, more := line.key + line.before, Assignment(line) + rest;
    var consumed := start + |PrintExport(line.prefix)|;
    SetParts(text, start, line, rest);
    KeyFound(text[start..], line.prefix, line.key, line.before, more, context.letters);
    KeyScanned(line.key, line.before, more, context.letters);
    SetValue(text, consumed + |front|, line, rest);
    StatementAssigns(text, start, consumed, |front|, line.key,
                     Raw(RawOf(line.value), !line.value.Single?,
                         ConsumedBy(line.value, line.trail, line.comment, rest)), state, context);
    AssignMeans(line, LineOf(text, start), state, context);
  }

  lemma StatementInherits(text: string, start: nat, consumed: nat, keyEnd: nat, valueStart: nat, key: string,
                          state: State, context: Context)
    requires start < |text| && start + ExportLength(text[start..]) == consumed
    requires ScanKey(text[consumed..], 0, context.letters) == Key(keyEnd, valueStart, true)
    requires TrimEnd(text[consumed..][..keyEnd]) == key && ' ' !in key
    ensures var value := Visible(context, state.entries)(key);
            Statement(text, start, state, context)
            == Next(if value.Some? then state.(entries := state.entries[key := (value.value, LineOf(text, start))])
                    else state,
                    Some(consumed + valueStart))
  {
    hide ExportLength, ScanKey, TrimEnd, LineOf, Visible;
  }

  /** A bare key takes the value its name reads, if any. */
  lemma InheritRead(text: string, start: nat, line: Line, rest: string, state: State, context: Context)
    requires line.Inherit? && FitLine(line, rest == "", context.letters) && EndsLine(rest)
    requires start < |text| && text[start..] == PrintStatement(line) + rest
    ensures Statement(text, start, state, context)
            == Next(LineMeans(line, LineOf(text, start), state, context),
                    Some(start + |PrintStatement(line)| + if rest == "" then 0 else 1))
  {
    hide ExportLength, ScanKey, TrimEnd, LineOf, PrintExport, KeyChars, Blanks, Visible, Readings, Reading, Statement;
    var prefix, front := PrintExport(line.prefix), line.key + line.before;
    InheritParts(text, start, line, rest);
    KeyFound(text[start..], line.prefix, line.key, line.before, rest, context.letters);
    KeyScanned(line.key, line.before, rest, context.letters);
    ReadingIs(context, state.entries, line.key);
    StatementInherits(text, start, start + |prefix|, |front|, |front| + if rest == "" then 0 else 1, line.key, state,
                      context);
  }

  lemma InheritParts(text: string, start: nat, line: Line, rest: string)
    requires line.Inherit? && start < |text| && text[start..] == PrintStatement(line) + rest
    ensures var prefix, front := PrintExport(line.prefix), line.key + line.before;
            && start + |prefix| <= |text| && text[start..] == prefix + (line.key + (line.before + rest))
            && text[start + |prefix|..] == front + rest
  {
    hide PrintExport;
    var prefix, front := PrintExport(line.prefix), line.key + line.before;
    assert text[start..] == prefix + (line.key + (line.before + rest));
    assert line.key + (line.before + rest) == front + rest;
    SuffixAfter(text, start, prefix, front + rest);
  }

  lemma ReadingIs(context: Context, entries: Entries, name: string)
    ensures Visible(context, entries)(name) == Reading(context, entries, name)
  {
    hide Visible, Reading;
    ReadsAlike(context, entries, name);
    assert Readings(context, entries)(name) == Reading(context, entries, name);
  }

  lemma NextLineIs(text: string, start: nat, line: string, rest: string)
    requires start < |text| && text[start..] == line + rest && '\n' !in line && EndsLine(rest)
    ensures NextLine(text, start) == start + |line| + if rest == "" then 0 else 1
  {
    LineFound(line, rest);
    SuffixAfter(text, start, line, rest);
  }

  lemma NoNewline(s: string, letters: char -> bool)
    requires KeyChars(s, letters)
    ensures '\n' !in s
  {
    forall i | 0 <= i < |s| ensures s[i] != '\n' { KeyCharFacts(s[i], letters); }
  }

  /** A character no key can hold is an error, and the line is given up. */
  lemma GarbledRead(text: string, start: nat, line: Line, rest: string, state: State, context: Context)
    requires line.Garbled? && FitLine(line, rest == "", context.letters) && EndsLine(rest)
    requires start < |text| && text[start..] == PrintStatement(line) + rest
    ensures Statement(text, start, state, context)
            == Next(LineMeans(line, LineOf(text, start), state, context),
                    Some(start + |PrintStatement(line)| + if rest == "" then 0 else 1))
  {
    hide ExportLength, ScanKey, TrimEnd, LineOf, KeyChars, InKey, NextLine;
    var s, more := text[start..], [line.bad] + (line.rest + rest);
    assert s == line.front + more;
    BlankIsSpace(line.bad);
    NoPrefix(line.front, more, context.letters);
    ScanStops(line.front, line.bad, line.rest + rest, context.letters);
    NoNewline(line.front, context.letters);
    NextLineIs(text, start, PrintStatement(line), rest);
    assert text[start + 0..] == s;
  }

  lemma TwoWordsScanned(first: string, second: string, more: string, letters: char -> bool)
    requires FitKey(None, first, letters) && second != "" && KeyChars(second, letters)
    requires more != "" && (more[0] == '=' || more[0] == ':')
    ensures var front := first + " " + second;
            && ExportLength(front + more) == 0 && ScanKey(front + more, 0, letters) == Key(|front|, |front| + 1, false)
            && (front + more)[..|front|] == front && TrimEnd(front) == front && ' ' in front
  {
    hide ExportLength, ScanKey, TrimEnd, InKey;
    var front := first + " " + second;
    assert front + more == first + (" " + second + more);
    KeyCharFacts(' ', letters);
    NoPrefix(first, " " + second + more, letters);
    BlankIsSpace(' ');
    ScanEnds(front, more, letters);
    KeyCharFacts(second[|second| - 1], letters);
    assert front[|front| - 1] == second[|second| - 1];
    TrailTrims(front, "");
    assert front + "" == front && front[|first|] == ' ';
  }

  lemma StatementRefuses(text: string, start: nat, key: string, keyEnd: nat, state: State, context: Context)
    requires start < |text| && ExportLength(text[start..]) == 0 && keyEnd <= |text| - start
    requires ScanKey(text[start..], 0, context.letters) == Key(keyEnd, keyEnd + 1, false)
    requires TrimEnd(text[start..][..keyEnd]) == key && ' ' in key
    ensures Statement(text, start, state, context)
            == Next(state.(errors := state.errors + [LineError(LineOf(text, start), SpaceInKey)]),
                    Some(NextLine(text, start)))
  {
    hide ExportLength, ScanKey, TrimEnd, LineOf, NextLine;
    assert text[start + 0..] == text[start..];
  }

  /** A key of two words is an error, and the line is given up. */
  lemma TwoWordsRead(text: string, start: nat, line: Line, rest: string, state: State, context: Context)
    requires line.TwoWords? && FitLine(line, rest == "", context.letters) && EndsLine(rest)
    requires start < |text| && text[start..] == PrintStatement(line) + rest
    ensures Statement(text, start, state, context)
            == Next(LineMeans(line, LineOf(text, start), state, context),
                    Some(start + |PrintStatement(line)| + if rest == "" then 0 else 1))
  {
    hide ExportLength, ScanKey, TrimEnd, LineOf, KeyChars, InKey, NextLine, Statement, Gap;
    var front, more := line.first + " " + line.second, [line.sign] + (line.rest + rest);
    assert text[start..] == front + more;
    TwoWordsScanned(line.first, line.second, more, context.letters);
    NoNewline(line.first, context.letters);
    NoNewline(line.second, context.letters);
    assert '\n' !in front;
    NextLineIs(text, start, front + ([line.sign] + line.rest), rest);
    StatementRefuses(text, start, front, |front|, state, context);
  }

  lemma {:induction false} NeverQuoted(text: string, quote: char, escaped: bool, chars: string)
    requires quote !in text
    ensures Quoted(text, quote, escaped, chars).None?
    decreases |text|
  {
    if text != "" {
      NeverQuoted(text[1..], quote, true, chars);
      NeverQuoted(text[1..], quote, false, chars + (if escaped then "\\" else "") + [text[0]]);
    }
  }

  lemma StatementStops(text: string, start: nat, keyEnd: nat, key: string, state: State, context: Context)
    requires start < |text| && ExportLength(text[start..]) == 0 && start + keyEnd + 1 <= |text|
    requires ScanKey(text[start..], 0, context.letters) == Key(keyEnd, keyEnd + 1, false)
    requires TrimEnd(text[start..][..keyEnd]) == key && ' ' !in key
    requires SpaceLength(text[start + keyEnd + 1..]) == 0 && ExtractValue(text[start + keyEnd + 1..]) == Unterminated
    ensures Statement(text, start, state, context)
            == Next(state.(errors := state.errors + [LineError(LineOf(text, start), UnterminatedQuote)]), None)
  {
    hide ExportLength, ScanKey, TrimEnd, LineOf, SpaceLength, ExtractValue;
    assert text[start + 0..] == text[start..] && text[start..][keyEnd + 1..] == text[start + keyEnd + 1..];
  }

  lemma NeverExtracted(value: string, quote: char, text: string)
    requires value == [quote] + text && (quote == '"' || quote == '\'') && quote !in text
    ensures SpaceLength(value) == 0 && ExtractValue(value) == Unterminated
  {
    assert value[1..] == text && value[0] == quote;
    NeverQuoted(text, quote, false, "");
    BlankIsSpace(quote);
  }

  /** A quote that is never closed is an error, and nothing behind it is read. */
  lemma OpenRead(text: string, start: nat, line: Line, state: State, context: Context)
    requires line.Open? && FitLine(line, true, context.letters)
    requires start < |text| && text[start..] == PrintStatement(line)
    ensures Statement(text, start, state, context)
            == Next(LineMeans(line, LineOf(text, start), state, context), None)
  {
    hide ExportLength, ScanKey, TrimEnd, LineOf, KeyChars, Blanks, SpaceLength, ExtractValue, Statement;
    var key, value := line.key, [line.quote] + line.text;
    var more := "=" + value;
    assert text[start..] == key + more;
    OpenScanned(text[start..], key, more, context.letters);
    SuffixAfter(text, start, key, more);
    SuffixAfter(text, start + |key|, "=", value);
    NeverExtracted(value, line.quote, line.text);
    StatementStops(text, start, |key|, key, state, context);
  }

  lemma OpenScanned(s: string, key: string, more: string, letters: char -> bool)
    requires s == key + more && FitKey(None, key, letters) && more != "" && more[0] == '='
    ensures ExportLength(s) == 0 && ScanKey(s, 0, letters) == Key(|key|, |key| + 1, false)
    ensures s[..|key|] == key && TrimEnd(key) == key && ' ' !in key
  {
    hide ExportLength, ScanKey, TrimEnd, KeyChars;
    assert s == "" + (key + ("" + more)) && key + "" == key;
    KeyFound(s, None, key, "", more, letters);
    KeyScanned(key, "", more, letters);
  }
}
