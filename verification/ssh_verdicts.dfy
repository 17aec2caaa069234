/** What a `known_hosts` file says about a host's key, told from its lines. */
module VerdictLaws {
  import opened Common
  import opened GlobMeaning
  import opened KnownHostsRules
  import opened KnownHostsLaws

  // ----- hosts -----

  /** The lowercase pattern can be laid along the name. */
  ghost predicate Reaches(pattern: string, name: string) {
    exists cuts :: Laid(Fold(pattern), name, cuts)
  }

  /** The host is named by some pattern, and by no pattern behind a `!`; a hashed name is compared by its hash. */
  ghost predicate IsNamed(mac: Mac, hosts: HostPatterns, name: string) {
    match hosts
    case HashedName(salt, hash) => mac(salt, hash, name)
    case Patterns(patterns) =>
      && (exists i :: 0 <= i < |patterns| && NamedBy(patterns[i], name))
      && (forall i :: 0 <= i < |patterns| ==> !ExcludedBy(patterns[i], name))
  }

  ghost predicate NamedBy(pattern: string, name: string) {
    !("!" <= pattern) && Reaches(pattern, name)
  }

  ghost predicate ExcludedBy(pattern: string, name: string) {
    "!" <= pattern && Reaches(pattern[1..], name)
  }

  lemma HostsMatchExactly(mac: Mac, hosts: HostPatterns, name: string)
    ensures HostsMatch(mac, hosts, name) <==> IsNamed(mac, hosts, name)
  {
    if hosts.Patterns? {
      var patterns := hosts.patterns;
      forall i | 0 <= i < |patterns|
        ensures NamedBy(patterns[i], name) <==> !Negated(patterns[i]) && Hits(patterns[i], name)
        ensures ExcludedBy(patterns[i], name) <==> Negated(patterns[i]) && Hits(patterns[i], name)
      {
        assert "!" <= patterns[i] <==> Negated(patterns[i]);
        MatchesExactly(Fold(if Negated(patterns[i]) then patterns[i][1..] else patterns[i]), name);
      }
    }
  }

  // ----- keys -----

  ghost predicate Revokes(mac: Mac, l: Line, name: string, key: PublicKey) {
    IsNamed(mac, l.entry.hosts, name) && l.entry.marker == Some(RevokedKey) && l.entry.key == key
  }

  ghost predicate Trusts(mac: Mac, l: Line, name: string, key: PublicKey) {
    IsNamed(mac, l.entry.hosts, name) && l.entry.marker == None && l.entry.key == key
  }

  ghost predicate Contradicts(mac: Mac, l: Line, name: string, key: PublicKey) {
    IsNamed(mac, l.entry.hosts, name) && l.entry.marker == None && l.entry.key != key
  }

  ghost predicate FirstRevoking(mac: Mac, entries: seq<Line>, name: string, key: PublicKey, number: nat) {
    && (exists l :: l in entries && Revokes(mac, l, name, key) && l.number == number)
    && forall l :: l in entries && Revokes(mac, l, name, key) ==> number <= l.number
  }

  ghost predicate FirstContradicting(mac: Mac, entries: seq<Line>, name: string, key: PublicKey, number: nat) {
    && (exists l :: l in entries && Contradicts(mac, l, name, key) && l.number == number)
    && forall l :: l in entries && Contradicts(mac, l, name, key) ==> number <= l.number
  }

  ghost predicate AnyRevokes(mac: Mac, entries: seq<Line>, name: string, key: PublicKey) {
    exists l :: l in entries && Revokes(mac, l, name, key)
  }

  ghost predicate AnyTrusts(mac: Mac, entries: seq<Line>, name: string, key: PublicKey) {
    exists l :: l in entries && Trusts(mac, l, name, key)
  }

  ghost predicate AnyContradicts(mac: Mac, entries: seq<Line>, name: string, key: PublicKey) {
    exists l :: l in entries && Contradicts(mac, l, name, key)
  }

  lemma LinesPicked(mac: Mac, name: string, key: PublicKey, l: Line)
    ensures Revoking(mac, name, key)(l) <==> Revokes(mac, l, name, key)
    ensures Trusting(mac, name, key)(l) <==> Trusts(mac, l, name, key)
    ensures Contradicting(mac, name, key)(l) <==> Contradicts(mac, l, name, key)
  {
    HostsMatchExactly(mac, l.entry.hosts, name);
  }

  /**
   * A key is revoked, at the first line that revokes it for the host, if there is one; else trusted if some unmarked
   * line of the host has it; else changed, at the first unmarked line of the host with another key; else unknown.
   */
  lemma VerdictExactly(mac: Mac, entries: seq<Line>, name: string, key: PublicKey)
    requires Ascending(entries)
    ensures var v := Verdict(mac, entries, name, key);
            if AnyRevokes(mac, entries, name, key) then
              v.Revoked? && FirstRevoking(mac, entries, name, key, v.line)
            else if AnyTrusts(mac, entries, name, key) then v == Match
            else if AnyContradicts(mac, entries, name, key) then
              v.Changed? && FirstContradicting(mac, entries, name, key, v.line)
            else v == Unknown
  {
    hide IsNamed, HostsMatch;
    VerdictMeans(mac, entries, name, key);
    forall l
      ensures Revoking(mac, name, key)(l) <==> Revokes(mac, l, name, key)
      ensures Trusting(mac, name, key)(l) <==> Trusts(mac, l, name, key)
      ensures Contradicting(mac, name, key)(l) <==> Contradicts(mac, l, name, key)
    {
      LinesPicked(mac, name, key, l);
    }
  }

  // ----- reading -----

  /** A word and the white space behind it. */
  datatype Spaced = Spaced(word: string, gap: string)

  datatype HostLine =
    | Empty(lead: string)
    | Comment(lead: string, text: string)
    | Record(lead: string, words: seq<Spaced>)

  predicate Gap(s: string) {
    White(s) && '\n' !in s
  }

  /** Words are separated by white space. */
  predicate FitWords(words: seq<Spaced>) {
    && (forall i :: 0 <= i < |words| ==> IsWord(words[i].word) && Gap(words[i].gap))
    && (forall i :: 0 <= i < |words| - 1 ==> words[i].gap != "")
  }

  predicate FitHostLine(line: HostLine) {
    Gap(line.lead) &&
    match line
    case Empty(_) => true
    case Comment(_, text) => '\n' !in text
    case Record(_, words) =>
      words != [] && FitWords(words) && words[0].word[0] != '#' && words[0].word[0] != BYTE_ORDER_MARK
  }

  function PrintWords(words: seq<Spaced>): string {
    if words == [] then "" else words[0].word + (words[0].gap + PrintWords(words[1..]))
  }

  function PrintHostLine(line: HostLine): string {
    line.lead + match line
                case Empty(_) => ""
                case Comment(_, text) => "#" + text
                case Record(_, words) => PrintWords(words)
  }

  function PrintHostLines(lines: seq<HostLine>): string {
    if lines == [] then ""
    else if |lines| == 1 then PrintHostLine(lines[0])
    else PrintHostLine(lines[0]) + "\n" + PrintHostLines(lines[1..])
  }

  function PlainWords(words: seq<Spaced>): (r: seq<string>)
    ensures |r| == |words| && forall i :: 0 <= i < |r| ==> r[i] == words[i].word
  {
    seq(|words|, i requires 0 <= i < |words| => words[i].word)
  }

  /** The readable entries with their line numbers, the first line being `number`. */
  function EntriesOf(format: Format, lines: seq<HostLine>, number: nat): seq<Line> {
    if lines == [] then []
    else
      var rest := EntriesOf(format, lines[1..], number + 1);
      match lines[0]
      case Empty(_) => rest
      case Comment(_, _) => rest
      case Record(_, words) =>
        var entry := format.read(Joined(PlainWords(words)));
        if entry.Some? then [Line(number, entry.value)] + rest else rest
  }

  lemma {:induction false} WordEnds(word: string, rest: string, start: string)
    requires forall i :: 0 <= i < |word| ==> !IsWhitespace(word[i])
    ensures WordsFrom(word + rest, start) == WordsFrom(rest, start + word)
    decreases |word|
  {
    if word == "" {
      assert word + rest == rest && start + "" == start;
    } else {
      assert (word + rest)[1..] == word[1..] + rest;
      WordEnds(word[1..], rest, start + [word[0]]);
      assert (start + [word[0]]) + word[1..] == start + word;
    }
  }

  lemma {:induction false} GapPasses(gap: string, rest: string, start: string)
    requires White(gap) && gap != "" && start != ""
    ensures WordsFrom(gap + rest, start) == [start] + WordsFrom(rest, "")
  {
    assert (gap + rest)[1..] == gap[1..] + rest;
    BlankPasses(gap[1..], rest);
  }

  lemma {:induction false} BlankPasses(gap: string, rest: string)
    requires White(gap)
    ensures WordsFrom(gap + rest, "") == WordsFrom(rest, "")
    decreases |gap|
  {
    if gap == "" {
      assert gap + rest == rest;
    } else {
      assert (gap + rest)[1..] == gap[1..] + rest;
      BlankPasses(gap[1..], rest);
      assert [] + WordsFrom(rest, "") == WordsFrom(rest, "");
    }
  }

  /** Splitting at white space gives back the words. */
  lemma {:induction false} WordsRead(words: seq<Spaced>)
    requires FitWords(words)
    ensures WordsFrom(PrintWords(words), "") == PlainWords(words)
    decreases |words|
  {
    if words != [] {
      var word, gap, rest := words[0].word, words[0].gap, PrintWords(words[1..]);
      FitRest(words);
      WordEnds(word, gap + rest, "");
      assert "" + word == word;
      WordsRead(words[1..]);
      if gap == "" {
        assert words[1..] == [] && gap + rest == "";
      } else {
        GapPasses(gap, rest, word);
      }
      assert PlainWords(words) == [word] + PlainWords(words[1..]);
    }
  }

  /** Without the gap at the end. */
  function Cut(words: seq<Spaced>): seq<Spaced>
    requires words != []
  {
    words[..|words| - 1] + [Spaced(words[|words| - 1].word, "")]
  }

  lemma CutFits(words: seq<Spaced>)
    requires words != [] && FitWords(words)
    ensures FitWords(Cut(words)) && PlainWords(Cut(words)) == PlainWords(words)
    ensures Gap(words[|words| - 1].gap)
  {
  }

  lemma FitRest(words: seq<Spaced>)
    requires words != [] && FitWords(words)
    ensures FitWords(words[1..]) && IsWord(words[0].word)
  {
    assert forall i :: 0 <= i < |words| - 1 ==> words[1..][i] == words[i + 1];
  }

  lemma {:induction false} CutPrints(words: seq<Spaced>)
    requires words != [] && FitWords(words)
    ensures PrintWords(words) == PrintWords(Cut(words)) + words[|words| - 1].gap
    ensures var s := PrintWords(Cut(words));
            s != "" && s[0] == words[0].word[0] && !IsWhitespace(s[|s| - 1])
    decreases |words|
  {
    hide FitWords;
    FitRest(words);
    var word, gap, last := words[0].word, words[0].gap, words[|words| - 1].gap;
    if |words| == 1 {
      assert Cut(words)[1..] == [] && words[1..] == [];
      assert PrintWords(words) == word + (gap + "") && gap + "" == gap;
      assert PrintWords(Cut(words)) == word + ("" + "") && word + "" == word;
    } else {
      CutPrints(words[1..]);
      CutRest(words);
      Grouped(word, gap, PrintWords(Cut(words[1..])), last);
    }
  }

  lemma CutRest(words: seq<Spaced>)
    requires |words| > 1
    ensures PrintWords(Cut(words)) == words[0].word + (words[0].gap + PrintWords(Cut(words[1..])))
  {
    assert Cut(words)[1..] == Cut(words[1..]) && Cut(words)[0] == words[0];
  }

  lemma Grouped(word: string, gap: string, rest: string, last: string)
    requires rest != "" && word != ""
    ensures word + (gap + (rest + last)) == word + (gap + rest) + last
    ensures var s := word + (gap + rest); s != "" && s[0] == word[0] && s[|s| - 1] == rest[|rest| - 1]
  {
    assert word + (gap + rest) == (word + gap) + rest;
  }

  lemma RecordReads(format: Format, line: HostLine)
    requires line.Record? && FitHostLine(line)
    ensures ReadLine(format, PrintHostLine(line)) == format.read(Joined(PlainWords(line.words)))
  {
    var words := line.words;
    CutFits(words);
    CutPrints(words);
    var s, gap := PrintWords(Cut(words)), words[|words| - 1].gap;
    TrimsStart(line.lead, s + gap);
    TrailTrims(s, gap);
    WordsRead(Cut(words));
  }

  lemma SkippedReads(format: Format, line: HostLine)
    requires !line.Record? && FitHostLine(line)
    ensures ReadLine(format, PrintHostLine(line)).None?
  {
    if line.Comment? {
      var s := "#" + line.text;
      TrimsStart(line.lead, s);
      assert PrintHostLine(line) == line.lead + s;
      StaysFirst(s);
    } else {
      assert PrintHostLine(line) == line.lead + "";
      TrimsStart(line.lead, "");
    }
  }

  lemma {:induction false} StaysFirst(s: string)
    requires s != "" && !IsWhitespace(s[0])
    ensures TrimEnd(s) != "" && TrimEnd(s)[0] == s[0]
    decreases |s|
  {
    if IsWhitespace(s[|s| - 1]) { StaysFirst(s[..|s| - 1]); }
  }

  lemma {:induction false} NoBreak(words: seq<Spaced>)
    requires FitWords(words)
    ensures '\n' !in PrintWords(words)
    decreases |words|
  {
    if words != [] {
      FitRest(words);
      NoBreak(words[1..]);
    }
  }

  lemma LineHasNoBreak(line: HostLine)
    requires FitHostLine(line)
    ensures '\n' !in PrintHostLine(line)
  {
    if line.Record? { NoBreak(line.words); }
  }

  lemma {:induction false} LinesAreRead(format: Format, lines: seq<HostLine>, number: nat)
    requires lines != [] && forall i :: 0 <= i < |lines| ==> FitHostLine(lines[i])
    ensures ReadLines(format, Lines(PrintHostLines(lines)), number) == EntriesOf(format, lines, number)
    decreases |lines|
  {
    hide FitHostLine, ReadLine, PrintHostLine;
    var raw := PrintHostLine(lines[0]);
    LineHasNoBreak(lines[0]);
    OneLine(raw, "");
    assert "" + raw == raw;
    if lines[0].Record? {
      RecordReads(format, lines[0]);
    } else {
      SkippedReads(format, lines[0]);
    }
    if |lines| > 1 {
      LinesSplit(raw, PrintHostLines(lines[1..]), "");
      LinesAreRead(format, lines[1..], number + 1);
      assert Lines(PrintHostLines(lines)) == [raw] + Lines(PrintHostLines(lines[1..]));
    } else {
      assert lines[1..] == [] && [raw][1..] == [];
    }
  }

  /**
   * A file is read line by line: blank and comment lines and what the entry format refuses are skipped, any white space
   * may stand around the fields, and every entry carries the number of its line. A byte order mark changes nothing.
   */
  lemma PrintedHostsRead(format: Format, lines: seq<HostLine>, mark: bool)
    requires lines != [] && forall i :: 0 <= i < |lines| ==> FitHostLine(lines[i])
    ensures Parse(format, (if mark then [BYTE_ORDER_MARK] else "") + PrintHostLines(lines))
            == EntriesOf(format, lines, 1)
  {
    var text := PrintHostLines(lines);
    LinesAreRead(format, lines, 1);
    FirstIsNoMark(lines);
    assert ([BYTE_ORDER_MARK] + text)[1..] == text && "" + text == text;
  }

  lemma FirstIsNoMark(lines: seq<HostLine>)
    requires lines != [] && FitHostLine(lines[0])
    ensures PrintHostLines(lines) == "" || PrintHostLines(lines)[0] != BYTE_ORDER_MARK
  {
    var line, text := lines[0], PrintHostLines(lines);
    var raw := PrintHostLine(line);
    assert raw != "" ==> text[0] == raw[0];
    assert raw == "" && text != "" ==> text[0] == '\n';
    assert line.lead != "" ==> raw[0] == line.lead[0];
  }
}
