/** What a `known_hosts` text records and what a presented key amounts to. */
module KnownHostsRules {
  import opened Common
  import opened GlobRules

  datatype Algorithm = Rsa(hash: Option<string>) | Named(name: string)

  /** The key itself, without its comment. */
  datatype PublicKey = PublicKey(algorithm: Algorithm, data: string)

  datatype Marker = CertAuthority | RevokedKey

  datatype HostPatterns = HashedName(salt: string, hash: string) | Patterns(patterns: seq<string>)

  datatype Entry = Entry(marker: Option<Marker>, hosts: HostPatterns, key: PublicKey)

  /** An entry and the 1-based line it came from. */
  datatype Line = Line(number: nat, entry: Entry)

  datatype Check = Revoked(line: nat) | Match | Changed(line: nat) | Unknown

  /** Whether `hash` is the keyed hash of the name under `salt`. */
  type Mac = (string, string, string) -> bool

  // ----- host patterns -----

  predicate Negated(pattern: string) {
    pattern != "" && pattern[0] == '!'
  }

  predicate Hits(pattern: string, name: string) {
    Matches(Fold(if Negated(pattern) then pattern[1..] else pattern), name)
  }

  /** Some pattern must match and no negated one may. */
  predicate HostsMatch(mac: Mac, hosts: HostPatterns, name: string) {
    match hosts
    case HashedName(salt, hash) => mac(salt, hash, name)
    case Patterns(patterns) =>
      && (exists i :: 0 <= i < |patterns| && !Negated(patterns[i]) && Hits(patterns[i], name))
      && (forall i :: 0 <= i < |patterns| && Negated(patterns[i]) ==> !Hits(patterns[i], name))
  }

  // ----- the verdict -----

  function Filter<T>(s: seq<T>, keep: T -> bool): seq<T>
  {
    if s == [] then [] else (if keep(s[0]) then [s[0]] else []) + Filter(s[1..], keep)
  }

  /** The number of the first line picked. */
  function First(entries: seq<Line>, pick: Line -> bool): Option<nat> {
    if entries == [] then None else if pick(entries[0]) then Some(entries[0].number) else First(entries[1..], pick)
  }

  function ForHost(mac: Mac, name: string): Line -> bool {
    (line: Line) => HostsMatch(mac, line.entry.hosts, name)
  }

  /** The lines of the host that revoke `key`. */
  function Revoking(mac: Mac, name: string, key: PublicKey): Line -> bool {
    (line: Line) => HostsMatch(mac, line.entry.hosts, name) && line.entry.marker == Some(RevokedKey)
      && line.entry.key == key
  }

  /** The unmarked lines of the host with `key`. */
  function Trusting(mac: Mac, name: string, key: PublicKey): Line -> bool {
    (line: Line) => HostsMatch(mac, line.entry.hosts, name) && line.entry.marker == None && line.entry.key == key
  }

  /** The unmarked lines of the host with another key. */
  function Contradicting(mac: Mac, name: string, key: PublicKey): Line -> bool {
    (line: Line) => HostsMatch(mac, line.entry.hosts, name) && line.entry.marker == None && line.entry.key != key
  }

  function Verdict(mac: Mac, entries: seq<Line>, name: string, key: PublicKey): Check {
    var revoked := First(entries, Revoking(mac, name, key));
    var changed := First(entries, Contradicting(mac, name, key));
    if revoked.Some? then Revoked(revoked.value)
    else if First(entries, Trusting(mac, name, key)).Some? then Match
    else if changed.Some? then Changed(changed.value)
    else Unknown
  }

  // ----- reading a file -----

  function LinesFrom(text: string, line: string): (r: seq<string>)
    ensures r != []
    decreases |text|
  {
    if text == "" then [line]
    else if text[0] == '\n' then [line] + LinesFrom(text[1..], "")
    else LinesFrom(text[1..], line + [text[0]])
  }

  /** `split('\n')`. */
  function Lines(text: string): (r: seq<string>)
    ensures r != []
  {
    LinesFrom(text, "")
  }

  function WordsFrom(s: string, word: string): seq<string>
    decreases |s|
  {
    var ended := if word == "" then [] else [word];
    if s == "" then ended
    else if IsWhitespace(s[0]) then ended + WordsFrom(s[1..], "")
    else WordsFrom(s[1..], word + [s[0]])
  }

  /** `split_whitespace`. */
  function Words(s: string): seq<string> {
    WordsFrom(s, "")
  }

  function Joined(words: seq<string>): string {
    if words == [] then "" else if |words| == 1 then words[0] else words[0] + " " + Joined(words[1..])
  }

  /** The unseen entry format: reading a line, and writing a key. */
  datatype Format = Format(read: string -> Option<Entry>, render: PublicKey -> string)

  /** Blank and comment lines are skipped, runs of whitespace are one space, malformed lines are skipped. */
  function ReadLine(format: Format, raw: string): Option<Entry> {
    var line := Trim(raw);
    if line == "" || line[0] == '#' then None else format.read(Joined(Words(line)))
  }

  function ReadLines(format: Format, lines: seq<string>, number: nat): seq<Line> {
    if lines == [] then []
    else
      var entry := ReadLine(format, lines[0]);
      (if entry.Some? then [Line(number, entry.value)] else []) + ReadLines(format, lines[1..], number + 1)
  }

  function Parse(format: Format, text: string): seq<Line> {
    ReadLines(format, Lines(WithoutMark(text)), 1)
  }

  // ----- appending -----

  predicate EndsLine(text: string) {
    text == "" || text[|text| - 1] == '\n'
  }

  /** A newline is written first when the text does not end with one. */
  function Appended(text: string, entry: string): string {
    text + (if EndsLine(text) then "" else "\n") + entry + "\n"
  }

  function EntryText(format: Format, name: string, key: PublicKey): string {
    name + " " + format.render(key)
  }

  predicate IsWord(s: string) {
    s != "" && forall i :: 0 <= i < |s| ==> !IsWhitespace(s[i])
  }

  /** A lowercase host name free of pattern, list, marker, hash and comment characters. */
  predicate PlainName(name: string) {
    && IsWord(name) && Plain(name) && Fold(name) == name && ',' !in name
    && name[0] !in ['#', '!', '@', '|', BYTE_ORDER_MARK]
  }

  ghost predicate RendersWords(format: Format, key: PublicKey, words: seq<string>) {
    words != [] && (forall i :: 0 <= i < |words| ==> IsWord(words[i])) && format.render(key) == Joined(words)
  }

  /** The entry format reads back what it writes for a plain name. */
  ghost predicate ReadsBack(format: Format) {
    forall name: string, key: PublicKey :: PlainName(name) ==>
      && format.read(EntryText(format, name, key)) == Some(Entry(None, Patterns([name]), key))
      && exists words: seq<string> :: RendersWords(format, key, words)
  }

  // ----- preferred algorithms -----

  predicate Recorded(recorded: seq<Algorithm>, a: Algorithm) {
    exists r :: r in recorded && (r == a || (r.Rsa? && a.Rsa?))
  }

  /** The algorithms of the keys trusted for the host. */
  function Algorithms(mac: Mac, entries: seq<Line>, name: string): seq<Algorithm> {
    if entries == [] then []
    else (if HostsMatch(mac, entries[0].entry.hosts, name) && entries[0].entry.marker == None
          then [entries[0].entry.key.algorithm] else [])
         + Algorithms(mac, entries[1..], name)
  }

  /** `default` with the recorded algorithms moved to the front. */
  function Preferred(recorded: seq<Algorithm>, default: seq<Algorithm>): seq<Algorithm> {
    Filter(default, a => Recorded(recorded, a)) + Filter(default, a => !Recorded(recorded, a))
  }
}

module KnownHostsLaws {
  import opened Common
  import opened GlobRules
  import opened KnownHostsRules

  // ----- the verdict, declaratively -----

  ghost predicate Somewhere(entries: seq<Line>, pick: Line -> bool) {
    exists l :: l in entries && pick(l)
  }

  /** `number` is that of a picked line and no picked line has a smaller one. */
  ghost predicate Earliest(entries: seq<Line>, pick: Line -> bool, number: nat) {
    && (exists l :: l in entries && pick(l) && l.number == number)
    && (forall l :: l in entries && pick(l) ==> number <= l.number)
  }

  predicate Ascending(entries: seq<Line>) {
    forall i, j :: 0 <= i < j < |entries| ==> entries[i].number < entries[j].number
  }

  lemma {:induction false} FirstFinds(entries: seq<Line>, pick: Line -> bool)
    ensures First(entries, pick).Some? <==> Somewhere(entries, pick)
  {
    if entries != [] {
      FirstFinds(entries[1..], pick);
      assert entries == [entries[0]] + entries[1..];
    }
  }

  lemma {:induction false} FirstIsEarliest(entries: seq<Line>, pick: Line -> bool)
    requires Ascending(entries) && First(entries, pick).Some?
    ensures Earliest(entries, pick, First(entries, pick).value)
  {
    if pick(entries[0]) {
      assert entries[0] in entries;
    } else {
      FirstIsEarliest(entries[1..], pick);
      var l :| l in entries[1..] && pick(l) && l.number == First(entries[1..], pick).value;
      assert l in entries;
      forall l' | l' in entries && pick(l') ensures First(entries, pick).value <= l'.number {
        assert l' in entries[1..];
      }
    }
  }

  /** Revocation wins over a match, a match over a change, and the line named is the first of its kind. */
  lemma VerdictMeans(mac: Mac, entries: seq<Line>, name: string, key: PublicKey)
    requires Ascending(entries)
    ensures match Verdict(mac, entries, name, key)
            case Revoked(line) => Earliest(entries, Revoking(mac, name, key), line)
            case Match => !Somewhere(entries, Revoking(mac, name, key)) && Somewhere(entries, Trusting(mac, name, key))
            case Changed(line) =>
              && !Somewhere(entries, Revoking(mac, name, key)) && !Somewhere(entries, Trusting(mac, name, key))
              && Earliest(entries, Contradicting(mac, name, key), line)
            case Unknown =>
              && !Somewhere(entries, Revoking(mac, name, key)) && !Somewhere(entries, Trusting(mac, name, key))
              && !Somewhere(entries, Contradicting(mac, name, key))
  {
    var revoking, contradicting := Revoking(mac, name, key), Contradicting(mac, name, key);
    FirstFinds(entries, revoking);
    FirstFinds(entries, Trusting(mac, name, key));
    FirstFinds(entries, contradicting);
    if First(entries, revoking).Some? {
      FirstIsEarliest(entries, revoking);
    } else if First(entries, contradicting).Some? {
      FirstIsEarliest(entries, contradicting);
    }
  }

  predicate Records(entries: seq<Line>, entry: Entry) {
    exists l :: l in entries && l.entry == entry
  }

  predicate SameKind(a: Check, b: Check) {
    a.Revoked? == b.Revoked? && a.Match? == b.Match? && a.Changed? == b.Changed?
  }

  /** The kind of verdict depends on which entries there are, not on their order or number. */
  lemma OrderDoesNotMatter(mac: Mac, a: seq<Line>, b: seq<Line>, name: string, key: PublicKey)
    requires forall entry :: Records(a, entry) <==> Records(b, entry)
    ensures SameKind(Verdict(mac, a, name, key), Verdict(mac, b, name, key))
  {
    SameEntries(a, b, Revoking(mac, name, key));
    SameEntries(a, b, Trusting(mac, name, key));
    SameEntries(a, b, Contradicting(mac, name, key));
  }

  lemma SameEntries(a: seq<Line>, b: seq<Line>, pick: Line -> bool)
    requires forall entry :: Records(a, entry) <==> Records(b, entry)
    requires forall l: Line, l': Line :: l.entry == l'.entry ==> pick(l) == pick(l')
    ensures First(a, pick).Some? == First(b, pick).Some?
  {
    FirstFinds(a, pick);
    FirstFinds(b, pick);
    if First(a, pick).Some? {
      var l :| l in a && pick(l);
      assert Records(a, l.entry);
    }
    if First(b, pick).Some? {
      var l :| l in b && pick(l);
      assert Records(b, l.entry);
    }
  }

  // ----- keeping one host's entries -----

  lemma {:induction false} FirstAmongKept(entries: seq<Line>, keep: Line -> bool, pick: Line -> bool)
    requires forall l :: pick(l) ==> keep(l)
    ensures First(Filter(entries, keep), pick) == First(entries, pick)
  {
    if entries != [] {
      FirstAmongKept(entries[1..], keep, pick);
      var kept := Filter(entries, keep);
      if keep(entries[0]) {
        assert kept[0] == entries[0] && kept[1..] == Filter(entries[1..], keep);
      } else {
        assert kept == Filter(entries[1..], keep);
      }
    }
  }

  /** Dropping the entries of other hosts first does not change a host's verdict. */
  lemma ForHostKeepsVerdict(mac: Mac, entries: seq<Line>, name: string, key: PublicKey)
    ensures Verdict(mac, Filter(entries, ForHost(mac, name)), name, key) == Verdict(mac, entries, name, key)
  {
    FirstAmongKept(entries, ForHost(mac, name), Revoking(mac, name, key));
    FirstAmongKept(entries, ForHost(mac, name), Trusting(mac, name, key));
    FirstAmongKept(entries, ForHost(mac, name), Contradicting(mac, name, key));
  }

  // ----- appending and reading again -----

  lemma {:induction false} LinesSplit(a: string, b: string, line: string)
    ensures LinesFrom(a + "\n" + b, line) == LinesFrom(a, line) + LinesFrom(b, "")
    decreases |a|
  {
    var text := a + "\n" + b;
    if a == "" {
      assert text[1..] == b;
    } else {
      assert text[1..] == a[1..] + "\n" + b;
      LinesSplit(a[1..], b, if a[0] == '\n' then "" else line + [a[0]]);
    }
  }

  lemma {:induction false} OneLine(s: string, line: string)
    requires '\n' !in s
    ensures LinesFrom(s, line) == [line + s]
    decreases |s|
  {
    if s == "" {
      assert line + s == line;
    } else {
      OneLine(s[1..], line + [s[0]]);
      assert (line + [s[0]]) + s[1..] == line + s;
    }
  }

  lemma {:induction false} ReadLinesConcat(format: Format, a: seq<string>, b: seq<string>, number: nat)
    ensures ReadLines(format, a + b, number) == ReadLines(format, a, number) + ReadLines(format, b, number + |a|)
  {
    if a == [] {
      assert a + b == b;
    } else {
      assert (a + b)[1..] == a[1..] + b;
      ReadLinesConcat(format, a[1..], b, number + 1);
    }
  }

  lemma {:induction false} NumbersAscend(format: Format, lines: seq<string>, number: nat)
    ensures Ascending(ReadLines(format, lines, number))
    ensures forall l :: l in ReadLines(format, lines, number) ==> number <= l.number < number + |lines|
  {
    if lines != [] {
      NumbersAscend(format, lines[1..], number + 1);
    }
  }

  lemma ParsedAscends(format: Format, text: string)
    ensures Ascending(Parse(format, text))
  {
    NumbersAscend(format, Lines(WithoutMark(text)), 1);
  }

  lemma {:induction false} WordsOfWord(word: string, start: string, rest: string)
    requires (forall i :: 0 <= i < |word| ==> !IsWhitespace(word[i])) && start + word != ""
    ensures WordsFrom(word + " " + rest, start) == [start + word] + WordsFrom(rest, "")
    ensures WordsFrom(word, start) == [start + word]
    decreases |word|
  {
    var s := word + " " + rest;
    if word == "" {
      assert s[1..] == rest && start + word == start;
    } else {
      assert s[1..] == word[1..] + " " + rest;
      assert (start + [word[0]]) + word[1..] == start + word;
      WordsOfWord(word[1..], start + [word[0]], rest);
    }
  }

  /** Joining words with single spaces and splitting at whitespace is the identity. */
  lemma {:induction false} WordsOfJoined(words: seq<string>)
    requires forall i :: 0 <= i < |words| ==> IsWord(words[i])
    ensures Words(Joined(words)) == words
  {
    if words != [] {
      WordsOfJoined(words[1..]);
      assert "" + words[0] == words[0];
      WordsOfWord(words[0], "", Joined(words[1..]));
    }
  }

  /** A joined list of words starts and ends with a word's character and has no line break. */
  lemma {:induction false} JoinedEnds(words: seq<string>)
    requires words != [] && forall i :: 0 <= i < |words| ==> IsWord(words[i])
    ensures var s := Joined(words);
            IsWord(words[0]) && s != "" && s[0] == words[0][0] && !IsWhitespace(s[0])
            && !IsWhitespace(s[|s| - 1]) && '\n' !in s
  {
    if |words| > 1 {
      JoinedEnds(words[1..]);
      var s := Joined(words);
      assert s == words[0] + " " + Joined(words[1..]);
    }
  }

  /** The line an entry is written as is read back as that entry. */
  lemma WrittenLineReads(format: Format, name: string, key: PublicKey)
    requires ReadsBack(format) && PlainName(name)
    ensures var line := EntryText(format, name, key);
            && ReadLine(format, line) == Some(Entry(None, Patterns([name]), key))
            && '\n' !in line && line[0] != BYTE_ORDER_MARK
  {
    var line := EntryText(format, name, key);
    assert format.read(line) == Some(Entry(None, Patterns([name]), key));
    var words: seq<string> :| RendersWords(format, key, words);
    var all := [name] + words;
    assert all[1..] == words;
    assert line == Joined(all);
    JoinedEnds(all);
    WordsOfJoined(all);
    assert Trim(line) == line;
  }

  /** The line number an appended entry gets. */
  function NextNumber(text: string): nat {
    |Lines(WithoutMark(text))| + if EndsLine(text) then 0 else 1
  }

  lemma {:induction false} EndsInBlank(format: Format, a: string)
    ensures Lines(a + "\n") == Lines(a) + [""]
    ensures ReadLines(format, Lines(a + "\n"), 1) == ReadLines(format, Lines(a), 1)
  {
    LinesSplit(a, "", "");
    assert a + "\n" + "" == a + "\n";
    ReadLinesConcat(format, Lines(a), [""], 1);
    assert ReadLines(format, [""], 1 + |Lines(a)|) == [];
  }

  /** Reading complete lines followed by one more line. */
  lemma OneMoreLine(format: Format, a: string, line: string)
    requires '\n' !in line && ReadLine(format, line).Some?
    ensures ReadLines(format, Lines(a + "\n" + line + "\n"), 1)
            == ReadLines(format, Lines(a), 1) + [Line(|Lines(a)| + 1, ReadLine(format, line).value)]
  {
    var b := a + "\n" + line;
    EndsInBlank(format, b);
    LinesSplit(a, line, "");
    OneLine(line, "");
    assert "" + line == line;
    ReadLinesConcat(format, Lines(a), [line], 1);
    assert [line][1..] == [];
  }

  lemma FirstLine(format: Format, line: string)
    requires '\n' !in line && ReadLine(format, line).Some?
    ensures ReadLines(format, Lines(line + "\n"), 1) == [Line(1, ReadLine(format, line).value)]
  {
    EndsInBlank(format, line);
    OneLine(line, "");
    assert "" + line == line;
    assert [line][1..] == [];
  }

  /** Appending keeps every old entry with its line number and adds exactly the new one. */
  lemma AppendedParses(format: Format, text: string, name: string, key: PublicKey)
    requires ReadsBack(format) && PlainName(name)
    ensures Parse(format, Appended(text, EntryText(format, name, key)))
            == Parse(format, text) + [Line(NextNumber(text), Entry(None, Patterns([name]), key))]
  {
    hide ReadsBack, ReadLine, ReadLines, Lines;
    var line := EntryText(format, name, key);
    WrittenLineReads(format, name, key);
    var stripped, after := WithoutMark(text), Appended(text, line);
    if text == "" {
      assert after == line + "\n" && WithoutMark(after) == after;
      FirstLine(format, line);
      NothingRead(format);
    } else if EndsLine(text) {
      var a := stripped[..|stripped| - 1];
      assert stripped == a + "\n" && WithoutMark(after) == a + "\n" + line + "\n";
      OneMoreLine(format, a, line);
      EndsInBlank(format, a);
    } else {
      assert WithoutMark(after) == stripped + "\n" + line + "\n";
      OneMoreLine(format, stripped, line);
    }
  }

  lemma NothingRead(format: Format)
    ensures Lines("") == [""] && ReadLines(format, [""], 1) == []
  {
    assert [""][1..] == [];
  }

  lemma {:induction false} FirstConcat(a: seq<Line>, b: seq<Line>, pick: Line -> bool)
    ensures First(a + b, pick) == if First(a, pick).Some? then First(a, pick) else First(b, pick)
  {
    if a == [] {
      assert a + b == b;
    } else {
      assert (a + b)[1..] == a[1..] + b;
      FirstConcat(a[1..], b, pick);
    }
  }

  lemma FirstWithLast(entries: seq<Line>, last: Line, pick: Line -> bool)
    ensures First(entries + [last], pick)
            == if First(entries, pick).Some? then First(entries, pick)
               else if pick(last) then Some(last.number) else None
  {
    FirstConcat(entries, [last], pick);
    assert [last][1..] == [];
  }

  /** An entry for a plain name is for that name alone. */
  lemma PlainEntryMatches(mac: Mac, name: string, other: string)
    requires PlainName(name)
    ensures HostsMatch(mac, Patterns([name]), other) <==> other == name
  {
    PlainMatchesItself(name, other);
    assert !Negated([name][0]);
    assert Hits([name][0], other) <==> other == name;
  }

  /** What a verdict becomes when `key` has been learnt for the host: any other key now counts as changed. */
  function Learnt(before: Check, same: bool, line: nat): Check {
    if before.Revoked? || before.Match? then before
    else if same then Match
    else if before.Changed? then before
    else Changed(line)
  }

  /** After appending, the host's key matches unless revoked and every other host's verdict is what it was. */
  lemma AppendedVerdicts(mac: Mac, format: Format, text: string, name: string, key: PublicKey, other: string,
                         presented: PublicKey)
    requires ReadsBack(format) && PlainName(name)
    ensures Verdict(mac, Parse(format, Appended(text, EntryText(format, name, key))), other, presented)
            == var before := Verdict(mac, Parse(format, text), other, presented);
               if other == name then Learnt(before, presented == key, NextNumber(text)) else before
  {
    hide Parse, Appended, EntryText, NextNumber, First, HostsMatch, PlainName, ReadsBack;
    AppendedParses(format, text, name, key);
    PlainEntryMatches(mac, name, other);
    var entries, last := Parse(format, text), Line(NextNumber(text), Entry(None, Patterns([name]), key));
    FirstWithLast(entries, last, Revoking(mac, other, presented));
    FirstWithLast(entries, last, Trusting(mac, other, presented));
    FirstWithLast(entries, last, Contradicting(mac, other, presented));
  }

  // ----- preferred algorithms -----

  lemma {:induction false} FilterConcat<T>(a: seq<T>, b: seq<T>, keep: T -> bool)
    ensures Filter(a + b, keep) == Filter(a, keep) + Filter(b, keep)
  {
    if a == [] {
      assert a + b == b;
    } else {
      var head := if keep(a[0]) then [a[0]] else [];
      assert (a + b)[0] == a[0] && (a + b)[1..] == a[1..] + b;
      FilterConcat(a[1..], b, keep);
      assert head + (Filter(a[1..], keep) + Filter(b, keep)) == (head + Filter(a[1..], keep)) + Filter(b, keep);
    }
  }

  lemma {:induction false} FilterKeeps<T>(s: seq<T>, keep: T -> bool)
    ensures forall x :: x in Filter(s, keep) <==> x in s && keep(x)
  {
    if s != [] {
      FilterKeeps(s[1..], keep);
      assert s == [s[0]] + s[1..];
    }
  }

  lemma {:induction false} FilterKeepsAll<T>(s: seq<T>, keep: T -> bool)
    requires forall x :: x in s ==> keep(x)
    ensures Filter(s, keep) == s
  {
    if s != [] {
      FilterKeepsAll(s[1..], keep);
    }
  }

  lemma {:induction false} FilterKeepsNone<T>(s: seq<T>, keep: T -> bool)
    requires forall x :: x in s ==> !keep(x)
    ensures Filter(s, keep) == []
  {
    if s != [] {
      FilterKeepsNone(s[1..], keep);
    }
  }

  lemma {:induction false} FilterParts<T>(s: seq<T>, keep: T -> bool, drop: T -> bool)
    requires forall x :: keep(x) != drop(x)
    ensures multiset(Filter(s, keep)) + multiset(Filter(s, drop)) == multiset(s)
  {
    if s != [] {
      FilterParts(s[1..], keep, drop);
      assert s == [s[0]] + s[1..];
    }
  }

  /**
   * The preferred list is a reordering of the default one: recorded algorithms come before all others and the order
   * within either kind is kept.
   */
  lemma PreferredReorders(recorded: seq<Algorithm>, default: seq<Algorithm>)
    ensures var r := Preferred(recorded, default);
            var known, unknown := (a: Algorithm) => Recorded(recorded, a), (a: Algorithm) => !Recorded(recorded, a);
            && multiset(r) == multiset(default)
            && Filter(r, known) == Filter(default, known) && Filter(r, unknown) == Filter(default, unknown)
            && (forall i :: 0 <= i < |r| ==> (known(r[i]) <==> i < |Filter(default, known)|))
  {
    var r := Preferred(recorded, default);
    var known, unknown := (a: Algorithm) => Recorded(recorded, a), (a: Algorithm) => !Recorded(recorded, a);
    var first, rest := Filter(default, known), Filter(default, unknown);
    hide Filter, Recorded;
    FilterKeeps(default, known);
    FilterKeeps(default, unknown);
    FilterParts(default, known, unknown);
    FilterConcat(first, rest, known);
    FilterConcat(first, rest, unknown);
    FilterKeepsAll(first, known);
    FilterKeepsNone(rest, known);
    FilterKeepsNone(first, unknown);
    FilterKeepsAll(rest, unknown);
    forall i | 0 <= i < |r| ensures known(r[i]) <==> i < |first| {
      assert r[i] == if i < |first| then first[i] else rest[i - |first|];
    }
  }

  lemma {:induction false} TrustedIsListed(mac: Mac, entries: seq<Line>, name: string, key: PublicKey)
    requires Somewhere(entries, Trusting(mac, name, key))
    ensures key.algorithm in Algorithms(mac, entries, name)
  {
    var l :| l in entries && Trusting(mac, name, key)(l);
    if l != entries[0] {
      assert l in entries[1..];
      TrustedIsListed(mac, entries[1..], name, key);
    }
  }

  /** A key that would match is not passed over: the algorithm offered first is a recorded one. */
  lemma RecordedKeyIsOffered(mac: Mac, entries: seq<Line>, name: string, key: PublicKey, default: seq<Algorithm>)
    requires Verdict(mac, entries, name, key) == Match && key.algorithm in default
    ensures var recorded := Algorithms(mac, entries, name);
            var offered := Preferred(recorded, default);
            offered != [] && Recorded(recorded, offered[0])
  {
    hide HostsMatch, Filter, Preferred;
    var recorded := Algorithms(mac, entries, name);
    FirstFinds(entries, Trusting(mac, name, key));
    TrustedIsListed(mac, entries, name, key);
    PreferredReorders(recorded, default);
    FilterKeeps(default, a => Recorded(recorded, a));
    FilterKeeps(Preferred(recorded, default), a => Recorded(recorded, a));
    var r := Preferred(recorded, default);
    assert key.algorithm in multiset(default);
  }
}

/** The file and the lookups as the program runs them. */
module KnownHostsFile {
  import opened Common
  import opened KnownHostsRules
  import opened KnownHostsLaws
  import Glob

  method MatchHosts(mac: Mac, hosts: HostPatterns, name: string) returns (matched: bool)
    ensures matched <==> HostsMatch(mac, hosts, name)
  {
    match hosts
    case HashedName(salt, hash) =>
      return mac(salt, hash, name);
    case Patterns(patterns) =>
      var positive := false;
      for i := 0 to |patterns|
        invariant positive <==> exists k :: 0 <= k < i && !Negated(patterns[k]) && Hits(patterns[k], name)
        invariant forall k :: 0 <= k < i && Negated(patterns[k]) ==> !Hits(patterns[k], name)
      {
        var negated := Negated(patterns[i]);
        var pattern := if negated then patterns[i][1..] else patterns[i];
        var hit := Glob.Run(Fold(pattern), name);
        if hit {
          if negated {
            return false;
          }
          positive := true;
        }
      }
      return positive;
  }

  class KnownHosts {
    var entries: seq<Line>

    constructor Parse(format: Format, text: string)
      ensures entries == KnownHostsRules.Parse(format, text)
    {
      hide Trim, Words, Joined, Lines, WithoutMark;
      var lines := Lines(WithoutMark(text));
      var parsed: seq<Line> := [];
      for index := 0 to |lines|
        invariant parsed + ReadLines(format, lines[index..], index + 1) == KnownHostsRules.Parse(format, text)
      {
        assert lines[index..][0] == lines[index] && lines[index..][1..] == lines[index + 1..];
        var line := Trim(lines[index]);
        if line != "" && line[0] != '#' {
          var entry := format.read(Joined(Words(line)));
          if entry.Some? {
            parsed := parsed + [Line(index + 1, entry.value)];
          }
        }
      }
      entries := parsed;
    }

    /** What the entries say about a key that the named host offers. */
    method Lookup(mac: Mac, name: string, key: PublicKey) returns (r: Check)
      ensures r == Verdict(mac, entries, name, key)
    {
      hide HostsMatch, First;
      var changed: Option<nat> := None;
      var matched := false;
      NoneYet(Revoking(mac, name, key));
      NoneYet(Trusting(mac, name, key));
      NoneYet(Contradicting(mac, name, key));
      for i := 0 to |entries|
        invariant First(entries[..i], Revoking(mac, name, key)) == None
        invariant matched <==> First(entries[..i], Trusting(mac, name, key)).Some?
        invariant changed == First(entries[..i], Contradicting(mac, name, key))
      {
        var line := entries[i];
        assert entries[..i + 1] == entries[..i] + [line];
        FirstWithLast(entries[..i], line, Revoking(mac, name, key));
        FirstWithLast(entries[..i], line, Trusting(mac, name, key));
        FirstWithLast(entries[..i], line, Contradicting(mac, name, key));
        var ofHost := MatchHosts(mac, line.entry.hosts, name);
        if ofHost {
          var sameKey := line.entry.key == key;
          if line.entry.marker == Some(RevokedKey) && sameKey {
            assert entries == entries[..i + 1] + entries[i + 1..];
            FirstConcat(entries[..i + 1], entries[i + 1..], Revoking(mac, name, key));
            return Revoked(line.number);
          } else if line.entry.marker == None && sameKey {
            matched := true;
          } else if line.entry.marker == None && changed == None {
            changed := Some(line.number);
          }
        }
      }
      assert entries[..|entries|] == entries;
      r := if matched then Match else if changed.Some? then Changed(changed.value) else Unknown;
    }

    /** Keeps only the host's entries; its verdicts stay as they were. */
    method KeepHost(mac: Mac, name: string)
      modifies this
      ensures entries == Filter(old(entries), ForHost(mac, name))
      ensures forall key :: Verdict(mac, entries, name, key) == Verdict(mac, old(entries), name, key)
    {
      hide HostsMatch, Verdict, ForHost;
      ForHostDecides(mac, name);
      var kept: seq<Line> := [];
      for i := 0 to |entries|
        invariant entries == old(entries)
        invariant kept + Filter(entries[i..], ForHost(mac, name)) == Filter(entries, ForHost(mac, name))
      {
        assert entries[i..][1..] == entries[i + 1..];
        var ofHost := MatchHosts(mac, entries[i].entry.hosts, name);
        if ofHost {
          kept := kept + [entries[i]];
        }
      }
      assert entries[|entries|..] == [] && kept + [] == kept;
      ghost var all := entries;
      entries := kept;
      forall key ensures Verdict(mac, kept, name, key) == Verdict(mac, all, name, key) {
        ForHostKeepsVerdict(mac, all, name, key);
      }
    }
  }

  lemma ForHostDecides(mac: Mac, name: string)
    ensures forall line :: ForHost(mac, name)(line) == HostsMatch(mac, line.entry.hosts, name)
  {
  }

  lemma NoneYet(pick: Line -> bool)
    ensures First([], pick) == None
  {
  }

  /** The `known_hosts` file. */
  class File {
    var content: string

    /** Appends an entry, on a line of its own. */
    method Append(format: Format, name: string, key: PublicKey)
      modifies this
      ensures content == Appended(old(content), EntryText(format, name, key))
      ensures ReadsBack(format) && PlainName(name) ==>
                Parse(format, content)
                == Parse(format, old(content)) + [Line(NextNumber(old(content)), Entry(None, Patterns([name]), key))]
    {
      var line := "";
      if content != "" && content[|content| - 1] != '\n' {
        line := line + "\n";
      }
      line := line + EntryText(format, name, key);
      line := line + "\n";
      content := content + line;
      assert content == Appended(old(content), EntryText(format, name, key));
      if ReadsBack(format) && PlainName(name) {
        AppendedParses(format, old(content), name, key);
      }
    }
  }
}
