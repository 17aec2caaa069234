/** Where settings are looked for: dotted paths, comma lists of files, what an env file sees, and every error. */
module SourceLaws {
  import opened Common
  import opened StableSorting
  import opened SettingsRules
  import opened SettingsLaws
  import opened SettingsFiles
  import opened SettingsEngine
  import opened DotenvRules
  import TemplateRules
  import DotenvPrinting
  import DotenvReading
  import DotenvStatements

  // ----- dotted paths -----

  function Dotted(keys: seq<string>): string {
    if keys == [] then "" else if |keys| == 1 then keys[0] else keys[0] + "." + Dotted(keys[1..])
  }

  predicate Dotless(keys: seq<string>) {
    keys != [] && forall i :: 0 <= i < |keys| ==> '.' !in keys[i]
  }

  lemma {:induction false} KeyRead(front: string, key: string, rest: string)
    requires '.' !in key && (rest == "" || rest[0] == '.')
    ensures Keys(key + rest, front) == [front + key] + if rest == "" then [] else Keys(rest[1..], "")
    decreases |key|
  {
    var s := key + rest;
    if key == "" {
      assert s == rest && front + "" == front;
    } else {
      assert s[0] == key[0] && s[1..] == key[1..] + rest;
      KeyRead(front + [key[0]], key[1..], rest);
      assert (front + [key[0]]) + key[1..] == front + key;
    }
  }

  /** Splitting a dotted path gives its keys. */
  lemma {:induction false} KeysOfDotted(keys: seq<string>)
    requires Dotless(keys)
    ensures Keys(Dotted(keys), "") == keys
  {
    var rest := if |keys| == 1 then "" else "." + Dotted(keys[1..]);
    assert Dotted(keys) == keys[0] + rest;
    KeyRead("", keys[0], rest);
    assert "" + keys[0] == keys[0];
    if |keys| > 1 {
      assert rest[1..] == Dotted(keys[1..]);
      KeysOfDotted(keys[1..]);
    }
    assert keys == [keys[0]] + keys[1..];
  }

  /** Every path is dotted from just one list of keys. */
  lemma {:induction false} EveryPathIsDotted(path: string, key: string)
    requires '.' !in key
    ensures Dotless(Keys(path, key)) && Dotted(Keys(path, key)) == key + path
    decreases |path|
  {
    if path == "" {
      assert key + "" == key;
    } else if path[0] == '.' {
      EveryPathIsDotted(path[1..], "");
      var rest := Keys(path[1..], "");
      assert ([key] + rest)[1..] == rest && "" + path[1..] == path[1..];
      assert key + "." + path[1..] == key + path;
    } else {
      EveryPathIsDotted(path[1..], key + [path[0]]);
      assert key + [path[0]] + path[1..] == key + path;
    }
  }

  /** From one node to the next by one key each. */
  predicate Leads(nodes: seq<Spanned>, keys: seq<string>) {
    && |nodes| == |keys| + 1
    && forall i :: 0 <= i < |keys| ==>
         nodes[i].node.Mapping? && keys[i] in nodes[i].node.entries && nodes[i].node.entries[keys[i]] == nodes[i + 1]
  }

  lemma {:induction false} DescendExactly(root: Spanned, keys: seq<string>, leaf: Spanned)
    ensures Descend(root, keys) == Some(leaf)
            <==> exists nodes :: Leads(nodes, keys) && nodes[0] == root && nodes[|keys|] == leaf
  {
    if keys == [] {
      assert Leads([root], []);
    } else {
      if root.node.Mapping? && keys[0] in root.node.entries {
        var next := root.node.entries[keys[0]];
        DescendExactly(next, keys[1..], leaf);
        if Descend(root, keys) == Some(leaf) {
          var rest :| Leads(rest, keys[1..]) && rest[0] == next && rest[|keys| - 1] == leaf;
          var nodes := [root] + rest;
          forall i | 0 <= i < |keys|
            ensures nodes[i].node.Mapping? && keys[i] in nodes[i].node.entries
                    && nodes[i].node.entries[keys[i]] == nodes[i + 1]
          {
            if i > 0 { assert keys[i] == keys[1..][i - 1] && nodes[i] == rest[i - 1]; }
          }
          assert Leads(nodes, keys);
        }
      }
      if nodes :| Leads(nodes, keys) && nodes[0] == root && nodes[|keys|] == leaf {
        LeadsOn(nodes, keys);
      }
    }
  }

  lemma LeadsOn(nodes: seq<Spanned>, keys: seq<string>)
    requires keys != [] && Leads(nodes, keys)
    ensures Leads(nodes[1..], keys[1..])
  {
  }

  /** A dotted path finds exactly the node its keys lead to, through mappings only. */
  lemma LeafExactly(root: Spanned, keys: seq<string>, leaf: Spanned)
    requires Dotless(keys)
    ensures LeafAt(root, Dotted(keys)) == Some(leaf)
            <==> exists nodes :: Leads(nodes, keys) && nodes[0] == root && nodes[|keys|] == leaf
  {
    KeysOfDotted(keys);
    DescendExactly(root, keys, leaf);
  }

  // ----- lists of files -----

  /** An entry of a comma list with white space around it. */
  datatype Listed = Listed(lead: string, entry: string, trail: string)

  /** No comma, and no white space at its own ends. */
  predicate FitListed(l: Listed) {
    && White(l.lead) && White(l.trail) && ',' !in l.entry
    && (l.entry != "" ==> !IsWhitespace(l.entry[0]) && !IsWhitespace(l.entry[|l.entry| - 1]))
  }

  function PrintListed(l: Listed): string {
    l.lead + l.entry + l.trail
  }

  function PrintList(list: seq<Listed>): string {
    if list == [] then ""
    else if |list| == 1 then PrintListed(list[0])
    else PrintListed(list[0]) + "," + PrintList(list[1..])
  }

  function Entries(list: seq<Listed>): (r: seq<string>)
    ensures |r| == |list| && forall i :: 0 <= i < |r| ==> r[i] == list[i].entry
  {
    seq(|list|, i requires 0 <= i < |list| => list[i].entry)
  }

  lemma {:induction false} AllTrimmed(s: string)
    requires White(s)
    ensures TrimStart(s) == ""
  {
    if s != "" { AllTrimmed(s[1..]); }
  }

  lemma ListedTrims(l: Listed)
    requires FitListed(l)
    ensures Trim(PrintListed(l)) == l.entry
  {
    if l.entry == "" {
      AllTrimmed(PrintListed(l));
      assert TrimEnd("") == "";
    } else {
      assert PrintListed(l) == l.lead + (l.entry + l.trail);
      TrimsStart(l.lead, l.entry + l.trail);
      TrailTrims(l.entry, l.trail);
    }
  }

  lemma {:induction false} ItemRead(front: string, item: string, rest: string)
    requires ',' !in item && (rest == "" || rest[0] == ',')
    ensures Items(item + rest, front) == [Trim(front + item)] + if rest == "" then [] else Items(rest[1..], "")
    decreases |item|
  {
    var s := item + rest;
    if item == "" {
      assert s == rest && front + "" == front;
    } else {
      assert s[0] == item[0] && s[1..] == item[1..] + rest;
      ItemRead(front + [item[0]], item[1..], rest);
      assert (front + [item[0]]) + item[1..] == front + item;
    }
  }

  /** A comma list is read as its entries, trimmed. */
  lemma {:induction false} ListReads(list: seq<Listed>)
    requires list != [] && forall i :: 0 <= i < |list| ==> FitListed(list[i])
    ensures Items(PrintList(list), "") == Entries(list)
  {
    hide Trim;
    var item := PrintListed(list[0]);
    var rest := if |list| == 1 then "" else "," + PrintList(list[1..]);
    assert PrintList(list) == item + rest;
    NoComma(list[0]);
    ItemRead("", item, rest);
    ListedTrims(list[0]);
    assert "" + item == item;
    if |list| > 1 {
      assert rest[1..] == PrintList(list[1..]);
      ListReads(list[1..]);
    }
    assert Entries(list) == [list[0].entry] + Entries(list[1..]);
  }

  lemma NoComma(l: Listed)
    requires FitListed(l)
    ensures ',' !in PrintListed(l)
  {
  }

  /**
   * Flags replace the list and resolve against the working directory; a list that is not blank resolves its trimmed
   * entries against its own base. An empty path or entry is an error, and each file is read at its last place.
   */
  lemma PickedFiles(flags: seq<string>, list: seq<Listed>, source: Source, base: string, workingDir: string,
                    resolve: (string, string) -> string)
    requires list != [] && forall i :: 0 <= i < |list| ==> FitListed(list[i])
    ensures var text := PrintList(list);
            var r := PickFiles(flags, Some(CommaList(text, source, base)), workingDir, resolve);
            if flags != [] then
              r == if "" in flags then Err(EmptyPath)
                   else Ok(LastPlaces(seq(|flags|, i requires 0 <= i < |flags| => resolve(flags[i], workingDir))))
            else if |list| == 1 && list[0].entry == "" then r == Ok([])
            else if exists i :: 0 <= i < |list| && list[i].entry == "" then r == Err(EmptyEntry(source))
            else r == Ok(LastPlaces(seq(|list|, i requires 0 <= i < |list| => resolve(list[i].entry, base))))
  {
    hide PickFiles, Trim, Items, PrintList;
    if flags != [] {
      FlagsPick(flags, Some(CommaList(PrintList(list), source, base)), workingDir, resolve);
    } else {
      ListReads(list);
      BlankList(list);
      EntriesPick(CommaList(PrintList(list), source, base), Entries(list), workingDir, resolve);
      assert seq(|list|, i requires 0 <= i < |list| => resolve(Entries(list)[i], base))
             == seq(|list|, i requires 0 <= i < |list| => resolve(list[i].entry, base));
      if i :| 0 <= i < |list| && list[i].entry == "" {
        assert Entries(list)[i] == "";
      }
    }
  }

  lemma FlagsPick(flags: seq<string>, list: Option<CommaList>, workingDir: string, resolve: (string, string) -> string)
    requires flags != []
    ensures PickFiles(flags, list, workingDir, resolve)
            == if "" in flags then Err(EmptyPath)
               else Ok(LastPlaces(seq(|flags|, i requires 0 <= i < |flags| => resolve(flags[i], workingDir))))
  {
    hide Trim, Items, Reversed, Collected, LastPlaces;
    CollectKeepsLastPlaces(Resolved(flags, workingDir, resolve));
  }

  lemma EntriesPick(list: CommaList, items: seq<string>, workingDir: string, resolve: (string, string) -> string)
    requires Items(list.text, "") == items
    ensures PickFiles([], Some(list), workingDir, resolve)
            == if Trim(list.text) == "" then Ok([])
               else if "" in items then Err(EmptyEntry(list.source))
               else Ok(LastPlaces(seq(|items|, i requires 0 <= i < |items| => resolve(items[i], list.base))))
  {
    hide Trim, Items, Reversed, Collected, LastPlaces;
    CollectKeepsLastPlaces(Resolved(items, list.base, resolve));
  }

  /** Only a single empty entry makes a blank list. */
  lemma BlankList(list: seq<Listed>)
    requires list != [] && forall i :: 0 <= i < |list| ==> FitListed(list[i])
    ensures Trim(PrintList(list)) == "" <==> |list| == 1 && list[0].entry == ""
  {
    if |list| == 1 {
      ListedTrims(list[0]);
    } else {
      var text := PrintList(list);
      assert text[|PrintListed(list[0])|] == ',';
      TrimKeeps(text, |PrintListed(list[0])|);
    }
  }

  lemma {:induction false} TrimKeeps(s: string, i: nat)
    requires i < |s| && !IsWhitespace(s[i])
    ensures Trim(s) != ""
  {
    var k := TrimStartKeeps(s, i);
    TrimEndKeeps(TrimStart(s), k);
  }

  lemma {:induction false} TrimStartKeeps(s: string, i: nat) returns (k: nat)
    requires i < |s| && !IsWhitespace(s[i])
    ensures k < |TrimStart(s)| && !IsWhitespace(TrimStart(s)[k])
    decreases |s|
  {
    if IsWhitespace(s[0]) {
      k := TrimStartKeeps(s[1..], i - 1);
    } else {
      k := i;
    }
  }

  lemma {:induction false} TrimEndKeeps(s: string, i: nat)
    requires i < |s| && !IsWhitespace(s[i])
    ensures TrimEnd(s) != ""
    decreases |s|
  {
    if IsWhitespace(s[|s| - 1]) {
      TrimEndKeeps(s[..|s| - 1], i);
    }
  }

  // ----- what an env file sees -----

  /** The value of a name in the last env file that sets it. */
  ghost predicate LastSets(files: seq<EnvFile>, name: string, value: Option<string>) {
    match value
    case None => forall i :: 0 <= i < |files| ==> name !in files[i].entries
    case Some(text) => exists i :: LastSetsAt(files, name, text, i)
  }

  predicate LastSetsAt(files: seq<EnvFile>, name: string, text: string, i: int) {
    && 0 <= i < |files| && name in files[i].entries && files[i].entries[name].0 == text
    && forall j :: i < j < |files| ==> name !in files[j].entries
  }

  /** A name in an env file reads the process, then the file so far, then the last earlier file that sets it. */
  lemma EnvFileReads(process: map<string, string>, earlier: seq<EnvFile>, entries: DotenvRules.Entries, name: string,
                     letters: char -> bool)
    ensures var value := DotenvPrinting.Reading(EnvContext(process, earlier, letters), entries, name);
            if name in process then value == Some(process[name])
            else if name in entries then value == Some(entries[name].0)
            else LastSets(earlier, name, value)
  {
    hide DotenvPrinting.Reading;
    var context := EnvContext(process, earlier, letters);
    DotenvStatements.ReadingIs(context, entries, name);
    assert context.process(name) == if name in process then Some(process[name]) else None;
    var last := Latest(earlier, name);
    assert context.earlier(name) == last;
    if last.Some? {
      assert LastSetsAt(earlier, name, last.value, LastSetting(earlier, name).value);
    }
  }

  /** A variable in a config file reads the process, then the last env file that sets it; an empty value counts. */
  lemma VariableReads(layers: EnvLayers, name: string)
    ensures if name in layers.process then Var(layers, name) == Some(layers.process[name])
            else LastSets(layers.files, name, Var(layers, name))
  {
    var last := Latest(layers.files, name);
    if last.Some? {
      assert LastSetsAt(layers.files, name, last.value, LastSetting(layers.files, name).value);
    }
  }

  /** An env file is its lines' entries, or all their errors. */
  lemma EnvFileIsItsLines(contents: Contents, process: map<string, string>, earlier: seq<EnvFile>, path: string,
                          lines: seq<DotenvPrinting.Line>, letters: char -> bool)
    requires DotenvPrinting.FitLines(lines, letters) && contents(path) == Ok(DotenvPrinting.Print(lines))
    ensures var state := DotenvPrinting.Means(lines, 1, State(map[], [], []), EnvContext(process, earlier, letters));
            EnvStep(contents, process, earlier, path, letters)
            == if state.errors == [] then Ok(EnvFile(path, state.entries)) else Err(BadEnvFile(path, state.errors))
  {
    hide DotenvPrinting.Means, DotenvPrinting.Print, DotenvPrinting.FitLines, Parse;
    DotenvReading.PrintedLinesRead(lines, false, EnvContext(process, earlier, letters));
    assert "" + DotenvPrinting.Print(lines) == DotenvPrinting.Print(lines);
  }

  // ----- reading -----

  /**
   * Config files are read in order up to the first that cannot be read or whose structure is wrong. Each is what the
   * reader makes of its text; only the last can have structure errors, and a failure is that of the next one.
   */
  lemma ConfigFilesAreRead(contents: Contents, reader: ConfigReader, lookup: TemplateRules.Lookup, paths: seq<string>)
    ensures var r := ConfigLoaded(contents, reader, lookup, [], paths);
            var n := |r.files.files|;
            && n <= |paths| && (r.error.None? && r.files.structure == [] ==> n == |paths|)
            && (r.files.structure != [] ==> n > 0 && r.error.None?)
            && (forall i :: 0 <= i < n ==>
                  && r.files.files[i].path == paths[i] && contents(paths[i]).Ok?
                  && reader(paths[i], contents(paths[i]).value, lookup)
                     == Ok((r.files.files[i].root, if i == n - 1 then r.files.structure else [])))
            && (r.error.Some? ==>
                  n < |paths| &&
                  match contents(paths[n])
                  case Err(message) => r.error.value == ReadFailed(paths[n], message)
                  case Ok(text) => exists message :: reader(paths[n], text, lookup) == Err(message)
                                                     && r.error.value == BadConfigFile(paths[n], message))
  {
    ConfigFilesInOrder(contents, reader, lookup, [], paths);
    var r := ConfigLoaded(contents, reader, lookup, [], paths);
    var n := |r.files.files|;
    forall i | 0 <= i < n
      ensures r.files.files[i].path == paths[i] && contents(paths[i]).Ok?
      ensures reader(paths[i], contents(paths[i]).value, lookup)
              == Ok((r.files.files[i].root, if i == n - 1 then r.files.structure else []))
    {
      assert ConfigStep(contents, reader, lookup, paths[i])
             == Ok((r.files.files[0 + i], if i == n - 1 then r.files.structure else []));
    }
  }

  // ----- the list of config files -----

  /** The config files are named by the process, else by the last env file that names any, from its own directory. */
  lemma ConfigListIs(world: World, layers: EnvLayers, workingDir: string)
    ensures var name, list := CONFIG_FILE_VAR, ConfigList(EnvCandidates(world, layers, CONFIG_FILE_VAR), workingDir);
            if name in layers.process && layers.process[name] != "" then
              list == Some(CommaList(layers.process[name], FromEnv(name), workingDir))
            else
              match list
              case None => (forall i :: 0 <= i < |layers.files| ==> name !in layers.files[i].entries)
                           || exists i :: LastSetsAt(layers.files, name, "", i)
              case Some(found) =>
                exists i :: LastSetsAt(layers.files, name, found.text, i) && found.text != ""
                            && found.source == FromEnvFile(name, layers.files[i].path, layers.files[i].entries[name].1)
                            && found.base == world.parent(layers.files[i].path)
  {
    var name := CONFIG_FILE_VAR;
    var files := layers.files;
    var last := LastSetting(files, name);
    var rest := EnvFileCandidates(world, files, name, |files|);
    FirstEligible(world, files, name, |files|, workingDir);
    var all := EnvCandidates(world, layers, name);
    if name in layers.process && layers.process[name] != "" {
      var first := Candidate(PlainText(layers.process[name]), FromEnv(name), true);
      assert all == [first] + rest && all[0] == first;
    } else {
      assert all == [] + rest == rest;
    }
    if last.Some? {
      assert LastSetsAt(files, name, files[last.value].entries[name].0, last.value);
    }
  }

  lemma {:induction false} FirstEligible(world: World, files: seq<EnvFile>, name: string, n: nat, workingDir: string)
    requires n <= |files|
    ensures var last := LastSetting(files, name);
            ConfigList(EnvFileCandidates(world, files, name, n), workingDir)
            == if last.Some? && last.value < n && files[last.value].entries[name].0 != "" then
                 Some(CommaList(files[last.value].entries[name].0,
                                FromEnvFile(name, files[last.value].path, files[last.value].entries[name].1),
                                world.parent(files[last.value].path)))
               else None
  {
    if n > 0 {
      FirstEligible(world, files, name, n - 1, workingDir);
      var own := EnvFileCandidate(world, files, name, n - 1);
      var rest := EnvFileCandidates(world, files, name, n - 1);
      if own.Some? {
        assert ([own.value] + rest)[1..] == rest;
      } else {
        assert [] + rest == rest;
      }
    }
  }

  // ----- every error -----

  /** A value of one of the setting's sources fails its check with this error. */
  ghost predicate FailsWith(world: World, layers: EnvLayers, files: ConfigFiles, setting: Setting, e: InputError) {
    && e.path == setting.path
    && match e.from
       case FromEnv(name) =>
         && name == setting.env && name in layers.process && layers.process[name] != ""
         && world.check(setting.kind, PlainText(layers.process[name])) == Err(e.reason)
       case FromEnvFile(name, path, line) =>
         && name == setting.env
         && exists i :: 0 <= i < |layers.files| && EnvFileFails(world, layers.files[i], setting, path, line, e.reason)
       case FromFile(path, line, column) =>
         exists i :: 0 <= i < |files.files|
           && ConfigFileFails(world, files.files[i], setting, path, line, column, e.reason)
  }

  predicate EnvFileFails(world: World, file: EnvFile, setting: Setting, path: string, line: nat, reason: string) {
    && file.path == path && setting.env in file.entries && file.entries[setting.env].0 != ""
    && file.entries[setting.env].1 == line
    && world.check(setting.kind, EnvText(file.entries[setting.env].0, world.parent(path))) == Err(reason)
  }

  predicate ConfigFileFails(world: World, file: ConfigFile, setting: Setting, path: string, line: nat, column: nat,
                            reason: string) {
    var leaf := LeafAt(file.root, setting.path);
    && file.path == path && leaf.Some? && leaf.value.line == line && leaf.value.column == column
    && world.check(setting.kind, Yaml(leaf.value.node, world.parent(path))) == Err(reason)
  }

  /** The candidate at hand fails with this error. */
  predicate CandidateFails(world: World, setting: Setting, c: Candidate, e: InputError) {
    e.path == setting.path && e.from == c.source && world.check(setting.kind, c.raw) == Err(e.reason)
  }

  lemma {:induction false} FailuresExactly(world: World, setting: Setting, candidates: seq<Candidate>, e: InputError)
    ensures e in Failures(world, setting, candidates)
            <==> exists c :: c in candidates && CandidateFails(world, setting, c, e)
  {
    if candidates != [] {
      FailuresExactly(world, setting, candidates[1..], e);
      assert candidates == [candidates[0]] + candidates[1..];
      assert forall c :: c in candidates <==> c == candidates[0] || c in candidates[1..];
      var rest := Failures(world, setting, candidates[1..]);
      if CandidateFails(world, setting, candidates[0], e) {
        assert Failures(world, setting, candidates) == [e] + rest;
      }
      if e in Failures(world, setting, candidates) && e !in rest {
        assert CandidateFails(world, setting, candidates[0], e);
      }
    }
  }

  lemma {:induction false} EnvFilesFail(world: World, files: seq<EnvFile>, setting: Setting, n: nat, e: InputError)
    requires n <= |files|
    ensures (exists c :: c in EnvFileCandidates(world, files, setting.env, n) && CandidateFails(world, setting, c, e))
            <==> e.path == setting.path && e.from.FromEnvFile? && e.from.name == setting.env
                 && exists i :: 0 <= i < n && EnvFileFails(world, files[i], setting, e.from.path, e.from.line, e.reason)
  {
    if n > 0 {
      EnvFilesFail(world, files, setting, n - 1, e);
      var own := EnvFileCandidate(world, files, setting.env, n - 1);
      var rest := EnvFileCandidates(world, files, setting.env, n - 1);
      var all := EnvFileCandidates(world, files, setting.env, n);
      if own.Some? {
        assert all == [own.value] + rest;
        assert forall c :: c in all <==> c == own.value || c in rest;
        assert own.value in all;
        if e.from.FromEnvFile? {
          assert CandidateFails(world, setting, own.value, e)
                 <==> e.path == setting.path && e.from.name == setting.env
                      && EnvFileFails(world, files[n - 1], setting, e.from.path, e.from.line, e.reason);
        }
      } else {
        assert all == [] + rest == rest;
      }
    }
  }

  lemma {:induction false} ConfigFilesFail(world: World, files: seq<ConfigFile>, setting: Setting, e: InputError)
    ensures (exists c :: c in ConfigCandidates(world, files, setting.path) && CandidateFails(world, setting, c, e))
            <==> e.path == setting.path && e.from.FromFile?
                 && exists i :: 0 <= i < |files|
                                && ConfigFileFails(world, files[i], setting, e.from.path, e.from.line, e.from.column,
                                                   e.reason)
  {
    if files != [] {
      var n := |files| - 1;
      ConfigFilesFail(world, files[..n], setting, e);
      assert forall i :: 0 <= i < n ==> files[..n][i] == files[i];
      var own := ConfigCandidate(world, files[n], setting.path);
      var rest := ConfigCandidates(world, files[..n], setting.path);
      var all := ConfigCandidates(world, files, setting.path);
      if own.Some? {
        assert all == [own.value] + rest;
        assert forall c :: c in all <==> c == own.value || c in rest;
        assert own.value in all;
        if e.from.FromFile? {
          assert CandidateFails(world, setting, own.value, e)
                 <==> e.path == setting.path
                      && ConfigFileFails(world, files[n], setting, e.from.path, e.from.line, e.from.column, e.reason);
        }
      } else {
        assert all == [] + rest == rest;
      }
    }
  }

  lemma SettingFails(world: World, layers: EnvLayers, files: ConfigFiles, setting: Setting, e: InputError)
    ensures e in Failures(world, setting, Candidates(world, layers, files, setting))
            <==> FailsWith(world, layers, files, setting, e)
  {
    hide EnvFileCandidates, ConfigCandidates, Failures, EnvFileFails, ConfigFileFails;
    var all := Candidates(world, layers, files, setting);
    FailuresExactly(world, setting, all, e);
    EnvFilesFail(world, layers.files, setting, |layers.files|, e);
    ConfigFilesFail(world, files.files, setting, e);
    var process := NonEmptyEnv(layers.process, setting.env);
    var first := if process.Some? then [Candidate(PlainText(process.value), FromEnv(setting.env), true)] else [];
    var second := EnvFileCandidates(world, layers.files, setting.env, |layers.files|);
    var third := ConfigCandidates(world, files.files, setting.path);
    assert forall c :: c in all <==> c in first || c in second || c in third;
    if process.Some? { assert first[0] in first; }
  }

  /** The errors are those of the files' structure and of every value of every source that fails its check. */
  lemma {:induction false} ErrorsExactly(world: World, layers: EnvLayers, files: ConfigFiles, settings: seq<Setting>,
                                         e: InputError)
    ensures e in AllErrors(world, layers, files, settings)
            <==> e in files.structure
                 || exists i :: 0 <= i < |settings| && FailsWith(world, layers, files, settings[i], e)
  {
    hide FailsWith, Failures, Candidates;
    if settings != [] {
      var n := |settings| - 1;
      ErrorsExactly(world, layers, files, settings[..n], e);
      SettingFails(world, layers, files, settings[n], e);
      assert forall i :: 0 <= i < n ==> settings[..n][i] == settings[i];
    }
  }

  // ----- the order of errors -----

  /** `p` is the first place of a file of this path. */
  predicate FirstPlace(paths: seq<string>, path: string, p: int) {
    0 <= p < |paths| && paths[p] == path && forall k :: 0 <= k < p ==> paths[k] != path
  }

  lemma {:induction false} FirstIndexIs(paths: seq<string>, path: string, p: nat)
    requires FirstPlace(paths, path, p)
    ensures FirstIndex(paths, path) == Some(p)
    decreases p
  {
    if p > 0 {
      assert FirstPlace(paths[1..], path, p - 1) by {
        forall k | 0 <= k < p - 1 ensures paths[1..][k] != path { assert paths[1..][k] == paths[k + 1]; }
      }
      FirstIndexIs(paths[1..], path, p - 1);
    }
  }

  /**
   * In the reported order a config file's errors come before an env file's and those before the process's; of two
   * config files or env files the one listed first comes first, and within a file the earlier line and then column.
   */
  lemma ReportedInOrder(files: ConfigFiles, layers: EnvLayers, errors: seq<InputError>, i: nat, j: nat, p: nat, q: nat)
    requires i < j < |errors| && SortedBy(errors, ErrorBefore(files, layers))
    ensures errors[i].from.FromEnv? ==> errors[j].from.FromEnv?
    ensures errors[i].from.FromEnvFile? ==> !errors[j].from.FromFile?
    ensures errors[i].from.FromFile? && errors[j].from.FromFile?
            && FirstPlace(ConfigPaths(files.files), errors[i].from.path, p)
            && FirstPlace(ConfigPaths(files.files), errors[j].from.path, q) ==>
              p < q || (p == q && (errors[i].from.line < errors[j].from.line
                                   || (errors[i].from.line == errors[j].from.line
                                       && errors[i].from.column <= errors[j].from.column)))
    ensures errors[i].from.FromEnvFile? && errors[j].from.FromEnvFile?
            && FirstPlace(EnvPaths(layers.files), errors[i].from.path, p)
            && FirstPlace(EnvPaths(layers.files), errors[j].from.path, q) ==>
              p < q || (p == q && errors[i].from.line <= errors[j].from.line)
  {
    hide FirstPlace;
    assert !ErrorBefore(files, layers)(errors[j], errors[i]);
    var a, b := errors[i].from, errors[j].from;
    if a.FromFile? && b.FromFile? && FirstPlace(ConfigPaths(files.files), a.path, p)
       && FirstPlace(ConfigPaths(files.files), b.path, q) {
      FirstIndexIs(ConfigPaths(files.files), a.path, p);
      FirstIndexIs(ConfigPaths(files.files), b.path, q);
    }
    if a.FromEnvFile? && b.FromEnvFile? && FirstPlace(EnvPaths(layers.files), a.path, p)
       && FirstPlace(EnvPaths(layers.files), b.path, q) {
      FirstIndexIs(EnvPaths(layers.files), a.path, p);
      FirstIndexIs(EnvPaths(layers.files), b.path, q);
    }
  }
}
