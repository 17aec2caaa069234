/** Which files are read, in which order, and what a whole load yields. */
module SettingsFiles {
  import opened Common
  import opened SettingsRules
  import opened SettingsLaws
  import opened DotenvRules
  import opened TemplateRules

  const ENV_FILE_VAR := "DBMCP_ENV_FILE"
  const CONFIG_FILE_VAR := "DBMCP_CONFIG_FILE"

  // ----- the picks -----

  /** A comma list, where it came from, and the directory its relative entries resolve against. */
  datatype CommaList = CommaList(text: string, source: Source, base: string)

  datatype ListError = EmptyPath | EmptyEntry(source: Source)

  function Items(text: string, item: string): seq<string>
    decreases |text|
  {
    if text == "" then [Trim(item)]
    else if text[0] == ',' then [Trim(item)] + Items(text[1..], "")
    else Items(text[1..], item + [text[0]])
  }

  function Reversed<T>(s: seq<T>): (r: seq<T>)
    ensures |r| == |s| && forall i :: 0 <= i < |s| ==> r[i] == s[|s| - 1 - i]
  {
    if s == [] then [] else [s[|s| - 1]] + Reversed(s[..|s| - 1])
  }

  /** Collecting into an insertion-ordered set: the first of equal elements stays. */
  function Collected<T(==)>(s: seq<T>): seq<T> {
    if s == [] then []
    else
      var before, last := Collected(s[..|s| - 1]), s[|s| - 1];
      if last in before then before else before + [last]
  }

  function Resolved(raw: seq<string>, base: string, resolve: (string, string) -> string): seq<string> {
    seq(|raw|, i requires 0 <= i < |raw| => resolve(raw[i], base))
  }

  /** Flags replace the list; a blank list names no files; a file named twice is read at its last place. */
  function PickFiles(flags: seq<string>, list: Option<CommaList>, workingDir: string,
                     resolve: (string, string) -> string)
    : Result<seq<string>, ListError>
  {
    if flags != [] then
      if "" in flags then Err(EmptyPath) else Ok(Reversed(Collected(Reversed(Resolved(flags, workingDir, resolve)))))
    else if list.Some? && Trim(list.value.text) != "" then
      var items := Items(list.value.text, "");
      if "" in items then Err(EmptyEntry(list.value.source))
      else Ok(Reversed(Collected(Reversed(Resolved(items, list.value.base, resolve)))))
    else Ok([])
  }

  lemma {:induction false} CollectedMembers<T>(s: seq<T>)
    ensures forall x :: x in Collected(s) <==> x in s
  {
    if s != [] {
      CollectedMembers(s[..|s| - 1]);
      assert s == s[..|s| - 1] + [s[|s| - 1]];
    }
  }

  lemma ReversedCons<T>(x: T, s: seq<T>)
    ensures Reversed([x] + s) == Reversed(s) + [x]
    ensures Reversed(s + [x]) == [x] + Reversed(s)
  {
  }

  lemma ReversedMembers<T>(s: seq<T>)
    ensures forall x :: x in Reversed(s) <==> x in s
  {
    forall x | x in s ensures x in Reversed(s) {
      var i :| 0 <= i < |s| && s[i] == x;
      assert Reversed(s)[|s| - 1 - i] == x;
    }
  }

  /** Reversing, collecting and reversing again keeps each file at its last place. */
  lemma {:induction false} CollectKeepsLastPlaces<T>(s: seq<T>)
    ensures Reversed(Collected(Reversed(s))) == LastPlaces(s)
  {
    hide Reversed;
    if s == [] {
      NothingReversed<T>();
    } else {
      var x, rest := s[0], s[1..];
      assert s == [x] + rest;
      ReversedCons(x, rest);
      var back := Reversed(rest) + [x];
      assert back[..|back| - 1] == Reversed(rest);
      CollectKeepsLastPlaces(rest);
      CollectedMembers(Reversed(rest));
      ReversedMembers(rest);
      ReversedCons(x, Collected(Reversed(rest)));
    }
  }

  lemma NothingReversed<T>()
    ensures Reversed<T>([]) == []
  {
  }

  /** No file twice, exactly the files named, each at its last place in the list. */
  lemma {:induction false} LastPlacesFacts<T>(s: seq<T>)
    ensures forall x :: x in LastPlaces(s) <==> x in s
    ensures forall i, j :: 0 <= i < j < |LastPlaces(s)| ==> LastPlaces(s)[i] != LastPlaces(s)[j]
    ensures s != [] ==> LastPlaces(s) != [] && LastPlaces(s)[|LastPlaces(s)| - 1] == s[|s| - 1]
  {
    if s != [] {
      LastPlacesFacts(s[1..]);
      assert s == [s[0]] + s[1..];
    }
  }

  // ----- reading env files -----

  datatype LoadError =
    | BadList(list: ListError)
    | ReadFailed(path: string, message: string)
    | BadEnvFile(path: string, errors: seq<LineError>)
    | BadConfigFile(path: string, message: string)
    | BadSettings(inputs: seq<InputError>)

  type Contents = string -> Result<string, string>

  function EnvContext(process: map<string, string>, earlier: seq<EnvFile>, letters: char -> bool): Context {
    Context((name: string) => if name in process then Some(process[name]) else None,
            (name: string) => Latest(earlier, name),
            letters)
  }

  /** One env file: it sees the process, its own earlier lines, and the files read before it. */
  function EnvStep(contents: Contents, process: map<string, string>, earlier: seq<EnvFile>, path: string,
                   letters: char -> bool): Result<EnvFile, LoadError>
  {
    var text := contents(path);
    if text.Err? then Err(ReadFailed(path, text.error))
    else
      var parsed := Parse(text.value, EnvContext(process, earlier, letters));
      if parsed.Err? then Err(BadEnvFile(path, parsed.error))
      else Ok(EnvFile(path, parsed.value.entries))
  }

  /** The files read so far, how many paths were opened, and what stopped the read. */
  datatype Progress<T> = Progress(files: seq<T>, openings: nat, error: Option<LoadError>)

  function EnvLoaded(contents: Contents, process: map<string, string>, earlier: seq<EnvFile>, paths: seq<string>,
                     letters: char -> bool): Progress<EnvFile>
    decreases |paths|
  {
    if paths == [] then Progress(earlier, 0, None)
    else
      match EnvStep(contents, process, earlier, paths[0], letters)
      case Err(error) => Progress(earlier, 1, Some(error))
      case Ok(file) =>
        var rest := EnvLoaded(contents, process, earlier + [file], paths[1..], letters);
        rest.(openings := 1 + rest.openings)
  }

  /** Every file was parsed against exactly the files before it, and the read stopped at the first that failed. */
  lemma {:induction false} EnvFilesInOrder(contents: Contents, process: map<string, string>, earlier: seq<EnvFile>,
                                           paths: seq<string>, letters: char -> bool)
    ensures var r := EnvLoaded(contents, process, earlier, paths, letters);
            && earlier <= r.files && r.openings <= |paths|
            && |r.files| - |earlier| == r.openings - (if r.error.Some? then 1 else 0)
            && (r.error.None? ==> r.openings == |paths|)
            && (forall i :: 0 <= i < |r.files| - |earlier| ==>
                  var step := EnvStep(contents, process, r.files[..|earlier| + i], paths[i], letters);
                  step == Ok(r.files[|earlier| + i]))
            && (r.error.Some? ==>
                  EnvStep(contents, process, r.files, paths[r.openings - 1], letters) == Err(r.error.value))
    decreases |paths|
  {
    hide EnvStep;
    if paths != [] {
      var step := EnvStep(contents, process, earlier, paths[0], letters);
      if step.Ok? {
        var next := earlier + [step.value];
        EnvFilesInOrder(contents, process, next, paths[1..], letters);
        var r := EnvLoaded(contents, process, earlier, paths, letters);
        forall i | 0 <= i < |r.files| - |earlier|
          ensures var s := EnvStep(contents, process, r.files[..|earlier| + i], paths[i], letters);
                  s == Ok(r.files[|earlier| + i])
        {
          if i == 0 {
            assert r.files[..|earlier|] == earlier;
          } else {
            assert |earlier| + i == |next| + (i - 1) && paths[i] == paths[1..][i - 1];
          }
        }
      }
    }
  }

  // ----- reading config files -----

  /** The unseen YAML reader, interpolation and schema: a tree with its structure errors, or a failure. */
  type ConfigReader = (string, string, Lookup) -> Result<(Spanned, seq<InputError>), string>

  function ConfigStep(contents: Contents, reader: ConfigReader, lookup: Lookup, path: string)
    : Result<(ConfigFile, seq<InputError>), LoadError>
  {
    var text := contents(path);
    if text.Err? then Err(ReadFailed(path, text.error))
    else
      var loaded := reader(path, text.value, lookup);
      if loaded.Err? then Err(BadConfigFile(path, loaded.error))
      else Ok((ConfigFile(path, loaded.value.0), loaded.value.1))
  }

  /** The config files read, with the structure errors of the last one. */
  datatype ConfigProgress = ConfigProgress(files: ConfigFiles, openings: nat, error: Option<LoadError>)

  function ConfigLoaded(contents: Contents, reader: ConfigReader, lookup: Lookup, earlier: seq<ConfigFile>,
                        paths: seq<string>)
    : ConfigProgress
    decreases |paths|
  {
    if paths == [] then ConfigProgress(ConfigFiles(earlier, []), 0, None)
    else
      match ConfigStep(contents, reader, lookup, paths[0])
      case Err(error) => ConfigProgress(ConfigFiles(earlier, []), 1, Some(error))
      case Ok((file, structure)) =>
        if structure != [] then ConfigProgress(ConfigFiles(earlier + [file], structure), 1, None)
        else
          var rest := ConfigLoaded(contents, reader, lookup, earlier + [file], paths[1..]);
          rest.(openings := 1 + rest.openings)
  }

  /** The files are read in order; only the last one read can be broken, and nothing after a broken one is opened. */
  lemma {:induction false} ConfigFilesInOrder(contents: Contents, reader: ConfigReader, lookup: Lookup,
                                              earlier: seq<ConfigFile>, paths: seq<string>)
    ensures var r := ConfigLoaded(contents, reader, lookup, earlier, paths);
            && earlier <= r.files.files && r.openings <= |paths|
            && |r.files.files| - |earlier| == r.openings - (if r.error.Some? then 1 else 0)
            && (forall i :: 0 <= i < |r.files.files| - |earlier| ==>
                  ConfigStep(contents, reader, lookup, paths[i])
                  == Ok((r.files.files[|earlier| + i],
                         if i == |r.files.files| - |earlier| - 1 then r.files.structure else [])))
            && (r.error.None? && r.files.structure == [] ==> r.openings == |paths|)
            && (r.error.Some? ==> r.files.structure == []
                                  && ConfigStep(contents, reader, lookup, paths[r.openings - 1]) == Err(r.error.value))
    decreases |paths|
  {
    hide ConfigStep;
    if paths != [] {
      var step := ConfigStep(contents, reader, lookup, paths[0]);
      if step.Ok? && step.value.1 == [] {
        var next := earlier + [step.value.0];
        ConfigFilesInOrder(contents, reader, lookup, next, paths[1..]);
        var r := ConfigLoaded(contents, reader, lookup, earlier, paths);
        var count := |r.files.files| - |earlier|;
        forall i | 0 <= i < count
          ensures ConfigStep(contents, reader, lookup, paths[i])
                  == Ok((r.files.files[|earlier| + i], if i == count - 1 then r.files.structure else []))
        {
          if i == 0 {
            assert r.files.files[|next| - 1] == step.value.0;
            if count == 1 {
              StructureOfNone(contents, reader, lookup, next, paths[1..]);
            }
          } else {
            assert |earlier| + i == |next| + (i - 1) && paths[i] == paths[1..][i - 1];
          }
        }
      }
    }
  }

  lemma StructureOfNone(contents: Contents, reader: ConfigReader, lookup: Lookup, earlier: seq<ConfigFile>,
                        paths: seq<string>)
    requires ConfigLoaded(contents, reader, lookup, earlier, paths).files.files == earlier
    ensures ConfigLoaded(contents, reader, lookup, earlier, paths).files.structure == []
    decreases |paths|
  {
    hide ConfigStep;
    if paths != [] {
      var step := ConfigStep(contents, reader, lookup, paths[0]);
      if step.Ok? && step.value.1 == [] {
        ConfigFilesInOrder(contents, reader, lookup, earlier + [step.value.0], paths[1..]);
      }
    }
  }
}
