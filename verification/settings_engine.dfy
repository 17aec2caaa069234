/** Loading as the program runs it. */
module SettingsEngine {
  import opened Common
  import opened StableSorting
  import opened SettingsRules
  import opened SettingsLaws
  import opened SettingsFiles
  import opened DotenvRules
  import opened TemplateRules
  import DotenvParser

  /** Each set setting's winning value and source, by path. */
  datatype Settings = Settings(values: map<string, string>, sources: map<string, Source>)

  function WinOf(settings: Settings, path: string): Option<Win> {
    if path in settings.values && path in settings.sources then Some(Win(settings.values[path], settings.sources[path]))
    else None
  }

  ghost predicate DistinctPaths(settings: seq<Setting>) {
    forall i, j :: 0 <= i < j < |settings| ==> settings[i].path != settings[j].path
  }

  /** The settings hold the winners of the first `n` settings and nothing else. */
  ghost predicate HoldsWinners(world: World, layers: EnvLayers, files: ConfigFiles, settings: seq<Setting>, n: nat,
                               r: Settings)
    requires n <= |settings|
  {
    && r.values.Keys == r.sources.Keys
    && (forall path :: path in r.values ==> exists i :: 0 <= i < n && settings[i].path == path)
    && (forall i :: 0 <= i < n ==>
          WinOf(r, settings[i].path)
          == Winner(world, settings[i].kind, Candidates(world, layers, files, settings[i])))
  }

  ghost predicate CheckedAs(world: World, layers: EnvLayers, files: ConfigFiles, settings: seq<Setting>,
                            r: Result<Settings, seq<InputError>>)
  {
    var errors := AllErrors(world, layers, files, settings);
    match r
    case Ok(s) => errors == [] && HoldsWinners(world, layers, files, settings, |settings|, s)
    case Err(e) => errors != [] && e == SortBy(errors, ErrorBefore(files, layers))
  }

  /**
   * Success means a sound structure and no failing value in any source; then every setting holds the value the declared
   * precedence names. Failure reports every error, sorted.
   */
  lemma CheckedMeans(world: World, layers: EnvLayers, files: ConfigFiles, settings: seq<Setting>,
                     r: Result<Settings, seq<InputError>>)
    requires TextIsSet(world) && CheckedAs(world, layers, files, settings, r)
    ensures r.Ok? <==> files.structure == []
                       && forall i :: 0 <= i < |settings| ==> EverySourcePasses(world, layers, files, settings[i])
    ensures r.Ok? ==> forall i :: 0 <= i < |settings| ==>
              Precedence(world, layers, files, settings[i], WinOf(r.value, settings[i].path))
    ensures r.Err? ==> SortedBy(r.error, ErrorBefore(files, layers))
                       && multiset(r.error) == multiset(AllErrors(world, layers, files, settings))
  {
    hide EverySourcePasses, Precedence, Winner, Candidates, AllErrors;
    NoErrorsExactly(world, layers, files, settings);
    ErrorsAreSorted(files, layers, AllErrors(world, layers, files, settings));
    if r.Ok? {
      forall i | 0 <= i < |settings|
        ensures Precedence(world, layers, files, settings[i], WinOf(r.value, settings[i].path))
      {
        WinnerIsPrecedence(world, layers, files, settings[i]);
      }
    }
  }

  // ----- the check -----

  lemma MoreCandidates(world: World, setting: Setting, candidates: seq<Candidate>, k: nat)
    requires k < |candidates|
    ensures Winner(world, setting.kind, candidates[..k + 1])
            == if Winner(world, setting.kind, candidates[..k]).Some? then Winner(world, setting.kind, candidates[..k])
               else if candidates[k].eligible then
                 Checked(world, setting.kind, candidates[k].raw, candidates[k].source)
               else None
    ensures Failures(world, setting, candidates[..k + 1])
            == Failures(world, setting, candidates[..k])
               + match world.check(setting.kind, candidates[k].raw)
                 case Err(reason) => [InputError(candidates[k].source, setting.path, reason)]
                 case Ok(_) => []
  {
    assert candidates[..k + 1] == candidates[..k] + [candidates[k]];
    WinnerConcat(world, setting.kind, candidates[..k], [candidates[k]]);
    WinnerOfOne(world, setting.kind, candidates[k]);
    FailuresConcat(world, setting, candidates[..k], [candidates[k]]);
    assert [candidates[k]][1..] == [];
  }

  lemma {:induction false} FailuresConcat(world: World, setting: Setting, a: seq<Candidate>, b: seq<Candidate>)
    ensures Failures(world, setting, a + b) == Failures(world, setting, a) + Failures(world, setting, b)
  {
    if a == [] {
      assert a + b == b;
    } else {
      assert (a + b)[1..] == a[1..] + b;
      FailuresConcat(world, setting, a[1..], b);
    }
  }

  function Added(settings: Settings, path: string, win: Option<Win>): Settings {
    if win.None? then settings
    else Settings(settings.values[path := win.value.value], settings.sources[path := win.value.source])
  }

  /** Checks every candidate of one setting; the first eligible value is kept. */
  method CheckSetting(world: World, setting: Setting, candidates: seq<Candidate>, before: Settings,
                      failed: seq<InputError>)
    returns (settings: Settings, errors: seq<InputError>)
    requires setting.path !in before.values && setting.path !in before.sources
    ensures errors == failed + Failures(world, setting, candidates)
    ensures settings == Added(before, setting.path, Winner(world, setting.kind, candidates))
  {
    hide Winner, Failures;
    settings, errors := before, failed;
    NothingTried(world, setting);
    for k := 0 to |candidates|
      invariant errors == failed + Failures(world, setting, candidates[..k])
      invariant settings == Added(before, setting.path, Winner(world, setting.kind, candidates[..k]))
    {
      MoreCandidates(world, setting, candidates, k);
      var candidate := candidates[k];
      match world.check(setting.kind, candidate.raw)
      case Ok(value) =>
        if value.Some? && candidate.eligible && setting.path !in settings.values {
          settings := Settings(settings.values[setting.path := value.value],
                               settings.sources[setting.path := candidate.source]);
        }
      case Err(reason) =>
        errors := errors + [InputError(candidate.source, setting.path, reason)];
    }
    assert candidates[..|candidates|] == candidates;
  }

  lemma NothingTried(world: World, setting: Setting)
    ensures Winner(world, setting.kind, []) == None && Failures(world, setting, []) == []
  {
  }

  /** Checks every source's values and keeps each setting's winner. */
  method Check(world: World, files: ConfigFiles, layers: EnvLayers, settings: seq<Setting>)
    returns (r: Result<Settings, seq<InputError>>)
    requires DistinctPaths(settings)
    ensures CheckedAs(world, layers, files, settings, r)
  {
    hide Candidates, Winner, Failures;
    var errors := files.structure;
    var winners := Settings(map[], map[]);
    for i := 0 to |settings|
      invariant errors == AllErrors(world, layers, files, settings[..i])
      invariant HoldsWinners(world, layers, files, settings, i, winners)
    {
      assert settings[..i + 1][..i] == settings[..i];
      var candidates := Candidates(world, layers, files, settings[i]);
      ghost var before := winners;
      winners, errors := CheckSetting(world, settings[i], candidates, winners, errors);
      MoreWinners(world, layers, files, settings, i, before);
    }
    assert settings[..|settings|] == settings;
    if errors == [] {
      return Ok(winners);
    }
    r := Err(SortBy(errors, ErrorBefore(files, layers)));
  }

  lemma MoreWinners(world: World, layers: EnvLayers, files: ConfigFiles, settings: seq<Setting>, i: nat,
                    before: Settings)
    requires i < |settings| && DistinctPaths(settings) && HoldsWinners(world, layers, files, settings, i, before)
    ensures HoldsWinners(world, layers, files, settings, i + 1,
                         Added(before, settings[i].path,
                               Winner(world, settings[i].kind, Candidates(world, layers, files, settings[i]))))
  {
    hide Candidates, Winner;
    assert settings[i].path !in before.values;
  }

  // ----- the files -----

  /** The file system, with the paths opened so far. */
  class FileSystem {
    const contents: Contents
    var openings: seq<string>

    constructor (contents: Contents)
      ensures this.contents == contents && openings == []
    {
      this.contents := contents;
      openings := [];
    }

    method Open(path: string) returns (r: Result<string, string>)
      modifies this
      ensures r == contents(path) && openings == old(openings) + [path]
    {
      openings := openings + [path];
      r := contents(path);
    }
  }

  /** Reads the env files in order, opening none after the first that fails. */
  method ReadEnvFiles(disk: FileSystem, process: map<string, string>, paths: seq<string>, letters: char -> bool)
    returns (layers: EnvLayers, error: Option<LoadError>)
    modifies disk
    ensures var r := EnvLoaded(disk.contents, process, [], paths, letters);
            && layers == EnvLayers(process, r.files) && error == r.error
            && r.openings <= |paths| && disk.openings == old(disk.openings) + paths[..r.openings]
  {
    hide Parse;
    layers, error := EnvLayers(process, []), None;
    ghost var whole := EnvLoaded(disk.contents, process, [], paths, letters);
    assert paths[0..] == paths;
    for i := 0 to |paths|
      invariant layers.process == process
      invariant var rest := EnvLoaded(disk.contents, process, layers.files, paths[i..], letters);
                whole == rest.(openings := i + rest.openings)
      invariant disk.openings == old(disk.openings) + paths[..i]
    {
      assert paths[i..][0] == paths[i] && paths[i..][1..] == paths[i + 1..]
             && paths[..i + 1] == paths[..i] + [paths[i]];
      var text := disk.Open(paths[i]);
      if text.Err? {
        return layers, Some(ReadFailed(paths[i], text.error));
      }
      var parsed := DotenvParser.Parse(text.value, EnvContext(process, layers.files, letters));
      if parsed.Err? {
        return layers, Some(BadEnvFile(paths[i], parsed.error));
      }
      layers := EnvLayers(process, layers.files + [EnvFile(paths[i], parsed.value.entries)]);
    }
    assert paths[|paths|..] == [] && paths[..|paths|] == paths;
  }

  /** Reads the config files in order, opening none after the first with structure errors or a failure. */
  method ReadConfigFiles(disk: FileSystem, reader: ConfigReader, lookup: Lookup, paths: seq<string>)
    returns (files: ConfigFiles, error: Option<LoadError>)
    modifies disk
    ensures var r := ConfigLoaded(disk.contents, reader, lookup, [], paths);
            && files == r.files && error == r.error
            && r.openings <= |paths| && disk.openings == old(disk.openings) + paths[..r.openings]
  {
    var parsed: seq<ConfigFile> := [];
    error := None;
    ghost var whole := ConfigLoaded(disk.contents, reader, lookup, [], paths);
    assert paths[0..] == paths;
    for i := 0 to |paths|
      invariant var rest := ConfigLoaded(disk.contents, reader, lookup, parsed, paths[i..]);
                whole == rest.(openings := i + rest.openings)
      invariant disk.openings == old(disk.openings) + paths[..i]
    {
      assert paths[i..][0] == paths[i] && paths[i..][1..] == paths[i + 1..]
             && paths[..i + 1] == paths[..i] + [paths[i]];
      var text := disk.Open(paths[i]);
      if text.Err? {
        return ConfigFiles(parsed, []), Some(ReadFailed(paths[i], text.error));
      }
      var loaded := reader(paths[i], text.value, lookup);
      if loaded.Err? {
        return ConfigFiles(parsed, []), Some(BadConfigFile(paths[i], loaded.error));
      }
      parsed := parsed + [ConfigFile(paths[i], loaded.value.0)];
      if loaded.value.1 != [] {
        return ConfigFiles(parsed, loaded.value.1), None;
      }
    }
    assert paths[|paths|..] == [] && paths[..|paths|] == paths;
    files := ConfigFiles(parsed, []);
  }

  // ----- the whole load -----

  datatype Options = Options(process: map<string, string>, envFlags: seq<string>, configFlags: seq<string>,
                             workingDir: string)

  /** The first value of the config list variable that may win, with the directory it resolves against. */
  function ConfigList(candidates: seq<Candidate>, workingDir: string): Option<CommaList> {
    if candidates == [] then None
    else if candidates[0].eligible && !candidates[0].raw.Yaml? then
      var raw := candidates[0].raw;
      Some(CommaList(raw.text, candidates[0].source, if raw.EnvText? then raw.dir else workingDir))
    else ConfigList(candidates[1..], workingDir)
  }

  function EnvList(options: Options): Option<CommaList> {
    var list := NonEmptyEnv(options.process, ENV_FILE_VAR);
    if list.None? then None else Some(CommaList(list.value, FromEnv(ENV_FILE_VAR), options.workingDir))
  }

  function VarLookup(layers: EnvLayers): Lookup {
    (name: string) => Var(layers, name)
  }

  /** Everything outside the loader. */
  datatype Host = Host(world: World, resolve: (string, string) -> string, reader: ConfigReader, letters: char -> bool)

  /** What a load amounts to: pick, read and parse the env files, then the config files, then check every value. */
  ghost predicate LoadedAs(host: Host, contents: Contents, options: Options, settings: seq<Setting>,
                           r: Result<Settings, LoadError>)
  {
    match PickFiles(options.envFlags, EnvList(options), options.workingDir, host.resolve)
    case Err(e) => r == Err(BadList(e))
    case Ok(envPaths) =>
      var env := EnvLoaded(contents, options.process, [], envPaths, host.letters);
      var layers := EnvLayers(options.process, env.files);
      if env.error.Some? then r == Err(env.error.value)
      else
        var list := ConfigList(EnvCandidates(host.world, layers, CONFIG_FILE_VAR), options.workingDir);
        match PickFiles(options.configFlags, list, options.workingDir, host.resolve)
        case Err(e) => r == Err(BadList(e))
        case Ok(configPaths) =>
          var config := ConfigLoaded(contents, host.reader, VarLookup(layers), [], configPaths);
          if config.error.Some? then r == Err(config.error.value)
          else if r.Ok? then CheckedAs(host.world, layers, config.files, settings, Ok(r.value))
          else r.error.BadSettings? && CheckedAs(host.world, layers, config.files, settings, Err(r.error.inputs))
  }

  method Load(host: Host, disk: FileSystem, options: Options, settings: seq<Setting>)
    returns (r: Result<Settings, LoadError>)
    requires DistinctPaths(settings)
    modifies disk
    ensures LoadedAs(host, disk.contents, options, settings, r)
  {
    hide CheckedAs, PickFiles, EnvLoaded, ConfigLoaded, EnvCandidates, ConfigList;
    var envPaths := PickFiles(options.envFlags, EnvList(options), options.workingDir, host.resolve);
    if envPaths.Err? {
      return Err(BadList(envPaths.error));
    }
    var layers, failure := ReadEnvFiles(disk, options.process, envPaths.value, host.letters);
    if failure.Some? {
      return Err(failure.value);
    }
    var list := ConfigList(EnvCandidates(host.world, layers, CONFIG_FILE_VAR), options.workingDir);
    var configPaths := PickFiles(options.configFlags, list, options.workingDir, host.resolve);
    if configPaths.Err? {
      return Err(BadList(configPaths.error));
    }
    var files;
    files, failure := ReadConfigFiles(disk, host.reader, VarLookup(layers), configPaths.value);
    if failure.Some? {
      return Err(failure.value);
    }
    var checked := Check(host.world, files, layers, settings);
    if checked.Ok? {
      r := Ok(checked.value);
    } else {
      r := Err(BadSettings(checked.error));
    }
  }
}
