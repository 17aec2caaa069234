/** Which value each setting takes from the process, the env files and the config files. */
module SettingsRules {
  import opened Common
  import opened DotenvRules

  // ----- sources -----

  datatype Setting = Setting(path: string, env: string, kind: nat)

  /** A parsed YAML tree: mappings, and anything else as a leaf. */
  datatype Node = Leaf(text: string) | Mapping(entries: map<string, Spanned>)

  datatype Spanned = Spanned(node: Node, line: nat, column: nat)

  /** A value as written, with the directory its relative paths resolve against. */
  datatype Raw = PlainText(text: string) | EnvText(text: string, dir: string) | Yaml(node: Node, dir: string)

  datatype Source = FromEnv(name: string) | FromEnvFile(name: string, path: string, line: nat)
                  | FromFile(path: string, line: nat, column: nat)

  datatype InputError = InputError(from: Source, path: string, reason: string)

  datatype EnvFile = EnvFile(path: string, entries: Entries)

  /** The process environment above the env files, in list order. */
  datatype EnvLayers = EnvLayers(process: map<string, string>, files: seq<EnvFile>)

  datatype ConfigFile = ConfigFile(path: string, root: Spanned)

  /** The config files in list order, and the structure errors of the one that stopped the read. */
  datatype ConfigFiles = ConfigFiles(files: seq<ConfigFile>, structure: seq<InputError>)

  /** The unseen parts: a kind's check (a value, unset, or an error), and a path's directory. */
  datatype World = World(check: (nat, Raw) -> Result<Option<string>, string>, parent: string -> string)

  // ----- candidates -----

  function NonEmptyEnv(process: map<string, string>, name: string): Option<string> {
    if name in process && process[name] != "" then Some(process[name]) else None
  }

  /** The last env file setting `name`, empty or not. */
  function LastSetting(files: seq<EnvFile>, name: string): (r: Option<nat>)
    ensures r.Some? ==> r.value < |files| && name in files[r.value].entries
    ensures forall i :: (if r.Some? then r.value else -1) < i < |files| ==> name !in files[i].entries
  {
    if files == [] then None
    else if name in files[|files| - 1].entries then Some(|files| - 1)
    else
      var r := LastSetting(files[..|files| - 1], name);
      assert forall i :: 0 <= i < |files| - 1 ==> files[..|files| - 1][i] == files[i];
      r
  }

  function Latest(files: seq<EnvFile>, name: string): Option<string> {
    var last := LastSetting(files, name);
    if last.Some? then Some(files[last.value].entries[name].0) else None
  }

  /** The variable view: the process, then the last env file; empty is a value. */
  function Var(layers: EnvLayers, name: string): Option<string> {
    if name in layers.process then Some(layers.process[name]) else Latest(layers.files, name)
  }

  datatype Candidate = Candidate(raw: Raw, source: Source, eligible: bool)

  function EnvFileCandidate(world: World, files: seq<EnvFile>, name: string, i: nat): Option<Candidate>
    requires i < |files|
  {
    if name in files[i].entries && files[i].entries[name].0 != "" then
      var (text, line) := files[i].entries[name];
      Some(Candidate(EnvText(text, world.parent(files[i].path)), FromEnvFile(name, files[i].path, line),
                     LastSetting(files, name) == Some(i)))
    else None
  }

  /** The non-empty values of the first `n` env files, last file first. */
  function EnvFileCandidates(world: World, files: seq<EnvFile>, name: string, n: nat): seq<Candidate>
    requires n <= |files|
  {
    if n == 0 then []
    else
      var own := EnvFileCandidate(world, files, name, n - 1);
      (if own.Some? then [own.value] else []) + EnvFileCandidates(world, files, name, n - 1)
  }

  /** The setting view: every non-empty value, highest first; only some may win. */
  function EnvCandidates(world: World, layers: EnvLayers, name: string): seq<Candidate> {
    var process := NonEmptyEnv(layers.process, name);
    (if process.Some? then [Candidate(PlainText(process.value), FromEnv(name), true)] else [])
    + EnvFileCandidates(world, layers.files, name, |layers.files|)
  }

  /** The keys of a dotted path. */
  function Keys(path: string, key: string): seq<string>
    decreases |path|
  {
    if path == "" then [key]
    else if path[0] == '.' then [key] + Keys(path[1..], "")
    else Keys(path[1..], key + [path[0]])
  }

  function Descend(root: Spanned, keys: seq<string>): Option<Spanned> {
    if keys == [] then Some(root)
    else if root.node.Mapping? && keys[0] in root.node.entries then Descend(root.node.entries[keys[0]], keys[1..])
    else None
  }

  function LeafAt(root: Spanned, path: string): Option<Spanned> {
    Descend(root, Keys(path, ""))
  }

  function ConfigCandidate(world: World, file: ConfigFile, path: string): Option<Candidate> {
    var leaf := LeafAt(file.root, path);
    if leaf.None? then None
    else Some(Candidate(Yaml(leaf.value.node, world.parent(file.path)),
                        FromFile(file.path, leaf.value.line, leaf.value.column), true))
  }

  /** The values of the config files, last file first. */
  function ConfigCandidates(world: World, files: seq<ConfigFile>, path: string): seq<Candidate> {
    if files == [] then []
    else
      var own := ConfigCandidate(world, files[|files| - 1], path);
      (if own.Some? then [own.value] else []) + ConfigCandidates(world, files[..|files| - 1], path)
  }

  function Candidates(world: World, layers: EnvLayers, files: ConfigFiles, setting: Setting): seq<Candidate> {
    EnvCandidates(world, layers, setting.env) + ConfigCandidates(world, files.files, setting.path)
  }

  // ----- the check -----

  /** A value and where it comes from. */
  datatype Win = Win(value: string, source: Source)

  /** The first candidate that may win and has a value. */
  function Winner(world: World, kind: nat, candidates: seq<Candidate>): Option<Win> {
    if candidates == [] then None
    else
      var checked := world.check(kind, candidates[0].raw);
      if checked.Ok? && checked.value.Some? && candidates[0].eligible then
        Some(Win(checked.value.value, candidates[0].source))
      else Winner(world, kind, candidates[1..])
  }

  function Failures(world: World, setting: Setting, candidates: seq<Candidate>): seq<InputError> {
    if candidates == [] then []
    else
      var checked := world.check(setting.kind, candidates[0].raw);
      (if checked.Err? then [InputError(candidates[0].source, setting.path, checked.error)] else [])
      + Failures(world, setting, candidates[1..])
  }

  function AllFailures(world: World, layers: EnvLayers, files: ConfigFiles, settings: seq<Setting>): seq<InputError> {
    if settings == [] then []
    else
      var last := settings[|settings| - 1];
      AllFailures(world, layers, files, settings[..|settings| - 1])
      + Failures(world, last, Candidates(world, layers, files, last))
  }

  function AllErrors(world: World, layers: EnvLayers, files: ConfigFiles, settings: seq<Setting>): seq<InputError> {
    files.structure + AllFailures(world, layers, files, settings)
  }

  // ----- the order of errors -----

  function FirstIndex(paths: seq<string>, path: string): Option<nat> {
    if paths == [] then None
    else if paths[0] == path then Some(0)
    else
      var rest := FirstIndex(paths[1..], path);
      if rest.Some? then Some(1 + rest.value) else None
  }

  function ConfigPaths(files: seq<ConfigFile>): seq<string> {
    seq(|files|, i requires 0 <= i < |files| => files[i].path)
  }

  function EnvPaths(files: seq<EnvFile>): seq<string> {
    seq(|files|, i requires 0 <= i < |files| => files[i].path)
  }

  /** Config files before env files before the process; files by list position, then by place. */
  datatype Rank = Rank(group: nat, file: nat, line: nat, column: nat, name: string)

  function RankOf(error: InputError, files: ConfigFiles, layers: EnvLayers): Rank {
    match error.from
    case FromFile(path, line, column) =>
      Rank(0, FirstIndex(ConfigPaths(files.files), path).GetOr(0), line, column, error.path)
    case FromEnvFile(_, path, line) => Rank(1, FirstIndex(EnvPaths(layers.files), path).GetOr(0), line, 0, error.path)
    case FromEnv(name) => Rank(2, 0, 0, 0, name)
  }

  predicate TextBefore(a: string, b: string) {
    if b == "" then false
    else if a == "" then true
    else a[0] < b[0] || (a[0] == b[0] && TextBefore(a[1..], b[1..]))
  }

  predicate RankBefore(a: Rank, b: Rank) {
    if a.group != b.group then a.group < b.group
    else if a.file != b.file then a.file < b.file
    else if a.line != b.line then a.line < b.line
    else if a.column != b.column then a.column < b.column
    else TextBefore(a.name, b.name)
  }

  function ErrorBefore(files: ConfigFiles, layers: EnvLayers): (InputError, InputError) -> bool {
    (a: InputError, b: InputError) => RankBefore(RankOf(a, files, layers), RankOf(b, files, layers))
  }
}
