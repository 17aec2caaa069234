/** The precedence the sources obey, the order errors come in, and what collapsing repeated files leaves alone. */
module SettingsLaws {
  import opened Common
  import opened StableSorting
  import opened SettingsRules

  // ----- success -----

  /** Every value any source sets for `setting` passes its check, whether it wins or not. */
  ghost predicate EverySourcePasses(world: World, layers: EnvLayers, files: ConfigFiles, setting: Setting) {
    var (name, kind) := (setting.env, setting.kind);
    && (name in layers.process && layers.process[name] != "" ==> world.check(kind, PlainText(layers.process[name])).Ok?)
    && (forall i :: 0 <= i < |layers.files| ==> EnvFilePasses(world, layers.files[i], name, kind))
    && (forall i :: 0 <= i < |files.files| ==> ConfigFilePasses(world, files.files[i], setting.path, kind))
  }

  predicate EnvFilePasses(world: World, file: EnvFile, name: string, kind: nat) {
    name in file.entries && file.entries[name].0 != "" ==>
      world.check(kind, EnvText(file.entries[name].0, world.parent(file.path))).Ok?
  }

  predicate ConfigFilePasses(world: World, file: ConfigFile, path: string, kind: nat) {
    var leaf := LeafAt(file.root, path);
    leaf.Some? ==> world.check(kind, Yaml(leaf.value.node, world.parent(file.path))).Ok?
  }

  predicate Passing(world: World, kind: nat, candidates: seq<Candidate>) {
    forall i :: 0 <= i < |candidates| ==> world.check(kind, candidates[i].raw).Ok?
  }

  lemma PassingConcat(world: World, kind: nat, a: seq<Candidate>, b: seq<Candidate>)
    ensures Passing(world, kind, a + b) <==> Passing(world, kind, a) && Passing(world, kind, b)
  {
    if Passing(world, kind, a + b) {
      forall i | 0 <= i < |a| ensures world.check(kind, a[i].raw).Ok? {
        assert (a + b)[i] == a[i];
      }
      forall i | 0 <= i < |b| ensures world.check(kind, b[i].raw).Ok? {
        assert (a + b)[|a| + i] == b[i];
      }
    }
  }

  lemma PassingOne(world: World, kind: nat, c: Option<Candidate>)
    ensures Passing(world, kind, if c.Some? then [c.value] else [])
            <==> (c.Some? ==> world.check(kind, c.value.raw).Ok?)
  {
    if c.Some? {
      assert [c.value][0] == c.value;
    }
  }

  lemma {:induction false} FailuresAreAll(world: World, setting: Setting, candidates: seq<Candidate>)
    ensures Failures(world, setting, candidates) == [] <==> Passing(world, setting.kind, candidates)
  {
    if candidates != [] {
      FailuresAreAll(world, setting, candidates[1..]);
      assert candidates == [candidates[0]] + candidates[1..];
      PassingConcat(world, setting.kind, [candidates[0]], candidates[1..]);
      assert [candidates[0]][0] == candidates[0];
    }
  }

  lemma {:induction false} EnvFilesPass(world: World, files: seq<EnvFile>, name: string, kind: nat, n: nat)
    requires n <= |files|
    ensures Passing(world, kind, EnvFileCandidates(world, files, name, n))
            <==> forall i :: 0 <= i < n ==> EnvFilePasses(world, files[i], name, kind)
  {
    if n > 0 {
      EnvFilesPass(world, files, name, kind, n - 1);
      var own := EnvFileCandidate(world, files, name, n - 1);
      var first := if own.Some? then [own.value] else [];
      PassingOne(world, kind, own);
      PassingConcat(world, kind, first, EnvFileCandidates(world, files, name, n - 1));
    }
  }

  lemma {:induction false} ConfigFilesPass(world: World, files: seq<ConfigFile>, path: string, kind: nat)
    ensures Passing(world, kind, ConfigCandidates(world, files, path))
            <==> forall i :: 0 <= i < |files| ==> ConfigFilePasses(world, files[i], path, kind)
  {
    if files != [] {
      var n := |files| - 1;
      ConfigFilesPass(world, files[..n], path, kind);
      assert forall i :: 0 <= i < n ==> files[..n][i] == files[i];
      var own := ConfigCandidate(world, files[n], path);
      var first := if own.Some? then [own.value] else [];
      PassingOne(world, kind, own);
      PassingConcat(world, kind, first, ConfigCandidates(world, files[..n], path));
    }
  }

  lemma SettingPasses(world: World, layers: EnvLayers, files: ConfigFiles, setting: Setting)
    ensures Failures(world, setting, Candidates(world, layers, files, setting)) == []
            <==> EverySourcePasses(world, layers, files, setting)
  {
    hide EnvFileCandidates, ConfigCandidates, EnvFilePasses, ConfigFilePasses;
    FailuresAreAll(world, setting, Candidates(world, layers, files, setting));
    PassingConcat(world, setting.kind, EnvCandidates(world, layers, setting.env),
                  ConfigCandidates(world, files.files, setting.path));
    var process := NonEmptyEnv(layers.process, setting.env);
    var first := if process.Some? then [Candidate(PlainText(process.value), FromEnv(setting.env), true)] else [];
    PassingConcat(world, setting.kind, first, EnvFileCandidates(world, layers.files, setting.env, |layers.files|));
    EnvFilesPass(world, layers.files, setting.env, setting.kind, |layers.files|);
    ConfigFilesPass(world, files.files, setting.path, setting.kind);
  }

  /**
   * There are no errors exactly when the config files' structure is sound and every set value of every source passes.
   */
  lemma {:induction false} NoErrorsExactly(world: World, layers: EnvLayers, files: ConfigFiles, settings: seq<Setting>)
    ensures AllErrors(world, layers, files, settings) == []
            <==> files.structure == []
                 && forall i :: 0 <= i < |settings| ==> EverySourcePasses(world, layers, files, settings[i])
  {
    hide EverySourcePasses, Failures, Candidates;
    if settings != [] {
      var n := |settings| - 1;
      NoErrorsExactly(world, layers, files, settings[..n]);
      SettingPasses(world, layers, files, settings[n]);
      assert forall i :: 0 <= i < n ==> settings[..n][i] == settings[i];
    }
  }

  // ----- the winner -----

  /** A non-empty environment text is never unset. */
  ghost predicate TextIsSet(world: World) {
    forall kind: nat, raw: Raw :: !raw.Yaml? && raw.text != "" && world.check(kind, raw).Ok? ==>
      world.check(kind, raw).value.Some?
  }

  function Checked(world: World, kind: nat, raw: Raw, source: Source): Option<Win> {
    var r := world.check(kind, raw);
    if r.Ok? && r.value.Some? then Some(Win(r.value.value, source)) else None
  }

  function ConfigWin(world: World, file: ConfigFile, path: string, kind: nat): Option<Win> {
    var leaf := LeafAt(file.root, path);
    if leaf.None? then None
    else Checked(world, kind, Yaml(leaf.value.node, world.parent(file.path)),
                 FromFile(file.path, leaf.value.line, leaf.value.column))
  }

  /** `win` comes from the last config file that has a value. */
  ghost predicate LastConfigWins(world: World, files: seq<ConfigFile>, path: string, kind: nat, win: Option<Win>) {
    || (win.None? && forall i :: 0 <= i < |files| ==> ConfigWin(world, files[i], path, kind).None?)
    || (win.Some? && exists i :: LastConfigAt(world, files, path, kind, win, i))
  }

  ghost predicate LastConfigAt(world: World, files: seq<ConfigFile>, path: string, kind: nat, win: Option<Win>,
                               i: nat) {
    && i < |files| && ConfigWin(world, files[i], path, kind) == win
    && forall j :: i < j < |files| ==> ConfigWin(world, files[j], path, kind).None?
  }

  /**
   * The declared precedence: a non-empty process value, else what the last env file setting the name says, where empty
   * clears it, else the last config file with a value.
   */
  ghost predicate Precedence(world: World, layers: EnvLayers, files: ConfigFiles, setting: Setting, win: Option<Win>) {
    var (name, kind) := (setting.env, setting.kind);
    var last := LastSetting(layers.files, name);
    if name in layers.process && layers.process[name] != "" then
      win == Checked(world, kind, PlainText(layers.process[name]), FromEnv(name))
    else if last.Some? && layers.files[last.value].entries[name].0 != "" then
      var file := layers.files[last.value];
      win == Checked(world, kind, EnvText(file.entries[name].0, world.parent(file.path)),
                     FromEnvFile(name, file.path, file.entries[name].1))
    else LastConfigWins(world, files.files, setting.path, kind, win)
  }

  lemma {:induction false} WinnerConcat(world: World, kind: nat, a: seq<Candidate>, b: seq<Candidate>)
    ensures Winner(world, kind, a + b)
            == if Winner(world, kind, a).Some? then Winner(world, kind, a) else Winner(world, kind, b)
  {
    if a == [] {
      assert a + b == b;
    } else {
      assert (a + b)[1..] == a[1..] + b;
      WinnerConcat(world, kind, a[1..], b);
    }
  }

  lemma WinnerOfOne(world: World, kind: nat, c: Candidate)
    ensures Winner(world, kind, [c]) == if c.eligible then Checked(world, kind, c.raw, c.source) else None
  {
    assert [c][1..] == [];
  }

  /** Among the env files only the last one setting the name may win. */
  lemma {:induction false} EnvFileWinner(world: World, files: seq<EnvFile>, name: string, kind: nat, n: nat)
    requires n <= |files|
    ensures var last := LastSetting(files, name);
            Winner(world, kind, EnvFileCandidates(world, files, name, n))
            == if last.Some? && last.value < n && files[last.value].entries[name].0 != "" then
                 Checked(world, kind,
                         EnvText(files[last.value].entries[name].0, world.parent(files[last.value].path)),
                         FromEnvFile(name, files[last.value].path, files[last.value].entries[name].1))
               else None
  {
    if n > 0 {
      EnvFileWinner(world, files, name, kind, n - 1);
      var own := EnvFileCandidate(world, files, name, n - 1);
      var first := if own.Some? then [own.value] else [];
      WinnerConcat(world, kind, first, EnvFileCandidates(world, files, name, n - 1));
      if own.Some? {
        WinnerOfOne(world, kind, own.value);
      }
    }
  }

  lemma {:induction false} ConfigWinner(world: World, files: seq<ConfigFile>, path: string, kind: nat)
    ensures LastConfigWins(world, files, path, kind, Winner(world, kind, ConfigCandidates(world, files, path)))
  {
    if files != [] {
      var n := |files| - 1;
      ConfigWinner(world, files[..n], path, kind);
      var own := ConfigCandidate(world, files[n], path);
      var first := if own.Some? then [own.value] else [];
      var before := Winner(world, kind, ConfigCandidates(world, files[..n], path));
      WinnerConcat(world, kind, first, ConfigCandidates(world, files[..n], path));
      if own.Some? {
        WinnerOfOne(world, kind, own.value);
      }
      assert Winner(world, kind, first) == ConfigWin(world, files[n], path, kind);
      LastConfigStep(world, files, path, kind, before);
    }
  }

  lemma LastConfigStep(world: World, files: seq<ConfigFile>, path: string, kind: nat, before: Option<Win>)
    requires files != [] && LastConfigWins(world, files[..|files| - 1], path, kind, before)
    ensures var own := ConfigWin(world, files[|files| - 1], path, kind);
            LastConfigWins(world, files, path, kind, if own.Some? then own else before)
  {
    hide ConfigWin;
    var n := |files| - 1;
    assert forall i :: 0 <= i < n ==> files[..n][i] == files[i];
    var own := ConfigWin(world, files[n], path, kind);
    if own.Some? {
      assert LastConfigAt(world, files, path, kind, own, n);
    } else if before.Some? {
      var i: nat :| LastConfigAt(world, files[..n], path, kind, before, i);
      assert LastConfigAt(world, files, path, kind, before, i);
    }
  }

  /** When every value passes, the winner is what the declared precedence says. */
  lemma WinnerIsPrecedence(world: World, layers: EnvLayers, files: ConfigFiles, setting: Setting)
    requires TextIsSet(world) && EverySourcePasses(world, layers, files, setting)
    ensures Precedence(world, layers, files, setting,
                       Winner(world, setting.kind, Candidates(world, layers, files, setting)))
  {
    hide EnvFileCandidates, ConfigCandidates, LastConfigWins;
    var (name, kind) := (setting.env, setting.kind);
    var process := NonEmptyEnv(layers.process, name);
    var first := if process.Some? then [Candidate(PlainText(process.value), FromEnv(name), true)] else [];
    var second := EnvFileCandidates(world, layers.files, name, |layers.files|);
    var third := ConfigCandidates(world, files.files, setting.path);
    WinnerConcat(world, kind, first + second, third);
    WinnerConcat(world, kind, first, second);
    if process.Some? {
      WinnerOfOne(world, kind, first[0]);
    }
    EnvFileWinner(world, layers.files, name, kind, |layers.files|);
    ConfigWinner(world, files.files, setting.path, kind);
    var last := LastSetting(layers.files, name);
    if last.Some? && layers.files[last.value].entries[name].0 != "" {
      assert EnvFilePasses(world, layers.files[last.value], name, kind);
    }
  }

  // ----- the order of errors -----

  lemma {:induction false} TextTotal(a: string, b: string)
    ensures !(TextBefore(a, b) && TextBefore(b, a))
    ensures !TextBefore(a, b) && !TextBefore(b, a) ==> a == b
  {
    if a != "" && b != "" && a[0] == b[0] {
      TextTotal(a[1..], b[1..]);
      assert a == [a[0]] + a[1..] && b == [b[0]] + b[1..];
    }
  }

  lemma {:induction false} TextTransitive(a: string, b: string, c: string)
    requires TextBefore(a, b) && TextBefore(b, c)
    ensures TextBefore(a, c)
  {
    if a != "" && b != "" && a[0] == b[0] && b[0] == c[0] {
      TextTransitive(a[1..], b[1..], c[1..]);
    }
  }

  lemma TextOrder(a: string, b: string, c: string)
    ensures TextBefore(a, b) ==> !TextBefore(b, a)
    ensures !TextBefore(a, b) && !TextBefore(b, c) ==> !TextBefore(a, c)
  {
    TextTotal(a, b);
    TextTotal(b, c);
    if TextBefore(b, a) && TextBefore(c, b) {
      TextTransitive(c, b, a);
      TextTotal(a, c);
    }
  }

  lemma RankOrder(a: Rank, b: Rank, c: Rank)
    ensures RankBefore(a, b) ==> !RankBefore(b, a)
    ensures !RankBefore(a, b) && !RankBefore(b, c) ==> !RankBefore(a, c)
  {
    hide TextBefore;
    TextOrder(a.name, b.name, c.name);
  }

  lemma ErrorOrder(files: ConfigFiles, layers: EnvLayers)
    ensures StrictWeak(ErrorBefore(files, layers))
  {
    hide RankBefore, RankOf;
    var before := ErrorBefore(files, layers);
    forall a, b ensures before(a, b) ==> !before(b, a) {
      RankOrder(RankOf(a, files, layers), RankOf(b, files, layers), RankOf(a, files, layers));
    }
    forall a, b, c ensures !before(a, b) && !before(b, c) ==> !before(a, c) {
      RankOrder(RankOf(a, files, layers), RankOf(b, files, layers), RankOf(c, files, layers));
    }
  }

  /** The reported errors are all the errors, each as often as it occurs, in rank order. */
  lemma ErrorsAreSorted(files: ConfigFiles, layers: EnvLayers, errors: seq<InputError>)
    ensures var sorted := SortBy(errors, ErrorBefore(files, layers));
            SortedBy(sorted, ErrorBefore(files, layers)) && multiset(sorted) == multiset(errors)
  {
    ErrorOrder(files, layers);
    SortBySorts(errors, ErrorBefore(files, layers));
  }

  // ----- files named twice -----

  /** Keeps each element at its last place. */
  function LastPlaces<T(==)>(s: seq<T>): seq<T> {
    if s == [] then [] else (if s[0] in s[1..] then [] else [s[0]]) + LastPlaces(s[1..])
  }

  function FilesOf(paths: seq<string>, tree: string -> Spanned): seq<ConfigFile> {
    seq(|paths|, i requires 0 <= i < |paths| => ConfigFile(paths[i], tree(paths[i])))
  }

  lemma FilesOfCons(p: string, rest: seq<string>, tree: string -> Spanned)
    ensures FilesOf([p] + rest, tree) == [ConfigFile(p, tree(p))] + FilesOf(rest, tree)
  {
  }

  lemma {:induction false} ConfigCandidatesConcat(world: World, a: seq<ConfigFile>, b: seq<ConfigFile>, path: string)
    ensures ConfigCandidates(world, a + b, path) == ConfigCandidates(world, b, path) + ConfigCandidates(world, a, path)
    decreases |b|
  {
    hide ConfigCandidate;
    if b == [] {
      assert a + b == a;
    } else {
      var n := |b| - 1;
      assert (a + b)[..|a + b| - 1] == a + b[..n] && (a + b)[|a + b| - 1] == b[n];
      ConfigCandidatesConcat(world, a, b[..n], path);
    }
  }

  function ConfigWinnerOf(world: World, paths: seq<string>, tree: string -> Spanned, path: string,
                          kind: nat): Option<Win> {
    Winner(world, kind, ConfigCandidates(world, FilesOf(paths, tree), path))
  }

  lemma ConfigWinnerCons(world: World, p: string, rest: seq<string>, tree: string -> Spanned, path: string, kind: nat)
    ensures ConfigWinnerOf(world, [p] + rest, tree, path, kind)
            == if ConfigWinnerOf(world, rest, tree, path, kind).Some? then ConfigWinnerOf(world, rest, tree, path, kind)
               else ConfigWin(world, ConfigFile(p, tree(p)), path, kind)
  {
    var own := [ConfigFile(p, tree(p))];
    FilesOfCons(p, rest, tree);
    ConfigCandidatesConcat(world, own, FilesOf(rest, tree), path);
    WinnerConcat(world, kind, ConfigCandidates(world, FilesOf(rest, tree), path), ConfigCandidates(world, own, path));
    OwnWinner(world, own[0], path, kind);
  }

  lemma OwnWinner(world: World, file: ConfigFile, path: string, kind: nat)
    ensures Winner(world, kind, ConfigCandidates(world, [file], path)) == ConfigWin(world, file, path, kind)
  {
    assert [file][..0] == [];
    assert ConfigCandidates(world, [], path) == [];
    var own := ConfigCandidate(world, file, path);
    if own.Some? {
      WinnerOfOne(world, kind, own.value);
      assert ConfigCandidates(world, [file], path) == [own.value] + [];
    }
  }

  lemma {:induction false} MemberHasWinner(world: World, p: string, paths: seq<string>, tree: string -> Spanned,
                                           path: string, kind: nat)
    requires p in paths && ConfigWin(world, ConfigFile(p, tree(p)), path, kind).Some?
    ensures ConfigWinnerOf(world, paths, tree, path, kind).Some?
  {
    hide ConfigWinnerOf, ConfigWin;
    assert paths == [paths[0]] + paths[1..];
    ConfigWinnerCons(world, paths[0], paths[1..], tree, path, kind);
    if p != paths[0] {
      MemberHasWinner(world, p, paths[1..], tree, path, kind);
    }
  }

  /** Reading a repeated file only at its last place leaves the config files' winner as it is. */
  lemma {:induction false} LastPlacesKeepConfigWinner(world: World, paths: seq<string>, tree: string -> Spanned,
                                                      path: string, kind: nat)
    ensures ConfigWinnerOf(world, LastPlaces(paths), tree, path, kind) == ConfigWinnerOf(world, paths, tree, path, kind)
  {
    hide ConfigWinnerOf, ConfigWin;
    if paths != [] {
      var p, rest := paths[0], paths[1..];
      assert paths == [p] + rest;
      LastPlacesKeepConfigWinner(world, rest, tree, path, kind);
      ConfigWinnerCons(world, p, rest, tree, path, kind);
      if p in rest {
        assert LastPlaces(paths) == LastPlaces(rest);
        if ConfigWin(world, ConfigFile(p, tree(p)), path, kind).Some? {
          MemberHasWinner(world, p, rest, tree, path, kind);
        }
      } else {
        ConfigWinnerCons(world, p, LastPlaces(rest), tree, path, kind);
      }
    }
  }

  /** Nor does it change the winner of any setting over all sources. */
  lemma LastPlacesKeepWinners(world: World, layers: EnvLayers, paths: seq<string>, tree: string -> Spanned,
                              setting: Setting)
    ensures Winner(world, setting.kind,
                   Candidates(world, layers, ConfigFiles(FilesOf(LastPlaces(paths), tree), []), setting))
            == Winner(world, setting.kind, Candidates(world, layers, ConfigFiles(FilesOf(paths, tree), []), setting))
  {
    hide EnvCandidates, ConfigCandidates, FilesOf;
    LastPlacesKeepConfigWinner(world, paths, tree, setting.path, setting.kind);
    var env := EnvCandidates(world, layers, setting.env);
    WinnerConcat(world, setting.kind, env, ConfigCandidates(world, FilesOf(LastPlaces(paths), tree), setting.path));
    WinnerConcat(world, setting.kind, env, ConfigCandidates(world, FilesOf(paths, tree), setting.path));
  }
}
