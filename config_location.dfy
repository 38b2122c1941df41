/**
 * Where the configuration lives: a preset (next to the app, the platform's
 * per-user data folder, or a custom path) resolves to a directory, a
 * directory can be mapped back to its preset, and moving the configuration
 * between directories is guarded against deleting anything that is not a
 * configuration directory.
 *
 * The environment (platform, the app's anchor directory, the home and
 * working directories, `APPDATA` and `XDG_DATA_HOME`) is a parameter; the
 * file system is a map from resolved paths to what is there.
 */
module ConfigLocation {
  import opened Wrappers
  import opened Strings
  import opened Paths

  const AppName := "IntenseRP Next"
  const ConfigDirName := "config_data"

  datatype Env = Env(platform: string, anchor: Path, home: Path, cwd: Path,
                     appData: Option<string>, xdgDataHome: Option<string>)

  predicate IsWindows(env: Env) {
    StartsWith(env.platform, "win")
  }

  predicate IsLinux(env: Env) {
    StartsWith(env.platform, "linux")
  }

  /** `get_relative_config_dir` */
  function RelativeConfigDir(env: Env): Path {
    Child(env.anchor, ConfigDirName)
  }

  /** `get_windows_appdata_config_dir`: under `APPDATA`, or `~/AppData/Roaming` when it is unset or empty. */
  function AppDataConfigDir(env: Env): Path {
    var base := if env.appData.Some? && env.appData.value != "" then FromText(env.appData.value)
                else Child(Child(env.home, "AppData"), "Roaming");
    Child(Child(base, AppName), ConfigDirName)
  }

  /** `get_linux_user_data_config_dir`: under `XDG_DATA_HOME`, or `~/.local/share` when it is unset or empty. */
  function LinuxConfigDir(env: Env): Path {
    var base := if env.xdgDataHome.Some? && env.xdgDataHome.value != "" then FromText(env.xdgDataHome.value)
                else Child(Child(env.home, ".local"), "share");
    Child(Child(base, AppName), ConfigDirName)
  }

  /** `s or default` for an optional string. */
  function OrElse(s: Option<string>, default: string): string {
    if s.Some? && s.value != "" then s.value else default
  }

  /** A custom path: stripped, `~` expanded, anchored at the app's directory when relative, resolved. */
  function CustomConfigDir(env: Env, customPath: Option<string>): (r: Result<Path, string>)
    ensures r.Failure? <==> Strip(OrElse(customPath, "")) == ""
    ensures r.Failure? ==> r.error == "Custom config directory is empty."
  {
    var customValue := Strip(OrElse(customPath, ""));
    if customValue == "" then Failure("Custom config directory is empty.")
    else
      var path := ExpandUser(FromText(customValue), env.home);
      var path := if !path.absolute then Div(env.anchor, path) else path;
      Success(Resolve(path, env.cwd))
  }

  /** The presets `resolve_config_dir` knows, and any other value. */
  datatype Preset = RelativePreset | AppDataPreset | LinuxPreset | CustomPreset | UnknownPreset

  /** The name a preset is stored under. */
  function PresetName(p: Preset): string {
    match p
    case RelativePreset => "Relative"
    case AppDataPreset => "Windows AppData"
    case LinuxPreset => "Linux User Data"
    case CustomPreset => "Custom"
    case UnknownPreset => ""
  }

  /** Which preset a stripped value names. */
  function PresetOf(value: string): (p: Preset)
    ensures p != UnknownPreset ==> PresetName(p) == value
    ensures p == UnknownPreset ==> forall q: Preset :: q != UnknownPreset ==> PresetName(q) != value
  {
    if value == "Relative" then RelativePreset
    else if value == "Windows AppData" then AppDataPreset
    else if value == "Linux User Data" then LinuxPreset
    else if value == "Custom" then CustomPreset
    else UnknownPreset
  }

  /** `get_config_storage_options` */
  function StorageOptions(env: Env): (r: seq<string>)
    ensures |r| >= 2 && r[0] == PresetName(RelativePreset) && r[|r| - 1] == PresetName(CustomPreset)
    ensures |r| == 3 <==> IsWindows(env) || IsLinux(env)
    ensures IsWindows(env) ==> r[1] == PresetName(AppDataPreset)
    ensures !IsWindows(env) && IsLinux(env) ==> r[1] == PresetName(LinuxPreset)
  {
    var options := [PresetName(RelativePreset)];
    var options := if IsWindows(env) then options + [PresetName(AppDataPreset)]
                   else if IsLinux(env) then options + [PresetName(LinuxPreset)]
                   else options;
    options + [PresetName(CustomPreset)]
  }

  /** `(preset or "Relative").strip()` */
  function PresetValue(preset: Option<string>): string {
    Strip(OrElse(preset, "Relative"))
  }

  /** `resolve_config_dir`: `Failure` is the `ValueError` for a blank custom path. */
  function ResolveConfigDir(env: Env, preset: Option<string>, customPath: Option<string>): (r: Result<Path, string>)
    ensures r.Failure? ==> r.error == "Custom config directory is empty."
  {
    var p := PresetOf(PresetValue(preset));
    if p == CustomPreset then CustomConfigDir(env, customPath) else Success(Configured(env, p))
  }

  /** The directory of a preset other than `Custom`; an unknown one means the relative directory. */
  function Configured(env: Env, p: Preset): Path {
    match p
    case AppDataPreset => AppDataConfigDir(env)
    case LinuxPreset => LinuxConfigDir(env)
    case _ => RelativeConfigDir(env)
  }

  /** A stored preset name reads back as that preset. */
  lemma PresetNameRoundTrip(p: Preset)
    requires p != UnknownPreset
    ensures PresetOf(PresetValue(Some(PresetName(p)))) == p
  {
    var name := PresetName(p);
    assert |name| > 0;
    assert OrElse(Some(name), "Relative") == name;
    NameStripped(p);
    PresetOfName(p);
  }

  lemma NameStripped(p: Preset)
    requires p != UnknownPreset
    ensures Strip(PresetName(p)) == PresetName(p)
  {
    var name := PresetName(p);
    assert !IsSpace(name[0]) && !IsSpace(name[|name| - 1]);
    StripOfStripped(name);
  }

  lemma PresetOfName(p: Preset)
    requires p != UnknownPreset
    ensures PresetOf(PresetName(p)) == p
  {
  }

  /** Every offered option names a preset, and every option but the last resolves without a custom path. */
  lemma OptionsArePresets(env: Env, i: nat)
    requires i < |StorageOptions(env)|
    ensures var p := PresetOf(PresetValue(Some(StorageOptions(env)[i])));
            p != UnknownPreset && (p == CustomPreset <==> i == |StorageOptions(env)| - 1)
    ensures i < |StorageOptions(env)| - 1 ==> ResolveConfigDir(env, Some(StorageOptions(env)[i]), None).Success?
  {
    var options := StorageOptions(env);
    var p := if i == 0 then RelativePreset
             else if i == |options| - 1 then CustomPreset
             else if IsWindows(env) then AppDataPreset
             else LinuxPreset;
    assert options[i] == PresetName(p);
    PresetNameRoundTrip(p);
  }

  /** A missing or empty preset means the relative directory. */
  lemma MissingPresetIsRelative(env: Env, preset: Option<string>, customPath: Option<string>)
    requires preset.None? || preset.value == ""
    ensures ResolveConfigDir(env, preset, customPath) == Success(RelativeConfigDir(env))
  {
    assert PresetValue(preset) == PresetName(RelativePreset) by {
      assert OrElse(preset, "Relative") == PresetName(RelativePreset);
      NameStripped(RelativePreset);
    }
    PresetOfName(RelativePreset);
  }

  /** A value that names no preset once stripped means the relative directory. */
  lemma UnknownPresetIsRelative(env: Env, preset: string, customPath: Option<string>)
    requires forall q: Preset :: q != UnknownPreset ==> PresetName(q) != Strip(preset)
    ensures ResolveConfigDir(env, Some(preset), customPath) == Success(RelativeConfigDir(env))
  {
    if preset == "" {
      MissingPresetIsRelative(env, Some(preset), customPath);
    } else {
      var v := Strip(preset);
      assert PresetValue(Some(preset)) == v;
      assert PresetOf(v) == UnknownPreset by {
        assert PresetName(RelativePreset) != v && PresetName(AppDataPreset) != v;
        assert PresetName(LinuxPreset) != v && PresetName(CustomPreset) != v;
      }
      assert Configured(env, UnknownPreset) == RelativeConfigDir(env);
    }
  }

  /** Only `Custom` with a blank path fails. */
  lemma ResolveFailsOnlyForBlankCustom(env: Env, preset: Option<string>, customPath: Option<string>)
    ensures ResolveConfigDir(env, preset, customPath).Failure?
        <==> PresetValue(preset) == "Custom" && Strip(OrElse(customPath, "")) == ""
  {
  }

  /** A relative custom path (not starting with `~`) is taken from the app's directory. */
  lemma RelativeCustomIsAnchored(env: Env, customPath: string)
    requires var v := Strip(customPath); v != "" && v[0] != '/' && (FromText(v).parts == [] || FromText(v).parts[0] != "~")
    ensures ResolveConfigDir(env, Some("Custom"), Some(customPath))
         == Success(Resolve(Div(env.anchor, FromText(Strip(customPath))), env.cwd))
  {
    CustomChosen(env, customPath);
    var path := FromText(Strip(customPath));
    assert !path.absolute && ExpandUser(path, env.home) == path;
  }

  lemma CustomChosen(env: Env, customPath: string)
    ensures ResolveConfigDir(env, Some("Custom"), Some(customPath)) == CustomConfigDir(env, Some(customPath))
  {
    PresetNameRoundTrip(CustomPreset);
  }

  /** An absolute custom path is resolved as it is. */
  lemma AbsoluteCustom(env: Env, customPath: string)
    requires var v := Strip(customPath); v != "" && v[0] == '/'
    ensures ResolveConfigDir(env, Some("Custom"), Some(customPath)) == Success(Resolve(FromText(Strip(customPath)), env.cwd))
  {
    CustomChosen(env, customPath);
    assert FromText(Strip(customPath)).absolute;
  }

  /** `infer_preset_from_config_dir` */
  function InferPreset(env: Env, configDir: Path): (r: (Preset, string))
    ensures r.0 != UnknownPreset
    ensures r.0 == AppDataPreset ==> IsWindows(env)
    ensures r.0 == LinuxPreset ==> IsLinux(env)
    ensures r.0 != CustomPreset ==> r.1 == "" && Resolve(configDir, env.cwd) == Resolve(Configured(env, r.0), env.cwd)
    ensures r.0 == CustomPreset ==> r.1 == ToText(Resolve(configDir, env.cwd))
  {
    var resolved := Resolve(configDir, env.cwd);
    if resolved == Resolve(RelativeConfigDir(env), env.cwd) then (RelativePreset, "")
    else if IsWindows(env) && resolved == Resolve(AppDataConfigDir(env), env.cwd) then (AppDataPreset, "")
    else if IsLinux(env) && resolved == Resolve(LinuxConfigDir(env), env.cwd) then (LinuxPreset, "")
    else (CustomPreset, ToText(resolved))
  }

  /** The text of a path does not end in white space (so stripping it changes nothing). */
  predicate NoTrailingSpace(s: string) {
    |s| > 0 ==> !IsSpace(s[|s| - 1])
  }

  /**
   * Resolving the inferred preset gives back the directory it was inferred
   * from, once resolved, provided the directory's text does not end in white
   * space.
   */
  lemma InferRoundTrip(env: Env, configDir: Path)
    requires WellFormed(configDir) && WellFormed(env.cwd)
    requires NoTrailingSpace(ToText(Resolve(configDir, env.cwd)))
    ensures var p := InferPreset(env, configDir);
            var d := ResolveConfigDir(env, Some(PresetName(p.0)), Some(p.1));
            d.Success? && Resolve(d.value, env.cwd) == Resolve(configDir, env.cwd)
  {
    var p := InferPreset(env, configDir);
    PresetNameRoundTrip(p.0);
    if p.0 == CustomPreset {
      ResolveNormal(configDir, env.cwd);
      CustomOfResolved(env, Resolve(configDir, env.cwd));
    }
  }

  lemma CustomOfResolved(env: Env, resolved: Path)
    requires Normal(resolved) && NoTrailingSpace(ToText(resolved))
    ensures CustomConfigDir(env, Some(ToText(resolved))) == Success(resolved)
  {
    var t := ToText(resolved);
    assert t[0] == '/';
    StripOfStripped(t);
    TextRoundTrip(resolved);
    ResolveOfNormal(resolved, env.cwd);
  }

  // Migration

  /** What a resolved path holds: a file, or a directory whose listing may fail (`None`). */
  datatype Node = FileNode | DirNode(listing: Option<set<string>>)

  type FileSystem = map<Path, Node>

  /** `_is_subpath` */
  predicate IsSubpath(child: Path, parent: Path, cwd: Path) {
    Within(Resolve(child, cwd), Resolve(parent, cwd))
  }

  /** `_looks_like_config_dir` */
  predicate LooksLikeConfigDir(fs: FileSystem, p: Path) {
    Child(p, "settings.json.enc") in fs || Child(p, "settings.key") in fs || Child(p, "playwright_profiles") in fs
  }

  /** `any(dst.iterdir())`, true when the listing fails. */
  predicate HasAny(n: Node)
    requires n.DirNode?
  {
    n.listing.None? || n.listing.value != {}
  }

  /** What `migrate_config_dir` goes on to do: nothing, or copy the tree, first removing the existing target. */
  datatype Migration = NoMigration | CopyTree(src: Path, dst: Path, removeFirst: bool)

  /** The guards of `migrate_config_dir`; `Failure` is the `ValueError` each raises. */
  function MigrateConfigDir(env: Env, fs: FileSystem, fromDir: Path, toDir: Path): Result<Migration, string> {
    Guard(env, fs, Resolve(fromDir, env.cwd), Resolve(toDir, env.cwd))
  }

  /** The guards, in order, on the resolved source `src` and target `dst`. */
  function Guard(env: Env, fs: FileSystem, src: Path, dst: Path): Result<Migration, string> {
    if src == dst then Success(NoMigration)
    else if src !in fs || !fs[src].DirNode? then Failure("Source config directory does not exist: " + ToText(src))
    else if IsSubpath(dst, src, env.cwd) || IsSubpath(src, dst, env.cwd) then Failure("Source/target directories overlap.")
    else
      var anchor := Resolve(env.anchor, env.cwd);
      if dst == anchor || IsSubpath(anchor, dst, env.cwd) then Failure("Target directory contains the application directory.")
      else if dst == Path(true, []) then Failure("Target directory is a filesystem root.")
      else if dst in fs then
        if !fs[dst].DirNode? then Failure("Target path exists and is not a directory.")
        else if HasAny(fs[dst]) && !LooksLikeConfigDir(fs, dst) then
          Failure("Target directory is not empty and does not look like an IntenseRP Next config directory.")
        else Success(CopyTree(src, dst, true))
      else Success(CopyTree(src, dst, false))
  }

  /** The same directory, once resolved, is not migrated. */
  lemma MigrateSameIsNoop(env: Env, fs: FileSystem, fromDir: Path, toDir: Path)
    requires Resolve(fromDir, env.cwd) == Resolve(toDir, env.cwd)
    ensures MigrateConfigDir(env, fs, fromDir, toDir) == Success(NoMigration)
  {
  }

  /** All the checks a copy must pass, on the resolved source and target. */
  predicate Safe(env: Env, fs: FileSystem, src: Path, dst: Path) {
    var anchor := Resolve(env.anchor, env.cwd);
    && src in fs && fs[src].DirNode?
    && !Within(dst, src) && !Within(src, dst)
    && !Within(anchor, dst)
    && dst.parts != []
    && (dst in fs ==> fs[dst].DirNode? && (!HasAny(fs[dst]) || LooksLikeConfigDir(fs, dst)))
  }

  /**
   * A migration copies exactly when the resolved directories differ and
   * pass every check: the source is a directory, neither contains the
   * other, the target neither is nor contains the app's directory, the
   * target is not a root, and an existing target is a directory that is
   * empty or looks like a config directory. The target is removed first
   * exactly when it exists.
   */
  lemma MigrateGuards(env: Env, fs: FileSystem, fromDir: Path, toDir: Path)
    requires WellFormed(fromDir) && WellFormed(toDir) && WellFormed(env.anchor) && WellFormed(env.cwd)
    ensures var src := Resolve(fromDir, env.cwd);
            var dst := Resolve(toDir, env.cwd);
            var r := MigrateConfigDir(env, fs, fromDir, toDir);
            && (r.Success? && r.value.CopyTree? <==> src != dst && Safe(env, fs, src, dst))
            && (r.Success? && r.value.CopyTree? ==> r.value == CopyTree(src, dst, dst in fs))
  {
    ResolveNormal(fromDir, env.cwd);
    ResolveNormal(toDir, env.cwd);
    ResolveNormal(env.anchor, env.cwd);
    GuardSafe(env, fs, Resolve(fromDir, env.cwd), Resolve(toDir, env.cwd));
  }

  lemma GuardSafe(env: Env, fs: FileSystem, src: Path, dst: Path)
    requires Normal(src) && Normal(dst) && Normal(Resolve(env.anchor, env.cwd))
    ensures var r := Guard(env, fs, src, dst);
            && (r.Success? && r.value.CopyTree? <==> src != dst && Safe(env, fs, src, dst))
            && (r.Success? && r.value.CopyTree? ==> r.value == CopyTree(src, dst, dst in fs))
  {
    var anchor := Resolve(env.anchor, env.cwd);
    ResolveOfNormal(src, env.cwd);
    ResolveOfNormal(dst, env.cwd);
    ResolveOfNormal(anchor, env.cwd);
    WithinOrder(anchor, dst, dst);
  }

}
