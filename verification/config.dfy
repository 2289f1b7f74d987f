/** A profile's configuration: the search filter, where messages go, and what is stored
    for each of them, read from `config.yaml` in the profile directory. */
module Config {
  import opened Results
  import opened FileSystem

  datatype ProfileConfig = ProfileConfig(filter: string, targetDirectory: string, mode: string)

  /** The two accepted storage modes. */
  predicate IsMode(mode: string)
  {
    mode == "full" || mode == "attachments_only"
  }

  /** The mode of a configuration that names none. */
  const DefaultMode: string := "full"

  const ConfigFileName: Name := "config.yaml"

  /** Why a configuration could not be loaded: the exception `load_config` raises. */
  datatype ConfigError =
    | ConfigNotFound(path: Path)   // FileNotFoundError: no config.yaml
    | Unreadable(error: FsError)   // open() failed: config.yaml is a directory
    | BadArguments                 // TypeError: the document does not fit ProfileConfig(**data)
    | InvalidMode(mode: string)    // ValueError from __post_init__

  /** `ProfileConfig(filter, target_directory[, mode])`: the constructor's mode check. */
  function NewProfileConfig(filter: string, targetDirectory: string, mode: Option<string>): (r: Result<ProfileConfig, ConfigError>)
    ensures r.Ok? ==> IsMode(r.value.mode)
    ensures r.Ok? ==> r.value.filter == filter && r.value.targetDirectory == targetDirectory
    ensures mode.None? ==> r == Ok(ProfileConfig(filter, targetDirectory, DefaultMode))
    ensures mode.Some? ==> (r.Ok? <==> IsMode(mode.value))
    ensures mode.Some? && r.Ok? ==> r.value.mode == mode.value
    ensures r.Err? ==> mode.Some? && r.error == InvalidMode(mode.value)
  {
    var m := if mode.Some? then mode.value else DefaultMode;
    if IsMode(m) then Ok(ProfileConfig(filter, targetDirectory, m)) else Err(InvalidMode(m))
  }

  /** What `yaml.safe_load` gives for the file: a mapping of keys to strings, or anything else
      (a scalar, a list, or `None` for an empty file). */
  datatype YamlDoc = Mapping(fields: map<string, string>) | NotMapping

  /** The keyword arguments `ProfileConfig` accepts. */
  predicate IsField(key: string)
  {
    key == "filter" || key == "target_directory" || key == "mode"
  }

  /** `ProfileConfig(**data)`: the document must be a mapping with both required keys and
      no other key than the three fields; only then is the mode checked. */
  function FromDocument(doc: YamlDoc): (r: Result<ProfileConfig, ConfigError>)
    ensures doc.NotMapping? ==> r == Err(BadArguments)
    ensures doc.Mapping? && (exists key :: key in doc.fields && !IsField(key)) ==> r == Err(BadArguments)
    ensures doc.Mapping? && ("filter" !in doc.fields || "target_directory" !in doc.fields) ==> r == Err(BadArguments)
    ensures r.Ok? ==> doc.Mapping? && "filter" in doc.fields && "target_directory" in doc.fields
    ensures r.Ok? ==> r.value.filter == doc.fields["filter"] && r.value.targetDirectory == doc.fields["target_directory"]
    ensures r.Ok? ==> r.value.mode == (if "mode" in doc.fields then doc.fields["mode"] else DefaultMode)
    ensures r.Ok? ==> IsMode(r.value.mode)
    ensures doc.Mapping? && (forall key :: key in doc.fields ==> IsField(key))
            && "filter" in doc.fields && "target_directory" in doc.fields ==>
      r == NewProfileConfig(doc.fields["filter"], doc.fields["target_directory"],
                            if "mode" in doc.fields then Some(doc.fields["mode"]) else None)
    ensures r.Err? && r.error.InvalidMode? ==>
      doc.Mapping? && "mode" in doc.fields && !IsMode(doc.fields["mode"]) && r.error.mode == doc.fields["mode"]
  {
    if doc.NotMapping? then Err(BadArguments)
    else if exists key :: key in doc.fields && !IsField(key) then Err(BadArguments)
    else if "filter" !in doc.fields || "target_directory" !in doc.fields then Err(BadArguments)
    else
      var mode := if "mode" in doc.fields then Some(doc.fields["mode"]) else None;
      NewProfileConfig(doc.fields["filter"], doc.fields["target_directory"], mode)
  }

  /** A configuration written out as a document with all three keys reads back as itself,
      and one without the `mode` key reads back in the default mode. */
  lemma {:induction false} FromDocumentRoundTrip(config: ProfileConfig)
    requires IsMode(config.mode)
    ensures FromDocument(Mapping(map["filter" := config.filter, "target_directory" := config.targetDirectory, "mode" := config.mode])) == Ok(config)
    ensures FromDocument(Mapping(map["filter" := config.filter, "target_directory" := config.targetDirectory])) == Ok(config.(mode := DefaultMode))
  {
    var full := map["filter" := config.filter, "target_directory" := config.targetDirectory, "mode" := config.mode];
    var short := map["filter" := config.filter, "target_directory" := config.targetDirectory];
    assert !exists key :: key in full && !IsField(key);
    assert !exists key :: key in short && !IsField(key);
  }

  /** Where `profile_dir / "config.yaml"` is, once resolved. */
  function ConfigPath(cwd: Location, profileDir: Path): Location
  {
    Resolve(cwd, Child(profileDir, ConfigFileName))
  }

  /** The `target_directory` a loaded configuration holds: an absolute target as written,
      a relative one joined to the profile directory, resolved, and turned back into a string. */
  function ResolvedTarget(cwd: Location, profileDir: Path, target: string): (s: string)
    ensures Parse(s).absolute
    ensures Parse(target).absolute ==> s == target
    ensures !Parse(target).absolute ==> Parse(s) == Resolve(cwd, Join(profileDir, Parse(target)))
  {
    if Parse(target).absolute then target
    else
      var resolved := Resolve(cwd, Join(profileDir, Parse(target)));
      ParseRender(resolved);
      Render(resolved)
  }

  /** A target already resolved is kept as it is: loading a configuration whose target a
      previous load produced changes nothing, from any profile directory. */
  lemma ResolvedTargetIdempotent(cwd: Location, profileDir: Path, otherDir: Path, target: string)
    ensures ResolvedTarget(cwd, otherDir, ResolvedTarget(cwd, profileDir, target)) == ResolvedTarget(cwd, profileDir, target)
  {
  }

  /** A relative target depends only on where the profile directory resolves to. */
  lemma ResolvedTargetFollowsProfile(cwd: Location, profileDir: Path, target: string)
    requires !Parse(target).absolute
    ensures Parse(ResolvedTarget(cwd, profileDir, target)) == Resolve(cwd, Join(Resolve(cwd, profileDir), Parse(target)))
  {
    ResolveJoinResolved(cwd, profileDir, Parse(target));
  }

  /** What `load_config(profile_dir)` returns, or the exception it raises: a missing
      `config.yaml` raises before anything is parsed, a directory cannot be opened, and a file
      gives the constructor's error or its configuration with the target resolved. */
  function ConfigOf(t: Tree, cwd: Location, profileDir: Path, parse: Bytes -> YamlDoc): (r: Result<ProfileConfig, ConfigError>)
    ensures ConfigPath(cwd, profileDir) !in t ==> r == Err(ConfigNotFound(Child(profileDir, ConfigFileName)))
    ensures IsDir(t, ConfigPath(cwd, profileDir)) ==> r == Err(Unreadable(IsADirectory))
    ensures ConfigPath(cwd, profileDir) in t && t[ConfigPath(cwd, profileDir)].File? ==>
      var given := FromDocument(parse(t[ConfigPath(cwd, profileDir)].data));
      && (given.Err? ==> r == Err(given.error))
      && (given.Ok? ==> r == Ok(given.value.(targetDirectory := ResolvedTarget(cwd, profileDir, given.value.targetDirectory))))
    ensures r.Ok? ==> ConfigPath(cwd, profileDir) in t && t[ConfigPath(cwd, profileDir)].File?
    ensures r.Ok? ==> IsMode(r.value.mode) && Parse(r.value.targetDirectory).absolute
  {
    var path := ConfigPath(cwd, profileDir);
    if path !in t then Err(ConfigNotFound(Child(profileDir, ConfigFileName)))
    else if t[path].Dir? then Err(Unreadable(IsADirectory))
    else
      var given := FromDocument(parse(t[path].data));
      if given.Err? then Err(given.error)
      else Ok(given.value.(targetDirectory := ResolvedTarget(cwd, profileDir, given.value.targetDirectory)))
  }

  /** `load_config(profile_dir)`. The document is what `yaml.safe_load` makes of the file's
      contents; the fresh configuration's target is then replaced when it is relative. */
  method LoadConfig(disk: Disk, profileDir: Path, parse: Bytes -> YamlDoc) returns (r: Result<ProfileConfig, ConfigError>)
    ensures r == ConfigOf(disk.tree, disk.cwd, profileDir, parse)
  {
    var configPath := Resolve(disk.cwd, Child(profileDir, ConfigFileName));
    if configPath !in disk.tree {
      return Err(ConfigNotFound(Child(profileDir, ConfigFileName)));
    }
    var node := disk.tree[configPath];
    if node.Dir? {
      return Err(Unreadable(IsADirectory));
    }
    var made := FromDocument(parse(node.data));
    if made.Err? {
      return Err(made.error);
    }
    var config := made.value;
    var target := Parse(config.targetDirectory);
    if !target.absolute {
      config := config.(targetDirectory := Render(Resolve(disk.cwd, Join(profileDir, target))));
    }
    r := Ok(config);
  }
}
