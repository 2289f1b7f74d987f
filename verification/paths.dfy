/** Where profiles live: the profiles directory (an override or the default under the home
    directory), the directory of one profile, and the list of available profiles. */
module ProfilePaths {
  import opened Results
  import opened Seqs
  import opened Order
  import opened FileSystem
  import opened Config

  /** `Path.home() / ".gmail-streamer" / "profiles"`; the home directory is taken as given. */
  function DefaultProfilesDir(home: Path): (p: Path)
    ensures p.absolute == home.absolute
    ensures p.parts == home.parts + [".gmail-streamer", "profiles"]
  {
    var base: Name := ".gmail-streamer";
    var profiles: Name := "profiles";
    Path(home.absolute, home.parts + [base, profiles])
  }

  /** `get_profiles_dir(override)`: a non-empty override, resolved, wins over the default. */
  function GetProfilesDir(cwd: Location, home: Path, override: Option<string>): (p: Path)
    ensures override.Some? && override.value != "" ==> p == Resolve(cwd, Parse(override.value)) && Normal(p)
    ensures override.None? || override.value == "" ==> p == DefaultProfilesDir(home)
  {
    if override.Some? && override.value != "" then Resolve(cwd, Parse(override.value))
    else DefaultProfilesDir(home)
  }

  /** Passing the directory an override produced back as the override gives the same directory,
      whatever the home and working directories are. */
  lemma OverrideStable(cwd: Location, otherCwd: Location, home: Path, otherHome: Path, override: string)
    requires override != ""
    ensures var dir := GetProfilesDir(cwd, home, Some(override));
      GetProfilesDir(otherCwd, otherHome, Some(Render(dir))) == dir
  {
    var dir := GetProfilesDir(cwd, home, Some(override));
    ParseRender(dir);
    assert Render(dir) != "" by {
      assert Render(dir)[0] == '/';
    }
    ResolveLocation(otherCwd, dir);
  }

  /** `resolve_profile(name, profiles_dir)`: a name that is an existing directory, seen from the
      working directory, is used directly and resolved; any other name is looked up in the
      profiles directory. */
  function ResolveProfile(tree: Tree, cwd: Location, name: string, profilesDir: Path): (p: Path)
    ensures IsDir(tree, Resolve(cwd, Parse(name))) ==> p == Resolve(cwd, Parse(name)) && IsDir(tree, p)
    ensures !IsDir(tree, Resolve(cwd, Parse(name))) ==> p == Child(profilesDir, name)
  {
    var candidate := Parse(name);
    if IsDir(tree, Resolve(cwd, candidate)) then Resolve(cwd, candidate)
    else Child(profilesDir, name)
  }

  /** A profile found as a directory is found again, unchanged, when named by its resolved path. */
  lemma ResolveProfileStable(tree: Tree, cwd: Location, name: string, profilesDir: Path)
    requires IsDir(tree, Resolve(cwd, Parse(name)))
    ensures var p := ResolveProfile(tree, cwd, name, profilesDir);
      ResolveProfile(tree, cwd, Render(p), profilesDir) == p
  {
    var p := ResolveProfile(tree, cwd, name, profilesDir);
    ParseRender(p);
    ResolveLocation(cwd, p);
  }

  /** `name` is a directory directly inside `dir` that holds a `config.yaml`. */
  predicate IsProfile(tree: Tree, dir: Location, name: string)
  {
    && IsName(name) && name != ".."
    && IsDir(tree, Path(true, dir.parts + [name]))
    && Path(true, dir.parts + [name, ConfigFileName]) in tree
  }

  /** Every component of every path in the tree: the names `iterdir` can yield. */
  function Components(tree: Tree): set<string>
  {
    set x, i | x in tree && 0 <= i < |x.parts| :: x.parts[i]
  }

  /** The names of the profiles directly inside `dir`. */
  function ProfileNames(tree: Tree, dir: Location): (names: set<string>)
    ensures forall n :: n in names <==> IsProfile(tree, dir, n)
  {
    var names := set n | n in Components(tree) && IsProfile(tree, dir, n);
    forall n | IsProfile(tree, dir, n)
      ensures n in names
    {
      var x := Path(true, dir.parts + [n]);
      assert x.parts[|dir.parts|] == n;
    }
    names
  }

  /** `list_profiles(profiles_dir)`: nothing when the directory does not exist; otherwise the
      names of its subdirectories that hold a `config.yaml`, sorted. */
  function ListProfiles(tree: Tree, cwd: Location, profilesDir: Path): (r: seq<string>)
    ensures !IsDir(tree, Resolve(cwd, profilesDir)) ==> r == []
    ensures StrictlyAscending(r)
    ensures forall i :: 0 <= i < |r| ==> IsProfile(tree, Resolve(cwd, profilesDir), r[i])
  {
    var dir := Resolve(cwd, profilesDir);
    if !IsDir(tree, dir) then []
    else
      var r := SortedNames(ProfileNames(tree, dir));
      assert forall i :: 0 <= i < |r| ==> r[i] in Elements(r);
      r
  }

  /** Every profile inside an existing profiles directory is listed, exactly once. */
  lemma ListProfilesComplete(tree: Tree, cwd: Location, profilesDir: Path, name: string)
    requires IsDir(tree, Resolve(cwd, profilesDir))
    requires IsProfile(tree, Resolve(cwd, profilesDir), name)
    ensures name in ListProfiles(tree, cwd, profilesDir)
    ensures forall i, j :: 0 <= i < j < |ListProfiles(tree, cwd, profilesDir)| ==>
      ListProfiles(tree, cwd, profilesDir)[i] != ListProfiles(tree, cwd, profilesDir)[j]
  {
    var r := ListProfiles(tree, cwd, profilesDir);
    assert name in Elements(r);
    forall i, j | 0 <= i < j < |r|
      ensures r[i] != r[j]
    {
      AscendingIncreasing(r, i, j);
      if r[i] == r[j] {
        BelowIrreflexive(r[i]);
      }
    }
  }
}
