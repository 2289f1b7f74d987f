/** The parts of `pathlib` and of the POSIX file system that the program relies on:
    paths built from strings, joined with `/`, resolved against the working directory,
    and a directory tree in which `mkdir(parents=True, exist_ok=True)` and
    `write_bytes` make their changes. */
module FileSystem {
  import opened Results
  import opened Seqs

  type Bytes = seq<bv8>

  /** A path component as `pathlib` keeps it: never empty, never ".", never containing a slash. */
  predicate IsName(c: string)
  {
    c != "" && c != "." && '/' !in c
  }

  type Name = c: string | IsName(c) witness "_"

  /** A pure path: anchored at the root or relative, and its components. */
  datatype Path = Path(absolute: bool, parts: seq<Name>)

  const Root: Path := Path(true, [])

  /** An absolute path without ".." components: what `Path.resolve()` produces. */
  predicate Normal(p: Path)
  {
    p.absolute && forall i :: 0 <= i < |p.parts| ==> p.parts[i] != ".."
  }

  type Location = p: Path | Normal(p) witness Root

  // ---------------------------------------------------------------------------
  // From strings to paths and back

  /** `s.split('/')`. */
  function SplitOnSlash(s: string): (r: seq<string>)
    ensures |r| >= 1
    ensures forall i :: 0 <= i < |r| ==> '/' !in r[i]
    decreases |s|
  {
    if s == [] then [""]
    else
      var rest := SplitOnSlash(s[1..]);
      if s[0] == '/' then [""] + rest
      else [[s[0]] + rest[0]] + rest[1..]
  }

  /** `Path(s)`: a leading slash anchors the path; empty and "." components are dropped. */
  function Parse(s: string): (p: Path)
    ensures p.absolute <==> |s| > 0 && s[0] == '/'
  {
    Path(|s| > 0 && s[0] == '/', Filter(SplitOnSlash(s), IsName))
  }

  function JoinWithSlash(parts: seq<string>): string
    decreases |parts|
  {
    if parts == [] then ""
    else if |parts| == 1 then parts[0]
    else parts[0] + "/" + JoinWithSlash(parts[1..])
  }

  /** `str(p)`. */
  function Render(p: Path): string
  {
    if p.absolute then "/" + JoinWithSlash(p.parts)
    else if p.parts == [] then "."
    else JoinWithSlash(p.parts)
  }

  lemma {:induction false} SplitWithoutSlash(c: string)
    requires '/' !in c
    ensures SplitOnSlash(c) == [c]
    decreases |c|
  {
    if c != [] {
      SplitWithoutSlash(c[1..]);
      assert c == [c[0]] + c[1..];
    }
  }

  lemma {:induction false} SplitAtFirstSlash(c: string, rest: string)
    requires '/' !in c
    ensures SplitOnSlash(c + "/" + rest) == [c] + SplitOnSlash(rest)
    decreases |c|
  {
    if c == [] {
      assert c + "/" + rest == "/" + rest;
      assert ("/" + rest)[1..] == rest;
    } else {
      assert (c + "/" + rest)[1..] == c[1..] + "/" + rest;
      SplitAtFirstSlash(c[1..], rest);
      assert c == [c[0]] + c[1..];
    }
  }

  lemma {:induction false} SplitJoin(parts: seq<Name>)
    requires parts != []
    ensures SplitOnSlash(JoinWithSlash(parts)) == parts
    decreases |parts|
  {
    if |parts| == 1 {
      SplitWithoutSlash(parts[0]);
    } else {
      SplitAtFirstSlash(parts[0], JoinWithSlash(parts[1..]));
      SplitJoin(parts[1..]);
      assert parts == [parts[0]] + parts[1..];
    }
  }

  /** Rendering a path and parsing the string gives back the same path. */
  lemma ParseRender(p: Path)
    ensures Parse(Render(p)) == p
  {
    var s := Render(p);
    if p.parts == [] {
      if p.absolute {
        assert s == "/" && SplitOnSlash(s) == ["", ""];
      } else {
        SplitWithoutSlash(".");
      }
    } else {
      SplitJoin(p.parts);
      var names: seq<string> := p.parts;
      assert forall i :: 0 <= i < |names| ==> IsName(names[i]);
      FilterKeepsAll(names, IsName);
      if p.absolute {
        assert s == "/" + JoinWithSlash(p.parts);
        assert s[1..] == JoinWithSlash(p.parts);
        assert SplitOnSlash(s) == [""] + p.parts;
      } else {
        var first := JoinWithSlash(p.parts);
        JoinStartsWithFirst(p.parts);
        assert s[0] == p.parts[0][0];
      }
      assert Filter(SplitOnSlash(s), IsName) == p.parts;
    }
  }

  lemma {:induction false} JoinStartsWithFirst(parts: seq<Name>)
    requires parts != []
    ensures |JoinWithSlash(parts)| > 0 && JoinWithSlash(parts)[0] == parts[0][0]
  {
  }

  // ---------------------------------------------------------------------------
  // Joining and resolving

  /** `p / q`: an absolute right operand replaces the left one. */
  function Join(p: Path, q: Path): (r: Path)
  {
    if q.absolute then q else Path(p.absolute, p.parts + q.parts)
  }

  /** `p / name` for a string operand. */
  function Child(p: Path, name: string): Path
  {
    Join(p, Parse(name))
  }

  function Parent(q: Path): Path
    requires q.parts != []
  {
    Path(q.absolute, q.parts[..|q.parts| - 1])
  }

  /** Lexical handling of "..": each one removes the component before it, and stops at the root. */
  function Collapse(parts: seq<Name>): (r: seq<Name>)
    ensures forall i :: 0 <= i < |r| ==> r[i] != ".."
    ensures |r| <= |parts|
    decreases |parts|
  {
    if parts == [] then []
    else
      var init := Collapse(parts[..|parts| - 1]);
      var last := parts[|parts| - 1];
      if last == ".." then (if init == [] then [] else init[..|init| - 1])
      else init + [last]
  }

  lemma {:induction false} CollapseNormal(parts: seq<Name>)
    requires forall i :: 0 <= i < |parts| ==> parts[i] != ".."
    ensures Collapse(parts) == parts
    decreases |parts|
  {
    if parts != [] {
      CollapseNormal(parts[..|parts| - 1]);
    }
  }

  /** Collapsing only removes components: every component left comes from the path. */
  lemma {:induction false} CollapseKeepsComponents(parts: seq<Name>)
    ensures forall i :: 0 <= i < |Collapse(parts)| ==> Collapse(parts)[i] in parts
    decreases |parts|
  {
    if parts != [] {
      var init := parts[..|parts| - 1];
      CollapseKeepsComponents(init);
      assert forall x :: x in init ==> x in parts;
    }
  }

  /** One more component: ".." removes the last collapsed component, if any; any other is appended. */
  lemma CollapseSnoc(parts: seq<Name>, last: Name)
    ensures last != ".." ==> Collapse(parts + [last]) == Collapse(parts) + [last]
    ensures last == ".." ==>
      Collapse(parts + [last]) == (if Collapse(parts) == [] then [] else Collapse(parts)[..|Collapse(parts)| - 1])
  {
    assert (parts + [last])[..|parts|] == parts;
  }

  /** Components without ".." are appended unchanged after the collapsed prefix. */
  lemma {:induction false} CollapseAppend(a: seq<Name>, b: seq<Name>)
    requires forall i :: 0 <= i < |b| ==> b[i] != ".."
    ensures Collapse(a + b) == Collapse(a) + b
    decreases |b|
  {
    if b == [] {
      assert a + b == a;
    } else {
      var init, last := b[..|b| - 1], b[|b| - 1];
      assert forall i :: 0 <= i < |init| ==> init[i] == b[i];
      CollapseAppend(a, init);
      assert a + b == (a + init) + [last];
      CollapseSnoc(a + init, last);
    }
  }

  /** Collapsing a prefix first does not change the outcome: ".." is handled left to right. */
  lemma {:induction false} CollapseConcat(a: seq<Name>, b: seq<Name>)
    ensures Collapse(a + b) == Collapse(Collapse(a) + b)
    decreases |b|
  {
    if b == [] {
      assert a + b == a;
      assert Collapse(a) + b == Collapse(a);
      CollapseNormal(Collapse(a));
    } else {
      var init, last := b[..|b| - 1], b[|b| - 1];
      CollapseConcat(a, init);
      assert a + b == (a + init) + [last];
      assert Collapse(a) + b == (Collapse(a) + init) + [last];
      CollapseSnoc(a + init, last);
      CollapseSnoc(Collapse(a) + init, last);
    }
  }

  /** `p.resolve()` from the working directory `cwd`, for a tree without symbolic links. */
  function Resolve(cwd: Location, p: Path): (r: Location)
  {
    Path(true, Collapse(Join(cwd, p).parts))
  }

  /** A resolved path resolves to itself, from any working directory. */
  lemma ResolveLocation(cwd: Location, p: Location)
    ensures Resolve(cwd, p) == p
  {
    CollapseNormal(p.parts);
  }

  /** A relative name without ".." resolves to a path strictly inside the resolved directory. */
  lemma ResolveChild(cwd: Location, dir: Path, name: string)
    requires !Parse(name).absolute
    requires forall i :: 0 <= i < |Parse(name).parts| ==> Parse(name).parts[i] != ".."
    ensures Resolve(cwd, Child(dir, name)) == Path(true, Resolve(cwd, dir).parts + Parse(name).parts)
  {
    var n := Parse(name).parts;
    var base := Join(cwd, dir);
    assert Child(dir, name) == Path(dir.absolute, dir.parts + n);
    assert Join(cwd, Child(dir, name)).parts == base.parts + n by {
      if !dir.absolute {
        assert cwd.parts + (dir.parts + n) == (cwd.parts + dir.parts) + n;
      }
    }
    CollapseAppend(base.parts, n);
  }

  /** Joining to a directory and resolving gives the same location as joining to the
      directory's own resolved location. */
  lemma ResolveJoinResolved(cwd: Location, dir: Path, p: Path)
    ensures Resolve(cwd, Join(dir, p)) == Resolve(cwd, Join(Resolve(cwd, dir), p))
  {
    if !p.absolute {
      var base := Join(cwd, dir);
      assert Join(cwd, Join(dir, p)).parts == base.parts + p.parts by {
        if !dir.absolute {
          assert cwd.parts + (dir.parts + p.parts) == (cwd.parts + dir.parts) + p.parts;
        }
      }
      CollapseConcat(base.parts, p.parts);
    }
  }

  /** Resolving twice is resolving once. */
  lemma ResolveIdempotent(cwd: Location, p: Path)
    ensures Resolve(cwd, Resolve(cwd, p)) == Resolve(cwd, p)
  {
    ResolveLocation(cwd, Resolve(cwd, p));
  }

  // ---------------------------------------------------------------------------
  // The directory tree

  datatype Node = Dir | File(data: Bytes)

  /** The file system, keyed by resolved path. */
  type Tree = map<Path, Node>

  datatype FsError = FileExists | NotADirectory | FileNotFound | IsADirectory

  predicate IsDir(t: Tree, p: Path)
  {
    p in t && t[p] == Dir
  }

  /** The tree after an operation: the new tree if it succeeded, the old one if it raised. */
  function After(t: Tree, r: Result<Tree, FsError>): Tree
  {
    if r.Ok? then r.value else t
  }

  function StatusOf(r: Result<Tree, FsError>): Outcome<FsError>
  {
    if r.Ok? then Pass else Fail(r.error)
  }

  /** The first `k` components of `q`: an ancestor of `q`, or `q` itself when `k == |q.parts|`. */
  function Prefix(q: Path, k: nat): Path
    requires k <= |q.parts|
  {
    Path(q.absolute, q.parts[..k])
  }

  /** `x` is `q` or one of its ancestors other than the root. */
  predicate OnPathTo(x: Path, q: Path)
  {
    exists k :: 0 < k <= |q.parts| && x == Prefix(q, k)
  }

  /** Climbing from `Prefix(q, k)` towards the root, the first ancestor that exists. */
  function Deepest(t: Tree, q: Path, k: nat): (m: nat)
    requires k <= |q.parts| && Prefix(q, 0) in t
    ensures m <= k && Prefix(q, m) in t
    ensures forall j :: m < j <= k ==> Prefix(q, j) !in t
    decreases k
  {
    if Prefix(q, k) in t then k else Deepest(t, q, k - 1)
  }

  /** The ancestors-or-self of `q` strictly deeper than `lo` and at most `hi` components long. */
  function Between(q: Path, lo: nat, hi: nat): set<Path>
  {
    set j: nat | lo < j <= hi && j <= |q.parts| :: Prefix(q, j)
  }

  /** `t` with every path of `ds` that it lacks added as a directory. */
  function WithDirs(t: Tree, ds: set<Path>): Tree
  {
    map x | x in t.Keys + ds :: if x in t then t[x] else Dir
  }

  /** `q.mkdir(parents=True, exist_ok=True)` for a resolved `q`: climb to the deepest existing
      ancestor; if it is a file, raise; otherwise create every missing directory below it. */
  function MakeDirsResult(t: Tree, q: Location): (r: Result<Tree, FsError>)
    requires IsDir(t, Root)
    ensures r.Ok? ==> IsDir(r.value, q)
    ensures r.Ok? ==> forall x :: x in t ==> x in r.value && r.value[x] == t[x]
    ensures r.Ok? ==> forall x :: x in r.value && x !in t ==>
      r.value[x] == Dir && OnPathTo(x, q)
    ensures r.Err? ==> exists k :: 0 <= k <= |q.parts| && Prefix(q, k) in t && t[Prefix(q, k)].File?
    ensures (forall k :: 0 <= k <= |q.parts| && Prefix(q, k) in t ==> t[Prefix(q, k)] == Dir) ==> r.Ok?
    ensures r == Err(FileExists) <==> q in t && t[q].File?
  {
    assert Prefix(q, |q.parts|) == q;
    var m := Deepest(t, q, |q.parts|);
    if t[Prefix(q, m)].File? then
      Err(if m == |q.parts| then FileExists else NotADirectory)
    else
      var r := WithDirs(t, Between(q, m, |q.parts|));
      assert q in r;
      Ok(r)
  }

  /** An existing directory is not an error, and nothing changes. */
  lemma MakeDirsExisting(t: Tree, q: Location)
    requires IsDir(t, Root) && IsDir(t, q)
    ensures MakeDirsResult(t, q) == Ok(t)
  {
    assert Prefix(q, |q.parts|) == q;
    assert Between(q, |q.parts|, |q.parts|) == {};
    assert WithDirs(t, {}) == t;
  }

  /** Creating the same directory a second time succeeds and changes nothing. */
  lemma MakeDirsIdempotent(t: Tree, q: Location)
    requires IsDir(t, Root) && MakeDirsResult(t, q).Ok?
    ensures MakeDirsResult(MakeDirsResult(t, q).value, q) == MakeDirsResult(t, q)
  {
    MakeDirsExisting(MakeDirsResult(t, q).value, q);
  }

  /** Every entry other than the root sits in a directory of the tree. */
  predicate Closed(t: Tree)
  {
    forall x :: x in t && x.parts != [] ==> IsDir(t, Parent(x))
  }

  /** Adding the missing levels of `q` below an existing directory `Prefix(q, m)` keeps every
      entry inside a directory: each new level sits in the level above it. */
  lemma AddLevelsKeepsClosed(t: Tree, q: Path, m: nat)
    requires m <= |q.parts| && Closed(t) && IsDir(t, Prefix(q, m))
    requires forall j :: m < j <= |q.parts| ==> Prefix(q, j) !in t
    ensures Closed(WithDirs(t, Between(q, m, |q.parts|)))
  {
    var r := WithDirs(t, Between(q, m, |q.parts|));
    forall x | x in r && x.parts != []
      ensures IsDir(r, Parent(x))
    {
      if x !in t {
        var j: nat :| m < j <= |q.parts| && x == Prefix(q, j);
        assert Parent(x) == Prefix(q, j - 1);
        if j - 1 > m {
          assert Prefix(q, j - 1) in Between(q, m, |q.parts|);
        }
      }
    }
  }

  /** Creating directories keeps every entry inside a directory. */
  lemma MakeDirsKeepsClosed(t: Tree, q: Location)
    requires IsDir(t, Root) && Closed(t) && MakeDirsResult(t, q).Ok?
    ensures Closed(MakeDirsResult(t, q).value)
  {
    assert Prefix(q, |q.parts|) == q;
    var m := Deepest(t, q, |q.parts|);
    AddLevelsKeepsClosed(t, q, m);
  }

  /** Every proper ancestor of `q` from the `j`-th one down to its parent is a directory. */
  predicate AncestorsAreDirs(t: Tree, q: Path, j: nat)
  {
    forall i :: j <= i < |q.parts| ==> IsDir(t, Prefix(q, i))
  }

  /** Walking down from `Prefix(q, j)` to the parent of `q`, as path lookup does: the first
      ancestor that is missing raises `FileNotFoundError`, the first that is a file raises
      `NotADirectoryError`. */
  function WalkError(t: Tree, q: Path, j: nat): (e: Option<FsError>)
    requires j <= |q.parts|
    ensures e.None? <==> AncestorsAreDirs(t, q, j)
    ensures e.Some? ==> e.value == FileNotFound || e.value == NotADirectory
    decreases |q.parts| - j
  {
    if j == |q.parts| then None
    else if Prefix(q, j) !in t then Some(FileNotFound)
    else if t[Prefix(q, j)].File? then Some(NotADirectory)
    else WalkError(t, q, j + 1)
  }

  /** The walk stops at the first ancestor that is not a directory: its error is the walk's. */
  lemma {:induction false} WalkErrorAt(t: Tree, q: Path, j: nat, k: nat)
    requires j <= k < |q.parts|
    requires forall i :: j <= i < k ==> IsDir(t, Prefix(q, i))
    requires !IsDir(t, Prefix(q, k))
    ensures WalkError(t, q, j) == Some(if Prefix(q, k) in t then NotADirectory else FileNotFound)
    decreases k - j
  {
    if j < k {
      WalkErrorAt(t, q, j + 1, k);
    }
  }

  /** Opening `q` for writing and writing `data`: every ancestor must be a directory, and `q`
      must not be one. */
  function WriteResult(t: Tree, q: Path, data: Bytes): (r: Result<Tree, FsError>)
    ensures r.Ok? <==> q.parts != [] && AncestorsAreDirs(t, q, 0) && !IsDir(t, q)
    ensures r.Ok? ==> r.value.Keys == t.Keys + {q} && r.value[q] == File(data)
    ensures r.Ok? ==> forall x :: x in t && x != q ==> r.value[x] == t[x]
    ensures r.Err? && q.parts != [] && !AncestorsAreDirs(t, q, 0) ==> r.error == WalkError(t, q, 0).value
    ensures r.Err? && AncestorsAreDirs(t, q, 0) ==> r.error == IsADirectory
  {
    if q.parts == [] then Err(IsADirectory)
    else
      var walk := WalkError(t, q, 0);
      if walk.Some? then Err(walk.value)
      else if IsDir(t, q) then Err(IsADirectory)
      else Ok(t[q := File(data)])
  }

  /** In a tree whose every entry sits in a directory, a write to an absolute path succeeds iff
      its parent is a directory and the path is not one, as POSIX checks only the parent then. */
  lemma {:induction false} WriteInClosedTree(t: Tree, q: Path, data: Bytes)
    requires Closed(t) && IsDir(t, Root) && q.absolute && q.parts != []
    ensures WriteResult(t, q, data).Ok? <==> IsDir(t, Parent(q)) && !IsDir(t, q)
  {
    assert Prefix(q, |q.parts| - 1) == Parent(q);
    if IsDir(t, Parent(q)) {
      AncestorDirs(t, q, |q.parts| - 1);
    }
  }

  /** In a closed tree, the ancestors of a directory are directories. */
  lemma {:induction false} AncestorDirs(t: Tree, q: Path, k: nat)
    requires Closed(t) && IsDir(t, Root) && q.absolute && k < |q.parts| && IsDir(t, Prefix(q, k))
    ensures forall i :: 0 <= i <= k ==> IsDir(t, Prefix(q, i))
    decreases k
  {
    if k > 0 {
      assert Parent(Prefix(q, k)) == Prefix(q, k - 1);
      AncestorDirs(t, q, k - 1);
    } else {
      assert Prefix(q, 0) == Root;
    }
  }

  /** Writing a file keeps every entry inside a directory: the file's parent is one. */
  lemma WriteKeepsClosed(t: Tree, q: Path, data: Bytes)
    requires Closed(t) && WriteResult(t, q, data).Ok?
    ensures Closed(WriteResult(t, q, data).value)
  {
    var r := WriteResult(t, q, data).value;
    forall x | x in r && x.parts != []
      ensures IsDir(r, Parent(x))
    {
      if x != q {
        assert IsDir(t, Parent(x));
        assert Parent(x) != q;
      } else {
        assert Parent(q) == Prefix(q, |q.parts| - 1);
      }
    }
  }

  /** The file system as one process sees it: its working directory and the tree. */
  class Disk {
    const cwd: Location
    var tree: Tree

    /** The root is a directory, and every other entry sits in a directory. */
    predicate Valid()
      reads this
    {
      IsDir(tree, Root) && Closed(tree)
    }

    constructor (cwd: Location, tree: Tree)
      requires IsDir(tree, Root) && Closed(tree)
      ensures Valid() && this.cwd == cwd && this.tree == tree
    {
      this.cwd := cwd;
      this.tree := tree;
    }

    /** `mkdir` raises `FileNotFoundError` while the parent is missing: climb from `q` one level
        at a time to the deepest ancestor that exists. */
    method ClimbToExisting(q: Path) returns (m: nat)
      requires IsDir(tree, Root) && q.absolute
      ensures m == Deepest(tree, q, |q.parts|)
    {
      m := |q.parts|;
      while Prefix(q, m) !in tree
        invariant m <= |q.parts|
        invariant forall j :: m < j <= |q.parts| ==> Prefix(q, j) !in tree
        decreases m
      {
        assert Prefix(q, 0) == Root;
        m := m - 1;
      }
    }

    /** Then create the missing levels below `Prefix(q, m)` on the way back down. */
    method AddMissingLevels(q: Path, m: nat)
      requires m <= |q.parts|
      requires forall j :: m < j <= |q.parts| ==> Prefix(q, j) !in tree
      modifies this
      ensures tree == WithDirs(old(tree), Between(q, m, |q.parts|))
    {
      var k := m + 1;
      while k <= |q.parts|
        invariant m < k <= |q.parts| + 1
        invariant tree == WithDirs(old(tree), Between(q, m, k - 1))
      {
        assert Prefix(q, k) !in old(tree);
        assert Between(q, m, k) == Between(q, m, k - 1) + {Prefix(q, k)};
        tree := tree[Prefix(q, k) := Dir];
        k := k + 1;
      }
    }

    /** `Path(p).mkdir(parents=True, exist_ok=True)`. */
    method MakeDirs(p: Path) returns (r: Outcome<FsError>)
      requires Valid()
      modifies this
      ensures Valid()
      ensures r == StatusOf(MakeDirsResult(old(tree), Resolve(cwd, p)))
      ensures tree == After(old(tree), MakeDirsResult(old(tree), Resolve(cwd, p)))
    {
      var q := Resolve(cwd, p);
      assert Prefix(q, |q.parts|) == q;
      var m := ClimbToExisting(q);
      if tree[Prefix(q, m)].File? {
        r := Fail(if m == |q.parts| then FileExists else NotADirectory);
        return;
      }
      AddMissingLevels(q, m);
      MakeDirsKeepsClosed(old(tree), q);
      r := Pass;
    }

    /** `Path(p).write_bytes(data)`. */
    method WriteBytes(p: Path, data: Bytes) returns (r: Outcome<FsError>)
      requires Valid()
      modifies this
      ensures Valid()
      ensures r == StatusOf(WriteResult(old(tree), Resolve(cwd, p), data))
      ensures tree == After(old(tree), WriteResult(old(tree), Resolve(cwd, p), data))
    {
      var q := Resolve(cwd, p);
      var w := WriteResult(tree, q, data);
      if w.Ok? {
        WriteKeepsClosed(tree, q, data);
        tree := w.value;
        r := Pass;
      } else {
        r := Fail(w.error);
      }
    }
  }
}
