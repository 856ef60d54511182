/** The DLL search-directory plan of backend/cuda_setup.py: the `add_dir`
    closure of `_register_dll_directories` with its `dirs` list and `seen`
    set, the order in which directories are offered to it, the registration
    loop that also prepends every directory to PATH, and the PATH rewrite of
    `_prepare_torch_environment`. The filesystem is an input: the set of
    paths that are existing directories and the results of the directory
    walks. */
module SearchPaths {
  import opened Wrappers
  import opened Text

  /** `os.pathsep` on Windows. */
  const PathSep: char := ';'

  /** `str(p / name)` on Windows. */
  function Sub(p: string, name: string): string { p + "\\" + name }

  predicate NoDuplicates(s: seq<string>)
  {
    forall i, j | 0 <= i < j < |s| :: s[i] != s[j]
  }

  predicate EndsWith(s: string, suffix: string)
  {
    |suffix| <= |s| && s[|s| - |suffix|..] == suffix
  }

  // ---------------------------------------------------------------------
  // add_dir: admit an existing directory the first time it is offered
  // ---------------------------------------------------------------------

  /** `dirs` after `add_dir(path)`, where `existing` are the paths for which
      `is_dir()` holds. */
  function Admit(dirs: seq<string>, path: string, existing: set<string>): seq<string>
  {
    if path in existing && path !in dirs then dirs + [path] else dirs
  }

  /** `dirs` after offering `offered` to `add_dir` in turn. */
  function AdmitAll(offered: seq<string>, existing: set<string>): seq<string>
  {
    if offered == [] then []
    else Admit(AdmitAll(offered[..|offered| - 1], existing), offered[|offered| - 1], existing)
  }

  lemma AdmitAllSnoc(offered: seq<string>, path: string, existing: set<string>)
    ensures AdmitAll(offered + [path], existing) == Admit(AdmitAll(offered, existing), path, existing)
  {
    assert (offered + [path])[..|offered|] == offered;
  }

  /** The state `add_dir` closes over. `offered` records every call. */
  class SearchDirectories {
    var dirs: seq<string>
    var seen: set<string>
    ghost var offered: seq<string>
    const existing: set<string>

    ghost predicate Valid()
      reads this
    {
      && seen == (set d | d in dirs)
      && dirs == AdmitAll(offered, existing)
    }

    constructor (existing: set<string>)
      ensures Valid() && this.existing == existing
      ensures dirs == [] && offered == []
    {
      this.existing := existing;
      dirs, seen, offered := [], {}, [];
    }

    /** `add_dir(path)`. */
    method AddDir(path: string)
      requires Valid()
      modifies this
      ensures Valid()
      ensures offered == old(offered) + [path]
      ensures dirs == Admit(old(dirs), path, existing)
    {
      if path in existing {
        if path !in seen {
          seen := seen + {path};
          dirs := dirs + [path];
        }
      }
      AdmitAllSnoc(offered, path, existing);
      offered := offered + [path];
    }

    /** `add_dir` on each path of `paths`, in order. */
    method AddEach(paths: seq<string>)
      requires Valid()
      modifies this
      ensures Valid()
      ensures offered == old(offered) + paths
    {
      for i := 0 to |paths|
        invariant Valid()
        invariant offered == old(offered) + paths[..i]
      {
        assert paths[..i + 1] == paths[..i] + [paths[i]];
        AddDir(paths[i]);
      }
      assert paths[..|paths|] == paths;
    }

    /** One `nvidia/<pkg>` directory: itself, its `lib` and `bin`, then the
        directories holding a DLL below it. */
    method AddNvidiaPackage(pkg: Package)
      requires Valid()
      modifies this
      ensures Valid()
      ensures offered == old(offered) + PackageCandidates(pkg)
    {
      AddDir(pkg.path);
      AddDir(Sub(pkg.path, "lib"));
      AddDir(Sub(pkg.path, "bin"));
      AddEach(pkg.dllDirs);
    }

    /** The `nvidia_root.iterdir()` loop; an entry that is not a directory is
        skipped. */
    method AddNvidiaPackages(packages: seq<Package>)
      requires Valid()
      modifies this
      ensures Valid()
      ensures offered == old(offered) + NvidiaCandidates(packages, existing)
    {
      ghost var isDir := existing;
      for i := 0 to |packages|
        invariant Valid()
        invariant offered == old(offered) + NvidiaCandidates(packages[..i], isDir)
      {
        NvidiaCandidatesSnoc(packages, i, isDir);
        if packages[i].path in existing {
          AddNvidiaPackage(packages[i]);
        }
      }
      assert packages[..|packages|] == packages;
    }

    /** One system CUDA installation: `bin`, `lib\x64`, `libnvvp`, then the
        directories holding a DLL below it. */
    method AddCudaInstall(cuda: Package)
      requires Valid()
      modifies this
      ensures Valid()
      ensures offered == old(offered) + CudaInstallCandidates(cuda)
    {
      AddDir(Sub(cuda.path, "bin"));
      AddDir(Sub(Sub(cuda.path, "lib"), "x64"));
      AddDir(Sub(cuda.path, "libnvvp"));
      AddEach(cuda.dllDirs);
    }

    /** The `_find_system_cuda_paths()` loop. */
    method AddCudaInstalls(installs: seq<Package>)
      requires Valid()
      modifies this
      ensures Valid()
      ensures offered == old(offered) + CudaCandidates(installs)
    {
      for i := 0 to |installs|
        invariant Valid()
        invariant offered == old(offered) + CudaCandidates(installs[..i])
      {
        assert installs[..i + 1][..i] == installs[..i];
        assert CudaCandidates(installs[..i + 1]) == CudaCandidates(installs[..i]) + CudaInstallCandidates(installs[i]);
        AddCudaInstall(installs[i]);
      }
      assert installs[..|installs|] == installs;
    }
  }

  /** A directory found by a walk, with the directories below it that hold
      at least one `.dll` (the `rglob("*")` results that pass the filter). */
  datatype Package = Package(path: string, dllDirs: seq<string>)

  /** What the directory walks of `_register_dll_directories` find. */
  datatype Discovery = Discovery(
    meipass: Option<string>,      // sys._MEIPASS when frozen
    exeDir: string,               // Path(sys.executable).parent
    torchDllDirs: seq<string>,    // DLL directories below base\torch
    nvidiaEntries: seq<Package>,  // base\nvidia.iterdir()
    cudaInstalls: seq<Package>,   // _find_system_cuda_paths()
    driverPaths: seq<string>)     // _find_nvidia_driver_paths()

  function PackageCandidates(pkg: Package): seq<string>
  {
    [pkg.path, Sub(pkg.path, "lib"), Sub(pkg.path, "bin")] + pkg.dllDirs
  }

  function NvidiaCandidates(packages: seq<Package>, existing: set<string>): seq<string>
  {
    if packages == [] then []
    else
      var pkg := packages[|packages| - 1];
      NvidiaCandidates(packages[..|packages| - 1], existing) + (if pkg.path in existing then PackageCandidates(pkg) else [])
  }

  lemma NvidiaCandidatesSnoc(packages: seq<Package>, i: nat, existing: set<string>)
    requires i < |packages|
    ensures NvidiaCandidates(packages[..i + 1], existing)
      == NvidiaCandidates(packages[..i], existing) + (if packages[i].path in existing then PackageCandidates(packages[i]) else [])
  {
    assert packages[..i + 1][..i] == packages[..i];
  }

  function CudaInstallCandidates(cuda: Package): seq<string>
  {
    [Sub(cuda.path, "bin"), Sub(Sub(cuda.path, "lib"), "x64"), Sub(cuda.path, "libnvvp")] + cuda.dllDirs
  }

  function CudaCandidates(installs: seq<Package>): seq<string>
  {
    if installs == [] then []
    else CudaCandidates(installs[..|installs| - 1]) + CudaInstallCandidates(installs[|installs| - 1])
  }

  /** Every path offered to `add_dir`, in the order of the calls. */
  function Candidates(base: string, d: Discovery, existing: set<string>): seq<string>
  {
    [Sub(Sub(base, "torch"), "lib"), Sub(Sub(base, "torch"), "bin")]
      + (if d.meipass.Some? then [d.meipass.value] else [])
      + [d.exeDir]
      + (if Sub(base, "torch") in existing then d.torchDllDirs else [])
      + (if Sub(base, "nvidia") in existing then NvidiaCandidates(d.nvidiaEntries, existing) else [])
      + CudaCandidates(d.cudaInstalls)
      + d.driverPaths
  }

  /** The collection phase of `_register_dll_directories`: the `dirs` list it
      ends with is what `add_dir` admits from the candidates offered. */
  method CollectSearchDirectories(base: string, d: Discovery, existing: set<string>) returns (dirs: seq<string>)
    ensures dirs == AdmitAll(Candidates(base, d, existing), existing)
  {
    var list := new SearchDirectories(existing);
    list.AddDir(Sub(Sub(base, "torch"), "lib"));
    list.AddDir(Sub(Sub(base, "torch"), "bin"));
    ghost var meipass := if d.meipass.Some? then [d.meipass.value] else [];
    if d.meipass.Some? {
      list.AddDir(d.meipass.value);
    }
    list.AddDir(d.exeDir);
    ghost var fixed := [Sub(Sub(base, "torch"), "lib"), Sub(Sub(base, "torch"), "bin")] + meipass + [d.exeDir];
    assert list.offered == fixed;
    ghost var torch := if Sub(base, "torch") in existing then d.torchDllDirs else [];
    if Sub(base, "torch") in existing {
      list.AddEach(d.torchDllDirs);
    }
    assert list.offered == fixed + torch;
    ghost var nvidia := if Sub(base, "nvidia") in existing then NvidiaCandidates(d.nvidiaEntries, existing) else [];
    if Sub(base, "nvidia") in existing {
      list.AddNvidiaPackages(d.nvidiaEntries);
    }
    assert list.offered == fixed + torch + nvidia;
    list.AddCudaInstalls(d.cudaInstalls);
    list.AddEach(d.driverPaths);
    assert list.offered == Candidates(base, d, existing);
    dirs := list.dirs;
  }

  // ---------------------------------------------------------------------
  // Properties of add_dir
  // ---------------------------------------------------------------------

  /** Only existing directories are admitted, and every existing directory
      offered is admitted. */
  lemma {:induction false} AdmitAllMembers(offered: seq<string>, existing: set<string>)
    ensures forall x :: x in AdmitAll(offered, existing) <==> x in offered && x in existing
  {
    if offered != [] {
      var init := offered[..|offered| - 1];
      AdmitAllMembers(init, existing);
      assert offered == init + [offered[|offered| - 1]];
    }
  }

  /** `dirs` never holds a directory twice. */
  lemma {:induction false} AdmitAllNoDuplicates(offered: seq<string>, existing: set<string>)
    ensures NoDuplicates(AdmitAll(offered, existing))
  {
    if offered != [] {
      AdmitAllNoDuplicates(offered[..|offered| - 1], existing);
    }
  }

  /** Where `x` first occurs in `s`. */
  function FirstIndex(s: seq<string>, x: string): (k: nat)
    requires x in s
    ensures k < |s| && s[k] == x
    ensures forall i | 0 <= i < k :: s[i] != x
  {
    if s[0] == x then 0 else 1 + FirstIndex(s[1..], x)
  }

  lemma FirstIndexSnoc(s: seq<string>, x: string, y: string)
    requires y in s
    ensures FirstIndex(s + [x], y) == FirstIndex(s, y)
  {
    var a, b := FirstIndex(s + [x], y), FirstIndex(s, y);
    assert (s + [x])[b] == y;
    assert a <= b;
    assert s[a] == y;
  }

  /** The entries of `r` appear in the order of their first occurrence in
      `offered`. */
  predicate InFirstOfferOrder(r: seq<string>, offered: seq<string>)
  {
    forall i, j | 0 <= i < j < |r| ::
      r[i] in offered && r[j] in offered && FirstIndex(offered, r[i]) < FirstIndex(offered, r[j])
  }

  /** First-insertion order: the directories in `dirs` appear in the order
      of their first offer. */
  lemma {:induction false} AdmitAllFirstOfferOrder(offered: seq<string>, existing: set<string>)
    ensures InFirstOfferOrder(AdmitAll(offered, existing), offered)
  {
    if offered != [] {
      var init, x := offered[..|offered| - 1], offered[|offered| - 1];
      assert offered == init + [x];
      var r0 := AdmitAll(init, existing);
      AdmitAllFirstOfferOrder(init, existing);
      AdmitAllMembers(init, existing);
      forall y | y in init ensures FirstIndex(offered, y) == FirstIndex(init, y) {
        FirstIndexSnoc(init, x, y);
      }
      var r := AdmitAll(offered, existing);
      forall i, j | 0 <= i < j < |r|
        ensures r[i] in offered && r[j] in offered && FirstIndex(offered, r[i]) < FirstIndex(offered, r[j])
      {
        assert r[i] == r0[i] && r0[i] in r0 && r0[i] in init;
        if j < |r0| {
          assert r[j] == r0[j] && r0[j] in r0 && r0[j] in init;
          assert FirstIndex(init, r0[i]) < FirstIndex(init, r0[j]);
        } else {
          assert r[j] == x && x !in init;
          assert FirstIndex(offered, x) == |init|;
        }
      }
    }
  }

  /** A later offer never moves or removes what is already in `dirs`. */
  lemma {:induction false} AdmitAllGrows(offered: seq<string>, k: nat, existing: set<string>)
    requires k <= |offered|
    ensures AdmitAll(offered[..k], existing) <= AdmitAll(offered, existing)
  {
    if k < |offered| {
      var init := offered[..|offered| - 1];
      assert offered[..k] == init[..k];
      AdmitAllGrows(init, k, existing);
    } else {
      assert offered[..k] == offered;
    }
  }

  /** The torch directories come first: when `base\torch\lib` exists it heads
      `dirs`. */
  lemma TorchLibFirst(base: string, d: Discovery, existing: set<string>)
    requires Sub(Sub(base, "torch"), "lib") in existing
    ensures var r := AdmitAll(Candidates(base, d, existing), existing);
      |r| > 0 && r[0] == Sub(Sub(base, "torch"), "lib")
  {
    var c := Candidates(base, d, existing);
    AdmitAllGrows(c, 1, existing);
    assert c[..1] == [Sub(Sub(base, "torch"), "lib")];
    assert AdmitAll(c[..1], existing) == [Sub(Sub(base, "torch"), "lib")] by {
      assert c[..1][..0] == [];
    }
  }

  // ---------------------------------------------------------------------
  // The registration loop
  // ---------------------------------------------------------------------

  /** The directories `os.add_dll_directory` accepted; `register(d)` is
      whether the call for `d` returns instead of raising. */
  function RegisteredBy(dirs: seq<string>, register: string -> bool): seq<string>
  {
    if dirs == [] then []
    else
      RegisteredBy(dirs[..|dirs| - 1], register)
        + (if register(dirs[|dirs| - 1]) then [dirs[|dirs| - 1]] else [])
  }

  /** PATH after the loop: each directory not yet a substring of PATH is put
      in front of it with a separator. */
  function PathAfter(path: string, dirs: seq<string>): string
  {
    if dirs == [] then path
    else
      var p := PathAfter(path, dirs[..|dirs| - 1]);
      var d := dirs[|dirs| - 1];
      if Contains(p, d) then p else d + [PathSep] + p
  }

  /** The loop over `dirs`: a failed registration is skipped; the PATH
      fallback runs for every directory either way. */
  method RegisterDirectories(dirs: seq<string>, path: string, register: string -> bool)
    returns (successCount: nat, registered: seq<string>, newPath: string, ghost attempted: seq<string>)
    ensures attempted == dirs
    ensures registered == RegisteredBy(dirs, register)
    ensures successCount == |registered|
    ensures newPath == PathAfter(path, dirs)
  {
    successCount, registered, newPath, attempted := 0, [], path, [];
    for i := 0 to |dirs|
      invariant attempted == dirs[..i]
      invariant registered == RegisteredBy(dirs[..i], register)
      invariant successCount == |registered|
      invariant newPath == PathAfter(path, dirs[..i])
    {
      assert dirs[..i + 1][..i] == dirs[..i];
      var d := dirs[i];
      attempted := attempted + [d];
      if register(d) {
        registered := registered + [d];
        successCount := successCount + 1;
      }
      if !Contains(newPath, d) {
        newPath := d + [PathSep] + newPath;
      }
    }
    assert dirs[..|dirs|] == dirs;
  }

  /** The old PATH survives as the tail of the new one. */
  lemma {:induction false} PathAfterKeepsPath(path: string, dirs: seq<string>)
    ensures EndsWith(PathAfter(path, dirs), path)
  {
    if dirs != [] {
      var p := PathAfter(path, dirs[..|dirs| - 1]);
      PathAfterKeepsPath(path, dirs[..|dirs| - 1]);
      var d := dirs[|dirs| - 1];
      var q := d + [PathSep] + p;
      assert q[|q| - |p|..] == p;
      assert q[|q| - |path|..] == p[|p| - |path|..];
    }
  }

  /** Afterwards every registered-or-not directory is a substring of PATH. */
  lemma {:induction false} PathAfterMentionsAll(path: string, dirs: seq<string>)
    ensures forall i | 0 <= i < |dirs| :: Contains(PathAfter(path, dirs), dirs[i])
  {
    if dirs != [] {
      var init, d := dirs[..|dirs| - 1], dirs[|dirs| - 1];
      var p := PathAfter(path, init);
      PathAfterMentionsAll(path, init);
      forall i | 0 <= i < |dirs| ensures Contains(PathAfter(path, dirs), dirs[i]) {
        if i < |init| {
          assert dirs[i] == init[i];
          if !Contains(p, d) {
            ContainsExtended(p, dirs[i], d + [PathSep], []);
            assert d + [PathSep] + p + [] == d + [PathSep] + p;
          }
        } else if !Contains(p, d) {
          ContainsSelf(d);
          ContainsExtended(d, d, [], [PathSep] + p);
          assert [] + d + ([PathSep] + p) == d + [PathSep] + p;
        }
      }
    }
  }

  /** A PATH that already mentions every directory is left as it is. */
  lemma {:induction false} PathAfterUnchanged(path: string, dirs: seq<string>)
    requires forall i | 0 <= i < |dirs| :: Contains(path, dirs[i])
    ensures PathAfter(path, dirs) == path
  {
    if dirs != [] {
      PathAfterUnchanged(path, dirs[..|dirs| - 1]);
    }
  }

  /** When no directory holds a separator, every entry of the old PATH is
      still an entry of the new one, and a PATH that was set stays set. */
  lemma {:induction false} PathAfterKeepsParts(path: string, dirs: seq<string>)
    requires forall i | 0 <= i < |dirs| :: PathSep !in dirs[i]
    ensures path != "" ==> PathAfter(path, dirs) != ""
    ensures forall x | x in PathParts(path) :: x in PathParts(PathAfter(path, dirs))
  {
    if dirs != [] {
      var init, d := dirs[..|dirs| - 1], dirs[|dirs| - 1];
      var p := PathAfter(path, init);
      PathAfterKeepsParts(path, init);
      if !Contains(p, d) {
        SplitFirst(d, PathSep, p);
        assert d + [PathSep] + p != "";
      }
    }
  }

  /** A directory is counted as registered exactly when it is one of
      `dirs` and its registration succeeds. */
  lemma {:induction false} RegisteredIffAccepted(dirs: seq<string>, register: string -> bool)
    ensures forall x | x in RegisteredBy(dirs, register) :: x in dirs && register(x)
    ensures forall x | x in dirs && register(x) :: x in RegisteredBy(dirs, register)
  {
    if dirs != [] {
      var init := dirs[..|dirs| - 1];
      RegisteredIffAccepted(init, register);
      assert dirs == init + [dirs[|dirs| - 1]];
    }
  }

  // ---------------------------------------------------------------------
  // PATH in _prepare_torch_environment
  // ---------------------------------------------------------------------

  /** `path_parts` after the loop: each directory not yet in the list is
      inserted at position 0. */
  function PrependMissing(parts: seq<string>, adds: seq<string>): seq<string>
  {
    if adds == [] then parts
    else
      var p := PrependMissing(parts, adds[..|adds| - 1]);
      var a := adds[|adds| - 1];
      if a in p then p else [a] + p
  }

  /** Directories that are all entries already leave the list as it is. */
  lemma {:induction false} PrependMissingPresent(parts: seq<string>, adds: seq<string>)
    requires forall i | 0 <= i < |adds| :: adds[i] in parts
    ensures PrependMissing(parts, adds) == parts
  {
    if adds != [] {
      PrependMissingPresent(parts, adds[..|adds| - 1]);
    }
  }

  /** `current_path.split(os.pathsep) if current_path else []`. */
  function PathParts(path: string): seq<string>
  {
    if path == "" then [] else Split(path, PathSep)
  }

  /** The PATH rewrite: split, insert the missing critical directories at the
      front one by one, join. */
  method PrependCriticalPaths(currentPath: string, critical: seq<string>) returns (newPath: string)
    ensures newPath == Join(PrependMissing(PathParts(currentPath), critical), PathSep)
  {
    var pathParts := if currentPath != "" then Split(currentPath, PathSep) else [];
    for i := 0 to |critical|
      invariant pathParts == PrependMissing(PathParts(currentPath), critical[..i])
    {
      assert critical[..i + 1][..i] == critical[..i];
      var dllStr := critical[i];
      if dllStr !in pathParts {
        pathParts := [dllStr] + pathParts;
      }
    }
    assert critical[..|critical|] == critical;
    newPath := Join(pathParts, PathSep);
  }

  /** The existing entries stay, in order, at the end of the list. */
  lemma {:induction false} PrependMissingKeepsParts(parts: seq<string>, adds: seq<string>)
    ensures var r := PrependMissing(parts, adds);
      |parts| <= |r| && r[|r| - |parts|..] == parts
  {
    if adds != [] {
      PrependMissingKeepsParts(parts, adds[..|adds| - 1]);
      var p := PrependMissing(parts, adds[..|adds| - 1]);
      var a := adds[|adds| - 1];
      if a !in p {
        assert ([a] + p)[|[a] + p| - |parts|..] == p[|p| - |parts|..];
      }
    }
  }

  /** The list ends up with exactly the old entries and the critical ones. */
  lemma {:induction false} PrependMissingMembers(parts: seq<string>, adds: seq<string>)
    ensures forall x :: x in PrependMissing(parts, adds) <==> x in parts || x in adds
  {
    if adds != [] {
      var init := adds[..|adds| - 1];
      PrependMissingMembers(parts, init);
      assert adds == init + [adds[|adds| - 1]];
    }
  }

  /** No duplicate is introduced. */
  lemma {:induction false} PrependMissingNoDuplicates(parts: seq<string>, adds: seq<string>)
    requires NoDuplicates(parts)
    ensures NoDuplicates(PrependMissing(parts, adds))
  {
    if adds != [] {
      PrependMissingNoDuplicates(parts, adds[..|adds| - 1]);
      var p := PrependMissing(parts, adds[..|adds| - 1]);
      var a := adds[|adds| - 1];
      if a !in p {
        var r := [a] + p;
        forall i, j | 0 <= i < j < |r| ensures r[i] != r[j] {
          if i == 0 { assert r[j] == p[j - 1] && p[j - 1] in p; }
          else { assert r[i] == p[i - 1] && r[j] == p[j - 1]; }
        }
      }
    }
  }

  /** Inserting at position 0 one by one reverses the critical list: of three
      new directories the last ends up first. */
  lemma PrependThreeReversed(parts: seq<string>, a: string, b: string, c: string)
    requires a !in parts && b !in parts && c !in parts
    requires a != b && b != c && a != c
    ensures PrependMissing(parts, [a, b, c]) == [c, b, a] + parts
  {
    assert [a, b, c][..2] == [a, b];
    assert [a, b][..1] == [a];
    assert [a][..0] == [];
    assert PrependMissing(parts, [a]) == [a] + parts;
    assert b !in [a] + parts;
    assert PrependMissing(parts, [a, b]) == [b, a] + parts;
    assert c !in [b, a] + parts;
  }

  /** At the level of the PATH string: when PATH was set, the old value is
      the tail of the new one, behind the added directories. */
  lemma PrependKeepsPathString(currentPath: string, critical: seq<string>)
    requires currentPath != ""
    ensures EndsWith(Join(PrependMissing(PathParts(currentPath), critical), PathSep), currentPath)
  {
    var parts := Split(currentPath, PathSep);
    var r := PrependMissing(parts, critical);
    PrependMissingKeepsParts(parts, critical);
    JoinSplit(currentPath, PathSep);
    var front := r[..|r| - |parts|];
    assert r == front + parts;
    if front == [] {
      assert r == parts;
    } else {
      JoinAppend(front, parts, PathSep);
      var j := Join(r, PathSep);
      assert j == Join(front, PathSep) + [PathSep] + currentPath;
      assert j[|j| - |currentPath|..] == currentPath;
    }
  }
}
