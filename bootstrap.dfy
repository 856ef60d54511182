/** The install and launch control flow of backend/cuda_setup.py: the cache
    markers, `_install_torch` with its chain of pip strategies,
    `_prepare_torch_environment`, `install_torch` and `load_torch`. The
    machine is an input: GPU and driver detection results, the outcome of
    every pip and Python run, which paths are directories, the DLL listing,
    and what `os.add_dll_directory`, `ctypes.CDLL` and `import torch` do. */
module Bootstrap {
  import opened Wrappers
  import opened Text
  import Variants
  import SearchPaths
  import Preload
  import SystemPython

  // ---------------------------------------------------------------------
  // The pip strategies of `_install_torch`
  // ---------------------------------------------------------------------

  /** Strategy 1 calls pip as a library, strategy 2 runs pip under a system
      Python of the running version, strategy 3 under `sys.executable`. */
  datatype Strategy = PipLibrary | SystemPip | ExecutablePip

  /** What calling pip's `main` does: the import fails, it returns an exit
      code, or it calls `sys.exit` (with an integer code or with None). */
  datatype LibraryOutcome = Unavailable | Returned(code: int) | Exited(exitCode: Option<int>)

  /** Everything the strategy chain depends on. `run` gives the result of a
      subprocess (stdout and return code), None when it raises; it answers
      the interpreter probes and the pip installs alike. */
  datatype InstallEnv = InstallEnv(
    frozen: bool,
    library: LibraryOutcome,
    major: nat, minor: nat,
    which: string -> Option<string>,
    run: seq<string> -> Option<SystemPython.Completed>,
    executable: string)

  /** `pip_args`. */
  function PipArgs(target: string, indexUrl: string): seq<string>
  {
    ["install", "--target", target, "--index-url", indexUrl, "--upgrade", "--no-warn-conflicts", "torch", "torchaudio"]
  }

  /** A pip run installs when it does not raise and exits 0. */
  predicate RanCleanly(r: Option<SystemPython.Completed>)
  {
    r.Some? && r.value.returncode == 0
  }

  /** What one strategy does once it is tried: it installs, it fails and
      the chain goes on, or it raises out of `_install_torch` with pip's
      exit code. */
  datatype Attempt = Installs | Fails | Escapes(code: int)

  function Flag(installed: bool): Attempt { if installed then Installs else Fails }

  /** Strategy 1 as written: code 0 installs, returned or passed to
      `sys.exit`; a nonzero code passed to `sys.exit` and a failed import
      fall through; a nonzero code returned raises `RuntimeError` inside a
      `try` that catches only ImportError and SystemExit. */
  function LibraryAttempt(o: LibraryOutcome): Attempt
  {
    match o
    case Unavailable => Fails
    case Returned(code) => if code == 0 then Installs else Escapes(code)
    case Exited(code) => Flag(code == Some(0))
  }

  /** Strategy 2 as written: the interpreter search finds an executable and
      `[exe, "-m", "pip"] + pip_args` exits 0. */
  predicate SystemPipInstalls(env: InstallEnv, pipArgs: seq<string>)
  {
    var cmd := SystemPython.InstallCommand(env.major, env.minor, env.which, env.run, pipArgs);
    cmd.Some? && RanCleanly(env.run(cmd.value))
  }

  /** Strategy 3 installs when pip under `sys.executable` exits 0. */
  predicate ExecutablePipInstalls(env: InstallEnv, pipArgs: seq<string>)
  {
    RanCleanly(env.run(SystemPython.PipCommand([env.executable], pipArgs)))
  }

  /** The strategies in the order they are tried; the library only when not
      frozen. */
  function StrategyOrder(frozen: bool): seq<Strategy>
  {
    if frozen then [SystemPip, ExecutablePip] else [PipLibrary, SystemPip, ExecutablePip]
  }

  /** What each strategy in that order does once it is tried, as written. */
  function Attempts(env: InstallEnv, pipArgs: seq<string>): (r: seq<Attempt>)
    ensures |r| == |StrategyOrder(env.frozen)|
  {
    (if env.frozen then [] else [LibraryAttempt(env.library)])
      + [Flag(SystemPipInstalls(env, pipArgs)), Flag(ExecutablePipInstalls(env, pipArgs))]
  }

  /** How the chain ends: installed by a strategy, nothing installed, or the
      `RuntimeError("pip exited with code ...")` escaping. */
  datatype ChainResult = InstalledBy(strategy: Strategy) | NothingInstalled | Raised(exitCode: int)

  /** The chain over an order of strategies and what each does: the first
      that does not fail ends it. */
  function RunChain(order: seq<Strategy>, attempts: seq<Attempt>): ChainResult
    requires |order| == |attempts|
  {
    if order == [] then NothingInstalled
    else match attempts[0]
      case Installs => InstalledBy(order[0])
      case Escapes(code) => Raised(code)
      case Fails => RunChain(order[1..], attempts[1..])
  }

  /** The strategies the chain tries: up to and including the first that
      does not fail. */
  function TriedIn(order: seq<Strategy>, attempts: seq<Attempt>): seq<Strategy>
    requires |order| == |attempts|
  {
    if order == [] then []
    else [order[0]] + (if attempts[0] == Fails then TriedIn(order[1..], attempts[1..]) else [])
  }

  /** The chain of `_install_torch` as written. */
  function Chain(env: InstallEnv, pipArgs: seq<string>): ChainResult
  {
    RunChain(StrategyOrder(env.frozen), Attempts(env, pipArgs))
  }

  function ChainTried(env: InstallEnv, pipArgs: seq<string>): seq<Strategy>
  {
    TriedIn(StrategyOrder(env.frozen), Attempts(env, pipArgs))
  }

  /** The message of the RuntimeError raised when nothing installed: the
      manual command. */
  function ManualHint(indexUrl: string): string
  {
    "pip install torch torchaudio --index-url " + indexUrl
  }

  /** The chain stops at the first strategy that does not fail: the
      strategies tried are a prefix of the order and all but the last
      failed; the chain installs by the last exactly when it installed and
      raises exactly when it raised; with nothing installed every strategy
      was tried and failed. */
  lemma {:induction false} StopsAtFirstSuccess(order: seq<Strategy>, attempts: seq<Attempt>)
    requires 1 <= |order| == |attempts|
    ensures var tried, res := TriedIn(order, attempts), RunChain(order, attempts);
      && 1 <= |tried| <= |order| && tried == order[..|tried|]
      && (forall i | 0 <= i < |tried| - 1 :: attempts[i] == Fails)
      && (res.InstalledBy? <==> attempts[|tried| - 1] == Installs)
      && (res.InstalledBy? ==> res.strategy == tried[|tried| - 1])
      && (res.Raised? <==> attempts[|tried| - 1].Escapes?)
      && (res.Raised? ==> res.exitCode == attempts[|tried| - 1].code)
      && (res.NothingInstalled? ==> tried == order && forall i | 0 <= i < |order| :: attempts[i] == Fails)
  {
    if attempts[0] == Fails && |order| > 1 {
      var rest, restAttempts := order[1..], attempts[1..];
      StopsAtFirstSuccess(rest, restAttempts);
      var tried := TriedIn(order, attempts);
      var restTried := TriedIn(rest, restAttempts);
      assert tried == [order[0]] + restTried;
      assert restTried == rest[..|restTried|];
      assert tried == order[..|tried|];
      forall i | 0 <= i < |tried| - 1 ensures attempts[i] == Fails {
        if i > 0 {
          assert attempts[i] == restAttempts[i - 1];
        }
      }
      if RunChain(order, attempts).NothingInstalled? {
        forall i | 0 <= i < |order| ensures attempts[i] == Fails {
          if i > 0 {
            assert attempts[i] == restAttempts[i - 1];
          }
        }
      }
    } else if attempts[0] == Fails {
      assert order[1..] == [];
    }
  }

  /** Strategy 1 is tried exactly when not frozen, and then first; frozen,
      it never installs. This holds whatever the strategies do. */
  lemma LibraryOnlyWhenNotFrozen(frozen: bool, attempts: seq<Attempt>)
    requires |attempts| == |StrategyOrder(frozen)|
    ensures PipLibrary in TriedIn(StrategyOrder(frozen), attempts) <==> !frozen
    ensures !frozen ==> TriedIn(StrategyOrder(frozen), attempts)[0] == PipLibrary
    ensures frozen ==> RunChain(StrategyOrder(frozen), attempts) != InstalledBy(PipLibrary)
  {
    var order := StrategyOrder(frozen);
    StopsAtFirstSuccess(order, attempts);
    var tried := TriedIn(order, attempts);
    if frozen {
      forall i | 0 <= i < |tried| ensures tried[i] != PipLibrary {
        assert tried[i] == order[i];
      }
    } else {
      assert tried[0] == order[0];
    }
  }

  /** The attempts in strategy terms: strategy 1 as the library call,
      strategies 2 and 3 as their pip runs; only strategy 1 can raise. */
  lemma AttemptsMeaning(env: InstallEnv, pipArgs: seq<string>)
    ensures var order, attempts := StrategyOrder(env.frozen), Attempts(env, pipArgs);
      forall i | 0 <= i < |order| ::
        && attempts[i] == (match order[i] {
             case PipLibrary => LibraryAttempt(env.library)
             case SystemPip => Flag(SystemPipInstalls(env, pipArgs))
             case ExecutablePip => Flag(ExecutablePipInstalls(env, pipArgs))
           })
        && (attempts[i].Escapes? ==> order[i] == PipLibrary)
  {
  }

  /** A return code from pip's `main` raises exactly when it is nonzero and
      the program is not frozen; then nothing after strategy 1 is tried. */
  lemma RaisesOnlyFromLibrary(env: InstallEnv, pipArgs: seq<string>)
    ensures Chain(env, pipArgs).Raised? <==> !env.frozen && env.library.Returned? && env.library.code != 0
    ensures Chain(env, pipArgs).Raised? ==>
      ChainTried(env, pipArgs) == [PipLibrary] && Chain(env, pipArgs).exitCode == env.library.code
  {
    var order, attempts := StrategyOrder(env.frozen), Attempts(env, pipArgs);
    StopsAtFirstSuccess(order, attempts);
    var tried := TriedIn(order, attempts);
    if Chain(env, pipArgs).Raised? {
      assert attempts[|tried| - 1].Escapes?;
      assert order[|tried| - 1] == PipLibrary;
      assert |tried| == 1;
    }
  }

  // ---------------------------------------------------------------------
  // The chain as evidently intended
  // ---------------------------------------------------------------------

  /** Strategy 1 as intended: only code 0 installs, and a nonzero returned
      code falls through like a nonzero code passed to `sys.exit`. */
  predicate LibraryInstalls(o: LibraryOutcome)
  {
    match o
    case Unavailable => false
    case Returned(code) => code == 0
    case Exited(code) => code == Some(0)
  }

  /** Strategy 2 as intended: pip under the prefix that passed the checks. */
  predicate ValidatedPipInstalls(env: InstallEnv, pipArgs: seq<string>)
  {
    var cmd := SystemPython.ValidatedInstallCommand(env.major, env.minor, env.which, env.run, pipArgs);
    cmd.Some? && RanCleanly(env.run(cmd.value))
  }

  function IntendedAttempts(env: InstallEnv, pipArgs: seq<string>): (r: seq<Attempt>)
    ensures |r| == |StrategyOrder(env.frozen)|
  {
    (if env.frozen then [] else [Flag(LibraryInstalls(env.library))])
      + [Flag(ValidatedPipInstalls(env, pipArgs)), Flag(ExecutablePipInstalls(env, pipArgs))]
  }

  /** The chain as intended. */
  function IntendedChain(env: InstallEnv, pipArgs: seq<string>): ChainResult
  {
    RunChain(StrategyOrder(env.frozen), IntendedAttempts(env, pipArgs))
  }

  function IntendedTried(env: InstallEnv, pipArgs: seq<string>): seq<Strategy>
  {
    TriedIn(StrategyOrder(env.frozen), IntendedAttempts(env, pipArgs))
  }

  /** The intended chain never raises: a failed strategy 1, whatever its
      exit code, hands over to strategy 2, and with nothing installed all
      three were tried. */
  lemma IntendedChainFallsThrough(env: InstallEnv, pipArgs: seq<string>)
    ensures !IntendedChain(env, pipArgs).Raised?
    ensures !env.frozen && !LibraryInstalls(env.library) ==> SystemPip in IntendedTried(env, pipArgs)
    ensures IntendedChain(env, pipArgs).NothingInstalled? ==> IntendedTried(env, pipArgs) == StrategyOrder(env.frozen)
  {
    var order, attempts := StrategyOrder(env.frozen), IntendedAttempts(env, pipArgs);
    StopsAtFirstSuccess(order, attempts);
    var tried := TriedIn(order, attempts);
    if !env.frozen && !LibraryInstalls(env.library) {
      assert attempts[0] == Fails;
      assert |tried| >= 2 && tried[1] == order[1];
    }
  }

  /** Finding: pip's `main` returns 1 and the validated system pip would
      install. As written setup raises; the intended chain falls through to
      strategy 2, which installs. */
  lemma NonzeroLibraryExitEscapesAsWritten(env: InstallEnv, pipArgs: seq<string>)
    requires !env.frozen && env.library == Returned(1)
    requires ValidatedPipInstalls(env, pipArgs)
    ensures Chain(env, pipArgs) == Raised(1)
    ensures IntendedChain(env, pipArgs) == InstalledBy(SystemPip)
  {
    var order, asWritten, intended := StrategyOrder(env.frozen), Attempts(env, pipArgs), IntendedAttempts(env, pipArgs);
    assert asWritten[0] == Escapes(1);
    assert intended[0] == Fails && intended[1] == Installs;
    assert RunChain(order[1..], intended[1..]) == InstalledBy(SystemPip);
  }

  /** Finding: frozen, the `py -M.m` launcher passes the checks, pip under
      bare `py` fails and pip under `py -M.m` would install. As written the
      chain installs nothing; the intended chain installs by strategy 2. */
  lemma LauncherInstallFailsAsWritten(env: InstallEnv, pipArgs: seq<string>)
    requires env.frozen && env.which("py").Some?
    requires SystemPython.Accepts([env.which("py").value, "-" + SystemPython.Need(env.major, env.minor)],
                                  SystemPython.Need(env.major, env.minor), env.run)
    requires !RanCleanly(env.run(SystemPython.PipCommand([env.which("py").value], pipArgs)))
    requires RanCleanly(env.run(SystemPython.PipCommand([env.which("py").value, "-" + SystemPython.Need(env.major, env.minor)], pipArgs)))
    requires !ExecutablePipInstalls(env, pipArgs)
    ensures Chain(env, pipArgs) == NothingInstalled
    ensures IntendedChain(env, pipArgs) == InstalledBy(SystemPip)
  {
    SystemPython.LauncherVersionDroppedAsWritten(env.major, env.minor, env.which, env.run, pipArgs);
    var order, asWritten, intended := StrategyOrder(env.frozen), Attempts(env, pipArgs), IntendedAttempts(env, pipArgs);
    assert !SystemPipInstalls(env, pipArgs);
    assert ValidatedPipInstalls(env, pipArgs);
    assert asWritten == [Fails, Fails];
    assert RunChain(order[1..], asWritten[1..]) == RunChain([], []);
    assert intended[0] == Installs;
  }

  // ---------------------------------------------------------------------
  // The strategies as the code runs them
  // ---------------------------------------------------------------------

  /** Strategy 1 of `_install_torch`: pip's `main` returns or raises
      SystemExit. */
  method TryPipLibrary(library: LibraryOutcome) returns (attempt: Attempt)
    ensures attempt == LibraryAttempt(library)
  {
    attempt := Fails;
    match library {
      case Unavailable =>
      case Returned(exitCode) =>
        if exitCode != 0 {
          return Escapes(exitCode);
        }
        attempt := Installs;
      case Exited(code) =>
        if code == Some(0) {
          attempt := Installs;
        }
    }
  }

  /** Strategy 2: pip under the executable the interpreter search returns,
      if it returns one. */
  method TrySystemPip(env: InstallEnv, pipArgs: seq<string>) returns (installed: bool)
    ensures installed == SystemPipInstalls(env, pipArgs)
  {
    installed := false;
    var py, _ := SystemPython.FindMatchingSystemPython(env.major, env.minor, env.which, env.run);
    if py.Some? {
      var rc := env.run(SystemPython.PipCommand([py.value], pipArgs));
      installed := rc.Some? && rc.value.returncode == 0;
    }
  }

  /** Strategy 3: pip under `sys.executable`. */
  method TryExecutablePip(env: InstallEnv, pipArgs: seq<string>) returns (installed: bool)
    ensures installed == ExecutablePipInstalls(env, pipArgs)
  {
    var rc := env.run(SystemPython.PipCommand([env.executable], pipArgs));
    installed := rc.Some? && rc.value.returncode == 0;
  }

  /** The strategy chain of `_install_torch`, threading the `installed`
      flag: each strategy runs only while nothing has installed, and the
      error of strategy 1 leaves at once. */
  method RunStrategies(env: InstallEnv, pipArgs: seq<string>)
    returns (result: ChainResult, ghost tried: seq<Strategy>)
    ensures result == Chain(env, pipArgs)
    ensures tried == ChainTried(env, pipArgs)
  {
    ghost var order, attempts := StrategyOrder(env.frozen), Attempts(env, pipArgs);
    var installed, winner := false, ExecutablePip;
    tried := [];
    if !env.frozen {
      tried := tried + [PipLibrary];
      var attempt := TryPipLibrary(env.library);
      if attempt.Escapes? {
        return Raised(attempt.code), tried;
      }
      installed, winner := attempt == Installs, PipLibrary;
    }
    if !installed {
      tried := tried + [SystemPip];
      installed := TrySystemPip(env, pipArgs);
      winner := SystemPip;
    }
    if !installed {
      tried := tried + [ExecutablePip];
      installed := TryExecutablePip(env, pipArgs);
      winner := ExecutablePip;
    }
    result := if installed then InstalledBy(winner) else NothingInstalled;
    ChainMatches(order, attempts, tried, result);
  }

  // ---------------------------------------------------------------------
  // The environment prepared before `import torch`
  // ---------------------------------------------------------------------

  /** The environment variables the bootstrap reads or writes. */
  datatype EnvVar = KmpDuplicateLibOk | PythonPath | Path

  /** `os.environ.get(key, "")`. */
  function Get(environ: map<EnvVar, string>, key: EnvVar): string
  {
    if key in environ then environ[key] else ""
  }

  /** `sys.path` after inserting the cache at the front when absent. */
  function InFront(path: seq<string>, dir: string): (r: seq<string>)
    ensures dir in r
    ensures dir in path ==> r == path
    ensures dir !in path ==> r == [dir] + path
  {
    if dir in path then path else [dir] + path
  }

  /** PYTHONPATH after the update: the cache in front, unless it already
      occurs in the value (a substring test). */
  function PythonPathAfter(pythonPath: string, cache: string): string
  {
    if Contains(pythonPath, cache) then pythonPath
    else if pythonPath != "" then cache + [SearchPaths.PathSep] + pythonPath
    else cache
  }

  /** The cache occurs in the new PYTHONPATH, the old value is its tail, and
      updating again changes nothing. */
  lemma PythonPathAfterFacts(pythonPath: string, cache: string)
    ensures Contains(PythonPathAfter(pythonPath, cache), cache)
    ensures SearchPaths.EndsWith(PythonPathAfter(pythonPath, cache), pythonPath)
    ensures PythonPathAfter(PythonPathAfter(pythonPath, cache), cache) == PythonPathAfter(pythonPath, cache)
  {
    var r := PythonPathAfter(pythonPath, cache);
    if !Contains(pythonPath, cache) {
      ContainsSelf(cache);
      if pythonPath != "" {
        ContainsExtended(cache, cache, [], [SearchPaths.PathSep] + pythonPath);
        assert [] + cache + ([SearchPaths.PathSep] + pythonPath) == r;
        assert r[|r| - |pythonPath|..] == pythonPath;
      } else {
        assert r[|r| - 0..] == [];
      }
    } else {
      assert r[|r| - |r|..] == r;
    }
  }

  function TorchLib(base: string): string { SearchPaths.Sub(SearchPaths.Sub(base, "torch"), "lib") }

  /** `dll_paths_to_add`: torch\lib, torch\bin and the cache, with
      `_MEIPASS` in front when frozen. */
  function CriticalDirs(base: string, meipass: Option<string>): seq<string>
  {
    (if meipass.Some? then [meipass.value] else [])
      + [TorchLib(base), SearchPaths.Sub(SearchPaths.Sub(base, "torch"), "bin"), base]
  }

  /** The machine as `_prepare_torch_environment` sees it. */
  datatype Machine = Machine(
    windows: bool,                             // sys.platform == "win32"
    discovery: SearchPaths.Discovery,           // the directory walks
    existing: set<string>,                      // paths that are directories
    listing: seq<string>,                       // torch\lib\*.dll
    register: string -> bool,                   // os.add_dll_directory succeeds
    tryLoad: (seq<string>, string) -> bool)     // ctypes.CDLL succeeds

  /** The search directories `_register_dll_directories` registers. */
  function SearchDirs(base: string, m: Machine): seq<string>
  {
    SearchPaths.AdmitAll(SearchPaths.Candidates(base, m.discovery, m.existing), m.existing)
  }

  /** PATH on Windows after the rewrite with the critical directories and
      the registration loop. */
  function PreparedPath(path: string, base: string, m: Machine): string
  {
    var parts := SearchPaths.PrependMissing(SearchPaths.PathParts(path), CriticalDirs(base, m.discovery.meipass));
    SearchPaths.PathAfter(Join(parts, SearchPaths.PathSep), SearchDirs(base, m))
  }

  /** The libraries the pre-load pass loads: none unless torch\lib exists. */
  function Preloaded(base: string, m: Machine): seq<string>
  {
    if TorchLib(base) in m.existing
    then Preload.LoadedBy(Preload.LoadOrder(Preload.SortByLowerName(m.listing), Preload.Classify), m.tryLoad)
    else []
  }

  lemma EndsWithTransitive(a: string, b: string, c: string)
    requires SearchPaths.EndsWith(a, b) && SearchPaths.EndsWith(b, c)
    ensures SearchPaths.EndsWith(a, c)
  {
    assert a[|a| - |c|..] == b[|b| - |c|..];
  }

  /** A PATH that was set survives as the tail of the prepared PATH, and
      every registered search directory occurs in the prepared PATH. */
  lemma PreparedPathKeepsPath(path: string, base: string, m: Machine)
    ensures path != "" ==> SearchPaths.EndsWith(PreparedPath(path, base, m), path)
    ensures forall d | d in SearchDirs(base, m) :: Contains(PreparedPath(path, base, m), d)
  {
    var critical := CriticalDirs(base, m.discovery.meipass);
    var rewritten := Join(SearchPaths.PrependMissing(SearchPaths.PathParts(path), critical), SearchPaths.PathSep);
    SearchPaths.PathAfterKeepsPath(rewritten, SearchDirs(base, m));
    SearchPaths.PathAfterMentionsAll(rewritten, SearchDirs(base, m));
    if path != "" {
      SearchPaths.PrependKeepsPathString(path, critical);
      EndsWithTransitive(PreparedPath(path, base, m), rewritten, path);
    }
  }

  /** No critical or search directory holds the PATH separator. */
  predicate SeparatorFree(base: string, m: Machine)
  {
    && (forall d | d in CriticalDirs(base, m.discovery.meipass) :: SearchPaths.PathSep !in d)
    && (forall d | d in SearchDirs(base, m) :: SearchPaths.PathSep !in d)
  }

  /** Rewriting PATH a second time changes nothing when no directory holds
      the separator: every critical directory is then an entry and every
      search directory a substring of the first result. */
  lemma PreparedPathTwice(path: string, base: string, m: Machine)
    requires SeparatorFree(base, m)
    ensures PreparedPath(PreparedPath(path, base, m), base, m) == PreparedPath(path, base, m)
  {
    var critical := CriticalDirs(base, m.discovery.meipass);
    var search := SearchDirs(base, m);
    var parts := SearchPaths.PrependMissing(SearchPaths.PathParts(path), critical);
    var joined := Join(parts, SearchPaths.PathSep);
    var once := PreparedPath(path, base, m);
    SearchPaths.PrependMissingMembers(SearchPaths.PathParts(path), critical);
    assert TorchLib(base) in parts;
    assert parts != [] && joined != "";
    SplitJoin(parts, SearchPaths.PathSep);
    SearchPaths.PathAfterKeepsParts(joined, search);
    var onceParts := SearchPaths.PathParts(once);
    forall i | 0 <= i < |critical| ensures critical[i] in onceParts {
      assert critical[i] in parts;
    }
    SearchPaths.PrependMissingPresent(onceParts, critical);
    JoinSplit(once, SearchPaths.PathSep);
    SearchPaths.PathAfterMentionsAll(joined, search);
    SearchPaths.PathAfterUnchanged(once, search);
  }

  /** The process state the bootstrap changes: `sys.path`, the environment
      variables, the registered DLL directories and the pre-loaded
      libraries. */
  datatype Process = Process(
    sysPath: seq<string>,
    environ: map<EnvVar, string>,
    dllDirectories: seq<string>,
    preloaded: seq<string>)

  /** The first part of `_prepare_torch_environment` on Windows:
      KMP_DUPLICATE_LIB_OK, the cache in front of `sys.path`, the cache in
      front of PYTHONPATH unless already there, and the critical directories
      in front of PATH. */
  function SetVariables(p: Process, cache: string, m: Machine): Process
  {
    var pythonPath := Get(p.environ, PythonPath);
    var withKmp := p.environ[KmpDuplicateLibOk := "TRUE"];
    var withPythonPath := if Contains(pythonPath, cache) then withKmp else withKmp[PythonPath := PythonPathAfter(pythonPath, cache)];
    var critical := CriticalDirs(cache, m.discovery.meipass);
    var path := Join(SearchPaths.PrependMissing(SearchPaths.PathParts(Get(p.environ, Path)), critical), SearchPaths.PathSep);
    p.(sysPath := InFront(p.sysPath, cache), environ := withPythonPath[Path := path])
  }

  /** `_register_dll_directories` on Windows: the registered search
      directories are appended, and PATH is written back only if it
      changed. */
  function RegisterSearchDirs(p: Process, cache: string, m: Machine): Process
  {
    var path := SearchPaths.PathAfter(Get(p.environ, Path), SearchDirs(cache, m));
    p.(environ := if path == Get(p.environ, Path) then p.environ else p.environ[Path := path],
       dllDirectories := p.dllDirectories + SearchPaths.RegisteredBy(SearchDirs(cache, m), m.register))
  }

  /** `_preload_torch_dlls` on Windows: the loaded libraries are appended. */
  function PreloadLibraries(p: Process, cache: string, m: Machine): Process
  {
    p.(preloaded := p.preloaded + Preloaded(cache, m))
  }

  /** The process state after `_prepare_torch_environment(cache)`. */
  function Prepare(p: Process, cache: string, m: Machine): Process
  {
    if !m.windows then p.(sysPath := InFront(p.sysPath, cache))
    else PreloadLibraries(RegisterSearchDirs(SetVariables(p, cache, m), cache, m), cache, m)
  }

  /** What preparing does: the cache is in `sys.path`; off Windows nothing
      else changes; on Windows KMP_DUPLICATE_LIB_OK is TRUE, PYTHONPATH and
      PATH are rewritten, and the registered directories and the loaded
      libraries are appended. */
  lemma PrepareFacts(p: Process, cache: string, m: Machine)
    ensures var q := Prepare(p, cache, m);
      && cache in q.sysPath
      && q.sysPath == InFront(p.sysPath, cache)
      && (!m.windows ==> q.environ == p.environ && q.dllDirectories == p.dllDirectories && q.preloaded == p.preloaded)
      && (m.windows ==>
            && Get(q.environ, KmpDuplicateLibOk) == "TRUE"
            && Get(q.environ, PythonPath) == PythonPathAfter(Get(p.environ, PythonPath), cache)
            && Get(q.environ, Path) == PreparedPath(Get(p.environ, Path), cache, m)
            && q.dllDirectories == p.dllDirectories + SearchPaths.RegisteredBy(SearchDirs(cache, m), m.register)
            && q.preloaded == p.preloaded + Preloaded(cache, m))
  {
  }

  /** `load_torch` after a first-launch install prepares a second time:
      `sys.path`, KMP_DUPLICATE_LIB_OK and PYTHONPATH stay as the first pass
      left them, while the directories are registered and the libraries
      loaded once more. */
  lemma PreparedTwice(p: Process, cache: string, m: Machine)
    ensures var once := Prepare(p, cache, m); var twice := Prepare(once, cache, m);
      && twice.sysPath == once.sysPath
      && Get(twice.environ, KmpDuplicateLibOk) == Get(once.environ, KmpDuplicateLibOk)
      && Get(twice.environ, PythonPath) == Get(once.environ, PythonPath)
      && (m.windows ==> twice.dllDirectories == once.dllDirectories + SearchPaths.RegisteredBy(SearchDirs(cache, m), m.register))
      && (m.windows && SeparatorFree(cache, m) ==> Get(twice.environ, Path) == Get(once.environ, Path))
  {
    var once := Prepare(p, cache, m);
    PrepareFacts(p, cache, m);
    PrepareFacts(once, cache, m);
    if m.windows {
      PythonPathAfterFacts(Get(p.environ, PythonPath), cache);
      if SeparatorFree(cache, m) {
        PreparedPathTwice(Get(p.environ, Path), cache, m);
      }
    }
  }

  // ---------------------------------------------------------------------
  // The outcomes of the entry points
  // ---------------------------------------------------------------------

  /** The RuntimeErrors `install_torch` raises, in the order of its checks. */
  datatype SetupError =
    | NoGpu                             // detect_nvidia_gpu() is falsy
    | NoDriverVersion                   // detect_cuda_version() is falsy
    | UnparsableDriverVersion(version: string)  // the ValueError of _parse_version
    | DriverTooOld(version: string)     // no row qualifies
    | PipExited(code: int)              // pip's `main` returned a nonzero code
    | InstallFailed(hint: string)       // no strategy installed
    | NotImportable                     // installed but `import torch` fails

  datatype InstallReport = AlreadyInstalled(cached: string) | Installed(tag: string)

  /** The errors of `load_torch`. */
  datatype LoadError = FirstLaunchSetupFailed(cause: SetupError) | CacheNotLoadable

  datatype LoadReport = ReadyCuda | CpuOnlyDev | ReadyFromCache(cached: string)

  /** A Python `str | None` that is truthy. */
  predicate Truthy(s: Option<string>) { s.Some? && s.value != "" }

  /** The checks of `install_torch` before the download, in order: GPU,
      driver version, parse, table. */
  function Precheck(gpuName: Option<string>, cudaVersion: Option<string>): (r: Result<Variants.Variant, SetupError>)
    ensures r == Failure(NoGpu) <==> !Truthy(gpuName)
    ensures r == Failure(NoDriverVersion) <==> Truthy(gpuName) && !Truthy(cudaVersion)
    ensures r.Failure? && r.error.UnparsableDriverVersion? <==>
      Truthy(gpuName) && Truthy(cudaVersion) && Variants.ParseVersion(cudaVersion.value).None?
    ensures r.Failure? && r.error.DriverTooOld? <==>
      Truthy(gpuName) && Truthy(cudaVersion) && Variants.ParseVersion(cudaVersion.value).Some?
      && !Variants.AtLeast(Variants.ParseVersion(cudaVersion.value).value, [11, 8])
    ensures r.Failure? ==> r.error.NoGpu? || r.error.NoDriverVersion? || r.error.UnparsableDriverVersion? || r.error.DriverTooOld?
    ensures r.Success? ==>
      && Truthy(gpuName) && Truthy(cudaVersion)
      && Variants.BestVariant(cudaVersion.value) == Success(Some(r.value))
      && r.value in Variants.TorchCudaVariants
      && Variants.AtLeast(Variants.ParseVersion(cudaVersion.value).value, r.value.MinVersion())
  {
    if !Truthy(gpuName) then Failure(NoGpu)
    else if !Truthy(cudaVersion) then Failure(NoDriverVersion)
    else match Variants.BestVariant(cudaVersion.value)
      case Failure(_) => Failure(UnparsableDriverVersion(cudaVersion.value))
      case Success(best) =>
        Variants.SupportedIffAtLeastOldest(Variants.ParseVersion(cudaVersion.value).value);
        Variants.ResolveIsFirstQualifying(Variants.ParseVersion(cudaVersion.value).value);
        match best
        case None => Failure(DriverTooOld(cudaVersion.value))
        case Some(v) => Success(v)
  }

  /** How `_install_torch` ends for a chain result: the winning strategy,
      the manual hint, or the escaped pip error. */
  function InstallResult(c: ChainResult, indexUrl: string): (r: Result<Strategy, SetupError>)
    ensures r.Success? <==> c.InstalledBy?
    ensures r.Failure? ==> r.error == (if c.Raised? then PipExited(c.exitCode) else InstallFailed(ManualHint(indexUrl)))
  {
    match c
    case InstalledBy(s) => Success(s)
    case NothingInstalled => Failure(InstallFailed(ManualHint(indexUrl)))
    case Raised(code) => Failure(PipExited(code))
  }

  /** What `install_torch` returns when the cache is not valid: the first
      failing check, the install, then the import test. */
  function FirstInstall(gpuName: Option<string>, cudaVersion: Option<string>, env: InstallEnv,
                        cachePath: string, importable: bool): (r: Result<InstallReport, SetupError>)
    ensures Precheck(gpuName, cudaVersion).Failure? ==> r == Failure(Precheck(gpuName, cudaVersion).error)
    ensures r.Success? <==>
      && Precheck(gpuName, cudaVersion).Success?
      && Chain(env, PipArgs(cachePath, Precheck(gpuName, cudaVersion).value.indexUrl)).InstalledBy?
      && importable
    ensures r.Success? ==> r.value == Installed(Precheck(gpuName, cudaVersion).value.tag)
    ensures r == Failure(NotImportable) <==>
      && Precheck(gpuName, cudaVersion).Success?
      && Chain(env, PipArgs(cachePath, Precheck(gpuName, cudaVersion).value.indexUrl)).InstalledBy?
      && !importable
    ensures r.Failure? && r.error.PipExited? ==> !env.frozen && env.library == Returned(r.error.code)
  {
    match Precheck(gpuName, cudaVersion)
    case Failure(e) => Failure(e)
    case Success(v) =>
      var pipArgs := PipArgs(cachePath, v.indexUrl);
      RaisesOnlyFromLibrary(env, pipArgs);
      match InstallResult(Chain(env, pipArgs), v.indexUrl)
      case Failure(e) => Failure(e)
      case Success(_) => if importable then Success(Installed(v.tag)) else Failure(NotImportable)
  }

  /** `load_torch` goes past its development shortcuts: no torch was
      importable, or a CPU-only one in the frozen build. */
  predicate UsesCache(importableAtStart: bool, hasCuda: bool, frozen: bool)
  {
    !(importableAtStart && (hasCuda || !frozen))
  }

  // ---------------------------------------------------------------------
  // The process and its cache directory
  // ---------------------------------------------------------------------

  /** The cache directory, its markers and its `torch` folder. */
  datatype Cache = Cache(
    dir: bool,                    // TORCH_CACHE_DIR.is_dir()
    setupComplete: bool,          // .setup_complete exists
    variantFile: Option<string>,  // the text of .cuda_variant, if it exists
    torchDir: bool)               // TORCH_CACHE_DIR / "torch" is a directory

  /** The state the bootstrap reads and changes: the cache directory with its
      markers and `torch` folder, `sys.path`, `os.environ`, the registered
      DLL directories and the pre-loaded libraries. */
  class Host {
    const cachePath: string
    var cacheDir: bool                  // TORCH_CACHE_DIR.is_dir()
    var setupComplete: bool             // .setup_complete exists
    var variantFile: Option<string>     // the text of .cuda_variant, if it exists
    var torchDir: bool                  // TORCH_CACHE_DIR / "torch" is a directory
    var sysPath: seq<string>
    var environ: map<EnvVar, string>
    var dllDirectories: seq<string>
    var preloaded: seq<string>

    /** Markers and the torch folder live inside the cache directory. */
    ghost predicate Valid()
      reads this
    {
      (setupComplete || variantFile.Some? || torchDir) ==> cacheDir
    }

    /** The `cache_valid` test. */
    predicate CacheValid()
      reads this
    {
      cacheDir && setupComplete && torchDir
    }

    /** `_VARIANT_FILE.read_text().strip()` if it exists, else "?". */
    function CachedVariant(): string
      reads this
    {
      if variantFile.Some? then Strip(variantFile.value) else "?"
    }

    function CacheOf(): Cache
      reads this
    {
      Cache(cacheDir, setupComplete, variantFile, torchDir)
    }

    function ProcessOf(): Process
      reads this
    {
      Process(sysPath, environ, dllDirectories, preloaded)
    }

    constructor(cachePath: string, cacheDir: bool, setupComplete: bool, variantFile: Option<string>,
                torchDir: bool, sysPath: seq<string>, environ: map<EnvVar, string>)
      requires (setupComplete || variantFile.Some? || torchDir) ==> cacheDir
      ensures Valid()
      ensures this.cachePath == cachePath && this.cacheDir == cacheDir && this.setupComplete == setupComplete
      ensures this.variantFile == variantFile && this.torchDir == torchDir
      ensures this.sysPath == sysPath && this.environ == environ
      ensures dllDirectories == [] && preloaded == []
    {
      this.cachePath, this.cacheDir, this.setupComplete := cachePath, cacheDir, setupComplete;
      this.variantFile, this.torchDir := variantFile, torchDir;
      this.sysPath, this.environ := sysPath, environ;
      dllDirectories, preloaded := [], [];
    }

    /** `_install_torch`: clean a cache left without the completion marker,
        create the directory, try the strategies in turn with the
        `installed` flag, and write the markers only after one installed.
        A nonzero code returned by pip's `main` escapes as `PipExited`. A
        successful pip run leaves the `torch` folder in the cache. */
    method InstallPackages(variant: string, indexUrl: string, env: InstallEnv)
      returns (r: Result<Strategy, SetupError>, ghost tried: seq<Strategy>)
      requires Valid()
      modifies this
      ensures Valid() && cacheDir
      ensures tried == ChainTried(env, PipArgs(cachePath, indexUrl))
      ensures r == InstallResult(Chain(env, PipArgs(cachePath, indexUrl)), indexUrl)
      ensures r.Success? ==> setupComplete && variantFile == Some(variant) && torchDir
      ensures r.Failure? ==> setupComplete == old(setupComplete)
      ensures r.Failure? && old(cacheDir) && !old(setupComplete) ==> variantFile == None && !torchDir
      ensures r.Failure? && !(old(cacheDir) && !old(setupComplete)) ==>
        variantFile == old(variantFile) && torchDir == old(torchDir)
      ensures ProcessOf() == old(ProcessOf())
    {
      if cacheDir && !setupComplete {
        cacheDir, variantFile, torchDir := false, None, false;
      }
      cacheDir := true;
      var pipArgs := PipArgs(cachePath, indexUrl);
      var result;
      result, tried := RunStrategies(env, pipArgs);
      match result {
        case Raised(code) =>
          r := Failure(PipExited(code));
        case NothingInstalled =>
          r := Failure(InstallFailed(ManualHint(indexUrl)));
        case InstalledBy(winner) =>
          torchDir := true;
          variantFile := Some(variant);
          setupComplete := true;
          r := Success(winner);
      }
    }

    /** `_prepare_torch_environment`. Off Windows only `sys.path` changes;
        on Windows the variables, PATH with the critical directories, then
        `_register_dll_directories` and `_preload_torch_dlls`. */
    method PrepareEnvironment(m: Machine)
      modifies this
      ensures ProcessOf() == Prepare(old(ProcessOf()), cachePath, m)
      ensures CacheOf() == old(CacheOf())
    {
      if !m.windows {
        if cachePath !in sysPath {
          sysPath := [cachePath] + sysPath;
        }
        return;
      }
      ghost var start := ProcessOf();
      environ := environ[KmpDuplicateLibOk := "TRUE"];
      if cachePath !in sysPath {
        sysPath := [cachePath] + sysPath;
      }
      var pythonPath := Get(environ, PythonPath);
      assert pythonPath == Get(start.environ, PythonPath);
      if !Contains(pythonPath, cachePath) {
        environ := environ[PythonPath := if pythonPath != "" then cachePath + [SearchPaths.PathSep] + pythonPath else cachePath];
      }
      assert Get(environ, Path) == Get(start.environ, Path);
      var path := SearchPaths.PrependCriticalPaths(Get(environ, Path), CriticalDirs(cachePath, m.discovery.meipass));
      environ := environ[Path := path];
      assert ProcessOf() == SetVariables(start, cachePath, m);
      RegisterDllDirectories(m);
      PreloadTorchDlls(m);
    }

    /** `_register_dll_directories`: on Windows, register every search
        directory in turn, a failure not stopping the loop, and put each one
        not yet a substring of PATH in front of PATH. */
    method RegisterDllDirectories(m: Machine)
      modifies this
      ensures ProcessOf() == if m.windows then RegisterSearchDirs(old(ProcessOf()), cachePath, m) else old(ProcessOf())
      ensures CacheOf() == old(CacheOf())
    {
      if !m.windows {
        return;
      }
      var dirs := SearchPaths.CollectSearchDirectories(cachePath, m.discovery, m.existing);
      ghost var searchDirs := SearchDirs(cachePath, m);
      assert dirs == searchDirs;
      var path := Get(environ, Path);
      var _, registered, newPath, _ := SearchPaths.RegisterDirectories(dirs, path, m.register);
      dllDirectories := dllDirectories + registered;
      if newPath != path {
        environ := environ[Path := newPath];
      }
    }

    /** `_preload_torch_dlls`: on Windows and when torch\lib exists, load
        the listed libraries in the planned order, a failure not stopping
        the loop. */
    method PreloadTorchDlls(m: Machine)
      modifies this
      ensures ProcessOf() == if m.windows then PreloadLibraries(old(ProcessOf()), cachePath, m) else old(ProcessOf())
      ensures CacheOf() == old(CacheOf())
    {
      if !m.windows || TorchLib(cachePath) !in m.existing {
        return;
      }
      var order := Preload.PlanLoadOrder(m.listing);
      var loaded, _, _, _ := Preload.LoadAll(order, m.tryLoad);
      preloaded := preloaded + loaded;
    }

    /** `install_torch`: nothing to do for a valid cache; otherwise the
        checks in order, the download, the environment, and the import
        test. `importable` is whether `import torch` succeeds once the
        environment is prepared. */
    method InstallTorch(gpuName: Option<string>, cudaVersion: Option<string>, env: InstallEnv,
                        m: Machine, importable: bool)
      returns (r: Result<InstallReport, SetupError>)
      requires Valid()
      modifies this
      ensures Valid()
      ensures old(CacheValid()) ==> r == Success(AlreadyInstalled(old(CachedVariant()))) && unchanged(this)
      ensures !old(CacheValid()) ==> r == FirstInstall(gpuName, cudaVersion, env, cachePath, importable)
      ensures !old(CacheValid()) && Precheck(gpuName, cudaVersion).Failure? ==> unchanged(this)
      ensures !old(CacheValid()) && Precheck(gpuName, cudaVersion).Success? ==>
        var v := Precheck(gpuName, cudaVersion).value;
        var chain := Chain(env, PipArgs(cachePath, v.indexUrl));
        && (chain.InstalledBy? ==>
              && CacheOf() == Cache(true, true, Some(v.tag), true)
              && ProcessOf() == Prepare(old(ProcessOf()), cachePath, m))
        && (!chain.InstalledBy? ==>
              && cacheDir && setupComplete == old(setupComplete)
              && ProcessOf() == old(ProcessOf())
              && (old(cacheDir) && !old(setupComplete) ==> variantFile == None && !torchDir)
              && (!(old(cacheDir) && !old(setupComplete)) ==>
                    variantFile == old(variantFile) && torchDir == old(torchDir)))
      ensures setupComplete && !old(setupComplete) ==>
        !old(CacheValid()) && Precheck(gpuName, cudaVersion).Success?
        && Chain(env, PipArgs(cachePath, Precheck(gpuName, cudaVersion).value.indexUrl)).InstalledBy?
    {
      if CacheValid() {
        return Success(AlreadyInstalled(CachedVariant()));
      }
      var checked := Precheck(gpuName, cudaVersion);
      if checked.Failure? {
        return Failure(checked.error);
      }
      var v := checked.value;
      var installed, _ := InstallPackages(v.tag, v.indexUrl, env);
      if installed.Failure? {
        return Failure(installed.error);
      }
      PrepareEnvironment(m);
      if !importable {
        return Failure(NotImportable);
      }
      r := Success(Installed(v.tag));
    }

    /** `load_torch`: a CUDA torch already importable is used as is; a
        CPU-only torch is accepted in development; otherwise the cache is
        installed when invalid (any failure wrapped), the environment is
        prepared, and torch must then import. `importableAtStart` and
        `hasCuda` describe the torch importable before anything is done;
        `importable` is whether it imports once the environment is
        prepared. */
    method LoadTorch(importableAtStart: bool, hasCuda: bool, gpuName: Option<string>,
                     cudaVersion: Option<string>, env: InstallEnv, m: Machine, importable: bool)
      returns (r: Result<LoadReport, LoadError>)
      requires Valid()
      modifies this
      ensures Valid()
      ensures !UsesCache(importableAtStart, hasCuda, env.frozen) ==>
        r == Success(if hasCuda then ReadyCuda else CpuOnlyDev) && unchanged(this)
      ensures r == Success(ReadyCuda) ==> importableAtStart && hasCuda
      ensures r == Success(CpuOnlyDev) ==> importableAtStart && !hasCuda && !env.frozen
      ensures UsesCache(importableAtStart, hasCuda, env.frozen) && old(CacheValid()) ==>
        && r == (if importable then Success(ReadyFromCache(old(CachedVariant()))) else Failure(CacheNotLoadable))
        && CacheOf() == old(CacheOf())
        && ProcessOf() == Prepare(old(ProcessOf()), cachePath, m)
      ensures UsesCache(importableAtStart, hasCuda, env.frozen) && !old(CacheValid()) ==>
        var first := FirstInstall(gpuName, cudaVersion, env, cachePath, importable);
        && (first.Failure? ==>
              && r == Failure(FirstLaunchSetupFailed(first.error))
              && ProcessOf() == if first.error == NotImportable then Prepare(old(ProcessOf()), cachePath, m) else old(ProcessOf()))
        && (first.Success? ==>
              && r == Success(ReadyFromCache(Strip(Precheck(gpuName, cudaVersion).value.tag)))
              && CacheOf() == Cache(true, true, Some(Precheck(gpuName, cudaVersion).value.tag), true)
              && ProcessOf() == Prepare(Prepare(old(ProcessOf()), cachePath, m), cachePath, m))
      ensures (r == Failure(CacheNotLoadable)) <==>
        UsesCache(importableAtStart, hasCuda, env.frozen) && old(CacheValid()) && !importable
    {
      if importableAtStart {
        if hasCuda {
          return Success(ReadyCuda);
        }
        if !env.frozen {
          return Success(CpuOnlyDev);
        }
      }
      if !CacheValid() {
        var installed := InstallTorch(gpuName, cudaVersion, env, m, importable);
        if installed.Failure? {
          return Failure(FirstLaunchSetupFailed(installed.error));
        }
      }
      PrepareEnvironment(m);
      if !importable {
        return Failure(CacheNotLoadable);
      }
      r := Success(ReadyFromCache(CachedVariant()));
    }
  }

  /** The flag-threading code of `_install_torch` agrees with the chain
      when strategy 1 does not raise: the strategies it tried and how it
      ended. */
  lemma ChainMatches(order: seq<Strategy>, attempts: seq<Attempt>, tried: seq<Strategy>, result: ChainResult)
    requires |order| == |attempts|
    requires 1 <= |tried| <= |order| && tried == order[..|tried|]
    requires forall i | 0 <= i < |tried| - 1 :: attempts[i] == Fails
    requires !attempts[|tried| - 1].Escapes?
    requires attempts[|tried| - 1] == Fails ==> |tried| == |order|
    requires result == if attempts[|tried| - 1] == Installs then InstalledBy(tried[|tried| - 1]) else NothingInstalled
    ensures tried == TriedIn(order, attempts)
    ensures result == RunChain(order, attempts)
  {
    StopsAtFirstSuccess(order, attempts);
    var t := TriedIn(order, attempts);
    if |t| != |tried| {
      assert false;
    }
    assert t == order[..|tried|];
  }
}
