/** The interpreter search of `_find_matching_system_python` in
    backend/cuda_setup.py: candidates in a fixed order, each asked for its
    `major.minor` and then for `pip --version`; the first that reports the
    running version and has pip wins. `shutil.which` and `subprocess.run`
    are inputs. */
module SystemPython {
  import opened Wrappers
  import opened Text

  /** What `subprocess.run` returns; the oracles give None when it raises. */
  datatype Completed = Completed(returncode: int, stdout: string)

  /** A candidate: the `py` launcher found on PATH (targeting a version with
      `-M.m`), or a command name to look up with `shutil.which`. */
  datatype Candidate = Launcher(exe: string) | Command(name: string)

  /** The `-c` program each candidate runs to report its version. */
  const VersionScript: string := "import sys; print(f'{sys.version_info.major}.{sys.version_info.minor}')"

  /** `need`: the running interpreter's `f"{major}.{minor}"`, two digit
      strings around one dot that read back as the two numbers. */
  function Need(major: nat, minor: nat): (need: string)
    ensures var k := |NatToString(major)|;
      && 0 < k < |need| - 1
      && need[k] == '.'
      && AllDigits(need[..k]) && AllDigits(need[k + 1..])
      && ParseNat(need[..k]) == Some(major)
      && ParseNat(need[k + 1..]) == Some(minor)
  {
    var a, b := NatToString(major), NatToString(minor);
    ParseNatToString(major);
    ParseNatToString(minor);
    assert (a + "." + b)[..|a|] == a && (a + "." + b)[|a| + 1..] == b;
    a + "." + b
  }

  /** `candidates` once built: `python{M}.{m}`, `python{M}`, `python`,
      `python3`, with the launcher inserted in front when `py` is on PATH. */
  function CandidateOrder(major: nat, minor: nat, which: string -> Option<string>): seq<Candidate>
  {
    (if which("py").Some? then [Launcher(which("py").value)] else [])
      + [Command("python" + Need(major, minor)), Command("python" + NatToString(major)),
         Command("python"), Command("python3")]
  }

  /** `pip_exe_prefix` of a candidate: the launcher with its `-M.m`
      argument, or the command's resolved path; None when `shutil.which`
      finds no such command (the candidate is skipped). */
  function PrefixOf(c: Candidate, need: string, which: string -> Option<string>): (r: Option<seq<string>>)
    ensures r.Some? ==> |r.value| >= 1
    ensures c.Command? ==> (r.Some? <==> which(c.name).Some?)
    ensures c.Launcher? ==> r == Some([c.exe, "-" + need])
  {
    match c
    case Launcher(exe) => Some([exe, "-" + need])
    case Command(name) => if which(name).Some? then Some([which(name).value]) else None
  }

  /** `version_cmd`: the prefix, then `-c` and the version script. */
  function VersionCommand(prefix: seq<string>): seq<string>
  {
    prefix + ["-c", VersionScript]
  }

  /** `pip_check`: the prefix, then `-m pip --version`. */
  function PipCheck(prefix: seq<string>): seq<string>
  {
    prefix + ["-m", "pip", "--version"]
  }

  /** A prefix passes when its version command runs and prints exactly
      `need` (after `strip()`), and its pip check runs and exits 0. A run
      that raises (None) fails the candidate. */
  predicate Accepts(prefix: seq<string>, need: string, run: seq<string> -> Option<Completed>)
  {
    var r := run(VersionCommand(prefix));
    && r.Some? && Strip(r.value.stdout) == need
    && var rp := run(PipCheck(prefix));
       rp.Some? && rp.value.returncode == 0
  }

  /** A candidate passes when it has a prefix and the prefix passes. */
  predicate Passes(p: Option<seq<string>>, need: string, run: seq<string> -> Option<Completed>)
  {
    p.Some? && Accepts(p.value, need, run)
  }

  /** The prefix of the first candidate of `cands` that passes, or None:
      the walk with its early return. */
  function SearchIn(cands: seq<Candidate>, need: string, which: string -> Option<string>,
                    run: seq<string> -> Option<Completed>): Option<seq<string>>
  {
    if cands == [] then None
    else if Passes(PrefixOf(cands[0], need, which), need, run) then PrefixOf(cands[0], need, which)
    else SearchIn(cands[1..], need, which, run)
  }

  /** What the search finds for the running version `major.minor`. Whatever
      it finds reported exactly `M.m` and has pip. */
  function Search(major: nat, minor: nat, which: string -> Option<string>,
                  run: seq<string> -> Option<Completed>): Option<seq<string>>
  {
    SearchIn(CandidateOrder(major, minor, which), Need(major, minor), which, run)
  }

  /** `_find_matching_system_python`: build the list, then walk it. It
      returns `exe`, the executable of the candidate that passed; `prefix`
      is that candidate's `pip_exe_prefix`, which the checks ran. */
  method FindMatchingSystemPython(major: nat, minor: nat,
                                  which: string -> Option<string>, run: seq<string> -> Option<Completed>)
    returns (exe: Option<string>, ghost prefix: Option<seq<string>>)
    ensures prefix == Search(major, minor, which, run)
    ensures exe == MatchingExecutable(major, minor, which, run)
  {
    var need := Need(major, minor);
    var candidates: seq<Candidate> := [];
    candidates := candidates + [Command("python" + need)];
    candidates := candidates + [Command("python" + NatToString(major))];
    candidates := candidates + [Command("python")];
    candidates := candidates + [Command("python3")];
    var pyLauncher := which("py");
    if pyLauncher.Some? {
      candidates := [Launcher(pyLauncher.value)] + candidates;
    }
    assert candidates == CandidateOrder(major, minor, which);
    exe, prefix := WalkCandidates(candidates, need, which, run);
  }

  /** The `for cand in candidates` loop with its early return: a candidate
      without a prefix, with a run that raises, with another version or
      without pip is passed over. The loop returns `exe`, the first element
      of the `pip_exe_prefix` that passed. */
  method WalkCandidates(candidates: seq<Candidate>, need: string,
                        which: string -> Option<string>, run: seq<string> -> Option<Completed>)
    returns (exe: Option<string>, ghost prefix: Option<seq<string>>)
    ensures prefix == SearchIn(candidates, need, which, run)
    ensures exe.Some? <==> SearchIn(candidates, need, which, run).Some?
    ensures exe.Some? ==>
      |SearchIn(candidates, need, which, run).value| >= 1 && exe.value == SearchIn(candidates, need, which, run).value[0]
  {
    for i := 0 to |candidates|
      invariant forall j | 0 <= j < i :: !Passes(PrefixOf(candidates[j], need, which), need, run)
    {
      var found: Option<string>;
      var pipPrefix: Option<seq<string>>;
      match candidates[i] {
        case Launcher(py) =>
          found := Some(py);
          pipPrefix := Some([py, "-" + need]);
        case Command(name) =>
          found := which(name);
          pipPrefix := if found.Some? then Some([found.value]) else None;
      }
      assert pipPrefix == PrefixOf(candidates[i], need, which);
      if pipPrefix.Some? {
        var r := run(VersionCommand(pipPrefix.value));
        if r.Some? && Strip(r.value.stdout) == need {
          var rp := run(PipCheck(pipPrefix.value));
          if rp.Some? && rp.value.returncode == 0 {
            SearchInFirst(candidates, need, which, run, i);
            return found, pipPrefix;
          }
        }
      }
    }
    SearchInNone(candidates, need, which, run);
    exe, prefix := None, None;
  }

  lemma {:induction false} SearchInFirst(cands: seq<Candidate>, need: string, which: string -> Option<string>,
                                         run: seq<string> -> Option<Completed>, i: nat)
    requires i < |cands|
    requires Passes(PrefixOf(cands[i], need, which), need, run)
    requires forall j | 0 <= j < i :: !Passes(PrefixOf(cands[j], need, which), need, run)
    ensures SearchIn(cands, need, which, run) == PrefixOf(cands[i], need, which)
  {
    if i > 0 {
      assert !Passes(PrefixOf(cands[0], need, which), need, run);
      var rest := cands[1..];
      forall j | 0 <= j < i - 1 ensures !Passes(PrefixOf(rest[j], need, which), need, run) {
        assert rest[j] == cands[j + 1];
      }
      assert rest[i - 1] == cands[i];
      SearchInFirst(rest, need, which, run, i - 1);
    }
  }

  /** When every candidate fails the search returns None. */
  lemma {:induction false} SearchInNone(cands: seq<Candidate>, need: string, which: string -> Option<string>,
                                        run: seq<string> -> Option<Completed>)
    requires forall j | 0 <= j < |cands| :: !Passes(PrefixOf(cands[j], need, which), need, run)
    ensures SearchIn(cands, need, which, run) == None
  {
    if cands != [] {
      assert !Passes(PrefixOf(cands[0], need, which), need, run);
      var rest := cands[1..];
      forall j | 0 <= j < |rest| ensures !Passes(PrefixOf(rest[j], need, which), need, run) {
        assert rest[j] == cands[j + 1];
      }
      SearchInNone(rest, need, which, run);
    }
  }

  /** What the walk returns is the prefix of a candidate that passes, and no
      earlier candidate passes; it is None exactly when none passes. */
  lemma {:induction false} SearchInFindsFirst(cands: seq<Candidate>, need: string, which: string -> Option<string>,
                                              run: seq<string> -> Option<Completed>)
    ensures var r := SearchIn(cands, need, which, run);
      && (r.None? <==> forall i | 0 <= i < |cands| :: !Passes(PrefixOf(cands[i], need, which), need, run))
      && (r.Some? ==> exists i | 0 <= i < |cands| ::
            && PrefixOf(cands[i], need, which) == r
            && Passes(r, need, run)
            && forall j | 0 <= j < i :: !Passes(PrefixOf(cands[j], need, which), need, run))
  {
    if cands != [] {
      var rest := cands[1..];
      SearchInFindsFirst(rest, need, which, run);
      forall j | 0 <= j < |rest| ensures rest[j] == cands[j + 1] { }
      if !Passes(PrefixOf(cands[0], need, which), need, run) {
        var r := SearchIn(cands, need, which, run);
        assert r == SearchIn(rest, need, which, run);
        if r.Some? {
          var i :| 0 <= i < |rest| && PrefixOf(rest[i], need, which) == r && Passes(r, need, run)
            && forall j | 0 <= j < i :: !Passes(PrefixOf(rest[j], need, which), need, run);
          assert PrefixOf(cands[i + 1], need, which) == r;
        } else {
          forall i | 0 <= i < |cands| ensures !Passes(PrefixOf(cands[i], need, which), need, run) {
            if i > 0 {
              assert cands[i] == rest[i - 1];
            }
          }
        }
      }
    }
  }

  /** The search returns the prefix of a candidate that passes such that no
      earlier candidate passes, and it is None exactly when no candidate
      passes. What it returns has reported `M.m` and has pip. */
  lemma SearchFindsFirstPassing(major: nat, minor: nat, which: string -> Option<string>,
                                run: seq<string> -> Option<Completed>)
    ensures var need, cands := Need(major, minor), CandidateOrder(major, minor, which);
      var r := Search(major, minor, which, run);
      && (r.None? <==> forall i | 0 <= i < |cands| :: !Passes(PrefixOf(cands[i], need, which), need, run))
      && (r.Some? ==> exists i | 0 <= i < |cands| ::
            && PrefixOf(cands[i], need, which) == r
            && Passes(r, need, run)
            && forall j | 0 <= j < i :: !Passes(PrefixOf(cands[j], need, which), need, run))
      && (r.Some? ==> |r.value| >= 1 && Accepts(r.value, need, run))
  {
    SearchInFindsFirst(CandidateOrder(major, minor, which), Need(major, minor), which, run);
  }

  /** When `py` is on PATH and `py -M.m` passes, the launcher wins whatever
      the other candidates would report. */
  lemma LauncherPreferred(major: nat, minor: nat, which: string -> Option<string>, run: seq<string> -> Option<Completed>)
    requires which("py").Some?
    requires Accepts([which("py").value, "-" + Need(major, minor)], Need(major, minor), run)
    ensures Search(major, minor, which, run) == Some([which("py").value, "-" + Need(major, minor)])
  {
    var need, cands := Need(major, minor), CandidateOrder(major, minor, which);
    assert cands[0] == Launcher(which("py").value);
    SearchInFirst(cands, need, which, run, 0);
  }

  /** Without a launcher, an exact `pythonM.m` on PATH that passes wins. */
  lemma ExactCommandPreferred(major: nat, minor: nat, which: string -> Option<string>, run: seq<string> -> Option<Completed>)
    requires which("py").None?
    requires which("python" + Need(major, minor)).Some?
    requires Accepts([which("python" + Need(major, minor)).value], Need(major, minor), run)
    ensures Search(major, minor, which, run) == Some([which("python" + Need(major, minor)).value])
  {
    var need, cands := Need(major, minor), CandidateOrder(major, minor, which);
    assert cands[0] == Command("python" + need);
    SearchInFirst(cands, need, which, run, 0);
  }

  /** With a launcher on PATH, the commands are tried in the fixed order
      after it: when neither the launcher nor `pythonM.m` passes and
      `pythonM` does, `pythonM` wins. */
  lemma MajorCommandThird(major: nat, minor: nat, which: string -> Option<string>, run: seq<string> -> Option<Completed>)
    requires which("py").Some?
    requires !Accepts([which("py").value, "-" + Need(major, minor)], Need(major, minor), run)
    requires which("python" + Need(major, minor)).Some? ==>
      !Accepts([which("python" + Need(major, minor)).value], Need(major, minor), run)
    requires which("python" + NatToString(major)).Some?
    requires Accepts([which("python" + NatToString(major)).value], Need(major, minor), run)
    ensures Search(major, minor, which, run) == Some([which("python" + NatToString(major)).value])
  {
    var need, cands := Need(major, minor), CandidateOrder(major, minor, which);
    assert cands[0] == Launcher(which("py").value);
    assert cands[1] == Command("python" + need);
    assert cands[2] == Command("python" + NatToString(major));
    assert PrefixOf(cands[0], need, which) == Some([which("py").value, "-" + need]);
    var p1 := PrefixOf(cands[1], need, which);
    assert p1.Some? ==> p1 == Some([which("python" + need).value]);
    assert PrefixOf(cands[2], need, which) == Some([which("python" + NatToString(major)).value]);
    forall j | 0 <= j < 2 ensures !Passes(PrefixOf(cands[j], need, which), need, run) {
      assert j == 0 || j == 1;
    }
    SearchInFirst(cands, need, which, run, 2);
  }

  // ---------------------------------------------------------------------
  // What the caller runs with the result
  // ---------------------------------------------------------------------

  /** `prefix + ["-m", "pip"] + pip_args`: pip run by the interpreter the
      prefix starts. */
  function PipCommand(prefix: seq<string>, pipArgs: seq<string>): seq<string>
  {
    prefix + ["-m", "pip"] + pipArgs
  }

  /** What `_find_matching_system_python` returns: `exe`, the first element
      of the prefix that passed; for the launcher that drops its `-M.m`
      argument. */
  function MatchingExecutable(major: nat, minor: nat, which: string -> Option<string>,
                              run: seq<string> -> Option<Completed>): (exe: Option<string>)
    ensures exe.Some? <==> Search(major, minor, which, run).Some?
  {
    SearchFindsFirstPassing(major, minor, which, run);
    match Search(major, minor, which, run)
    case Some(p) => Some(p[0])
    case None => None
  }

  /** `[py, "-m", "pip"] + pip_args`, the strategy-2 command `_install_torch`
      builds from that result. */
  function InstallCommand(major: nat, minor: nat, which: string -> Option<string>,
                          run: seq<string> -> Option<Completed>, pipArgs: seq<string>): (cmd: Option<seq<string>>)
    ensures cmd.Some? <==> Search(major, minor, which, run).Some?
    ensures cmd.Some? ==> |cmd.value| >= 3 && cmd.value[1] == "-m" && cmd.value[2] == "pip"
  {
    match MatchingExecutable(major, minor, which, run)
    case Some(exe) => Some(PipCommand([exe], pipArgs))
    case None => None
  }

  /** The strategy-2 command as evidently intended: the validated prefix,
      then `-m pip` and the pip arguments. */
  function ValidatedInstallCommand(major: nat, minor: nat, which: string -> Option<string>,
                                   run: seq<string> -> Option<Completed>, pipArgs: seq<string>): (cmd: Option<seq<string>>)
    ensures cmd.Some? <==> Search(major, minor, which, run).Some?
  {
    match Search(major, minor, which, run)
    case Some(p) => Some(PipCommand(p, pipArgs))
    case None => None
  }

  /** The intended command runs pip under exactly a prefix that reported
      `M.m` and passed the pip check. */
  lemma ValidatedInstallCommandChecked(major: nat, minor: nat, which: string -> Option<string>,
                                       run: seq<string> -> Option<Completed>, pipArgs: seq<string>)
    ensures var cmd := ValidatedInstallCommand(major, minor, which, run, pipArgs);
      cmd.Some? ==> exists p | |p| >= 1 && Accepts(p, Need(major, minor), run) ::
        cmd.value == PipCommand(p, pipArgs)
  {
    SearchFindsFirstPassing(major, minor, which, run);
  }

  /** Without a `py` launcher on PATH every candidate's prefix is its
      executable alone, so the command as written is the intended one. */
  lemma CommandsAgreeWithoutLauncher(major: nat, minor: nat, which: string -> Option<string>,
                                     run: seq<string> -> Option<Completed>, pipArgs: seq<string>)
    requires which("py").None?
    ensures InstallCommand(major, minor, which, run, pipArgs) == ValidatedInstallCommand(major, minor, which, run, pipArgs)
  {
    var need, cands := Need(major, minor), CandidateOrder(major, minor, which);
    SearchFindsFirstPassing(major, minor, which, run);
    var r := Search(major, minor, which, run);
    if r.Some? {
      var i :| 0 <= i < |cands| && PrefixOf(cands[i], need, which) == r;
      assert cands[i].Command?;
    }
  }

  /** The launcher case as written: `py -M.m` is what passed both checks,
      but pip then runs under bare `py`, that is under the launcher's default
      interpreter, which need not be version `M.m`. */
  lemma LauncherVersionDroppedAsWritten(major: nat, minor: nat, which: string -> Option<string>,
                                        run: seq<string> -> Option<Completed>, pipArgs: seq<string>)
    requires which("py").Some?
    requires Accepts([which("py").value, "-" + Need(major, minor)], Need(major, minor), run)
    ensures var py := which("py").value;
      && InstallCommand(major, minor, which, run, pipArgs) == Some(PipCommand([py], pipArgs))
      && ValidatedInstallCommand(major, minor, which, run, pipArgs) == Some(PipCommand([py, "-" + Need(major, minor)], pipArgs))
      && InstallCommand(major, minor, which, run, pipArgs) != ValidatedInstallCommand(major, minor, which, run, pipArgs)
  {
    LauncherPreferred(major, minor, which, run);
    var py := which("py").value;
    var need := Need(major, minor);
    var asWritten := PipCommand([py], pipArgs);
    var corrected := PipCommand([py, "-" + need], pipArgs);
    assert asWritten[1] == "-m";
    assert corrected[1] == "-" + need;
    assert ("-" + need)[1] == need[0];
    assert asWritten[1] != corrected[1];
  }
}
