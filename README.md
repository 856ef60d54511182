# Noises runtime bootstrap and file numbering, modelled in Dafny

This project models two parts of the Noises backend. Each part is proved against its own specification.

The first part is the runtime PyTorch bootstrap in `backend/cuda_setup.py`:
- choosing a CUDA build of PyTorch from the driver version;
- the order in which the libraries in `torch\lib` are pre-loaded;
- the DLL search directories and how they are registered;
- the PATH, PYTHONPATH and `sys.path` rewrites;
- the search for a system Python of the running version;
- the install and launch control flow of `_install_torch`, `install_torch` and `load_torch`. This covers the cache markers, the chain of pip strategies gated on the frozen flag, and the ordered error exits.

The second part is `get_next_filename` in `backend/audio/utils.py`.

Everything outside the process is an input of the model:
- GPU and driver detection results;
- which paths are directories, and what the directory walks find;
- what `shutil.which` answers;
- what each subprocess run returns;
- what pip's library entry point does;
- whether `os.add_dll_directory` and `ctypes.CDLL` succeed for a given path;
- whether `import torch` succeeds.

Modules:
- `Wrappers`: `Option` and `Result`.
- `Text`: the string operations the source relies on:
  - `split`, `join`, `strip`, `lower` and `startswith`;
  - the substring test `in`;
  - decimal parsing and printing, zero padding, and lexicographic order.
- `Variants`: the variant table, `_parse_version` and `get_best_torch_variant`.
- `Preload`: the sort, the partition and the load loop of `_preload_torch_dlls`.
- `SearchPaths`: the `add_dir` closure as a class over `dirs` and `seen`, the order in which paths are offered to it, the registration loop with its PATH fallback, and the PATH prepend of `_prepare_torch_environment`.
- `SystemPython`: `_find_matching_system_python`.
- `Bootstrap`: the strategy chain, the process state `_prepare_torch_environment` produces, the class `Host` and its methods. `Host` holds the cache directory state, `sys.path`, the environment variables, the registered DLL directories and the pre-loaded libraries. Its methods are `_install_torch`, `_prepare_torch_environment`, `_register_dll_directories`, `_preload_torch_dlls`, `install_torch` and `load_torch`.
- `Filenames`: `get_next_filename`.

The members named after the source's functions follow the code as written, including the two defects listed under "## Findings". The evidently intended behaviour is modelled beside them: `Bootstrap.IntendedChain` and `SystemPython.ValidatedInstallCommand`. In the places where the code differs from its own comments, the model follows the code:
- **Launcher position.** `backend/cuda_setup.py:691` says the exact versioned commands come first. But the `py -M.m` launcher candidate is inserted in front of all the command names at line 700, so when `py` is on PATH the launcher is tried first.
- **Priority group order.** `backend/cuda_setup.py:296` says the priority DLLs are loaded first. They are, but in the listing's sorted-by-lowercase-name order, not in the order of the prefix list.
- **Critical directory order.** `path_parts.insert(0, ...)` runs once per critical directory, so the missing ones end up in front of PATH in reverse order: the cache first, then `torch\bin`, then `torch\lib`. When `sys._MEIPASS` is set, it heads `dll_paths_to_add` (`backend/cuda_setup.py:253-255`), so it ends up right after `torch\lib`.
- **Launch report.** `load_torch` prints its "Ready" lines and returns nothing. The model returns what it would print as a `LoadReport`.

## Model

| member | source | states |
|---|---|---|
| Variants.TableStrictlyDescending | backend/cuda_setup.py:83-90 | the minimum versions of the table rows strictly decrease with row index under tuple order |
| Variants.ParseVersion | backend/cuda_setup.py:156-159 | the version is the decimal value of each of the first two `.`-separated parts of the stripped string; it is absent exactly when one of those parts is not a decimal number, which is where `int` raises |
| Variants.FirstQualifying | backend/cuda_setup.py:209-212 | the index found is in the table, its row qualifies (version >= minimum) and no earlier row qualifies; when none is found, no row qualifies |
| Variants.BestVariant | backend/cuda_setup.py:201-212 | fails exactly when the version string does not parse; otherwise it gives the variant resolved from the parsed version |
| Variants.ResolveIsFirstQualifying | backend/cuda_setup.py:209-212 | the chosen row is a table row that qualifies, with no qualifying row before it; the result is absent exactly when no row qualifies |
| Variants.ResolveIsHighest | backend/cuda_setup.py:209-211 | the chosen minimum version is at least the minimum of every qualifying row |
| Variants.ResolveMonotone | backend/cuda_setup.py:209-211 | a higher driver version is supported whenever a lower one is, and its chosen minimum version is no lower |
| Variants.SupportedIffAtLeastOldest | backend/cuda_setup.py:201-212 | a variant is chosen exactly when the version is at least 11.8 |
| Variants.ResolveAt | backend/cuda_setup.py:209-211 | a version that reaches row k and no earlier row resolves to row k |
| Variants.ParseThreeParts | backend/cuda_setup.py:158-159 | components after the second are ignored: "M.m.x" parses like "M.m" |
| Variants.ExampleDriver12_5 | backend/cuda_setup.py:201-212 | driver "12.5" gets cu124 |
| Variants.ExampleDriver11_0 | backend/cuda_setup.py:201-212 | driver "11.0" gets no variant |
| Variants.ExampleMajorOnly | backend/cuda_setup.py:156-159 | "13" parses to the 1-tuple (13), which is below (13, 0) under tuple order, so it gets cu128 |
| Variants.ExampleEmptyPart | backend/cuda_setup.py:156-159 | "12." does not parse, because `int("")` raises |
| Preload.HasPrefixAmongIff | backend/cuda_setup.py:298-319 | the priority test holds exactly when the lowercased name starts with the lowercased form of some listed prefix |
| Preload.Classify | backend/cuda_setup.py:315-322 | a name is the bridge exactly when its lowercase form is `torch_python.dll`; it is a priority library exactly when it is not the bridge and matches a prefix |
| Preload.SortByLowerName | backend/cuda_setup.py:308 | the result is sorted by lowercase name and is a permutation of the listing |
| Preload.InsertKeepsTies | backend/cuda_setup.py:308 | inserting a name keeps the relative order of any group of mutually tied names |
| Preload.SortByKeepsTies | backend/cuda_setup.py:308 | the sort is stable: any group of mutually tied names comes out in the order it went in |
| Preload.SortByLowerNameStable | backend/cuda_setup.py:308 | names that are equal once lowercased keep the order of the listing, as Python's stable `sorted` keeps them |
| Preload.PlanLoadOrder | backend/cuda_setup.py:308-326 | the plan is the load order of the sorted listing under the classification |
| Preload.Partition | backend/cuda_setup.py:311-322 | the loop yields the priority group and the remaining group in listing order, and the last bridge entry seen |
| Preload.PriorityGroupMembers | backend/cuda_setup.py:319-320 | every member of the priority group is a listed name classified priority |
| Preload.RemainingGroupMembers | backend/cuda_setup.py:321-322 | every member of the remaining group is a listed name classified other |
| Preload.LastBridgeFacts | backend/cuda_setup.py:317-318 | a bridge is kept exactly when the listing holds one, and what is kept is a listed bridge name |
| Preload.LoadOrderShape | backend/cuda_setup.py:324-326 | priority libraries first, then the other libraries, then one bridge exactly when the listing holds one |
| Preload.BridgeLoadedLast | backend/cuda_setup.py:317-326 | with a bridge in the listing, the plan ends with it and has no bridge anywhere else |
| Preload.LoadOrderIsPermutation | backend/cuda_setup.py:308-326 | with at most one bridge entry, the plan is a permutation of the listing |
| Preload.GroupsKeepSortedOrder | backend/cuda_setup.py:315-322 | both groups keep the order of a sorted listing |
| Preload.PlanGroupsSortedByName | backend/cuda_setup.py:308-322 | both groups of the plan are sorted by lowercase name |
| Preload.LoadAll | backend/cuda_setup.py:328-341 | every entry is attempted in order; the loaded ones are those whose load succeeds; loaded + failed == the length of the plan |
| Preload.LoadedArePlanned | backend/cuda_setup.py:332-339 | no more libraries are loaded than planned, and each loaded one was planned |
| Preload.OneFailureLosesOneEntry | backend/cuda_setup.py:332-339 | when only one library fails to load, every other planned entry is still loaded |
| SearchPaths.SearchDirectories.AddDir | backend/cuda_setup.py:580-586 | the path is recorded as offered; `dirs` gains it at the end exactly when it is an existing directory not yet seen; the invariant keeps `seen` equal to the entries of `dirs` and `dirs` equal to what is admitted from all offers so far |
| SearchPaths.SearchDirectories.AddEach | backend/cuda_setup.py:609-611 | every path is offered, in order |
| SearchPaths.SearchDirectories.AddNvidiaPackage | backend/cuda_setup.py:619-625 | offers the package root, `lib`, `bin`, then the DLL directories below it |
| SearchPaths.SearchDirectories.AddNvidiaPackages | backend/cuda_setup.py:615-625 | offers the candidates of each entry that is a directory, in `iterdir` order; other entries are skipped |
| SearchPaths.SearchDirectories.AddCudaInstall | backend/cuda_setup.py:630-636 | offers `bin`, `lib\x64`, `libnvvp`, then the DLL directories below |
| SearchPaths.SearchDirectories.AddCudaInstalls | backend/cuda_setup.py:629-636 | offers the candidates of every CUDA installation, in order |
| SearchPaths.CollectSearchDirectories | backend/cuda_setup.py:577-641 | `dirs` is what `add_dir` admits from every candidate, offered in the order of the calls |
| SearchPaths.AdmitAllMembers | backend/cuda_setup.py:580-586 | a path is in `dirs` exactly when it was offered and is an existing directory |
| SearchPaths.AdmitAllNoDuplicates | backend/cuda_setup.py:584-586 | `dirs` has no duplicates |
| SearchPaths.AdmitAllFirstOfferOrder | backend/cuda_setup.py:584-586 | `dirs` lists its paths in the order of their first offer |
| SearchPaths.TorchLibFirst | backend/cuda_setup.py:589 | when `torch\lib` exists, it heads `dirs` |
| SearchPaths.RegisterDirectories | backend/cuda_setup.py:644-656 | every directory is attempted; the registered ones are those for which `add_dll_directory` succeeds; the count matches; PATH ends as the fallback rule gives it |
| SearchPaths.RegisteredIffAccepted | backend/cuda_setup.py:645-653 | a directory is registered exactly when it is in `dirs` and its registration succeeds |
| SearchPaths.PathAfterKeepsPath | backend/cuda_setup.py:655-656 | the old PATH string survives as the tail of the new one |
| SearchPaths.PathAfterMentionsAll | backend/cuda_setup.py:655-656 | afterwards every directory occurs in PATH as a substring |
| SearchPaths.PathAfterUnchanged | backend/cuda_setup.py:655 | when every directory is already a substring of PATH, PATH is not changed |
| SearchPaths.PathAfterKeepsParts | backend/cuda_setup.py:655-656 | when no directory contains `;`, every entry of the old PATH is still an entry of the new PATH, and a PATH that was set stays set |
| SearchPaths.PrependCriticalPaths | backend/cuda_setup.py:257-266 | the new PATH is the join of the parts with each missing critical directory inserted at the front in turn |
| SearchPaths.PrependMissingKeepsParts | backend/cuda_setup.py:262-264 | the existing entries stay, in order, at the end |
| SearchPaths.PrependMissingMembers | backend/cuda_setup.py:262-264 | an entry is in the result exactly when it was in PATH or is a critical directory |
| SearchPaths.PrependMissingPresent | backend/cuda_setup.py:262-264 | when every critical directory is already an entry, the list is left as it is |
| SearchPaths.PrependMissingNoDuplicates | backend/cuda_setup.py:263-264 | no duplicate is introduced: a duplicate-free PATH stays duplicate-free |
| SearchPaths.PrependThreeReversed | backend/cuda_setup.py:247-264 | three missing distinct directories end up in front in reverse order |
| SearchPaths.PrependKeepsPathString | backend/cuda_setup.py:257-266 | a non-empty PATH string survives as the tail of the rewritten PATH |
| SystemPython.Need | backend/cuda_setup.py:683-685 | `need` is the digits of `major`, one dot, and the digits of `minor`, and the two digit strings read back as `major` and `minor` |
| SystemPython.PrefixOf | backend/cuda_setup.py:704-716 | the launcher's prefix is `[py, "-M.m"]`; a command has a prefix exactly when `shutil.which` finds it |
| SystemPython.FindMatchingSystemPython | backend/cuda_setup.py:676-746 | builds the candidate list and walks it; returns `exe`, the first element of the first passing candidate's prefix (for the launcher, `py` alone), or nothing when no candidate passes |
| SystemPython.WalkCandidates | backend/cuda_setup.py:702-746 | the walk returns `exe` exactly when some candidate passes, and then it is the first element of the first passing candidate's prefix |
| SystemPython.SearchInFirst | backend/cuda_setup.py:702-737 | when candidate i passes and none before it does, the walk returns candidate i's prefix |
| SystemPython.SearchInNone | backend/cuda_setup.py:702-746 | when no candidate passes, the walk returns None |
| SystemPython.SearchInFindsFirst | backend/cuda_setup.py:702-746 | the walk is None exactly when no candidate passes; otherwise it is the prefix of a passing candidate with no passing candidate before it |
| SystemPython.SearchFindsFirstPassing | backend/cuda_setup.py:689-746 | the same for the fixed candidate order, and what is found reported exactly `M.m` and has a working pip |
| SystemPython.LauncherPreferred | backend/cuda_setup.py:697-709 | with `py` on PATH and `py -M.m` passing, the launcher wins whatever the other candidates report |
| SystemPython.ExactCommandPreferred | backend/cuda_setup.py:692-700 | without `py`, a passing `pythonM.m` wins |
| SystemPython.MajorCommandThird | backend/cuda_setup.py:692-700 | with `py` on PATH, when neither `py -M.m` nor `pythonM.m` passes and `pythonM` does, `pythonM` wins |
| SystemPython.MatchingExecutable | backend/cuda_setup.py:702-737 | an executable is returned exactly when some candidate passes |
| SystemPython.InstallCommand | backend/cuda_setup.py:813-815 | there is a strategy-2 command exactly when an interpreter is found, and `-m pip` follows the bare executable |
| SystemPython.ValidatedInstallCommand | backend/cuda_setup.py:813-815 | the corrected command exists exactly when an interpreter is found |
| SystemPython.ValidatedInstallCommandChecked | backend/cuda_setup.py:813-815 | the corrected command runs pip under exactly a prefix that reported `M.m` and passed the pip check |
| SystemPython.CommandsAgreeWithoutLauncher | backend/cuda_setup.py:697-715 | without `py` on PATH, the command as written is the corrected one |
| SystemPython.LauncherVersionDroppedAsWritten | backend/cuda_setup.py:813-815 | when `py -M.m` passes, the code as written runs `py -m pip` rather than `py -M.m -m pip` |
| Bootstrap.StopsAtFirstSuccess | backend/cuda_setup.py:785-858 | the strategies tried are a prefix of the order and all failed but the last; the chain installs by the last exactly when it installed and raises exactly when it escaped, with its code; with nothing installed, all were tried and all failed |
| Bootstrap.LibraryOnlyWhenNotFrozen | backend/cuda_setup.py:786-790 | pip as a library is tried exactly when not frozen, and then first; when frozen it never installs |
| Bootstrap.AttemptsMeaning | backend/cuda_setup.py:788-856 | each attempt is its strategy's rule as written: the library by its outcome, strategy 2 by pip under the returned executable, strategy 3 by pip under `sys.executable`; only strategy 1 can escape |
| Bootstrap.RaisesOnlyFromLibrary | backend/cuda_setup.py:790-806 | the chain raises exactly when not frozen and pip's `main` returns a nonzero code; then only strategy 1 was tried, and the error carries that code |
| Bootstrap.TryPipLibrary | backend/cuda_setup.py:790-806 | code 0 installs, returned or passed to `sys.exit`; a nonzero returned code escapes with that code; ImportError or a nonzero `SystemExit` falls through |
| Bootstrap.TrySystemPip | backend/cuda_setup.py:811-833 | installs exactly when the search returns an executable and `[exe, "-m", "pip", ...]` exits 0 |
| Bootstrap.TryExecutablePip | backend/cuda_setup.py:836-856 | the `sys.executable` strategy installs exactly when its pip exits 0 |
| Bootstrap.RunStrategies | backend/cuda_setup.py:785-856 | the `installed` flag threading tries exactly the chain's strategies and ends as the chain does: installed by the first that installs, nothing installed, or strategy 1's error escaping |
| Bootstrap.IntendedChainFallsThrough | backend/cuda_setup.py:785-858 | the corrected chain never raises; a failed library install hands over to strategy 2; with nothing installed every strategy was tried |
| Bootstrap.NonzeroLibraryExitEscapesAsWritten | backend/cuda_setup.py:790-806 | when pip's `main` returns 1, the chain as written raises, while the corrected chain installs by the validated system pip |
| Bootstrap.LauncherInstallFailsAsWritten | backend/cuda_setup.py:811-833 | frozen, when `py -M.m` passes but pip under bare `py` fails, the chain as written installs nothing, while the corrected chain installs by strategy 2 |
| Bootstrap.InFront | backend/cuda_setup.py:236-238 | the cache ends up in `sys.path`; a list that already has it is unchanged, otherwise the cache is put in front |
| Bootstrap.PythonPathAfterFacts | backend/cuda_setup.py:240-243 | the new PYTHONPATH contains the cache and ends with the old value, and a second rewrite changes nothing |
| Bootstrap.PreparedPathKeepsPath | backend/cuda_setup.py:257-266 | a PATH that was set survives as the tail of the prepared PATH, which contains every search directory |
| Bootstrap.PrepareFacts | backend/cuda_setup.py:219-274 | after preparing, the cache is in `sys.path`; off Windows nothing else changes; on Windows KMP_DUPLICATE_LIB_OK is TRUE, PYTHONPATH and PATH are rewritten, and the registered directories and the loaded libraries are appended |
| Bootstrap.PreparedTwice | backend/cuda_setup.py:1007 | preparing a second time leaves `sys.path`, KMP_DUPLICATE_LIB_OK and PYTHONPATH as the first pass left them, and registers the directories again; on Windows, when no critical or search directory contains `;`, PATH is also left as the first pass left it |
| Bootstrap.PreparedPathTwice | backend/cuda_setup.py:257-266 | when no critical or search directory contains `;`, rewriting PATH with the critical directories and then the registration loop a second time gives back the first result: every critical directory is already an entry and every search directory already a substring |
| Bootstrap.Precheck | backend/cuda_setup.py:904-928 | the error exits in order: no GPU, then no driver version, then an unparsable version, then a driver older than 11.8; on success the variant is the one `get_best_torch_variant` resolves, a table row the version qualifies for |
| Bootstrap.InstallResult | backend/cuda_setup.py:790-863 | `_install_torch` succeeds exactly when the chain installs; otherwise the error is pip's code when it escaped, or the manual `pip install` hint |
| Bootstrap.FirstInstall | backend/cuda_setup.py:901-945 | the first failing pre-check is the error; otherwise success exactly when the chain installs and torch imports, reporting the variant; `NotImportable` exactly when it installed but does not import; a pip exit error only from pip's `main` outside the frozen build |
| Bootstrap.Host.InstallPackages | backend/cuda_setup.py:760-867 | a cache without the completion marker is cleared first; the result and the strategies tried are the chain's; the markers and `torch` are written exactly on success; on failure no marker is written; the process state is unchanged |
| Bootstrap.Host.PrepareEnvironment | backend/cuda_setup.py:219-274 | the process state becomes the prepared state of the old one; the cache is unchanged |
| Bootstrap.Host.RegisterDllDirectories | backend/cuda_setup.py:568-656 | on Windows the registered search directories are appended and PATH becomes the fallback result; nothing else changes |
| Bootstrap.Host.PreloadTorchDlls | backend/cuda_setup.py:277-341 | on Windows the libraries loaded in the planned order are appended to those pre-loaded; nothing else changes |
| Bootstrap.Host.InstallTorch | backend/cuda_setup.py:881-953 | a valid cache is reported and left alone; otherwise the result is the first-install outcome; a pre-check error changes nothing; after a successful chain the markers are written and the environment is prepared; after a failed one the process is unchanged and the cache is cleaned or left as it was; the completion marker appears only after a successful install |
| Bootstrap.Host.LoadTorch | backend/cuda_setup.py:956-1022 | CUDA torch already importable is used as is, and CPU-only torch only outside the frozen build; with a valid cache the environment is prepared once and the cached variant reported, or "not loadable" when torch does not import; with an invalid cache a first-install failure is wrapped, and success prepares the environment twice and writes the markers |
| Filenames.Stem | backend/audio/utils.py:24 | the stem is a prefix of the file name |
| Filenames.Counters | backend/audio/utils.py:21-29 | one counter per listed name, in listing order |
| Filenames.MaxOfFacts | backend/audio/utils.py:20-27 | the maximum bounds every parsed counter, and it is one of them or 0 |
| Filenames.MaxCounter | backend/audio/utils.py:19-29 | `max_count` is at least every parsed counter, and it is one of them or 0 |
| Filenames.GetNextFilename | backend/audio/utils.py:17-32 | the name is `prefix_NNN` plus the extension for max + 1; that counter exceeds every parsed counter; with a plain extension the name is none of the existing names |
| Filenames.CounterOfNumberedName | backend/audio/utils.py:24-32 | reading back the counter of a generated name gives its number |
| Filenames.NextIsAvailable | backend/audio/utils.py:18-32 | with a plain extension (a dot and no further dot, such as the default ".wav"), the next name is not among the existing names |
| Filenames.CompoundExtensionCollides | backend/audio/utils.py:17-32 | with the extension ".tar.gz" and an existing "p_001.tar.gz", that file's counter does not parse, so "p_001.tar.gz" is returned again |
| Filenames.FirstNameIsOne | backend/audio/utils.py:19-32 | with no matching files the name is `prefix_001` plus the extension |
| Filenames.CounterFormat | backend/audio/utils.py:32 | counters below 1000 print as exactly three digits, larger ones in full, and the digits read back as the counter |

## Left out

- **What the model does not cover about its inputs.**
  - External calls are inputs to the model: nvidia-smi output (`detect_nvidia_gpu`, `detect_cuda_version`, `_find_nvidia_smi`), the pip library call, subprocess runs, `shutil.which`, `os.add_dll_directory`, `ctypes.CDLL` and `import torch`. Their results are given as data and oracles.
  - Filesystem walks are inputs too: `rglob`, `glob`, `iterdir`, `_find_system_cuda_paths` and `_find_nvidia_driver_paths`. The model receives their results as sequences; it does not model the walks.
  - `rmtree` and `mkdir` are taken to succeed, so their errors are not modelled.
  - `torch_lib.exists()` is modelled as "is a directory".
  - A successful pip run is assumed to leave the `torch` folder in the cache.
  - Bootstrap.Host.InstallPackages: a failed pip run is taken to write nothing into the cache. So after a failed chain, `torch` is stated absent when the cache was cleaned first and unchanged otherwise. Bootstrap.Host.InstallTorch states the same on its failed-chain path and rests on the same assumption.
  - Filenames.NextIsAvailable: freshness is proved only for plain extensions, a dot followed by characters none of which is a dot. With a compound extension such as ".tar.gz", `stem` keeps the inner suffix, so the existing counters do not parse and are skipped. The same name is then returned again, as Filenames.CompoundExtensionCollides shows. An extension without a leading dot collides the same way. The callers in `backend/main.py` use the default ".wav", which is plain.
- **Not modelled because they are platform side effects or diagnostics.**
  - `_ensure_python_dll_accessible` and `_preload_msvc_runtime_dlls`: platform loader side effects whose only logic is "first that loads wins".
  - `_ensure_python_dll_accessible` also prepends `_MEIPASS` to PATH when it is not a substring of it (`backend/cuda_setup.py:371-374`). It is called only from `_preload_torch_dlls`, after `_prepare_torch_environment` has already put `_MEIPASS` into PATH, so that write never happens. This is why `Bootstrap.Host.PreloadTorchDlls` leaves PATH unchanged.
  - `_log`, the log file and console re-encoding (`_configure_console_encoding`): output only.
  - The "critical DLL found" scan at the end of `_register_dll_directories`: diagnostic output only.
  - The post-install package listing: diagnostic output only.
  - What `load_torch` prints, and the version report at the end of `install_torch`: output only.
- **Where the model is deliberately narrower than the source.**
  - The text of the RuntimeError messages is not modelled. Errors are values of `SetupError` and `LoadError`. Only the `_install_torch` failure keeps its manual `pip install torch torchaudio --index-url` hint, and the escaped pip error keeps its exit code.
  - The environment is limited to the three variables the bootstrap writes: KMP_DUPLICATE_LIB_OK, PYTHONPATH and PATH.
  - The import cache is not modelled. Whether torch imports is one boolean per phase: one at the start of `load_torch`, and one after the environment is prepared.
  - The process is taken to be single-threaded: nothing else changes PATH while the loop reads it back.
  - Bootstrap.PreparedTwice: PATH is stated unchanged by the second pass only when no critical or search directory contains `;`. A critical directory that contains `;` is split apart when PATH is read back, so the next pass does not find it as an entry and inserts it again. PATH then grows on every prepare.
  - Only integer `SystemExit` codes and None are modelled. Other values passed to `sys.exit` by pip's `main` are not.
  - Exceptions from the pip library call other than ImportError and SystemExit are not modelled. Only a nonzero return code from pip's `main` is modelled as escaping `_install_torch`.
  - Bootstrap.Host.LoadTorch: when a first-launch install fails, only the process state is stated, not the cache markers; those follow `Bootstrap.Host.InstallTorch`.
- **Python built-ins the model simplifies.**
  - Variants.ParseVersion: `int()` also accepts surrounding whitespace inside a part, a sign, underscores between digits, and non-ASCII digits. The model accepts plain ASCII decimal digits only, so parts such as "+12" or " 12" are treated as unparsable.
  - Filenames.CounterOf: the same plain decimal parse. A negative counter never exceeds the floor of 0, so skipping it changes nothing. A counter written with a "+" sign or surrounding whitespace is skipped by the model, while Python would count it.
  - `str.lower` and `str.strip` are modelled on ASCII only. `lower` maps the ASCII letters. `strip` removes what Python counts as ASCII whitespace: space, tab, newline, carriage return, vertical tab, form feed, and the separators `\x1c` to `\x1f`.
  - Preload.LoadOrderIsPermutation: the permutation is stated only for listings with at most one name that lowercases to `torch_python.dll`. With two such names the loop keeps only the last, but Windows file names are case-insensitive, so one directory cannot hold both.
- **Out of scope: the rest of the repository.**
  - `save_wav`: file I/O.
  - `backend/audio/postprocess.py`: floating-point signal processing.
  - `backend/models/*`: thin wrappers over machine-learning libraries.
  - `backend/main.py`: the HTTP serving layer.
  - `backend/config.py`: constants and directory creation.
  - `src-tauri/src/main.rs`: process plumbing.

## Findings

| source | as written | input that shows it | evidently intended | confidence | as-written member | corrected member |
|---|---|---|---|---|---|---|
| backend/cuda_setup.py:793-799 | a nonzero exit code returned by pip's `main` raises `RuntimeError` inside a `try` that catches only `ImportError` and `SystemExit`, so the error leaves `_install_torch` and strategies 2 and 3 are never tried | not frozen, pip's `main` returns 1, and pip under a matching system Python would exit 0 | a failed library install falls through to the next strategy, as a `SystemExit` with a nonzero code already does | not executed | Bootstrap.NonzeroLibraryExitEscapesAsWritten | Bootstrap.IntendedChainFallsThrough |
| backend/cuda_setup.py:706-815 | when the `py -M.m` launcher candidate passes, the function returns only `exe` (the launcher), and the install runs `py -m pip ...`, which uses the launcher's default interpreter | `py` on PATH; `py -3.12` reports 3.12 and has pip; the default `py` is 3.13 | pip runs under the interpreter that was validated: `py -M.m -m pip ...` | not executed | SystemPython.LauncherVersionDroppedAsWritten | SystemPython.ValidatedInstallCommandChecked |
