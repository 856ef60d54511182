/** The DLL preload plan of `_preload_torch_dlls` in backend/cuda_setup.py:
    the found DLLs are sorted by lower-cased name, split into the priority
    group (a name prefix from the fixed list) and the rest, with
    `torch_python.dll` held back and appended last; then every entry is loaded
    in that order, a failure being counted and skipped. The directory listing
    and `ctypes.CDLL` are inputs: the names found and a load oracle. */
module Preload {
  import opened Wrappers
  import opened Text

  /** `priority_prefixes`, compared case-insensitively. */
  const PriorityPrefixes: seq<string> := [
    "cudart64", "cublas64", "cublasLt64", "cudnn64", "cudnn_",
    "cufft64", "cufftw64", "curand64", "cusolver64", "cusolverMg64",
    "cusparse64", "nvrtc", "nvJitLink", "nvToolsExt", "nvperf",
    "cupti64", "zlibwapi", "libiomp5md", "libiompstubs5md",
    "caffe2", "shm",
    "c10.dll", "torch_global_deps", "torch_cpu", "torch.dll",
    "c10_cuda", "torch_cuda", "uv.dll"
  ]

  /** The entry-bridge library, which must be loaded after everything else. */
  const BridgeName: string := "torch_python.dll"

  /** `any(name_lower.startswith(p.lower()) for p in priority_prefixes)`. */
  predicate HasPrefixAmong(s: string, prefixes: seq<string>)
  {
    prefixes != [] && (StartsWith(s, Lower(prefixes[0])) || HasPrefixAmong(s, prefixes[1..]))
  }

  /** The short-circuit test holds exactly when some prefix, lowered, starts
      the name. */
  lemma {:induction false} HasPrefixAmongIff(s: string, prefixes: seq<string>)
    ensures HasPrefixAmong(s, prefixes) <==> exists i | 0 <= i < |prefixes| :: StartsWith(s, Lower(prefixes[i]))
  {
    if prefixes != [] {
      HasPrefixAmongIff(s, prefixes[1..]);
      if exists i | 0 <= i < |prefixes| :: StartsWith(s, Lower(prefixes[i])) {
        var i :| 0 <= i < |prefixes| && StartsWith(s, Lower(prefixes[i]));
        if i > 0 {
          assert prefixes[1..][i - 1] == prefixes[i];
        }
      }
      if HasPrefixAmong(s, prefixes[1..]) {
        var i :| 0 <= i < |prefixes[1..]| && StartsWith(s, Lower(prefixes[1..][i]));
        assert prefixes[i + 1] == prefixes[1..][i];
      }
    }
  }

  /** Which branch of the partition loop a DLL takes. */
  datatype Kind = Bridge | Priority | Other

  /** The branch tests in their order: the bridge name first, then the
      prefixes. */
  function Classify(name: string): (k: Kind)
    ensures k == Bridge <==> Lower(name) == BridgeName
    ensures k == Priority <==> Lower(name) != BridgeName && HasPrefixAmong(Lower(name), PriorityPrefixes)
  {
    var nameLower := Lower(name);
    if nameLower == BridgeName then Bridge
    else if HasPrefixAmong(nameLower, PriorityPrefixes) then Priority
    else Other
  }

  // ---------------------------------------------------------------------
  // sorted(torch_lib.glob("*.dll"), key=lambda p: p.name.lower())
  // ---------------------------------------------------------------------

  /** The sort key order: `p.name.lower()` compared as Python compares
      strings. */
  predicate KeyLe(a: string, b: string) { LexLe(Lower(a), Lower(b)) }

  /** An order is usable for sorting when it is total and transitive. */
  ghost predicate TotalPreorder(le: (string, string) -> bool)
  {
    && (forall a, b :: le(a, b) || le(b, a))
    && (forall a, b, c :: le(a, b) && le(b, c) ==> le(a, c))
  }

  predicate SortedBy(s: seq<string>, le: (string, string) -> bool)
  {
    forall i, j | 0 <= i < j < |s| :: le(s[i], s[j])
  }

  lemma KeyLeIsTotalPreorder()
    ensures TotalPreorder(KeyLe)
  {
    forall a: string, b: string ensures KeyLe(a, b) || KeyLe(b, a) {
      LexLeTotal(Lower(a), Lower(b));
    }
    forall a: string, b: string, c: string | KeyLe(a, b) && KeyLe(b, c) ensures KeyLe(a, c) {
      LexLeTransitive(Lower(a), Lower(b), Lower(c));
    }
  }

  /** Insert `x` in front of the first element not below it, so equal keys
      keep their input order, as Python's stable sort does. */
  function Insert(x: string, s: seq<string>, le: (string, string) -> bool): (r: seq<string>)
    ensures multiset(r) == multiset(s) + multiset{x}
  {
    if s == [] then [x]
    else if le(x, s[0]) then [x] + s
    else
      assert s == [s[0]] + s[1..];
      [s[0]] + Insert(x, s[1..], le)
  }

  lemma {:induction false} InsertSorted(x: string, s: seq<string>, le: (string, string) -> bool)
    requires TotalPreorder(le) && SortedBy(s, le)
    ensures SortedBy(Insert(x, s, le), le)
  {
    if s != [] && !le(x, s[0]) {
      var tail := s[1..];
      assert SortedBy(tail, le) by {
        forall i, j | 0 <= i < j < |tail| ensures le(tail[i], tail[j]) {
          assert tail[i] == s[i + 1] && tail[j] == s[j + 1];
        }
      }
      InsertSorted(x, tail, le);
      var rest := Insert(x, tail, le);
      forall j | 0 <= j < |rest| ensures le(s[0], rest[j]) {
        assert rest[j] in multiset(rest);
        if rest[j] != x {
          assert rest[j] in multiset(tail);
          var k :| 0 <= k < |tail| && tail[k] == rest[j];
          assert s[k + 1] == rest[j];
        }
      }
    }
  }

  /** Insertion sort by `le`: a permutation of its input. */
  function SortBy(s: seq<string>, le: (string, string) -> bool): (r: seq<string>)
    ensures multiset(r) == multiset(s)
  {
    if s == [] then []
    else
      assert s == [s[0]] + s[1..];
      Insert(s[0], SortBy(s[1..], le), le)
  }

  lemma {:induction false} SortBySorted(s: seq<string>, le: (string, string) -> bool)
    requires TotalPreorder(le)
    ensures SortedBy(SortBy(s, le), le)
  {
    if s != [] {
      SortBySorted(s[1..], le);
      InsertSorted(s[0], SortBy(s[1..], le), le);
    }
  }

  /** The elements of `s` that satisfy `p`, in their order. */
  function Filter(s: seq<string>, p: string -> bool): seq<string>
  {
    if s == [] then [] else (if p(s[0]) then [s[0]] else []) + Filter(s[1..], p)
  }

  /** Inserting keeps the relative order of any group of mutually
      tied elements: `x` only passes elements strictly below it. */
  lemma {:induction false} InsertKeepsTies(x: string, s: seq<string>, le: (string, string) -> bool, p: string -> bool)
    requires forall u, v | p(u) && p(v) :: le(u, v)
    ensures Filter(Insert(x, s, le), p) == Filter([x] + s, p)
  {
    if s != [] && !le(x, s[0]) {
      var y, t := s[0], s[1..];
      InsertKeepsTies(x, t, le, p);
      FilterCons(y, Insert(x, t, le), p);
      FilterCons(x, t, p);
      FilterCons(x, s, p);
      FilterCons(y, t, p);
      assert s == [y] + t;
      assert !(p(x) && p(y));
    }
  }

  lemma FilterCons(x: string, s: seq<string>, p: string -> bool)
    ensures Filter([x] + s, p) == (if p(x) then [x] else []) + Filter(s, p)
  {
    assert ([x] + s)[1..] == s;
  }

  /** The sort is stable: a group of mutually tied elements comes out in
      the order it went in. */
  lemma {:induction false} SortByKeepsTies(s: seq<string>, le: (string, string) -> bool, p: string -> bool)
    requires forall u, v | p(u) && p(v) :: le(u, v)
    ensures Filter(SortBy(s, le), p) == Filter(s, p)
  {
    if s != [] {
      SortByKeepsTies(s[1..], le, p);
      InsertKeepsTies(s[0], SortBy(s[1..], le), le, p);
      FilterCons(s[0], SortBy(s[1..], le), p);
    }
  }

  /** Like Python's stable `sorted`, names that are equal once lower-cased
      keep the order of the listing. */
  lemma SortByLowerNameStable(s: seq<string>, key: string)
    ensures Filter(SortByLowerName(s), n => Lower(n) == key) == Filter(s, n => Lower(n) == key)
  {
    var p := (n: string) => Lower(n) == key;
    forall u, v | p(u) && p(v) ensures KeyLe(u, v) {
      LexLeReflexive(Lower(u));
    }
    SortByKeepsTies(s, KeyLe, p);
  }

  /** `sorted(..., key=lambda p: p.name.lower())`: ordered by lower-cased
      name, and a permutation of the names found. */
  function SortByLowerName(s: seq<string>): (r: seq<string>)
    ensures SortedBy(r, KeyLe)
    ensures multiset(r) == multiset(s)
  {
    KeyLeIsTotalPreorder();
    SortBySorted(s, KeyLe);
    SortBy(s, KeyLe)
  }

  // ---------------------------------------------------------------------
  // The partition, as functions of the sorted listing. They take the
  // classification as a parameter; the plan uses Classify.
  // ---------------------------------------------------------------------

  /** `priority` after the loop over `s`. */
  function PriorityGroup(s: seq<string>, kind: string -> Kind): seq<string>
  {
    if s == [] then []
    else
      var x := s[|s| - 1];
      PriorityGroup(s[..|s| - 1], kind) + (if kind(x) == Priority then [x] else [])
  }

  /** `remaining` after the loop over `s`. */
  function RemainingGroup(s: seq<string>, kind: string -> Kind): seq<string>
  {
    if s == [] then []
    else
      var x := s[|s| - 1];
      RemainingGroup(s[..|s| - 1], kind) + (if kind(x) == Other then [x] else [])
  }

  /** `torch_python` after the loop over `s`: the last bridge entry seen. */
  function LastBridge(s: seq<string>, kind: string -> Kind): Option<string>
  {
    if s == [] then None
    else if kind(s[|s| - 1]) == Bridge then Some(s[|s| - 1])
    else LastBridge(s[..|s| - 1], kind)
  }

  function BridgeTail(s: seq<string>, kind: string -> Kind): seq<string>
  {
    if LastBridge(s, kind).Some? then [LastBridge(s, kind).value] else []
  }

  /** `load_order`: priority, then remaining, then the bridge if present. */
  function LoadOrder(s: seq<string>, kind: string -> Kind): seq<string>
  {
    PriorityGroup(s, kind) + RemainingGroup(s, kind) + BridgeTail(s, kind)
  }

  /** The load order `_preload_torch_dlls` builds from the DLL names it finds:
      sort, partition, then priority, remaining and `torch_python` last. */
  method PlanLoadOrder(found: seq<string>) returns (loadOrder: seq<string>)
    ensures loadOrder == LoadOrder(SortByLowerName(found), Classify)
  {
    var allDlls := SortByLowerName(found);
    var priority, remaining, torchPython := Partition(allDlls);
    loadOrder := priority + remaining;
    if torchPython.Some? {
      loadOrder := loadOrder + [torchPython.value];
    }
  }

  /** The partition loop: one pass appending to `priority` or `remaining`
      or setting `torch_python`. */
  method Partition(allDlls: seq<string>)
    returns (priority: seq<string>, remaining: seq<string>, torchPython: Option<string>)
    ensures priority == PriorityGroup(allDlls, Classify)
    ensures remaining == RemainingGroup(allDlls, Classify)
    ensures torchPython == LastBridge(allDlls, Classify)
  {
    priority, remaining, torchPython := [], [], None;
    for i := 0 to |allDlls|
      invariant priority == PriorityGroup(allDlls[..i], Classify)
      invariant remaining == RemainingGroup(allDlls[..i], Classify)
      invariant torchPython == LastBridge(allDlls[..i], Classify)
    {
      GroupsStep(allDlls, i, Classify);
      var dll := allDlls[i];
      var nameLower := Lower(dll);
      if nameLower == BridgeName {
        assert Classify(dll) == Bridge;
        torchPython := Some(dll);
      } else if HasPrefixAmong(nameLower, PriorityPrefixes) {
        assert Classify(dll) == Priority;
        priority := priority + [dll];
      } else {
        assert Classify(dll) == Other;
        remaining := remaining + [dll];
      }
    }
    assert allDlls[..|allDlls|] == allDlls;
  }

  /** What one more entry of the listing does to the groups. */
  lemma GroupsStep(s: seq<string>, i: nat, kind: string -> Kind)
    requires i < |s|
    ensures PriorityGroup(s[..i + 1], kind) == PriorityGroup(s[..i], kind) + (if kind(s[i]) == Priority then [s[i]] else [])
    ensures RemainingGroup(s[..i + 1], kind) == RemainingGroup(s[..i], kind) + (if kind(s[i]) == Other then [s[i]] else [])
    ensures LastBridge(s[..i + 1], kind) == if kind(s[i]) == Bridge then Some(s[i]) else LastBridge(s[..i], kind)
  {
    assert s[..i + 1][..i] == s[..i];
  }

  // ---------------------------------------------------------------------
  // Properties of the plan
  // ---------------------------------------------------------------------

  lemma {:induction false} PriorityGroupMembers(s: seq<string>, kind: string -> Kind)
    ensures forall x | x in PriorityGroup(s, kind) :: x in s && kind(x) == Priority
  {
    if s != [] {
      PriorityGroupMembers(s[..|s| - 1], kind);
    }
  }

  lemma {:induction false} RemainingGroupMembers(s: seq<string>, kind: string -> Kind)
    ensures forall x | x in RemainingGroup(s, kind) :: x in s && kind(x) == Other
  {
    if s != [] {
      RemainingGroupMembers(s[..|s| - 1], kind);
    }
  }

  predicate HasBridge(s: seq<string>, kind: string -> Kind)
  {
    exists i | 0 <= i < |s| :: kind(s[i]) == Bridge
  }

  lemma {:induction false} LastBridgeFacts(s: seq<string>, kind: string -> Kind)
    ensures LastBridge(s, kind).Some? <==> HasBridge(s, kind)
    ensures LastBridge(s, kind).Some? ==> LastBridge(s, kind).value in s && kind(LastBridge(s, kind).value) == Bridge
  {
    if s != [] {
      var init := s[..|s| - 1];
      LastBridgeFacts(init, kind);
      if kind(s[|s| - 1]) != Bridge && HasBridge(s, kind) {
        var i :| 0 <= i < |s| && kind(s[i]) == Bridge;
        assert init[i] == s[i];
      }
      if LastBridge(init, kind).Some? && kind(s[|s| - 1]) != Bridge {
        var i :| 0 <= i < |init| && kind(init[i]) == Bridge;
        assert s[i] == init[i];
      }
    }
  }

  /** The shape of the load order: the priority group first, then the other
      libraries, then the bridge library alone at the end when one was found. */
  lemma LoadOrderShape(s: seq<string>, kind: string -> Kind)
    ensures var order := LoadOrder(s, kind);
      var p := |PriorityGroup(s, kind)|; var q := p + |RemainingGroup(s, kind)|;
      && (forall i | 0 <= i < p :: kind(order[i]) == Priority)
      && (forall i | p <= i < q :: kind(order[i]) == Other)
      && (HasBridge(s, kind) <==> |order| == q + 1)
      && (|order| == q + 1 ==> kind(order[q]) == Bridge)
      && |order| <= q + 1
  {
    var order := LoadOrder(s, kind);
    var pg, rg := PriorityGroup(s, kind), RemainingGroup(s, kind);
    PriorityGroupMembers(s, kind);
    RemainingGroupMembers(s, kind);
    LastBridgeFacts(s, kind);
    forall i | 0 <= i < |pg| ensures kind(order[i]) == Priority {
      assert order[i] == pg[i] && pg[i] in pg;
    }
    forall i | |pg| <= i < |pg| + |rg| ensures kind(order[i]) == Other {
      assert order[i] == rg[i - |pg|] && rg[i - |pg|] in rg;
    }
  }

  /** `torch_python.dll` is loaded last whatever its place in the sorted
      listing: if the listing has it, the plan ends with it and has it nowhere
      else. */
  lemma BridgeLoadedLast(s: seq<string>, kind: string -> Kind)
    requires HasBridge(s, kind)
    ensures var order := LoadOrder(s, kind);
      |order| > 0 && kind(order[|order| - 1]) == Bridge &&
      forall i | 0 <= i < |order| - 1 :: kind(order[i]) != Bridge
  {
    LoadOrderShape(s, kind);
  }

  predicate AtMostOneBridge(s: seq<string>, kind: string -> Kind)
  {
    forall i, j | 0 <= i < |s| && 0 <= j < |s| && kind(s[i]) == Bridge && kind(s[j]) == Bridge :: i == j
  }

  /** With at most one bridge entry (file names in one directory on Windows
      differ beyond case, so there is at most one `torch_python.dll`), the
      load order is a permutation of the listing. With two, Python keeps only
      the last. */
  lemma {:induction false} LoadOrderIsPermutation(s: seq<string>, kind: string -> Kind)
    requires AtMostOneBridge(s, kind)
    ensures multiset(LoadOrder(s, kind)) == multiset(s)
  {
    if s != [] {
      var init, x := s[..|s| - 1], s[|s| - 1];
      assert s == init + [x];
      assert AtMostOneBridge(init, kind) by {
        forall i, j | 0 <= i < |init| && 0 <= j < |init| && kind(init[i]) == Bridge && kind(init[j]) == Bridge
          ensures i == j
        {
          assert s[i] == init[i] && s[j] == init[j];
        }
      }
      LoadOrderIsPermutation(init, kind);
      if kind(x) == Bridge {
        forall i | 0 <= i < |init| ensures kind(init[i]) != Bridge {
          assert s[i] == init[i];
        }
        LastBridgeFacts(init, kind);
      }
      PartitionStep(init, x, kind);
    }
  }

  /** One more entry at the end of the listing. */
  lemma PartitionStep(init: seq<string>, x: string, kind: string -> Kind)
    requires kind(x) == Bridge ==> LastBridge(init, kind).None?
    ensures multiset(LoadOrder(init + [x], kind)) == multiset(LoadOrder(init, kind)) + multiset{x}
  {
    var s := init + [x];
    assert s[..|s| - 1] == init;
    var pg, rg, tail := PriorityGroup(init, kind), RemainingGroup(init, kind), BridgeTail(init, kind);
    if kind(x) == Bridge {
      assert PriorityGroup(s, kind) == pg + [];
      assert RemainingGroup(s, kind) == rg + [];
      assert BridgeTail(s, kind) == [x] && tail == [];
    } else if kind(x) == Priority {
      assert PriorityGroup(s, kind) == pg + [x];
      assert RemainingGroup(s, kind) == rg + [];
      assert BridgeTail(s, kind) == tail;
    } else {
      assert PriorityGroup(s, kind) == pg + [];
      assert RemainingGroup(s, kind) == rg + [x];
      assert BridgeTail(s, kind) == tail;
    }
  }

  /** Each group keeps the order of the listing: sorted in, sorted out,
      for any order. */
  lemma {:induction false} GroupsKeepSortedOrder(s: seq<string>, kind: string -> Kind, le: (string, string) -> bool)
    requires SortedBy(s, le)
    ensures SortedBy(PriorityGroup(s, kind), le)
    ensures SortedBy(RemainingGroup(s, kind), le)
  {
    if s != [] {
      var init, x := s[..|s| - 1], s[|s| - 1];
      assert SortedBy(init, le) by {
        forall i, j | 0 <= i < j < |init| ensures le(init[i], init[j]) {
          assert init[i] == s[i] && init[j] == s[j];
        }
      }
      GroupsKeepSortedOrder(init, kind, le);
      PriorityGroupMembers(init, kind);
      RemainingGroupMembers(init, kind);
      forall y | y in init ensures le(y, x) {
        var k :| 0 <= k < |init| && init[k] == y;
        assert s[k] == y;
      }
      var pg, ps := PriorityGroup(init, kind), PriorityGroup(s, kind);
      forall i, j | 0 <= i < j < |ps| ensures le(ps[i], ps[j]) {
        if j >= |pg| { assert ps[i] == pg[i] && pg[i] in pg; }
      }
      var rg, rs := RemainingGroup(init, kind), RemainingGroup(s, kind);
      forall i, j | 0 <= i < j < |rs| ensures le(rs[i], rs[j]) {
        if j >= |rg| { assert rs[i] == rg[i] && rg[i] in rg; }
      }
    }
  }

  /** Hence in the plan built from the sorted listing each group is in
      lower-cased name order (the priority group is not in prefix-list
      order). */
  lemma PlanGroupsSortedByName(found: seq<string>)
    ensures SortedBy(PriorityGroup(SortByLowerName(found), Classify), KeyLe)
    ensures SortedBy(RemainingGroup(SortByLowerName(found), Classify), KeyLe)
  {
    GroupsKeepSortedOrder(SortByLowerName(found), Classify, KeyLe);
  }

  // ---------------------------------------------------------------------
  // The load loop
  // ---------------------------------------------------------------------

  /** The DLLs that end up loaded when each entry of `order` is tried in turn;
      `tryLoad(loaded, name)` says whether `ctypes.CDLL(name)` succeeds after
      the libraries in `loaded`. */
  function LoadedBy(order: seq<string>, tryLoad: (seq<string>, string) -> bool): seq<string>
  {
    if order == [] then []
    else
      var before := LoadedBy(order[..|order| - 1], tryLoad);
      if tryLoad(before, order[|order| - 1]) then before + [order[|order| - 1]] else before
  }

  /** The pre-load loop: every entry is tried, a failure is counted and the
      loop goes on; the counts add up to the length of the plan. */
  method LoadAll(order: seq<string>, tryLoad: (seq<string>, string) -> bool)
    returns (loaded: seq<string>, loadedCount: nat, failedCount: nat, ghost attempted: seq<string>)
    ensures attempted == order
    ensures loaded == LoadedBy(order, tryLoad)
    ensures loadedCount == |loaded|
    ensures loadedCount + failedCount == |order|
  {
    loaded, loadedCount, failedCount, attempted := [], 0, 0, [];
    for i := 0 to |order|
      invariant attempted == order[..i]
      invariant loaded == LoadedBy(order[..i], tryLoad)
      invariant loadedCount == |loaded|
      invariant loadedCount + failedCount == i
    {
      assert order[..i + 1][..i] == order[..i];
      attempted := attempted + [order[i]];
      if tryLoad(loaded, order[i]) {
        loaded := loaded + [order[i]];
        loadedCount := loadedCount + 1;
      } else {
        failedCount := failedCount + 1;
      }
    }
    assert order[..|order|] == order;
  }

  /** No more libraries are loaded than planned, and each loaded one is
      in the plan. */
  lemma {:induction false} LoadedArePlanned(order: seq<string>, tryLoad: (seq<string>, string) -> bool)
    ensures |LoadedBy(order, tryLoad)| <= |order|
    ensures forall x | x in LoadedBy(order, tryLoad) :: x in order
  {
    if order != [] {
      LoadedArePlanned(order[..|order| - 1], tryLoad);
    }
  }

  /** A failed load does not stop the later ones: when every load but one
      succeeds, everything else in the plan is loaded. */
  lemma {:induction false} OneFailureLosesOneEntry(order: seq<string>, tryLoad: (seq<string>, string) -> bool, bad: string)
    requires forall before: seq<string>, x: string :: tryLoad(before, x) <==> x != bad
    ensures LoadedBy(order, tryLoad) == Without(order, bad)
  {
    if order != [] {
      OneFailureLosesOneEntry(order[..|order| - 1], tryLoad, bad);
    }
  }

  /** `order` with every occurrence of `bad` dropped. */
  function Without(order: seq<string>, bad: string): (r: seq<string>)
    ensures bad !in r
  {
    if order == [] then []
    else Without(order[..|order| - 1], bad) + (if order[|order| - 1] == bad then [] else [order[|order| - 1]])
  }
}
