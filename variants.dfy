/** The variant resolver of backend/cuda_setup.py: the newest-first table of
    CUDA builds of PyTorch, `_parse_version` and `get_best_torch_variant`. */
module Variants {
  import opened Wrappers
  import opened Text

  /** A parsed version: the tuple `_parse_version` builds, one or two numbers. */
  type Version = seq<int>

  /** One row of `TORCH_CUDA_VARIANTS`: the lowest driver CUDA version the build
      needs, the pip variant tag and the package index URL. */
  datatype Variant = Variant(minMajor: nat, minMinor: nat, tag: string, indexUrl: string)
  {
    function MinVersion(): Version { [minMajor, minMinor] }
  }

  /** `TORCH_CUDA_VARIANTS`, newest first. */
  const TorchCudaVariants: seq<Variant> := [
    Variant(13, 0, "cu130", "https://download.pytorch.org/whl/cu130"),
    Variant(12, 8, "cu128", "https://download.pytorch.org/whl/cu128"),
    Variant(12, 6, "cu126", "https://download.pytorch.org/whl/cu126"),
    Variant(12, 4, "cu124", "https://download.pytorch.org/whl/cu124"),
    Variant(12, 1, "cu121", "https://download.pytorch.org/whl/cu121"),
    Variant(11, 8, "cu118", "https://download.pytorch.org/whl/cu118")
  ]

  // ---------------------------------------------------------------------
  // Python tuple comparison
  // ---------------------------------------------------------------------

  /** Python's `a < b` on tuples of ints: lexicographic, and a proper prefix
      is smaller (so `(13,) < (13, 0)`). */
  predicate TupleLess(a: Version, b: Version)
  {
    if a == [] then b != []
    else if b == [] then false
    else a[0] < b[0] || (a[0] == b[0] && TupleLess(a[1..], b[1..]))
  }

  /** Python's `a >= b` on tuples. */
  predicate AtLeast(a: Version, b: Version) { !TupleLess(a, b) }

  lemma {:induction false} TupleLessTransitive(a: Version, b: Version, c: Version)
    requires TupleLess(a, b) && TupleLess(b, c)
    ensures TupleLess(a, c)
  {
    if a != [] && a[0] == b[0] && b[0] == c[0] {
      TupleLessTransitive(a[1..], b[1..], c[1..]);
    }
  }

  lemma {:induction false} TupleLessTrichotomy(a: Version, b: Version)
    ensures TupleLess(a, b) || a == b || TupleLess(b, a)
  {
    if a != [] && b != [] && a[0] == b[0] {
      TupleLessTrichotomy(a[1..], b[1..]);
      if a[1..] == b[1..] {
        assert a == [a[0]] + a[1..] && b == [b[0]] + b[1..];
      }
    }
  }

  lemma {:induction false} TupleLessIrreflexive(a: Version)
    ensures !TupleLess(a, a)
  {
    if a != [] {
      TupleLessIrreflexive(a[1..]);
    }
  }

  /** `AtLeast` is transitive, so a build the older driver can run is one the
      newer driver can run too. */
  lemma AtLeastTransitive(a: Version, b: Version, c: Version)
    requires AtLeast(a, b) && AtLeast(b, c)
    ensures AtLeast(a, c)
  {
    TupleLessTrichotomy(a, b);
    TupleLessTrichotomy(b, c);
    if TupleLess(a, c) {
      if TupleLess(b, a) {
        TupleLessTransitive(b, a, c);
      }
      if TupleLess(c, b) {
        TupleLessTransitive(a, c, b);
      }
    }
  }

  // ---------------------------------------------------------------------
  // _parse_version
  // ---------------------------------------------------------------------

  /** `int(p)` for each part, failing (a ValueError in Python) on the first
      part that is not a plain decimal number. */
  function ParseParts(parts: seq<string>): (r: Option<Version>)
    ensures r.Some? ==> |r.value| == |parts|
    ensures r.Some? <==> forall i | 0 <= i < |parts| :: ParseNat(parts[i]).Some?
    ensures r.Some? ==> forall i | 0 <= i < |parts| :: r.value[i] == ParseNat(parts[i]).value
  {
    if parts == [] then Some([])
    else
      var first, rest := ParseNat(parts[0]), ParseParts(parts[1..]);
      if first.Some? && rest.Some? then Some([first.value as int] + rest.value) else None
  }

  /** The first two dot-separated parts of the stripped string (fewer when
      there are fewer). */
  function FirstTwoParts(s: string): (parts: seq<string>)
    ensures 1 <= |parts| <= 2
  {
    var all := Split(Strip(s), '.');
    if |all| >= 2 then all[..2] else all
  }

  /** `_parse_version`: `tuple(int(p) for p in s.strip().split(".")[:2])`;
      None stands for the ValueError. */
  function ParseVersion(s: string): (r: Option<Version>)
    ensures r.Some? ==> 1 <= |r.value| <= 2 && forall i | 0 <= i < |r.value| :: r.value[i] >= 0
    ensures r.Some? <==> forall i | 0 <= i < |FirstTwoParts(s)| :: ParseNat(FirstTwoParts(s)[i]).Some?
    ensures r.Some? ==> |r.value| == |FirstTwoParts(s)|
    ensures r.Some? ==> forall i | 0 <= i < |r.value| :: r.value[i] == ParseNat(FirstTwoParts(s)[i]).value
  {
    ParseParts(FirstTwoParts(s))
  }

  // ---------------------------------------------------------------------
  // get_best_torch_variant
  // ---------------------------------------------------------------------

  /** The scan `for min_ver, ... in table: if v >= min_ver: return ...`: the
      index of the first row the version reaches. */
  function FirstQualifying(table: seq<Variant>, v: Version): (r: Option<nat>)
    ensures r.Some? ==> r.value < |table| && AtLeast(v, table[r.value].MinVersion())
    ensures r.Some? ==> forall j | 0 <= j < r.value :: !AtLeast(v, table[j].MinVersion())
    ensures r.None? ==> forall j | 0 <= j < |table| :: !AtLeast(v, table[j].MinVersion())
  {
    if table == [] then None
    else if AtLeast(v, table[0].MinVersion()) then Some(0)
    else match FirstQualifying(table[1..], v)
      case None => None
      case Some(i) => Some(i + 1)
  }

  /** The row chosen for an already parsed version, None for `(None, None)`. */
  function Resolve(v: Version): Option<Variant>
  {
    match FirstQualifying(TorchCudaVariants, v)
    case None => None
    case Some(i) => Some(TorchCudaVariants[i])
  }

  /** `get_best_torch_variant`: Failure for the ValueError `_parse_version`
      raises, Success(None) for `(None, None)`, else the chosen row. */
  function BestVariant(cudaVersion: string): (r: Result<Option<Variant>, string>)
    ensures r.Failure? <==> ParseVersion(cudaVersion).None?
    ensures r.Success? ==> r.value == Resolve(ParseVersion(cudaVersion).value)
  {
    match ParseVersion(cudaVersion)
    case None => Failure(cudaVersion)
    case Some(v) => Success(Resolve(v))
  }

  // ---------------------------------------------------------------------
  // Properties
  // ---------------------------------------------------------------------

  /** The table is strictly descending by minimum version. */
  lemma TableStrictlyDescending()
    ensures forall i, j | 0 <= i < j < |TorchCudaVariants| ::
      TupleLess(TorchCudaVariants[j].MinVersion(), TorchCudaVariants[i].MinVersion())
  {
    var t := TorchCudaVariants;
    forall i, j | 0 <= i < j < |t|
      ensures TupleLess(t[j].MinVersion(), t[i].MinVersion())
    {
      assert t[j].MinVersion()[1..] == [t[j].minMinor];
      assert t[i].MinVersion()[1..] == [t[i].minMinor];
    }
  }

  /** The resolver returns a row the version reaches, ahead of which no row
      qualifies; None exactly when no row qualifies. */
  lemma ResolveIsFirstQualifying(v: Version)
    ensures Resolve(v).Some? ==> exists i | 0 <= i < |TorchCudaVariants| ::
      Resolve(v).value == TorchCudaVariants[i] && AtLeast(v, TorchCudaVariants[i].MinVersion())
      && forall j | 0 <= j < i :: !AtLeast(v, TorchCudaVariants[j].MinVersion())
    ensures Resolve(v).None? <==> forall j | 0 <= j < |TorchCudaVariants| :: !AtLeast(v, TorchCudaVariants[j].MinVersion())
  {
    var r := FirstQualifying(TorchCudaVariants, v);
    if r.Some? {
      assert Resolve(v).value == TorchCudaVariants[r.value];
    }
  }

  /** Because the table is newest first, the chosen row has the highest
      minimum version among all rows the driver version reaches. */
  lemma ResolveIsHighest(v: Version)
    ensures Resolve(v).Some? ==> forall j | 0 <= j < |TorchCudaVariants| && AtLeast(v, TorchCudaVariants[j].MinVersion()) ::
      AtLeast(Resolve(v).value.MinVersion(), TorchCudaVariants[j].MinVersion())
  {
    var t := TorchCudaVariants;
    var r := FirstQualifying(t, v);
    if r.Some? {
      var k := r.value;
      forall j | 0 <= j < |t| && AtLeast(v, t[j].MinVersion())
        ensures AtLeast(t[k].MinVersion(), t[j].MinVersion())
      {
        TableStrictlyDescending();
        if j == k {
          TupleLessIrreflexive(t[k].MinVersion());
        } else {
          assert k < j;
          TupleLessTrichotomy(t[k].MinVersion(), t[j].MinVersion());
          if TupleLess(t[k].MinVersion(), t[j].MinVersion()) {
            TupleLessTransitive(t[k].MinVersion(), t[j].MinVersion(), t[k].MinVersion());
            TupleLessIrreflexive(t[k].MinVersion());
          }
        }
      }
    }
  }

  /** A newer driver never gets an older build: the chosen minimum version is
      monotone in the driver version, and a supported version stays supported. */
  lemma ResolveMonotone(v1: Version, v2: Version)
    requires AtLeast(v2, v1)
    ensures Resolve(v1).Some? ==> Resolve(v2).Some?
    ensures Resolve(v1).Some? ==> AtLeast(Resolve(v2).value.MinVersion(), Resolve(v1).value.MinVersion())
  {
    var t := TorchCudaVariants;
    var r1 := FirstQualifying(t, v1);
    if r1.Some? {
      var k1 := r1.value;
      AtLeastTransitive(v2, v1, t[k1].MinVersion());
      ResolveIsHighest(v2);
    }
  }

  /** The driver qualifies for some build exactly when it reaches the oldest
      row, CUDA 11.8. */
  lemma SupportedIffAtLeastOldest(v: Version)
    ensures Resolve(v).Some? <==> AtLeast(v, [11, 8])
  {
    var t := TorchCudaVariants;
    assert t[5].MinVersion() == [11, 8];
    if AtLeast(v, [11, 8]) {
      assert FirstQualifying(t, v).Some?;
    } else {
      forall j | 0 <= j < |t|
        ensures !AtLeast(v, t[j].MinVersion())
      {
        TableStrictlyDescending();
        if j < 5 && AtLeast(v, t[j].MinVersion()) {
          TupleLessTransitive(v, t[5].MinVersion(), t[j].MinVersion());
        }
      }
    }
  }

  /** The resolver picks row `k` when the version reaches it and no earlier row. */
  lemma ResolveAt(v: Version, k: nat)
    requires k < |TorchCudaVariants| && AtLeast(v, TorchCudaVariants[k].MinVersion())
    requires forall j | 0 <= j < k :: !AtLeast(v, TorchCudaVariants[j].MinVersion())
    ensures Resolve(v) == Some(TorchCudaVariants[k])
  {
    var r := FirstQualifying(TorchCudaVariants, v);
    assert r.Some?;
    assert !(r.value < k) && !(k < r.value);
  }

  /** Two-number tuples compare by major, then by minor. */
  lemma PairLess(a0: int, a1: int, b0: int, b1: int)
    ensures TupleLess([a0, a1], [b0, b1]) <==> a0 < b0 || (a0 == b0 && a1 < b1)
  {
    assert [a0, a1][1..] == [a1] && [b0, b1][1..] == [b1];
    assert [a1][1..] == [] && [b1][1..] == [];
    assert TupleLess([a1], [b1]) <==> a1 < b1;
  }

  lemma StripUnchanged(s: string)
    requires s != [] && !IsSpace(s[0]) && !IsSpace(s[|s| - 1])
    ensures Strip(s) == s
  {
  }

  /** A string "M.m" with digit-only, non-empty parts parses to (M, m). */
  lemma ParseTwoParts(major: string, minor: string)
    requires ParseNat(major).Some? && ParseNat(minor).Some?
    ensures ParseVersion(major + "." + minor) == Some([ParseNat(major).value as int, ParseNat(minor).value as int])
  {
    var s := major + "." + minor;
    assert s[0] == major[0] && IsDigit(major[0]);
    assert s[|s| - 1] == minor[|minor| - 1] && IsDigit(minor[|minor| - 1]);
    StripUnchanged(s);
    DigitsExclude(major, '.');
    SplitFirst(major, '.', minor);
    DigitsExclude(minor, '.');
    assert Split(minor, '.') == [minor];
    assert FirstTwoParts(s) == [major, minor];
    ParsePair(major, minor);
  }

  lemma ParsePair(major: string, minor: string)
    requires ParseNat(major).Some? && ParseNat(minor).Some?
    ensures ParseParts([major, minor]) == Some([ParseNat(major).value as int, ParseNat(minor).value as int])
  {
    assert [major, minor][1..] == [minor] && [minor][1..] == [];
    assert ParseParts([]) == Some([]);
    var m: int := ParseNat(minor).value;
    assert [m] + [] == [m];
    assert ParseParts([minor]) == Some([m]);
    var M: int := ParseNat(major).value;
    assert [M] + [m] == [M, m];
  }

  /** A string "M.m.rest" with digit-only M and m takes its version from M and m
      alone. */
  lemma ParseThreeParts(major: string, minor: string, rest: string)
    requires ParseNat(major).Some? && ParseNat(minor).Some?
    requires rest != [] && !IsSpace(rest[|rest| - 1])
    ensures ParseVersion(major + "." + minor + "." + rest) == ParseVersion(major + "." + minor)
  {
    SameFirstTwoParts(major, minor, rest);
  }

  lemma SameFirstTwoParts(major: string, minor: string, rest: string)
    requires ParseNat(major).Some? && ParseNat(minor).Some?
    requires rest != [] && !IsSpace(rest[|rest| - 1])
    ensures FirstTwoParts(major + "." + minor + "." + rest) == FirstTwoParts(major + "." + minor)
  {
    var p3 := FirstTwoParts(major + "." + minor + "." + rest);
    var p2 := FirstTwoParts(major + "." + minor);
    FirstTwoOfThree(major, minor, rest);
    FirstTwoOfTwo(major, minor);
    assert |p3| == |p2| && p3[0] == p2[0] && p3[1] == p2[1];
  }

  lemma FirstTwoOfTwo(major: string, minor: string)
    requires ParseNat(major).Some? && ParseNat(minor).Some?
    ensures var parts := FirstTwoParts(major + "." + minor);
      |parts| == 2 && parts[0] == major && parts[1] == minor
  {
    var s := major + "." + minor;
    assert s[0] == major[0] && IsDigit(major[0]);
    assert s[|s| - 1] == minor[|minor| - 1] && IsDigit(minor[|minor| - 1]);
    StripUnchanged(s);
    DigitsExclude(major, '.');
    SplitFirst(major, '.', minor);
    DigitsExclude(minor, '.');
    SplitNone(minor, '.');
  }

  lemma FirstTwoOfThree(major: string, minor: string, rest: string)
    requires ParseNat(major).Some? && ParseNat(minor).Some?
    requires rest != [] && !IsSpace(rest[|rest| - 1])
    ensures var parts := FirstTwoParts(major + "." + minor + "." + rest);
      |parts| == 2 && parts[0] == major && parts[1] == minor
  {
    var s := major + "." + minor + "." + rest;
    assert s[0] == major[0] && IsDigit(major[0]);
    assert s[|s| - 1] == rest[|rest| - 1];
    StripUnchanged(s);
    DigitsExclude(major, '.');
    DigitsExclude(minor, '.');
    var tail := minor + ['.'] + rest;
    assert s == major + ['.'] + tail;
    SplitFirst(major, '.', tail);
    SplitFirst(minor, '.', rest);
  }

  /** A single number "M" parses to the one-element tuple (M,). */
  lemma ParseMajorOnly(major: string)
    requires ParseNat(major).Some?
    ensures ParseVersion(major) == Some([ParseNat(major).value as int])
  {
    assert !IsSpace(major[0]) && !IsSpace(major[|major| - 1]) by {
      assert IsDigit(major[0]) && IsDigit(major[|major| - 1]);
    }
    StripUnchanged(major);
    DigitsExclude(major, '.');
    assert Split(major, '.') == [major];
    assert [major][1..] == [];
    var M: int := ParseNat(major).value;
    assert [M] + [] == [M];
  }

  /** "M." has an empty second part, which `int()` rejects. */
  lemma ParseEmptyMinor(major: string)
    requires ParseNat(major).Some?
    ensures ParseVersion(major + ".") == None
  {
    var s := major + ".";
    assert s[0] == major[0] && IsDigit(major[0]);
    StripUnchanged(s);
    DigitsExclude(major, '.');
    assert s == major + ['.'] + [];
    SplitFirst(major, '.', []);
    assert Split([], '.') == [[]];
    assert FirstTwoParts(s)[1] == [];
    assert ParseNat([]).None?;
  }

  /** `int()` of a two-digit string. */
  lemma ParseTwoDigits(s: string)
    requires |s| == 2 && IsDigit(s[0]) && IsDigit(s[1])
    ensures ParseNat(s) == Some(10 * DigitValue(s[0]) + DigitValue(s[1]))
  {
    assert AllDigits(s);
    assert s[..1] == [s[0]];
    assert [s[0]][..0] == [];
    assert DigitsValue([s[0]]) == DigitValue(s[0]);
  }

  lemma ParseOneDigit(s: string)
    requires |s| == 1 && IsDigit(s[0])
    ensures ParseNat(s) == Some(DigitValue(s[0]))
  {
    assert AllDigits(s);
    assert s[..0] == [];
    assert DigitsValue(s) == 10 * DigitsValue([]) + DigitValue(s[0]);
  }

  /** Worked example: a 12.5 driver gets the cu124 build. */
  lemma ExampleDriver12_5()
    ensures BestVariant("12.5") == Success(Some(TorchCudaVariants[3]))
  {
    ParseTwoDigits("12");
    ParseOneDigit("5");
    ParseTwoParts("12", "5");
    assert "12" + "." + "5" == "12.5";
    ResolveTwelveFive();
  }

  lemma ResolveTwelveFive()
    ensures Resolve([12, 5]) == Some(TorchCudaVariants[3])
  {
    PairLess(12, 5, 13, 0);
    PairLess(12, 5, 12, 8);
    PairLess(12, 5, 12, 6);
    PairLess(12, 5, 12, 4);
    ResolveAt([12, 5], 3);
  }

  /** Worked example: an 11.0 driver is too old for every build. */
  lemma ExampleDriver11_0()
    ensures BestVariant("11.0") == Success(None)
  {
    ParseTwoDigits("11");
    ParseOneDigit("0");
    ParseTwoParts("11", "0");
    assert "11" + "." + "0" == "11.0";
    PairLess(11, 0, 11, 8);
    SupportedIffAtLeastOldest([11, 0]);
  }

  /** Worked example: a bare "13" parses to the one-element tuple (13,), which
      Python orders below (13, 0), so it gets cu128 rather than cu130. */
  lemma ExampleMajorOnly()
    ensures BestVariant("13") == Success(Some(TorchCudaVariants[1]))
  {
    ParseTwoDigits("13");
    ParseMajorOnly("13");
    assert [13][1..] == [] && [13, 0][1..] == [0] && [12, 8][1..] == [8];
    assert TupleLess([13], [13, 0]);
    assert !TupleLess([13], [12, 8]);
    ResolveAt([13], 1);
  }

  /** Worked example: an empty part makes `int()` fail. */
  lemma ExampleEmptyPart()
    ensures BestVariant("12.") == Failure("12.")
  {
    ParseTwoDigits("12");
    ParseEmptyMinor("12");
    assert "12" + "." == "12.";
  }
}
