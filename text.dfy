/** The string operations the bootstrap and file-naming code rely on, written
    out on `seq<char>`: ASCII lower-casing, prefix and substring tests,
    Python's code-point string order, splitting and joining on a separator,
    `str.strip()`, and decimal parsing and formatting of counters. */
module Text {
  import opened Wrappers

  // ---------------------------------------------------------------------
  // Characters and lower-casing
  // ---------------------------------------------------------------------

  predicate IsDigit(c: char) { '0' <= c <= '9' }

  predicate AllDigits(s: string) { forall i | 0 <= i < |s| :: IsDigit(s[i]) }

  /** The characters `str.strip()` removes (the ASCII part of Python's
      whitespace class). */
  predicate IsSpace(c: char) {
    c == ' ' || c == '\t' || c == '\n' || c == '\r' || c == '\U{B}' || c == '\U{C}'
    || ('\U{1C}' <= c <= '\U{1F}')
  }

  function LowerChar(c: char): (r: char)
    ensures 'A' <= c <= 'Z' ==> r as int == c as int + 32
    ensures !('A' <= c <= 'Z') ==> r == c
  {
    if 'A' <= c <= 'Z' then (c as int + 32) as char else c
  }

  /** `str.lower()` restricted to ASCII letters. */
  function Lower(s: string): (r: string)
    ensures |r| == |s|
    ensures forall i | 0 <= i < |s| :: r[i] == LowerChar(s[i])
  {
    if s == [] then [] else [LowerChar(s[0])] + Lower(s[1..])
  }

  // ---------------------------------------------------------------------
  // Prefix and substring tests
  // ---------------------------------------------------------------------

  /** `s.startswith(p)`. */
  predicate StartsWith(s: string, p: string) { |p| <= |s| && s[..|p|] == p }

  predicate OccursAt(s: string, sub: string, k: int) {
    0 <= k && k + |sub| <= |s| && s[k..k + |sub|] == sub
  }

  /** Python's `sub in s` on strings: `sub` occurs at some offset of `s`. */
  predicate Contains(s: string, sub: string) {
    exists k | 0 <= k <= |s| :: OccursAt(s, sub, k)
  }

  lemma ContainsSelf(s: string)
    ensures Contains(s, s)
  {
    assert OccursAt(s, s, 0);
  }

  /** Putting text in front of or behind a string keeps every substring it had. */
  lemma ContainsExtended(s: string, sub: string, front: string, back: string)
    requires Contains(s, sub)
    ensures Contains(front + s + back, sub)
  {
    var k :| 0 <= k <= |s| && OccursAt(s, sub, k);
    var t := front + s + back;
    assert t[|front| + k..|front| + k + |sub|] == s[k..k + |sub|];
    assert OccursAt(t, sub, |front| + k);
  }

  // ---------------------------------------------------------------------
  // Python's ordering of strings (lexicographic on code points)
  // ---------------------------------------------------------------------

  predicate LexLe(a: string, b: string)
  {
    a == [] || (b != [] && (a[0] < b[0] || (a[0] == b[0] && LexLe(a[1..], b[1..]))))
  }

  lemma {:induction false} LexLeTotal(a: string, b: string)
    ensures LexLe(a, b) || LexLe(b, a)
  {
    if a != [] && b != [] && a[0] == b[0] {
      LexLeTotal(a[1..], b[1..]);
    }
  }

  lemma {:induction false} LexLeReflexive(a: string)
    ensures LexLe(a, a)
  {
    if a != [] {
      LexLeReflexive(a[1..]);
    }
  }

  lemma {:induction false} LexLeTransitive(a: string, b: string, c: string)
    requires LexLe(a, b) && LexLe(b, c)
    ensures LexLe(a, c)
  {
    if a != [] && b != [] && c != [] && a[0] == b[0] && b[0] == c[0] {
      LexLeTransitive(a[1..], b[1..], c[1..]);
    }
  }

  // ---------------------------------------------------------------------
  // Splitting and joining on one separator character
  // ---------------------------------------------------------------------

  /** The index of the first `sep`, if any. */
  function IndexOf(s: string, sep: char): (r: Option<nat>)
    ensures r.Some? ==> r.value < |s| && s[r.value] == sep && sep !in s[..r.value]
    ensures r.None? ==> sep !in s
  {
    if s == [] then None
    else if s[0] == sep then Some(0)
    else match IndexOf(s[1..], sep)
      case None => None
      case Some(i) => Some(i + 1)
  }

  /** The index of the last `c`, if any (Python's `rfind`, with -1 as None). */
  function LastIndexOf(s: string, c: char): (r: Option<nat>)
    ensures r.Some? ==> r.value < |s| && s[r.value] == c && c !in s[r.value + 1..]
    ensures r.None? ==> c !in s
  {
    if s == [] then None
    else if s[|s| - 1] == c then Some(|s| - 1)
    else LastIndexOf(s[..|s| - 1], c)
  }

  /** `s.split(sep)`: never empty; the parts hold no separator. */
  function Split(s: string, sep: char): (parts: seq<string>)
    ensures |parts| >= 1
    ensures forall i | 0 <= i < |parts| :: sep !in parts[i]
    decreases |s|
  {
    match IndexOf(s, sep)
    case None => [s]
    case Some(i) => [s[..i]] + Split(s[i + 1..], sep)
  }

  /** `sep.join(parts)`. */
  function Join(parts: seq<string>, sep: char): string
  {
    if parts == [] then []
    else if |parts| == 1 then parts[0]
    else parts[0] + [sep] + Join(parts[1..], sep)
  }

  /** Splitting at the first separator. */
  lemma SplitFirst(a: string, sep: char, rest: string)
    requires sep !in a
    ensures Split(a + [sep] + rest, sep) == [a] + Split(rest, sep)
  {
    var s := a + [sep] + rest;
    IndexOfFirst(a, sep, rest);
    assert s[..|a|] == a && s[|a| + 1..] == rest;
  }

  lemma {:induction false} IndexOfFirst(a: string, sep: char, rest: string)
    requires sep !in a
    ensures IndexOf(a + [sep] + rest, sep) == Some(|a|)
  {
    if a != [] {
      assert (a + [sep] + rest)[1..] == a[1..] + [sep] + rest;
      IndexOfFirst(a[1..], sep, rest);
    }
  }

  /** The last part of `a + [sep] + b` is `b` when `b` holds no separator. */
  lemma {:induction false} SplitLast(a: string, sep: char, b: string)
    requires sep !in b
    ensures var parts := Split(a + [sep] + b, sep); parts[|parts| - 1] == b
    decreases |a|
  {
    SplitNone(b, sep);
    match IndexOf(a, sep)
    case None =>
      SplitFirst(a, sep, b);
    case Some(i) =>
      var a1, a2 := a[..i], a[i + 1..];
      var t := a2 + [sep] + b;
      SplitLast(a2, sep, b);
      SplitReassociate(a, sep, b, i);
      SplitFirst(a1, sep, t);
  }

  lemma SplitReassociate(a: string, sep: char, b: string, i: nat)
    requires i < |a|
    ensures a + [sep] + b == a[..i] + [a[i]] + (a[i + 1..] + [sep] + b)
  {
    assert a == a[..i] + [a[i]] + a[i + 1..];
  }

  /** A string without the separator splits into itself. */
  lemma SplitNone(s: string, sep: char)
    requires sep !in s
    ensures Split(s, sep) == [s]
  {
  }

  /** The last `c` of `a + [c] + b` is the one placed there when `b` has none. */
  lemma {:induction false} LastIndexOfAt(a: string, c: char, b: string)
    requires c !in b
    ensures LastIndexOf(a + [c] + b, c) == Some(|a|)
    decreases |b|
  {
    var s := a + [c] + b;
    if b != [] {
      assert s[..|s| - 1] == a + [c] + b[..|b| - 1];
      assert s[|s| - 1] == b[|b| - 1];
      LastIndexOfAt(a, c, b[..|b| - 1]);
    }
  }

  /** Splitting and joining back gives the original string. */
  lemma {:induction false} JoinSplit(s: string, sep: char)
    ensures Join(Split(s, sep), sep) == s
    decreases |s|
  {
    match IndexOf(s, sep)
    case None =>
    case Some(i) =>
      var rest := Split(s[i + 1..], sep);
      JoinSplit(s[i + 1..], sep);
      assert Split(s, sep) == [s[..i]] + rest;
      assert s == s[..i] + [sep] + s[i + 1..];
  }

  /** Joining parts that hold no separator and splitting again gives the
      parts back. */
  lemma {:induction false} SplitJoin(parts: seq<string>, sep: char)
    requires parts != []
    requires forall i | 0 <= i < |parts| :: sep !in parts[i]
    ensures Split(Join(parts, sep), sep) == parts
  {
    if |parts| == 1 {
      SplitNone(parts[0], sep);
    } else {
      SplitJoin(parts[1..], sep);
      SplitFirst(parts[0], sep, Join(parts[1..], sep));
      assert parts == [parts[0]] + parts[1..];
    }
  }

  /** Joining two non-empty lists is joining each and gluing with `sep`. */
  lemma {:induction false} JoinAppend(a: seq<string>, b: seq<string>, sep: char)
    requires a != [] && b != []
    ensures Join(a + b, sep) == Join(a, sep) + [sep] + Join(b, sep)
  {
    if |a| == 1 {
      assert a + b == [a[0]] + b;
    } else {
      assert (a + b)[1..] == a[1..] + b;
      JoinAppend(a[1..], b, sep);
    }
  }

  // ---------------------------------------------------------------------
  // str.strip()
  // ---------------------------------------------------------------------

  function StripLeft(s: string): (r: string)
    ensures |r| <= |s|
    ensures r != [] ==> !IsSpace(r[0])
  {
    if s != [] && IsSpace(s[0]) then StripLeft(s[1..]) else s
  }

  function StripRight(s: string): (r: string)
    ensures |r| <= |s|
    ensures r != [] ==> !IsSpace(r[|r| - 1])
  {
    if s != [] && IsSpace(s[|s| - 1]) then StripRight(s[..|s| - 1]) else s
  }

  /** Stripping on the right keeps a prefix. */
  lemma {:induction false} StripRightKeepsPrefix(s: string)
    ensures StripRight(s) == s[..|StripRight(s)|]
  {
    if s != [] && IsSpace(s[|s| - 1]) {
      StripRightKeepsPrefix(s[..|s| - 1]);
    }
  }

  /** `s.strip()`: no leading or trailing whitespace is left. */
  function Strip(s: string): (r: string)
    ensures |r| <= |s|
    ensures r != [] ==> !IsSpace(r[0]) && !IsSpace(r[|r| - 1])
  {
    StripRightKeepsPrefix(StripLeft(s));
    StripRight(StripLeft(s))
  }

  // ---------------------------------------------------------------------
  // Decimal numbers
  // ---------------------------------------------------------------------

  function DigitValue(c: char): nat
    requires IsDigit(c)
  {
    c as int - '0' as int
  }

  function DigitChar(d: nat): (c: char)
    requires d < 10
    ensures IsDigit(c) && DigitValue(c) == d
  {
    ('0' as int + d) as char
  }

  /** A digit string holds no character that is not a digit (no separator). */
  lemma DigitsExclude(s: string, c: char)
    requires AllDigits(s) && !IsDigit(c)
    ensures c !in s
  {
    forall i | 0 <= i < |s|
      ensures s[i] != c
    {
      assert IsDigit(s[i]);
    }
  }

  /** The value of a string of decimal digits, most significant first. */
  function DigitsValue(s: string): nat
    requires AllDigits(s)
  {
    if s == [] then 0 else 10 * DigitsValue(s[..|s| - 1]) + DigitValue(s[|s| - 1])
  }

  /** `int(s)` for a plain decimal string: at least one digit, digits only. */
  function ParseNat(s: string): (r: Option<nat>)
    ensures r.Some? <==> s != [] && AllDigits(s)
  {
    if s != [] && AllDigits(s) then Some(DigitsValue(s)) else None
  }

  /** `str(n)`: decimal digits without leading zeros. */
  function NatToString(n: nat): (s: string)
    ensures s != [] && AllDigits(s)
    ensures |s| > 1 ==> s[0] != '0'
    ensures n < 10 ==> |s| == 1
    ensures n >= 10 ==> |s| >= 2
  {
    if n < 10 then [DigitChar(n)] else NatToString(n / 10) + [DigitChar(n % 10)]
  }

  /** Reading back what `str(n)` printed gives `n`. */
  lemma {:induction false} ParseNatToString(n: nat)
    ensures ParseNat(NatToString(n)) == Some(n)
  {
    var s := NatToString(n);
    if n >= 10 {
      ParseNatToString(n / 10);
      assert s == NatToString(n / 10) + [DigitChar(n % 10)];
      assert s[..|s| - 1] == NatToString(n / 10);
      assert DigitsValue(NatToString(n / 10)) == n / 10;
      assert DigitValue(s[|s| - 1]) == n % 10;
      assert DigitsValue(s) == 10 * (n / 10) + n % 10;
    }
  }

  function Zeros(k: nat): (z: string)
    ensures |z| == k && forall i | 0 <= i < k :: z[i] == '0'
  {
    if k == 0 then [] else Zeros(k - 1) + ['0']
  }

  /** A leading zero does not change the value of a digit string. */
  lemma {:induction false} LeadingZero(s: string)
    requires AllDigits(s)
    ensures AllDigits(['0'] + s) && DigitsValue(['0'] + s) == DigitsValue(s)
  {
    if s != [] {
      var t := ['0'] + s;
      assert t[..|t| - 1] == ['0'] + s[..|s| - 1];
      LeadingZero(s[..|s| - 1]);
    }
  }

  lemma {:induction false} LeadingZeros(k: nat, s: string)
    requires AllDigits(s)
    ensures AllDigits(Zeros(k) + s) && DigitsValue(Zeros(k) + s) == DigitsValue(s)
  {
    if k == 0 {
      assert Zeros(k) + s == s;
    } else {
      assert Zeros(k) + s == Zeros(k - 1) + (['0'] + s);
      LeadingZero(s);
      LeadingZeros(k - 1, ['0'] + s);
      assert DigitsValue(Zeros(k - 1) + (['0'] + s)) == DigitsValue(['0'] + s);
    }
  }

  /** `format(n, "0{width}d")`: the decimal form of `n`, left-padded with
      zeros to at least `width` characters. */
  function ZeroPadded(n: nat, width: nat): (s: string)
    ensures AllDigits(s)
  {
    var digits := NatToString(n);
    if |digits| >= width then digits else Zeros(width - |digits|) + digits
  }

  /** The padded form is exactly `width` long when the number fits, its own
      length otherwise, and always reads back as `n`. */
  lemma ZeroPaddedFacts(n: nat, width: nat)
    ensures var digits := NatToString(n);
      |ZeroPadded(n, width)| == (if |digits| >= width then |digits| else width)
    ensures ParseNat(ZeroPadded(n, width)) == Some(n)
  {
    var digits := NatToString(n);
    ParseNatToString(n);
    if |digits| < width {
      LeadingZeros(width - |digits|, digits);
    }
  }
}
