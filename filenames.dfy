/** The numbered file-name allocation of backend/audio/utils.py,
    `get_next_filename`. The directory listing (`directory.glob(...)`) is the
    sequence of file names the caller passes in. */
module Filenames {
  import opened Wrappers
  import opened Text

  /** `PurePath.stem`: the name without its last suffix, where a suffix needs a
      dot that is neither the first nor the last character. */
  function Stem(name: string): (stem: string)
    ensures StartsWith(name, stem)
  {
    match LastIndexOf(name, '.')
    case Some(i) => if 0 < i < |name| - 1 then name[..i] else name
    case None => name
  }

  /** `stem.split('_')[-1]`. */
  function LastPart(stem: string): string
  {
    var parts := Split(stem, '_');
    parts[|parts| - 1]
  }

  /** The counter a name contributes: `int(parts[-1])`, None where that raises
      the ValueError the loop skips. */
  function CounterOf(name: string): Option<nat>
  {
    ParseNat(LastPart(Stem(name)))
  }

  /** The counter of each name, in listing order. */
  function Counters(names: seq<string>): (cs: seq<Option<nat>>)
    ensures |cs| == |names| && forall i | 0 <= i < |names| :: cs[i] == CounterOf(names[i])
  {
    seq(|names|, i requires 0 <= i < |names| => CounterOf(names[i]))
  }

  /** The largest of the counters present, and 0 when there is none. */
  function MaxOf(counts: seq<Option<nat>>): nat
  {
    if counts == [] then 0
    else
      var m0 := MaxOf(counts[..|counts| - 1]);
      var c := counts[|counts| - 1];
      if c.Some? && c.value > m0 then c.value else m0
  }

  /** The maximum bounds every counter present and is one of them, or 0. */
  lemma {:induction false} MaxOfFacts(counts: seq<Option<nat>>)
    ensures forall i | 0 <= i < |counts| && counts[i].Some? :: counts[i].value <= MaxOf(counts)
    ensures MaxOf(counts) == 0 || exists i | 0 <= i < |counts| :: counts[i] == Some(MaxOf(counts))
  {
    if counts != [] {
      var init := counts[..|counts| - 1];
      MaxOfFacts(init);
      forall i | 0 <= i < |init| ensures init[i] == counts[i] { }
      if MaxOf(counts) == MaxOf(init) && MaxOf(init) != 0 {
        var i :| 0 <= i < |init| && init[i] == Some(MaxOf(init));
        assert counts[i] == Some(MaxOf(counts));
      }
    }
  }

  /** One more counter at the end of the list. */
  lemma MaxOfStep(counts: seq<Option<nat>>, i: nat)
    requires i < |counts|
    ensures MaxOf(counts[..i + 1]) ==
      if counts[i].Some? && counts[i].value > MaxOf(counts[..i]) then counts[i].value else MaxOf(counts[..i])
  {
    assert counts[..i + 1][..i] == counts[..i];
  }

  /** `max_count` after the loop: the largest counter among the names, and 0
      when there is none (the loop starts from 0). */
  function MaxCounter(names: seq<string>): (m: nat)
    ensures forall i | 0 <= i < |names| && CounterOf(names[i]).Some? :: CounterOf(names[i]).value <= m
    ensures m == 0 || exists i | 0 <= i < |names| :: CounterOf(names[i]) == Some(m)
  {
    var cs := Counters(names);
    MaxOfFacts(cs);
    var m := MaxOf(cs);
    assert m != 0 ==> exists i | 0 <= i < |cs| :: cs[i] == Some(m);
    m
  }

  /** `f"{prefix}_{n:03d}{extension}"`. */
  function NumberedName(prefix: string, n: nat, extension: string): string
  {
    prefix + "_" + ZeroPadded(n, 3) + extension
  }

  /** An extension like ".wav": a dot followed by at least one character, none
      of them a dot, so that `stem` drops exactly the extension. */
  predicate PlainExtension(extension: string)
  {
    |extension| >= 2 && extension[0] == '.' && '.' !in extension[1..]
  }

  /** `get_next_filename`: one pass over the existing names keeping the largest
      counter, then the next number, zero-padded to three digits. */
  method GetNextFilename(existing: seq<string>, prefix: string, extension: string) returns (name: string)
    ensures name == NumberedName(prefix, MaxCounter(existing) + 1, extension)
    ensures forall i | 0 <= i < |existing| && CounterOf(existing[i]).Some? ::
      CounterOf(existing[i]).value < MaxCounter(existing) + 1
    ensures PlainExtension(extension) ==> name !in existing
  {
    ghost var counts := Counters(existing);
    var maxCount := 0;
    for i := 0 to |existing|
      invariant maxCount == MaxOf(counts[..i])
    {
      MaxOfStep(counts, i);
      var count := CounterOf(existing[i]);
      if count.Some? && count.value > maxCount {
        maxCount := count.value;
      }
    }
    assert counts[..|existing|] == counts;
    var nextCount := maxCount + 1;
    name := NumberedName(prefix, nextCount, extension);
    if PlainExtension(extension) {
      NextIsAvailable(existing, prefix, extension);
    }
  }

  /** The name read back: with a plain extension, the counter of the name made
      for `n` is `n`. */
  lemma {:induction false} CounterOfNumberedName(prefix: string, n: nat, extension: string)
    requires PlainExtension(extension)
    ensures CounterOf(NumberedName(prefix, n, extension)) == Some(n)
  {
    var digits := ZeroPadded(n, 3);
    var name := NumberedName(prefix, n, extension);
    var stem := prefix + "_" + digits;
    DigitsExclude(digits, '.');
    DigitsExclude(digits, '_');
    assert name == stem + ['.'] + extension[1..];
    LastIndexOfAt(stem, '.', extension[1..]);
    assert Stem(name) == stem;
    SplitLast(prefix, '_', digits);
    assert LastPart(stem) == digits;
    ZeroPaddedFacts(n, 3);
  }

  /** The "next available filename" promise: the returned name is none of the
      existing names, because its counter exceeds every existing counter. */
  lemma NextIsAvailable(existing: seq<string>, prefix: string, extension: string)
    requires PlainExtension(extension)
    ensures NumberedName(prefix, MaxCounter(existing) + 1, extension) !in existing
  {
    var n := MaxCounter(existing) + 1;
    CounterOfNumberedName(prefix, n, extension);
  }

  // A compound extension: "p_001.tar.gz" exists and ".tar.gz" is asked for.

  /** `stem` cuts at the last dot only. */
  lemma ExampleStem()
    ensures Stem("p_001.tar.gz") == "p_001.tar"
  {
    var name := "p_001.tar.gz";
    var dot := LastIndexOf(name, '.');
    assert name[9] == '.' && name[10] == 'g' && name[11] == 'z';
    assert dot == Some(9);
    assert name[..9] == "p_001.tar";
  }

  lemma SplitExampleTail()
    ensures Split("001.tar", '_') == ["001.tar"]
  {
    assert IndexOf("001.tar", '_') == None;
  }

  /** The last `_`-part keeps the inner suffix. */
  lemma ExampleLastPart()
    ensures LastPart("p_001.tar") == "001.tar"
  {
    var stem, last := "p_001.tar", "001.tar";
    var underscore := IndexOf(stem, '_');
    assert stem[0] == 'p' && stem[1] == '_';
    assert underscore == Some(1);
    assert stem[2..] == last;
    SplitExampleTail();
    assert stem[..1] == "p";
    assert Split(stem, '_') == [stem[..1]] + Split(stem[2..], '_');
  }

  /** `int("001.tar")` raises, so the file is skipped. */
  lemma ExampleCounterSkipped()
    ensures CounterOf("p_001.tar.gz") == None
  {
    ExampleStem();
    ExampleLastPart();
    assert !IsDigit("001.tar"[3]);
  }

  lemma ExampleMaxIsZero()
    ensures MaxCounter(["p_001.tar.gz"]) == 0
  {
    var names := ["p_001.tar.gz"];
    ExampleCounterSkipped();
    assert CounterOf(names[0]) == None;
  }

  lemma ExampleFirstName(n: nat)
    requires n == 1
    ensures NumberedName("p", n, ".tar.gz") == "p_001.tar.gz"
  {
    assert NatToString(1) == "1";
    assert Zeros(2) == "00";
  }

  /** Outside plain extensions the name can collide: with ".tar.gz" the stem
      of "p_001.tar.gz" is "p_001.tar", whose last part "001.tar" does not
      parse, so that file is skipped and "p_001.tar.gz" is returned again. */
  lemma CompoundExtensionCollides(existing: seq<string>)
    requires existing == ["p_001.tar.gz"]
    ensures NumberedName("p", MaxCounter(existing) + 1, ".tar.gz") == existing[0]
    ensures NumberedName("p", MaxCounter(existing) + 1, ".tar.gz") in existing
  {
    ExampleMaxIsZero();
    ExampleFirstName(MaxCounter(existing) + 1);
  }

  /** With no matching files the first name is numbered 001. */
  lemma FirstNameIsOne(prefix: string, extension: string)
    ensures NumberedName(prefix, MaxCounter([]) + 1, extension) == prefix + "_001" + extension
  {
    assert NatToString(1) == "1";
    assert Zeros(2) == "00";
  }

  /** Counters below 1000 print as exactly three digits; larger ones print in
      full, and either way the printed digits read back as the counter. */
  lemma CounterFormat(n: nat)
    ensures n < 1000 ==> |ZeroPadded(n, 3)| == 3
    ensures n >= 1000 ==> ZeroPadded(n, 3) == NatToString(n)
    ensures ParseNat(ZeroPadded(n, 3)) == Some(n)
  {
    ZeroPaddedFacts(n, 3);
    NatToStringLength(n);
  }

  lemma {:induction false} NatToStringLength(n: nat)
    ensures n < 1000 ==> |NatToString(n)| <= 3
    ensures n >= 1000 ==> |NatToString(n)| >= 4
  {
    if n >= 10 {
      NatToStringLength(n / 10);
    }
  }
}
