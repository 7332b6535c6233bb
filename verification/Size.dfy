/** Byte sizes as people type them: the parser, the printer, and why the parser takes back what the
    printer puts out (src/size.rs). */
module Sizes {
  import opened Basics

  datatype SizeError = NothingThere | NoNumber | UnknownSuffix | NumberTooBig | SizeTooBig

  // ---------------------------------------------------------------------------------------
  // The parser

  /** The characters that `str::trim` takes off. */
  predicate IsSpace(c: char) {
    || '\t' <= c <= '\r' || c == ' ' || c == '\U{85}' || c == '\U{A0}' || c == '\U{1680}'
    || '\U{2000}' <= c <= '\U{200A}' || c == '\U{2028}' || c == '\U{2029}' || c == '\U{202F}'
    || c == '\U{205F}' || c == '\U{3000}'
  }

  predicate IsDigit(c: char) {
    '0' <= c <= '9'
  }

  function TrimStart(s: string): string {
    if s != [] && IsSpace(s[0]) then TrimStart(s[1..]) else s
  }

  function TrimEnd(s: string): string {
    if s != [] && IsSpace(s[|s| - 1]) then TrimEnd(s[..|s| - 1]) else s
  }

  function Trim(s: string): string {
    TrimEnd(TrimStart(s))
  }

  /** Where the leading digits end. */
  function DigitsEnd(s: string): (n: nat)
    ensures n <= |s| && (forall k :: 0 <= k < n ==> IsDigit(s[k]))
    ensures n < |s| ==> !IsDigit(s[n])
  {
    if s != [] && IsDigit(s[0]) then 1 + DigitsEnd(s[1..]) else 0
  }

  function LowerChar(c: char): char {
    if 'A' <= c <= 'Z' then (c - 'A') + 'a' else c
  }

  function Lower(s: string): (r: string)
    ensures |r| == |s|
  {
    if s == [] then [] else [LowerChar(s[0])] + Lower(s[1..])
  }

  const KIB: nat := 1024
  const MIB: nat := 1024 * 1024
  const GIB: nat := 1024 * 1024 * 1024
  const TIB: nat := 1024 * 1024 * 1024 * 1024

  function Multiplier(suffix: string): Option<nat> {
    if suffix in ["", "b", "byte", "bytes"] then Some(1)
    else if suffix in ["k", "kb", "kib"] then Some(KIB)
    else if suffix in ["m", "mb", "mib"] then Some(MIB)
    else if suffix in ["g", "gb", "gib"] then Some(GIB)
    else if suffix in ["t", "tb", "tib"] then Some(TIB)
    else None
  }

  function DigitValue(c: char): nat
    requires IsDigit(c)
  {
    (c - '0') as nat
  }

  predicate AllDigits(s: string) {
    forall k :: 0 <= k < |s| ==> IsDigit(s[k])
  }

  /** The number a digit string denotes. */
  function Value(s: string): nat
    requires AllDigits(s)
  {
    if s == [] then 0 else Value(s[..|s| - 1]) * 10 + DigitValue(s[|s| - 1])
  }

  function ParseSize(input: string): Result<u64, SizeError> {
    var trimmed := Trim(input);
    if trimmed == [] then Err(NothingThere)
    else
      var end := DigitsEnd(trimmed);
      var number, suffix := trimmed[..end], trimmed[end..];
      if number == [] then Err(NoNumber)
      else match Multiplier(Lower(Trim(suffix)))
        case None => Err(UnknownSuffix)
        case Some(multiplier) =>
          if Value(number) > U64_MAX then Err(NumberTooBig)
          else if Value(number) * multiplier > U64_MAX then Err(SizeTooBig)
          else Ok(Value(number) * multiplier)
  }

  // ---------------------------------------------------------------------------------------
  // The printer

  function Print(n: nat): (s: string)
    ensures s != [] && AllDigits(s)
  {
    if n < 10 then [n as char + '0'] else Print(n / 10) + [(n % 10) as char + '0']
  }

  const UNITS: seq<(nat, string)> := [(TIB, "TiB"), (GIB, "GiB"), (MIB, "MiB"), (KIB, "KiB")]

  /** The first unit of the table that divides the count. */
  function FirstUnit(bytes: u64, units: seq<(nat, string)>): (unit: Option<(nat, string)>)
    requires forall k :: 0 <= k < |units| ==> units[k].0 > 0
    ensures unit.Some? ==> unit.value in units && unit.value.0 <= bytes && bytes % unit.value.0 == 0
  {
    if units == [] then None
    else if bytes >= units[0].0 && bytes % units[0].0 == 0 then Some(units[0])
    else FirstUnit(bytes, units[1..])
  }

  function Labelled(n: nat, unit: string): string {
    Print(n) + " " + unit
  }

  function FormatSize(bytes: u64): string {
    match FirstUnit(bytes, UNITS)
    case Some(unit) => Labelled(bytes / unit.0, unit.1)
    case None => Labelled(bytes, "bytes")
  }

  // ---------------------------------------------------------------------------------------
  // What they have to do with each other

  lemma {:induction false} ValueOfPrint(n: nat)
    ensures Value(Print(n)) == n
  {
    if n >= 10 {
      ValueOfPrint(n / 10);
      var s := Print(n);
      assert s[..|s| - 1] == Print(n / 10);
    } else {
      assert Print(n)[..0] == [];
    }
  }

  predicate AllSpaces(s: string) {
    forall k :: 0 <= k < |s| ==> IsSpace(s[k])
  }

  /** Nothing to trim at either end. */
  predicate Bare(s: string) {
    s != [] ==> !IsSpace(s[0]) && !IsSpace(s[|s| - 1])
  }

  lemma {:induction false} TrimStartTakes(w: string, s: string)
    requires AllSpaces(w) && (s != [] ==> !IsSpace(s[0]))
    ensures TrimStart(w + s) == s
  {
    if w == [] {
      assert w + s == s;
    } else {
      assert (w + s)[1..] == w[1..] + s;
      TrimStartTakes(w[1..], s);
    }
  }

  lemma {:induction false} TrimEndTakes(s: string, w: string)
    requires AllSpaces(w) && (s != [] ==> !IsSpace(s[|s| - 1]))
    ensures TrimEnd(s + w) == s
  {
    if w == [] {
      assert s + w == s;
    } else {
      assert (s + w)[..|s + w| - 1] == s + w[..|w| - 1];
      TrimEndTakes(s, w[..|w| - 1]);
    }
  }

  lemma TrimTakes(w: string, s: string, w': string)
    requires AllSpaces(w) && AllSpaces(w') && Bare(s)
    ensures Trim(w + s + w') == s
  {
    if s == [] {
      assert w + s + w' == (w + w') + [];
      TrimStartTakes(w + w', []);
    } else {
      assert w + s + w' == w + (s + w');
      TrimStartTakes(w, s + w');
      TrimEndTakes(s, w');
    }
  }

  lemma {:induction false} TrimStartLeaves(s: string) returns (w: string)
    ensures AllSpaces(w) && s == w + TrimStart(s) && (TrimStart(s) != [] ==> !IsSpace(TrimStart(s)[0]))
  {
    w := [];
    if s != [] && IsSpace(s[0]) {
      var w' := TrimStartLeaves(s[1..]);
      w := [s[0]] + w';
    }
  }

  lemma {:induction false} TrimEndLeaves(s: string) returns (w: string)
    ensures AllSpaces(w) && s == TrimEnd(s) + w
    ensures TrimEnd(s) != [] ==> !IsSpace(TrimEnd(s)[|TrimEnd(s)| - 1]) && TrimEnd(s)[0] == s[0]
  {
    w := [];
    if s != [] && IsSpace(s[|s| - 1]) {
      var w' := TrimEndLeaves(s[..|s| - 1]);
      w := w' + [s[|s| - 1]];
    }
  }

  lemma TrimLeaves(s: string) returns (w: string, w': string)
    ensures AllSpaces(w) && AllSpaces(w') && s == w + Trim(s) + w' && Bare(Trim(s))
  {
    w := TrimStartLeaves(s);
    w' := TrimEndLeaves(TrimStart(s));
  }

  /** A size as typed: blanks, digits, blanks, a suffix in any case, blanks. */
  ghost predicate Typed(input: string, number: string, suffix: string) {
    exists w1, w2, w3 :: TypedWith(input, w1, number, w2, suffix, w3)
  }

  predicate TypedWith(input: string, w1: string, number: string, w2: string, suffix: string, w3: string) {
    && AllSpaces(w1) && AllSpaces(w2) && AllSpaces(w3)
    && number != [] && AllDigits(number)
    && Bare(suffix) && (suffix != [] && w2 == [] ==> !IsDigit(suffix[0]))
    && input == w1 + number + w2 + suffix + w3
  }

  lemma {:induction false} DigitsEndAt(number: string, rest: string)
    requires AllDigits(number) && (rest != [] ==> !IsDigit(rest[0]))
    ensures DigitsEnd(number + rest) == |number|
  {
    if number == [] {
      assert number + rest == rest;
    } else {
      assert (number + rest)[1..] == number[1..] + rest;
      DigitsEndAt(number[1..], rest);
    }
  }

  /** What the parser makes of a typed size, suffix first, then the number, then the product. */
  function Meaning(number: string, suffix: string): Result<u64, SizeError>
    requires AllDigits(number)
  {
    match Multiplier(Lower(suffix))
    case None => Err(UnknownSuffix)
    case Some(multiplier) =>
      if Value(number) > U64_MAX then Err(NumberTooBig)
      else if Value(number) * multiplier > U64_MAX then Err(SizeTooBig)
      else Ok(Value(number) * multiplier)
  }

  lemma TypedTrims(input: string, w1: string, number: string, w2: string, suffix: string, w3: string)
    requires TypedWith(input, w1, number, w2, suffix, w3)
    ensures Trim(input) == number + (if suffix == [] then [] else w2 + suffix)
  {
    var core := number + if suffix == [] then [] else w2 + suffix;
    assert !IsSpace(number[0]) && !IsSpace(number[|number| - 1]);
    if suffix == [] {
      assert input == w1 + core + (w2 + w3);
      TrimTakes(w1, core, w2 + w3);
    } else {
      assert core[|core| - 1] == suffix[|suffix| - 1];
      assert input == w1 + core + w3;
      TrimTakes(w1, core, w3);
    }
  }

  lemma ParsesTyped(input: string, number: string, suffix: string)
    requires Typed(input, number, suffix)
    ensures ParseSize(input) == Meaning(number, suffix)
  {
    var w1, w2, w3 :| TypedWith(input, w1, number, w2, suffix, w3);
    TypedTrims(input, w1, number, w2, suffix, w3);
    var rest := if suffix == [] then [] else w2 + suffix;
    assert rest != [] ==> !IsDigit(rest[0]);
    DigitsEndAt(number, rest);
    assert (number + rest)[|number|..] == rest && (number + rest)[..|number|] == number;
    if suffix == [] {
      assert Trim([]) == [];
    } else {
      assert rest == w2 + suffix + [];
      TrimTakes(w2, suffix, []);
    }
  }

  /** Every text that begins with a digit once trimmed is a typed size. */
  lemma StartsWithNumber(input: string) returns (number: string, suffix: string)
    requires Trim(input) != [] && IsDigit(Trim(input)[0])
    ensures Typed(input, number, suffix)
  {
    var trimmed := Trim(input);
    var w1, w3 := TrimLeaves(input);
    var end := DigitsEnd(trimmed);
    number := trimmed[..end];
    var w2, w2' := TrimLeaves(trimmed[end..]);
    suffix := Trim(trimmed[end..]);
    assert trimmed == number + (w2 + suffix + w2');
    if suffix != [] && w2 == [] {
      assert trimmed[end] == suffix[0];
    }
    BlanksMerge(input, w1, number, w2, suffix, w2', w3);
  }

  /** Blanks after the suffix, or after the number if there is no suffix, may come in pieces. */
  lemma BlanksMerge(
    input: string, w1: string, number: string, w2: string, suffix: string, w2': string, w3: string)
    requires AllSpaces(w1) && AllSpaces(w2) && AllSpaces(w2') && AllSpaces(w3)
    requires number != [] && AllDigits(number) && Bare(suffix)
    requires suffix != [] && w2 == [] ==> !IsDigit(suffix[0])
    requires input == w1 + (number + (w2 + suffix + w2')) + w3
    ensures Typed(input, number, suffix)
  {
    if suffix == [] {
      var w := w2 + w2' + w3;
      assert input == w1 + number + w + [] + [];
      assert TypedWith(input, w1, number, w, [], []);
    } else {
      var w := w2' + w3;
      assert input == w1 + number + w2 + suffix + w;
      assert TypedWith(input, w1, number, w2, suffix, w);
    }
  }

  /** The parser, for every text: nothing to read, no number to start with, or a typed size, which
      it takes apart in exactly one way and values as it should. */
  lemma ParserIsExact(input: string)
    ensures Trim(input) == [] ==> ParseSize(input) == Err(NothingThere)
    ensures Trim(input) != [] && !IsDigit(Trim(input)[0]) ==> ParseSize(input) == Err(NoNumber)
    ensures Trim(input) != [] && IsDigit(Trim(input)[0]) ==>
        exists number, suffix :: Typed(input, number, suffix)
    ensures forall number, suffix | Typed(input, number, suffix) :: ParseSize(input) == Meaning(number, suffix)
  {
    if Trim(input) != [] && IsDigit(Trim(input)[0]) {
      var number, suffix := StartsWithNumber(input);
    }
    forall number, suffix | Typed(input, number, suffix)
      ensures ParseSize(input) == Meaning(number, suffix)
    {
      ParsesTyped(input, number, suffix);
    }
  }

  /** A count is accepted, and means what it says, in any case and with any blanks around and
      between its parts, exactly if the product fits 64 bits. */
  lemma AcceptedIffItFits(w1: string, n: nat, w2: string, suffix: string, w3: string, multiplier: nat)
    requires AllSpaces(w1) && AllSpaces(w2) && AllSpaces(w3)
    requires Multiplier(Lower(suffix)) == Some(multiplier)
    ensures ParseSize(w1 + Print(n) + w2 + suffix + w3).Ok? <==> n * multiplier <= U64_MAX
    ensures n * multiplier <= U64_MAX ==> ParseSize(w1 + Print(n) + w2 + suffix + w3) == Ok(n * multiplier)
  {
    PrintedIsTyped(w1, n, w2, suffix, w3);
    ParsesTyped(w1 + Print(n) + w2 + suffix + w3, Print(n), suffix);
    ValueOfPrint(n);
    MeaningOf(Print(n), suffix, multiplier);
  }

  lemma PrintedIsTyped(w1: string, n: nat, w2: string, suffix: string, w3: string)
    requires AllSpaces(w1) && AllSpaces(w2) && AllSpaces(w3) && Multiplier(Lower(suffix)).Some?
    ensures Typed(w1 + Print(n) + w2 + suffix + w3, Print(n), suffix)
  {
    SuffixIsBare(suffix);
    assert TypedWith(w1 + Print(n) + w2 + suffix + w3, w1, Print(n), w2, suffix, w3);
  }

  lemma MeaningOf(number: string, suffix: string, multiplier: nat)
    requires AllDigits(number) && Multiplier(Lower(suffix)) == Some(multiplier)
    ensures Meaning(number, suffix).Ok? <==> Value(number) * multiplier <= U64_MAX
    ensures Meaning(number, suffix).Ok? ==> Meaning(number, suffix) == Ok(Value(number) * multiplier)
  {
    Grows(Value(number), multiplier);
  }

  lemma Grows(n: nat, multiplier: nat)
    requires multiplier >= 1
    ensures n * multiplier >= n
  {
  }

  /** A known suffix, in any case, is made of letters. */
  lemma SuffixIsBare(suffix: string)
    requires Multiplier(Lower(suffix)).Some?
    ensures Bare(suffix) && (suffix != [] ==> !IsDigit(suffix[0]))
  {
    if suffix != [] {
      LowerAt(suffix, 0);
      LowerAt(suffix, |suffix| - 1);
    }
  }

  lemma {:induction false} LowerAt(s: string, k: nat)
    requires k < |s|
    ensures Lower(s)[k] == LowerChar(s[k])
  {
    if k > 0 {
      LowerAt(s[1..], k - 1);
    }
  }

  /** The printer takes the largest unit that divides the count. */
  lemma LargestExactUnit(bytes: u64, k: nat)
    requires k < |UNITS| && bytes >= UNITS[k].0 && bytes % UNITS[k].0 == 0
    ensures FirstUnit(bytes, UNITS).Some? && FirstUnit(bytes, UNITS).value.0 >= UNITS[k].0
  {
    FirstUnitLargest(bytes, UNITS, k);
  }

  lemma {:induction false} FirstUnitLargest(bytes: u64, units: seq<(nat, string)>, k: nat)
    requires forall i :: 0 <= i < |units| ==> units[i].0 > 0
    requires forall i, j :: 0 <= i < j < |units| ==> units[i].0 >= units[j].0
    requires k < |units| && bytes >= units[k].0 && bytes % units[k].0 == 0
    ensures FirstUnit(bytes, units).Some? && FirstUnit(bytes, units).value.0 >= units[k].0
  {
    if k > 0 {
      FirstUnitLargest(bytes, units[1..], k - 1);
    }
  }

  lemma UnitSuffixes()
    ensures Multiplier(Lower("TiB")) == Some(TIB) && Multiplier(Lower("GiB")) == Some(GIB)
    ensures Multiplier(Lower("MiB")) == Some(MIB) && Multiplier(Lower("KiB")) == Some(KIB)
    ensures Multiplier(Lower("bytes")) == Some(1)
  {
    LowerOf("TiB", "tib");
    LowerOf("GiB", "gib");
    LowerOf("MiB", "mib");
    LowerOf("KiB", "kib");
    LowerOf("bytes", "bytes");
  }

  lemma LowerOf(s: string, low: string)
    requires |s| == |low| && forall k :: 0 <= k < |s| ==> LowerChar(s[k]) == low[k]
    ensures Lower(s) == low
  {
    forall k | 0 <= k < |s|
      ensures Lower(s)[k] == low[k]
    {
      LowerAt(s, k);
    }
  }

  /** What the printer puts out, the parser takes back, for every 64-bit count. */
  lemma RoundTrip(bytes: u64)
    ensures ParseSize(FormatSize(bytes)) == Ok(bytes)
  {
    match FirstUnit(bytes, UNITS) {
      case Some(unit) =>
        UnitParses(unit);
        ExactDivision(bytes, unit.0);
        PrintedParses(bytes / unit.0, unit.1, unit.0);
      case None =>
        UnitSuffixes();
        PrintedParses(bytes, "bytes", 1);
    }
  }

  lemma ExactDivision(bytes: nat, scale: nat)
    requires scale > 0 && bytes % scale == 0
    ensures bytes / scale * scale == bytes
  {
  }

  lemma UnitParses(unit: (nat, string))
    requires unit in UNITS
    ensures Multiplier(Lower(unit.1)) == Some(unit.0)
  {
    UnitSuffixes();
  }

  lemma PrintedParses(n: nat, unit: string, scale: nat)
    requires Multiplier(Lower(unit)) == Some(scale) && n * scale <= U64_MAX
    ensures ParseSize(Labelled(n, unit)) == Ok(n * scale)
  {
    AcceptedIffItFits([], n, " ", unit, [], scale);
    assert [] + Print(n) + " " + unit + [] == Labelled(n, unit);
  }

  // ---------------------------------------------------------------------------------------
  // In figures

  const SUFFIXES: seq<string> := [
    "", "b", "byte", "bytes", "k", "kb", "kib", "m", "mb", "mib", "g", "gb", "gib", "t", "tb", "tib"]

  /** These suffixes are known, and no others. */
  lemma KnownSuffixes(suffix: string)
    ensures Multiplier(suffix) == Some(1) <==> suffix in ["", "b", "byte", "bytes"]
    ensures Multiplier(suffix) == Some(1_024) <==> suffix in ["k", "kb", "kib"]
    ensures Multiplier(suffix) == Some(1_048_576) <==> suffix in ["m", "mb", "mib"]
    ensures Multiplier(suffix) == Some(1_073_741_824) <==> suffix in ["g", "gb", "gib"]
    ensures Multiplier(suffix) == Some(1_099_511_627_776) <==> suffix in ["t", "tb", "tib"]
    ensures Multiplier(suffix).Some? <==> suffix in SUFFIXES
    ensures Multiplier(suffix).Some? ==>
        Multiplier(suffix).value in {1, 1_024, 1_048_576, 1_073_741_824, 1_099_511_627_776}
  {
  }

  /** Why a typed size is refused: its suffix before its number, the number before the product. */
  lemma RefusedIff(input: string, number: string, suffix: string)
    requires Typed(input, number, suffix)
    ensures ParseSize(input) == Err(UnknownSuffix) <==> Lower(suffix) !in SUFFIXES
    ensures ParseSize(input) == Err(NumberTooBig) <==>
        Lower(suffix) in SUFFIXES && Value(number) > 18_446_744_073_709_551_615
    ensures ParseSize(input) == Err(SizeTooBig) <==>
        Lower(suffix) in SUFFIXES && Value(number) <= 18_446_744_073_709_551_615
        && Value(number) * Multiplier(Lower(suffix)).value > 18_446_744_073_709_551_615
    ensures ParseSize(input) != Err(NothingThere) && ParseSize(input) != Err(NoNumber)
  {
    ParsesTyped(input, number, suffix);
    KnownSuffixes(Lower(suffix));
  }

  /** Capital letters, and no other characters, count as small ones. */
  lemma LowerIs(s: string, k: nat)
    requires k < |s|
    ensures 65 <= s[k] as int <= 90 ==> Lower(s)[k] as int == s[k] as int + 32
    ensures !(65 <= s[k] as int <= 90) ==> Lower(s)[k] == s[k]
  {
    LowerAt(s, k);
  }

  function Pow10(n: nat): nat {
    if n == 0 then 1 else 10 * Pow10(n - 1)
  }

  /** A digit counts for as many powers of ten as digits come after it. */
  lemma {:induction false} DigitsCountByPlace(c: char, s: string)
    requires IsDigit(c) && AllDigits(s)
    ensures AllDigits([c] + s) && Value([c] + s) == DigitValue(c) * Pow10(|s|) + Value(s)
    ensures DigitValue(c) == c as nat - 48
  {
    var all := [c] + s;
    if s == [] {
      assert all[..0] == [] && all == [c];
    } else {
      var n := |s| - 1;
      assert all[..|all| - 1] == [c] + s[..n] && all[|all| - 1] == s[n];
      DigitsCountByPlace(c, s[..n]);
      TenTimes(DigitValue(c), Pow10(n), Value(s[..n]));
    }
  }

  lemma TenTimes(a: nat, b: nat, c: nat)
    ensures (a * b + c) * 10 == a * (10 * b) + c * 10
  {
  }

  /** What is printed, in figures: the largest of the four units that divides the count, else bytes. */
  lemma PrintedInFigures(bytes: u64)
    ensures FormatSize(bytes) ==
        if Takes(bytes, 1_099_511_627_776) then Print(bytes / 1_099_511_627_776) + " " + "TiB"
        else if Takes(bytes, 1_073_741_824) then Print(bytes / 1_073_741_824) + " " + "GiB"
        else if Takes(bytes, 1_048_576) then Print(bytes / 1_048_576) + " " + "MiB"
        else if Takes(bytes, 1_024) then Print(bytes / 1_024) + " " + "KiB"
        else Print(bytes) + " " + "bytes"
  {
    assert UNITS[1..] == [(GIB, "GiB"), (MIB, "MiB"), (KIB, "KiB")];
    assert UNITS[1..][1..] == [(MIB, "MiB"), (KIB, "KiB")];
    assert UNITS[1..][1..][1..] == [(KIB, "KiB")];
    assert UNITS[1..][1..][1..][1..] == [];
    FirstUnitStep(bytes, UNITS);
    FirstUnitStep(bytes, UNITS[1..]);
    FirstUnitStep(bytes, UNITS[1..][1..]);
    FirstUnitStep(bytes, UNITS[1..][1..][1..]);
  }

  predicate Takes(bytes: nat, scale: nat)
    requires scale > 0
  {
    bytes >= scale && bytes % scale == 0
  }

  lemma FirstUnitStep(bytes: u64, units: seq<(nat, string)>)
    requires units != [] && forall k :: 0 <= k < |units| ==> units[k].0 > 0
    ensures FirstUnit(bytes, units) ==
        if Takes(bytes, units[0].0) then Some(units[0]) else FirstUnit(bytes, units[1..])
  {
  }

  /** The sizes that the documentation gives as examples: four gigabytes, */
  lemma FourGigabytes()
    ensures ParseSize("4G") == Ok(4_294_967_296)
  {
    LowerOf("G", "g");
    ExampleParses("4", "G", 4, GIB);
    assert "4" + "G" == "4G";
  }

  /** 512 megabytes, */
  lemma HalfAGigabyte()
    ensures ParseSize("512MiB") == Ok(536_870_912)
  {
    LowerOf("MiB", "mib");
    PrintedFurther("5", 5, 1);
    PrintedFurther("51", 51, 2);
    ExampleParses("512", "MiB", 512, MIB);
    assert "512" + "MiB" == "512MiB";
  }

  /** and a number of bytes. */
  lemma BareNumber()
    ensures ParseSize("1048576") == Ok(1_048_576)
  {
    PrintedMillion();
    ExampleParses("1048576", "", 1048576, 1);
    assert "1048576" + "" == "1048576";
  }

  lemma PrintedMillion()
    ensures Print(1048576) == "1048576"
  {
    PrintedFurther("1", 1, 0);
    PrintedFurther("10", 10, 4);
    PrintedFurther("104", 104, 8);
    PrintedFurther("1048", 1048, 5);
    PrintedFurther("10485", 10485, 7);
    PrintedFurther("104857", 104857, 6);
  }

  lemma PrintedFurther(s: string, n: nat, d: nat)
    requires Print(n) == s && n > 0 && d < 10
    ensures Print(n * 10 + d) == s + [d as char + '0']
  {
    assert (n * 10 + d) / 10 == n && (n * 10 + d) % 10 == d;
  }

  lemma ExampleParses(number: string, suffix: string, n: nat, multiplier: nat)
    requires Print(n) == number && Multiplier(Lower(suffix)) == Some(multiplier) && n * multiplier <= U64_MAX
    ensures ParseSize(number + suffix) == Ok(n * multiplier)
  {
    assert [] + number + [] + suffix + [] == number + suffix;
    AcceptedIffItFits([], n, [], suffix, [], multiplier);
  }
}
