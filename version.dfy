/** The version value: a (major, minor, build) triple of 64-bit counters, its
    lenient parser, its four text forms and its increment rule. */
module Versions {
  import opened Results
  import opened Text
  import opened Decimal

  const Prefix: char := 'v'
  const Separator: char := '.'

  /** The value of a Version: two versions with equal fields are the same version. */
  datatype Triple = Triple(major: u64, minor: u64, build: u64)

  /** What a directory without a version file holds, and `&Version{}`. */
  const Zero: Triple := Triple(0, 0, 0)

  /* ---------------- parsing ---------------- */

  /** One segment's number: a segment that starts with `v` loses every leading
      `v`; what is left is 0 when empty and otherwise a decimal uint64. */
  function ParseUInt(s: string): (r: Result<u64>)
    ensures r.Err? ==> r.error == Syntax || r.error == Range
  {
    var t := if HasPrefix(s, [Prefix]) then TrimLeft(s, Prefix) else s;
    if |t| == 0 then Ok(0) else ParseUint64(t)
  }

  /** The HasPrefix guard changes nothing: a segment reads as what is left
      after trimming every leading `v`. */
  lemma ParseUIntTrims(s: string)
    ensures var t := TrimLeft(s, Prefix);
      ParseUInt(s) == if t == [] then Ok(0) else ParseUint64(t)
  {
    if s != [] && s[0] == Prefix {
      assert s[..1] == [Prefix];
    }
  }

  /** Any run of leading `v`s, the empty run included, is ignored: a segment
      made only of `v`s is 0, and otherwise the rest must be a decimal uint64. */
  lemma ParseUIntAfterVs(k: nat, t: string)
    requires t == [] || t[0] != Prefix
    ensures ParseUInt(Repeat(Prefix, k) + t) == if t == [] then Ok(0) else ParseUint64(t)
  {
    var s := Repeat(Prefix, k) + t;
    if k == 0 {
      assert s == t;
    } else {
      assert Repeat(Prefix, k) == [Prefix] + Repeat(Prefix, k - 1);
      assert s[..1] == [Prefix];
      TrimLeftRun(Prefix, k, t);
    }
  }

  /** Every segment of the form v...v<decimal of n> parses to n. */
  lemma ParseUIntNumeral(k: nat, n: u64)
    ensures ParseUInt(Repeat(Prefix, k) + NatToString(n)) == Ok(n)
  {
    var t := NatToString(n);
    assert t[0] != Prefix by { assert IsDigit(t[0]); }
    ParseUIntAfterVs(k, t);
    ParseNatToString(n);
  }

  /** Reads one to three segments as major, minor and build, in that order; a
      missing minor or build segment reads as "" and so as 0, and the first
      segment that fails decides the error. */
  function ParseSegments(segs: seq<string>): (r: Result<Triple>)
    requires 1 <= |segs| <= 3
    ensures r.Ok? <==> forall i :: 0 <= i < |segs| ==> ParseUInt(segs[i]).Ok?
    ensures r.Ok? ==>
      ParseUInt(segs[0]) == Ok(r.value.major) &&
      (if |segs| >= 2 then ParseUInt(segs[1]) == Ok(r.value.minor) else r.value.minor == 0) &&
      (if |segs| == 3 then ParseUInt(segs[2]) == Ok(r.value.build) else r.value.build == 0)
    ensures r.Err? ==>
      (r.error == Syntax || r.error == Range) &&
      (ParseUInt(segs[0]) == Err(r.error) ||
       (ParseUInt(segs[0]).Ok? && |segs| >= 2 && ParseUInt(segs[1]) == Err(r.error)) ||
       (ParseUInt(segs[0]).Ok? && ParseUInt(segs[1]).Ok? && |segs| == 3 && ParseUInt(segs[2]) == Err(r.error)))
  {
    var majorStr := segs[0];
    var minorStr := if |segs| >= 2 then segs[1] else "";
    var buildStr := if |segs| == 3 then segs[2] else "";
    EmptySegmentIsZero();
    Fields(ParseUInt(majorStr), ParseUInt(minorStr), ParseUInt(buildStr))
  }

  lemma EmptySegmentIsZero()
    ensures ParseUInt("") == Ok(0)
  {
    assert !HasPrefix("", [Prefix]);
  }

  /** The three readings in Parse's order: the first error wins. */
  function Fields(major: Result<u64>, minor: Result<u64>, build: Result<u64>): (r: Result<Triple>)
    ensures r.Ok? <==> major.Ok? && minor.Ok? && build.Ok?
    ensures r.Ok? ==> r.value == Triple(major.value, minor.value, build.value)
    ensures r.Err? ==> r.error == if major.Err? then major.error else if minor.Err? then minor.error else build.error
  {
    match major
    case Err(e) => Err(e)
    case Ok(a) =>
      match minor
      case Err(e) => Err(e)
      case Ok(b) =>
        match build
        case Err(e) => Err(e)
        case Ok(c) => Ok(Triple(a, b, c))
  }

  /** Parse: split on `.`, accept one to three segments, and read them with
      ParseSegments. */
  function Parse(text: string): (r: Result<Triple>)
    ensures r == Err(TooManySegments) <==> multiset(text)[Separator] > 2
    ensures var segs := Split(text, Separator);
      r.Ok? <==> |segs| <= 3 && forall i :: 0 <= i < |segs| ==> ParseUInt(segs[i]).Ok?
    ensures var segs := Split(text, Separator);
      r.Ok? ==>
        ParseUInt(segs[0]) == Ok(r.value.major) &&
        (if |segs| >= 2 then ParseUInt(segs[1]) == Ok(r.value.minor) else r.value.minor == 0) &&
        (if |segs| == 3 then ParseUInt(segs[2]) == Ok(r.value.build) else r.value.build == 0)
    ensures var segs := Split(text, Separator);
      r.Err? && |segs| <= 3 ==>
        exists i :: 0 <= i < |segs| && ParseUInt(segs[i]) == Err(r.error) &&
          forall j :: 0 <= j < i ==> ParseUInt(segs[j]).Ok?
  {
    var segs := Split(text, Separator);
    SplitCount(text, Separator);
    if |segs| > 3 then Err(TooManySegments) else ParseSegments(segs)
  }

  /* ---------------- formatting ---------------- */

  /** Decimal numerals never contain the separator or the prefix. */
  lemma NumeralIsPlain(n: nat)
    ensures Separator !in NatToString(n) && Prefix !in NatToString(n)
  {
    var s := NatToString(n);
    forall i | 0 <= i < |s| ensures s[i] != Separator && s[i] != Prefix {
      assert IsDigit(s[i]);
    }
  }

  /** The full form without prefix: always exactly three decimal segments. */
  function StringNumber(v: Triple): (r: string)
    ensures Split(r, Separator) == [NatToString(v.major), NatToString(v.minor), NatToString(v.build)]
  {
    var segs := [NatToString(v.major), NatToString(v.minor), NatToString(v.build)];
    NumeralIsPlain(v.major);
    NumeralIsPlain(v.minor);
    NumeralIsPlain(v.build);
    SplitOfJoin(segs, Separator);
    Join(segs, Separator)
  }

  /** The full form, as written to the version file: three segments, the
      first of them carrying the prefix. */
  function String(v: Triple): (r: string)
    ensures Split(r, Separator) ==
      [[Prefix] + NatToString(v.major), NatToString(v.minor), NatToString(v.build)]
  {
    SplitAfterPrefix(StringNumber(v));
    [Prefix] + StringNumber(v)
  }

  /** The short form without prefix: major always; minor when minor or build
      is nonzero; build when build is nonzero. */
  function StringShortNumber(v: Triple): (r: string)
    ensures var segs := Split(r, Separator);
      |segs| == (if v.build > 0 then 3 else if v.minor > 0 then 2 else 1) &&
      segs[0] == NatToString(v.major) &&
      (|segs| >= 2 ==> segs[1] == NatToString(v.minor)) &&
      (|segs| == 3 ==> segs[2] == NatToString(v.build))
  {
    var segs := [NatToString(v.major)];
    var segs := if v.minor > 0 || v.build > 0 then segs + [NatToString(v.minor)] else segs;
    var segs := if v.build > 0 then segs + [NatToString(v.build)] else segs;
    NumeralIsPlain(v.major);
    NumeralIsPlain(v.minor);
    NumeralIsPlain(v.build);
    assert segs == [NatToString(v.major), NatToString(v.minor), NatToString(v.build)][..|segs|];
    SplitOfJoin(segs, Separator);
    Join(segs, Separator)
  }

  /** The short form: the segments of StringShortNumber, the first of them
      carrying the prefix. */
  function StringShort(v: Triple): (r: string)
    ensures var segs := Split(r, Separator);
      |segs| == (if v.build > 0 then 3 else if v.minor > 0 then 2 else 1) &&
      segs[0] == [Prefix] + NatToString(v.major) &&
      (|segs| >= 2 ==> segs[1] == NatToString(v.minor)) &&
      (|segs| == 3 ==> segs[2] == NatToString(v.build))
  {
    SplitAfterPrefix(StringShortNumber(v));
    [Prefix] + StringShortNumber(v)
  }

  /** Segments that are the numerals of v's leading fields, the first one
      after at most one `v`, read back as v. */
  lemma ParseNumeralSegments(v: Triple, segs: seq<string>, k: nat)
    requires k <= 1 && 1 <= |segs| <= 3
    requires segs[0] == Repeat(Prefix, k) + NatToString(v.major)
    requires if |segs| >= 2 then segs[1] == NatToString(v.minor) else v.minor == 0
    requires if |segs| == 3 then segs[2] == NatToString(v.build) else v.build == 0
    ensures ParseSegments(segs) == Ok(v)
  {
    ParseUIntNumeral(k, v.major);
    var minorStr := if |segs| >= 2 then segs[1] else "";
    var buildStr := if |segs| == 3 then segs[2] else "";
    assert ParseUInt(minorStr) == Ok(v.minor) by {
      if |segs| >= 2 {
        ParseUIntNumeral(0, v.minor);
        assert Repeat(Prefix, 0) + NatToString(v.minor) == minorStr;
      } else {
        EmptySegmentIsZero();
      }
    }
    assert ParseUInt(buildStr) == Ok(v.build) by {
      if |segs| == 3 {
        ParseUIntNumeral(0, v.build);
        assert Repeat(Prefix, 0) + NatToString(v.build) == buildStr;
      } else {
        EmptySegmentIsZero();
      }
    }
  }

  /** A text whose segments are the numerals of v's leading fields parses as v. */
  lemma ParseNumerals(v: Triple, text: string, k: nat)
    requires k <= 1
    requires var segs := Split(text, Separator);
      1 <= |segs| <= 3 &&
      segs[0] == Repeat(Prefix, k) + NatToString(v.major) &&
      (if |segs| >= 2 then segs[1] == NatToString(v.minor) else v.minor == 0) &&
      (if |segs| == 3 then segs[2] == NatToString(v.build) else v.build == 0)
    ensures Parse(text) == Ok(v)
  {
    ParseNumeralSegments(v, Split(text, Separator), k);
  }

  /** Split sees a leading prefix as part of the first segment. */
  lemma SplitAfterPrefix(s: string)
    requires |Split(s, Separator)| >= 1
    ensures var segs := Split(s, Separator);
      Split([Prefix] + s, Separator) == [[Prefix] + segs[0]] + segs[1..]
  {
    var t := [Prefix] + s;
    assert t[1..] == s;
  }

  /** Round trip: the full form (the version file's contents) parses back to
      the version it was printed from. */
  lemma ParseString(v: Triple)
    ensures Parse(String(v)) == Ok(v)
  {
    assert Repeat(Prefix, 1) == [Prefix];
    ParseNumerals(v, String(v), 1);
  }

  /** Round trip for the full form without prefix. */
  lemma ParseStringNumber(v: Triple)
    ensures Parse(StringNumber(v)) == Ok(v)
  {
    assert Repeat(Prefix, 0) + NatToString(v.major) == NatToString(v.major);
    ParseNumerals(v, StringNumber(v), 0);
  }

  /** The short form loses nothing either: the segments it omits are exactly
      those Parse fills in with 0. */
  lemma ParseStringShort(v: Triple)
    ensures Parse(StringShort(v)) == Ok(v)
  {
    assert Repeat(Prefix, 1) == [Prefix];
    ParseNumerals(v, StringShort(v), 1);
  }

  lemma ParseStringShortNumber(v: Triple)
    ensures Parse(StringShortNumber(v)) == Ok(v)
  {
    assert Repeat(Prefix, 0) + NatToString(v.major) == NatToString(v.major);
    ParseNumerals(v, StringShortNumber(v), 0);
  }

  /* ---------------- increasing ---------------- */

  /** Go's `+=` on uint64: addition modulo 2^64. */
  function Add64(a: u64, b: u64): (r: u64)
    ensures a + b <= MAX_U64 ==> r == a + b
    ensures a + b > MAX_U64 ==> r == a + b - (MAX_U64 + 1)
  {
    (a + b) % (MAX_U64 + 1)
  }

  /** The value IncreaseHere leaves behind: a major step zeroes minor and build,
      a minor step then zeroes build, a build step then adds to build. */
  function Increased(v: Triple, majorInc: u64, minorInc: u64, buildInc: u64): (r: Triple)
    ensures majorInc > 0 ==> r == Triple(Add64(v.major, majorInc), minorInc, buildInc)
    ensures majorInc == 0 && minorInc > 0 ==> r == Triple(v.major, Add64(v.minor, minorInc), buildInc)
    ensures majorInc == 0 && minorInc == 0 ==> r == Triple(v.major, v.minor, Add64(v.build, buildInc))
    ensures majorInc == 0 && minorInc == 0 && buildInc == 0 ==> r == v
  {
    var afterMajor := if majorInc > 0 then Triple(Add64(v.major, majorInc), 0, 0) else v;
    var afterMinor := if minorInc > 0 then afterMajor.(minor := Add64(afterMajor.minor, minorInc), build := 0) else afterMajor;
    if buildInc > 0 then afterMinor.(build := Add64(afterMinor.build, buildInc)) else afterMinor
  }

  /** Version order: by major, then minor, then build. */
  predicate Precedes(a: Triple, b: Triple)
  {
    a.major < b.major ||
    (a.major == b.major && (a.minor < b.minor || (a.minor == b.minor && a.build < b.build)))
  }

  /** A nonzero increase moves the version strictly forward, as long as the
      field it adds to does not wrap around. */
  lemma IncreaseAdvances(v: Triple, majorInc: u64, minorInc: u64, buildInc: u64)
    requires majorInc > 0 || minorInc > 0 || buildInc > 0
    requires majorInc > 0 ==> v.major + majorInc <= MAX_U64
    requires majorInc == 0 && minorInc > 0 ==> v.minor + minorInc <= MAX_U64
    requires majorInc == 0 && minorInc == 0 ==> v.build + buildInc <= MAX_U64
    ensures Precedes(v, Increased(v, majorInc, minorInc, buildInc))
  {
  }

  /** Without that proviso the version can move backwards: the largest major
      version plus one is 0.0.0. */
  lemma MajorIncreaseWraps(minor: u64, build: u64)
    ensures Increased(Triple(MAX_U64, minor, build), 1, 0, 0) == Zero
    ensures Precedes(Zero, Triple(MAX_U64, minor, build))
  {
  }

  /** A Version object: the fields IncreaseHere updates in place. */
  class Version {
    var major: u64
    var minor: u64
    var build: u64

    function Value(): Triple
      reads this
    {
      Triple(major, minor, build)
    }

    constructor (value: Triple)
      ensures Value() == value
    {
      major, minor, build := value.major, value.minor, value.build;
    }

    /** Increases this version in place. */
    method IncreaseHere(majorInc: u64, minorInc: u64, buildInc: u64)
      modifies this
      ensures Value() == Increased(old(Value()), majorInc, minorInc, buildInc)
    {
      if majorInc > 0 {
        major := Add64(major, majorInc);
        minor := 0;
        build := 0;
      }
      if minorInc > 0 {
        minor := Add64(minor, minorInc);
        build := 0;
      }
      if buildInc > 0 {
        build := Add64(build, buildInc);
      }
    }

    /** Returns a new Version holding what IncreaseHere would leave in a copy;
        this one is left as it was. */
    method Increase(majorInc: u64, minorInc: u64, buildInc: u64) returns (newV: Version)
      ensures fresh(newV)
      ensures newV.Value() == Increased(Value(), majorInc, minorInc, buildInc)
      ensures Value() == old(Value())
    {
      newV := new Version(Value());
      newV.IncreaseHere(majorInc, minorInc, buildInc);
    }
  }
}
