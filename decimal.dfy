/** Decimal text for unsigned 64-bit integers: what `fmt.Sprintf("%d", n)`
    produces and what `strconv.ParseUint(s, 10, 64)` accepts. */
module Decimal {
  import opened Results

  const MAX_U64: nat := 0xFFFF_FFFF_FFFF_FFFF

  /** Go's uint64. */
  type u64 = n: nat | n <= MAX_U64

  predicate IsDigit(c: char)
  {
    '0' <= c <= '9'
  }

  predicate AllDigits(s: string)
  {
    forall i :: 0 <= i < |s| ==> IsDigit(s[i])
  }

  function DigitValue(c: char): (d: nat)
    requires IsDigit(c)
    ensures d < 10
  {
    c as int - '0' as int
  }

  function DigitChar(d: nat): (c: char)
    requires d < 10
    ensures IsDigit(c) && DigitValue(c) == d
  {
    ('0' as int + d) as char
  }

  /** The number the digits `s` denote when read left to right after `acc`. */
  function ValueFrom(s: string, acc: nat): (n: nat)
    requires AllDigits(s)
    ensures n >= acc
  {
    if s == [] then acc else ValueFrom(s[1..], acc * 10 + DigitValue(s[0]))
  }

  /** The number a string of decimal digits denotes (leading zeros allowed). */
  function DigitsValue(s: string): nat
    requires AllDigits(s)
  {
    ValueFrom(s, 0)
  }

  lemma {:induction false} ValueFromSnoc(s: string, c: char, acc: nat)
    requires AllDigits(s) && IsDigit(c)
    ensures AllDigits(s + [c])
    ensures ValueFrom(s + [c], acc) == ValueFrom(s, acc) * 10 + DigitValue(c)
  {
    assert AllDigits(s + [c]) by {
      forall i | 0 <= i < |s + [c]| ensures IsDigit((s + [c])[i]) {
        if i < |s| { assert (s + [c])[i] == s[i]; }
      }
    }
    if s == [] {
      assert [] + [c] == [c];
      assert [c][1..] == [];
    } else {
      assert (s + [c])[1..] == s[1..] + [c];
      ValueFromSnoc(s[1..], c, acc * 10 + DigitValue(s[0]));
    }
  }

  /** `fmt.Sprintf("%d", n)`: the canonical decimal numeral of `n`. */
  function NatToString(n: nat): (r: string)
    ensures |r| >= 1 && AllDigits(r)
    ensures r[0] == '0' <==> n == 0
    ensures n == 0 ==> r == "0"
    decreases n
  {
    if n < 10 then [DigitChar(n)]
    else
      var high := NatToString(n / 10);
      assert AllDigits(high + [DigitChar(n % 10)]) by { ValueFromSnoc(high, DigitChar(n % 10), 0); }
      high + [DigitChar(n % 10)]
  }

  /** The numeral `%d` prints denotes the number printed. */
  lemma {:induction false} NatToStringValue(n: nat)
    ensures DigitsValue(NatToString(n)) == n
    decreases n
  {
    if n < 10 {
      var s := NatToString(n);
      assert s == [DigitChar(n)] && s[1..] == [];
      assert ValueFrom(s, 0) == ValueFrom([], DigitValue(s[0]));
    } else {
      NatToStringValue(n / 10);
      ValueFromSnoc(NatToString(n / 10), DigitChar(n % 10), 0);
    }
  }

  /** The digit loop of strconv.ParseUint in base 10: the first non-digit is a
      syntax error, and the first digit that takes the value past 2^64-1 is a
      range error, whatever follows it. */
  function Scan(s: string, acc: u64): (r: Result<u64>)
    ensures AllDigits(s) ==>
      r == if ValueFrom(s, acc) <= MAX_U64 then Ok(ValueFrom(s, acc)) else Err(Range)
    ensures !AllDigits(s) ==> r.Err?
    ensures r.Err? ==> r.error == Syntax || r.error == Range
  {
    if s == [] then Ok(acc)
    else if !IsDigit(s[0]) then Err(Syntax)
    else
      var n := acc * 10 + DigitValue(s[0]);
      assert AllDigits(s) ==> AllDigits(s[1..]);
      assert !AllDigits(s) ==> !AllDigits(s[1..]) by {
        if !AllDigits(s) {
          var i :| 0 <= i < |s| && !IsDigit(s[i]);
          assert i > 0 && s[1..][i - 1] == s[i];
        }
      }
      if n > MAX_U64 then Err(Range) else Scan(s[1..], n)
  }

  /** How many characters `s` starts with that are digits. */
  function DigitRun(s: string): (k: nat)
    ensures k <= |s| && AllDigits(s[..k])
    ensures k < |s| ==> !IsDigit(s[k])
  {
    if s == [] || !IsDigit(s[0]) then 0
    else
      var k := 1 + DigitRun(s[1..]);
      assert s[..k] == [s[0]] + s[1..][..k - 1];
      k
  }

  /** Scan's error order, whatever the input: with `k` the length of the
      leading digit run, a run whose value passes 2^64-1 is a range error even
      when a non-digit follows it; otherwise a non-digit at `k` is a syntax
      error; otherwise the whole string is the value. */
  lemma {:induction false} ScanOrder(s: string, acc: u64)
    ensures var k := DigitRun(s);
      Scan(s, acc) ==
        if ValueFrom(s[..k], acc) > MAX_U64 then Err(Range)
        else if k < |s| then Err(Syntax)
        else Ok(ValueFrom(s[..k], acc))
  {
    var k := DigitRun(s);
    if s == [] || !IsDigit(s[0]) {
      assert s[..k] == [];
    } else {
      var n := acc * 10 + DigitValue(s[0]);
      assert s[..k][0] == s[0] && s[..k][1..] == s[1..][..k - 1];
      if n <= MAX_U64 {
        ScanOrder(s[1..], n);
      }
    }
  }

  /** strconv.ParseUint(s, 10, 64): succeeds exactly on a non-empty string of
      digits whose value fits in 64 bits, and yields that value. */
  function ParseUint64(s: string): (r: Result<u64>)
    ensures r.Ok? <==> s != [] && AllDigits(s) && DigitsValue(s) <= MAX_U64
    ensures r.Ok? ==> r.value == DigitsValue(s)
    ensures s != [] && AllDigits(s) && DigitsValue(s) > MAX_U64 ==> r == Err(Range)
    ensures s == [] ==> r == Err(Syntax)
    ensures r.Err? ==> r.error == Syntax || r.error == Range
  {
    if s == [] then Err(Syntax) else Scan(s, 0)
  }

  /** Printing then parsing a 64-bit value gives it back. */
  lemma ParseNatToString(n: u64)
    ensures ParseUint64(NatToString(n)) == Ok(n)
  {
    NatToStringValue(n);
  }
}
