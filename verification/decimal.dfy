/**
 * Decimal rendering of a Java `long`, as `Long.toString` produces it, and the strict reader
 * that inverts it. The metric builder writes the collection timestamp with `Long.toString`.
 */
module Decimal {
  import opened Wrappers

  /** Java's 64-bit `long`. */
  newtype Long = x: int | -0x8000_0000_0000_0000 <= x < 0x8000_0000_0000_0000

  predicate IsDigit(c: char) {
    '0' <= c <= '9'
  }

  predicate AllDigits(s: string) {
    forall i :: 0 <= i < |s| ==> IsDigit(s[i])
  }

  /** A non-empty digit string without a superfluous leading zero. */
  predicate Canonical(s: string) {
    |s| > 0 && AllDigits(s) && (s[0] == '0' ==> |s| == 1)
  }

  function DigitChar(d: int): (c: char)
    requires 0 <= d < 10
    ensures IsDigit(c)
    ensures c as int - '0' as int == d
  {
    ('0' as int + d) as char
  }

  function DigitValue(c: char): (d: nat)
    requires IsDigit(c)
    ensures d < 10
  {
    c as int - '0' as int
  }

  /** The shortest decimal numeral of `n`, most significant digit first. */
  function NatToDigits(n: nat): (s: string)
    ensures Canonical(s)
    ensures s[0] == '0' ==> n == 0
    decreases n
  {
    if n < 10 then [DigitChar(n)] else NatToDigits(n / 10) + [DigitChar(n % 10)]
  }

  /** The value of a digit string, most significant digit first. */
  function DigitsToNat(s: string): nat
    requires AllDigits(s)
    decreases |s|
  {
    if |s| == 0 then 0 else DigitsToNat(s[..|s| - 1]) * 10 + DigitValue(s[|s| - 1])
  }

  /** `Long.toString(n)`: a minus sign for negative values, then the digits of |n|. */
  function LongToString(n: Long): (s: string)
    ensures |s| > 0
    ensures s[0] == '-' <==> n < 0
  {
    if n < 0 then "-" + NatToDigits(-(n as int)) else NatToDigits(n as int)
  }

  /**
   * Reads a numeral in exactly the form `LongToString` writes: an optional minus sign, then a
   * canonical digit string (no "-0"), whose value fits in a `long`. Anything else is `None`.
   */
  function ParseLong(s: string): Option<Long> {
    if |s| > 0 && s[0] == '-' then
      var digits := s[1..];
      if Canonical(digits) && digits != "0" && DigitsToNat(digits) <= 0x8000_0000_0000_0000 then
        Some((-(DigitsToNat(digits) as int)) as Long)
      else
        None
    else if Canonical(s) && DigitsToNat(s) < 0x8000_0000_0000_0000 then
      Some(DigitsToNat(s) as Long)
    else
      None
  }

  lemma DigitsToNatSnoc(s: string, c: char)
    requires AllDigits(s) && IsDigit(c)
    ensures AllDigits(s + [c])
    ensures DigitsToNat(s + [c]) == DigitsToNat(s) * 10 + DigitValue(c)
  {
    assert (s + [c])[..|s|] == s;
  }

  /** Reading back the digits of `n` gives `n`. */
  lemma {:induction false} DigitsRoundTrip(n: nat)
    ensures DigitsToNat(NatToDigits(n)) == n
    decreases n
  {
    if n >= 10 {
      DigitsRoundTrip(n / 10);
      DigitsToNatSnoc(NatToDigits(n / 10), DigitChar(n % 10));
    }
  }

  /** A canonical numeral whose first digit is not zero has a positive value. */
  lemma {:induction false} LeadingDigitPositive(s: string)
    requires AllDigits(s) && |s| > 0 && s[0] != '0'
    ensures DigitsToNat(s) > 0
    decreases |s|
  {
    if |s| > 1 {
      LeadingDigitPositive(s[..|s| - 1]);
    }
  }

  /** Writing the value of a canonical numeral gives back the same numeral. */
  lemma {:induction false} CanonicalRoundTrip(s: string)
    requires Canonical(s)
    ensures NatToDigits(DigitsToNat(s)) == s
    decreases |s|
  {
    if |s| > 1 {
      var prefix := s[..|s| - 1];
      assert Canonical(prefix);
      LeadingDigitPositive(prefix);
      CanonicalRoundTrip(prefix);
      var n := DigitsToNat(s);
      assert n / 10 == DigitsToNat(prefix) && n % 10 == DigitValue(s[|s| - 1]);
      assert s == prefix + [s[|s| - 1]];
    }
  }

  /** `ParseLong` inverts `Long.toString` on every `long`. */
  lemma LongRoundTrip(n: Long)
    ensures ParseLong(LongToString(n)) == Some(n)
  {
    var s := LongToString(n);
    if n < 0 {
      var m := -(n as int);
      assert s[1..] == NatToDigits(m);
      DigitsRoundTrip(m);
    } else {
      DigitsRoundTrip(n as int);
    }
  }

  /** Every numeral `ParseLong` accepts is exactly what `Long.toString` writes for its value. */
  lemma ParseLongCanonical(s: string, n: Long)
    requires ParseLong(s) == Some(n)
    ensures LongToString(n) == s
  {
    if |s| > 0 && s[0] == '-' {
      var digits := s[1..];
      LeadingDigitPositive(digits);
      CanonicalRoundTrip(digits);
      assert s == "-" + digits;
    } else {
      CanonicalRoundTrip(s);
    }
  }
}
