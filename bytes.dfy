/**
 * Bytes, ASCII text and the decimal rendering of lengths that `format!("{}", n)`
 * produces for an unsigned integer.
 */
module Bytes {
  import opened Wrappers

  type byte = x: int | 0 <= x < 256

  /** The ASCII code of the digit '0'. */
  const Zero: byte := 48

  predicate IsDigit(b: byte) {
    Zero <= b < Zero + 10
  }

  predicate IsAscii(s: string) {
    forall i :: 0 <= i < |s| ==> s[i] as int < 128
  }

  /** The bytes of an ASCII string, one per character (what `str::as_bytes` yields). */
  function Ascii(s: string): (r: seq<byte>)
    requires IsAscii(s)
    ensures |r| == |s|
    ensures forall i :: 0 <= i < |s| ==> r[i] == s[i] as int
  {
    seq(|s|, i requires 0 <= i < |s| => s[i] as int)
  }

  /**
   * The decimal rendering of `n`: most significant digit first, no leading
   * zero, and "0" for zero.
   */
  function Decimal(n: nat): (r: seq<byte>)
    ensures |r| >= 1
    ensures forall i :: 0 <= i < |r| ==> IsDigit(r[i])
    ensures |r| > 1 ==> r[0] != Zero
  {
    if n < 10 then [Zero + n] else Decimal(n / 10) + [Zero + n % 10]
  }

  /** The number that a string of decimal digits denotes. */
  function DigitsValue(s: seq<byte>): nat
    requires forall i :: 0 <= i < |s| ==> IsDigit(s[i])
  {
    if |s| == 0 then 0
    else
      assert IsDigit(s[|s| - 1]);
      DigitsValue(s[..|s| - 1]) * 10 + (s[|s| - 1] as int - Zero as int)
  }

  /** How a receiver reads a decimal header value: a non-empty run of digits. */
  function ParseDecimal(s: seq<byte>): Option<nat> {
    if |s| > 0 && forall i :: 0 <= i < |s| ==> IsDigit(s[i]) then Some(DigitsValue(s)) else None
  }

  /** A canonical decimal string: digits only, and no leading zero unless it is "0". */
  predicate IsCanonicalDecimal(s: seq<byte>) {
    && |s| > 0
    && (forall i :: 0 <= i < |s| ==> IsDigit(s[i]))
    && (|s| > 1 ==> s[0] != Zero)
  }

  /** Reading back the rendering of `n` gives `n`. */
  lemma {:induction false} DecimalRoundTrip(n: nat)
    ensures ParseDecimal(Decimal(n)) == Some(n)
  {
    DigitsOfDecimal(n);
  }

  lemma {:induction false} DigitsOfDecimal(n: nat)
    ensures DigitsValue(Decimal(n)) == n
  {
    if n >= 10 {
      var d := Decimal(n);
      assert d[..|d| - 1] == Decimal(n / 10);
      DigitsOfDecimal(n / 10);
    }
  }

  /** Rendering is the inverse of reading on canonical strings: the rendering is unique. */
  lemma {:induction false} DecimalOfDigits(s: seq<byte>)
    requires IsCanonicalDecimal(s)
    ensures Decimal(DigitsValue(s)) == s
  {
    var init := s[..|s| - 1];
    if |s| > 1 {
      assert IsCanonicalDecimal(init) by {
        assert init[0] == s[0];
      }
      DecimalOfDigits(init);
      LeadingDigitPositive(init);
      assert DigitsValue(s) / 10 == DigitsValue(init);
      assert DigitsValue(s) % 10 == s[|s| - 1] - Zero;
      assert s == init + [s[|s| - 1]];
    }
  }

  lemma {:induction false} LeadingDigitPositive(s: seq<byte>)
    requires IsCanonicalDecimal(s) && |s| > 0 && s[0] != Zero
    ensures DigitsValue(s) >= 1
  {
    if |s| > 1 {
      var init := s[..|s| - 1];
      assert init[0] == s[0];
      LeadingDigitPositive(init);
    }
  }

  /** Two lengths render the same exactly when they are equal. */
  lemma DecimalInjective(m: nat, n: nat)
    ensures Decimal(m) == Decimal(n) <==> m == n
  {
    DecimalRoundTrip(m);
    DecimalRoundTrip(n);
  }
}
