/** Digit strings: their numeric value in a radix, the shortest decimal numeral
    of a natural number and zero padding to a fixed width. These are shared by
    the `parseInt` model and the ISO-8601 timestamp format. */
module Numerals {

  predicate IsDigit(c: char)
  {
    '0' <= c <= '9'
  }

  predicate AllDigits(s: string)
  {
    forall i :: 0 <= i < |s| ==> IsDigit(s[i])
  }

  function DigitChar(d: nat): (c: char)
    requires d < 10
    ensures IsDigit(c)
  {
    ('0' as int + d) as char
  }

  /** The value of `c` as a digit: 0-9, then a..z and A..Z for 10..35; -1 if
      it is not a digit in any radix. */
  function DigitValue(c: char): int
  {
    if '0' <= c <= '9' then c as int - '0' as int
    else if 'a' <= c <= 'z' then c as int - 'a' as int + 10
    else if 'A' <= c <= 'Z' then c as int - 'A' as int + 10
    else -1
  }

  predicate IsRadixDigit(c: char, radix: nat)
  {
    0 <= DigitValue(c) < radix
  }

  predicate AllRadixDigits(s: string, radix: nat)
  {
    forall i :: 0 <= i < |s| ==> IsRadixDigit(s[i], radix)
  }

  /** The number a string of base-`radix` digits denotes, most significant
      digit first. */
  function Value(s: string, radix: nat): nat
    requires AllRadixDigits(s, radix)
  {
    if |s| == 0 then 0
    else Value(s[..|s| - 1], radix) * radix + DigitValue(s[|s| - 1])
  }

  function Pow10(k: nat): (p: nat)
    ensures p >= 1
  {
    if k == 0 then 1 else 10 * Pow10(k - 1)
  }

  /** The shortest decimal numeral of `n`: digits only, no leading zero, and it
      denotes `n`. */
  function Decimal(n: nat): (s: string)
    ensures 1 <= |s|
    ensures AllRadixDigits(s, 10) && AllDigits(s)
    ensures |s| > 1 ==> s[0] != '0'
    ensures Value(s, 10) == n
  {
    if n < 10 then [DigitChar(n)]
    else
      var init := Decimal(n / 10);
      var s := init + [DigitChar(n % 10)];
      assert s[..|s| - 1] == init;
      s
  }

  /** A number below 10^k has a numeral of at most k digits. */
  lemma {:induction false} DecimalLength(n: nat, k: nat)
    requires 1 <= k && n < Pow10(k)
    ensures |Decimal(n)| <= k
  {
    if n >= 10 {
      assert n / 10 < Pow10(k - 1);
      DecimalLength(n / 10, k - 1);
    }
  }

  function Zeros(k: nat): (z: string)
    ensures |z| == k && AllDigits(z)
    ensures forall i :: 0 <= i < k ==> z[i] == '0'
  {
    seq(k, _ => '0')
  }

  /** `s` with enough '0' characters prepended to make it `width` long. */
  function ZeroPad(s: string, width: nat): string
  {
    if |s| >= width then s else Zeros(width - |s|) + s
  }

  /** Leading zeros do not change the value of a numeral. */
  lemma {:induction false} ValueLeadingZeros(k: nat, s: string, radix: nat)
    requires 1 <= radix && AllRadixDigits(s, radix)
    ensures AllRadixDigits(Zeros(k) + s, radix)
    ensures Value(Zeros(k) + s, radix) == Value(s, radix)
  {
    var t := Zeros(k) + s;
    assert AllRadixDigits(t, radix) by {
      forall i | 0 <= i < |t|
        ensures IsRadixDigit(t[i], radix)
      {
        if i >= k { assert t[i] == s[i - k]; }
      }
    }
    if |s| == 0 {
      assert t == Zeros(k);
      if k > 0 {
        assert t[..k - 1] == Zeros(k - 1) + s;
        ValueLeadingZeros(k - 1, s, radix);
      }
    } else {
      var init := s[..|s| - 1];
      assert t[..|t| - 1] == Zeros(k) + init;
      ValueLeadingZeros(k, init, radix);
    }
  }

  /** The `width`-digit, zero-padded decimal numeral of `n`. */
  function Digits(n: nat, width: nat): (s: string)
    ensures |s| >= width && AllDigits(s) && AllRadixDigits(s, 10)
    ensures Value(s, 10) == n
    ensures 1 <= width && n < Pow10(width) ==> |s| == width
  {
    PaddedDecimal(n, width);
    ZeroPad(Decimal(n), width)
  }

  lemma PaddedDecimal(n: nat, width: nat)
    ensures var s := ZeroPad(Decimal(n), width);
      && |s| >= width && AllDigits(s) && AllRadixDigits(s, 10) && Value(s, 10) == n
      && (1 <= width && n < Pow10(width) ==> |s| == width)
  {
    var d := Decimal(n);
    var k := if |d| >= width then 0 else width - |d|;
    assert ZeroPad(d, width) == Zeros(k) + d;
    ValueLeadingZeros(k, d, 10);
    if 1 <= width && n < Pow10(width) {
      DecimalLength(n, width);
    }
  }
}
