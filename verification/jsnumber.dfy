/** The global `parseInt` of ECMAScript (section 19.2.5 of ECMA-262) called
    with one argument, as the time resolver uses it on the hour and minute
    fields of the spoken time. */
module JsNumber {
  import opened Wrappers
  import opened Numerals

  /** StrWhiteSpaceChar: the WhiteSpace characters (TAB, VT, FF, ZWNBSP and
      every space separator of category Zs) and the LineTerminators (LF, CR,
      LS, PS). */
  predicate IsStrWhiteSpace(c: char)
  {
    || c == '\t' || c == '\U{0B}' || c == '\U{0C}' || c == '\U{FEFF}'
    || c == ' ' || c == '\U{A0}' || c == '\U{1680}' || ('\U{2000}' <= c <= '\U{200A}')
    || c == '\U{202F}' || c == '\U{205F}' || c == '\U{3000}'
    || c == '\n' || c == '\r' || c == '\U{2028}' || c == '\U{2029}'
  }

  /** `s` without its leading white space. */
  function TrimStart(s: string): (r: string)
    ensures |r| <= |s| && r == s[|s| - |r|..]
    ensures forall i :: 0 <= i < |s| - |r| ==> IsStrWhiteSpace(s[i])
    ensures |r| == 0 || !IsStrWhiteSpace(r[0])
  {
    if |s| > 0 && IsStrWhiteSpace(s[0]) then TrimStart(s[1..]) else s
  }

  /** The longest prefix of `s` made of digits of base `radix`. */
  function RadixDigitPrefix(s: string, radix: nat): (z: string)
    ensures |z| <= |s| && z == s[..|z|]
    ensures AllRadixDigits(z, radix)
    ensures |z| == |s| || !IsRadixDigit(s[|z|], radix)
  {
    if |s| > 0 && IsRadixDigit(s[0], radix) then [s[0]] + RadixDigitPrefix(s[1..], radix) else []
  }

  /** `parseInt(s)`: skip leading white space, read an optional sign, then
      the magnitude. No digits gives NaN, modelled as None. The sign of a zero
      result is dropped: -0 and 0 behave alike wherever the handler uses them. */
  function ParseInt(s: string): (r: Option<int>)
    ensures r.Some? <==> StartsNumber(TrimStart(s))
    ensures r.Some? && r.value < 0 ==> TrimStart(s)[0] == '-'
  {
    ParseSigned(TrimStart(s))
  }

  /** `u` begins with a magnitude: a decimal digit, or "0x" or "0X" and then a
      hexadecimal digit. */
  predicate StartsMagnitude(u: string)
  {
    if |u| >= 2 && u[0] == '0' && (u[1] == 'x' || u[1] == 'X') then |u| > 2 && IsRadixDigit(u[2], 16)
    else |u| > 0 && IsDigit(u[0])
  }

  /** `t` begins with a magnitude, after at most one sign. */
  predicate StartsNumber(t: string)
  {
    if |t| > 0 && (t[0] == '-' || t[0] == '+') then StartsMagnitude(t[1..]) else StartsMagnitude(t)
  }

  function ParseSigned(t: string): (r: Option<int>)
    ensures r.Some? <==> StartsNumber(t)
    ensures r.Some? && r.value < 0 ==> t[0] == '-'
  {
    if |t| > 0 && (t[0] == '-' || t[0] == '+') then
      match ParseMagnitude(t[1..])
      case None => None
      case Some(v) => var m: int := v; Some(if t[0] == '-' then -m else m)
    else
      match ParseMagnitude(t)
      case None => None
      case Some(v) => Some(v)
  }

  /** The magnitude: base 16 after a "0x" or "0X" prefix, base 10 otherwise,
      read as the longest run of digits of that base. */
  function ParseMagnitude(u: string): (r: Option<nat>)
    ensures r.Some? <==> StartsMagnitude(u)
  {
    var hex := |u| >= 2 && u[0] == '0' && (u[1] == 'x' || u[1] == 'X');
    var radix := if hex then 16 else 10;
    var digits := RadixDigitPrefix(if hex then u[2..] else u, radix);
    if |digits| == 0 then None else Some(Value(digits, radix))
  }

  /** Reading digits stops exactly at the end of a run of digits. */
  lemma {:induction false} PrefixOfDigitRun(d: string, rest: string, radix: nat)
    requires AllRadixDigits(d, radix)
    requires |rest| == 0 || !IsRadixDigit(rest[0], radix)
    ensures RadixDigitPrefix(d + rest, radix) == d
  {
    if |d| > 0 {
      assert (d + rest)[1..] == d[1..] + rest;
      PrefixOfDigitRun(d[1..], rest, radix);
      assert [d[0]] + d[1..] == d;
    }
  }

  /** True when `d` followed by `rest` begins with the "0x" or "0X" that
      switches to base 16. */
  predicate HexSwitch(d: string, rest: string)
  {
    |d| == 1 && d[0] == '0' && |rest| > 0 && (rest[0] == 'x' || rest[0] == 'X')
  }

  /** A run of decimal digits followed by anything that is not a digit reads
      as the run's value, unless the run is a lone "0" and an 'x' follows. */
  lemma MagnitudeOfNumeral(d: string, rest: string)
    requires 1 <= |d| && AllDigits(d) && AllRadixDigits(d, 10)
    requires |rest| == 0 || !IsDigit(rest[0])
    requires !HexSwitch(d, rest)
    ensures ParseMagnitude(d + rest) == Some(Value(d, 10))
  {
    var u := d + rest;
    assert |d| == 1 && |rest| > 0 ==> u[1] == rest[0];
    assert |d| > 1 ==> u[1] == d[1];
    assert |rest| > 0 ==> !IsRadixDigit(rest[0], 10);
    PrefixOfDigitRun(d, rest, 10);
  }

  /** A string that starts with a digit is read as an unsigned magnitude. */
  lemma StartsWithDigit(u: string)
    requires |u| > 0 && IsDigit(u[0])
    ensures ParseInt(u) == ParseMagnitude(u)
  {
    assert !IsStrWhiteSpace(u[0]);
    assert TrimStart(u) == u;
    assert u[0] != '-' && u[0] != '+';
  }

  /** A leading minus sign negates the magnitude read after it: "-3" gives -3. */
  lemma StartsWithMinus(u: string, v: nat)
    requires ParseMagnitude(u) == Some(v)
    ensures ParseInt("-" + u) == Some(-(v as int))
  {
    var s := "-" + u;
    assert TrimStart(s) == s;
    assert s[1..] == u;
  }

  /** A leading plus sign is dropped: "+18" gives 18. */
  lemma StartsWithPlus(u: string, v: nat)
    requires ParseMagnitude(u) == Some(v)
    ensures ParseInt("+" + u) == Some(v)
  {
    var s := "+" + u;
    assert TrimStart(s) == s;
    assert s[1..] == u;
  }

  /** A numeral followed by anything that is not a digit parses to its value:
      "18" gives 18, "09" gives 9, "7 pm" gives 7, "18x" gives 18. Only a lone
      "0" before an 'x' is read differently, as the base-16 prefix. */
  lemma LeadingNumeral(d: string, rest: string)
    requires 1 <= |d| && AllDigits(d) && AllRadixDigits(d, 10)
    requires |rest| == 0 || !IsDigit(rest[0])
    requires !HexSwitch(d, rest)
    ensures ParseInt(d + rest) == Some(Value(d, 10))
  {
    MagnitudeOfNumeral(d, rest);
    StartsWithDigit(d + rest);
  }

  /** A numeral alone parses to its value. */
  lemma Numeral(d: string)
    requires 1 <= |d| && AllDigits(d) && AllRadixDigits(d, 10)
    ensures ParseInt(d) == Some(Value(d, 10))
  {
    LeadingNumeral(d, "");
    assert d + "" == d;
  }

  /** Leading white space is skipped. */
  lemma SkipsWhiteSpace(ws: string, s: string)
    requires forall i :: 0 <= i < |ws| ==> IsStrWhiteSpace(ws[i])
    ensures ParseInt(ws + s) == ParseInt(s)
  {
    TrimStartWhiteSpace(ws, s);
  }

  lemma {:induction false} TrimStartWhiteSpace(ws: string, s: string)
    requires forall i :: 0 <= i < |ws| ==> IsStrWhiteSpace(ws[i])
    ensures TrimStart(ws + s) == TrimStart(s)
  {
    if |ws| > 0 {
      assert (ws + s)[1..] == ws[1..] + s;
      TrimStartWhiteSpace(ws[1..], s);
    } else {
      assert ws + s == s;
    }
  }

  /** A string that starts with anything other than white space, a sign or a
      digit is NaN: "mediodía", "", "las 3". */
  lemma NotANumber(s: string)
    requires |s| == 0 || (!IsDigit(s[0]) && !IsStrWhiteSpace(s[0]) && s[0] != '+' && s[0] != '-')
    ensures ParseInt(s) == None
  {
  }

  /** Without a radix argument, a leading "0x" or "0X" switches to base 16:
      the run of hexadecimal digits after it is read as a base-16 number, so
      "0x1A" gives 26 and "0x12:00" gives 18. */
  lemma HexNumeral(x: char, d: string, rest: string)
    requires x == 'x' || x == 'X'
    requires 1 <= |d| && AllRadixDigits(d, 16)
    requires |rest| == 0 || !IsRadixDigit(rest[0], 16)
    ensures ParseInt(['0', x] + (d + rest)) == Some(Value(d, 16))
  {
    var s := ['0', x] + (d + rest);
    assert s[0] == '0' && s[1] == x && s[2..] == d + rest;
    HexMagnitude(s, d, rest);
    StartsWithDigit(s);
  }

  lemma HexMagnitude(u: string, d: string, rest: string)
    requires |u| >= 2 && u[0] == '0' && (u[1] == 'x' || u[1] == 'X') && u[2..] == d + rest
    requires 1 <= |d| && AllRadixDigits(d, 16)
    requires |rest| == 0 || !IsRadixDigit(rest[0], 16)
    ensures ParseMagnitude(u) == Some(Value(d, 16))
  {
    PrefixOfDigitRun(d, rest, 16);
  }

  /** "0x" or "0X" with no hexadecimal digit after it is NaN, even though the
      "0" alone would have been a number. */
  lemma BareHexPrefix(x: char, rest: string)
    requires x == 'x' || x == 'X'
    requires |rest| == 0 || !IsRadixDigit(rest[0], 16)
    ensures ParseInt(['0', x] + rest) == None
  {
    var s := ['0', x] + rest;
    assert s[0] == '0' && s[1] == x && s[2..] == rest;
    assert RadixDigitPrefix(rest, 16) == [];
    StartsWithDigit(s);
  }
}
