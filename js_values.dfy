/**
 * The JavaScript built-ins that the handlers and helpers lean on, restricted to the cases
 * they use: `Number.prototype.toString()` on integers, the global `parseInt(string, radix)`
 * (ECMAScript section 19.2.5) and `String.prototype.padStart` with a one-character filler.
 */
module JsValues {

  datatype Option<+T> = None | Some(value: T)

  // ---------------------------------------------------------------------------------------
  // Number.prototype.toString() for integral numbers (radix 10)
  // ---------------------------------------------------------------------------------------

  predicate IsDecimalDigit(c: char) {
    '0' <= c <= '9'
  }

  predicate AllDecimalDigits(s: string) {
    forall i :: 0 <= i < |s| ==> IsDecimalDigit(s[i])
  }

  function DigitChar(d: nat): (c: char)
    requires d < 10
    ensures IsDecimalDigit(c) && c as int - '0' as int == d
  {
    (d + '0' as int) as char
  }

  /** Decimal rendering of a natural number: no sign, no leading zero unless the number is 0. */
  function NatToString(n: nat): (s: string)
    ensures 1 <= |s|
    ensures AllDecimalDigits(s)
    ensures s[0] == '0' ==> n == 0 && s == "0"
    ensures n < 10 <==> |s| == 1
    decreases n
  {
    if n < 10 then [DigitChar(n)] else NatToString(n / 10) + [DigitChar(n % 10)]
  }

  /** `String(i)` for an integer: a minus sign in front of the magnitude when negative. */
  function IntToString(i: int): (s: string)
    ensures 1 <= |s|
    ensures i < 0 <==> s[0] == '-'
    ensures i >= 0 ==> s == NatToString(i)
  {
    if i < 0 then "-" + NatToString(-i) else NatToString(i)
  }

  // ---------------------------------------------------------------------------------------
  // parseInt(string, radix)
  // ---------------------------------------------------------------------------------------

  /** The value of `c` as a digit of radix up to 36; 36 when `c` is no digit at all. */
  function DigitValue(c: char): (v: nat)
    ensures v <= 36
  {
    if '0' <= c <= '9' then c as int - '0' as int
    else if 'a' <= c <= 'z' then c as int - 'a' as int + 10
    else if 'A' <= c <= 'Z' then c as int - 'A' as int + 10
    else 36
  }

  predicate IsRadixDigit(c: char, radix: nat) {
    DigitValue(c) < radix
  }

  predicate AllRadixDigits(z: string, radix: nat) {
    forall i :: 0 <= i < |z| ==> IsRadixDigit(z[i], radix)
  }

  /** WhiteSpace and LineTerminator code points, which parseInt skips at the start. */
  predicate IsStrWhiteSpace(c: char) {
    || c == '\t' || c == '\n' || c == '\U{000B}' || c == '\U{000C}' || c == '\r' || c == ' '
    || c == '\U{00A0}' || c == '\U{1680}' || ('\U{2000}' <= c <= '\U{200A}')
    || c == '\U{2028}' || c == '\U{2029}' || c == '\U{202F}' || c == '\U{205F}'
    || c == '\U{3000}' || c == '\U{FEFF}'
  }

  function TrimStart(s: string): (t: string)
    ensures |t| <= |s| && t == s[|s| - |t|..]
    ensures |t| > 0 ==> !IsStrWhiteSpace(t[0])
    ensures forall i :: 0 <= i < |s| - |t| ==> IsStrWhiteSpace(s[i])
  {
    if |s| > 0 && IsStrWhiteSpace(s[0]) then TrimStart(s[1..]) else s
  }

  /** The longest prefix of `s` made of digits of the given radix. */
  function DigitPrefix(s: string, radix: nat): (z: string)
    ensures |z| <= |s| && z == s[..|z|]
    ensures AllRadixDigits(z, radix)
    ensures |z| < |s| ==> !IsRadixDigit(s[|z|], radix)
  {
    if |s| == 0 || !IsRadixDigit(s[0], radix) then [] else [s[0]] + DigitPrefix(s[1..], radix)
  }

  /** The mathematical value of a digit string, most significant digit first. */
  function ValueOf(z: string, radix: nat): nat
    requires AllRadixDigits(z, radix)
  {
    if |z| == 0 then 0 else ValueOf(z[..|z| - 1], radix) * radix + DigitValue(z[|z| - 1])
  }

  /**
   * Steps 4 to 8 of parseInt, after whitespace and sign are gone: settle the radix (an
   * omitted radix, written 0, is 10 unless the text starts with "0x" or "0X"), then read the
   * longest run of digits. `None` is NaN.
   */
  function ParseMagnitude(unsigned: string, radix: int): Option<nat>
  {
    if radix != 0 && (radix < 2 || 36 < radix) then None
    else
      var stripPrefix := radix == 0 || radix == 16;
      var hex := stripPrefix && |unsigned| >= 2 && unsigned[0] == '0' && (unsigned[1] == 'x' || unsigned[1] == 'X');
      var r: nat := if hex then 16 else if radix == 0 then 10 else radix;
      var digits := DigitPrefix(if hex then unsigned[2..] else unsigned, r);
      if digits == [] then None else Some(ValueOf(digits, r))
  }

  /**
   * `parseInt(input, radix)`; a `radix` of 0 stands for an omitted radix. `None` is NaN.
   * The result -0 of "-0" is returned as 0: both are falsy, which is all the callers test.
   */
  function ParseInt(input: string, radix: int): Option<int>
  {
    var s := TrimStart(input);
    var negative := |s| > 0 && s[0] == '-';
    var unsigned := if |s| > 0 && (s[0] == '-' || s[0] == '+') then s[1..] else s;
    match ParseMagnitude(unsigned, radix)
    case None => None
    case Some(m) => Some(if negative then -(m as int) else m as int)
  }

  lemma {:induction false} ValueOfDecimal(n: nat)
    ensures AllRadixDigits(NatToString(n), 10)
    ensures ValueOf(NatToString(n), 10) == n
    decreases n
  {
    var s := NatToString(n);
    assert AllRadixDigits(s, 10) by {
      forall i | 0 <= i < |s| ensures IsRadixDigit(s[i], 10) {
        assert IsDecimalDigit(s[i]);
      }
    }
    if n >= 10 {
      ValueOfDecimal(n / 10);
      assert s[..|s| - 1] == NatToString(n / 10);
    }
  }

  lemma {:induction false} DigitPrefixWhole(s: string, rest: string, radix: nat)
    requires AllRadixDigits(s, radix)
    requires |rest| > 0 ==> !IsRadixDigit(rest[0], radix)
    ensures DigitPrefix(s + rest, radix) == s
    decreases |s|
  {
    if |s| == 0 {
      assert s + rest == rest;
    } else {
      assert (s + rest)[0] == s[0];
      assert (s + rest)[1..] == s[1..] + rest;
      assert AllRadixDigits(s[1..], radix) by {
        forall i | 0 <= i < |s[1..]| ensures IsRadixDigit(s[1..][i], radix) {
          assert s[1..][i] == s[i + 1];
        }
      }
      DigitPrefixWhole(s[1..], rest, radix);
      assert [s[0]] + s[1..] == s;
    }
  }

  /**
   * `rest` cannot continue a decimal number read with `radix` (0 or 10): it does not start with
   * a digit, nor, when the radix is omitted, with the 'x' of a hexadecimal prefix.
   */
  predicate EndsDecimal(rest: string, radix: int) {
    |rest| > 0 ==> !IsDecimalDigit(rest[0]) && (radix == 0 ==> rest[0] != 'x' && rest[0] != 'X')
  }

  lemma MagnitudeOfDecimal(m: nat, rest: string, radix: int)
    requires radix == 0 || radix == 10
    requires EndsDecimal(rest, radix)
    ensures ParseMagnitude(NatToString(m) + rest, radix) == Some(m)
  {
    var digits := NatToString(m);
    var u := digits + rest;
    ValueOfDecimal(m);
    assert |rest| > 0 ==> !IsRadixDigit(rest[0], 10);
    DigitPrefixWhole(digits, rest, 10);
    if |u| >= 2 && u[0] == '0' {
      assert |digits| == 1;
      assert u[1] == rest[0];
    }
  }

  /**
   * A decimal rendering followed by anything that does not continue the digits parses back
   * to the number, with the radix omitted as with radix 10: "42", "42abc", "-7 items". (With
   * the radix omitted, a following 'x' or 'X' is excluded: after "0" it starts a hexadecimal
   * number instead.)
   */
  lemma ParseIntOfDecimal(i: int, rest: string, radix: int)
    requires radix == 0 || radix == 10
    requires EndsDecimal(rest, radix)
    ensures ParseInt(IntToString(i) + rest, radix) == Some(i)
  {
    if i < 0 {
      var n: nat := -i;
      var input := IntToString(i) + rest;
      assert IntToString(i) == "-" + NatToString(n);
      assert input == "-" + (NatToString(n) + rest);
      ParseIntOfNegativeDecimal(n, rest, radix);
    } else {
      var input := IntToString(i) + rest;
      assert input == NatToString(i) + rest;
      ParseIntOfNaturalDecimal(i, rest, radix);
    }
  }

  lemma ParseIntOfNaturalDecimal(m: nat, rest: string, radix: int)
    requires radix == 0 || radix == 10
    requires EndsDecimal(rest, radix)
    ensures ParseInt(NatToString(m) + rest, radix) == Some(m)
  {
    MagnitudeOfDecimal(m, rest, radix);
    ParseIntUnsigned(NatToString(m) + rest, radix);
  }

  lemma ParseIntOfNegativeDecimal(m: nat, rest: string, radix: int)
    requires radix == 0 || radix == 10
    requires EndsDecimal(rest, radix)
    ensures ParseInt("-" + (NatToString(m) + rest), radix) == Some(-(m as int))
  {
    MagnitudeOfDecimal(m, rest, radix);
    ParseIntNegative(NatToString(m) + rest, radix);
  }

  /** A leading minus sign negates the magnitude read after it. */
  lemma ParseIntNegative(u: string, radix: int)
    ensures ParseInt("-" + u, radix) ==
      match ParseMagnitude(u, radix) case None => None case Some(m) => Some(-(m as int))
  {
    var input := "-" + u;
    assert input[0] == '-' && !IsStrWhiteSpace(input[0]);
    assert TrimStart(input) == input;
    assert input[1..] == u;
  }

  /** Text that starts with a digit is read as the magnitude it starts with. */
  lemma ParseIntUnsigned(u: string, radix: int)
    requires |u| > 0 && IsDecimalDigit(u[0])
    ensures ParseInt(u, radix) ==
      match ParseMagnitude(u, radix) case None => None case Some(m) => Some(m as int)
  {
    assert !IsStrWhiteSpace(u[0]) && u[0] != '-' && u[0] != '+';
    assert TrimStart(u) == u;
  }

  lemma {:induction false} ValueOfLeadingZero(z: string, radix: nat)
    requires radix >= 1 && AllRadixDigits(z, radix)
    ensures AllRadixDigits("0" + z, radix)
    ensures ValueOf("0" + z, radix) == ValueOf(z, radix)
    decreases |z|
  {
    assert IsRadixDigit('0', radix);
    assert AllRadixDigits("0" + z, radix) by {
      forall i | 0 <= i < |"0" + z| ensures IsRadixDigit(("0" + z)[i], radix) {
        if i > 0 { assert ("0" + z)[i] == z[i - 1]; }
      }
    }
    if |z| > 0 {
      ValueOfLeadingZero(z[..|z| - 1], radix);
      assert ("0" + z)[..|"0" + z| - 1] == "0" + z[..|z| - 1];
    }
  }

  /**
   * Radix 10 and an omitted radix read "0x1A" differently: the omitted radix switches to
   * hexadecimal, radix 10 stops at the 'x'.
   */
  lemma HexPrefixOnlyWithoutRadix()
    ensures ParseInt("0x1A", 0) == Some(26)
    ensures ParseInt("0x1A", 10) == Some(0)
  {
    var z := "1A";
    assert AllRadixDigits(z, 16) by {
      assert IsRadixDigit(z[0], 16) && IsRadixDigit(z[1], 16);
    }
    assert ValueOf(z, 16) == 26 by {
      assert z[..1] == "1";
    }
    ParseIntHexPrefix(z);
    assert "0x" + z == "0x1A";
  }

  /**
   * "0x" followed by hexadecimal digits: with the radix omitted, the digits are read in base
   * 16; with radix 10, reading stops at the 'x' and the result is 0.
   */
  lemma ParseIntHexPrefix(z: string)
    requires |z| > 0 && AllRadixDigits(z, 16)
    ensures ParseInt("0x" + z, 0) == Some(ValueOf(z, 16))
    ensures ParseInt("0x" + z, 10) == Some(0)
  {
    var s := "0x" + z;
    assert s[0] == '0' && s[1] == 'x';
    MagnitudeAfterHexPrefix(s, z);
    MagnitudeStopsAtX(s);
    ParseIntUnsigned(s, 0);
    ParseIntUnsigned(s, 10);
  }

  lemma MagnitudeAfterHexPrefix(s: string, z: string)
    requires s == "0x" + z
    requires |z| > 0 && AllRadixDigits(z, 16)
    ensures ParseMagnitude(s, 0) == Some(ValueOf(z, 16))
  {
    assert s[0] == '0' && s[1] == 'x';
    assert s[2..] == z;
    DigitPrefixWhole(z, "", 16);
    assert z + "" == z;
  }

  lemma MagnitudeStopsAtX(s: string)
    requires |s| >= 2 && s[0] == '0' && s[1] == 'x'
    ensures ParseMagnitude(s, 10) == Some(0)
  {
    assert "0" + s[1..] == s;
    assert AllRadixDigits("0", 10);
    assert !IsRadixDigit(s[1], 10);
    DigitPrefixWhole("0", s[1..], 10);
    assert ValueOf("0", 10) == 0;
  }

  /** Text that starts with neither whitespace, a sign nor a digit is NaN, whatever the radix. */
  lemma ParseIntNoDigits(s: string, radix: int)
    requires |s| == 0 || (!IsStrWhiteSpace(s[0]) && !IsDecimalDigit(s[0]) && s[0] != '-' && s[0] != '+')
    requires radix == 0 || radix == 10
    ensures ParseInt(s, radix) == None
  {
    assert TrimStart(s) == s;
    if |s| > 0 {
      assert !IsRadixDigit(s[0], 10);
    }
  }

  // ---------------------------------------------------------------------------------------
  // String.prototype.padStart(width, fill) with a one-character filler
  // ---------------------------------------------------------------------------------------

  function PadStart(s: string, width: nat, fill: char): (r: string)
    ensures |r| == if |s| >= width then |s| else width
    ensures |s| >= width ==> r == s
    ensures r[|r| - |s|..] == s
    ensures forall i :: 0 <= i < |r| - |s| ==> r[i] == fill
  {
    if |s| >= width then s else seq(width - |s|, _ => fill) + s
  }
}
