/**
 * JavaScript's two string-to-number conversions as the frontend uses them:
 * `parseInt(s)` (radix left out) and `Number(s)`. A double is modelled by an
 * exact rational, so rounding and overflow to Infinity are not modelled.
 */
module JsNumber {
  import opened Wrappers
  import opened JsText

  /** A JavaScript number: NaN, an infinity, or a finite value. */
  datatype JsNum = NaN | Infinity(positive: bool) | Finite(value: real)

  function DigitValue(c: char): (d: Option<nat>)
    ensures d.Some? ==> d.value < 16
  {
    if '0' <= c <= '9' then Some(c as int - '0' as int)
    else if 'a' <= c <= 'f' then Some(c as int - 'a' as int + 10)
    else if 'A' <= c <= 'F' then Some(c as int - 'A' as int + 10)
    else None
  }

  predicate IsDigitIn(c: char, radix: nat) {
    DigitValue(c).Some? && DigitValue(c).value < radix
  }

  /** Length of the longest prefix of `s` made of digits of `radix`. */
  function DigitRun(s: string, radix: nat): (k: nat)
    ensures k <= |s|
    ensures forall i :: 0 <= i < k ==> IsDigitIn(s[i], radix)
    ensures k < |s| ==> !IsDigitIn(s[k], radix)
  {
    if s != [] && IsDigitIn(s[0], radix) then 1 + DigitRun(s[1..], radix) else 0
  }

  /** The value of a string of digits of `radix`, most significant first. */
  function DigitsValue(s: string, radix: nat): nat
    requires forall i :: 0 <= i < |s| ==> IsDigitIn(s[i], radix)
  {
    if s == [] then 0
    else
      var init := s[..|s| - 1];
      assert forall i :: 0 <= i < |init| ==> init[i] == s[i];
      assert IsDigitIn(s[|s| - 1], radix);
      var high := DigitsValue(init, radix);
      MulNat(high, radix);
      high * radix + DigitValue(s[|s| - 1]).value
  }

  /** A product of naturals is a natural. */
  lemma MulNat(a: nat, b: nat)
    ensures a * b >= 0
  {
  }

  /**
   * `parseInt(s)`: leading white space, an optional sign, an optional `0x`
   * prefix that switches to radix 16, then the longest run of digits; `None`
   * is NaN (no digit at all).
   */
  function ParseInt(s: string): Option<int> {
    var t := TrimStart(s);
    var neg := t != [] && t[0] == '-';
    var u := if t != [] && (t[0] == '-' || t[0] == '+') then t[1..] else t;
    var hex := |u| >= 2 && u[0] == '0' && (u[1] == 'x' || u[1] == 'X');
    if hex then LeadingValue(u[2..], 16, neg) else LeadingValue(u, 10, neg)
  }

  /** The signed value of the longest run of digits of `radix` at the start of `v`, `None` when there is none. */
  function LeadingValue(v: string, radix: nat, neg: bool): Option<int> {
    var k := DigitRun(v, radix);
    if k == 0 then None
    else
      var digits := v[..k];
      assert AllDigits(digits, radix) by {
        forall i | 0 <= i < |digits| ensures IsDigitIn(digits[i], radix) {
          assert digits[i] == v[i];
        }
      }
      var n: int := DigitsValue(digits, radix);
      Some(if neg then -n else n)
  }

  /** A plain run of decimal digits reads back as its own value. */
  lemma ParseIntOfDigits(s: string)
    requires s != [] && AllDigits(s, 10)
    ensures ParseInt(s) == Some(DigitsValue(s, 10) as int)
  {
    assert IsDigitIn(s[0], 10);
    assert !IsSpace(s[0]);
    assert TrimStart(s) == s;
    assert |s| >= 2 ==> IsDigitIn(s[1], 10) && s[1] != 'x' && s[1] != 'X';
    assert DigitRun(s, 10) == |s|;
    assert s[..|s|] == s;
  }

  /** `String(n)` reads back as `n`. */
  lemma {:induction false} NatToStringValue(n: nat)
    ensures AllDigits(NatToString(n), 10) && DigitsValue(NatToString(n), 10) == n
  {
    var s := NatToString(n);
    assert AllDigits(s, 10) by {
      forall i | 0 <= i < |s| ensures IsDigitIn(s[i], 10) {
        assert IsAsciiDigit(s[i]);
      }
    }
    if n >= 10 {
      NatToStringValue(n / 10);
      assert s[..|s| - 1] == NatToString(n / 10);
    }
  }

  /** Zeros in front do not change the value of a run of digits. */
  lemma {:induction false} ZerosValue(z: nat, s: string)
    requires AllDigits(s, 10)
    ensures AllDigits(seq(z, _ => '0') + s, 10)
    ensures DigitsValue(seq(z, _ => '0') + s, 10) == DigitsValue(s, 10)
    decreases |s| + z
  {
    var t := seq(z, _ => '0') + s;
    assert AllDigits(t, 10) by {
      forall i | 0 <= i < |t| ensures IsDigitIn(t[i], 10) {
        if i >= z { assert t[i] == s[i - z]; }
      }
    }
    if s != [] {
      ZerosValue(z, s[..|s| - 1]);
      assert t[..|t| - 1] == seq(z, _ => '0') + s[..|s| - 1];
    } else if z > 0 {
      ZerosValue(z - 1, s);
      assert t[..|t| - 1] == seq(z - 1, _ => '0') + s;
    }
  }

  /** `parseInt` of `String(n).padStart(width, "0")` is `n`. */
  lemma ParseIntPadded(n: nat, width: nat)
    ensures ParseInt(PadStart(NatToString(n), width)) == Some(n)
  {
    var s := NatToString(n);
    NatToStringValue(n);
    if |s| < width {
      ZerosValue(width - |s|, s);
    }
    ParseIntOfDigits(PadStart(s, width));
  }

  function Pow10(n: nat): (p: nat)
    ensures p >= 1
  {
    if n == 0 then 1 else 10 * Pow10(n - 1)
  }

  function Scale(mantissa: nat, exponent: int): real {
    if exponent >= 0 then (mantissa * Pow10(exponent)) as real
    else mantissa as real / Pow10(-exponent) as real
  }

  predicate AllDigits(s: string, radix: nat) {
    forall i :: 0 <= i < |s| ==> IsDigitIn(s[i], radix)
  }

  /** An exponent part `e12`, `E-3`, `e+0`, read to its end; `None` when malformed. */
  function ExponentPart(s: string): Option<int> {
    if s == [] then Some(0)
    else if s[0] != 'e' && s[0] != 'E' then None
    else
      var rest := s[1..];
      var neg := rest != [] && rest[0] == '-';
      var digits := if rest != [] && (rest[0] == '-' || rest[0] == '+') then rest[1..] else rest;
      if digits == [] || !AllDigits(digits, 10) then None
      else
        var e: int := DigitsValue(digits, 10);
        Some(if neg then -e else e)
  }

  /** An unsigned decimal literal `12`, `1.5`, `.5`, `3.`, `2e3`, read to its end. */
  function UnsignedDecimal(s: string): Option<real> {
    var k := DigitRun(s, 10);
    var intPart := s[..k];
    var rest := s[k..];
    var hasDot := rest != [] && rest[0] == '.';
    var afterDot := if hasDot then rest[1..] else rest;
    var m := if hasDot then DigitRun(afterDot, 10) else 0;
    var frac := afterDot[..m];
    if k + m == 0 then None
    else
      match ExponentPart(afterDot[m..])
      case None => None
      case Some(e) =>
        assert AllDigits(intPart + frac, 10) by {
          forall i | 0 <= i < |intPart + frac| ensures IsDigitIn((intPart + frac)[i], 10) {
            if i >= |intPart| {
              assert (intPart + frac)[i] == afterDot[i - |intPart|];
            }
          }
        }
        Some(Scale(DigitsValue(intPart + frac, 10), e - m))
  }

  /** A non-decimal integer literal `0x1F`, `0o17`, `0b101`, read to its end. */
  function NonDecimal(s: string): Option<nat> {
    if |s| < 3 || s[0] != '0' then None
    else
      var radix := if s[1] in "xX" then 16 else if s[1] in "oO" then 8 else if s[1] in "bB" then 2 else 0;
      if radix == 0 || !AllDigits(s[2..], radix) then None
      else Some(DigitsValue(s[2..], radix))
  }

  /**
   * `Number(s)`: the whole string, once trimmed, must be a numeric literal;
   * the empty string is 0.
   */
  function StringToNumber(s: string): JsNum {
    var t := Trim(s);
    if t == [] then Finite(0.0)
    else if t == "Infinity" || t == "+Infinity" then Infinity(true)
    else if t == "-Infinity" then Infinity(false)
    else if NonDecimal(t).Some? then Finite(NonDecimal(t).value as real)
    else
      var neg := t[0] == '-';
      var body := if t[0] == '-' || t[0] == '+' then t[1..] else t;
      match UnsignedDecimal(body)
      case None => NaN
      case Some(v) => Finite(if neg then -v else v)
  }

  /** `isNaN(Number(s))`. */
  predicate IsNaNNumber(s: string) {
    StringToNumber(s).NaN?
  }

  /** Every string of decimal digits is a number for `Number`. */
  lemma DigitsAreNumbers(s: string)
    requires s != [] && AllDigits(s, 10)
    ensures !IsNaNNumber(s)
  {
    DigitsNumberValue(s);
  }

  /** A run of decimal digits is an unsigned literal worth what the digits spell. */
  lemma UnsignedDigits(s: string)
    requires s != [] && AllDigits(s, 10)
    ensures UnsignedDecimal(s) == Some(DigitsValue(s, 10) as real)
  {
    assert DigitRun(s, 10) == |s|;
    assert s[..|s|] == s && s[|s|..] == [];
    assert ExponentPart([]) == Some(0);
    assert s + [] == s;
    assert Pow10(0) == 1;
  }

  /** `Number` reads a string of decimal digits as the number they spell. */
  lemma DigitsNumberValue(s: string)
    requires s != [] && AllDigits(s, 10)
    ensures StringToNumber(s) == Finite(DigitsValue(s, 10) as real)
  {
    DigitsTrimmed(s);
    DigitsNotPrefixed(s);
    UnsignedDigits(s);
    assert s != "Infinity" && s != "+Infinity" && s != "-Infinity" by {
      assert s[0] != 'I' && s[0] != '+' && s[0] != '-';
    }
  }

  /** A run of digits has no white space to trim. */
  lemma DigitsTrimmed(s: string)
    requires s != [] && AllDigits(s, 10)
    ensures Trim(s) == s && '0' <= s[0] <= '9'
  {
    assert IsDigitIn(s[0], 10) && IsDigitIn(s[|s| - 1], 10);
    assert '0' <= s[0] <= '9' && '0' <= s[|s| - 1] <= '9';
    TrimOfTrimmed(s);
  }

  /** A run of decimal digits is not a `0x`, `0o` or `0b` literal. */
  lemma DigitsNotPrefixed(s: string)
    requires s != [] && AllDigits(s, 10)
    ensures NonDecimal(s).None?
  {
    if |s| >= 3 {
      assert IsDigitIn(s[1], 10);
      assert s[1] !in "xX" && s[1] !in "oO" && s[1] !in "bB";
    }
  }

  /**
   * A text that, once trimmed, starts with a letter other than the `I` of
   * `Infinity` is not a numeric literal, so `Number` gives NaN for it.
   */
  lemma WordIsNaN(s: string)
    requires Trim(s) != [] && IsAsciiLetter(Trim(s)[0]) && Trim(s)[0] != 'I'
    ensures IsNaNNumber(s)
  {
    var t := Trim(s);
    assert t != "Infinity" && t != "+Infinity" && t != "-Infinity" by {
      assert t[0] != 'I' && t[0] != '+' && t[0] != '-';
    }
    assert NonDecimal(t).None?;
    assert !IsDigitIn(t[0], 10);
    assert DigitRun(t, 10) == 0;
    assert UnsignedDecimal(t).None?;
  }
}
