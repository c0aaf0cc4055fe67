/**
 * Python's `int(text)` on a query-string value, as the back end uses it
 * for `dias`, `page_size` and `page`: white space around, an optional sign,
 * decimal digits with single underscores between them. Only ASCII digits
 * are modelled.
 */
module PyText {
  import opened Wrappers
  import JsNumber

  /** The characters `str.strip()` and `int()` treat as white space. */
  predicate IsPySpace(c: char) {
    c == ' ' || ('\t' <= c <= '\r') || ('\U{001C}' <= c <= '\U{001F}') || c == '\U{0085}'
    || c == '\U{00A0}' || c == '\U{1680}' || ('\U{2000}' <= c <= '\U{200A}')
    || c == '\U{2028}' || c == '\U{2029}' || c == '\U{202F}' || c == '\U{205F}' || c == '\U{3000}'
  }

  function StripPy(s: string): (r: string)
    ensures |r| <= |s|
    ensures r != [] ==> !IsPySpace(r[0]) && !IsPySpace(r[|r| - 1])
  {
    if s == [] then s
    else if IsPySpace(s[0]) then StripPy(s[1..])
    else if IsPySpace(s[|s| - 1]) then StripPy(s[..|s| - 1])
    else s
  }

  predicate IsDecimalDigit(c: char) { '0' <= c <= '9' }

  /** Digits with underscores allowed only singly and only between two digits. */
  predicate UnderscoredDigits(s: string) {
    && s != []
    && IsDecimalDigit(s[0]) && IsDecimalDigit(s[|s| - 1])
    && (forall i :: 0 <= i < |s| ==> IsDecimalDigit(s[i]) || s[i] == '_')
    && (forall i :: 0 <= i < |s| - 1 ==> !(s[i] == '_' && s[i + 1] == '_'))
  }

  function DropUnderscores(s: string): (r: string)
    requires forall i :: 0 <= i < |s| ==> IsDecimalDigit(s[i]) || s[i] == '_'
    ensures forall i :: 0 <= i < |r| ==> IsDecimalDigit(r[i])
  {
    if s == [] then []
    else (if s[0] == '_' then [] else [s[0]]) + DropUnderscores(s[1..])
  }

  /** The value of a digit string with its underscores dropped. */
  function UnderscoredValue(s: string): nat
    requires UnderscoredDigits(s)
  {
    var digits := DropUnderscores(s);
    assert JsNumber.AllDigits(digits, 10) by {
      forall i | 0 <= i < |digits| ensures JsNumber.IsDigitIn(digits[i], 10) {
        assert IsDecimalDigit(digits[i]);
      }
    }
    JsNumber.DigitsValue(digits, 10)
  }

  /** `int(text)`; `None` is the `ValueError` it raises. */
  function PyInt(text: string): Option<int> {
    var t := StripPy(text);
    var neg := t != [] && t[0] == '-';
    var body := if t != [] && (t[0] == '-' || t[0] == '+') then t[1..] else t;
    if !UnderscoredDigits(body) then None
    else
      var n: int := UnderscoredValue(body);
      Some(if neg then -n else n)
  }

  /** Stripping removes exactly the white space around a text that starts and ends with something else. */
  lemma {:induction false} StripAround(pre: string, x: string, post: string)
    requires forall i :: 0 <= i < |pre| ==> IsPySpace(pre[i])
    requires forall i :: 0 <= i < |post| ==> IsPySpace(post[i])
    requires x != [] && !IsPySpace(x[0]) && !IsPySpace(x[|x| - 1])
    ensures StripPy(pre + x + post) == x
    decreases |pre| + |post|
  {
    var s := pre + x + post;
    if pre != [] {
      assert s[0] == pre[0];
      assert s[1..] == pre[1..] + x + post;
      StripAround(pre[1..], x, post);
    } else if post != [] {
      assert s == x + post;
      assert s[0] == x[0] && s[|s| - 1] == post[|post| - 1];
      assert s[..|s| - 1] == [] + x + post[..|post| - 1];
      StripAround([], x, post[..|post| - 1]);
    } else {
      assert s == x;
    }
  }

  /**
   * `int()` refuses a text that is blank, or that holds, once stripped, a
   * character other than a digit, an underscore or a sign.
   */
  lemma PyIntRejects(s: string)
    requires var t := StripPy(s);
             t == [] || exists i :: 0 <= i < |t| && !IsDecimalDigit(t[i]) && t[i] !in "_+-"
    ensures PyInt(s).None?
  {
    var t := StripPy(s);
    if t != [] {
      var i :| 0 <= i < |t| && !IsDecimalDigit(t[i]) && t[i] !in "_+-";
      if t[0] == '-' || t[0] == '+' {
        var body := t[1..];
        assert i >= 1 && body[i - 1] == t[i];
        assert !UnderscoredDigits(body);
      } else {
        assert !UnderscoredDigits(t);
      }
    }
  }

  /** A plain run of decimal digits is a valid `int()` body worth what its digits spell. */
  lemma {:induction false} UnderscoresDropped(d: string)
    requires d != [] && JsNumber.AllDigits(d, 10)
    ensures UnderscoredDigits(d) && UnderscoredValue(d) == JsNumber.DigitsValue(d, 10)
  {
    assert JsNumber.IsDigitIn(d[0], 10) && JsNumber.IsDigitIn(d[|d| - 1], 10);
    assert forall i :: 0 <= i < |d| ==> IsDecimalDigit(d[i]) by {
      forall i | 0 <= i < |d| ensures IsDecimalDigit(d[i]) {
        assert JsNumber.IsDigitIn(d[i], 10);
      }
    }
    DropDigitsOnly(d);
  }

  lemma {:induction false} DropDigitsOnly(d: string)
    requires forall i :: 0 <= i < |d| ==> IsDecimalDigit(d[i])
    ensures DropUnderscores(d) == d
  {
    if d != [] {
      DropDigitsOnly(d[1..]);
      assert d == [d[0]] + d[1..];
    }
  }

  /**
   * `int()` ignores white space around an unsigned body of digits and single
   * underscores, and reads the digits as a decimal number.
   */
  lemma PyIntReadsBlanks(pre: string, d: string, post: string)
    requires forall i :: 0 <= i < |pre| ==> IsPySpace(pre[i])
    requires forall i :: 0 <= i < |post| ==> IsPySpace(post[i])
    requires UnderscoredDigits(d)
    ensures PyInt(pre + d + post) == Some(UnderscoredValue(d) as int)
  {
    StripAround(pre, d, post);
  }

  /** `int()` reads a sign in front of the body: a minus negates the value, a plus keeps it. */
  lemma PyIntReadsSign(pre: string, sign: char, d: string, post: string)
    requires forall i :: 0 <= i < |pre| ==> IsPySpace(pre[i])
    requires forall i :: 0 <= i < |post| ==> IsPySpace(post[i])
    requires sign == '-' || sign == '+'
    requires UnderscoredDigits(d)
    ensures PyInt(pre + [sign] + d + post)
            == Some(if sign == '-' then -(UnderscoredValue(d) as int) else UnderscoredValue(d) as int)
  {
    var x := [sign] + d;
    assert x[|x| - 1] == d[|d| - 1];
    StripAround(pre, x, post);
    assert pre + [sign] + d + post == pre + x + post;
    assert x[1..] == d;
  }
}
