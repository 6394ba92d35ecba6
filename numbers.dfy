/**
 * Python's `int()` and `float()` applied to a string, as the scanner's
 * `scanInt`/`scanFloat` use them (ASCII digits; floats as exact rationals).
 */
module Numbers {
  import opened Wrappers
  import Strings
  import opened Characters

  predicate AllDigits(s: string) {
    forall i :: 0 <= i < |s| ==> IsAsciiDigit(s[i])
  }

  /** The value of a run of decimal digits. */
  function DigitsValue(s: string): (r: nat)
    requires AllDigits(s)
  {
    if s == "" then 0 else DigitsValue(s[..|s| - 1]) * 10 + (s[|s| - 1] as int - '0' as int)
  }

  /** Digits, with single underscores allowed between two digits. */
  predicate UnderscoredDigits(s: string) {
    |s| >= 1 && IsAsciiDigit(s[0]) && IsAsciiDigit(s[|s| - 1]) &&
    (forall i :: 0 <= i < |s| ==> IsAsciiDigit(s[i]) || s[i] == '_') &&
    (forall i :: 0 <= i < |s| - 1 ==> !(s[i] == '_' && s[i + 1] == '_'))
  }

  function DropUnderscores(s: string): (r: string)
    ensures UnderscoredDigits(s) ==> AllDigits(r)
  {
    if s == "" then "" else (if s[0] == '_' then "" else [s[0]]) + DropUnderscores(s[1..])
  }

  /** Splits an optional leading sign off `t`. */
  function SignAndBody(t: string): (bool, string) {
    if |t| > 0 && (t[0] == '+' || t[0] == '-') then (t[0] == '-', t[1..]) else (false, t)
  }

  /** `int(s)` for a string `s`: `None` where Python raises ValueError. */
  function PyInt(s: string): (r: Option<int>)
    ensures r.Some? ==> s != ""
  {
    var (negative, body) := SignAndBody(Strings.Strip(s, PyWhitespace));
    if !UnderscoredDigits(body) then None
    else
      var v: int := DigitsValue(DropUnderscores(body));
      Some(if negative then -v else v)
  }

  function Power10(n: nat): (r: nat)
    ensures r >= 1
  {
    if n == 0 then 1 else 10 * Power10(n - 1)
  }

  /**
   * `float(s)` for a string `s` in decimal notation: optional whitespace and sign,
   * digits with an optional fraction, at least one digit. Exponents, `inf`, `nan`
   * and digit-group underscores are not part of this predicate: a scan that grows
   * a prefix one character at a time from a digit never reaches them, because
   * `float()` rejects one of their prefixes ("1e", "i", "n", "1_").
   */
  function PyFloat(s: string): (r: Option<real>)
    ensures r.Some? ==> s != ""
  {
    var (negative, body) := SignAndBody(Strings.Strip(s, PyWhitespace));
    var dot := Strings.FindChar(body, '.', 0);
    var whole := if dot == -1 then body else body[..dot];
    var fraction := if dot == -1 then "" else body[dot + 1..];
    if !AllDigits(whole) || !AllDigits(fraction) || |whole| + |fraction| == 0 then None
    else
      var v := DigitsValue(whole) as real + DigitsValue(fraction) as real / Power10(|fraction|) as real;
      Some(if negative then -v else v)
  }

  /** A digit character stands for its own value. */
  lemma DigitCharValue(d: nat)
    requires d < 10
    ensures Strings.DigitChar(d) as int - '0' as int == d
  {
  }

  /** The digits of `str(n)` read back as `n`. */
  lemma {:induction false} DigitsValueOfNatToString(n: nat)
    ensures AllDigits(Strings.NatToString(n)) && DigitsValue(Strings.NatToString(n)) == n
  {
    var s := Strings.NatToString(n);
    if n < 10 {
      DigitCharValue(n);
      assert s[..0] == "";
    } else {
      DigitsValueOfNatToString(n / 10);
      DigitCharValue(n % 10);
      assert s[..|s| - 1] == Strings.NatToString(n / 10);
    }
  }

  lemma {:induction false} DropUnderscoresOfDigits(s: string)
    requires AllDigits(s)
    ensures DropUnderscores(s) == s
    decreases |s|
  {
    if s != "" {
      DropUnderscoresOfDigits(s[1..]);
      assert s == [s[0]] + s[1..];
    }
  }

  /** A string that neither starts nor ends with whitespace is its own `strip()`. */
  lemma StripUnchanged(s: string)
    requires s != "" && s[0] !in PyWhitespace && s[|s| - 1] !in PyWhitespace
    ensures Strings.Strip(s, PyWhitespace) == s
  {
  }

  lemma DigitNotWhitespace(c: char)
    requires IsAsciiDigit(c) || c == '-'
    ensures c !in PyWhitespace
  {
  }

  /** `str(i)` is a sign for a negative `i` followed by the digits of its magnitude. */
  lemma SignAndBodyOfIntToString(i: int)
    ensures var s := Strings.IntToString(i);
            && s != "" && s[0] !in PyWhitespace && s[|s| - 1] !in PyWhitespace
            && SignAndBody(s) == (i < 0, Strings.NatToString(if i < 0 then -i else i))
  {
    var n: nat := if i < 0 then -i else i;
    var digits := Strings.NatToString(n);
    var s := Strings.IntToString(i);
    DigitNotWhitespace(digits[0]);
    DigitNotWhitespace(digits[|digits| - 1]);
    if i < 0 {
      assert s[1..] == digits;
      DigitNotWhitespace(s[0]);
    }
  }

  /** `int()` of an optional sign and a run of digits. */
  lemma PyIntOfSignedDigits(s: string, negative: bool, body: string)
    requires SignAndBody(Strings.Strip(s, PyWhitespace)) == (negative, body)
    requires body != "" && AllDigits(body)
    ensures PyInt(s) == Some(if negative then -(DigitsValue(body) as int) else DigitsValue(body))
  {
    DropUnderscoresOfDigits(body);
    assert UnderscoredDigits(body);
  }

  /** `int()` of a non-empty run of digits is the number they spell. */
  lemma PyIntOfDigits(s: string)
    requires s != "" && AllDigits(s)
    ensures PyInt(s) == Some(DigitsValue(s))
  {
    StripUnchanged(s);
    PyIntOfSignedDigits(s, false, s);
  }

  /** `int(str(i)) == i`: Python's decimal printing reads back through `int()`. */
  lemma PyIntOfIntToString(i: int)
    ensures PyInt(Strings.IntToString(i)) == Some(i)
  {
    var s := Strings.IntToString(i);
    SignAndBodyOfIntToString(i);
    StripUnchanged(s);
    if i < 0 {
      DigitsValueOfNatToString(-i);
      PyIntOfSignedDigits(s, true, Strings.NatToString(-i));
    } else {
      DigitsValueOfNatToString(i);
      PyIntOfSignedDigits(s, false, Strings.NatToString(i));
    }
  }

  /** `float()` of an optional sign and a run of digits without a point. */
  lemma PyFloatOfSignedDigits(s: string, negative: bool, body: string)
    requires SignAndBody(Strings.Strip(s, PyWhitespace)) == (negative, body)
    requires body != "" && AllDigits(body)
    ensures PyFloat(s) == Some(if negative then -(DigitsValue(body) as real) else DigitsValue(body) as real)
  {
    assert Strings.FindChar(body, '.', 0) == -1;
    var v := DigitsValue(body) as real + DigitsValue("") as real / Power10(0) as real;
    assert v == DigitsValue(body) as real;
  }

  /** `float(str(i)) == i`: a printed integer reads back as a float of the same value. */
  lemma PyFloatOfIntToString(i: int)
    ensures PyFloat(Strings.IntToString(i)) == Some(i as real)
  {
    var s := Strings.IntToString(i);
    SignAndBodyOfIntToString(i);
    StripUnchanged(s);
    if i < 0 {
      DigitsValueOfNatToString(-i);
      PyFloatOfSignedDigits(s, true, Strings.NatToString(-i));
      assert -((-i) as real) == i as real;
    } else {
      DigitsValueOfNatToString(i);
      PyFloatOfSignedDigits(s, false, Strings.NatToString(i));
    }
  }
}
