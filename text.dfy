/**
 * The few Python string primitives the core relies on: `str.strip`,
 * `str.rstrip`, `str.split` on one separator, `int(str)`, `str(int)` and
 * the code-point order that `sorted` uses for labels.
 */
module Text {
  import opened Wrappers

  /** Python's `str.isspace` for one code point (the complete list of whitespace code points). */
  predicate IsSpace(c: char) {
    || c == ' '
    || ('\t' <= c <= '\r')
    || ('\U{1c}' <= c <= '\U{1f}')
    || c == '\U{85}' || c == '\U{a0}' || c == '\U{1680}'
    || ('\U{2000}' <= c <= '\U{200a}')
    || c == '\U{2028}' || c == '\U{2029}' || c == '\U{202f}' || c == '\U{205f}' || c == '\U{3000}'
  }

  /** Every character of `s` is whitespace (so Python treats `s.strip()` as falsy). */
  predicate AllSpace(s: string) {
    forall i :: 0 <= i < |s| ==> IsSpace(s[i])
  }

  /** `s.lstrip()`: the suffix left after dropping leading whitespace. */
  function LStrip(s: string): (r: string)
    ensures |r| <= |s| && r == s[|s| - |r|..]
    ensures AllSpace(s[..|s| - |r|])
    ensures r != [] ==> !IsSpace(r[0])
  {
    if s != [] && IsSpace(s[0]) then
      var r := LStrip(s[1..]);
      assert s[..|s| - |r|] == [s[0]] + s[1..][..|s| - 1 - |r|];
      r
    else s
  }

  /** `s.rstrip()`: the prefix left after dropping trailing whitespace. */
  function RStrip(s: string): (r: string)
    ensures |r| <= |s| && r == s[..|r|]
    ensures AllSpace(s[|r|..])
    ensures r != [] ==> !IsSpace(r[|r| - 1])
  {
    if s != [] && IsSpace(s[|s| - 1]) then
      var r := RStrip(s[..|s| - 1]);
      assert s[|r|..] == s[..|s| - 1][|r|..] + [s[|s| - 1]];
      r
    else s
  }

  /** `s.strip()`. */
  function Strip(s: string): (r: string)
    ensures |r| <= |s|
    ensures r != [] ==> !IsSpace(r[0]) && !IsSpace(r[|r| - 1])
    ensures r == [] <==> AllSpace(s)
  {
    var l := LStrip(s);
    var r := RStrip(l);
    assert r == [] ==> AllSpace(s) by {
      if r == [] {
        assert l[|r|..] == l;
        assert s[..|s|] == s;
      }
    }
    assert r != [] ==> !IsSpace(r[0]);
    r
  }

  /** Text that is not blank and carries no surrounding whitespace (what `.strip()` leaves of a non-blank string). */
  predicate IsTrimmed(x: string) {
    x != [] && Strip(x) == x
  }

  /** Stripping a string that neither starts nor ends with whitespace changes nothing. */
  lemma StripFixed(s: string)
    requires s != [] ==> !IsSpace(s[0]) && !IsSpace(s[|s| - 1])
    ensures Strip(s) == s
  {
  }

  /** Stripping is idempotent. */
  lemma StripIdempotent(s: string)
    ensures Strip(Strip(s)) == Strip(s)
  {
    StripFixed(Strip(s));
  }

  /** `s.split(sep)`: the fields between the occurrences of `sep`; always at least one field. */
  function Split(s: string, sep: char): (r: seq<string>)
    ensures |r| >= 1
    ensures forall k :: 0 <= k < |r| ==> sep !in r[k]
  {
    if s == [] then [[]]
    else
      var rest := Split(s[1..], sep);
      if s[0] == sep then [[]] + rest
      else [[s[0]] + rest[0]] + rest[1..]
  }

  /** A string without the separator is one field. */
  lemma {:induction false} SplitNoSeparator(s: string, sep: char)
    requires sep !in s
    ensures Split(s, sep) == [s]
  {
    if s != [] {
      assert s == [s[0]] + s[1..];
      assert sep !in s[1..] by {
        assert forall k :: 0 <= k < |s[1..]| ==> s[1..][k] == s[k + 1];
      }
      SplitNoSeparator(s[1..], sep);
    }
  }

  /** Splitting `a + sep + b` gives the fields of `a` followed by the fields of `b`. */
  lemma {:induction false} SplitConcat(a: string, sep: char, b: string)
    ensures Split(a + [sep] + b, sep) == Split(a, sep) + Split(b, sep)
  {
    if a == [] {
      assert a + [sep] + b == [sep] + b;
      assert ([sep] + b)[1..] == b;
    } else {
      assert (a + [sep] + b)[1..] == a[1..] + [sep] + b;
      SplitConcat(a[1..], sep, b);
    }
  }

  predicate IsDigit(c: char) {
    '0' <= c <= '9'
  }

  function DigitValue(c: char): (d: nat)
    requires IsDigit(c)
    ensures d < 10
  {
    c as int - '0' as int
  }

  function DigitChar(d: nat): (c: char)
    requires d < 10
    ensures IsDigit(c) && DigitValue(c) == d
  {
    ('0' as int + d) as char
  }

  /**
   * The digit part of a Python integer literal as `int()` accepts it:
   * ASCII digits, with single underscores allowed between two digits.
   */
  predicate IsDigitRun(s: string) {
    && s != []
    && IsDigit(s[0]) && IsDigit(s[|s| - 1])
    && (forall i :: 0 <= i < |s| ==> IsDigit(s[i]) || s[i] == '_')
    && (forall i :: 0 <= i < |s| - 1 ==> s[i] == '_' ==> s[i + 1] != '_')
  }

  /** The number written by a run of digits, underscores ignored. */
  function DigitsValue(s: string): nat
    requires forall i :: 0 <= i < |s| ==> IsDigit(s[i]) || s[i] == '_'
  {
    if s == [] then 0
    else if s[|s| - 1] == '_' then DigitsValue(s[..|s| - 1])
    else DigitsValue(s[..|s| - 1]) * 10 + DigitValue(s[|s| - 1])
  }

  /** A string `int()` accepts once surrounding whitespace is gone: an optional sign and a digit run. */
  predicate IsIntLiteral(t: string) {
    IsDigitRun(t) || (t != [] && (t[0] == '+' || t[0] == '-') && IsDigitRun(t[1..]))
  }

  function LiteralValue(t: string): int
    requires IsIntLiteral(t)
  {
    if t[0] == '-' then -(DigitsValue(t[1..]) as int)
    else if t[0] == '+' then DigitsValue(t[1..])
    else DigitsValue(t)
  }

  /**
   * Python's `int(s)` in base 10: `None` stands for the `ValueError` it
   * raises on anything that is not an integer literal after stripping.
   */
  function PyInt(s: string): (r: Option<int>)
    ensures r.Some? <==> IsIntLiteral(Strip(s))
    ensures r.Some? ==> r.value == LiteralValue(Strip(s))
    ensures AllSpace(s) ==> r.None?
  {
    var t := Strip(s);
    if IsIntLiteral(t) then Some(LiteralValue(t)) else None
  }

  /** `str(n)` for a natural number: decimal digits, no leading zeros. */
  function NatToString(n: nat): (s: string)
    ensures s != [] && forall i :: 0 <= i < |s| ==> IsDigit(s[i])
  {
    if n < 10 then [DigitChar(n)] else NatToString(n / 10) + [DigitChar(n % 10)]
  }

  /** `str(n)` for any integer. */
  function IntToString(n: int): (s: string)
    ensures s != [] && forall i :: 0 <= i < |s| ==> IsDigit(s[i]) || s[i] == '-'
  {
    if n < 0 then "-" + NatToString(-n) else NatToString(n)
  }

  lemma {:induction false} NatToStringValue(n: nat)
    ensures DigitsValue(NatToString(n)) == n
  {
    if n >= 10 {
      var s := NatToString(n);
      assert s[..|s| - 1] == NatToString(n / 10);
      NatToStringValue(n / 10);
    }
  }

  lemma NatToStringIsDigitRun(n: nat)
    ensures IsDigitRun(NatToString(n))
  {
  }

  /** An integer literal has no surrounding whitespace, so `int()` reads it as it stands. */
  lemma PyIntOfLiteral(t: string)
    requires IsIntLiteral(t)
    ensures PyInt(t) == Some(LiteralValue(t))
  {
    assert !IsSpace(t[0]) && !IsSpace(t[|t| - 1]);
    StripFixed(t);
  }

  /** `int()` ignores surrounding whitespace: the text and its stripped form read the same. */
  lemma PyIntIgnoresWhitespace(s: string)
    ensures PyInt(s) == PyInt(Strip(s))
  {
    StripIdempotent(s);
  }

  /** A sign in front of a run of digits makes an integer literal: `+` keeps its value, `-` negates it. */
  lemma SignedLiteral(t: string)
    requires IsDigitRun(t)
    ensures IsIntLiteral("+" + t) && LiteralValue("+" + t) == DigitsValue(t)
    ensures IsIntLiteral("-" + t) && LiteralValue("-" + t) == -(DigitsValue(t) as int)
  {
    assert ("+" + t)[1..] == t && ("-" + t)[1..] == t;
  }

  /** A run of digits reads as its value; a leading `+` changes nothing, and a leading `-` negates. */
  lemma PyIntSign(t: string)
    requires IsDigitRun(t)
    ensures PyInt(t).Some? && PyInt(t).value == DigitsValue(t)
    ensures PyInt("+" + t) == PyInt(t)
    ensures PyInt("-" + t).Some? && PyInt("-" + t).value == -(DigitsValue(t) as int)
  {
    PyIntOfLiteral(t);
    SignedLiteral(t);
    PyIntOfLiteral("+" + t);
    PyIntOfLiteral("-" + t);
  }

  /** Leading zeros are accepted: `int("007") == 7`. */
  lemma PyIntLeadingZeros()
    ensures PyInt("007").Some? && PyInt("007").value == 7
  {
    var s := "007";
    assert s[..2] == "00" && "00"[..1] == "0" && "0"[..0] == "";
    assert DigitsValue("0") == 0;
    assert DigitsValue("00") == 0;
    assert DigitsValue(s) == 7;
    assert IsDigitRun(s);
    PyIntOfLiteral(s);
  }

  /** A single underscore between digits is accepted: `int("1_000") == 1000`. */
  lemma PyIntUnderscore()
    ensures PyInt("1_000").Some? && PyInt("1_000").value == 1000
  {
    var s := "1_000";
    assert s[..4] == "1_00" && "1_00"[..3] == "1_0" && "1_0"[..2] == "1_";
    assert "1_"[..1] == "1" && "1"[..0] == "";
    assert DigitsValue("1") == 1;
    assert DigitsValue("1_") == 1;
    assert DigitsValue("1_0") == 10;
    assert DigitsValue("1_00") == 100;
    assert DigitsValue(s) == 1000;
    assert IsDigitRun(s);
    PyIntOfLiteral(s);
  }

  /** Two underscores in a row make `int()` raise. */
  lemma PyIntDoubledUnderscore()
    ensures PyInt("1__0").None?
  {
    var s := "1__0";
    assert Strip(s) == s by { StripFixed(s); }
    assert !IsIntLiteral(s) by { assert s[1] == '_' && s[2] == '_'; }
  }

  /** So does an underscore before the first digit... */
  lemma PyIntLeadingUnderscore()
    ensures PyInt("_1").None?
  {
    var s := "_1";
    assert Strip(s) == s by { StripFixed(s); }
    assert !IsIntLiteral(s) by { assert s[0] == '_'; }
  }

  /** ... or after the last one. */
  lemma PyIntTrailingUnderscore()
    ensures PyInt("1_").None?
  {
    var s := "1_";
    assert Strip(s) == s by { StripFixed(s); }
    assert !IsIntLiteral(s) by { assert s[1] == '_'; }
  }

  /** `int(str(n)) == n`: printing an integer and parsing it back is the identity. */
  lemma IntToStringRoundTrip(n: int)
    ensures PyInt(IntToString(n)) == Some(n)
  {
    var s := IntToString(n);
    if n < 0 {
      var d := NatToString(-n);
      assert s[1..] == d;
      NatToStringIsDigitRun(-n);
      NatToStringValue(-n);
      assert IsIntLiteral(s);
      assert LiteralValue(s) == n;
    } else {
      NatToStringIsDigitRun(n);
      NatToStringValue(n);
      assert IsIntLiteral(s);
    }
    PyIntOfLiteral(s);
  }

  /**
   * Python's `<` on strings: lexicographic by code point, a proper prefix
   * ordered first.
   */
  predicate LexLt(a: string, b: string) {
    if a == [] then b != []
    else if b == [] then false
    else if a[0] != b[0] then a[0] < b[0]
    else LexLt(a[1..], b[1..])
  }

  lemma {:induction false} LexLtIrreflexive(a: string)
    ensures !LexLt(a, a)
  {
    if a != [] { LexLtIrreflexive(a[1..]); }
  }

  lemma {:induction false} LexLtTransitive(a: string, b: string, c: string)
    requires LexLt(a, b) && LexLt(b, c)
    ensures LexLt(a, c)
  {
    if a != [] && b != [] && c != [] && a[0] == b[0] && b[0] == c[0] {
      LexLtTransitive(a[1..], b[1..], c[1..]);
    }
  }

  lemma {:induction false} LexLtTotal(a: string, b: string)
    requires a != b
    ensures LexLt(a, b) || LexLt(b, a)
  {
    if a != [] && b != [] && a[0] == b[0] {
      assert a == [a[0]] + a[1..] && b == [b[0]] + b[1..];
      LexLtTotal(a[1..], b[1..]);
    }
  }

  lemma {:induction false} LexLtAsymmetric(a: string, b: string)
    requires LexLt(a, b)
    ensures !LexLt(b, a)
  {
    if a != [] && b != [] && a[0] == b[0] {
      LexLtAsymmetric(a[1..], b[1..]);
    }
  }
}
