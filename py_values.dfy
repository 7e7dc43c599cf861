/**
 * The Python values that reach the intake code, and the built-in conversions
 * it applies to them: `str.strip`-style trimming, `int(...)`, `float(...)`
 * and `str(int)`.
 */
module PyValues {
  import opened Wrappers

  /** A value as the intake code receives it: text (a text box, a select box
      or a JSON string), a Python int, or a Python float (an exact real here). */
  datatype Value = Str(s: string) | Int(i: int) | Float(x: real)

  /** The ASCII characters Python's `str.isspace()` accepts, and so the ones
      `strip()`, `int()` and `float()` drop: space, tab, the line and page
      breaks, and the four separators U+001C to U+001F. */
  predicate IsSpace(c: char) {
    c == ' ' || c == '\t' || c == '\n' || c == '\r' || c == '\U{B}' || c == '\U{C}'
    || '\U{1C}' <= c <= '\U{1F}'
  }

  predicate IsDigit(c: char) {
    '0' <= c <= '9'
  }

  /** `s.isdigit()` for ASCII text: non-empty and made of digits only. */
  predicate IsDigitText(s: string) {
    |s| > 0 && forall i :: 0 <= i < |s| ==> IsDigit(s[i])
  }

  function DigitValue(c: char): nat
    requires IsDigit(c)
  {
    c as int - '0' as int
  }

  function DigitChar(d: nat): (c: char)
    requires d < 10
    ensures IsDigit(c) && DigitValue(c) == d
  {
    ('0' as int + d) as char
  }

  /** `s.lstrip()`: the longest suffix of `s` that does not start with white space. */
  function TrimStart(s: string): (r: string)
    ensures |r| <= |s| && r == s[|s| - |r|..]
    ensures r == [] || !IsSpace(r[0])
    ensures forall i :: 0 <= i < |s| - |r| ==> IsSpace(s[i])
  {
    if s != [] && IsSpace(s[0]) then TrimStart(s[1..]) else s
  }

  /** `s.rstrip()`: the longest prefix of `s` that does not end with white space. */
  function TrimEnd(s: string): (r: string)
    ensures |r| <= |s| && r == s[..|r|]
    ensures r == [] || !IsSpace(r[|r| - 1])
    ensures forall i :: |r| <= i < |s| ==> IsSpace(s[i])
  {
    if s != [] && IsSpace(s[|s| - 1]) then TrimEnd(s[..|s| - 1]) else s
  }

  function Strip(s: string): string {
    TrimEnd(TrimStart(s))
  }

  lemma StripKeepsTrimmed(s: string)
    requires s != [] && !IsSpace(s[0]) && !IsSpace(s[|s| - 1])
    ensures Strip(s) == s
  {
  }

  predicate DigitsOrUnderscores(t: string) {
    forall i :: 0 <= i < |t| ==> IsDigit(t[i]) || t[i] == '_'
  }

  /** The digit part Python's `int()` accepts: digits, with single underscores
      allowed between two digits ("1_000"). */
  predicate IsDigitGroups(t: string) {
    && |t| > 0 && IsDigit(t[0]) && IsDigit(t[|t| - 1])
    && DigitsOrUnderscores(t)
    && NoDoubleUnderscore(t)
  }

  predicate NoDoubleUnderscore(t: string) {
    |t| < 2 || (!(t[0] == '_' && t[1] == '_') && NoDoubleUnderscore(t[1..]))
  }

  /** The number the digits of `t` spell, underscores skipped. */
  function DigitsValue(t: string): nat
    requires DigitsOrUnderscores(t)
  {
    if t == [] then 0
    else if t[|t| - 1] == '_' then DigitsValue(t[..|t| - 1])
    else DigitsValue(t[..|t| - 1]) * 10 + DigitValue(t[|t| - 1])
  }

  /** `int()` on text already stripped of surrounding white space: an
      optionally signed digit group. */
  function ParseSignedDigits(t: string): Option<int> {
    if |t| > 0 && (t[0] == '+' || t[0] == '-') then
      var u := t[1..];
      if IsDigitGroups(u) then Some(if t[0] == '-' then -(DigitsValue(u) as int) else DigitsValue(u))
      else None
    else if IsDigitGroups(t) then Some(DigitsValue(t))
    else None
  }

  /** `int(s)` on text: white space around an optionally signed digit group;
      None where Python raises ValueError. */
  function ParseInt(s: string): Option<int> {
    ParseSignedDigits(Strip(s))
  }

  /** The decimal digits of `n`, most significant first, without leading zeros. */
  function DecimalDigits(n: nat): (r: string)
    ensures IsDigitText(r)
    ensures r[0] == '0' ==> n == 0
  {
    if n < 10 then [DigitChar(n)] else DecimalDigits(n / 10) + [DigitChar(n % 10)]
  }

  /** `str(n)` for a Python int. */
  function FormatInt(n: int): string {
    if n < 0 then "-" + DecimalDigits(-n) else DecimalDigits(n)
  }

  lemma {:induction false} DecimalDigitsValue(n: nat)
    ensures DigitsValue(DecimalDigits(n)) == n
  {
    if n >= 10 {
      DecimalDigitsValue(n / 10);
      var d := DecimalDigits(n);
      assert d[..|d| - 1] == DecimalDigits(n / 10);
    }
  }

  lemma {:induction false} DigitTextIsDigitGroups(d: string)
    requires IsDigitText(d)
    ensures IsDigitGroups(d)
  {
    if |d| >= 2 {
      DigitTextIsDigitGroups(d[1..]);
    }
  }

  /** The digits of a natural number read back as that number. */
  lemma ParseDecimalDigits(m: nat)
    ensures ParseSignedDigits(DecimalDigits(m)) == Some(m)
  {
    var d := DecimalDigits(m);
    DecimalDigitsValue(m);
    DigitTextIsDigitGroups(d);
    assert IsDigit(d[0]);
  }

  /** A minus sign before the digits of `m` reads back as -m. */
  lemma ParseNegatedDigits(m: nat)
    ensures ParseSignedDigits("-" + DecimalDigits(m)) == Some(-(m as int))
  {
    var d := DecimalDigits(m);
    DecimalDigitsValue(m);
    DigitTextIsDigitGroups(d);
    assert ("-" + d)[1..] == d;
  }

  /** `int(str(n)) == n`: the text Python prints for an int parses back to it. */
  lemma ParseIntFormat(n: int)
    ensures ParseInt(FormatInt(n)) == Some(n)
  {
    var t := FormatInt(n);
    var d := DecimalDigits(if n < 0 then -n else n);
    assert IsDigit(d[0]) && IsDigit(d[|d| - 1]);
    StripKeepsTrimmed(t);
    assert ParseInt(t) == ParseSignedDigits(t);
    if n < 0 {
      ParseNegatedDigits(-n);
    } else {
      ParseDecimalDigits(n);
    }
  }

  /** The position of the first `c` in `s`, or |s| when there is none. */
  function IndexOf(s: string, c: char): (i: nat)
    ensures i <= |s|
    ensures i < |s| ==> s[i] == c
  {
    if s == [] then 0 else if s[0] == c then 0 else 1 + IndexOf(s[1..], c)
  }

  /** The position found is the first `c`: none comes before it. */
  lemma {:induction false} IndexOfIsFirst(s: string, c: char)
    ensures forall j :: 0 <= j < IndexOf(s, c) ==> s[j] != c
  {
    if s != [] && s[0] != c {
      IndexOfIsFirst(s[1..], c);
    }
  }

  /** `v / 10^n`: the value of `n` fraction digits that spell `v`. */
  function Shifted(v: nat, n: nat): real {
    if n == 0 then v as real else Shifted(v, n - 1) / 10.0
  }

  predicate AllDigits(s: string) {
    forall i :: 0 <= i < |s| ==> IsDigit(s[i])
  }

  /** An unsigned decimal literal: digits with an optional point, at least one
      digit in all ("70", "1.75", ".5", "3."). */
  function ParseDecimal(u: string): Option<real> {
    var p := IndexOf(u, '.');
    DecimalParts(u[..p], if p < |u| then u[p + 1..] else [])
  }

  /** The literal whose digits before the point are `whole` and after it `frac`. */
  function DecimalParts(whole: string, frac: string): Option<real> {
    if AllDigits(whole) && AllDigits(frac) && |whole| + |frac| > 0 then
      Some(DigitsValue(whole) as real + Shifted(DigitsValue(frac), |frac|))
    else None
  }

  /** `float()` on text already stripped of surrounding white space: an
      optionally signed decimal literal. */
  function ParseSignedDecimal(t: string): Option<real> {
    var signed := |t| > 0 && (t[0] == '+' || t[0] == '-');
    var u := if signed then t[1..] else t;
    match ParseDecimal(u)
    case None => None
    case Some(x) => Some(if signed && t[0] == '-' then -x else x)
  }

  /** `float(s)` on text, for decimal literals with an optional sign and
      surrounding white space; None where Python raises ValueError. */
  function ParseFloat(s: string): Option<real> {
    ParseSignedDecimal(Strip(s))
  }

  /** The decimal text `whole.frac` ("1.75", "0.05", "3."): what a
      non-negative float with that many fraction digits prints as. */
  function DecimalText(whole: nat, frac: string): string {
    DecimalDigits(whole) + "." + frac
  }

  lemma {:induction false} IndexOfPastPrefix(w: string, c: char, rest: string)
    requires forall i :: 0 <= i < |w| ==> w[i] != c
    ensures IndexOf(w + [c] + rest, c) == |w|
  {
    if w != [] {
      assert (w + [c] + rest)[1..] == w[1..] + [c] + rest;
      IndexOfPastPrefix(w[1..], c, rest);
    }
  }

  /** A literal with a point reads as its whole digits plus its fraction digits
      scaled down. */
  lemma ParseDecimalPoint(w: string, f: string)
    requires IsDigitText(w) && AllDigits(f)
    ensures ParseDecimal(w + ['.'] + f)
         == Some(DigitsValue(w) as real + Shifted(DigitsValue(f), |f|))
  {
    SplitDecimalAtPoint(w, f);
    DigitDecimalParts(w, f);
  }

  lemma SplitDecimalAtPoint(w: string, f: string)
    requires IsDigitText(w)
    ensures ParseDecimal(w + ['.'] + f) == DecimalParts(w, f)
  {
    IndexOfPastPrefix(w, '.', f);
    ParseDecimalAt(w + ['.'] + f, |w|);
    SplitAtPoint(w, f);
  }

  lemma DigitDecimalParts(w: string, f: string)
    requires IsDigitText(w) && AllDigits(f)
    ensures DecimalParts(w, f) == Some(DigitsValue(w) as real + Shifted(DigitsValue(f), |f|))
  {
  }

  lemma ParseDecimalAt(u: string, p: nat)
    requires p == IndexOf(u, '.') && p < |u|
    ensures ParseDecimal(u) == DecimalParts(u[..p], u[p + 1..])
  {
  }

  lemma SplitAtPoint(w: string, f: string)
    ensures (w + ['.'] + f)[..|w|] == w && (w + ['.'] + f)[|w| + 1..] == f
  {
  }

  /** Without a sign, `float()` on stripped text is the decimal literal's value. */
  lemma SignedDecimalUnsigned(u: string)
    requires u != [] && IsDigit(u[0])
    ensures ParseSignedDecimal(u) == ParseDecimal(u)
  {
  }

  /** A leading minus sign negates the decimal literal's value. */
  lemma SignedDecimalNegated(t: string, x: real)
    requires t != [] && t[0] == '-' && ParseDecimal(t[1..]) == Some(x)
    ensures ParseSignedDecimal(t) == Some(-x)
  {
  }

  /** `u` is an unsigned decimal literal for `x`, with no white space around it. */
  predicate ReadsAsDecimal(u: string, x: real) {
    u != [] && IsDigit(u[0]) && !IsSpace(u[|u| - 1]) && ParseDecimal(u) == Some(x)
  }

  /** Such a literal is parsed by `float()` as `x`. */
  lemma UnsignedFloat(u: string, x: real)
    requires ReadsAsDecimal(u, x)
    ensures ParseFloat(u) == Some(x)
  {
    StrippedFloat(u);
    SignedDecimalUnsigned(u);
  }

  /** A minus sign before such text makes `float()` return `-x`. */
  lemma MinusFloat(u: string, x: real)
    requires ReadsAsDecimal(u, x)
    ensures ParseFloat("-" + u) == Some(-x)
  {
    var t := "-" + u;
    assert t[1..] == u && t[|t| - 1] == u[|u| - 1];
    StrippedFloat(t);
    SignedDecimalNegated(t, x);
  }

  /** On text with no white space around it, `float()` parses the text itself. */
  lemma StrippedFloat(t: string)
    requires t != [] && !IsSpace(t[0]) && !IsSpace(t[|t| - 1])
    ensures ParseFloat(t) == ParseSignedDecimal(t)
  {
    StripKeepsTrimmed(t);
  }

  /** `float()` reads the decimal text `whole.frac` as exactly the number it
      spells; `MinusFloat` adds the sign. */
  lemma {:induction false} ParseFloatDecimal(whole: nat, frac: string)
    requires AllDigits(frac)
    ensures ParseFloat(DecimalText(whole, frac)) == Some(DecimalValue(whole, frac))
  {
    DecimalTextReads(whole, frac);
    UnsignedFloat(DecimalText(whole, frac), DecimalValue(whole, frac));
  }

  /** The number the decimal text `whole.frac` spells. */
  function DecimalValue(whole: nat, frac: string): real
    requires AllDigits(frac)
  {
    whole as real + Shifted(DigitsValue(frac), |frac|)
  }

  /** The decimal text is non-empty, starts with a digit, does not end in
      white space, and reads as its value. */
  lemma DecimalTextReads(whole: nat, frac: string)
    requires AllDigits(frac)
    ensures ReadsAsDecimal(DecimalText(whole, frac), DecimalValue(whole, frac))
  {
    DecimalTextShape(whole, frac);
    ParseDecimalText(whole, frac);
  }

  lemma ParseDecimalText(whole: nat, frac: string)
    requires AllDigits(frac)
    ensures ParseDecimal(DecimalText(whole, frac)) == Some(DecimalValue(whole, frac))
  {
    ParseDecimalPoint(DecimalDigits(whole), frac);
    DecimalDigitsValue(whole);
  }

  lemma DecimalTextShape(whole: nat, frac: string)
    requires AllDigits(frac)
    ensures DecimalText(whole, frac) != [] && IsDigit(DecimalText(whole, frac)[0])
    ensures !IsSpace(DecimalText(whole, frac)[|DecimalText(whole, frac)| - 1])
  {
    var d := DecimalDigits(whole);
    var t := d + "." + frac;
    assert t[0] == d[0];
    if frac != [] {
      assert t[|t| - 1] == frac[|frac| - 1] && IsDigit(frac[|frac| - 1]);
    } else {
      assert t[|t| - 1] == '.';
    }
  }

  /** `float(str(n)) == n`: the text Python prints for an int reads as that
      number through `float()`. */
  lemma ParseFloatFormatInt(n: int)
    ensures ParseFloat(FormatInt(n)) == Some(n as real)
  {
    if n < 0 {
      ParseFloatNegativeInt(n);
    } else {
      ParseFloatDigits(n);
    }
  }

  lemma ParseFloatNegativeInt(n: int)
    requires n < 0
    ensures ParseFloat(FormatInt(n)) == Some(n as real)
  {
    var m: nat := -n;
    assert FormatInt(n) == "-" + DecimalDigits(m);
    ParseFloatMinusDigits(m);
  }

  lemma ParseFloatDigits(m: nat)
    ensures ParseFloat(DecimalDigits(m)) == Some(m as real)
  {
    DigitsReadAsDecimal(m);
    UnsignedFloat(DecimalDigits(m), m as real);
  }

  lemma ParseFloatMinusDigits(m: nat)
    ensures ParseFloat("-" + DecimalDigits(m)) == Some(-(m as real))
  {
    DigitsReadAsDecimal(m);
    MinusFloat(DecimalDigits(m), m as real);
  }

  lemma DigitsReadAsDecimal(m: nat)
    ensures ReadsAsDecimal(DecimalDigits(m), m as real)
  {
    var d := DecimalDigits(m);
    assert IsDigit(d[0]) && IsDigit(d[|d| - 1]);
    ParseDecimalDigitsText(m);
  }

  /** The digits of a natural number, read as a decimal literal, give that number. */
  lemma ParseDecimalDigitsText(m: nat)
    ensures ParseDecimal(DecimalDigits(m)) == Some(m as real)
  {
    var d := DecimalDigits(m);
    IndexOfDigits(d);
    assert d[..|d|] == d;
    DecimalDigitsValue(m);
  }

  lemma {:induction false} IndexOfDigits(d: string)
    requires AllDigits(d)
    ensures IndexOf(d, '.') == |d|
  {
    if d != [] {
      IndexOfDigits(d[1..]);
    }
  }

  /** `int(x)` for a float: truncation toward zero (not Dafny's floor). */
  function Trunc(x: real): (t: int)
    ensures 0.0 <= x ==> t as real <= x < t as real + 1.0
    ensures x < 0.0 ==> t as real - 1.0 < x <= t as real
  {
    if x >= 0.0 then x.Floor else -((-x).Floor)
  }

  /** Python's `int(v)`; None where it raises. */
  function PyInt(v: Value): Option<int> {
    match v
    case Int(i) => Some(i)
    case Float(x) => Some(Trunc(x))
    case Str(s) => ParseInt(s)
  }

  /** Python's `float(v)`; None where it raises. */
  function PyFloat(v: Value): Option<real> {
    match v
    case Int(i) => Some(i as real)
    case Float(x) => Some(x)
    case Str(s) => ParseFloat(s)
  }

  /** Surrounding white space is ignored and underscores may group digits. */
  lemma ParseIntExamples()
    ensures ParseInt(" 42 ") == Some(42)
    ensures ParseInt("1_000") == Some(1000)
  {
    ParseIntSpaced42();
    ParseInt1000();
  }

  lemma ParseIntSpaced42()
    ensures ParseInt(" 42 ") == Some(42)
  {
    StripSpaced42();
    IsDigitGroups42();
    DigitsValue42();
  }

  lemma ParseInt1000()
    ensures ParseInt("1_000") == Some(1000)
  {
    StripKeepsTrimmed("1_000");
    DigitsValue1000();
  }

  lemma StripSpaced42()
    ensures Strip(" 42 ") == "42"
  {
    TrimStartSpaced42();
    TrimEndSpaced42();
  }

  lemma TrimStartSpaced42()
    ensures TrimStart(" 42 ") == "42 "
  {
    assert IsSpace(" 42 "[0]);
    assert " 42 "[1..] == "42 ";
    assert !IsSpace("42 "[0]);
  }

  lemma TrimEndSpaced42()
    ensures TrimEnd("42 ") == "42"
  {
    assert "42 "[..2] == "42";
  }

  lemma IsDigitGroups42()
    ensures IsDigitGroups("42") && !IsDigitGroups("+42")
  {
  }

  lemma DigitsValue42()
    ensures DigitsValue("42") == 42
  {
    assert "42"[..1] == "4";
  }

  lemma DigitsValue1000()
    ensures IsDigitGroups("1_000") && DigitsValue("1_000") == 1000
  {
    assert "1_000"[..4] == "1_00";
    assert "1_00"[..3] == "1_0";
    assert "1_0"[..2] == "1_";
    assert "1_"[..1] == "1";
  }

  /** Letters, empty text and doubled underscores raise ValueError. */
  lemma ParseIntRejects()
    ensures ParseInt("abc") == None && ParseInt("") == None && ParseInt("1__0") == None
  {
    ParseIntAbc();
    ParseIntDoubleUnderscore();
  }

  lemma ParseIntAbc()
    ensures ParseInt("abc") == None
  {
    NotDigitGroupsAbc();
    UnsignedIntRejected("abc");
  }

  lemma ParseIntDoubleUnderscore()
    ensures ParseInt("1__0") == None
  {
    NotDigitGroupsDoubleUnderscore();
    UnsignedIntRejected("1__0");
  }

  /** Trimmed, unsigned text that is not a digit group raises ValueError. */
  lemma UnsignedIntRejected(t: string)
    requires t != [] && !IsSpace(t[0]) && !IsSpace(t[|t| - 1])
    requires t[0] != '+' && t[0] != '-' && !IsDigitGroups(t)
    ensures ParseInt(t) == None
  {
    StripKeepsTrimmed(t);
  }

  lemma NotDigitGroupsAbc()
    ensures !IsDigitGroups("abc") && "abc"[0] != '+' && "abc"[0] != '-'
  {
  }

  lemma NotDigitGroupsDoubleUnderscore()
    ensures !IsDigitGroups("1__0") && "1__0"[0] != '+' && "1__0"[0] != '-'
  {
    assert "1__0"[1..][0] == '_' && "1__0"[1..][1] == '_';
  }

  lemma ParseFloatExamples()
    ensures ParseFloat("1.75") == Some(1.75)
    ensures ParseFloat("abc") == None
  {
    ParseFloat175();
    ParseFloatAbc();
  }

  /** On trimmed text without a sign, `float()` reads the decimal literal itself. */
  lemma ParseFloatUnsigned(s: string)
    requires s != [] && !IsSpace(s[0]) && !IsSpace(s[|s| - 1])
    requires s[0] != '+' && s[0] != '-'
    ensures ParseFloat(s) == ParseDecimal(s)
  {
    StripKeepsTrimmed(s);
  }

  lemma ParseFloat175()
    ensures ParseFloat("1.75") == Some(1.75)
  {
    ParseFloatUnsigned("1.75");
    ParseDecimal175();
  }

  lemma ParseFloatAbc()
    ensures ParseFloat("abc") == None
  {
    ParseFloatUnsigned("abc");
    ParseDecimalAbc();
  }

  lemma ParseDecimal175()
    ensures ParseDecimal("1.75") == Some(1.75)
  {
    assert IndexOf("1.75", '.') == 1;
    assert "1.75"[..1] == "1" && "1.75"[2..] == "75";
    assert DigitsValue("1") == 1 by { assert "1"[..0] == ""; }
    assert DigitsValue("75") == 75 by { assert "75"[..1] == "7"; }
  }

  lemma ParseDecimalAbc()
    ensures ParseDecimal("abc") == None
  {
    assert IndexOf("abc", '.') == 3;
    assert "abc"[..3] == "abc";
  }
}
