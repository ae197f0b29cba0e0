/**
 * JavaScript's `parseFloat (string)` (section 19.2.4 of ECMA-262) over exact
 * reals: skip leading white space, then read the longest prefix that is a
 * decimal literal (optional sign, digits, optional fraction, optional
 * exponent) and ignore whatever follows it.
 */
module NumberParsing {
  import opened Wrappers

  /** StrWhiteSpaceChar of ECMA-262: WhiteSpace (with every Zs space) and LineTerminator. */
  predicate IsStrWhiteSpace(c: char) {
    || c == '\t' || c == '\n' || c == '\U{000B}' || c == '\U{000C}' || c == '\r'
    || c == ' ' || c == '\U{00A0}' || c == '\U{1680}'
    || ('\U{2000}' <= c <= '\U{200A}')
    || c == '\U{2028}' || c == '\U{2029}' || c == '\U{202F}' || c == '\U{205F}'
    || c == '\U{3000}' || c == '\U{FEFF}'
  }

  predicate IsDigit(c: char) {
    '0' <= c <= '9'
  }

  predicate AllDigits(d: string) {
    forall i :: 0 <= i < |d| ==> IsDigit(d[i])
  }

  /** `s` without its leading white space. */
  function TrimStart(s: string): (t: string)
    ensures |t| <= |s| && t == s[|s| - |t|..]
    ensures forall i :: 0 <= i < |s| - |t| ==> IsStrWhiteSpace(s[i])
    ensures t == [] || !IsStrWhiteSpace(t[0])
  {
    if s != [] && IsStrWhiteSpace(s[0]) then TrimStart(s[1..]) else s
  }

  /** The length of the run of decimal digits that `s` starts with. */
  function DigitRun(s: string): (k: nat)
    ensures k <= |s| && (forall i :: 0 <= i < k ==> IsDigit(s[i]))
    ensures k < |s| ==> !IsDigit(s[k])
  {
    if s != [] && IsDigit(s[0]) then 1 + DigitRun(s[1..]) else 0
  }

  /** The natural number that the digit string `d` denotes (0 for the empty string). */
  function DigitsValue(d: string): nat
    requires AllDigits(d)
  {
    if d == [] then 0 else 10 * DigitsValue(d[..|d| - 1]) + (d[|d| - 1] - '0') as nat
  }

  /** m times ten to the power e. */
  function Scale(m: real, e: int): real
    decreases if e >= 0 then e else -e
  {
    if e == 0 then m
    else if e > 0 then 10.0 * Scale(m, e - 1)
    else Scale(m, e + 1) / 10.0
  }

  /** The text after an optional leading sign. */
  function Unsigned(t: string): string {
    if t != [] && (t[0] == '-' || t[0] == '+') then t[1..] else t
  }

  /** A decimal mantissa starts here: a digit, or a point followed by a digit. */
  predicate StartsWithMantissa(u: string) {
    u != [] && (IsDigit(u[0]) || (|u| >= 2 && u[0] == '.' && IsDigit(u[1])))
  }

  /** The exponent that `s` starts with (`e` or `E`, optional sign, digits), or 0 when there is none. */
  function ExponentOf(s: string): int {
    if s != [] && (s[0] == 'e' || s[0] == 'E') then
      var v := Unsigned(s[1..]);
      var k := DigitRun(v);
      if k == 0 then 0
      else if s[1] == '-' then -(DigitsValue(v[..k]) as int)
      else DigitsValue(v[..k])
    else 0
  }

  /** The value of the mantissa `whole.fraction`. */
  function Mantissa(whole: string, fraction: string): real
    requires AllDigits(whole) && AllDigits(fraction)
  {
    DigitsValue(whole) as real + Scale(DigitsValue(fraction) as real, -|fraction|)
  }

  /**
   * The value of the longest decimal literal without a sign that `u` starts
   * with: digits, an optional point with optional digits after it, and an
   * optional exponent; or a point, digits and an optional exponent.
   */
  function ParseUnsigned(u: string): (r: Option<real>)
    ensures r.Some? <==> StartsWithMantissa(u)
  {
    var i := DigitRun(u);
    if i < |u| && u[i] == '.' then
      var after := u[i + 1..];
      var f := DigitRun(after);
      if i == 0 && f == 0 then None
      else Some(Scale(Mantissa(u[..i], after[..f]), ExponentOf(after[f..])))
    else if i == 0 then None
    else Some(Scale(Mantissa(u[..i], []), ExponentOf(u[i..])))
  }

  /** A decimal literal with an optional sign, read from the start of `t`. */
  function ParseSigned(t: string): (r: Option<real>)
    ensures r.Some? <==> StartsWithMantissa(Unsigned(t))
  {
    match ParseUnsigned(Unsigned(t))
    case None => None
    case Some(v) => Some(if t != [] && t[0] == '-' then -v else v)
  }

  /**
   * `parseFloat(s)`: None where JavaScript gives NaN. A value is found exactly
   * when, after the white space and an optional sign, the text begins with a
   * mantissa.
   */
  function ParseFloat(s: string): (r: Option<real>)
    ensures r.Some? <==> StartsWithMantissa(Unsigned(TrimStart(s)))
  {
    ParseSigned(TrimStart(s))
  }

  /** The decimal numeral of `n`, without leading zeros. */
  function Decimal(n: nat): (d: string)
    ensures d != [] && AllDigits(d)
  {
    if n < 10 then ['0' + n as char] else Decimal(n / 10) + ['0' + (n % 10) as char]
  }

  lemma {:induction false} DigitsValueOfDecimal(n: nat)
    ensures DigitsValue(Decimal(n)) == n
  {
    if n >= 10 {
      var d := Decimal(n);
      assert d[..|d| - 1] == Decimal(n / 10);
      DigitsValueOfDecimal(n / 10);
    }
  }

  lemma {:induction false} DigitRunOfDigits(d: string, tail: string)
    requires AllDigits(d)
    requires tail == [] || !IsDigit(tail[0])
    ensures DigitRun(d + tail) == |d|
  {
    if d != [] {
      assert (d + tail)[1..] == d[1..] + tail;
      DigitRunOfDigits(d[1..], tail);
    }
  }

  lemma {:induction false} TrimStartSkipsWhiteSpace(ws: string, s: string)
    requires forall i :: 0 <= i < |ws| ==> IsStrWhiteSpace(ws[i])
    ensures TrimStart(ws + s) == TrimStart(s)
  {
    if ws != [] {
      var w := ws + s;
      assert w[0] == ws[0] && IsStrWhiteSpace(w[0]);
      assert w[1..] == ws[1..] + s;
      assert TrimStart(w) == TrimStart(w[1..]);
      TrimStartSkipsWhiteSpace(ws[1..], s);
    } else {
      assert ws + s == s;
    }
  }

  /** Leading white space never changes what `parseFloat` reads. */
  lemma ParseFloatIgnoresLeadingWhiteSpace(ws: string, s: string)
    requires forall i :: 0 <= i < |ws| ==> IsStrWhiteSpace(ws[i])
    ensures ParseFloat(ws + s) == ParseFloat(s)
  {
    TrimStartSkipsWhiteSpace(ws, s);
  }

  lemma ParseUnsignedNumeral(n: nat, tail: string)
    requires tail == [] || (!IsDigit(tail[0]) && tail[0] !in ".eE")
    ensures ParseUnsigned(Decimal(n) + tail) == Some(n as real)
  {
    var d := Decimal(n);
    var u := d + tail;
    DigitsValueOfDecimal(n);
    DigitRunOfDigits(d, tail);
    assert u[..|d|] == d;
    assert u[|d|..] == tail;
    assert ExponentOf(tail) == 0;
    assert Mantissa(d, []) == n as real;
  }

  /** Text after a numeral is ignored: a decimal numeral, signed or not, followed by such text reads back as its value. */
  lemma ParseFloatReadsNumeralPrefix(n: nat, tail: string)
    requires tail == [] || (!IsDigit(tail[0]) && tail[0] !in ".eE")
    ensures ParseFloat(Decimal(n) + tail) == Some(n as real)
    ensures ParseFloat("-" + (Decimal(n) + tail)) == Some(-(n as real))
  {
    var d := Decimal(n);
    var u := d + tail;
    ParseUnsignedNumeral(n, tail);
    assert u[0] == d[0] && IsDigit(u[0]);
    TrimStartStops(u);
    assert Unsigned(u) == u;
    assert ParseSigned(u) == Some(n as real);
    var m := "-" + u;
    assert m[0] == '-' && m[1..] == u;
    TrimStartStops(m);
    assert Unsigned(m) == u;
    assert ParseSigned(m) == Some(-(n as real));
  }

  lemma TrimStartStops(s: string)
    requires s != [] && (IsDigit(s[0]) || s[0] == '-' || s[0] == '+' || s[0] == '.')
    ensures TrimStart(s) == s
  {
    assert !IsStrWhiteSpace(s[0]);
  }

  /** Text that starts with a letter has no numeric prefix (as `"undefined"` and `"NaN"`). */
  lemma ParseFloatOfWord(s: string)
    requires s != [] && ('a' <= s[0] <= 'z' || 'A' <= s[0] <= 'Z')
    ensures ParseFloat(s) == None
  {
    assert !IsStrWhiteSpace(s[0]);
    assert TrimStart(s) == s;
    assert Unsigned(s) == s && !StartsWithMantissa(s);
  }

  /**
   * The exponent part: a marker `e` or `E`, an optional sign and the digits up
   * to the first non-digit. A marker without digits after it is no exponent.
   */
  lemma {:induction false} ExponentOfDigits(e: char, sign: string, k: string, tail: string)
    requires e == 'e' || e == 'E'
    requires sign == "" || sign == "+" || sign == "-"
    requires AllDigits(k)
    requires tail == [] || !IsDigit(tail[0])
    requires k == [] && sign == "" ==> tail == [] || (tail[0] != '+' && tail[0] != '-')
    ensures ExponentOf([e] + (sign + (k + tail))) ==
      if k == [] then 0 else if sign == "-" then -(DigitsValue(k) as int) else DigitsValue(k)
  {
    var s := [e] + (sign + (k + tail));
    assert s[1..] == sign + (k + tail);
    var v := Unsigned(s[1..]);
    assert v == k + tail;
    DigitRunOfDigits(k, tail);
    assert DigitRun(v) == |k| && v[..|k|] == k;
  }

  /** Digits with a point: the whole part, the fraction and the exponent that follows, if any. */
  lemma {:induction false} ParseUnsignedPointed(d: string, f: string, tail: string)
    requires AllDigits(d) && AllDigits(f) && (d != [] || f != [])
    requires tail == [] || !IsDigit(tail[0])
    ensures ParseUnsigned(d + ("." + (f + tail))) == Some(Scale(Mantissa(d, f), ExponentOf(tail)))
  {
    var after := f + tail;
    var u := d + ("." + after);
    DigitRunOfDigits(d, "." + after);
    DigitRunOfDigits(f, tail);
    var i := DigitRun(u);
    assert i == |d| && i < |u| && u[i] == '.';
    var a := u[i + 1..];
    var k := DigitRun(a);
    assert a == after && k == |f|;
    assert u[..i] == d && a[..k] == f && a[k..] == tail;
    assert Mantissa(u[..i], a[..k]) == Mantissa(d, f);
  }

  /** Digits without a point, and the exponent that follows, if any. */
  lemma {:induction false} ParseUnsignedWhole(d: string, tail: string)
    requires d != [] && AllDigits(d)
    requires tail == [] || (!IsDigit(tail[0]) && tail[0] != '.')
    ensures ParseUnsigned(d + tail) == Some(Scale(DigitsValue(d) as real, ExponentOf(tail)))
  {
    var u := d + tail;
    DigitRunOfDigits(d, tail);
    assert DigitRun(u) == |d| && u[..|d|] == d && u[|d|..] == tail;
    assert Mantissa(u[..|d|], []) == DigitsValue(d) as real;
  }

  /** Text that starts with a digit or a point is read without a sign. */
  lemma {:induction false} ParseFloatOfUnsigned(u: string)
    requires u != [] && (IsDigit(u[0]) || u[0] == '.')
    ensures ParseFloat(u) == ParseUnsigned(u)
  {
    TrimStartStops(u);
    assert Unsigned(u) == u;
  }

  /** A minus sign before text that starts with a digit or a point negates the value read; a plus sign keeps it. */
  lemma {:induction false} ParseFloatNegates(u: string, v: real)
    requires u != [] && (IsDigit(u[0]) || u[0] == '.')
    requires ParseFloat(u) == Some(v)
    ensures ParseFloat("-" + u) == Some(-v)
    ensures ParseFloat("+" + u) == Some(v)
  {
    ParseFloatOfUnsigned(u);
    var m, p := "-" + u, "+" + u;
    assert m[0] == '-' && m[1..] == u;
    assert p[0] == '+' && p[1..] == u;
    TrimStartStops(m);
    TrimStartStops(p);
    ParseFloatOfSign(m, u, v);
    ParseFloatOfSign(p, u, v);
  }

  lemma {:induction false} ParseFloatOfSign(m: string, u: string, v: real)
    requires m != [] && (m[0] == '-' || m[0] == '+') && TrimStart(m) == m && m[1..] == u
    requires ParseUnsigned(u) == Some(v)
    ensures ParseFloat(m) == Some(if m[0] == '-' then -v else v)
  {
    assert Unsigned(m) == u;
  }

  /**
   * `parseFloat` of a numeral with a point: the whole digits, the fraction
   * digits (one of the two may be empty) and what follows. The value is the
   * mantissa scaled by the exponent that the rest starts with.
   */
  lemma {:induction false} ParseFloatReadsPointed(d: string, f: string, tail: string)
    requires AllDigits(d) && AllDigits(f) && (d != [] || f != [])
    requires tail == [] || !IsDigit(tail[0])
    ensures ParseFloat(d + "." + f + tail) == Some(Scale(Mantissa(d, f), ExponentOf(tail)))
  {
    var u := d + ("." + (f + tail));
    assert d + "." + f + tail == u;
    ParseUnsignedPointed(d, f, tail);
    ParseFloatOfUnsigned(u);
  }

  /** `parseFloat` of digits without a point: their value scaled by the exponent that the rest starts with. */
  lemma {:induction false} ParseFloatReadsWhole(d: string, tail: string)
    requires d != [] && AllDigits(d)
    requires tail == [] || (!IsDigit(tail[0]) && tail[0] != '.')
    ensures ParseFloat(d + tail) == Some(Scale(DigitsValue(d) as real, ExponentOf(tail)))
  {
    ParseUnsignedWhole(d, tail);
    ParseFloatOfUnsigned(d + tail);
  }

  /** A whole number, a point and a fraction, and text that starts no exponent: w plus the fraction's value. */
  lemma {:induction false} ParseFloatReadsFraction(w: nat, f: string, tail: string)
    requires AllDigits(f)
    requires tail == [] || (!IsDigit(tail[0]) && tail[0] != 'e' && tail[0] != 'E')
    ensures ParseFloat(Decimal(w) + "." + f + tail) == Some(w as real + Scale(DigitsValue(f) as real, -|f|))
  {
    var d := Decimal(w);
    ParseFloatReadsPlainFraction(d, f, tail);
    DigitsValueOfDecimal(w);
    assert Mantissa(d, f) == w as real + Scale(DigitsValue(f) as real, -|f|);
  }

  lemma {:induction false} ParseFloatReadsPlainFraction(d: string, f: string, tail: string)
    requires d != [] && AllDigits(d) && AllDigits(f)
    requires tail == [] || (!IsDigit(tail[0]) && tail[0] != 'e' && tail[0] != 'E')
    ensures ParseFloat(d + "." + f + tail) == Some(Mantissa(d, f))
  {
    ParseFloatReadsPointed(d, f, tail);
    var m, e := Mantissa(d, f), ExponentOf(tail);
    assert e == 0 && Scale(m, e) == m;
  }

  /** A whole number and an exponent with its sign: w times ten to the signed power. */
  lemma {:induction false} ParseFloatReadsExponent(w: nat, e: char, sign: string, k: nat, tail: string)
    requires e == 'e' || e == 'E'
    requires sign == "" || sign == "+" || sign == "-"
    requires tail == [] || !IsDigit(tail[0])
    ensures ParseFloat(Decimal(w) + [e] + sign + Decimal(k) + tail) ==
      Some(Scale(w as real, if sign == "-" then -(k as int) else k))
  {
    var dk := Decimal(k);
    var t := [e] + (sign + (dk + tail));
    assert Decimal(w) + [e] + sign + dk + tail == Decimal(w) + t;
    ExponentOfDecimal(e, sign, k, tail);
    ParseFloatScaled(w, t, if sign == "-" then -(k as int) else k);
  }

  lemma {:induction false} ExponentOfDecimal(e: char, sign: string, k: nat, tail: string)
    requires e == 'e' || e == 'E'
    requires sign == "" || sign == "+" || sign == "-"
    requires tail == [] || !IsDigit(tail[0])
    ensures ExponentOf([e] + (sign + (Decimal(k) + tail))) == if sign == "-" then -(k as int) else k
  {
    ExponentOfDigits(e, sign, Decimal(k), tail);
    DigitsValueOfDecimal(k);
  }

  lemma {:induction false} ParseFloatScaled(w: nat, t: string, x: int)
    requires t == [] || (!IsDigit(t[0]) && t[0] != '.')
    requires ExponentOf(t) == x
    ensures ParseFloat(Decimal(w) + t) == Some(Scale(w as real, x))
  {
    ParseFloatReadsWhole(Decimal(w), t);
    DigitsValueOfDecimal(w);
  }
}
