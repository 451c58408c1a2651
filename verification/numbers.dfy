/** Number parsing, formatting and rounding as the two runtimes do them:
    JavaScript's `Number(...)` and `Math.round`, Python's `float(...)` and
    `round(...)`, and decimal formatting of small naturals. */
module Numbers {
  import opened Wrappers
  import opened Text

  /** A JavaScript number: a finite value or NaN. Infinities are not
      produced by the parse model (see `ParseDecimal`). */
  datatype Num = Finite(value: real) | NaN

  predicate IsDigit(c: char) { '0' <= c <= '9' }

  predicate AllDigits(s: string)
  {
    forall i :: 0 <= i < |s| ==> IsDigit(s[i])
  }

  function DigitValue(c: char): nat
    requires IsDigit(c)
  {
    c as int - '0' as int
  }

  function DigitChar(d: nat): (c: char)
    requires d < 10
    ensures IsDigit(c) && DigitValue(c) == d
  {
    (d + '0' as int) as char
  }

  /** The value of a string of decimal digits, most significant first. */
  function DigitsValue(s: string): nat
    requires AllDigits(s)
  {
    if |s| == 0 then 0 else DigitsValue(s[..|s| - 1]) * 10 + DigitValue(s[|s| - 1])
  }

  function Pow10(n: nat): (r: nat)
    ensures r >= 1
  {
    if n == 0 then 1 else 10 * Pow10(n - 1)
  }

  /** An unsigned decimal literal: digits, optionally one point and more
      digits, with at least one digit overall (`"12"`, `"1."`, `".5"`). */
  function ParseUnsigned(u: string): (r: Option<real>)
    ensures r.Some? ==> r.value >= 0.0
  {
    match FirstIndexOf(u, '.')
    case None =>
      if |u| > 0 && AllDigits(u) then Some(DigitsValue(u) as real) else None
    case Some(k) =>
      var whole := u[..k];
      var frac := u[k + 1..];
      if AllDigits(whole) && AllDigits(frac) && |whole| + |frac| > 0 then
        Some(DigitsValue(whole) as real + DigitsValue(frac) as real / Pow10(|frac|) as real)
      else None
  }

  /** A signed decimal literal, the part of the number grammar that both
      JavaScript's `Number` and Python's `float` accept. Exponents, the
      spellings of infinity and NaN, and digit separators are not modelled. */
  function ParseDecimal(t: string): (r: Option<real>)
    ensures t == [] ==> r.None?
  {
    if |t| > 0 && t[0] == '-' then
      match ParseUnsigned(t[1..])
      case Some(v) => Some(-v)
      case None => None
    else if |t| > 0 && t[0] == '+' then ParseUnsigned(t[1..])
    else ParseUnsigned(t)
  }

  /** JavaScript `Number(cell)`: `undefined` is NaN, a blank or empty string
      is 0, anything else is its decimal value after trimming, or NaN. */
  function JsNumber(cell: Option<string>): (r: Num)
    ensures cell.None? ==> r == NaN
    ensures cell.Some? && AllSpace(cell.value) ==> r == Finite(0.0)
    ensures cell.Some? && !AllSpace(cell.value) ==>
              (r.NaN? <==> ParseDecimal(Trim(cell.value)).None?)
    ensures cell.Some? && !AllSpace(cell.value) && r.Finite? ==> ParseDecimal(Trim(cell.value)) == Some(r.value)
  {
    match cell
    case None => NaN
    case Some(s) =>
      var t := Trim(s);
      if t == [] then Finite(0.0)
      else
        match ParseDecimal(t)
        case Some(v) => Finite(v)
        case None => NaN
  }

  /** Python `float(cell)`: `None` where Python raises `ValueError`; unlike
      JavaScript, an empty or blank string is an error, not 0, and the
      surrounding whitespace is Python's, which does not include the
      byte-order mark. */
  function PyFloat(s: string): (r: Option<real>)
    ensures AllPySpace(s) ==> r.None?
    ensures !AllPySpace(s) ==> r == ParseDecimal(Strip(s))
  {
    var t := Strip(s);
    if t == [] then None else ParseDecimal(t)
  }

  /** A digit string parses, in both runtimes, to its digit value. */
  lemma DigitsParse(s: string)
    requires |s| > 0 && AllDigits(s)
    ensures ParseDecimal(s) == Some(DigitsValue(s) as real)
    ensures JsNumber(Some(s)) == Finite(DigitsValue(s) as real)
    ensures PyFloat(s) == Some(DigitsValue(s) as real)
  {
    DigitsDecimal(s);
    DigitsUntrimmed(s);
    ParsersOfTrimmed(s, DigitsValue(s) as real);
  }

  lemma DigitsDecimal(s: string)
    requires |s| > 0 && AllDigits(s)
    ensures ParseDecimal(s) == Some(DigitsValue(s) as real)
  {
    assert '.' !in s;
    assert IsDigit(s[0]);
  }

  lemma DigitsUntrimmed(s: string)
    requires |s| > 0 && AllDigits(s)
    ensures Trim(s) == s && Strip(s) == s
  {
    var a, b := s[0], s[|s| - 1];
    assert IsDigit(a) && IsDigit(b);
    assert !SpaceIn(Js, a) && !SpaceIn(Js, b);
    assert !SpaceIn(Py, a) && !SpaceIn(Py, b);
    TrimInFixed(Js, s);
    TrimInFixed(Py, s);
  }

  /** A literal without surrounding space reads the same in both runtimes. */
  lemma ParsersOfTrimmed(s: string, v: real)
    requires Trim(s) == s && Strip(s) == s && s != [] && ParseDecimal(s) == Some(v)
    ensures JsNumber(Some(s)) == Finite(v) && PyFloat(s) == Some(v)
  {
  }

  /** Where the two trims agree on a non-blank cell, `Number` and `float`
      accept the same literals with the same value. */
  lemma JsNumberPyFloatAgree(s: string)
    requires Trim(s) == Strip(s) != []
    ensures JsNumber(Some(s)).Finite? <==> PyFloat(s).Some?
    ensures PyFloat(s).Some? ==> JsNumber(Some(s)) == Finite(PyFloat(s).value)
  {
  }

  /** A cell with a leading byte-order mark before a digit string is a
      number to JavaScript and an error to Python. */
  lemma ByteOrderMarkSplitsParsers(d: string)
    requires |d| > 0 && AllDigits(d)
    ensures JsNumber(Some(['\U{FEFF}'] + d)) == Finite(DigitsValue(d) as real)
    ensures PyFloat(['\U{FEFF}'] + d) == None
  {
    assert IsDigit(d[0]) && IsDigit(d[|d| - 1]);
    TrimsDifferOnByteOrderMark(d);
    DigitsDecimal(d);
    ByteOrderMarkIsNoDigit(d);
    JsNumberOfTrim(['\U{FEFF}'] + d, d, DigitsValue(d) as real);
    PyFloatRejects(['\U{FEFF}'] + d);
  }

  lemma ByteOrderMarkIsNoDigit(d: string)
    requires AllDigits(d)
    ensures ParseDecimal(['\U{FEFF}'] + d) == None
  {
    var s := ['\U{FEFF}'] + d;
    assert s[1..] == d;
    assert '.' !in d;
    assert '.' !in s;
    assert !IsDigit(s[0]);
  }

  /** `Number` reads the literal its trim leaves. */
  lemma JsNumberOfTrim(s: string, t: string, v: real)
    requires Trim(s) == t != [] && ParseDecimal(t) == Some(v)
    ensures JsNumber(Some(s)) == Finite(v)
  {
  }

  /** `float` rejects non-empty text without surrounding space that is no literal. */
  lemma PyFloatRejects(s: string)
    requires s != [] && Strip(s) == s && ParseDecimal(s) == None
    ensures PyFloat(s) == None
  {
  }

  /** JavaScript `Math.round`: the integer nearest to `x`, halves rounded up. */
  function JsRound(x: real): (r: int)
    ensures x - 0.5 < r as real <= x + 0.5
  {
    (x + 0.5).Floor
  }

  /** Python `round(x)`: the integer nearest to `x`, halves rounded to even. */
  function PyRound(x: real): (r: int)
    ensures x - 0.5 <= r as real <= x + 0.5
    ensures (r as real == x + 0.5 || r as real == x - 0.5) ==> r % 2 == 0
  {
    var f := x.Floor;
    var d := x - f as real;
    if d < 0.5 then f
    else if d > 0.5 then f + 1
    else if f % 2 == 0 then f
    else f + 1
  }

  /** The two roundings agree except on exact halves, where they differ by one. */
  lemma RoundingsAgreeOffHalves(x: real)
    ensures JsRound(x) == PyRound(x) || (x - (x.Floor as real) == 0.5 && JsRound(x) == PyRound(x) + 1)
  {
  }

  function Min(a: int, b: int): int { if a <= b then a else b }

  function Max(a: int, b: int): int { if a <= b then b else a }

  /** `Math.min(hi, Math.max(lo, x))`. */
  function Clamp(lo: int, hi: int, x: int): (r: int)
    requires lo <= hi
    ensures lo <= r <= hi
    ensures lo <= x <= hi ==> r == x
    ensures x < lo ==> r == lo
    ensures x > hi ==> r == hi
  {
    if x < lo then lo else if x > hi then hi else x
  }

  /** `min(hi, max(lo, x))` on reals. */
  function ClampReal(lo: real, hi: real, x: real): (r: real)
    requires lo <= hi
    ensures lo <= r <= hi
    ensures lo <= x <= hi ==> r == x
    ensures x < lo ==> r == lo
    ensures x > hi ==> r == hi
  {
    if x < lo then lo else if x > hi then hi else x
  }

  /** JavaScript `String(n)` / Python `str(n)` of a natural: its decimal
      digits without leading zeros. */
  function NatToDecimal(n: nat): (r: string)
    ensures |r| >= 1 && AllDigits(r)
    ensures |r| > 1 ==> r[0] != '0'
    ensures DigitsValue(r) == n
  {
    if n < 10 then [DigitChar(n)]
    else
      var front := NatToDecimal(n / 10);
      var r := front + [DigitChar(n % 10)];
      assert r[..|r| - 1] == front;
      r
  }

  /** The decimal form of a natural parses back to it. */
  lemma {:induction false} NatToDecimalRoundTrip(n: nat)
    ensures ParseDecimal(NatToDecimal(n)) == Some(n as real)
    ensures PyFloat(NatToDecimal(n)) == Some(n as real)
  {
    DigitsParse(NatToDecimal(n));
  }

  /** JavaScript `s.padStart(width, "0")`. */
  function PadZero(s: string, width: nat): (r: string)
    ensures |r| == if |s| >= width then |s| else width
    ensures r[|r| - |s|..] == s
    ensures forall i :: 0 <= i < |r| - |s| ==> r[i] == '0'
  {
    var zeros := seq(if |s| >= width then 0 else width - |s|, _ => '0');
    var r := zeros + s;
    assert r[|zeros|..] == s;
    r
  }

  lemma DigitCharOfValue(c: char)
    requires IsDigit(c)
    ensures DigitChar(DigitValue(c)) == c
  {
  }

  lemma DivModTen(a: nat, b: nat)
    requires b < 10
    ensures (10 * a + b) / 10 == a && (10 * a + b) % 10 == b
  {
  }

  lemma TwoDigitValue(d: string)
    requires |d| == 2 && AllDigits(d)
    ensures DigitsValue(d) == 10 * DigitValue(d[0]) + DigitValue(d[1])
  {
    var p := d[..1];
    assert p[..0] == [] && p[0] == d[0];
    assert DigitsValue(p) == DigitValue(d[0]);
    assert d[..|d| - 1] == p;
  }

  lemma SingleDigitText(c: char)
    requires IsDigit(c)
    ensures NatToDecimal(DigitValue(c)) == [c]
  {
    DigitCharOfValue(c);
  }

  lemma TwoDigitText(c0: char, c1: char)
    requires IsDigit(c0) && IsDigit(c1) && c0 != '0'
    ensures NatToDecimal(10 * DigitValue(c0) + DigitValue(c1)) == [c0, c1]
  {
    var a, b := DigitValue(c0), DigitValue(c1);
    DivModTen(a, b);
    SingleDigitText(c0);
    DigitCharOfValue(c1);
  }

  lemma OneDigitNormalForm(d: string)
    requires |d| == 1 && AllDigits(d)
    ensures PadZero(NatToDecimal(DigitsValue(d)), 2) == "0" + d
  {
    assert d[..0] == [];
    assert DigitsValue(d) == DigitValue(d[0]);
    SingleDigitText(d[0]);
    assert [d[0]] == d;
    PadOneDigit(d[0]);
  }

  lemma PadOneDigit(c: char)
    ensures PadZero([c], 2) == ['0', c]
  {
    var r := PadZero([c], 2);
    assert r[1..] == [c] && r[0] == '0';
  }

  lemma TwoDigitsNormalForm(d: string)
    requires |d| == 2 && AllDigits(d)
    ensures PadZero(NatToDecimal(DigitsValue(d)), 2) == d
  {
    assert d == [d[0], d[1]];
    TwoDigitValue(d);
    if d[0] == '0' {
      SingleDigitText(d[1]);
      PadOneDigit(d[1]);
    } else {
      TwoDigitText(d[0], d[1]);
    }
  }

  /** `String(parseInt(d, 10)).padStart(2, "0")` on a one- or two-digit
      string: the digits themselves, with a zero in front of a single digit. */
  lemma TwoDigitNormalForm(d: string)
    requires 1 <= |d| <= 2 && AllDigits(d)
    ensures PadZero(NatToDecimal(DigitsValue(d)), 2) == if |d| == 1 then "0" + d else d
  {
    if |d| == 1 {
      OneDigitNormalForm(d);
    } else {
      TwoDigitsNormalForm(d);
    }
  }

  /** Python `int(x)` on a float: truncation toward zero. */
  function TruncToInt(x: real): (r: int)
    ensures x >= 0.0 ==> 0.0 <= r as real <= x < r as real + 1.0
    ensures x < 0.0 ==> r as real - 1.0 < x <= r as real <= 0.0
  {
    if x >= 0.0 then x.Floor else -((-x).Floor)
  }
}
