/** Decimal numerals: Python's `int(str)`, `float(str)` (on decimal text,
    read as an exact rational), `str(int)` and the zero-padded integer
    format `f"{n:0w}"`. */
module Numerals {
  import opened Wrappers
  import opened Strings

  predicate IsDigit(c: char) { '0' <= c <= '9' }

  predicate AllDigits(s: string) {
    forall i :: 0 <= i < |s| ==> IsDigit(s[i])
  }

  function DigitValue(c: char): nat
    requires IsDigit(c)
  {
    c as int - '0' as int
  }

  function DigitChar(d: nat): (c: char)
    requires d < 10
    ensures IsDigit(c) && DigitValue(c) == d
  {
    ('0' as int + d) as char
  }

  function Pow10(n: nat): (p: nat)
    ensures p >= 1
  {
    if n == 0 then 1 else 10 * Pow10(n - 1)
  }

  /** The value of a string of decimal digits, most significant first. */
  function DigitsValue(s: string): nat
    requires AllDigits(s)
  {
    if s == [] then 0 else 10 * DigitsValue(s[..|s| - 1]) + DigitValue(s[|s| - 1])
  }

  /** Python's `str(n)` for `n >= 0`: the shortest decimal numeral. */
  function NatToString(n: nat): (r: string)
    ensures |r| >= 1 && AllDigits(r)
    ensures DigitsValue(r) == n
    ensures r[0] == '0' ==> r == "0"
  {
    if n < 10 then [DigitChar(n)]
    else
      var prefix := NatToString(n / 10);
      var r := prefix + [DigitChar(n % 10)];
      assert r[..|r| - 1] == prefix;
      r
  }

  /** Python's `str(n)`. */
  function IntToString(n: int): string {
    if n < 0 then "-" + NatToString(-n) else NatToString(n)
  }

  /** A numeral below `10^k` has at most `k` digits. */
  lemma {:induction false} NatToStringLength(n: nat, k: nat)
    requires 1 <= k && n < Pow10(k)
    ensures |NatToString(n)| <= k
  {
    if n >= 10 {
      NatToStringLength(n / 10, k - 1);
    }
  }

  function Zeros(k: nat): (r: string)
    ensures |r| == k && AllDigits(r) && DigitsValue(r) == 0
    ensures forall i :: 0 <= i < k ==> r[i] == '0'
  {
    if k == 0 then []
    else
      var r := Zeros(k - 1) + ['0'];
      assert r[..k - 1] == Zeros(k - 1);
      r
  }

  /** Left-pads with zeros to width `w`. */
  function ZeroPad(s: string, w: nat): (r: string)
    ensures |r| == if |s| >= w then |s| else w
    ensures r[|r| - |s|..] == s
    ensures forall i :: 0 <= i < |r| - |s| ==> r[i] == '0'
  {
    if |s| >= w then s else Zeros(w - |s|) + s
  }

  /** Leading zeros do not change the value of a numeral. */
  lemma {:induction false} DigitsValueLeadingZeros(z: string, s: string)
    requires AllDigits(z) && AllDigits(s)
    requires forall i :: 0 <= i < |z| ==> z[i] == '0'
    ensures AllDigits(z + s) && DigitsValue(z + s) == DigitsValue(s)
  {
    if s == [] {
      assert z + s == z;
      ZerosValue(z);
    } else {
      var s' := s[..|s| - 1];
      assert (z + s)[..|z + s| - 1] == z + s';
      DigitsValueLeadingZeros(z, s');
    }
  }

  lemma {:induction false} ZerosValue(z: string)
    requires forall i :: 0 <= i < |z| ==> z[i] == '0'
    ensures AllDigits(z) && DigitsValue(z) == 0
  {
    if z != [] {
      ZerosValue(z[..|z| - 1]);
    }
  }

  /** Python's `f"{n:0{w}}"`: the sign, then the digits zero-padded so that
      the whole field is at least `w` characters wide. */
  function FormatInt(n: int, w: nat): string {
    if n < 0 then "-" + ZeroPad(NatToString(-n), if w > 0 then w - 1 else 0)
    else ZeroPad(NatToString(n), w)
  }

  /** A non-negative value below `10^w` fills a width-`w` field exactly, and
      the field reads back as the value. */
  lemma FormatIntExact(n: nat, w: nat)
    requires 1 <= w && n < Pow10(w)
    ensures |FormatInt(n, w)| == w && AllDigits(FormatInt(n, w))
    ensures DigitsValue(FormatInt(n, w)) == n
  {
    NatToStringLength(n, w);
    FormatIntReadsBack(n, w);
  }

  /** For `n >= 0` the field is all digits, at least `w` wide, and reads back
      as `n`. */
  lemma FormatIntReadsBack(n: nat, w: nat)
    ensures |FormatInt(n, w)| >= w && AllDigits(FormatInt(n, w))
    ensures DigitsValue(FormatInt(n, w)) == n
  {
    var d := NatToString(n);
    var r := FormatInt(n, w);
    if |d| < w {
      DigitsValueLeadingZeros(Zeros(w - |d|), d);
    }
  }

  /** Python's `int(s)` on a string: surrounding whitespace, an optional sign
      and at least one decimal digit; None stands for the ValueError. */
  function ParseInt(s: string): (r: Option<int>)
    ensures r.Some? && AllDigits(Strip(s)) ==> r.value >= 0
  {
    var t := Strip(s);
    if |t| > 0 && (t[0] == '-' || t[0] == '+') then
      var u := t[1..];
      if |u| > 0 && AllDigits(u) then
        Some(if t[0] == '-' then -(DigitsValue(u) as int) else DigitsValue(u))
      else None
    else if |t| > 0 && AllDigits(t) then Some(DigitsValue(t))
    else None
  }

  /** `int(str(n)) == n`. */
  lemma ParseIntRoundTrip(n: int)
    ensures ParseInt(IntToString(n)) == Some(n)
  {
    var s := IntToString(n);
    assert !IsSpace(s[0]) && !IsSpace(s[|s| - 1]);
    StripCharsUnchanged(s, IsSpace);
    if n < 0 {
      assert s[1..] == NatToString(-n);
    }
  }

  /** A string of digits, possibly surrounded by whitespace, is read as its
      value. */
  lemma ParseIntDigits(s: string)
    requires |Strip(s)| > 0 && AllDigits(Strip(s))
    ensures ParseInt(s) == Some(DigitsValue(Strip(s)))
  {
  }

  /** The index of the first character of `s` that is in `cs`, or `|s|`. */
  function IndexOf(s: string, cs: set<char>): (k: nat)
    ensures k <= |s| && (k < |s| ==> s[k] in cs)
    ensures forall i :: 0 <= i < k ==> s[i] !in cs
  {
    if s == [] then 0
    else if s[0] in cs then 0
    else 1 + IndexOf(s[1..], cs)
  }

  /** `digits[.digits]` or `.digits`, with at least one digit, as an exact
      rational. */
  function ParseMantissa(m: string): Option<real> {
    var d := IndexOf(m, {'.'});
    var whole := m[..d];
    var frac := if d < |m| then m[d + 1..] else "";
    if AllDigits(whole) && AllDigits(frac) && |whole| + |frac| > 0 then
      assert AllDigits(whole + frac);
      Some((DigitsValue(whole + frac) as real) / (Pow10(|frac|) as real))
    else None
  }

  /** An exponent: an optional sign and at least one digit. */
  function ParseExponent(e: string): Option<int> {
    if |e| > 0 && (e[0] == '-' || e[0] == '+') then
      var u := e[1..];
      if |u| > 0 && AllDigits(u) then
        Some(if e[0] == '-' then -(DigitsValue(u) as int) else DigitsValue(u))
      else None
    else if |e| > 0 && AllDigits(e) then Some(DigitsValue(e))
    else None
  }

  function Scale(x: real, e: int): real {
    if e >= 0 then x * (Pow10(e) as real) else x / (Pow10(-e) as real)
  }

  /** An unsigned decimal: a mantissa, then an optional exponent after `e`
      or `E`. */
  function ParseUnsigned(u: string): Option<real> {
    var k := IndexOf(u, {'e', 'E'});
    var mantissa :- ParseMantissa(u[..k]);
    var exponent :- if k < |u| then ParseExponent(u[k + 1..]) else Some(0);
    Some(Scale(mantissa, exponent))
  }

  /** Python's `float(s)` on decimal text: surrounding whitespace, an optional
      sign, a mantissa with an optional fraction, an optional exponent. The
      value is exact; None stands for the ValueError. */
  function ParseFloat(s: string): Option<real> {
    var t := Strip(s);
    var u := if |t| > 0 && (t[0] == '-' || t[0] == '+') then t[1..] else t;
    var x :- ParseUnsigned(u);
    Some(if |t| > 0 && t[0] == '-' then -x else x)
  }

  /** Text that starts with a digit and does not end in whitespace is read
      without a sign. */
  lemma ParseFloatUnsigned(s: string)
    requires |s| > 0 && IsDigit(s[0]) && !IsSpace(s[|s| - 1])
    ensures ParseFloat(s) == ParseUnsigned(s)
  {
    StripCharsUnchanged(s, IsSpace);
  }

  /** Text with no `e` or `E` is a bare mantissa. */
  lemma ParseUnsignedNoExponent(u: string)
    requires forall i :: 0 <= i < |u| ==> u[i] != 'e' && u[i] != 'E'
    ensures ParseUnsigned(u) == ParseMantissa(u)
  {
    var k := IndexOf(u, {'e', 'E'});
    assert k == |u|;
    assert u[..k] == u;
    ScaleByOne(ParseMantissa(u).GetOr(0.0));
  }

  lemma ScaleByOne(x: real)
    ensures Scale(x, 0) == x
  {
    assert Pow10(0) == 1;
  }

  /** A mantissa without a point is a whole number. */
  lemma ParseMantissaWhole(m: string)
    requires |m| > 0 && AllDigits(m)
    ensures ParseMantissa(m) == Some(DigitsValue(m) as real)
  {
    var d := IndexOf(m, {'.'});
    assert d == |m|;
    assert m[..d] == m;
    assert m + "" == m;
    assert Pow10(0) == 1;
  }

  /** A mantissa `w.f` is the decimal fraction it spells. */
  lemma ParseMantissaPoint(w: string, f: string)
    requires AllDigits(w) && AllDigits(f) && |w| + |f| > 0
    ensures AllDigits(w + f)
    ensures var x := ParseMantissa(w + "." + f);
      x.Some? && x.value == (DigitsValue(w + f) as real) / (Pow10(|f|) as real)
  {
    var m := w + "." + f;
    var d := IndexOf(m, {'.'});
    assert forall i :: 0 <= i < |w| ==> m[i] == w[i];
    assert m[|w|] == '.';
    assert d == |w|;
    assert m[..d] == w;
    assert m[d + 1..] == f;
  }

  /** `float(str(n)) == n` for a natural number. */
  lemma ParseFloatNat(n: nat)
    ensures ParseFloat(NatToString(n)) == Some(n as real)
  {
    var s := NatToString(n);
    ParseFloatUnsigned(s);
    forall i | 0 <= i < |s| ensures s[i] != 'e' && s[i] != 'E' {
      assert IsDigit(s[i]);
    }
    ParseUnsignedNoExponent(s);
    ParseMantissaWhole(s);
  }

  /** `float(w + "." + f)` for digit strings `w` and `f` is the exact decimal
      `w.f`. */
  lemma ParseFloatDecimal(w: string, f: string)
    requires |w| > 0 && AllDigits(w) && AllDigits(f)
    ensures AllDigits(w + f)
    ensures var x := ParseFloat(w + "." + f);
      x.Some? && x.value == (DigitsValue(w + f) as real) / (Pow10(|f|) as real)
  {
    var s := w + "." + f;
    assert ParseFloat(s) == ParseMantissa(s) by {
      DecimalTextIsMantissa(w, f);
    }
    ParseMantissaPoint(w, f);
  }

  /** A decimal `w.f` has no sign, no surrounding space and no exponent. */
  lemma DecimalTextIsMantissa(w: string, f: string)
    requires |w| > 0 && AllDigits(w) && AllDigits(f)
    ensures ParseFloat(w + "." + f) == ParseMantissa(w + "." + f)
  {
    var s := w + "." + f;
    assert s[0] == w[0];
    assert !IsSpace(s[|s| - 1]) by {
      if |f| > 0 { assert s[|s| - 1] == f[|f| - 1]; } else { assert s[|s| - 1] == '.'; }
    }
    ParseFloatUnsigned(s);
    forall i | 0 <= i < |s| ensures s[i] != 'e' && s[i] != 'E' {
      if i < |w| { assert s[i] == w[i]; assert IsDigit(w[i]); }
      else if i > |w| { assert s[i] == f[i - |w| - 1]; assert IsDigit(f[i - |w| - 1]); }
    }
    ParseUnsignedNoExponent(s);
  }
}
