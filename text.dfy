/** The handful of Python string operations the generator relies on:
    `str(n)` for a non-negative integer, `int(s)` on a decimal string,
    `s.zfill(w)`, `s.split(sep)`, `s.startswith(prefix)` and `sep.join(parts)`. */
module Text {
  import opened Wrappers

  predicate IsDigit(c: char) { '0' <= c <= '9' }

  predicate AllDigits(s: string) { forall i :: 0 <= i < |s| ==> IsDigit(s[i]) }

  function Digit(d: nat): (c: char)
    requires d < 10
    ensures IsDigit(c) && c as int - '0' as int == d
  {
    ('0' as int + d) as char
  }

  /** Python's `str(n)` (and `'%i' % n`) for a non-negative integer. */
  function NatToString(n: nat): (s: string)
    ensures |s| >= 1 && AllDigits(s)
  {
    if n < 10 then [Digit(n)] else NatToString(n / 10) + [Digit(n % 10)]
  }

  /** The value of a string of decimal digits, most significant first. */
  function DigitsValue(s: string): nat
    requires AllDigits(s)
  {
    if s == [] then 0 else 10 * DigitsValue(s[..|s| - 1]) + (s[|s| - 1] as int - '0' as int)
  }

  /** Python's `int(s)` on an unsigned decimal string, `None` for every
      other string. `int` itself also accepts a sign, surrounding
      whitespace and `_` between digits; this model does not. */
  function ParseNat(s: string): (r: Option<nat>)
    ensures r.Some? <==> |s| > 0 && AllDigits(s)
  {
    if |s| > 0 && AllDigits(s) then Some(DigitsValue(s)) else None
  }

  lemma {:induction false} DigitsValueOfNatToString(n: nat)
    ensures DigitsValue(NatToString(n)) == n
  {
    if n >= 10 {
      var s := NatToString(n);
      assert s[..|s| - 1] == NatToString(n / 10);
      DigitsValueOfNatToString(n / 10);
    }
  }

  /** `int(str(n)) == n`. */
  lemma ParseNatToString(n: nat)
    ensures ParseNat(NatToString(n)) == Some(n)
  {
    DigitsValueOfNatToString(n);
  }

  function Zeros(k: nat): (s: string)
    ensures |s| == k && forall i :: 0 <= i < k ==> s[i] == '0'
  {
    if k == 0 then [] else Zeros(k - 1) + ['0']
  }

  /** Python's `s.zfill(w)` for a string without a sign: pad on the left with
      '0' up to width `w`; a string already that wide is kept. */
  function ZFill(s: string, w: nat): (r: string)
    ensures |r| == if |s| >= w then |s| else w
    ensures r[|r| - |s|..] == s
    ensures forall i :: 0 <= i < |r| - |s| ==> r[i] == '0'
  {
    if |s| >= w then s else Zeros(w - |s|) + s
  }

  lemma {:induction false} ZerosValue(k: nat)
    ensures AllDigits(Zeros(k)) && DigitsValue(Zeros(k)) == 0
  {
    if k > 0 {
      assert Zeros(k)[..k - 1] == Zeros(k - 1);
      ZerosValue(k - 1);
    }
  }

  /** Leading zeros do not change the value read by `int`. */
  lemma {:induction false} LeadingZerosValue(k: nat, s: string)
    requires AllDigits(s)
    ensures AllDigits(Zeros(k) + s) && DigitsValue(Zeros(k) + s) == DigitsValue(s)
  {
    if s == [] {
      assert Zeros(k) + s == Zeros(k);
      ZerosValue(k);
    } else {
      var t := Zeros(k) + s;
      assert t[..|t| - 1] == Zeros(k) + s[..|s| - 1];
      LeadingZerosValue(k, s[..|s| - 1]);
    }
  }

  /** `int(str(n).zfill(w)) == n`: the three-digit card numbers read back. */
  lemma ParseZFill(n: nat, w: nat)
    ensures ParseNat(ZFill(NatToString(n), w)) == Some(n)
  {
    var s := NatToString(n);
    DigitsValueOfNatToString(n);
    if |s| < w {
      LeadingZerosValue(w - |s|, s);
    }
  }

  /** Python's `s.split(c)` for a one-character separator. */
  function Split(s: string, c: char): (parts: seq<string>)
    ensures |parts| >= 1
  {
    if |s| == 0 then [""]
    else
      var init := Split(s[..|s| - 1], c);
      if s[|s| - 1] == c then init + [""]
      else init[..|init| - 1] + [init[|init| - 1] + [s[|s| - 1]]]
  }

  /** A string without the separator splits into itself alone. */
  lemma {:induction false} SplitNoSeparator(d: string, c: char)
    requires c !in d
    ensures Split(d, c) == [d]
  {
    if |d| > 0 {
      assert d[..|d| - 1] + [d[|d| - 1]] == d;
      SplitNoSeparator(d[..|d| - 1], c);
    }
  }

  /** Splitting `p + c + d`, with `c` not in `d`, ends in the segment `d`. */
  lemma {:induction false} SplitAppend(p: string, c: char, d: string)
    requires c !in d
    ensures Split(p + [c] + d, c) == Split(p, c) + [d]
  {
    var s := p + [c] + d;
    if d == [] {
      assert s[..|s| - 1] == p;
    } else {
      var d' := d[..|d| - 1];
      assert s[..|s| - 1] == p + [c] + d';
      SplitAppend(p, c, d');
      assert d' + [d[|d| - 1]] == d;
    }
  }

  predicate StartsWith(s: string, prefix: string) {
    |prefix| <= |s| && s[..|prefix|] == prefix
  }

  function Last<T>(parts: seq<T>): T
    requires |parts| > 0
  {
    parts[|parts| - 1]
  }

  /** Python's `sep.join(parts)`. */
  function Join(sep: string, parts: seq<string>): (r: string)
    ensures parts == [] ==> r == ""
    ensures |parts| == 1 ==> r == parts[0]
  {
    if parts == [] then ""
    else if |parts| == 1 then parts[0]
    else Join(sep, parts[..|parts| - 1]) + sep + parts[|parts| - 1]
  }

  function Pow10(k: nat): (r: nat)
    ensures r >= 1
  {
    if k == 0 then 1 else 10 * Pow10(k - 1)
  }

  /** `float(s)` on an unsigned decimal: digits, optionally a '.' and more
      digits, with at least one digit in all. */
  function ParseUnsignedReal(s: string): Option<real> {
    var parts := Split(s, '.');
    if |parts| == 1 then
      if |s| > 0 && AllDigits(s) then Some(DigitsValue(s) as real) else None
    else if |parts| == 2 && AllDigits(parts[0]) && AllDigits(parts[1]) && |parts[0]| + |parts[1]| > 0 then
      Some(DigitsValue(parts[0]) as real + DigitsValue(parts[1]) as real / Pow10(|parts[1]|) as real)
    else None
  }

  /** Python's `float(s)` on a plain decimal with an optional sign, `None`
      for every other text. `float` itself also accepts exponents (`1e2`),
      surrounding whitespace, `inf`, `nan` and `_` between digits; this
      model treats those as malformed, and its value is the exact decimal,
      not the nearest binary double. */
  function ParseReal(s: string): Option<real> {
    if |s| > 0 && (s[0] == '-' || s[0] == '+') then
      match ParseUnsignedReal(s[1..])
      case None => None
      case Some(x) => Some(if s[0] == '-' then -x else x)
    else ParseUnsignedReal(s)
  }

  /** `float(str(n)) == n` and `float('-' + str(n)) == -n`. */
  lemma ParseRealOfNat(n: nat)
    ensures ParseReal(NatToString(n)) == Some(n as real)
    ensures ParseReal("-" + NatToString(n)) == Some(-(n as real))
  {
    var s := NatToString(n);
    assert '.' !in s;
    SplitNoSeparator(s, '.');
    DigitsValueOfNatToString(n);
    assert IsDigit(s[0]);
    assert ("-" + s)[1..] == s;
  }
}
