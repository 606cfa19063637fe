/** Python's `int()` and `float()` of a string, as far as a drill file needs
    them: surrounding ASCII whitespace, an optional sign, decimal digits and,
    for `float()`, one decimal point. Results are exact; `float()` rounding to
    the nearest double is not modelled. */
module Numerals {
  import opened Wrappers

  /** The ASCII characters Python strips around a number: tab to carriage
      return, the four separators 0x1C..0x1F, and space. */
  predicate IsSpace(c: char) {
    '\t' <= c <= '\r' || '\U{1C}' <= c <= '\U{1F}' || c == ' '
  }

  predicate IsDigit(c: char) {
    '0' <= c <= '9'
  }

  predicate AllDigits(s: string) {
    forall i :: 0 <= i < |s| ==> IsDigit(s[i])
  }

  function TrimLeft(s: string): (r: string)
    ensures r == [] || !IsSpace(r[0])
  {
    if s != [] && IsSpace(s[0]) then TrimLeft(s[1..]) else s
  }

  function TrimRight(s: string): (r: string)
    ensures r == [] || !IsSpace(r[|r| - 1])
  {
    if s != [] && IsSpace(s[|s| - 1]) then TrimRight(s[..|s| - 1]) else s
  }

  /** `str.strip()` on the whitespace above. */
  function Strip(s: string): string {
    TrimRight(TrimLeft(s))
  }

  function Pow10(k: nat): (p: nat)
    ensures p >= 1
  {
    if k == 0 then 1 else 10 * Pow10(k - 1)
  }

  function DigitValue(c: char): nat
    requires IsDigit(c)
  {
    c as int - '0' as int
  }

  function DigitChar(d: nat): (c: char)
    requires d < 10
    ensures IsDigit(c) && DigitValue(c) == d
  {
    ('0' as int + d) as char
  }

  /** The value of a run of decimal digits, most significant first. */
  function DigitsValue(ds: string): nat
    requires AllDigits(ds)
  {
    if ds == [] then 0 else 10 * DigitsValue(ds[..|ds| - 1]) + DigitValue(ds[|ds| - 1])
  }

  /** An optional sign and what follows it. */
  function Signed(s: string): (bool, string) {
    if s != [] && (s[0] == '-' || s[0] == '+') then (s[0] == '-', s[1..]) else (false, s)
  }

  /** `int(s)` in base 10: `None` stands for the ValueError. */
  function ParseInt(s: string): Option<int> {
    var (neg, body) := Signed(Strip(s));
    if body != [] && AllDigits(body) then
      Some(if neg then -(DigitsValue(body) as int) else DigitsValue(body))
    else None
  }

  /** The position of the first '.' in `s`, or |s| when there is none. */
  function Point(s: string): (k: nat)
    ensures k <= |s|
    ensures forall i :: 0 <= i < k ==> s[i] != '.'
    ensures k < |s| ==> s[k] == '.'
  {
    if s == [] || s[0] == '.' then 0 else 1 + Point(s[1..])
  }

  /** `float(s)` for digits with at most one decimal point and at least one
      digit in all ("5." and ".5" read): `None` stands for the ValueError. */
  function ParseFloat(s: string): Option<real> {
    var (neg, body) := Signed(Strip(s));
    var k := Point(body);
    var whole := body[..k];
    var frac := if k < |body| then body[k + 1..] else [];
    if AllDigits(whole) && AllDigits(frac) && |whole| + |frac| > 0 then
      Some(if neg then -Decimal(whole, frac) else Decimal(whole, frac))
    else None
  }

  /** The value of whole digits and fraction digits either side of a point. */
  function Decimal(whole: string, frac: string): real
    requires AllDigits(whole) && AllDigits(frac)
  {
    DigitsValue(whole) as real + DigitsValue(frac) as real / Pow10(|frac|) as real
  }

  /** `n` as exactly `w` decimal digits, zero-padded on the left. */
  function Pad(n: nat, w: nat): (s: string)
    requires n < Pow10(w)
    ensures |s| == w && AllDigits(s)
  {
    if w == 0 then [] else Pad(n / 10, w - 1) + [DigitChar(n % 10)]
  }

  /** `n` in decimal without leading zeros, as `str(n)` writes it. */
  function Digits(n: nat): (s: string)
    ensures s != [] && AllDigits(s)
  {
    if n < 10 then [DigitChar(n)] else Digits(n / 10) + [DigitChar(n % 10)]
  }

  /** `str(i)` for any integer. */
  function Show(i: int): string {
    if i < 0 then "-" + Digits(-i) else Digits(i)
  }

  lemma {:induction false} PadValue(n: nat, w: nat)
    requires n < Pow10(w)
    ensures DigitsValue(Pad(n, w)) == n
  {
    if w > 0 {
      PadValue(n / 10, w - 1);
      var s := Pad(n, w);
      assert s[..|s| - 1] == Pad(n / 10, w - 1);
    }
  }

  lemma {:induction false} DigitsOf(n: nat)
    ensures DigitsValue(Digits(n)) == n
  {
    if n >= 10 {
      DigitsOf(n / 10);
      var s := Digits(n);
      assert s[..|s| - 1] == Digits(n / 10);
    }
  }

  /** A string that neither starts nor ends with whitespace survives `Strip`. */
  lemma StripTight(s: string)
    requires s == [] || (!IsSpace(s[0]) && !IsSpace(s[|s| - 1]))
    ensures Strip(s) == s
  {
  }

  /** Trailing whitespace does not matter to `Strip`. */
  lemma {:induction false} StripTrailing(s: string, ws: string)
    requires forall i :: 0 <= i < |ws| ==> IsSpace(ws[i])
    requires s != [] && !IsSpace(s[0])
    ensures Strip(s + ws) == TrimRight(s)
    decreases |ws|
  {
    if ws == [] {
      assert s + ws == s;
    } else {
      var t := s + ws[..|ws| - 1];
      assert s + ws == t + [ws[|ws| - 1]];
      assert TrimLeft(s + ws) == s + ws;
      assert TrimLeft(t) == t;
      StripTrailing(s, ws[..|ws| - 1]);
    }
  }

  /** `int()` of plain digits is their value ... */
  lemma ParseDigits(s: string)
    requires s != [] && AllDigits(s)
    ensures ParseInt(s) == Some(DigitsValue(s) as int)
  {
    assert IsDigit(s[0]) && IsDigit(s[|s| - 1]);
    StripTight(s);
    assert Signed(s) == (false, s);
  }

  /** ... and of a minus sign and digits, the negated value. */
  lemma ParseNegative(s: string)
    requires s != [] && AllDigits(s)
    ensures ParseInt("-" + s) == Some(-(DigitsValue(s) as int))
  {
    var t := "-" + s;
    assert t[0] == '-' && t[1..] == s;
    assert t[|t| - 1] == s[|s| - 1];
    assert IsDigit(s[|s| - 1]);
    StripTight(t);
    assert Signed(t) == (true, s);
  }

  /** `int()` reads a zero-padded field back. */
  lemma ParsePad(n: nat, w: nat)
    requires n < Pow10(w) && w > 0
    ensures ParseInt(Pad(n, w)) == Some(n)
  {
    ParseDigits(Pad(n, w));
    PadValue(n, w);
  }

  /** `int(str(i)) == i` for every integer. */
  lemma ParseShow(i: int)
    ensures ParseInt(Show(i)) == Some(i)
  {
    if i < 0 {
      ParseShowNegative(i);
    } else {
      ParseShowNatural(i);
    }
  }

  lemma ParseShowNegative(i: int)
    requires i < 0
    ensures ParseInt("-" + Digits(-i)) == Some(i)
  {
    ParseNegative(Digits(-i));
    DigitsOf(-i);
  }

  lemma ParseShowNatural(n: nat)
    ensures ParseInt(Digits(n)) == Some(n)
  {
    ParseDigits(Digits(n));
    DigitsOf(n);
  }

  /** The value of a decimal written as whole digits, a point and a
      zero-padded fraction of `k` digits. */
  lemma DecimalOf(a: nat, b: nat, k: nat)
    requires b < Pow10(k)
    ensures Decimal(Digits(a), Pad(b, k)) == a as real + b as real / Pow10(k) as real
  {
    var w, f := Digits(a), Pad(b, k);
    DigitsOf(a);
    PadValue(b, k);
    assert DigitsValue(w) as real == a as real;
    assert DigitsValue(f) as real == b as real;
    assert Pow10(|f|) == Pow10(k);
  }

  /** `float()` of whole digits, a point and fraction digits, then a newline. */
  lemma ParseFraction(whole: string, frac: string)
    requires whole != [] && AllDigits(whole) && AllDigits(frac)
    ensures ParseFloat(whole + "." + frac + "\n") == Some(Decimal(whole, frac))
  {
    var body := whole + "." + frac;
    assert body + "\n" == whole + "." + frac + "\n";
    StripLine(body);
    assert body[0] == whole[0];
    assert Signed(body) == (false, body);
    PointAt(whole, frac);
    assert body[..|whole|] == whole;
    assert body[|whole| + 1..] == frac;
  }

  /** The newline `readlines` keeps is stripped: a body with no whitespace at
      either end is what remains. */
  lemma StripLine(body: string)
    requires body != [] && !IsSpace(body[0]) && !IsSpace(body[|body| - 1])
    ensures Strip(body + "\n") == body
  {
    StripTrailing(body, "\n");
  }

  lemma PointAt(whole: string, frac: string)
    requires AllDigits(whole)
    ensures Point(whole + "." + frac) == |whole|
  {
    var body := whole + "." + frac;
    assert body[|whole|] == '.';
  }
}
