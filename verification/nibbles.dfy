/** Hexadecimal digits of a 32-bit word, and the shift-and-mask idiom the
    annotation font uses to read them: shift left by four bits per step and take
    bits 28..31 of the (unbounded) result. */
module Nibbles {

  function Pow16(k: nat): (p: nat)
    ensures p >= 1
  {
    if k == 0 then 1 else 16 * Pow16(k - 1)
  }

  /** `(s & 0xF0000000) >> 28`: the top nibble of the low 32 bits. */
  function Top(s: nat): (n: nat)
    ensures n < 16
  {
    (s % 0x1_0000_0000) / 0x1000_0000
  }

  /** Hex digit `k` of a word counted from the most significant end (k = 0). */
  function Digit(code: nat, k: nat): (n: nat)
    requires k < 8
    ensures n < 16
  {
    (code / Pow16(7 - k)) % 16
  }

  /** After `k` four-bit shifts the top nibble of a 32-bit word is its digit `k`:
      the bits shifted past bit 31 are never masked off, but never read either. */
  lemma NibbleIsDigit(code: nat, k: nat)
    requires code < 0x1_0000_0000 && k < 8
    ensures Top(code * Pow16(k)) == Digit(code, k)
  {
    WindowSize(k);
    Window(code, Pow16(7 - k), Pow16(k));
  }

  /** The digit's place value times the shift is always bit 28. */
  lemma WindowSize(k: nat)
    requires k < 8
    ensures Pow16(7 - k) * Pow16(k) == 0x1000_0000
  {
    PowAdd(k, 7 - k);
    assert Pow16(7) == 0x1000_0000;
  }

  lemma {:induction false} PowAdd(a: nat, b: nat)
    ensures Pow16(a + b) == Pow16(a) * Pow16(b)
  {
    if a > 0 {
      PowAdd(a - 1, b);
      assert Pow16(a + b) == 16 * Pow16(a - 1 + b);
    }
  }

  /** Splits `code` around the digit that lands in the top nibble after the shift. */
  lemma Window(code: nat, D: nat, P: nat)
    requires D >= 1 && P >= 1 && D * P == 0x1000_0000
    ensures Top(code * P) == (code / D) % 16
  {
    var b := (code / D) % 16;
    var c := code % D;
    var h := code / D / 16;
    assert code == (h * 16 + b) * D + c;
    Expand(h, b, c, D, P);
    BelowWindow(c, D, P);
    TopOf(code * P, h, b, c * P);
  }

  lemma TopOf(s: nat, h: int, b: int, low: int)
    requires 0 <= b < 16 && 0 <= low < 0x1000_0000
    requires s == h * 0x1_0000_0000 + (b * 0x1000_0000 + low)
    ensures Top(s) == b
  {
    DivModUnique(s, 0x1_0000_0000, h, b * 0x1000_0000 + low);
    DivModUnique(b * 0x1000_0000 + low, 0x1000_0000, b, low);
  }

  lemma Expand(h: int, b: int, c: int, D: int, P: int)
    requires D * P == 0x1000_0000
    ensures ((h * 16 + b) * D + c) * P == h * 0x1_0000_0000 + (b * 0x1000_0000 + c * P)
  {
    assert ((h * 16 + b) * D + c) * P == (h * 16 + b) * (D * P) + c * P;
    assert (h * 16 + b) * (D * P) == h * 16 * (D * P) + b * (D * P);
  }

  lemma BelowWindow(c: nat, D: nat, P: nat)
    requires c < D && P >= 1
    ensures c * P < D * P
  {
    assert D * P - c * P == (D - c) * P;
    AtLeastOnce(D - c, P);
  }

  lemma DivModUnique(x: int, m: int, q: int, r: int)
    requires m > 0 && 0 <= r < m && x == q * m + r
    ensures x / m == q && x % m == r
  {
    var q', r' := x / m, x % m;
    assert (q' - q) * m == r - r' by {
      assert q' * m - q * m == (q' - q) * m;
    }
    if q' > q {
      AtLeastOnce(q' - q, m);
    }
    if q' < q {
      AtLeastOnce(q - q', m);
    }
  }

  lemma AtLeastOnce(a: int, m: int)
    requires a >= 1 && m > 0
    ensures a * m >= m
  {
    assert a * m == (a - 1) * m + m;
  }

  /** Number of digits from `k` on that have bit 3 set (the font's draw commands). */
  function DrawDigits(code: nat, k: nat): nat
    requires k <= 8
    decreases 8 - k
  {
    if k == 8 then 0 else (if Digit(code, k) >= 8 then 1 else 0) + DrawDigits(code, k + 1)
  }

  lemma {:induction false} ZeroHasNoDraws(k: nat)
    requires k <= 8
    ensures DrawDigits(0, k) == 0
    decreases 8 - k
  {
    if k < 8 {
      ZeroHasNoDraws(k + 1);
    }
  }
}
