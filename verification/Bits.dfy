/**
  Machine arithmetic used by the wire codec, written over mathematical integers:
  powers of two, bitwise or, bit length, shifts that drop high bits, and the
  two's complement reading of an unsigned word.
 */
module Bits {
  const TWO_31: nat := 0x8000_0000
  const TWO_32: nat := 0x1_0000_0000
  const TWO_63: nat := 0x8000_0000_0000_0000
  const TWO_64: nat := 0x1_0000_0000_0000_0000

  type uint32 = x: int | 0 <= x < 0x1_0000_0000
  type uint64 = x: int | 0 <= x < 0x1_0000_0000_0000_0000
  type int32 = x: int | -0x8000_0000 <= x < 0x8000_0000

  function Pow2(n: nat): (p: nat)
    ensures p > 0
  {
    if n == 0 then 1 else 2 * Pow2(n - 1)
  }

  lemma Pow2Words()
    ensures Pow2(7) == 128 && Pow2(32) == TWO_32 && Pow2(63) == TWO_63 && Pow2(64) == TWO_64
  {
    assert Pow2(7) == 128 && Pow2(8) == 256;
    assert Pow2(64) == 2 * Pow2(63);
    hide Pow2;
    Pow2Sum(8, 8);
    Pow2Sum(16, 16);
    Pow2Sum(32, 32);
  }

  lemma {:induction false} Pow2Sum(a: nat, b: nat)
    ensures Pow2(a + b) == Pow2(a) * Pow2(b)
  {
    if a > 0 {
      assert Pow2(a + b) == 2 * Pow2(a - 1 + b) && Pow2(a) == 2 * Pow2(a - 1);
      hide Pow2;
      Pow2Sum(a - 1, b);
      assert 2 * (Pow2(a - 1) * Pow2(b)) == (2 * Pow2(a - 1)) * Pow2(b);
    }
  }

  /** Bitwise or of two unbounded words. */
  function BitOr(x: nat, y: nat): nat {
    if x == 0 then y
    else if y == 0 then x
    else 2 * BitOr(x / 2, y / 2) + (if x % 2 == 1 || y % 2 == 1 then 1 else 0)
  }

  /** The number of bits of `x`; `math/bits.Len64` for words that fit 64 bits. */
  function BitLen(x: nat): nat {
    if x == 0 then 0 else 1 + BitLen(x / 2)
  }

  /** `x << s` in a word of `w` bits. */
  function Shl(x: nat, s: nat, w: nat): nat {
    (x * Pow2(s)) % Pow2(w)
  }

  /** The two's complement reading of the low 64 bits: a Go `int`. */
  function ToSigned64(x: nat): int {
    var r := x % TWO_64;
    if r < TWO_63 then r else r - TWO_64
  }

  /** The two's complement reading of the low 32 bits: a Go `int32`. */
  function ToSigned32(x: nat): int32 {
    var r := x % TWO_32;
    if r < TWO_31 then r else r - TWO_32
  }

  /** `uint64(x)` for a signed `x`: negative numbers are sign-extended. */
  function ToUnsigned64(x: int): uint64
    requires -0x8000_0000_0000_0000 <= x < 0x1_0000_0000_0000_0000
  {
    if x < 0 then x + TWO_64 else x
  }

  /** Or-ing in bits above the ones in use is addition. */
  lemma {:induction false} BitOrDisjoint(x: nat, y: nat, k: nat)
    requires x < Pow2(k)
    ensures BitOr(x, y * Pow2(k)) == x + y * Pow2(k)
  {
    if k > 0 && x > 0 && y > 0 {
      var z := y * Pow2(k);
      assert z == 2 * (y * Pow2(k - 1)) by {
        assert Pow2(k) == 2 * Pow2(k - 1);
        assert y * (2 * Pow2(k - 1)) == 2 * (y * Pow2(k - 1));
      }
      assert z > 0 by { Positive(y, Pow2(k)); }
      BitOrDisjoint(x / 2, y, k - 1);
    } else if y == 0 {
      assert y * Pow2(k) == 0;
    }
  }

  lemma Positive(a: nat, b: nat)
    requires a > 0 && b > 0
    ensures a * b > 0
  {}

  lemma {:induction false} BitOrOne(x: nat)
    requires x > 0
    ensures BitOr(x, 1) == (if x % 2 == 0 then x + 1 else x)
    ensures BitLen(BitOr(x, 1)) == BitLen(x)
  {
    assert BitOr(x, 1) == 2 * BitOr(x / 2, 0) + 1;
    assert BitOr(x, 1) / 2 == x / 2;
  }

  lemma {:induction false} BitLenAtMost(x: nat, n: nat)
    requires x < Pow2(n)
    ensures BitLen(x) <= n
  {
    if x > 0 {
      BitLenAtMost(x / 2, n - 1);
    }
  }

  /** `(x * p) % (p * q) == (x % q) * p`: truncating after a shift. */
  lemma ModScale(x: nat, p: nat, q: nat)
    requires p > 0 && q > 0
    ensures p * q > 0 && (x * p) % (p * q) == (x % q) * p
  {
    Positive(p, q);
    var d, r := x / q, x % q;
    assert x == d * q + r;
    assert x * p == d * (p * q) + r * p by { Regroup(x, d, q, r, p); }
    assert 0 <= r * p < p * q by {
      assert r * p <= (q - 1) * p by { MulMono(r, q - 1, p); }
      assert (q - 1) * p == q * p - p;
    }
    ModUnique(x * p, p * q, d, r * p);
  }

  lemma Regroup(x: nat, d: nat, q: nat, r: nat, p: nat)
    requires x == d * q + r
    ensures x * p == d * (p * q) + r * p
  {
    calc {
      x * p;
      (d * q + r) * p;
      (d * q) * p + r * p;
      d * (p * q) + r * p;
    }
  }

  lemma MulMono(a: int, b: int, c: nat)
    requires a <= b
    ensures a * c <= b * c
  {}

  lemma ModUnique(x: nat, n: nat, d: nat, r: nat)
    requires n > 0 && x == d * n + r && r < n
    ensures x % n == r
  {
    var d', r' := x / n, x % n;
    assert x == d' * n + r';
    if d' > d {
      MulStep(d, d', n);
    } else if d' < d {
      MulStep(d', d, n);
    }
  }

  lemma MulStep(a: int, b: int, n: nat)
    requires a < b
    ensures a * n + n <= b * n
  {
    MulMono(a + 1, b, n);
  }

  lemma Distribute(a: int, b: int, c: int)
    ensures (a + b) * c == a * c + b * c
  {}

  lemma Assoc(a: int, b: int, c: int)
    ensures (a * b) * c == a * (b * c)
  {}

  /** Adding a multiple of the word size does not show in the word. */
  lemma ModAbsorb(x: nat, k: nat, n: nat)
    requires n > 0 && x + k * n >= 0
    ensures (x + k * n) % n == x % n
  {
    var a, r := x / n, x % n;
    assert x == a * n + r;
    Distribute(a, k, n);
    ModUnique(x + k * n, n, a + k, r);
  }

  /** One round of a decode loop in a word of `w` bits: or-ing in the next seven
      bits at `shift` keeps the accumulator equal to the true sum mod `2^w`. */
  lemma OrShifted(acc: nat, d: nat, shift: nat, w: nat)
    requires acc < Pow2(shift)
    ensures BitOr(acc % Pow2(w), Shl(d, shift, w)) == (acc + d * Pow2(shift)) % Pow2(w)
  {
    if shift >= w {
      OrShiftedOff(acc, d, shift, w);
    } else {
      OrShiftedIn(acc, d, shift, w);
    }
  }

  lemma OrShiftedOff(acc: nat, d: nat, shift: nat, w: nat)
    requires shift >= w
    ensures BitOr(acc % Pow2(w), Shl(d, shift, w)) == (acc + d * Pow2(shift)) % Pow2(w)
  {
    var n, q := Pow2(w), d * Pow2(shift - w);
    Pow2Sum(shift - w, w);
    Assoc(d, Pow2(shift - w), n);
    assert d * Pow2(shift) == q * n;
    ModUnique(q * n, n, q, 0);
    ModAbsorb(acc, q, n);
  }

  lemma OrShiftedIn(acc: nat, d: nat, shift: nat, w: nat)
    requires acc < Pow2(shift) && shift < w
    ensures BitOr(acc % Pow2(w), Shl(d, shift, w)) == (acc + d * Pow2(shift)) % Pow2(w)
  {
    var p, q := Pow2(shift), Pow2(w - shift);
    Pow2Sum(shift, w - shift);
    ShlSplits(acc, d, p, q, Pow2(w));
    BitOrDisjoint(acc, d % q, shift);
  }

  lemma ShlSplits(acc: nat, d: nat, p: nat, q: nat, n: nat)
    requires p > 0 && q > 0 && n == p * q && acc < p
    ensures n > 0 && acc % n == acc
    ensures (d * p) % n == (d % q) * p
    ensures (acc + d * p) % n == acc + (d % q) * p
  {
    ModScale(d, p, q);
    var e, r := d / q, d % q;
    MulStep(r, q, p);
    assert r * p + p <= n;
    ModUnique(acc, n, 0, acc);
    assert d * p == e * n + r * p by { SplitProduct(d, e, q, r, p); }
    ModUnique(acc + d * p, n, e, acc + r * p);
  }

  lemma SplitProduct(d: int, e: int, q: int, r: int, p: int)
    requires d == e * q + r
    ensures d * p == e * (p * q) + r * p
  {
    Distribute(e * q, r, p);
    Assoc(e, q, p);
  }

  /** A signed 32-bit number survives sign extension to 64 bits and narrowing back. */
  lemma SignedRoundTrip(x: int32)
    ensures ToSigned32(ToUnsigned64(x)) == x
  {
    if x < 0 {
      ModUnique(x + TWO_64, TWO_32, 0xFFFF_FFFF, x + TWO_32);
    }
  }

  /** A field kept in 32 bits sees the same number whether or not the loop dropped
      the bits above 32 on the way. */
  lemma NarrowWords(x: nat)
    ensures x % Pow2(32) == x % TWO_32 && x % Pow2(64) == x % TWO_64
    ensures ToSigned32(x % Pow2(32)) == ToSigned32(x)
    ensures ToSigned64(x % Pow2(64)) == ToSigned64(x)
  {
    hide Pow2;
    Pow2Words();
  }
}
