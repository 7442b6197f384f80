/** Bit positions of non-negative integers, and the division facts needed to
    reason about shifts and masks written as arithmetic. */
module Bits {

  function Pow2(i: nat): (p: nat)
    ensures p >= 1
  {
    if i == 0 then 1 else 2 * Pow2(i - 1)
  }

  /** The powers of two the byte and word flag rules use. */
  lemma Pow2Table()
    ensures Pow2(0) == 1 && Pow2(1) == 2 && Pow2(2) == 4 && Pow2(3) == 8
    ensures Pow2(4) == 16 && Pow2(5) == 32 && Pow2(6) == 64 && Pow2(7) == 128
    ensures Pow2(12) == 0x1000
  {
    assert Pow2(4) == 16 by {
      assert Pow2(1) == 2;
      assert Pow2(2) == 4;
      assert Pow2(3) == 8;
    }
    assert Pow2(7) == 128 by {
      assert Pow2(5) == 32;
      assert Pow2(6) == 64;
    }
    assert Pow2(12) == 0x1000 by {
      assert Pow2(8) == 256;
      assert Pow2(9) == 512;
      assert Pow2(10) == 1024;
      assert Pow2(11) == 2048;
    }
  }

  /** Powers of two multiply by adding exponents. */
  lemma {:induction false} Pow2Add(i: nat, j: nat)
    ensures Pow2(i) * Pow2(j) == Pow2(i + j)
  {
    if i > 0 {
      Pow2Add(i - 1, j);
      assert Pow2(i) * Pow2(j) == 2 * (Pow2(i - 1) * Pow2(j));
    }
  }

  /** True when bit `i` of `x` is set (`x & (1 << i) != 0`). */
  predicate BitSet(x: nat, i: nat)
  {
    (x / Pow2(i)) % 2 == 1
  }

  lemma MulAtLeast(a: nat, d: nat)
    requires a >= 1
    ensures a * d >= d
  {
    assert a * d == (a - 1) * d + d;
  }

  /** Quotient and remainder are unique. */
  lemma DivUnique(n: nat, d: nat, q: nat, r: nat)
    requires d > 0 && r < d && n == q * d + r
    ensures n / d == q && n % d == r
  {
    var q', r' := n / d, n % d;
    assert n == q' * d + r';
    if q' > q {
      assert (q' - q) * d == r - r' by { assert q' * d - q * d == (q' - q) * d; }
      MulAtLeast(q' - q, d);
    } else if q' < q {
      assert (q - q') * d == r' - r by { assert q * d - q' * d == (q - q') * d; }
      MulAtLeast(q - q', d);
    }
  }

  /** Shifting up by one place and filling bit 0 with `t`:
      (2 lo + t) / 2k == lo / k. */
  lemma ShiftUp(lo: nat, t: nat, k: nat)
    requires t < 2 && k >= 1
    ensures (lo * 2 + t) / (2 * k) == lo / k
  {
    var q, rr := lo / k, lo % k;
    assert lo * 2 + t == q * (2 * k) + (2 * rr + t) by {
      assert lo == q * k + rr;
    }
    DivUnique(lo * 2 + t, 2 * k, q, 2 * rr + t);
  }

  /** Adding a multiple of 2k to n does not change the parity of n / k. */
  lemma ParityOfQuotient(n: nat, m: nat, k: nat)
    requires k >= 1
    ensures ((m * (2 * k) + n) / k) % 2 == (n / k) % 2
  {
    var q, rr := n / k, n % k;
    assert m * (2 * k) + n == (2 * m + q) * k + rr by {
      assert n == q * k + rr;
      assert m * (2 * k) == (2 * m) * k;
    }
    DivUnique(m * (2 * k) + n, k, 2 * m + q, rr);
    DivUnique(2 * m + q, 2, m + q / 2, q % 2);
  }

  /** Bit 7 does not affect the bits below it: for k dividing 0x40,
      (hi * 0x80 + lo) / k and lo / k have the same parity. */
  lemma ClearTop(hi: nat, lo: nat, k: nat, j: nat)
    requires k >= 1 && j * k == 0x40
    ensures ((hi * 0x80 + lo) / k) % 2 == (lo / k) % 2
  {
    var m := hi * j;
    assert hi * 0x80 == m * (2 * k) by {
      assert m * (2 * k) == hi * (2 * (j * k));
    }
    ParityOfQuotient(lo, m, k);
  }
}
