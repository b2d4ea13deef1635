/**
 * Fixed-width unsigned integers of the reader and the shift arithmetic on
 * tile coordinates. Dafny integers are unbounded, so each width is a subset
 * type and each truncation is written out.
 */
module Ints {

  const U8_LIMIT: nat := 0x100
  const U32_LIMIT: nat := 0x1_0000_0000
  const U64_LIMIT: nat := 0x1_0000_0000_0000_0000

  type u8 = n: int | 0 <= n < U8_LIMIT
  type u32 = n: int | 0 <= n < U32_LIMIT
  type u64 = n: int | 0 <= n < U64_LIMIT

  /** 2^k */
  function Pow2(k: nat): (r: nat)
    ensures r >= 1
  {
    if k == 0 then 1 else 2 * Pow2(k - 1)
  }

  /** 4^k, the quadtree area of a tile k levels above the finest one. */
  function Pow4(k: nat): (r: nat)
    ensures r >= 1
  {
    if k == 0 then 1 else 4 * Pow4(k - 1)
  }

  /** Rust's `as u32` on a length: keeps the low 32 bits. */
  function TruncU32(n: nat): (r: u32)
    ensures n < U32_LIMIT ==> r == n
  {
    n % U32_LIMIT
  }

  /** `a >> k` on an unsigned value: the bits shifted out are lost. */
  function Shr(a: nat, k: nat): (r: nat)
    ensures r * Pow2(k) <= a < r * Pow2(k) + Pow2(k)
  {
    DivNonNegative(a, Pow2(k));
    DivBlock(a, Pow2(k));
    a / Pow2(k)
  }

  /** The quotient of naturals is a natural; stated apart so that `Shr` need not derive it among its nonlinear facts. */
  lemma DivNonNegative(a: nat, d: nat)
    requires d >= 1
    ensures a / d >= 0
  {
  }

  /** `a << k` on a u32: the bits shifted past bit 31 are lost. A shift by 32 or more is out of range in Rust. */
  function Shl(a: u32, k: nat): (r: u32)
    requires k < 32
    ensures a * Pow2(k) < U32_LIMIT ==> r == a * Pow2(k)
  {
    (a * Pow2(k)) % U32_LIMIT
  }

  lemma {:induction false} Pow2Add(a: nat, b: nat)
    ensures Pow2(a + b) == Pow2(a) * Pow2(b)
  {
    if a > 0 {
      Pow2Add(a - 1, b);
      assert Pow2(a + b) == 2 * Pow2(a - 1 + b);
    }
  }

  lemma {:induction false} Pow2Monotone(a: nat, b: nat)
    requires a <= b
    ensures Pow2(a) <= Pow2(b)
  {
    if a < b {
      Pow2Monotone(a, b - 1);
    }
  }

  lemma Pow2At16()
    ensures Pow2(16) == 0x1_0000
  {
    assert Pow2(4) == 16;
    Pow2Add(4, 4);
    Pow2Add(8, 8);
  }

  lemma {:induction false} Pow4Monotone(a: nat, b: nat)
    requires a <= b
    ensures Pow4(a) <= Pow4(b)
  {
    if a < b {
      Pow4Monotone(a, b - 1);
    }
  }

  lemma MulMonotone(a: nat, b: nat, d: nat)
    requires a <= b
    ensures a * d <= b * d
  {
  }

  /** The quotient is the unique q with q * d <= a < q * d + d. */
  lemma DivUnique(a: nat, d: nat, q: nat)
    requires d > 0
    requires q * d <= a < q * d + d
    ensures a / d == q
  {
    var q', r' := a / d, a % d;
    assert a == q' * d + r' && 0 <= r' < d;
    if q' < q {
      MulMonotone(q' + 1, q, d);
      assert false;
    } else if q' > q {
      MulMonotone(q + 1, q', d);
      assert false;
    }
  }

  /** A value below p * n has a quotient by p below n. */
  lemma DivBelow(c: nat, p: nat, n: nat)
    requires p > 0 && c < p * n
    ensures c / p < n
  {
    var q := c / p;
    assert q * p <= c;
    if q >= n {
      MulMonotone(n, q, p);
      assert false;
    }
  }

  /** Every value lies in the block of its quotient. */
  lemma DivBlock(c: nat, p: nat)
    requires p > 0
    ensures (c / p) * p <= c < (c / p) * p + p
  {
  }

  /** `a + b` on u32 in a release build: the carry out of bit 31 is lost. */
  function WrappingAdd(a: u32, b: u32): (r: u32)
    ensures a + b < U32_LIMIT ==> r == a + b
    ensures a + b >= U32_LIMIT ==> r == a + b - U32_LIMIT
  {
    (a + b) % U32_LIMIT
  }

  /** Wrapping addition of truncated values is truncation of the sum. */
  lemma WrappingAddTrunc(a: nat, b: nat)
    ensures WrappingAdd(TruncU32(a), TruncU32(b)) == TruncU32(a + b)
  {
    var m := U32_LIMIT;
    var qa, ra := a / m, a % m;
    var qb, rb := b / m, b % m;
    assert a + b == (qa + qb) * m + (ra + rb);
    if ra + rb < m {
      DivUnique(a + b, m, qa + qb);
      DivUnique(ra + rb, m, 0);
    } else {
      DivUnique(a + b, m, qa + qb + 1);
      DivUnique(ra + rb, m, 1);
    }
  }
}
