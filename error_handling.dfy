/** Small helpers of the error-handling header: the abort primitive and the
    mip-level count of a texture. */
module ErrorHandling {

  /** `u32` of the source. */
  type U32 = x: int | 0 <= x < 0x1_0000_0000

  /** `ASSERT_PANIC(expr)`: the process aborts unless `expr` holds, so a
      caller that continues past it may rely on it; it has no other effect.
      `panic` itself is unreachable in a verified caller and is modelled by
      the preconditions of the operations that call it. */
  method AssertPanic(cond: bool)
    requires cond
  {
  }

  function Pow2(n: nat): (p: nat)
    ensures p >= 1
  {
    if n == 0 then 1 else 2 * Pow2(n - 1)
  }

  /** The number of significant bits of `d`: 0 for 0, else 1 + the index of
      the highest set bit. */
  function BitLength(d: nat): nat
  {
    if d == 0 then 0 else 1 + BitLength(d / 2)
  }

  lemma {:induction false} Pow2Monotone(m: nat, n: nat)
    requires m <= n
    ensures Pow2(m) <= Pow2(n)
  {
    if m < n {
      Pow2Monotone(m, n - 1);
    }
  }

  /** The bit length brackets its argument between two powers of two. */
  lemma {:induction false} BitLengthBounds(d: nat)
    ensures d < Pow2(BitLength(d))
    ensures d > 0 ==> BitLength(d) >= 1 && Pow2(BitLength(d) - 1) <= d
  {
    if d > 0 {
      BitLengthBounds(d / 2);
    }
  }

  /** A number between 2^n and 2^(n+1) has exactly n + 1 bits. */
  lemma {:induction false} BitLengthExact(d: nat, n: nat)
    requires Pow2(n) <= d < Pow2(n + 1)
    ensures BitLength(d) == n + 1
  {
    if n > 0 {
      BitLengthExact(d / 2, n - 1);
    }
  }

  /** A number below 2^n has at most n bits. */
  lemma {:induction false} BitLengthBelow(d: nat, n: nat)
    requires d < Pow2(n)
    ensures BitLength(d) <= n
  {
    if d > 0 {
      BitLengthBelow(d / 2, n - 1);
    }
  }

  /** The bit length never decreases as the argument grows. */
  lemma {:induction false} BitLengthMonotone(a: nat, b: nat)
    requires a <= b
    ensures BitLength(a) <= BitLength(b)
  {
    if a > 0 {
      BitLengthMonotone(a / 2, b / 2);
    }
  }

  lemma {:induction false} MulLe(a: int, b: int, m: nat)
    requires a <= b
    ensures a * m <= b * m
  {
    if m > 0 {
      MulLe(a, b, m - 1);
      assert a * m == a * (m - 1) + a && b * m == b * (m - 1) + b;
    }
  }

  /** Quotient and remainder are the only decomposition with a remainder
      below the divisor. */
  lemma DivModUnique(d: nat, m: nat, q: nat, r: nat)
    requires m > 0 && r < m && d == q * m + r
    ensures d / m == q && d % m == r
  {
    var q', r' := d / m, d % m;
    assert d == q' * m + r';
    assert (q + 1) * m == q * m + m && (q' + 1) * m == q' * m + m;
    if q' > q {
      MulLe(q + 1, q', m);
    } else if q' < q {
      MulLe(q' + 1, q, m);
    }
  }

  lemma Distrib(a: int, b: int, p: int)
    ensures (2 * a + b) * p == a * (2 * p) + b * p
  {
  }

  /** Reducing modulo 2^(i+1) keeps the low i bits and adds bit i. */
  lemma ModSplit(d: nat, i: nat)
    ensures d % Pow2(i + 1) == d % Pow2(i) + Pow2(i) * ((d / Pow2(i)) % 2)
  {
    var p := Pow2(i);
    var q, r := d / p, d % p;
    var a, b := q / 2, q % 2;
    assert d == q * p + r;
    assert q == 2 * a + b;
    Distrib(a, b, p);
    assert d == a * (2 * p) + (b * p + r);
    MulLe(b, 1, p);
    DivModUnique(d, 2 * p, a, b * p + r);
  }

  lemma {:induction false} Pow2Add(a: nat, b: nat)
    ensures Pow2(a + b) == Pow2(a) * Pow2(b)
  {
    if a > 0 {
      Pow2Add(a - 1, b);
    }
  }

  lemma Pow2Of32()
    ensures Pow2(32) == 0x1_0000_0000
  {
    assert Pow2(4) == 16;
    Pow2Add(4, 4);
    Pow2Add(8, 8);
    Pow2Add(16, 16);
  }

  lemma LowBitsStep(d: nat, i: nat)
    ensures BitLength(d % Pow2(i + 1))
         == if (d / Pow2(i)) % 2 != 0 then i + 1 else BitLength(d % Pow2(i))
  {
    ModSplit(d, i);
    if (d / Pow2(i)) % 2 != 0 {
      BitLengthExact(d % Pow2(i + 1), i);
    }
  }

  /** `get_mip_levels(width, height)`: scans the 32 bits of
      `max(width, height)` and keeps 1 + the index of the highest one set. */
  method GetMipLevels(width: U32, height: U32) returns (mipLevels: U32)
    ensures mipLevels == BitLength(if width < height then height else width)
    ensures mipLevels == 0 <==> width == 0 && height == 0
    ensures mipLevels <= 32
  {
    var bigDim := if width < height then height else width;
    mipLevels := 0;
    var i := 0;
    while i < 32
      invariant 0 <= i <= 32
      invariant mipLevels == BitLength(bigDim % Pow2(i))
    {
      // `(big_dim & (1u << i)) != 0u`: bit i of big_dim is set
      if (bigDim / Pow2(i)) % 2 != 0 {
        mipLevels := i + 1;
      }
      LowBitsStep(bigDim, i);
      i := i + 1;
    }
    Pow2Of32();
    DivModUnique(bigDim, Pow2(32), 0, bigDim);
    BitLengthBelow(bigDim, 32);
  }

  /** The mip count of the larger side: what `GetMipLevels` returns. */
  function MipLevels(width: nat, height: nat): nat {
    BitLength(if width < height then height else width)
  }

  /** Only the larger side matters, so the arguments commute. */
  lemma MipLevelsSymmetric(width: nat, height: nat)
    ensures MipLevels(width, height) == MipLevels(height, width)
  {
  }

  /** For a non-empty image with r levels, 2^(r-1) <= max(w, h) < 2^r. */
  lemma MipLevelsBracket(width: nat, height: nat)
    requires width > 0 || height > 0
    ensures MipLevels(width, height) >= 1
    ensures Pow2(MipLevels(width, height) - 1) <= (if width < height then height else width)
    ensures (if width < height then height else width) < Pow2(MipLevels(width, height))
  {
    BitLengthBounds(if width < height then height else width);
  }

  /** A larger image never has fewer levels. */
  lemma MipLevelsMonotone(w1: nat, h1: nat, w2: nat, h2: nat)
    requires (if w1 < h1 then h1 else w1) <= (if w2 < h2 then h2 else w2)
    ensures MipLevels(w1, h1) <= MipLevels(w2, h2)
  {
    BitLengthMonotone(if w1 < h1 then h1 else w1, if w2 < h2 then h2 else w2);
  }
}
