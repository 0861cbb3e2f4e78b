/** Facts about multiplication and division that index arithmetic needs. */
module Arith {

  lemma {:induction false} DivModUnique(q: nat, r: nat, n: nat)
    requires r < n
    ensures (q * n + r) / n == q && (q * n + r) % n == r
  {
    var x := q * n + r;
    var q', r' := x / n, x % n;
    assert x == q' * n + r' && 0 <= r' < n;
    if q' < q {
      MulLess(q' + 1, q, n);
    } else if q < q' {
      MulLess(q + 1, q', n);
    }
  }

  lemma MulLess(a: nat, b: nat, n: nat)
    requires a <= b
    ensures a * n <= b * n
  {
  }

  /** A digit in front of a number with `n` values stays below `m * n`. */
  lemma PairBound(i: nat, m: nat, j: nat, n: nat)
    requires i < m && j < n
    ensures i * n + j < m * n
  {
    MulLess(i + 1, m, n);
  }

  lemma DivBound(t: nat, m: nat, n: nat)
    requires n > 0 && t < m * n
    ensures t / n < m && t % n < n && t == t / n * n + t % n
  {
    if t / n >= m {
      MulLess(m, t / n, n);
    }
  }

  // Operations as functions, for proofs that only need their laws.

  function Times(x: int, y: int): int { x * y }

  function RTimes(x: real, y: real): real { x * y }

  lemma RSign(x: real, y: real)
    requires x >= 0.0 && y >= 0.0
    ensures x * y >= 0.0
  {
  }

  function Over(x: real, y: real): real
    requires y != 0.0
  {
    x / y
  }

  function Quotient(a: nat, n: nat): nat { if n == 0 then 0 else a / n }

  function Remainder(a: nat, n: nat): nat { if n == 0 then 0 else a % n }

  // 32-bit words.

  newtype int32 = x: int | -0x8000_0000 <= x < 0x8000_0000

  /** Two's complement truncation to 32 bits: what `arith.addi` and the accelerator's accumulator both do. */
  function Wrap32(x: int): int {
    (x + 0x8000_0000) % 0x1_0000_0000 - 0x8000_0000
  }

  predicate Fits(x: int) { -0x8000_0000 <= x < 0x8000_0000 }

  /** Arithmetic shift right: halving, rounding down, `k` times. */
  function Shr(x: int, k: nat): int {
    if k == 0 then x else Shr(x, k - 1) / 2
  }

  lemma {:induction false} ShrMonotone(x: int, y: int, k: nat)
    requires x <= y
    ensures Shr(x, k) <= Shr(y, k)
  {
    if k > 0 {
      ShrMonotone(x, y, k - 1);
    }
  }

  lemma {:induction false} ShrMore(x: nat, j: nat, k: nat)
    requires j <= k
    ensures 0 <= Shr(x, k) <= Shr(x, j) <= x
  {
    if j < k {
      ShrMore(x, j, k - 1);
    } else if k > 0 {
      ShrMore(x, j - 1, k - 1);
    }
  }

  lemma {:induction false} ShrHalf(x: int, k: nat)
    ensures Shr(x, k + 1) == Shr(x / 2, k)
  {
    if k > 0 {
      ShrHalf(x, k - 1);
    }
  }

  lemma ShrZero(x: int)
    ensures Shr(x, 0) == x
  {
  }

  function Pow2(k: nat): nat { if k == 0 then 1 else 2 * Pow2(k - 1) }

  /** Shifting right is dividing by the power of two, rounding down. */
  lemma {:induction false} ShrLaw(x: int, k: nat)
    ensures Shr(x, k) * Pow2(k) <= x < (Shr(x, k) + 1) * Pow2(k)
  {
    if k > 0 {
      ShrLaw(x, k - 1);
      var s, p := Shr(x, k - 1), Pow2(k - 1);
      HalfBetween(s, p);
    }
  }

  lemma HalfBetween(s: int, p: nat)
    ensures s / 2 * (2 * p) <= s * p && (s + 1) * p <= (s / 2 + 1) * (2 * p)
  {
    var h := s / 2;
    if s == 2 * h {
      assert s * p == h * (2 * p);
      assert (h + 1) * (2 * p) == (s + 1) * p + p;
    } else {
      assert s == 2 * h + 1;
      assert s * p == h * (2 * p) + p;
      assert (h + 1) * (2 * p) == (s + 1) * p;
    }
  }
}
