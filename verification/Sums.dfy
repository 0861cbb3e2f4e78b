/** Finite sums of integers and of reals. */
module Sums {
  import opened Arith

  function Sum(n: nat, f: nat -> int): int {
    if n == 0 then 0 else Sum(n - 1, f) + f(n - 1)
  }

  lemma {:induction false} SumExt(n: nat, f: nat -> int, g: nat -> int)
    requires forall i: nat | i < n :: f(i) == g(i)
    ensures Sum(n, f) == Sum(n, g)
  {
    if n > 0 {
      SumExt(n - 1, f, g);
    }
  }

  lemma {:induction false} SumZero(n: nat, f: nat -> int)
    requires forall i: nat | i < n :: f(i) == 0
    ensures Sum(n, f) == 0
  {
    if n > 0 {
      SumZero(n - 1, f);
    }
  }

  /** A sum with one term that can be non-zero. */
  lemma {:induction false} SumSingle(n: nat, f: nat -> int, k: nat)
    requires k < n && forall i: nat | i < n && i != k :: f(i) == 0
    ensures Sum(n, f) == f(k)
  {
    if k == n - 1 {
      SumZero(n - 1, f);
    } else {
      SumSingle(n - 1, f, k);
    }
  }

  /** A sum over `m` blocks of `n` is a sum of sums. */
  lemma {:induction false} SumBlocks(m: nat, n: nat, f: nat -> int, g: nat -> (nat -> int), h: nat -> int)
    requires forall i: nat, j: nat | i < m && j < n :: f(i * n + j) == g(i)(j)
    requires forall i: nat | i < m :: h(i) == Sum(n, g(i))
    ensures Sum(m * n, f) == Sum(m, h)
    decreases m
  {
    if m == 0 {
      assert m * n == 0;
    } else {
      SumBlocks(m - 1, n, f, g, h);
      SumTail((m - 1) * n, n, f, g(m - 1));
      assert m * n == (m - 1) * n + n;
    }
  }

  lemma {:induction false} SumTail(a: nat, n: nat, f: nat -> int, h: nat -> int)
    requires forall j: nat | j < n :: f(a + j) == h(j)
    ensures Sum(a + n, f) == Sum(a, f) + Sum(n, h)
    decreases n
  {
    if n > 0 {
      SumTail(a, n - 1, f, h);
      assert f(a + (n - 1)) == h(n - 1);
    }
  }

  function RSum(n: nat, f: nat -> real): real {
    if n == 0 then 0.0 else RSum(n - 1, f) + f(n - 1)
  }

  lemma {:induction false} RSumExt(n: nat, f: nat -> real, g: nat -> real)
    requires forall i: nat | i < n :: f(i) == g(i)
    ensures RSum(n, f) == RSum(n, g)
  {
    if n > 0 {
      RSumExt(n - 1, f, g);
    }
  }

  lemma {:induction false} RSumScale(n: nat, f: nat -> real, g: nat -> real, a: real)
    requires forall i: nat | i < n :: g(i) == a * f(i)
    ensures RSum(n, g) == a * RSum(n, f)
  {
    if n > 0 {
      RSumScale(n - 1, f, g, a);
      assert a * (RSum(n - 1, f) + f(n - 1)) == a * RSum(n - 1, f) + a * f(n - 1);
    }
  }

  /** `p` reaches every index below `n`, and `q` says from where. */
  ghost predicate Permutes(n: nat, p: nat -> nat, q: nat -> nat) {
    forall i: nat | i < n :: p(i) < n && q(i) < n && q(p(i)) == i && p(q(i)) == i
  }

  /** `f` with position `a` blanked out. */
  function Without(f: nat -> real, a: nat): nat -> real {
    (i: nat) => if i == a then 0.0 else f(i)
  }

  lemma {:induction false} RSumWithout(n: nat, f: nat -> real, a: nat)
    requires a < n
    ensures RSum(n, f) == RSum(n, Without(f, a)) + f(a)
  {
    if a == n - 1 {
      RSumExt(n - 1, f, Without(f, a));
    } else {
      RSumWithout(n - 1, f, a);
    }
  }

  /** A sum does not depend on the order of its terms. The first `m` positions of `g` list, through `p`, all the
      positions of `f` that are not zero. */
  lemma {:induction false} RSumReorder(n: nat, m: nat, f: nat -> real, g: nat -> real, p: nat -> nat, q: nat -> nat)
    requires m <= n && Permutes(n, p, q)
    requires forall k: nat | k < m :: g(k) == f(p(k))
    requires forall i: nat | i < n && q(i) >= m :: f(i) == 0.0
    ensures RSum(m, g) == RSum(n, f)
    decreases m
  {
    if m == 0 {
      RSumZero(n, f);
    } else {
      var a := p(m - 1);
      RSumWithout(n, f, a);
      RSumReorder(n, m - 1, Without(f, a), g, p, q);
    }
  }

  lemma {:induction false} RSumZero(n: nat, f: nat -> real)
    requires forall i: nat | i < n :: f(i) == 0.0
    ensures RSum(n, f) == 0.0
  {
    if n > 0 {
      RSumZero(n - 1, f);
    }
  }

  lemma {:induction false} RSumSingle(n: nat, f: nat -> real, k: nat)
    requires k < n && forall i: nat | i < n && i != k :: f(i) == 0.0
    ensures RSum(n, f) == f(k)
  {
    if k == n - 1 {
      RSumZero(n - 1, f);
    } else {
      RSumSingle(n - 1, f, k);
    }
  }

  lemma {:induction false} RSumPermute(n: nat, f: nat -> real, g: nat -> real, p: nat -> nat, q: nat -> nat)
    requires Permutes(n, p, q) && forall k: nat | k < n :: g(k) == f(p(k))
    ensures RSum(n, g) == RSum(n, f)
  {
    RSumReorder(n, n, f, g, p, q);
  }
}
