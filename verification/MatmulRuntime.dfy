/** The matmul the CPU runtime carries out (the full-width case of `tiled_matmul_auto` in `runtime/gemmlir_rt_cpu.c`): three
    nested loops over arrays, with a 32-bit accumulator. It is what the programs of `BufferPrograms` mean by a matmul. */
module MatmulRuntime {
  import opened Arith
  import opened BufferPrograms
  import opened FoldRequantize
  import opened Sums
  import opened Wrappers

  /** Where row `i` of the left matrix has element `k`, and column `j` of the right one, either of them stored transposed. */
  function LeftAt(sh: MatShape, i: nat, k: nat): nat { if sh.transposeLhs then k * sh.m + i else i * sh.k + k }

  function RightAt(sh: MatShape, j: nat, k: nat): nat { if sh.transposeRhs then j * sh.k + k else k * sh.n + j }

  /** What one step adds: an element of row `i` times one of column `j`. */
  function Step(sh: MatShape, a: seq<int>, b: seq<int>, i: nat, j: nat, k: nat): int {
    At(a, LeftAt(sh, i, k)) * At(b, RightAt(sh, j, k))
  }

  function Start(sh: MatShape, bias: Option<seq<int>>, repeated: bool, i: nat, j: nat): int {
    if bias.None? then 0 else At(bias.value, (if repeated then 0 else i) * sh.n + j)
  }

  /** The element in row `i` and column `j`. */
  function Cell(sh: MatShape, a: seq<int>, b: seq<int>, bias: Option<seq<int>>, repeated: bool, i: nat, j: nat): int {
    Wrap32(Start(sh, bias, repeated, i, j) + Sum(sh.k, (k: nat) => Step(sh, a, b, i, j, k)))
  }

  lemma PlaceInside(m: nat, n: nat, i: nat, j: nat)
    requires i < m && j < n
    ensures i * n + j < m * n && (i * n + j) / n == i && (i * n + j) % n == j
  {
    PairBound(i, m, j, n);
    DivModUnique(i, j, n);
  }

  /** One accumulator. */
  method Accumulate(sh: MatShape, a: seq<int>, b: seq<int>, bias: Option<seq<int>>, repeated: bool, i: nat, j: nat) returns (acc: int)
    requires i < sh.m && j < sh.n && |a| >= sh.m * sh.k && |b| >= sh.k * sh.n
    requires bias.Some? ==> |bias.value| >= (if repeated then 1 else sh.m) * sh.n
    ensures acc == Cell(sh, a, b, bias, repeated, i, j)
  {
    hide Wrap32, Sum, Step, At, LeftAt, RightAt;
    assert Sum(0, (k: nat) => Step(sh, a, b, i, j, k)) == 0 by { SumNothing((k: nat) => Step(sh, a, b, i, j, k)); }
    acc := Wrap32(if bias.None? then 0 else At(bias.value, (if repeated then 0 else i) * sh.n + j));
    ghost var f := (k: nat) => Step(sh, a, b, i, j, k);
    for k := 0 to sh.k
      invariant acc == Wrap32(Start(sh, bias, repeated, i, j) + Sum(k, f))
    {
      StepInside(sh, i, j, k);
      var x, y := a[LeftAt(sh, i, k)], b[RightAt(sh, j, k)];
      StepIs(sh, a, b, i, j, k);
      acc := NextSum(acc, x * y, Start(sh, bias, repeated, i, j), f, k);
    }
  }

  lemma StepIs(sh: MatShape, a: seq<int>, b: seq<int>, i: nat, j: nat, k: nat)
    requires LeftAt(sh, i, k) < |a| && RightAt(sh, j, k) < |b|
    ensures Step(sh, a, b, i, j, k) == a[LeftAt(sh, i, k)] * b[RightAt(sh, j, k)]
  {
    hide LeftAt, RightAt;
  }

  lemma SumNothing(f: nat -> int)
    ensures Sum(0, f) == 0
  {
  }

  method NextSum(acc: int, term: int, start: int, ghost f: nat -> int, ghost k: nat) returns (next: int)
    requires acc == Wrap32(start + Sum(k, f)) && term == f(k)
    ensures next == Wrap32(start + Sum(k + 1, f))
  {
    hide Wrap32;
    Unwrap(start + Sum(k, f), term);
    next := Wrap32(acc + term);
  }

  lemma StepInside(sh: MatShape, i: nat, j: nat, k: nat)
    requires i < sh.m && j < sh.n && k < sh.k
    ensures LeftAt(sh, i, k) < sh.m * sh.k && RightAt(sh, j, k) < sh.k * sh.n
  {
    PairBound(k, sh.k, i, sh.m);
    PairBound(i, sh.m, k, sh.k);
    PairBound(j, sh.n, k, sh.k);
    PairBound(k, sh.k, j, sh.n);
  }

  /** The elements computed so far are in place, and the rest of the array is as it was. */
  ghost predicate Done(c: seq<int>, was: seq<int>, sh: MatShape, a: seq<int>, b: seq<int>, bias: Option<seq<int>>, repeated: bool, n: nat) {
    && |c| == |was| && n <= sh.m * sh.n <= |c|
    && (forall t: nat | t < n :: sh.n > 0 && c[t] == Cell(sh, a, b, bias, repeated, t / sh.n, t % sh.n))
    && forall t: nat | n <= t < |c| :: c[t] == was[t]
  }

  lemma DoneNone(was: seq<int>, sh: MatShape, a: seq<int>, b: seq<int>, bias: Option<seq<int>>, repeated: bool)
    requires sh.m * sh.n <= |was|
    ensures Done(was, was, sh, a, b, bias, repeated, 0)
  {
  }

  lemma DoneMore(c: seq<int>, was: seq<int>, sh: MatShape, a: seq<int>, b: seq<int>, bias: Option<seq<int>>, repeated: bool, i: nat, j: nat)
    requires i < sh.m && j < sh.n && Done(c, was, sh, a, b, bias, repeated, i * sh.n + j)
    ensures i * sh.n + j < |c|
    ensures Done(c[i * sh.n + j := Cell(sh, a, b, bias, repeated, i, j)], was, sh, a, b, bias, repeated, i * sh.n + j + 1)
  {
    hide Cell;
    PlaceInside(sh.m, sh.n, i, j);
  }

  lemma DoneAll(c: seq<int>, was: seq<int>, sh: MatShape, a: seq<int>, b: seq<int>, bias: Option<seq<int>>, repeated: bool)
    requires Done(c, was, sh, a, b, bias, repeated, sh.m * sh.n)
    ensures forall i: nat, j: nat | i < sh.m && j < sh.n :: i * sh.n + j < |c| && c[i * sh.n + j] == Cell(sh, a, b, bias, repeated, i, j)
    ensures |c| == |was| && forall t: nat | sh.m * sh.n <= t < |c| :: c[t] == was[t]
  {
    hide Cell;
    forall i: nat, j: nat | i < sh.m && j < sh.n ensures i * sh.n + j < |c| && c[i * sh.n + j] == Cell(sh, a, b, bias, repeated, i, j) {
      PlaceInside(sh.m, sh.n, i, j);
    }
  }

  /** The inner loop over the columns. */
  method FullRow(sh: MatShape, a: seq<int>, b: seq<int>, bias: Option<seq<int>>, repeated: bool, c: array<int>, i: nat, ghost was: seq<int>)
    requires |a| >= sh.m * sh.k && |b| >= sh.k * sh.n && i < sh.m
    requires bias.Some? ==> |bias.value| >= (if repeated then 1 else sh.m) * sh.n
    requires Done(c[..], was, sh, a, b, bias, repeated, i * sh.n)
    modifies c
    ensures Done(c[..], was, sh, a, b, bias, repeated, (i + 1) * sh.n)
  {
    hide Cell, Done;
    for j := 0 to sh.n
      invariant Done(c[..], was, sh, a, b, bias, repeated, i * sh.n + j)
    {
      var acc := Accumulate(sh, a, b, bias, repeated, i, j);
      ghost var before := c[..];
      DoneMore(before, was, sh, a, b, bias, repeated, i, j);
      c[i * sh.n + j] := acc;
      assert c[..] == before[i * sh.n + j := acc];
    }
  }

  method FullMatmul(sh: MatShape, a: seq<int>, b: seq<int>, bias: Option<seq<int>>, repeated: bool, c: array<int>)
    requires |a| >= sh.m * sh.k && |b| >= sh.k * sh.n && c.Length >= sh.m * sh.n
    requires bias.Some? ==> |bias.value| >= (if repeated then 1 else sh.m) * sh.n
    modifies c
    ensures forall i: nat, j: nat | i < sh.m && j < sh.n :: i * sh.n + j < c.Length && c[i * sh.n + j] == Cell(sh, a, b, bias, repeated, i, j)
    ensures forall t: nat | sh.m * sh.n <= t < c.Length :: c[t] == old(c[t])
  {
    hide Cell, Done;
    ghost var was := c[..];
    assert Done(c[..], was, sh, a, b, bias, repeated, 0) by { DoneNone(was, sh, a, b, bias, repeated); }
    for i := 0 to sh.m
      invariant Done(c[..], was, sh, a, b, bias, repeated, i * sh.n)
    {
      FullRow(sh, a, b, bias, repeated, c, i, was);
    }
    DoneAll(c[..], was, sh, a, b, bias, repeated);
  }

  function Held(bias: Option<BiasRef>, store: Store): Option<seq<int>> {
    if bias.None? then None else Some(store(Root(bias.value.value)))
  }

  /** Into memory of its own, that is what a matmul of the programs writes. */
  lemma {:induction false} MatMulIsFull(mm: Op, store: Store, i: nat, j: nat)
    requires mm.MatMul? && !mm.accumulate && i < mm.shape.m && j < mm.shape.n
    requires Root(mm.out) != Root(mm.lhs) && Root(mm.out) != Root(mm.rhs) && (mm.bias.Some? ==> Root(mm.out) != Root(mm.bias.value.value))
    ensures var sh := mm.shape;
      && i * sh.n + j < sh.m * sh.n
      && Computed(mm, store, sh.m * sh.n)[i * sh.n + j]
         == Cell(sh, store(Root(mm.lhs)), store(Root(mm.rhs)), Held(mm.bias, store), mm.bias.Some? && mm.bias.value.oneRow, i, j)
  {
    hide Computed;
    var sh, t := mm.shape, i * mm.shape.n + j;
    PlaceInside(sh.m, sh.n, i, j);
    ClearMatMul(mm, store, t);
    CellIsAccumulator(mm, store, i, j);
  }

  lemma {:induction false} CellIsAccumulator(mm: Op, store: Store, i: nat, j: nat)
    requires mm.MatMul? && i < mm.shape.m && j < mm.shape.n
    ensures Accumulator(mm.shape, mm.lhs, mm.rhs, mm.bias, store, i * mm.shape.n + j)
         == Cell(mm.shape, store(Root(mm.lhs)), store(Root(mm.rhs)), Held(mm.bias, store), mm.bias.Some? && mm.bias.value.oneRow, i, j)
  {
    hide Wrap32;
    var sh, t, a, b := mm.shape, i * mm.shape.n + j, store(Root(mm.lhs)), store(Root(mm.rhs));
    PlaceInside(sh.m, sh.n, i, j);
    SumExt(sh.k,
      (k: nat) => At(a, LhsIndex(sh, t / sh.n, k)) * At(b, RhsIndex(sh, k, t % sh.n)),
      (k: nat) => Step(sh, a, b, i, j, k));
  }
}
