/** `FoldRequantizeIntoMatmul`: a matmul into a temporary and the requantization that reads it become one scaled
    matmul where the requantization was. */
module FoldRequantize {
  import opened Arith
  import opened BufferPrograms
  import opened RequantizeTail
  import opened Rounding
  import opened Sums
  import opened Wrappers

  /** Making a reshape is not touching the memory it names. */
  predicate MakesReshape(op: Op) {
    op.View? && op.result.Reshape?
  }

  /** What `nextUseOfBuffer` stops at: an operation naming `base` by one of its reshapes. */
  predicate Touches(op: Op, base: Value) {
    !MakesReshape(op) && exists v | v in Operands(op) :: ReshapeBase(v) == base
  }

  /** `untouchedBetween` for one operation: it may read the values but is not known or able to write them. */
  predicate LeavesAlone(op: Op, values: seq<Value>) {
    forall v | v in values && v in Operands(op) :: WrittenOperands(op).Some? && v !in WrittenOperands(op).value
  }

  /** The operation that takes the place of the requantization. */
  function Fused(mm: Op, g: Op, r: Requant): Op
    requires mm.MatMul? && g.Requantize?
  {
    var bias := if g.channelBias.Some? then Some(BiasRef(g.channelBias.value, true)) else mm.bias;
    ScaledMatMul(mm.lhs, mm.rhs, g.dst, bias, mm.shape, r.scale, r.relu)
  }

  function Folded(ops: seq<Op>, at: nat, k: nat, r: Requant): seq<Op>
    requires at < k < |ops| && ops[at].MatMul? && ops[k].Requantize?
  {
    ops[..at] + ops[at + 1..k] + [Fused(ops[at], ops[k], r)] + ops[k + 1..]
  }

  /** No operation after the matmul uses the memory in its regions without naming it. */
  ghost predicate NotCaptured(ops: seq<Op>, at: nat, x: nat) {
    forall i, v | at < i < |ops| && ops[i].Other? && v in ops[i].captured :: Root(v) != x
  }

  /** Everything the rewrite checks before it folds the matmul at `at` into the requantization at `k`. */
  ghost predicate Accepted(ops: seq<Op>, at: nat, k: nat, r: Requant) {
    && at < k < |ops| && ops[at].MatMul? && ops[k].Requantize?
    && var mm, g := ops[at], ops[k];
      var base := ReshapeBase(mm.out);
      && !mm.accumulate && base.Alloc? && ReshapeBase(g.src) == base
      && (forall i | at < i < k :: !Touches(ops[i], base) && LeavesAlone(ops[i], [mm.lhs, mm.rhs]))
      && Recognition(g.body, g.channelBias.Some?) == Some(r)
      && g.columns == mm.shape.n
      && (g.channelBias.Some? ==> mm.bias.None?)
      && forall i | k < i < |ops| :: ops[i].Dealloc? || !Touches(ops[i], base)
  }

  /** `nextUseOfBuffer`. */
  method NextUseOfBuffer(ops: seq<Op>, at: nat, base: Value) returns (k: nat)
    requires at < |ops|
    ensures at < k <= |ops|
    ensures k < |ops| ==> Touches(ops[k], base)
    ensures forall i | at < i < k :: !Touches(ops[i], base)
  {
    k := at + 1;
    while k < |ops| && !Touches(ops[k], base)
      invariant at < k <= |ops|
      invariant forall i | at < i < k :: !Touches(ops[i], base)
    {
      k := k + 1;
    }
  }

  /** `untouchedBetween`. */
  method UntouchedBetween(ops: seq<Op>, from: nat, to: nat, values: seq<Value>) returns (untouched: bool)
    requires from < to < |ops|
    ensures untouched <==> forall i | from < i < to :: LeavesAlone(ops[i], values)
  {
    for i := from + 1 to to
      invariant forall j | from < j < i :: LeavesAlone(ops[j], values)
    {
      if !LeavesAlone(ops[i], values) {
        return false;
      }
    }
    return true;
  }

  /** `matchAndRewrite` of the fold. */
  method Fold(block: Block, at: nat) returns (folded: bool, ghost k: nat, ghost r: Requant)
    requires at < |block.ops| && block.ops[at].MatMul?
    modifies block
    ensures folded ==> Accepted(old(block.ops), at, k, r) && block.ops == Folded(old(block.ops), at, k, r)
    ensures !folded ==> block.ops == old(block.ops) && forall k, r :: !Accepted(old(block.ops), at, k, r)
  {
    var ops := block.ops;
    var mm := ops[at];
    folded, k, r := false, 0, Requant(1.0, false, false);
    if mm.accumulate {
      return;
    }
    var base := ReshapeBase(mm.out);
    if !base.Alloc? {
      return;
    }
    var next := NextUseOfBuffer(ops, at, base);
    if next == |ops| || !ops[next].Requantize? || ReshapeBase(ops[next].src) != base {
      return;
    }
    var g := ops[next];
    var untouched := UntouchedBetween(ops, at, next, [mm.lhs, mm.rhs]);
    if !untouched {
      return;
    }
    var matched := MatchRequantize(g.body, g.channelBias.Some?);
    // The result is written through the split of rows and columns the matmul already has.
    if matched.None? || g.columns != mm.shape.n || (g.channelBias.Some? && mm.bias.Some?) {
      return;
    }
    for i := next + 1 to |ops|
      invariant forall j | next < j < i :: ops[j].Dealloc? || !Touches(ops[j], base)
    {
      if !ops[i].Dealloc? && Touches(ops[i], base) {
        return;
      }
    }
    folded, k, r := true, next, matched.value;
    block.ops := ops[..at] + ops[at + 1..next] + [Fused(mm, g, matched.value)] + ops[next + 1..];
  }

  /** No window onto the temporary is made before the matmul. */
  ghost predicate NoEarlyWindow(ops: seq<Op>, at: nat, base: Value) {
    forall i | 0 <= i < at && i < |ops| && ops[i].View? && ops[i].result.Window? :: Root(ops[i].result) != Root(base)
  }

  /** A window made later would have been met by the checks, so after the matmul there are only reshapes. */
  lemma {:induction false} OnlyReshapes(ops: seq<Op>, at: nat, k: nat, r: Requant, i: nat, v: Value)
    requires Accepted(ops, at, k, r) && Defined(ops) && NoEarlyWindow(ops, at, ReshapeBase(ops[at].out))
    requires i < |ops| && v in Operands(ops[i]) && Root(v) == Root(ReshapeBase(ops[at].out))
    ensures ReshapeBase(v) == ReshapeBase(ops[at].out)
    decreases v
  {
    hide Accepted;
    MatmulOut(ops, at, k, r);
    if !v.Alloc? {
      var m :| 0 <= m < i && ops[m] == View(v);
      assert v.source in Operands(ops[m]);
      OnlyReshapes(ops, at, k, r, m, v.source);
      if v.Window? {
        NoLateWindow(ops, at, k, r, m);
      }
    }
  }

  lemma MatmulOut(ops: seq<Op>, at: nat, k: nat, r: Requant)
    requires Accepted(ops, at, k, r)
    ensures at < |ops| && ops[at].MatMul? && ReshapeBase(ops[at].out).Alloc?
  {
    hide Recognition, LeavesAlone;
  }

  /** A window of the temporary made after the matmul touches it. */
  lemma NoLateWindow(ops: seq<Op>, at: nat, k: nat, r: Requant, m: nat)
    requires Accepted(ops, at, k, r) && m < |ops| && ops[m].View? && ops[m].result.Window?
    requires ReshapeBase(ops[m].result.source) == ReshapeBase(ops[at].out)
    ensures m < at
  {
    hide Recognition, LeavesAlone;
    assert ops[m].result.source in Operands(ops[m]);
    assert Touches(ops[m], ReshapeBase(ops[at].out));
  }

  /** What the matmul reads still holds at the requantization what it held at the matmul, by whatever name it
      might be written. */
  ghost predicate Stable(mm: Op, mid: seq<Op>)
    requires mm.MatMul?
  {
    forall op | op in mid ::
      Spares(op, Root(mm.lhs)) && Spares(op, Root(mm.rhs)) && (mm.bias.Some? ==> Spares(op, Root(mm.bias.value.value)))
  }

  /** A result written into the memory `root` as it is computed does not run into what is still to be read: it does when
      that is the left matrix and there is more than one column, the right one and there is more than one row, or a row
      of biases and there is more than one row. */
  predicate Clear(mm: Op, root: nat)
    requires mm.MatMul?
  {
    && (Root(mm.lhs) == root ==> mm.shape.n == 1)
    && (Root(mm.rhs) == root ==> mm.shape.m == 1)
    && (mm.bias.Some? && Root(mm.bias.value.value) == root && mm.bias.value.oneRow ==> mm.shape.m == 1)
  }

  lemma Unwrap(x: int, y: int)
    ensures Wrap32(Wrap32(x) + y) == Wrap32(x + y) && Wrap32(Wrap32(x)) == Wrap32(x)
  {
  }

  lemma OverlayAt(was: seq<int>, done: seq<int>, i: nat)
    ensures At(Overlay(was, done), i) == if i < |done| then done[i] else At(was, i)
  {
  }

  /** In which row and column of the result an element is. */
  lemma RowColumn(m: nat, n: nat, t: nat)
    requires t < m * n
    ensures n > 0 && t / n < m && t % n < n && t == t / n * n + t % n
    ensures n == 1 ==> t / n == t
    ensures m == 1 ==> t % n == t
  {
    HasColumns(m, n, t);
    DivBound(t, m, n);
  }

  lemma HasColumns(m: nat, n: nat, i: nat)
    requires i < m * n
    ensures n > 0
  {
    assert n == 0 ==> m * n == 0;
  }

  lemma Ahead(sh: MatShape, t: nat, k: nat)
    requires t < sh.m * sh.n && k < sh.k
    ensures sh.n > 0 && (sh.n == 1 ==> LhsIndex(sh, t / sh.n, k) >= t) && (sh.m == 1 ==> RhsIndex(sh, k, t % sh.n) >= t)
  {
    RowColumn(sh.m, sh.n, t);
    assert sh.n == 1 ==> t * sh.k >= t;
    assert sh.m == 1 ==> t * sh.k >= t;
  }

  /** In a clear place the result does not disturb what is still to be multiplied and added. */
  lemma {:induction false} ClearAccumulator(mm: Op, store: Store, root: nat, done: seq<int>)
    requires mm.MatMul? && Clear(mm, root) && |done| < mm.shape.m * mm.shape.n
    ensures mm.shape.n > 0
    ensures Accumulator(mm.shape, mm.lhs, mm.rhs, mm.bias, Put(store, root, Overlay(store(root), done)), |done|)
         == Accumulator(mm.shape, mm.lhs, mm.rhs, mm.bias, store, |done|)
  {
    hide Wrap32, Overlay;
    var sh, t, after := mm.shape, |done|, Put(store, root, Overlay(store(root), done));
    RowColumn(sh.m, sh.n, t);
    ClearProduct(mm, store, root, done);
    if mm.bias.Some? && Root(mm.bias.value.value) == root {
      OverlayAt(store(root), done, if mm.bias.value.oneRow then t % sh.n else t);
    }
  }

  lemma {:induction false} ClearProduct(mm: Op, store: Store, root: nat, done: seq<int>)
    requires mm.MatMul? && Clear(mm, root) && |done| < mm.shape.m * mm.shape.n && mm.shape.n > 0
    ensures var after := Put(store, root, Overlay(store(root), done));
      Product(mm.shape, after(Root(mm.lhs)), after(Root(mm.rhs)), |done|) == Product(mm.shape, store(Root(mm.lhs)), store(Root(mm.rhs)), |done|)
  {
    hide Overlay, LhsIndex, RhsIndex;
    var sh, t, after := mm.shape, |done|, Put(store, root, Overlay(store(root), done));
    forall k: nat | k < sh.k
      ensures At(after(Root(mm.lhs)), LhsIndex(sh, t / sh.n, k)) == At(store(Root(mm.lhs)), LhsIndex(sh, t / sh.n, k))
      ensures At(after(Root(mm.rhs)), RhsIndex(sh, k, t % sh.n)) == At(store(Root(mm.rhs)), RhsIndex(sh, k, t % sh.n))
    {
      Ahead(sh, t, k);
      OverlayAt(store(root), done, LhsIndex(sh, t / sh.n, k));
      OverlayAt(store(root), done, RhsIndex(sh, k, t % sh.n));
    }
    SumExt(sh.k,
      (k: nat) => At(after(Root(mm.lhs)), LhsIndex(sh, t / sh.n, k)) * At(after(Root(mm.rhs)), RhsIndex(sh, k, t % sh.n)),
      (k: nat) => At(store(Root(mm.lhs)), LhsIndex(sh, t / sh.n, k)) * At(store(Root(mm.rhs)), RhsIndex(sh, k, t % sh.n)));
  }

  /** Into a clear place the matmul writes its accumulators. */
  lemma {:induction false} ClearMatMul(mm: Op, store: Store, t: nat)
    requires mm.MatMul? && !mm.accumulate && Clear(mm, Root(mm.out)) && t < mm.shape.m * mm.shape.n
    ensures mm.shape.n > 0 && Computed(mm, store, mm.shape.m * mm.shape.n)[t] == Accumulator(mm.shape, mm.lhs, mm.rhs, mm.bias, store, t)
  {
    hide Accumulator, Clear;
    ComputedAt(mm, store, t, mm.shape.m * mm.shape.n);
    ClearAccumulator(mm, store, Root(mm.out), Computed(mm, store, t));
  }

  /** What is added per column when element `t` is requantized. */
  function ColumnBias(g: Op, store: Store, t: nat): int
    requires g.Requantize?
  {
    if g.channelBias.None? || g.columns == 0 then 0 else At(store(Root(g.channelBias.value)), t % g.columns)
  }

  lemma AccumulatorAgrees(mm: Op, bias: Option<BiasRef>, p: Store, q: Store, t: nat)
    requires mm.MatMul? && mm.shape.n > 0
    requires p(Root(mm.lhs)) == q(Root(mm.lhs)) && p(Root(mm.rhs)) == q(Root(mm.rhs))
    requires bias.Some? ==> p(Root(bias.value.value)) == q(Root(bias.value.value))
    ensures Accumulator(mm.shape, mm.lhs, mm.rhs, bias, p, t) == Accumulator(mm.shape, mm.lhs, mm.rhs, bias, q, t)
  {
    hide Product, Wrap32;
  }

  /** Adding the tail's bias to an accumulator is accumulating onto it. */
  lemma {:induction false} TotalAgrees(mm: Op, g: Op, r: Requant, store: Store, t: nat)
    requires mm.MatMul? && g.Requantize? && (g.channelBias.Some? ==> mm.bias.None?) && r.addsBias == g.channelBias.Some?
    requires mm.shape.n > 0 && g.columns == mm.shape.n
    ensures Total(r, Env(Accumulator(mm.shape, mm.lhs, mm.rhs, mm.bias, store, t), ColumnBias(g, store, t)))
         == Accumulator(mm.shape, mm.lhs, mm.rhs, Fused(mm, g, r).bias, store, t)
  {
    hide Product, Wrap32;
    var product := Product(mm.shape, store(Root(mm.lhs)), store(Root(mm.rhs)), t);
    if g.channelBias.Some? {
      Unwrap(product, ColumnBias(g, store, t));
      assert product + 0 == product;
    } else {
      Unwrap(product, BiasAt(mm.bias, store, mm.shape.n, t));
    }
  }

  /** The accumulator of the matmul alone is not disturbed either by the fused operation's result. */
  lemma {:induction false} ClearFused(mm: Op, g: Op, r: Requant, u: Store, done: seq<int>)
    requires mm.MatMul? && g.Requantize? && Clear(mm, Root(g.dst)) && |done| < mm.shape.m * mm.shape.n
    ensures mm.shape.n > 0
    ensures Accumulator(mm.shape, mm.lhs, mm.rhs, mm.bias, Midway(Fused(mm, g, r), u, done), |done|)
         == Accumulator(mm.shape, mm.lhs, mm.rhs, mm.bias, u, |done|)
  {
    hide Accumulator, Clear;
    ClearAccumulator(mm, u, Root(g.dst), done);
  }

  /** From the same operands, requantizing the accumulators is the scaled matmul, element by element and into the same
      memory. */
  lemma {:induction false} TailsAgree(mm: Op, g: Op, r: Requant, p: Store, s: Store, u: Store, n: nat)
    requires mm.MatMul? && g.Requantize? && g.columns == mm.shape.n && (g.channelBias.Some? ==> mm.bias.None?)
    requires Recognises(g.body, g.channelBias.Some?, r) && Root(g.src) == Root(mm.out) && Root(g.dst) != Root(mm.out)
    requires |s(Root(g.src))| == mm.shape.m * mm.shape.n && Clear(mm, Root(g.dst))
    requires forall t: nat | t < mm.shape.m * mm.shape.n ::
      mm.shape.n > 0 && s(Root(g.src))[t] == Accumulator(mm.shape, mm.lhs, mm.rhs, mm.bias, p, t)
    requires p(Root(mm.lhs)) == u(Root(mm.lhs)) && p(Root(mm.rhs)) == u(Root(mm.rhs))
    requires mm.bias.Some? ==> p(Root(mm.bias.value.value)) == u(Root(mm.bias.value.value))
    requires AgreeOff(Root(mm.out), s, u) && (g.channelBias.Some? ==> Root(g.channelBias.value) != Root(mm.out))
    requires n <= mm.shape.m * mm.shape.n
    ensures Computed(g, s, n) == Computed(Fused(mm, g, r), u, n)
    decreases n
  {
    if n > 0 {
      hide Clear, Recognises, Accumulator, Overlay;
      TailsAgree(mm, g, r, p, s, u, n - 1);
      TailElement(mm, g, r, p, s, u, Computed(g, s, n - 1));
    }
  }

  lemma {:induction false} TailElement(mm: Op, g: Op, r: Requant, p: Store, s: Store, u: Store, done: seq<int>)
    requires mm.MatMul? && g.Requantize? && g.columns == mm.shape.n && (g.channelBias.Some? ==> mm.bias.None?)
    requires Recognises(g.body, g.channelBias.Some?, r) && Root(g.src) == Root(mm.out) && Root(g.dst) != Root(mm.out)
    requires |done| < |s(Root(g.src))| == mm.shape.m * mm.shape.n && Clear(mm, Root(g.dst)) && mm.shape.n > 0
    requires s(Root(g.src))[|done|] == Accumulator(mm.shape, mm.lhs, mm.rhs, mm.bias, p, |done|)
    requires p(Root(mm.lhs)) == u(Root(mm.lhs)) && p(Root(mm.rhs)) == u(Root(mm.rhs))
    requires mm.bias.Some? ==> p(Root(mm.bias.value.value)) == u(Root(mm.bias.value.value))
    requires AgreeOff(Root(mm.out), s, u) && (g.channelBias.Some? ==> Root(g.channelBias.value) != Root(mm.out))
    ensures Element(g, Midway(g, s, done), |done|) == Element(Fused(mm, g, r), Midway(Fused(mm, g, r), u, done), |done|)
  {
    hide Clear, Accumulator, Overlay, Mvout, EvalI;
    var t := |done|;
    AccumulatorAgrees(mm, mm.bias, p, u, t);
    ClearFused(mm, g, r, u, done);
    TotalAgrees(mm, g, r, Midway(Fused(mm, g, r), u, done), t);
    assert ColumnBias(g, Midway(g, s, done), t) == ColumnBias(g, Midway(Fused(mm, g, r), u, done), t);
  }

  /** What is asked of the piece of the program between and including the two operations. */
  ghost predicate Piece(mm: Op, mid: seq<Op>, g: Op) {
    && mm.MatMul? && !mm.accumulate && g.Requantize? && g.columns == mm.shape.n
    && (g.channelBias.Some? ==> mm.bias.None? && Root(g.channelBias.value) != Root(mm.out))
    && Root(g.src) == Root(mm.out) && Root(g.dst) != Root(mm.out)
    && forall op | op in mid :: Avoids(op, Root(mm.out))
  }

  /** Memory at the requantization, and where the fused operation takes its place. */
  ghost function AtTail(mm: Op, mid: seq<Op>, p: Store, interp: Interp): Store { Run(mid, Exec(mm, p, interp), interp) }

  /** The two pieces of the program, before and after. */
  lemma {:induction false} PieceRuns(mm: Op, mid: seq<Op>, g: Op, r: Requant, p: Store, interp: Interp)
    requires Piece(mm, mid, g)
    ensures var s, u := AtTail(mm, mid, p, interp), Run(mid, p, interp);
      && Run([mm] + mid + [g], p, interp) == Exec(g, s, interp) && Run(mid + [Fused(mm, g, r)], p, interp) == Exec(Fused(mm, g, r), u, interp)
      && AgreeOff(Root(mm.out), s, u) && u(Root(mm.out)) == p(Root(mm.out))
      && s(Root(mm.out)) == Computed(mm, p, mm.shape.m * mm.shape.n)
  {
    hide Avoids, Computed;
    var x := Root(mm.out);
    var s1 := Exec(mm, p, interp);
    assert AgreeOff(x, s1, p);
    AvoidingRun(mid, x, s1, p, interp);
    AvoidingRun(mid, x, p, p, interp);
    RunEnds(mm, mid, g, p, interp);
    RunConcat(mid, [Fused(mm, g, r)], p, interp);
    RunOne(Fused(mm, g, r), Run(mid, p, interp), interp);
  }

  lemma {:induction false} StableKeeps(mm: Op, mid: seq<Op>, p: Store, interp: Interp)
    requires mm.MatMul? && Stable(mm, mid)
    ensures var u := Run(mid, p, interp);
      && u(Root(mm.lhs)) == p(Root(mm.lhs)) && u(Root(mm.rhs)) == p(Root(mm.rhs))
      && (mm.bias.Some? ==> u(Root(mm.bias.value.value)) == p(Root(mm.bias.value.value)))
  {
    hide Spares, Run;
    SparingRun(mid, Root(mm.lhs), p, interp);
    SparingRun(mid, Root(mm.rhs), p, interp);
    if mm.bias.Some? {
      SparingRun(mid, Root(mm.bias.value.value), p, interp);
    }
  }

  /** A stable piece whose two results go where they do not disturb the operands has the same effect before and after. */
  lemma {:induction false} FoldPiece(mm: Op, mid: seq<Op>, g: Op, r: Requant, p: Store, interp: Interp)
    requires Piece(mm, mid, g) && Recognises(g.body, g.channelBias.Some?, r)
    requires Stable(mm, mid) && Clear(mm, Root(mm.out)) && Clear(mm, Root(g.dst))
    ensures AgreeOff(Root(mm.out), Run([mm] + mid + [g], p, interp), Run(mid + [Fused(mm, g, r)], p, interp))
  {
    var s, u := AtTail(mm, mid, p, interp), Run(mid, p, interp);
    PieceRuns(mm, mid, g, r, p, interp);
    StableKeeps(mm, mid, p, interp);
    hide Computed, AtTail, Run, Stable, Clear, Recognises, Accumulator, Piece;
    forall t: nat | t < mm.shape.m * mm.shape.n
      ensures mm.shape.n > 0 && s(Root(g.src))[t] == Accumulator(mm.shape, mm.lhs, mm.rhs, mm.bias, p, t)
    {
      ClearMatMul(mm, p, t);
    }
    TailsAgree(mm, g, r, p, s, u, mm.shape.m * mm.shape.n);
  }

  /** An accepted fold of such a program changes nothing but the temporary. */
  lemma {:induction false} FoldSound(ops: seq<Op>, at: nat, k: nat, r: Requant, store: Store, interp: Interp)
    requires Accepted(ops, at, k, r) && Defined(ops) && NoEarlyWindow(ops, at, ReshapeBase(ops[at].out))
    requires NotCaptured(ops, at, Root(ops[at].out)) && Stable(ops[at], ops[at + 1..k])
    requires Clear(ops[at], Root(ops[at].out)) && Clear(ops[at], Root(ops[k].dst)) && Root(ops[k].dst) != Root(ops[at].out)
    requires ops[k].channelBias.Some? ==> Root(ops[k].channelBias.value) != Root(ops[at].out)
    ensures AgreeOff(Root(ops[at].out), Run(ops, store, interp), Run(Folded(ops, at, k, r), store, interp))
  {
    hide Exec, Recognises, Recognition, Stable, Run, Defined, NoEarlyWindow, NotCaptured, Avoids, Ignores, Fused, Folded, LeavesAlone, Clear;
    var mm, g := ops[at], ops[k];
    var mid, last := ops[at + 1..k], ops[k + 1..];
    var p := Run(ops[..at], store, interp);
    var x := Root(mm.out);
    TemporaryAvoided(ops, at, k, r);
    assert Recognises(g.body, g.channelBias.Some?, r) by { RecognitionHolds(g.body, g.channelBias.Some?, r); }
    FoldPiece(mm, mid, g, r, p, interp);
    FoldPieces(ops, at, k, r);
    RunPieces(ops[..at], [mm] + mid + [g], last, store, interp);
    RunPieces(ops[..at], mid + [Fused(mm, g, r)], last, store, interp);
    IgnoringRun(last, x, Run([mm] + mid + [g], p, interp), Run(mid + [Fused(mm, g, r)], p, interp), interp);
  }

  lemma FoldPieces(ops: seq<Op>, at: nat, k: nat, r: Requant)
    requires at < k < |ops| && ops[at].MatMul? && ops[k].Requantize?
    ensures ops == ops[..at] + ([ops[at]] + ops[at + 1..k] + [ops[k]]) + ops[k + 1..]
    ensures Folded(ops, at, k, r) == ops[..at] + (ops[at + 1..k] + [Fused(ops[at], ops[k], r)]) + ops[k + 1..]
  {
    hide Fused;
  }

  lemma {:induction false} RunPieces(a: seq<Op>, b: seq<Op>, c: seq<Op>, store: Store, interp: Interp)
    ensures Run(a + b + c, store, interp) == Run(c, Run(b, Run(a, store, interp), interp), interp)
  {
    hide Run;
    RunConcat(a + b, c, store, interp);
    RunConcat(a, b, store, interp);
  }

  /** Nothing between the two operations uses the temporary, and what follows only frees it. */
  lemma {:induction false} TemporaryAvoided(ops: seq<Op>, at: nat, k: nat, r: Requant)
    requires Accepted(ops, at, k, r) && Defined(ops) && NoEarlyWindow(ops, at, ReshapeBase(ops[at].out))
    requires NotCaptured(ops, at, Root(ops[at].out))
    ensures forall op | op in ops[at + 1..k] :: Avoids(op, Root(ops[at].out))
    ensures forall op | op in ops[k + 1..] :: Ignores(op, Root(ops[at].out))
  {
    hide Recognition, Defined, NoEarlyWindow, LeavesAlone;
    var base := ReshapeBase(ops[at].out);
    forall i, v | at < i < |ops| && v in Operands(ops[i]) && Root(v) == Root(base) ensures ReshapeBase(v) == base {
      OnlyReshapes(ops, at, k, r, i, v);
    }
    forall i | at < i < k ensures Avoids(ops[i], Root(base)) {
      AvoidedAt(ops, at, i, base);
    }
    forall i | k < i < |ops| ensures Ignores(ops[i], Root(base)) {
      if !ops[i].Dealloc? {
        AvoidedAt(ops, at, i, base);
      }
    }
  }

  lemma AvoidedAt(ops: seq<Op>, at: nat, i: nat, base: Value)
    requires at < i < |ops| && NotCaptured(ops, at, Root(base)) && !Touches(ops[i], base)
    requires forall v | v in Operands(ops[i]) && Root(v) == Root(base) :: ReshapeBase(v) == base
    ensures Avoids(ops[i], Root(base))
  {
  }

  // What the checks come to, where everything is named by its allocation and nothing is used in a region.

  ghost predicate Plainly(op: Op) {
    !op.View? && (op.Other? ==> op.captured == []) && forall v | v in Operands(op) :: v.Alloc?
  }

  /** The operation leaves allocation `x` as it was: an opaque one or a deallocation whatever it does and whatever the
      memory holds, one of known effect because it writes another. */
  ghost predicate Leaves(op: Op, x: nat) {
    match op
    case MatMul(_, _, out, _, _, _) => Root(out) != x
    case Requantize(_, _, dst, _, _) => Root(dst) != x
    case ScaledMatMul(_, _, out, _, _, _, _) => Root(out) != x
    case Copy(_, to) => Root(to) != x
    case View(_) => true
    case _ => forall store: Store, interp: Interp :: Exec(op, store, interp)(x) == store(x)
  }

  lemma {:induction false} LeavesExec(op: Op, x: nat, store: Store, interp: Interp)
    requires Leaves(op, x)
    ensures Exec(op, store, interp)(x) == store(x)
  {
    hide Computed;
  }

  lemma {:induction false} LeavesRun(ops: seq<Op>, x: nat, store: Store, interp: Interp)
    requires forall op | op in ops :: Leaves(op, x)
    ensures Run(ops, store, interp)(x) == store(x)
    decreases |ops|
  {
    hide Leaves, Exec;
    if ops != [] {
      LeavesExec(ops[0], x, store, interp);
      LeavesRun(ops[1..], x, Exec(ops[0], store, interp), interp);
    }
  }

  /** An opaque operation that may write an allocation changes it for some contents and effects. */
  lemma {:induction false} MayWrite(op: Op, x: nat)
    requires (op.Other? && exists v :: v in Writes(op) && Root(v) == x) || (op.Dealloc? && Root(op.v) == x)
    ensures !Leaves(op, x)
  {
    var store, interp := Zeros(), OneMade();
    assert Exec(op, store, interp)(x) == [1] by {
      hide Leaves, Computed;
      if op.Other? {
        OtherWrites(op, x);
      }
    }
    assert store(x) == [0];
  }

  function Zeros(): Store { (r: nat) => [0] }

  function OneMade(): Interp { Interp((id: nat, j: nat, seen: seq<seq<int>>) => [1], (r: nat) => [1]) }

  lemma {:induction false} OtherWrites(op: Op, x: nat)
    requires op.Other? && exists v :: v in Writes(op) && Root(v) == x
    ensures Exec(op, Zeros(), OneMade())(x) == [1]
  {
    hide Contents;
    assert FirstNaming(Writes(op), x) < |Writes(op)|;
  }

  /** Reading is no reason to refuse: the check for writes lets an operation pass exactly when it leaves the allocation as it
      was. */
  lemma {:induction false} AloneExactly(op: Op, x: nat)
    requires Plainly(op)
    ensures LeavesAlone(op, [Alloc(x)]) <==> Leaves(op, x)
  {
    if op.Other? {
      if LeavesAlone(op, [Alloc(x)]) {
        forall v | v in Writes(op) ensures Root(v) != x {
          assert v in Operands(op);
        }
        forall store: Store, interp: Interp ensures Exec(op, store, interp)(x) == store(x) {
          assert FirstNaming(Writes(op), x) == |Writes(op)|;
        }
      } else {
        assert Alloc(x) in Writes(op) && Root(Alloc(x)) == x;
        MayWrite(op, x);
      }
    } else if op.Dealloc? {
      assert op.v in Operands(op);
      if op.v == Alloc(x) {
        MayWrite(op, x);
      }
    } else if op.Copy? {
      assert Operands(op)[1] == op.to && op.to in Operands(op);
      assert WrittenOperands(op) == Some([op.to]) && op.to in [op.to];
    } else {
      ComputesOperands(op);
      assert WrittenOperands(op) == Some([Destination(op)]) && Destination(op) in [Destination(op)];
    }
  }

  lemma AloneBoth(op: Op, a: Value, b: Value)
    ensures LeavesAlone(op, [a, b]) <==> LeavesAlone(op, [a]) && LeavesAlone(op, [b])
  {
    assert a in [a, b] && b in [a, b] && a in [a] && b in [b];
  }

  /** What an accepted program is, without the checks' own terms: between the two operations nothing names the temporary, and
      both matrices are left as they were; afterwards the temporary is only freed. */
  ghost predicate FoldsPlainly(ops: seq<Op>, at: nat, k: nat, r: Requant) {
    && at < k < |ops| && ops[at].MatMul? && ops[k].Requantize?
    && var mm, g := ops[at], ops[k];
      && !mm.accumulate && g.src == mm.out && g.columns == mm.shape.n && (g.channelBias.Some? ==> mm.bias.None?)
      && Recognition(g.body, g.channelBias.Some?) == Some(r)
      && (forall i | at < i < k :: mm.out !in Operands(ops[i]) && Leaves(ops[i], Root(mm.lhs)) && Leaves(ops[i], Root(mm.rhs)))
      && forall i | k < i < |ops| :: ops[i].Dealloc? || mm.out !in Operands(ops[i])
  }

  lemma {:induction false} AcceptedExactly(ops: seq<Op>, at: nat, k: nat, r: Requant)
    requires forall op | op in ops :: Plainly(op)
    ensures Accepted(ops, at, k, r) <==> FoldsPlainly(ops, at, k, r)
  {
    hide Recognition, Leaves, LeavesAlone;
    if at < k < |ops| && ops[at].MatMul? && ops[k].Requantize? {
      var mm := ops[at];
      assert mm in ops && ops[k] in ops;
      ComputesOperands(mm);
      ComputesOperands(ops[k]);
      forall i | at < i < |ops|
        ensures Touches(ops[i], mm.out) <==> mm.out in Operands(ops[i])
        ensures LeavesAlone(ops[i], [mm.lhs, mm.rhs]) <==> Leaves(ops[i], Root(mm.lhs)) && Leaves(ops[i], Root(mm.rhs))
      {
        assert ops[i] in ops;
        NamesPlainly(ops[i], mm.out);
        AloneBoth(ops[i], mm.lhs, mm.rhs);
        AloneExactly(ops[i], Root(mm.lhs));
        AloneExactly(ops[i], Root(mm.rhs));
      }
    }
  }

  lemma NamesPlainly(op: Op, x: Value)
    requires Plainly(op) && x.Alloc?
    ensures Touches(op, x) <==> x in Operands(op)
  {
    if x in Operands(op) {
      assert ReshapeBase(x) == x;
    }
  }

  /** So such a program's operands still hold at the requantization what they held at the matmul; without a bias on the
      matmul it is stable. */
  lemma {:induction false} PassedMeansKept(ops: seq<Op>, at: nat, k: nat, r: Requant, store: Store, interp: Interp)
    requires (forall op | op in ops :: Plainly(op)) && Accepted(ops, at, k, r)
    ensures var end := Run(ops[at + 1..k], store, interp);
      end(Root(ops[at].lhs)) == store(Root(ops[at].lhs)) && end(Root(ops[at].rhs)) == store(Root(ops[at].rhs))
    ensures ops[at].bias.None? ==> Stable(ops[at], ops[at + 1..k])
  {
    hide Accepted, Leaves, Exec;
    AcceptedExactly(ops, at, k, r);
    var mid := ops[at + 1..k];
    forall op | op in mid ensures op in ops && Leaves(op, Root(ops[at].lhs)) && Leaves(op, Root(ops[at].rhs)) {
      var i :| 0 <= i < |mid| && mid[i] == op;
      assert mid[i] == ops[at + 1 + i];
    }
    LeavesRun(mid, Root(ops[at].lhs), store, interp);
    LeavesRun(mid, Root(ops[at].rhs), store, interp);
    forall op | op in mid ensures Spares(op, Root(ops[at].lhs)) && Spares(op, Root(ops[at].rhs)) {
      LeavesSpares(op, Root(ops[at].lhs));
      LeavesSpares(op, Root(ops[at].rhs));
    }
  }

  lemma LeavesSpares(op: Op, x: nat)
    requires Leaves(op, x) && !op.View?
    ensures Spares(op, x)
  {
    if !Spares(op, x) && (op.Other? || op.Dealloc?) {
      MayWrite(op, x);
    }
  }
}
