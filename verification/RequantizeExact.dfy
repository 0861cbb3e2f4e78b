/** When `FoldRequantizeIntoMatmul` keeps the meaning of a program. The checks of the rewrite look for writes to the two
    matrices only, by name only, and strictly between the two operations. Over all tails, contents, effects of the
    operations in between and remains of freed memory, the fold keeps its meaning if and only if the program is stable
    and neither result goes where it disturbs the operands. */
module RequantizeExact {
  import opened Arith
  import opened BufferPrograms
  import opened FoldRequantize
  import opened RequantizeTail
  import opened Rounding
  import opened Sums
  import opened Wrappers

  /** The fold keeps its meaning whatever the tail, the store and the operations in between do. */
  ghost predicate KeepsMeaning(mm: Op, mid: seq<Op>, src: Value, channelBias: Option<Value>, dst: Value)
    requires mm.MatMul?
  {
    forall body, r, store: Store, interp: Interp | Recognises(body, channelBias.Some?, r) ::
      var g := Requantize(src, channelBias, dst, body, mm.shape.n);
      AgreeOff(Root(mm.out), Run([mm] + mid + [g], store, interp), Run(mid + [Fused(mm, g, r)], store, interp))
  }

  /** A buffer holding `c` in its first element and zero elsewhere. */
  function Spike(size: nat, c: int): seq<int> { seq(size, i => if i == 0 then c else 0) }

  /** Every opaque operation leaves a spike of one in whatever it writes, and so does freeing memory. */
  function Spikes(size: nat): Interp {
    Interp((id: nat, j: nat, seen: seq<seq<int>>) => Spike(size, 1), (r: nat) => Spike(size, 1))
  }

  /** What the equivalence below lets stand in between: opaque operations, views and deallocations. */
  predicate Opaque(op: Op) {
    op.Other? || op.View? || op.Dealloc?
  }

  /** The simplest tail: scale one. */
  function PlainTail(takesBias: bool): IExpr {
    var total := if takesBias then AddI(Acc, Bias) else Acc;
    MaxSI(MinSI(ToInt(RoundE(ToFloat(total))), IConst(127)), IConst(-128))
  }

  lemma PlainTailRecognised(takesBias: bool)
    ensures Recognises(PlainTail(takesBias), takesBias, Requant(1.0, false, takesBias))
  {
    var body, r := PlainTail(takesBias), Requant(1.0, false, takesBias);
    forall env ensures EvalI(body, env) == Mvout(1.0, false, Total(r, env)) {
      var total := Total(r, env);
      assert EvalI(if takesBias then AddI(Acc, Bias) else Acc, env) == total;
      PlainValue(if takesBias then AddI(Acc, Bias) else Acc, env);
    }
  }

  lemma PlainValue(i: IExpr, env: Env)
    ensures EvalI(MaxSI(MinSI(ToInt(RoundE(ToFloat(i))), IConst(127)), IConst(-128)), env) == Mvout(1.0, false, EvalI(i, env))
  {
    var n := EvalI(i, env);
    FixesIntegers(n);
    assert EvalF(RoundE(ToFloat(i)), env) == n as real;
    assert EvalI(ToInt(RoundE(ToFloat(i))), env) == n;
    assert EvalI(MinSI(ToInt(RoundE(ToFloat(i))), IConst(127)), env) == Min(n, 127);
    assert RTimes(1.0, n as real) == n as real;
  }

  ghost predicate WritesTo(op: Op, x: nat) {
    || (op.Dealloc? && Root(op.v) == x)
    || (op.Other? && exists v :: v in Writes(op) && Root(v) == x)
  }

  lemma {:induction false} SpikesExec(op: Op, p: Store, size: nat, x: nat)
    requires Opaque(op)
    ensures Exec(op, p, Spikes(size))(x) == if WritesTo(op, x) then Spike(size, 1) else p(x)
  {
    if op.Other? {
      var j := FirstNaming(Writes(op), x);
      if j < |Writes(op)| {
        assert Writes(op)[j] in Writes(op);
      }
    }
  }

  lemma {:induction false} SpikesRun(ops: seq<Op>, p: Store, size: nat, x: nat)
    requires forall op | op in ops :: Opaque(op)
    ensures Run(ops, p, Spikes(size))(x) == if exists op :: op in ops && WritesTo(op, x) then Spike(size, 1) else p(x)
    decreases |ops|
  {
    hide Exec, WritesTo;
    if ops != [] {
      SpikesExec(ops[0], p, size, x);
      SpikesRun(ops[1..], Exec(ops[0], p, Spikes(size)), size, x);
      assert forall op | op in ops :: op == ops[0] || op in ops[1..];
    }
  }

  lemma {:induction false} ProductOfSpikes(s: MatShape, a: seq<int>, b: seq<int>, size: nat, x: int, y: int)
    requires s.m > 0 && s.n > 0 && s.k > 0 && size > 0 && a == Spike(size, x) && b == Spike(size, y)
    ensures Product(s, a, b, 0) == x * y
  {
    assert 0 / s.n == 0 && 0 % s.n == 0;
    var f := (k: nat) => At(a, LhsIndex(s, 0 / s.n, k)) * At(b, RhsIndex(s, k, 0 % s.n));
    forall k: nat | 0 < k < s.k ensures f(k) == 0 {
      assert k * s.m >= s.m;
    }
    SumSingle(s.k, f, 0);
  }

  /** Whether some operation in between writes the memory of `v`. */
  ghost predicate Rewritten(mid: seq<Op>, v: Value) {
    exists op :: op in mid && WritesTo(op, Root(v))
  }

  lemma {:induction false} UnstableShows(mm: Op, mid: seq<Op>)
    requires mm.MatMul? && (forall op | op in mid :: Opaque(op)) && !Stable(mm, mid)
    ensures Rewritten(mid, mm.lhs) || Rewritten(mid, mm.rhs) || (mm.bias.Some? && Rewritten(mid, mm.bias.value.value))
  {
    var op :| op in mid && !(Spares(op, Root(mm.lhs)) && Spares(op, Root(mm.rhs))
      && (mm.bias.Some? ==> Spares(op, Root(mm.bias.value.value))));
    if !Spares(op, Root(mm.lhs)) {
      assert WritesTo(op, Root(mm.lhs));
    } else if !Spares(op, Root(mm.rhs)) {
      assert WritesTo(op, Root(mm.rhs));
    } else {
      assert WritesTo(op, Root(mm.bias.value.value));
    }
  }

  /** Where the witness starts at zero: in memory that is rewritten; and, when only the bias is, in the left
      matrix, so that the bias is all there is. */
  ghost predicate StartsAtZero(mm: Op, mid: seq<Op>, r: nat)
    requires mm.MatMul?
  {
    Rewritten(mid, Alloc(r)) || (!Rewritten(mid, mm.lhs) && !Rewritten(mid, mm.rhs) && r == Root(mm.lhs))
  }

  ghost function Witness(mm: Op, mid: seq<Op>, size: nat): Store
    requires mm.MatMul?
  {
    (r: nat) => Spike(size, if StartsAtZero(mm, mid, r) then 0 else 1)
  }

  /** An accumulator before it wraps round. */
  ghost function Raw(mm: Op, store: Store, t: nat): int
    requires mm.MatMul? && mm.shape.n > 0
  {
    Product(mm.shape, store(Root(mm.lhs)), store(Root(mm.rhs)), t) + BiasAt(mm.bias, store, mm.shape.n, t)
  }

  lemma {:induction false} SpikeAccumulator(mm: Op, p: Store, size: nat, x: int, y: int, z: int)
    requires mm.MatMul? && mm.shape.m > 0 && mm.shape.n > 0 && mm.shape.k > 0 && size > 0
    requires p(Root(mm.lhs)) == Spike(size, x) && p(Root(mm.rhs)) == Spike(size, y)
    requires if mm.bias.Some? then p(Root(mm.bias.value.value)) == Spike(size, z) else z == 0
    ensures Raw(mm, p, 0) == x * y + z
  {
    ProductOfSpikes(mm.shape, p(Root(mm.lhs)), p(Root(mm.rhs)), size, x, y);
    assert 0 % mm.shape.n == 0;
  }

  /** The first accumulator before and after the operations in between have run on the witness. */
  lemma {:induction false} WitnessAccumulators(mm: Op, mid: seq<Op>, size: nat)
    requires mm.MatMul? && mm.shape.m > 0 && mm.shape.n > 0 && mm.shape.k > 0 && size > 0
    requires (forall op | op in mid :: Opaque(op)) && !Stable(mm, mid)
    ensures var p := Witness(mm, mid, size);
      var t := Run(mid, p, Spikes(size));
      0 <= Raw(mm, p, 0) < Raw(mm, t, 0) <= 2
  {
    hide Raw, Run, Spike;
    var p := Witness(mm, mid, size);
    var t := Run(mid, p, Spikes(size));
    UnstableShows(mm, mid);
    SpikesRun(mid, p, size, Root(mm.lhs));
    SpikesRun(mid, p, size, Root(mm.rhs));
    var x, y := if StartsAtZero(mm, mid, Root(mm.lhs)) then 0 else 1, if StartsAtZero(mm, mid, Root(mm.rhs)) then 0 else 1;
    var x', y' := if Rewritten(mid, mm.lhs) then 1 else x, if Rewritten(mid, mm.rhs) then 1 else y;
    var z, z' := 0, 0;
    if mm.bias.Some? {
      var b := mm.bias.value.value;
      SpikesRun(mid, p, size, Root(b));
      z := if StartsAtZero(mm, mid, Root(b)) then 0 else 1;
      z' := if Rewritten(mid, b) then 1 else z;
    }
    SpikeAccumulator(mm, p, size, x, y, z);
    SpikeAccumulator(mm, t, size, x', y', z');
    BitsGrow(x, y, z, x', y', z');
  }

  lemma BitsGrow(x: int, y: int, z: int, x': int, y': int, z': int)
    requires 0 <= x <= x' <= 1 && 0 <= y <= y' <= 1 && 0 <= z <= z' <= 1
    requires ((x == 0 || y == 0) && x' == y' == 1) || (x == x' == 0 && z < z')
    ensures 0 <= x * y + z < x' * y' + z' <= 2
  {
  }

  lemma PlainMvout(n: int)
    requires -128 <= n <= 127
    ensures Mvout(1.0, false, n) == n
  {
    FixesIntegers(n);
    assert RTimes(1.0, n as real) == n as real;
  }

  /** The plain requantization. */
  function Plain(mm: Op, src: Value, channelBias: Option<Value>, dst: Value): Op
    requires mm.MatMul?
  {
    Requantize(src, channelBias, dst, PlainTail(channelBias.Some?), mm.shape.n)
  }

  function PlainRequant(channelBias: Option<Value>): Requant { Requant(1.0, false, channelBias.Some?) }

  /** On small numbers the plain requantization adds. */
  lemma {:induction false} PlainElement(mm: Op, src: Value, channelBias: Option<Value>, dst: Value, s: Store, done: seq<int>)
    requires mm.MatMul? && |done| < |s(Root(src))| && Root(src) != Root(dst)
    requires var g := Plain(mm, src, channelBias, dst);
      var acc, b := s(Root(src))[|done|], ColumnBias(g, Midway(g, s, done), |done|); acc >= 0 && b >= 0 && acc + b <= 127
    ensures var g := Plain(mm, src, channelBias, dst);
      Element(g, Midway(g, s, done), |done|) == s(Root(src))[|done|] + ColumnBias(g, Midway(g, s, done), |done|)
  {
    hide EvalI, Mvout, PlainTail, Overlay;
    var g := Plain(mm, src, channelBias, dst);
    var acc, b := s(Root(src))[|done|], ColumnBias(g, Midway(g, s, done), |done|);
    PlainTailRecognised(channelBias.Some?);
    PlainMvout(acc + b);
    assert Total(PlainRequant(channelBias), Env(acc, b)) == acc + b by { SmallWrap(acc + b); }
  }

  lemma SmallWrap(n: int)
    requires 0 <= n <= 127
    ensures Wrap32(n) == n
  {
  }

  /** On small numbers the fused operation multiplies and adds. */
  lemma {:induction false} FusedElement(mm: Op, src: Value, channelBias: Option<Value>, dst: Value, u: Store, done: seq<int>)
    requires mm.MatMul? && mm.shape.n > 0 && (channelBias.Some? ==> mm.bias.None?)
    requires var g := Plain(mm, src, channelBias, dst);
      var w := Midway(Fused(mm, g, PlainRequant(channelBias)), u, done);
      var acc, b := Product(mm.shape, w(Root(mm.lhs)), w(Root(mm.rhs)), |done|) + BiasAt(mm.bias, w, mm.shape.n, |done|), ColumnBias(g, w, |done|);
      acc >= 0 && b >= 0 && acc + b <= 127
    ensures var g := Plain(mm, src, channelBias, dst);
      var sc := Fused(mm, g, PlainRequant(channelBias));
      var w := Midway(sc, u, done);
      Element(sc, w, |done|)
      == Product(mm.shape, w(Root(mm.lhs)), w(Root(mm.rhs)), |done|) + BiasAt(mm.bias, w, mm.shape.n, |done|) + ColumnBias(g, w, |done|)
  {
    hide Product, Mvout, Overlay, Wrap32;
    var g := Plain(mm, src, channelBias, dst);
    var w := Midway(Fused(mm, g, PlainRequant(channelBias)), u, done);
    var total := Product(mm.shape, w(Root(mm.lhs)), w(Root(mm.rhs)), |done|) + BiasAt(mm.bias, w, mm.shape.n, |done|) + ColumnBias(g, w, |done|);
    SmallWrap(total);
    PlainMvout(total);
  }

  /** Somewhere the results differ. */
  ghost predicate Parts(mm: Op, mid: seq<Op>, src: Value, channelBias: Option<Value>, dst: Value, p: Store)
    requires mm.MatMul?
  {
    var g := Plain(mm, src, channelBias, dst);
    Run([mm] + mid + [g], p, Spikes(1))(Root(dst)) != Run(mid + [Fused(mm, g, PlainRequant(channelBias))], p, Spikes(1))(Root(dst))
  }

  lemma {:induction false} PartsBreaks(mm: Op, mid: seq<Op>, src: Value, channelBias: Option<Value>, dst: Value, p: Store)
    requires mm.MatMul? && Root(dst) != Root(mm.out) && Parts(mm, mid, src, channelBias, dst, p)
    ensures !KeepsMeaning(mm, mid, src, channelBias, dst)
  {
    hide Run, Recognises, PlainTail;
    PlainTailRecognised(channelBias.Some?);
    var g := Plain(mm, src, channelBias, dst);
    assert !AgreeOff(Root(mm.out), Run([mm] + mid + [g], p, Spikes(1)), Run(mid + [Fused(mm, g, PlainRequant(channelBias))], p, Spikes(1)));
  }

  // When a piece is not stable, or a result disturbs the operands, two elements of the result differ. The extents are not
  // empty, and every number is small.

  ghost predicate Sized(mm: Op)
    requires mm.MatMul?
  {
    mm.shape.m > 0 && mm.shape.n > 0 && mm.shape.k > 0
  }

  /** The requantization's result, and the fused operation's. */
  ghost function Before(mm: Op, mid: seq<Op>, g: Op, p: Store, n: nat): seq<int>
    requires g.Requantize?
  {
    Computed(g, AtTail(mm, mid, p, Spikes(1)), n)
  }

  ghost function After(mm: Op, mid: seq<Op>, g: Op, r: Requant, p: Store, n: nat): seq<int>
    requires mm.MatMul? && g.Requantize?
  {
    Computed(Fused(mm, g, r), Run(mid, p, Spikes(1)), n)
  }

  lemma {:induction false} PartsAt(mm: Op, mid: seq<Op>, src: Value, channelBias: Option<Value>, dst: Value, p: Store, t: nat)
    requires mm.MatMul? && t < mm.shape.m * mm.shape.n && Piece(mm, mid, Plain(mm, src, channelBias, dst))
    requires var g, r, n := Plain(mm, src, channelBias, dst), PlainRequant(channelBias), mm.shape.m * mm.shape.n;
      Before(mm, mid, g, p, n)[t] != After(mm, mid, g, r, p, n)[t]
    ensures Parts(mm, mid, src, channelBias, dst, p)
  {
    hide Run, Computed, AtTail, PlainTail, Piece;
    var g := Plain(mm, src, channelBias, dst);
    PieceRuns(mm, mid, g, PlainRequant(channelBias), p, Spikes(1));
    assert Root(g.src) == Root(mm.out) by { PieceFacts(mm, mid, g); }
  }

  lemma PieceFacts(mm: Op, mid: seq<Op>, g: Op)
    requires Piece(mm, mid, g)
    ensures mm.MatMul? && !mm.accumulate && g.Requantize? && Root(g.src) == Root(mm.out) && Root(g.dst) != Root(mm.out)
    ensures g.channelBias.Some? ==> mm.bias.None? && Root(g.channelBias.value) != Root(mm.out)
    ensures g.columns == mm.shape.n
  {
  }

  /** What the matmul and the fused operation see at element `t`. */
  ghost function Mid1(mm: Op, p: Store, t: nat): Store
    requires mm.MatMul?
  {
    Midway(mm, p, Computed(mm, p, t))
  }

  ghost function Mid2(mm: Op, mid: seq<Op>, g: Op, r: Requant, p: Store, t: nat): Store
    requires mm.MatMul? && g.Requantize?
  {
    Midway(Fused(mm, g, r), Run(mid, p, Spikes(1)), After(mm, mid, g, r, p, t))
  }

  /** What the requantization adds per column, where both programs add the same. */
  ghost predicate SameColumn(mm: Op, mid: seq<Op>, g: Op, r: Requant, p: Store, t: nat)
    requires mm.MatMul? && g.Requantize?
  {
    && 0 <= ColumnBias(g, Mid2(mm, mid, g, r, p, t), t) <= 27
    && ColumnBias(g, Midway(g, AtTail(mm, mid, p, Spikes(1)), Before(mm, mid, g, p, t)), t) == ColumnBias(g, Mid2(mm, mid, g, r, p, t), t)
  }

  /** Element `t` of both results, when its parts are small. */
  lemma {:induction false} ElementsAt(mm: Op, mid: seq<Op>, src: Value, channelBias: Option<Value>, dst: Value, p: Store, t: nat, v: int, w: int)
    requires mm.MatMul? && Sized(mm) && t < mm.shape.m * mm.shape.n && Piece(mm, mid, Plain(mm, src, channelBias, dst))
    requires var g, r := Plain(mm, src, channelBias, dst), PlainRequant(channelBias);
      && SameColumn(mm, mid, g, r, p, t) && 0 <= v <= 100 && 0 <= w <= 100
      && Raw(mm, Mid1(mm, p, t), t) == v && Raw(mm, Mid2(mm, mid, g, r, p, t), t) == w
    ensures var g, r, n := Plain(mm, src, channelBias, dst), PlainRequant(channelBias), mm.shape.m * mm.shape.n;
      var b := ColumnBias(g, Mid2(mm, mid, g, r, p, t), t);
      && Computed(mm, p, n)[t] == v && Before(mm, mid, g, p, n)[t] == v + b && After(mm, mid, g, r, p, n)[t] == w + b
  {
    var g, r, n := Plain(mm, src, channelBias, dst), PlainRequant(channelBias), mm.shape.m * mm.shape.n;
    var s, u := AtTail(mm, mid, p, Spikes(1)), Run(mid, p, Spikes(1));
    PieceFacts(mm, mid, g);
    PieceRuns(mm, mid, g, r, p, Spikes(1));
    hide Computed, AtTail, Run, PlainTail, Piece, Midway, ColumnBias;
    ComputedAt(mm, p, t, n);
    ComputedAt(g, s, t, n);
    ComputedAt(Fused(mm, g, r), u, t, n);
    FirstValue(mm, Mid1(mm, p, t), t);
    PlainElement(mm, src, channelBias, dst, s, Computed(g, s, t));
    FusedElement(mm, src, channelBias, dst, u, Computed(Fused(mm, g, r), u, t));
  }

  lemma FirstValue(mm: Op, store: Store, t: nat)
    requires mm.MatMul? && mm.shape.n > 0 && !mm.accumulate && 0 <= Raw(mm, store, t) <= 127
    ensures Element(mm, store, t) == Raw(mm, store, t)
  {
    hide Product;
  }

  /** The piece of the program the equivalence is about, with a plain requantization at its end. */
  ghost predicate Given(mm: Op, mid: seq<Op>, src: Value, channelBias: Option<Value>, dst: Value) {
    && mm.MatMul? && Sized(mm) && Piece(mm, mid, Plain(mm, src, channelBias, dst)) && forall op | op in mid :: Opaque(op)
  }

  /** The witnesses hold small numbers. */
  ghost predicate Small(p: Store) {
    forall r: nat, i: nat :: 0 <= At(p(r), i) <= 2
  }

  /** Both results begin the same, and what the matmul computed first is `a`. */
  ghost predicate Starts(mm: Op, mid: seq<Op>, g: Op, r: Requant, p: Store, t: nat, a: int, z: int)
    requires mm.MatMul? && g.Requantize?
  {
    && t > 0 && 0 <= a <= 10 && 0 <= z <= 2
    && Computed(mm, p, t)[0] == a && Before(mm, mid, g, p, t)[0] == a + z && After(mm, mid, g, r, p, t)[0] == a + z
  }

  lemma {:induction false} SmallRun(mid: seq<Op>, p: Store, r: nat)
    requires (forall op | op in mid :: Opaque(op)) && Small(p)
    ensures forall i: nat :: 0 <= At(Run(mid, p, Spikes(1))(r), i) <= 2
  {
    hide Run, WritesTo;
    SpikesRun(mid, p, 1, r);
  }

  /** At the elements looked at, both programs add the same per column. */
  lemma {:induction false} ColumnsAgree(mm: Op, mid: seq<Op>, src: Value, channelBias: Option<Value>, dst: Value, p: Store, t: nat, a: int, z: int)
    requires Given(mm, mid, src, channelBias, dst) && Small(p)
    requires t % mm.shape.n == t || (t % mm.shape.n == 0 && Starts(mm, mid, Plain(mm, src, channelBias, dst), PlainRequant(channelBias), p, t, a, z))
    ensures SameColumn(mm, mid, Plain(mm, src, channelBias, dst), PlainRequant(channelBias), p, t)
  {
    var g, r := Plain(mm, src, channelBias, dst), PlainRequant(channelBias);
    PieceFacts(mm, mid, g);
    PieceRuns(mm, mid, g, r, p, Spikes(1));
    hide Run, Computed, AtTail, PlainTail, Piece, Overlay;
    if channelBias.Some? {
      var b := Root(channelBias.value);
      SmallRun(mid, p, b);
      OverlayAt(AtTail(mm, mid, p, Spikes(1))(b), Before(mm, mid, g, p, t), t % mm.shape.n);
      OverlayAt(Run(mid, p, Spikes(1))(b), After(mm, mid, g, r, p, t), t % mm.shape.n);
    }
  }

  /** What an operand that nothing in between writes holds when element `t` is computed by the matmul, and by the fused
      operation. */
  lemma {:induction false} SeenAt(mm: Op, mid: seq<Op>, g: Op, r: Requant, p: Store, t: nat, x: nat, i: nat)
    requires mm.MatMul? && g.Requantize? && Run(mid, p, Spikes(1))(x) == p(x)
    ensures At(Mid1(mm, p, t)(x), i) == if x == Root(mm.out) && i < t then Computed(mm, p, t)[i] else At(p(x), i)
    ensures At(Mid2(mm, mid, g, r, p, t)(x), i) == if x == Root(g.dst) && i < t then After(mm, mid, g, r, p, t)[i] else At(p(x), i)
  {
    hide Run, Computed, Overlay;
    OverlayAt(p(x), Computed(mm, p, t), i);
    OverlayAt(p(x), After(mm, mid, g, r, p, t), i);
  }

  /** When nothing in between writes the operands, the first elements of both results are the same. */
  lemma {:induction false} StableStarts(mm: Op, mid: seq<Op>, src: Value, channelBias: Option<Value>, dst: Value, p: Store, t: nat)
    returns (z: int)
    requires Given(mm, mid, src, channelBias, dst) && Small(p) && Stable(mm, mid)
    requires 0 < t < mm.shape.m * mm.shape.n && 0 <= Raw(mm, p, 0) <= 10
    ensures Starts(mm, mid, Plain(mm, src, channelBias, dst), PlainRequant(channelBias), p, t, Raw(mm, p, 0), z)
  {
    hide Run, Computed, PlainTail, Piece, Stable, Raw, ColumnBias, SameColumn;
    var g, r := Plain(mm, src, channelBias, dst), PlainRequant(channelBias);
    StableKeeps(mm, mid, p, Spikes(1));
    RawStarts(mm, mid, g, r, p);
    ColumnsAgree(mm, mid, src, channelBias, dst, p, 0, 0, 0);
    var a := Raw(mm, p, 0);
    z := ColumnBias(g, Mid2(mm, mid, g, r, p, 0), 0);
    ColumnSmall(mm, mid, g, r, p);
    RawAgrees(mm, p, Run(mid, p, Spikes(1)));
    FirstElements(mm, mid, src, channelBias, dst, p, t, a, a);
  }

  lemma {:induction false} ColumnSmall(mm: Op, mid: seq<Op>, g: Op, r: Requant, p: Store)
    requires mm.MatMul? && g.Requantize? && (forall op | op in mid :: Opaque(op)) && Small(p)
    ensures 0 <= ColumnBias(g, Mid2(mm, mid, g, r, p, 0), 0) <= 2
  {
    hide Run;
    if g.channelBias.Some? {
      var b := Root(g.channelBias.value);
      SmallRun(mid, p, b);
      OverlayAt(Run(mid, p, Spikes(1))(b), [], 0);
    }
  }

  lemma RawAgrees(mm: Op, p: Store, q: Store)
    requires mm.MatMul? && mm.shape.n > 0 && p(Root(mm.lhs)) == q(Root(mm.lhs)) && p(Root(mm.rhs)) == q(Root(mm.rhs))
    requires mm.bias.Some? ==> p(Root(mm.bias.value.value)) == q(Root(mm.bias.value.value))
    ensures Raw(mm, p, 0) == Raw(mm, q, 0)
  {
    hide Product;
  }

  lemma {:induction false} RawStarts(mm: Op, mid: seq<Op>, g: Op, r: Requant, p: Store)
    requires mm.MatMul? && g.Requantize? && mm.shape.n > 0
    ensures Raw(mm, Mid1(mm, p, 0), 0) == Raw(mm, p, 0) && Raw(mm, Mid2(mm, mid, g, r, p, 0), 0) == Raw(mm, Run(mid, p, Spikes(1)), 0)
  {
    hide Run, Product;
    var u := Run(mid, p, Spikes(1));
    forall x: nat ensures Mid1(mm, p, 0)(x) == p(x) && Mid2(mm, mid, g, r, p, 0)(x) == u(x) {
    }
  }

  /** From element zero to the beginning of the results. */
  lemma {:induction false} FirstElements(mm: Op, mid: seq<Op>, src: Value, channelBias: Option<Value>, dst: Value, p: Store, t: nat, v: int, w: int)
    requires Given(mm, mid, src, channelBias, dst) && 0 < t < mm.shape.m * mm.shape.n && 0 <= v <= 100 && 0 <= w <= 100
    requires var g, r := Plain(mm, src, channelBias, dst), PlainRequant(channelBias);
      && SameColumn(mm, mid, g, r, p, 0) && Raw(mm, Mid1(mm, p, 0), 0) == v && Raw(mm, Mid2(mm, mid, g, r, p, 0), 0) == w
    ensures var g, r := Plain(mm, src, channelBias, dst), PlainRequant(channelBias);
      var z := ColumnBias(g, Mid2(mm, mid, g, r, p, 0), 0);
      && Computed(mm, p, t)[0] == v && Before(mm, mid, g, p, t)[0] == v + z && After(mm, mid, g, r, p, t)[0] == w + z
  {
    hide Run, Element, PlainTail, Piece, Raw, SameColumn, ColumnBias, Midway, Spike;
    var g, r, n := Plain(mm, src, channelBias, dst), PlainRequant(channelBias), mm.shape.m * mm.shape.n;
    ElementsAt(mm, mid, src, channelBias, dst, p, 0, v, w);
    ComputedPrefix(mm, p, t, n);
    ComputedPrefix(g, AtTail(mm, mid, p, Spikes(1)), t, n);
    ComputedPrefix(Fused(mm, g, r), Run(mid, p, Spikes(1)), t, n);
  }

  /** A later element that comes out different. */
  lemma {:induction false} LaterParts(mm: Op, mid: seq<Op>, src: Value, channelBias: Option<Value>, dst: Value, p: Store, t: nat, a: int, z: int,
    v: int, w: int)
    requires Given(mm, mid, src, channelBias, dst) && Small(p) && t < mm.shape.m * mm.shape.n
    requires t % mm.shape.n == t || t % mm.shape.n == 0
    requires Starts(mm, mid, Plain(mm, src, channelBias, dst), PlainRequant(channelBias), p, t, a, z) && 0 <= v <= 100 && 0 <= w <= 100 && v != w
    requires Raw(mm, Mid1(mm, p, t), t) == v && Raw(mm, Mid2(mm, mid, Plain(mm, src, channelBias, dst), PlainRequant(channelBias), p, t), t) == w
    ensures Parts(mm, mid, src, channelBias, dst, p)
  {
    hide Run, Computed, PlainTail, Piece, Raw, SameColumn, ColumnBias, Midway, Spike, Starts, Parts, Small;
    ColumnsAgree(mm, mid, src, channelBias, dst, p, t, a, z);
    ElementsAt(mm, mid, src, channelBias, dst, p, t, v, w);
    PartsAt(mm, mid, src, channelBias, dst, p, t);
  }

  /** A piece that is not stable computes another first element. */
  lemma {:induction false} UnstableBreaks(mm: Op, mid: seq<Op>, src: Value, channelBias: Option<Value>, dst: Value)
    requires Given(mm, mid, src, channelBias, dst) && !Stable(mm, mid)
    ensures Parts(mm, mid, src, channelBias, dst, Witness(mm, mid, 1))
  {
    hide Run, Computed, PlainTail, Piece, Stable, Raw, ColumnBias, SameColumn, Parts;
    var g, r, p := Plain(mm, src, channelBias, dst), PlainRequant(channelBias), Witness(mm, mid, 1);
    WitnessAccumulators(mm, mid, 1);
    RawStarts(mm, mid, g, r, p);
    var u := Run(mid, p, Spikes(1));
    ColumnsAgree(mm, mid, src, channelBias, dst, p, 0, 0, 0);
    assert mm.shape.m * mm.shape.n > 0;
    ElementsAt(mm, mid, src, channelBias, dst, p, 0, Raw(mm, p, 0), Raw(mm, u, 0));
    PartsAt(mm, mid, src, channelBias, dst, p, 0);
  }

  // A stable piece whose results disturb the operands computes another element: the second of the first row when that is
  // the left matrix, the first of the second row when it is the right one or the bias.

  /** One at `i`, two at the start, otherwise nothing. */
  function Pair(i: nat): seq<int>
    requires i > 0
  {
    seq(i + 1, k => if k == 0 then 2 else if k == i then 1 else 0)
  }

  ghost function PairStore(mm: Op, i: nat): Store
    requires mm.MatMul? && i > 0
  {
    (r: nat) => if r == Root(mm.lhs) || r == Root(mm.rhs) then Pair(i) else []
  }

  lemma PairAt(i: nat, k: nat)
    requires i > 0
    ensures At(Pair(i), k) == if k == 0 then 2 else if k == i then 1 else 0
  {
  }

  lemma {:induction false} PairSmall(mm: Op, i: nat)
    requires mm.MatMul? && i > 0
    ensures Small(PairStore(mm, i))
  {
    hide Pair;
    forall r: nat, k: nat ensures 0 <= At(PairStore(mm, i)(r), k) <= 2 {
      PairAt(i, k);
    }
  }

  /** A product of which only the first term is there. */
  lemma {:induction false} FirstTerm(s: MatShape, a: seq<int>, b: seq<int>, t: nat)
    requires s.n > 0 && s.k > 0
    requires forall k: nat | 0 < k < s.k :: At(a, LhsIndex(s, t / s.n, k)) == 0 || At(b, RhsIndex(s, k, t % s.n)) == 0
    ensures Product(s, a, b, t) == At(a, LhsIndex(s, t / s.n, 0)) * At(b, RhsIndex(s, 0, t % s.n))
  {
    SumSingle(s.k, (k: nat) => At(a, LhsIndex(s, t / s.n, k)) * At(b, RhsIndex(s, k, t % s.n)), 0);
  }

  /** Where the second column of the right matrix begins. */
  function SecondColumn(s: MatShape): nat { RhsIndex(s, 0, 1) }

  function SecondRow(s: MatShape): nat { LhsIndex(s, 1, 0) }

  /** How the elements used lie about the ones that matter. */
  lemma ColumnIndices(s: MatShape, k: nat)
    requires s.m > 0 && s.n > 1 && k < s.k
    ensures SecondColumn(s) > 0 && RhsIndex(s, k, 1) > 0 && (k > 0 ==> RhsIndex(s, k, 1) != SecondColumn(s))
    ensures k > 0 ==> RhsIndex(s, k, 0) > 0 && RhsIndex(s, k, 0) != SecondColumn(s)
    ensures LhsIndex(s, 0, 0) == 0 && RhsIndex(s, 0, 0) == 0
  {
    if k > 0 {
      assert k * s.n >= s.n;
    }
  }

  lemma RowIndices(s: MatShape, k: nat)
    requires s.m > 1 && s.n > 0 && k < s.k
    ensures SecondRow(s) > 0 && LhsIndex(s, 1, k) > 0 && (k > 0 ==> LhsIndex(s, 1, k) != SecondRow(s))
    ensures k > 0 ==> LhsIndex(s, 0, k) > 0 && LhsIndex(s, 0, k) != SecondRow(s)
    ensures LhsIndex(s, 0, 0) == 0 && RhsIndex(s, 0, 0) == 0
  {
    if k > 0 {
      assert k * s.m >= s.m;
    }
  }

  /** What the bias adds at element `t`. */
  function BiasIndex(mm: Op, t: nat): nat
    requires mm.MatMul? && mm.shape.n > 0 && mm.bias.Some?
  {
    if mm.bias.value.oneRow then t % mm.shape.n else t
  }

  /** The witness for the left matrix, at its second element. */
  lemma {:induction false} ColumnRaw(mm: Op, q: Store, x: int, b: int)
    requires mm.MatMul? && Sized(mm) && mm.shape.n > 1 && At(q(Root(mm.lhs)), 0) == x
    requires SecondColumn(mm.shape) > 0
    requires forall i: nat | i > 0 :: At(q(Root(mm.rhs)), i) == At(Pair(SecondColumn(mm.shape)), i)
    requires b == if mm.bias.Some? then At(q(Root(mm.bias.value.value)), BiasIndex(mm, 1)) else 0
    ensures Raw(mm, q, 1) == x + b
  {
    hide Pair, LhsIndex, RhsIndex, Product;
    var sh := mm.shape;
    assert 1 / sh.n == 0 && 1 % sh.n == 1;
    forall k: nat | k < sh.k ensures At(q(Root(mm.rhs)), RhsIndex(sh, k, 1)) == if k == 0 then 1 else 0 {
      ColumnIndices(sh, k);
      PairAt(SecondColumn(sh), RhsIndex(sh, k, 1));
    }
    ColumnIndices(sh, 0);
    FirstTerm(sh, q(Root(mm.lhs)), q(Root(mm.rhs)), 1);
  }

  /** The witness for the right matrix, at the beginning of its second row. */
  lemma {:induction false} RowRaw(mm: Op, q: Store, x: int, b: int)
    requires mm.MatMul? && Sized(mm) && mm.shape.m > 1 && At(q(Root(mm.rhs)), 0) == x
    requires SecondRow(mm.shape) > 0
    requires forall k: nat | k < mm.shape.k :: At(q(Root(mm.lhs)), LhsIndex(mm.shape, 1, k)) == At(Pair(SecondRow(mm.shape)), LhsIndex(mm.shape, 1, k))
    requires b == if mm.bias.Some? then At(q(Root(mm.bias.value.value)), BiasIndex(mm, mm.shape.n)) else 0
    ensures Raw(mm, q, mm.shape.n) == x + b
  {
    hide Pair, LhsIndex, RhsIndex, Product;
    var sh := mm.shape;
    assert sh.n / sh.n == 1 && sh.n % sh.n == 0;
    forall k: nat | k < sh.k ensures At(q(Root(mm.lhs)), LhsIndex(sh, 1, k)) == if k == 0 then 1 else 0 {
      RowIndices(sh, k);
      PairAt(SecondRow(sh), LhsIndex(sh, 1, k));
    }
    RowIndices(sh, 0);
    FirstTerm(sh, q(Root(mm.lhs)), q(Root(mm.rhs)), sh.n);
  }

  lemma Origins(s: MatShape)
    ensures LhsIndex(s, 0, 0) == 0 && RhsIndex(s, 0, 0) == 0
  {
  }

  /** The first element of either witness. */
  lemma {:induction false} PairRaw(mm: Op, i: nat)
    requires mm.MatMul? && Sized(mm) && i > 0
    requires (mm.shape.n > 1 && i == SecondColumn(mm.shape)) || (mm.shape.m > 1 && i == SecondRow(mm.shape))
    ensures 4 <= Raw(mm, PairStore(mm, i), 0) <= 6
  {
    hide Pair, LhsIndex, RhsIndex, Product, SecondColumn, SecondRow;
    var sh, p := mm.shape, PairStore(mm, i);
    assert 0 / sh.n == 0 && 0 % sh.n == 0;
    forall k: nat | 0 < k < sh.k ensures At(Pair(i), LhsIndex(sh, 0, k)) == 0 || At(Pair(i), RhsIndex(sh, k, 0)) == 0 {
      PairAt(i, LhsIndex(sh, 0, k));
      PairAt(i, RhsIndex(sh, k, 0));
      if sh.n > 1 && i == SecondColumn(sh) {
        ColumnIndices(sh, k);
      } else {
        RowIndices(sh, k);
      }
    }
    Origins(sh);
    PairAt(i, 0);
    FirstTerm(sh, Pair(i), Pair(i), 0);
    PairSmall(mm, i);
  }

  /** The left matrix is written over before it has been read for the second column. */
  lemma {:induction false} LeftBreaks(mm: Op, mid: seq<Op>, src: Value, channelBias: Option<Value>, dst: Value)
    requires Given(mm, mid, src, channelBias, dst) && Stable(mm, mid)
    requires mm.shape.n > 1 && (Root(mm.lhs) == Root(mm.out) || Root(mm.lhs) == Root(dst))
    ensures SecondColumn(mm.shape) > 0 && Parts(mm, mid, src, channelBias, dst, PairStore(mm, SecondColumn(mm.shape)))
  {
    hide Run, Computed, PlainTail, Piece, Stable, Raw, Parts, Small, Mid1, Mid2, Pair;
    var g, r := Plain(mm, src, channelBias, dst), PlainRequant(channelBias);
    PieceFacts(mm, mid, g);
    ColumnIndices(mm.shape, 0);
    var p := PairStore(mm, SecondColumn(mm.shape));
    PairSmall(mm, SecondColumn(mm.shape));
    PairRaw(mm, SecondColumn(mm.shape));
    TwoElements(mm.shape);
    var z := StableStarts(mm, mid, src, channelBias, dst, p, 1);
    StableKeeps(mm, mid, p, Spikes(1));
    var v, w, b := ColumnSeen(mm, mid, g, r, p, Raw(mm, p, 0), z);
    LaterParts(mm, mid, src, channelBias, dst, p, 1, Raw(mm, p, 0), z, v + b, w + b);
  }

  lemma TwoElements(sh: MatShape)
    requires sh.m > 0 && sh.n > 0
    ensures sh.n > 1 ==> 1 < sh.m * sh.n
    ensures sh.m > 1 ==> sh.n < sh.m * sh.n && sh.n % sh.n == 0
  {
    if sh.m > 1 {
      assert sh.n < 2 * sh.n <= sh.m * sh.n;
    }
  }

  lemma {:induction false} ColumnSeen(mm: Op, mid: seq<Op>, g: Op, r: Requant, p: Store, a: int, z: int) returns (v: int, w: int, b: int)
    requires mm.MatMul? && g.Requantize? && Sized(mm) && mm.shape.n > 1 && SecondColumn(mm.shape) > 0
    requires p == PairStore(mm, SecondColumn(mm.shape)) && Starts(mm, mid, g, r, p, 1, a, z)
    requires Run(mid, p, Spikes(1))(Root(mm.lhs)) == p(Root(mm.lhs)) && Run(mid, p, Spikes(1))(Root(mm.rhs)) == p(Root(mm.rhs))
    requires mm.bias.Some? ==> Run(mid, p, Spikes(1))(Root(mm.bias.value.value)) == p(Root(mm.bias.value.value))
    ensures v == (if Root(mm.lhs) == Root(mm.out) then a else 2) && w == (if Root(mm.lhs) == Root(g.dst) then a + z else 2) && 0 <= b <= 2
    ensures Raw(mm, Mid1(mm, p, 1), 1) == v + b && Raw(mm, Mid2(mm, mid, g, r, p, 1), 1) == w + b
  {
    hide Run, Computed, Raw, Mid1, Mid2, Pair, LhsIndex, RhsIndex, SecondColumn, Before, After;
    var i := SecondColumn(mm.shape);
    SeenAt(mm, mid, g, r, p, 1, Root(mm.lhs), 0);
    PairAt(i, 0);
    v, w, b := At(Mid1(mm, p, 1)(Root(mm.lhs)), 0), At(Mid2(mm, mid, g, r, p, 1)(Root(mm.lhs)), 0), 0;
    forall k: nat | k > 0
      ensures At(Mid1(mm, p, 1)(Root(mm.rhs)), k) == At(Pair(i), k) && At(Mid2(mm, mid, g, r, p, 1)(Root(mm.rhs)), k) == At(Pair(i), k)
    {
      SeenAt(mm, mid, g, r, p, 1, Root(mm.rhs), k);
    }
    if mm.bias.Some? {
      assert BiasIndex(mm, 1) == 1;
      SeenAt(mm, mid, g, r, p, 1, Root(mm.bias.value.value), 1);
      b := At(p(Root(mm.bias.value.value)), 1);
      PairAt(i, 1);
    }
    ColumnRaw(mm, Mid1(mm, p, 1), v, b);
    ColumnRaw(mm, Mid2(mm, mid, g, r, p, 1), w, b);
  }

  /** The second row of the left matrix is still there when the first row of the result has been computed. */
  ghost predicate LeftClear(mm: Op, dst: Value)
    requires mm.MatMul?
  {
    Root(mm.lhs) == Root(mm.out) || Root(mm.lhs) == Root(dst) ==> mm.shape.n == 1
  }

  ghost predicate BiasClear(mm: Op, dst: Value)
    requires mm.MatMul?
  {
    mm.bias.Some? && mm.bias.value.oneRow && (Root(mm.bias.value.value) == Root(mm.out) || Root(mm.bias.value.value) == Root(dst))
    ==> mm.shape.m == 1
  }

  lemma {:induction false} SecondRowSeen(mm: Op, mid: seq<Op>, g: Op, r: Requant, p: Store, k: nat)
    requires mm.MatMul? && g.Requantize? && Sized(mm) && mm.shape.m > 1 && LeftClear(mm, g.dst) && k < mm.shape.k
    requires Run(mid, p, Spikes(1))(Root(mm.lhs)) == p(Root(mm.lhs))
    ensures var i := LhsIndex(mm.shape, 1, k);
      && At(Mid1(mm, p, mm.shape.n)(Root(mm.lhs)), i) == At(p(Root(mm.lhs)), i)
      && At(Mid2(mm, mid, g, r, p, mm.shape.n)(Root(mm.lhs)), i) == At(p(Root(mm.lhs)), i)
  {
    hide Run, Computed, Mid1, Mid2, LhsIndex, Before, After;
    RowIndices(mm.shape, k);
    SeenAt(mm, mid, g, r, p, mm.shape.n, Root(mm.lhs), LhsIndex(mm.shape, 1, k));
  }

  lemma {:induction false} RowSeen(mm: Op, mid: seq<Op>, g: Op, r: Requant, p: Store, a: int, z: int) returns (v: int, w: int, b: int)
    requires mm.MatMul? && g.Requantize? && Sized(mm) && mm.shape.m > 1 && SecondRow(mm.shape) > 0
    requires p == PairStore(mm, SecondRow(mm.shape)) && Starts(mm, mid, g, r, p, mm.shape.n, a, z)
    requires LeftClear(mm, g.dst) && BiasClear(mm, g.dst)
    requires Run(mid, p, Spikes(1))(Root(mm.lhs)) == p(Root(mm.lhs)) && Run(mid, p, Spikes(1))(Root(mm.rhs)) == p(Root(mm.rhs))
    requires mm.bias.Some? ==> Run(mid, p, Spikes(1))(Root(mm.bias.value.value)) == p(Root(mm.bias.value.value))
    ensures v == (if Root(mm.rhs) == Root(mm.out) then a else 2) && w == (if Root(mm.rhs) == Root(g.dst) then a + z else 2) && 0 <= b <= 2
    ensures Raw(mm, Mid1(mm, p, mm.shape.n), mm.shape.n) == v + b && Raw(mm, Mid2(mm, mid, g, r, p, mm.shape.n), mm.shape.n) == w + b
  {
    hide Run, Computed, Raw, Mid1, Mid2, Pair, LhsIndex, RhsIndex, SecondRow, Before, After;
    var i, n := SecondRow(mm.shape), mm.shape.n;
    SeenAt(mm, mid, g, r, p, n, Root(mm.rhs), 0);
    PairAt(i, 0);
    v, w, b := At(Mid1(mm, p, n)(Root(mm.rhs)), 0), At(Mid2(mm, mid, g, r, p, n)(Root(mm.rhs)), 0), 0;
    forall k: nat | k < mm.shape.k
      ensures At(Mid1(mm, p, n)(Root(mm.lhs)), LhsIndex(mm.shape, 1, k)) == At(Pair(i), LhsIndex(mm.shape, 1, k))
      ensures At(Mid2(mm, mid, g, r, p, n)(Root(mm.lhs)), LhsIndex(mm.shape, 1, k)) == At(Pair(i), LhsIndex(mm.shape, 1, k))
    {
      SecondRowSeen(mm, mid, g, r, p, k);
    }
    if mm.bias.Some? {
      var j := BiasIndex(mm, n);
      assert n % n == 0;
      SeenAt(mm, mid, g, r, p, n, Root(mm.bias.value.value), j);
      b := At(p(Root(mm.bias.value.value)), j);
      PairAt(i, j);
    }
    RowRaw(mm, Mid1(mm, p, n), v, b);
    RowRaw(mm, Mid2(mm, mid, g, r, p, n), w, b);
  }

  /** The right matrix is written over before it has been read for the second row. */
  lemma {:induction false} RightBreaks(mm: Op, mid: seq<Op>, src: Value, channelBias: Option<Value>, dst: Value)
    requires Given(mm, mid, src, channelBias, dst) && Stable(mm, mid) && LeftClear(mm, dst) && BiasClear(mm, dst)
    requires mm.shape.m > 1 && (Root(mm.rhs) == Root(mm.out) || Root(mm.rhs) == Root(dst))
    ensures SecondRow(mm.shape) > 0 && Parts(mm, mid, src, channelBias, dst, PairStore(mm, SecondRow(mm.shape)))
  {
    hide Run, Computed, PlainTail, Piece, Stable, Raw, Parts, Small, Mid1, Mid2, Pair, LeftClear, BiasClear;
    var g, r := Plain(mm, src, channelBias, dst), PlainRequant(channelBias);
    PieceFacts(mm, mid, g);
    RowIndices(mm.shape, 0);
    var p, n := PairStore(mm, SecondRow(mm.shape)), mm.shape.n;
    PairSmall(mm, SecondRow(mm.shape));
    PairRaw(mm, SecondRow(mm.shape));
    TwoElements(mm.shape);
    var z := StableStarts(mm, mid, src, channelBias, dst, p, n);
    StableKeeps(mm, mid, p, Spikes(1));
    var v, w, b := RowSeen(mm, mid, g, r, p, Raw(mm, p, 0), z);
    LaterParts(mm, mid, src, channelBias, dst, p, n, Raw(mm, p, 0), z, v + b, w + b);
  }

  function Ones(): Store { (r: nat) => Spike(1, 1) }

  /** Where every buffer holds one, the second row has only the bias. */
  lemma {:induction false} OnesRaw(mm: Op, q: Store, x: int)
    requires mm.MatMul? && Sized(mm) && mm.shape.m > 1 && mm.bias.Some? && mm.bias.value.oneRow
    requires forall k: nat | k < mm.shape.k :: At(q(Root(mm.lhs)), LhsIndex(mm.shape, 1, k)) == 0
    requires At(q(Root(mm.bias.value.value)), 0) == x
    ensures Raw(mm, q, mm.shape.n) == x
  {
    hide LhsIndex, RhsIndex, Product;
    var sh := mm.shape;
    assert sh.n / sh.n == 1 && sh.n % sh.n == 0;
    FirstTerm(sh, q(Root(mm.lhs)), q(Root(mm.rhs)), sh.n);
  }

  /** The row of biases is written over before it has been added to the second row. */
  lemma {:induction false} BiasBreaks(mm: Op, mid: seq<Op>, src: Value, channelBias: Option<Value>, dst: Value)
    requires Given(mm, mid, src, channelBias, dst) && Stable(mm, mid) && LeftClear(mm, dst) && !BiasClear(mm, dst)
    ensures Parts(mm, mid, src, channelBias, dst, Ones())
  {
    hide Run, Computed, PlainTail, Piece, Stable, Raw, Parts, Small, Mid1, Mid2, Spike, LhsIndex, Before, After;
    var g, r, p, n := Plain(mm, src, channelBias, dst), PlainRequant(channelBias), Ones(), mm.shape.n;
    PieceFacts(mm, mid, g);
    TwoElements(mm.shape);
    OnesSmall();
    SpikeAccumulator(mm, p, 1, 1, 1, 1);
    var z := StableStarts(mm, mid, src, channelBias, dst, p, n);
    StableKeeps(mm, mid, p, Spikes(1));
    assert Raw(mm, p, 0) == 2;
    var bias := Root(mm.bias.value.value);
    SeenAt(mm, mid, g, r, p, n, bias, 0);
    forall k: nat | k < mm.shape.k
      ensures At(Mid1(mm, p, n)(Root(mm.lhs)), LhsIndex(mm.shape, 1, k)) == 0 && At(Mid2(mm, mid, g, r, p, n)(Root(mm.lhs)), LhsIndex(mm.shape, 1, k)) == 0
    {
      SecondRowSeen(mm, mid, g, r, p, k);
      RowIndices(mm.shape, k);
      OnesAt(LhsIndex(mm.shape, 1, k));
    }
    OnesAt(0);
    var v, w := if bias == Root(mm.out) then 2 else 1, if bias == Root(dst) then 2 + z else 1;
    OnesRaw(mm, Mid1(mm, p, n), v);
    OnesRaw(mm, Mid2(mm, mid, g, r, p, n), w);
    LaterParts(mm, mid, src, channelBias, dst, p, n, 2, z, v, w);
  }

  lemma OnesAt(i: nat)
    ensures At(Spike(1, 1), i) == if i == 0 then 1 else 0
  {
  }

  lemma OnesSmall()
    ensures Small(Ones())
  {
  }

  /** Contents on which the results differ, when the program is not stable or a result disturbs the operands. */
  lemma {:induction false} Differing(mm: Op, mid: seq<Op>, src: Value, channelBias: Option<Value>, dst: Value) returns (p: Store)
    requires Given(mm, mid, src, channelBias, dst)
    requires !(Stable(mm, mid) && Clear(mm, Root(mm.out)) && Clear(mm, Root(dst)))
    ensures Parts(mm, mid, src, channelBias, dst, p)
  {
    hide Avoids, Stable, Run, Parts, PlainTail, Piece;
    if !Stable(mm, mid) {
      UnstableBreaks(mm, mid, src, channelBias, dst);
      p := Witness(mm, mid, 1);
    } else if !LeftClear(mm, dst) {
      LeftBreaks(mm, mid, src, channelBias, dst);
      p := PairStore(mm, SecondColumn(mm.shape));
    } else if !BiasClear(mm, dst) {
      BiasBreaks(mm, mid, src, channelBias, dst);
      p := Ones();
    } else {
      RightBreaks(mm, mid, src, channelBias, dst);
      p := PairStore(mm, SecondRow(mm.shape));
    }
  }

  /** Every tail is requantized as before, for all contents and effects, exactly when the program is stable and neither
      result runs into what is still to be read. */
  lemma {:induction false} FoldExact(mm: Op, mid: seq<Op>, src: Value, channelBias: Option<Value>, dst: Value)
    requires mm.MatMul? && !mm.accumulate && mm.shape.m > 0 && mm.shape.n > 0 && mm.shape.k > 0
    requires (channelBias.Some? ==> mm.bias.None? && Root(channelBias.value) != Root(mm.out))
    requires Root(src) == Root(mm.out) && Root(dst) != Root(mm.out)
    requires forall op | op in mid :: Opaque(op) && Avoids(op, Root(mm.out))
    ensures KeepsMeaning(mm, mid, src, channelBias, dst) <==> Stable(mm, mid) && Clear(mm, Root(mm.out)) && Clear(mm, Root(dst))
  {
    hide Avoids, Stable, Run, Recognises, KeepsMeaning, Parts, PlainTail, Clear;
    if Stable(mm, mid) && Clear(mm, Root(mm.out)) && Clear(mm, Root(dst)) {
      FoldKeeps(mm, mid, src, channelBias, dst);
    } else {
      var p := Differing(mm, mid, src, channelBias, dst);
      PartsBreaks(mm, mid, src, channelBias, dst, p);
    }
  }

  lemma {:induction false} FoldKeeps(mm: Op, mid: seq<Op>, src: Value, channelBias: Option<Value>, dst: Value)
    requires Given(mm, mid, src, channelBias, dst) && Stable(mm, mid) && Clear(mm, Root(mm.out)) && Clear(mm, Root(dst))
    ensures KeepsMeaning(mm, mid, src, channelBias, dst)
  {
    hide Stable, Run, Recognises, Clear, Avoids;
    forall body, r, store: Store, interp: Interp | Recognises(body, channelBias.Some?, r)
      ensures var g := Requantize(src, channelBias, dst, body, mm.shape.n);
        AgreeOff(Root(mm.out), Run([mm] + mid + [g], store, interp), Run(mid + [Fused(mm, g, r)], store, interp))
    {
      FoldPiece(mm, mid, Requantize(src, channelBias, dst, body, mm.shape.n), r, store, interp);
    }
  }

  // Four programs the checks accept and the fold changes.

  /** A matmul with two columns into allocation 2, some operation, and the requantization. */
  function Around(lhs: Value, bias: Option<BiasRef>, between: seq<Op>, dst: Value): seq<Op> {
    [Multiplied(lhs, bias)] + between + [Plain(Multiplied(lhs, bias), Alloc(2), None, dst)]
  }

  function Multiplied(lhs: Value, bias: Option<BiasRef>): Op {
    MatMul(lhs, Alloc(1), Alloc(2), bias, false, MatShape(1, 2, 1, false, false))
  }

  /** The rewrite accepts the program, and there are contents from which it leaves something else in the destination. */
  ghost predicate FoldedWrongly(ops: seq<Op>) {
    && |ops| >= 2 && Accepted(ops, 0, |ops| - 1, PlainRequant(None))
    && exists store, interp ::
      Run(ops, store, interp)(Root(ops[|ops| - 1].dst)) != Run(Folded(ops, 0, |ops| - 1, PlainRequant(None)), store, interp)(Root(ops[|ops| - 1].dst))
  }

  lemma {:induction false} PlainTailMatched()
    ensures Recognition(PlainTail(false), false) == Some(PlainRequant(None))
  {
  }

  lemma {:induction false} AroundBreaks(lhs: Value, bias: Option<BiasRef>, between: seq<Op>, dst: Value)
    requires Root(dst) != 2 && forall op | op in between :: Opaque(op) && Avoids(op, 2)
    requires forall op | op in between :: !Touches(op, Alloc(2)) && LeavesAlone(op, [lhs, Alloc(1)])
    requires !Stable(Multiplied(lhs, bias), between) || !Clear(Multiplied(lhs, bias), Root(dst))
    ensures FoldedWrongly(Around(lhs, bias, between, dst))
  {
    hide Recognition, Run, PlainTail, Stable, Avoids, Touches, LeavesAlone, Recognises, Clear, Fused;
    var ops, mm, r := Around(lhs, bias, between, dst), Multiplied(lhs, bias), PlainRequant(None);
    var k := |ops| - 1;
    PlainTailMatched();
    var p := Differing(mm, between, Alloc(2), None, dst);
    forall i | 0 < i < k ensures ops[i] in between {
      assert ops[i] == between[i - 1];
    }
    assert Accepted(ops, 0, k, r);
    assert ops[1..k] == between && ops[..0] == [] && ops[k + 1..] == [];
    assert Folded(ops, 0, k, r) == between + [Fused(mm, ops[k], r)];
    assert Run(ops, p, Spikes(1))(Root(dst)) != Run(Folded(ops, 0, k, r), p, Spikes(1))(Root(dst));
  }

  /** An operation that refills the bias matrix is let past. */
  lemma {:induction false} RefilledBias()
    ensures FoldedWrongly(Around(Alloc(0), Some(BiasRef(Alloc(4), false)), [Other(0, [], [Alloc(4)], true, [])], Alloc(3)))
  {
    var fill := Other(0, [], [Alloc(4)], true, []);
    assert Operands(fill) == [Alloc(4)] && Named(fill) == [Alloc(4)];
    assert Alloc(4) in Writes(fill);
    assert !Spares(fill, 4);
    AroundBreaks(Alloc(0), Some(BiasRef(Alloc(4), false)), [fill], Alloc(3));
  }

  /** A deallocation of the memory the left matrix is a reshape of is let past. */
  lemma {:induction false} FreedOperand()
    ensures FoldedWrongly(Around(Reshape(Alloc(0), 0), None, [Dealloc(Alloc(0))], Alloc(3)))
  {
    assert !Spares(Dealloc(Alloc(0)), 0);
    AroundBreaks(Reshape(Alloc(0), 0), None, [Dealloc(Alloc(0))], Alloc(3));
  }

  /** A loop or a condition around a write to the left matrix has no operand and is let past. */
  lemma {:induction false} CapturedOperand()
    ensures FoldedWrongly(Around(Alloc(0), None, [Other(0, [], [], false, [Alloc(0)])], Alloc(3)))
  {
    var region := Other(0, [], [], false, [Alloc(0)]);
    assert Operands(region) == [] && Named(region) == [Alloc(0)];
    assert Alloc(0) in Writes(region);
    assert !Spares(region, 0);
    AroundBreaks(Alloc(0), None, [region], Alloc(3));
  }

  /** A requantization into the left matrix itself. */
  lemma {:induction false} IntoOperand()
    ensures FoldedWrongly(Around(Alloc(0), None, [], Alloc(0)))
  {
    AroundBreaks(Alloc(0), None, [], Alloc(0));
  }

  // And two that show what the check for writes is for.

  /** A known write of the left matrix in between is refused. */
  lemma {:induction false} WrittenOperand(r: Requant)
    ensures !Accepted(Around(Alloc(0), None, [Other(0, [], [Alloc(0)], true, [])], Alloc(3)), 0, 2, r)
  {
    hide Recognition, PlainTail;
    var write := Other(0, [], [Alloc(0)], true, []);
    var ops := Around(Alloc(0), None, [write], Alloc(3));
    assert ops[1] == write && Operands(write) == [Alloc(0)];
    assert forall op | op in ops :: Plainly(op);
    assert Alloc(0) in Writes(write) && Root(Alloc(0)) == 0;
    MayWrite(write, 0);
    hide Leaves;
    AcceptedExactly(ops, 0, 2, r);
  }

  /** A known operation that only reads it is let past, and the fold is sound. */
  lemma {:induction false} ReadOperand()
    ensures var ops := Around(Alloc(0), None, [Other(0, [Alloc(0)], [Alloc(5)], true, [])], Alloc(3));
      Accepted(ops, 0, 2, PlainRequant(None)) && Stable(ops[0], ops[1..2])
  {
    hide Recognition, PlainTail;
    var read := Other(0, [Alloc(0)], [Alloc(5)], true, []);
    var ops := Around(Alloc(0), None, [read], Alloc(3));
    assert ops[1] == read && Operands(read) == [Alloc(0), Alloc(5)];
    assert forall op | op in ops :: Plainly(op);
    PlainTailMatched();
    ReadLeaves();
    hide Leaves;
    AcceptedExactly(ops, 0, 2, PlainRequant(None));
    PassedMeansKept(ops, 0, 2, PlainRequant(None), Zeros(), OneMade());
    assert ops[0 + 1..2] == ops[1..2];
  }

  lemma {:induction false} ReadLeaves()
    ensures Leaves(Other(0, [Alloc(0)], [Alloc(5)], true, []), 0) && Leaves(Other(0, [Alloc(0)], [Alloc(5)], true, []), 1)
  {
    var read := Other(0, [Alloc(0)], [Alloc(5)], true, []);
    assert Writes(read) == [Alloc(5)];
    assert FirstNaming(Writes(read), 0) == 1 && FirstNaming(Writes(read), 1) == 1;
  }
}
