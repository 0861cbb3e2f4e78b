/** Programs over buffers, as the conversion to accelerator operations sees them once tensors have
    become memory (`lib/Conversion/LinalgToGemmlir/LinalgToGemmlirPass.cpp`).

    A value names memory: an allocation, a reshape of another value (the same bytes in the same order) or a
    window onto part of one. The store maps each allocation to its contents. The operations a rewrite is about are given
    their meaning, element by element in row-major order, each element seeing what those before it have written; every
    other operation is opaque: what it writes is an arbitrary function of what it reads, supplied by an interpretation,
    and so is what freed memory holds. A loop or a condition is one opaque operation that names what its regions use. */
module BufferPrograms {
  import opened Arith
  import opened RequantizeTail
  import opened Rounding
  import opened Sums
  import opened Wrappers

  datatype Value = Alloc(id: nat) | Reshape(source: Value, tag: nat) | Window(source: Value, tag: nat)

  /** The allocation a value ultimately names. */
  function Root(v: Value): nat {
    match v
    case Alloc(id) => id
    case Reshape(s, _) => Root(s)
    case Window(s, _) => Root(s)
  }

  /** `reshapeBaseOf`: the value under a chain of reshapes. */
  function ReshapeBase(v: Value): (b: Value)
    ensures Root(b) == Root(v) && !b.Reshape?
  {
    if v.Reshape? then ReshapeBase(v.source) else v
  }

  /** A bias matrix; one row means the row is repeated. */
  datatype BiasRef = BiasRef(value: Value, oneRow: bool)

  /** The extents of a matmul and how its operands are stored. */
  datatype MatShape = MatShape(m: nat, n: nat, k: nat, transposeLhs: bool, transposeRhs: bool)

  datatype Op =
    | MatMul(lhs: Value, rhs: Value, out: Value, bias: Option<BiasRef>, accumulate: bool, shape: MatShape)
    | Requantize(src: Value, channelBias: Option<Value>, dst: Value, body: IExpr, columns: nat)
    | ScaledMatMul(lhs: Value, rhs: Value, out: Value, bias: Option<BiasRef>, shape: MatShape, scale: real, relu: bool)
    | Copy(from: Value, to: Value)
    | View(result: Value)
    | Dealloc(v: Value)
    | Other(id: nat, inputs: seq<Value>, outputs: seq<Value>, known: bool, captured: seq<Value>)

  /** The operations of a block in order; a rewrite replaces part of the list. */
  class Block {
    var ops: seq<Op>

    constructor (ops: seq<Op>)
      ensures this.ops == ops
    {
      this.ops := ops;
    }
  }

  type Store = nat -> seq<int>

  /** What an opaque operation, by its identity and output position, makes of the contents it reads; and what is found
      in an allocation once it has been freed. */
  datatype Interp = Interp(made: (nat, nat, seq<seq<int>>) -> seq<int>, junk: nat -> seq<int>)

  function BiasValue(b: Option<BiasRef>): seq<Value> {
    if b.None? then [] else [b.value.value]
  }

  function OptValue(v: Option<Value>): seq<Value> {
    if v.None? then [] else [v.value]
  }

  /** Every value an operation has as an operand. */
  function Operands(op: Op): seq<Value> {
    match op
    case MatMul(lhs, rhs, out, bias, _, _) => [lhs, rhs, out] + BiasValue(bias)
    case Requantize(src, bias, dst, _, _) => [src] + OptValue(bias) + [dst]
    case ScaledMatMul(lhs, rhs, out, bias, _, _, _) => [lhs, rhs, out] + BiasValue(bias)
    case Copy(from, to) => [from, to]
    case View(result) => if result.Alloc? then [] else [result.source]
    case Dealloc(v) => [v]
    case Other(_, inputs, outputs, _, _) => inputs + outputs
  }

  /** Every value an operation names: its operands, and what its regions use without that being an operand. */
  function Named(op: Op): seq<Value> {
    if op.Other? then Operands(op) + op.captured else Operands(op)
  }

  /** `writtenOperandsOf`: what an operation writes, or nothing when that is not known. */
  function WrittenOperands(op: Op): Option<seq<Value>> {
    match op
    case MatMul(_, _, out, _, _, _) => Some([out])
    case Requantize(_, _, dst, _, _) => Some([dst])
    case ScaledMatMul(_, _, out, _, _, _, _) => Some([out])
    case Copy(_, to) => Some([to])
    case View(_) => None
    case Dealloc(_) => None
    case Other(_, _, outputs, known, _) => if known then Some(outputs) else None
  }

  /** An operation whose effects are not known may read and write anything it names, and so may what is in its regions. */
  function Reads(op: Op): seq<Value>
    requires op.Other?
  {
    if op.known then op.inputs + op.captured else op.inputs + op.outputs + op.captured
  }

  function Writes(op: Op): seq<Value>
    requires op.Other?
  {
    if op.known then op.outputs + op.captured else op.inputs + op.outputs + op.captured
  }

  function At(s: seq<int>, i: nat): int {
    if i < |s| then s[i] else 0
  }

  function LhsIndex(s: MatShape, row: nat, k: nat): nat {
    if s.transposeLhs then k * s.m + row else row * s.k + k
  }

  function RhsIndex(s: MatShape, k: nat, col: nat): nat {
    if s.transposeRhs then col * s.k + k else k * s.n + col
  }

  /** One element of `A * B`, before anything is added to it. */
  function Product(s: MatShape, a: seq<int>, b: seq<int>, t: nat): int
    requires s.n > 0
  {
    Sum(s.k, (k: nat) => At(a, LhsIndex(s, t / s.n, k)) * At(b, RhsIndex(s, k, t % s.n)))
  }

  function BiasAt(bias: Option<BiasRef>, store: Store, n: nat, t: nat): int
    requires n > 0
  {
    if bias.None? then 0
    else At(store(Root(bias.value.value)), if bias.value.oneRow then t % n else t)
  }

  /** The 32-bit accumulator of a matmul. */
  function Accumulator(s: MatShape, lhs: Value, rhs: Value, bias: Option<BiasRef>, store: Store, t: nat): int
    requires s.n > 0
  {
    Wrap32(Product(s, store(Root(lhs)), store(Root(rhs)), t) + BiasAt(bias, store, s.n, t))
  }

  function Put(store: Store, root: nat, contents: seq<int>): Store {
    (r: nat) => if r == root then contents else store(r)
  }

  function Contents(values: seq<Value>, store: Store): seq<seq<int>> {
    seq(|values|, i requires 0 <= i < |values| => store(Root(values[i])))
  }

  /** Where in `values` an allocation is first named; the length when it is not. */
  function FirstNaming(values: seq<Value>, r: nat): (j: nat)
    ensures j <= |values|
    ensures j < |values| ==> Root(values[j]) == r
    ensures forall i | 0 <= i < j :: Root(values[i]) != r
  {
    if values == [] then 0
    else if Root(values[0]) == r then 0
    else 1 + FirstNaming(values[1..], r)
  }

  /** An operation that computes its result element by element. */
  predicate Computes(op: Op) {
    op.MatMul? || op.Requantize? || op.ScaledMatMul?
  }

  function Destination(op: Op): Value
    requires Computes(op)
  {
    match op
    case MatMul(_, _, out, _, _, _) => out
    case Requantize(_, _, dst, _, _) => dst
    case ScaledMatMul(_, _, out, _, _, _, _) => out
  }

  /** How many elements it computes. */
  function Extent(op: Op, store: Store): nat
    requires Computes(op)
  {
    match op
    case MatMul(_, _, _, _, _, sh) => sh.m * sh.n
    case Requantize(src, _, _, _, _) => |store(Root(src))|
    case ScaledMatMul(_, _, _, _, sh, _, _) => sh.m * sh.n
  }

  /** One element, out of what memory holds by then. */
  function Element(op: Op, store: Store, t: nat): int
    requires Computes(op)
  {
    match op
    case MatMul(lhs, rhs, out, bias, accumulate, sh) =>
      if sh.n == 0 then 0
      else
        var acc := Accumulator(sh, lhs, rhs, bias, store, t);
        if accumulate then Wrap32(acc + At(store(Root(out)), t)) else acc
    case Requantize(src, bias, _, body, columns) =>
      EvalI(body, Env(At(store(Root(src)), t), if bias.None? || columns == 0 then 0 else At(store(Root(bias.value)), t % columns)))
    case ScaledMatMul(lhs, rhs, _, bias, sh, scale, relu) =>
      if sh.n == 0 then 0 else Mvout(scale, relu, Accumulator(sh, lhs, rhs, bias, store, t))
  }

  /** What an allocation holds when its first elements have been written. */
  function Overlay(was: seq<int>, done: seq<int>): seq<int> {
    done + if |done| < |was| then was[|done|..] else []
  }

  /** Memory when the first elements of the result have been written. */
  function Midway(op: Op, store: Store, done: seq<int>): Store
    requires Computes(op)
  {
    Put(store, Root(Destination(op)), Overlay(store(Root(Destination(op))), done))
  }

  /** The first `n` elements of the result, each out of memory as the ones before it have left it. */
  function Computed(op: Op, store: Store, n: nat): (r: seq<int>)
    requires Computes(op)
    ensures |r| == n
  {
    if n == 0 then []
    else
      var done := Computed(op, store, n - 1);
      done + [Element(op, Midway(op, store, done), n - 1)]
  }

  function Exec(op: Op, store: Store, interp: Interp): Store {
    match op
    case Copy(from, to) => Put(store, Root(to), store(Root(from)))
    case View(_) => store
    case Dealloc(v) => Put(store, Root(v), interp.junk(Root(v)))
    case Other(id, _, _, _, _) =>
      var seen, targets := Contents(Reads(op), store), Writes(op);
      (r: nat) =>
        var j := FirstNaming(targets, r);
        if j < |targets| then interp.made(id, j, seen) else store(r)
    case _ => Put(store, Root(Destination(op)), Computed(op, store, Extent(op, store)))
  }

  function Run(ops: seq<Op>, store: Store, interp: Interp): Store
    decreases |ops|
  {
    if ops == [] then store else Run(ops[1..], Exec(ops[0], store, interp), interp)
  }

  lemma {:induction false} RunConcat(a: seq<Op>, b: seq<Op>, store: Store, interp: Interp)
    ensures Run(a + b, store, interp) == Run(b, Run(a, store, interp), interp)
    decreases |a|
  {
    if a == [] {
      assert a + b == b;
    } else {
      assert (a + b)[1..] == a[1..] + b;
      RunConcat(a[1..], b, Exec(a[0], store, interp), interp);
    }
  }

  lemma {:induction false} RunOne(op: Op, p: Store, interp: Interp)
    ensures Run([op], p, interp) == Exec(op, p, interp)
  {
    hide Exec;
    assert [op][1..] == [];
  }

  lemma {:induction false} RunEnds(first: Op, mid: seq<Op>, last: Op, p: Store, interp: Interp)
    ensures Run([first] + mid + [last], p, interp) == Exec(last, Run(mid, Exec(first, p, interp), interp), interp)
  {
    hide Exec;
    RunConcat([first] + mid, [last], p, interp);
    RunConcat([first], mid, p, interp);
    RunOne(first, p, interp);
    RunOne(last, Run(mid, Exec(first, p, interp), interp), interp);
  }

  /** Two stores that hold the same everywhere but in one allocation. */
  ghost predicate AgreeOff(x: nat, s: Store, t: Store) {
    forall r: nat | r != x :: s(r) == t(r)
  }

  /** An operation that neither reads nor writes the memory of `x`. Making a view does neither. */
  ghost predicate Avoids(op: Op, x: nat) {
    op.View? || forall v | v in Named(op) :: Root(v) != x
  }

  /** An operation that does not read the memory of `x` and writes it only by freeing it. */
  ghost predicate Ignores(op: Op, x: nat) {
    op.Dealloc? || Avoids(op, x)
  }

  /** An operation that may not change the memory of `x`. Freeing memory changes it. */
  ghost predicate Spares(op: Op, x: nat) {
    match op
    case Other(_, _, _, _, _) => forall v | v in Writes(op) :: Root(v) != x
    case View(_) => true
    case Dealloc(v) => Root(v) != x
    case _ => forall v | v in WrittenOperands(op).value :: Root(v) != x
  }

  /** Every view is made before it is used. */
  ghost predicate Defined(ops: seq<Op>) {
    forall i, v | 0 <= i < |ops| && v in Named(ops[i]) && !v.Alloc? :: exists m :: 0 <= m < i && ops[m] == View(v)
  }

  /** No memory is named once it has been freed. */
  ghost predicate NothingAfterFree(ops: seq<Op>) {
    forall i, j, v | 0 <= i < j < |ops| && ops[i].Dealloc? && v in Named(ops[j]) :: Root(v) != Root(ops[i].v)
  }

  // Element by element.

  /** An element depends only on what the operands hold. */
  lemma {:induction false} ElementAgrees(op: Op, p: Store, q: Store, t: nat)
    requires Computes(op) && forall v | v in Operands(op) :: p(Root(v)) == q(Root(v))
    ensures Element(op, p, t) == Element(op, q, t)
  {
    hide Product, Wrap32, EvalI, Mvout;
    ComputesOperands(op);
  }

  lemma ComputesOperands(op: Op)
    requires Computes(op)
    ensures Destination(op) in Operands(op)
    ensures !op.Requantize? ==> op.lhs in Operands(op) && op.rhs in Operands(op) && (op.bias.Some? ==> op.bias.value.value in Operands(op))
    ensures op.Requantize? ==> op.src in Operands(op) && (op.channelBias.Some? ==> op.channelBias.value in Operands(op))
  {
    assert forall i | 0 <= i < |Operands(op)| :: Operands(op)[i] in Operands(op);
    if !op.Requantize? {
      assert Operands(op)[0] == op.lhs && Operands(op)[1] == op.rhs && Operands(op)[2] == op.out;
      assert op.bias.Some? ==> Operands(op)[3] == op.bias.value.value;
    }
  }

  /** The elements computed first do not depend on how many there are. */
  lemma {:induction false} ComputedPrefix(op: Op, store: Store, k: nat, n: nat)
    requires Computes(op) && k <= n
    ensures Computed(op, store, n)[..k] == Computed(op, store, k)
    decreases n
  {
    if k < n {
      hide Element, Midway;
      ComputedPrefix(op, store, k, n - 1);
      assert Computed(op, store, n)[..k] == Computed(op, store, n - 1)[..k];
    } else {
      assert Computed(op, store, n)[..n] == Computed(op, store, n);
    }
  }

  lemma {:induction false} ComputedAt(op: Op, store: Store, t: nat, n: nat)
    requires Computes(op) && t < n
    ensures Computed(op, store, n)[..t] == Computed(op, store, t)
    ensures Computed(op, store, n)[t] == Element(op, Midway(op, store, Computed(op, store, t)), t)
  {
    hide Element, Midway;
    ComputedPrefix(op, store, t, n);
    ComputedPrefix(op, store, t + 1, n);
    assert Computed(op, store, n)[t] == Computed(op, store, n)[..t + 1][t];
  }


  /** Nothing has been written when the first element is computed. */
  lemma {:induction false} FirstElement(op: Op, store: Store, n: nat)
    requires Computes(op) && n > 0
    ensures Computed(op, store, n)[0] == Element(op, store, 0)
  {
    hide Element;
    ComputedAt(op, store, 0, n);
    ElementAgrees(op, Midway(op, store, []), store, 0);
  }

  lemma {:induction false} ComputedAgrees(op: Op, x: nat, p: Store, q: Store, n: nat)
    requires Computes(op) && Avoids(op, x) && AgreeOff(x, p, q)
    ensures Computed(op, p, n) == Computed(op, q, n)
    decreases n
  {
    if n > 0 {
      ComputedAgrees(op, x, p, q, n - 1);
      var done := Computed(op, p, n - 1);
      MidwayAgrees(op, x, p, q, done, n - 1);
      hide Element, Avoids, Midway, AgreeOff;
      assert Computed(op, p, n) == done + [Element(op, Midway(op, p, done), n - 1)];
    }
  }

  lemma {:induction false} MidwayAgrees(op: Op, x: nat, p: Store, q: Store, done: seq<int>, t: nat)
    requires Computes(op) && Avoids(op, x) && AgreeOff(x, p, q)
    ensures Element(op, Midway(op, p, done), t) == Element(op, Midway(op, q, done), t)
  {
    hide Element;
    ComputesOperands(op);
    ElementAgrees(op, Midway(op, p, done), Midway(op, q, done), t);
  }

  /** An operation that ignores `x` cannot tell stores apart that differ only there, and one that avoids it leaves it
      alone. */
  lemma {:induction false} IgnoringExec(op: Op, x: nat, p: Store, q: Store, interp: Interp)
    requires Ignores(op, x) && AgreeOff(x, p, q)
    ensures AgreeOff(x, Exec(op, p, interp), Exec(op, q, interp))
    ensures Avoids(op, x) ==> Exec(op, p, interp)(x) == p(x)
  {
    hide Computed;
    match op
    case Copy(from, to) =>
      assert Operands(op)[0] == from && Operands(op)[1] == to;
    case View(_) =>
    case Dealloc(v) =>
      assert v in Operands(op);
    case Other(_, _, _, _, _) =>
      ContentsAgree(Reads(op), x, p, q);
      assert forall v | v in Writes(op) :: v in Named(op);
    case _ =>
      ComputesOperands(op);
      ComputedAgrees(op, x, p, q, Extent(op, p));
  }

  lemma ContentsAgree(values: seq<Value>, x: nat, p: Store, q: Store)
    requires AgreeOff(x, p, q) && forall v | v in values :: Root(v) != x
    ensures Contents(values, p) == Contents(values, q)
  {
  }

  lemma {:induction false} IgnoringRun(ops: seq<Op>, x: nat, p: Store, q: Store, interp: Interp)
    requires (forall op | op in ops :: Ignores(op, x)) && AgreeOff(x, p, q)
    ensures AgreeOff(x, Run(ops, p, interp), Run(ops, q, interp))
    decreases |ops|
  {
    hide Ignores, Avoids, Exec;
    if ops != [] {
      IgnoringExec(ops[0], x, p, q, interp);
      IgnoringRun(ops[1..], x, Exec(ops[0], p, interp), Exec(ops[0], q, interp), interp);
    }
  }

  lemma {:induction false} AvoidingRun(ops: seq<Op>, x: nat, p: Store, q: Store, interp: Interp)
    requires (forall op | op in ops :: Avoids(op, x)) && AgreeOff(x, p, q)
    ensures AgreeOff(x, Run(ops, p, interp), Run(ops, q, interp))
    ensures Run(ops, p, interp)(x) == p(x)
    decreases |ops|
  {
    hide Avoids, Exec;
    if ops != [] {
      IgnoringExec(ops[0], x, p, q, interp);
      AvoidingRun(ops[1..], x, Exec(ops[0], p, interp), Exec(ops[0], q, interp), interp);
    }
  }

  lemma {:induction false} SparingExec(op: Op, x: nat, p: Store, interp: Interp)
    requires Spares(op, x)
    ensures Exec(op, p, interp)(x) == p(x)
  {
    hide Computed;
  }

  lemma {:induction false} SparingRun(ops: seq<Op>, x: nat, p: Store, interp: Interp)
    requires forall op | op in ops :: Spares(op, x)
    ensures Run(ops, p, interp)(x) == p(x)
    decreases |ops|
  {
    hide Spares, Exec;
    if ops != [] {
      SparingExec(ops[0], x, p, interp);
      SparingRun(ops[1..], x, Exec(ops[0], p, interp), interp);
    }
  }
}
