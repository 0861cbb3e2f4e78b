/** Folding a per-channel affine into the weights of the contraction above it
    (`lib/Transforms/FoldBatchNorm/FoldBatchNormPass.cpp`), in exact arithmetic. */
module BatchNorm {
  import opened Arith
  import opened RowMajor
  import opened Sums
  import opened Wrappers

  // The body of the elementwise operation.

  datatype Kind = AddF | SubF | NegF | TruncF | ExtF | MulF | DivF | Rsqrt | Sqrt | Constant | OtherKind

  /** An operation of the body: the values it reads and the values it defines. */
  datatype Op = Op(kind: Kind, args: seq<nat>, results: seq<nat>)

  /** Values are numbered. The activation is value 0, the per-channel operands follow it, `constants` are the values
      that are floating-point constants, and `returned` what the terminator returns. */
  datatype Body = Body(ops: seq<Op>, constants: map<nat, real>, returned: seq<nat>)

  // What the body computes, for one number: nothing when it divides by zero or takes the root of a negative number.
  // `root` is the square root; nothing below depends on what it returns.

  type Env<T> = map<nat, T>

  function Read(env: Env<real>, constants: map<nat, real>, v: nat): Option<real> {
    if v in env then Some(env[v]) else if v in constants then Some(constants[v]) else None
  }

  /** The root of a positive number is never the zero this leaves alone. */
  function Reciprocal(v: real): real {
    if v == 0.0 then 0.0 else 1.0 / v
  }

  function Compute(kind: Kind, x: real, y: real, root: real -> real): Option<real> {
    match kind
    case AddF => Some(x + y)
    case SubF => Some(x - y)
    case NegF => Some(-x)
    case TruncF | ExtF => Some(x)
    case MulF => Some(RTimes(x, y))
    case DivF => if y == 0.0 then None else Some(Over(x, y))
    case Rsqrt => if x <= 0.0 then None else Some(Reciprocal(root(x)))
    case Sqrt => if x < 0.0 then None else Some(root(x))
    case Constant | OtherKind => None
  }

  function ExecuteOp(op: Op, constants: map<nat, real>, env: Env<real>, root: real -> real): Option<Env<real>> {
    if op.kind == Constant then Some(env)
    else
      var x := if |op.args| >= 1 then Read(env, constants, op.args[0]) else Some(0.0);
      var y := if |op.args| == 2 then Read(env, constants, op.args[1]) else Some(0.0);
      if x.None? || y.None? || |op.results| != 1 then None
      else
        var r := Compute(op.kind, x.value, y.value, root);
        if r.None? then None else Some(env[op.results[0] := r.value])
  }

  function Execute(ops: seq<Op>, constants: map<nat, real>, env: Env<real>, root: real -> real): Option<Env<real>> {
    if ops == [] then Some(env)
    else
      var before := Execute(ops[..|ops| - 1], constants, env, root);
      if before.None? then None else ExecuteOp(ops[|ops| - 1], constants, before.value, root)
  }

  /** Value 0 and the operands after it. */
  function Arguments<T>(first: T, operands: seq<T>): Env<T> {
    if operands == [] then map[0 := first]
    else Arguments(first, operands[..|operands| - 1])[|operands| := operands[|operands| - 1]]
  }

  /** What the body makes of the activation `x`. */
  function Meaning(body: Body, operands: seq<real>, x: real, root: real -> real): Option<real> {
    var after := Execute(body.ops, body.constants, Arguments(x, operands), root);
    if after.None? || |body.returned| != 1 then None else Read(after.value, body.constants, body.returned[0])
  }

  // The abstract evaluation.

  /** `a * in + b`. */
  datatype Linear = Linear(a: real, b: real) {
    predicate IsConst() { a == 0.0 }
    function At(x: real): real { RTimes(a, x) + b }
  }

  function Get(env: Env<Linear>, constants: map<nat, real>, v: nat): Option<Linear> {
    if v in env then Some(env[v]) else if v in constants then Some(Linear(0.0, constants[v])) else None
  }

  function Combine(kind: Kind, x: Linear, y: Linear, root: real -> real): Option<Linear> {
    match kind
    case AddF => Some(Linear(x.a + y.a, x.b + y.b))
    case SubF => Some(Linear(x.a - y.a, x.b - y.b))
    case NegF => Some(Linear(-x.a, -x.b))
    case TruncF | ExtF => Some(x)
    case MulF =>
      if !x.IsConst() && !y.IsConst() then None
      else Some(if x.IsConst() then Linear(RTimes(y.a, x.b), RTimes(y.b, x.b)) else Linear(RTimes(x.a, y.b), RTimes(x.b, y.b)))
    case DivF => if !y.IsConst() || y.b == 0.0 then None else Some(Linear(Over(x.a, y.b), Over(x.b, y.b)))
    case Rsqrt => if !x.IsConst() || x.b <= 0.0 then None else Some(Linear(0.0, Reciprocal(root(x.b))))
    case Sqrt => if !x.IsConst() || x.b < 0.0 then None else Some(Linear(0.0, root(x.b)))
    case Constant | OtherKind => None
  }

  /** What is refused: a product or a quotient that would not be affine, a division by zero, the root of what is not a
      number or too small a one, and all operations outside the vocabulary. */
  lemma CombineRefuses(kind: Kind, x: Linear, y: Linear, root: real -> real)
    ensures Combine(kind, x, y, root).None? <==>
      || (kind == MulF && x.a != 0.0 && y.a != 0.0)
      || (kind == DivF && (y.a != 0.0 || y.b == 0.0))
      || (kind == Rsqrt && (x.a != 0.0 || x.b <= 0.0))
      || (kind == Sqrt && (x.a != 0.0 || x.b < 0.0))
      || kind == Constant || kind == OtherKind
  {
  }

  function AbstractOp(op: Op, constants: map<nat, real>, env: Env<Linear>, root: real -> real): Option<Env<Linear>> {
    if op.kind == Constant then Some(env)
    else
      var x := if |op.args| >= 1 then Get(env, constants, op.args[0]) else Some(Linear(0.0, 0.0));
      var y := if |op.args| == 2 then Get(env, constants, op.args[1]) else Some(Linear(0.0, 0.0));
      if x.None? || y.None? || |op.args| > 2 || |op.results| != 1 then None
      else
        var r := Combine(op.kind, x.value, y.value, root);
        if r.None? then None else Some(env[op.results[0] := r.value])
  }

  /** The abstract values after the operations. */
  function Abstract(ops: seq<Op>, constants: map<nat, real>, env: Env<Linear>, root: real -> real): Option<Env<Linear>> {
    if ops == [] then Some(env)
    else
      var before := Abstract(ops[..|ops| - 1], constants, env, root);
      if before.None? then None else AbstractOp(ops[|ops| - 1], constants, before.value, root)
  }

  function Numbers(operands: seq<real>): seq<Linear> {
    seq(|operands|, i requires 0 <= i < |operands| => Linear(0.0, operands[i]))
  }

  function Starting(operands: seq<real>): Env<Linear> {
    Arguments(Linear(1.0, 0.0), Numbers(operands))
  }

  function Evaluated(body: Body, operands: seq<real>, root: real -> real): Option<Linear> {
    var after := Abstract(body.ops, body.constants, Starting(operands), root);
    if after.None? || |body.returned| != 1 then None else Get(after.value, body.constants, body.returned[0])
  }

  /** One turn of the loop of `evaluate`. */
  method EvaluateOp(op: Op, constants: map<nat, real>, values: Env<Linear>, root: real -> real) returns (r: Option<Env<Linear>>)
    ensures r == AbstractOp(op, constants, values, root)
  {
    hide Combine;
    if op.kind == Constant {
      return Some(values);
    }
    var x, y := Linear(0.0, 0.0), Linear(0.0, 0.0);
    if |op.args| >= 1 {
      var got := Get(values, constants, op.args[0]);
      if got.None? {
        return None;
      }
      x := got.value;
    }
    if |op.args| == 2 {
      var got := Get(values, constants, op.args[1]);
      if got.None? {
        return None;
      }
      y := got.value;
    }
    if |op.args| > 2 || |op.results| != 1 {
      return None;
    }
    var made := Combine(op.kind, x, y, root);
    return if made.None? then None else Some(values[op.results[0] := made.value]);
  }

  /** `evaluate`. */
  method Evaluate(body: Body, operands: seq<real>, root: real -> real) returns (r: Option<Linear>)
    ensures r == Evaluated(body, operands, root)
  {
    hide AbstractOp;
    var values: Env<Linear> := map[0 := Linear(1.0, 0.0)];
    for i := 0 to |operands|
      invariant values == Starting(operands[..i])
    {
      values := values[i + 1 := Linear(0.0, operands[i])];
      assert Numbers(operands[..i + 1])[..i] == Numbers(operands[..i]);
    }
    assert operands[..|operands|] == operands;
    for n := 0 to |body.ops|
      invariant Abstract(body.ops[..n], body.constants, Starting(operands), root) == Some(values)
    {
      assert body.ops[..n + 1][..n] == body.ops[..n];
      var after := EvaluateOp(body.ops[n], body.constants, values, root);
      if after.None? {
        AbstractFails(body.ops, n + 1, body.constants, Starting(operands), root);
        return None;
      }
      values := after.value;
    }
    assert body.ops[..|body.ops|] == body.ops;
    if |body.returned| != 1 {
      return None;
    }
    r := Get(values, body.constants, body.returned[0]);
  }

  /** A prefix that cannot be evaluated stays so. */
  lemma {:induction false} AbstractFails(ops: seq<Op>, n: nat, constants: map<nat, real>, env: Env<Linear>, root: real -> real)
    requires n <= |ops| && Abstract(ops[..n], constants, env, root).None?
    ensures Abstract(ops, constants, env, root).None?
    decreases |ops|
  {
    if n == |ops| {
      assert ops[..n] == ops;
    } else {
      assert ops[..|ops| - 1][..n] == ops[..n];
      AbstractFails(ops[..|ops| - 1], n, constants, env, root);
    }
  }

  /** Every abstract value describes the number it stands for. */
  ghost predicate Describes(abs: Env<Linear>, env: Env<real>, x: real) {
    && (forall v :: v in abs <==> v in env)
    && forall v | v in abs :: v in env && env[v] == abs[v].At(x)
  }

  lemma Distribution(a: real, b: real, x: real)
    ensures RTimes(a + b, x) == RTimes(a, x) + RTimes(b, x) && RTimes(a - b, x) == RTimes(a, x) - RTimes(b, x)
    ensures RTimes(-a, x) == -RTimes(a, x) && RTimes(0.0, x) == 0.0
  {
  }

  lemma ScaleMoves(a: real, x: real, b: real, k: real)
    ensures RTimes(RTimes(a, x) + b, k) == RTimes(RTimes(a, k), x) + RTimes(b, k)
    ensures RTimes(k, RTimes(a, x) + b) == RTimes(RTimes(a, k), x) + RTimes(b, k)
  {
    assert (a * x) * k == (a * k) * x;
  }

  lemma Divided(a: real, x: real, b: real, d: real)
    requires d != 0.0
    ensures Over(RTimes(a, x) + b, d) == RTimes(Over(a, d), x) + Over(b, d)
  {
    var q, r := a / d, b / d;
    assert a == q * d && b == r * d;
    ScaleMoves(q, x, r, d);
    assert (a * x + b) == (q * x + r) * d;
  }

  lemma CombineSound(kind: Kind, x: Linear, y: Linear, at: real, root: real -> real)
    requires Combine(kind, x, y, root).Some?
    ensures Compute(kind, x.At(at), y.At(at), root) == Some(Combine(kind, x, y, root).value.At(at))
  {
    hide RTimes, Over, Reciprocal;
    Distribution(x.a, y.a, at);
    match kind
    case MulF =>
      if x.IsConst() {
        ScaleMoves(y.a, at, y.b, x.b);
      } else {
        ScaleMoves(x.a, at, x.b, y.b);
      }
    case DivF => Divided(x.a, at, x.b, y.b);
    case _ =>
  }

  lemma DescribesPut(abs: Env<Linear>, env: Env<real>, x: real, v: nat, l: Linear)
    requires Describes(abs, env, x)
    ensures Describes(abs[v := l], env[v := l.At(x)], x)
  {
  }

  lemma GetSound(abs: Env<Linear>, env: Env<real>, constants: map<nat, real>, v: nat, x: real)
    requires Describes(abs, env, x) && Get(abs, constants, v).Some?
    ensures Read(env, constants, v) == Some(Get(abs, constants, v).value.At(x))
  {
    assert v in abs <==> v in env;
  }

  lemma AbstractOpMade(op: Op, constants: map<nat, real>, abs: Env<Linear>, env: Env<real>, x: real, root: real -> real,
                       p: Linear, q: Linear)
    requires op.kind != Constant && |op.args| <= 2 && |op.results| == 1
    requires if |op.args| >= 1 then Get(abs, constants, op.args[0]) == Some(p) && Read(env, constants, op.args[0]) == Some(p.At(x))
             else p == Linear(0.0, 0.0) && p.At(x) == 0.0
    requires if |op.args| == 2 then Get(abs, constants, op.args[1]) == Some(q) && Read(env, constants, op.args[1]) == Some(q.At(x))
             else q == Linear(0.0, 0.0) && q.At(x) == 0.0
    requires Combine(op.kind, p, q, root).Some? && Describes(abs, env, x)
    ensures ExecuteOp(op, constants, env, root).Some? && AbstractOp(op, constants, abs, root).Some?
    ensures Describes(AbstractOp(op, constants, abs, root).value, ExecuteOp(op, constants, env, root).value, x)
  {
    hide Combine, Compute, Get, Read, RTimes, Describes, Linear.At;
    CombineSound(op.kind, p, q, x, root);
    DescribesPut(abs, env, x, op.results[0], Combine(op.kind, p, q, root).value);
  }

  function Operand(op: Op, constants: map<nat, real>, abs: Env<Linear>, k: nat): Option<Linear> {
    if if k == 0 then |op.args| >= 1 else |op.args| == k + 1 then Get(abs, constants, op.args[k]) else Some(Linear(0.0, 0.0))
  }

  lemma OperandsCombine(op: Op, constants: map<nat, real>, abs: Env<Linear>, root: real -> real)
    requires op.kind != Constant && AbstractOp(op, constants, abs, root).Some?
    ensures |op.args| <= 2 && |op.results| == 1
    ensures Operand(op, constants, abs, 0).Some? && Operand(op, constants, abs, 1).Some?
    ensures Combine(op.kind, Operand(op, constants, abs, 0).value, Operand(op, constants, abs, 1).value, root).Some?
  {
    hide Combine, Get;
  }

  lemma {:induction false} AbstractOpSound(op: Op, constants: map<nat, real>, abs: Env<Linear>, env: Env<real>, x: real, root: real -> real)
    requires Describes(abs, env, x) && AbstractOp(op, constants, abs, root).Some?
    ensures ExecuteOp(op, constants, env, root).Some?
    ensures Describes(AbstractOp(op, constants, abs, root).value, ExecuteOp(op, constants, env, root).value, x)
  {
    if op.kind != Constant {
      hide Combine, Compute, Get, Read, RTimes, Describes, ExecuteOp, AbstractOp;
      Distribution(0.0, 0.0, x);
      OperandsCombine(op, constants, abs, root);
      if |op.args| >= 1 {
        GetSound(abs, env, constants, op.args[0], x);
      }
      if |op.args| == 2 {
        GetSound(abs, env, constants, op.args[1], x);
      }
      AbstractOpMade(op, constants, abs, env, x, root, Operand(op, constants, abs, 0).value, Operand(op, constants, abs, 1).value);
    }
  }

  lemma {:induction false} AbstractSound(ops: seq<Op>, constants: map<nat, real>, abs: Env<Linear>, env: Env<real>, x: real, root: real -> real)
    requires Describes(abs, env, x) && Abstract(ops, constants, abs, root).Some?
    ensures Execute(ops, constants, env, root).Some?
    ensures Describes(Abstract(ops, constants, abs, root).value, Execute(ops, constants, env, root).value, x)
  {
    if ops != [] {
      hide AbstractOp, ExecuteOp;
      var last := |ops| - 1;
      AbstractSound(ops[..last], constants, abs, env, x, root);
      AbstractOpSound(ops[last], constants, Abstract(ops[..last], constants, abs, root).value,
                      Execute(ops[..last], constants, env, root).value, x, root);
    }
  }

  lemma {:induction false} StartingDescribes(operands: seq<real>, x: real)
    ensures Describes(Starting(operands), Arguments(x, operands), x)
  {
    if operands != [] {
      var last := |operands| - 1;
      StartingDescribes(operands[..last], x);
      assert Numbers(operands)[..last] == Numbers(operands[..last]);
    }
  }

  /** Whenever the evaluation succeeds the body is defined on every real number and computes `a * x + b`. */
  lemma {:induction false} EvaluateSound(body: Body, operands: seq<real>, x: real, root: real -> real)
    requires Evaluated(body, operands, root).Some?
    ensures Meaning(body, operands, x, root) == Some(Evaluated(body, operands, root).value.At(x))
  {
    hide Abstract, Execute;
    StartingDescribes(operands, x);
    AbstractSound(body.ops, body.constants, Starting(operands), Arguments(x, operands), x, root);
  }

  /** A batch norm in evaluation mode: value 0 less the mean, times the reciprocal root of the variance and a small number,
      times one operand, plus another. */
  function NormBody(small: real): Body {
    Body([Op(SubF, [0, 1], [6]), Op(AddF, [2, 5], [7]), Op(Rsqrt, [7], [8]), Op(MulF, [6, 8], [9]), Op(MulF, [9, 3], [10]),
          Op(AddF, [10, 4], [11])], map[5 := small], [11])
  }

  /** Its evaluation is the well-known one: the scale is `gamma / root(variance + small)`, and the offset what is left of
      `beta` when the mean has been scaled. */
  lemma {:induction false} NormEvaluates(mean: real, variance: real, gamma: real, beta: real, small: real, root: real -> real)
    requires variance + small > 0.0 && root(variance + small) > 0.0
    ensures var scale := gamma / root(variance + small);
      var l := Evaluated(NormBody(small), [mean, variance, gamma, beta], root);
      l.Some? && l.value.a == scale && l.value.b == beta - mean * scale
  {
    var ops, constants, r := NormBody(small).ops, map[5 := small], root(variance + small);
    var e0 := Starting([mean, variance, gamma, beta]);
    StartingFive(mean, variance, gamma, beta);
    NormScale(mean, gamma, beta, r);
    hide RTimes, Reciprocal, Abstract, Starting, Evaluated;
    NormFirst(e0, mean, variance, gamma, beta, small, root);
    NormRest(e0, mean, variance, gamma, beta, small, root);
    var e6 := NormRestEnv(NormFirstEnv(e0, mean, variance + small, Reciprocal(r)), mean, gamma, beta, Reciprocal(r));
    assert ops[..6] == ops;
    Returns(NormBody(small), [mean, variance, gamma, beta], e6, 11, root);
  }

  lemma Returns(body: Body, operands: seq<real>, env: Env<Linear>, v: nat, root: real -> real)
    requires Abstract(body.ops, body.constants, Starting(operands), root) == Some(env) && body.returned == [v] && v in env
    ensures Evaluated(body, operands, root) == Some(env[v])
  {
    hide Abstract, Starting;
  }

  function NormFirstEnv(e: Env<Linear>, mean: real, variance: real, i: real): Env<Linear> {
    e[6 := Linear(1.0, -mean)][7 := Linear(0.0, variance)][8 := Linear(0.0, i)]
  }

  function NormRestEnv(e: Env<Linear>, mean: real, gamma: real, beta: real, i: real): Env<Linear> {
    var scaled := Linear(RTimes(1.0, i), RTimes(-mean, i));
    var all := Linear(RTimes(scaled.a, gamma), RTimes(scaled.b, gamma));
    e[9 := scaled][10 := all][11 := Linear(all.a, all.b + beta)]
  }

  ghost predicate NormStart(e: Env<Linear>, mean: real, variance: real, gamma: real, beta: real) {
    e == map[0 := Linear(1.0, 0.0), 1 := Linear(0.0, mean), 2 := Linear(0.0, variance), 3 := Linear(0.0, gamma), 4 := Linear(0.0, beta)]
  }

  lemma {:induction false} NormFirst(e0: Env<Linear>, mean: real, variance: real, gamma: real, beta: real, small: real, root: real -> real)
    requires variance + small > 0.0 && root(variance + small) > 0.0 && NormStart(e0, mean, variance, gamma, beta)
    ensures Abstract(NormBody(small).ops[..3], map[5 := small], e0, root)
         == Some(NormFirstEnv(e0, mean, variance + small, Reciprocal(root(variance + small))))
  {
    hide RTimes, Reciprocal, Abstract, AbstractOp, Combine;
    var ops, constants, r := NormBody(small).ops, map[5 := small], root(variance + small);
    assert ops[..0] == [];
    AbstractNothing(constants, e0, root);
    NormConstants(mean, variance, gamma, beta, small, r, root);
    var e1 := e0[6 := Linear(1.0, -mean)];
    Binary(ops[0], constants, e0, Linear(1.0, 0.0), Linear(0.0, mean), Linear(1.0, -mean), root);
    NormStep(ops, 0, constants, e0, e0, e1, root);
    var e2 := e1[7 := Linear(0.0, variance + small)];
    Binary(ops[1], constants, e1, Linear(0.0, variance), Linear(0.0, small), Linear(0.0, variance + small), root);
    NormStep(ops, 1, constants, e0, e1, e2, root);
    Unary(ops[2], constants, e2, Linear(0.0, variance + small), Linear(0.0, Reciprocal(r)), root);
    NormStep(ops, 2, constants, e0, e2, NormFirstEnv(e0, mean, variance + small, Reciprocal(r)), root);
  }

  lemma {:induction false} NormRest(e0: Env<Linear>, mean: real, variance: real, gamma: real, beta: real, small: real, root: real -> real)
    requires variance + small > 0.0 && root(variance + small) > 0.0 && NormStart(e0, mean, variance, gamma, beta)
    requires Abstract(NormBody(small).ops[..3], map[5 := small], e0, root)
         == Some(NormFirstEnv(e0, mean, variance + small, Reciprocal(root(variance + small))))
    ensures var e3 := NormFirstEnv(e0, mean, variance + small, Reciprocal(root(variance + small)));
      Abstract(NormBody(small).ops[..6], map[5 := small], e0, root)
      == Some(NormRestEnv(e3, mean, gamma, beta, Reciprocal(root(variance + small))))
  {
    hide RTimes, Reciprocal, Abstract, AbstractOp, Combine;
    var ops, constants, r := NormBody(small).ops, map[5 := small], root(variance + small);
    var i := Reciprocal(r);
    var e3 := NormFirstEnv(e0, mean, variance + small, i);
    NormConstants(mean, variance, gamma, beta, small, r, root);
    var scaled := Linear(RTimes(1.0, i), RTimes(-mean, i));
    var all := Linear(RTimes(scaled.a, gamma), RTimes(scaled.b, gamma));
    var e4 := e3[9 := scaled];
    Binary(ops[3], constants, e3, Linear(1.0, -mean), Linear(0.0, i), scaled, root);
    NormStep(ops, 3, constants, e0, e3, e4, root);
    var e5 := e4[10 := all];
    Binary(ops[4], constants, e4, scaled, Linear(0.0, gamma), all, root);
    NormStep(ops, 4, constants, e0, e4, e5, root);
    Binary(ops[5], constants, e5, all, Linear(0.0, beta), Linear(all.a, all.b + beta), root);
    NormStep(ops, 5, constants, e0, e5, NormRestEnv(e3, mean, gamma, beta, i), root);
  }

  lemma NormConstants(mean: real, variance: real, gamma: real, beta: real, small: real, r: real, root: real -> real)
    requires variance + small > 0.0 && root(variance + small) == r > 0.0
    ensures var i := Reciprocal(r);
      var scaled := Linear(RTimes(1.0, i), RTimes(-mean, i));
      var all := Linear(RTimes(scaled.a, gamma), RTimes(scaled.b, gamma));
      && Combine(SubF, Linear(1.0, 0.0), Linear(0.0, mean), root) == Some(Linear(1.0, -mean))
      && Combine(AddF, Linear(0.0, variance), Linear(0.0, small), root) == Some(Linear(0.0, variance + small))
      && Combine(Rsqrt, Linear(0.0, variance + small), Linear(0.0, 0.0), root) == Some(Linear(0.0, i))
      && Combine(MulF, Linear(1.0, -mean), Linear(0.0, i), root) == Some(scaled)
      && Combine(MulF, scaled, Linear(0.0, gamma), root) == Some(all)
      && Combine(AddF, all, Linear(0.0, beta), root) == Some(Linear(all.a, all.b + beta))
  {
    NormScale(mean, gamma, beta, r);
    hide RTimes, Reciprocal;
  }

  lemma Binary(op: Op, constants: map<nat, real>, env: Env<Linear>, x: Linear, y: Linear, r: Linear, root: real -> real)
    requires |op.args| == 2 && |op.results| == 1 && op.kind != Constant && Combine(op.kind, x, y, root) == Some(r)
    requires (op.args[0] in env && env[op.args[0]] == x) && (if op.args[1] in env then env[op.args[1]] == y else op.args[1] in constants && y == Linear(0.0, constants[op.args[1]]))
    ensures AbstractOp(op, constants, env, root) == Some(env[op.results[0] := r])
  {
    hide Combine;
  }

  lemma Unary(op: Op, constants: map<nat, real>, env: Env<Linear>, x: Linear, r: Linear, root: real -> real)
    requires |op.args| == 1 && |op.results| == 1 && op.kind != Constant && Combine(op.kind, x, Linear(0.0, 0.0), root) == Some(r)
    requires op.args[0] in env && env[op.args[0]] == x
    ensures AbstractOp(op, constants, env, root) == Some(env[op.results[0] := r])
  {
    hide Combine;
  }

  lemma AbstractNothing(constants: map<nat, real>, env: Env<Linear>, root: real -> real)
    ensures Abstract([], constants, env, root) == Some(env)
  {
  }

  lemma {:induction false} NormStep(ops: seq<Op>, n: nat, constants: map<nat, real>, e0: Env<Linear>, before: Env<Linear>, after: Env<Linear>, root: real -> real)
    requires n < |ops| && Abstract(ops[..n], constants, e0, root) == Some(before) && AbstractOp(ops[n], constants, before, root) == Some(after)
    ensures Abstract(ops[..n + 1], constants, e0, root) == Some(after)
  {
    hide AbstractOp;
    AbstractNext(ops, n, constants, e0, root);
  }

  lemma {:induction false} AbstractNext(ops: seq<Op>, n: nat, constants: map<nat, real>, env: Env<Linear>, root: real -> real)
    requires n < |ops|
    ensures Abstract(ops[..n + 1], constants, env, root)
         == var before := Abstract(ops[..n], constants, env, root); if before.None? then None else AbstractOp(ops[n], constants, before.value, root)
  {
    hide AbstractOp;
    assert ops[..n + 1][..n] == ops[..n];
  }

  lemma StartingFive(a: real, b: real, c: real, d: real)
    ensures Starting([a, b, c, d]) == map[0 := Linear(1.0, 0.0), 1 := Linear(0.0, a), 2 := Linear(0.0, b), 3 := Linear(0.0, c), 4 := Linear(0.0, d)]
  {
    var n := Numbers([a, b, c, d]);
    var x := Linear(1.0, 0.0);
    assert n == [n[0], n[1], n[2], n[3]];
    assert n[..3] == [n[0], n[1], n[2]] && n[..3][..2] == [n[0], n[1]] && n[..3][..2][..1] == [n[0]] && n[..3][..2][..1][..0] == [];
    assert Arguments(x, n[..3][..2][..1][..0]) == map[0 := x];
    assert Arguments(x, n[..3][..2][..1]) == map[0 := x, 1 := n[0]];
    assert Arguments(x, n[..3][..2]) == map[0 := x, 1 := n[0], 2 := n[1]];
    assert Arguments(x, n[..3]) == map[0 := x, 1 := n[0], 2 := n[1], 3 := n[2]];
  }

  lemma NormScale(mean: real, gamma: real, beta: real, r: real)
    requires r > 0.0
    ensures RTimes(1.0, Reciprocal(r)) != 0.0
    ensures RTimes(RTimes(1.0, Reciprocal(r)), gamma) == gamma / r
    ensures RTimes(RTimes(-mean, Reciprocal(r)), gamma) + beta == beta - mean * (gamma / r)
  {
  }

  // The contractions.

  datatype Contraction = ConvNchwFchw | ConvNhwcHwcf | DepthwiseNchwChw | DepthwiseNhwcHwc | Matmul

  datatype Axes = Axes(result: nat, weights: nat)

  /** `channelAxesOf`: where the output channel sits in the result and in the weights. */
  function ChannelAxes(kind: Contraction): Axes {
    match kind
    case ConvNchwFchw => Axes(1, 0)
    case ConvNhwcHwcf => Axes(3, 3)
    case DepthwiseNchwChw => Axes(1, 0)
    case DepthwiseNhwcHwc => Axes(3, 2)
    case Matmul => Axes(1, 1)
  }

  function WeightRank(kind: Contraction): nat {
    match kind
    case ConvNchwFchw | ConvNhwcHwcf => 4
    case DepthwiseNchwChw | DepthwiseNhwcHwc => 3
    case Matmul => 2
  }

  function ResultRank(kind: Contraction): nat {
    if kind == Matmul then 2 else 4
  }

  /** How many products each result element sums. */
  function Terms(kind: Contraction, ws: seq<nat>): nat
    requires |ws| == WeightRank(kind)
  {
    match kind
    case ConvNchwFchw => ws[1] * ws[2] * ws[3]
    case ConvNhwcHwcf => ws[0] * ws[1] * ws[2]
    case DepthwiseNchwChw => ws[1] * ws[2]
    case DepthwiseNhwcHwc => ws[0] * ws[1]
    case Matmul => ws[0]
  }

  /** The weight the `t`-th product of result element `o` uses. */
  function Tap(kind: Contraction, ws: seq<nat>, o: seq<nat>, t: nat): seq<nat>
    requires |ws| == WeightRank(kind) && |o| == ResultRank(kind)
  {
    match kind
    case ConvNchwFchw => [o[1], Quotient(Quotient(t, ws[3]), ws[2]), Remainder(Quotient(t, ws[3]), ws[2]), Remainder(t, ws[3])]
    case ConvNhwcHwcf => [Quotient(Quotient(t, ws[2]), ws[1]), Remainder(Quotient(t, ws[2]), ws[1]), Remainder(t, ws[2]), o[3]]
    case DepthwiseNchwChw => [o[1], Quotient(t, ws[2]), Remainder(t, ws[2])]
    case DepthwiseNhwcHwc => [Quotient(t, ws[1]), Remainder(t, ws[1]), o[3]]
    case Matmul => [t, o[1]]
  }

  /** Each result element uses weights of its own channel. */
  lemma {:induction false} TapChannel(kind: Contraction, ws: seq<nat>, o: seq<nat>, t: nat)
    requires |ws| == WeightRank(kind) && |o| == ResultRank(kind)
    requires t < Terms(kind, ws) && o[ChannelAxes(kind).result] < ws[ChannelAxes(kind).weights]
    ensures InShape(ws, Tap(kind, ws, o, t))
    ensures Tap(kind, ws, o, t)[ChannelAxes(kind).weights] == o[ChannelAxes(kind).result]
  {
    hide Quotient, Remainder;
    match kind
    case ConvNchwFchw =>
      Split(t, ws[1] * ws[2], ws[3]);
      Split(Quotient(t, ws[3]), ws[1], ws[2]);
    case ConvNhwcHwcf =>
      Split(t, ws[0] * ws[1], ws[2]);
      Split(Quotient(t, ws[2]), ws[0], ws[1]);
    case DepthwiseNchwChw => Split(t, ws[1], ws[2]);
    case DepthwiseNhwcHwc => Split(t, ws[0], ws[1]);
    case Matmul =>
  }

  lemma Split(t: nat, m: nat, n: nat)
    requires t < m * n
    ensures Quotient(t, n) < m && Remainder(t, n) < n
  {
    assert n == 0 ==> m * n == 0;
    DivBound(t, m, n);
  }

  /** Which product takes a given weight. */
  function TapOf(kind: Contraction, ws: seq<nat>, q: seq<nat>): nat
    requires |ws| == |q| == WeightRank(kind)
  {
    match kind
    case ConvNchwFchw => (q[1] * ws[2] + q[2]) * ws[3] + q[3]
    case ConvNhwcHwcf => (q[0] * ws[1] + q[1]) * ws[2] + q[2]
    case DepthwiseNchwChw => q[1] * ws[2] + q[2]
    case DepthwiseNhwcHwc => q[0] * ws[1] + q[1]
    case Matmul => q[0]
  }

  /** Each result element uses every weight of its own channel in one product, and no others: the filter rows, columns and
      input channels in row-major order. */
  lemma {:induction false} TapsAll(kind: Contraction, ws: seq<nat>, o: seq<nat>, q: seq<nat>)
    requires |ws| == WeightRank(kind) && |o| == ResultRank(kind) && InShape(ws, q)
    requires q[ChannelAxes(kind).weights] == o[ChannelAxes(kind).result]
    ensures TapOf(kind, ws, q) < Terms(kind, ws) && Tap(kind, ws, o, TapOf(kind, ws, q)) == q
  {
    hide Tap, TapOf, Terms, InShape;
    InShapeAt(ws, q);
    match kind
    case ConvNchwFchw => TapsFchw(ws, o, q);
    case ConvNhwcHwcf => TapsHwcf(ws, o, q);
    case DepthwiseNchwChw => TapsChw(ws, o, q);
    case DepthwiseNhwcHwc => TapsHwc(ws, o, q);
    case Matmul => TapsMatmul(ws, o, q);
  }

  lemma InShapeAt(ws: seq<nat>, q: seq<nat>)
    requires InShape(ws, q)
    ensures |q| == |ws| && forall d | 0 <= d < |q| :: q[d] < ws[d]
  {
  }

  lemma TapsFchw(ws: seq<nat>, o: seq<nat>, q: seq<nat>)
    requires |ws| == |o| == |q| == 4 && q[0] == o[1] && q[1] < ws[1] && q[2] < ws[2] && q[3] < ws[3]
    ensures TapOf(ConvNchwFchw, ws, q) < Terms(ConvNchwFchw, ws) && Tap(ConvNchwFchw, ws, o, TapOf(ConvNchwFchw, ws, q)) == q
  {
    hide Quotient, Remainder;
    TwoDigits(q[1], ws[1], q[2], ws[2], q[3], ws[3]);
  }

  lemma TapsHwcf(ws: seq<nat>, o: seq<nat>, q: seq<nat>)
    requires |ws| == |o| == |q| == 4 && q[3] == o[3] && q[0] < ws[0] && q[1] < ws[1] && q[2] < ws[2]
    ensures TapOf(ConvNhwcHwcf, ws, q) < Terms(ConvNhwcHwcf, ws) && Tap(ConvNhwcHwcf, ws, o, TapOf(ConvNhwcHwcf, ws, q)) == q
  {
    hide Quotient, Remainder;
    TwoDigits(q[0], ws[0], q[1], ws[1], q[2], ws[2]);
  }

  lemma TapsChw(ws: seq<nat>, o: seq<nat>, q: seq<nat>)
    requires |ws| == |q| == 3 && |o| == 4 && q[0] == o[1] && q[1] < ws[1] && q[2] < ws[2]
    ensures TapOf(DepthwiseNchwChw, ws, q) < Terms(DepthwiseNchwChw, ws)
    ensures Tap(DepthwiseNchwChw, ws, o, TapOf(DepthwiseNchwChw, ws, q)) == q
  {
    hide Quotient, Remainder;
    OneDigit(q[1], ws[1], q[2], ws[2]);
  }

  lemma TapsHwc(ws: seq<nat>, o: seq<nat>, q: seq<nat>)
    requires |ws| == |q| == 3 && |o| == 4 && q[2] == o[3] && q[0] < ws[0] && q[1] < ws[1]
    ensures TapOf(DepthwiseNhwcHwc, ws, q) < Terms(DepthwiseNhwcHwc, ws)
    ensures Tap(DepthwiseNhwcHwc, ws, o, TapOf(DepthwiseNhwcHwc, ws, q)) == q
  {
    hide Quotient, Remainder;
    OneDigit(q[0], ws[0], q[1], ws[1]);
  }

  lemma TapsMatmul(ws: seq<nat>, o: seq<nat>, q: seq<nat>)
    requires |ws| == |q| == |o| == 2 && q[1] == o[1] && q[0] < ws[0]
    ensures TapOf(Matmul, ws, q) < Terms(Matmul, ws) && Tap(Matmul, ws, o, TapOf(Matmul, ws, q)) == q
  {
  }

  lemma OneDigit(a: nat, m: nat, b: nat, n: nat)
    requires a < m && b < n
    ensures a * n + b < m * n && Quotient(a * n + b, n) == a && Remainder(a * n + b, n) == b
  {
    PairBound(a, m, b, n);
    DivModUnique(a, b, n);
  }

  lemma TwoDigits(a: nat, l: nat, b: nat, m: nat, c: nat, n: nat)
    requires a < l && b < m && c < n
    ensures var t := (a * m + b) * n + c;
      t < l * m * n && Quotient(t, n) == a * m + b && Remainder(t, n) == c && Quotient(a * m + b, m) == a && Remainder(a * m + b, m) == b
  {
    hide Quotient, Remainder;
    OneDigit(a, l, b, m);
    OneDigit(a * m + b, l * m, c, n);
  }

  /** The value of result element `o`: what it starts from plus its products. `feed` gives the input element each
      product takes, whatever strides, dilations and layout decide that. */
  ghost function Contract(kind: Contraction, ws: seq<nat>, weights: seq<real>, o: seq<nat>, init: real,
                          feed: (seq<nat>, nat) -> real): real
    requires |ws| == WeightRank(kind) && |o| == ResultRank(kind)
    requires |weights| == Volume(ws) && o[ChannelAxes(kind).result] < ws[ChannelAxes(kind).weights]
  {
    init + RSum(Terms(kind, ws), Products(kind, ws, weights, o, feed))
  }

  ghost function Products(kind: Contraction, ws: seq<nat>, weights: seq<real>, o: seq<nat>, feed: (seq<nat>, nat) -> real): nat -> real
    requires |ws| == WeightRank(kind) && |o| == ResultRank(kind)
    requires |weights| == Volume(ws) && o[ChannelAxes(kind).result] < ws[ChannelAxes(kind).weights]
  {
    (t: nat) => RTimes(feed(o, t), Weight(kind, ws, weights, o, t))
  }

  ghost function Weight(kind: Contraction, ws: seq<nat>, weights: seq<real>, o: seq<nat>, t: nat): real
    requires |ws| == WeightRank(kind) && |o| == ResultRank(kind)
    requires |weights| == Volume(ws) && o[ChannelAxes(kind).result] < ws[ChannelAxes(kind).weights]
  {
    if t < Terms(kind, ws) then
      TapChannel(kind, ws, o, t);
      FlatBound(ws, Tap(kind, ws, o, t));
      weights[Flat(ws, Tap(kind, ws, o, t))]
    else 0.0
  }

  // The rewrite.

  /** The product of the extents inside `axis`. */
  method InnerExtent(ws: seq<nat>, axis: nat) returns (inner: nat)
    requires axis < |ws|
    ensures inner == Volume(ws[axis + 1..])
  {
    inner := 1;
    for d := axis + 1 to |ws|
      invariant inner == Volume(ws[axis + 1..d])
    {
      assert ws[axis + 1..d + 1][..d - axis - 1] == ws[axis + 1..d];
      inner := inner * ws[d];
    }
    assert ws[axis + 1..|ws|] == ws[axis + 1..];
  }

  /** The channel of flat position `i`. */
  function ChannelAt(i: nat, inner: nat, channels: nat): (c: nat)
    requires inner > 0 && channels > 0
    ensures c < channels
  {
    i / inner % channels
  }

  /** The weights, each scaled by the number of its own channel: the flat rule does that whatever the axis is. */
  method ScaleWeights(ws: seq<nat>, axis: nat, weights: seq<real>, scale: seq<real>) returns (scaled: seq<real>)
    requires |weights| == Volume(ws) && axis < |ws| && ws[axis] == |scale|
    ensures |scaled| == |weights|
    ensures forall q | InShape(ws, q) :: Flat(ws, q) < |weights| && scaled[Flat(ws, q)] == RTimes(weights[Flat(ws, q)], scale[q[axis]])
  {
    hide ChannelAt, Volume, RTimes;
    var inner := InnerExtent(ws, axis);
    if |weights| > 0 {
      VolumePositive(ws);
      VolumePositive(ws[axis + 1..]);
    }
    scaled := [];
    for i := 0 to |weights|
      invariant |scaled| == i
      invariant |weights| > 0 ==> inner > 0 && |scale| > 0
      invariant forall j | 0 <= j < i :: scaled[j] == RTimes(weights[j], scale[ChannelAt(j, inner, |scale|)])
    {
      scaled := scaled + [RTimes(weights[i], scale[ChannelAt(i, inner, |scale|)])];
    }
    forall q | InShape(ws, q)
      ensures Flat(ws, q) < |weights| && scaled[Flat(ws, q)] == RTimes(weights[Flat(ws, q)], scale[q[axis]])
    {
      FlatBound(ws, q);
      ChannelOf(ws, q, axis);
    }
  }

  lemma ChannelOf(ws: seq<nat>, q: seq<nat>, axis: nat)
    requires InShape(ws, q) && axis < |ws|
    ensures Volume(ws[axis + 1..]) > 0 && ChannelAt(Flat(ws, q), Volume(ws[axis + 1..]), ws[axis]) == q[axis]
  {
    CoordinateOfFlat(ws, q, axis);
  }

  /** What the contraction starts from. A slice is followed only to a fill. */
  datatype Init = Fill(value: real) | SliceOfFill(value: real) | Broadcast(bias: seq<real>, dim: nat) | OtherInit

  /** What result element `o` starts from. */
  function Start(init: Init, o: seq<nat>): real
    requires init.Broadcast? ==> init.dim < |o| && o[init.dim] < |init.bias|
  {
    match init
    case Fill(k) => k
    case SliceOfFill(k) => k
    case Broadcast(bias, dim) => bias[o[dim]]
    case OtherInit => 0.0
  }

  /** A contraction with constant weights and the elementwise operation above it, whose operands after the activation
      are constant vectors. */
  datatype Site = Site(kind: Contraction, weightShape: seq<nat>, weights: seq<real>, resultShape: seq<nat>, init: Init,
                       body: Body, operands: seq<seq<real>>) {
    ghost predicate Valid() {
      |weightShape| == WeightRank(kind) && |resultShape| == ResultRank(kind) && |weights| == Volume(weightShape)
    }
    function Channels(): nat
      requires |resultShape| == ResultRank(kind)
    {
      resultShape[ChannelAxes(kind).result]
    }
  }

  /** What the operands hold for channel `c`. */
  function Column(operands: seq<seq<real>>, c: nat): seq<real>
    requires forall k | 0 <= k < |operands| :: c < |operands[k]|
  {
    seq(|operands|, k requires 0 <= k < |operands| => operands[k][c])
  }

  /** One number per channel. */
  predicate InitFits(init: Init, axis: nat, channels: nat) {
    match init
    case Fill(_) | SliceOfFill(_) => true
    case Broadcast(bias, dim) => dim == axis && |bias| == channels
    case OtherInit => false
  }

  ghost predicate OperandsFit(site: Site)
    requires site.Valid()
  {
    forall k | 0 <= k < |site.operands| :: |site.operands[k]| == site.Channels()
  }

  /** The affine of channel `c`. */
  ghost function Affine(site: Site, c: nat, root: real -> real): Option<Linear>
    requires site.Valid() && OperandsFit(site) && c < site.Channels()
  {
    Evaluated(site.body, Column(site.operands, c), root)
  }

  ghost predicate Accepted(site: Site, root: real -> real)
    requires site.Valid()
  {
    && OperandsFit(site)
    && (forall c: nat | c < site.Channels() :: Affine(site, c, root).Some?)
    && (exists c: nat :: c < site.Channels() && Affine(site, c, root).value.a != 1.0)
    && site.weightShape[ChannelAxes(site.kind).weights] == site.Channels()
    && InitFits(site.init, ChannelAxes(site.kind).result, site.Channels())
  }

  /** For every input, every element of the rewritten contraction is what the body made of the original's. */
  ghost predicate Folded(site: Site, weights: seq<real>, init: Init, root: real -> real)
    requires site.Valid() && Accepted(site, root)
  {
    && |weights| == |site.weights| && InitFits(init, ChannelAxes(site.kind).result, site.Channels())
    && forall o, feed | InShape(site.resultShape, o) :: FoldedAt(site, weights, init, root, o, feed)
  }

  ghost predicate FoldedAt(site: Site, weights: seq<real>, init: Init, root: real -> real, o: seq<nat>, feed: (seq<nat>, nat) -> real)
    requires site.Valid() && Accepted(site, root) && |weights| == |site.weights| && InShape(site.resultShape, o)
    requires InitFits(init, ChannelAxes(site.kind).result, site.Channels())
  {
    var c := o[ChannelAxes(site.kind).result];
    Meaning(site.body, Column(site.operands, c),
            Contract(site.kind, site.weightShape, site.weights, o, Start(site.init, o), feed), root)
    == Some(Contract(site.kind, site.weightShape, weights, o, Start(init, o), feed))
  }

  lemma {:induction false} ContractScaled(kind: Contraction, ws: seq<nat>, weights: seq<real>, scaled: seq<real>, o: seq<nat>,
                                          init: real, feed: (seq<nat>, nat) -> real, l: Linear)
    requires |ws| == WeightRank(kind) && |o| == ResultRank(kind)
    requires |weights| == |scaled| == Volume(ws) && o[ChannelAxes(kind).result] < ws[ChannelAxes(kind).weights]
    requires forall q | InShape(ws, q) && q[ChannelAxes(kind).weights] == o[ChannelAxes(kind).result] ::
      Flat(ws, q) < |weights| && scaled[Flat(ws, q)] == RTimes(weights[Flat(ws, q)], l.a)
    ensures Contract(kind, ws, scaled, o, RTimes(init, l.a) + l.b, feed) == l.At(Contract(kind, ws, weights, o, init, feed))
  {
    var n := Terms(kind, ws);
    var f, g := Products(kind, ws, weights, o, feed), Products(kind, ws, scaled, o, feed);
    hide Flat, Weight, Terms, RTimes, Products;
    forall t: nat | t < n ensures g(t) == RTimes(l.a, f(t)) {
      ProductScaled(kind, ws, weights, scaled, o, feed, l.a, t);
      TimesIs(l.a, f(t));
    }
    SumScaled(n, f, g, l.a);
    Total(init, RSum(n, f), l.a, l.b);
  }

  lemma TimesIs(x: real, y: real)
    ensures RTimes(x, y) == x * y
  {
  }

  lemma SumScaled(n: nat, f: nat -> real, g: nat -> real, a: real)
    requires forall t: nat | t < n :: g(t) == RTimes(a, f(t))
    ensures RSum(n, g) == RTimes(a, RSum(n, f))
  {
    RSumScale(n, f, g, a);
  }

  lemma Total(init: real, s: real, a: real, b: real)
    ensures RTimes(init, a) + b + RTimes(a, s) == RTimes(a, init + s) + b
  {
  }

  lemma {:induction false} ProductScaled(kind: Contraction, ws: seq<nat>, weights: seq<real>, scaled: seq<real>, o: seq<nat>,
                                         feed: (seq<nat>, nat) -> real, a: real, t: nat)
    requires |ws| == WeightRank(kind) && |o| == ResultRank(kind) && t < Terms(kind, ws)
    requires |weights| == |scaled| == Volume(ws) && o[ChannelAxes(kind).result] < ws[ChannelAxes(kind).weights]
    requires forall q | InShape(ws, q) && q[ChannelAxes(kind).weights] == o[ChannelAxes(kind).result] ::
      Flat(ws, q) < |weights| && scaled[Flat(ws, q)] == RTimes(weights[Flat(ws, q)], a)
    ensures Products(kind, ws, scaled, o, feed)(t) == a * Products(kind, ws, weights, o, feed)(t)
  {
    hide Flat, Terms, Tap, RTimes;
    TapChannel(kind, ws, o, t);
    Reassociate(feed(o, t), Weight(kind, ws, weights, o, t), a);
  }

  lemma Reassociate(x: real, y: real, k: real)
    ensures RTimes(x, RTimes(y, k)) == k * RTimes(x, y)
  {
    assert x * (y * k) == k * (x * y);
  }

  /** What the new weights and start must be, for the fold to be exact. */
  lemma {:induction false} FoldSound(site: Site, scaled: seq<real>, init: Init, root: real -> real, o: seq<nat>, feed: (seq<nat>, nat) -> real)
    requires site.Valid() && Accepted(site, root) && |scaled| == |site.weights| && InShape(site.resultShape, o)
    requires InitFits(init, ChannelAxes(site.kind).result, site.Channels())
    requires forall q | InShape(site.weightShape, q) ::
      var c := q[ChannelAxes(site.kind).weights];
      Flat(site.weightShape, q) < |scaled|
      && scaled[Flat(site.weightShape, q)] == RTimes(site.weights[Flat(site.weightShape, q)], Affine(site, c, root).value.a)
    requires var l := Affine(site, o[ChannelAxes(site.kind).result], root).value;
      Start(init, o) == RTimes(Start(site.init, o), l.a) + l.b
    ensures FoldedAt(site, scaled, init, root, o, feed)
  {
    hide Flat, Meaning, Evaluated, Contract, Start, Linear.At, RTimes;
    var c := o[ChannelAxes(site.kind).result];
    var l := Affine(site, c, root).value;
    var x := Contract(site.kind, site.weightShape, site.weights, o, Start(site.init, o), feed);
    EvaluateSound(site.body, Column(site.operands, c), x, root);
    ContractScaled(site.kind, site.weightShape, site.weights, scaled, o, Start(site.init, o), feed, l);
  }

  /** The body's affine, channel by channel; nothing if one channel has none. */
  method EvaluateChannels(site: Site, root: real -> real) returns (lines: Option<seq<Linear>>)
    requires site.Valid() && OperandsFit(site)
    ensures lines.Some? ==> |lines.value| == site.Channels()
    ensures lines.Some? ==> forall c: nat | c < site.Channels() :: Affine(site, c, root) == Some(lines.value[c])
    ensures lines.None? ==> exists c: nat :: c < site.Channels() && Affine(site, c, root).None?
  {
    hide Evaluated, ChannelAxes, WeightRank, Volume;
    var done: seq<Linear> := [];
    for c := 0 to site.Channels()
      invariant |done| == c
      invariant forall d: nat | d < c :: Affine(site, d, root) == Some(done[d])
    {
      var operands: seq<real> := [];
      for k := 0 to |site.operands|
        invariant operands == Column(site.operands, c)[..k]
      {
        operands := operands + [site.operands[k][c]];
      }
      assert Column(site.operands, c)[..|site.operands|] == Column(site.operands, c);
      var line := Evaluate(site.body, operands, root);
      if line.None? {
        assert Affine(site, c, root).None?;
        return None;
      }
      done := done + [line.value];
    }
    return Some(done);
  }

  /** The number each channel's accumulation starts from. */
  method BaseOf(init: Init, axis: nat, channels: nat) returns (base: Option<seq<real>>)
    ensures base.Some? <==> InitFits(init, axis, channels)
    ensures base.Some? ==> |base.value| == channels
    ensures base.Some? ==> forall o | axis < |o| && o[axis] < channels :: Start(init, o) == base.value[o[axis]]
  {
    match init
    case Fill(k) => return Some(seq(channels, _ => k));
    case SliceOfFill(k) => return Some(seq(channels, _ => k));
    case Broadcast(bias, dim) =>
      if dim != axis || |bias| != channels {
        return None;
      }
      return Some(bias);
    case OtherInit => return None;
  }

  /** Whatever the contraction accumulated onto goes through the same affine; one number for every channel is a fill. */
  method NewInit(base: seq<real>, lines: seq<Linear>, axis: nat) returns (init: Init)
    requires |base| == |lines| > 0
    ensures InitFits(init, axis, |base|)
    ensures forall o | axis < |o| && o[axis] < |base| ::
      Start(init, o) == RTimes(base[o[axis]], lines[o[axis]].a) + lines[o[axis]].b
  {
    hide RTimes;
    var newBias: seq<real> := [];
    for c := 0 to |base|
      invariant |newBias| == c
      invariant forall d | 0 <= d < c :: newBias[d] == RTimes(base[d], lines[d].a) + lines[d].b
    {
      newBias := newBias + [RTimes(base[c], lines[c].a) + lines[c].b];
    }
    init := if forall c | 0 <= c < |newBias| :: newBias[c] == newBias[0] then Fill(newBias[0]) else Broadcast(newBias, axis);
  }

  /** The rewrite: new weights and a new start, or nothing. */
  method FoldIntoWeights(site: Site, root: real -> real) returns (made: Option<(seq<real>, Init)>)
    requires site.Valid()
    ensures made.Some? <==> Accepted(site, root)
    ensures made.Some? ==> Folded(site, made.value.0, made.value.1, root)
  {
    hide Evaluated, Meaning, RTimes, Flat, Volume, Contract, FoldedAt;
    var axes, channels := ChannelAxes(site.kind), site.Channels();
    for k := 0 to |site.operands|
      invariant forall j | 0 <= j < k :: |site.operands[j]| == channels
    {
      if |site.operands[k]| != channels {
        return None;
      }
    }
    var lines := EvaluateChannels(site, root);
    if lines.None? {
      return None;
    }
    var scale: seq<real> := seq(channels, c requires 0 <= c < channels => lines.value[c].a);
    assert forall c: nat | c < channels :: Affine(site, c, root).value.a == scale[c];
    if forall c | 0 <= c < channels :: scale[c] == 1.0 {
      return None;
    }
    if site.weightShape[axes.weights] != channels {
      return None;
    }
    var base := BaseOf(site.init, axes.result, channels);
    if base.None? {
      return None;
    }
    ghost var c :| 0 <= c < channels && scale[c] != 1.0;
    assert Affine(site, c, root).value.a != 1.0;
    var scaled := ScaleWeights(site.weightShape, axes.weights, site.weights, scale);
    var init := NewInit(base.value, lines.value, axes.result);
    forall o, feed | InShape(site.resultShape, o) ensures FoldedAt(site, scaled, init, root, o, feed) {
      FoldSound(site, scaled, init, root, o, feed);
    }
    return Some((scaled, init));
  }

  /** A batch norm after a matrix product with one column, on a fill: accepted unless its scale is one. */
  function NormSite(rows: nat, weights: seq<real>, base: real, mean: real, variance: real, gamma: real, beta: real, small: real): Site {
    Site(Matmul, [|weights|, 1], weights, [rows, 1], Fill(base), NormBody(small), [[mean], [variance], [gamma], [beta]])
  }

  lemma OneColumn(n: nat)
    ensures Volume([n, 1]) == n
  {
    assert [n, 1][..1] == [n] && [n][..0] == [];
    assert Volume([n]) == Volume([]) * n;
    assert Volume([n, 1]) == Volume([n]) * 1;
  }

  lemma {:induction false} NormAccepted(rows: nat, weights: seq<real>, base: real, mean: real, variance: real, gamma: real, beta: real,
                                        small: real, root: real -> real)
    requires variance + small > 0.0 && root(variance + small) > 0.0
    ensures var site := NormSite(rows, weights, base, mean, variance, gamma, beta, small);
      site.Valid() && (Accepted(site, root) <==> gamma / root(variance + small) != 1.0)
  {
    hide Evaluated;
    var site := NormSite(rows, weights, base, mean, variance, gamma, beta, small);
    NormEvaluates(mean, variance, gamma, beta, small, root);
    assert Volume(site.weightShape) == |weights| by { OneColumn(|weights|); }
    assert Column(site.operands, 0) == [mean, variance, gamma, beta];
    assert Affine(site, 0, root) == Evaluated(NormBody(small), [mean, variance, gamma, beta], root);
  }
}
