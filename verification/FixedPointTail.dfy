/** Recognising the body that is turned into integer arithmetic
    (`lib/Transforms/BatchNormInFixedPoint/BatchNormInFixedPointPass.cpp`): the tail the two forms are then compared
    on is what the body computes, or it is not. */
module FixedPointTail {
  import opened FixedPointBatchNorm
  import opened Rounding
  import opened Wrappers

  /** Argument zero is the dequantized value, the other arguments the coefficients of its channel. */
  datatype Real =
    | Arg(k: nat)
    | Num(c: real)
    | Mul(l: Real, r: Real)
    | Add(l: Real, r: Real)
    | MaxNum(l: Real, r: Real)
    | SelectGt(l: Real, r: Real, whenTrue: Real, whenFalse: Real)

  /** A real rounded to even and converted, a literal, or the larger or smaller of two integers. */
  datatype Int = Converted(x: Real) | Literal(c: int) | MaxS(l: Int, r: Int) | MinS(l: Int, r: Int)

  type Args = nat -> real

  function EvalR(e: Real, args: Args): real {
    match e
    case Arg(k) => args(k)
    case Num(c) => c
    case Mul(l, r) => EvalR(l, args) * EvalR(r, args)
    case Add(l, r) => EvalR(l, args) + EvalR(r, args)
    case MaxNum(l, r) => RMax(EvalR(l, args), EvalR(r, args))
    case SelectGt(l, r, t, f) => if EvalR(l, args) > EvalR(r, args) then EvalR(t, args) else EvalR(f, args)
  }

  function EvalI(e: Int, args: Args): int {
    match e
    case Converted(x) => RoundEven(EvalR(x, args))
    case Literal(c) => c
    case MaxS(l, r) => Max(EvalI(l, args), EvalI(r, args))
    case MinS(l, r) => Min(EvalI(l, args), EvalI(r, args))
  }

  /** `arith.trunci` to eight bits. */
  function Truncated(i: int): int { (i + 128) % 256 - 128 }

  /** The multiplication of the value by a coefficient and the addition of another, either way round. */
  function Affine(e: Real): Option<(nat, nat)> {
    if !e.Add? then None
    else if e.l.Mul? && e.r.Arg? && e.r.k > 0 && Coefficient(e.l).Some? then Some((Coefficient(e.l).value, e.r.k))
    else if e.r.Mul? && e.l.Arg? && e.l.k > 0 && Coefficient(e.r).Some? then Some((Coefficient(e.r).value, e.l.k))
    else None
  }

  function Coefficient(e: Real): Option<nat>
    requires e.Mul?
  {
    if e.l == Arg(0) && e.r.Arg? && e.r.k > 0 then Some(e.r.k)
    else if e.r == Arg(0) && e.l.Arg? && e.l.k > 0 then Some(e.l.k)
    else None
  }

  /** The relu, as a maximum or as a comparison and a selection; what is selected otherwise is not looked at. */
  function UnderRelu(e: Real): Option<Real> {
    if e.SelectGt? && e.r == Num(0.0) && e.whenTrue == e.l then Some(e.l)
    else if e.MaxNum? && e.r == Num(0.0) then Some(e.l)
    else None
  }

  datatype Found = Found(tail: Tail, a: nat, b: nat)

  /** The body before its truncation: an upper bound, which has to be there, over a lower one, which need not be. */
  function Recognise(body: Int): (f: Option<Found>)
    ensures f.Some? ==> body.MinS? && (Under(body.l).Converted?) && Affine(Core(body)) == Some((f.value.a, f.value.b))
  {
    if !body.MinS? || !body.r.Literal? || (body.l.MaxS? && !body.l.r.Literal?) || !Under(body.l).Converted? then None
    else
      var affine := Affine(Core(body));
      if affine.None? then None
      else Some(Found(Tail(UnderRelu(Under(body.l).x).Some?, if body.l.MaxS? then body.l.r.c else -128, body.r.c),
                      affine.value.0, affine.value.1))
  }

  function Under(e: Int): Int { if e.MaxS? then e.l else e }

  /** What is left of the body once the clamp, the conversion and the relu are taken off. */
  function Core(body: Int): Real
    requires body.MinS? && Under(body.l).Converted?
  {
    var v := Under(body.l).x;
    if UnderRelu(v).Some? then UnderRelu(v).value else v
  }

  /** `floatAnswer`, on the value the affine part gives. */
  function FloatAnswer(v: real, t: Tail): int {
    var i := RoundEven(if t.relu && !(v > 0.0) then 0.0 else v);
    var j := if i < t.lo then t.lo else i;
    if j > t.hi then t.hi else j
  }

  /** The clamps that are really in the body. */
  function Finish(body: Int, i: int): int
    requires Recognise(body).Some?
  {
    var t := Recognise(body).value.tail;
    Min(if body.l.MaxS? then Max(i, t.lo) else i, t.hi)
  }

  /** The value times its channel's scale and plus its shift. */
  function Normalised(args: Args, a: nat, b: nat): real { args(0) * args(a) + args(b) }

  ghost predicate MeansAt(body: Int, args: Args)
    requires Recognise(body).Some?
  {
    var f := Recognise(body).value;
    Truncated(EvalI(body, args)) == Truncated(FloatAnswer(Normalised(args, f.a, f.b), f.tail))
  }

  /** The byte the body yields is that of the tail it was taken for, whatever the value and the coefficients. */
  ghost predicate Means(body: Int)
    requires Recognise(body).Some?
  {
    forall args :: MeansAt(body, args)
  }

  /** A bound is there to stop what is below the bytes, or a relu. */
  predicate LowerKept(body: Int)
    requires Recognise(body).Some?
  {
    body.l.MaxS? || Recognise(body).value.tail.relu
  }

  /** What is selected when the value is not positive ends up as zero does. */
  ghost predicate FalseFits(body: Int)
    requires Recognise(body).Some?
  {
    var v := Under(body.l).x;
    v.SelectGt? ==> forall args | !(EvalR(v.l, args) > 0.0) :: FalseAt(body, v.whenFalse, args)
  }

  ghost predicate FalseAt(body: Int, whenFalse: Real, args: Args)
    requires Recognise(body).Some?
  {
    Truncated(Finish(body, RoundEven(EvalR(whenFalse, args)))) == Truncated(FloatAnswer(0.0, Recognise(body).value.tail))
  }

  lemma AffineValue(e: Real, args: Args)
    ensures Affine(e).Some? ==> EvalR(e, args) == Normalised(args, Affine(e).value.0, Affine(e).value.1)
  {
    if Affine(e).Some? {
      assert EvalR(e, args) == EvalR(e.l, args) + EvalR(e.r, args);
      if e.l.Mul? && e.r.Arg? && e.r.k > 0 && Coefficient(e.l).Some? {
        ScaledValue(e.l, args);
      } else {
        ScaledValue(e.r, args);
      }
    }
  }

  lemma ScaledValue(e: Real, args: Args)
    requires e.Mul?
    ensures Coefficient(e).Some? ==> EvalR(e, args) == args(0) * args(Coefficient(e).value)
  {
    assert EvalR(e, args) == EvalR(e.l, args) * EvalR(e.r, args);
  }

  /** What is known of the parts of a recognised body. */
  lemma Parts(body: Int)
    requires Recognise(body).Some?
    ensures var t, v := Recognise(body).value.tail, Under(body.l).x;
      && body.r == Literal(t.hi) && (if body.l.MaxS? then body.l.r == Literal(t.lo) else body.l == Under(body.l) && t.lo == -128)
      && (if t.relu then (v.SelectGt? && v == SelectGt(Core(body), Num(0.0), Core(body), v.whenFalse)) || v == MaxNum(Core(body), Num(0.0))
          else v == Core(body) && v.Add?)
  {
  }

  /** The body at one value: what it computes before its clamps, and those. */
  lemma BodyValue(body: Int, args: Args)
    requires Recognise(body).Some?
    ensures EvalI(body, args) == Finish(body, RoundEven(EvalR(Under(body.l).x, args)))
  {
    hide RoundEven, Recognise, UnderRelu;
    Parts(body);
    var t := Recognise(body).value.tail;
    assert EvalI(Under(body.l), args) == RoundEven(EvalR(Under(body.l).x, args));
    assert EvalI(Literal(t.hi), args) == t.hi && EvalI(Literal(t.lo), args) == t.lo;
  }

  lemma {:induction false} MeansThere(body: Int, args: Args)
    requires Recognise(body).Some? && LowerKept(body)
    requires var v := Under(body.l).x; v.SelectGt? && !(EvalR(v.l, args) > 0.0) ==> FalseAt(body, v.whenFalse, args)
    ensures MeansAt(body, args)
  {
    hide Affine, RoundEven, Recognise, UnderRelu, EvalI, Truncated;
    Parts(body);
    var f, v := Recognise(body).value, Under(body.l).x;
    var x := EvalR(Core(body), args);
    AffineValue(Core(body), args);
    BodyValue(body, args);
    FixesIntegers(0);
    if v.SelectGt? && !(x > 0.0) {
      assert EvalR(v, args) == EvalR(v.whenFalse, args);
      assert FloatAnswer(x, f.tail) == FloatAnswer(0.0, f.tail);
      assert FalseAt(body, v.whenFalse, args);
      assert Truncated(EvalI(body, args)) == Truncated(FloatAnswer(x, f.tail));
    } else if f.tail.relu {
      assert EvalR(v, args) == if x > 0.0 then x else 0.0;
      Monotone(0.0, EvalR(v, args));
      assert RoundEven(EvalR(v, args)) >= 0;
      assert EvalI(body, args) == FloatAnswer(x, f.tail);
    } else {
      assert body.l.MaxS? && EvalR(v, args) == x;
      assert FloatAnswer(x, f.tail) == Min(Max(RoundEven(x), f.tail.lo), f.tail.hi);
      assert EvalI(body, args) == FloatAnswer(x, f.tail);
    }
    assert x == Normalised(args, f.a, f.b);
  }

  /** Without a lower bound and a relu a value below the bytes wraps round, where the tail it is taken for stops. */
  lemma {:induction false} LowerMissing(body: Int)
    requires Recognise(body).Some? && !LowerKept(body)
    ensures !Means(body)
  {
    hide Affine, RoundEven, EvalR;
    var f := Recognise(body).value;
    var low := Min(-128, f.tail.hi) - 1;
    var args: Args := (k: nat) => if k == 0 then 0.0 else low as real;
    AffineValue(Core(body), args);
    BodyValue(body, args);
    CoefficientsNamed(Core(body));
    assert 0.0 * low as real + low as real == low as real;
    FixesIntegers(low);
    assert !MeansAt(body, args);
  }

  lemma CoefficientsNamed(e: Real)
    ensures Affine(e).Some? ==> Affine(e).value.0 > 0 && Affine(e).value.1 > 0
  {
  }

  lemma {:induction false} FalseMissed(body: Int)
    requires Recognise(body).Some? && LowerKept(body) && !FalseFits(body)
    ensures !Means(body)
  {
    hide Affine, RoundEven, Recognise, UnderRelu, EvalI, Truncated;
    Parts(body);
    var f, v := Recognise(body).value, Under(body.l).x;
    var args :| !(EvalR(v.l, args) > 0.0) && !FalseAt(body, v.whenFalse, args);
    AffineValue(Core(body), args);
    BodyValue(body, args);
    FixesIntegers(0);
    assert EvalR(v, args) == EvalR(v.whenFalse, args);
    assert FloatAnswer(EvalR(v.l, args), f.tail) == FloatAnswer(0.0, f.tail);
    assert !MeansAt(body, args);
  }

  /** A recognised body yields the bytes of the tail it is taken for if and only if it has a lower bound or a relu, and
      what a selection gives for a value that is not positive ends up as zero does. */
  lemma {:induction false} RecognitionExact(body: Int)
    requires Recognise(body).Some?
    ensures Means(body) <==> LowerKept(body) && FalseFits(body)
  {
    hide Recognise, FalseAt, MeansAt;
    if !LowerKept(body) {
      LowerMissing(body);
    } else if !FalseFits(body) {
      FalseMissed(body);
    } else {
      forall args ensures MeansAt(body, args) {
        MeansThere(body, args);
      }
    }
  }

  /** When a constant is selected, the second condition is about that constant. */
  lemma {:induction false} ConstantFalse(body: Int, c: real)
    requires Recognise(body).Some? && Under(body.l).x.SelectGt? && Under(body.l).x.whenFalse == Num(c)
    ensures FalseFits(body) <==> Truncated(Finish(body, RoundEven(c))) == Truncated(FloatAnswer(0.0, Recognise(body).value.tail))
  {
    hide RoundEven, Finish, FloatAnswer, Truncated, Recognise, UnderRelu;
    Parts(body);
    var args: Args := (k: nat) => 0.0;
    var v := Under(body.l).x;
    AffineValue(Core(body), args);
    hide Affine, Core;
    assert v.l == Core(body) && EvalR(v.l, args) == 0.0;
    forall args ensures EvalR(Num(c), args) == c {
    }
    assert FalseFits(body) ==> FalseAt(body, v.whenFalse, args);
  }

  // Two bodies that are recognised as what they are not.

  function Normed(): Real { Add(Mul(Arg(0), Arg(1)), Arg(2)) }

  /** A selection of five where the value is not positive is taken for a relu. */
  lemma {:induction false} FiveForZero()
    ensures var body := MinS(MaxS(Converted(SelectGt(Normed(), Num(0.0), Normed(), Num(5.0))), Literal(-128)), Literal(127));
      Recognise(body) == Some(Found(Tail(true, -128, 127), 1, 2)) && !Means(body)
  {
    var body := MinS(MaxS(Converted(SelectGt(Normed(), Num(0.0), Normed(), Num(5.0))), Literal(-128)), Literal(127));
    hide Means, MeansAt, FalseAt;
    assert Affine(Normed()) == Some((1, 2));
    ConstantFalse(body, 5.0);
    FixesIntegers(5);
    FixesIntegers(0);
    RecognitionExact(body);
  }

  /** A body without a lower bound is taken for one that stops at the smallest byte. */
  lemma {:induction false} NoLowerBound()
    ensures var body := MinS(Converted(Normed()), Literal(127));
      Recognise(body) == Some(Found(Tail(false, -128, 127), 1, 2)) && !Means(body)
  {
    hide Means, MeansAt;
    assert Affine(Normed()) == Some((1, 2));
    RecognitionExact(MinS(Converted(Normed()), Literal(127)));
  }
}
