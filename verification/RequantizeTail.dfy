/** Recognising a requantization (`matchRequantize` in
    `lib/Conversion/LinalgToGemmlir/LinalgToGemmlirPass.cpp`).

    The elementwise tail below an i32 accumulator is an expression. Float operations are exact reals, so the
    ordered and unordered comparisons coincide, as do the two spellings of a float minimum or maximum. */
module RequantizeTail {
  import opened Arith
  import opened Rounding
  import opened Wrappers

  datatype Env = Env(acc: int, bias: int)

  datatype Order = Lt | Gt | Ge | Le

  datatype IExpr =
    | Acc
    | Bias
    | IConst(value: int)
    | AddI(il: IExpr, ir: IExpr)
    | MaxSI(il: IExpr, ir: IExpr)
    | MinSI(il: IExpr, ir: IExpr)
    | ToInt(x: FExpr)

  datatype FExpr =
    | ToFloat(i: IExpr)
    | FConst(c: real)
    | MulF(l: FExpr, r: FExpr)
    | DivF(l: FExpr, r: FExpr)
    | AddF(l: FExpr, r: FExpr)
    | SubF(l: FExpr, r: FExpr)
    | MaxF(l: FExpr, r: FExpr)
    | MinF(l: FExpr, r: FExpr)
    | RoundE(x: FExpr)
    | Select(order: Order, l: FExpr, r: FExpr, whenTrue: FExpr, whenFalse: FExpr)

  function Truncate(x: real): int {
    if x >= 0.0 then x.Floor else -(-x).Floor
  }

  /** A conversion drops the fraction. */
  lemma TruncateDrops(x: real)
    ensures x >= 0.0 ==> Truncate(x) as real <= x < Truncate(x) as real + 1.0
    ensures x < 0.0 ==> Truncate(x) as real - 1.0 < x <= Truncate(x) as real
  {
  }

  function Holds(o: Order, x: real, y: real): bool {
    match o
    case Lt => x < y
    case Gt => x > y
    case Ge => x >= y
    case Le => x <= y
  }

  function EvalI(e: IExpr, env: Env): int {
    match e
    case Acc => env.acc
    case Bias => env.bias
    case IConst(v) => v
    case AddI(l, r) => Wrap32(EvalI(l, env) + EvalI(r, env))
    case MaxSI(l, r) => Max(EvalI(l, env), EvalI(r, env))
    case MinSI(l, r) => Min(EvalI(l, env), EvalI(r, env))
    case ToInt(x) => Truncate(EvalF(x, env))
  }

  /** Division by zero is given the value 0; no accepted tail divides by it. */
  function EvalF(e: FExpr, env: Env): real {
    match e
    case ToFloat(i) => EvalI(i, env) as real
    case FConst(c) => c
    case MulF(l, r) => RTimes(EvalF(l, env), EvalF(r, env))
    case DivF(l, r) => var d := EvalF(r, env); if d == 0.0 then 0.0 else Over(EvalF(l, env), d)
    case AddF(l, r) => EvalF(l, env) + EvalF(r, env)
    case SubF(l, r) => EvalF(l, env) - EvalF(r, env)
    case MaxF(l, r) => RMax(EvalF(l, env), EvalF(r, env))
    case MinF(l, r) => RMin(EvalF(l, env), EvalF(r, env))
    case RoundE(x) => RoundEven(EvalF(x, env)) as real
    case Select(o, l, r, t, f) => if Holds(o, EvalF(l, env), EvalF(r, env)) then EvalF(t, env) else EvalF(f, env)
  }

  /** What the accelerator's output pipeline computes: scale, round half to even, saturate. */
  function Mvout(scale: real, relu: bool, acc: int): int {
    Clamp(RoundEven(RTimes(scale, acc as real)), if relu then 0 else -128, 127)
  }

  // The matchers. Each returns the operand under what it recognised.

  datatype Clamped = Clamped(inner: IExpr, lo: int, hi: int)

  function IntConstOperand(l: IExpr, r: IExpr): Option<(int, IExpr)> {
    if r.IConst? then Some((r.value, l)) else if l.IConst? then Some((l.value, r)) else None
  }

  function MatchClamp(e: IExpr): (m: Option<Clamped>)
    ensures m.Some? && m.value.lo <= m.value.hi ==>
      forall env :: EvalI(e, env) == Clamp(EvalI(m.value.inner, env), m.value.lo, m.value.hi)
    ensures m.Some? ==> m.value.inner < e
  {
    match e
    case MaxSI(l, r) =>
      (match IntConstOperand(l, r)
       case Some((lo, MinSI(a, b))) =>
         (match IntConstOperand(a, b)
          case Some((hi, inner)) =>
            assert forall env :: EvalI(MinSI(a, b), env) == Min(EvalI(inner, env), hi);
            Some(Clamped(inner, lo, hi))
          case None => None)
       case _ => None)
    case MinSI(l, r) =>
      (match IntConstOperand(l, r)
       case Some((hi, MaxSI(a, b))) =>
         (match IntConstOperand(a, b)
          case Some((lo, inner)) =>
            assert forall env :: EvalI(MaxSI(a, b), env) == Max(EvalI(inner, env), lo);
            Some(Clamped(inner, lo, hi))
          case None => None)
       case _ => None)
    case _ => None
  }

  datatype Bounded = Bounded(inner: FExpr, bound: real)

  function ConstOperand(l: FExpr, r: FExpr): Option<Bounded> {
    if r.FConst? then Some(Bounded(l, r.c)) else if l.FConst? then Some(Bounded(r, l.c)) else None
  }

  /** The operands in the order `matchFloatUpperBound` and its mirror look at them in a `select`. */
  function SelectOperand(first: FExpr, second: FExpr): Option<Bounded> {
    if first.FConst? then Some(Bounded(second, first.c))
    else if second.FConst? then Some(Bounded(first, second.c))
    else None
  }

  function MatchUpperBound(v: FExpr): (m: Option<Bounded>)
    ensures m.Some? ==> m.value.inner < v
    ensures m.Some? ==> forall env :: EvalF(v, env) == RMin(EvalF(m.value.inner, env), m.value.bound)
  {
    match v
    case MinF(l, r) => ConstOperand(l, r)
    case Select(Lt, l, r, t, f) => if l == t && r == f then SelectOperand(t, f) else None
    case Select(Gt, l, r, t, f) => if r == t && l == f then SelectOperand(t, f) else None
    case _ => None
  }

  function MatchLowerBound(v: FExpr): (m: Option<Bounded>)
    ensures m.Some? ==> m.value.inner < v
    ensures m.Some? ==> forall env :: EvalF(v, env) == RMax(EvalF(m.value.inner, env), m.value.bound)
  {
    match v
    case MaxF(l, r) => ConstOperand(l, r)
    case Select(Gt, l, r, t, f) => if l == t && r == f then SelectOperand(t, f) else None
    case Select(Lt, l, r, t, f) => if r == t && l == f then SelectOperand(t, f) else None
    case _ => None
  }

  function MatchRelu(v: FExpr): (m: Option<FExpr>)
    ensures m.Some? ==> m.value < v
    ensures m.Some? ==> forall env :: EvalF(v, env) == RMax(EvalF(m.value, env), 0.0)
  {
    match v
    case MaxF(l, r) => if r == FConst(0.0) then Some(l) else if l == FConst(0.0) then Some(r) else None
    case Select(o, l, r, t, f) =>
      if (o.Gt? || o.Ge?) && r == FConst(0.0) && t == l && f == FConst(0.0) then Some(l) else None
    case _ => None
  }

  /** `x + 0` and `x - 0`, the bias a frontend left behind. */
  function MatchZeroAdd(v: FExpr): (m: Option<FExpr>)
    ensures m.Some? ==> m.value < v
    ensures m.Some? ==> forall env :: EvalF(v, env) == EvalF(m.value, env)
  {
    match v
    case AddF(l, r) => if r == FConst(0.0) then Some(l) else if l == FConst(0.0) then Some(r) else None
    case SubF(l, r) => if r == FConst(0.0) then Some(l) else None
    case _ => None
  }

  /** What the rest of the tail makes of `x`, once `scale` and `relu` have been collected above it. */
  function Tail(lo: int, relu: bool, scale: real, x: real): int {
    Clamp(RoundEven(RTimes(scale, x)), if relu then 0 else lo, 127)
  }

  lemma TimesLaws(scale: real, c: real, x: real)
    ensures RTimes(scale, RTimes(c, x)) == RTimes(RTimes(scale, c), x)
    ensures RTimes(c, x) == RTimes(x, c) && RTimes(1.0, x) == x
    ensures c > 0.0 && scale > 0.0 ==> RTimes(scale, c) > 0.0
  {
  }

  lemma OverLaws(scale: real, c: real, x: real)
    requires c > 0.0
    ensures RTimes(scale, Over(x, c)) == RTimes(Over(scale, c), x)
    ensures scale > 0.0 ==> Over(scale, c) > 0.0
  {
    var q, k := x / c, scale / c;
    assert x == q * c && scale == k * c;
    assert (k * c) * q == k * (q * c);
  }

  /** Positive scaling commutes with taking a maximum or a minimum. */
  lemma ScaleExtrema(scale: real, x: real, y: real)
    requires scale > 0.0
    ensures RTimes(scale, RMax(x, y)) == RMax(RTimes(scale, x), RTimes(scale, y))
    ensures RTimes(scale, RMin(x, y)) == RMin(RTimes(scale, x), RTimes(scale, y))
  {
    if x >= y {
      TimesMonotone(scale, y, x);
    } else {
      TimesMonotone(scale, x, y);
    }
  }

  lemma TimesMonotone(scale: real, x: real, y: real)
    requires scale > 0.0 && x <= y
    ensures RTimes(scale, x) <= RTimes(scale, y)
  {
    assert scale * y - scale * x == scale * (y - x);
  }

  /** A relu anywhere in the tail is the same as saturating at zero at the end of it. */
  lemma ReluHoists(lo: int, relu: bool, scale: real, x: real)
    requires scale > 0.0 && lo <= 0
    ensures Tail(lo, relu, scale, RMax(x, 0.0)) == Tail(lo, true, scale, x)
  {
    assert RTimes(scale, 0.0) == 0.0;
    hide RTimes, RMax, RoundEven;
    ScaleExtrema(scale, x, 0.0);
    RoundsExtrema(RTimes(scale, x), 0.0);
    FixesIntegers(0);
  }

  lemma TailOfExtrema(lo: int, relu: bool, scale: real, x: real, bound: real)
    requires scale > 0.0
    ensures var least := if relu then 0 else lo;
      var free, stop := RoundEven(RTimes(scale, x)), RoundEven(RTimes(scale, bound));
      && Tail(lo, relu, scale, RMin(x, bound)) == Clamp(Min(free, stop), least, 127)
      && Tail(lo, relu, scale, RMax(x, bound)) == Clamp(Max(free, stop), least, 127)
  {
    hide RTimes, RoundEven, RMin, RMax;
    ScaleExtrema(scale, x, bound);
    RoundsExtrema(RTimes(scale, x), RTimes(scale, bound));
  }

  /** Every integer is reached by some input. */
  lemma Reaches(scale: real, n: int) returns (x: real)
    requires scale > 0.0
    ensures RoundEven(RTimes(scale, x)) == n
  {
    x := n as real / scale;
    assert RTimes(scale, x) == n as real;
    FixesIntegers(n);
  }

  lemma UpperGuard(scale: real, bound: real)
    requires RTimes(bound, scale) >= 127.0
    ensures RoundEven(RTimes(scale, bound)) >= 127
  {
    hide RoundEven, RTimes;
    TimesLaws(1.0, scale, bound);
    FixesIntegers(127);
    Monotone(127.0, RTimes(scale, bound));
  }

  lemma LowerGuard(relu: bool, scale: real, bound: real)
    requires scale > 0.0
    requires (relu && bound <= 0.0) || RTimes(bound, scale) <= -128.0
    ensures RoundEven(RTimes(scale, bound)) <= if relu then 0 else -128
  {
    assert RTimes(scale, 0.0) == 0.0;
    hide RoundEven, RTimes;
    TimesLaws(1.0, scale, bound);
    if relu && bound <= 0.0 {
      TimesMonotone(scale, bound, 0.0);
      FixesIntegers(0);
      Monotone(RTimes(scale, bound), 0.0);
    } else {
      FixesIntegers(-128);
      Monotone(RTimes(scale, bound), -128.0);
    }
  }

  /** An upper bound can be dropped exactly when it rounds to 127 or more; `UpperGuard` says the code's guard
      ensures that. */
  lemma UpperBoundDrops(lo: int, relu: bool, scale: real, bound: real)
    requires scale > 0.0 && -128 <= lo <= 0
    ensures (forall x :: Tail(lo, relu, scale, RMin(x, bound)) == Tail(lo, relu, scale, x))
            <==> RoundEven(RTimes(scale, bound)) >= 127
  {
    hide RoundEven, RMin, RTimes;
    var stop := RoundEven(RTimes(scale, bound));
    forall x ensures Tail(lo, relu, scale, RMin(x, bound)) == Clamp(Min(RoundEven(RTimes(scale, x)), stop), if relu then 0 else lo, 127) {
      TailOfExtrema(lo, relu, scale, x, bound);
    }
    if stop < 127 {
      var x := Reaches(scale, 127);
      assert Tail(lo, relu, scale, RMin(x, bound)) != Tail(lo, relu, scale, x);
    }
  }

  /** A lower bound can be dropped exactly when it rounds to where saturation happens anyway, or below. */
  lemma LowerBoundDrops(lo: int, relu: bool, scale: real, bound: real)
    requires scale > 0.0 && -128 <= lo <= 0
    ensures (forall x :: Tail(lo, relu, scale, RMax(x, bound)) == Tail(lo, relu, scale, x))
            <==> RoundEven(RTimes(scale, bound)) <= if relu then 0 else lo
  {
    hide RoundEven, RMax, RTimes;
    var least := if relu then 0 else lo;
    var stop := RoundEven(RTimes(scale, bound));
    forall x ensures Tail(lo, relu, scale, RMax(x, bound)) == Clamp(Max(RoundEven(RTimes(scale, x)), stop), least, 127) {
      TailOfExtrema(lo, relu, scale, x, bound);
    }
    if stop > least {
      var x := Reaches(scale, least);
      assert Tail(lo, relu, scale, RMax(x, bound)) != Tail(lo, relu, scale, x);
    }
  }

  datatype Requant = Requant(scale: real, relu: bool, addsBias: bool)

  /** The accumulator the recognised tail starts from. */
  function Total(r: Requant, env: Env): int {
    if r.addsBias then Wrap32(env.acc + env.bias) else env.acc
  }

  /** The whole float tail above `v`, expressed through what has been collected on the way down to `v`. */
  ghost predicate Collected(root: FExpr, v: FExpr, lo: int, relu: bool, scale: real) {
    scale > 0.0 && forall env :: Tail(lo, false, 1.0, EvalF(root, env)) == Tail(lo, relu, scale, EvalF(v, env))
  }

  lemma CollectedAt(root: FExpr, v: FExpr, lo: int, relu: bool, scale: real, v': FExpr, relu': bool, scale': real)
    requires Collected(root, v, lo, relu, scale) && scale' > 0.0
    requires forall env :: Tail(lo, relu, scale, EvalF(v, env)) == Tail(lo, relu', scale', EvalF(v', env))
    ensures Collected(root, v', lo, relu', scale')
  {
    hide Tail;
  }

  lemma MulStep(root: FExpr, v: FExpr, lo: int, relu: bool, scale: real, b: Bounded)
    requires Collected(root, v, lo, relu, scale) && v.MulF? && ConstOperand(v.l, v.r) == Some(b) && b.bound > 0.0
    ensures Collected(root, b.inner, lo, relu, RTimes(scale, b.bound))
  {
    hide RTimes;
    forall env ensures Tail(lo, relu, scale, EvalF(v, env)) == Tail(lo, relu, RTimes(scale, b.bound), EvalF(b.inner, env)) {
      assert EvalF(v, env) == RTimes(EvalF(v.l, env), EvalF(v.r, env));
      TimesLaws(scale, b.bound, EvalF(b.inner, env));
    }
    TimesLaws(scale, b.bound, 1.0);
    CollectedAt(root, v, lo, relu, scale, b.inner, relu, RTimes(scale, b.bound));
  }

  lemma DivStep(root: FExpr, v: FExpr, lo: int, relu: bool, scale: real)
    requires Collected(root, v, lo, relu, scale) && v.DivF? && v.r.FConst? && v.r.c > 0.0
    ensures Collected(root, v.l, lo, relu, Over(scale, v.r.c))
  {
    hide RTimes, Over;
    forall env ensures Tail(lo, relu, scale, EvalF(v, env)) == Tail(lo, relu, Over(scale, v.r.c), EvalF(v.l, env)) {
      OverLaws(scale, v.r.c, EvalF(v.l, env));
    }
    OverLaws(scale, v.r.c, 1.0);
    CollectedAt(root, v, lo, relu, scale, v.l, relu, Over(scale, v.r.c));
  }

  lemma ReluStep(root: FExpr, v: FExpr, lo: int, relu: bool, scale: real, inner: FExpr)
    requires Collected(root, v, lo, relu, scale) && lo <= 0 && MatchRelu(v) == Some(inner)
    ensures Collected(root, inner, lo, true, scale)
  {
    hide Tail, MatchRelu;
    forall env ensures Tail(lo, relu, scale, EvalF(v, env)) == Tail(lo, true, scale, EvalF(inner, env)) {
      ReluHoists(lo, relu, scale, EvalF(inner, env));
    }
    CollectedAt(root, v, lo, relu, scale, inner, true, scale);
  }

  lemma UpperStep(root: FExpr, v: FExpr, lo: int, relu: bool, scale: real, b: Bounded)
    requires Collected(root, v, lo, relu, scale) && -128 <= lo <= 0
    requires MatchUpperBound(v) == Some(b) && RTimes(b.bound, scale) >= 127.0
    ensures Collected(root, b.inner, lo, relu, scale)
  {
    hide Tail, MatchUpperBound;
    UpperGuard(scale, b.bound);
    UpperBoundDrops(lo, relu, scale, b.bound);
    CollectedAt(root, v, lo, relu, scale, b.inner, relu, scale);
  }

  lemma LowerStep(root: FExpr, v: FExpr, lo: int, relu: bool, scale: real, b: Bounded)
    requires Collected(root, v, lo, relu, scale) && -128 <= lo <= 0
    requires MatchLowerBound(v) == Some(b) && ((relu && b.bound <= 0.0) || RTimes(b.bound, scale) <= -128.0)
    ensures Collected(root, b.inner, lo, relu, scale)
  {
    hide Tail, MatchLowerBound;
    LowerGuard(relu, scale, b.bound);
    LowerBoundDrops(lo, relu, scale, b.bound);
    CollectedAt(root, v, lo, relu, scale, b.inner, relu, scale);
  }

  /** How far the walk back through the tail gets, and what it has collected by then. */
  datatype Reached = Reached(v: FExpr, relu: bool, scale: real)

  /** One step back through the tail: on to what is under a scaling, a relu, a bound that cannot bite or an addition
      of zero; stop at anything else; refuse at a bound that could bite or a factor that is not a positive
      constant. */
  datatype Stepped = Stop | Refuse | On(v: FExpr, relu: bool, scale: real)

  function Step(v: FExpr, relu: bool, scale: real): (s: Stepped)
    ensures s.On? ==> s.v < v
  {
    if v.MulF? then
      var c := ConstOperand(v.l, v.r);
      if c.Some? && c.value.bound > 0.0 then On(c.value.inner, relu, RTimes(scale, c.value.bound)) else Refuse
    else if v.DivF? then
      if v.r.FConst? && v.r.c > 0.0 then On(v.l, relu, Over(scale, v.r.c)) else Refuse
    else if MatchRelu(v).Some? then
      On(MatchRelu(v).value, true, scale)
    else if MatchUpperBound(v).Some? then
      var b := MatchUpperBound(v).value;
      if RTimes(b.bound, scale) >= 127.0 then On(b.inner, relu, scale) else Refuse
    else if MatchLowerBound(v).Some? then
      var b := MatchLowerBound(v).value;
      if (relu && b.bound <= 0.0) || RTimes(b.bound, scale) <= -128.0 then On(b.inner, relu, scale) else Refuse
    else if MatchZeroAdd(v).Some? then
      On(MatchZeroAdd(v).value, relu, scale)
    else Stop
  }

  /** The whole walk, or nothing when a step refuses. */
  function Walk(v: FExpr, relu: bool, scale: real): Option<Reached>
    decreases v
  {
    match Step(v, relu, scale)
    case Stop => Some(Reached(v, relu, scale))
    case Refuse => None
    case On(v', relu', scale') => Walk(v', relu', scale')
  }

  /** The tails that are accepted, and what each is taken for. */
  function Recognition(body: IExpr, takesBias: bool): Option<Requant> {
    var clamp := MatchClamp(body);
    if clamp.None? || clamp.value.hi != 127 || (clamp.value.lo != -128 && clamp.value.lo != 0) then None
    else if !clamp.value.inner.ToInt? || !clamp.value.inner.x.RoundE? then None
    else
      var reached := Walk(clamp.value.inner.x.x, false, 1.0);
      if reached.None? || !(reached.value.scale > 0.0) || !reached.value.v.ToFloat? then None
      else
        var start := reached.value.v.i;
        if (if takesBias then start == AddI(Acc, Bias) || start == AddI(Bias, Acc) else start == Acc)
        then Some(Requant(reached.value.scale, clamp.value.lo == 0 || reached.value.relu, takesBias))
        else None
  }

  /** The body of the walk's loop: wherever it goes on to, the whole tail is still what has been collected applied to
      what is left. */
  method StepBack(v: FExpr, relu: bool, scale: real) returns (s: Stepped)
    ensures s == Step(v, relu, scale)
    ensures s.On? ==> forall root, lo | Collected(root, v, lo, relu, scale) && (lo == 0 || lo == -128) ::
      Collected(root, s.v, lo, s.relu, s.scale)
  {
    hide Collected, Tail, MatchRelu, MatchUpperBound, MatchLowerBound, MatchZeroAdd, RTimes, Over;
    forall root, lo | Collected(root, v, lo, relu, scale) && (lo == 0 || lo == -128) && Step(v, relu, scale).On?
      ensures Collected(root, Step(v, relu, scale).v, lo, Step(v, relu, scale).relu, Step(v, relu, scale).scale)
    {
      StepSound(root, v, lo, relu, scale);
    }
    if v.MulF? {
      var c := ConstOperand(v.l, v.r);
      if c.None? || !(c.value.bound > 0.0) {
        return Refuse;
      }
      return On(c.value.inner, relu, RTimes(scale, c.value.bound));
    }
    if v.DivF? {
      if !v.r.FConst? || !(v.r.c > 0.0) {
        return Refuse;
      }
      return On(v.l, relu, Over(scale, v.r.c));
    }
    var zeroed := MatchRelu(v);
    if zeroed.Some? {
      return On(zeroed.value, true, scale);
    }
    var upper := MatchUpperBound(v);
    if upper.Some? {
      if !(RTimes(upper.value.bound, scale) >= 127.0) {
        return Refuse;
      }
      return On(upper.value.inner, relu, scale);
    }
    var lower := MatchLowerBound(v);
    if lower.Some? {
      if !(relu && lower.value.bound <= 0.0) && !(RTimes(lower.value.bound, scale) <= -128.0) {
        return Refuse;
      }
      return On(lower.value.inner, relu, scale);
    }
    var plain := MatchZeroAdd(v);
    if plain.Some? {
      return On(plain.value, relu, scale);
    }
    return Stop;
  }

  /** `matchRequantize`, on the body of the elementwise operation. `takesBias` says the operation has the bias
      as a second operand. */
  method MatchRequantize(body: IExpr, takesBias: bool) returns (r: Option<Requant>)
    ensures r == Recognition(body, takesBias)
    ensures r.Some? ==> Recognises(body, takesBias, r.value)
  {
    hide Step, MatchClamp, Recognises, Collected;
    if Recognition(body, takesBias).Some? {
      RecognitionHolds(body, takesBias, Recognition(body, takesBias).value);
    }
    var clamp := MatchClamp(body);
    if clamp.None? || clamp.value.hi != 127 || (clamp.value.lo != -128 && clamp.value.lo != 0) {
      return None;
    }
    if !clamp.value.inner.ToInt? || !clamp.value.inner.x.RoundE? {
      return None;
    }
    ghost var root := clamp.value.inner.x.x;
    var scale, floatRelu, v := 1.0, false, clamp.value.inner.x.x;
    while true
      invariant Walk(root, false, 1.0) == Walk(v, floatRelu, scale)
      decreases v
    {
      var step := StepBack(v, floatRelu, scale);
      if step.Refuse? {
        return None;
      }
      if step.Stop? {
        break;
      }
      v, floatRelu, scale := step.v, step.relu, step.scale;
    }
    if !(scale > 0.0) || !v.ToFloat? {
      return None;
    }
    if takesBias {
      if v.i != AddI(Acc, Bias) && v.i != AddI(Bias, Acc) {
        return None;
      }
    } else if v.i != Acc {
      return None;
    }
    return Some(Requant(scale, clamp.value.lo == 0 || floatRelu, takesBias));
  }

  /** Every step keeps the tail's meaning. */
  lemma {:induction false} StepSound(root: FExpr, v: FExpr, lo: int, relu: bool, scale: real)
    requires Collected(root, v, lo, relu, scale) && (lo == 0 || lo == -128) && Step(v, relu, scale).On?
    ensures var s := Step(v, relu, scale); Collected(root, s.v, lo, s.relu, s.scale)
  {
    hide Tail, MatchRelu, MatchUpperBound, MatchLowerBound, MatchZeroAdd, Collected, RTimes, Over;
    if v.MulF? {
      MulStep(root, v, lo, relu, scale, ConstOperand(v.l, v.r).value);
    } else if v.DivF? {
      DivStep(root, v, lo, relu, scale);
    } else if MatchRelu(v).Some? {
      ReluStep(root, v, lo, relu, scale, MatchRelu(v).value);
    } else if MatchUpperBound(v).Some? {
      UpperStep(root, v, lo, relu, scale, MatchUpperBound(v).value);
    } else if MatchLowerBound(v).Some? {
      LowerStep(root, v, lo, relu, scale, MatchLowerBound(v).value);
    } else {
      CollectedPositive(root, v, lo, relu, scale);
      CollectedAt(root, v, lo, relu, scale, MatchZeroAdd(v).value, relu, scale);
    }
  }

  lemma {:induction false} WalkSound(root: FExpr, v: FExpr, lo: int, relu: bool, scale: real)
    requires Collected(root, v, lo, relu, scale) && (lo == 0 || lo == -128) && Walk(v, relu, scale).Some?
    ensures var r := Walk(v, relu, scale).value; Collected(root, r.v, lo, r.relu, r.scale)
    decreases v
  {
    hide Step, Collected;
    var s := Step(v, relu, scale);
    if s.On? {
      StepSound(root, v, lo, relu, scale);
      WalkSound(root, s.v, lo, s.relu, s.scale);
    }
  }

  /** A recognised tail is, on every accumulator and bias, what the accelerator's output pipeline computes from the
      scale and activation it was taken for. */
  lemma {:induction false} RecognitionSound(body: IExpr, takesBias: bool, env: Env)
    requires Recognition(body, takesBias).Some?
    ensures var r := Recognition(body, takesBias).value;
      r.scale > 0.0 && r.addsBias == takesBias && EvalI(body, env) == Mvout(r.scale, r.relu, Total(r, env))
  {
    hide Walk, Collected, MatchClamp, Mvout;
    var clamp := MatchClamp(body).value;
    var root := clamp.inner.x.x;
    CollectedNothing(root, clamp.lo);
    WalkSound(root, root, clamp.lo, false, 1.0);
    var reached := Walk(root, false, 1.0).value;
    CollectedPositive(root, reached.v, clamp.lo, reached.relu, reached.scale);
    Recognised(body, root, reached.v, clamp.lo, reached.relu, reached.scale, env);
  }

  /** The requantization found is what the tail computes on every accumulator and bias. */
  ghost predicate Recognises(body: IExpr, takesBias: bool, r: Requant) {
    && r.scale > 0.0 && r.addsBias == takesBias
    && forall env :: EvalI(body, env) == Mvout(r.scale, r.relu, Total(r, env))
  }

  lemma RecognitionHolds(body: IExpr, takesBias: bool, r: Requant)
    requires Recognition(body, takesBias) == Some(r)
    ensures Recognises(body, takesBias, r)
  {
    hide EvalI, Recognition, Mvout;
    RecognitionSound(body, takesBias, Env(0, 0));
    forall env ensures EvalI(body, env) == Mvout(r.scale, r.relu, Total(r, env)) {
      RecognitionSound(body, takesBias, env);
    }
  }

  lemma CollectedNothing(root: FExpr, lo: int)
    ensures Collected(root, root, lo, false, 1.0)
  {
  }

  lemma CollectedPositive(root: FExpr, v: FExpr, lo: int, relu: bool, scale: real)
    requires Collected(root, v, lo, relu, scale)
    ensures scale > 0.0
  {
  }

  /** Once the walk has reached the conversion, the tail is the accelerator's own. */
  lemma Recognised(body: IExpr, root: FExpr, v: FExpr, lo: int, relu: bool, scale: real, env: Env)
    requires MatchClamp(body) == Some(Clamped(ToInt(RoundE(root)), lo, 127)) && lo <= 0
    requires Collected(root, v, lo, relu, scale) && v.ToFloat? && (lo == 0 || lo == -128)
    ensures EvalI(body, env) == Mvout(scale, relu || lo == 0, EvalI(v.i, env))
  {
    hide MatchClamp, RoundEven, RTimes;
    var x := EvalF(root, env);
    assert EvalF(RoundE(root), env) == RoundEven(x) as real;
    assert EvalI(ToInt(RoundE(root)), env) == RoundEven(x);
    TimesLaws(1.0, 1.0, x);
    assert Tail(lo, false, 1.0, x) == Clamp(RoundEven(x), lo, 127);
  }
}
