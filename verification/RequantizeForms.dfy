/** The tails `matchRequantize` recognizes, described from the inside out: a conversion of the accumulator, any number of
    scalings, relus, bounds and zero additions around it, then rounding and a clamp. What is recognized is exactly what can be
    built this way with positive factors and bounds that never bite, and it is taken for the product of the factors. */
module RequantizeForms {
  import opened Arith
  import opened RequantizeTail
  import opened Rounding
  import opened Wrappers

  /** How an extremum with a constant is written: with the operation itself, or as a comparison and a selection. */
  datatype Spelling = Operation | Less | Greater

  /** One operation around the rest; `first` says that the constant is the first operand. */
  datatype Layer =
    | Times(factor: real, first: bool)
    | DividedBy(divisor: real)
    | ReluMax(first: bool)
    | ReluSelect(orEqual: bool)
    | AtMost(bound: real, spelling: Spelling, first: bool)
    | AtLeast(bound: real, spelling: Spelling, first: bool)
    | PlusZero(first: bool)
    | MinusZero

  /** Two operands in their order. */
  function Left(x: FExpr, c: real, first: bool): FExpr { if first then FConst(c) else x }

  function Right(x: FExpr, c: real, first: bool): FExpr { if first then x else FConst(c) }

  function Around(layer: Layer, x: FExpr): FExpr {
    match layer
    case Times(c, first) => MulF(Left(x, c, first), Right(x, c, first))
    case DividedBy(c) => DivF(x, FConst(c))
    case ReluMax(first) => MaxF(Left(x, 0.0, first), Right(x, 0.0, first))
    case ReluSelect(orEqual) => Select(if orEqual then Ge else Gt, x, FConst(0.0), x, FConst(0.0))
    case AtMost(c, spelling, first) =>
      var l, r := Left(x, c, first), Right(x, c, first);
      (match spelling case Operation => MinF(l, r) case Less => Select(Lt, l, r, l, r) case Greater => Select(Gt, l, r, r, l))
    case AtLeast(c, spelling, first) =>
      var l, r := Left(x, c, first), Right(x, c, first);
      (match spelling case Operation => MaxF(l, r) case Less => Select(Lt, l, r, r, l) case Greater => Select(Gt, l, r, l, r))
    case PlusZero(first) => AddF(Left(x, 0.0, first), Right(x, 0.0, first))
    case MinusZero => SubF(x, FConst(0.0))
  }

  /** The layers from the outermost in. */
  function Built(layers: seq<Layer>, start: FExpr): FExpr {
    if layers == [] then start else Around(layers[0], Built(layers[1..], start))
  }

  /** A lower bound of zero in a relu's spelling is a relu. */
  predicate IsRelu(layer: Layer) {
    || layer.ReluMax? || layer.ReluSelect?
    || (layer.AtLeast? && layer.bound == 0.0 && (layer.spelling.Operation? || (layer.spelling.Greater? && !layer.first)))
  }

  function Factor(layer: Layer): real {
    if layer.Times? then layer.factor else if layer.DividedBy? && layer.divisor != 0.0 then Over(1.0, layer.divisor) else 1.0
  }

  function Scale(layers: seq<Layer>): real {
    if layers == [] then 1.0 else RTimes(Factor(layers[0]), Scale(layers[1..]))
  }

  predicate HasRelu(layers: seq<Layer>) {
    exists i :: 0 <= i < |layers| && IsRelu(layers[i])
  }

  /** What may stand at a place, given the factors and the relu further out: positive factors, and bounds that, scaled, lie
      beyond what is saturated anyway. */
  predicate Allowed(layer: Layer, scale: real, relu: bool) {
    match layer
    case Times(c, _) => c > 0.0
    case DividedBy(c) => c > 0.0
    case AtMost(c, _, _) => RTimes(c, scale) >= 127.0
    case AtLeast(c, _, _) => IsRelu(layer) || (relu && c <= 0.0) || RTimes(c, scale) <= -128.0
    case _ => true
  }

  predicate AllAllowed(layers: seq<Layer>, scale: real, relu: bool) {
    layers == [] || (Allowed(layers[0], scale, relu)
                     && AllAllowed(layers[1..], RTimes(scale, Factor(layers[0])), relu || IsRelu(layers[0])))
  }

  /** The clamp around the rounded tail, in its two nestings and with the constants on either side. */
  function Clamping(x: IExpr, lo: int, minOutside: bool, outerFirst: bool, innerFirst: bool): IExpr {
    var outer, inner := IConst(if minOutside then 127 else lo), IConst(if minOutside then lo else 127);
    var l, r := if innerFirst then inner else x, if innerFirst then x else inner;
    if minOutside then
      var e := MaxSI(l, r); if outerFirst then MinSI(outer, e) else MinSI(e, outer)
    else
      var e := MinSI(l, r); if outerFirst then MaxSI(outer, e) else MaxSI(e, outer)
  }

  predicate StartsFrom(total: IExpr, takesBias: bool) {
    if takesBias then total == AddI(Acc, Bias) || total == AddI(Bias, Acc) else total == Acc
  }

  function TailOf(layers: seq<Layer>, total: IExpr, lo: int, minOutside: bool, outerFirst: bool, innerFirst: bool): IExpr {
    Clamping(ToInt(RoundE(Built(layers, ToFloat(total)))), lo, minOutside, outerFirst, innerFirst)
  }

  // What is built is recognized.

  lemma NotConst(layers: seq<Layer>, start: FExpr)
    requires start.ToFloat?
    ensures !Built(layers, start).FConst?
  {
  }

  /** The walk takes one layer off. */
  lemma StepOff(layer: Layer, x: FExpr, relu: bool, scale: real)
    requires !x.FConst? && Allowed(layer, scale, relu) && scale > 0.0
    ensures Step(Around(layer, x), relu, scale) == On(x, relu || IsRelu(layer), RTimes(scale, Factor(layer)))
    ensures RTimes(scale, Factor(layer)) > 0.0
  {
    if layer.Times? {
      TimesLaws(scale, layer.factor, 1.0);
    } else if layer.DividedBy? {
      OverLaws(scale, layer.divisor, 1.0);
      assert RTimes(Over(scale, layer.divisor), 1.0) == Over(scale, layer.divisor);
    } else {
      TimesLaws(scale, scale, scale);
    }
  }

  lemma {:induction false} WalkOff(layers: seq<Layer>, start: FExpr, relu: bool, scale: real)
    requires start.ToFloat? && AllAllowed(layers, scale, relu) && scale > 0.0
    ensures Walk(Built(layers, start), relu, scale) == Some(Reached(start, relu || HasRelu(layers), RTimes(scale, Scale(layers))))
    ensures RTimes(scale, Scale(layers)) > 0.0
    decreases |layers|
  {
    hide Step, Around, Allowed, RTimes, Factor, IsRelu;
    if layers == [] {
      TimesLaws(scale, 1.0, scale);
      assert Step(start, relu, scale) == Stop by { StepStops(start, relu, scale); }
    } else {
      var rest := Built(layers[1..], start);
      NotConst(layers[1..], start);
      StepOff(layers[0], rest, relu, scale);
      WalkOff(layers[1..], start, relu || IsRelu(layers[0]), RTimes(scale, Factor(layers[0])));
      TimesLaws(scale, Factor(layers[0]), Scale(layers[1..]));
      assert HasRelu(layers) <==> IsRelu(layers[0]) || HasRelu(layers[1..]) by { ReluSplits(layers); }
    }
  }

  lemma StepStops(start: FExpr, relu: bool, scale: real)
    requires start.ToFloat?
    ensures Step(start, relu, scale) == Stop
  {
  }

  lemma ReluSplits(layers: seq<Layer>)
    requires layers != []
    ensures HasRelu(layers) <==> IsRelu(layers[0]) || HasRelu(layers[1..])
  {
    if IsRelu(layers[0]) {
      assert 0 < |layers|;
    }
    if HasRelu(layers[1..]) {
      var i :| 0 <= i < |layers[1..]| && IsRelu(layers[1..][i]);
      assert IsRelu(layers[i + 1]);
    }
    if HasRelu(layers) && !IsRelu(layers[0]) {
      var i :| 0 <= i < |layers| && IsRelu(layers[i]);
      assert IsRelu(layers[1..][i - 1]);
    }
  }

  lemma ClampingMatches(x: IExpr, lo: int, minOutside: bool, outerFirst: bool, innerFirst: bool)
    requires x.ToInt?
    ensures MatchClamp(Clamping(x, lo, minOutside, outerFirst, innerFirst)) == Some(Clamped(x, lo, 127))
  {
  }

  /** Every tail built from layers that may stand where they stand is recognized, with the product of its factors. */
  lemma {:induction false} BuiltRecognized(layers: seq<Layer>, total: IExpr, takesBias: bool, lo: int,
                                           minOutside: bool, outerFirst: bool, innerFirst: bool)
    requires AllAllowed(layers, 1.0, false) && StartsFrom(total, takesBias) && (lo == 0 || lo == -128)
    ensures Recognition(TailOf(layers, total, lo, minOutside, outerFirst, innerFirst), takesBias)
         == Some(Requant(Scale(layers), lo == 0 || HasRelu(layers), takesBias))
  {
    hide Walk, Built, Clamping, MatchClamp, RTimes, Scale, HasRelu, AllAllowed;
    var x := ToInt(RoundE(Built(layers, ToFloat(total))));
    ClampingMatches(x, lo, minOutside, outerFirst, innerFirst);
    WalkOff(layers, ToFloat(total), false, 1.0);
    TimesLaws(1.0, 1.0, Scale(layers));
  }

  // What is recognized has been built.

  /** Which operand the constant was; the last one when both are. */
  function First(l: FExpr, r: FExpr): bool { !r.FConst? }

  lemma StepLayer(v: FExpr, relu: bool, scale: real) returns (layer: Layer)
    requires Step(v, relu, scale).On?
    ensures var s := Step(v, relu, scale);
      && v == Around(layer, s.v) && Allowed(layer, scale, relu) && s.relu == (relu || IsRelu(layer))
      && s.scale == RTimes(scale, Factor(layer))
  {
    if v.MulF? {
      layer := Times(ConstOperand(v.l, v.r).value.bound, First(v.l, v.r));
    } else if v.DivF? {
      layer := DividedBy(v.r.c);
      OverLaws(scale, v.r.c, 1.0);
      assert RTimes(Over(scale, v.r.c), 1.0) == Over(scale, v.r.c);
    } else if MatchRelu(v).Some? {
      layer := if v.MaxF? then ReluMax(v.r != FConst(0.0)) else ReluSelect(v.order.Ge?);
      TimesLaws(scale, scale, scale);
    } else if MatchUpperBound(v).Some? {
      layer := UpperLayer(v);
      TimesLaws(scale, scale, scale);
    } else if MatchLowerBound(v).Some? {
      layer := LowerLayer(v);
      TimesLaws(scale, scale, scale);
    } else {
      layer := if v.AddF? then PlusZero(v.r != FConst(0.0)) else MinusZero;
      TimesLaws(scale, scale, scale);
    }
  }

  lemma UpperLayer(v: FExpr) returns (layer: Layer)
    requires MatchUpperBound(v).Some?
    ensures layer.AtMost? && layer.bound == MatchUpperBound(v).value.bound && v == Around(layer, MatchUpperBound(v).value.inner)
  {
    var c := MatchUpperBound(v).value.bound;
    layer := if v.MinF? then AtMost(c, Operation, First(v.l, v.r)) else AtMost(c, if v.order.Lt? then Less else Greater, v.l == FConst(c) && MatchUpperBound(v).value.inner == v.r);
  }

  lemma LowerLayer(v: FExpr) returns (layer: Layer)
    requires MatchLowerBound(v).Some? && MatchRelu(v).None?
    ensures layer.AtLeast? && layer.bound == MatchLowerBound(v).value.bound && v == Around(layer, MatchLowerBound(v).value.inner)
    ensures !IsRelu(layer)
  {
    var c := MatchLowerBound(v).value.bound;
    layer := if v.MaxF? then AtLeast(c, Operation, First(v.l, v.r)) else AtLeast(c, if v.order.Lt? then Less else Greater, v.l == FConst(c) && MatchLowerBound(v).value.inner == v.r);
  }

  lemma {:induction false} WalkBuilt(v: FExpr, relu: bool, scale: real) returns (layers: seq<Layer>)
    requires Walk(v, relu, scale).Some? && scale > 0.0
    ensures v == Built(layers, Walk(v, relu, scale).value.v) && AllAllowed(layers, scale, relu)
    decreases v
  {
    hide Step, Around, Allowed, RTimes, Factor, IsRelu;
    var s := Step(v, relu, scale);
    if s.On? {
      var layer := StepLayer(v, relu, scale);
      AllowedPositive(layer, scale, relu);
      var rest := WalkBuilt(s.v, s.relu, s.scale);
      layers := [layer] + rest;
      assert layers[1..] == rest;
    } else {
      layers := [];
    }
  }

  lemma AllowedPositive(layer: Layer, scale: real, relu: bool)
    requires Allowed(layer, scale, relu) && scale > 0.0
    ensures RTimes(scale, Factor(layer)) > 0.0
  {
    if layer.Times? {
      TimesLaws(scale, layer.factor, 1.0);
    } else if layer.DividedBy? {
      OverLaws(scale, layer.divisor, 1.0);
      assert RTimes(Over(scale, layer.divisor), 1.0) == Over(scale, layer.divisor);
    }
  }

  lemma ClampingOf(body: IExpr) returns (minOutside: bool, outerFirst: bool, innerFirst: bool)
    requires MatchClamp(body).Some? && MatchClamp(body).value.hi == 127
    ensures var m := MatchClamp(body).value; body == Clamping(m.inner, m.lo, minOutside, outerFirst, innerFirst)
  {
    minOutside := body.MinSI?;
    outerFirst := !body.ir.IConst?;
    var e := if outerFirst then body.ir else body.il;
    innerFirst := !e.ir.IConst?;
  }

  /** Nothing else is recognized: the tails taken for a requantization are the built ones. */
  lemma {:induction false} RecognizedBuilt(body: IExpr, takesBias: bool)
    returns (layers: seq<Layer>, total: IExpr, lo: int, minOutside: bool, outerFirst: bool, innerFirst: bool)
    requires Recognition(body, takesBias).Some?
    ensures AllAllowed(layers, 1.0, false) && StartsFrom(total, takesBias) && (lo == 0 || lo == -128)
    ensures body == TailOf(layers, total, lo, minOutside, outerFirst, innerFirst)
  {
    hide Walk, Built, Clamping, MatchClamp, AllAllowed;
    var m := MatchClamp(body).value;
    minOutside, outerFirst, innerFirst := ClampingOf(body);
    layers := WalkBuilt(m.inner.x.x, false, 1.0);
    total, lo := Walk(m.inner.x.x, false, 1.0).value.v.i, m.lo;
  }
}
