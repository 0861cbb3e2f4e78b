/** The reference integer softmax over one row (`runtime/gemmlir_rt_cpu.c`, the SOFTMAX branch of
    `tiled_norm_auto`): a shift by the integer part of the exponent and a quadratic for the rest, in 32-bit
    arithmetic. */
module IntegerSoftmax {
  import opened Arith
  import opened Rounding
  import Sums

  // The constants follow from a = 0.3585, b = 1.353, c = 0.344 and a scale of 0.05, each truncated.
  const QLN2 := 13
  const QB := 27
  const QC := 383
  const QLN2_INV := 5041

  lemma Constants()
    ensures (0.693147 / 0.05).Floor == QLN2 && (1.353 / 0.05).Floor == QB
    ensures (0.344 / (0.3585 * 0.05 * 0.05)).Floor == QC && 65536 / QLN2 == QLN2_INV
  {
    assert 0.3585 * 0.05 * 0.05 == 0.00089625;
    assert 383.0 * 0.00089625 <= 0.344 < 384.0 * 0.00089625;
  }

  function Exponent(q: int): int {
    Min(-q * QLN2_INV / 65536, 32)
  }

  function Remainder(q: int): int { q + Exponent(q) * QLN2 }

  function Quadratic(q: int): int {
    (Remainder(q) + QB) * (Remainder(q) + QB) + QC
  }

  /** What an element `q` below the row's maximum becomes. */
  function Value(q: int): int
    requires q <= 0
  {
    if Exponent(q) >= 31 then 0 else Shr(Quadratic(q), Exponent(q))
  }

  /** Every intermediate of one element fits in 32 bits, including the square whose value may be discarded. */
  predicate NoOverflow(q: int) {
    && Fits(q) && Fits(-q) && Fits(-q * QLN2_INV)
    && Fits(Exponent(q) * QLN2) && Fits(Remainder(q)) && Fits(Remainder(q) + QB)
    && Fits((Remainder(q) + QB) * (Remainder(q) + QB)) && Fits(Quadratic(q))
  }

  const SPREAD := 46783

  /** The widest row the arithmetic stands, exactly: one step further and the square overflows. */
  lemma OverflowBound(q: int)
    requires q <= 0
    ensures NoOverflow(q) <==> -SPREAD <= q
    ensures q < -SPREAD ==> !Fits((Remainder(q) + QB) * (Remainder(q) + QB))
  {
    var r := Remainder(q) + QB;
    if q < -SPREAD {
      assert Exponent(q) == 32;
      assert -r >= 46341;
      assert r * r == (-r) * (-r) >= 46341 * 46341 by { SquareLess(46341, -r); }
    } else {
      assert -46340 <= r <= 443;
      if r < 0 {
        SquareLess(-r, 46340);
        assert r * r == (-r) * (-r);
      } else {
        SquareLess(r, 443);
      }
    }
  }

  lemma SquareLess(x: int, y: int)
    requires 0 <= x <= y
    ensures x * x <= y * y
  {
    assert y * y - x * x == (y - x) * (y + x);
  }

  /** Between two jumps of the exponent the remainder stays in a window of fourteen values. */
  lemma RemainderWindow(q: int)
    requires q <= 0 && Exponent(q) <= 30
    ensures -13 <= Remainder(q) <= 0 && (Exponent(q) > 0 ==> Remainder(q) <= -1)
    ensures 579 <= Quadratic(q) <= 1112 && (Exponent(q) > 0 ==> Quadratic(q) <= 1059)
  {
    var r := Remainder(q) + QB;
    assert 14 <= r <= 27;
    SquareLess(14, r);
    SquareLess(r, 27);
    if Exponent(q) > 0 {
      SquareLess(r, 26);
    }
  }

  lemma ExponentMonotone(p: int, q: int)
    requires p <= q <= 0
    ensures 0 <= Exponent(q) <= Exponent(p) <= 32
  {
  }

  /** A larger input never gets a smaller value, also where the exponent jumps. */
  lemma ValueMonotone(p: int, q: int)
    requires p <= q <= 0
    ensures 0 <= Value(p) <= Value(q) <= 1112
  {
    hide Shr, Quadratic, Exponent;
    ExponentMonotone(p, q);
    var y, z := Exponent(p), Exponent(q);
    if z < 31 {
      RemainderWindow(q);
      ShrMore(Quadratic(q), 0, z);
      ShrZero(Quadratic(q));
      if y < 31 {
        RemainderWindow(p);
        ShrMore(Quadratic(p), 0, y);
        if y == z {
          SameExponent(p, q);
          ShrMonotone(Quadratic(p), Quadratic(q), z);
        } else {
          ShrMonotone(Quadratic(p), 1059, y);
          ShrMore(1059, z + 1, y);
          ShrHalf(1059, z);
          ShrMonotone(529, Quadratic(q), z);
        }
      }
    }
  }

  /** The value written out: a quadratic in what is left of the input after whole steps of thirteen have been taken off it,
      halved once a step. Within nine halvings of the maximum nothing is lost, and from eleven on nothing is left. */
  lemma {:induction false} ValueLaw(q: int)
    requires q <= 0
    ensures var z := -q * 5041 / 65536;
      var e := (q + 13 * z + 27) * (q + 13 * z + 27) + 383;
      && (z <= 30 ==> Value(q) * Pow2(z) <= e < (Value(q) + 1) * Pow2(z))
      && (z >= 31 ==> Value(q) == 0)
    ensures var z := -q * 5041 / 65536; (z <= 9 ==> Value(q) >= 1) && (z >= 11 ==> Value(q) == 0)
  {
    hide Shr, Pow2;
    var z := -q * 5041 / 65536;
    if z <= 30 {
      assert Exponent(q) == z && Remainder(q) == q + 13 * z;
      ShrLaw(Quadratic(q), z);
      RemainderWindow(q);
      if z <= 9 {
        ShrMonotone(579, Quadratic(q), z);
        ShrMore(579, z, 9);
        NineHalvings();
      } else if z >= 11 {
        ShrMonotone(Quadratic(q), 1059, z);
        ShrMore(1059, 11, z);
        NineHalvings();
        ShrMore(Quadratic(q), 0, z);
      }
    }
  }

  lemma NineHalvings()
    ensures Shr(579, 9) == 1 && Shr(1059, 11) == 0
  {
    assert Shr(579, 5) == 18 && Shr(1059, 5) == 33;
    assert Shr(579, 9) == 1 && Shr(1059, 10) == 1;
  }

  lemma SameExponent(p: int, q: int)
    requires p <= q <= 0 && Exponent(p) == Exponent(q) <= 30
    ensures Quadratic(p) <= Quadratic(q)
  {
    RemainderWindow(p);
    SquareLess(Remainder(p) + QB, Remainder(q) + QB);
  }

  lemma ValueOfMaximum()
    ensures Value(0) == 1112
  {
    assert Exponent(0) == 0;
    ShrZero(1112);
  }

  // One row.

  function RowMax(row: seq<int>): int
    requires row != []
  {
    if |row| == 1 then row[0] else Max(RowMax(row[..|row| - 1]), row[|row| - 1])
  }

  lemma {:induction false} RowMaxIsMax(row: seq<int>)
    requires row != []
    ensures RowMax(row) in row && forall j | 0 <= j < |row| :: row[j] <= RowMax(row)
  {
    if |row| > 1 {
      RowMaxIsMax(row[..|row| - 1]);
    }
  }

  function RowSum(row: seq<int>): int {
    if row == [] then 0 else RowSum(row[..|row| - 1]) + row[|row| - 1]
  }

  function Values(row: seq<int>): (r: seq<int>)
    requires row != []
    ensures |r| == |row|
  {
    RowMaxIsMax(row);
    seq(|row|, j requires 0 <= j < |row| => Value(row[j] - RowMax(row)))
  }

  lemma {:induction false} SumBounds(values: seq<int>, j: nat)
    requires forall i | 0 <= i < |values| :: 0 <= values[i] <= 1112
    requires j < |values|
    ensures values[j] <= RowSum(values) <= 1112 * |values|
    decreases |values|
  {
    var last := |values| - 1;
    SumUpper(values[..last]);
    if j < last {
      SumBounds(values[..last], j);
    }
  }

  lemma {:induction false} SumUpper(values: seq<int>)
    requires forall i | 0 <= i < |values| :: 0 <= values[i] <= 1112
    ensures 0 <= RowSum(values) <= 1112 * |values|
  {
    if values != [] {
      SumUpper(values[..|values| - 1]);
    }
  }

  /** How `float` rounds: monotone, and leaving 0 and 1 as they are. */
  ghost predicate Rounds(fl: real -> real) {
    (forall x: real, y: real | x <= y :: fl(x) <= fl(y)) && fl(0.0) == 0.0 && fl(1.0) == 1.0
  }

  lemma SumFloats(sum: int, fl: real -> real)
    requires sum > 0 && Rounds(fl)
    ensures fl(sum as real) >= 1.0
  {
    assert 1.0 <= sum as real;
  }

  /** What is written for a value: the value and the factor as floats, their product as a float, rounded and saturated. */
  ghost function Output(value: int, sum: int, fl: real -> real): int
    requires sum > 0 && Rounds(fl)
  {
    Clamp(RoundEven(ScaledFloat(value, Factor(sum, fl), fl)), -128, 127)
  }

  ghost function Factor(sum: int, fl: real -> real): real
    requires sum > 0 && Rounds(fl)
  {
    SumFloats(sum, fl);
    fl(127.0 / fl(sum as real))
  }

  ghost function ScaledFloat(value: int, factor: real, fl: real -> real): real {
    fl(fl(value as real) * factor)
  }

  lemma FloatOrder(fl: real -> real, x: real, y: real)
    requires Rounds(fl) && x <= y
    ensures fl(x) <= fl(y)
  {
  }

  lemma FactorPositive(sum: int, fl: real -> real)
    requires sum > 0 && Rounds(fl)
    ensures Factor(sum, fl) >= 0.0
  {
    SumFloats(sum, fl);
    assert 0.0 <= 127.0 / fl(sum as real);
    FloatOrder(fl, 0.0, 127.0 / fl(sum as real));
  }

  lemma ScaledOrder(x: int, y: int, factor: real, fl: real -> real)
    requires 0 <= x <= y && factor >= 0.0 && Rounds(fl)
    ensures 0.0 <= ScaledFloat(x, factor, fl) <= ScaledFloat(y, factor, fl)
  {
    assert fl(0.0) == 0.0;
    hide Rounds;
    FloatOrder(fl, 0.0, x as real);
    FloatOrder(fl, x as real, y as real);
    ProductOrder(fl(x as real), fl(y as real), factor);
    FloatOrder(fl, 0.0, fl(x as real) * factor);
    FloatOrder(fl, fl(x as real) * factor, fl(y as real) * factor);
  }

  lemma {:induction false} SumPositive(row: seq<int>)
    requires row != []
    ensures RowSum(Values(row)) > 0
  {
    SoftmaxOrder(row, 0, 0, (x: real) => x);
  }

  /** Every row sums to something positive, every output lies in [0, 127], and outputs are ordered as the inputs are,
      however the floats round. */
  lemma {:induction false} SoftmaxOrder(row: seq<int>, i: nat, j: nat, fl: real -> real)
    requires i < |row| && j < |row| && row[i] <= row[j] && Rounds(fl)
    ensures var v, sum := Values(row), RowSum(Values(row));
      sum > 0 && 0 <= v[i] <= v[j] && 0 <= Output(v[i], sum, fl) <= Output(v[j], sum, fl) <= 127
  {
    hide Value, Exponent, Quadratic, Output, Rounds;
    var v, m := Values(row), RowMax(row);
    RowMaxIsMax(row);
    var k :| 0 <= k < |row| && row[k] == m;
    ValueOfMaximum();
    forall a | 0 <= a < |row| ensures 0 <= v[a] <= 1112 {
      ValueMonotone(row[a] - m, 0);
    }
    SumBounds(v, k);
    ValueMonotone(row[i] - m, row[j] - m);
    OutputOrder(RowSum(v), v[i], v[j], fl);
  }

  lemma {:induction false} OutputOrder(sum: int, x: int, y: int, fl: real -> real)
    requires sum > 0 && 0 <= x <= y && Rounds(fl)
    ensures 0 <= Output(x, sum, fl) <= Output(y, sum, fl) <= 127
  {
    hide RoundEven, Rounds, Factor, ScaledFloat;
    FactorPositive(sum, fl);
    ScaledOrder(x, y, Factor(sum, fl), fl);
    FixesIntegers(0);
    Monotone(0.0, ScaledFloat(x, Factor(sum, fl), fl));
    Monotone(ScaledFloat(x, Factor(sum, fl), fl), ScaledFloat(y, Factor(sum, fl), fl));
  }

  /** A value's share of the sum, in 127ths. */
  function Share(value: int, sum: int): real
    requires sum > 0
  {
    value as real * (127.0 / sum as real)
  }

  lemma ShareFacts(value: int, sum: int)
    requires 0 <= value <= sum && sum > 0
    ensures Share(value, sum) * sum as real == 127.0 * value as real && 0.0 <= Share(value, sum) <= 127.0
  {
    var f := 127.0 / sum as real;
    assert f * sum as real == 127.0;
    assert Share(value, sum) * sum as real == value as real * (f * sum as real);
    RSign(value as real, f);
    RSign((sum - value) as real, f);
    assert sum as real * f - value as real * f == (sum - value) as real * f;
  }

  /** No rounding. */
  function Exactly(): real -> real { (x: real) => x }

  lemma OutputExactly(value: int, sum: int)
    requires sum > 0
    ensures Rounds(Exactly()) && Output(value, sum, Exactly()) == Clamp(RoundEven(Share(value, sum)), -128, 127)
  {
    hide RoundEven, ScaledFloat, Factor, Share;
    ExactParts(value, sum);
  }

  lemma ExactParts(value: int, sum: int)
    requires sum > 0
    ensures Rounds(Exactly()) && ScaledFloat(value, Factor(sum, Exactly()), Exactly()) == Share(value, sum)
  {
    assert Factor(sum, Exactly()) == 127.0 / sum as real;
  }

  /** With exact floats the output is the value's share of the sum to the nearest: off by half a unit at most. */
  lemma {:induction false} OutputIsShare(value: int, sum: int)
    requires 0 <= value <= sum && sum > 0
    ensures Rounds(Exactly())
    ensures -(sum as real) <= 2.0 * (Output(value, sum, Exactly()) as real * sum as real - 127.0 * value as real) <= sum as real
  {
    hide RoundEven, Share, Output, Rounds;
    OutputExactly(value, sum);
    var share := Share(value, sum);
    var r := RoundEven(share);
    ShareFacts(value, sum);
    Nearest(share, r);
    FixesIntegers(0);
    FixesIntegers(127);
    Monotone(0.0, share);
    Monotone(share, 127.0);
    assert Output(value, sum, Exactly()) == r;
    ShareNear(share, r, sum, value);
  }

  lemma ShareNear(share: real, r: int, sum: int, value: int)
    requires sum > 0 && -0.5 <= share - r as real <= 0.5 && share * sum as real == 127.0 * value as real
    ensures -(sum as real) <= 2.0 * (r as real * sum as real - 127.0 * value as real) <= sum as real
  {
    var d := r as real - share;
    assert r as real * sum as real - share * sum as real == d * sum as real;
    RSign(0.5 - d, sum as real);
    RSign(d + 0.5, sum as real);
    assert (0.5 - d) * sum as real == 0.5 * sum as real - d * sum as real;
    assert (d + 0.5) * sum as real == 0.5 * sum as real + d * sum as real;
  }

  /** Every element of the row becomes the value of its distance to an element none exceeds, and the sum is over all. */
  lemma {:induction false} RowLaw(row: seq<int>, m: int, j: nat)
    requires j < |row| && m in row && forall r | r in row :: r <= m
    ensures row[j] in row && Values(row)[j] == Value(row[j] - m)
    ensures RowSum(row) == Sums.Sum(|row|, (i: nat) => if i < |row| then row[i] else 0)
  {
    hide Value;
    RowMaxIsMax(row);
    RowSumIsSum(row, |row|);
  }

  lemma {:induction false} RowSumIsSum(row: seq<int>, n: nat)
    requires n <= |row|
    ensures RowSum(row[..n]) == Sums.Sum(n, (i: nat) => if i < |row| then row[i] else 0)
    ensures row[..|row|] == row
  {
    if n > 0 {
      RowSumIsSum(row, n - 1);
      assert row[..n][..n - 1] == row[..n - 1];
    }
  }

  lemma ProductOrder(x: real, y: real, k: real)
    requires 0.0 <= x <= y && k >= 0.0
    ensures 0.0 <= x * k <= y * k
  {
    assert (y - x) * k >= 0.0;
  }

  ghost function Ints(row: seq<int32>): (r: seq<int>)
    ensures |r| == |row|
  {
    seq(|row|, j requires 0 <= j < |row| => row[j] as int)
  }

  /** One element, every operation a 32-bit one. */
  method Element(x: int32, maxQ: int32) returns (v: int32)
    requires x <= maxQ && maxQ as int - x as int <= SPREAD
    ensures v as int == Value(x as int - maxQ as int)
    ensures var q := x as int - maxQ as int;
      var z := -q * 5041 / 65536;
      var e := (q + 13 * z + 27) * (q + 13 * z + 27) + 383;
      if z <= 30 then v as int * Pow2(z) <= e < (v as int + 1) * Pow2(z) else v == 0
  {
    ghost var d := x as int - maxQ as int;
    hide Pow2, Shr;
    ValueLaw(d);
    OverflowBound(d);
    var q: int32 := x - maxQ;
    var z: int32 := ((-q * 5041) as int / 65536) as int32;
    if z > 32 {
      z := 32;
    }
    assert z as int == Exponent(d);
    var qp: int32 := q + z * 13;
    assert qp as int == Remainder(d);
    var base: int32 := qp + 27;
    var qExp: int32 := base * base + 383;
    assert qExp as int == Quadratic(d);
    if z >= 31 {
      v := 0;
    } else {
      RemainderWindow(d);
      ShrMore(Quadratic(d), 0, z as nat);
      ShrZero(Quadratic(d));
      v := Shr(qExp as int, z as nat) as int32;
    }
  }

  method RowMaximum(row: array<int32>) returns (maxQ: int32)
    requires row.Length > 0
    ensures maxQ as int == RowMax(Ints(row[..])) && maxQ in row[..]
    ensures forall j | 0 <= j < row.Length :: row[j] <= maxQ
  {
    ghost var ints := Ints(row[..]);
    maxQ := row[0];
    assert ints[..1] == [row[0] as int];
    for j := 1 to row.Length
      invariant maxQ as int == RowMax(ints[..j]) && maxQ in row[..]
      invariant forall k | 0 <= k < j :: row[k] <= maxQ
    {
      assert ints[..j + 1][..j] == ints[..j];
      if row[j] > maxQ {
        maxQ := row[j];
      }
    }
    assert ints[..row.Length] == ints;
  }

  lemma {:induction false} ValuesBounded(row: seq<int>, j: nat)
    requires row != [] && j <= |row|
    ensures 0 <= RowSum(Values(row)[..j]) <= 1112 * j
    ensures j < |row| ==> RowSum(Values(row)[..j + 1]) == RowSum(Values(row)[..j]) + Values(row)[j] <= 1112 * (j + 1)
  {
    hide Value;
    var v := Values(row);
    RowMaxIsMax(row);
    forall a | 0 <= a < |row| ensures 0 <= v[a] <= 1112 {
      ValueMonotone(row[a] - RowMax(row), 0);
    }
    SumUpper(v[..j]);
    if j < |row| {
      SumUpper(v[..j + 1]);
      assert v[..j + 1][..j] == v[..j];
    }
  }

  /** The row overwritten by its values, and their sum. Nothing overflows as long as the row's spread and length
      are within bounds. */
  method SoftmaxRow(row: array<int32>) returns (sum: int32)
    requires 0 < row.Length && 1112 * row.Length < 0x8000_0000
    requires forall i, j | 0 <= i < row.Length && 0 <= j < row.Length :: row[i] as int - row[j] as int <= SPREAD
    modifies row
    ensures Ints(row[..]) == Values(old(Ints(row[..])))
    ensures sum as int == RowSum(Values(old(Ints(row[..])))) > 0
  {
    hide Value, RowMax, RowSum;
    ghost var before := Ints(row[..]);
    ghost var values := Values(before);
    var maxQ := RowMaximum(row);
    assert forall j | 0 <= j < row.Length :: before[j] <= maxQ as int && maxQ as int - before[j] <= SPREAD;
    sum := 0;
    assert RowSum(values[..0]) == 0 by { ValuesBounded(before, 0); }
    for j := 0 to row.Length
      invariant forall k | j <= k < row.Length :: row[k] as int == before[k]
      invariant forall k | 0 <= k < j :: row[k] as int == values[k]
      invariant sum as int == RowSum(values[..j])
    {
      ValuesBounded(before, j);
      var v := Element(row[j], maxQ);
      row[j] := v;
      sum := sum + v;
    }
    assert values[..row.Length] == values;
    SumPositive(before);
  }
}
