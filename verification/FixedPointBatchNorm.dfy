/** A batch norm on a dequantized byte as integer arithmetic
    (`lib/Transforms/BatchNormInFixedPoint/BatchNormInFixedPointPass.cpp`).

    The float form is any function of channel and byte: the pass compares the two forms on every channel and
    every byte, so what the float form is does not matter. */
module FixedPointBatchNorm {
  import opened Arith
  import opened Rounding

  datatype Tail = Tail(relu: bool, lo: int, hi: int) {
    /** The lower bound the relu and the clamp amount to. */
    function Low(): int { if relu then Max(lo, 0) else lo }
  }

  datatype Site = Site(channels: nat, a: seq<real>, b: seq<real>, scale: real, tail: Tail, reference: (nat, int) -> int) {
    ghost predicate Valid() { |a| == channels && |b| == channels }
  }

  const LARGEST := 24
  const SMALLEST := 8
  const LIMIT := 0x8000_0000

  function Multiplier(s: Site, k: nat, c: nat): int
    requires c < |s.a|
  {
    RoundEven(RTimes(RTimes(s.a[c], s.scale), Pow2(k) as real))
  }

  function Offset(s: Site, k: nat, c: nat): int
    requires c < |s.b|
  {
    RoundEven(RTimes(s.b[c] + 0.5, Pow2(k) as real))
  }

  /** An integer no further than a half from a number. */
  predicate Half(n: int, x: real) {
    -0.5 <= x - n as real <= 0.5
  }

  lemma CoefficientsNear(s: Site, k: nat, c: nat)
    requires c < |s.a| && c < |s.b|
    ensures Half(Multiplier(s, k, c), RTimes(RTimes(s.a[c], s.scale), Pow2(k) as real)) && Half(Offset(s, k, c), RTimes(s.b[c] + 0.5, Pow2(k) as real))
  {
    hide RTimes, RoundEven, Pow2;
    Nearest(RTimes(RTimes(s.a[c], s.scale), Pow2(k) as real), 0);
    Nearest(RTimes(s.b[c] + 0.5, Pow2(k) as real), 0);
  }

  /** The coefficients of one channel leave room for every byte in 32 bits. */
  predicate Roomy(m: int, n: int) {
    Abs(m) * 128 + Abs(n) < LIMIT && Abs(m) < LIMIT && Abs(n) < LIMIT
  }

  /** The integer before any clamp. */
  function Raw(q: int, m: int, n: int, shift: nat): int { Shr(m * q + n, shift) }

  /** What the fixed point stands for: shifted back, it is within `1/2 + 64.5 / 2^k` of the number the coefficients were made
      of, so from the smallest shift on it is never a whole one off. */
  lemma {:induction false} NearReal(s: Site, k: nat, c: nat, q: int)
    requires c < |s.a| && c < |s.b| && -128 <= q <= 127
    ensures var p, x := Pow2(k) as real, RTimes(RTimes(s.a[c], s.scale), q as real) + s.b[c];
      -(0.5 * p + 64.5) <= RTimes(Raw(q, Multiplier(s, k, c), Offset(s, k, c), k) as real - x, p) <= 0.5 * p + 64.5
  {
    hide Pow2, Shr, Multiplier, Offset, RTimes;
    var m, n, p := Multiplier(s, k, c), Offset(s, k, c), Pow2(k) as real;
    var v, t := Raw(q, m, n, k), q as real;
    var a := RTimes(s.a[c], s.scale);
    CoefficientsNear(s, k, c);
    ShrLaw(m * q + n, k);
    ShiftedReal(v, m, q, n, Pow2(k));
    Spread(a, t, s.b[c], p);
    Minus(v as real, RTimes(a, t) + s.b[c], p);
    Minus(RTimes(a, p), m as real, t);
    ScaledError(RTimes(a, p) - m as real, t);
  }

  lemma Minus(x: real, y: real, z: real)
    ensures RTimes(x - y, z) == RTimes(x, z) - RTimes(y, z)
  {
  }

  lemma Spread(a: real, t: real, b: real, p: real)
    ensures RTimes(RTimes(a, t) + b, p) == RTimes(RTimes(a, p), t) + RTimes(b + 0.5, p) - 0.5 * p
  {
    assert a * t * p == a * p * t;
  }

  lemma ShiftedReal(v: int, m: int, q: int, n: int, p: nat)
    requires v * p <= m * q + n < (v + 1) * p
    ensures RTimes(v as real, p as real) <= RTimes(m as real, q as real) + n as real < RTimes(v as real, p as real) + p as real
  {
    assert (v * p) as real == v as real * p as real && (v + 1) * p == v * p + p;
    assert (m * q) as real == m as real * q as real;
  }

  lemma ScaledError(e: real, t: real)
    requires -0.5 <= e <= 0.5 && -128.0 <= t <= 127.0
    ensures -64.0 <= RTimes(e, t) <= 64.0
  {
    RSign(e + 0.5, t + 128.0);
    RSign(0.5 - e, t + 128.0);
    RSign(e + 0.5, 128.0 - t);
    RSign(0.5 - e, 128.0 - t);
    assert (e + 0.5) * (t + 128.0) == e * t + 128.0 * e + 0.5 * t + 64.0;
    assert (0.5 - e) * (t + 128.0) == 0.5 * t + 64.0 - e * t - 128.0 * e;
    assert (e + 0.5) * (128.0 - t) == 128.0 * e - e * t + 64.0 - 0.5 * t;
    assert (0.5 - e) * (128.0 - t) == 64.0 - 0.5 * t - 128.0 * e + e * t;
  }

  /** `fixedAnswer`. */
  function FixedAnswer(q: int, m: int, n: int, shift: nat, t: Tail): int {
    var v := Raw(q, m, n, shift);
    var i := if t.relu && v < 0 then 0 else v;
    var j := if i < t.lo then t.lo else i;
    if j > t.hi then t.hi else j
  }

  /** With the bounds in order, the answer is the integer held between them. */
  lemma AnswerBetween(q: int, m: int, n: int, shift: nat, t: Tail)
    requires t.Low() <= t.hi
    ensures var v, r := Raw(q, m, n, shift), FixedAnswer(q, m, n, shift, t);
      && t.lo <= r <= t.hi && (t.relu ==> r >= 0)
      && (v >= t.lo && v <= t.hi && (t.relu ==> v >= 0) ==> r == v)
      && (v > t.hi ==> r == t.hi) && (v < t.Low() ==> r == t.Low())
      && (t.Low() == t.lo || (t.relu && t.Low() == 0))
  {
    hide Raw;
  }

  ghost predicate IsByte(q: int) { -128 <= q <= 127 }

  ghost predicate FitsAt(s: Site, k: nat)
    requires s.Valid()
  {
    forall c: nat | c < s.channels :: Roomy(Multiplier(s, k, c), Offset(s, k, c))
  }

  ghost predicate AgreesAt(s: Site, k: nat)
    requires s.Valid()
  {
    forall c: nat, q | c < s.channels && IsByte(q) ::
      s.reference(c, q) == FixedAnswer(q, Multiplier(s, k, c), Offset(s, k, c), k, s.tail)
  }

  ghost predicate Admissible(s: Site, k: nat)
    requires s.Valid()
  {
    FitsAt(s, k) && AgreesAt(s, k)
  }

  /** The coefficients of every channel at one shift, when they all leave room. */
  method Coefficients(s: Site, k: nat) returns (fits: bool, ms: seq<int>, ns: seq<int>)
    requires s.Valid()
    ensures fits <==> FitsAt(s, k)
    ensures fits <==> forall c: nat | c < s.channels :: Abs(Multiplier(s, k, c)) * 128 + Abs(Offset(s, k, c)) < 0x8000_0000
    ensures fits ==> |ms| == |ns| == s.channels
    ensures fits ==> forall c: nat | c < s.channels :: ms[c] == Multiplier(s, k, c) && ns[c] == Offset(s, k, c)
    ensures fits ==> forall c: nat | c < s.channels ::
      Half(ms[c], RTimes(RTimes(s.a[c], s.scale), Pow2(k) as real)) && Half(ns[c], RTimes(s.b[c] + 0.5, Pow2(k) as real))
  {
    hide Half, Multiplier, Offset;
    fits, ms, ns := true, [], [];
    var c := 0;
    while c < s.channels && fits
      invariant 0 <= c <= s.channels
      invariant fits ==> |ms| == |ns| == c
      invariant fits ==> forall d: nat | d < c :: ms[d] == Multiplier(s, k, d) && ns[d] == Offset(s, k, d) && Roomy(ms[d], ns[d])
      invariant !fits ==> !FitsAt(s, k)
    {
      var m, n := Multiplier(s, k, c), Offset(s, k, c);
      if Abs(m) * 128 + Abs(n) >= LIMIT || Abs(m) >= LIMIT || Abs(n) >= LIMIT {
        fits := false;
      } else {
        ms, ns := ms + [m], ns + [n];
      }
      c := c + 1;
    }
    forall d: nat | d < s.channels
      ensures Half(Multiplier(s, k, d), RTimes(RTimes(s.a[d], s.scale), Pow2(k) as real)) && Half(Offset(s, k, d), RTimes(s.b[d] + 0.5, Pow2(k) as real))
    {
      CoefficientsNear(s, k, d);
    }
  }

  /** Both forms on every channel and every byte. */
  method Compare(s: Site, k: nat, ms: seq<int>, ns: seq<int>) returns (same: bool)
    requires s.Valid() && |ms| == |ns| == s.channels
    requires forall c: nat | c < s.channels :: ms[c] == Multiplier(s, k, c) && ns[c] == Offset(s, k, c)
    ensures same <==> AgreesAt(s, k)
  {
    same := true;
    var c := 0;
    while c < s.channels && same
      invariant 0 <= c <= s.channels
      invariant same ==> forall d: nat, q | d < c && IsByte(q) :: s.reference(d, q) == FixedAnswer(q, Multiplier(s, k, d), Offset(s, k, d), k, s.tail)
      invariant !same ==> !AgreesAt(s, k)
    {
      var v := -128;
      while v <= 127 && same
        invariant -128 <= v <= 128
        invariant same ==> forall q | -128 <= q < v :: s.reference(c, q) == FixedAnswer(q, Multiplier(s, k, c), Offset(s, k, c), k, s.tail)
        invariant !same ==> !AgreesAt(s, k)
      {
        assert IsByte(v);
        same := s.reference(c, v) == FixedAnswer(v, ms[c], ns[c], k, s.tail);
        v := v + 1;
      }
      c := c + 1;
    }
  }

  /** The shift search: the largest admissible shift from 24 down to 8, or a negative answer when there is none. */
  method Search(s: Site) returns (shift: int, ms: seq<int>, ns: seq<int>)
    requires s.Valid()
    ensures shift >= 0 ==> 8 <= shift <= 24 && Admissible(s, shift)
    ensures forall k: nat | 8 <= k <= 24 && k > shift :: !Admissible(s, k)
    ensures shift >= 0 ==> |ms| == |ns| == s.channels
    ensures shift >= 0 ==> forall c: nat | c < s.channels :: ms[c] == Multiplier(s, shift, c) && ns[c] == Offset(s, shift, c)
  {
    shift, ms, ns := -1, [], [];
    var k := LARGEST;
    while k >= SMALLEST && shift < 0
      invariant SMALLEST - 1 <= k <= LARGEST
      invariant shift < 0 ==> forall j: nat | k < j <= LARGEST :: !Admissible(s, j)
      invariant shift >= 0 ==> shift == k + 1 && SMALLEST <= shift <= LARGEST && Admissible(s, shift)
      invariant shift >= 0 ==> forall j: nat | shift < j <= LARGEST :: !Admissible(s, j)
      invariant shift >= 0 ==> |ms| == |ns| == s.channels
      invariant shift >= 0 ==> forall c: nat | c < s.channels :: ms[c] == Multiplier(s, shift, c) && ns[c] == Offset(s, shift, c)
    {
      var fits, m, n := Coefficients(s, k);
      if fits {
        var same := Compare(s, k, m, n);
        if same {
          shift, ms, ns := k, m, n;
        }
      }
      k := k - 1;
    }
  }

  /** Some channel and byte leaves the given range below, or above. */
  ghost predicate GoesBelow(s: Site, k: nat, bound: int)
    requires s.Valid()
  {
    exists c: nat, q :: c < s.channels && IsByte(q) && Raw(q, Multiplier(s, k, c), Offset(s, k, c), k) < bound
  }

  ghost predicate GoesAbove(s: Site, k: nat, bound: int)
    requires s.Valid()
  {
    exists c: nat, q :: c < s.channels && IsByte(q) && Raw(q, Multiplier(s, k, c), Offset(s, k, c), k) > bound
  }

  /** Which of the two clamps ever fires. */
  method Needs(s: Site, shift: nat, ms: seq<int>, ns: seq<int>) returns (needLow: bool, needHigh: bool)
    requires s.Valid() && |ms| == |ns| == s.channels
    requires forall c: nat | c < s.channels :: ms[c] == Multiplier(s, shift, c) && ns[c] == Offset(s, shift, c)
    ensures needLow <==> GoesBelow(s, shift, s.tail.Low())
    ensures needHigh <==> GoesAbove(s, shift, s.tail.hi)
  {
    var low := s.tail.Low();
    needLow, needHigh := false, false;
    for c := 0 to s.channels
      invariant needLow ==> GoesBelow(s, shift, low)
      invariant needHigh ==> GoesAbove(s, shift, s.tail.hi)
      invariant !needLow ==> forall d: nat, q | d < c && IsByte(q) :: Raw(q, Multiplier(s, shift, d), Offset(s, shift, d), shift) >= low
      invariant !needHigh ==> forall d: nat, q | d < c && IsByte(q) :: Raw(q, Multiplier(s, shift, d), Offset(s, shift, d), shift) <= s.tail.hi
    {
      var v := -128;
      while v <= 127
        invariant -128 <= v <= 128
        invariant needLow ==> GoesBelow(s, shift, low)
        invariant needHigh ==> GoesAbove(s, shift, s.tail.hi)
        invariant !needLow ==> forall d: nat, q | d < c && IsByte(q) :: Raw(q, Multiplier(s, shift, d), Offset(s, shift, d), shift) >= low
        invariant !needHigh ==> forall d: nat, q | d < c && IsByte(q) :: Raw(q, Multiplier(s, shift, d), Offset(s, shift, d), shift) <= s.tail.hi
        invariant !needLow ==> forall q | -128 <= q < v :: Raw(q, Multiplier(s, shift, c), Offset(s, shift, c), shift) >= low
        invariant !needHigh ==> forall q | -128 <= q < v :: Raw(q, Multiplier(s, shift, c), Offset(s, shift, c), shift) <= s.tail.hi
      {
        assert IsByte(v);
        var raw := Raw(v, ms[c], ns[c], shift);
        if raw < low {
          needLow := true;
        }
        if raw > s.tail.hi {
          needHigh := true;
        }
        v := v + 1;
      }
    }
  }

  /** The value of the emitted body before it is truncated to a byte. */
  function Emitted(q: int, m: int, n: int, shift: nat, needLow: bool, low: int, needHigh: bool, hi: int): int {
    var v := Raw(q, m, n, shift);
    var w := if needLow then Max(v, low) else v;
    if needHigh then Min(w, hi) else w
  }

  lemma {:induction false} ShrBounds(x: int, k: nat)
    ensures x >= 0 ==> 0 <= Shr(x, k) <= x
    ensures x < 0 ==> x <= Shr(x, k) < 0
  {
    if k > 0 {
      ShrBounds(x, k - 1);
    }
  }

  lemma ProductBounds(m: int, q: int)
    requires -128 <= q <= 127
    ensures -(Abs(m) * 128) <= m * q <= Abs(m) * 128
  {
    ProductSign(Abs(m), q);
    assert m < 0 ==> m * q == -(Abs(m) * q);
  }

  lemma ProductSign(a: int, q: int)
    requires a >= 0 && -128 <= q <= 127
    ensures -(a * 128) <= a * q <= a * 128
  {
    assert a * (q + 128) >= 0 && a * (128 - q) >= 0;
  }

  /** The emitted body in 32-bit arithmetic: multiply, add, shift and the clamps that were kept. None of it
      overflows. */
  method Body(q: int32, m: int32, n: int32, shift: nat, needLow: bool, low: int32, needHigh: bool, hi: int32) returns (v: int32)
    requires IsByte(q as int) && Roomy(m as int, n as int)
    ensures v as int == Emitted(q as int, m as int, n as int, shift, needLow, low as int, needHigh, hi as int)
  {
    ProductBounds(m as int, q as int);
    var p: int32 := q * m;
    var t: int32 := p + n;
    assert q as int * m as int == m as int * q as int;
    ShrBounds(t as int, shift);
    v := Shr(t as int, shift) as int32;
    if needLow && v < low {
      v := low;
    }
    if needHigh && v > hi {
      v := hi;
    }
  }

  /** At every channel and byte the emitted body gives the reference answer. */
  ghost predicate Exact(s: Site, k: nat, needLow: bool, needHigh: bool)
    requires s.Valid()
  {
    forall c: nat, q | c < s.channels && IsByte(q) ::
      Emitted(q, Multiplier(s, k, c), Offset(s, k, c), k, needLow, s.tail.Low(), needHigh, s.tail.hi) == s.reference(c, q)
  }

  /** Dropping the clamps that never fire is exact if and only if the kept ones cannot leave the range out of
      order: the bounds are in order, or the low clamp never fires, or the high clamp is kept. */
  lemma {:induction false} ClampsDrop(s: Site, k: nat)
    requires s.Valid() && Admissible(s, k)
    ensures var low, hi := s.tail.Low(), s.tail.hi;
      var needLow, needHigh := GoesBelow(s, k, low), GoesAbove(s, k, hi);
      Exact(s, k, needLow, needHigh) <==> low <= hi || !needLow || needHigh
  {
    hide Raw, Multiplier, Offset;
    var low, hi := s.tail.Low(), s.tail.hi;
    var needLow, needHigh := GoesBelow(s, k, low), GoesAbove(s, k, hi);
    if low <= hi || !needLow || needHigh {
      forall c: nat, q | c < s.channels && IsByte(q)
        ensures Emitted(q, Multiplier(s, k, c), Offset(s, k, c), k, needLow, low, needHigh, hi) == s.reference(c, q)
      {
        var raw := Raw(q, Multiplier(s, k, c), Offset(s, k, c), k);
        assert s.reference(c, q) == FixedAnswer(q, Multiplier(s, k, c), Offset(s, k, c), k, s.tail);
        assert !needLow ==> raw >= low;
        assert !needHigh ==> raw <= hi;
      }
    } else {
      var c: nat, q :| c < s.channels && IsByte(q) && Raw(q, Multiplier(s, k, c), Offset(s, k, c), k) < low;
      assert s.reference(c, q) == FixedAnswer(q, Multiplier(s, k, c), Offset(s, k, c), k, s.tail);
      assert Emitted(q, Multiplier(s, k, c), Offset(s, k, c), k, needLow, low, needHigh, hi) != s.reference(c, q);
    }
  }

  /** With the bounds in order and both in a byte, what the body yields is a byte: its truncation loses nothing. */
  lemma {:induction false} YieldsByte(s: Site, k: nat, c: nat, q: int)
    requires s.Valid() && Admissible(s, k) && c < s.channels && IsByte(q)
    requires IsByte(s.tail.Low()) && IsByte(s.tail.hi) && s.tail.Low() <= s.tail.hi
    ensures IsByte(Emitted(q, Multiplier(s, k, c), Offset(s, k, c), k,
      GoesBelow(s, k, s.tail.Low()), s.tail.Low(), GoesAbove(s, k, s.tail.hi), s.tail.hi))
    ensures IsByte(s.reference(c, q))
  {
    hide Raw, Multiplier, Offset;
    ClampsDrop(s, k);
    assert s.reference(c, q) == FixedAnswer(q, Multiplier(s, k, c), Offset(s, k, c), k, s.tail);
  }

  /** The emitted body with these coefficients and clamps gives the reference answer at every channel and byte. */
  ghost predicate Answers(s: Site, shift: nat, ms: seq<int>, ns: seq<int>, needLow: bool, needHigh: bool)
    requires s.Valid() && |ms| == |ns| == s.channels
  {
    forall c: nat, q | c < s.channels && IsByte(q) ::
      Emitted(q, ms[c], ns[c], shift, needLow, s.tail.Low(), needHigh, s.tail.hi) == s.reference(c, q)
  }

  /** The pass on one site: find the shift, find out which clamps fire, and emit a body with only those. It gives the
      reference answers just when the kept clamps cannot leave the range out of order. */
  method Rewrite(s: Site) returns (shift: int, ms: seq<int>, ns: seq<int>, needLow: bool, needHigh: bool)
    requires s.Valid()
    ensures shift < 0 <==> forall k: nat | 8 <= k <= 24 :: !Admissible(s, k)
    ensures shift >= 0 ==> 8 <= shift <= 24 && |ms| == |ns| == s.channels
    ensures shift >= 0 ==> forall c: nat | c < s.channels :: Roomy(ms[c], ns[c])
    ensures shift >= 0 ==> (Answers(s, shift, ms, ns, needLow, needHigh) <==> s.tail.Low() <= s.tail.hi || !needLow || needHigh)
  {
    hide Emitted, Raw;
    shift, ms, ns := Search(s);
    needLow, needHigh := false, false;
    if shift >= 0 {
      needLow, needHigh := Needs(s, shift, ms, ns);
      ClampsDrop(s, shift);
      assert Answers(s, shift, ms, ns, needLow, needHigh) <==> Exact(s, shift, needLow, needHigh);
    }
  }

  // A site the search accepts and whose emitted body is wrong: the bounds are out of order, and only the low one fires.

  /** A channel that is zero throughout, and bounds of two below and one above. */
  function OutOfOrder(): Site {
    Site(1, [0.0], [0.0], 1.0, Tail(false, 2, 1), (c: nat, q: int) => 1)
  }

  lemma {:induction false} HalfRounds(k: nat)
    requires k > 0
    ensures Multiplier(OutOfOrder(), k, 0) == 0 && Offset(OutOfOrder(), k, 0) == Pow2(k - 1)
  {
    FixesIntegers(0);
    FixesIntegers(Pow2(k - 1));
    assert 0.0 * 1.0 * Pow2(k) as real == 0.0;
    assert Pow2(k) == 2 * Pow2(k - 1);
    assert (0.0 + 0.5) * Pow2(k) as real == Pow2(k - 1) as real;
  }

  lemma {:induction false} HalfShifts(k: nat)
    requires k > 0
    ensures Shr(Pow2(k - 1), k) == 0
  {
    ShrHalf(Pow2(k - 1), k - 1);
    if k == 1 {
      ShrZero(0);
    } else {
      HalfShifts(k - 1);
    }
  }

  lemma {:induction false} SmallPow(k: nat)
    requires k < 24
    ensures Pow2(k) <= 0x80_0000
    decreases 24 - k
  {
    if k < 23 {
      SmallPow(k + 1);
    } else {
      assert Pow2(5) == 32 && Pow2(10) == 32 * Pow2(5) && Pow2(15) == 32 * Pow2(10) && Pow2(20) == 32 * Pow2(15);
      assert Pow2(23) == 8 * Pow2(20);
    }
  }

  lemma {:induction false} ClampLost(k: nat)
    requires SMALLEST <= k <= LARGEST
    ensures var s := OutOfOrder();
      && s.Valid() && Admissible(s, k) && GoesBelow(s, k, s.tail.Low()) && !GoesAbove(s, k, s.tail.hi)
      && !Exact(s, k, true, false)
  {
    var s := OutOfOrder();
    hide Multiplier, Offset, Shr, Pow2, Exact;
    HalfRounds(k);
    HalfShifts(k);
    SmallPow(k - 1);
    PowPositive(k - 1);
    assert forall q | IsByte(q) :: Raw(q, 0, Pow2(k - 1), k) == 0;
    assert IsByte(0) && Raw(0, Multiplier(s, k, 0), Offset(s, k, 0), k) < s.tail.Low();
    ClampsDrop(s, k);
  }

  lemma PowPositive(k: nat)
    ensures Pow2(k) >= 1
  {
  }
}
