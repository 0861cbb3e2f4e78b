/** The batch norm in fixed point where it stands (`lib/Transforms/BatchNormInFixedPoint/BatchNormInFixedPointPass.cpp`).
    The pass compares its two forms channel by channel and reads the byte buffer in the place of the float one. At a point of
    the output the two coefficients are read through indexing maps of their own, which it does not compare, and nothing is
    asked about what happens to either buffer between the dequantization and the batch norm. */
module FixedPointSite {
  import opened Arith
  import opened FixedPointBatchNorm
  import opened Rounding

  type Byte = q: int | -128 <= q <= 127

  /** The batch norm: its coefficients, the float body on an element and a pair of coefficients (`answer`), the float a byte
      is dequantized to, and which elements of its three operands each point of the output reads. */
  datatype Norm = Norm(a: seq<real>, b: seq<real>, scale: real, tail: Tail, answer: (real, real, real) -> int, deq: Byte -> real,
                       points: nat, inAt: nat -> nat, aAt: nat -> nat, bAt: nat -> nat) {
    ghost predicate Valid() {
      |a| == |b| && forall i: nat | i < points :: aAt(i) < |a| && bAt(i) < |b|
    }

    /** What the pass enumerates: every channel with both of its own coefficients. */
    function Site(): Site
      requires |a| == |b|
    {
      FixedPointBatchNorm.Site(|a|, a, b, scale, tail,
        (c: nat, q: int) => if c < |a| && c < |b| && -128 <= q <= 127 then answer(deq(q), a[c], b[c]) else 0)
    }
  }

  /** The integer body the pass emits. */
  datatype Code = Code(shift: nat, ms: seq<int>, ns: seq<int>, needLow: bool, low: int, needHigh: bool, hi: int)

  /** What is left of an integer in a byte. */
  function Truncated(x: int): Byte { (x + 128) % 256 - 128 }

  /** The byte the float body stores, for the coefficients of channels `c` and `d`. */
  function Old(n: Norm, c: nat, d: nat, x: real): Byte
    requires c < |n.a| && d < |n.b|
  {
    Truncated(n.answer(x, n.a[c], n.b[d]))
  }

  /** The emitted body in 32-bit arithmetic, which wraps round. */
  function Machine(q: int, m: int, n: int, shift: nat, needLow: bool, low: int, needHigh: bool, hi: int): int {
    var v := Shr(Wrap32(Wrap32(q * m) + n), shift);
    var w := if needLow then Max(v, low) else v;
    if needHigh then Min(w, hi) else w
  }

  function New(code: Code, c: nat, d: nat, q: Byte): Byte
    requires c < |code.ms| && d < |code.ns|
  {
    Truncated(Machine(q, code.ms[c], code.ns[d], code.shift, code.needLow, code.low, code.needHigh, code.hi))
  }

  // The two buffers.

  datatype Event = Dequantize | WriteBytes | WriteFloats | Unrelated

  datatype Buffers = Buffers(floats: nat -> real, bytes: nat -> Byte)

  /** What is written at each moment is arbitrary. */
  datatype Written = Written(floats: (nat, nat) -> real, bytes: (nat, nat) -> Byte)

  function Step(e: Event, i: nat, s: Buffers, n: Norm, w: Written): Buffers {
    match e
    case Dequantize => s.(floats := (p: nat) => n.deq(s.bytes(p)))
    case WriteBytes => s.(bytes := (p: nat) => w.bytes(i, p))
    case WriteFloats => s.(floats := (p: nat) => w.floats(i, p))
    case Unrelated => s
  }

  /** The buffers after the first `k` events. */
  function After(history: seq<Event>, k: nat, s: Buffers, n: Norm, w: Written): Buffers
    requires k <= |history|
  {
    if k == 0 then s else Step(history[k - 1], k - 1, After(history, k - 1, s, n, w), n, w)
  }

  /** At every point both forms store the same byte, whatever the buffers held and whatever was written to them. */
  ghost predicate KeepsMeaning(n: Norm, code: Code, history: seq<Event>)
    requires n.Valid() && |code.ms| == |code.ns| == |n.a|
  {
    forall s, w, i: nat | i < n.points ::
      var end := After(history, |history|, s, n, w);
      Old(n, n.aAt(i), n.bAt(i), end.floats(n.inAt(i))) == New(code, n.aAt(i), n.bAt(i), end.bytes(n.inAt(i)))
  }

  // What has to hold.

  /** Some point reads these two coefficients together. */
  ghost predicate Together(n: Norm, c: nat, d: nat) {
    exists i: nat :: i < n.points && n.aAt(i) == c && n.bAt(i) == d
  }

  /** The comparison the pass makes, on the coefficients that are read together. */
  ghost predicate PairsAgree(n: Norm, code: Code)
    requires n.Valid() && |code.ms| == |code.ns| == |n.a|
  {
    forall c: nat, d: nat, q: Byte | c < |n.a| && d < |n.a| && Together(n, c, d) :: Old(n, c, d, n.deq(q)) == New(code, c, d, q)
  }

  /** The emitted body does not depend on the byte. */
  ghost predicate BytesIdle(n: Norm, code: Code)
    requires n.Valid() && |code.ms| == |code.ns| == |n.a|
  {
    forall c: nat, d: nat, q: Byte | c < |n.a| && d < |n.a| && Together(n, c, d) :: New(code, c, d, q) == New(code, c, d, 0)
  }

  /** Nor the float body on any float. */
  ghost predicate FloatsIdle(n: Norm, code: Code)
    requires n.Valid() && |code.ms| == |code.ns| == |n.a|
  {
    forall c: nat, d: nat, x: real | c < |n.a| && d < |n.a| && Together(n, c, d) :: Old(n, c, d, x) == New(code, c, d, 0)
  }

  /** The dequantization was the last to write the float buffer. */
  ghost predicate Dequantized(history: seq<Event>) {
    exists i :: 0 <= i < |history| && DequantizedAt(history, i)
  }

  ghost predicate DequantizedAt(history: seq<Event>, i: nat)
    requires i < |history|
  {
    history[i].Dequantize? && forall j | i < j < |history| :: !history[j].Dequantize? && !history[j].WriteFloats?
  }

  /** And the bytes are still those that were dequantized. */
  ghost predicate Fresh(history: seq<Event>) {
    exists i :: 0 <= i < |history| && DequantizedAt(history, i) && forall j | i < j < |history| :: !history[j].WriteBytes?
  }

  // Runs.

  lemma {:induction false} FloatsStay(history: seq<Event>, i: nat, k: nat, s: Buffers, n: Norm, w: Written)
    requires i <= k <= |history| && forall j | i <= j < k :: !history[j].Dequantize? && !history[j].WriteFloats?
    ensures After(history, k, s, n, w).floats == After(history, i, s, n, w).floats
  {
    if i < k {
      FloatsStay(history, i, k - 1, s, n, w);
    }
  }

  lemma {:induction false} BytesStay(history: seq<Event>, i: nat, k: nat, s: Buffers, n: Norm, w: Written)
    requires i <= k <= |history| && forall j | i <= j < k :: !history[j].WriteBytes?
    ensures After(history, k, s, n, w).bytes == After(history, i, s, n, w).bytes
  {
    if i < k {
      BytesStay(history, i, k - 1, s, n, w);
    }
  }

  /** The floats are those of the bytes at the dequantization. */
  lemma {:induction false} DequantizedRun(history: seq<Event>, i: nat, s: Buffers, n: Norm, w: Written, p: nat)
    requires i < |history| && DequantizedAt(history, i)
    ensures var end := After(history, |history|, s, n, w);
      && end.floats(p) == n.deq(After(history, i, s, n, w).bytes(p))
      && ((forall j | i < j < |history| :: !history[j].WriteBytes?) ==> end.bytes(p) == After(history, i, s, n, w).bytes(p))
  {
    FloatsStay(history, i + 1, |history|, s, n, w);
    if forall j | i < j < |history| :: !history[j].WriteBytes? {
      BytesStay(history, i + 1, |history|, s, n, w);
    }
  }

  /** One byte everywhere. */
  function Every(q: Byte): nat -> Byte { (p: nat) => q }

  function EveryFloat(x: real): nat -> real { (p: nat) => x }

  /** `q` is written up to the dequantization at `at`, and `q'` after it. */
  function Changing(at: nat, q: Byte, q': Byte): Written {
    Written((i: nat, p: nat) => 0.0, (i: nat, p: nat) => if i <= at then q else q')
  }

  lemma {:induction false} ChangingRun(history: seq<Event>, at: nat, k: nat, s: Buffers, n: Norm, q: Byte, q': Byte, p: nat)
    requires k <= |history| && s.bytes == Every(q)
    ensures After(history, k, s, n, Changing(at, q, q')).bytes(p)
         == if exists j :: at < j < k && history[j].WriteBytes? then q' else q
  {
    if k > 0 {
      ChangingRun(history, at, k - 1, s, n, q, q', p);
      if history[k - 1].WriteBytes? && k - 1 > at {
        assert at < k - 1 < k && history[k - 1].WriteBytes?;
      }
    }
  }

  /** `q` and `x` are written throughout. */
  function Steady(x: real, q: Byte): Written { Written((i: nat, p: nat) => x, (i: nat, p: nat) => q) }

  lemma {:induction false} SteadyRun(history: seq<Event>, k: nat, s: Buffers, n: Norm, x: real, q: Byte, p: nat)
    requires k <= |history| && s == Buffers(EveryFloat(x), Every(q))
    ensures After(history, k, s, n, Steady(x, q)).bytes(p) == q
    ensures (forall i | 0 <= i < k :: !history[i].Dequantize? || exists j :: i < j < k && history[j].WriteFloats?) ==>
      After(history, k, s, n, Steady(x, q)).floats(p) == x
  {
    if k > 0 {
      SteadyRun(history, k - 1, s, n, x, q, p);
      if !history[k - 1].WriteFloats? && forall i | 0 <= i < k :: !history[i].Dequantize? || exists j :: i < j < k && history[j].WriteFloats? {
        forall i | 0 <= i < k - 1 && history[i].Dequantize? ensures exists j :: i < j < k - 1 && history[j].WriteFloats? {
          var j :| i < j < k && history[j].WriteFloats?;
          assert j < k - 1;
        }
        assert !history[k - 1].Dequantize?;
      }
    }
  }

  // The equivalence.

  ghost predicate SameAt(n: Norm, code: Code, history: seq<Event>, s: Buffers, w: Written, i: nat)
    requires n.Valid() && |code.ms| == |code.ns| == |n.a| && i < n.points
  {
    var end := After(history, |history|, s, n, w);
    Old(n, n.aAt(i), n.bAt(i), end.floats(n.inAt(i))) == New(code, n.aAt(i), n.bAt(i), end.bytes(n.inAt(i)))
  }

  lemma {:induction false} KeepsSame(n: Norm, code: Code, history: seq<Event>)
    requires n.Valid() && |code.ms| == |code.ns| == |n.a|
    ensures KeepsMeaning(n, code, history) <==> forall s, w, i: nat | i < n.points :: SameAt(n, code, history, s, w, i)
  {
    hide Old, New, After;
    forall s, w, i: nat | i < n.points
      ensures SameAt(n, code, history, s, w, i) <==>
        var end := After(history, |history|, s, n, w);
        Old(n, n.aAt(i), n.bAt(i), end.floats(n.inAt(i))) == New(code, n.aAt(i), n.bAt(i), end.bytes(n.inAt(i)))
    {
    }
  }

  lemma {:induction false} FreshKeeps(n: Norm, code: Code, history: seq<Event>, s: Buffers, w: Written, i: nat)
    requires n.Valid() && |code.ms| == |code.ns| == |n.a| && i < n.points && PairsAgree(n, code)
    requires Fresh(history) || (BytesIdle(n, code) && (Dequantized(history) || FloatsIdle(n, code)))
    ensures SameAt(n, code, history, s, w, i)
  {
    hide Old, New, After, DequantizedAt;
    assert Together(n, n.aAt(i), n.bAt(i));
    if Fresh(history) {
      var at :| 0 <= at < |history| && DequantizedAt(history, at) && forall j | at < j < |history| :: !history[j].WriteBytes?;
      DequantizedRun(history, at, s, n, w, n.inAt(i));
    } else if Dequantized(history) {
      var at :| 0 <= at < |history| && DequantizedAt(history, at);
      DequantizedRun(history, at, s, n, w, n.inAt(i));
    }
  }

  /** Dequantized bytes in both buffers throughout. */
  lemma {:induction false} BothSteady(history: seq<Event>, k: nat, s: Buffers, n: Norm, q: Byte, p: nat)
    requires k <= |history| && s == Buffers(EveryFloat(n.deq(q)), Every(q))
    ensures After(history, k, s, n, Steady(n.deq(q), q)).bytes(p) == q && After(history, k, s, n, Steady(n.deq(q), q)).floats(p) == n.deq(q)
  {
    if k > 0 {
      BothSteady(history, k - 1, s, n, q, p);
    }
  }

  lemma {:induction false} PairsShow(n: Norm, code: Code, history: seq<Event>)
    requires n.Valid() && |code.ms| == |code.ns| == |n.a| && !PairsAgree(n, code)
    ensures exists s, w, i: nat :: i < n.points && !SameAt(n, code, history, s, w, i)
  {
    hide Old, New, After;
    var c: nat, d: nat, q: Byte :| c < |n.a| && d < |n.a| && Together(n, c, d) && Old(n, c, d, n.deq(q)) != New(code, c, d, q);
    var i: nat :| i < n.points && n.aAt(i) == c && n.bAt(i) == d;
    var s := Buffers(EveryFloat(n.deq(q)), Every(q));
    BothSteady(history, |history|, s, n, q, n.inAt(i));
    assert !SameAt(n, code, history, s, Steady(n.deq(q), q), i);
  }

  /** The bytes have changed since they were dequantized. */
  lemma {:induction false} ChangeShows(n: Norm, code: Code, history: seq<Event>)
    requires n.Valid() && |code.ms| == |code.ns| == |n.a| && PairsAgree(n, code)
    requires Dequantized(history) && !Fresh(history) && !BytesIdle(n, code)
    ensures exists s, w, i: nat :: i < n.points && !SameAt(n, code, history, s, w, i)
  {
    hide Old, New, After, DequantizedAt;
    var at :| 0 <= at < |history| && DequantizedAt(history, at);
    var c: nat, d: nat, q: Byte :| c < |n.a| && d < |n.a| && Together(n, c, d) && New(code, c, d, q) != New(code, c, d, 0);
    var i: nat :| i < n.points && n.aAt(i) == c && n.bAt(i) == d;
    var s, w := Buffers(EveryFloat(0.0), Every(0)), Changing(at, 0, q);
    DequantizedRun(history, at, s, n, w, n.inAt(i));
    ChangingRun(history, at, at, s, n, 0, q, n.inAt(i));
    ChangingRun(history, at, |history|, s, n, 0, q, n.inAt(i));
    assert Old(n, c, d, n.deq(0)) == New(code, c, d, 0);
    assert !SameAt(n, code, history, s, w, i);
  }

  lemma LaterWrite(history: seq<Event>)
    requires !Dequantized(history)
    ensures forall i | 0 <= i < |history| :: !history[i].Dequantize? || exists j :: i < j < |history| && history[j].WriteFloats?
    decreases |history|
  {
    forall i | 0 <= i < |history| && history[i].Dequantize? ensures exists j :: i < j < |history| && history[j].WriteFloats? {
      LastDequantize(history, i);
    }
  }

  lemma LastDequantize(history: seq<Event>, i: nat)
    requires !Dequantized(history) && i < |history| && history[i].Dequantize?
    ensures exists j :: i < j < |history| && history[j].WriteFloats?
    decreases |history| - i
  {
    assert !DequantizedAt(history, i);
    var j :| i < j < |history| && (history[j].Dequantize? || history[j].WriteFloats?);
    if history[j].Dequantize? {
      LastDequantize(history, j);
    }
  }

  /** The floats have nothing to do with the bytes. */
  lemma {:induction false} StrangeShows(n: Norm, code: Code, history: seq<Event>)
    requires n.Valid() && |code.ms| == |code.ns| == |n.a| && !Dequantized(history) && !(BytesIdle(n, code) && FloatsIdle(n, code))
    ensures exists s, w, i: nat :: i < n.points && !SameAt(n, code, history, s, w, i)
  {
    hide Old, New, After, Dequantized;
    LaterWrite(history);
    if !FloatsIdle(n, code) {
      var c: nat, d: nat, x: real :| c < |n.a| && d < |n.a| && Together(n, c, d) && Old(n, c, d, x) != New(code, c, d, 0);
      var i: nat :| i < n.points && n.aAt(i) == c && n.bAt(i) == d;
      StrangeAt(n, code, history, i, x, 0);
    } else {
      var c: nat, d: nat, q: Byte :| c < |n.a| && d < |n.a| && Together(n, c, d) && New(code, c, d, q) != New(code, c, d, 0);
      var i: nat :| i < n.points && n.aAt(i) == c && n.bAt(i) == d;
      assert Old(n, c, d, 0.0) == New(code, c, d, 0);
      StrangeAt(n, code, history, i, 0.0, q);
    }
  }

  lemma {:induction false} StrangeAt(n: Norm, code: Code, history: seq<Event>, i: nat, x: real, q: Byte)
    requires n.Valid() && |code.ms| == |code.ns| == |n.a| && i < n.points
    requires forall i | 0 <= i < |history| :: !history[i].Dequantize? || exists j :: i < j < |history| && history[j].WriteFloats?
    requires Old(n, n.aAt(i), n.bAt(i), x) != New(code, n.aAt(i), n.bAt(i), q)
    ensures exists s, w, i: nat :: i < n.points && !SameAt(n, code, history, s, w, i)
  {
    hide Old, New, After;
    var s := Buffers(EveryFloat(x), Every(q));
    SteadyRun(history, |history|, s, n, x, q, n.inAt(i));
    assert !SameAt(n, code, history, s, Steady(x, q), i);
  }

  /** Whatever happened to the two buffers before the batch norm, reading the bytes keeps its meaning for all contents if and
      only if both forms agree on every pair of coefficients that is read together; and the dequantization was the last
      to write the floats with the bytes unchanged since, or else the emitted body does not depend on the byte and either
      the dequantization was the last to write the floats or the float body does not depend on the float. */
  lemma {:induction false} MoveExact(n: Norm, code: Code, history: seq<Event>)
    requires n.Valid() && |code.ms| == |code.ns| == |n.a|
    ensures KeepsMeaning(n, code, history)
       <==> PairsAgree(n, code) && (Fresh(history) || (BytesIdle(n, code) && (Dequantized(history) || FloatsIdle(n, code))))
  {
    hide KeepsMeaning, PairsAgree, Fresh, BytesIdle, Dequantized, FloatsIdle, SameAt;
    KeepsSame(n, code, history);
    if !PairsAgree(n, code) {
      PairsShow(n, code, history);
    } else if Fresh(history) || (BytesIdle(n, code) && (Dequantized(history) || FloatsIdle(n, code))) {
      forall s, w, i: nat | i < n.points ensures SameAt(n, code, history, s, w, i) {
        FreshKeeps(n, code, history, s, w, i);
      }
    } else if Dequantized(history) {
      ChangeShows(n, code, history);
    } else {
      StrangeShows(n, code, history);
    }
  }

  // What the pass promises of the pairs.

  /** With room for every byte nothing wraps round. */
  lemma {:induction false} RoomyMachine(q: Byte, m: int, n: int, shift: nat, needLow: bool, low: int, needHigh: bool, hi: int)
    requires Roomy(m, n)
    ensures Machine(q, m, n, shift, needLow, low, needHigh, hi) == Emitted(q, m, n, shift, needLow, low, needHigh, hi)
  {
    hide Shr, Wrap32, Max, Min;
    ProductBounds(m, q);
    assert q * m == m * q;
    FitsStays(q * m);
    FitsStays(q * m + n);
  }

  lemma FitsStays(x: int)
    requires Fits(x)
    ensures Wrap32(x) == x
  {
  }

  /** The two coefficients of every point belong to the same channel. */
  ghost predicate SameMaps(n: Norm) {
    forall i: nat | i < n.points :: n.aAt(i) == n.bAt(i)
  }

  /** The pass on one site. Read through the same map, the coefficients agree with the float body as far as the clamps
      do: with the bounds in order, or the low one idle, or the high one kept. */
  method MoveToBytes(n: Norm) returns (moved: bool, code: Code)
    requires n.Valid()
    ensures moved <==> exists k: nat :: 8 <= k <= 24 && Admissible(n.Site(), k)
    ensures moved ==> |code.ms| == |code.ns| == |n.a| && code.low == n.tail.Low() && code.hi == n.tail.hi
    ensures moved && SameMaps(n) && (code.low <= code.hi || !code.needLow || code.needHigh) ==> PairsAgree(n, code)
  {
    hide Machine, Emitted;
    var shift, ms, ns, needLow, needHigh := Rewrite(n.Site());
    moved := shift >= 0;
    code := Code(if moved then shift else 0, ms, ns, needLow, n.tail.Low(), needHigh, n.tail.hi);
    if moved && (code.low <= code.hi || !code.needLow || code.needHigh) {
      forall c: nat, q: Byte | c < |n.a| ensures Old(n, c, c, n.deq(q)) == New(code, c, c, q) {
        RoomyMachine(q, ms[c], ns[c], shift, needLow, code.low, needHigh, code.hi);
        assert IsByte(q);
      }
      assert SameMaps(n) ==> forall c, d | Together(n, c, d) :: c == d;
    }
  }

  // A site the pass accepts whose coefficients are read through different maps.

  /** The plain float body, on numbers that floats hold exactly. */
  function Float(x: real, a: real, b: real): int { Clamp(RoundEven(x * a + b), -128, 127) }

  lemma FloatAt(x: real, a: real, b: real, n: int)
    requires x * a + b == n as real
    ensures Float(x, a, b) == Clamp(n, -128, 127)
  {
    FixesIntegers(n);
  }

  /** Two channels, `0 * x + 100` and `1 * x + 0`; the one point reads the factor of the second and the bias of the first. */
  function Crossed(): Norm {
    Norm([0.0, 1.0], [100.0, 0.0], 1.0, Tail(false, -128, 127), (x: real, a: real, b: real) => Float(x, a, b),
         (q: Byte) => q as real, 1, (i: nat) => 0, (i: nat) => 1, (i: nat) => 0)
  }

  /** What the pass emits for it: shift 23 and no clamp. */
  function CrossedCode(): Code {
    Code(23, [0, 0x80_0000], [201 * 0x40_0000, 0x40_0000], false, -128, false, 127)
  }

  lemma Powers()
    ensures Pow2(22) == 0x40_0000 && Pow2(23) == 0x80_0000 && Pow2(24) == 0x100_0000
  {
    assert Pow2(5) == 32 && Pow2(10) == 32 * Pow2(5) && Pow2(15) == 32 * Pow2(10) && Pow2(20) == 32 * Pow2(15);
    assert Pow2(22) == 4 * Pow2(20);
  }

  lemma {:induction false} ShrExact(q: int, r: nat, k: nat)
    requires r < Pow2(k)
    ensures Shr(q * Pow2(k) + r, k) == q
    decreases k
  {
    if k > 0 {
      var p := Pow2(k - 1);
      var bit := if r < p then 0 else 1;
      assert q * Pow2(k) + r == (2 * q + bit) * p + (r - bit * p);
      ShrExact(2 * q + bit, r - bit * p, k - 1);
    }
  }

  lemma CrossedCoefficients(k: nat)
    requires k > 0
    ensures var s := Crossed().Site();
      && Multiplier(s, k, 0) == 0 && Multiplier(s, k, 1) == Pow2(k)
      && Offset(s, k, 0) == 201 * Pow2(k - 1) && Offset(s, k, 1) == Pow2(k - 1)
  {
    FixesIntegers(0);
    FixesIntegers(Pow2(k));
    FixesIntegers(Pow2(k - 1));
    FixesIntegers(201 * Pow2(k - 1));
    assert 0.0 * 1.0 * Pow2(k) as real == 0.0;
    assert 1.0 * 1.0 * Pow2(k) as real == Pow2(k) as real;
    assert Pow2(k) == 2 * Pow2(k - 1);
    assert (100.0 + 0.5) * Pow2(k) as real == (201 * Pow2(k - 1)) as real;
    assert (0.0 + 0.5) * Pow2(k) as real == Pow2(k - 1) as real;
  }

  /** Before any clamp, the first channel gives 100 and the second the byte itself. */
  lemma CrossedRaw(q: Byte)
    ensures Raw(q, 0, 201 * 0x40_0000, 23) == 100 && Raw(q, 0x80_0000, 0x40_0000, 23) == q
  {
    hide Pow2, Shr;
    Powers();
    ShrExact(100, 0x40_0000, 23);
    ShrExact(q, 0x40_0000, 23);
  }

  lemma CrossedReference(q: Byte)
    ensures Crossed().Site().reference(0, q) == 100 && Crossed().Site().reference(1, q) == q
  {
    hide Float;
    FloatAt(q as real, 0.0, 100.0, 100);
    FloatAt(q as real, 1.0, 0.0, q);
  }

  lemma CrossedSite()
    ensures Crossed().Valid() && Crossed().Site().Valid() && Crossed().Site().channels == 2 && Crossed().Site().tail == Tail(false, -128, 127)
    ensures var s := Crossed().Site();
      && Multiplier(s, 23, 0) == 0 && Multiplier(s, 23, 1) == 0x80_0000 && Offset(s, 23, 0) == 201 * 0x40_0000 && Offset(s, 23, 1) == 0x40_0000
      && Multiplier(s, 24, 1) == 0x100_0000
  {
    hide Multiplier, Offset, Pow2;
    CrossedCoefficients(23);
    CrossedCoefficients(24);
    Powers();
  }

  /** The pass takes shift 23 for it, and no clamp ever fires. */
  lemma {:induction false} CrossedAccepted()
    ensures var s := Crossed().Site();
      && s.Valid() && s.channels == 2 && !Admissible(s, 24) && Admissible(s, 23) && !GoesBelow(s, 23, -128) && !GoesAbove(s, 23, 127)
      && forall c: nat | c < 2 :: CrossedCode().ms[c] == Multiplier(s, 23, c) && CrossedCode().ns[c] == Offset(s, 23, c)
  {
    hide Raw, Multiplier, Offset, Pow2, Crossed;
    CrossedSite();
    var s := Crossed().Site();
    assert !Roomy(Multiplier(s, 24, 1), Offset(s, 24, 1));
    forall c: nat, q | c < 2 && IsByte(q)
      ensures s.reference(c, q) == FixedAnswer(q, Multiplier(s, 23, c), Offset(s, 23, c), 23, s.tail)
      ensures -128 <= Raw(q, Multiplier(s, 23, c), Offset(s, 23, c), 23) <= 127
    {
      CrossedRaw(q);
      CrossedReference(q);
    }
  }

  /** The largest byte plus a hundred: 127 where the float body stops, and 227 where no clamp was kept. */
  lemma CrossedPair()
    ensures Old(Crossed(), 1, 0, 127.0) == 127 && New(CrossedCode(), 1, 0, 127) == -29
  {
    hide Float, Machine;
    assert Crossed().answer(127.0, 1.0, 100.0) == 127 by { CrossedFloat(); }
    assert Machine(127, 0x80_0000, 201 * 0x40_0000, 23, false, -128, false, 127) == 227 by { CrossedInteger(); }
  }

  lemma CrossedFloat()
    ensures Crossed().answer(127.0, 1.0, 100.0) == 127
  {
    hide Float;
    FloatAt(127.0, 1.0, 100.0, 227);
  }

  lemma CrossedInteger()
    ensures Machine(127, 0x80_0000, 201 * 0x40_0000, 23, false, -128, false, 127) == 227
  {
    hide Shr, Wrap32;
    FitsStays(127 * 0x80_0000);
    FitsStays(127 * 0x80_0000 + 201 * 0x40_0000);
    CrossedSum();
  }

  lemma CrossedSum()
    ensures Shr(127 * 0x80_0000 + 201 * 0x40_0000, 23) == 227
  {
    hide Shr, Pow2;
    Powers();
    ShrExact(227, 0x40_0000, 23);
  }

  lemma {:induction false} CrossedMaps()
    ensures Crossed().Valid() && !PairsAgree(Crossed(), CrossedCode()) && !KeepsMeaning(Crossed(), CrossedCode(), [Dequantize])
  {
    hide Old, New, KeepsMeaning;
    var n, code := Crossed(), CrossedCode();
    CrossedPair();
    assert Together(n, 1, 0) by { assert n.aAt(0) == 1 && n.bAt(0) == 0; }
    assert n.deq(127) == 127.0;
    MoveExact(n, code, [Dequantize]);
  }

  /** The same with both coefficients of the second channel. */
  function Straight(): Norm { Crossed().(bAt := (i: nat) => 1) }

  lemma StraightPair(q: Byte)
    ensures Old(Straight(), 1, 1, q as real) == q && New(CrossedCode(), 1, 1, q) == q
  {
    hide Float, Machine;
    assert Straight().answer(q as real, 1.0, 0.0) == q by { StraightFloat(q); }
    assert Machine(q, 0x80_0000, 0x40_0000, 23, false, -128, false, 127) == q by { StraightInteger(q); }
  }

  lemma StraightFloat(q: Byte)
    ensures Straight().answer(q as real, 1.0, 0.0) == q
  {
    hide Float;
    FloatAt(q as real, 1.0, 0.0, q);
  }

  lemma StraightInteger(q: Byte)
    ensures Machine(q, 0x80_0000, 0x40_0000, 23, false, -128, false, 127) == q
  {
    hide Machine, Raw;
    CrossedRaw(q);
    RoomyMachine(q, 0x80_0000, 0x40_0000, 23, false, -128, false, 127);
  }

  /** Bytes written after they were dequantized are read in the place of those that were. */
  lemma {:induction false} StaleBytes()
    ensures Straight().Valid() && KeepsMeaning(Straight(), CrossedCode(), [Dequantize])
    ensures !KeepsMeaning(Straight(), CrossedCode(), [Dequantize, WriteBytes])
  {
    hide Old, New, KeepsMeaning;
    var n, code := Straight(), CrossedCode();
    forall c: nat, d: nat, q: Byte | Together(n, c, d) ensures c == d == 1 && Old(n, 1, 1, n.deq(q)) == q && New(code, 1, 1, q) == q {
      StraightPair(q);
    }
    assert Together(n, 1, 1) by { assert n.aAt(0) == 1 && n.bAt(0) == 1; }
    assert New(code, 1, 1, 1) != New(code, 1, 1, 0);
    assert DequantizedAt([Dequantize], 0);
    MoveExact(n, code, [Dequantize]);
    MoveExact(n, code, [Dequantize, WriteBytes]);
    assert [Dequantize, WriteBytes][1].WriteBytes?;
  }
}
