/** Byte-parallel maximum of two 64-bit words (`scripts/poolswar.c`). */
module SwarWords {

  /** Byte `k` of a word, counting from the low end. */
  function Lane(w: bv64, k: nat): bv8
    requires k < 8
  {
    match k
    case 0 => (w & 0xFF) as bv8
    case 1 => ((w >> 8) & 0xFF) as bv8
    case 2 => ((w >> 16) & 0xFF) as bv8
    case 3 => ((w >> 24) & 0xFF) as bv8
    case 4 => ((w >> 32) & 0xFF) as bv8
    case 5 => ((w >> 40) & 0xFF) as bv8
    case 6 => ((w >> 48) & 0xFF) as bv8
    case _ => ((w >> 56) & 0xFF) as bv8
  }

  /** The eight bytes at an address read as one little-endian word. */
  function Load(s: seq<bv8>): bv64
    requires |s| == 8
  {
    Word(s[0], s[1], s[2], s[3], s[4], s[5], s[6], s[7])
  }

  function Word(b0: bv8, b1: bv8, b2: bv8, b3: bv8, b4: bv8, b5: bv8, b6: bv8, b7: bv8): bv64 {
    (b0 as bv64) | ((b1 as bv64) << 8) | ((b2 as bv64) << 16) | ((b3 as bv64) << 24)
    | ((b4 as bv64) << 32) | ((b5 as bv64) << 40) | ((b6 as bv64) << 48) | ((b7 as bv64) << 56)
  }

  /** The larger of two unsigned bytes. */
  function UnsignedMax(x: bv8, y: bv8): bv8 { if x >= y then x else y }

  /** A byte as an `int8_t`. */
  function Signed(x: bv8): int { if x < 0x80 then x as int else x as int - 256 }

  /** The two's complement value of a byte. */
  lemma SignedIs(x: bv8)
    ensures -128 <= Signed(x) <= 127 && Signed(x) % 256 == x as int
  {
  }

  function SignedMax(x: bv8, y: bv8): bv8 { if Signed(y) > Signed(x) then y else x }

  /** One subtraction for all eight bytes, with bit 7 of each byte of `a` set to absorb the borrow. It is the
      whole comparison when every byte is below 0x80. */
  function Difference(a: bv64, b: bv64): bv64 {
    (a | 0x8080_8080_8080_8080) - b
  }

  /** Bit 7 of each byte says whether that byte of `a` is at least that byte of `b`. */
  function Compare(a: bv64, b: bv64): bv64 {
    var d := Difference(a, b & !0x8080_8080_8080_8080);
    0x8080_8080_8080_8080 & ((a & !b) | (!(a ^ b) & d))
  }

  /** Bit 7 of each byte copied over the whole byte. */
  function Spread(ge: bv64): bv64 {
    ((ge >> 7) & 0x0101_0101_0101_0101) * 0xFF
  }

  /** `a` where the mask is set, `b` elsewhere. */
  function Choose(a: bv64, b: bv64, m: bv64): bv64 {
    b ^ ((a ^ b) & m)
  }

  /** Every byte flipped between signed and unsigned order. */
  function Flip(w: bv64): bv64 {
    w ^ 0x8080_8080_8080_8080
  }

  function FlipByte(x: bv8): bv8 {
    x ^ 0x80
  }

  predicate NoHighBits(w: bv64) {
    w & 0x8080_8080_8080_8080 == 0
  }

  /** `umax8_general`. */
  function Umax8General(a: bv64, b: bv64): bv64 {
    Choose(a, b, Spread(Compare(a, b)))
  }

  /** `umax8`. */
  function Umax8(a: bv64, b: bv64): bv64 {
    Choose(a, b, Spread(Difference(a, b)))
  }

  /** What is left of a word without its lowest byte. */
  function Drop(w: bv64): bv64 {
    w >> 8
  }

  lemma LaneDrop(w: bv64, k: nat)
    requires 0 < k < 8
    ensures Lane(w, k) == Lane(Drop(w), k - 1)
  {
    match k
    case 0 =>
    case 1 =>
    case 2 =>
    case 3 =>
    case 4 =>
    case 5 =>
    case 6 =>
    case _ =>
  }

  lemma LaneWord0(b0: bv8, b1: bv8, b2: bv8, b3: bv8, b4: bv8, b5: bv8, b6: bv8, b7: bv8)
    ensures Lane(Word(b0, b1, b2, b3, b4, b5, b6, b7), 0) == b0
  {
  }

  lemma LaneWord1(b0: bv8, b1: bv8, b2: bv8, b3: bv8, b4: bv8, b5: bv8, b6: bv8, b7: bv8)
    ensures Lane(Word(b0, b1, b2, b3, b4, b5, b6, b7), 1) == b1
  {
  }

  lemma LaneWord2(b0: bv8, b1: bv8, b2: bv8, b3: bv8, b4: bv8, b5: bv8, b6: bv8, b7: bv8)
    ensures Lane(Word(b0, b1, b2, b3, b4, b5, b6, b7), 2) == b2
  {
  }

  lemma LaneWord3(b0: bv8, b1: bv8, b2: bv8, b3: bv8, b4: bv8, b5: bv8, b6: bv8, b7: bv8)
    ensures Lane(Word(b0, b1, b2, b3, b4, b5, b6, b7), 3) == b3
  {
  }

  lemma LaneWord4(b0: bv8, b1: bv8, b2: bv8, b3: bv8, b4: bv8, b5: bv8, b6: bv8, b7: bv8)
    ensures Lane(Word(b0, b1, b2, b3, b4, b5, b6, b7), 4) == b4
  {
  }

  lemma LaneWord5(b0: bv8, b1: bv8, b2: bv8, b3: bv8, b4: bv8, b5: bv8, b6: bv8, b7: bv8)
    ensures Lane(Word(b0, b1, b2, b3, b4, b5, b6, b7), 5) == b5
  {
  }

  lemma LaneWord6(b0: bv8, b1: bv8, b2: bv8, b3: bv8, b4: bv8, b5: bv8, b6: bv8, b7: bv8)
    ensures Lane(Word(b0, b1, b2, b3, b4, b5, b6, b7), 6) == b6
  {
  }

  lemma LaneWord7(b0: bv8, b1: bv8, b2: bv8, b3: bv8, b4: bv8, b5: bv8, b6: bv8, b7: bv8)
    ensures Lane(Word(b0, b1, b2, b3, b4, b5, b6, b7), 7) == b7
  {
  }

  lemma LaneLoad(s: seq<bv8>, k: nat)
    requires |s| == 8 && k < 8
    ensures Lane(Load(s), k) == s[k]
  {
    hide Lane, Word;
    match k
    case 0 => LaneWord0(s[0], s[1], s[2], s[3], s[4], s[5], s[6], s[7]);
    case 1 => LaneWord1(s[0], s[1], s[2], s[3], s[4], s[5], s[6], s[7]);
    case 2 => LaneWord2(s[0], s[1], s[2], s[3], s[4], s[5], s[6], s[7]);
    case 3 => LaneWord3(s[0], s[1], s[2], s[3], s[4], s[5], s[6], s[7]);
    case 4 => LaneWord4(s[0], s[1], s[2], s[3], s[4], s[5], s[6], s[7]);
    case 5 => LaneWord5(s[0], s[1], s[2], s[3], s[4], s[5], s[6], s[7]);
    case 6 => LaneWord6(s[0], s[1], s[2], s[3], s[4], s[5], s[6], s[7]);
    case _ => LaneWord7(s[0], s[1], s[2], s[3], s[4], s[5], s[6], s[7]);
  }

  lemma ChooseLow(a: bv64, b: bv64, m: bv64)
    ensures Lane(Choose(a, b, m), 0) == Lane(b, 0) ^ ((Lane(a, 0) ^ Lane(b, 0)) & Lane(m, 0))
    ensures Drop(Choose(a, b, m)) == Choose(Drop(a), Drop(b), Drop(m))
  {
  }

  lemma ChooseByte(x: bv8, y: bv8)
    ensures y ^ ((x ^ y) & 0xFF) == x && y ^ ((x ^ y) & 0) == y
  {
  }

  /** Choosing acts on each byte separately. */
  lemma {:induction false} ChooseLane(a: bv64, b: bv64, m: bv64, k: nat)
    requires k < 8
    ensures Lane(m, k) == 0xFF ==> Lane(Choose(a, b, m), k) == Lane(a, k)
    ensures Lane(m, k) == 0 ==> Lane(Choose(a, b, m), k) == Lane(b, k)
    decreases k
  {
    hide Lane, Choose, Drop;
    ChooseLow(a, b, m);
    if k > 0 {
      LaneDrop(a, k);
      LaneDrop(b, k);
      LaneDrop(m, k);
      LaneDrop(Choose(a, b, m), k);
      ChooseLane(Drop(a), Drop(b), Drop(m), k - 1);
    } else {
      ChooseByte(Lane(a, 0), Lane(b, 0));
    }
  }

  lemma SpreadLow(g: bv64)
    ensures Lane(Spread(g), 0) == if Lane(g, 0) & 0x80 != 0 then 0xFF else 0
    ensures Drop(Spread(g)) == Spread(Drop(g))
  {
  }

  /** Multiplying by 0xFF spreads each byte's flag over that byte alone. */
  lemma {:induction false} SpreadLane(g: bv64, k: nat)
    requires k < 8
    ensures Lane(Spread(g), k) == if Lane(g, k) & 0x80 != 0 then 0xFF else 0
    decreases k
  {
    hide Lane, Spread, Drop;
    SpreadLow(g);
    if k > 0 {
      LaneDrop(g, k);
      LaneDrop(Spread(g), k);
      SpreadLane(Drop(g), k - 1);
    }
  }

  // No borrow crosses a byte: whatever the bytes below it hold, each byte of the subtraction decides its own
  // comparison.
  lemma CompareLane0(a: bv64, b: bv64)
    ensures Lane(Compare(a, b), 0) & 0x80 != 0 <==> Lane(a, 0) >= Lane(b, 0)
  {
  }

  lemma CompareLane1(a: bv64, b: bv64)
    ensures Lane(Compare(a, b), 1) & 0x80 != 0 <==> Lane(a, 1) >= Lane(b, 1)
  {
  }

  lemma CompareLane2(a: bv64, b: bv64)
    ensures Lane(Compare(a, b), 2) & 0x80 != 0 <==> Lane(a, 2) >= Lane(b, 2)
  {
  }

  lemma CompareLane3(a: bv64, b: bv64)
    ensures Lane(Compare(a, b), 3) & 0x80 != 0 <==> Lane(a, 3) >= Lane(b, 3)
  {
  }

  lemma CompareLane4(a: bv64, b: bv64)
    ensures Lane(Compare(a, b), 4) & 0x80 != 0 <==> Lane(a, 4) >= Lane(b, 4)
  {
  }

  lemma CompareLane5(a: bv64, b: bv64)
    ensures Lane(Compare(a, b), 5) & 0x80 != 0 <==> Lane(a, 5) >= Lane(b, 5)
  {
  }

  lemma CompareLane6(a: bv64, b: bv64)
    ensures Lane(Compare(a, b), 6) & 0x80 != 0 <==> Lane(a, 6) >= Lane(b, 6)
  {
  }

  lemma CompareLane7(a: bv64, b: bv64)
    ensures Lane(Compare(a, b), 7) & 0x80 != 0 <==> Lane(a, 7) >= Lane(b, 7)
  {
  }

  lemma CompareLane(a: bv64, b: bv64, k: nat)
    requires k < 8
    ensures Lane(Compare(a, b), k) & 0x80 != 0 <==> Lane(a, k) >= Lane(b, k)
  {
    hide Lane, Compare;
    match k
    case 0 => CompareLane0(a, b);
    case 1 => CompareLane1(a, b);
    case 2 => CompareLane2(a, b);
    case 3 => CompareLane3(a, b);
    case 4 => CompareLane4(a, b);
    case 5 => CompareLane5(a, b);
    case 6 => CompareLane6(a, b);
    case _ => CompareLane7(a, b);
  }

  /** Every byte of `umax8_general` is the larger of the two unsigned bytes in its place. */
  lemma GeneralIsUnsignedMax(a: bv64, b: bv64, k: nat)
    requires k < 8
    ensures Lane(Umax8General(a, b), k) == UnsignedMax(Lane(a, k), Lane(b, k))
  {
    hide Lane, Compare, Spread, Choose;
    CompareLane(a, b, k);
    SpreadLane(Compare(a, b), k);
    ChooseLane(a, b, Spread(Compare(a, b)), k);
  }

  lemma FlipOrder(x: bv8, y: bv8)
    ensures FlipByte(x) >= FlipByte(y) <==> Signed(x) >= Signed(y)
    ensures FlipByte(FlipByte(x)) == x
  {
  }

  function Xor(w: bv64, f: bv64): bv64 { w ^ f }

  function XorByte(x: bv8, y: bv8): bv8 { x ^ y }

  lemma FlipLow(w: bv64, f: bv64)
    ensures Lane(Xor(w, f), 0) == XorByte(Lane(w, 0), Lane(f, 0))
    ensures Drop(Xor(w, f)) == Xor(Drop(w), Drop(f))
  {
  }

  /** Exclusive or acts on each byte separately. */
  lemma {:induction false} XorLane(w: bv64, f: bv64, k: nat)
    requires k < 8
    ensures Lane(Xor(w, f), k) == XorByte(Lane(w, k), Lane(f, k))
    decreases k
  {
    hide Lane, Drop, Xor, XorByte;
    FlipLow(w, f);
    if k > 0 {
      LaneDrop(w, k);
      LaneDrop(f, k);
      LaneDrop(Xor(w, f), k);
      XorLane(Drop(w), Drop(f), k - 1);
    }
  }

  lemma LaneHi(k: nat)
    requires k < 8
    ensures Lane(0x8080_8080_8080_8080, k) == 0x80
  {
  }

  lemma FlipLane(w: bv64, k: nat)
    requires k < 8
    ensures Lane(Flip(w), k) == FlipByte(Lane(w, k))
  {
    LaneHi(k);
    FlipIsXor(w, Lane(w, k));
    hide Lane, Flip, FlipByte, Xor, XorByte;
    XorLane(w, 0x8080_8080_8080_8080, k);
  }

  lemma FlipIsXor(w: bv64, x: bv8)
    ensures Flip(w) == Xor(w, 0x8080_8080_8080_8080) && FlipByte(x) == XorByte(x, 0x80)
  {
  }

  lemma FlipUnsigned(x: bv8, y: bv8)
    ensures FlipByte(UnsignedMax(FlipByte(x), FlipByte(y))) == SignedMax(x, y)
  {
    FlipOrder(x, y);
    FlipOrder(y, x);
  }

  /** Between the two sign flips, `umax8_general` is the signed maximum in every byte. */
  lemma GeneralIsSignedMax(a: bv64, b: bv64, k: nat)
    requires k < 8
    ensures Lane(Flip(Umax8General(Flip(a), Flip(b))), k) == SignedMax(Lane(a, k), Lane(b, k))
  {
    hide Lane, Umax8General, Flip, FlipByte, UnsignedMax, SignedMax;
    FlipLane(a, k);
    FlipLane(b, k);
    FlipLane(Umax8General(Flip(a), Flip(b)), k);
    GeneralIsUnsignedMax(Flip(a), Flip(b), k);
    FlipUnsigned(Lane(a, k), Lane(b, k));
  }

  lemma CheapComparesAlike(a: bv64, b: bv64)
    requires NoHighBits(a) && NoHighBits(b)
    ensures Compare(a, b) == 0x8080_8080_8080_8080 & Difference(a, b)
  {
    hide Difference;
    StripNothing(b);
    SameHighBits(a, b, Difference(a, b));
  }

  lemma StripNothing(b: bv64)
    requires NoHighBits(b)
    ensures b & !0x8080_8080_8080_8080 == b
  {
  }

  lemma SameHighBits(a: bv64, b: bv64, d: bv64)
    requires NoHighBits(a) && NoHighBits(b)
    ensures 0x8080_8080_8080_8080 & ((a & !b) | (!(a ^ b) & d)) == 0x8080_8080_8080_8080 & d
  {
  }

  lemma SpreadHigh(d: bv64)
    ensures Spread(0x8080_8080_8080_8080 & d) == Spread(d)
  {
  }

  /** When no byte has its high bit set the cheap form computes the same word as the general one. */
  lemma CheapIsGeneral(a: bv64, b: bv64)
    requires NoHighBits(a) && NoHighBits(b)
    ensures Umax8(a, b) == Umax8General(a, b)
  {
    hide Compare, Difference, Spread, Choose, NoHighBits;
    CheapComparesAlike(a, b);
    SpreadHigh(Difference(a, b));
  }

  /** ... and its result has no high bits either, so it can be applied again. */
  lemma CheapKeepsLow(a: bv64, b: bv64)
    requires NoHighBits(a) && NoHighBits(b)
    ensures NoHighBits(Umax8(a, b))
  {
    hide Spread, Difference;
  }
}
