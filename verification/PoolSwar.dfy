/** A max-pool one byte at a time and the same pool eight bytes at a time (`scripts/poolswar.c`).

    Buffers hold `int8_t` bit patterns in row, column, channel order. The source fixes the extents; here
    they are any for which the windows lie inside the input and a pixel is whole words. */
module PoolSwar {
  import opened Arith
  import opened RowMajor
  import opened SwarWords

  datatype Shape = Shape(h: nat, w: nat, c: nat, oh: nat, ow: nat, k: nat) {
    ghost predicate Valid() {
      c > 0 && c % 8 == 0 && oh + k <= h + 1 && ow + k <= w + 1
    }
    function InSize(): nat { h * w * c }
    function OutSize(): nat { oh * ow * c }
  }

  function InAt(s: Shape, y: nat, x: nat, ch: nat): nat { (y * s.w + x) * s.c + ch }

  function OutAt(s: Shape, y: nat, x: nat, ch: nat): nat { (y * s.ow + x) * s.c + ch }

  lemma InRange(s: Shape, y: nat, x: nat, ch: nat)
    requires y < s.h && x < s.w && ch < s.c
    ensures InAt(s, y, x, ch) < s.InSize()
  {
    PairBound(y, s.h, x, s.w);
    PairBound(y * s.w + x, s.h * s.w, ch, s.c);
  }

  /** A tap of the window of output pixel `(y, x)`. */
  function Tap(image: seq<bv8>, s: Shape, y: nat, x: nat, ch: nat, i: nat, j: nat): bv8
    requires |image| == s.InSize() && s.Valid() && y < s.oh && x < s.ow && ch < s.c && i < s.k && j < s.k
  {
    InRange(s, y + i, x + j, ch);
    image[InAt(s, y + i, x + j, ch)]
  }

  /** The signed maximum of -128 and the taps before `(i, j)`. */
  function MaxBefore(image: seq<bv8>, s: Shape, y: nat, x: nat, ch: nat, i: nat, j: nat): bv8
    requires |image| == s.InSize() && s.Valid() && y < s.oh && x < s.ow && ch < s.c
    requires i <= s.k && j <= s.k && (i == s.k ==> j == 0)
    decreases i, j
  {
    if j > 0 then SignedMax(MaxBefore(image, s, y, x, ch, i, j - 1), Tap(image, s, y, x, ch, i, j - 1))
    else if i > 0 then MaxBefore(image, s, y, x, ch, i - 1, s.k)
    else 0x80
  }

  function WindowMax(image: seq<bv8>, s: Shape, y: nat, x: nat, ch: nat): bv8
    requires |image| == s.InSize() && s.Valid() && y < s.oh && x < s.ow && ch < s.c
  {
    MaxBefore(image, s, y, x, ch, s.k, 0)
  }

  /** Row, column and channel of a byte of the flat output. */
  function Place(s: Shape, t: nat): (p: (nat, nat, nat))
    requires s.c > 0 && t < s.OutSize()
    ensures p.0 < s.oh && p.1 < s.ow && p.2 < s.c
  {
    var pixels := s.oh * s.ow;
    assert s.ow == 0 ==> pixels * s.c == 0;
    DivBound(t, pixels, s.c);
    DivBound(t / s.c, s.oh, s.ow);
    (t / s.c / s.ow, t / s.c % s.ow, t % s.c)
  }

  lemma PlaceOut(s: Shape, y: nat, x: nat, ch: nat)
    requires s.c > 0 && y < s.oh && x < s.ow && ch < s.c
    ensures OutAt(s, y, x, ch) < s.OutSize() && Place(s, OutAt(s, y, x, ch)) == (y, x, ch)
  {
    PairBound(y, s.oh, x, s.ow);
    PairBound(y * s.ow + x, s.oh * s.ow, ch, s.c);
    DivModUnique(y * s.ow + x, ch, s.c);
    DivModUnique(y, x, s.ow);
  }

  /** The pool: output byte `t` of the flat result. */
  function Pooled(image: seq<bv8>, s: Shape, t: nat): bv8
    requires |image| == s.InSize() && s.Valid() && t < s.OutSize()
  {
    var p := Place(s, t);
    WindowMax(image, s, p.0, p.1, p.2)
  }

  lemma PooledAt(image: seq<bv8>, s: Shape, y: nat, x: nat, ch: nat)
    requires |image| == s.InSize() && s.Valid() && y < s.oh && x < s.ow && ch < s.c
    ensures OutAt(s, y, x, ch) < s.OutSize()
    ensures Pooled(image, s, OutAt(s, y, x, ch)) == WindowMax(image, s, y, x, ch)
  {
    hide Place;
    PlaceOut(s, y, x, ch);
  }

  lemma {:induction false} MaxBounds(image: seq<bv8>, s: Shape, y: nat, x: nat, ch: nat, i: nat, j: nat, a: nat, b: nat)
    requires |image| == s.InSize() && s.Valid() && y < s.oh && x < s.ow && ch < s.c
    requires i <= s.k && j <= s.k && (i == s.k ==> j == 0)
    requires a < s.k && b < s.k && (a < i || (a == i && b < j))
    ensures Signed(Tap(image, s, y, x, ch, a, b)) <= Signed(MaxBefore(image, s, y, x, ch, i, j))
    decreases i, j
  {
    hide Tap;
    if j > 0 {
      if a < i || b < j - 1 {
        MaxBounds(image, s, y, x, ch, i, j - 1, a, b);
      }
    } else {
      MaxBounds(image, s, y, x, ch, i - 1, s.k, a, b);
    }
  }

  ghost predicate IsTap(image: seq<bv8>, s: Shape, y: nat, x: nat, ch: nat, v: bv8)
    requires |image| == s.InSize() && s.Valid() && y < s.oh && x < s.ow && ch < s.c
  {
    exists a: nat, b: nat :: a < s.k && b < s.k && Tap(image, s, y, x, ch, a, b) == v
  }

  lemma {:induction false} MaxIsTap(image: seq<bv8>, s: Shape, y: nat, x: nat, ch: nat, i: nat, j: nat)
    requires |image| == s.InSize() && s.Valid() && y < s.oh && x < s.ow && ch < s.c
    requires i <= s.k && j <= s.k && (i == s.k ==> j == 0)
    ensures var m := MaxBefore(image, s, y, x, ch, i, j); m == 0x80 || IsTap(image, s, y, x, ch, m)
    decreases i, j
  {
    hide Tap;
    if j > 0 {
      MaxIsTap(image, s, y, x, ch, i, j - 1);
      var v := Tap(image, s, y, x, ch, i, j - 1);
      assert IsTap(image, s, y, x, ch, v);
    } else if i > 0 {
      MaxIsTap(image, s, y, x, ch, i - 1, s.k);
    }
  }

  /** The windowed maximum really is one: it bounds every tap, and it is a tap unless it is the starting -128. */
  lemma {:induction false} MaxIsMax(image: seq<bv8>, s: Shape, y: nat, x: nat, ch: nat)
    requires |image| == s.InSize() && s.Valid() && y < s.oh && x < s.ow && ch < s.c
    ensures forall a: nat, b: nat | a < s.k && b < s.k ::
      Signed(Tap(image, s, y, x, ch, a, b)) <= Signed(WindowMax(image, s, y, x, ch))
    ensures WindowMax(image, s, y, x, ch) == 0x80 || IsTap(image, s, y, x, ch, WindowMax(image, s, y, x, ch))
  {
    hide Tap;
    forall a: nat, b: nat | a < s.k && b < s.k
      ensures Signed(Tap(image, s, y, x, ch, a, b)) <= Signed(WindowMax(image, s, y, x, ch))
    {
      MaxBounds(image, s, y, x, ch, s.k, 0, a, b);
    }
    MaxIsTap(image, s, y, x, ch, s.k, 0);
  }

  lemma FlatThree(a: nat, b: nat, c: nat, y: nat, x: nat, ch: nat)
    ensures Flat([a, b, c], [y, x, ch]) == (y * b + x) * c + ch
  {
    assert [a, b, c][..2] == [a, b] && [y, x, ch][..2] == [y, x];
    FlatTwo(a, b, y, x);
  }

  /** The byte at a row, a column and a channel of a row-major image. */
  function ByteAt(image: seq<bv8>, rows: nat, columns: nat, channels: nat, row: nat, column: nat, ch: nat): bv8 {
    var at := Flat([rows, columns, channels], [row, column, ch]);
    if at < |image| then image[at] else 0
  }

  lemma ByteOfImage(image: seq<bv8>, s: Shape, row: nat, column: nat, ch: nat)
    requires |image| == s.InSize() && row < s.h && column < s.w && ch < s.c
    ensures InAt(s, row, column, ch) < |image| && ByteAt(image, s.h, s.w, s.c, row, column, ch) == image[InAt(s, row, column, ch)]
  {
    FlatThree(s.h, s.w, s.c, row, column, ch);
    InRange(s, row, column, ch);
  }

  /** Byte `(y, x, ch)` of the result is the greatest of the bytes of that channel in the `k` rows from `y` and the `k` columns
      from `x`. */
  lemma {:induction false} PooledIsMaximum(image: seq<bv8>, s: Shape, y: nat, x: nat, ch: nat)
    requires |image| == s.InSize() && s.Valid() && y < s.oh && x < s.ow && ch < s.c && s.k > 0
    ensures Flat([s.oh, s.ow, s.c], [y, x, ch]) < s.OutSize()
    ensures forall r: nat, c: nat | y <= r < y + s.k && x <= c < x + s.k ::
      Signed(ByteAt(image, s.h, s.w, s.c, r, c, ch)) <= Signed(Pooled(image, s, Flat([s.oh, s.ow, s.c], [y, x, ch])))
    ensures exists r: nat, c: nat | y <= r < y + s.k && x <= c < x + s.k ::
      ByteAt(image, s.h, s.w, s.c, r, c, ch) == Pooled(image, s, Flat([s.oh, s.ow, s.c], [y, x, ch]))
  {
    FlatThree(s.oh, s.ow, s.c, y, x, ch);
    hide WindowMax, Place, Flat, ByteAt, Pooled, Tap, Signed;
    PooledAt(image, s, y, x, ch);
    MaxIsMax(image, s, y, x, ch);
    forall r: nat, c: nat | y <= r < y + s.k && x <= c < x + s.k
      ensures ByteAt(image, s.h, s.w, s.c, r, c, ch) == Tap(image, s, y, x, ch, r - y, c - x)
    {
      TapIs(image, s, y, x, ch, r, c);
    }
    var v := WindowMax(image, s, y, x, ch);
    var a, b := TapReached(image, s, y, x, ch);
    assert ByteAt(image, s.h, s.w, s.c, y + a, x + b, ch) == Tap(image, s, y, x, ch, y + a - y, x + b - x);
  }

  lemma TapIs(image: seq<bv8>, s: Shape, y: nat, x: nat, ch: nat, r: nat, c: nat)
    requires |image| == s.InSize() && s.Valid() && y < s.oh && x < s.ow && ch < s.c && y <= r < y + s.k && x <= c < x + s.k
    ensures ByteAt(image, s.h, s.w, s.c, r, c, ch) == Tap(image, s, y, x, ch, r - y, c - x)
  {
    hide ByteAt, InAt;
    ByteOfImage(image, s, r, c, ch);
  }

  lemma TapReached(image: seq<bv8>, s: Shape, y: nat, x: nat, ch: nat) returns (a: nat, b: nat)
    requires |image| == s.InSize() && s.Valid() && y < s.oh && x < s.ow && ch < s.c && s.k > 0
    ensures a < s.k && b < s.k && Tap(image, s, y, x, ch, a, b) == WindowMax(image, s, y, x, ch)
  {
    hide Tap, WindowMax;
    MaxIsMax(image, s, y, x, ch);
    var v := WindowMax(image, s, y, x, ch);
    if v == 0x80 {
      assert Signed(Tap(image, s, y, x, ch, 0, 0)) <= Signed(v);
      a, b := 0, 0;
    } else {
      a, b :| a < s.k && b < s.k && Tap(image, s, y, x, ch, a, b) == v;
    }
  }

  method ScalarWindow(image: array<bv8>, s: Shape, y: nat, x: nat, ch: nat) returns (m: bv8)
    requires image.Length == s.InSize() && s.Valid() && y < s.oh && x < s.ow && ch < s.c
    ensures m == WindowMax(image[..], s, y, x, ch)
  {
    m := 0x80;
    for i := 0 to s.k
      invariant m == MaxBefore(image[..], s, y, x, ch, i, 0)
    {
      for j := 0 to s.k
        invariant m == MaxBefore(image[..], s, y, x, ch, i, j)
      {
        InRange(s, y + i, x + j, ch);
        var v := image[((y + i) * s.w + (x + j)) * s.c + ch];
        if Signed(v) > Signed(m) {
          m := v;
        }
      }
    }
  }

  /** `pool_scalar`. */
  method PoolScalar(image: array<bv8>, out: array<bv8>, s: Shape)
    requires s.Valid() && image.Length == s.InSize() && out.Length == s.OutSize() && image != out
    modifies out
    ensures forall t | 0 <= t < out.Length :: out[t] == Pooled(image[..], s, t)
  {
    ghost var t := 0;
    for y := 0 to s.oh
      invariant t == y * s.ow * s.c
      invariant forall u | 0 <= u < t && u < out.Length :: out[u] == Pooled(image[..], s, u)
    {
      for x := 0 to s.ow
        invariant t == (y * s.ow + x) * s.c
        invariant forall u | 0 <= u < t && u < out.Length :: out[u] == Pooled(image[..], s, u)
      {
        for ch := 0 to s.c
          invariant t == (y * s.ow + x) * s.c + ch
          invariant forall u | 0 <= u < t && u < out.Length :: out[u] == Pooled(image[..], s, u)
        {
          var m := ScalarWindow(image, s, y, x, ch);
          PooledAt(image[..], s, y, x, ch);
          out[(y * s.ow + x) * s.c + ch] := m;
          t := t + 1;
        }
      }
    }
  }

  /** The eight bytes at `at`, as `memcpy` into a word reads them. */
  method LoadWord(image: array<bv8>, at: nat) returns (w: bv64)
    requires at + 8 <= image.Length
    ensures forall k | 0 <= k < 8 :: Lane(w, k) == image[at + k]
  {
    hide Lane;
    var bytes := image[at..at + 8];
    w := Load(bytes);
    forall k | 0 <= k < 8 ensures Lane(w, k) == image[at + k] {
      LaneLoad(bytes, k);
    }
  }

  method StoreWord(out: array<bv8>, at: nat, w: bv64)
    requires at + 8 <= out.Length
    modifies out
    ensures forall t | at <= t < at + 8 :: out[t] == Lane(w, t - at)
    ensures forall t | 0 <= t < out.Length && !(at <= t < at + 8) :: out[t] == old(out[t])
  {
    hide Lane;
    for k := 0 to 8
      invariant forall t | at <= t < at + k :: out[t] == Lane(w, t - at)
      invariant forall t | 0 <= t < out.Length && !(at <= t < at + 8) :: out[t] == old(out[t])
    {
      out[at + k] := Lane(w, k);
    }
  }

  /** A whole word of channels pools at once: unpadded memory order makes the word's bytes adjacent channels. */
  lemma TapWord(image: seq<bv8>, s: Shape, y: nat, x: nat, ch: nat, i: nat, j: nat)
    requires |image| == s.InSize() && s.Valid() && y < s.oh && x < s.ow && ch + 8 <= s.c && i < s.k && j < s.k
    ensures InAt(s, y + i, x + j, ch) + 8 <= |image|
    ensures var at := InAt(s, y + i, x + j, ch);
      forall u | at <= u < at + 8 :: image[u] == Tap(image, s, y, x, ch + (u - at), i, j)
  {
    InRange(s, y + i, x + j, ch + 7);
  }

  /** The flipped running maximum before tap `(i, j)` of eight channels. */
  ghost predicate General(m: bv64, image: seq<bv8>, s: Shape, y: nat, x: nat, ch: nat, i: nat, j: nat)
    requires |image| == s.InSize() && s.Valid() && y < s.oh && x < s.ow && ch + 8 <= s.c
    requires i <= s.k && j <= s.k && (i == s.k ==> j == 0)
  {
    forall k | 0 <= k < 8 :: Lane(Flip(m), k) == MaxBefore(image, s, y, x, ch + k, i, j)
  }

  lemma FlipZero(k: nat)
    requires k < 8
    ensures Lane(Flip(0), k) == 0x80
  {
    LaneHi(k);
  }

  lemma FlipFlip(w: bv64)
    ensures Flip(Flip(w)) == w
  {
  }

  lemma GeneralStart(image: seq<bv8>, s: Shape, y: nat, x: nat, ch: nat)
    requires |image| == s.InSize() && s.Valid() && y < s.oh && x < s.ow && ch + 8 <= s.c
    ensures General(0, image, s, y, x, ch, 0, 0)
  {
    hide Lane, Flip;
    forall k | 0 <= k < 8 ensures Lane(Flip(0), k) == 0x80 {
      FlipZero(k);
    }
  }

  lemma GeneralStep(m: bv64, w: bv64, image: seq<bv8>, s: Shape, y: nat, x: nat, ch: nat, i: nat, j: nat)
    requires |image| == s.InSize() && s.Valid() && y < s.oh && x < s.ow && ch + 8 <= s.c && i < s.k && j < s.k
    requires General(m, image, s, y, x, ch, i, j)
    requires forall k | 0 <= k < 8 :: Lane(w, k) == Tap(image, s, y, x, ch + k, i, j)
    ensures General(Umax8General(m, Flip(w)), image, s, y, x, ch, i, j + 1)
  {
    hide Lane, Flip, Umax8General, SignedMax;
    FlipFlip(m);
    forall k | 0 <= k < 8
      ensures Lane(Flip(Umax8General(m, Flip(w))), k) == MaxBefore(image, s, y, x, ch + k, i, j + 1)
    {
      GeneralIsSignedMax(Flip(m), w, k);
    }
  }

  lemma GeneralRow(m: bv64, image: seq<bv8>, s: Shape, y: nat, x: nat, ch: nat, i: nat)
    requires |image| == s.InSize() && s.Valid() && y < s.oh && x < s.ow && ch + 8 <= s.c && i < s.k
    requires General(m, image, s, y, x, ch, i, s.k)
    ensures General(m, image, s, y, x, ch, i + 1, 0)
  {
    hide Lane, Flip, SignedMax;
  }

  lemma GeneralDone(m: bv64, image: seq<bv8>, s: Shape, y: nat, x: nat, ch: nat)
    requires |image| == s.InSize() && s.Valid() && y < s.oh && x < s.ow && ch + 8 <= s.c
    requires General(m, image, s, y, x, ch, s.k, 0)
    ensures forall k | 0 <= k < 8 :: Lane(Flip(m), k) == WindowMax(image, s, y, x, ch + k)
  {
    hide Lane, Flip, SignedMax, MaxBefore;
  }

  method GeneralWindow(image: array<bv8>, s: Shape, y: nat, x: nat, ch: nat) returns (m: bv64)
    requires image.Length == s.InSize() && s.Valid() && y < s.oh && x < s.ow && ch + 8 <= s.c
    ensures forall k | 0 <= k < 8 :: Lane(m, k) == WindowMax(image[..], s, y, x, ch + k)
  {
    hide Lane, Flip, Umax8General, SignedMax, General;
    m := 0;
    GeneralStart(image[..], s, y, x, ch);
    for i := 0 to s.k
      invariant General(m, image[..], s, y, x, ch, i, 0)
    {
      for j := 0 to s.k
        invariant General(m, image[..], s, y, x, ch, i, j)
      {
        TapWord(image[..], s, y, x, ch, i, j);
        var w := LoadWord(image, ((y + i) * s.w + (x + j)) * s.c + ch);
        GeneralStep(m, w, image[..], s, y, x, ch, i, j);
        m := Umax8General(m, Flip(w));
      }
      GeneralRow(m, image[..], s, y, x, ch, i);
    }
    GeneralDone(m, image[..], s, y, x, ch);
    m := Flip(m);
  }

  /** The first `n` bytes of the output are done. */
  ghost predicate Filled(out: seq<bv8>, image: seq<bv8>, s: Shape, n: nat)
    requires |image| == s.InSize() && s.Valid() && |out| == s.OutSize()
  {
    forall u | 0 <= u < n && u < |out| :: out[u] == Pooled(image, s, u)
  }

  lemma FilledNone(out: seq<bv8>, image: seq<bv8>, s: Shape)
    requires |image| == s.InSize() && s.Valid() && |out| == s.OutSize()
    ensures Filled(out, image, s, 0)
  {
  }

  lemma FilledAll(out: seq<bv8>, image: seq<bv8>, s: Shape)
    requires |image| == s.InSize() && s.Valid() && |out| == s.OutSize()
    requires Filled(out, image, s, s.oh * s.ow * s.c)
    ensures forall t | 0 <= t < |out| :: out[t] == Pooled(image, s, t)
  {
  }

  lemma NextPixel(s: Shape, y: nat, x: nat)
    ensures OutAt(s, y, x, s.c) == OutAt(s, y, x + 1, 0)
  {
    assert (y * s.ow + (x + 1)) * s.c == (y * s.ow + x) * s.c + s.c;
  }

  lemma OutWord(image: seq<bv8>, s: Shape, y: nat, x: nat, ch: nat)
    requires |image| == s.InSize() && s.Valid() && y < s.oh && x < s.ow && ch + 8 <= s.c
    ensures OutAt(s, y, x, ch) + 8 <= s.OutSize()
    ensures var at := OutAt(s, y, x, ch);
      forall u | at <= u < at + 8 :: Pooled(image, s, u) == WindowMax(image, s, y, x, ch + (u - at))
  {
    PooledAt(image, s, y, x, ch + 7);
    var at := OutAt(s, y, x, ch);
    forall u | at <= u < at + 8 ensures Pooled(image, s, u) == WindowMax(image, s, y, x, ch + (u - at)) {
      PooledAt(image, s, y, x, ch + (u - at));
    }
  }

  /** Storing a word of pooled channels. */
  method StorePooled(image: array<bv8>, out: array<bv8>, s: Shape, y: nat, x: nat, ch: nat, m: bv64)
    requires s.Valid() && image.Length == s.InSize() && out.Length == s.OutSize() && image != out
    requires y < s.oh && x < s.ow && ch + 8 <= s.c && Filled(out[..], image[..], s, OutAt(s, y, x, ch))
    requires forall k | 0 <= k < 8 :: Lane(m, k) == WindowMax(image[..], s, y, x, ch + k)
    modifies out
    ensures Filled(out[..], image[..], s, OutAt(s, y, x, ch + 8))
  {
    hide Lane, Pooled, WindowMax;
    OutWord(image[..], s, y, x, ch);
    StoreWord(out, (y * s.ow + x) * s.c + ch, m);
  }

  method GeneralPixel(image: array<bv8>, out: array<bv8>, s: Shape, y: nat, x: nat)
    requires s.Valid() && image.Length == s.InSize() && out.Length == s.OutSize() && image != out
    requires y < s.oh && x < s.ow && Filled(out[..], image[..], s, OutAt(s, y, x, 0))
    modifies out
    ensures Filled(out[..], image[..], s, OutAt(s, y, x, s.c))
  {
    hide Lane, WindowMax, Filled, OutAt;
    var ch := 0;
    while ch < s.c
      invariant 0 <= ch <= s.c && ch % 8 == 0
      invariant Filled(out[..], image[..], s, OutAt(s, y, x, ch))
    {
      var m := GeneralWindow(image, s, y, x, ch);
      StorePooled(image, out, s, y, x, ch, m);
      ch := ch + 8;
    }
  }

  /** `pool_general`: on every input, the scalar pool. */
  method PoolGeneral(image: array<bv8>, out: array<bv8>, s: Shape)
    requires s.Valid() && image.Length == s.InSize() && out.Length == s.OutSize() && image != out
    modifies out
    ensures forall t | 0 <= t < out.Length :: out[t] == Pooled(image[..], s, t)
  {
    hide Filled;
    assert Filled(out[..], image[..], s, 0) by { FilledNone(out[..], image[..], s); }
    for y := 0 to s.oh
      invariant Filled(out[..], image[..], s, y * s.ow * s.c)
    {
      for x := 0 to s.ow
        invariant Filled(out[..], image[..], s, (y * s.ow + x) * s.c)
      {
        GeneralPixel(image, out, s, y, x);
        NextPixel(s, y, x);
      }
      assert (y + 1) * s.ow == y * s.ow + s.ow;
    }
    FilledAll(out[..], image[..], s);
  }

  /** No byte of the input has its high bit set, which is what a relu leaves. */
  ghost predicate NonNegative(image: seq<bv8>) {
    forall i | 0 <= i < |image| :: image[i] < 0x80
  }

  lemma LowWord(w: bv64)
    requires forall k | 0 <= k < 8 :: Lane(w, k) < 0x80
    ensures NoHighBits(w)
  {
    assert Lane(w, 0) < 0x80 && Lane(w, 1) < 0x80 && Lane(w, 2) < 0x80 && Lane(w, 3) < 0x80;
    assert Lane(w, 4) < 0x80 && Lane(w, 5) < 0x80 && Lane(w, 6) < 0x80 && Lane(w, 7) < 0x80;
  }

  /** On bytes below 0x80 unsigned and signed order agree, and starting from 0 loses nothing. */
  lemma LowMax(x: bv8, y: bv8)
    requires x < 0x80 && y < 0x80
    ensures UnsignedMax(x, y) == SignedMax(x, y) && SignedMax(0x80, y) == y && SignedMax(0, y) == y
  {
  }

  /** The cheap running maximum: the scalar one, except that it starts at 0 rather than -128. */
  ghost predicate Cheap(m: bv64, image: seq<bv8>, s: Shape, y: nat, x: nat, ch: nat, i: nat, j: nat)
    requires |image| == s.InSize() && s.Valid() && y < s.oh && x < s.ow && ch + 8 <= s.c
    requires i <= s.k && j <= s.k && (i == s.k ==> j == 0)
  {
    NoHighBits(m) && forall k | 0 <= k < 8 ::
      Lane(m, k) == if i == 0 && j == 0 then 0 else MaxBefore(image, s, y, x, ch + k, i, j)
  }

  lemma CheapStep(m: bv64, w: bv64, image: seq<bv8>, s: Shape, y: nat, x: nat, ch: nat, i: nat, j: nat)
    requires |image| == s.InSize() && s.Valid() && y < s.oh && x < s.ow && ch + 8 <= s.c && i < s.k && j < s.k
    requires NonNegative(image) && Cheap(m, image, s, y, x, ch, i, j)
    requires forall k | 0 <= k < 8 :: Lane(w, k) == Tap(image, s, y, x, ch + k, i, j)
    ensures Cheap(Umax8(m, w), image, s, y, x, ch, i, j + 1)
  {
    hide Lane, Umax8, NoHighBits, SignedMax;
    LowTaps(w, image, s, y, x, ch, i, j);
    CheapKeepsLow(m, w);
    forall k | 0 <= k < 8 ensures Lane(Umax8(m, w), k) == MaxBefore(image, s, y, x, ch + k, i, j + 1) {
      CheapLane(m, w, k);
    }
  }

  lemma LowTaps(w: bv64, image: seq<bv8>, s: Shape, y: nat, x: nat, ch: nat, i: nat, j: nat)
    requires |image| == s.InSize() && s.Valid() && y < s.oh && x < s.ow && ch + 8 <= s.c && i < s.k && j < s.k
    requires NonNegative(image)
    requires forall k | 0 <= k < 8 :: Lane(w, k) == Tap(image, s, y, x, ch + k, i, j)
    ensures NoHighBits(w)
  {
    hide Lane, NoHighBits;
    forall k | 0 <= k < 8 ensures Lane(w, k) < 0x80 {
      InRange(s, y + i, x + j, ch + k);
    }
    LowWord(w);
  }

  /** In its domain `umax8` is the signed maximum too, and 0 is as good a start as -128. */
  lemma CheapLane(m: bv64, w: bv64, k: nat)
    requires NoHighBits(m) && NoHighBits(w) && k < 8
    ensures Lane(Umax8(m, w), k) == SignedMax(Lane(m, k), Lane(w, k))
    ensures Lane(m, k) == 0 ==> SignedMax(0x80, Lane(w, k)) == SignedMax(Lane(m, k), Lane(w, k))
  {
    hide Lane, Umax8, NoHighBits, UnsignedMax, SignedMax;
    CheapIsGeneral(m, w);
    GeneralIsUnsignedMax(m, w, k);
    LowLane(m, k);
    LowLane(w, k);
    LowMax(Lane(m, k), Lane(w, k));
  }

  lemma LowLane(w: bv64, k: nat)
    requires NoHighBits(w) && k < 8
    ensures Lane(w, k) < 0x80
  {
    match k
    case 0 =>
    case 1 =>
    case 2 =>
    case 3 =>
    case 4 =>
    case 5 =>
    case 6 =>
    case _ =>
  }

  method CheapWindow(image: array<bv8>, s: Shape, y: nat, x: nat, ch: nat) returns (m: bv64)
    requires image.Length == s.InSize() && s.Valid() && y < s.oh && x < s.ow && ch + 8 <= s.c
    requires s.k > 0 && NonNegative(image[..])
    ensures forall k | 0 <= k < 8 :: Lane(m, k) == WindowMax(image[..], s, y, x, ch + k)
  {
    hide Lane, Umax8, NoHighBits, SignedMax;
    m := 0;
    assert Cheap(m, image[..], s, y, x, ch, 0, 0) by { ZeroWord(); }
    for i := 0 to s.k
      invariant Cheap(m, image[..], s, y, x, ch, i, 0)
    {
      for j := 0 to s.k
        invariant Cheap(m, image[..], s, y, x, ch, i, j)
      {
        TapWord(image[..], s, y, x, ch, i, j);
        var w := LoadWord(image, ((y + i) * s.w + (x + j)) * s.c + ch);
        CheapStep(m, w, image[..], s, y, x, ch, i, j);
        m := Umax8(m, w);
      }
    }
  }

  lemma ZeroWord()
    ensures NoHighBits(0) && forall k | 0 <= k < 8 :: Lane(0, k) == 0
  {
  }

  method CheapPixel(image: array<bv8>, out: array<bv8>, s: Shape, y: nat, x: nat)
    requires s.Valid() && image.Length == s.InSize() && out.Length == s.OutSize() && image != out
    requires y < s.oh && x < s.ow && Filled(out[..], image[..], s, OutAt(s, y, x, 0))
    requires s.k > 0 && NonNegative(image[..])
    modifies out
    ensures Filled(out[..], image[..], s, OutAt(s, y, x, s.c))
  {
    hide Lane, WindowMax, Filled, OutAt;
    var ch := 0;
    while ch < s.c
      invariant 0 <= ch <= s.c && ch % 8 == 0
      invariant Filled(out[..], image[..], s, OutAt(s, y, x, ch))
    {
      var m := CheapWindow(image, s, y, x, ch);
      StorePooled(image, out, s, y, x, ch, m);
      ch := ch + 8;
    }
  }

  /** `pool_swar`: the scalar pool whenever every input byte is below 0x80 and the window is not empty. */
  method PoolSwar(image: array<bv8>, out: array<bv8>, s: Shape)
    requires s.Valid() && image.Length == s.InSize() && out.Length == s.OutSize() && image != out
    requires s.k > 0 && NonNegative(image[..])
    modifies out
    ensures forall t | 0 <= t < out.Length :: out[t] == Pooled(image[..], s, t)
  {
    hide Filled;
    assert Filled(out[..], image[..], s, 0) by { FilledNone(out[..], image[..], s); }
    for y := 0 to s.oh
      invariant Filled(out[..], image[..], s, y * s.ow * s.c)
    {
      for x := 0 to s.ow
        invariant Filled(out[..], image[..], s, (y * s.ow + x) * s.c)
      {
        CheapPixel(image, out, s, y, x);
        NextPixel(s, y, x);
      }
      assert (y + 1) * s.ow == y * s.ow + s.ow;
    }
    FilledAll(out[..], image[..], s);
  }
}
