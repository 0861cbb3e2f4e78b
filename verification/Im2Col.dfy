/** Convolution as packing plus a matmul (`NhwcConvToSplitImg2Col` in
    `lib/Transforms/ConvToImg2Col/ConvToImg2ColPass.cpp`), for a batch of one.

    Tensors are flat in row-major order, so collapsing and expanding dimensions leaves the data as it is; what has
    to be shown is that the flat positions on both sides stand for the same indices. Reading a position outside a
    tensor gives 0 on both sides. */
module Im2Col {
  import opened Arith
  import opened RowMajor
  import opened Sums

  /** Image (1, h, w, c), filter (kh, kw, c, f), result (1, oh, ow, f), strides and dilations. */
  datatype Conv = Conv(h: nat, w: nat, c: nat, kh: nat, kw: nat, f: nat, oh: nat, ow: nat,
                       sh: nat, sw: nat, dh: nat, dw: nat) {
    function Positions(): nat { oh * ow }
    function Window(): nat { kh * kw * c }
  }

  function At(s: seq<int>, i: nat): int {
    if i < |s| then s[i] else 0
  }

  function ImageIndex(v: Conv, row: nat, col: nat, ch: nat): nat { (row * v.w + col) * v.c + ch }

  /** The part of a filter or pack position that counts within one window. */
  function WindowIndex(v: Conv, i: nat, j: nat, ch: nat): nat { (i * v.kw + j) * v.c + ch }

  /** The element the read map `(n, y*sh + i*dh, x*sw + j*dw, ch)` selects. */
  function Read(v: Conv, image: seq<int>, y: nat, x: nat, i: nat, j: nat, ch: nat): int {
    At(image, ImageIndex(v, y * v.sh + i * v.dh, x * v.sw + j * v.dw, ch))
  }

  /** A filter weight; collapsing the filter's first three dimensions leaves it where it is. */
  function Weight(v: Conv, filter: seq<int>, q: nat, k: nat): int { At(filter, q * v.f + k) }

  function Term(v: Conv, image: seq<int>, filter: seq<int>, y: nat, x: nat, k: nat, i: nat, j: nat, ch: nat): int {
    Read(v, image, y, x, i, j, ch) * Weight(v, filter, WindowIndex(v, i, j, ch), k)
  }

  function TapSum(v: Conv, image: seq<int>, filter: seq<int>, y: nat, x: nat, k: nat, i: nat, j: nat): int {
    Sum(v.c, (ch: nat) => Term(v, image, filter, y, x, k, i, j, ch))
  }

  function RowSum(v: Conv, image: seq<int>, filter: seq<int>, y: nat, x: nat, k: nat, i: nat): int {
    Sum(v.kw, (j: nat) => TapSum(v, image, filter, y, x, k, i, j))
  }

  /** The convolution sum of one result element: over filter rows, filter columns and channels. */
  function Direct(v: Conv, image: seq<int>, filter: seq<int>, y: nat, x: nat, k: nat): int {
    Sum(v.kh, (i: nat) => RowSum(v, image, filter, y, x, k, i))
  }

  /** The convolution on flat tensors: init plus the sum, at every index. */
  function Convolve(v: Conv, image: seq<int>, filter: seq<int>, init: seq<int>): (r: seq<int>)
    ensures |r| == v.Positions() * v.f
  {
    seq(v.Positions() * v.f, t requires 0 <= t < v.Positions() * v.f => ConvolveAt(v, image, filter, init, t))
  }

  function ConvolveAt(v: Conv, image: seq<int>, filter: seq<int>, init: seq<int>, t: nat): int {
    if v.f == 0 || v.ow == 0 then 0
    else
      var p: nat, k: nat := t / v.f, t % v.f;
      var y: nat, x: nat := p / v.ow, p % v.ow;
      At(init, t) + Direct(v, image, filter, y, x, k)
  }

  // The rewrite.

  /** Where the six-dimensional pack `(1, oh, ow, kh, kw, c)` keeps an element. */
  function PackIndex(v: Conv, y: nat, x: nat, i: nat, j: nat, ch: nat): nat {
    (((y * v.ow + x) * v.kh + i) * v.kw + j) * v.c + ch
  }

  /** The packed element at window position `q` of output position `p`. */
  function Patch(v: Conv, image: seq<int>, p: nat, q: nat): int {
    if v.ow == 0 || v.kw == 0 || v.c == 0 then 0
    else Read(v, image, p / v.ow, p % v.ow, q / v.c / v.kw, q / v.c % v.kw, q % v.c)
  }

  /** The packed image, collapsed to a matrix of positions by window. */
  function Packed(v: Conv, image: seq<int>): seq<int> {
    seq(v.Positions() * v.Window(), t requires 0 <= t < v.Positions() * v.Window() =>
      if v.Window() == 0 then 0 else Patch(v, image, t / v.Window(), t % v.Window()))
  }

  /** `linalg.matmul` onto `init`: (positions x window) times (window x f). */
  function Matmul(v: Conv, cols: seq<int>, weights: seq<int>, init: seq<int>): (r: seq<int>)
    ensures |r| == v.Positions() * v.f
  {
    seq(v.Positions() * v.f, t requires 0 <= t < v.Positions() * v.f => MatmulAt(v, cols, weights, init, t))
  }

  function MatmulAt(v: Conv, cols: seq<int>, weights: seq<int>, init: seq<int>, t: nat): int {
    if v.f == 0 then 0
    else
      var p: nat, k: nat := t / v.f, t % v.f;
      At(init, t) + Dot(v, cols, weights, p, k)
  }

  /** A row of the columns times a column of the weights. */
  function Dot(v: Conv, cols: seq<int>, weights: seq<int>, p: nat, k: nat): int {
    Sum(v.Window(), (q: nat) => Column(v, cols, p, q) * Weight(v, weights, q, k))
  }

  function Column(v: Conv, cols: seq<int>, p: nat, q: nat): int { At(cols, p * v.Window() + q) }

  /** Pack, collapse, multiply onto the collapsed init, expand. */
  function Im2Col(v: Conv, image: seq<int>, filter: seq<int>, init: seq<int>): seq<int> {
    Matmul(v, Packed(v, image), filter, init)
  }

  lemma WindowDecode(v: Conv, i: nat, j: nat, ch: nat)
    requires i < v.kh && j < v.kw && ch < v.c
    ensures var q := WindowIndex(v, i, j, ch);
      q < v.Window() && q / v.c / v.kw == i && q / v.c % v.kw == j && q % v.c == ch
  {
    PairBound(i, v.kh, j, v.kw);
    PairBound(i * v.kw + j, v.kh * v.kw, ch, v.c);
    DivModUnique(i * v.kw + j, ch, v.c);
    DivModUnique(i, j, v.kw);
  }

  lemma Distribute(p: nat, a: nat, i: nat, b: nat, j: nat, c: nat, ch: nat)
    ensures ((p * a + i) * b + j) * c + ch == p * (a * b * c) + ((i * b + j) * c + ch)
  {
    assert (p * a + i) * b == p * (a * b) + i * b;
    assert (p * (a * b) + (i * b + j)) * c == p * (a * b * c) + (i * b + j) * c;
  }

  /** The collapsed pack holds at every six-index position what the affine map reads there. */
  lemma PackedAt(v: Conv, image: seq<int>, y: nat, x: nat, i: nat, j: nat, ch: nat)
    requires y < v.oh && x < v.ow && i < v.kh && j < v.kw && ch < v.c
    ensures PackIndex(v, y, x, i, j, ch) < |Packed(v, image)|
    ensures Packed(v, image)[PackIndex(v, y, x, i, j, ch)] == Read(v, image, y, x, i, j, ch)
  {
    hide PackIndex, WindowIndex, Packed, Patch, Read, Conv.Window;
    var p, q := y * v.ow + x, WindowIndex(v, i, j, ch);
    PackIndexIs(v, y, x, i, j, ch);
    WindowDecode(v, i, j, ch);
    PairBound(y, v.oh, x, v.ow);
    PackedPatch(v, image, p, q);
    PatchAt(v, image, y, x, i, j, ch);
  }

  lemma PackIndexIs(v: Conv, y: nat, x: nat, i: nat, j: nat, ch: nat)
    ensures PackIndex(v, y, x, i, j, ch) == (y * v.ow + x) * v.Window() + WindowIndex(v, i, j, ch)
  {
    Distribute(y * v.ow + x, v.kh, i, v.kw, j, v.c, ch);
  }

  lemma PackedPatch(v: Conv, image: seq<int>, p: nat, q: nat)
    requires p < v.Positions() && q < v.Window()
    ensures p * v.Window() + q < |Packed(v, image)| && Packed(v, image)[p * v.Window() + q] == Patch(v, image, p, q)
  {
    hide Patch, Conv.Window, Conv.Positions;
    PairBound(p, v.Positions(), q, v.Window());
    DivModUnique(p, q, v.Window());
  }

  lemma PatchAt(v: Conv, image: seq<int>, y: nat, x: nat, i: nat, j: nat, ch: nat)
    requires x < v.ow && i < v.kh && j < v.kw && ch < v.c
    ensures Patch(v, image, y * v.ow + x, WindowIndex(v, i, j, ch)) == Read(v, image, y, x, i, j, ch)
  {
    hide Read, WindowIndex;
    WindowDecode(v, i, j, ch);
    DivModUnique(y, x, v.ow);
  }

  /** The window sum, flat, is the convolution sum, nested. */
  lemma {:induction false} WindowSum(v: Conv, image: seq<int>, filter: seq<int>, y: nat, x: nat, k: nat, flat: nat -> int)
    requires forall i: nat, j: nat, ch: nat | i < v.kh && j < v.kw && ch < v.c ::
      flat(WindowIndex(v, i, j, ch)) == Term(v, image, filter, y, x, k, i, j, ch)
    ensures Sum(v.Window(), flat) == Direct(v, image, filter, y, x, k)
  {
    hide Term, TapSum, RowSum, Sum;
    var channels := (r: nat) => (ch: nat) => flat(r * v.c + ch);
    var perTap := (r: nat) => Sum(v.c, channels(r));
    SumBlocks(v.kh * v.kw, v.c, flat, channels, perTap);
    forall i: nat, j: nat | i < v.kh && j < v.kw ensures perTap(i * v.kw + j) == TapSum(v, image, filter, y, x, k, i, j) {
      TapIs(v, image, filter, y, x, k, i, j, channels(i * v.kw + j), flat);
    }
    TapsSum(v, image, filter, y, x, k, perTap);
  }

  lemma {:induction false} TapIs(v: Conv, image: seq<int>, filter: seq<int>, y: nat, x: nat, k: nat, i: nat, j: nat,
                                 channel: nat -> int, flat: nat -> int)
    requires forall ch: nat | ch < v.c :: channel(ch) == flat((i * v.kw + j) * v.c + ch)
    requires forall ch: nat | ch < v.c :: flat(WindowIndex(v, i, j, ch)) == Term(v, image, filter, y, x, k, i, j, ch)
    ensures Sum(v.c, channel) == TapSum(v, image, filter, y, x, k, i, j)
  {
    hide Term, Sum;
    forall ch: nat | ch < v.c ensures channel(ch) == Term(v, image, filter, y, x, k, i, j, ch) {
      assert flat((i * v.kw + j) * v.c + ch) == flat(WindowIndex(v, i, j, ch));
    }
    SumExt(v.c, channel, (ch: nat) => Term(v, image, filter, y, x, k, i, j, ch));
  }

  lemma {:induction false} TapsSum(v: Conv, image: seq<int>, filter: seq<int>, y: nat, x: nat, k: nat, perTap: nat -> int)
    requires forall i: nat, j: nat | i < v.kh && j < v.kw :: perTap(i * v.kw + j) == TapSum(v, image, filter, y, x, k, i, j)
    ensures Sum(v.kh * v.kw, perTap) == Direct(v, image, filter, y, x, k)
  {
    hide TapSum, Sum;
    var taps := (i: nat) => (j: nat) => TapSum(v, image, filter, y, x, k, i, j);
    var rows := (i: nat) => RowSum(v, image, filter, y, x, k, i);
    forall i: nat | i < v.kh ensures rows(i) == Sum(v.kw, taps(i)) {
      SumExt(v.kw, taps(i), (j: nat) => TapSum(v, image, filter, y, x, k, i, j));
    }
    SumBlocks(v.kh, v.kw, perTap, taps, rows);
    SumExt(v.kh, rows, (i: nat) => RowSum(v, image, filter, y, x, k, i));
  }

  /** The rewrite computes the convolution, element for element. */
  lemma {:induction false} Im2ColIsConvolution(v: Conv, image: seq<int>, filter: seq<int>, init: seq<int>)
    ensures Im2Col(v, image, filter, init) == Convolve(v, image, filter, init)
  {
    forall t | 0 <= t < v.Positions() * v.f
      ensures Im2Col(v, image, filter, init)[t] == Convolve(v, image, filter, init)[t]
    {
      ElementAgrees(v, image, filter, init, t);
    }
  }

  lemma {:induction false} ElementAgrees(v: Conv, image: seq<int>, filter: seq<int>, init: seq<int>, t: nat)
    requires t < v.Positions() * v.f
    ensures Im2Col(v, image, filter, init)[t] == Convolve(v, image, filter, init)[t]
  {
    hide Direct, At, Packed, Dot;
    PositionOf(v, t);
    DotIsDirect(v, image, filter, t / v.f, t / v.f / v.ow, t / v.f % v.ow, t % v.f);
  }

  /** A row of the packed image times a filter is the convolution sum at the row's position. */
  lemma {:induction false} DotIsDirect(v: Conv, image: seq<int>, filter: seq<int>, p: nat, y: nat, x: nat, k: nat)
    requires p < v.Positions() && v.ow > 0 && x < v.ow && p == y * v.ow + x && y < v.oh
    ensures Dot(v, Packed(v, image), filter, p, k) == Direct(v, image, filter, y, x, k)
  {
    hide Sum, Direct, Read, Packed, Column, Weight, WindowIndex;
    var cols := Packed(v, image);
    var flat := (q: nat) => Column(v, cols, p, q) * Weight(v, filter, q, k);
    forall i: nat, j: nat, ch: nat | i < v.kh && j < v.kw && ch < v.c
      ensures flat(WindowIndex(v, i, j, ch)) == Term(v, image, filter, y, x, k, i, j, ch)
    {
      ColumnEntry(v, image, p, y, x, i, j, ch);
    }
    WindowSum(v, image, filter, y, x, k, flat);
    SumExt(v.Window(), flat, (q: nat) => Column(v, cols, p, q) * Weight(v, filter, q, k));
  }

  lemma PositionOf(v: Conv, t: nat)
    requires t < v.Positions() * v.f
    ensures v.f > 0 && v.ow > 0 && t / v.f < v.Positions()
    ensures t / v.f / v.ow < v.oh && t / v.f == t / v.f / v.ow * v.ow + t / v.f % v.ow
  {
    assert v.f == 0 ==> v.Positions() * v.f == 0;
    DivBound(t, v.Positions(), v.f);
    assert v.ow == 0 ==> v.oh * v.ow == 0;
    DivBound(t / v.f, v.oh, v.ow);
  }

  lemma ColumnEntry(v: Conv, image: seq<int>, p: nat, y: nat, x: nat, i: nat, j: nat, ch: nat)
    requires p < v.Positions() && v.ow > 0 && x < v.ow && p == y * v.ow + x && y < v.oh
    requires i < v.kh && j < v.kw && ch < v.c
    ensures Column(v, Packed(v, image), p, WindowIndex(v, i, j, ch)) == Read(v, image, y, x, i, j, ch)
  {
    hide Packed, Read, PackIndex, WindowIndex;
    PackedAt(v, image, y, x, i, j, ch);
    assert PackIndex(v, y, x, i, j, ch) == p * v.Window() + WindowIndex(v, i, j, ch) by { PackIndexIs(v, y, x, i, j, ch); }
  }

  // Element by element, written out.

  function ImageShape(v: Conv): seq<nat> { [1, v.h, v.w, v.c] }

  function FilterShape(v: Conv): seq<nat> { [v.kh, v.kw, v.c, v.f] }

  function ResultShape(v: Conv): seq<nat> { [1, v.oh, v.ow, v.f] }

  lemma FlatFour(a: nat, b: nat, c: nat, d: nat, n: nat, y: nat, x: nat, ch: nat)
    ensures Flat([a, b, c, d], [n, y, x, ch]) == ((n * b + y) * c + x) * d + ch
  {
    assert [a, b, c, d][..3] == [a, b, c] && [n, y, x, ch][..3] == [n, y, x];
    assert [a, b, c][..2] == [a, b] && [n, y, x][..2] == [n, y];
    assert [a, b][..1] == [a] && [n, y][..1] == [n];
    assert [a][..0] == [] && [n][..0] == [];
    assert Flat([a], [n]) == n;
    assert Flat([a, b], [n, y]) == n * b + y;
    assert Flat([a, b, c], [n, y, x]) == (n * b + y) * c + x;
  }

  lemma FlatSix(s: seq<nat>, q: seq<nat>)
    requires |s| == |q| == 6 && q[0] == 0
    ensures Flat(s, q) == (((q[1] * s[2] + q[2]) * s[3] + q[3]) * s[4] + q[4]) * s[5] + q[5]
  {
    assert s[..5][..4] == s[..4] && q[..5][..4] == q[..4];
    FlatFour(s[0], s[1], s[2], s[3], 0, q[1], q[2], q[3]);
    assert s[..4] == [s[0], s[1], s[2], s[3]] && q[..4] == [0, q[1], q[2], q[3]];
    assert Flat(s[..5], q[..5]) == Flat(s[..4], q[..4]) * s[4] + q[4];
  }

  /** A tap that lies in the image. */
  predicate Inside(v: Conv, y: nat, x: nat, i: nat, j: nat, ch: nat) {
    y < v.oh && x < v.ow && i < v.kh && j < v.kw && ch < v.c && y * v.sh + i * v.dh < v.h && x * v.sw + j * v.dw < v.w
  }

  lemma {:induction false} ReadIs(v: Conv, image: seq<int>, y: nat, x: nat, i: nat, j: nat, ch: nat)
    requires Inside(v, y, x, i, j, ch) && |image| == Volume(ImageShape(v))
    ensures var at := Flat(ImageShape(v), [0, y * v.sh + i * v.dh, x * v.sw + j * v.dw, ch]);
      at < |image| && Read(v, image, y, x, i, j, ch) == image[at]
  {
    var row, col := y * v.sh + i * v.dh, x * v.sw + j * v.dw;
    FlatBound(ImageShape(v), [0, row, col, ch]);
    FlatFour(1, v.h, v.w, v.c, 0, row, col, ch);
  }

  /** Element `(0, y, x, i, j, ch)` of what is packed is element `(0, y * sh + i * dh, x * sw + j * dw, ch)` of the image. */
  lemma {:induction false} PackTakes(v: Conv, image: seq<int>, y: nat, x: nat, i: nat, j: nat, ch: nat)
    requires Inside(v, y, x, i, j, ch) && |image| == Volume(ImageShape(v))
    ensures var at := Flat(ImageShape(v), [0, y * v.sh + i * v.dh, x * v.sw + j * v.dw, ch]);
      var to := Flat([1, v.oh, v.ow, v.kh, v.kw, v.c], [0, y, x, i, j, ch]);
      at < |image| && to < |Packed(v, image)| && Packed(v, image)[to] == image[at]
  {
    hide Read, Packed, Volume, Flat;
    FlatSix([1, v.oh, v.ow, v.kh, v.kw, v.c], [0, y, x, i, j, ch]);
    PackedAt(v, image, y, x, i, j, ch);
    ReadIs(v, image, y, x, i, j, ch);
  }

  /** A filter with a single weight, `weight` at row `i`, column `j`, from channel `ch` to channel `k`. */
  predicate OneTap(v: Conv, filter: seq<int>, i: nat, j: nat, ch: nat, k: nat, weight: int) {
    && i < v.kh && j < v.kw && ch < v.c && k < v.f && |filter| == Volume(FilterShape(v))
    && forall t: nat | t < |filter| :: filter[t] == if t == Flat(FilterShape(v), [i, j, ch, k]) then weight else 0
  }

  lemma {:induction false} OneWeight(v: Conv, filter: seq<int>, i: nat, j: nat, ch: nat, k: nat, weight: int, i': nat, j': nat, ch': nat, k': nat)
    requires OneTap(v, filter, i, j, ch, k, weight) && i' < v.kh && j' < v.kw && ch' < v.c && k' < v.f
    ensures Weight(v, filter, WindowIndex(v, i', j', ch'), k') == if i' == i && j' == j && ch' == ch && k' == k then weight else 0
  {
    var s := FilterShape(v);
    var p, q := [i, j, ch, k], [i', j', ch', k'];
    assert InShape(s, p) && InShape(s, q);
    FlatFour(v.kh, v.kw, v.c, v.f, i', j', ch', k');
    hide Flat, Volume;
    FlatBound(s, q);
    IndexOfFlat(s, p);
    IndexOfFlat(s, q);
    if Flat(s, p) == Flat(s, q) {
      assert p == q;
      assert p[0] == q[0] && p[1] == q[1] && p[2] == q[2] && p[3] == q[3];
    }
  }

  /** The convolution with a single weight scales the one element of the image that the tap stands over, and adds it to
      the one output channel. */
  lemma {:induction false} OneTapConvolves(v: Conv, image: seq<int>, filter: seq<int>, init: seq<int>,
                                           i: nat, j: nat, ch: nat, k: nat, weight: int, y: nat, x: nat, k': nat)
    requires Inside(v, y, x, i, j, ch) && |image| == Volume(ImageShape(v)) && k' < v.f
    requires OneTap(v, filter, i, j, ch, k, weight) && |init| == Volume(ResultShape(v))
    ensures var at := Flat(ImageShape(v), [0, y * v.sh + i * v.dh, x * v.sw + j * v.dw, ch]);
      var to := Flat(ResultShape(v), [0, y, x, k']);
      && at < |image| && to < |init| && to < |Convolve(v, image, filter, init)|
      && Convolve(v, image, filter, init)[to] == init[to] + if k' == k then image[at] * weight else 0
  {
    hide Direct, Read, Weight, WindowIndex, Flat, Volume, OneTap;
    var to := Flat(ResultShape(v), [0, y, x, k']);
    FlatFour(1, v.oh, v.ow, v.f, 0, y, x, k');
    FlatBound(ResultShape(v), [0, y, x, k']);
    ResultPosition(v, y, x, k');
    ReadIs(v, image, y, x, i, j, ch);
    OneTapSum(v, image, filter, i, j, ch, k, weight, y, x, k');
  }

  lemma ResultPosition(v: Conv, y: nat, x: nat, k: nat)
    requires y < v.oh && x < v.ow && k < v.f
    ensures var to := (y * v.ow + x) * v.f + k;
      to < v.Positions() * v.f && to / v.f == y * v.ow + x && to % v.f == k && to / v.f / v.ow == y && to / v.f % v.ow == x
  {
    PairBound(y, v.oh, x, v.ow);
    PairBound(y * v.ow + x, v.Positions(), k, v.f);
    DivModUnique(y * v.ow + x, k, v.f);
    DivModUnique(y, x, v.ow);
  }

  lemma {:induction false} OneTapSum(v: Conv, image: seq<int>, filter: seq<int>, i: nat, j: nat, ch: nat, k: nat, weight: int,
                                     y: nat, x: nat, k': nat)
    requires OneTap(v, filter, i, j, ch, k, weight) && k' < v.f
    ensures Direct(v, image, filter, y, x, k') == if k' == k then Read(v, image, y, x, i, j, ch) * weight else 0
  {
    hide Read, Weight, WindowIndex, OneTap;
    var only := if k' == k then Read(v, image, y, x, i, j, ch) * weight else 0;
    TapWithin(v, filter, i, j, ch, k, weight);
    forall i': nat | i' < v.kh ensures RowSum(v, image, filter, y, x, k', i') == if i' == i then only else 0 {
      forall j': nat | j' < v.kw ensures TapSum(v, image, filter, y, x, k', i', j') == if i' == i && j' == j then only else 0 {
        OneTapChannels(v, image, filter, i, j, ch, k, weight, y, x, k', i', j');
      }
      SumOnly(v.kw, (j': nat) => TapSum(v, image, filter, y, x, k', i', j'), j, if i' == i then only else 0);
    }
    SumOnly(v.kh, (i': nat) => RowSum(v, image, filter, y, x, k', i'), i, only);
  }

  lemma TapWithin(v: Conv, filter: seq<int>, i: nat, j: nat, ch: nat, k: nat, weight: int)
    requires OneTap(v, filter, i, j, ch, k, weight)
    ensures i < v.kh && j < v.kw && ch < v.c
  {
  }

  lemma {:induction false} OneTapChannels(v: Conv, image: seq<int>, filter: seq<int>, i: nat, j: nat, ch: nat, k: nat, weight: int,
                                          y: nat, x: nat, k': nat, i': nat, j': nat)
    requires OneTap(v, filter, i, j, ch, k, weight) && k' < v.f && i' < v.kh && j' < v.kw
    ensures TapSum(v, image, filter, y, x, k', i', j')
         == if i' == i && j' == j && k' == k then Read(v, image, y, x, i, j, ch) * weight else 0
  {
    hide Read, Weight, WindowIndex;
    var only := if i' == i && j' == j && k' == k then Read(v, image, y, x, i, j, ch) * weight else 0;
    forall ch': nat | ch' < v.c ensures Term(v, image, filter, y, x, k', i', j', ch') == if ch' == ch then only else 0 {
      OneWeight(v, filter, i, j, ch, k, weight, i', j', ch', k');
    }
    SumOnly(v.c, (ch': nat) => Term(v, image, filter, y, x, k', i', j', ch'), ch, only);
  }

  lemma {:induction false} SumOnly(n: nat, f: nat -> int, k: nat, only: int)
    requires k < n && forall i: nat | i < n :: f(i) == if i == k then only else 0
    ensures Sum(n, f) == only
  {
    SumSingle(n, f, k);
  }
}
