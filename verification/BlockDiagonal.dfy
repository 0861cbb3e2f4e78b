/** A depthwise convolution as dense convolutions with block-diagonal filters
    (`lib/Transforms/DepthwiseAsBlockDiagonal/DepthwiseAsBlockDiagonalPass.cpp`). */
module BlockDiagonal {
  import opened Arith
  import opened RowMajor
  import opened Sums
  import opened Wrappers

  /** The place of a depthwise weight in its flat constant. */
  function WeightAt(kh: nat, kw: nat, c: nat, r: nat, s: nat): nat { (c * kh + r) * kw + s }

  lemma {:induction false} WeightBound(channels: nat, kh: nat, kw: nat, c: nat, r: nat, s: nat)
    requires c < channels && r < kh && s < kw
    ensures WeightAt(kh, kw, c, r, s) < channels * kh * kw
  {
    PairBound(c, channels, r, kh);
    PairBound(c * kh + r, channels * kh, s, kw);
  }

  lemma {:induction false} WeightUnique(kh: nat, kw: nat, c: nat, r: nat, s: nat, c': nat, r': nat, s': nat)
    requires r < kh && s < kw && r' < kh && s' < kw && WeightAt(kh, kw, c, r, s) == WeightAt(kh, kw, c', r', s')
    ensures c == c' && r == r' && s == s'
  {
    DivModUnique(c * kh + r, s, kw);
    DivModUnique(c' * kh + r', s', kw);
    DivModUnique(c, r, kh);
    DivModUnique(c', r', kh);
  }

  /** `groups` blocks of `kh` by `kw` by `n` by `n`, for the channels from `base` on. */
  datatype Blocks = Blocks(groups: nat, kh: nat, kw: nat, n: nat, base: nat) {
    function Shape(): seq<nat> { [groups, kh, kw, n, n] }
    function ChannelOf(g: nat, i: nat): nat { base + g * n + i }
    predicate Has(c: nat) { base <= c < base + groups * n }
  }

  /** What belongs at `q` once the first `t` weights are in place: a weight on the diagonal, zero off it. */
  function Entry(b: Blocks, flat: seq<int>, q: seq<nat>, t: nat): int
    requires InShape(b.Shape(), q) && t <= |flat|
  {
    var at := WeightAt(b.kh, b.kw, b.ChannelOf(q[0], q[3]), q[1], q[2]);
    if q[3] == q[4] && at < t then flat[at] else 0
  }

  ghost predicate Scattered(b: Blocks, flat: seq<int>, data: seq<int>, t: nat)
    requires t <= |flat|
  {
    |data| == Volume(b.Shape()) && forall q | InShape(b.Shape(), q) :: EntryAt(b, flat, data, q, t)
  }

  ghost predicate EntryAt(b: Blocks, flat: seq<int>, data: seq<int>, q: seq<nat>, t: nat)
    requires InShape(b.Shape(), q) && t <= |flat|
  {
    Flat(b.Shape(), q) < |data| && data[Flat(b.Shape(), q)] == Entry(b, flat, q, t)
  }

  lemma {:induction false} ScatteredNone(b: Blocks, flat: seq<int>, data: seq<int>)
    requires |data| == Volume(b.Shape()) && forall u | 0 <= u < |data| :: data[u] == 0
    ensures Scattered(b, flat, data, 0)
  {
    hide Flat, Volume;
    forall q | InShape(b.Shape(), q) ensures EntryAt(b, flat, data, q, 0) {
      FlatBound(b.Shape(), q);
    }
  }

  /** Putting the next weight on the diagonal. */
  lemma {:induction false} ScatterStep(b: Blocks, flat: seq<int>, data: seq<int>, g: nat, r: nat, s: nat, j: nat)
    requires g < b.groups && r < b.kh && s < b.kw && j < b.n
    requires WeightAt(b.kh, b.kw, b.ChannelOf(g, j), r, s) < |flat|
    requires Scattered(b, flat, data, WeightAt(b.kh, b.kw, b.ChannelOf(g, j), r, s))
    ensures var t, at := WeightAt(b.kh, b.kw, b.ChannelOf(g, j), r, s), Flat(b.Shape(), [g, r, s, j, j]);
      at < |data| && Scattered(b, flat, data[at := flat[t]], t + 1)
  {
    hide Flat, Volume, WeightAt, Scattered, Blocks.ChannelOf;
    var p := [g, r, s, j, j];
    var t, at := WeightAt(b.kh, b.kw, b.ChannelOf(g, j), r, s), Flat(b.Shape(), p);
    ScatteredAt(b, flat, data, p, t);
    var next := data[at := flat[t]];
    forall q | InShape(b.Shape(), q) ensures EntryAt(b, flat, next, q, t + 1) {
      ScatteredAt(b, flat, data, q, t);
      if q != p {
        IndexOfFlat(b.Shape(), q);
        IndexOfFlat(b.Shape(), p);
        if q[3] == q[4] && WeightAt(b.kh, b.kw, b.ChannelOf(q[0], q[3]), q[1], q[2]) == t {
          WeightUnique(b.kh, b.kw, b.ChannelOf(q[0], q[3]), q[1], q[2], b.ChannelOf(g, j), r, s);
          ChannelUnique(b, q[0], q[3], g, j);
        }
      }
    }
    ScatteredAll(b, flat, next, t + 1);
  }

  lemma ScatteredAt(b: Blocks, flat: seq<int>, data: seq<int>, q: seq<nat>, t: nat)
    requires t <= |flat| && Scattered(b, flat, data, t) && InShape(b.Shape(), q)
    ensures |data| == Volume(b.Shape()) && EntryAt(b, flat, data, q, t)
  {
  }

  lemma ScatteredAll(b: Blocks, flat: seq<int>, data: seq<int>, t: nat)
    requires t <= |flat| && |data| == Volume(b.Shape()) && forall q | InShape(b.Shape(), q) :: EntryAt(b, flat, data, q, t)
    ensures Scattered(b, flat, data, t)
  {
  }

  lemma ChannelUnique(b: Blocks, g: nat, i: nat, h: nat, j: nat)
    requires i < b.n && j < b.n && b.ChannelOf(g, i) == b.ChannelOf(h, j)
    ensures g == h && i == j
  {
    DivModUnique(g, i, b.n);
    DivModUnique(h, j, b.n);
  }

  /** A weight of a channel the blocks do not hold changes nothing in them. */
  lemma {:induction false} ScatterSkip(b: Blocks, flat: seq<int>, data: seq<int>, c: nat, r: nat, s: nat)
    requires !b.Has(c) && r < b.kh && s < b.kw && WeightAt(b.kh, b.kw, c, r, s) < |flat|
    requires Scattered(b, flat, data, WeightAt(b.kh, b.kw, c, r, s))
    ensures Scattered(b, flat, data, WeightAt(b.kh, b.kw, c, r, s) + 1)
  {
    hide Flat, Volume, WeightAt, Blocks.ChannelOf, Scattered;
    var t := WeightAt(b.kh, b.kw, c, r, s);
    ScatteredLength(b, flat, data, t);
    forall q | InShape(b.Shape(), q) ensures EntryAt(b, flat, data, q, t + 1) {
      ScatteredAt(b, flat, data, q, t);
      if WeightAt(b.kh, b.kw, b.ChannelOf(q[0], q[3]), q[1], q[2]) == t {
        WeightUnique(b.kh, b.kw, b.ChannelOf(q[0], q[3]), q[1], q[2], c, r, s);
        HasChannel(b, q[0], q[3]);
      }
    }
    ScatteredAll(b, flat, data, t + 1);
  }

  lemma ScatteredLength(b: Blocks, flat: seq<int>, data: seq<int>, t: nat)
    requires t <= |flat| && Scattered(b, flat, data, t)
    ensures |data| == Volume(b.Shape())
  {
  }

  lemma HasChannel(b: Blocks, g: nat, i: nat)
    requires g < b.groups && i < b.n
    ensures b.Has(b.ChannelOf(g, i))
  {
    PairBound(g, b.groups, i, b.n);
  }

  lemma FlatFive(a: nat, b: nat, c: nat, d: nat, e: nat, i: nat, j: nat, k: nat, l: nat, m: nat)
    ensures Flat([a, b, c, d, e], [i, j, k, l, m]) == (((i * b + j) * c + k) * d + l) * e + m
  {
    hide Flat;
    FlatNothing();
    FlatSnoc([], a, [], i);
    assert [] + [a] == [a] && [] + [i] == [i];
    FlatSnoc([a], b, [i], j);
    assert [a] + [b] == [a, b] && [i] + [j] == [i, j];
    FlatSnoc([a, b], c, [i, j], k);
    assert [a, b] + [c] == [a, b, c] && [i, j] + [k] == [i, j, k];
    FlatSnoc([a, b, c], d, [i, j, k], l);
    assert [a, b, c] + [d] == [a, b, c, d] && [i, j, k] + [l] == [i, j, k, l];
    FlatSnoc([a, b, c, d], e, [i, j, k, l], m);
    assert [a, b, c, d] + [e] == [a, b, c, d, e] && [i, j, k, l] + [m] == [i, j, k, l, m];
  }

  /** The full groups, and the narrower one after them. */
  function FullBlocks(channels: nat, kh: nat, kw: nat, lanes: nat): Blocks
    requires lanes > 0
  {
    Blocks(channels / lanes, kh, kw, lanes, 0)
  }

  function TailBlock(channels: nat, kh: nat, kw: nat, lanes: nat): Blocks
    requires lanes > 0
  {
    Blocks(1, kh, kw, channels % lanes, channels / lanes * lanes)
  }

  /** One weight into whichever filter its channel belongs to. */
  method ScatterOne(channels: nat, kh: nat, kw: nat, lanes: nat, flat: seq<int>, block: array<int>, tail: array<int>, c: nat, r: nat, s: nat)
    requires lanes > 0 && c < channels && r < kh && s < kw && block != tail && WeightAt(kh, kw, c, r, s) < |flat|
    requires Scattered(FullBlocks(channels, kh, kw, lanes), flat, block[..], WeightAt(kh, kw, c, r, s))
    requires Scattered(TailBlock(channels, kh, kw, lanes), flat, tail[..], WeightAt(kh, kw, c, r, s))
    modifies block, tail
    ensures Scattered(FullBlocks(channels, kh, kw, lanes), flat, block[..], WeightAt(kh, kw, c, r, s) + 1)
    ensures Scattered(TailBlock(channels, kh, kw, lanes), flat, tail[..], WeightAt(kh, kw, c, r, s) + 1)
  {
    hide Scattered, Flat;
    ghost var full, last := FullBlocks(channels, kh, kw, lanes), TailBlock(channels, kh, kw, lanes);
    var whole, rest := channels / lanes, channels % lanes;
    var g, j := c / lanes, c % lanes;
    GroupOf(channels, lanes, c);
    var v := flat[(c * kh + r) * kw + s];
    if g < whole {
      assert full.ChannelOf(g, j) == c;
      FlatFive(whole, kh, kw, lanes, lanes, g, r, s, j, j);
      ScatterStep(full, flat, block[..], g, r, s, j);
      ScatterSkip(last, flat, tail[..], c, r, s);
      block[(((g * kh + r) * kw + s) * lanes + j) * lanes + j] := v;
    } else {
      assert last.ChannelOf(0, j) == c;
      FlatFive(1, kh, kw, rest, rest, 0, r, s, j, j);
      ScatterStep(last, flat, tail[..], 0, r, s, j);
      ScatterSkip(full, flat, block[..], c, r, s);
      tail[((r * kw + s) * rest + j) * rest + j] := v;
    }
  }

  lemma {:induction false} GroupOf(channels: nat, lanes: nat, c: nat)
    requires lanes > 0 && c < channels
    ensures channels == channels / lanes * lanes + channels % lanes
    ensures c / lanes <= channels / lanes && c == c / lanes * lanes + c % lanes && c % lanes < lanes
    ensures c / lanes < channels / lanes <==> c < channels / lanes * lanes
    ensures c / lanes == channels / lanes ==> c % lanes < channels % lanes
  {
    var g, whole := c / lanes, channels / lanes;
    if g > whole {
      MulLess(whole + 1, g, lanes);
    } else if g < whole {
      MulLess(g + 1, whole, lanes);
    }
  }

  /** The scatter: the diagonal of each group is the group's own weights, and everything off it is zero. */
  method BuildFilters(channels: nat, kh: nat, kw: nat, lanes: nat, flat: seq<int>) returns (block: array<int>, tail: array<int>)
    requires lanes > 0 && |flat| == channels * kh * kw
    ensures fresh(block) && fresh(tail) && block != tail
    ensures Scattered(FullBlocks(channels, kh, kw, lanes), flat, block[..], |flat|)
    ensures Scattered(TailBlock(channels, kh, kw, lanes), flat, tail[..], |flat|)
  {
    hide WeightAt, Scattered, Volume;
    ghost var full, last := FullBlocks(channels, kh, kw, lanes), TailBlock(channels, kh, kw, lanes);
    var whole, rest := channels / lanes, channels % lanes;
    block := new int[whole * kh * kw * lanes * lanes](_ => 0);
    tail := new int[rest * rest * kh * kw](_ => 0);
    Sizes(whole, kh, kw, lanes);
    Sizes(1, kh, kw, rest);
    assert rest * rest * kh * kw == 1 * kh * kw * rest * rest;
    ScatteredNone(full, flat, block[..]);
    ScatteredNone(last, flat, tail[..]);
    WeightsFollow(channels, kh, kw, 0, 0);
    for c := 0 to channels
      invariant WeightAt(kh, kw, c, 0, 0) <= |flat|
      invariant Scattered(full, flat, block[..], WeightAt(kh, kw, c, 0, 0))
      invariant Scattered(last, flat, tail[..], WeightAt(kh, kw, c, 0, 0))
    {
      for r := 0 to kh
        invariant WeightAt(kh, kw, c, r, 0) <= |flat|
        invariant Scattered(full, flat, block[..], WeightAt(kh, kw, c, r, 0))
        invariant Scattered(last, flat, tail[..], WeightAt(kh, kw, c, r, 0))
      {
        for s := 0 to kw
          invariant WeightAt(kh, kw, c, r, s) <= |flat|
          invariant Scattered(full, flat, block[..], WeightAt(kh, kw, c, r, s))
          invariant Scattered(last, flat, tail[..], WeightAt(kh, kw, c, r, s))
        {
          WeightBound(channels, kh, kw, c, r, s);
          ScatterOne(channels, kh, kw, lanes, flat, block, tail, c, r, s);
          NextWeight(kh, kw, c, r, s);
        }
        WeightsFollow(channels, kh, kw, c, r);
      }
      WeightsFollow(channels, kh, kw, c, kh);
    }
    WeightsFollow(channels, kh, kw, channels, 0);
  }

  lemma NextWeight(kh: nat, kw: nat, c: nat, r: nat, s: nat)
    ensures WeightAt(kh, kw, c, r, s) + 1 == WeightAt(kh, kw, c, r, s + 1)
  {
  }

  lemma WeightsFollow(channels: nat, kh: nat, kw: nat, c: nat, r: nat)
    ensures WeightAt(kh, kw, c, r, kw) == WeightAt(kh, kw, c, r + 1, 0)
    ensures WeightAt(kh, kw, c, kh, 0) == WeightAt(kh, kw, c + 1, 0, 0)
    ensures WeightAt(kh, kw, 0, 0, 0) == 0 && WeightAt(kh, kw, channels, 0, 0) == channels * kh * kw
  {
    assert (c * kh + (r + 1)) * kw == (c * kh + r) * kw + kw;
    assert (c + 1) * kh == c * kh + kh;
  }

  lemma Sizes(groups: nat, kh: nat, kw: nat, n: nat)
    ensures Volume([groups, kh, kw, n, n]) == groups * kh * kw * n * n
  {
    hide Volume;
    FlatNothing();
    VolumeSnoc([], groups);
    assert [] + [groups] == [groups];
    VolumeSnoc([groups], kh);
    assert [groups] + [kh] == [groups, kh];
    VolumeSnoc([groups, kh], kw);
    assert [groups, kh] + [kw] == [groups, kh, kw];
    VolumeSnoc([groups, kh, kw], n);
    assert [groups, kh, kw] + [n] == [groups, kh, kw, n];
    VolumeSnoc([groups, kh, kw, n], n);
    assert [groups, kh, kw, n] + [n] == [groups, kh, kw, n, n];
  }

  // What the convolutions compute.

  /** The input value tap `t` of channel `c` meets at an output place: stride, padding and layout decide it. */
  type Feed = (seq<nat>, nat, nat) -> int

  function DepthTerm(feed: Feed, flat: seq<int>, taps: nat, place: seq<nat>, c: nat): nat -> int {
    (t: nat) => if c * taps + t < |flat| then Times(feed(place, t, c), flat[c * taps + t]) else 0
  }

  /** The accumulator of the depthwise convolution. */
  function DepthAcc(feed: Feed, flat: seq<int>, taps: nat, place: seq<nat>, c: nat): int {
    Sum(taps, DepthTerm(feed, flat, taps, place, c))
  }

  function Row(t: nat, kw: nat): nat { if kw == 0 then 0 else t / kw }

  function Column(t: nat, kw: nat): nat { if kw == 0 then 0 else t % kw }

  /** The product of input channel `i` and output channel `j`. */
  function DenseValue(feed: Feed, data: seq<int>, b: Blocks, g: nat, off: nat, place: seq<nat>, t: nat, i: nat, j: nat): int {
    var at := Flat(b.Shape(), [g, Row(t, b.kw), Column(t, b.kw), i, j]);
    if at < |data| then Times(feed(place, t, off + i), data[at]) else 0
  }

  function DenseTerm(feed: Feed, data: seq<int>, b: Blocks, g: nat, off: nat, place: seq<nat>, t: nat, j: nat): nat -> int {
    (i: nat) => DenseValue(feed, data, b, g, off, place, t, i, j)
  }

  function DenseTap(feed: Feed, data: seq<int>, b: Blocks, g: nat, off: nat, place: seq<nat>, j: nat): nat -> int {
    (t: nat) => Sum(b.n, DenseTerm(feed, data, b, g, off, place, t, j))
  }

  /** The accumulator of output channel `j` of a dense convolution with block `g`, reading the `b.n` channels from `off`. */
  function DenseAcc(feed: Feed, data: seq<int>, b: Blocks, g: nat, off: nat, place: seq<nat>, j: nat): int {
    Sum(b.kh * b.kw, DenseTap(feed, data, b, g, off, place, j))
  }

  lemma {:induction false} DataAt(b: Blocks, flat: seq<int>, data: seq<int>, g: nat, r: nat, s: nat, i: nat, j: nat)
    requires Scattered(b, flat, data, |flat|) && g < b.groups && i < b.n && j < b.n && r < b.kh && s < b.kw
    requires WeightAt(b.kh, b.kw, b.ChannelOf(g, j), r, s) < |flat|
    ensures Flat(b.Shape(), [g, r, s, i, j]) < |data|
    ensures data[Flat(b.Shape(), [g, r, s, i, j])] == if i == j then flat[WeightAt(b.kh, b.kw, b.ChannelOf(g, j), r, s)] else 0
  {
    hide Flat, Volume, Scattered, WeightAt, Blocks.ChannelOf;
    var q := [g, r, s, i, j];
    assert InShape(b.Shape(), q);
    ScatteredAt(b, flat, data, q, |flat|);
  }

  lemma {:induction false} TapEntry(feed: Feed, flat: seq<int>, data: seq<int>, b: Blocks, g: nat, off: nat, place: seq<nat>, t: nat,
                                    i: nat, j: nat)
    requires Scattered(b, flat, data, |flat|) && g < b.groups && i < b.n && j < b.n
    requires Row(t, b.kw) < b.kh && Column(t, b.kw) < b.kw
    requires WeightAt(b.kh, b.kw, b.ChannelOf(g, j), Row(t, b.kw), Column(t, b.kw)) < |flat|
    ensures DenseValue(feed, data, b, g, off, place, t, i, j)
         == if i == j then Times(feed(place, t, off + j), flat[WeightAt(b.kh, b.kw, b.ChannelOf(g, j), Row(t, b.kw), Column(t, b.kw))]) else 0
  {
    hide Flat, Volume, Scattered, Times, WeightAt, Row, Column, Blocks.ChannelOf, Blocks.Shape;
    DataAt(b, flat, data, g, Row(t, b.kw), Column(t, b.kw), i, j);
    TimesZero(feed(place, t, off + i));
  }

  /** Off the diagonal nothing is added. */
  lemma {:induction false} TapAlone(feed: Feed, flat: seq<int>, data: seq<int>, b: Blocks, g: nat, place: seq<nat>, t: nat, j: nat)
    requires Scattered(b, flat, data, |flat|) && g < b.groups && j < b.n && t < b.kh * b.kw
    requires (b.ChannelOf(g, j) + 1) * (b.kh * b.kw) <= |flat|
    ensures DenseTap(feed, data, b, g, b.ChannelOf(g, 0), place, j)(t)
         == DepthTerm(feed, flat, b.kh * b.kw, place, b.ChannelOf(g, j))(t)
  {
    var r, s, c, off := Row(t, b.kw), Column(t, b.kw), b.ChannelOf(g, j), b.ChannelOf(g, 0);
    TapPlace(b.kh, b.kw, c, t);
    assert off + j == c;
    TapSum(feed, flat, data, b, g, off, place, t, j);
  }

  lemma {:induction false} TapSum(feed: Feed, flat: seq<int>, data: seq<int>, b: Blocks, g: nat, off: nat, place: seq<nat>, t: nat, j: nat)
    requires Scattered(b, flat, data, |flat|) && g < b.groups && j < b.n
    requires Row(t, b.kw) < b.kh && Column(t, b.kw) < b.kw
    requires WeightAt(b.kh, b.kw, b.ChannelOf(g, j), Row(t, b.kw), Column(t, b.kw)) < |flat|
    ensures DenseTap(feed, data, b, g, off, place, j)(t)
         == Times(feed(place, t, off + j), flat[WeightAt(b.kh, b.kw, b.ChannelOf(g, j), Row(t, b.kw), Column(t, b.kw))])
  {
    hide Scattered, Times, WeightAt, Row, Column, DenseValue, Blocks.ChannelOf;
    var f := DenseTerm(feed, data, b, g, off, place, t, j);
    forall i: nat | i < b.n && i != j ensures f(i) == 0 {
      TapEntry(feed, flat, data, b, g, off, place, t, i, j);
    }
    TapEntry(feed, flat, data, b, g, off, place, t, j, j);
    SumSingle(b.n, f, j);
  }

  lemma TapPlace(kh: nat, kw: nat, c: nat, t: nat)
    requires t < kh * kw
    ensures Row(t, kw) < kh && Column(t, kw) < kw
    ensures WeightAt(kh, kw, c, Row(t, kw), Column(t, kw)) == c * (kh * kw) + t < (c + 1) * (kh * kw)
  {
    assert kw == 0 ==> kh * kw == 0;
    DivBound(t, kh, kw);
    TapWeight(kh, kw, c, t, Row(t, kw), Column(t, kw));
    TapInside(c, kh * kw, t);
  }

  lemma TimesZero(x: int)
    ensures Times(x, 0) == 0
  {
  }

  lemma TapWeight(kh: nat, kw: nat, c: nat, t: nat, r: nat, s: nat)
    requires t == r * kw + s
    ensures WeightAt(kh, kw, c, r, s) == c * (kh * kw) + t
  {
    assert (c * kh + r) * kw == c * (kh * kw) + r * kw;
  }

  lemma TapInside(c: nat, taps: nat, t: nat)
    requires t < taps
    ensures c * taps + t < (c + 1) * taps
  {
  }

  /** Every accumulator of a block's dense convolution is the depthwise accumulator of its channel. */
  lemma {:induction false} DenseIsDepthwise(feed: Feed, flat: seq<int>, data: seq<int>, b: Blocks, g: nat, place: seq<nat>, j: nat)
    requires Scattered(b, flat, data, |flat|) && g < b.groups && j < b.n
    requires (b.ChannelOf(g, j) + 1) * (b.kh * b.kw) <= |flat|
    ensures DenseAcc(feed, data, b, g, b.ChannelOf(g, 0), place, j) == DepthAcc(feed, flat, b.kh * b.kw, place, b.ChannelOf(g, j))
  {
    hide Scattered, DenseTap, DepthTerm, Blocks.ChannelOf;
    forall t: nat | t < b.kh * b.kw
      ensures DenseTap(feed, data, b, g, b.ChannelOf(g, 0), place, j)(t)
           == DepthTerm(feed, flat, b.kh * b.kw, place, b.ChannelOf(g, j))(t)
    {
      TapAlone(feed, flat, data, b, g, place, t, j);
    }
    SumExt(b.kh * b.kw, DenseTap(feed, data, b, g, b.ChannelOf(g, 0), place, j),
           DepthTerm(feed, flat, b.kh * b.kw, place, b.ChannelOf(g, j)));
  }

  // The rewrite.

  /** The depthwise convolution: the packed-channel checks and its filter if that is a constant. */
  datatype Site = Site(channels: nat, kh: nat, kw: nat, inputChannels: nat, outputChannels: nat, inputPacked: bool, outputPacked: bool,
                       filter: Option<seq<int>>, bias: Option<seq<int>>)

  predicate Accepted(site: Site, lanes: nat) {
    && site.channels > lanes && site.inputChannels == site.channels && site.outputChannels == site.channels
    && site.inputPacked && site.outputPacked
    && site.filter.Some? && |site.filter.value| == site.channels * site.kh * site.kw
  }

  /** One dense convolution: the channels it reads and writes, and its filter, a block or the tail. */
  datatype Call = Call(off: nat, width: nat, block: Option<nat>)

  function CallAt(channels: nat, lanes: nat, g: nat): Call
    requires lanes > 0
  {
    if g < channels / lanes then Call(g * lanes, lanes, Some(g)) else Call(g * lanes, channels % lanes, None)
  }

  function CallCount(channels: nat, lanes: nat): nat
    requires lanes > 0
  {
    channels / lanes + if channels % lanes > 0 then 1 else 0
  }

  method Rewrite(site: Site, lanes: nat) returns (made: Option<(array<int>, array<int>, seq<Call>)>)
    requires lanes >= 2
    ensures made.Some? <==> Accepted(site, lanes)
    ensures Accepted(site, lanes) <==>
      && site.channels > lanes && site.inputChannels == site.channels && site.outputChannels == site.channels && site.inputPacked
      && site.outputPacked && site.filter.Some? && |site.filter.value| == site.channels * site.kh * site.kw
    ensures made.Some? ==> Scattered(FullBlocks(site.channels, site.kh, site.kw, lanes), site.filter.value, made.value.0[..], |site.filter.value|)
    ensures made.Some? ==> Scattered(TailBlock(site.channels, site.kh, site.kw, lanes), site.filter.value, made.value.1[..], |site.filter.value|)
    ensures made.Some? ==> |made.value.2| == CallCount(site.channels, lanes)
    ensures made.Some? ==> forall g | 0 <= g < |made.value.2| :: made.value.2[g] == CallAt(site.channels, lanes, g)
  {
    var channels := site.channels;
    if channels <= lanes || site.inputChannels != channels || site.outputChannels != channels {
      return None;
    }
    if !site.inputPacked || !site.outputPacked || site.filter.None? || |site.filter.value| != channels * site.kh * site.kw {
      return None;
    }
    hide Scattered;
    var block, tail := BuildFilters(channels, site.kh, site.kw, lanes, site.filter.value);
    var whole, rest := channels / lanes, channels % lanes;
    var calls: seq<Call> := [];
    for g := 0 to whole + if rest > 0 then 1 else 0
      invariant |calls| == g
      invariant forall h | 0 <= h < g :: calls[h] == CallAt(channels, lanes, h)
    {
      var width := if g < whole then lanes else rest;
      calls := calls + [Call(g * lanes, width, if g < whole then Some(g) else None)];
    }
    return Some((block, tail, calls));
  }

  /** The output: a value for every place and channel. */
  type Output = (seq<nat>, nat) -> int

  /** What a convolution makes of its accumulators: an element of channel `c` depends on the bias of that channel and
      on that channel's accumulators at the places its pooling window covers. */
  type Finish = (int, seq<int>) -> int

  function BiasAt(bias: Option<seq<int>>, c: nat): int {
    if bias.Some? && c < |bias.value| then bias.value[c] else 0
  }

  function Depthwise(site: Site, feed: Feed, pool: seq<nat> -> seq<seq<nat>>, finish: Finish, o: seq<nat>, c: nat): int
    requires site.filter.Some?
  {
    finish(BiasAt(site.bias, c),
           seq(|pool(o)|, k requires 0 <= k < |pool(o)| => DepthAcc(feed, site.filter.value, site.kh * site.kw, pool(o)[k], c)))
  }

  /** The filter a call uses: its blocks, the data, and which block. */
  function Dense(site: Site, lanes: nat, block: seq<int>, tail: seq<int>, feed: Feed, call: Call, place: seq<nat>, j: nat): int
    requires lanes > 0
  {
    if call.block.Some? then
      DenseAcc(feed, block, FullBlocks(site.channels, site.kh, site.kw, lanes), call.block.value, call.off, place, j)
    else DenseAcc(feed, tail, TailBlock(site.channels, site.kh, site.kw, lanes), 0, call.off, place, j)
  }

  /** Channel `off + j` of the output, with the bias cut at the same place. */
  function DenseOut(site: Site, lanes: nat, block: seq<int>, tail: seq<int>, feed: Feed, pool: seq<nat> -> seq<seq<nat>>, finish: Finish,
                    call: Call, o: seq<nat>, j: nat): int
    requires lanes > 0
  {
    finish(BiasAt(site.bias, call.off + j),
           seq(|pool(o)|, k requires 0 <= k < |pool(o)| => Dense(site, lanes, block, tail, feed, call, pool(o)[k], j)))
  }

  function RunCall(site: Site, lanes: nat, block: seq<int>, tail: seq<int>, feed: Feed, pool: seq<nat> -> seq<seq<nat>>, finish: Finish,
                   call: Call, out: Output): Output
    requires lanes > 0
  {
    (o: seq<nat>, c: nat) =>
      if call.off <= c < call.off + call.width then DenseOut(site, lanes, block, tail, feed, pool, finish, call, o, c - call.off)
      else out(o, c)
  }

  function RunCalls(site: Site, lanes: nat, block: seq<int>, tail: seq<int>, feed: Feed, pool: seq<nat> -> seq<seq<nat>>, finish: Finish,
                    calls: seq<Call>, out: Output): Output
    requires lanes > 0
  {
    if calls == [] then out
    else RunCall(site, lanes, block, tail, feed, pool, finish, calls[|calls| - 1],
                 RunCalls(site, lanes, block, tail, feed, pool, finish, calls[..|calls| - 1], out))
  }

  /** One call gives its channels exactly what the depthwise convolution gives them. */
  lemma {:induction false} CallIsDepthwise(site: Site, lanes: nat, block: seq<int>, tail: seq<int>, feed: Feed,
                                           pool: seq<nat> -> seq<seq<nat>>, finish: Finish, g: nat, o: seq<nat>, j: nat)
    requires lanes > 0 && Accepted(site, lanes) && g < CallCount(site.channels, lanes) && j < CallAt(site.channels, lanes, g).width
    requires Scattered(FullBlocks(site.channels, site.kh, site.kw, lanes), site.filter.value, block, |site.filter.value|)
    requires Scattered(TailBlock(site.channels, site.kh, site.kw, lanes), site.filter.value, tail, |site.filter.value|)
    ensures DenseOut(site, lanes, block, tail, feed, pool, finish, CallAt(site.channels, lanes, g), o, j)
         == Depthwise(site, feed, pool, finish, o, g * lanes + j)
  {
    hide Scattered, DenseAcc, DepthAcc;
    var call := CallAt(site.channels, lanes, g);
    var dense := seq(|pool(o)|, k requires 0 <= k < |pool(o)| => Dense(site, lanes, block, tail, feed, call, pool(o)[k], j));
    var depth := seq(|pool(o)|, k requires 0 <= k < |pool(o)| =>
      DepthAcc(feed, site.filter.value, site.kh * site.kw, pool(o)[k], g * lanes + j));
    forall k | 0 <= k < |pool(o)| ensures dense[k] == depth[k] {
      CallAccumulates(site, lanes, block, tail, feed, g, pool(o)[k], j);
    }
    assert dense == depth;
  }

  lemma {:induction false} CallAccumulates(site: Site, lanes: nat, block: seq<int>, tail: seq<int>, feed: Feed, g: nat, place: seq<nat>, j: nat)
    requires lanes > 0 && Accepted(site, lanes) && g < CallCount(site.channels, lanes) && j < CallAt(site.channels, lanes, g).width
    requires Scattered(FullBlocks(site.channels, site.kh, site.kw, lanes), site.filter.value, block, |site.filter.value|)
    requires Scattered(TailBlock(site.channels, site.kh, site.kw, lanes), site.filter.value, tail, |site.filter.value|)
    ensures Dense(site, lanes, block, tail, feed, CallAt(site.channels, lanes, g), place, j)
         == DepthAcc(feed, site.filter.value, site.kh * site.kw, place, g * lanes + j)
  {
    hide Scattered, DenseAcc, DepthAcc;
    var flat := site.filter.value;
    CallChannel(site.channels, lanes, g, j);
    WholeRow(site.channels, g * lanes + j, site.kh, site.kw);
    if g < site.channels / lanes {
      DenseIsDepthwise(feed, flat, block, FullBlocks(site.channels, site.kh, site.kw, lanes), g, place, j);
    } else {
      DenseIsDepthwise(feed, flat, tail, TailBlock(site.channels, site.kh, site.kw, lanes), 0, place, j);
    }
  }

  lemma WholeRow(channels: nat, c: nat, kh: nat, kw: nat)
    requires c < channels
    ensures (c + 1) * (kh * kw) <= channels * kh * kw
  {
    MulLess(c + 1, channels, kh * kw);
    assert channels * kh * kw == channels * (kh * kw);
  }

  lemma {:induction false} CallChannel(channels: nat, lanes: nat, g: nat, j: nat)
    requires lanes > 0 && g < CallCount(channels, lanes) && j < CallAt(channels, lanes, g).width
    ensures g * lanes + j < channels && CallAt(channels, lanes, g).off == g * lanes
    ensures g >= channels / lanes ==> g == channels / lanes
    ensures (g * lanes + j) / lanes == g
  {
    DivModUnique(g, j, lanes);
    if g < channels / lanes {
      MulLess(g + 1, channels / lanes, lanes);
    }
  }

  /** One more call: the channels of its group become right, the others stay. */
  lemma {:induction false} OneMoreCall(site: Site, lanes: nat, block: seq<int>, tail: seq<int>, feed: Feed,
                                       pool: seq<nat> -> seq<seq<nat>>, finish: Finish, g: nat, out: Output, o: seq<nat>, c: nat)
    requires lanes > 0 && Accepted(site, lanes) && g < CallCount(site.channels, lanes)
    requires Scattered(FullBlocks(site.channels, site.kh, site.kw, lanes), site.filter.value, block, |site.filter.value|)
    requires Scattered(TailBlock(site.channels, site.kh, site.kw, lanes), site.filter.value, tail, |site.filter.value|)
    ensures RunCall(site, lanes, block, tail, feed, pool, finish, CallAt(site.channels, lanes, g), out)(o, c)
         == if c < site.channels && Group(c, lanes) == g then Depthwise(site, feed, pool, finish, o, c) else out(o, c)
  {
    hide Scattered, DenseOut, Depthwise, CallAt, CallCount, Accepted, Group;
    CallCovers(site.channels, lanes, g, c);
    var call := CallAt(site.channels, lanes, g);
    CallOffset(site.channels, lanes, g);
    if call.off <= c < call.off + call.width {
      CallIsDepthwise(site, lanes, block, tail, feed, pool, finish, g, o, c - call.off);
    }
  }

  lemma CallOffset(channels: nat, lanes: nat, g: nat)
    requires lanes > 0
    ensures CallAt(channels, lanes, g).off == g * lanes
  {
  }

  function Group(c: nat, lanes: nat): nat
    requires lanes > 0
  {
    c / lanes
  }

  /** The calls so far write the channels of their groups, each once and each right. */
  lemma {:induction false} CallsAreDepthwise(site: Site, lanes: nat, block: seq<int>, tail: seq<int>, feed: Feed,
                                             pool: seq<nat> -> seq<seq<nat>>, finish: Finish, calls: seq<Call>, out: Output, o: seq<nat>, c: nat)
    requires lanes > 0 && Accepted(site, lanes) && |calls| <= CallCount(site.channels, lanes)
    requires forall g | 0 <= g < |calls| :: calls[g] == CallAt(site.channels, lanes, g)
    requires Scattered(FullBlocks(site.channels, site.kh, site.kw, lanes), site.filter.value, block, |site.filter.value|)
    requires Scattered(TailBlock(site.channels, site.kh, site.kw, lanes), site.filter.value, tail, |site.filter.value|)
    ensures RunCalls(site, lanes, block, tail, feed, pool, finish, calls, out)(o, c)
         == if c < site.channels && Group(c, lanes) < |calls| then Depthwise(site, feed, pool, finish, o, c) else out(o, c)
    decreases |calls|
  {
    hide Scattered, RunCall, Depthwise, CallAt, CallCount, Accepted, Group;
    if calls != [] {
      var g := |calls| - 1;
      CallsAreDepthwise(site, lanes, block, tail, feed, pool, finish, calls[..g], out, o, c);
      OneMoreCall(site, lanes, block, tail, feed, pool, finish, g,
                  RunCalls(site, lanes, block, tail, feed, pool, finish, calls[..g], out), o, c);
    }
  }

  lemma {:induction false} CallCovers(channels: nat, lanes: nat, g: nat, c: nat)
    requires lanes > 0 && g < CallCount(channels, lanes)
    ensures var call := CallAt(channels, lanes, g);
      call.off <= c < call.off + call.width <==> c < channels && Group(c, lanes) == g
  {
    var call := CallAt(channels, lanes, g);
    if call.off <= c < call.off + call.width {
      CallChannel(channels, lanes, g, c - call.off);
    }
    if c < channels && c / lanes == g {
      GroupOf(channels, lanes, c);
    }
  }

  /** The whole rewrite is exact: every channel of the output is what the depthwise convolution left there, and nothing
      else is touched, whatever the input, the bias, the pooling and the scaling. */
  lemma {:induction false} BlockDiagonalExact(site: Site, lanes: nat, block: seq<int>, tail: seq<int>, feed: Feed,
                                              pool: seq<nat> -> seq<seq<nat>>, finish: Finish, calls: seq<Call>, out: Output, o: seq<nat>, c: nat)
    requires lanes > 0 && Accepted(site, lanes) && |calls| == CallCount(site.channels, lanes)
    requires forall g | 0 <= g < |calls| :: calls[g] == CallAt(site.channels, lanes, g)
    requires Scattered(FullBlocks(site.channels, site.kh, site.kw, lanes), site.filter.value, block, |site.filter.value|)
    requires Scattered(TailBlock(site.channels, site.kh, site.kw, lanes), site.filter.value, tail, |site.filter.value|)
    ensures RunCalls(site, lanes, block, tail, feed, pool, finish, calls, out)(o, c)
         == if c < site.channels then Depthwise(site, feed, pool, finish, o, c) else out(o, c)
  {
    hide Scattered, RunCalls, Depthwise;
    CallsAreDepthwise(site, lanes, block, tail, feed, pool, finish, calls, out, o, c);
    if c < site.channels {
      GroupOf(site.channels, lanes, c);
    }
  }

  /** Every channel is written by exactly one of the calls. */
  lemma {:induction false} WrittenOnce(channels: nat, lanes: nat, c: nat)
    requires lanes > 0 && c < channels
    ensures c / lanes < CallCount(channels, lanes)
    ensures forall g: nat | g < CallCount(channels, lanes) ::
      (CallAt(channels, lanes, g).off <= c < CallAt(channels, lanes, g).off + CallAt(channels, lanes, g).width) <==> g == c / lanes
  {
    hide CallAt;
    GroupOf(channels, lanes, c);
    forall g: nat | g < CallCount(channels, lanes)
      ensures (CallAt(channels, lanes, g).off <= c < CallAt(channels, lanes, g).off + CallAt(channels, lanes, g).width) <==> g == c / lanes
    {
      CallCovers(channels, lanes, g, c);
    }
  }
}
