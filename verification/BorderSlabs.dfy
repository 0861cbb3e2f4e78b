/** Filling only the border of a padded buffer (`lib/Transforms/FillOnlyTheBorder/FillOnlyTheBorderPass.cpp`): the
    fill of a whole buffer whose middle is about to be written becomes one fill per slab around the middle. */
module BorderSlabs {
  import opened RowMajor
  import opened Wrappers

  type Point = seq<nat>

  /** A rectangular region: offsets and sizes per dimension. */
  datatype Box = Box(off: seq<int>, size: seq<nat>)

  predicate Within(box: Box, p: Point, d: nat)
    requires d < |box.off| && |box.off| == |box.size| && d < |p|
  {
    box.off[d] <= p[d] < box.off[d] + box.size[d]
  }

  ghost predicate Inside(box: Box, p: Point) {
    && |box.off| == |box.size| == |p|
    && forall d | 0 <= d < |p| :: Within(box, p, d)
  }

  /** The box lies inside the buffer and is not empty. */
  predicate Fits(shape: seq<nat>, box: Box) {
    && |box.off| == |box.size| == |shape|
    && forall d | 0 <= d < |shape| :: 0 <= box.off[d] && box.size[d] > 0 && box.off[d] + box.size[d] <= shape[d]
  }

  /** The slab of dimension `d` from `lo` to `hi`: the dimensions before it clipped to the box, those after it whole. */
  function Slab(shape: seq<nat>, box: Box, d: nat, lo: int, hi: int): Box
    requires Fits(shape, box) && d < |shape| && lo <= hi
  {
    Box(seq(|shape|, e requires 0 <= e < |shape| => if e < d then box.off[e] else if e == d then lo else 0),
        seq(|shape|, e requires 0 <= e < |shape| => if e < d then box.size[e] else if e == d then hi - lo else shape[e]))
  }

  /** The slabs below and above the box on dimension `d`, leaving out empty ones. */
  function SlabsAt(shape: seq<nat>, box: Box, d: nat): seq<Box>
    requires Fits(shape, box) && d < |shape|
  {
    var low, high := box.off[d], box.off[d] + box.size[d];
    (if 0 < low then [Slab(shape, box, d, 0, low)] else []) + if high < shape[d] then [Slab(shape, box, d, high, shape[d])] else []
  }

  /** The slabs of the first `d` dimensions. */
  function Slabs(shape: seq<nat>, box: Box, d: nat): seq<Box>
    requires Fits(shape, box) && d <= |shape|
  {
    if d == 0 then [] else Slabs(shape, box, d - 1) + SlabsAt(shape, box, d - 1)
  }

  /** What the types say: a buffer of static shape and identity layout, a slice without dynamic parts and with unit
      strides. */
  datatype Layout = Layout(plainBuffer: bool, staticSlice: bool, unitStrides: bool) {
    predicate Plain() {
      plainBuffer && staticSlice && unitStrides
    }
  }

  /** `rewrite`: the slabs, or nothing when the layout is not plain or the box is malformed, too small to be worth it or
      the whole buffer. */
  method Rewrite(layout: Layout, shape: seq<nat>, box: Box, minSaved: int) returns (made: Option<seq<Box>>)
    ensures made.Some? <==>
      && layout.plainBuffer && layout.staticSlice && layout.unitStrides && |box.off| == |box.size| == |shape|
      && (forall d | 0 <= d < |shape| :: 0 <= box.off[d] && box.size[d] > 0 && box.off[d] + box.size[d] <= shape[d])
      && Volume(box.size) >= minSaved && Slabs(shape, box, |shape|) != []
    ensures made.Some? ==> made.value == Slabs(shape, box, |shape|)
  {
    if !layout.Plain() || !Fits(shape, box) {
      return None;
    }
    var inside := 1;
    for d := 0 to |shape|
      invariant inside == Volume(box.size[..d])
    {
      assert box.size[..d + 1][..d] == box.size[..d];
      inside := inside * box.size[d];
    }
    assert box.size[..|shape|] == box.size;
    if inside < minSaved {
      return None;
    }
    var slabs: seq<Box> := [];
    for d := 0 to |shape|
      invariant slabs == Slabs(shape, box, d)
    {
      var below: seq<Box> := [];
      for side := 0 to 2
        invariant below == if side == 0 then [] else if side == 1 then SlabsAt(shape, box, d)[..if 0 < box.off[d] then 1 else 0] else SlabsAt(shape, box, d)
      {
        var lo := if side == 0 then 0 else box.off[d] + box.size[d];
        var hi := if side == 0 then box.off[d] else shape[d];
        if lo < hi {
          below := below + [Slab(shape, box, d, lo, hi)];
        }
      }
      slabs := slabs + below;
    }
    return if slabs == [] then None else Some(slabs);
  }

  /** How many of the boxes hold a point. */
  ghost function Count(boxes: seq<Box>, p: Point): nat {
    if boxes == [] then 0 else Count(boxes[..|boxes| - 1], p) + if Inside(boxes[|boxes| - 1], p) then 1 else 0
  }

  lemma {:induction false} CountConcat(a: seq<Box>, b: seq<Box>, p: Point)
    ensures Count(a + b, p) == Count(a, p) + Count(b, p)
    decreases |b|
  {
    if b == [] {
      assert a + b == a;
    } else {
      assert (a + b)[..|a + b| - 1] == a + b[..|b| - 1];
      CountConcat(a, b[..|b| - 1], p);
    }
  }

  /** The point is in the box on each of the first `d` dimensions. */
  ghost predicate WithinUpTo(box: Box, p: Point, d: nat)
    requires |box.off| == |box.size| == |p| && d <= |p|
  {
    forall e | 0 <= e < d :: Within(box, p, e)
  }

  lemma {:induction false} InsideSlab(shape: seq<nat>, box: Box, d: nat, lo: int, hi: int, p: Point)
    requires Fits(shape, box) && d < |shape| && lo <= hi && InShape(shape, p)
    ensures Inside(Slab(shape, box, d, lo, hi), p) <==> WithinUpTo(box, p, d) && lo <= p[d] < hi
  {
    var slab := Slab(shape, box, d, lo, hi);
    forall e | 0 <= e < d ensures Within(slab, p, e) <==> Within(box, p, e) {
    }
    assert Within(slab, p, d) <==> lo <= p[d] < hi;
    if Inside(slab, p) {
      forall e | 0 <= e < d ensures Within(box, p, e) {
        assert Within(slab, p, e);
      }
    }
  }

  lemma {:induction false} CountAt(shape: seq<nat>, box: Box, d: nat, p: Point)
    requires Fits(shape, box) && d < |shape| && InShape(shape, p)
    ensures Count(SlabsAt(shape, box, d), p) == if WithinUpTo(box, p, d) && !Within(box, p, d) then 1 else 0
  {
    hide Inside, WithinUpTo, Slab;
    var low, high := box.off[d], box.off[d] + box.size[d];
    InsideSlab(shape, box, d, 0, low, p);
    InsideSlab(shape, box, d, high, shape[d], p);
    var below := if 0 < low then [Slab(shape, box, d, 0, low)] else [];
    var above := if high < shape[d] then [Slab(shape, box, d, high, shape[d])] else [];
    CountConcat(below, above, p);
    CountOne(Slab(shape, box, d, 0, low), p);
    CountOne(Slab(shape, box, d, high, shape[d]), p);
  }

  lemma CountOne(box: Box, p: Point)
    ensures Count([box], p) == (if Inside(box, p) then 1 else 0) && Count([], p) == 0
  {
    assert [box][..0] == [];
  }

  lemma WithinOneMore(box: Box, p: Point, d: nat)
    requires |box.off| == |box.size| == |p| && d < |p|
    ensures WithinUpTo(box, p, d + 1) <==> WithinUpTo(box, p, d) && Within(box, p, d)
    ensures WithinUpTo(box, p, 0)
  {
  }

  lemma {:induction false} CountSlabs(shape: seq<nat>, box: Box, d: nat, p: Point)
    requires Fits(shape, box) && d <= |shape| && InShape(shape, p)
    ensures Count(Slabs(shape, box, d), p) == if WithinUpTo(box, p, d) then 0 else 1
  {
    if d > 0 {
      hide Within, WithinUpTo, Inside, SlabsAt, InShape, Fits;
      WithinOneMore(box, p, d - 1);
      CountSlabs(shape, box, d - 1, p);
      CountAt(shape, box, d - 1, p);
      CountConcat(Slabs(shape, box, d - 1), SlabsAt(shape, box, d - 1), p);
    }
  }

  /** The slabs hold every point outside the box exactly once and no point of the box. */
  lemma {:induction false} SlabsCoverBorder(shape: seq<nat>, box: Box, p: Point)
    requires Fits(shape, box) && InShape(shape, p)
    ensures Count(Slabs(shape, box, |shape|), p) == if Inside(box, p) then 0 else 1
  {
    CountSlabs(shape, box, |shape|, p);
  }

  // Volumes.

  ghost function VolumeOf(boxes: seq<Box>): int {
    if boxes == [] then 0 else VolumeOf(boxes[..|boxes| - 1]) + Volume(boxes[|boxes| - 1].size)
  }

  lemma {:induction false} VolumeConcat(a: seq<Box>, b: seq<Box>)
    ensures VolumeOf(a + b) == VolumeOf(a) + VolumeOf(b)
    decreases |b|
  {
    if b == [] {
      assert a + b == a;
    } else {
      assert (a + b)[..|a + b| - 1] == a + b[..|b| - 1];
      VolumeConcat(a, b[..|b| - 1]);
    }
  }

  /** The volume with the first `d` dimensions clipped to the box and the others whole. */
  function Clipped(shape: seq<nat>, size: seq<nat>, d: nat): nat
    requires |size| == |shape| && d <= |shape|
  {
    Volume(size[..d] + shape[d..])
  }

  lemma {:induction false} SlabVolume(shape: seq<nat>, box: Box, d: nat, lo: int, hi: int)
    requires Fits(shape, box) && d < |shape| && lo <= hi
    ensures Volume(Slab(shape, box, d, lo, hi).size) == Volume(box.size[..d] + shape[d + 1..]) * (hi - lo)
  {
    assert Slab(shape, box, d, lo, hi).size == box.size[..d] + [hi - lo] + shape[d + 1..];
    VolumeMiddle(box.size[..d], hi - lo, shape[d + 1..]);
  }

  lemma {:induction false} SlabsAtVolume(shape: seq<nat>, box: Box, d: nat)
    requires Fits(shape, box) && d < |shape|
    ensures VolumeOf(SlabsAt(shape, box, d)) == Clipped(shape, box.size, d) - Clipped(shape, box.size, d + 1)
  {
    hide Slab, Volume;
    var low, high := box.off[d], box.off[d] + box.size[d];
    var others := Volume(box.size[..d] + shape[d + 1..]);
    SlabVolume(shape, box, d, 0, low);
    SlabVolume(shape, box, d, high, shape[d]);
    assert box.size[..d] + shape[d..] == box.size[..d] + [shape[d]] + shape[d + 1..];
    VolumeMiddle(box.size[..d], shape[d], shape[d + 1..]);
    assert box.size[..d + 1] + shape[d + 1..] == box.size[..d] + [box.size[d]] + shape[d + 1..];
    VolumeMiddle(box.size[..d], box.size[d], shape[d + 1..]);
    var below := if 0 < low then [Slab(shape, box, d, 0, low)] else [];
    var above := if high < shape[d] then [Slab(shape, box, d, high, shape[d])] else [];
    VolumeConcat(below, above);
    VolumeOne(Slab(shape, box, d, 0, low));
    VolumeOne(Slab(shape, box, d, high, shape[d]));
    assert others * shape[d] == others * low + others * box.size[d] + others * (shape[d] - high);
  }

  lemma VolumeOne(box: Box)
    ensures VolumeOf([box]) == Volume(box.size) && VolumeOf([]) == 0
  {
    assert [box][..0] == [];
  }

  lemma {:induction false} SlabsVolumeUpTo(shape: seq<nat>, box: Box, d: nat)
    requires Fits(shape, box) && d <= |shape|
    ensures VolumeOf(Slabs(shape, box, d)) == Volume(shape) - Clipped(shape, box.size, d)
  {
    hide Volume, SlabsAt;
    if d == 0 {
      assert box.size[..0] + shape[0..] == shape;
    } else {
      SlabsVolumeUpTo(shape, box, d - 1);
      SlabsAtVolume(shape, box, d - 1);
      VolumeConcat(Slabs(shape, box, d - 1), SlabsAt(shape, box, d - 1));
    }
  }

  /** What the slabs fill is the buffer less the box, in number as well: the saving is the box's volume. */
  lemma {:induction false} SlabsVolume(shape: seq<nat>, box: Box)
    requires Fits(shape, box)
    ensures VolumeOf(Slabs(shape, box, |shape|)) + Volume(box.size) == Volume(shape)
  {
    SlabsVolumeUpTo(shape, box, |shape|);
    assert box.size[..|shape|] + shape[|shape|..] == box.size;
  }
}
