/** Folding a transpose into the operations that filled its source
    (`lib/Transforms/FoldRelayoutIntoProducers/FoldRelayoutIntoProducersPass.cpp`): the producers write permuted slices
    of the destination through permuted maps, and the source disappears. */
module Relayout {
  import opened Odometer
  import opened Permutations
  import opened Wrappers

  type Point = seq<int>
  type Buffer = Point -> int

  /** What a producer writes: the source entire, or a rectangular slice of it. */
  datatype Slice = Whole | Part(off: seq<int>, size: seq<int>, strides: seq<int>) | Dynamic

  predicate WellFormed(shape: seq<nat>, s: Slice) {
    s.Part? ==> |s.off| == |s.size| == |s.strides| == |shape|
  }

  function Off(s: Slice, d: nat): int
    requires s.Part? ==> d < |s.off|
  {
    if s.Part? then s.off[d] else 0
  }

  function Size(shape: seq<nat>, s: Slice, d: nat): int
    requires d < |shape| && WellFormed(shape, s)
  {
    if s.Part? then s.size[d] else shape[d]
  }

  /** The slice is narrower than the buffer on `d`, or moved along it. */
  predicate Differs(shape: seq<nat>, s: Slice, d: nat)
    requires d < |shape| && WellFormed(shape, s)
  {
    Off(s, d) != 0 || Size(shape, s, d) != shape[d]
  }

  predicate UnitStrides(s: Slice) {
    s.Part? ==> forall d | 0 <= d < |s.strides| :: s.strides[d] == 1
  }

  ghost predicate Static(slices: seq<Slice>) {
    forall k | 0 <= k < |slices| :: !slices[k].Dynamic? && UnitStrides(slices[k])
  }

  predicate Holds(shape: seq<nat>, s: Slice, axis: nat, i: int)
    requires axis < |shape| && WellFormed(shape, s)
  {
    Off(s, axis) <= i < Off(s, axis) + Size(shape, s, axis)
  }

  ghost predicate AllWellFormed(shape: seq<nat>, slices: seq<Slice>) {
    forall k | 0 <= k < |slices| :: WellFormed(shape, slices[k])
  }

  /** A slice of the buffer that is not empty and is whole on every dimension but `axis`. */
  predicate AlongAxis(shape: seq<nat>, s: Slice, axis: nat)
    requires axis < |shape| && WellFormed(shape, s)
  {
    && Size(shape, s, axis) > 0 && 0 <= Off(s, axis) && Off(s, axis) + Size(shape, s, axis) <= shape[axis]
    && forall d | 0 <= d < |shape| && d != axis :: !Differs(shape, s, d)
  }

  ghost predicate Held(shape: seq<nat>, slices: seq<Slice>, axis: nat, i: int)
    requires axis < |shape| && AllWellFormed(shape, slices)
  {
    exists k :: 0 <= k < |slices| && Holds(shape, slices[k], axis, i)
  }

  /** Every index of the axis lies in exactly one slice. */
  ghost predicate Tiles(shape: seq<nat>, slices: seq<Slice>, axis: nat)
    requires AllWellFormed(shape, slices)
  {
    && axis < |shape|
    && slices != []
    && (forall k | 0 <= k < |slices| :: AlongAxis(shape, slices[k], axis))
    && (forall i | 0 <= i < shape[axis] :: Held(shape, slices, axis, i))
    && (forall i, j, k | 0 <= j < |slices| && 0 <= k < |slices| && j != k ::
          !(Holds(shape, slices[j], axis, i) && Holds(shape, slices[k], axis, i)))
  }

  /** Distinct positions of `offsets`, in ascending order of offset. */
  ghost predicate Ordered(offsets: seq<int>, order: seq<nat>) {
    && (forall a | 0 <= a < |order| :: order[a] < |offsets|)
    && (forall a, b | 0 <= a < b < |order| :: order[a] != order[b] && offsets[order[a]] <= offsets[order[b]])
  }

  ghost predicate Lists(order: seq<nat>, n: nat) {
    forall x: nat | x < n :: x in order
  }

  method SortByOffset(offsets: seq<int>) returns (order: seq<nat>)
    ensures Ordered(offsets, order) && Lists(order, |offsets|) && |order| == |offsets|
  {
    order := [];
    for k := 0 to |offsets|
      invariant |order| == k && Ordered(offsets, order) && Lists(order, k)
      invariant forall a | 0 <= a < k :: order[a] < k
    {
      var at := k;
      while at > 0 && offsets[k] < offsets[order[at - 1]]
        invariant 0 <= at <= k
        invariant forall a | at <= a < k :: offsets[k] < offsets[order[a]]
      {
        at := at - 1;
      }
      ListsInsert(order, at, k);
      OrderedInsert(offsets, order, at, k);
      order := order[..at] + [k] + order[at..];
    }
  }

  lemma OrderedInsert(offsets: seq<int>, order: seq<nat>, at: nat, k: nat)
    requires Ordered(offsets, order) && at <= |order| <= k < |offsets|
    requires forall a | 0 <= a < |order| :: order[a] < k
    requires forall a | at <= a < |order| :: offsets[k] < offsets[order[a]]
    requires at > 0 ==> offsets[order[at - 1]] <= offsets[k]
    ensures var next := order[..at] + [k] + order[at..];
      Ordered(offsets, next) && forall a | 0 <= a < |next| :: next[a] < k + 1
  {
    var next := order[..at] + [k] + order[at..];
    forall a | 0 <= a < |next| ensures next[a] == if a < at then order[a] else if a == at then k else order[a - 1] {
    }
  }

  lemma ListsInsert(order: seq<nat>, at: nat, k: nat)
    requires Lists(order, k) && at <= |order|
    ensures Lists(order[..at] + [k] + order[at..], k + 1)
  {
    forall x: nat | x < k + 1 ensures x in order[..at] + [k] + order[at..] {
      if x < k {
        assert x in order;
        var a :| 0 <= a < |order| && order[a] == x;
        assert if a < at then order[..at][a] == x else order[at..][a - at] == x;
      }
    }
  }

  /** The dimension some slice differs on, if there is one and it is the only one. */
  method DifferingAxis(shape: seq<nat>, slices: seq<Slice>) returns (ok: bool, axis: int)
    requires AllWellFormed(shape, slices)
    ensures ok <==> Static(slices) && OneDiffers(shape, slices)
    ensures ok && axis < 0 ==> forall k, d | 0 <= k < |slices| && 0 <= d < |shape| :: !Differs(shape, slices[k], d)
    ensures ok && axis >= 0 ==> axis < |shape| && exists k :: 0 <= k < |slices| && Differs(shape, slices[k], axis)
  {
    axis := -1;
    for k := 0 to |slices|
      invariant -1 <= axis < |shape|
      invariant Static(slices[..k])
      invariant forall j, d | 0 <= j < k && 0 <= d < |shape| && Differs(shape, slices[j], d) :: d == axis
      invariant axis >= 0 ==> exists j :: 0 <= j < k && Differs(shape, slices[j], axis)
    {
      var s := slices[k];
      assert slices[..k + 1][..k] == slices[..k] && slices[..k + 1][k] == s;
      if s.Dynamic? {
        return false, axis;
      }
      if s.Part? {
        for d := 0 to |shape|
          invariant forall e | 0 <= e < d :: s.strides[e] == 1
        {
          if s.strides[d] != 1 {
            assert !UnitStrides(slices[k]);
            return false, axis;
          }
        }
      }
      for d := 0 to |shape|
        invariant -1 <= axis < |shape|
        invariant forall j, e | 0 <= j < k && 0 <= e < |shape| && Differs(shape, slices[j], e) :: e == axis
        invariant forall e | 0 <= e < d && Differs(shape, s, e) :: e == axis
        invariant axis >= 0 ==> exists j :: 0 <= j <= k && Differs(shape, slices[j], axis)
      {
        if Off(s, d) == 0 && Size(shape, s, d) == shape[d] {
          continue;
        }
        if axis >= 0 && axis != d {
          assert Differs(shape, slices[k], d);
          assert !OneDiffers(shape, slices);
          return false, axis;
        }
        axis := d;
      }
    }
    assert slices[..|slices|] == slices;
    return true, axis;
  }

  /** No two dimensions have slices differing on them. */
  ghost predicate OneDiffers(shape: seq<nat>, slices: seq<Slice>)
    requires AllWellFormed(shape, slices)
  {
    forall j, k, d, e | 0 <= j < |slices| && 0 <= k < |slices| && 0 <= d < |shape| && 0 <= e < |shape| ::
      Differs(shape, slices[j], d) && Differs(shape, slices[k], e) ==> d == e
  }

  ghost predicate HeldBy(shape: seq<nat>, slices: seq<Slice>, axis: nat, order: seq<nat>, c: nat, i: int)
    requires axis < |shape| && AllWellFormed(shape, slices) && c <= |order|
    requires forall a | 0 <= a < |order| :: order[a] < |slices|
  {
    exists a :: 0 <= a < c && Holds(shape, slices[order[a]], axis, i)
  }

  /** The first `c` slices in the order fill the axis up to `reach` without a gap or an overlap. */
  ghost predicate Packed(shape: seq<nat>, slices: seq<Slice>, axis: nat, order: seq<nat>, c: nat, reach: int)
    requires axis < |shape| && AllWellFormed(shape, slices) && c <= |order|
    requires forall a | 0 <= a < |order| :: order[a] < |slices|
  {
    && (forall i | 0 <= i < reach :: HeldBy(shape, slices, axis, order, c, i))
    && (forall a | 0 <= a < c ::
          0 <= Off(slices[order[a]], axis) < Off(slices[order[a]], axis) + Size(shape, slices[order[a]], axis) <= reach)
    && (forall a, b | 0 <= a < b < c ::
          Off(slices[order[a]], axis) + Size(shape, slices[order[a]], axis) <= Off(slices[order[b]], axis))
    && reach == if c == 0 then 0 else Off(slices[order[c - 1]], axis) + Size(shape, slices[order[c - 1]], axis)
  }

  ghost predicate Offsets(slices: seq<Slice>, axis: nat, offsets: seq<int>)
    requires forall k | 0 <= k < |slices| :: slices[k].Part? ==> axis < |slices[k].off|
  {
    |offsets| == |slices| && forall k | 0 <= k < |slices| :: offsets[k] == Off(slices[k], axis)
  }

  lemma TilesAlong(shape: seq<nat>, slices: seq<Slice>, axis: nat, k: nat)
    requires AllWellFormed(shape, slices) && Tiles(shape, slices, axis) && k < |slices|
    ensures axis < |shape| && AlongAxis(shape, slices[k], axis)
  {
  }

  lemma TilesOnce(shape: seq<nat>, slices: seq<Slice>, axis: nat, i: int, j: nat, k: nat)
    requires AllWellFormed(shape, slices) && Tiles(shape, slices, axis) && j < |slices| && k < |slices|
    requires Holds(shape, slices[j], axis, i) && Holds(shape, slices[k], axis, i)
    ensures j == k
  {
  }

  /** Some slice holds the index, and the order lists it. */
  lemma TilesHeld(shape: seq<nat>, slices: seq<Slice>, axis: nat, order: seq<nat>, i: nat) returns (b: nat)
    requires AllWellFormed(shape, slices) && Tiles(shape, slices, axis) && Lists(order, |slices|) && i < shape[axis]
    requires forall a | 0 <= a < |order| :: order[a] < |slices|
    ensures b < |order| && Holds(shape, slices[order[b]], axis, i)
  {
    assert Held(shape, slices, axis, i);
    var j: nat :| j < |slices| && Holds(shape, slices[j], axis, i);
    assert j in order;
    b :| b < |order| && order[b] == j;
  }

  /** In a tiling, each slice in order starts where the one before it ended. */
  lemma {:induction false} NextMeets(shape: seq<nat>, slices: seq<Slice>, axis: nat, offsets: seq<int>, order: seq<nat>, c: nat, reach: int)
    requires axis < |shape| && AllWellFormed(shape, slices) && Offsets(slices, axis, offsets)
    requires Ordered(offsets, order) && Lists(order, |slices|) && c < |order|
    requires Packed(shape, slices, axis, order, c, reach) && Tiles(shape, slices, axis)
    ensures Off(slices[order[c]], axis) == reach && Size(shape, slices[order[c]], axis) > 0
  {
    hide Tiles;
    var s := slices[order[c]];
    var off := Off(s, axis);
    TilesAlong(shape, slices, axis, order[c]);
    if off < reach {
      assert HeldBy(shape, slices, axis, order, c, off);
      var a :| 0 <= a < c && Holds(shape, slices[order[a]], axis, off);
      TilesOnce(shape, slices, axis, off, order[a], order[c]);
    } else {
      var b := TilesHeld(shape, slices, axis, order, reach);
      assert c <= b;
      assert off <= Off(slices[order[b]], axis);
    }
  }

  lemma {:induction false} ReachesEnd(shape: seq<nat>, slices: seq<Slice>, axis: nat, order: seq<nat>, reach: int)
    requires axis < |shape| && AllWellFormed(shape, slices) && Lists(order, |slices|)
    requires forall a | 0 <= a < |order| :: order[a] < |slices|
    requires Packed(shape, slices, axis, order, |order|, reach) && Tiles(shape, slices, axis)
    ensures reach == shape[axis]
  {
    hide Tiles;
    if reach < shape[axis] {
      var b := TilesHeld(shape, slices, axis, order, reach);
    } else if order != [] {
      TilesAlong(shape, slices, axis, order[|order| - 1]);
    }
  }

  lemma {:induction false} PackedStep(shape: seq<nat>, slices: seq<Slice>, axis: nat, order: seq<nat>, c: nat, reach: int)
    requires axis < |shape| && AllWellFormed(shape, slices) && c < |order|
    requires forall a | 0 <= a < |order| :: order[a] < |slices|
    requires Packed(shape, slices, axis, order, c, reach)
    requires Off(slices[order[c]], axis) == reach && Size(shape, slices[order[c]], axis) > 0
    ensures Packed(shape, slices, axis, order, c + 1, reach + Size(shape, slices[order[c]], axis))
  {
    var next, after := reach + Size(shape, slices[order[c]], axis), c + 1;
    forall i | 0 <= i < next
      ensures HeldBy(shape, slices, axis, order, after, i)
    {
      if i < reach {
        assert HeldBy(shape, slices, axis, order, c, i);
      } else {
        assert Holds(shape, slices[order[c]], axis, i);
      }
    }
  }

  lemma {:induction false} PackedTiles(shape: seq<nat>, slices: seq<Slice>, axis: nat, order: seq<nat>)
    requires axis < |shape| && AllWellFormed(shape, slices) && Lists(order, |slices|) && slices != []
    requires forall a | 0 <= a < |order| :: order[a] < |slices|
    requires Packed(shape, slices, axis, order, |order|, shape[axis])
    requires forall k, d | 0 <= k < |slices| && 0 <= d < |shape| && d != axis :: !Differs(shape, slices[k], d)
    ensures Tiles(shape, slices, axis)
  {
    forall k: nat | k < |slices| ensures AlongAxis(shape, slices[k], axis) {
      assert k in order;
    }
    forall i | 0 <= i < shape[axis] ensures Held(shape, slices, axis, i) {
      assert HeldBy(shape, slices, axis, order, |order|, i);
      var a :| 0 <= a < |order| && Holds(shape, slices[order[a]], axis, i);
    }
    forall i, j: nat, k: nat | j < |slices| && k < |slices| && j != k
      ensures !(Holds(shape, slices[j], axis, i) && Holds(shape, slices[k], axis, i))
    {
      assert j in order && k in order;
      var a :| 0 <= a < |order| && order[a] == j;
      var b :| 0 <= b < |order| && order[b] == k;
      assert a < b || b < a;
    }
  }

  lemma {:induction false} WholeIsAlone(shape: seq<nat>, slices: seq<Slice>, w: nat, a: nat)
    requires AllWellFormed(shape, slices) && w < |slices| && slices[w].Whole? && Tiles(shape, slices, a)
    ensures |slices| == 1
  {
    hide Tiles;
    if |slices| > 1 {
      var j := if w == 0 then 1 else 0;
      TilesAlong(shape, slices, a, j);
      TilesOnce(shape, slices, a, Off(slices[j], a), j, w);
    }
  }

  /** The axis is the one some slice differs on; when none does, any axis will do for a single slice. */
  lemma {:induction false} OtherAxis(shape: seq<nat>, slices: seq<Slice>, axis: nat, a: nat)
    requires AllWellFormed(shape, slices) && axis < |shape| && slices != []
    requires
      || (exists k :: 0 <= k < |slices| && Differs(shape, slices[k], axis))
      || forall k, d | 0 <= k < |slices| && 0 <= d < |shape| :: !Differs(shape, slices[k], d)
    requires NoEmptyDimension(shape) && Tiles(shape, slices, a)
    ensures Tiles(shape, slices, axis)
  {
    if a != axis {
      forall k | 0 <= k < |slices| ensures !Differs(shape, slices[k], axis) {
        TilesAlong(shape, slices, a, k);
      }
      if |slices| > 1 {
        assert !Differs(shape, slices[0], a) && !Differs(shape, slices[1], a);
        TilesAlong(shape, slices, a, 0);
        TilesOnce(shape, slices, a, 0, 0, 1);
      }
      assert AlongAxis(shape, slices[0], axis);
      forall i | 0 <= i < shape[axis] ensures Held(shape, slices, axis, i) {
        assert Holds(shape, slices[0], axis, i);
      }
    }
  }

  ghost predicate NoEmptyDimension(shape: seq<nat>) {
    forall d | 0 <= d < |shape| :: shape[d] > 0
  }

  /** The tiling check: the axis the slices tile, if they tile one. The slices are complete: with no empty dimension
      it says no only when there is no axis they tile. */
  method FindTiling(shape: seq<nat>, slices: seq<Slice>) returns (found: Option<nat>)
    requires |shape| > 0 && AllWellFormed(shape, slices)
    ensures found.Some? ==> Static(slices) && Tiles(shape, slices, found.value)
    ensures found.None? && Static(slices) && NoEmptyDimension(shape) ==> forall a: nat :: !Tiles(shape, slices, a)
  {
    if slices == [] {
      return None;
    }
    var whole := false;
    for k := 0 to |slices|
      invariant whole <==> exists j :: 0 <= j < k && slices[j].Whole?
    {
      whole := whole || slices[k].Whole?;
    }
    if whole && |slices| != 1 {
      var w: nat :| w < |slices| && slices[w].Whole?;
      forall a: nat ensures !Tiles(shape, slices, a) {
        if Tiles(shape, slices, a) {
          WholeIsAlone(shape, slices, w, a);
        }
      }
      return None;
    }
    var ok, named := DifferingAxis(shape, slices);
    if !ok {
      return None;
    }
    var axis: nat := if named < 0 then |shape| - 1 else named;
    var offsets: seq<int> := [];
    for k := 0 to |slices|
      invariant |offsets| == k
      invariant forall j | 0 <= j < k :: offsets[j] == Off(slices[j], axis)
      invariant forall j, d | 0 <= j < k && 0 <= d < |shape| && d != axis :: !Differs(shape, slices[j], d)
    {
      offsets := offsets + [Off(slices[k], axis)];
      for d := 0 to |shape|
        invariant forall e | 0 <= e < d && e != axis :: !Differs(shape, slices[k], e)
      {
        if d != axis && Differs(shape, slices[k], d) {
          return None;
        }
      }
    }
    var order := SortByOffset(offsets);
    var reach := 0;
    for c := 0 to |order|
      invariant Packed(shape, slices, axis, order, c, reach)
    {
      var s := slices[order[c]];
      if offsets[order[c]] != reach || Size(shape, s, axis) <= 0 {
        forall a: nat | NoEmptyDimension(shape) ensures !Tiles(shape, slices, a) {
          if Tiles(shape, slices, a) {
            OtherAxis(shape, slices, axis, a);
            NextMeets(shape, slices, axis, offsets, order, c, reach);
          }
        }
        return None;
      }
      PackedStep(shape, slices, axis, order, c, reach);
      reach := reach + Size(shape, s, axis);
    }
    if reach != shape[axis] {
      forall a: nat | NoEmptyDimension(shape) ensures !Tiles(shape, slices, a) {
        if Tiles(shape, slices, a) {
          OtherAxis(shape, slices, axis, a);
          ReachesEnd(shape, slices, axis, order, reach);
        }
      }
      return None;
    }
    PackedTiles(shape, slices, axis, order);
    return Some(axis);
  }

  // The producers.

  /** A `linalg.generic` with one output: its iteration space, the iteration dimension each output dimension follows,
      and what an iteration makes of the element it finds there (its inputs are not the source). */
  datatype Producer = Producer(slice: Slice, dims: seq<nat>, out: seq<nat>, body: (seq<nat>, int) -> int)

  /** The output map is a projected permutation and its ranges are the slice's sizes, where those are known. */
  ghost predicate Fitting(shape: seq<nat>, p: Producer) {
    && WellFormed(shape, p.slice)
    && |p.out| == |shape| && Distinct(p.out)
    && forall r | 0 <= r < |p.out| ::
         p.out[r] < |p.dims| && (p.slice.Dynamic? || p.dims[p.out[r]] == Size(shape, p.slice, r))
  }

  ghost predicate Valid(shape: seq<nat>, p: Producer) {
    Fitting(shape, p) && !p.slice.Dynamic? && UnitStrides(p.slice)
  }

  ghost predicate AllValid(shape: seq<nat>, ps: seq<Producer>) {
    forall k | 0 <= k < |ps| :: Valid(shape, ps[k])
  }

  /** The element iteration `t` writes. */
  function Place(p: Producer, t: seq<nat>): Point
    requires forall r | 0 <= r < |p.out| :: p.out[r] < |t|
    requires p.slice.Part? ==> |p.slice.off| == |p.out|
  {
    seq(|p.out|, r requires 0 <= r < |p.out| => Off(p.slice, r) + t[p.out[r]])
  }

  ghost predicate Runnable(p: Producer, ts: seq<seq<nat>>) {
    && (p.slice.Part? ==> |p.slice.off| == |p.out|)
    && forall i, r | 0 <= i < |ts| && 0 <= r < |p.out| :: p.out[r] < |ts[i]|
  }

  ghost function Perform(p: Producer, buffer: Buffer, ts: seq<seq<nat>>): Buffer
    requires Runnable(p, ts)
  {
    if ts == [] then buffer
    else
      var t := ts[|ts| - 1];
      var before := Perform(p, buffer, ts[..|ts| - 1]);
      Put(before, Place(p, t), p.body(t, before(Place(p, t))))
  }

  function Put(buffer: Buffer, at: Point, v: int): Buffer {
    (x: Point) => if x == at then v else buffer(x)
  }

  ghost function Itself(t: seq<nat>): seq<seq<nat>> { [t] }

  /** Every iteration, in the order of a loop nest. */
  ghost function Iterations(p: Producer): seq<seq<nat>> {
    Under(p.dims, Itself, [])
  }

  lemma {:induction false} IterationsMembers(p: Producer, t: seq<nat>)
    ensures t in Iterations(p) <==> IsIndex(p.dims, t)
  {
    UnderMembers(p.dims, Itself, [], t);
    if IsIndex(p.dims, t) {
      assert [] <= t && t in Itself(t);
    }
  }

  lemma {:induction false} IterationsRun(shape: seq<nat>, p: Producer)
    requires Valid(shape, p)
    ensures Runnable(p, Iterations(p))
  {
    forall i | 0 <= i < |Iterations(p)| ensures IsIndex(p.dims, Iterations(p)[i]) {
      IterationsMembers(p, Iterations(p)[i]);
    }
  }

  /** The producers one after the other. */
  ghost function RunAll(shape: seq<nat>, ps: seq<Producer>, buffer: Buffer): Buffer
    requires AllValid(shape, ps)
  {
    if ps == [] then buffer
    else
      IterationsRun(shape, ps[|ps| - 1]);
      Perform(ps[|ps| - 1], RunAll(shape, ps[..|ps| - 1], buffer), Iterations(ps[|ps| - 1]))
  }

  // The rewrite.

  ghost predicate Permutation(perm: seq<nat>) {
    && Distinct(perm)
    && (forall d | 0 <= d < |perm| :: perm[d] < |perm|)
    && forall r: nat | r < |perm| :: r in perm
  }

  /** The producer with its slice and its output map permuted. */
  ghost function Rewritten(shape: seq<nat>, perm: seq<nat>, p: Producer): Producer
    requires Permutation(perm) && |perm| == |shape| && Valid(shape, p)
  {
    var slice := match p.slice
      case Part(off, size, _) => Part(Permute(perm, off), Permute(perm, size), seq(|perm|, _ => 1))
      case other => other;
    Producer(slice, p.dims, Permute(perm, p.out), p.body)
  }

  ghost function RewriteAll(shape: seq<nat>, perm: seq<nat>, ps: seq<Producer>): seq<Producer>
    requires Permutation(perm) && |perm| == |shape| && AllValid(shape, ps)
  {
    seq(|ps|, k requires 0 <= k < |ps| => Rewritten(shape, perm, ps[k]))
  }

  method RewriteProducer(shape: seq<nat>, perm: seq<nat>, p: Producer) returns (r: Producer)
    requires Permutation(perm) && |perm| == |shape| && Valid(shape, p)
    ensures r == Rewritten(shape, perm, p)
  {
    var slice := p.slice;
    if slice.Part? {
      var newOff: seq<int>, newSize: seq<int>, newStride: seq<int> := [], [], [];
      for d := 0 to |perm|
        invariant |newOff| == |newSize| == |newStride| == d
        invariant forall e | 0 <= e < d :: newOff[e] == p.slice.off[perm[e]] && newSize[e] == p.slice.size[perm[e]]
        invariant forall e | 0 <= e < d :: newStride[e] == 1
      {
        newOff := newOff + [p.slice.off[perm[d]]];
        newSize := newSize + [p.slice.size[perm[d]]];
        newStride := newStride + [1];
      }
      assert newOff == Permute(perm, p.slice.off) && newSize == Permute(perm, p.slice.size);
      assert newStride == seq(|perm|, _ => 1);
      slice := Part(newOff, newSize, newStride);
    }
    var results: seq<nat> := [];
    for d := 0 to |perm|
      invariant |results| == d
      invariant forall e | 0 <= e < d :: results[e] == p.out[perm[e]]
    {
      results := results + [p.out[perm[d]]];
    }
    assert results == Permute(perm, p.out);
    return Producer(slice, p.dims, results, p.body);
  }

  function SlicesOf(ps: seq<Producer>): seq<Slice> {
    seq(|ps|, k requires 0 <= k < |ps| => ps[k].slice)
  }

  /** The whole pattern: refused unless the slices tile an axis. */
  method FoldRelayout(shape: seq<nat>, perm: seq<nat>, ps: seq<Producer>) returns (made: Option<seq<Producer>>)
    requires |shape| > 0 && Permutation(perm) && |perm| == |shape| 
    requires forall k | 0 <= k < |ps| :: Fitting(shape, ps[k])
    ensures made.Some? ==> AllValid(shape, ps) && exists axis: nat :: Tiles(shape, SlicesOf(ps), axis)
    ensures made.None? && AllValid(shape, ps) && NoEmptyDimension(shape) ==> forall axis: nat :: !Tiles(shape, SlicesOf(ps), axis)
    ensures made.Some? ==> made.value == RewriteAll(shape, perm, ps)
  {
    var slices := SlicesOf(ps);
    var axis := FindTiling(shape, slices);
    if axis.None? {
      return None;
    }
    forall k | 0 <= k < |ps| ensures Valid(shape, ps[k]) {
      assert !slices[k].Dynamic? && UnitStrides(slices[k]);
    }
    var rewritten: seq<Producer> := [];
    for k := 0 to |ps|
      invariant |rewritten| == k
      invariant forall j | 0 <= j < k :: rewritten[j] == Rewritten(shape, perm, ps[j])
    {
      var r := RewriteProducer(shape, perm, ps[k]);
      rewritten := rewritten + [r];
    }
    assert rewritten == RewriteAll(shape, perm, ps);
    return Some(rewritten);
  }

  // What the rewrite keeps.

  /** `dst` is `src` with its dimensions permuted. */
  ghost predicate IsTranspose(perm: seq<nat>, src: Buffer, dst: Buffer)
    requires Permutation(perm)
  {
    forall x: Point | |x| == |perm| :: dst(Permute(perm, x)) == src(x)
  }

  /** Written out: dimension `d` of a transposed index is dimension `perm[d]` of the index, and with these indices the transpose
      holds what its operand held. */
  lemma {:induction false} TransposeIs(perm: seq<nat>, src: Buffer, dst: Buffer, x: Point, q: Point)
    requires Permutation(perm) && |x| == |q| == |perm| && forall d | 0 <= d < |perm| :: q[d] == x[perm[d]]
    ensures Permute(perm, x) == q && (IsTranspose(perm, src, dst) ==> dst(q) == src(x))
  {
    hide Distinct;
    assert Permute(perm, x) == q;
  }

  /** Written out: an iteration writes at its slice's offset plus, along each dimension, the iteration dimension the output map
      names there. */
  lemma {:induction false} PlaceIs(p: Producer, t: seq<nat>, x: Point)
    requires (forall r | 0 <= r < |p.out| :: p.out[r] < |t|) && p.slice.Part? && |p.slice.off| == |p.out|
    ensures x == Place(p, t) <==> |x| == |p.out| && forall r | 0 <= r < |x| :: x[r] == p.slice.off[r] + t[p.out[r]]
  {
  }

  lemma {:induction false} PermuteInjective(perm: seq<nat>, x: Point, y: Point)
    requires Permutation(perm) && |x| == |y| == |perm| && Permute(perm, x) == Permute(perm, y)
    ensures x == y
  {
    forall r: nat | r < |perm| ensures x[r] == y[r] {
      assert r in perm;
      var d :| 0 <= d < |perm| && perm[d] == r;
      assert Permute(perm, x)[d] == Permute(perm, y)[d];
    }
  }

  /** The permuted map takes an iteration to where the transpose would have taken its element. */
  lemma {:induction false} PlaceRewritten(shape: seq<nat>, perm: seq<nat>, p: Producer, t: seq<nat>)
    requires Permutation(perm) && |perm| == |shape| && Valid(shape, p) && |t| == |p.dims|
    ensures Place(Rewritten(shape, perm, p), t) == Permute(perm, Place(p, t))
  {
  }

  lemma {:induction false} PerformTransposed(shape: seq<nat>, perm: seq<nat>, p: Producer, src: Buffer, dst: Buffer, ts: seq<seq<nat>>)
    requires Permutation(perm) && |perm| == |shape| && Valid(shape, p) && IsTranspose(perm, src, dst)
    requires forall i | 0 <= i < |ts| :: |ts[i]| == |p.dims|
    requires Runnable(p, ts) && Runnable(Rewritten(shape, perm, p), ts)
    ensures IsTranspose(perm, Perform(p, src, ts), Perform(Rewritten(shape, perm, p), dst, ts))
  {
    if ts != [] {
      var last := |ts| - 1;
      var t := ts[last];
      PerformTransposed(shape, perm, p, src, dst, ts[..last]);
      PlaceRewritten(shape, perm, p, t);
      var a, b := Perform(p, src, ts[..last]), Perform(Rewritten(shape, perm, p), dst, ts[..last]);
      PutTransposed(perm, a, b, Place(p, t), p.body(t, a(Place(p, t))));
    }
  }

  lemma {:induction false} PutTransposed(perm: seq<nat>, src: Buffer, dst: Buffer, at: Point, v: int)
    requires Permutation(perm) && IsTranspose(perm, src, dst) && |at| == |perm|
    ensures IsTranspose(perm, Put(src, at, v), Put(dst, Permute(perm, at), v))
  {
    forall x: Point | |x| == |perm| ensures Put(dst, Permute(perm, at), v)(Permute(perm, x)) == Put(src, at, v)(x) {
      if Permute(perm, x) == Permute(perm, at) {
        PermuteInjective(perm, x, at);
      }
    }
  }

  /** A rewritten producer is a proper one: its map's ranges are the permuted slice's sizes. */
  lemma {:induction false} RewrittenValid(shape: seq<nat>, perm: seq<nat>, p: Producer)
    requires Permutation(perm) && |perm| == |shape| && Valid(shape, p)
    ensures Valid(Permute(perm, shape), Rewritten(shape, perm, p))
  {
    var r := Rewritten(shape, perm, p);
    forall i, j | 0 <= i < j < |r.out| ensures r.out[i] != r.out[j] {
      assert perm[i] != perm[j];
      assert perm[i] < perm[j] || perm[j] < perm[i];
    }
  }

  /** Whatever the producers do, run into the transposed buffer they do it transposed. */
  lemma {:induction false} RunTransposed(shape: seq<nat>, perm: seq<nat>, ps: seq<Producer>, src: Buffer, dst: Buffer)
    requires Permutation(perm) && |perm| == |shape| && AllValid(shape, ps) && IsTranspose(perm, src, dst)
    requires AllValid(Permute(perm, shape), RewriteAll(shape, perm, ps))
    ensures IsTranspose(perm, RunAll(shape, ps, src), RunAll(Permute(perm, shape), RewriteAll(shape, perm, ps), dst))
  {
    if ps != [] {
      var last := |ps| - 1;
      var p := ps[last];
      var r := Rewritten(shape, perm, p);
      assert RewriteAll(shape, perm, ps)[..last] == RewriteAll(shape, perm, ps[..last]);
      RunTransposed(shape, perm, ps[..last], src, dst);
      IterationsRun(shape, p);
      IterationsRun(Permute(perm, shape), r);
      assert Iterations(r) == Iterations(p);
      forall i | 0 <= i < |Iterations(p)| ensures |Iterations(p)[i]| == |p.dims| {
        IterationsMembers(p, Iterations(p)[i]);
      }
      var a, b := RunAll(shape, ps[..last], src), RunAll(Permute(perm, shape), RewriteAll(shape, perm, ps[..last]), dst);
      PerformTransposed(shape, perm, p, a, b, Iterations(p));
    }
  }

  ghost predicate InBuffer(shape: seq<nat>, x: Point) {
    |x| == |shape| && forall d | 0 <= d < |shape| :: 0 <= x[d] < shape[d]
  }

  /** What the producers leave in the source does not depend on what was there: they fill it. */
  ghost predicate Fills(shape: seq<nat>, ps: seq<Producer>)
    requires AllValid(shape, ps)
  {
    forall a: Buffer, b: Buffer, x: Point | InBuffer(shape, x) :: RunAll(shape, ps, a)(x) == RunAll(shape, ps, b)(x)
  }

  /** Whatever the two buffers held at first, the rewritten producers leave in the destination what the transpose
      would have put there. */
  ghost predicate Relaid(shape: seq<nat>, perm: seq<nat>, ps: seq<Producer>)
    requires Permutation(perm) && |perm| == |shape| && AllValid(shape, ps)
    requires AllValid(Permute(perm, shape), RewriteAll(shape, perm, ps))
  {
    forall src: Buffer, dst: Buffer, x: Point | InBuffer(shape, x) ::
      RunAll(Permute(perm, shape), RewriteAll(shape, perm, ps), dst)(Permute(perm, x)) == RunAll(shape, ps, src)(x)
  }

  lemma {:induction false} AllRewrittenValid(shape: seq<nat>, perm: seq<nat>, ps: seq<Producer>)
    requires Permutation(perm) && |perm| == |shape| && AllValid(shape, ps)
    ensures AllValid(Permute(perm, shape), RewriteAll(shape, perm, ps))
  {
    forall k | 0 <= k < |ps| ensures Valid(Permute(perm, shape), RewriteAll(shape, perm, ps)[k]) {
      RewrittenValid(shape, perm, ps[k]);
    }
  }

  lemma {:induction false} FilledRelaid(shape: seq<nat>, perm: seq<nat>, ps: seq<Producer>, src: Buffer, dst: Buffer, x: Point)
    requires Permutation(perm) && |perm| == |shape| && AllValid(shape, ps) && Fills(shape, ps) && InBuffer(shape, x)
    requires AllValid(Permute(perm, shape), RewriteAll(shape, perm, ps))
    ensures RunAll(Permute(perm, shape), RewriteAll(shape, perm, ps), dst)(Permute(perm, x)) == RunAll(shape, ps, src)(x)
  {
    hide RunAll, RewriteAll;
    var back: Buffer := (y: Point) => if |y| == |perm| then dst(Permute(perm, y)) else 0;
    RunTransposed(shape, perm, ps, back, dst);
    assert RunAll(shape, ps, back)(x) == RunAll(shape, ps, src)(x);
  }

  /** The relayout is exact for precisely the producers that fill the source. */
  lemma {:induction false} RelayoutExact(shape: seq<nat>, perm: seq<nat>, ps: seq<Producer>)
    requires Permutation(perm) && |perm| == |shape| && AllValid(shape, ps)
    requires AllValid(Permute(perm, shape), RewriteAll(shape, perm, ps))
    ensures Relaid(shape, perm, ps) <==> Fills(shape, ps)
  {
    hide RunAll, Permute, RewriteAll;
    if Fills(shape, ps) {
      forall src: Buffer, dst: Buffer, x: Point | InBuffer(shape, x)
        ensures RunAll(Permute(perm, shape), RewriteAll(shape, perm, ps), dst)(Permute(perm, x)) == RunAll(shape, ps, src)(x)
      {
        FilledRelaid(shape, perm, ps, src, dst, x);
      }
    }
    if Relaid(shape, perm, ps) {
      forall a: Buffer, b: Buffer, x: Point | InBuffer(shape, x)
        ensures RunAll(shape, ps, a)(x) == RunAll(shape, ps, b)(x)
      {
        var after := RunAll(Permute(perm, shape), RewriteAll(shape, perm, ps), a);
        assert after(Permute(perm, x)) == RunAll(shape, ps, a)(x);
        assert after(Permute(perm, x)) == RunAll(shape, ps, b)(x);
      }
    }
  }

  // Slices that tile fill the buffer.

  /** Some iteration of the producer writes `x`. */
  ghost predicate Writes(shape: seq<nat>, p: Producer, x: Point)
    requires Valid(shape, p)
  {
    exists t :: IsIndex(p.dims, t) && Place(p, t) == x
  }

  ghost function Where(out: seq<nat>, d: nat): (r: nat)
    requires d in out
    ensures r < |out| && out[r] == d
  {
    var r :| 0 <= r < |out| && out[r] == d; r
  }

  /** Reductions are over something. */
  ghost predicate Reduces(p: Producer) {
    forall d: nat | d < |p.dims| && d !in p.out :: p.dims[d] > 0
  }

  /** The element lies in the slice, dimension by dimension. */
  ghost predicate InSlice(shape: seq<nat>, s: Slice, x: Point)
    requires WellFormed(shape, s)
  {
    |x| == |shape| && forall d | 0 <= d < |shape| :: Off(s, d) <= x[d] < Off(s, d) + Size(shape, s, d)
  }

  lemma {:induction false} SliceOnAxis(shape: seq<nat>, s: Slice, axis: nat, x: Point)
    requires WellFormed(shape, s) && axis < |shape| && AlongAxis(shape, s, axis)
    ensures InSlice(shape, s, x) <==> InBuffer(shape, x) && Holds(shape, s, axis, x[axis])
  {
    forall d | 0 <= d < |shape| ensures d != axis ==> Off(s, d) == 0 && Size(shape, s, d) == shape[d] {
      assert d != axis ==> !Differs(shape, s, d);
    }
  }

  /** An iteration that writes `x`. */
  ghost function Iteration(shape: seq<nat>, p: Producer, x: Point): (t: seq<nat>)
    requires Valid(shape, p) && InSlice(shape, p.slice, x)
    ensures |t| == |p.dims| && forall d: nat | d < |p.dims| :: t[d] == Coordinate(shape, p, x, d)
  {
    seq(|p.dims|, d requires 0 <= d < |p.dims| => Coordinate(shape, p, x, d))
  }

  ghost function Coordinate(shape: seq<nat>, p: Producer, x: Point, d: nat): (c: nat)
    requires Valid(shape, p) && InSlice(shape, p.slice, x) && d < |p.dims|
    ensures c < p.dims[d] || (c == 0 && d !in p.out)
  {
    if d in p.out then x[Where(p.out, d)] - Off(p.slice, Where(p.out, d)) else 0
  }

  lemma {:induction false} CoordinateAt(shape: seq<nat>, p: Producer, x: Point, r: nat)
    requires Valid(shape, p) && InSlice(shape, p.slice, x) && r < |p.out|
    ensures Coordinate(shape, p, x, p.out[r]) == x[r] - Off(p.slice, r)
  {
    assert p.out[r] in p.out;
    SamePlace(p.out, Where(p.out, p.out[r]), r);
  }

  lemma SamePlace(s: seq<nat>, i: nat, j: nat)
    requires Distinct(s) && i < |s| && j < |s| && s[i] == s[j]
    ensures i == j
  {
  }

  lemma {:induction false} WritesOnlyInside(shape: seq<nat>, p: Producer, x: Point)
    requires Valid(shape, p) && Writes(shape, p, x)
    ensures InSlice(shape, p.slice, x)
  {
    var t :| IsIndex(p.dims, t) && Place(p, t) == x;
    forall d | 0 <= d < |shape| ensures Off(p.slice, d) <= x[d] < Off(p.slice, d) + Size(shape, p.slice, d) {
      assert x[d] == Off(p.slice, d) + t[p.out[d]];
    }
  }

  lemma {:induction false} WritesAllInside(shape: seq<nat>, p: Producer, x: Point)
    requires Valid(shape, p) && InSlice(shape, p.slice, x) && Reduces(p)
    ensures Writes(shape, p, x)
  {
    hide Coordinate;
    var t := Iteration(shape, p, x);
    assert IsIndex(p.dims, t);
    forall r | 0 <= r < |x| ensures Place(p, t)[r] == x[r] {
      CoordinateAt(shape, p, x, r);
    }
    assert Place(p, t) == x;
  }

  /** Every element of the source is written by exactly one of the producers, and nothing else is. */
  lemma {:induction false} WrittenByOne(shape: seq<nat>, ps: seq<Producer>, axis: nat, x: Point)
    requires AllValid(shape, ps) && Tiles(shape, SlicesOf(ps), axis)
    requires forall k | 0 <= k < |ps| :: Reduces(ps[k])
    ensures InBuffer(shape, x) <==> exists k :: 0 <= k < |ps| && Writes(shape, ps[k], x)
    ensures forall j, k | 0 <= j < |ps| && 0 <= k < |ps| && Writes(shape, ps[j], x) && Writes(shape, ps[k], x) :: j == k
  {
    hide Writes;
    var slices := SlicesOf(ps);
    forall k | 0 <= k < |ps|
      ensures Writes(shape, ps[k], x) <==> InBuffer(shape, x) && Holds(shape, slices[k], axis, x[axis])
    {
      assert AlongAxis(shape, slices[k], axis);
      SliceOnAxis(shape, slices[k], axis, x);
      if Writes(shape, ps[k], x) {
        WritesOnlyInside(shape, ps[k], x);
      } else if InSlice(shape, slices[k], x) {
        WritesAllInside(shape, ps[k], x);
      }
    }
    if InBuffer(shape, x) {
      assert Held(shape, slices, axis, x[axis]);
      var k :| 0 <= k < |slices| && Holds(shape, slices[k], axis, x[axis]);
      assert Writes(shape, ps[k], x);
    }
  }

  /** The body makes a new element, whatever it finds there. */
  ghost predicate Overwrites(p: Producer) {
    forall t, v, w :: p.body(t, v) == p.body(t, w)
  }

  lemma {:induction false} PerformOverwrites(p: Producer, a: Buffer, b: Buffer, ts: seq<seq<nat>>, x: Point)
    requires Runnable(p, ts) && Overwrites(p)
    requires a(x) == b(x) || exists i :: 0 <= i < |ts| && Place(p, ts[i]) == x
    ensures Perform(p, a, ts)(x) == Perform(p, b, ts)(x)
  {
    if ts != [] {
      var last := |ts| - 1;
      var a', b' := Perform(p, a, ts[..last]), Perform(p, b, ts[..last]);
      if Place(p, ts[last]) == x {
        assert p.body(ts[last], a'(x)) == p.body(ts[last], b'(x));
      } else {
        if a(x) != b(x) {
          var i :| 0 <= i < |ts| && Place(p, ts[i]) == x;
          assert ts[..last][i] == ts[i];
        }
        PerformOverwrites(p, a, b, ts[..last], x);
      }
    }
  }

  lemma {:induction false} RunAllOverwrites(shape: seq<nat>, ps: seq<Producer>, a: Buffer, b: Buffer, x: Point)
    requires AllValid(shape, ps) && forall k | 0 <= k < |ps| :: Overwrites(ps[k])
    requires a(x) == b(x) || exists k :: 0 <= k < |ps| && Writes(shape, ps[k], x)
    ensures RunAll(shape, ps, a)(x) == RunAll(shape, ps, b)(x)
  {
    if ps != [] {
      hide Perform;
      var last := |ps| - 1;
      var p := ps[last];
      IterationsRun(shape, p);
      if Writes(shape, p, x) {
        var t :| IsIndex(p.dims, t) && Place(p, t) == x;
        IterationsMembers(p, t);
        var i :| 0 <= i < |Iterations(p)| && Iterations(p)[i] == t;
        assert Place(p, Iterations(p)[i]) == x;
      } else {
        if a(x) != b(x) {
          var k :| 0 <= k < |ps| && Writes(shape, ps[k], x);
          assert ps[..last][k] == ps[k];
        }
        RunAllOverwrites(shape, ps[..last], a, b, x);
      }
      PerformOverwrites(p, RunAll(shape, ps[..last], a), RunAll(shape, ps[..last], b), Iterations(p), x);
    }
  }

  /** What the check accepts is exact: producers whose slices tile an axis and that make new elements leave the
      destination exactly as the transpose did, for any permutation and any widths. */
  lemma {:induction false} TilesRelay(shape: seq<nat>, perm: seq<nat>, ps: seq<Producer>, axis: nat)
    requires Permutation(perm) && |perm| == |shape| && AllValid(shape, ps) && Tiles(shape, SlicesOf(ps), axis)
    requires forall k | 0 <= k < |ps| :: Reduces(ps[k]) && Overwrites(ps[k])
    ensures AllValid(Permute(perm, shape), RewriteAll(shape, perm, ps)) && Relaid(shape, perm, ps)
  {
    AllRewrittenValid(shape, perm, ps);
    forall a: Buffer, b: Buffer, x: Point | InBuffer(shape, x)
      ensures RunAll(shape, ps, a)(x) == RunAll(shape, ps, b)(x)
    {
      WrittenByOne(shape, ps, axis, x);
      RunAllOverwrites(shape, ps, a, b, x);
    }
    RelayoutExact(shape, perm, ps);
  }

  // The condition in terms of what the bodies use.

  ghost function Performed(shape: seq<nat>, p: Producer, buffer: Buffer): Buffer
    requires Valid(shape, p)
  {
    IterationsRun(shape, p);
    Perform(p, buffer, Iterations(p))
  }

  lemma {:induction false} PerformElsewhere(p: Producer, buffer: Buffer, ts: seq<seq<nat>>, x: Point)
    requires Runnable(p, ts)
    requires forall i | 0 <= i < |ts| :: Place(p, ts[i]) != x || forall v :: p.body(ts[i], v) == v
    ensures Perform(p, buffer, ts)(x) == buffer(x)
  {
    if ts != [] {
      var last := |ts| - 1;
      PerformElsewhere(p, buffer, ts[..last], x);
      assert Place(p, ts[last]) != x || forall v :: p.body(ts[last], v) == v;
    }
  }

  lemma {:induction false} PerformConstant(p: Producer, buffer: Buffer, ts: seq<seq<nat>>, x: Point, c: int)
    requires Runnable(p, ts) && forall t, v :: p.body(t, v) == c
    ensures (exists i :: 0 <= i < |ts| && Place(p, ts[i]) == x) ==> Perform(p, buffer, ts)(x) == c
  {
    if ts != [] {
      var last := |ts| - 1;
      PerformConstant(p, buffer, ts[..last], x, c);
      if i :| 0 <= i < |ts| && Place(p, ts[i]) == x {
        assert i < last ==> ts[..last][i] == ts[i];
      }
    }
  }

  lemma {:induction false} PlacedAt(shape: seq<nat>, p: Producer, x: Point)
    requires Valid(shape, p)
    ensures Runnable(p, Iterations(p))
    ensures Writes(shape, p, x) <==> exists i :: 0 <= i < |Iterations(p)| && Place(p, Iterations(p)[i]) == x
  {
    IterationsRun(shape, p);
    if Writes(shape, p, x) {
      var t :| IsIndex(p.dims, t) && Place(p, t) == x;
      IterationsMembers(p, t);
      var i :| 0 <= i < |Iterations(p)| && Iterations(p)[i] == t;
    }
    if i :| 0 <= i < |Iterations(p)| && Place(p, Iterations(p)[i]) == x {
      IterationsMembers(p, Iterations(p)[i]);
    }
  }

  lemma {:induction false} FillElsewhere(shape: seq<nat>, p: Producer, buffer: Buffer, x: Point)
    requires Valid(shape, p) && (!Writes(shape, p, x) || forall t, v :: p.body(t, v) == v)
    ensures Performed(shape, p, buffer)(x) == buffer(x)
  {
    hide Writes;
    PlacedAt(shape, p, x);
    PerformElsewhere(p, buffer, Iterations(p), x);
  }

  lemma {:induction false} FillConstant(shape: seq<nat>, p: Producer, buffer: Buffer, x: Point, c: int)
    requires Valid(shape, p) && Writes(shape, p, x) && forall t, v :: p.body(t, v) == c
    ensures Performed(shape, p, buffer)(x) == c
  {
    hide Writes;
    PlacedAt(shape, p, x);
    PerformConstant(p, buffer, Iterations(p), x, c);
  }

  lemma NothingReduced(shape: seq<nat>, p: Producer, x: Point)
    requires Valid(shape, p) && !Reduces(p)
    ensures !Writes(shape, p, x)
  {
    var d: nat :| d < |p.dims| && d !in p.out && p.dims[d] == 0;
    forall t | |t| == |p.dims| ensures !IsIndex(p.dims, t) {
      assert t[d] >= p.dims[d];
    }
  }

  /** Producers whose bodies are left open; `usesOut` says whose bodies use the element they are about to write. */
  ghost function WithBodies(ps: seq<Producer>, bodies: seq<(seq<nat>, int) -> int>): seq<Producer>
    requires |bodies| == |ps|
  {
    seq(|ps|, k requires 0 <= k < |ps| => ps[k].(body := bodies[k]))
  }

  ghost predicate BodiesFit(ps: seq<Producer>, usesOut: seq<bool>, bodies: seq<(seq<nat>, int) -> int>) {
    && |ps| == |usesOut| == |bodies|
    && forall k | 0 <= k < |ps| && !usesOut[k] :: Overwrites(ps[k].(body := bodies[k]))
  }

  /** The relayout is exact for every such choice of bodies. */
  ghost predicate RelaidAlways(shape: seq<nat>, perm: seq<nat>, ps: seq<Producer>, usesOut: seq<bool>)
    requires Permutation(perm) && |perm| == |shape| && AllValid(shape, ps)
  {
    forall bodies | BodiesFit(ps, usesOut, bodies) :: RelaidWith(shape, perm, ps, bodies)
  }

  ghost predicate RelaidWith(shape: seq<nat>, perm: seq<nat>, ps: seq<Producer>, bodies: seq<(seq<nat>, int) -> int>)
    requires Permutation(perm) && |perm| == |shape| && AllValid(shape, ps) && |bodies| == |ps|
  {
    AllRewrittenValid(shape, perm, WithBodies(ps, bodies));
    Relaid(shape, perm, WithBodies(ps, bodies))
  }

  ghost predicate Empty(shape: seq<nat>, s: Slice)
    requires WellFormed(shape, s)
  {
    forall x: Point :: !InSlice(shape, s, x)
  }

  /** Every producer of a slice that is not empty reduces over something and does not use the element it writes. */
  ghost predicate NoneUsed(shape: seq<nat>, ps: seq<Producer>, usesOut: seq<bool>)
    requires AllValid(shape, ps) && |usesOut| == |ps|
  {
    forall k | 0 <= k < |ps| && !Empty(shape, ps[k].slice) :: Reduces(ps[k]) && !usesOut[k]
  }

  lemma {:induction false} RunAllElsewhere(shape: seq<nat>, ps: seq<Producer>, buffer: Buffer, x: Point)
    requires AllValid(shape, ps)
    requires forall k | 0 <= k < |ps| :: !Writes(shape, ps[k], x) || forall t, v :: ps[k].body(t, v) == v
    ensures RunAll(shape, ps, buffer)(x) == buffer(x)
  {
    if ps != [] {
      hide Perform, Writes;
      var last := |ps| - 1;
      assert forall k | 0 <= k < last :: ps[..last][k] == ps[k];
      RunAllElsewhere(shape, ps[..last], buffer, x);
      FillElsewhere(shape, ps[last], RunAll(shape, ps[..last], buffer), x);
    }
  }

  /** A tiling of a buffer with an element has no empty slice. */
  lemma {:induction false} NoSliceEmpty(shape: seq<nat>, slices: seq<Slice>, axis: nat, x: Point, k: nat)
    requires AllWellFormed(shape, slices) && Tiles(shape, slices, axis) && InBuffer(shape, x) && k < |slices|
    ensures !Empty(shape, slices[k])
  {
    TilesAlong(shape, slices, axis, k);
    var y := x[axis := Off(slices[k], axis)];
    SliceOnAxis(shape, slices[k], axis, y);
    assert InSlice(shape, slices[k], y);
  }

  /** Slices that tile an axis are relaid out exactly, whatever the bodies, if and only if no producer of a slice that is
      not empty uses the element it writes or reduces over nothing. */
  lemma {:induction false} BodiesExact(shape: seq<nat>, perm: seq<nat>, ps: seq<Producer>, usesOut: seq<bool>, axis: nat)
    requires Permutation(perm) && |perm| == |shape| && AllValid(shape, ps) && Tiles(shape, SlicesOf(ps), axis) && |usesOut| == |ps|
    ensures RelaidAlways(shape, perm, ps, usesOut) <==> NoneUsed(shape, ps, usesOut)
  {
    if NoneUsed(shape, ps, usesOut) {
      forall bodies | BodiesFit(ps, usesOut, bodies) ensures RelaidWith(shape, perm, ps, bodies) {
        NoneUsedRelaid(shape, perm, ps, usesOut, axis, bodies);
      }
    } else {
      UsedNotRelaid(shape, perm, ps, usesOut, axis);
    }
  }

  lemma {:induction false} NoneUsedRelaid(shape: seq<nat>, perm: seq<nat>, ps: seq<Producer>, usesOut: seq<bool>, axis: nat, bodies: seq<(seq<nat>, int) -> int>)
    requires Permutation(perm) && |perm| == |shape| && AllValid(shape, ps) && Tiles(shape, SlicesOf(ps), axis)
    requires BodiesFit(ps, usesOut, bodies) && NoneUsed(shape, ps, usesOut)
    ensures RelaidWith(shape, perm, ps, bodies)
  {
    hide Tiles, RunAll, RewriteAll, Permute, Empty, Overwrites;
    var qs := WithBodies(ps, bodies);
    AllRewrittenValid(shape, perm, qs);
    if x :| InBuffer(shape, x) {
      assert SlicesOf(qs) == SlicesOf(ps);
      forall k | 0 <= k < |qs| ensures Reduces(qs[k]) && Overwrites(qs[k]) {
        NoSliceEmpty(shape, SlicesOf(ps), axis, x, k);
      }
      TilesRelay(shape, perm, qs, axis);
    }
  }

  lemma {:induction false} UsedNotRelaid(shape: seq<nat>, perm: seq<nat>, ps: seq<Producer>, usesOut: seq<bool>, axis: nat)
    requires Permutation(perm) && |perm| == |shape| && AllValid(shape, ps) && Tiles(shape, SlicesOf(ps), axis)
    requires |usesOut| == |ps| && !NoneUsed(shape, ps, usesOut)
    ensures !RelaidAlways(shape, perm, ps, usesOut)
  {
    hide RunAll, RewriteAll, Permute, Permutation, Writes, Tiles;
    var k :| 0 <= k < |ps| && !Empty(shape, ps[k].slice) && !(Reduces(ps[k]) && !usesOut[k]);
    var x: Point :| InSlice(shape, ps[k].slice, x);
    var bodies: seq<(seq<nat>, int) -> int> :=
      seq(|ps|, j requires 0 <= j < |ps| => (t: seq<nat>, v: int) => if usesOut[j] then v else 1);
    var qs := WithBodies(ps, bodies);
    assert SlicesOf(qs) == SlicesOf(ps);
    TilesAlong(shape, SlicesOf(ps), axis, k);
    SliceOnAxis(shape, ps[k].slice, axis, x);
    forall j | 0 <= j < |qs| ensures !Writes(shape, qs[j], x) || forall t, v :: qs[j].body(t, v) == v {
      if j == k {
        if !Reduces(ps[k]) {
          NothingReduced(shape, qs[k], x);
        }
      } else {
        OtherSlice(shape, qs, axis, j, k, x);
      }
    }
    var zeros: Buffer, ones: Buffer := (y: Point) => 0, (y: Point) => 1;
    RunAllElsewhere(shape, qs, zeros, x);
    RunAllElsewhere(shape, qs, ones, x);
    AllRewrittenValid(shape, perm, qs);
    RelayoutExact(shape, perm, qs);
    assert BodiesFit(ps, usesOut, bodies) && !RelaidWith(shape, perm, ps, bodies);
  }

  lemma {:induction false} OtherSlice(shape: seq<nat>, ps: seq<Producer>, axis: nat, j: nat, k: nat, x: Point)
    requires AllValid(shape, ps) && Tiles(shape, SlicesOf(ps), axis) && j < |ps| && k < |ps| && j != k
    requires InSlice(shape, ps[k].slice, x)
    ensures !Writes(shape, ps[j], x)
  {
    if Writes(shape, ps[j], x) {
      WritesOnlyInside(shape, ps[j], x);
      TilesOnce(shape, SlicesOf(ps), axis, x[axis], j, k);
    }
  }
}
