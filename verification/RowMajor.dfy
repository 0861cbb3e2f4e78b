/** Row-major positions: how an index tuple and its place in a flat array determine each other. */
module RowMajor {
  import opened Arith

  function Volume(shape: seq<nat>): nat {
    if shape == [] then 1 else Volume(shape[..|shape| - 1]) * shape[|shape| - 1]
  }

  ghost predicate InShape(shape: seq<nat>, q: seq<nat>) {
    |q| == |shape| && forall d | 0 <= d < |shape| :: q[d] < shape[d]
  }

  function Flat(shape: seq<nat>, q: seq<nat>): nat
    requires |q| == |shape|
  {
    if q == [] then 0
    else
      var last := |q| - 1;
      Flat(shape[..last], q[..last]) * shape[last] + q[last]
  }

  /** The index at flat position `i`. */
  function Index(shape: seq<nat>, i: nat): seq<nat>
    requires forall d | 0 <= d < |shape| :: shape[d] > 0
  {
    if shape == [] then []
    else
      var last := |shape| - 1;
      Index(shape[..last], i / shape[last]) + [i % shape[last]]
  }

  lemma {:induction false} FlatBound(shape: seq<nat>, q: seq<nat>)
    requires InShape(shape, q)
    ensures Flat(shape, q) < Volume(shape)
  {
    if q != [] {
      var last := |q| - 1;
      FlatBound(shape[..last], q[..last]);
      PairBound(Flat(shape[..last], q[..last]), Volume(shape[..last]), q[last], shape[last]);
    }
  }

  lemma {:induction false} VolumeMiddle(a: seq<nat>, x: nat, b: seq<nat>)
    ensures Volume(a + [x] + b) == Volume(a + b) * x
    decreases |b|
  {
    if b == [] {
      assert (a + [x])[..|a|] == a && a + [x] + b == a + [x] && a + b == a;
    } else {
      var last := |b| - 1;
      assert (a + [x] + b)[..|a| + 1 + last] == a + [x] + b[..last];
      assert (a + b)[..|a| + last] == a + b[..last];
      VolumeMiddle(a, x, b[..last]);
      assert (Volume(a + b[..last]) * x) * b[last] == (Volume(a + b[..last]) * b[last]) * x;
    }
  }

  lemma VolumeSuffix(shape: seq<nat>, d: nat)
    requires d < |shape|
    ensures Volume(shape[d..]) == shape[d] * Volume(shape[d + 1..])
  {
    VolumeMiddle([], shape[d], shape[d + 1..]);
    assert shape[d..] == [] + [shape[d]] + shape[d + 1..] && [] + shape[d + 1..] == shape[d + 1..];
  }

  lemma {:induction false} VolumePositive(shape: seq<nat>)
    ensures Volume(shape) > 0 <==> forall d | 0 <= d < |shape| :: shape[d] > 0
  {
    if shape != [] {
      var last := |shape| - 1;
      VolumePositive(shape[..last]);
      assert shape == shape[..last] + [shape[last]];
      var a, b := Volume(shape[..last]), shape[last];
      assert a * b > 0 <==> a > 0 && b > 0;
    }
  }

  /** Every position below the volume is the place of exactly one index. */
  lemma {:induction false} IndexOfFlat(shape: seq<nat>, q: seq<nat>)
    requires InShape(shape, q)
    ensures Index(shape, Flat(shape, q)) == q
  {
    if q != [] {
      var last := |q| - 1;
      IndexOfFlat(shape[..last], q[..last]);
      DivModUnique(Flat(shape[..last], q[..last]), q[last], shape[last]);
      assert q == q[..last] + [q[last]];
    }
  }

  lemma {:induction false} FlatInjective(shape: seq<nat>, p: seq<nat>, q: seq<nat>)
    requires InShape(shape, p) && InShape(shape, q)
    ensures Flat(shape, p) == Flat(shape, q) <==> p == q
  {
    IndexOfFlat(shape, p);
    IndexOfFlat(shape, q);
  }

  lemma {:induction false} FlatOfIndex(shape: seq<nat>, i: nat)
    requires i < Volume(shape) && forall d | 0 <= d < |shape| :: shape[d] > 0
    ensures InShape(shape, Index(shape, i)) && Flat(shape, Index(shape, i)) == i
  {
    if shape != [] {
      var last := |shape| - 1;
      DivBound(i, Volume(shape[..last]), shape[last]);
      FlatOfIndex(shape[..last], i / shape[last]);
      var head := Index(shape[..last], i / shape[last]);
      assert Index(shape, i)[..last] == head;
    }
  }

  lemma FlatNothing()
    ensures Flat([], []) == 0 && Volume([]) == 1
  {
  }

  lemma FlatOne(n: nat, i: nat)
    ensures Flat([n], [i]) == i
  {
    assert [n][..0] == [] && [i][..0] == [];
  }

  lemma FlatTwo(m: nat, n: nat, i: nat, j: nat)
    ensures Flat([m, n], [i, j]) == i * n + j
  {
    assert [m, n][..1] == [m] && [i, j][..1] == [i];
    FlatOne(m, i);
  }

  lemma FlatSnoc(shape: seq<nat>, n: nat, q: seq<nat>, i: nat)
    requires |shape| == |q|
    ensures Flat(shape + [n], q + [i]) == Flat(shape, q) * n + i
  {
    assert (shape + [n])[..|shape|] == shape && (q + [i])[..|q|] == q;
  }

  lemma VolumeSnoc(shape: seq<nat>, n: nat)
    ensures Volume(shape + [n]) == Volume(shape) * n
  {
    assert (shape + [n])[..|shape|] == shape;
  }

  lemma {:induction false} FlatSplit(a: seq<nat>, b: seq<nat>, p: seq<nat>, q: seq<nat>)
    requires |p| == |a| && |q| == |b|
    ensures Flat(a + b, p + q) == Flat(a, p) * Volume(b) + Flat(b, q)
    decreases |b|
  {
    if b == [] {
      assert a + b == a && p + q == p;
    } else {
      var last := |b| - 1;
      FlatSplit(a, b[..last], p, q[..last]);
      assert (a + b)[..|a| + last] == a + b[..last] && (p + q)[..|a| + last] == p + q[..last];
      Distribute(Flat(a, p), Volume(b[..last]), Flat(b[..last], q[..last]), b[last]);
    }
  }

  lemma Distribute(a: nat, b: nat, c: nat, n: nat)
    ensures (a * b + c) * n == a * (b * n) + c * n
  {
  }

  lemma {:induction false} VolumeSplit(a: seq<nat>, b: seq<nat>)
    ensures Volume(a + b) == Volume(a) * Volume(b)
    decreases |b|
  {
    if b == [] {
      assert a + b == a;
    } else {
      var last := |b| - 1;
      VolumeSplit(a, b[..last]);
      assert (a + b)[..|a| + last] == a + b[..last];
      Distribute(Volume(a), Volume(b[..last]), 0, b[last]);
    }
  }

  /** An index seen as one coordinate between what is outside it and what is inside it. */
  lemma {:induction false} FlatAround(shape: seq<nat>, q: seq<nat>, axis: nat)
    requires |q| == |shape| && axis < |shape|
    ensures Flat(shape, q)
         == (Flat(shape[..axis], q[..axis]) * shape[axis] + q[axis]) * Volume(shape[axis + 1..])
            + Flat(shape[axis + 1..], q[axis + 1..])
  {
    var head, p := shape[..axis + 1], q[..axis + 1];
    assert shape == head + shape[axis + 1..] && q == p + q[axis + 1..];
    FlatSplit(head, shape[axis + 1..], p, q[axis + 1..]);
    assert head[..axis] == shape[..axis] && p[..axis] == q[..axis];
  }

  /** The flat rule for one coordinate: divide by what is inside it, then take the remainder by its extent. */
  lemma {:induction false} CoordinateOfFlat(shape: seq<nat>, q: seq<nat>, axis: nat)
    requires InShape(shape, q) && axis < |shape|
    ensures Volume(shape[axis + 1..]) > 0
    ensures (Flat(shape, q) / Volume(shape[axis + 1..])) % shape[axis] == q[axis]
  {
    hide Flat, Volume;
    FlatAround(shape, q, axis);
    FlatBound(shape[axis + 1..], q[axis + 1..]);
    DivModUnique(Flat(shape[..axis], q[..axis]) * shape[axis] + q[axis], Flat(shape[axis + 1..], q[axis + 1..]), Volume(shape[axis + 1..]));
    DivModUnique(Flat(shape[..axis], q[..axis]), q[axis], shape[axis]);
  }
}
