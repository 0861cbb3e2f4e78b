/** Folding a channel shuffle into the filter of the convolution that reads it
    (`lib/Transforms/FoldChannelShuffle/FoldChannelShufflePass.cpp`), in exact arithmetic. */
module ChannelShuffle {
  import opened Arith
  import opened Permutations
  import opened RowMajor
  import opened Sums
  import opened Wrappers

  type Tensor = seq<nat> -> real

  // The permutation.

  /** The input channel that output channel `k` holds: split into `g` groups of `m`, swap, merge. */
  function Shuffled(g: nat, m: nat, k: nat): nat
    requires g > 0
  {
    k % g * m + k / g
  }

  lemma {:induction false} ShuffledAt(g: nat, m: nat, i: nat, j: nat)
    requires i < g && j < m
    ensures j * g + i < g * m && Shuffled(g, m, j * g + i) == i * m + j < g * m
  {
    DivModUnique(j, i, g);
    PairBound(j, m, i, g);
    PairBound(i, g, j, m);
  }

  lemma Digits(g: nat, m: nat, k: nat)
    requires k < g * m
    ensures g > 0 && m > 0 && k % g < g && k / g < m && k == k / g * g + k % g
  {
    assert g == 0 || m == 0 ==> g * m == 0;
    DivBound(k, m, g);
  }

  /** Shuffling back is splitting the other way: the permutation is a bijection. */
  lemma {:induction false} ShuffledInverse(g: nat, m: nat, k: nat)
    requires k < g * m
    ensures g > 0 && m > 0 && Shuffled(g, m, k) < g * m && Shuffled(m, g, Shuffled(g, m, k)) == k
  {
    Digits(g, m, k);
    ShuffledAt(g, m, k % g, k / g);
    ShuffledAt(m, g, k / g, k % g);
  }

  /** It undoes itself only when the groups are the same size as each other, or there is nothing to shuffle. */
  lemma {:induction false} ShuffledInvolution(g: nat, m: nat)
    requires g > 0 && m > 0
    ensures (forall k: nat | k < g * m :: Shuffled(g, m, Shuffled(g, m, k)) == k) <==> g == m || g == 1 || m == 1
  {
    hide Shuffled;
    if g == m || g == 1 || m == 1 {
      forall k: nat | k < g * m ensures Shuffled(g, m, Shuffled(g, m, k)) == k {
        ShuffledInverse(g, m, k);
        if g == 1 || m == 1 {
          ShuffledNothing(g, m, k);
        }
      }
    } else {
      ShuffledOne(g, m);
      ShuffledInverse(g, m, 1);
      if Shuffled(g, m, m) == 1 {
        ShuffledInverse(g, m, m);
        ShuffledInverse(g, m, g);
      }
      assert Shuffled(g, m, Shuffled(g, m, 1)) != 1;
    }
  }

  lemma ShuffledNothing(g: nat, m: nat, k: nat)
    requires k < g * m && (g == 1 || m == 1)
    ensures Shuffled(g, m, k) == k
  {
    if m == 1 {
      DivModUnique(0, k, g);
    }
  }

  /** Where the second and the `g`-th index go. */
  lemma ShuffledOne(g: nat, m: nat)
    requires g > 1 && m > 1
    ensures 1 < g * m && g < g * m && Shuffled(g, m, 1) == m && Shuffled(g, m, g) == 1
  {
    ShuffledAt(g, m, 1, 0);
    ShuffledAt(g, m, 0, 1);
  }

  /** The loops over group `i` and element `j` come to `k` later. */
  ghost predicate Reached(g: nat, i: nat, j: nat, k: nat)
    requires g > 0
  {
    k % g < i || (k % g == i && k / g < j)
  }

  ghost predicate Built(table: seq<nat>, g: nat, m: nat, i: nat, j: nat)
    requires g > 0
  {
    |table| == g * m && forall k: nat | k < g * m && Reached(g, i, j, k) :: table[k] == Shuffled(g, m, k)
  }

  lemma BuiltStart(table: seq<nat>, g: nat, m: nat)
    requires g > 0 && |table| == g * m
    ensures Built(table, g, m, 0, 0)
  {
  }

  lemma {:induction false} BuiltStep(table: seq<nat>, g: nat, m: nat, i: nat, j: nat)
    requires i < g && j < m && Built(table, g, m, i, j)
    ensures j * g + i < |table| && Built(table[j * g + i := i * m + j], g, m, i, j + 1)
  {
    hide Shuffled;
    ShuffledAt(g, m, i, j);
    forall k: nat | k < g * m && Reached(g, i, j + 1, k)
      ensures table[j * g + i := i * m + j][k] == Shuffled(g, m, k)
    {
      Digits(g, m, k);
      assert Reached(g, i, j, k) || k == j * g + i;
    }
  }

  lemma {:induction false} BuiltRow(table: seq<nat>, g: nat, m: nat, i: nat)
    requires i < g && Built(table, g, m, i, m)
    ensures Built(table, g, m, i + 1, 0)
  {
    hide Shuffled, Reached;
    forall k: nat | k < g * m && Reached(g, i + 1, 0, k) ensures table[k] == Shuffled(g, m, k) {
      ReachedRow(g, m, i, k);
    }
  }

  lemma ReachedRow(g: nat, m: nat, i: nat, k: nat)
    requires k < g * m && g > 0 && Reached(g, i + 1, 0, k)
    ensures Reached(g, i, m, k)
  {
    Digits(g, m, k);
  }

  lemma BuiltAll(table: seq<nat>, g: nat, m: nat)
    requires g > 0 && Built(table, g, m, g, 0)
    ensures forall k: nat | k < g * m :: table[k] == Shuffled(g, m, k)
  {
    hide Shuffled;
    forall k: nat | k < g * m ensures table[k] == Shuffled(g, m, k) {
      Digits(g, m, k);
      assert Reached(g, g, 0, k);
    }
  }

  /** The table the pass builds. */
  method BuildPermutation(g: nat, m: nat) returns (perm: array<nat>)
    requires g > 0
    ensures fresh(perm) && perm.Length == g * m
    ensures forall k: nat | k < g * m :: perm[k] == Shuffled(g, m, k)
  {
    hide Built, Shuffled;
    perm := new nat[g * m](_ => 0);
    BuiltStart(perm[..], g, m);
    for i := 0 to g
      invariant Built(perm[..], g, m, i, 0)
    {
      for j := 0 to m
        invariant Built(perm[..], g, m, i, j)
      {
        BuiltStep(perm[..], g, m, i, j);
        perm[j * g + i] := i * m + j;
      }
      BuiltRow(perm[..], g, m, i);
    }
    BuiltAll(perm[..], g, m);
  }

  /** The table inverted. */
  method Invert(perm: array<nat>, g: nat, m: nat) returns (inverse: array<nat>)
    requires g > 0 && m > 0 && perm.Length == g * m
    requires forall k: nat | k < g * m :: perm[k] == Shuffled(g, m, k)
    ensures fresh(inverse) && inverse.Length == g * m
    ensures forall c: nat | c < g * m :: inverse[c] == Shuffled(m, g, c)
  {
    hide Shuffled;
    inverse := new nat[g * m](_ => 0);
    for k := 0 to perm.Length
      invariant forall c: nat | c < g * m && Shuffled(m, g, c) < k :: inverse[c] == Shuffled(m, g, c)
    {
      ShuffledInverse(g, m, k);
      inverse[perm[k]] := k;
      forall c: nat | c < g * m && Shuffled(m, g, c) == k ensures c == perm[k] {
        ShuffledInverse(m, g, c);
      }
    }
    forall c: nat | c < g * m ensures Shuffled(m, g, c) < perm.Length {
      ShuffledInverse(m, g, c);
    }
  }

  // Permuting one axis of a constant.

  /** Where position `u` of the permuted constant comes from. */
  function SourceOf(u: nat, extent: nat, inner: nat, perm: nat -> nat): nat
    requires extent > 0 && inner > 0
  {
    Position(Quotient(Quotient(u, inner), extent), extent, perm(Remainder(Quotient(u, inner), extent)), inner, Remainder(u, inner))
  }

  /** The flat position of element `c` of the axis, between what is outside it and what is inside it. */
  function Position(o: nat, extent: nat, c: nat, inner: nat, k: nat): nat { (o * extent + c) * inner + k }

  lemma {:induction false} SourceAt(o: nat, c: nat, k: nat, extent: nat, inner: nat, perm: nat -> nat)
    requires c < extent && k < inner
    ensures SourceOf((o * extent + c) * inner + k, extent, inner, perm) == (o * extent + perm(c)) * inner + k
  {
    DivModUnique(o * extent + c, k, inner);
    DivModUnique(o, c, extent);
  }

  lemma SourceInside(o: nat, c: nat, k: nat, outer: nat, extent: nat, inner: nat)
    requires o < outer && c < extent && k < inner
    ensures (o * extent + c) * inner + k < outer * extent * inner
  {
    PairBound(o, outer, c, extent);
    PairBound(o * extent + c, outer * extent, k, inner);
  }

  /** An index with one coordinate replaced. */
  function With(q: seq<nat>, axis: nat, c: nat): (r: seq<nat>)
    requires axis < |q|
    ensures |r| == |q| && r[axis] == c
  {
    q[axis := c]
  }

  /** The flat positions of an index before and after permuting one coordinate. */
  lemma {:induction false} SourceOfFlat(shape: seq<nat>, q: seq<nat>, axis: nat, perm: nat -> nat)
    requires InShape(shape, q) && axis < |shape|
    ensures Volume(shape[axis + 1..]) > 0
    ensures SourceOf(Flat(shape, q), shape[axis], Volume(shape[axis + 1..]), perm) == Flat(shape, With(q, axis, perm(q[axis])))
  {
    hide Flat, Volume, SourceOf;
    var r := With(q, axis, perm(q[axis]));
    assert r[..axis] == q[..axis] && r[axis + 1..] == q[axis + 1..];
    FlatAround(shape, q, axis);
    FlatAround(shape, r, axis);
    FlatBound(shape[axis + 1..], q[axis + 1..]);
    SourceAt(Flat(shape[..axis], q[..axis]), q[axis], Flat(shape[axis + 1..], q[axis + 1..]), shape[axis],
             Volume(shape[axis + 1..]), perm);
  }

  lemma {:induction false} VolumeAround(shape: seq<nat>, axis: nat)
    requires axis < |shape|
    ensures Volume(shape) == Volume(shape[..axis]) * shape[axis] * Volume(shape[axis + 1..])
  {
    assert shape == shape[..axis + 1] + shape[axis + 1..];
    VolumeSplit(shape[..axis + 1], shape[axis + 1..]);
    assert shape[..axis + 1][..axis] == shape[..axis];
  }

  lemma PositionsFollow(o: nat, extent: nat, c: nat, inner: nat)
    ensures Position(o, extent, c, inner, inner) == Position(o, extent, c + 1, inner, 0)
    ensures Position(o, extent, extent, inner, 0) == Position(o + 1, extent, 0, inner, 0)
    ensures Position(0, extent, 0, inner, 0) == 0
  {
    assert (o * extent + (c + 1)) * inner == (o * extent + c) * inner + inner;
    assert (o + 1) * extent == o * extent + extent;
  }

  /** The innermost loop. */
  method PermuteRow(out: array<real>, flat: seq<real>, o: nat, c: nat, outer: nat, extent: nat, inner: nat, table: array<nat>,
                    ghost perm: nat -> nat)
    requires |flat| == outer * extent * inner == out.Length && o < outer && c < extent && inner > 0 && table.Length == extent
    requires table[c] == perm(c) < extent
    requires Permuted(out[..], flat, extent, inner, perm, Position(o, extent, c, inner, 0))
    modifies out
    ensures Permuted(out[..], flat, extent, inner, perm, Position(o, extent, c, inner, inner))
  {
    hide SourceOf;
    for k := 0 to inner
      invariant Permuted(out[..], flat, extent, inner, perm, Position(o, extent, c, inner, k))
    {
      SourceAt(o, c, k, extent, inner, perm);
      SourceInside(o, c, k, outer, extent, inner);
      SourceInside(o, perm(c), k, outer, extent, inner);
      out[(o * extent + c) * inner + k] := flat[(o * extent + table[c]) * inner + k];
    }
  }

  /** The three loops: every position is filled, in order. */
  method PermuteFlat(flat: seq<real>, outer: nat, extent: nat, inner: nat, table: array<nat>, ghost perm: nat -> nat) returns (out: array<real>)
    requires |flat| == outer * extent * inner && extent > 0 && inner > 0 && table.Length == extent
    requires forall c: nat | c < extent :: table[c] == perm(c) < extent
    ensures fresh(out) && out.Length == |flat|
    ensures forall u: nat | u < |flat| :: SourceOf(u, extent, inner, perm) < |flat| && out[u] == flat[SourceOf(u, extent, inner, perm)]
  {
    hide SourceOf, Position;
    out := new real[|flat|](_ => 0.0);
    PositionsFollow(0, extent, 0, inner);
    for o := 0 to outer
      invariant Permuted(out[..], flat, extent, inner, perm, Position(o, extent, 0, inner, 0))
    {
      for c := 0 to extent
        invariant Permuted(out[..], flat, extent, inner, perm, Position(o, extent, c, inner, 0))
      {
        PermuteRow(out, flat, o, c, outer, extent, inner, table, perm);
        PositionsFollow(o, extent, c, inner);
      }
      PositionsFollow(o, extent, extent, inner);
    }
    AllPositions(outer, extent, inner);
    hide Permuted;
    PermutedAll(out[..], flat, extent, inner, perm, Position(outer, extent, 0, inner, 0));
  }

  lemma AllPositions(outer: nat, extent: nat, inner: nat)
    ensures Position(outer, extent, 0, inner, 0) == outer * extent * inner
  {
  }

  lemma PermutedAll(out: seq<real>, flat: seq<real>, extent: nat, inner: nat, perm: nat -> nat, done: nat)
    requires extent > 0 && inner > 0 && Permuted(out, flat, extent, inner, perm, done) && done >= |flat|
    ensures |out| == |flat| && forall u: nat | u < |flat| ::
      SourceOf(u, extent, inner, perm) < |flat| && out[u] == flat[SourceOf(u, extent, inner, perm)]
  {
  }

  ghost predicate Permuted(out: seq<real>, flat: seq<real>, extent: nat, inner: nat, perm: nat -> nat, done: nat)
    requires extent > 0 && inner > 0
  {
    |out| == |flat| && forall u: nat | u < done && u < |flat| ::
      SourceOf(u, extent, inner, perm) < |flat| && out[u] == flat[SourceOf(u, extent, inner, perm)]
  }

  /** `permuteAxis`, of a constant that is not empty. */
  method PermuteAxis(flat: seq<real>, shape: seq<nat>, axis: nat, table: array<nat>, ghost perm: nat -> nat) returns (out: array<real>)
    requires axis < |shape| && |flat| == Volume(shape) > 0 && table.Length == shape[axis]
    requires forall c: nat | c < shape[axis] :: table[c] == perm(c) < shape[axis]
    ensures fresh(out) && AxisPermuted(out[..], flat, shape, axis, perm)
  {
    hide Volume;
    var inner := 1;
    FlatNothing();
    assert shape[axis + 1..axis + 1] == [];
    for d := axis + 1 to |shape|
      invariant inner == Volume(shape[axis + 1..d])
    {
      VolumeSnoc(shape[axis + 1..d], shape[d]);
      assert shape[axis + 1..d + 1] == shape[axis + 1..d] + [shape[d]];
      inner := inner * shape[d];
    }
    assert shape[axis + 1..|shape|] == shape[axis + 1..];
    var extent := shape[axis];
    VolumeAround(shape, axis);
    VolumePositive(shape);
    VolumePositive(shape[axis + 1..]);
    OuterExtent(Volume(shape[..axis]), extent, inner);
    var outer := |flat| / (extent * inner);
    out := PermuteFlat(flat, outer, extent, inner, table, perm);
    forall q | InShape(shape, q)
      ensures Flat(shape, q) < |flat| && Flat(shape, With(q, axis, perm(q[axis]))) < |flat|
        && out[Flat(shape, q)] == flat[Flat(shape, With(q, axis, perm(q[axis])))]
    {
      SourceOfFlat(shape, q, axis, perm);
      FlatBound(shape, q);
    }
  }

  lemma OuterExtent(outer: nat, extent: nat, inner: nat)
    requires extent > 0 && inner > 0
    ensures extent * inner > 0 && outer * extent * inner / (extent * inner) == outer
  {
    assert outer * extent * inner == outer * (extent * inner);
    DivModUnique(outer, 0, extent * inner);
  }

  /** Each element of `out` is the element of `flat` whose coordinate on the axis is the permuted one. */
  ghost predicate AxisPermuted(out: seq<real>, flat: seq<real>, shape: seq<nat>, axis: nat, perm: nat -> nat)
    requires axis < |shape|
  {
    |out| == |flat| && forall q | InShape(shape, q) ::
      Flat(shape, q) < |flat| && Flat(shape, With(q, axis, perm(q[axis]))) < |flat|
      && out[Flat(shape, q)] == flat[Flat(shape, With(q, axis, perm(q[axis])))]
  }

  // Recognizing the shuffle.

  /** The group of an expansion or a collapse that holds two dimensions, if every other holds one. Groups are given
      by their sizes. */
  ghost predicate SoleSplit(groups: seq<nat>, axis: nat) {
    axis < |groups| && groups[axis] == 2 && forall i | 0 <= i < |groups| && i != axis :: groups[i] == 1
  }

  method SoleSplitAxis(groups: seq<nat>) returns (axis: Option<nat>)
    ensures axis.Some? ==> SoleSplit(groups, axis.value)
    ensures axis.None? ==> forall a: nat :: !SoleSplit(groups, a)
  {
    axis := None;
    for i := 0 to |groups|
      invariant axis.Some? ==> axis.value < i && groups[axis.value] == 2
      invariant forall j | 0 <= j < i && axis != Some(j) :: groups[j] == 1
    {
      if groups[i] == 1 {
        continue;
      }
      if groups[i] != 2 || axis.Some? {
        return None;
      }
      axis := Some(i);
    }
  }

  /** The transpose that exchanges `first` and the dimension after it. */
  function SwapOf(first: nat, n: nat): seq<nat> {
    seq(n, i => if i == first then first + 1 else if i == first + 1 then first else i)
  }

  method IsSwap(perm: seq<nat>, first: nat) returns (ok: bool)
    ensures ok <==> perm == SwapOf(first, |perm|)
  {
    for i := 0 to |perm|
      invariant forall j | 0 <= j < i :: perm[j] == SwapOf(first, |perm|)[j]
    {
      var want := if i == first then first + 1 else if i == first + 1 then first else i;
      if perm[i] != want {
        return false;
      }
    }
    return true;
  }

  /** The dimensions of a collapsed shape, or the index of an element in it: each group of dimensions of `shape` becomes
      one, in row-major order. */
  function Merge(groups: seq<nat>, shape: seq<nat>, q: seq<nat>): (r: seq<nat>)
    requires |shape| == |q|
    ensures |r| == |groups|
  {
    if groups == [] then []
    else
      var n := groups[|groups| - 1];
      var cut := if n <= |q| then |q| - n else 0;
      Merge(groups[..|groups| - 1], shape[..cut], q[..cut]) + [Flat(shape[cut..], q[cut..])]
  }

  function Total(groups: seq<nat>): nat {
    if groups == [] then 0 else Total(groups[..|groups| - 1]) + groups[|groups| - 1]
  }

  lemma {:induction false} MergeSingles(groups: seq<nat>, shape: seq<nat>, q: seq<nat>)
    requires |shape| == |q| == |groups| && forall i | 0 <= i < |groups| :: groups[i] == 1
    ensures Merge(groups, shape, q) == q
  {
    if groups != [] {
      var last := |q| - 1;
      MergeSingles(groups[..last], shape[..last], q[..last]);
      assert Flat(shape[last..], q[last..]) == q[last] by {
        assert shape[last..] == [shape[last]] && q[last..] == [q[last]];
        FlatOne(shape[last], q[last]);
      }
    }
  }

  lemma MergeLast(groups: seq<nat>, shape: seq<nat>, q: seq<nat>)
    requires groups != [] && groups[|groups| - 1] <= |q| == |shape|
    ensures var last, cut := |groups| - 1, |q| - groups[|groups| - 1];
      Merge(groups, shape, q) == Merge(groups[..last], shape[..cut], q[..cut]) + [Flat(shape[cut..], q[cut..])]
  {
    hide Flat;
  }

  /** With one group of two, merging replaces its two coordinates by one. */
  lemma {:induction false} MergeSplit(groups: seq<nat>, shape: seq<nat>, q: seq<nat>, axis: nat)
    requires SoleSplit(groups, axis) && |shape| == |q| == |groups| + 1
    ensures Merge(groups, shape, q) == q[..axis] + [q[axis] * shape[axis + 1] + q[axis + 1]] + q[axis + 2..]
    decreases |groups|
  {
    hide Merge, Flat;
    var last := |groups| - 1;
    MergeLast(groups, shape, q);
    if axis == last {
      MergeSingles(groups[..last], shape[..last], q[..last]);
      assert shape[last..] == [shape[last], shape[last + 1]] && q[last..] == [q[last], q[last + 1]];
      FlatTwo(shape[last], shape[last + 1], q[last], q[last + 1]);
    } else {
      var head := q[..last + 1];
      MergeSplit(groups[..last], shape[..last + 1], head, axis);
      assert head[..axis] == q[..axis] && head[axis + 2..] + [q[last + 1]] == q[axis + 2..];
      assert shape[last + 1..] == [shape[last + 1]] && q[last + 1..] == [q[last + 1]];
      FlatOne(shape[last + 1], q[last + 1]);
    }
  }

  ghost predicate Expands(groups: seq<nat>, shape: seq<nat>, x: Tensor, into: Tensor) {
    forall q | InShape(shape, q) :: into(q) == x(Merge(groups, shape, q))
  }

  ghost predicate Transposes(perm: seq<nat>, shape: seq<nat>, x: Tensor, into: Tensor)
    requires forall d | 0 <= d < |perm| :: perm[d] < |shape|
  {
    forall q | InShape(shape, q) :: into(Permute(perm, q)) == x(q)
  }

  ghost predicate Collapses(groups: seq<nat>, shape: seq<nat>, x: Tensor, into: Tensor) {
    forall q | InShape(shape, q) :: into(Merge(groups, shape, q)) == x(q)
  }

  /** The coordinates of `q` with the one on the axis split in two. */
  function Parted(q: seq<nat>, axis: nat, i: nat, j: nat): seq<nat>
    requires axis < |q|
  {
    q[..axis] + [i, j] + q[axis + 1..]
  }

  lemma {:induction false} PartedSwap(q: seq<nat>, axis: nat, i: nat, j: nat)
    requires axis < |q|
    ensures Permute(SwapOf(axis, |q| + 1), Parted(q, axis, i, j)) == Parted(q, axis, j, i)
  {
  }

  lemma {:induction false} PartedMerge(groups: seq<nat>, shape: seq<nat>, q: seq<nat>, axis: nat, i: nat, j: nat)
    requires SoleSplit(groups, axis) && |q| == |groups| && |shape| == |q| + 1
    ensures Merge(groups, shape, Parted(q, axis, i, j)) == With(q, axis, i * shape[axis + 1] + j)
  {
    var p := Parted(q, axis, i, j);
    MergeSplit(groups, shape, p, axis);
    assert p[..axis] == q[..axis] && p[axis + 2..] == q[axis + 1..];
  }

  /** Split, swap, merge is the permutation of the axis. */
  lemma {:induction false} ShuffleIsPermutation(split: seq<nat>, merged: seq<nat>, shape: seq<nat>, axis: nat,
                                                x: Tensor, expanded: Tensor, swapped: Tensor, shuffled: Tensor, q: seq<nat>)
    requires SoleSplit(split, axis) && SoleSplit(merged, axis) && |split| == |merged| && |shape| == |split| + 1
    requires Expands(split, shape, x, expanded)
    requires Transposes(SwapOf(axis, |shape|), shape, expanded, swapped)
    requires Collapses(merged, Permute(SwapOf(axis, |shape|), shape), swapped, shuffled)
    requires InShape(shape[..axis] + [shape[axis] * shape[axis + 1]] + shape[axis + 2..], q)
    ensures shape[axis] > 0 && shuffled(q) == x(With(q, axis, Shuffled(shape[axis], shape[axis + 1], q[axis])))
  {
    hide Merge;
    var g, m, k := shape[axis], shape[axis + 1], q[axis];
    Digits(g, m, k);
    var i, j := k % g, k / g;
    var p, back := Parted(q, axis, i, j), Parted(q, axis, j, i);
    var swap := SwapOf(axis, |shape|);
    assert InShape(shape, p);
    PartedMerge(split, shape, q, axis, i, j);
    PartedSwap(q, axis, i, j);
    assert InShape(Permute(swap, shape), back);
    PartedMerge(merged, Permute(swap, shape), q, axis, j, i);
    assert With(q, axis, j * g + i) == q;
  }

  // What may stand between the shuffle and the convolution.

  /** A padding: the amounts below and above, whether those on a given axis are attributes, the extents of what is
      padded, and what the padding holds. */
  datatype Pad = Pad(low: seq<nat>, high: seq<nat>, attributes: seq<bool>, oneUse: bool, extents: seq<nat>, value: Tensor) {
    predicate Valid() {
      |low| == |high| == |attributes| == |extents|
    }
  }

  /** Nothing is added on the axis. */
  predicate Spares(pad: Pad, axis: nat)
    requires pad.Valid()
  {
    axis < |pad.low| && pad.attributes[axis] && pad.low[axis] == 0 && pad.high[axis] == 0
  }

  ghost predicate Within(pad: Pad, q: seq<nat>)
    requires pad.Valid()
  {
    |q| == |pad.low| && forall d | 0 <= d < |q| :: pad.low[d] <= q[d] < pad.low[d] + pad.extents[d]
  }

  ghost function Padded(x: Tensor, pad: Pad): Tensor
    requires pad.Valid()
  {
    (q: seq<nat>) => if Within(pad, q) then x(Moved(pad, q)) else pad.value(q)
  }

  /** Where an element inside the padding came from. */
  function Moved(pad: Pad, q: seq<nat>): (r: seq<nat>)
    requires pad.Valid()
    ensures |r| == |q|
  {
    seq(|q|, d requires 0 <= d < |q| => if d < |pad.low| && pad.low[d] <= q[d] then q[d] - pad.low[d] else q[d])
  }

  /** The tensor with the indices of one axis renamed. */
  function Renamed(x: Tensor, axis: nat, perm: nat -> nat): Tensor {
    (q: seq<nat>) => if axis < |q| then x(With(q, axis, perm(q[axis]))) else x(q)
  }

  ghost predicate MapsBelow(perm: nat -> nat, n: nat) {
    forall c: nat | c < n :: perm(c) < n
  }

  function PaddedShape(pad: Pad): (r: seq<nat>)
    requires pad.Valid()
    ensures |r| == |pad.low|
  {
    seq(|pad.low|, d requires 0 <= d < |pad.low| => pad.low[d] + pad.extents[d] + pad.high[d])
  }

  /** An element of the padded tensor; on the axis that is spared the padding adds none. */
  ghost predicate InPadded(pad: Pad, axis: nat, q: seq<nat>)
    requires pad.Valid() && Spares(pad, axis)
    ensures InPadded(pad, axis, q) ==> |q| == |pad.low| && q[axis] < pad.extents[axis]
  {
    InShape(PaddedShape(pad), q)
  }

  ghost predicate CommutesAt(pad: Pad, axis: nat, perm: nat -> nat, x: Tensor, q: seq<nat>)
    requires pad.Valid()
  {
    Padded(Renamed(x, axis, perm), pad)(q) == Renamed(Padded(x, pad), axis, perm)(q)
  }

  /** What the padding holds does not tell a channel from the one it is renamed to. */
  ghost predicate ChannelBlind(pad: Pad, axis: nat, perm: nat -> nat)
    requires pad.Valid() && Spares(pad, axis)
  {
    forall q | InPadded(pad, axis, q) && !Within(pad, q) :: BlindAt(pad, axis, perm, q)
  }

  ghost predicate BlindAt(pad: Pad, axis: nat, perm: nat -> nat, q: seq<nat>)
    requires axis < |q|
  {
    pad.value(q) == pad.value(With(q, axis, perm(q[axis])))
  }

  lemma {:induction false} WithinWith(pad: Pad, axis: nat, q: seq<nat>, c: nat)
    requires pad.Valid() && Spares(pad, axis) && InPadded(pad, axis, q) && c < pad.extents[axis]
    ensures Within(pad, With(q, axis, c)) <==> Within(pad, q)
    ensures Moved(pad, With(q, axis, c)) == With(Moved(pad, q), axis, c) && Moved(pad, q)[axis] == q[axis]
  {
    var r := With(q, axis, c);
    forall d | 0 <= d < |q| && d != axis ensures r[d] == q[d] {
    }
  }

  lemma {:induction false} CommutesWhen(pad: Pad, axis: nat, perm: nat -> nat, x: Tensor, q: seq<nat>)
    requires pad.Valid() && Spares(pad, axis) && MapsBelow(perm, pad.extents[axis]) && InPadded(pad, axis, q)
    ensures CommutesAt(pad, axis, perm, x, q) <==> (Within(pad, q) || BlindAt(pad, axis, perm, q))
  {
    WithinWith(pad, axis, q, perm(q[axis]));
    hide Within, Moved, With;
  }

  /** Padding the other axes commutes with renaming channels exactly when the padding is blind to them. The source
      assumes that of every padding it looks through. */
  lemma {:induction false} PadCommutesExactly(pad: Pad, axis: nat, perm: nat -> nat)
    requires pad.Valid() && Spares(pad, axis) && MapsBelow(perm, pad.extents[axis])
    ensures (forall x: Tensor, q | InPadded(pad, axis, q) :: CommutesAt(pad, axis, perm, x, q)) <==> ChannelBlind(pad, axis, perm)
  {
    hide Within, BlindAt, CommutesAt;
    if ChannelBlind(pad, axis, perm) {
      forall x: Tensor, q | InPadded(pad, axis, q) ensures CommutesAt(pad, axis, perm, x, q) {
        CommutesWhen(pad, axis, perm, x, q);
      }
    } else {
      var q :| InPadded(pad, axis, q) && !Within(pad, q) && !BlindAt(pad, axis, perm, q);
      CommutesWhen(pad, axis, perm, pad.value, q);
    }
  }

  /** The paddings from the shuffle outwards. */
  ghost function PadAll(x: Tensor, pads: seq<Pad>): Tensor
    requires forall i | 0 <= i < |pads| :: pads[i].Valid()
  {
    if pads == [] then x else Padded(PadAll(x, pads[..|pads| - 1]), pads[|pads| - 1])
  }

  /** The shape after all of them, each padding what the one before it made. */
  function ShapeAfter(shape: seq<nat>, pads: seq<Pad>): seq<nat>
    requires forall i | 0 <= i < |pads| :: pads[i].Valid()
  {
    if pads == [] then shape else PaddedShape(pads[|pads| - 1])
  }

  /** Paddings the shuffle can be seen through. */
  ghost predicate Transparent(pads: seq<Pad>, axis: nat, shape: seq<nat>, perm: nat -> nat) {
    && (forall i | 0 <= i < |pads| :: pads[i].Valid() && Spares(pads[i], axis) && ChannelBlind(pads[i], axis, perm))
    && forall i | 0 <= i < |pads| :: pads[i].extents == ShapeAfter(shape, pads[..i])
  }

  lemma {:induction false} PaddedCommutes(x: Tensor, y: Tensor, pad: Pad, axis: nat, perm: nat -> nat, q: seq<nat>)
    requires pad.Valid() && Spares(pad, axis) && ChannelBlind(pad, axis, perm)
    requires InPadded(pad, axis, q) && perm(q[axis]) < pad.extents[axis]
    requires Within(pad, q) ==> y(Moved(pad, q)) == x(With(Moved(pad, q), axis, perm(q[axis])))
    ensures Padded(y, pad)(q) == Padded(x, pad)(With(q, axis, perm(q[axis])))
  {
    WithinWith(pad, axis, q, perm(q[axis]));
    hide Within, Moved, With;
    if !Within(pad, q) {
      assert BlindAt(pad, axis, perm, q);
    }
  }

  lemma {:induction false} MovedInside(pad: Pad, axis: nat, q: seq<nat>)
    requires pad.Valid() && Spares(pad, axis) && InShape(PaddedShape(pad), q)
    ensures InPadded(pad, axis, q)
    ensures Within(pad, q) ==> InShape(pad.extents, Moved(pad, q)) && Moved(pad, q)[axis] == q[axis]
  {
  }

  lemma {:induction false} AxisKept(shape: seq<nat>, pads: seq<Pad>, axis: nat, perm: nat -> nat)
    requires Transparent(pads, axis, shape, perm) && axis < |shape|
    ensures |ShapeAfter(shape, pads)| == |shape| && ShapeAfter(shape, pads)[axis] == shape[axis]
    decreases |pads|
  {
    if pads != [] {
      var inner := pads[..|pads| - 1];
      forall i | 0 <= i < |inner| ensures inner[i].extents == ShapeAfter(shape, inner[..i]) {
        assert inner[..i] == pads[..i];
      }
      AxisKept(shape, inner, axis, perm);
    }
  }

  /** Renaming the channels of what is padded renames those of the result. */
  lemma {:induction false} PadAllCommutes(x: Tensor, y: Tensor, pads: seq<Pad>, axis: nat, shape: seq<nat>, perm: nat -> nat, q: seq<nat>)
    requires Transparent(pads, axis, shape, perm) && axis < |shape| && MapsBelow(perm, shape[axis])
    requires InShape(ShapeAfter(shape, pads), q)
    requires forall i | InShape(shape, i) :: y(i) == x(With(i, axis, perm(i[axis])))
    ensures |q| == |shape| && PadAll(y, pads)(q) == PadAll(x, pads)(With(q, axis, perm(q[axis])))
    decreases |pads|
  {
    hide Within, Moved, With, Padded, PaddedShape, ChannelBlind, ShapeAfter, Transparent, InPadded, InShape, MapsBelow;
    AxisKept(shape, pads, axis, perm);
    if pads == [] {
      NoPads(shape, axis, perm, q);
    } else {
      var inner, pad := pads[..|pads| - 1], pads[|pads| - 1];
      InnerPads(pads, axis, shape, perm);
      AxisKept(shape, inner, axis, perm);
      MovedInside(pad, axis, q);
      ShapeLength(pad.extents, axis, q, pad);
      if Within(pad, q) {
        PadAllCommutes(x, y, inner, axis, shape, perm, Moved(pad, q));
      }
      Mapped(perm, shape[axis], q[axis]);
      PaddedCommutes(PadAll(x, inner), PadAll(y, inner), pad, axis, perm, q);
    }
  }

  lemma NoPads(shape: seq<nat>, axis: nat, perm: nat -> nat, q: seq<nat>)
    requires InShape(ShapeAfter(shape, []), q)
    ensures InShape(shape, q) && |q| == |shape|
  {
  }

  lemma Mapped(perm: nat -> nat, n: nat, c: nat)
    requires MapsBelow(perm, n) && c < n
    ensures perm(c) < n
  {
  }

  lemma ShapeLength(shape: seq<nat>, axis: nat, q: seq<nat>, pad: Pad)
    requires pad.Valid() && Spares(pad, axis) && InPadded(pad, axis, q) && shape == pad.extents
    ensures |q| == |shape| && q[axis] < shape[axis]
  {
  }

  lemma InnerPads(pads: seq<Pad>, axis: nat, shape: seq<nat>, perm: nat -> nat)
    requires Transparent(pads, axis, shape, perm) && pads != []
    ensures var inner, pad := pads[..|pads| - 1], pads[|pads| - 1];
      && (forall i | 0 <= i < |inner| :: inner[i].Valid()) && Transparent(inner, axis, shape, perm)
      && pad.Valid() && Spares(pad, axis) && ChannelBlind(pad, axis, perm)
      && pad.extents == ShapeAfter(shape, inner) && ShapeAfter(shape, pads) == PaddedShape(pad)
  {
    var inner := pads[..|pads| - 1];
    LastPad(pads, shape);
    hide ChannelBlind, Spares, ShapeAfter, PaddedShape, Pad.Valid;
    forall i | 0 <= i < |inner| ensures inner[i] == pads[i] && inner[..i] == pads[..i] {
    }
  }

  lemma LastPad(pads: seq<Pad>, shape: seq<nat>)
    requires pads != [] && forall i | 0 <= i < |pads| :: pads[i].Valid()
    ensures ShapeAfter(shape, pads) == PaddedShape(pads[|pads| - 1])
  {
  }

  // The convolutions.

  datatype Kind = NchwFchw | NhwcHwcf

  function InputAxis(kind: Kind): nat { if kind == NchwFchw then 1 else 3 }

  function FilterAxis(kind: Kind): nat { if kind == NchwFchw then 1 else 2 }

  datatype Window = Window(sh: nat, sw: nat, dh: nat, dw: nat, kh: nat, kw: nat)

  /** The input element that channel `c` and tap `t` of result element `o` read. */
  function InputAt(kind: Kind, w: Window, o: seq<nat>, c: nat, t: nat): (q: seq<nat>)
    requires |o| == 4
    ensures |q| == 4 && q[InputAxis(kind)] == c
  {
    if kind == NchwFchw then [o[0], c, Reach(o[2], w.sh, TapRow(w, t), w.dh), Reach(o[3], w.sw, TapColumn(w, t), w.dw)]
    else [o[0], Reach(o[1], w.sh, TapRow(w, t), w.dh), Reach(o[2], w.sw, TapColumn(w, t), w.dw), c]
  }

  function Reach(y: nat, stride: nat, k: nat, dilation: nat): nat { y * stride + k * dilation }

  function TapRow(w: Window, t: nat): nat { if w.kw == 0 then 0 else t / w.kw }

  function TapColumn(w: Window, t: nat): nat { if w.kw == 0 then 0 else t % w.kw }

  /** The filter element it meets. */
  function FilterAt(kind: Kind, w: Window, o: seq<nat>, c: nat, t: nat): (q: seq<nat>)
    requires |o| == 4
    ensures |q| == 4 && q[FilterAxis(kind)] == c
  {
    if kind == NchwFchw then [o[1], c, TapRow(w, t), TapColumn(w, t)] else [TapRow(w, t), TapColumn(w, t), c, o[3]]
  }

  ghost function Weight(fs: seq<nat>, filter: seq<real>, q: seq<nat>): real {
    if InShape(fs, q) && Flat(fs, q) < |filter| then filter[Flat(fs, q)] else 0.0
  }

  ghost function Term(kind: Kind, w: Window, x: Tensor, fs: seq<nat>, filter: seq<real>, o: seq<nat>, c: nat, t: nat): real
    requires |o| == 4
  {
    RTimes(x(InputAt(kind, w, o, c, t)), Weight(fs, filter, FilterAt(kind, w, o, c, t)))
  }

  /** What one input channel contributes to a result element. */
  ghost function Channel(kind: Kind, w: Window, x: Tensor, fs: seq<nat>, filter: seq<real>, o: seq<nat>, c: nat): real
    requires |o| == 4
  {
    RSum(w.kh * w.kw, (t: nat) => Term(kind, w, x, fs, filter, o, c, t))
  }

  ghost function Convolve(kind: Kind, w: Window, channels: nat, x: Tensor, fs: seq<nat>, filter: seq<real>, init: real, o: seq<nat>): real
    requires |o| == 4
  {
    init + RSum(channels, (c: nat) => Channel(kind, w, x, fs, filter, o, c))
  }

  /** A filter with a single weight, at row `i` and column `j`, from channel `c` to the channel of result element `o`. */
  ghost predicate OneTap(kind: Kind, w: Window, channels: nat, fs: seq<nat>, filter: seq<real>, o: seq<nat>, c: nat, i: nat, j: nat, weight: real) {
    && |o| == |fs| == 4 && c < channels && i < w.kh && j < w.kw && |filter| == Volume(fs)
    && match kind {
      case NchwFchw =>
        fs[1..] == [channels, w.kh, w.kw] && o[1] < fs[0]
        && forall t: nat | t < |filter| :: filter[t] == if t == Flat(fs, [o[1], c, i, j]) then weight else 0.0
      case NhwcHwcf =>
        fs[..3] == [w.kh, w.kw, channels] && o[3] < fs[3]
        && forall t: nat | t < |filter| :: filter[t] == if t == Flat(fs, [i, j, c, o[3]]) then weight else 0.0
    }
  }

  /** Where that weight is. */
  function TapPlace(kind: Kind, o: seq<nat>, c: nat, i: nat, j: nat): seq<nat>
    requires |o| == 4
  {
    if kind == NchwFchw then [o[1], c, i, j] else [i, j, c, o[3]]
  }

  lemma {:induction false} TapPlaces(kind: Kind, w: Window, channels: nat, fs: seq<nat>, filter: seq<real>, o: seq<nat>, c: nat, i: nat, j: nat,
                                     weight: real, c': nat, t: nat)
    requires OneTap(kind, w, channels, fs, filter, o, c, i, j, weight) && c' < channels && t < w.kh * w.kw
    ensures InShape(fs, TapPlace(kind, o, c, i, j)) && InShape(fs, FilterAt(kind, w, o, c', t))
    ensures FilterAt(kind, w, o, c', t) == TapPlace(kind, o, c, i, j) <==> c' == c && t == i * w.kw + j
  {
    hide Flat, Volume;
    DivBound(t, w.kh, w.kw);
    DivModUnique(i, j, w.kw);
    assert fs == if kind == NchwFchw then [fs[0], channels, w.kh, w.kw] else [w.kh, w.kw, channels, fs[3]];
    var p, q := TapPlace(kind, o, c, i, j), FilterAt(kind, w, o, c', t);
    assert p == q ==> p[0] == q[0] && p[1] == q[1] && p[2] == q[2] && p[3] == q[3];
  }

  lemma {:induction false} OneWeight(kind: Kind, w: Window, channels: nat, fs: seq<nat>, filter: seq<real>, o: seq<nat>, c: nat, i: nat, j: nat,
                                     weight: real, c': nat, t: nat)
    requires OneTap(kind, w, channels, fs, filter, o, c, i, j, weight) && c' < channels && t < w.kh * w.kw
    ensures Weight(fs, filter, FilterAt(kind, w, o, c', t)) == if c' == c && t == i * w.kw + j then weight else 0.0
  {
    TapPlaces(kind, w, channels, fs, filter, o, c, i, j, weight, c', t);
    hide Flat, Volume, FilterAt;
    var p, q := TapPlace(kind, o, c, i, j), FilterAt(kind, w, o, c', t);
    FlatBound(fs, q);
    FlatInjective(fs, p, q);
  }

  /** What a convolution reads in either layout: with a single weight it scales the one element that the tap stands over. */
  lemma {:induction false} OneTapConvolves(kind: Kind, w: Window, channels: nat, x: Tensor, fs: seq<nat>, filter: seq<real>, init: real, o: seq<nat>,
                                           c: nat, i: nat, j: nat, weight: real)
    requires OneTap(kind, w, channels, fs, filter, o, c, i, j, weight)
    ensures Convolve(kind, w, channels, x, fs, filter, init, o) == init + RTimes(weight,
      x(if kind == NchwFchw then [o[0], c, o[2] * w.sh + i * w.dh, o[3] * w.sw + j * w.dw]
        else [o[0], o[1] * w.sh + i * w.dh, o[2] * w.sw + j * w.dw, c]))
  {
    hide OneTap, Weight, FilterAt;
    TapWithin(kind, w, channels, fs, filter, o, c, i, j, weight);
    var tap := i * w.kw + j;
    PairBound(i, w.kh, j, w.kw);
    DivModUnique(i, j, w.kw);
    forall c': nat, t: nat | c' < channels && t < w.kh * w.kw && (c' != c || t != tap) ensures Term(kind, w, x, fs, filter, o, c', t) == 0.0 {
      OneWeight(kind, w, channels, fs, filter, o, c, i, j, weight, c', t);
    }
    OneWeight(kind, w, channels, fs, filter, o, c, i, j, weight, c, tap);
    hide Term;
    forall c': nat | c' < channels && c' != c ensures Channel(kind, w, x, fs, filter, o, c') == 0.0 {
      RSumZero(w.kh * w.kw, (t: nat) => Term(kind, w, x, fs, filter, o, c', t));
    }
    RSumSingle(w.kh * w.kw, (t: nat) => Term(kind, w, x, fs, filter, o, c, t), tap);
    RSumSingle(channels, (c': nat) => Channel(kind, w, x, fs, filter, o, c'), c);
    TapTerm(kind, w, x, fs, filter, o, c, i, j);
  }

  lemma TapWithin(kind: Kind, w: Window, channels: nat, fs: seq<nat>, filter: seq<real>, o: seq<nat>, c: nat, i: nat, j: nat, weight: real)
    requires OneTap(kind, w, channels, fs, filter, o, c, i, j, weight)
    ensures |o| == |fs| == 4 && c < channels && i < w.kh && j < w.kw
  {
  }

  lemma TapTerm(kind: Kind, w: Window, x: Tensor, fs: seq<nat>, filter: seq<real>, o: seq<nat>, c: nat, i: nat, j: nat)
    requires |o| == 4 && i < w.kh && j < w.kw
    ensures Term(kind, w, x, fs, filter, o, c, i * w.kw + j)
         == RTimes(Weight(fs, filter, FilterAt(kind, w, o, c, i * w.kw + j)),
              x(if kind == NchwFchw then [o[0], c, o[2] * w.sh + i * w.dh, o[3] * w.sw + j * w.dw]
                else [o[0], o[1] * w.sh + i * w.dh, o[2] * w.sw + j * w.dw, c]))
  {
    hide Weight, FilterAt;
    DivModUnique(i, j, w.kw);
  }

  function Table(g: nat, m: nat): nat -> nat {
    (k: nat) => if g > 0 then Shuffled(g, m, k) else 0
  }

  /** Channel `k` of the shuffled convolution is channel `Shuffled(k)` of the folded one. */
  lemma {:induction false} ChannelMoves(kind: Kind, w: Window, g: nat, m: nat, x: Tensor, y: Tensor, shape: seq<nat>, fs: seq<nat>, filter: seq<real>,
                                        folded: seq<real>, o: seq<nat>, k: nat)
    requires g > 0 && m > 0 && |o| == 4 && |fs| == 4 && fs[FilterAxis(kind)] == g * m && k < g * m
    requires |shape| == 4 && forall q | InShape(shape, q) :: y(q) == x(With(q, InputAxis(kind), Table(g, m)(q[InputAxis(kind)])))
    requires forall t: nat | t < w.kh * w.kw :: InShape(shape, InputAt(kind, w, o, k, t))
    requires AxisPermuted(folded, filter, fs, FilterAxis(kind), Table(m, g))
    ensures Channel(kind, w, y, fs, filter, o, k) == Channel(kind, w, x, fs, folded, o, Shuffled(g, m, k))
  {
    hide Term, Shuffled;
    forall t: nat | t < w.kh * w.kw ensures Term(kind, w, y, fs, filter, o, k, t) == Term(kind, w, x, fs, folded, o, Shuffled(g, m, k), t) {
      TermMoves(kind, w, g, m, x, y, shape, fs, filter, folded, o, k, t);
    }
    RSumExt(w.kh * w.kw, (t: nat) => Term(kind, w, y, fs, filter, o, k, t),
            (t: nat) => Term(kind, w, x, fs, folded, o, Shuffled(g, m, k), t));
  }

  lemma {:induction false} TermMoves(kind: Kind, w: Window, g: nat, m: nat, x: Tensor, y: Tensor, shape: seq<nat>, fs: seq<nat>, filter: seq<real>,
                                     folded: seq<real>, o: seq<nat>, k: nat, t: nat)
    requires g > 0 && m > 0 && |o| == 4 && |fs| == 4 && fs[FilterAxis(kind)] == g * m && k < g * m
    requires |shape| == 4 && forall q | InShape(shape, q) :: y(q) == x(With(q, InputAxis(kind), Table(g, m)(q[InputAxis(kind)])))
    requires InShape(shape, InputAt(kind, w, o, k, t))
    requires AxisPermuted(folded, filter, fs, FilterAxis(kind), Table(m, g))
    ensures Term(kind, w, y, fs, filter, o, k, t) == Term(kind, w, x, fs, folded, o, Shuffled(g, m, k), t)
  {
    var c := Shuffled(g, m, k);
    ShuffledInverse(g, m, k);
    assert Table(g, m)(k) == c && Table(m, g)(c) == k;
    InputMoves(kind, w, o, k, c, t);
    FilterMoves(kind, w, o, c, k, t);
    hide Shuffled, Table, With, InputAt, FilterAt, Weight, AxisPermuted, InputAxis, FilterAxis, RTimes;
    var place := InputAt(kind, w, o, k, t);
    assert y(place) == x(With(place, InputAxis(kind), Table(g, m)(place[InputAxis(kind)])));
    WeightMoves(fs, FilterAxis(kind), filter, folded, Table(m, g), FilterAt(kind, w, o, c, t), k);
  }

  lemma InputMoves(kind: Kind, w: Window, o: seq<nat>, k: nat, c: nat, t: nat)
    requires |o| == 4
    ensures With(InputAt(kind, w, o, k, t), InputAxis(kind), c) == InputAt(kind, w, o, c, t)
  {
    hide Reach, TapRow, TapColumn;
  }

  lemma FilterMoves(kind: Kind, w: Window, o: seq<nat>, k: nat, c: nat, t: nat)
    requires |o| == 4
    ensures With(FilterAt(kind, w, o, k, t), FilterAxis(kind), c) == FilterAt(kind, w, o, c, t)
  {
    hide TapRow, TapColumn;
  }

  lemma WeightMoves(fs: seq<nat>, axis: nat, filter: seq<real>, folded: seq<real>, perm: nat -> nat, q: seq<nat>, k: nat)
    requires axis < |fs| && |q| == |fs|
    requires AxisPermuted(folded, filter, fs, axis, perm) && q[axis] < fs[axis] && perm(q[axis]) == k < fs[axis]
    ensures Weight(fs, folded, q) == Weight(fs, filter, With(q, axis, k))
  {
    hide Flat;
    var r := With(q, axis, k);
    assert InShape(fs, q) <==> InShape(fs, r);
    if InShape(fs, q) {
      assert folded[Flat(fs, q)] == filter[Flat(fs, r)];
    }
  }

  /** A convolution of the shuffled input is the convolution of the original with the filter's input channels permuted
      by the inverse. */
  lemma {:induction false} ShuffleFoldsIntoFilter(kind: Kind, w: Window, g: nat, m: nat, x: Tensor, y: Tensor, shape: seq<nat>, fs: seq<nat>,
                                                  filter: seq<real>, folded: seq<real>, init: real, o: seq<nat>)
    requires g > 0 && m > 0 && |o| == 4 && |fs| == 4 && fs[FilterAxis(kind)] == g * m
    requires |shape| == 4 && forall q | InShape(shape, q) :: y(q) == x(With(q, InputAxis(kind), Table(g, m)(q[InputAxis(kind)])))
    requires forall c: nat, t: nat | c < g * m && t < w.kh * w.kw :: InShape(shape, InputAt(kind, w, o, c, t))
    requires AxisPermuted(folded, filter, fs, FilterAxis(kind), Table(m, g))
    ensures Convolve(kind, w, g * m, y, fs, filter, init, o) == Convolve(kind, w, g * m, x, fs, folded, init, o)
  {
    hide Channel, Shuffled;
    var before, after := (c: nat) => Channel(kind, w, y, fs, filter, o, c), (c: nat) => Channel(kind, w, x, fs, folded, o, c);
    forall k: nat | k < g * m ensures before(k) == after(Table(g, m)(k)) {
      ChannelMoves(kind, w, g, m, x, y, shape, fs, filter, folded, o, k);
    }
    assert Permutes(g * m, Table(g, m), Table(m, g)) by {
      forall k: nat | k < g * m
        ensures Table(g, m)(k) < g * m && Table(m, g)(k) < g * m
        ensures Table(m, g)(Table(g, m)(k)) == k && Table(g, m)(Table(m, g)(k)) == k
      {
        ShuffledInverse(g, m, k);
        ShuffledInverse(m, g, k);
      }
    }
    RSumPermute(g * m, after, before, Table(g, m), Table(m, g));
  }

  // The rewrite.

  /** What stands between the source and the convolution: a split, a transpose, a merge, and paddings outside them.
      `shape` is the split shape. */
  datatype Chain = Chain(split: seq<nat>, splitOneUse: bool, shape: seq<nat>, swap: seq<nat>, swapOneUse: bool,
                         merged: seq<nat>, mergedOneUse: bool, pads: seq<Pad>) {
    ghost predicate Valid() {
      && |shape| == |swap| == Total(split) == Total(merged)
      && forall i | 0 <= i < |pads| :: pads[i].Valid()
    }
  }

  ghost predicate Recognized(chain: Chain, axis: nat)
    requires chain.Valid()
  {
    && (forall i | 0 <= i < |chain.pads| :: chain.pads[i].oneUse && Spares(chain.pads[i], axis))
    && chain.mergedOneUse && SoleSplit(chain.merged, axis)
    && chain.swapOneUse && chain.swap == SwapOf(axis, |chain.swap|)
    && chain.splitOneUse && SoleSplit(chain.split, axis)
    && axis + 1 < |chain.shape| && chain.shape[axis] >= 1 && chain.shape[axis + 1] >= 1
  }

  lemma {:induction false} TotalSplit(groups: seq<nat>, axis: nat)
    requires SoleSplit(groups, axis)
    ensures Total(groups) == |groups| + 1
    decreases |groups|
  {
    var last := |groups| - 1;
    if axis < last {
      TotalSplit(groups[..last], axis);
    } else {
      TotalSingles(groups[..last]);
    }
  }

  lemma {:induction false} TotalSingles(groups: seq<nat>)
    requires forall i | 0 <= i < |groups| :: groups[i] == 1
    ensures Total(groups) == |groups|
  {
    if groups != [] {
      TotalSingles(groups[..|groups| - 1]);
    }
  }

  /** `channelShuffleOf`: the number of groups and their size. */
  method ChannelShuffleOf(chain: Chain, axis: nat) returns (r: Option<(nat, nat)>)
    requires chain.Valid()
    ensures r.Some? <==> Recognized(chain, axis)
    ensures r.Some? ==> r.value == (chain.shape[axis], chain.shape[axis + 1])
    ensures r.Some? ==> chain.splitOneUse && chain.swapOneUse && chain.mergedOneUse
    ensures r.Some? ==> forall i | 0 <= i < |chain.pads| ::
      var pad := chain.pads[i]; axis < |pad.low| && pad.oneUse && pad.attributes[axis] && pad.low[axis] == 0 && pad.high[axis] == 0
  {
    for n := |chain.pads| downto 0
      invariant forall i | n <= i < |chain.pads| :: chain.pads[i].oneUse && Spares(chain.pads[i], axis)
    {
      var pad := chain.pads[n];
      if !pad.oneUse || axis >= |pad.low| {
        return None;
      }
      if !pad.attributes[axis] || pad.low[axis] != 0 || pad.high[axis] != 0 {
        return None;
      }
    }
    if !chain.mergedOneUse {
      return None;
    }
    var merged := SoleSplitAxis(chain.merged);
    if merged != Some(axis) {
      OneSplit(chain.merged, axis, merged);
      return None;
    }
    if !chain.swapOneUse {
      return None;
    }
    var swaps := IsSwap(chain.swap, axis);
    if !swaps || !chain.splitOneUse {
      return None;
    }
    var split := SoleSplitAxis(chain.split);
    if split != Some(axis) {
      OneSplit(chain.split, axis, split);
      return None;
    }
    TotalSplit(chain.split, axis);
    var g, m := chain.shape[axis], chain.shape[axis + 1];
    if g < 1 || m < 1 {
      return None;
    }
    return Some((g, m));
  }

  lemma OneSplit(groups: seq<nat>, axis: nat, found: Option<nat>)
    requires found.Some? ==> SoleSplit(groups, found.value)
    requires found.None? ==> forall a: nat :: !SoleSplit(groups, a)
    ensures found != Some(axis) ==> !SoleSplit(groups, axis)
  {
  }

  /** The rewrite: the filter for the convolution that reads the source directly. */
  method FoldIntoFilter(chain: Chain, kind: Kind, fs: seq<nat>, filter: seq<real>) returns (made: Option<array<real>>)
    requires chain.Valid() && |filter| == Volume(fs) > 0
    ensures made.Some? <==>
      && Recognized(chain, InputAxis(kind)) && |fs| > FilterAxis(kind)
      && fs[FilterAxis(kind)] == chain.shape[InputAxis(kind)] * chain.shape[InputAxis(kind) + 1]
    ensures made.Some? ==>
      AxisPermuted(made.value[..], filter, fs, FilterAxis(kind), Table(chain.shape[InputAxis(kind) + 1], chain.shape[InputAxis(kind)]))
  {
    var shuffle := ChannelShuffleOf(chain, InputAxis(kind));
    if shuffle.None? {
      return None;
    }
    var (g, m) := shuffle.value;
    var perm := BuildPermutation(g, m);
    if |fs| <= FilterAxis(kind) || fs[FilterAxis(kind)] != perm.Length {
      return None;
    }
    var inverse := Invert(perm, g, m);
    forall c: nat | c < g * m ensures Table(m, g)(c) < g * m {
      ShuffledInverse(m, g, c);
    }
    var out := PermuteAxis(filter, fs, FilterAxis(kind), inverse, Table(m, g));
    return Some(out);
  }

  /** The whole pattern is exact: whatever the source holds, the convolution of the padded shuffle and the convolution
      of the padded source with the new filter agree on every element whose window lies in the padded input. */
  lemma {:induction false} FoldSound(chain: Chain, kind: Kind, w: Window, x: Tensor, expanded: Tensor, swapped: Tensor, shuffled: Tensor,
                                     shape: seq<nat>, fs: seq<nat>, filter: seq<real>, folded: seq<real>, init: real, o: seq<nat>)
    requires chain.Valid() && Recognized(chain, InputAxis(kind)) && |chain.shape| == 5
    requires Expands(chain.split, chain.shape, x, expanded)
    requires Transposes(chain.swap, chain.shape, expanded, swapped)
    requires Collapses(chain.merged, Permute(chain.swap, chain.shape), swapped, shuffled)
    requires var axis := InputAxis(kind);
      var g, m := chain.shape[axis], chain.shape[axis + 1];
      && shape == chain.shape[..axis] + [g * m] + chain.shape[axis + 2..]
      && Transparent(chain.pads, axis, shape, Table(g, m))
      && |fs| == 4 && fs[FilterAxis(kind)] == g * m
      && AxisPermuted(folded, filter, fs, FilterAxis(kind), Table(m, g))
      && |o| == 4 && forall c: nat, t: nat | c < g * m && t < w.kh * w.kw ::
           InShape(ShapeAfter(shape, chain.pads), InputAt(kind, w, o, c, t))
    ensures var channels := chain.shape[InputAxis(kind)] * chain.shape[InputAxis(kind) + 1];
      Convolve(kind, w, channels, PadAll(shuffled, chain.pads), fs, filter, init, o)
      == Convolve(kind, w, channels, PadAll(x, chain.pads), fs, folded, init, o)
  {
    var axis := InputAxis(kind);
    var g, m := chain.shape[axis], chain.shape[axis + 1];
    TotalSplit(chain.split, axis);
    TotalSplit(chain.merged, axis);
    hide Shuffled, Expands, Transposes, Collapses, Transparent, AxisPermuted, Convolve, PadAll, ShapeAfter, Recognized, InputAt;
    forall q | InShape(shape, q) ensures shuffled(q) == x(With(q, axis, Table(g, m)(q[axis]))) {
      ShuffleIsPermutation(chain.split, chain.merged, chain.shape, axis, x, expanded, swapped, shuffled, q);
    }
    assert MapsBelow(Table(g, m), g * m) by {
      forall k: nat | k < g * m ensures Table(g, m)(k) < g * m {
        ShuffledInverse(g, m, k);
      }
    }
    AxisKept(shape, chain.pads, axis, Table(g, m));
    var padded := ShapeAfter(shape, chain.pads);
    forall q | InShape(padded, q)
      ensures PadAll(shuffled, chain.pads)(q) == PadAll(x, chain.pads)(With(q, axis, Table(g, m)(q[axis])))
    {
      PadAllCommutes(x, shuffled, chain.pads, axis, shape, Table(g, m), q);
    }
    ShuffleFoldsIntoFilter(kind, w, g, m, PadAll(x, chain.pads), PadAll(shuffled, chain.pads), padded, fs, filter, folded, init, o);
  }

  // A chain that is recognized although its padding tells channels apart.

  /** One row below, holding in each channel the channel's number. */
  function Telling(): Pad {
    Pad([0, 0, 1, 0], [0, 0, 0, 0], [true, true, true, true], true, [1, 4, 1, 1],
        (q: seq<nat>) => if |q| == 4 then q[1] as real else 0.0)
  }

  /** Four channels in two groups, shuffled and then padded. */
  function TellingChain(): Chain {
    Chain([1, 2, 1, 1], true, [1, 2, 2, 1, 1], [0, 2, 1, 3, 4], true, [1, 2, 1, 1], true, [Telling()])
  }

  lemma {:induction false} TotalFour(a: nat, b: nat, c: nat, d: nat)
    ensures Total([a, b, c, d]) == a + b + c + d
  {
    var groups: seq<nat>, three: seq<nat>, two: seq<nat>, one: seq<nat> := [a, b, c, d], [a, b, c], [a, b], [a];
    assert groups[..3] == three && three[..2] == two && two[..1] == one && one[..0] == [];
    assert Total(one) == a && Total(two) == a + b && Total(three) == a + b + c;
  }

  lemma {:induction false} TellingRecognized()
    ensures TellingChain().Valid() && Recognized(TellingChain(), 1)
  {
    TotalFour(1, 2, 1, 1);
    var swap: seq<nat> := [0, 2, 1, 3, 4];
    assert swap == SwapOf(1, 5);
  }

  lemma TellingShape()
    ensures var pad := Telling(); pad.Valid() && Spares(pad, 1) && pad.low == [0, 0, 1, 0] && pad.extents == [1, 4, 1, 1]
    ensures var pad := Telling(); PaddedShape(pad) == [1, 4, 2, 1] && forall q: seq<nat> | |q| == 4 :: pad.value(q) == q[1] as real
  {
  }

  lemma TellingOutside()
    ensures Telling().Valid() && Spares(Telling(), 1)
    ensures InPadded(Telling(), 1, [0, 1, 0, 0]) && !Within(Telling(), [0, 1, 0, 0])
  {
    hide Telling;
    TellingShape();
    var q: seq<nat> := [0, 1, 0, 0];
    assert Telling().low[2] == 1 && q[2] == 0;
  }

  lemma TellingValues()
    ensures Telling().value([0, 1, 0, 0]) == 1.0 && Telling().value(With([0, 1, 0, 0], 1, 2)) == 2.0
  {
  }

  /** In the row added, the second channel is taken for the third. */
  lemma {:induction false} TellingNotBlind()
    ensures Telling().Valid() && Spares(Telling(), 1) && !ChannelBlind(Telling(), 1, Table(2, 2))
  {
    hide Telling, Shuffled, InPadded, Within, With;
    TellingOutside();
    TellingValues();
    ShuffledAt(2, 2, 1, 0);
    var q: seq<nat> := [0, 1, 0, 0];
    assert Table(2, 2)(q[1]) == 2;
    assert !BlindAt(Telling(), 1, Table(2, 2), q);
  }

  /** The padding is taken for one the shuffle can be seen through, and is not. */
  lemma {:induction false} TellingTells()
    ensures TellingChain().Valid() && Recognized(TellingChain(), 1) && TellingChain().pads == [Telling()]
    ensures Telling().Valid() && Spares(Telling(), 1)
    ensures !forall x: Tensor, q | InPadded(Telling(), 1, q) :: CommutesAt(Telling(), 1, Table(2, 2), x, q)
  {
    TellingRecognized();
    TellingShape();
    TellingNotBlind();
    hide Telling, Shuffled;
    forall c: nat | c < 4 ensures Table(2, 2)(c) < 4 {
      ShuffledInverse(2, 2, c);
    }
    PadCommutesExactly(Telling(), 1, Table(2, 2));
  }
}
