/** Fills that become `memset`s (`lib/Transforms/FillToMemset/FillToMemsetPass.cpp`). */
module FillToMemset {
  import opened Arith
  import opened Memory
  import opened Odometer
  import opened RowMajor
  import opened Wrappers

  const LEAST_RUN_BYTES := 64
  const WIDEST := 64

  // The repeated byte.

  /** Byte `b` of a constant, the lowest first. */
  function NthByte(raw: nat, b: nat): byte {
    if b == 0 then (raw % 0x100) as byte else NthByte(raw / 0x100, b - 1)
  }

  /** `repeatedByte`, of the bits of an integer or a float constant. */
  method RepeatedByte(width: nat, raw: nat) returns (r: Option<byte>)
    requires width > 0
    ensures r.Some? <==> width % 8 == 0 && width <= 64 && forall b: nat | b < width / 8 :: NthByte(raw, b) == NthByte(raw, 0)
    ensures r.Some? ==> forall b: nat | b < width / 8 :: NthByte(raw, b) == r.value
  {
    if width % 8 != 0 || width > WIDEST {
      return None;
    }
    var first: byte, rest: nat := (raw % 0x100) as byte, raw / 0x100;
    for b := 1 to width / 8
      invariant forall c: nat | c < b :: NthByte(raw, c) == first
      invariant forall c: nat :: NthByte(raw, b + c) == NthByte(rest, c)
    {
      assert NthByte(raw, b + 0) == NthByte(rest, 0);
      if (rest % 0x100) as byte != first {
        return None;
      }
      forall c: nat ensures NthByte(raw, b + 1 + c) == NthByte(rest / 0x100, c) {
        assert NthByte(raw, b + (c + 1)) == NthByte(rest, c + 1);
      }
      rest := rest / 0x100;
    }
    return Some(first);
  }

  // Contiguity.

  /** Every dimension from `k` on that steps does so by what is inside it. */
  ghost predicate PackedFrom(sizes: seq<nat>, strides: seq<int>, k: nat)
    requires |strides| == |sizes|
  {
    forall d | k <= d < |sizes| && sizes[d] != 1 :: strides[d] == Volume(sizes[d + 1..])
  }

  lemma {:induction false} VolumeHead(sizes: seq<nat>, d: nat)
    requires d < |sizes|
    ensures Volume(sizes[d..]) == sizes[d] * Volume(sizes[d + 1..])
  {
    assert sizes[d..] == [sizes[d]] + sizes[d + 1..];
    VolumeSplit([sizes[d]], sizes[d + 1..]);
    assert [sizes[d]][..0] == [];
  }

  /** `isContiguous`, of a static layout. */
  method IsContiguous(sizes: seq<nat>, strides: seq<int>, bits: nat) returns (ok: bool)
    requires |strides| == |sizes|
    ensures ok <==> PackedFrom(sizes, strides, 0) && bits % 8 == 0
  {
    hide Volume;
    var packed := 1;
    EmptyVolume(sizes);
    for d := |sizes| downto 0
      invariant packed == Volume(sizes[d..]) && PackedFrom(sizes, strides, d)
    {
      VolumeHead(sizes, d);
      if sizes[d] == 1 {
        continue;
      }
      if strides[d] != packed {
        return false;
      }
      packed := packed * sizes[d];
    }
    return bits % 8 == 0;
  }

  lemma EmptyVolume(sizes: seq<nat>)
    ensures Volume(sizes[|sizes|..]) == 1
  {
    assert sizes[|sizes|..] == [];
  }

  /** The packed suffix starts at `k` and cannot start earlier. */
  ghost predicate LongestRun(sizes: seq<nat>, strides: seq<int>, k: nat)
    requires |strides| == |sizes|
  {
    k <= |sizes| && PackedFrom(sizes, strides, k) && (k > 0 ==> !PackedFrom(sizes, strides, k - 1))
  }

  /** `contiguousRun`: how many trailing dimensions, and how many elements. */
  method ContiguousRun(sizes: seq<nat>, strides: seq<int>) returns (dims: nat, packed: nat)
    requires |strides| == |sizes|
    ensures dims <= |sizes| && LongestRun(sizes, strides, |sizes| - dims) && packed == Volume(sizes[|sizes| - dims..])
  {
    hide Volume;
    packed, dims := 1, 0;
    EmptyVolume(sizes);
    for d := |sizes| downto 0
      invariant dims == |sizes| - d && packed == Volume(sizes[d..]) && PackedFrom(sizes, strides, d)
    {
      VolumeHead(sizes, d);
      if sizes[d] == 1 {
        dims := dims + 1;
        continue;
      }
      if strides[d] != packed {
        return;
      }
      packed := packed * sizes[d];
      dims := dims + 1;
    }
  }

  lemma {:induction false} PackedTail(sizes: seq<nat>, strides: seq<int>)
    requires |strides| == |sizes| > 0 && PackedFrom(sizes, strides, 0)
    ensures PackedFrom(sizes[1..], strides[1..], 0)
    ensures sizes[0] != 1 ==> strides[0] == Volume(sizes[1..])
  {
    hide Volume;
    var tail := sizes[1..];
    forall d | 0 <= d < |tail| && tail[d] != 1 ensures strides[1..][d] == Volume(tail[d + 1..]) {
      assert tail[d + 1..] == sizes[d + 1 + 1..];
      assert sizes[d + 1] != 1;
    }
  }

  /** In a packed suffix the strided distance is the row-major one. */
  lemma {:induction false} DotIsFlat(sizes: seq<nat>, strides: seq<int>, q: seq<nat>)
    requires |strides| == |sizes| && PackedFrom(sizes, strides, 0) && InShape(sizes, q)
    ensures Dot(q, strides) == Flat(sizes, q)
    decreases |sizes|
  {
    if sizes != [] {
      hide Volume, Dot, Flat, PackedFrom;
      PackedTail(sizes, strides);
      DotHead(q, strides);
      FlatHead(sizes, q);
      DotIsFlat(sizes[1..], strides[1..], q[1..]);
      if sizes[0] == 1 {
        assert q[0] == 0;
      }
    }
  }

  lemma {:induction false} DotHead(q: seq<nat>, strides: seq<int>)
    requires 0 < |q| <= |strides|
    ensures Dot(q, strides) == q[0] * strides[0] + Dot(q[1..], strides[1..])
    decreases |q|
  {
    var last := |q| - 1;
    if last > 0 {
      DotHead(q[..last], strides);
      assert q[1..][..last - 1] == q[..last][1..];
    } else {
      assert q[..0] == [];
    }
  }

  lemma {:induction false} FlatHead(sizes: seq<nat>, q: seq<nat>)
    requires |q| == |sizes| && q != []
    ensures Flat(sizes, q) == q[0] * Volume(sizes[1..]) + Flat(sizes[1..], q[1..])
  {
    hide Volume;
    assert sizes == [sizes[0]] + sizes[1..] && q == [q[0]] + q[1..];
    FlatSplit([sizes[0]], sizes[1..], [q[0]], q[1..]);
    FlatOne(sizes[0], q[0]);
  }

  lemma {:induction false} FlatUnit(sizes: seq<nat>, d: nat)
    requires d < |sizes|
    ensures Flat(sizes, Unit(|sizes|, d)) == Volume(sizes[d + 1..])
    decreases |sizes|
  {
    hide Volume, Flat;
    var u := Unit(|sizes|, d);
    FlatHead(sizes, u);
    if d == 0 {
      FlatZeros(sizes[1..], u[1..]);
    } else {
      assert u[1..] == Unit(|sizes| - 1, d - 1);
      assert sizes[1..][d..] == sizes[d + 1..];
      FlatUnit(sizes[1..], d - 1);
    }
  }

  lemma {:induction false} FlatZeros(sizes: seq<nat>, q: seq<nat>)
    requires |q| == |sizes| && forall d | 0 <= d < |q| :: q[d] == 0
    ensures Flat(sizes, q) == 0
  {
    if q != [] {
      FlatZeros(sizes[..|q| - 1], q[..|q| - 1]);
    }
  }

  /** A view is accepted exactly when its elements lie one after another in row-major order, whatever strides its
      unit dimensions carry. */
  lemma {:induction false} ContiguousExact(sizes: seq<nat>, strides: seq<int>)
    requires |strides| == |sizes| && forall d | 0 <= d < |sizes| :: sizes[d] > 0
    ensures PackedFrom(sizes, strides, 0) <==> forall q | InShape(sizes, q) :: Dot(q, strides) == Flat(sizes, q)
  {
    hide Volume, Flat, Dot;
    if PackedFrom(sizes, strides, 0) {
      forall q | InShape(sizes, q) ensures Dot(q, strides) == Flat(sizes, q) {
        DotIsFlat(sizes, strides, q);
      }
    } else {
      var d: nat :| d < |sizes| && sizes[d] != 1 && strides[d] != Volume(sizes[d + 1..]);
      var u := Unit(|sizes|, d);
      assert InShape(sizes, u);
      DotUnit(strides, |sizes|, d);
      FlatUnit(sizes, d);
    }
  }

  /** So the indices of such a view are in bijection with one interval of addresses. */
  lemma {:induction false} ContiguousIsInterval(sizes: seq<nat>, strides: seq<int>, a: int)
    requires |strides| == |sizes| && PackedFrom(sizes, strides, 0) && forall d | 0 <= d < |sizes| :: sizes[d] > 0
    ensures (exists q :: InShape(sizes, q) && Dot(q, strides) == a) <==> 0 <= a < Volume(sizes)
    ensures forall p, q | InShape(sizes, p) && InShape(sizes, q) && Dot(p, strides) == Dot(q, strides) :: p == q
  {
    hide Volume, Flat, Dot, PackedFrom, Index;
    forall q | InShape(sizes, q) ensures Dot(q, strides) == Flat(sizes, q) < Volume(sizes) && Index(sizes, Flat(sizes, q)) == q {
      DotIsFlat(sizes, strides, q);
      FlatBound(sizes, q);
      IndexOfFlat(sizes, q);
    }
    if 0 <= a < Volume(sizes) {
      FlatOfIndex(sizes, a);
      assert Dot(Index(sizes, a), strides) == a;
    }
  }

  // The two programs.

  /** A view: the address of its first element, and its static layout. */
  datatype View = View(start: int, sizes: seq<nat>, strides: seq<int>, bits: nat) {
    ghost predicate Valid() { |strides| == |sizes| }
    function Width(): nat { bits / 8 }
  }

  /** One byte stored. */
  datatype Put = Put(at: int, v: byte)

  ghost predicate InMemory(puts: seq<Put>, size: nat) {
    forall p | p in puts :: 0 <= p.at < size
  }

  ghost function PutAll(mem: seq<byte>, puts: seq<Put>): (r: seq<byte>)
    requires InMemory(puts, |mem|)
    ensures |r| == |mem|
    decreases |puts|
  {
    if puts == [] then mem else PutAll(mem[puts[0].at := puts[0].v], puts[1..])
  }

  ghost predicate Reaches(puts: seq<Put>, a: int) {
    exists p :: p in puts && p.at == a
  }

  lemma {:induction false} PutAllAt(mem: seq<byte>, puts: seq<Put>, v: byte, a: nat)
    requires InMemory(puts, |mem|) && (forall p | p in puts :: p.v == v) && a < |mem|
    ensures PutAll(mem, puts)[a] == if Reaches(puts, a) then v else mem[a]
    decreases |puts|
  {
    if puts != [] {
      var first, rest := puts[0], puts[1..];
      assert forall p :: p in puts <==> p == first || p in rest;
      PutAllAt(mem[first.at := first.v], rest, v, a);
    }
  }

  /** The bytes the fill stores in the element at `p`. */
  ghost function FillLeaf(view: View, raw: nat): seq<nat> -> seq<Put>
    requires view.Valid()
  {
    (p: seq<nat>) => if |p| == |view.sizes| then
        seq(view.Width(), b requires 0 <= b < view.Width() => Put(ElementAt(view, p) + b, NthByte(raw, b)))
      else []
  }

  ghost function ElementAt(view: View, p: seq<nat>): int
    requires view.Valid() && |p| <= |view.sizes|
  {
    view.start + Times(Dot(p, view.strides), view.Width())
  }

  /** The fill, element by element in row-major order. */
  ghost function Fill(view: View, raw: nat): seq<Put>
    requires view.Valid()
  {
    Under(view.sizes, FillLeaf(view, raw), [])
  }

  function RunBytes(view: View, k: nat): nat
    requires k <= |view.sizes|
  {
    Volume(view.sizes[k..]) * view.Width()
  }

  /** The `memset` of the run whose outer offsets are `q`. */
  ghost function RunLeaf(view: View, k: nat, v: byte): seq<nat> -> seq<Put>
    requires view.Valid() && k <= |view.sizes|
  {
    (q: seq<nat>) => if |q| == k then
        seq(RunBytes(view, k), c requires 0 <= c < RunBytes(view, k) => Put(ElementAt(view, q) + c, v))
      else []
  }

  /** What the rewrite emits: loops over some of the dimensions before `runFrom`, outermost first, around the `memset`
      of everything from `runFrom` on. The other outer offsets are zero. */
  datatype Plan = Plan(loops: seq<nat>, runFrom: nat, v: byte)

  /** What the loops from the `n`-th inwards do, given the offsets so far. */
  ghost function Nest(view: View, plan: Plan, n: nat, offsets: seq<nat>): seq<Put>
    requires view.Valid() && plan.runFrom <= |view.sizes| && n <= |plan.loops| && |offsets| == plan.runFrom
    requires forall i | 0 <= i < |plan.loops| :: plan.loops[i] < plan.runFrom
    decreases |plan.loops| - n, 1, 0
  {
    if n == |plan.loops| then RunLeaf(view, plan.runFrom, plan.v)(offsets) else NestFrom(view, plan, n, offsets, 0)
  }

  ghost function NestFrom(view: View, plan: Plan, n: nat, offsets: seq<nat>, i: nat): seq<Put>
    requires view.Valid() && plan.runFrom <= |view.sizes| && n < |plan.loops| && |offsets| == plan.runFrom
    requires forall i | 0 <= i < |plan.loops| :: plan.loops[i] < plan.runFrom
    decreases |plan.loops| - n, 0, if i < view.sizes[plan.loops[n]] then view.sizes[plan.loops[n]] - i else 0
  {
    if i >= view.sizes[plan.loops[n]] then []
    else Nest(view, plan, n + 1, offsets[plan.loops[n] := i]) + NestFrom(view, plan, n, offsets, i + 1)
  }

  ghost function Memsets(view: View, plan: Plan): seq<Put>
    requires view.Valid() && plan.runFrom <= |view.sizes| && forall i | 0 <= i < |plan.loops| :: plan.loops[i] < plan.runFrom
  {
    Nest(view, plan, 0, Zeros(plan.runFrom))
  }

  /** The offsets the remaining loops take, starting from `offsets`. */
  ghost predicate Takes(view: View, plan: Plan, n: nat, offsets: seq<nat>, q: seq<nat>)
    requires n <= |plan.loops| && |offsets| <= |view.sizes|
  {
    |q| == |offsets| && forall d | 0 <= d < |q| :: if d in plan.loops[n..] then q[d] < view.sizes[d] else q[d] == offsets[d]
  }

  ghost predicate OnceEach(loops: seq<nat>) {
    forall i, j | 0 <= i < j < |loops| :: loops[i] != loops[j]
  }

  lemma {:induction false} TakesStep(view: View, plan: Plan, n: nat, offsets: seq<nat>, q: seq<nat>)
    requires n < |plan.loops| && |offsets| == plan.runFrom <= |view.sizes| && OnceEach(plan.loops) && plan.loops[n] < plan.runFrom
    ensures Takes(view, plan, n, offsets, q) <==>
      && |q| == |offsets| && q[plan.loops[n]] < view.sizes[plan.loops[n]]
      && Takes(view, plan, n + 1, offsets[plan.loops[n] := q[plan.loops[n]]], q)
  {
    var d := plan.loops[n];
    assert plan.loops[n..] == [d] + plan.loops[n + 1..];
    assert d !in plan.loops[n + 1..];
    if |q| == |offsets| {
      var next := offsets[d := q[d]];
      forall e | 0 <= e < |q| && e != d ensures e in plan.loops[n..] <==> e in plan.loops[n + 1..] {
      }
      assert forall e | 0 <= e < |q| && e != d :: next[e] == offsets[e];
    }
  }

  /** The loops run the `memset` at exactly the offsets they take. */
  lemma {:induction false} NestMembers(view: View, plan: Plan, n: nat, offsets: seq<nat>, x: Put)
    requires view.Valid() && plan.runFrom <= |view.sizes| && n <= |plan.loops| && |offsets| == plan.runFrom
    requires OnceEach(plan.loops) && forall i | 0 <= i < |plan.loops| :: plan.loops[i] < plan.runFrom
    ensures x in Nest(view, plan, n, offsets) <==>
      exists q :: Takes(view, plan, n, offsets, q) && x in RunLeaf(view, plan.runFrom, plan.v)(q)
    decreases |plan.loops| - n, 1, 0
  {
    hide RunLeaf;
    if n == |plan.loops| {
      assert plan.loops[n..] == [];
      assert Takes(view, plan, n, offsets, offsets);
      assert forall q | Takes(view, plan, n, offsets, q) :: q == offsets;
    } else {
      NestFromMembers(view, plan, n, offsets, 0, x);
    }
  }

  lemma {:induction false} NestFromMembers(view: View, plan: Plan, n: nat, offsets: seq<nat>, i: nat, x: Put)
    requires view.Valid() && plan.runFrom <= |view.sizes| && n < |plan.loops| && |offsets| == plan.runFrom
    requires OnceEach(plan.loops) && forall i | 0 <= i < |plan.loops| :: plan.loops[i] < plan.runFrom
    ensures x in NestFrom(view, plan, n, offsets, i) <==>
      exists q :: Takes(view, plan, n, offsets, q) && q[plan.loops[n]] >= i && x in RunLeaf(view, plan.runFrom, plan.v)(q)
    decreases |plan.loops| - n, 0, if i < view.sizes[plan.loops[n]] then view.sizes[plan.loops[n]] - i else 0
  {
    hide RunLeaf, Takes;
    var d := plan.loops[n];
    forall q ensures Takes(view, plan, n, offsets, q) <==>
      |q| == |offsets| && q[d] < view.sizes[d] && Takes(view, plan, n + 1, offsets[d := q[d]], q)
    {
      TakesStep(view, plan, n, offsets, q);
    }
    if i < view.sizes[d] {
      NestMembers(view, plan, n + 1, offsets[d := i], x);
      NestFromMembers(view, plan, n, offsets, i + 1, x);
      forall q | Takes(view, plan, n + 1, offsets[d := i], q) ensures |q| == |offsets| && q[d] == i {
        TakesHere(view, plan, n, offsets, i, q);
      }
    }
  }

  lemma TakesHere(view: View, plan: Plan, n: nat, offsets: seq<nat>, i: nat, q: seq<nat>)
    requires n < |plan.loops| && |offsets| <= |view.sizes| && OnceEach(plan.loops) && plan.loops[n] < |offsets|
    requires Takes(view, plan, n + 1, offsets[plan.loops[n] := i], q)
    ensures |q| == |offsets| && q[plan.loops[n]] == i
  {
    assert plan.loops[n] !in plan.loops[n + 1..];
  }

  // Building the plan.

  /** The dimensions before `k` that step, outermost first. */
  ghost predicate AreStepping(sizes: seq<nat>, k: nat, loops: seq<nat>)
    requires k <= |sizes|
  {
    && (forall i | 0 <= i < |loops| :: loops[i] < k && sizes[loops[i]] != 1)
    && (forall d: nat | d < k && sizes[d] != 1 :: d in loops)
    && forall i, j | 0 <= i < j < |loops| :: loops[i] < loops[j]
  }

  /** A view worth a `memset` per run: some dimension steps over the gaps, and a run is at least a cache line. */
  ghost predicate EachRunPays(view: View, k: nat)
    requires view.Valid()
  {
    && LongestRun(view.sizes, view.strides, k) && 0 < k < |view.sizes| && view.Width() != 0
    && RunBytes(view, k) >= LEAST_RUN_BYTES && exists d :: 0 <= d < k && view.sizes[d] != 1
  }

  lemma RunContinues(sizes: seq<nat>, strides: seq<int>, j: nat, k: nat)
    requires |strides| == |sizes| && LongestRun(sizes, strides, j) && j < k
    ensures !LongestRun(sizes, strides, k)
  {
    hide Volume;
    assert PackedFrom(sizes, strides, k - 1);
  }

  lemma {:induction false} LongestRunUnique(sizes: seq<nat>, strides: seq<int>, j: nat, k: nat)
    requires |strides| == |sizes| && LongestRun(sizes, strides, j) && LongestRun(sizes, strides, k)
    ensures j == k
  {
    hide LongestRun;
    if j < k {
      RunContinues(sizes, strides, j, k);
    } else if k < j {
      RunContinues(sizes, strides, k, j);
    }
  }

  /** One loop for each outer dimension that steps. */
  method SteppingDims(sizes: seq<nat>, outer: nat) returns (loops: seq<nat>)
    requires outer <= |sizes|
    ensures AreStepping(sizes, outer, loops)
  {
    loops := [];
    for d := 0 to outer
      invariant AreStepping(sizes, d, loops)
    {
      if sizes[d] != 1 {
        StepOn(loops, d);
        loops := loops + [d];
      }
    }
  }

  /** `memsetEachRun`. */
  method MemsetEachRun(view: View, v: byte) returns (plan: Option<Plan>)
    requires view.Valid()
    ensures plan.Some? ==> EachRunPays(view, plan.value.runFrom) && AreStepping(view.sizes, plan.value.runFrom, plan.value.loops)
    ensures plan.Some? ==> plan.value.v == v
    ensures plan.Some? ==> plan.value.runFrom <= |view.sizes| && RunBytes(view, plan.value.runFrom) >= 64
    ensures plan.None? ==> forall k: nat :: !EachRunPays(view, k)
  {
    hide Volume, LongestRun, RunBytes, EachRunPays, AreStepping, SomeSteps, Bytes, View.Width;
    var rank := |view.sizes|;
    var runDims, runElements := ContiguousRun(view.sizes, view.strides);
    var outer := rank - runDims;
    OnlyOneRun(view, outer);
    PaysWhen(view, outer);
    if runDims <= 0 || runDims >= rank {
      return None;
    }
    var width := view.Width();
    RunBytesIs(view, outer, runElements);
    if width == 0 || Bytes(runElements, width) < LEAST_RUN_BYTES {
      return None;
    }
    var loops := SteppingDims(view.sizes, outer);
    SomeStep(view.sizes, outer, loops);
    if loops == [] {
      return None;
    }
    return Some(Plan(loops, outer, v));
  }

  lemma {:induction false} OnlyOneRun(view: View, only: nat)
    requires view.Valid() && LongestRun(view.sizes, view.strides, only)
    ensures forall k: nat | EachRunPays(view, k) :: k == only
  {
    hide LongestRun;
    forall k: nat | EachRunPays(view, k) ensures k == only {
      LongestRunUnique(view.sizes, view.strides, k, only);
    }
  }

  ghost predicate SomeSteps(sizes: seq<nat>, k: nat)
    requires k <= |sizes|
  {
    exists d :: 0 <= d < k && sizes[d] != 1
  }

  lemma PaysWhen(view: View, k: nat)
    requires view.Valid() && LongestRun(view.sizes, view.strides, k) && k <= |view.sizes|
    ensures EachRunPays(view, k) <==>
      0 < k < |view.sizes| && view.Width() != 0 && RunBytes(view, k) >= 64 && SomeSteps(view.sizes, k)
  {
    hide LongestRun, RunBytes;
  }

  lemma SomeStep(sizes: seq<nat>, k: nat, loops: seq<nat>)
    requires k <= |sizes| && AreStepping(sizes, k, loops)
    ensures loops != [] <==> SomeSteps(sizes, k)
  {
    if loops != [] {
      assert sizes[loops[0]] != 1;
    }
  }

  function Bytes(elements: nat, width: nat): nat { elements * width }

  lemma RunBytesIs(view: View, k: nat, n: nat)
    requires k <= |view.sizes| && n == Volume(view.sizes[k..])
    ensures RunBytes(view, k) == Bytes(n, view.Width())
  {
  }

  lemma StepOn(loops: seq<nat>, d: nat)
    ensures d in loops + [d] && forall e | e in loops :: e in loops + [d]
  {
  }

  /** The pattern, once the value and the uses of the buffer have been looked at: one `memset` if the view is contiguous,
      one per run if that pays, and nothing otherwise. */
  method FillToMemset(view: View, width: nat, raw: nat, keepLoop: bool) returns (plan: Option<Plan>)
    requires view.Valid() && width > 0
    ensures plan.Some? ==> !keepLoop && width % 8 == 0 && forall b: nat | b < width / 8 :: NthByte(raw, b) == plan.value.v
    ensures plan.Some? ==> PlanFits(view, plan.value)
    ensures plan.None? ==>
      || keepLoop || width % 8 != 0 || width > WIDEST || (exists b: nat :: b < width / 8 && NthByte(raw, b) != NthByte(raw, 0))
      || (!(PackedFrom(view.sizes, view.strides, 0) && view.bits % 8 == 0) && forall k: nat :: !EachRunPays(view, k))
  {
    hide Volume, LongestRun;
    var v := RepeatedByte(width, raw);
    if v.None? || keepLoop {
      return None;
    }
    var ok := IsContiguous(view.sizes, view.strides, view.bits);
    if ok {
      return Some(Plan([], 0, v.value));
    }
    plan := MemsetEachRun(view, v.value);
    if plan.Some? {
      PaysFits(view, plan.value);
    }
  }

  /** The runs are packed, and the loops are those of the dimensions outside them that step. */
  ghost predicate PlanFits(view: View, plan: Plan)
    requires view.Valid()
  {
    plan.runFrom <= |view.sizes| && PackedFrom(view.sizes, view.strides, plan.runFrom)
    && AreStepping(view.sizes, plan.runFrom, plan.loops)
  }

  lemma PaysFits(view: View, plan: Plan)
    requires view.Valid() && EachRunPays(view, plan.runFrom) && AreStepping(view.sizes, plan.runFrom, plan.loops)
    ensures PlanFits(view, plan)
  {
  }

  // The runs are the view.

  lemma {:induction false} DotSplit(q: seq<nat>, strides: seq<int>, k: nat)
    requires k <= |q| <= |strides|
    ensures Dot(q, strides) == Dot(q[..k], strides) + Dot(q[k..], strides[k..])
    decreases |q|
  {
    if |q| == k {
      assert q[..k] == q && q[k..] == [];
    } else {
      var last := |q| - 1;
      DotSplit(q[..last], strides, k);
      assert q[..last][..k] == q[..k] && q[..last][k..] == q[k..][..last - k];
    }
  }

  lemma {:induction false} PackedSuffix(sizes: seq<nat>, strides: seq<int>, k: nat)
    requires |strides| == |sizes| && k <= |sizes| && PackedFrom(sizes, strides, k)
    ensures PackedFrom(sizes[k..], strides[k..], 0)
  {
    hide Volume;
    var tail := sizes[k..];
    forall d | 0 <= d < |tail| && tail[d] != 1 ensures strides[k..][d] == Volume(tail[d + 1..]) {
      assert tail[d + 1..] == sizes[k + d + 1..];
      assert sizes[k + d] != 1;
    }
  }

  /** An element of the view is in the run of its outer offsets, at its row-major place there. */
  lemma {:induction false} ElementInRun(view: View, k: nat, p: seq<nat>)
    requires view.Valid() && k <= |view.sizes| && PackedFrom(view.sizes, view.strides, k) && InShape(view.sizes, p)
    ensures InShape(view.sizes[k..], p[k..])
    ensures ElementAt(view, p) == ElementAt(view, p[..k]) + Flat(view.sizes[k..], p[k..]) * view.Width()
    ensures Flat(view.sizes[k..], p[k..]) < Volume(view.sizes[k..])
  {
    hide Volume, Flat, Dot, PackedFrom;
    DotSplit(p, view.strides, k);
    PackedSuffix(view.sizes, view.strides, k);
    DotIsFlat(view.sizes[k..], view.strides[k..], p[k..]);
    FlatBound(view.sizes[k..], p[k..]);
    TimesSum(Dot(p[..k], view.strides), Flat(view.sizes[k..], p[k..]), view.Width());
  }

  lemma TimesSum(x: int, y: int, k: int)
    ensures Times(x + y, k) == Times(x, k) + y * k
  {
  }

  ghost predicate Filled(view: View, p: seq<nat>, b: nat, a: int)
    requires view.Valid()
  {
    InShape(view.sizes, p) && b < view.Width() && a == ElementAt(view, p) + b
  }

  ghost predicate Set(view: View, plan: Plan, q: seq<nat>, c: nat, a: int)
    requires view.Valid() && plan.runFrom <= |view.sizes|
  {
    InShape(view.sizes[..plan.runFrom], q) && c < RunBytes(view, plan.runFrom) && a == ElementAt(view, q) + c
  }

  /** Every byte of the view is set by a run. */
  lemma {:induction false} FilledIsSet(view: View, plan: Plan, p: seq<nat>, b: nat, a: int)
    requires view.Valid() && PlanFits(view, plan) && Filled(view, p, b, a)
    ensures exists q, c: nat :: Set(view, plan, q, c, a)
  {
    var k := plan.runFrom;
    ElementInRun(view, k, p);
    hide Volume, Flat, ElementAt, PackedFrom;
    var f := Flat(view.sizes[k..], p[k..]);
    PairBound(f, Volume(view.sizes[k..]), b, view.Width());
    assert Set(view, plan, p[..k], f * view.Width() + b, a);
  }

  /** Every byte a run sets is the view's. */
  lemma {:induction false} SetIsFilled(view: View, plan: Plan, q: seq<nat>, c: nat, a: int)
    requires view.Valid() && PlanFits(view, plan) && Set(view, plan, q, c, a)
    ensures exists p, b: nat :: Filled(view, p, b, a)
  {
    var k, width := plan.runFrom, view.Width();
    hide Volume, Flat, Index, ElementAt, PackedFrom;
    NonZero(Volume(view.sizes[k..]), width, c);
    DivBound(c, Volume(view.sizes[k..]), width);
    VolumePositive(view.sizes[k..]);
    FlatOfIndex(view.sizes[k..], c / width);
    var p := q + Index(view.sizes[k..], c / width);
    assert p[..k] == q && p[k..] == Index(view.sizes[k..], c / width);
    JoinInShape(view.sizes, k, p);
    ElementInRun(view, k, p);
    assert Filled(view, p, c % width, a);
  }

  lemma NonZero(volume: nat, width: nat, c: nat)
    requires c < volume * width
    ensures volume > 0 && width > 0
  {
    assert volume == 0 || width == 0 ==> volume * width == 0;
  }

  lemma JoinInShape(sizes: seq<nat>, k: nat, p: seq<nat>)
    requires k <= |sizes| == |p| && InShape(sizes[..k], p[..k]) && InShape(sizes[k..], p[k..])
    ensures InShape(sizes, p)
  {
    forall d | 0 <= d < |p| ensures p[d] < sizes[d] {
      if d >= k {
        assert p[k..][d - k] == p[d] && sizes[k..][d - k] == sizes[d];
      } else {
        assert p[..k][d] == p[d] && sizes[..k][d] == sizes[d];
      }
    }
  }

  lemma {:induction false} FillMembers(view: View, raw: nat, x: Put)
    requires view.Valid()
    ensures x in Fill(view, raw) <==> exists p, b: nat :: Filled(view, p, b, x.at) && x.v == NthByte(raw, b)
  {
    hide ElementAt;
    UnderMembers(view.sizes, FillLeaf(view, raw), [], x);
    if x in Fill(view, raw) {
      var p :| IsIndex(view.sizes, p) && x in FillLeaf(view, raw)(p);
      var b: nat :| b < view.Width() && FillLeaf(view, raw)(p)[b] == x;
      assert Filled(view, p, b, x.at);
    }
    if p, b: nat :| Filled(view, p, b, x.at) && x.v == NthByte(raw, b) {
      assert FillLeaf(view, raw)(p)[b] == x;
      assert IsIndex(view.sizes, p) && [] <= p;
    }
  }

  /** With zero for the dimensions that do not step, the loops take exactly the outer indices. */
  lemma {:induction false} TakesAll(view: View, plan: Plan, q: seq<nat>)
    requires view.Valid() && PlanFits(view, plan)
    ensures Takes(view, plan, 0, Zeros(plan.runFrom), q) <==> InShape(view.sizes[..plan.runFrom], q)
  {
    assert plan.loops[0..] == plan.loops;
    forall d: nat | d < plan.runFrom ensures d in plan.loops <==> view.sizes[d] != 1 {
    }
    if |q| == plan.runFrom {
      forall d | 0 <= d < |q| ensures q[d] < view.sizes[..plan.runFrom][d] <==> if d in plan.loops then q[d] < view.sizes[d] else q[d] == 0 {
      }
    }
  }

  lemma {:induction false} MemsetMembers(view: View, plan: Plan, x: Put)
    requires view.Valid() && PlanFits(view, plan)
    ensures x in Memsets(view, plan) <==> exists q, c: nat :: Set(view, plan, q, c, x.at) && x.v == plan.v
  {
    hide ElementAt, Volume, Takes, PackedFrom, InShape;
    NestMembers(view, plan, 0, Zeros(plan.runFrom), x);
    forall q ensures Takes(view, plan, 0, Zeros(plan.runFrom), q) <==> InShape(view.sizes[..plan.runFrom], q) {
      TakesAll(view, plan, q);
    }
    if x in Memsets(view, plan) {
      var q :| Takes(view, plan, 0, Zeros(plan.runFrom), q) && x in RunLeaf(view, plan.runFrom, plan.v)(q);
      InShapeLength(view.sizes[..plan.runFrom], q);
      var c: nat :| c < RunBytes(view, plan.runFrom) && RunLeaf(view, plan.runFrom, plan.v)(q)[c] == x;
      assert Set(view, plan, q, c, x.at);
    }
    if q, c: nat :| Set(view, plan, q, c, x.at) && x.v == plan.v {
      InShapeLength(view.sizes[..plan.runFrom], q);
      assert RunLeaf(view, plan.runFrom, plan.v)(q)[c] == x;
    }
  }

  lemma InShapeLength(sizes: seq<nat>, q: seq<nat>)
    requires InShape(sizes, q)
    ensures |q| == |sizes|
  {
  }

  /** The runs write exactly the addresses of the view and no others. */
  lemma {:induction false} RunsAreTheView(view: View, plan: Plan, raw: nat, a: int)
    requires view.Valid() && PlanFits(view, plan)
    ensures Reaches(Memsets(view, plan), a) <==> Reaches(Fill(view, raw), a)
  {
    hide Memsets, Fill, Filled, Set, NthByte;
    if x :| x in Fill(view, raw) && x.at == a {
      FillMembers(view, raw, x);
      var p, b: nat :| Filled(view, p, b, a);
      FilledIsSet(view, plan, p, b, a);
      MemsetMembers(view, plan, Put(a, plan.v));
    }
    if x :| x in Memsets(view, plan) && x.at == a {
      MemsetMembers(view, plan, x);
      var q, c: nat :| Set(view, plan, q, c, a);
      SetIsFilled(view, plan, q, c, a);
      var p, b: nat :| Filled(view, p, b, a);
      FillMembers(view, raw, Put(a, NthByte(raw, b)));
    }
  }

  /** The `memset`s leave all of memory exactly as the fill did, whatever the view's strides. The value has the width
      of an element. */
  lemma {:induction false} MemsetIsFill(view: View, plan: Plan, raw: nat, mem: seq<byte>)
    requires view.Valid() && PlanFits(view, plan) && InMemory(Fill(view, raw), |mem|)
    requires forall b: nat | b < view.Width() :: NthByte(raw, b) == plan.v
    ensures InMemory(Memsets(view, plan), |mem|)
    ensures PutAll(mem, Memsets(view, plan)) == PutAll(mem, Fill(view, raw))
  {
    hide Memsets, Fill, NthByte, PutAll;
    forall x | x in Memsets(view, plan) ensures x.v == plan.v && 0 <= x.at < |mem| {
      MemsetMembers(view, plan, x);
      RunsAreTheView(view, plan, raw, x.at);
    }
    forall x | x in Fill(view, raw) ensures x.v == plan.v {
      FillMembers(view, raw, x);
    }
    forall a: nat | a < |mem| ensures PutAll(mem, Memsets(view, plan))[a] == PutAll(mem, Fill(view, raw))[a] {
      PutAllAt(mem, Memsets(view, plan), plan.v, a);
      PutAllAt(mem, Fill(view, raw), plan.v, a);
      RunsAreTheView(view, plan, raw, a);
    }
  }
}
