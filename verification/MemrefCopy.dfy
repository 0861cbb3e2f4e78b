/** The runtime's strided copy (`runtime/gemmlir_rt.c`) and the element-at-a-time walk it has to agree
    with (`runtime/copycheck.c`).

    Memory is one array of bytes indexed by address, and both operands live in it. `Job.Moves` lists the
    byte moves of the elementwise walk in order; both procedures are proved to leave memory exactly as
    carrying out that list does. */
module MemrefCopy {
  import opened Memory
  import opened Odometer
  import RowMajor

  const MAX_RANK := 8
  const SHORT_RUN := 64

  /** A ranked descriptor: base address, element offset, sizes and element strides. */
  datatype Descriptor = Descriptor(data: nat, offset: int, sizes: seq<nat>, strides: seq<int>) {
    ghost predicate Valid() { |strides| == |sizes| }
    function First(elemSize: nat): int { data + offset * elemSize }
  }

  datatype Status = Copied | RankTooLarge

  /** One copy: a common shape, two layouts counted in bytes, and two starting addresses. */
  datatype Job = Job(sizes: seq<nat>, toStrides: seq<int>, fromStrides: seq<int>, to: int, from: int, elem: nat) {

    ghost predicate Valid() { |toStrides| == |sizes| && |fromStrides| == |sizes| }

    ghost function To(q: seq<nat>): int {
      to + if |q| <= |toStrides| then Dot(q, toStrides) else 0
    }

    ghost function From(q: seq<nat>): int {
      from + if |q| <= |fromStrides| then Dot(q, fromStrides) else 0
    }

    /** The moves of one element. */
    ghost function Element(q: seq<nat>): seq<Move> { Block(To(q), From(q), elem) }

    ghost function Sub(q: seq<nat>): seq<Move>
      requires |q| <= |sizes|
    { Under(sizes, Element, q) }

    ghost function Later(q: seq<nat>): seq<Move>
      requires |q| <= |sizes|
    { After(sizes, Element, q) }

    /** Every move of the elementwise walk, in its order. */
    ghost function Moves(): seq<Move> { Sub([]) }

    /** What the callers of the copy promise: both operands lie in memory and are disjoint. */
    ghost predicate Safe(size: nat) { InBounds(Moves(), size) && Apart(Moves()) }
  }

  function Scaled(strides: seq<int>, elemSize: nat): (r: seq<int>)
    ensures |r| == |strides|
  {
    seq(|strides|, d requires 0 <= d < |strides| => strides[d] * elemSize)
  }

  function JobOf(elemSize: nat, src: Descriptor, dst: Descriptor): Job {
    Job(src.sizes, Scaled(dst.strides, elemSize), Scaled(src.strides, elemSize),
        dst.First(elemSize), src.First(elemSize), elemSize)
  }

  /** Dimensions from `d` on are packed in both layouts: together they are one run. */
  ghost predicate Packed(j: Job, d: nat)
    requires j.Valid()
  {
    forall k | d <= k < |j.sizes| ::
      j.toStrides[k] == RowMajor.Volume(j.sizes[k + 1..]) * j.elem && j.fromStrides[k] == RowMajor.Volume(j.sizes[k + 1..]) * j.elem
  }

  function RunBytes(j: Job, d: nat): nat
    requires d <= |j.sizes|
  {
    RowMajor.Volume(j.sizes[d..]) * j.elem
  }

  /** A packed suffix of dimensions moves the bytes of one contiguous run, in address order. */
  lemma {:induction false} PackedRun(j: Job, q: seq<nat>)
    requires j.Valid() && |q| <= |j.sizes| && Packed(j, |q|)
    ensures j.Sub(q) == Block(j.To(q), j.From(q), RunBytes(j, |q|))
    decreases |j.sizes| - |q|, 1, 0
  {
    if |q| == |j.sizes| {
      assert j.sizes[|q|..] == [];
    } else {
      PackedSiblings(j, q, 0);
      RowMajor.VolumeSuffix(j.sizes, |q|);
      var inner := RowMajor.Volume(j.sizes[|q| + 1..]);
      assert RunBytes(j, |q|) == j.sizes[|q|] * inner * j.elem;
      assert (j.sizes[|q|] - 0) * RunBytes(j, |q| + 1) == RunBytes(j, |q|);
    }
  }

  lemma {:induction false} PackedSiblings(j: Job, q: seq<nat>, i: nat)
    requires j.Valid() && |q| < |j.sizes| && Packed(j, |q|) && i <= j.sizes[|q|]
    ensures var run := RunBytes(j, |q| + 1);
      Odometer.From(j.sizes, j.Element, q, i) ==
      Block(j.To(q) + i * run, j.From(q) + i * run, (j.sizes[|q|] - i) * run)
    decreases |j.sizes| - |q|, 0, j.sizes[|q|] - i
  {
    var run := RunBytes(j, |q| + 1);
    if i < j.sizes[|q|] {
      PackedRun(j, q + [i]);
      PackedSiblings(j, q, i + 1);
      PackedStep(j, q, i);
      BlockSplit(j.To(q), j.From(q), run, j.sizes[|q|], i);
    } else {
      assert (j.sizes[|q|] - i) * run == 0;
    }
  }

  /** The next sibling of a packed axis starts one run further on. */
  lemma {:induction false} PackedStep(j: Job, q: seq<nat>, i: nat)
    requires j.Valid() && |q| < |j.sizes| && Packed(j, |q|)
    ensures j.To(q + [i]) == j.To(q) + i * RunBytes(j, |q| + 1) && j.From(q + [i]) == j.From(q) + i * RunBytes(j, |q| + 1)
  {
    hide RowMajor.Volume;
    DotSnoc(q, i, j.toStrides);
    DotSnoc(q, i, j.fromStrides);
  }

  lemma BlockSplit(to: int, from: int, run: nat, n: nat, i: nat)
    requires i < n
    ensures (n - i) * run >= 0 && (n - (i + 1)) * run >= 0
    ensures Block(to + i * run, from + i * run, (n - i) * run)
         == Block(to + i * run, from + i * run, run) + Block(to + (i + 1) * run, from + (i + 1) * run, (n - (i + 1)) * run)
  {
    var a, b, c, d := i * run, (i + 1) * run, (n - i) * run, (n - (i + 1)) * run;
    OneRunMore(run, n, i);
    BlockRest(to, from, run, a, b, c, d);
  }

  lemma OneRunMore(run: nat, n: nat, i: nat)
    requires i < n
    ensures (i + 1) * run == i * run + run && (n - i) * run == run + (n - (i + 1)) * run && (n - (i + 1)) * run >= 0
  {
    var rest: nat := n - (i + 1);
    assert (rest + 1) * run == rest * run + run;
  }

  lemma BlockRest(to: int, from: int, run: nat, a: int, b: int, c: nat, d: nat)
    requires b == a + run && c == run + d
    ensures Block(to + a, from + a, c) == Block(to + a, from + a, run) + Block(to + b, from + b, d)
  {
    BlockConcat(to + a, from + a, run, d);
  }

  /** `n` runs of `run` bytes, one step apart. */
  ghost function Runs(to: int, from: int, toStep: int, fromStep: int, run: nat, n: nat): seq<Move>
    decreases n
  {
    if n == 0 then [] else Block(to, from, run) + Runs(to + toStep, from + fromStep, toStep, fromStep, run, n - 1)
  }

  /** A row of the walk, the innermost unpacked axis, is a sequence of runs. */
  lemma {:induction false} RowIsRuns(j: Job, q: seq<nat>, i: nat)
    requires j.Valid() && |q| < |j.sizes| && Packed(j, |q| + 1) && i <= j.sizes[|q|]
    ensures var toStep, fromStep := j.toStrides[|q|], j.fromStrides[|q|];
      Odometer.From(j.sizes, j.Element, q, i) ==
      Runs(j.To(q) + i * toStep, j.From(q) + i * fromStep, toStep, fromStep, RunBytes(j, |q| + 1), j.sizes[|q|] - i)
    decreases j.sizes[|q|] - i
  {
    if i < j.sizes[|q|] {
      PackedRun(j, q + [i]);
      RowIsRuns(j, q, i + 1);
      DotSnoc(q, i, j.toStrides);
      DotSnoc(q, i, j.fromStrides);
      assert (i + 1) * j.toStrides[|q|] == i * j.toStrides[|q|] + j.toStrides[|q|];
      assert (i + 1) * j.fromStrides[|q|] == i * j.fromStrides[|q|] + j.fromStrides[|q|];
    }
  }

  /** A block whose moves never read what they write reads and writes disjoint intervals. */
  lemma {:induction false} BlockBounds(moves: seq<Move>, to: int, from: int, n: nat, size: nat)
    requires InBounds(moves, size) && Apart(moves) && n > 0
    requires forall m | m in Block(to, from, n) :: m in moves
    ensures 0 <= to && to + n <= size && 0 <= from && from + n <= size
    ensures to + n <= from || from + n <= to
  {
    BlockAt(to, from, n, 0);
    BlockAt(to, from, n, n - 1);
    BlockAt(to, from, n, to - from);
    BlockAt(to, from, n, from - to);
  }

  /** Carrying out `rest` is all that separates memory from its final contents. */
  ghost predicate Pending(mem: seq<byte>, rest: seq<Move>, final: seq<byte>) {
    InBounds(rest, |mem|) && Apart(rest) && Apply(mem, rest) == final
  }

  lemma {:induction false} Advance(mem: seq<byte>, block: seq<Move>, rest: seq<Move>, final: seq<byte>)
    requires Pending(mem, block + rest, final)
    ensures InBounds(block, |mem|) && Pending(Apply(mem, block), rest, final)
  {
    assert forall m | m in rest :: m in block + rest;
    ApplyConcat(mem, block, rest);
  }

  /** One aligned eight-byte load and store. */
  method CopyWord(mem: array<byte>, to: nat, from: nat)
    requires to % 8 == 0 && from % 8 == 0
    requires to + 8 <= mem.Length && from + 8 <= mem.Length
    requires to + 8 <= from || from + 8 <= to
    modifies mem
    ensures InBounds(Block(to, from, 8), mem.Length)
    ensures mem[..] == Apply(old(mem[..]), Block(to, from, 8))
  {
    ApplyBlock(mem[..], to, from, 8);
    MemCpy(mem, to, from, 8);
  }

  /** `to[w] = from[w]` in a run of `words` words whose first `w` are already done. */
  method CopyWordAt(mem: array<byte>, to: nat, from: nat, w: nat, words: nat, ghost start: seq<byte>)
    requires w < words && to % 8 == 0 && from % 8 == 0
    requires to + 8 * words <= mem.Length == |start| && from + 8 * words <= mem.Length
    requires to + 8 * words <= from || from + 8 * words <= to
    requires InBounds(Block(to, from, 8 * w), |start|)
    requires mem[..] == Apply(start, Block(to, from, 8 * w))
    modifies mem
    ensures InBounds(Block(to, from, 8 * (w + 1)), |start|)
    ensures mem[..] == Apply(start, Block(to, from, 8 * (w + 1)))
  {
    hide Apply;
    CopyWord(mem, to + 8 * w, from + 8 * w);
    BlockConcat(to, from, 8 * w, 8);
    ApplyConcat(start, Block(to, from, 8 * w), Block(to + 8 * w, from + 8 * w, 8));
  }

  lemma ApplyNothing(mem: seq<byte>)
    ensures InBounds([], |mem|) && Apply(mem, []) == mem
  {
  }

  /** A short run copied as words: one to four written out, any other count a loop. */
  method CopyWords(mem: array<byte>, to: nat, from: nat, words: nat)
    requires to % 8 == 0 && from % 8 == 0
    requires to + 8 * words <= mem.Length && from + 8 * words <= mem.Length
    requires words == 0 || to + 8 * words <= from || from + 8 * words <= to
    modifies mem
    ensures InBounds(Block(to, from, 8 * words), mem.Length)
    ensures mem[..] == Apply(old(mem[..]), Block(to, from, 8 * words))
  {
    hide Apply;
    ghost var start := mem[..];
    assert Block(to, from, 8 * 0) == [] && InBounds([], |start|) && start == Apply(start, []) by { ApplyNothing(start); }
    if words == 1 {
      CopyWordAt(mem, to, from, 0, words, start);
    } else if words == 2 {
      CopyWordAt(mem, to, from, 0, words, start);
      CopyWordAt(mem, to, from, 1, words, start);
    } else if words == 3 {
      CopyWordAt(mem, to, from, 0, words, start);
      CopyWordAt(mem, to, from, 1, words, start);
      CopyWordAt(mem, to, from, 2, words, start);
    } else if words == 4 {
      CopyWordAt(mem, to, from, 0, words, start);
      CopyWordAt(mem, to, from, 1, words, start);
      CopyWordAt(mem, to, from, 2, words, start);
      CopyWordAt(mem, to, from, 3, words, start);
    } else {
      var w := 0;
      while w < words
        invariant 0 <= w <= words
        invariant InBounds(Block(to, from, 8 * w), |start|)
        invariant mem[..] == Apply(start, Block(to, from, 8 * w))
      {
        CopyWordAt(mem, to, from, w, words, start);
        w := w + 1;
      }
    }
  }

  /** A short run that is not whole aligned words, byte by byte. */
  method CopyBytes(mem: array<byte>, to: nat, from: nat, n: nat)
    requires to + n <= mem.Length && from + n <= mem.Length
    modifies mem
    ensures InBounds(Block(to, from, n), mem.Length)
    ensures mem[..] == Apply(old(mem[..]), Block(to, from, n))
  {
    ghost var start := mem[..];
    var b := 0;
    assert Block(to, from, 0) == [];
    while b < n
      invariant 0 <= b <= n
      invariant InBounds(Block(to, from, b), |start|)
      invariant mem[..] == Apply(start, Block(to, from, b))
    {
      ApplySnoc(start, to, from, b);
      mem[to + b] := mem[from + b];
      b := b + 1;
    }
  }

  datatype Path = Wordwise | Bytewise | Whole

  /** One run, by whichever of the three ways was chosen for the whole copy. */
  method CopyRun(mem: array<byte>, path: Path, to: nat, from: nat, n: nat)
    requires to + n <= mem.Length && from + n <= mem.Length
    requires n == 0 || to + n <= from || from + n <= to
    requires path.Wordwise? ==> n % 8 == 0 && to % 8 == 0 && from % 8 == 0
    modifies mem
    ensures InBounds(Block(to, from, n), mem.Length)
    ensures mem[..] == Apply(old(mem[..]), Block(to, from, n))
  {
    match path
    case Wordwise =>
      CopyWords(mem, to, from, n / 8);
    case Bytewise =>
      CopyBytes(mem, to, from, n);
    case Whole =>
      ApplyBlock(mem[..], to, from, n);
      MemCpy(mem, to, from, n);
  }

  /** One run as the next piece of a longer walk. */
  method NextRun(mem: array<byte>, path: Path, to: int, from: int, n: nat, ghost rest: seq<Move>, ghost final: seq<byte>)
    requires Pending(mem[..], Block(to, from, n) + rest, final)
    requires path.Wordwise? ==> n % 8 == 0 && to % 8 == 0 && from % 8 == 0
    modifies mem
    ensures Pending(mem[..], rest, final)
  {
    ghost var block := Block(to, from, n);
    Advance(mem[..], block, rest, final);
    if n > 0 {
      assert forall m | m in block :: m in block + rest;
      BlockBounds(block + rest, to, from, n, mem.Length);
      CopyRun(mem, path, to, from, n);
    }
  }

  /** The walk along the innermost axis. */
  method CopyRow(mem: array<byte>, path: Path, to0: int, from0: int, toStep: int, fromStep: int, runBytes: nat, count: nat,
                 ghost rest: seq<Move>, ghost final: seq<byte>)
    requires Pending(mem[..], Runs(to0, from0, toStep, fromStep, runBytes, count) + rest, final)
    requires path.Wordwise? ==>
      runBytes % 8 == 0 && to0 % 8 == 0 && from0 % 8 == 0 && toStep % 8 == 0 && fromStep % 8 == 0
    modifies mem
    ensures Pending(mem[..], rest, final)
  {
    hide Pending;
    var to, from, i := to0, from0, 0;
    while i < count
      invariant 0 <= i <= count
      invariant Pending(mem[..], Runs(to, from, toStep, fromStep, runBytes, count - i) + rest, final)
      invariant path.Wordwise? ==> to % 8 == 0 && from % 8 == 0
    {
      ghost var later := Runs(to + toStep, from + fromStep, toStep, fromStep, runBytes, count - i - 1);
      assert (Block(to, from, runBytes) + later) + rest == Block(to, from, runBytes) + (later + rest);
      NextRun(mem, path, to, from, runBytes, later + rest, final);
      to, from, i := to + toStep, from + fromStep, i + 1;
    }
    assert [] + rest == rest;
  }

  /** Where the walk stands once the wheel after `p` has moved from `i` to `i + 1` and the `n` inside it are clear. */
  lemma {:induction false} BumpTurn(j: Job, p: seq<nat>, i: nat, n: nat)
    requires j.Valid() && |p| + 1 + n < |j.sizes| && i + 1 < j.sizes[|p|] && IsPrefix(j.sizes, p)
    requires forall k | 0 <= k < |j.sizes| :: j.sizes[k] > 0
    ensures var next := p + [i + 1] + Zeros(n);
      && IsPrefix(j.sizes, next)
      && j.Later(p + [i]) == j.Sub(next) + j.Later(next)
      && Left(j.sizes[..|next|], next) < Left(j.sizes[..|next|], p + [i])
      && Dot(next, j.fromStrides) == Dot(p + [i], j.fromStrides) + j.fromStrides[|p|]
      && Dot(next, j.toStrides) == Dot(p + [i], j.toStrides) + j.toStrides[|p|]
  {
    var next := p + [i + 1] + Zeros(n);
    Step(j.sizes, j.Element, p, i, n);
    Step(j.sizes[..|next|], Tick, p, i, n);
    BumpDot(p, i, n, j.fromStrides);
    BumpDot(p, i, n, j.toStrides);
  }

  lemma {:induction false} BumpDot(p: seq<nat>, i: nat, n: nat, strides: seq<int>)
    requires |p| + 1 + n <= |strides|
    ensures Dot(p + [i + 1] + Zeros(n), strides) == Dot(p + [i], strides) + strides[|p|]
  {
    DotZeros(p + [i + 1], n, strides);
    DotSnoc(p, i, strides);
    DotSnoc(p, i + 1, strides);
    assert (i + 1) * strides[|p|] == i * strides[|p|] + strides[|p|];
  }

  /** ... and once it has wrapped. */
  lemma {:induction false} BumpCarry(j: Job, p: seq<nat>, i: nat, inner: nat)
    requires j.Valid() && |p| < inner <= |j.sizes| && i + 1 == j.sizes[|p|]
    ensures j.Later(p + [i]) == j.Later(p)
    ensures Left(j.sizes[..inner], p + [i]) == Left(j.sizes[..inner], p)
    ensures Dot(p + [i], j.fromStrides) + j.fromStrides[|p|] - j.sizes[|p|] * j.fromStrides[|p|] == Dot(p, j.fromStrides)
    ensures Dot(p + [i], j.toStrides) + j.toStrides[|p|] - j.sizes[|p|] * j.toStrides[|p|] == Dot(p, j.toStrides)
  {
    Carry(j.sizes, j.Element, p, i);
    Carry(j.sizes[..inner], Tick, p, i);
    DotSnoc(p, i, j.fromStrides);
    DotSnoc(p, i, j.toStrides);
    assert j.sizes[|p|] * j.fromStrides[|p|] == i * j.fromStrides[|p|] + j.fromStrides[|p|];
    assert j.sizes[|p|] * j.toStrides[|p|] == i * j.toStrides[|p|] + j.toStrides[|p|];
  }

  /** The carry of the copy's odometer: bump the innermost wheel that can turn, clearing those inside it,
      and keep both byte offsets in step. `more` is false when every wheel has wrapped. */
  method NextRow(j: Job, indices: array<nat>, inner: nat, readIndex: int, writeIndex: int, ghost q: seq<nat>)
    returns (more: bool, read: int, write: int, ghost next: seq<nat>)
    requires j.Valid() && 0 < inner < |j.sizes| && inner <= indices.Length
    requires forall k | 0 <= k < |j.sizes| :: j.sizes[k] > 0
    requires |q| == inner && IsPrefix(j.sizes, q) && indices[..inner] == q
    requires readIndex == Dot(q, j.fromStrides) && writeIndex == Dot(q, j.toStrides)
    modifies indices
    ensures !more ==> j.Later(q) == []
    ensures more ==> |next| == inner && IsPrefix(j.sizes, next) && indices[..inner] == next
    ensures more ==> read == Dot(next, j.fromStrides) && write == Dot(next, j.toStrides)
    ensures more ==> j.Later(q) == j.Sub(next) + j.Later(next)
    ensures more ==> Left(j.sizes[..inner], next) < Left(j.sizes[..inner], q)
  {
    hide Dot, Left, IsPrefix, After, Under, Zeros;
    read, write := readIndex, writeIndex;
    var axis := inner - 1;
    assert q[..inner] == q;
    while true
      invariant 0 <= axis < inner
      invariant indices[..inner] == q[..axis + 1] + Zeros(inner - axis - 1)
      invariant read == Dot(q[..axis + 1], j.fromStrides) && write == Dot(q[..axis + 1], j.toStrides)
      invariant j.Later(q) == j.Later(q[..axis + 1])
      invariant Left(j.sizes[..inner], q) == Left(j.sizes[..inner], q[..axis + 1])
      decreases axis
    {
      ghost var p := q[..axis];
      var i := indices[axis];
      assert i == q[axis] && q[..axis + 1] == p + [i];
      assert IsPrefix(j.sizes, p) && i < j.sizes[axis] by { PrefixAt(j.sizes, q, axis); }
      indices[axis] := i + 1;
      read := read + j.fromStrides[axis];
      write := write + j.toStrides[axis];
      if j.sizes[axis] != i + 1 {
        BumpTurn(j, p, i, inner - axis - 1);
        return true, read, write, p + [i + 1] + Zeros(inner - axis - 1);
      }
      BumpCarry(j, p, i, inner);
      if axis == 0 {
        AfterAll(j.sizes, j.Element);
        return false, read, write, q;
      }
      indices[axis] := 0;
      read := read - j.sizes[axis] * j.fromStrides[axis];
      write := write - j.sizes[axis] * j.toStrides[axis];
      axis := axis - 1;
    }
  }

  /** The outer walk: one row after another until the odometer wraps. */
  method CopyRows(mem: array<byte>, j: Job, outer: nat, runBytes: nat, path: Path)
    requires j.Valid() && 0 < outer <= |j.sizes| <= MAX_RANK
    requires forall k | 0 <= k < |j.sizes| :: j.sizes[k] > 0
    requires Packed(j, outer) && runBytes == RunBytes(j, outer) && j.Safe(mem.Length)
    requires path.Wordwise? ==> runBytes % 8 == 0 && j.to % 8 == 0 && j.from % 8 == 0
    requires path.Wordwise? ==> forall d | 0 <= d < outer :: j.toStrides[d] % 8 == 0 && j.fromStrides[d] % 8 == 0
    modifies mem
    ensures mem[..] == Apply(old(mem[..]), j.Moves())
  {
    hide Dot, After, Pending, IsPrefix, Left;
    ghost var final := Apply(mem[..], j.Moves());
    var indices := new nat[MAX_RANK];
    for d := 0 to outer
      invariant forall k | 0 <= k < d :: indices[k] == 0
      invariant mem[..] == old(mem[..])
    {
      indices[d] := 0;
    }
    var inner := outer - 1;
    var readIndex, writeIndex := 0, 0;
    ghost var q := Zeros(inner);
    assert indices[..inner] == q;
    StartRows(j, inner, mem[..]);
    while true
      invariant |q| == inner && IsPrefix(j.sizes, q) && indices[..inner] == q
      invariant readIndex == Dot(q, j.fromStrides) && writeIndex == Dot(q, j.toStrides)
      invariant Pending(mem[..], j.Sub(q) + j.Later(q), final)
      invariant path.Wordwise? ==> readIndex % 8 == 0 && writeIndex % 8 == 0
      decreases Left(j.sizes[..inner], q)
    {
      RowIsRuns(j, q, 0);
      CopyRow(mem, path, j.to + writeIndex, j.from + readIndex, j.toStrides[inner], j.fromStrides[inner],
              runBytes, j.sizes[inner], j.Later(q), final);
      if inner == 0 {
        AfterAll(j.sizes, j.Element);
        PendingNothing(mem[..], final);
        return;
      }
      var more, read, write, next := NextRow(j, indices, inner, readIndex, writeIndex, q);
      if !more {
        PendingNothing(mem[..], final);
        return;
      }
      if path.Wordwise? {
        DotAligned(next, j.fromStrides);
        DotAligned(next, j.toStrides);
      }
      readIndex, writeIndex, q := read, write, next;
    }
  }

  lemma PendingNothing(mem: seq<byte>, final: seq<byte>)
    requires Pending(mem, [], final)
    ensures mem == final
  {
  }

  lemma {:induction false} StartRows(j: Job, inner: nat, mem: seq<byte>)
    requires j.Valid() && inner < |j.sizes| && j.Safe(|mem|)
    requires forall k | 0 <= k < |j.sizes| :: j.sizes[k] > 0
    ensures var q := Zeros(inner);
      && IsPrefix(j.sizes, q) && Dot(q, j.fromStrides) == 0 && Dot(q, j.toStrides) == 0
      && Pending(mem, j.Sub(q) + j.Later(q), Apply(mem, j.Moves()))
  {
    var q := Zeros(inner);
    assert [] + q == q;
    Descend(j.sizes, j.Element, [], inner);
    AfterAll(j.sizes, j.Element);
    assert j.Moves() + [] == j.Moves();
    DotZeros([], inner, j.fromStrides);
    DotZeros([], inner, j.toStrides);
  }

  /** No stride that is whole words can carry an offset off a word boundary. */
  lemma {:induction false} DotAligned(q: seq<nat>, strides: seq<int>)
    requires |q| <= |strides| && forall d | 0 <= d < |q| :: strides[d] % 8 == 0
    ensures Dot(q, strides) % 8 == 0
    decreases |q|
  {
    if q != [] {
      var d := |q| - 1;
      DotAligned(q[..d], strides);
      var w := strides[d] / 8;
      assert q[d] * strides[d] == 8 * (q[d] * w);
    }
  }

  /** The longest suffix of dimensions that is packed in both operands, and the elements it holds. */
  method PackedSuffix(elemSize: nat, src: Descriptor, dst: Descriptor) returns (run: nat, outer: nat)
    requires src.Valid() && dst.Valid() && src.sizes == dst.sizes
    ensures outer <= |src.sizes| && run == RowMajor.Volume(src.sizes[outer..]) && Packed(JobOf(elemSize, src, dst), outer)
  {
    run, outer := 1, |src.sizes|;
    assert src.sizes[outer..] == [];
    while outer > 0 && src.strides[outer - 1] == run && dst.strides[outer - 1] == run
      invariant 0 <= outer <= |src.sizes| && run == RowMajor.Volume(src.sizes[outer..])
      invariant Packed(JobOf(elemSize, src, dst), outer)
    {
      run := run * src.sizes[outer - 1];
      outer := outer - 1;
      RowMajor.VolumeSuffix(src.sizes, outer);
    }
  }

  ghost predicate AllWords(j: Job, outer: nat, runBytes: nat)
    requires j.Valid() && outer <= |j.sizes|
  {
    && runBytes % 8 == 0 && runBytes <= SHORT_RUN && j.to % 8 == 0 && j.from % 8 == 0
    && forall d | 0 <= d < outer :: j.toStrides[d] % 8 == 0 && j.fromStrides[d] % 8 == 0
  }

  /** Whether every run is a few whole aligned words, decided once: the bases and every step have to be, and then no
      run can drift off. */
  method RunsAreWords(j: Job, outer: nat, runBytes: nat) returns (wordwise: bool)
    requires j.Valid() && outer <= |j.sizes|
    ensures wordwise <==> AllWords(j, outer, runBytes)
  {
    wordwise := runBytes % 8 == 0 && runBytes <= SHORT_RUN && j.from % 8 == 0 && j.to % 8 == 0;
    var d := 0;
    while d < outer && wordwise
      invariant 0 <= d <= outer
      invariant wordwise ==> AllWords(j, d, runBytes)
      invariant !wordwise ==> !AllWords(j, outer, runBytes)
    {
      if j.fromStrides[d] % 8 != 0 || j.toStrides[d] % 8 != 0 {
        wordwise := false;
      }
      d := d + 1;
    }
  }

  /** `memrefCopy`. */
  method Copy(mem: array<byte>, elemSize: nat, src: Descriptor, dst: Descriptor) returns (status: Status)
    requires elemSize > 0 && src.Valid() && dst.Valid() && src.sizes == dst.sizes
    requires JobOf(elemSize, src, dst).Safe(mem.Length)
    modifies mem
    ensures status.RankTooLarge? <==> |src.sizes| > 8 && 0 !in src.sizes
    ensures status.RankTooLarge? ==> mem[..] == old(mem[..])
    ensures status.Copied? ==> mem[..] == Apply(old(mem[..]), JobOf(elemSize, src, dst).Moves())
  {
    var rank := |src.sizes|;
    var j := JobOf(elemSize, src, dst);
    for d := 0 to rank
      invariant forall k | 0 <= k < d :: src.sizes[k] > 0
    {
      if src.sizes[d] == 0 {
        EmptySpace(j.sizes, j.Element, d);
        return Copied;
      }
    }
    if rank == 0 {
      WholeRun(j, mem.Length);
      ApplyBlock(mem[..], j.to, j.from, elemSize);
      MemCpy(mem, j.to, j.from, elemSize);
      return Copied;
    }
    if rank > MAX_RANK {
      return RankTooLarge;
    }
    var run, outer := PackedSuffix(elemSize, src, dst);
    var runBytes := run * elemSize;
    if outer == 0 {
      WholeRun(j, mem.Length);
      assert src.sizes[0..] == src.sizes;
      ApplyBlock(mem[..], j.to, j.from, runBytes);
      MemCpy(mem, j.to, j.from, runBytes);
      return Copied;
    }
    var wordwise := RunsAreWords(j, outer, runBytes);
    var bytewise := !wordwise && runBytes <= SHORT_RUN;
    CopyRows(mem, j, outer, runBytes, if wordwise then Wordwise else if bytewise then Bytewise else Whole);
    return Copied;
  }

  /** When every dimension is packed the whole copy is one block, and it is a legal `memcpy`. */
  lemma {:induction false} WholeRun(j: Job, size: nat)
    requires j.Valid() && Packed(j, 0) && j.Safe(size) && j.elem > 0 && 0 !in j.sizes
    ensures j.Moves() == Block(j.to, j.from, RunBytes(j, 0))
    ensures var n := RunBytes(j, 0);
      n > 0 && 0 <= j.to && j.to + n <= size && 0 <= j.from && j.from + n <= size && (j.to + n <= j.from || j.from + n <= j.to)
  {
    PackedRun(j, []);
    RowMajor.VolumePositive(j.sizes);
    assert j.sizes[0..] == j.sizes;
    assert RunBytes(j, 0) == RowMajor.Volume(j.sizes) * j.elem > 0;
    BlockBounds(j.Moves(), j.to, j.from, RunBytes(j, 0), size);
  }

  lemma {:induction false} DotScaled(q: seq<nat>, strides: seq<int>, e: nat)
    requires |q| <= |strides|
    ensures Dot(q, Scaled(strides, e)) == Dot(q, strides) * e
    decreases |q|
  {
    if q != [] {
      var d := |q| - 1;
      DotScaled(q[..d], strides, e);
      assert q[d] * (strides[d] * e) == (q[d] * strides[d]) * e;
      assert (Dot(q[..d], strides) + q[d] * strides[d]) * e == Dot(q[..d], strides) * e + (q[d] * strides[d]) * e;
    }
  }

  /** The odometer of the reference walk: `more` is false when it has come round. */
  method NextIndex(j: Job, idx: array<nat>, ghost q: seq<nat>) returns (more: bool, ghost next: seq<nat>)
    requires j.Valid() && |q| == |j.sizes| == idx.Length && idx[..] == q && IsPrefix(j.sizes, q)
    requires forall k | 0 <= k < |j.sizes| :: j.sizes[k] > 0
    modifies idx
    ensures !more ==> j.Later(q) == []
    ensures more ==> |next| == |q| && IsPrefix(j.sizes, next) && idx[..] == next
    ensures more ==> j.Later(q) == j.Element(next) + j.Later(next)
    ensures more ==> Left(j.sizes, next) < Left(j.sizes, q)
  {
    hide Dot, Left, IsPrefix, After, Under, Zeros;
    var axis := idx.Length - 1;
    assert q[..idx.Length] == q;
    while axis >= 0
      invariant -1 <= axis < idx.Length
      invariant idx[..] == q[..axis + 1] + Zeros(idx.Length - axis - 1)
      invariant j.Later(q) == j.Later(q[..axis + 1])
      invariant Left(j.sizes, q) == Left(j.sizes, q[..axis + 1])
    {
      ghost var p := q[..axis];
      var i := idx[axis];
      assert i == q[axis] && q[..axis + 1] == p + [i];
      assert IsPrefix(j.sizes, p) && i < j.sizes[axis] by { PrefixAt(j.sizes, q, axis); }
      idx[axis] := i + 1;
      if i + 1 != j.sizes[axis] {
        next := p + [i + 1] + Zeros(idx.Length - axis - 1);
        NextTurn(j, p, i, next);
        return true, next;
      }
      idx[axis] := 0;
      Carry(j.sizes, j.Element, p, i);
      CarryLeft(j.sizes, p, i);
      axis := axis - 1;
    }
    AfterAll(j.sizes, j.Element);
    return false, q;
  }

  lemma CarryLeft(sizes: seq<nat>, p: seq<nat>, i: nat)
    requires |p| < |sizes| && i + 1 == sizes[|p|]
    ensures Left(sizes, p + [i]) == Left(sizes, p)
  {
    Carry(sizes, Tick, p, i);
  }

  lemma NextTurn(j: Job, p: seq<nat>, i: nat, next: seq<nat>)
    requires j.Valid() && |p| < |j.sizes| && i + 1 < j.sizes[|p|] && IsPrefix(j.sizes, p)
    requires forall k | 0 <= k < |j.sizes| :: j.sizes[k] > 0
    requires next == p + [i + 1] + Zeros(|j.sizes| - |p| - 1)
    ensures IsPrefix(j.sizes, next)
    ensures j.Later(p + [i]) == j.Element(next) + j.Later(next)
    ensures Left(j.sizes, next) < Left(j.sizes, p + [i])
  {
    hide Job.Element, Odometer.After, Tick;
    Step(j.sizes, j.Element, p, i, |j.sizes| - |p| - 1);
    TurnLeft(j.sizes, p, i, next);
  }

  lemma TurnLeft(sizes: seq<nat>, p: seq<nat>, i: nat, next: seq<nat>)
    requires |p| < |sizes| && i + 1 < sizes[|p|] && IsPrefix(sizes, p) && forall k | 0 <= k < |sizes| :: sizes[k] > 0
    requires next == p + [i + 1] + Zeros(|sizes| - |p| - 1)
    ensures Left(sizes, next) < Left(sizes, p + [i])
  {
    Step(sizes, Tick, p, i, |sizes| - |p| - 1);
  }

  /** Where an index lands in both layouts, in elements. */
  method Offsets(idx: array<nat>, ss: seq<int>, ds: seq<int>) returns (so: int, doff: int)
    requires |ss| == idx.Length == |ds|
    ensures so == Dot(idx[..], ss) && doff == Dot(idx[..], ds)
  {
    so, doff := 0, 0;
    for k := 0 to idx.Length
      invariant so == Dot(idx[..k], ss) && doff == Dot(idx[..k], ds)
    {
      assert idx[..k + 1] == idx[..k] + [idx[k]];
      DotSnoc(idx[..k], idx[k], ss);
      DotSnoc(idx[..k], idx[k], ds);
      so := so + idx[k] * ss[k];
      doff := doff + idx[k] * ds[k];
    }
    assert idx[..idx.Length] == idx[..];
  }

  /** `naive`: one element at a time, its offset worked out afresh from the index. */
  method Naive(mem: array<byte>, sizes: seq<nat>, ss: seq<int>, ds: seq<int>, s: nat, d: nat, elemSize: nat)
    requires elemSize > 0 && |ss| == |sizes| == |ds| && 0 !in sizes
    requires Job(sizes, Scaled(ds, elemSize), Scaled(ss, elemSize), d, s, elemSize).Safe(mem.Length)
    modifies mem
    ensures mem[..] == Apply(old(mem[..]), Job(sizes, Scaled(ds, elemSize), Scaled(ss, elemSize), d, s, elemSize).Moves())
  {
    hide After, Pending, IsPrefix, Left, Zeros;
    ghost var j := Job(sizes, Scaled(ds, elemSize), Scaled(ss, elemSize), d, s, elemSize);
    ghost var final := Apply(mem[..], j.Moves());
    var rank := |sizes|;
    var idx := new nat[rank](_ => 0);
    ghost var q := Zeros(rank);
    assert idx[..] == q;
    StartWalk(j, mem[..]);
    while true
      invariant |q| == rank && IsPrefix(sizes, q) && idx[..] == q
      invariant Pending(mem[..], j.Element(q) + j.Later(q), final)
      decreases Left(sizes, q)
    {
      var so, doff := Offsets(idx, ss, ds);
      DotScaled(q, ss, elemSize);
      DotScaled(q, ds, elemSize);
      NextRun(mem, Whole, d + doff * elemSize, s + so * elemSize, elemSize, j.Later(q), final);
      var more, next := NextIndex(Job(sizes, Scaled(ds, elemSize), Scaled(ss, elemSize), d, s, elemSize), idx, q);
      if !more {
        PendingNothing(mem[..], final);
        return;
      }
      q := next;
    }
  }

  /** A copy of something starts inside memory. */
  lemma {:induction false} FirstInside(j: Job, size: nat)
    requires j.Valid() && j.Safe(size) && j.elem > 0 && 0 !in j.sizes
    ensures 0 <= j.to < size && 0 <= j.from < size
  {
    var p := Zeros(|j.sizes|);
    assert [] + p == p;
    DotZeros([], |j.sizes|, j.toStrides);
    DotZeros([], |j.sizes|, j.fromStrides);
    assert IsIndex(j.sizes, p);
    var m := Move(j.To(p) + 0, j.From(p) + 0);
    assert ByteOf(j, p, 0, m);
    MovesMembers(j, m);
  }

  /** What `copycheck` compares: from the same memory the copy and the elementwise walk leave the same memory. */
  method Compare(mem: array<byte>, ref: array<byte>, elemSize: nat, src: Descriptor, dst: Descriptor)
    requires mem != ref && mem[..] == ref[..]
    requires elemSize > 0 && src.Valid() && dst.Valid() && src.sizes == dst.sizes && 0 !in src.sizes && |src.sizes| <= MAX_RANK
    requires JobOf(elemSize, src, dst).Safe(mem.Length)
    modifies mem, ref
    ensures mem[..] == ref[..]
    ensures mem[..] == Apply(old(mem[..]), JobOf(elemSize, src, dst).Moves())
  {
    FirstInside(JobOf(elemSize, src, dst), mem.Length);
    var status := Copy(mem, elemSize, src, dst);
    Naive(ref, src.sizes, src.strides, dst.strides, src.First(elemSize), dst.First(elemSize), elemSize);
  }

  lemma {:induction false} StartWalk(j: Job, mem: seq<byte>)
    requires j.Valid() && j.Safe(|mem|)
    requires forall k | 0 <= k < |j.sizes| :: j.sizes[k] > 0
    ensures var q := Zeros(|j.sizes|);
      IsPrefix(j.sizes, q) && Pending(mem, j.Element(q) + j.Later(q), Apply(mem, j.Moves()))
  {
    var q := Zeros(|j.sizes|);
    assert [] + q == q;
    Descend(j.sizes, j.Element, [], |j.sizes|);
    AfterAll(j.sizes, j.Element);
    assert j.Moves() + [] == j.Moves();
  }

  /** `m` is what the elementwise copy does with byte `b` of the element at index `p`. */
  ghost predicate ByteOf(j: Job, p: seq<nat>, b: nat, m: Move) {
    IsIndex(j.sizes, p) && b < j.elem && m == Move(j.To(p) + b, j.From(p) + b)
  }

  /** The moves of a copy are those of the bytes of its elements. */
  lemma {:induction false} MovesMembers(j: Job, m: Move)
    requires j.Valid()
    ensures m in j.Moves() <==> exists p, b: nat :: ByteOf(j, p, b, m)
  {
    UnderMembers(j.sizes, j.Element, [], m);
    if m in j.Moves() {
      var p :| IsIndex(j.sizes, p) && m in j.Element(p);
      var b: nat :| b < j.elem && j.Element(p)[b] == m;
      assert ByteOf(j, p, b, m);
    }
    if p, b: nat :| ByteOf(j, p, b, m) {
      BlockAt(j.To(p), j.From(p), j.elem, b);
      assert m in j.Element(p) && [] <= p;
    }
  }

  /** Distinct destination elements do not share a byte. */
  ghost predicate Injective(j: Job) {
    forall p, b: nat, m, q, c: nat, n | ByteOf(j, p, b, m) && ByteOf(j, q, c, n) && m.to == n.to :: p == q && b == c
  }

  /** What a copy means: every byte of every element arrives, and nothing else in memory changes. */
  lemma {:induction false} CopyMeaning(j: Job, mem: seq<byte>)
    requires j.Valid() && j.Safe(|mem|) && Injective(j)
    ensures forall p, b: nat, m | ByteOf(j, p, b, m) ::
      0 <= m.to < |mem| && 0 <= m.from < |mem| && Apply(mem, j.Moves())[m.to] == mem[m.from]
    ensures forall a | 0 <= a < |mem| && (forall p, b: nat, m | ByteOf(j, p, b, m) :: m.to != a) ::
      Apply(mem, j.Moves())[a] == mem[a]
  {
    var moves := j.Moves();
    forall m ensures m in moves <==> exists p, b: nat :: ByteOf(j, p, b, m) {
      MovesMembers(j, m);
    }
    assert SingleValued(moves);
    ApplyPointwise(mem, moves);
    forall p, b: nat, m | ByteOf(j, p, b, m) ensures m in moves {
    }
  }
}
