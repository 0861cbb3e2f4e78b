/** An elementwise gather as one strided copy (`lib/Transforms/GatherToMemrefCopy/GatherToMemrefCopyPass.cpp`). */
module GatherCopy {
  import opened Arith
  import opened Memory
  import opened MemrefCopy
  import opened Odometer
  import RowMajor
  import opened Wrappers

  const LEAST_RUN_BYTES := 8

  // Affine expressions.

  datatype Expr = Dim(d: nat) | Cst(c: int) | Add(l: Expr, r: Expr) | Mul(l: Expr, r: Expr)
                | FloorDiv(l: Expr, r: Expr) | Mod(l: Expr, r: Expr) | Symbol(s: nat)

  predicate DimsBelow(e: Expr, n: nat) {
    match e
    case Dim(d) => d < n
    case Add(l, r) => DimsBelow(l, n) && DimsBelow(r, n)
    case Mul(l, r) => DimsBelow(l, n) && DimsBelow(r, n)
    case FloorDiv(l, r) => DimsBelow(l, n) && DimsBelow(r, n)
    case Mod(l, r) => DimsBelow(l, n) && DimsBelow(r, n)
    case Cst(_) => true
    case Symbol(_) => true
  }

  function Eval(e: Expr, q: seq<nat>, symbols: nat -> int): int
    requires DimsBelow(e, |q|)
  {
    match e
    case Dim(d) => q[d]
    case Cst(c) => c
    case Add(l, r) => Eval(l, q, symbols) + Eval(r, q, symbols)
    case Mul(l, r) => Times(Eval(l, q, symbols), Eval(r, q, symbols))
    case FloorDiv(l, r) => var n := Eval(r, q, symbols); if n > 0 then Eval(l, q, symbols) / n else 0
    case Mod(l, r) => var n := Eval(r, q, symbols); if n > 0 then Eval(l, q, symbols) % n else 0
    case Symbol(s) => symbols(s)
  }

  /** Sums of dimensions and constants, scaled by constants on the right. */
  predicate Linear(e: Expr) {
    match e
    case Dim(_) => true
    case Cst(_) => true
    case Add(l, r) => Linear(l) && Linear(r)
    case Mul(l, r) => r.Cst? && Linear(l)
    case _ => false
  }

  /** A stride per dimension and a constant. */
  ghost function Strided(perDim: seq<int>, constant: int, q: seq<nat>): int
    requires |q| == |perDim|
  {
    Dot(q, perDim) + constant
  }

  lemma {:induction false} DotBump(q: seq<nat>, strides: seq<int>, d: nat, k: int)
    requires d < |strides| && |q| <= |strides|
    ensures Dot(q, strides[d := strides[d] + k]) == Dot(q, strides) + if d < |q| then Times(k, q[d]) else 0
    decreases |q|
  {
    if q != [] {
      var last := |q| - 1;
      DotBump(q[..last], strides, d, k);
      if d == last {
        assert q[last] * (strides[last] + k) == q[last] * strides[last] + k * q[last];
      }
    }
  }

  lemma TimesSum(k: int, x: int, y: int)
    ensures Times(k, x + y) == Times(k, x) + Times(k, y)
  {
  }

  lemma TimesTimes(k: int, x: int, c: int)
    ensures Times(k, Times(x, c)) == Times(k * c, x)
  {
    assert k * (x * c) == (k * c) * x;
  }

  /** `linearize`: adds `scale` times the expression to the strides and the constant, if it is linear. */
  method Linearize(e: Expr, scale: int, perDim: array<int>, constant: int, ghost symbols: nat -> int) returns (ok: bool, total: int)
    requires DimsBelow(e, perDim.Length)
    modifies perDim
    ensures ok <==> Linear(e)
    ensures ok ==> forall q: seq<nat> | |q| == perDim.Length ::
      Strided(perDim[..], total, q) == Strided(old(perDim[..]), constant, q) + Times(scale, Eval(e, q, symbols))
    decreases e
  {
    hide Times, Dot;
    total := constant;
    match e
    case Dim(d) =>
      ghost var was := perDim[..];
      perDim[d] := perDim[d] + scale;
      assert perDim[..] == was[d := was[d] + scale];
      forall q: seq<nat> | |q| == perDim.Length
        ensures Strided(perDim[..], total, q) == Strided(was, constant, q) + Times(scale, Eval(e, q, symbols))
      {
        DotBump(q, was, d, scale);
      }
      return true, total;
    case Cst(c) =>
      total := constant + scale * c;
      assert Times(scale, c) == scale * c by { TimesIs(scale, c); }
      return true, total;
    case Add(l, r) =>
      ok, total := Linearize(l, scale, perDim, constant, symbols);
      if !ok {
        return false, total;
      }
      ghost var middle, at := perDim[..], total;
      ok, total := Linearize(r, scale, perDim, total, symbols);
      if ok {
        forall q: seq<nat> | |q| == perDim.Length
          ensures Strided(perDim[..], total, q) == Strided(old(perDim[..]), constant, q) + Times(scale, Eval(e, q, symbols))
        {
          TimesSum(scale, Eval(l, q, symbols), Eval(r, q, symbols));
        }
      }
      return ok, total;
    case Mul(l, r) =>
      if !r.Cst? {
        return false, total;
      }
      ok, total := Linearize(l, scale * r.c, perDim, constant, symbols);
      if ok {
        forall q: seq<nat> | |q| == perDim.Length
          ensures Strided(perDim[..], total, q) == Strided(old(perDim[..]), constant, q) + Times(scale, Eval(e, q, symbols))
        {
          TimesTimes(scale, Eval(l, q, symbols), r.c);
        }
      }
      return ok, total;
    case FloorDiv(_, _) => return false, total;
    case Mod(_, _) => return false, total;
    case Symbol(_) => return false, total;
  }

  lemma TimesIs(x: int, y: int)
    ensures Times(x, y) == x * y
  {
  }

  // Relabelling the loops.

  ghost predicate Permutation(w: seq<nat>, inv: seq<nat>) {
    |inv| == |w| && forall d | 0 <= d < |w| :: w[d] < |w| && inv[d] < |w| && inv[w[d]] == d && w[inv[d]] == d
  }

  lemma TwiceMeansNone(w: seq<nat>, i: nat, j: nat)
    requires i < |w| && j < |w| && i != j && w[i] == w[j]
    ensures forall v :: !Permutation(w, v)
  {
  }

  lemma MissingMeansNone(w: seq<nat>, d: nat)
    requires d < |w| && d !in w
    ensures forall v :: !Permutation(w, v)
  {
    forall v | |v| == |w| ensures !Permutation(w, v) {
      var r := v[d];
    }
  }

  /** `isPermutation` and `inversePermutation`: the inverse of a map whose results are its dimensions, each once. */
  method InversePermutation(w: seq<nat>) returns (inv: Option<seq<nat>>)
    ensures inv.Some? ==> Permutation(w, inv.value)
    ensures inv.None? ==> forall v :: !Permutation(w, v)
  {
    var table: seq<int> := seq(|w|, _ => -1);
    for r := 0 to |w|
      invariant |table| == |w|
      invariant forall i | 0 <= i < r :: w[i] < |w| && table[w[i]] == i
      invariant forall d | 0 <= d < |w| && table[d] >= 0 :: table[d] < r && w[table[d]] == d
      invariant forall d | 0 <= d < |w| && table[d] < 0 :: d !in w[..r]
      invariant forall d | 0 <= d < |w| :: table[d] >= -1
    {
      if w[r] >= |w| {
        return None;
      }
      if table[w[r]] >= 0 {
        TwiceMeansNone(w, r, table[w[r]]);
        return None;
      }
      table := table[w[r] := r];
    }
    var out: seq<nat> := [];
    for d := 0 to |w|
      invariant |out| == d
      invariant forall e | 0 <= e < d :: table[e] >= 0 && out[e] == table[e]
    {
      if table[d] < 0 {
        assert w[..|w|] == w;
        MissingMeansNone(w, d);
        return None;
      }
      out := out + [table[d]];
    }
    return Some(out);
  }

  /** The expression with every dimension renamed. */
  function Relabel(e: Expr, inv: seq<nat>): (r: Expr)
    requires DimsBelow(e, |inv|)
  {
    match e
    case Dim(d) => Dim(inv[d])
    case Cst(c) => e
    case Add(l, r) => Add(Relabel(l, inv), Relabel(r, inv))
    case Mul(l, r) => Mul(Relabel(l, inv), Relabel(r, inv))
    case FloorDiv(l, r) => FloorDiv(Relabel(l, inv), Relabel(r, inv))
    case Mod(l, r) => Mod(Relabel(l, inv), Relabel(r, inv))
    case Symbol(_) => e
  }

  /** The index the write map gives iteration `t`. */
  function Written(w: seq<nat>, t: seq<nat>): seq<nat>
    requires forall r | 0 <= r < |w| :: w[r] < |t|
  {
    seq(|w|, r requires 0 <= r < |w| => t[w[r]])
  }

  /** Reading by the relabelled map at the index written is reading by the original at the iteration that writes it. */
  lemma {:induction false} RelabelEval(e: Expr, w: seq<nat>, inv: seq<nat>, t: seq<nat>, symbols: nat -> int)
    requires Permutation(w, inv) && |t| == |w| && DimsBelow(e, |w|)
    ensures DimsBelow(Relabel(e, inv), |w|) && Linear(Relabel(e, inv)) == Linear(e)
    ensures Eval(Relabel(e, inv), Written(w, t), symbols) == Eval(e, t, symbols)
    decreases e
  {
    hide Times;
    match e
    case Dim(d) =>
    case Cst(_) =>
    case Add(l, r) => RelabelEval(l, w, inv, t, symbols); RelabelEval(r, w, inv, t, symbols);
    case Mul(l, r) => RelabelEval(l, w, inv, t, symbols); RelabelEval(r, w, inv, t, symbols);
    case FloorDiv(l, r) => RelabelEval(l, w, inv, t, symbols); RelabelEval(r, w, inv, t, symbols);
    case Mod(l, r) => RelabelEval(l, w, inv, t, symbols); RelabelEval(r, w, inv, t, symbols);
    case Symbol(_) =>
  }

  lemma {:induction false} WrittenInjective(w: seq<nat>, inv: seq<nat>, t: seq<nat>, u: seq<nat>)
    requires Permutation(w, inv) && |t| == |u| == |w|
    ensures Written(w, t) == Written(w, u) ==> t == u
    ensures |Written(inv, t)| == |w| && Written(w, Written(inv, t)) == t
  {
    if Written(w, t) == Written(w, u) {
      forall d: nat | d < |w| ensures t[d] == u[d] {
        assert Written(w, t)[inv[d]] == t[d] && Written(w, u)[inv[d]] == u[d];
      }
    }
  }

  // Byte windows.

  /** A buffer or a view of one: the allocation it bottoms out at, the shifts of the views on the way there, and its
      static layout in elements. */
  datatype Ref = Ref(base: nat, shifts: seq<int>, offset: int, sizes: seq<nat>, strides: seq<int>, bits: nat, space: nat) {
    ghost predicate Valid() { |strides| == |sizes| && bits > 0 }
    function Bytes(): nat { bits / 8 }
  }

  function Shift(shifts: seq<int>): int {
    if shifts == [] then 0 else Shift(shifts[..|shifts| - 1]) + shifts[|shifts| - 1]
  }

  function Magnitude(x: int): nat { if x < 0 then -x else x }

  /** The furthest element any index reaches if every stride counted forwards, plus one. */
  function Span(sizes: seq<nat>, strides: seq<int>): int
    requires |strides| == |sizes|
  {
    if sizes == [] then 1
    else
      var last := |sizes| - 1;
      Span(sizes[..last], strides[..last]) + Times((sizes[last] as int) - 1, Magnitude(strides[last]))
  }

  /** Where the element at `p` starts, in its allocation. */
  ghost function At(r: Ref, p: seq<nat>): int
    requires r.Valid() && |p| <= |r.sizes|
  {
    Shift(r.shifts) + Times(r.offset + Dot(p, r.strides), r.Bytes())
  }

  ghost predicate NoEmptyDimension(sizes: seq<nat>) {
    forall d | 0 <= d < |sizes| :: sizes[d] >= 1
  }

  /** `byteRange`. */
  method ByteRange(r: Ref) returns (window: Option<(int, int)>)
    requires r.Valid()
    ensures window.Some? <==> r.bits % 8 == 0 && NoEmptyDimension(r.sizes)
    ensures window.Some? ==> window.value.0 == Shift(r.shifts) + Times(r.offset, r.Bytes())
    ensures window.Some? ==> window.value.1 == window.value.0 + Times(Span(r.sizes, r.strides), r.Bytes())
  {
    if r.bits % 8 != 0 {
      return None;
    }
    var elemBytes := r.bits / 8;
    var span := 1;
    for d := 0 to |r.sizes|
      invariant span == Span(r.sizes[..d], r.strides[..d])
      invariant forall e | 0 <= e < d :: r.sizes[e] >= 1
    {
      if r.sizes[d] < 1 {
        return None;
      }
      assert r.sizes[..d + 1][..d] == r.sizes[..d] && r.strides[..d + 1][..d] == r.strides[..d];
      span := span + (r.sizes[d] - 1) * if r.strides[d] < 0 then -r.strides[d] else r.strides[d];
    }
    assert r.sizes[..|r.sizes|] == r.sizes && r.strides[..|r.sizes|] == r.strides;
    var lo := r.offset * elemBytes;
    var hi := lo + span * elemBytes;
    for i := 0 to |r.shifts|
      invariant lo == Times(r.offset, r.Bytes()) + Shift(r.shifts[..i])
      invariant hi == lo + Times(span, r.Bytes())
    {
      assert r.shifts[..i + 1][..i] == r.shifts[..i];
      lo, hi := lo + r.shifts[i], hi + r.shifts[i];
    }
    assert r.shifts[..|r.shifts|] == r.shifts;
    return Some((lo, hi));
  }

  /** Every index steps forwards from the first element. */
  ghost predicate Forward(sizes: seq<nat>, strides: seq<int>)
    requires |strides| == |sizes|
  {
    forall d | 0 <= d < |sizes| && sizes[d] > 1 :: strides[d] >= 0
  }

  lemma {:induction false} DotInSpan(sizes: seq<nat>, strides: seq<int>, p: seq<nat>)
    requires |strides| == |sizes| && IsIndex(sizes, p) && Forward(sizes, strides)
    ensures 0 <= Dot(p, strides) < Span(sizes, strides)
    decreases |sizes|
  {
    if sizes != [] {
      var last := |sizes| - 1;
      DotInSpan(sizes[..last], strides[..last], p[..last]);
      DotPrefix(p[..last], strides, last);
      if sizes[last] > 1 {
        StepBound(p[last], sizes[last] - 1, strides[last]);
      } else {
        assert p[last] == 0;
      }
    }
  }

  lemma {:induction false} DotPrefix(p: seq<nat>, strides: seq<int>, n: nat)
    requires |p| <= n <= |strides|
    ensures Dot(p, strides) == Dot(p, strides[..n])
    decreases |p|
  {
    if p != [] {
      DotPrefix(p[..|p| - 1], strides, n);
    }
  }

  lemma StepBound(i: nat, n: nat, k: nat)
    requires i <= n
    ensures 0 <= i * k <= Times(n, k)
  {
  }

  ghost predicate InWindow(r: Ref, p: seq<nat>)
    requires r.Valid() && |p| == |r.sizes|
  {
    var lo := Shift(r.shifts) + Times(r.offset, r.Bytes());
    lo <= At(r, p) && At(r, p) + r.Bytes() <= lo + Times(Span(r.sizes, r.strides), r.Bytes())
  }

  lemma Bytewise(offset: int, dot: int, span: int, bytes: nat)
    requires bytes > 0
    ensures Times(offset, bytes) <= Times(offset + dot, bytes) <==> dot >= 0
    ensures dot < span ==> Times(offset + dot, bytes) + bytes <= Times(offset, bytes) + Times(span, bytes)
  {
    assert (offset + dot) * bytes == offset * bytes + dot * bytes;
    if dot < 0 {
      assert dot * bytes <= -1 * bytes;
    }
    if dot < span {
      assert (dot + 1) * bytes <= span * bytes;
    }
  }

  /** The window holds every byte of the view exactly when no dimension that steps steps backwards. A negative stride
      reaches below the first element, and the window does not. */
  lemma {:induction false} WindowExact(r: Ref)
    requires r.Valid() && r.Bytes() > 0 && NoEmptyDimension(r.sizes)
    ensures (forall p | IsIndex(r.sizes, p) :: InWindow(r, p)) <==> Forward(r.sizes, r.strides)
  {
    hide Times, Span, Dot;
    if Forward(r.sizes, r.strides) {
      forall p | IsIndex(r.sizes, p) ensures InWindow(r, p) {
        DotInSpan(r.sizes, r.strides, p);
        Bytewise(r.offset, Dot(p, r.strides), Span(r.sizes, r.strides), r.Bytes());
      }
    } else {
      var d :| 0 <= d < |r.sizes| && r.sizes[d] > 1 && r.strides[d] < 0;
      var p := Unit(|r.sizes|, d);
      assert IsIndex(r.sizes, p);
      DotUnit(r.strides, |r.sizes|, d);
      Bytewise(r.offset, Dot(p, r.strides), 0, r.Bytes());
      assert !InWindow(r, p);
    }
  }

  // The gather.

  /** `write` gives the destination's index and `read` the source's, in the loops' terms. */
  datatype Site = Site(src: Ref, dst: Ref, read: seq<Expr>, write: seq<nat>) {
    ghost predicate Valid() {
      && src.Valid() && dst.Valid()
      && (forall r | 0 <= r < |read| :: DimsBelow(read[r], |write|))
      && |read| == |src.sizes| && |write| == |dst.sizes|
    }
  }

  /** How far from the source's first element iteration `t` reads, in elements. */
  ghost function ReadOffset(read: seq<Expr>, strides: seq<int>, t: seq<nat>, symbols: nat -> int): int
    requires |read| == |strides| && forall r | 0 <= r < |read| :: DimsBelow(read[r], |t|)
  {
    if read == [] then 0
    else
      var last := |read| - 1;
      ReadOffset(read[..last], strides[..last], t, symbols) + Times(strides[last], Eval(read[last], t, symbols))
  }

  /** The strided view reads at every index written what the gather read there. */
  ghost predicate Reads(site: Site, strides: seq<int>, offset: int, symbols: nat -> int)
    requires site.Valid()
  {
    && |strides| == |site.write| && (forall r | 0 <= r < |site.write| :: site.write[r] < |site.write|)
    && forall t: seq<nat> | |t| == |site.write| :: ReadsAt(site, strides, offset, symbols, t)
  }

  ghost predicate ReadsAt(site: Site, strides: seq<int>, offset: int, symbols: nat -> int, t: seq<nat>)
    requires site.Valid() && |strides| == |site.write| == |t| && (forall r | 0 <= r < |site.write| :: site.write[r] < |site.write|)
  {
    Strided(strides, offset, Written(site.write, t)) == site.src.offset + ReadOffset(site.read, site.src.strides, t, symbols)
  }

  /** The longest suffix of dimensions that both sides lay out packed starts at `k`. */
  ghost predicate LongestCommonRun(view: seq<int>, dst: seq<int>, sizes: seq<nat>, k: nat)
    requires |view| == |dst| == |sizes|
  {
    && k <= |sizes|
    && (forall e | k <= e < |sizes| :: view[e] == dst[e] == RowMajor.Volume(sizes[e + 1..]))
    && (k > 0 ==> view[k - 1] != RowMajor.Volume(sizes[k..]) || dst[k - 1] != RowMajor.Volume(sizes[k..]))
  }

  /** `run` elements follow one another on both sides, and no more. */
  ghost predicate CommonRun(view: seq<int>, dst: seq<int>, sizes: seq<nat>, run: nat)
    requires |view| == |dst| == |sizes|
  {
    exists k: nat :: LongestCommonRun(view, dst, sizes, k) && run == RowMajor.Volume(sizes[k..])
  }

  method RunLength(view: seq<int>, dst: seq<int>, sizes: seq<nat>) returns (run: nat)
    requires |view| == |dst| == |sizes|
    ensures CommonRun(view, dst, sizes, run)
  {
    run := 1;
    assert sizes[|sizes|..] == [];
    for d := |sizes| downto 0
      invariant run == RowMajor.Volume(sizes[d..])
      invariant forall e | d <= e < |sizes| :: view[e] == dst[e] == RowMajor.Volume(sizes[e + 1..])
    {
      if view[d] != run || dst[d] != run {
        assert LongestCommonRun(view, dst, sizes, d + 1);
        return;
      }
      RowMajor.VolumeSuffix(sizes, d);
      run := sizes[d] * run;
    }
    assert LongestCommonRun(view, dst, sizes, 0);
  }

  /** What the rewrite asks for apart from the run. */
  ghost predicate Eligible(site: Site)
    requires site.Valid()
  {
    Permutes(site.write) && OperandsFit(site.src, site.dst) && forall r | 0 <= r < |site.read| :: Linear(site.read[r])
  }

  ghost function Window(r: Ref): (int, int)
    requires r.Valid()
  {
    var lo := Shift(r.shifts) + Times(r.offset, r.Bytes());
    (lo, lo + Times(Span(r.sizes, r.strides), r.Bytes()))
  }

  predicate Overlap(a: (int, int), b: (int, int)) {
    a.0 < b.1 && b.0 < a.1
  }

  predicate Identity(w: seq<nat>) {
    forall r | 0 <= r < |w| :: w[r] == r
  }

  lemma {:induction false} DotZeroStrides(q: seq<nat>, strides: seq<int>)
    requires |q| <= |strides| && forall d | 0 <= d < |strides| :: strides[d] == 0
    ensures Dot(q, strides) == 0
  {
    if q != [] {
      DotZeroStrides(q[..|q| - 1], strides);
    }
  }

  lemma {:induction false} ReadOffsetSnoc(read: seq<Expr>, strides: seq<int>, r: nat, t: seq<nat>, symbols: nat -> int)
    requires |read| == |strides| && r < |read| && forall i | 0 <= i < |read| :: DimsBelow(read[i], |t|)
    ensures ReadOffset(read[..r + 1], strides[..r + 1], t, symbols)
         == ReadOffset(read[..r], strides[..r], t, symbols) + Times(strides[r], Eval(read[r], t, symbols))
  {
    assert read[..r + 1][..r] == read[..r] && strides[..r + 1][..r] == strides[..r];
  }

  /** The strides and the offset of the view the read maps amount to. */
  method LinearizeAll(read: seq<Expr>, strides: seq<int>, offset: int, loops: nat, ghost symbols: nat -> int)
    returns (ok: bool, viewStrides: seq<int>, viewOffset: int)
    requires |read| == |strides| && forall r | 0 <= r < |read| :: DimsBelow(read[r], loops)
    ensures ok <==> forall r | 0 <= r < |read| :: Linear(read[r])
    ensures ok ==> |viewStrides| == loops
    ensures ok ==> forall q: seq<nat> | |q| == loops ::
      Strided(viewStrides, viewOffset, q) == offset + ReadOffset(read, strides, q, symbols)
  {
    hide Dot, Eval, Times;
    var perDim := new int[loops](_ => 0);
    viewOffset := offset;
    forall q: seq<nat> | |q| == loops ensures Dot(q, perDim[..]) == 0 {
      DotZeroStrides(q, perDim[..]);
    }
    for r := 0 to |read|
      invariant forall i | 0 <= i < r :: Linear(read[i])
      invariant forall q: seq<nat> | |q| == loops ::
        Strided(perDim[..], viewOffset, q) == offset + ReadOffset(read[..r], strides[..r], q, symbols)
    {
      var more, total := Linearize(read[r], strides[r], perDim, viewOffset, symbols);
      if !more {
        return false, [], 0;
      }
      viewOffset := total;
      forall q: seq<nat> | |q| == loops
        ensures Strided(perDim[..], viewOffset, q) == offset + ReadOffset(read[..r + 1], strides[..r + 1], q, symbols)
      {
        ReadOffsetSnoc(read, strides, r, q, symbols);
      }
    }
    assert read[..|read|] == read && strides[..|read|] == strides;
    return true, perDim[..], viewOffset;
  }

  function RelabelAll(read: seq<Expr>, inv: seq<nat>): seq<Expr>
    requires forall r | 0 <= r < |read| :: DimsBelow(read[r], |inv|)
  {
    seq(|read|, r requires 0 <= r < |read| => Relabel(read[r], inv))
  }

  lemma {:induction false} RelabelOffset(read: seq<Expr>, strides: seq<int>, w: seq<nat>, inv: seq<nat>, t: seq<nat>, symbols: nat -> int)
    requires Permutation(w, inv) && |t| == |w| && |read| == |strides| && forall r | 0 <= r < |read| :: DimsBelow(read[r], |w|)
    ensures forall r | 0 <= r < |read| :: DimsBelow(RelabelAll(read, inv)[r], |w|)
    ensures ReadOffset(RelabelAll(read, inv), strides, Written(w, t), symbols) == ReadOffset(read, strides, t, symbols)
  {
    forall r | 0 <= r < |read| ensures DimsBelow(RelabelAll(read, inv)[r], |w|) {
      RelabelEval(read[r], w, inv, t, symbols);
    }
    if read != [] {
      hide Times, Eval;
      var last := |read| - 1;
      RelabelOffset(read[..last], strides[..last], w, inv, t, symbols);
      assert RelabelAll(read, inv)[..last] == RelabelAll(read[..last], inv);
      RelabelEval(read[last], w, inv, t, symbols);
    }
  }

  /** The checks on the two operands: same elements, same memory, and windows that do not overlap. */
  method OperandsApart(src: Ref, dst: Ref) returns (ok: bool)
    requires src.Valid() && dst.Valid()
    ensures ok <==> OperandsFit(src, dst)
  {
    hide Window;
    if src.bits != dst.bits || src.space != dst.space {
      return false;
    }
    var source := ByteRange(src);
    var target := ByteRange(dst);
    if source.None? || target.None? {
      return false;
    }
    WindowIs(src);
    WindowIs(dst);
    return src.base != dst.base || !Overlap(source.value, target.value);
  }

  ghost predicate OperandsFit(src: Ref, dst: Ref)
    requires src.Valid() && dst.Valid()
  {
    && src.bits == dst.bits && src.space == dst.space && src.bits % 8 == 0
    && NoEmptyDimension(src.sizes) && NoEmptyDimension(dst.sizes)
    && (src.base == dst.base ==> !Overlap(Window(src), Window(dst)))
  }

  lemma WindowIs(r: Ref)
    requires r.Valid()
    ensures Window(r).0 == Shift(r.shifts) + Times(r.offset, r.Bytes())
    ensures Window(r).1 == Window(r).0 + Times(Span(r.sizes, r.strides), r.Bytes())
  {
  }

  ghost predicate Permutes(w: seq<nat>) {
    exists inv :: Permutation(w, inv)
  }

  lemma PermutationFacts(w: seq<nat>, inv: seq<nat>)
    requires Permutation(w, inv)
    ensures |inv| == |w| && Permutes(w) && forall r | 0 <= r < |w| :: w[r] < |w|
  {
  }

  /** The read, in terms of the destination's index. */
  ghost predicate ReadsSame(site: Site, read: seq<Expr>, symbols: nat -> int)
    requires site.Valid()
  {
    && |read| == |site.read| && (forall r | 0 <= r < |read| :: DimsBelow(read[r], |site.write|))
    && (forall r | 0 <= r < |read| :: Linear(read[r]) == Linear(site.read[r]))
    && (forall r | 0 <= r < |site.write| :: site.write[r] < |site.write|)
    && forall t: seq<nat> | |t| == |site.write| ::
         ReadOffset(read, site.src.strides, Written(site.write, t), symbols) == ReadOffset(site.read, site.src.strides, t, symbols)
  }

  lemma {:induction false} RelabelReadsSame(site: Site, inv: seq<nat>, symbols: nat -> int)
    requires site.Valid() && Permutation(site.write, inv)
    ensures ReadsSame(site, RelabelAll(site.read, inv), symbols)
  {
    hide ReadOffset, Eval;
    forall r | 0 <= r < |site.read|
      ensures DimsBelow(RelabelAll(site.read, inv)[r], |site.write|) && Linear(RelabelAll(site.read, inv)[r]) == Linear(site.read[r])
    {
      RelabelEval(site.read[r], site.write, inv, inv, symbols);
    }
    forall t: seq<nat> | |t| == |site.write|
      ensures ReadOffset(RelabelAll(site.read, inv), site.src.strides, Written(site.write, t), symbols)
           == ReadOffset(site.read, site.src.strides, t, symbols)
    {
      RelabelOffset(site.read, site.src.strides, site.write, inv, t, symbols);
    }
  }

  lemma {:induction false} IdentityReadsSame(site: Site, symbols: nat -> int)
    requires site.Valid() && Identity(site.write)
    ensures ReadsSame(site, site.read, symbols)
  {
    hide ReadOffset, Eval;
    forall t: seq<nat> | |t| == |site.write| ensures Written(site.write, t) == t {
    }
  }

  method RelabelledRead(site: Site, ghost symbols: nat -> int) returns (read: Option<seq<Expr>>)
    requires site.Valid()
    ensures read.Some? <==> Permutes(site.write)
    ensures read.Some? ==> ReadsSame(site, read.value, symbols)
  {
    hide Permutation, ReadsSame;
    var inv := InversePermutation(site.write);
    if inv.None? {
      return None;
    }
    PermutationFacts(site.write, inv.value);
    if Identity(site.write) {
      IdentityReadsSame(site, symbols);
      return Some(site.read);
    }
    RelabelReadsSame(site, inv.value, symbols);
    return Some(RelabelAll(site.read, inv.value));
  }

  /** The run both sides share is worth a copy. */
  ghost predicate LongEnough(site: Site, strides: seq<int>)
    requires site.Valid() && |strides| == |site.write|
  {
    exists k: nat :: LongestCommonRun(strides, site.dst.strides, site.dst.sizes, k) && RunBytesFrom(site, k) >= LEAST_RUN_BYTES
  }

  function RunBytesFrom(site: Site, k: nat): nat
    requires k <= |site.dst.sizes|
  {
    RowMajor.Volume(site.dst.sizes[k..]) * site.src.Bytes()
  }

  lemma RunContinues(view: seq<int>, dst: seq<int>, sizes: seq<nat>, j: nat, k: nat)
    requires |view| == |dst| == |sizes| && LongestCommonRun(view, dst, sizes, j) && j < k <= |sizes|
    ensures !LongestCommonRun(view, dst, sizes, k)
  {
    hide RowMajor.Volume;
    var e := k - 1;
    assert sizes[e + 1..] == sizes[k..];
    assert view[e] == dst[e] == RowMajor.Volume(sizes[e + 1..]);
  }

  lemma {:induction false} LongestCommonRunUnique(view: seq<int>, dst: seq<int>, sizes: seq<nat>, j: nat, k: nat)
    requires |view| == |dst| == |sizes| && LongestCommonRun(view, dst, sizes, j) && LongestCommonRun(view, dst, sizes, k)
    ensures j == k
  {
    assert j <= |sizes| && k <= |sizes|;
    hide LongestCommonRun;
    if j < k {
      RunContinues(view, dst, sizes, j, k);
    } else if k < j {
      RunContinues(view, dst, sizes, k, j);
    }
  }

  lemma {:induction false} RunDecides(site: Site, strides: seq<int>, run: nat)
    requires site.Valid() && |strides| == |site.write| && CommonRun(strides, site.dst.strides, site.dst.sizes, run)
    ensures LongEnough(site, strides) <==> run * (site.src.bits / 8) >= 8
  {
    hide RowMajor.Volume;
    var k: nat :| LongestCommonRun(strides, site.dst.strides, site.dst.sizes, k) && run == RowMajor.Volume(site.dst.sizes[k..]);
    hide LongestCommonRun;
    assert run * (site.src.bits / 8) == RunBytesFrom(site, k);
    forall j: nat | LongestCommonRun(strides, site.dst.strides, site.dst.sizes, j) ensures j == k {
      LongestCommonRunUnique(strides, site.dst.strides, site.dst.sizes, j, k);
    }
  }

  /** The rewrite: the offset and the strides of the view to copy from. */
  method GatherToCopy(site: Site, ghost symbols: nat -> int) returns (view: Option<(int, seq<int>)>)
    requires site.Valid()
    ensures view.Some? ==> Eligible(site) && Reads(site, view.value.1, view.value.0, symbols)
    ensures view.Some? ==> LongEnough(site, view.value.1)
    ensures view.None? && Eligible(site) ==>
      exists strides, offset :: Reads(site, strides, offset, symbols) && !LongEnough(site, strides)
  {
    hide OperandsFit, ReadOffset, Dot, CommonRun, LongEnough;
    var read := RelabelledRead(site, symbols);
    if read.None? {
      return None;
    }
    var apart := OperandsApart(site.src, site.dst);
    if !apart {
      return None;
    }
    var ok, strides, offset := LinearizeAll(read.value, site.src.strides, site.src.offset, |site.write|, symbols);
    if !ok {
      return None;
    }
    assert Reads(site, strides, offset, symbols);
    var run := RunLength(strides, site.dst.strides, site.dst.sizes);
    RunDecides(site, strides, run);
    if run * (site.src.bits / 8) < LEAST_RUN_BYTES {
      return None;
    }
    return Some((offset, strides));
  }

  // The two programs.

  /** Where the allocations lie. */
  type Places = nat -> int

  function Start(r: Ref, places: Places): int {
    places(r.base) + Shift(r.shifts)
  }

  /** The bytes iteration `t` moves. */
  ghost function Gathered(site: Site, places: Places, symbols: nat -> int): seq<nat> -> seq<Move>
    requires site.Valid() && forall r | 0 <= r < |site.write| :: site.write[r] < |site.write|
  {
    (t: seq<nat>) => if |t| == |site.write| then Block(ToAt(site, places, t), FromAt(site, places, symbols, t), site.dst.Bytes()) else []
  }

  ghost function ToAt(site: Site, places: Places, t: seq<nat>): int
    requires site.Valid() && |t| == |site.write| && forall r | 0 <= r < |site.write| :: site.write[r] < |site.write|
  {
    places(site.dst.base) + At(site.dst, Written(site.write, t))
  }

  ghost function FromAt(site: Site, places: Places, symbols: nat -> int, t: seq<nat>): int
    requires site.Valid() && |t| == |site.write|
  {
    Start(site.src, places) + Times(site.src.offset + ReadOffset(site.read, site.src.strides, t, symbols), site.src.Bytes())
  }

  /** Every move of the loop nest over `loops`, in its order. */
  ghost function GatherMoves(site: Site, loops: seq<nat>, places: Places, symbols: nat -> int): seq<Move>
    requires site.Valid() && forall r | 0 <= r < |site.write| :: site.write[r] < |site.write|
  {
    Under(loops, Gathered(site, places, symbols), [])
  }

  /** The copy from the reinterpreted view, as `memrefCopy` carries it out. */
  function CopyJob(site: Site, strides: seq<int>, offset: int, places: Places): Job {
    Job(site.dst.sizes, Scaled(site.dst.strides, site.dst.Bytes()), Scaled(strides, site.dst.Bytes()),
        Start(site.dst, places) + Times(site.dst.offset, site.dst.Bytes()),
        Start(site.src, places) + Times(offset, site.dst.Bytes()), site.dst.Bytes())
  }

  lemma {:induction false} SameTo(site: Site, strides: seq<int>, offset: int, places: Places, t: seq<nat>)
    requires site.Valid() && |t| == |site.write| == |strides| && forall r | 0 <= r < |site.write| :: site.write[r] < |site.write|
    ensures CopyJob(site, strides, offset, places).To(Written(site.write, t)) == ToAt(site, places, t)
  {
    hide Times, Dot;
    var i, b := Written(site.write, t), site.dst.Bytes();
    DotScaled(i, site.dst.strides, b);
    TimesIs(Dot(i, site.dst.strides), b);
    TimesPlus(site.dst.offset, Dot(i, site.dst.strides), b);
  }

  lemma {:induction false} SameFrom(site: Site, strides: seq<int>, offset: int, places: Places, symbols: nat -> int, t: seq<nat>)
    requires site.Valid() && Reads(site, strides, offset, symbols) && |t| == |site.write| && site.src.bits == site.dst.bits
    ensures CopyJob(site, strides, offset, places).From(Written(site.write, t)) == FromAt(site, places, symbols, t)
  {
    hide Times, Dot, ReadOffset;
    var i, b := Written(site.write, t), site.dst.Bytes();
    DotScaled(i, strides, b);
    TimesIs(Dot(i, strides), b);
    TimesPlus(offset, Dot(i, strides), b);
    assert ReadsAt(site, strides, offset, symbols, t);
  }

  /** An element of the copy moves what the iteration that writes it moved. */
  lemma {:induction false} SameElement(site: Site, strides: seq<int>, offset: int, places: Places, symbols: nat -> int, t: seq<nat>)
    requires site.Valid() && Reads(site, strides, offset, symbols) && |t| == |site.write| && site.src.bits == site.dst.bits
    ensures CopyJob(site, strides, offset, places).Element(Written(site.write, t)) == Gathered(site, places, symbols)(t)
  {
    hide Written, ToAt, FromAt, CopyJob;
    SameTo(site, strides, offset, places, t);
    SameFrom(site, strides, offset, places, symbols, t);
    assert CopyJob(site, strides, offset, places).elem == site.dst.Bytes() by { CopyJobElem(site, strides, offset, places); }
  }

  lemma CopyJobElem(site: Site, strides: seq<int>, offset: int, places: Places)
    ensures var j := CopyJob(site, strides, offset, places); j.elem == site.dst.Bytes() && j.sizes == site.dst.sizes
    ensures var j := CopyJob(site, strides, offset, places); |j.toStrides| == |site.dst.strides| && |j.fromStrides| == |strides|
  {
  }

  lemma TimesPlus(x: int, y: int, k: int)
    ensures Times(x + y, k) == Times(x, k) + Times(y, k)
  {
  }

  /** The loops run over what the write map makes the destination's shape. */
  ghost predicate LoopsFit(site: Site, loops: seq<nat>)
    requires site.Valid()
  {
    |loops| == |site.write| && forall r | 0 <= r < |site.write| :: site.write[r] < |loops| && loops[site.write[r]] == site.dst.sizes[r]
  }

  lemma {:induction false} WrittenIndex(site: Site, inv: seq<nat>, loops: seq<nat>, t: seq<nat>)
    requires site.Valid() && Permutation(site.write, inv) && LoopsFit(site, loops) && |t| == |loops|
    ensures IsIndex(loops, t) <==> IsIndex(site.dst.sizes, Written(site.write, t))
  {
    var i := Written(site.write, t);
    if IsIndex(site.dst.sizes, i) {
      forall d: nat | d < |loops| ensures t[d] < loops[d] {
        assert i[inv[d]] == t[d] && site.dst.sizes[inv[d]] == loops[d];
      }
    }
  }

  /** The two programs make the same moves, if not in the same order. */
  lemma {:induction false} SameMoves(site: Site, inv: seq<nat>, loops: seq<nat>, strides: seq<int>, offset: int, places: Places,
                                     symbols: nat -> int, m: Move)
    requires site.Valid() && Permutation(site.write, inv) && LoopsFit(site, loops) && site.src.bits == site.dst.bits
    requires Reads(site, strides, offset, symbols)
    ensures CopyJob(site, strides, offset, places).Valid()
    ensures m in GatherMoves(site, loops, places, symbols) <==> m in CopyJob(site, strides, offset, places).Moves()
  {
    var job := CopyJob(site, strides, offset, places);
    CopyJobElem(site, strides, offset, places);
    assert job.Valid();
    hide Reads, CopyJob, Written, Permutation, Gathered;
    UnderMembers(loops, Gathered(site, places, symbols), [], m);
    UnderMembers(job.sizes, job.Element, [], m);
    if m in GatherMoves(site, loops, places, symbols) {
      var t :| IsIndex(loops, t) && m in Gathered(site, places, symbols)(t);
      GatheredIsCopied(site, inv, loops, strides, offset, places, symbols, t);
      assert [] <= Written(site.write, t);
    }
    if m in job.Moves() {
      var i :| IsIndex(job.sizes, i) && m in job.Element(i);
      LoopsLength(site, loops);
      var t := Unwritten(site, inv, i);
      GatheredIsCopied(site, inv, loops, strides, offset, places, symbols, t);
      assert [] <= t;
    }
  }

  /** What an iteration moves, the copy moves at the index written. */
  lemma {:induction false} GatheredIsCopied(site: Site, inv: seq<nat>, loops: seq<nat>, strides: seq<int>, offset: int, places: Places,
                                            symbols: nat -> int, t: seq<nat>)
    requires site.Valid() && Permutation(site.write, inv) && LoopsFit(site, loops) && site.src.bits == site.dst.bits
    requires Reads(site, strides, offset, symbols) && |t| == |loops|
    ensures |t| == |site.write| && forall r | 0 <= r < |site.write| :: site.write[r] < |site.write|
    ensures var job := CopyJob(site, strides, offset, places);
      && (IsIndex(loops, t) <==> IsIndex(job.sizes, Written(site.write, t)))
      && Gathered(site, places, symbols)(t) == job.Element(Written(site.write, t))
  {
    hide Reads, CopyJob, Written, Permutation, Gathered;
    CopyJobElem(site, strides, offset, places);
    LoopsLength(site, loops);
    WrittenIndex(site, inv, loops, t);
    SameElement(site, strides, offset, places, symbols, t);
  }

  lemma LoopsLength(site: Site, loops: seq<nat>)
    requires site.Valid() && LoopsFit(site, loops)
    ensures |loops| == |site.write| == |site.dst.sizes| && forall r | 0 <= r < |site.write| :: site.write[r] < |site.write|
  {
  }

  lemma Unwritten(site: Site, inv: seq<nat>, i: seq<nat>) returns (t: seq<nat>)
    requires Permutation(site.write, inv) && |i| == |site.write|
    ensures |t| == |site.write| && Written(site.write, t) == i
  {
    t := Written(inv, i);
    WrittenInjective(site.write, inv, i, i);
  }

  /** Every iteration reads an element of the source. */
  ghost predicate ReadsInside(site: Site, loops: seq<nat>, symbols: nat -> int)
    requires site.Valid() && LoopsFit(site, loops)
  {
    forall t | IsIndex(loops, t) :: ReadsElement(site, symbols, t)
  }

  ghost predicate ReadsElement(site: Site, symbols: nat -> int, t: seq<nat>)
    requires site.Valid() && |t| == |site.write|
  {
    exists p :: IsIndex(site.src.sizes, p) && IsRead(site, symbols, t, p)
  }

  ghost predicate IsRead(site: Site, symbols: nat -> int, t: seq<nat>, p: seq<nat>)
    requires site.Valid() && |t| == |site.write| && |p| == |site.read|
  {
    forall r | 0 <= r < |site.read| :: Eval(site.read[r], t, symbols) == p[r]
  }

  lemma {:induction false} ReadOffsetIsDot(read: seq<Expr>, strides: seq<int>, t: seq<nat>, symbols: nat -> int, p: seq<nat>)
    requires |read| == |strides| == |p| && forall r | 0 <= r < |read| :: DimsBelow(read[r], |t|)
    requires forall r | 0 <= r < |read| :: Eval(read[r], t, symbols) == p[r]
    ensures ReadOffset(read, strides, t, symbols) == Dot(p, strides)
  {
    if read != [] {
      hide Eval;
      var last := |read| - 1;
      ReadOffsetIsDot(read[..last], strides[..last], t, symbols, p[..last]);
      DotPrefix(p[..last], strides, last);
      TimesIs(strides[last], p[last]);
      assert strides[last] * p[last] == p[last] * strides[last];
    }
  }

  /** What an iteration of the gather does, written out: the bytes of the source's element at the index the read maps give go
      to the destination's element at the index the write map gives. */
  lemma {:induction false} GatherTakes(site: Site, places: Places, symbols: nat -> int, t: seq<nat>, p: seq<nat>, i: seq<nat>)
    requires site.Valid() && |t| == |site.write| == |i| && |p| == |site.read| && site.src.bits == site.dst.bits
    requires forall r | 0 <= r < |site.write| :: site.write[r] < |t| && i[r] == t[site.write[r]]
    requires forall r | 0 <= r < |site.read| :: p[r] == Eval(site.read[r], t, symbols)
    ensures |p| == |site.src.strides| && |i| == |site.dst.strides|
    ensures var bytes := site.dst.bits / 8;
      Gathered(site, places, symbols)(t) == Block(
        places(site.dst.base) + Shift(site.dst.shifts) + (site.dst.offset + Dot(i, site.dst.strides)) * bytes,
        places(site.src.base) + Shift(site.src.shifts) + (site.src.offset + Dot(p, site.src.strides)) * bytes, bytes)
  {
    hide Eval, Dot, Block, ToAt, FromAt, Shift;
    TakesTo(site, places, t, i);
    TakesFrom(site, places, symbols, t, p);
  }

  lemma {:induction false} TakesTo(site: Site, places: Places, t: seq<nat>, i: seq<nat>)
    requires site.Valid() && |t| == |site.write| == |i|
    requires forall r | 0 <= r < |site.write| :: site.write[r] < |t| && i[r] == t[site.write[r]]
    ensures |i| == |site.dst.strides|
    ensures ToAt(site, places, t) == places(site.dst.base) + Shift(site.dst.shifts) + (site.dst.offset + Dot(i, site.dst.strides)) * (site.dst.bits / 8)
  {
    hide Dot, Shift, Times, DimsBelow;
    assert Written(site.write, t) == i;
    TimesIs(site.dst.offset + Dot(i, site.dst.strides), site.dst.bits / 8);
  }

  lemma {:induction false} TakesFrom(site: Site, places: Places, symbols: nat -> int, t: seq<nat>, p: seq<nat>)
    requires site.Valid() && |t| == |site.write| && |p| == |site.read|
    requires forall r | 0 <= r < |site.read| :: p[r] == Eval(site.read[r], t, symbols)
    ensures |p| == |site.src.strides|
    ensures FromAt(site, places, symbols, t)
         == places(site.src.base) + Shift(site.src.shifts) + (site.src.offset + Dot(p, site.src.strides)) * (site.src.bits / 8)
  {
    hide Dot, Shift, Times, Eval, ReadOffset;
    ReadOffsetIsDot(site.read, site.src.strides, t, symbols, p);
    TimesIs(site.src.offset + Dot(p, site.src.strides), site.src.bits / 8);
  }

  /** An interval of addresses. */
  ghost predicate Inside(window: (int, int), at: int, place: int) {
    place + window.0 <= at < place + window.1
  }

  lemma {:induction false} InsideOf(r: Ref, p: seq<nat>, b: nat, place: int)
    requires r.Valid() && r.Bytes() > b && NoEmptyDimension(r.sizes) && Forward(r.sizes, r.strides) && IsIndex(r.sizes, p)
    ensures Inside(Window(r), place + At(r, p) + b, place)
  {
    hide Times, Span, Dot;
    WindowExact(r);
    assert InWindow(r, p);
  }

  /** A byte of an element lies in the window of the view the element is of. */
  lemma {:induction false} ByteInside(r: Ref, p: seq<nat>, start: int, b: nat, place: int)
    requires r.Valid() && b < r.Bytes() && NoEmptyDimension(r.sizes) && Forward(r.sizes, r.strides) && IsIndex(r.sizes, p)
    requires start == place + At(r, p)
    ensures Inside(Window(r), start + b, place)
  {
    InsideOf(r, p, b, place);
  }

  lemma {:induction false} WriteInside(site: Site, inv: seq<nat>, loops: seq<nat>, places: Places, t: seq<nat>, b: nat)
    requires site.Valid() && LoopsFit(site, loops) && OperandsFit(site.src, site.dst) && Permutation(site.write, inv)
    requires Forward(site.dst.sizes, site.dst.strides) && IsIndex(loops, t) && b < site.dst.Bytes()
    ensures Inside(Window(site.dst), ToAt(site, places, t) + b, places(site.dst.base))
  {
    hide Window, At, Forward, Inside, OperandsFit;
    LoopsLength(site, loops);
    WrittenIndex(site, inv, loops, t);
    FitFacts(site);
    ByteInside(site.dst, Written(site.write, t), ToAt(site, places, t), b, places(site.dst.base));
  }

  lemma {:induction false} ReadInside(site: Site, loops: seq<nat>, places: Places, symbols: nat -> int, t: seq<nat>, b: nat)
    requires site.Valid() && LoopsFit(site, loops) && OperandsFit(site.src, site.dst) && ReadsInside(site, loops, symbols)
    requires Forward(site.src.sizes, site.src.strides) && IsIndex(loops, t) && b < site.dst.Bytes()
    ensures Inside(Window(site.src), FromAt(site, places, symbols, t) + b, places(site.src.base))
  {
    hide Window, At, Forward, Inside, OperandsFit, ReadOffset, FromAt;
    FitFacts(site);
    assert ReadsElement(site, symbols, t);
    var p :| IsIndex(site.src.sizes, p) && IsRead(site, symbols, t, p);
    ReadOffsetIsDot(site.read, site.src.strides, t, symbols, p);
    FromIsAt(site, places, symbols, t, p);
    ByteInside(site.src, p, FromAt(site, places, symbols, t), b, places(site.src.base));
  }

  lemma FitFacts(site: Site)
    requires site.Valid() && OperandsFit(site.src, site.dst)
    ensures site.src.Bytes() == site.dst.Bytes() && NoEmptyDimension(site.src.sizes) && NoEmptyDimension(site.dst.sizes)
  {
  }

  /** Every byte a gather reads is in the source's window, and every byte it writes in the destination's. */
  lemma {:induction false} MoveInside(site: Site, loops: seq<nat>, places: Places, symbols: nat -> int, m: Move)
    requires site.Valid() && LoopsFit(site, loops) && OperandsFit(site.src, site.dst) && ReadsInside(site, loops, symbols)
    requires Forward(site.src.sizes, site.src.strides) && Forward(site.dst.sizes, site.dst.strides) && Permutes(site.write)
    requires m in GatherMoves(site, loops, places, symbols)
    ensures Inside(Window(site.dst), m.to, places(site.dst.base)) && Inside(Window(site.src), m.from, places(site.src.base))
  {
    hide Window, Inside, Forward, OperandsFit, ReadsInside, ToAt, FromAt, Permutation;
    var t, b := MoveOf(site, loops, places, symbols, m);
    var inv :| Permutation(site.write, inv);
    WriteInside(site, inv, loops, places, t, b);
    ReadInside(site, loops, places, symbols, t, b);
  }

  /** The iteration a move belongs to, and which byte of its element it moves. */
  lemma {:induction false} MoveOf(site: Site, loops: seq<nat>, places: Places, symbols: nat -> int, m: Move) returns (t: seq<nat>, b: nat)
    requires site.Valid() && LoopsFit(site, loops) && m in GatherMoves(site, loops, places, symbols)
    ensures IsIndex(loops, t) && b < site.dst.Bytes()
    ensures m == Move(ToAt(site, places, t) + b, FromAt(site, places, symbols, t) + b)
  {
    hide ToAt, FromAt;
    UnderMembers(loops, Gathered(site, places, symbols), [], m);
    t :| IsIndex(loops, t) && m in Gathered(site, places, symbols)(t);
    b :| b < site.dst.Bytes() && Block(ToAt(site, places, t), FromAt(site, places, symbols, t), site.dst.Bytes())[b] == m;
  }

  lemma FromIsAt(site: Site, places: Places, symbols: nat -> int, t: seq<nat>, p: seq<nat>)
    requires site.Valid() && |t| == |site.write| && |p| == |site.src.sizes|
    requires ReadOffset(site.read, site.src.strides, t, symbols) == Dot(p, site.src.strides)
    ensures FromAt(site, places, symbols, t) == places(site.src.base) + At(site.src, p)
  {
    hide Times, Dot, ReadOffset;
  }

  /** Where the window lies in memory. */
  ghost function PlacedWindow(r: Ref, places: Places): (int, int)
    requires r.Valid()
  {
    (places(r.base) + Window(r).0, places(r.base) + Window(r).1)
  }

  /** Both operands lie in memory. */
  ghost predicate InMemory(site: Site, places: Places, size: nat)
    requires site.Valid()
  {
    var a, b := PlacedWindow(site.src, places), PlacedWindow(site.dst, places);
    0 <= a.0 && a.1 <= size && 0 <= b.0 && b.1 <= size
  }

  /** Their windows are apart where they lie, whatever they are called. */
  ghost predicate PlacedApart(site: Site, places: Places)
    requires site.Valid()
  {
    !Overlap(PlacedWindow(site.src, places), PlacedWindow(site.dst, places))
  }

  /** For one defining operation the check on the windows settles it, wherever the allocation lies. */
  lemma SameBaseApart(site: Site, places: Places)
    requires site.Valid() && OperandsFit(site.src, site.dst) && site.src.base == site.dst.base
    ensures PlacedApart(site, places)
  {
    hide Window;
  }

  lemma {:induction false} SameEffect(mem: seq<byte>, a: seq<Move>, b: seq<Move>)
    requires InBounds(a, |mem|) && Apart(a) && SingleValued(a) && forall m :: m in a <==> m in b
    ensures InBounds(b, |mem|) && Apart(b) && Apply(mem, a) == Apply(mem, b)
  {
    ApplyPointwise(mem, a);
    ApplyPointwise(mem, b);
    forall i | 0 <= i < |mem| ensures Apply(mem, a)[i] == Apply(mem, b)[i] {
      if m :| m in a && m.to == i {
        assert m in b;
      }
    }
  }

  /** What the rewrite accepts is exact when no stride is negative and the windows are apart where they lie: the copy is
      legal and leaves all of memory as the gather did, for any permutation on the write. The source's elements may
      overlap each other; the destination's may not. */
  lemma {:induction false} GatherIsCopy(site: Site, loops: seq<nat>, strides: seq<int>, offset: int, places: Places, symbols: nat -> int, mem: seq<byte>)
    requires site.Valid() && Eligible(site) && LoopsFit(site, loops) && Reads(site, strides, offset, symbols)
    requires Forward(site.src.sizes, site.src.strides) && Forward(site.dst.sizes, site.dst.strides)
    requires ReadsInside(site, loops, symbols) && InMemory(site, places, |mem|) && PlacedApart(site, places)
    requires CopyJob(site, strides, offset, places).Valid() && Injective(CopyJob(site, strides, offset, places))
    ensures CopyJob(site, strides, offset, places).Safe(|mem|)
    ensures InBounds(GatherMoves(site, loops, places, symbols), |mem|)
    ensures Apply(mem, GatherMoves(site, loops, places, symbols)) == Apply(mem, CopyJob(site, strides, offset, places).Moves())
  {
    var job := CopyJob(site, strides, offset, places);
    var moves := GatherMoves(site, loops, places, symbols);
    var inv :| Permutation(site.write, inv);
    hide CopyJob, Reads, ReadsInside, Forward, GatherMoves, Window, Job.Moves, ByteOf;
    forall m ensures m in moves <==> m in job.Moves() {
      SameMoves(site, inv, loops, strides, offset, places, symbols, m);
    }
    forall m | m in moves
      ensures Inside(Window(site.dst), m.to, places(site.dst.base)) && Inside(Window(site.src), m.from, places(site.src.base))
    {
      MoveInside(site, loops, places, symbols, m);
    }
    assert Apart(moves);
    forall m, n | m in moves && n in moves && m.to == n.to ensures m.from == n.from {
      OneSource(job, m, n);
    }
    SameEffect(mem, moves, job.Moves());
  }

  /** Every byte of both windows is moved, or written. */
  ghost predicate Dense(site: Site, places: Places, moves: seq<Move>)
    requires site.Valid()
  {
    && (forall a | Inside(Window(site.src), a, places(site.src.base)) :: exists m :: m in moves && m.from == a)
    && forall a | Inside(Window(site.dst), a, places(site.dst.base)) :: exists m :: m in moves && m.to == a
  }

  lemma OverlapShares(site: Site, places: Places) returns (a: int)
    requires site.Valid() && !PlacedApart(site, places)
    requires Window(site.src).0 < Window(site.src).1 && Window(site.dst).0 < Window(site.dst).1
    ensures Inside(Window(site.src), a, places(site.src.base)) && Inside(Window(site.dst), a, places(site.dst.base))
  {
    hide Window;
    var v, w := PlacedWindow(site.src, places), PlacedWindow(site.dst, places);
    a := if v.0 < w.0 then w.0 else v.0;
  }

  /** Where the views have no gaps that is exactly when the copy is legal: it reads nothing that it writes if and only if
      the windows are apart where they lie. */
  lemma {:induction false} LegalExactly(site: Site, loops: seq<nat>, places: Places, symbols: nat -> int)
    requires site.Valid() && Eligible(site) && LoopsFit(site, loops) && ReadsInside(site, loops, symbols)
    requires Forward(site.src.sizes, site.src.strides) && Forward(site.dst.sizes, site.dst.strides)
    requires Dense(site, places, GatherMoves(site, loops, places, symbols))
    requires Window(site.src).0 < Window(site.src).1 && Window(site.dst).0 < Window(site.dst).1
    ensures Apart(GatherMoves(site, loops, places, symbols)) <==> PlacedApart(site, places)
  {
    hide Window, ReadsInside, Forward, GatherMoves, Permutes, OperandsFit, Linear, LoopsFit, Inside;
    LoopsLength(site, loops);
    var moves := GatherMoves(site, loops, places, symbols);
    if PlacedApart(site, places) {
      forall m, n | m in moves && n in moves ensures m.to != n.from {
        MoveInside(site, loops, places, symbols, m);
        MoveInside(site, loops, places, symbols, n);
        ApartWindows(site, places, m.to, n.from);
      }
    } else {
      var a := OverlapShares(site, places);
      var m :| m in moves && m.from == a;
      var n :| n in moves && n.to == a;
    }
  }

  lemma ApartWindows(site: Site, places: Places, to: int, from: int)
    requires site.Valid() && PlacedApart(site, places)
    requires Inside(Window(site.dst), to, places(site.dst.base)) && Inside(Window(site.src), from, places(site.src.base))
    ensures to != from
  {
    hide Window;
  }

  // Two gathers the checks accept whose copy is not legal.

  /** The rewrite makes of the gather a copy from this view. */
  ghost predicate Accepts(site: Site, strides: seq<int>, offset: int, symbols: nat -> int) {
    && site.Valid() && |strides| == |site.write|
    && Eligible(site) && Reads(site, strides, offset, symbols) && LongEnough(site, strides)
  }

  /** Over these loops it reads what it writes. */
  ghost predicate Clashes(site: Site, loops: seq<nat>, places: Places, symbols: nat -> int) {
    && site.Valid() && LoopsFit(site, loops) && |loops| == |site.write|
    && !Apart(GatherMoves(site, loops, places, symbols))
  }

  /** What one iteration writes another reads. */
  lemma {:induction false} Collides(site: Site, loops: seq<nat>, places: Places, symbols: nat -> int, t: seq<nat>, u: seq<nat>)
    requires site.Valid() && LoopsFit(site, loops) && site.dst.Bytes() > 0 && IsIndex(loops, t) && IsIndex(loops, u)
    requires ToAt(site, places, t) == FromAt(site, places, symbols, u)
    ensures Clashes(site, loops, places, symbols)
  {
    hide ToAt, FromAt;
    FirstByte(site, loops, places, symbols, t);
    FirstByte(site, loops, places, symbols, u);
  }

  lemma {:induction false} FirstByte(site: Site, loops: seq<nat>, places: Places, symbols: nat -> int, t: seq<nat>)
    requires site.Valid() && LoopsFit(site, loops) && site.dst.Bytes() > 0 && IsIndex(loops, t)
    ensures Move(ToAt(site, places, t), FromAt(site, places, symbols, t)) in GatherMoves(site, loops, places, symbols)
  {
    hide ToAt, FromAt;
    var m := Move(ToAt(site, places, t), FromAt(site, places, symbols, t));
    UnderMembers(loops, Gathered(site, places, symbols), [], m);
    BlockAt(ToAt(site, places, t), FromAt(site, places, symbols, t), site.dst.Bytes(), 0);
    assert [] <= t && m in Gathered(site, places, symbols)(t);
  }

  /** Every allocation at the start of memory. */
  function AtZero(base: nat): int { 0 }

  /** Eight bytes of one arena, and eight more four bytes on, named by two operations. */
  function TwoNames(): Site {
    Site(Ref(0, [], 0, [8], [1], 8, 0), Ref(1, [], 4, [8], [1], 8, 0), [Dim(0)], [0])
  }

  lemma {:induction false} DotOne(t: seq<nat>, stride: int)
    requires |t| == 1
    ensures Dot(t, [stride]) == t[0] * stride
  {
    assert t[..0] == [];
  }

  lemma {:induction false} TwoNamesPlaces(symbols: nat -> int, t: seq<nat>)
    requires |t| == 1
    ensures TwoNames().Valid() && ReadOffset(TwoNames().read, TwoNames().src.strides, t, symbols) == t[0]
    ensures ToAt(TwoNames(), AtZero, t) == 4 + t[0] && FromAt(TwoNames(), AtZero, symbols, t) == t[0]
  {
    var site := TwoNames();
    assert site.read[..0] == [] && site.read[0] == Dim(0);
    assert ReadOffset([], [], t, symbols) == 0;
    assert site.src.strides[..0] == [];
    assert Written(site.write, t) == t;
    DotOne(t, 1);
  }

  lemma TwoNamesShape()
    ensures var site := TwoNames(); site.Valid() && site.write == [0] && site.read == [Dim(0)]
    ensures var r := TwoNames().src; r.offset == 0 && r.sizes == [8] && r.strides == [1] && r.shifts == [] && r.base == 0
    ensures var r := TwoNames().dst; r.offset == 4 && r.sizes == [8] && r.strides == [1] && r.shifts == [] && r.base == 1
    ensures TwoNames().src.bits == TwoNames().dst.bits == 8 && TwoNames().src.space == TwoNames().dst.space
  {
  }

  lemma {:induction false} TwoNamesFit()
    ensures TwoNames().Valid() && OperandsFit(TwoNames().src, TwoNames().dst) && LoopsFit(TwoNames(), [8])
  {
    hide TwoNames, Window;
    TwoNamesShape();
  }

  lemma {:induction false} TwoNamesEligible()
    ensures TwoNames().Valid() && Eligible(TwoNames())
  {
    hide OperandsFit, TwoNames;
    TwoNamesFit();
    TwoNamesShape();
    assert Permutation([0], [0]);
    PermutationFacts([0], [0]);
  }

  /** The view is the source itself. */
  lemma {:induction false} TwoNamesRead(symbols: nat -> int)
    ensures TwoNames().Valid() && Reads(TwoNames(), [1], 0, symbols)
  {
    hide TwoNames, Dot, ReadOffset;
    TwoNamesShape();
    forall t: seq<nat> | |t| == 1 ensures ReadsAt(TwoNames(), [1], 0, symbols, t) {
      TwoNamesPlaces(symbols, t);
      DotOne(t, 1);
      assert Written(TwoNames().write, t) == t;
    }
  }

  /** Its run of eight bytes is long enough. */
  lemma {:induction false} TwoNamesRun()
    ensures TwoNames().Valid() && LongEnough(TwoNames(), [1])
  {
    hide TwoNames;
    TwoNamesShape();
    var sizes := TwoNames().dst.sizes;
    assert sizes[1..] == [] && sizes[0..] == [8] && [8][1..] == [];
    assert RowMajor.Volume([8]) == 8;
    assert LongestCommonRun([1], TwoNames().dst.strides, sizes, 0);
  }

  /** The two names are of one arena: an element is written four bytes further on before it is read. */
  lemma {:induction false} TwoNamesCollide(symbols: nat -> int)
    ensures Accepts(TwoNames(), [1], 0, symbols) && TwoNames().src.base != TwoNames().dst.base
    ensures Clashes(TwoNames(), [8], AtZero, symbols)
  {
    hide TwoNames, Reads, Eligible, LongEnough, Clashes, ToAt, FromAt, ReadOffset, LoopsFit, OperandsFit;
    TwoNamesEligible();
    TwoNamesRead(symbols);
    TwoNamesRun();
    TwoNamesFit();
    TwoNamesShape();
    TwoNamesPlaces(symbols, [0]);
    TwoNamesPlaces(symbols, [4]);
    TwoNamesBytes();
    assert IsIndex([8], [0]) && IsIndex([8], [4]);
    Collides(TwoNames(), [8], AtZero, symbols, [0], [4]);
  }

  lemma TwoNamesBytes()
    ensures TwoNames().dst.Bytes() == 1
  {
  }

  /** Two rows of eight bytes laid out backwards, of which the second, at the lower addresses, is read into a row one
      byte below it. */
  function BackwardRow(): Site {
    Site(Ref(0, [], 9, [2, 8], [-8, 1], 8, 0), Ref(0, [], 0, [1, 8], [8, 1], 8, 0), [Cst(1), Dim(1)], [0, 1])
  }

  lemma BackwardShape()
    ensures var site := BackwardRow(); site.Valid() && site.write == [0, 1] && site.read == [Cst(1), Dim(1)]
    ensures var r := BackwardRow().src; r.offset == 9 && r.sizes == [2, 8] && r.strides == [-8, 1] && r.shifts == [] && r.base == 0
    ensures var r := BackwardRow().dst; r.offset == 0 && r.sizes == [1, 8] && r.strides == [8, 1] && r.shifts == [] && r.base == 0
    ensures BackwardRow().src.bits == BackwardRow().dst.bits == 8 && BackwardRow().src.space == BackwardRow().dst.space
  {
  }

  lemma {:induction false} SpanTwo(m: nat, n: nat, x: int, y: int)
    ensures Span([m, n], [x, y]) == 1 + Times((m as int) - 1, Magnitude(x)) + Times((n as int) - 1, Magnitude(y))
  {
    hide Times;
    var sizes: seq<nat>, one: seq<nat> := [m, n], [m];
    assert sizes[..1] == one && [x, y][..1] == [x] && one[..0] == [] && [x][..0] == [];
    assert Span(one, [x]) == Span([], []) + Times((m as int) - 1, Magnitude(x));
  }

  lemma {:induction false} BackwardWindows()
    ensures BackwardRow().Valid() && Window(BackwardRow().src) == (9, 25) && Window(BackwardRow().dst) == (0, 8)
  {
    hide BackwardRow, Span;
    BackwardShape();
    SpanTwo(2, 8, -8, 1);
    SpanTwo(1, 8, 8, 1);
  }

  lemma {:induction false} BackwardFits()
    ensures BackwardRow().Valid() && OperandsFit(BackwardRow().src, BackwardRow().dst)
  {
    hide BackwardRow, Window, NoEmptyDimension;
    BackwardShape();
    BackwardWindows();
    NoneEmpty(2, 8);
    NoneEmpty(1, 8);
  }

  lemma NoneEmpty(m: nat, n: nat)
    requires m > 0 && n > 0
    ensures NoEmptyDimension([m, n])
  {
  }

  lemma BackwardLoops()
    ensures BackwardRow().Valid() && LoopsFit(BackwardRow(), [1, 8])
  {
    hide BackwardRow;
    BackwardShape();
  }

  lemma {:induction false} DotTwo(t: seq<nat>, x: int, y: int)
    requires |t| == 2
    ensures Dot(t, [x, y]) == t[0] * x + t[1] * y
  {
    assert t[..1][..0] == [];
    assert Dot(t[..1], [x, y]) == Dot([], [x, y]) + t[0] * x;
  }

  lemma {:induction false} BackwardOffset(symbols: nat -> int, t: seq<nat>)
    requires |t| == 2
    ensures ReadOffset([Cst(1), Dim(1)], [-8, 1], t, symbols) == (t[1] as int) - 8
  {
    var read, strides := [Cst(1), Dim(1)], [-8, 1];
    assert read[..1] == [Cst(1)] && [Cst(1)][..0] == [] && strides[..1] == [-8] && [-8][..0] == [];
    assert ReadOffset([], [], t, symbols) == 0;
    assert ReadOffset([Cst(1)], [-8], t, symbols) == -8;
  }

  lemma {:induction false} BackwardPlaces(symbols: nat -> int, t: seq<nat>)
    requires |t| == 2
    ensures BackwardRow().Valid() && ReadOffset(BackwardRow().read, BackwardRow().src.strides, t, symbols) == (t[1] as int) - 8
    ensures Written(BackwardRow().write, t) == t
    ensures ToAt(BackwardRow(), AtZero, t) == 8 * t[0] + t[1]
    ensures FromAt(BackwardRow(), AtZero, symbols, t) == 1 + t[1]
  {
    hide BackwardRow, ReadOffset, Dot;
    BackwardShape();
    BackwardOffset(symbols, t);
    assert Written(BackwardRow().write, t) == t;
    DotTwo(t, 8, 1);
  }

  lemma {:induction false} BackwardEligible()
    ensures BackwardRow().Valid() && Eligible(BackwardRow())
  {
    hide OperandsFit, BackwardRow;
    BackwardFits();
    BackwardShape();
    assert Permutation([0, 1], [0, 1]);
    PermutationFacts([0, 1], [0, 1]);
  }

  /** The view is one row. */
  lemma {:induction false} BackwardRead(symbols: nat -> int)
    ensures BackwardRow().Valid() && Reads(BackwardRow(), [0, 1], 1, symbols)
  {
    hide BackwardRow, Dot, ReadOffset, Written;
    BackwardShape();
    forall t: seq<nat> | |t| == 2 ensures ReadsAt(BackwardRow(), [0, 1], 1, symbols, t) {
      BackwardPlaces(symbols, t);
      DotTwo(t, 0, 1);
    }
  }

  /** Its run of eight bytes is long enough. */
  lemma {:induction false} BackwardRun()
    ensures BackwardRow().Valid() && LongEnough(BackwardRow(), [0, 1])
  {
    hide BackwardRow;
    BackwardShape();
    var sizes := BackwardRow().dst.sizes;
    assert sizes[2..] == [] && sizes[1..] == [8] && [8][1..] == [];
    assert RowMajor.Volume([8]) == 8;
    assert LongestCommonRun([0, 1], BackwardRow().dst.strides, sizes, 1);
  }

  /** The window leaves out what lies below the first element, and a byte there is written before it is read. */
  lemma {:induction false} BackwardCollides(symbols: nat -> int)
    ensures Accepts(BackwardRow(), [0, 1], 1, symbols) && StepsBack(BackwardRow().src)
    ensures Clashes(BackwardRow(), [1, 8], AtZero, symbols)
  {
    hide BackwardRow, Reads, Eligible, LongEnough, Clashes, ToAt, FromAt, ReadOffset, Written, LoopsFit;
    BackwardEligible();
    BackwardRead(symbols);
    BackwardRun();
    BackwardShape();
    assert BackwardRow().src.strides[0] == -8 && BackwardRow().src.sizes[0] == 2;
    BackwardLoops();
    BackwardPlaces(symbols, [0, 1]);
    BackwardPlaces(symbols, [0, 0]);
    BackwardBytes();
    assert IsIndex([1, 8], [0, 1]) && IsIndex([1, 8], [0, 0]);
    Collides(BackwardRow(), [1, 8], AtZero, symbols, [0, 1], [0, 0]);
  }

  /** Some dimension that steps has a negative stride. */
  ghost predicate StepsBack(r: Ref) {
    |r.strides| == |r.sizes| && exists d :: 0 <= d < |r.sizes| && r.sizes[d] > 1 && r.strides[d] < 0
  }

  lemma BackwardBytes()
    ensures BackwardRow().dst.Bytes() == 1
  {
  }

  lemma {:induction false} OneSource(j: Job, m: Move, n: Move)
    requires j.Valid() && Injective(j) && m in j.Moves() && n in j.Moves() && m.to == n.to
    ensures m.from == n.from
  {
    hide Job.Moves;
    MovesMembers(j, m);
    MovesMembers(j, n);
    var p, b: nat :| ByteOf(j, p, b, m);
    var q, c: nat :| ByteOf(j, q, c, n);
  }

  /** That copy is the one `memrefCopy` makes when it is handed the view and the destination. */
  lemma {:induction false} CopyIsMemrefCopy(site: Site, strides: seq<int>, offset: int, places: Places)
    requires site.Valid() && |strides| == |site.write| && Start(site.src, places) >= 0 && Start(site.dst, places) >= 0
    ensures CopyJob(site, strides, offset, places)
         == JobOf(site.dst.Bytes(), Descriptor(Start(site.src, places), offset, site.dst.sizes, strides),
                  Descriptor(Start(site.dst, places), site.dst.offset, site.dst.sizes, site.dst.strides))
  {
    TimesIs(site.dst.offset, site.dst.Bytes());
    TimesIs(offset, site.dst.Bytes());
  }
}
