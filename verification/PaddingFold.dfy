/** Folding a zero-filled, centred and possibly strided window into a convolution's own padding and input dilation
    (`FoldPaddingIntoConv` in `lib/Conversion/LinalgToGemmlir/LinalgToGemmlirPass.cpp`; the extents are those
    of `convOutExtent` in `lib/Gemmlir/GemmlirOps.cpp`). */
module PaddingFold {
  import opened Arith
  import opened Sums
  import opened Wrappers

  /** A position in a four-dimensional buffer: batch, row, column, channel. */
  datatype Place = Place(n: nat, y: nat, x: nat, ch: nat)

  type Image = Place -> int

  /** What happens between the padded buffer's allocation and the convolution, as far as it matters: whether an
      operation fills the padded buffer with zero, makes a window of it, copies the source into the window, uses the
      window or the buffer in any other way, or writes or frees the source. */
  datatype Op = ZeroFill | MakeWindow(oneUse: bool) | CopyToWindow | UsesWindow | NamesPadded | WriteSource | FreeSource | Unrelated

  /** Nothing to do with the padded buffer. */
  predicate Elsewhere(op: Op) {
    op.WriteSource? || op.FreeSource? || op.Unrelated?
  }

  /** The window of the padded buffer: extents of source and buffer, offsets and strides per dimension. */
  datatype Geometry = Geometry(size: seq<nat>, full: seq<nat>, offset: seq<int>, stride: seq<nat>)

  /** The convolution's attributes. `dense` tells the dense from the depthwise operation. */
  class Call {
    const dense: bool
    const kernel: nat
    const stride: nat
    const dilation: nat
    var readsSource: bool
    var padding: nat
    var inputDilation: nat

    constructor (dense: bool, kernel: nat, stride: nat, dilation: nat, inputDilation: nat)
      ensures this.dense == dense && this.kernel == kernel && this.stride == stride && this.dilation == dilation
      ensures !readsSource && padding == 0 && this.inputDilation == inputDilation
    {
      this.dense, this.kernel, this.stride, this.dilation := dense, kernel, stride, dilation;
      readsSource, padding, this.inputDilation := false, 0, inputDilation;
    }
  }

  predicate ShapeMatches(g: Geometry) {
    && |g.size| == |g.full| == |g.offset| == |g.stride| == 4
    && g.stride[0] == 1 && g.stride[3] == 1 && g.stride[2] == g.stride[1] && g.stride[1] >= 1
    && g.offset[0] == 0 && g.offset[3] == 0 && g.full[0] == g.size[0] && g.full[3] == g.size[3]
    && g.offset[2] == g.offset[1] && g.offset[1] >= 0
    && !(g.stride[1] == 1 && g.offset[1] == 0)
    && (forall d | 1 <= d <= 2 :: g.full[d] == g.stride[1] * (g.size[d] - 1) + 1 + 2 * g.offset[1])
  }

  /** The guards on the window and the call. */
  predicate Foldable(g: Geometry, dense: bool, kernel: nat, stride: nat, inputDilation: nat) {
    && ShapeMatches(g)
    && (g.stride[1] != 1 ==> dense && g.stride[1] == 2 && stride == 1 && inputDilation == 1)
    && g.offset[1] < kernel
  }

  /** Padding on all four sides by less than the kernel is folded, and so is the spreading of an input by two. */
  lemma PaddingIsFoldable(n: nat, h: nat, w: nat, c: nat, pad: nat, dense: bool, kernel: nat, stride: nat, inputDilation: nat)
    requires h > 0 && w > 0 && pad < kernel
    ensures pad > 0 ==> Foldable(Geometry([n, h, w, c], [n, h + 2 * pad, w + 2 * pad, c], [0, pad, pad, 0], [1, 1, 1, 1]), dense, kernel, stride, inputDilation)
    ensures Foldable(Geometry([n, h, w, c], [n, 2 * h - 1 + 2 * pad, 2 * w - 1 + 2 * pad, c], [0, pad, pad, 0], [1, 2, 2, 1]), true, kernel, 1, 1)
  {
  }

  /** The window is used only once it exists. */
  ghost predicate WellFormed(ops: seq<Op>) {
    forall i | 0 <= i < |ops| && (ops[i].CopyToWindow? || ops[i].UsesWindow?) :: exists w :: 0 <= w < i && ops[w].MakeWindow?
  }

  /** The padded buffer is filled once with zero and written once, through one window, and otherwise left alone. */
  ghost predicate Scanned(ops: seq<Op>, fill: nat, window: nat, copy: nat) {
    && fill < |ops| && window < |ops| && copy < |ops|
    && ops[fill].ZeroFill? && ops[window] == MakeWindow(true) && ops[copy].CopyToWindow?
    && forall i | 0 <= i < |ops| && i != fill && i != window && i != copy :: Elsewhere(ops[i])
  }

  /** What the scan lets pass are writes and deallocations of the source and what has to do with neither buffer. */
  lemma ScannedIs(ops: seq<Op>, fill: nat, window: nat, copy: nat)
    ensures Scanned(ops, fill, window, copy) <==>
      && fill < |ops| && window < |ops| && copy < |ops|
      && ops[fill] == ZeroFill && ops[window] == MakeWindow(true) && ops[copy] == CopyToWindow
      && forall i | 0 <= i < |ops| :: i == fill || i == window || i == copy || ops[i] in {WriteSource, FreeSource, Unrelated}
  {
  }

  /** One operation can stand in a scanned program only as what it is the first of. */
  ghost predicate Partial(ops: seq<Op>, n: nat, fill: Option<nat>, window: Option<nat>, copy: Option<nat>) {
    && n <= |ops|
    && (fill.Some? ==> 0 <= fill.value < n && ops[fill.value].ZeroFill?)
    && (window.Some? ==> 0 <= window.value < n && ops[window.value] == MakeWindow(true))
    && (copy.Some? ==> 0 <= copy.value < n && ops[copy.value].CopyToWindow?)
    && forall i: nat | i < n && Some(i) != fill && Some(i) != window && Some(i) != copy :: Elsewhere(ops[i])
  }

  /** The scan from the allocation to the call. It does not look at the order of fill and copy, nor at what happens
      to the source after the copy. */
  method Scan(ops: seq<Op>) returns (found: bool, fill: nat, window: nat, copy: nat)
    requires WellFormed(ops)
    ensures found ==> Scanned(ops, fill, window, copy)
    ensures !found ==> forall f, w, c :: !Scanned(ops, f, w, c)
  {
    var f, w, c: Option<nat> := None, None, None;
    found, fill, window, copy := false, 0, 0, 0;
    for i := 0 to |ops|
      invariant Partial(ops, i, f, w, c)
    {
      match ops[i]
      case MakeWindow(oneUse) =>
        if w.Some? || !oneUse {
          return;
        }
        w := Some(i);
      case ZeroFill =>
        if f.Some? {
          return;
        }
        f := Some(i);
      case NamesPadded =>
        return;
      case CopyToWindow =>
        if c.Some? {
          return;
        }
        c := Some(i);
      case UsesWindow =>
        return;
      case WriteSource =>
      case FreeSource =>
      case Unrelated =>
    }
    if f.None? || c.None? || w.None? {
      return;
    }
    return true, f.value, w.value, c.value;
  }

  /** `matchAndRewrite`: the call reads the source itself, with the border and the spread as its own. */
  method Fold(call: Call, ops: seq<Op>, namedLater: bool, g: Geometry) returns (folded: bool, ghost fill: nat, ghost window: nat, ghost copy: nat)
    requires WellFormed(ops) && !call.readsSource && call.inputDilation >= 1 && (!call.dense ==> call.inputDilation == 1)
    modifies call
    ensures folded ==> old(call.padding) == 0 && !namedLater && Scanned(ops, fill, window, copy)
    ensures folded ==> Foldable(g, call.dense, call.kernel, call.stride, old(call.inputDilation))
    ensures folded ==> call.readsSource && call.padding == g.offset[1] && call.inputDilation == g.stride[1]
    ensures !folded ==> call.readsSource == old(call.readsSource) && call.padding == old(call.padding) && call.inputDilation == old(call.inputDilation)
    ensures !folded ==> old(call.padding) != 0 || namedLater || !Foldable(g, call.dense, call.kernel, call.stride, old(call.inputDilation))
                        || forall f, w, c :: !Scanned(ops, f, w, c)
  {
    folded, fill, window, copy := false, 0, 0, 0;
    if call.padding != 0 {
      return;
    }
    var found, f, w, c := Scan(ops);
    if !found || namedLater {
      return;
    }
    if !Foldable(g, call.dense, call.kernel, call.stride, call.inputDilation) {
      return;
    }
    folded, fill, window, copy := true, f, w, c;
    call.readsSource := true;
    call.padding := g.offset[1];
    if call.dense {
      call.inputDilation := g.stride[1];
    }
  }

  // What the two forms compute.

  /** The padded buffer and the source. Each write of the source is opaque, and so is what freeing it leaves, and what any
      other use of the padded buffer or of the window makes of it: `data` says what is there afterwards. */
  datatype State = State(padded: Image, source: Image)

  function Zero(): Image { (p: Place) => 0 }

  /** One axis of a window: position `v` is where source element `(v - offset) / spread` goes. */
  predicate Hits(v: nat, offset: nat, spread: nat, size: nat)
    requires spread > 0
  {
    v >= offset && (v - offset) % spread == 0 && (v - offset) / spread < size
  }

  /** A source spread out and surrounded by a border: what the padded buffer ends up holding, and equally what a
      convolution with padding and input dilation slides its filter over. */
  function Bordered(source: Image, background: Image, rows: nat, cols: nat, offset: nat, spread: nat): Image
    requires spread > 0
  {
    (p: Place) =>
      if Hits(p.y, offset, spread, rows) && Hits(p.x, offset, spread, cols)
      then source(Place(p.n, (p.y - offset) / spread, (p.x - offset) / spread, p.ch))
      else background(p)
  }

  /** Source element `(n, y, x, ch)` is at `(n, offset + y * spread, offset + x * spread, ch)`. */
  lemma BorderedPlaces(source: Image, background: Image, rows: nat, cols: nat, offset: nat, spread: nat, n: nat, y: nat, x: nat, ch: nat)
    requires spread > 0 && y < rows && x < cols
    ensures Bordered(source, background, rows, cols, offset, spread)(Place(n, offset + y * spread, offset + x * spread, ch)) == source(Place(n, y, x, ch))
  {
    hide Hits;
    HitsAt(offset + y * spread, y, offset, spread, rows);
    HitsAt(offset + x * spread, x, offset, spread, cols);
  }

  /** What is not background is at the place of a source element. */
  lemma BorderedElsewhere(source: Image, background: Image, rows: nat, cols: nat, offset: nat, spread: nat, p: Place) returns (y: nat, x: nat)
    requires spread > 0 && Bordered(source, background, rows, cols, offset, spread)(p) != background(p)
    ensures y < rows && x < cols && p.y == offset + y * spread && p.x == offset + x * spread
  {
    hide Hits;
    assert Hits(p.y, offset, spread, rows) && Hits(p.x, offset, spread, cols);
    HitFrom(p.y, offset, spread, rows);
    HitFrom(p.x, offset, spread, cols);
    y, x := (p.y - offset) / spread, (p.x - offset) / spread;
  }

  lemma HitsAt(v: nat, i: nat, offset: nat, spread: nat, size: nat)
    requires spread > 0 && i < size && v == offset + i * spread
    ensures Hits(v, offset, spread, size) && (v - offset) / spread == i
  {
    DivModUnique(i, 0, spread);
  }

  lemma HitFrom(v: nat, offset: nat, spread: nat, size: nat)
    requires spread > 0 && Hits(v, offset, spread, size)
    ensures v >= offset && (v - offset) / spread < size && v == offset + (v - offset) / spread * spread
  {
  }

  function Exec(op: Op, i: nat, s: State, g: Geometry, data: nat -> State): State
    requires ShapeMatches(g)
  {
    match op
    case ZeroFill => s.(padded := Zero())
    case CopyToWindow => s.(padded := Bordered(s.source, s.padded, g.size[1], g.size[2], g.offset[1], g.stride[1]))
    case NamesPadded => s.(padded := data(i).padded)
    case UsesWindow => s.(padded := data(i).padded)
    case WriteSource => s.(source := data(i).source)
    case FreeSource => s.(source := data(i).source)
    case _ => s
  }

  /** A window has been made that has other uses than the one looked at, wherever they are. */
  predicate Open(ops: seq<Op>, n: nat) {
    exists w :: 0 <= w < n && w < |ops| && ops[w] == MakeWindow(false)
  }

  /** The state after the operations before position `n`; while such a window is about, the padded buffer may be written at
      any time. */
  function Run(ops: seq<Op>, n: nat, s: State, g: Geometry, data: nat -> State): State
    requires ShapeMatches(g) && n <= |ops|
  {
    if n == 0 then s
    else
      var next := Exec(ops[n - 1], n - 1, Run(ops, n - 1, s, g, data), g, data);
      if Open(ops, n) then next.(padded := data(n - 1).padded) else next
  }

  /** What a convolution slides over: an extent per spatial axis and a value at every position, zero outside the extents. */
  datatype Field = Field(rows: int, cols: int, at: Image)

  /** The extent of an axis spread out. */
  function Spread(extent: nat, dilation: nat): int { dilation * (extent - 1) + 1 }

  function FieldOf(image: Image, rows: nat, cols: nat, padding: nat, inputDilation: nat): Field
    requires inputDilation > 0
  {
    Field(Spread(rows, inputDilation) + 2 * padding, Spread(cols, inputDilation) + 2 * padding,
          Bordered(image, Zero(), rows, cols, padding, inputDilation))
  }

  predicate Changes(op: Op) {
    op.WriteSource? || op.FreeSource?
  }

  /** The source is neither written nor freed between the copy and the call. */
  ghost predicate SourceKept(ops: seq<Op>, copy: nat) {
    forall i | copy < i < |ops| :: !Changes(ops[i])
  }

  /** An operation that leaves the padded buffer as it is. */
  predicate Quiet(op: Op) {
    op.MakeWindow? || op.WriteSource? || op.FreeSource? || op.Unrelated?
  }

  lemma {:induction false} QuietRun(ops: seq<Op>, lo: nat, hi: nat, s: State, g: Geometry, data: nat -> State)
    requires ShapeMatches(g) && lo <= hi <= |ops|
    requires forall i | lo <= i < hi :: Quiet(ops[i])
    requires !Open(ops, hi)
    ensures Run(ops, hi, s, g, data).padded == Run(ops, lo, s, g, data).padded
    ensures (forall i | lo <= i < hi :: !Changes(ops[i])) ==>
      Run(ops, hi, s, g, data).source == Run(ops, lo, s, g, data).source
    decreases hi
  {
    if lo < hi {
      QuietRun(ops, lo, hi - 1, s, g, data);
    }
  }

  lemma {:induction false} SourceRun(ops: seq<Op>, lo: nat, hi: nat, s: State, g: Geometry, data: nat -> State)
    requires ShapeMatches(g) && lo <= hi <= |ops|
    requires forall i | lo <= i < hi :: !Changes(ops[i])
    ensures Run(ops, hi, s, g, data).source == Run(ops, lo, s, g, data).source
    decreases hi
  {
    if lo < hi {
      SourceRun(ops, lo, hi - 1, s, g, data);
    }
  }

  /** A program that passes the scan has one window with one use. */
  lemma ScannedClosed(ops: seq<Op>, fill: nat, window: nat, copy: nat)
    requires Scanned(ops, fill, window, copy)
    ensures forall n: nat :: !Open(ops, n)
  {
  }

  /** What the buffers hold at the call. */
  lemma {:induction false} AtTheCall(ops: seq<Op>, fill: nat, window: nat, copy: nat, s: State, g: Geometry, data: nat -> State)
    requires ShapeMatches(g) && Scanned(ops, fill, window, copy)
    ensures var end, copied := Run(ops, |ops|, s, g, data), Run(ops, copy, s, g, data);
      && (fill < copy ==> end.padded == Bordered(copied.source, Zero(), g.size[1], g.size[2], g.offset[1], g.stride[1]))
      && (copy < fill ==> end.padded == Zero())
      && (SourceKept(ops, copy) ==> end.source == copied.source)
  {
    hide Bordered;
    ScannedClosed(ops, fill, window, copy);
    if fill < copy {
      QuietRun(ops, fill + 1, copy, s, g, data);
      QuietRun(ops, copy + 1, |ops|, s, g, data);
    } else {
      QuietRun(ops, fill + 1, |ops|, s, g, data);
    }
    if SourceKept(ops, copy) {
      SourceRun(ops, copy, |ops|, s, g, data);
    }
  }

  // What the call computes.

  /** C division, which truncates toward zero. */
  function TowardZero(a: int, b: int): int
    requires b > 0
  {
    if a >= 0 then a / b else -(-a / b)
  }

  /** `convOutExtent`. */
  function OutExtent(extent: int, kernel: nat, stride: nat, padding: int, dilation: nat): int
    requires stride > 0
  {
    TowardZero(extent + 2 * padding - (dilation * (kernel - 1) + 1), stride) + 1
  }

  /** An extent of at least one is the number of windows that fit: the last one does and the next would not. */
  lemma OutExtentFits(extent: int, kernel: nat, stride: nat, padding: int, dilation: nat)
    requires stride > 0
    ensures var n, reach := OutExtent(extent, kernel, stride, padding, dilation), dilation * (kernel - 1) + 1;
      extent + 2 * padding >= reach ==>
        n >= 1 && (n - 1) * stride + reach <= extent + 2 * padding < n * stride + reach
  {
  }

  /** The parts of the call the fold leaves as they are, and its input dilation before the fold. */
  datatype Params = Params(dense: bool, kernel: nat, stride: nat, dilation: nat, inputDilation: nat, channels: nat, outputs: nat)

  /** Weights by row, column, input channel and output channel; the depthwise filter has no input channel. */
  type Filter = (nat, nat, nat, nat) -> int

  /** One tap of an accumulator: over all channels, or for the depthwise call on its own. */
  function Tap(a: Image, filter: Filter, v: Params, n: nat, y: nat, x: nat, i: nat, j: nat, k: nat): int {
    if v.dense then Sum(v.channels, (ch: nat) => a(Place(n, y, x, ch)) * filter(i, j, ch, k))
    else a(Place(n, y, x, k)) * filter(i, j, 0, k)
  }

  /** An output of the dense call uses every channel, one of the depthwise call its own. */
  predicate Uses(v: Params, k: nat, ch: nat) {
    if v.dense then ch < v.channels else ch == k
  }

  /** Where output `o` has its tap `i`. */
  function Along(v: Params, o: nat, i: nat): nat { o * v.stride + i * v.dilation }

  function Row(a: Image, filter: Filter, v: Params, n: nat, oy: nat, ox: nat, i: nat, k: nat): int {
    Sum(v.kernel, (j: nat) => Tap(a, filter, v, n, Along(v, oy, i), Along(v, ox, j), i, j, k))
  }

  /** One accumulator of the convolution, before what is made of it with bias, scale and pooling. */
  function Output(a: Image, filter: Filter, v: Params, n: nat, oy: nat, ox: nat, k: nat): int {
    Sum(v.kernel, (i: nat) => Row(a, filter, v, n, oy, ox, i, k))
  }

  function Before(end: State, g: Geometry, v: Params): Field
    requires ShapeMatches(g) && v.inputDilation > 0
  {
    FieldOf(end.padded, g.full[1], g.full[2], 0, v.inputDilation)
  }

  function After(end: State, g: Geometry): Field
    requires ShapeMatches(g)
  {
    FieldOf(end.source, g.size[1], g.size[2], g.offset[1], g.stride[1])
  }

  function Rows(a: Field, v: Params): int
    requires v.stride > 0
  {
    OutExtent(a.rows, v.kernel, v.stride, 0, v.dilation)
  }

  function Cols(a: Field, v: Params): int
    requires v.stride > 0
  {
    OutExtent(a.cols, v.kernel, v.stride, 0, v.dilation)
  }

  /** The call is one the operation's verifier accepts, on a window and a call the guards accept. */
  ghost predicate Verified(g: Geometry, v: Params) {
    && v.kernel > 0 && v.stride > 0 && v.dilation > 0 && v.inputDilation > 0
    && (v.inputDilation > 1 ==> v.dense && v.stride == 1)
    && ShapeMatches(g) && Foldable(g, v.dense, v.kernel, v.stride, v.inputDilation)
    && (forall d | 0 <= d < 4 :: g.size[d] > 0) && v.channels == g.size[3]
    && v.outputs > 0 && (!v.dense ==> v.outputs == v.channels)
    && forall d | 1 <= d <= 2 :: OutExtent(Spread(g.full[d], v.inputDilation), v.kernel, v.stride, 0, v.dilation) >= 1
  }

  /** The call has the same output extents before and after the fold, and the same accumulator at every position, for any
      filter. */
  ghost predicate KeepsSums(end: State, g: Geometry, v: Params)
    requires Verified(g, v)
  {
    var a, b := Before(end, g, v), After(end, g);
    && Rows(a, v) == Rows(b, v) && Cols(a, v) == Cols(b, v)
    && forall filter: Filter, n: nat, oy: nat, ox: nat, k: nat | oy < Rows(a, v) && ox < Cols(a, v) ::
         Output(a.at, filter, v, n, oy, ox, k) == Output(b.at, filter, v, n, oy, ox, k)
  }

  // When the fold is sound.

  /** The order and the quiet the scan does not check. */
  ghost predicate Sound(ops: seq<Op>, fill: nat, copy: nat) {
    fill < copy && SourceKept(ops, copy)
  }

  /** A position the window puts source data at. */
  predicate Data(g: Geometry, y: nat, x: nat)
    requires ShapeMatches(g)
  {
    Hits(y, g.offset[1], g.stride[1], g.size[1]) && Hits(x, g.offset[1], g.stride[1], g.size[2])
  }

  /** The source element it puts there. */
  function Origin(g: Geometry, p: Place): Place
    requires ShapeMatches(g)
  {
    if Data(g, p.y, p.x) then Place(p.n, (p.y - g.offset[1]) / g.stride[1], (p.x - g.offset[1]) / g.stride[1], p.ch) else p
  }

  /** Some tap of some output reads source data. */
  ghost predicate Meets(g: Geometry, v: Params, oy: nat, ox: nat, i: nat, j: nat)
    requires Verified(g, v)
  {
    && i < v.kernel && j < v.kernel
    && oy < OutExtent(g.full[1], v.kernel, v.stride, 0, v.dilation) && ox < OutExtent(g.full[2], v.kernel, v.stride, 0, v.dilation)
    && Data(g, Along(v, oy, i), Along(v, ox, j))
  }

  ghost predicate Unread(g: Geometry, v: Params)
    requires Verified(g, v)
  {
    forall oy, ox, i, j :: !Meets(g, v, oy, ox, i, j)
  }

  lemma {:induction false} OutputExt(a: Image, b: Image, filter: Filter, v: Params, n: nat, oy: nat, ox: nat, k: nat)
    requires forall i: nat, j: nat | i < v.kernel && j < v.kernel ::
      Tap(a, filter, v, n, Along(v, oy, i), Along(v, ox, j), i, j, k)
      == Tap(b, filter, v, n, Along(v, oy, i), Along(v, ox, j), i, j, k)
    ensures Output(a, filter, v, n, oy, ox, k) == Output(b, filter, v, n, oy, ox, k)
  {
    hide Tap;
    forall i: nat | i < v.kernel ensures Row(a, filter, v, n, oy, ox, i, k) == Row(b, filter, v, n, oy, ox, i, k) {
      SumExt(v.kernel,
        (j: nat) => Tap(a, filter, v, n, Along(v, oy, i), Along(v, ox, j), i, j, k),
        (j: nat) => Tap(b, filter, v, n, Along(v, oy, i), Along(v, ox, j), i, j, k));
    }
    SumExt(v.kernel, (i: nat) => Row(a, filter, v, n, oy, ox, i, k), (i: nat) => Row(b, filter, v, n, oy, ox, i, k));
  }

  lemma {:induction false} TapExt(a: Image, b: Image, filter: Filter, v: Params, n: nat, y: nat, x: nat, i: nat, j: nat, k: nat)
    requires forall ch: nat | Uses(v, k, ch) :: a(Place(n, y, x, ch)) == b(Place(n, y, x, ch))
    ensures Tap(a, filter, v, n, y, x, i, j, k) == Tap(b, filter, v, n, y, x, i, j, k)
  {
    if v.dense {
      SumExt(v.channels, (ch: nat) => a(Place(n, y, x, ch)) * filter(i, j, ch, k), (ch: nat) => b(Place(n, y, x, ch)) * filter(i, j, ch, k));
    }
  }

  /** What the two calls slide over, position by position. */
  lemma {:induction false} FieldsAt(ops: seq<Op>, fill: nat, window: nat, copy: nat, s: State, g: Geometry, v: Params, data: nat -> State, p: Place)
    requires Verified(g, v) && v.inputDilation == 1 && Scanned(ops, fill, window, copy)
    ensures var end, copied := Run(ops, |ops|, s, g, data), Run(ops, copy, s, g, data);
      && After(end, g).at(p) == (if Data(g, p.y, p.x) then end.source(Origin(g, p)) else 0)
      && Before(end, g, v).at(p) == if fill < copy && Data(g, p.y, p.x) then copied.source(Origin(g, p)) else 0
  {
    AtTheCall(ops, fill, window, copy, s, g, data);
    hide Run;
    DataInside(g, p.y, p.x);
    Unspread(p.y, g.full[1]);
    Unspread(p.x, g.full[2]);
  }

  /** The data lie within the buffer. */
  lemma {:induction false} DataInside(g: Geometry, y: nat, x: nat)
    requires ShapeMatches(g)
    ensures Data(g, y, x) ==> y < g.full[1] && x < g.full[2]
  {
    if Data(g, y, x) {
      HitInside(y, g.offset[1], g.stride[1], g.size[1]);
      HitInside(x, g.offset[1], g.stride[1], g.size[2]);
    }
  }

  lemma HitInside(v: nat, offset: nat, spread: nat, size: nat)
    requires spread > 0 && Hits(v, offset, spread, size)
    ensures v <= offset + spread * (size - 1)
  {
    MulLess((v - offset) / spread, size - 1, spread);
  }

  lemma Unspread(v: nat, size: nat)
    ensures Hits(v, 0, 1, size) <==> v < size
    ensures (v - 0) / 1 == v
  {
  }

  lemma SameExtents(end: State, g: Geometry, v: Params)
    requires Verified(g, v)
    ensures v.inputDilation == 1 ==> Rows(Before(end, g, v), v) == Rows(After(end, g), v) && Cols(Before(end, g, v), v) == Cols(After(end, g), v)
    ensures v.inputDilation == 1 ==> Rows(After(end, g), v) == OutExtent(g.full[1], v.kernel, v.stride, 0, v.dilation)
    ensures v.inputDilation == 1 ==> Cols(After(end, g), v) == OutExtent(g.full[2], v.kernel, v.stride, 0, v.dilation)
    ensures v.inputDilation != 1 ==> Rows(Before(end, g, v), v) != Rows(After(end, g), v)
  {
    hide OutExtent, Foldable, Before, After;
    FieldExtents(end, g, v);
    if v.inputDilation != 1 {
      assert g.stride[1] == 1 && g.full[1] >= 3 by { FoldedByOne(g, v); }
      hide ShapeMatches;
      DilatedExtent(g.full[1], v);
    }
  }

  lemma FieldExtents(end: State, g: Geometry, v: Params)
    requires ShapeMatches(g) && v.inputDilation > 0
    ensures Before(end, g, v).rows == Spread(g.full[1], v.inputDilation) && Before(end, g, v).cols == Spread(g.full[2], v.inputDilation)
    ensures v.inputDilation == 1 ==> Before(end, g, v).rows == g.full[1] && Before(end, g, v).cols == g.full[2]
    ensures After(end, g).rows == g.full[1] && After(end, g).cols == g.full[2]
  {
  }

  lemma FoldedByOne(g: Geometry, v: Params)
    requires Verified(g, v) && v.inputDilation != 1
    ensures g.stride[1] == 1 && g.full[1] >= 3 && v.stride == 1
  {
    hide OutExtent;
  }

  lemma DilatedExtent(extent: nat, v: Params)
    requires v.stride == 1 && v.inputDilation > 1 && extent >= 3
    ensures OutExtent(Spread(extent, v.inputDilation), v.kernel, v.stride, 0, v.dilation) != OutExtent(extent, v.kernel, v.stride, 0, v.dilation)
  {
    hide OutExtent;
    MulLess(2, v.inputDilation, extent - 1);
    OneStride(Spread(extent, v.inputDilation), v.kernel, v.dilation);
    OneStride(extent, v.kernel, v.dilation);
  }

  lemma OneStride(extent: int, kernel: nat, dilation: nat)
    ensures OutExtent(extent, kernel, 1, 0, dilation) == extent - dilation * (kernel - 1)
  {
  }

  lemma {:induction false} SoundFold(ops: seq<Op>, fill: nat, window: nat, copy: nat, s: State, g: Geometry, v: Params, data: nat -> State)
    requires Verified(g, v) && v.inputDilation == 1 && Scanned(ops, fill, window, copy)
    requires Sound(ops, fill, copy) || Unread(g, v)
    ensures KeepsSums(Run(ops, |ops|, s, g, data), g, v)
  {
    hide Scanned, Foldable, ShapeMatches, Run, Before, After, Output, Rows, Cols, Tap, Data, OutExtent, FieldOf, Along;
    var end := Run(ops, |ops|, s, g, data);
    SameExtents(end, g, v);
    forall filter: Filter, n: nat, oy: nat, ox: nat, k: nat | oy < Rows(Before(end, g, v), v) && ox < Cols(Before(end, g, v), v)
      ensures Output(Before(end, g, v).at, filter, v, n, oy, ox, k) == Output(After(end, g).at, filter, v, n, oy, ox, k)
    {
      forall i: nat, j: nat | i < v.kernel && j < v.kernel
        ensures Tap(Before(end, g, v).at, filter, v, n, Along(v, oy, i), Along(v, ox, j), i, j, k)
             == Tap(After(end, g).at, filter, v, n, Along(v, oy, i), Along(v, ox, j), i, j, k)
      {
        SoundTap(ops, fill, window, copy, s, g, v, data, filter, n, oy, ox, i, j, k);
      }
      OutputExt(Before(end, g, v).at, After(end, g).at, filter, v, n, oy, ox, k);
    }
  }

  lemma {:induction false} SoundTap(ops: seq<Op>, fill: nat, window: nat, copy: nat, s: State, g: Geometry, v: Params, data: nat -> State,
                                    filter: Filter, n: nat, oy: nat, ox: nat, i: nat, j: nat, k: nat)
    requires Verified(g, v) && v.inputDilation == 1 && Scanned(ops, fill, window, copy) && i < v.kernel && j < v.kernel
    requires Sound(ops, fill, copy) || Unread(g, v)
    requires oy < OutExtent(g.full[1], v.kernel, v.stride, 0, v.dilation) && ox < OutExtent(g.full[2], v.kernel, v.stride, 0, v.dilation)
    ensures var end := Run(ops, |ops|, s, g, data);
      Tap(Before(end, g, v).at, filter, v, n, Along(v, oy, i), Along(v, ox, j), i, j, k)
      == Tap(After(end, g).at, filter, v, n, Along(v, oy, i), Along(v, ox, j), i, j, k)
  {
    hide Scanned, Foldable, ShapeMatches, Run, Before, After, Tap, Data, OutExtent, FieldOf, Along;
    var end := Run(ops, |ops|, s, g, data);
    var y, x := Along(v, oy, i), Along(v, ox, j);
    if Unread(g, v) {
      assert !Meets(g, v, oy, ox, i, j);
    } else {
      AtTheCall(ops, fill, window, copy, s, g, data);
    }
    forall ch: nat ensures Before(end, g, v).at(Place(n, y, x, ch)) == After(end, g).at(Place(n, y, x, ch)) {
      FieldsAt(ops, fill, window, copy, s, g, v, data, Place(n, y, x, ch));
    }
    TapExt(Before(end, g, v).at, After(end, g).at, filter, v, n, y, x, i, j, k);
  }

  // When it is not.

  function One(): Image { (p: Place) => 1 }

  /** A source of ones stays one when every write leaves ones. */
  lemma {:induction false} OnesStay(ops: seq<Op>, n: nat, s: State, g: Geometry, data: nat -> State, p: Place)
    requires ShapeMatches(g) && n <= |ops| && s.source(p) == 1 && forall i: nat :: data(i).source(p) == 1
    ensures Run(ops, n, s, g, data).source(p) == 1
  {
    if n > 0 {
      OnesStay(ops, n - 1, s, g, data, p);
    }
  }

  /** Writes after the copy show; those before it leave zeros. */
  function LateAt(copy: nat, i: nat): State {
    State(Zero(), if i > copy then One() else Zero())
  }

  function Late(copy: nat): nat -> State {
    (i: nat) => LateAt(copy, i)
  }

  lemma {:induction false} LateShows(ops: seq<Op>, n: nat, copy: nat, s: State, g: Geometry, p: Place)
    requires ShapeMatches(g) && n <= |ops| && s.source(p) == 0
    ensures Run(ops, n, s, g, Late(copy)).source(p) == if exists i :: copy < i < n && Changes(ops[i]) then 1 else 0
  {
    if n > 0 {
      LateShows(ops, n - 1, copy, s, g, p);
      if Changes(ops[n - 1]) && n - 1 > copy {
        assert copy < n - 1 < n;
      }
    }
  }

  /** The filter with a single tap. */
  function Single(i: nat, j: nat): Filter {
    (i': nat, j': nat, ch: nat, k: nat) => if i' == i && j' == j then 1 else 0
  }

  lemma {:induction false} SingleTap(a: Image, v: Params, n: nat, y: nat, x: nat, i: nat, j: nat, k: nat, c: int)
    requires v.channels > 0 && 0 <= c <= 1 && forall ch: nat :: a(Place(n, y, x, ch)) == c
    ensures (Tap(a, Single(i, j), v, n, y, x, i, j, k) > 0) <==> c == 1
  {
    hide Single;
    assert forall ch: nat :: Single(i, j)(i, j, ch, k) == 1 by { SingleAt(i, j, k); }
    forall ch: nat ensures a(Place(n, y, x, ch)) * Single(i, j)(i, j, ch, k) == c {
      assert Single(i, j)(i, j, ch, k) == 1;
    }
    if v.dense {
      SumSame(v.channels, (ch: nat) => a(Place(n, y, x, ch)) * Single(i, j)(i, j, ch, k), c);
    }
  }

  lemma SingleAt(i: nat, j: nat, k: nat)
    ensures forall ch: nat :: Single(i, j)(i, j, ch, k) == 1
  {
  }

  lemma {:induction false} SumSame(n: nat, f: nat -> int, c: int)
    requires forall i: nat | i < n :: f(i) == c
    ensures Sum(n, f) == n * c
  {
    if n > 0 {
      SumSame(n - 1, f, c);
    }
  }

  lemma {:induction false} OtherTap(a: Image, v: Params, n: nat, y: nat, x: nat, i: nat, j: nat, i': nat, j': nat, k: nat)
    requires i' != i || j' != j
    ensures Tap(a, Single(i, j), v, n, y, x, i', j', k) == 0
  {
    forall ch: nat ensures a(Place(n, y, x, ch)) * Single(i, j)(i', j', ch, k) == 0 {
      assert Single(i, j)(i', j', ch, k) == 0;
    }
    SumZero(v.channels, (ch: nat) => a(Place(n, y, x, ch)) * Single(i, j)(i', j', ch, k));
  }

  lemma {:induction false} SingleRow(a: Image, v: Params, n: nat, oy: nat, ox: nat, i: nat, j: nat, i': nat, k: nat)
    requires i < v.kernel && j < v.kernel
    ensures Row(a, Single(i, j), v, n, oy, ox, i', k)
         == if i' == i then Tap(a, Single(i, j), v, n, Along(v, oy, i), Along(v, ox, j), i, j, k) else 0
  {
    hide Tap, Single, Along;
    forall j': nat | i' != i || j' != j ensures Tap(a, Single(i, j), v, n, Along(v, oy, i'), Along(v, ox, j'), i', j', k) == 0 {
      OtherTap(a, v, n, Along(v, oy, i'), Along(v, ox, j'), i, j, i', j', k);
    }
    var taps := (j': nat) => Tap(a, Single(i, j), v, n, Along(v, oy, i'), Along(v, ox, j'), i', j', k);
    if i' == i {
      SumSingle(v.kernel, taps, j);
    } else {
      SumZero(v.kernel, taps);
    }
    SumExt(v.kernel, taps, (j': nat) => Tap(a, Single(i, j), v, n, Along(v, oy, i'), Along(v, ox, j'), i', j', k));
  }

  lemma {:induction false} SingleOutput(a: Image, v: Params, n: nat, oy: nat, ox: nat, i: nat, j: nat, k: nat)
    requires i < v.kernel && j < v.kernel
    ensures Output(a, Single(i, j), v, n, oy, ox, k) == Tap(a, Single(i, j), v, n, Along(v, oy, i), Along(v, ox, j), i, j, k)
  {
    hide Tap, Row, Single, Along;
    forall i': nat ensures Row(a, Single(i, j), v, n, oy, ox, i', k)
      == if i' == i then Tap(a, Single(i, j), v, n, Along(v, oy, i), Along(v, ox, j), i, j, k) else 0
    {
      SingleRow(a, v, n, oy, ox, i, j, i', k);
    }
    SumSingle(v.kernel, (i': nat) => Row(a, Single(i, j), v, n, oy, ox, i', k), i);
  }

  /** The filter with a single weight, from input channel `ch` to output channel `k`. */
  function OneTap(i: nat, j: nat, ch: nat, k: nat, weight: int): Filter {
    (i': nat, j': nat, ch': nat, k': nat) => if i' == i && j' == j && ch' == ch && k' == k then weight else 0
  }

  lemma {:induction false} OneTapElsewhere(a: Image, v: Params, n: nat, y: nat, x: nat, i: nat, j: nat, ch: nat, k: nat, weight: int, i': nat, j': nat)
    requires i' != i || j' != j
    ensures Tap(a, OneTap(i, j, ch, k, weight), v, n, y, x, i', j', k) == 0
  {
    forall c: nat ensures a(Place(n, y, x, c)) * OneTap(i, j, ch, k, weight)(i', j', c, k) == 0 {
      assert OneTap(i, j, ch, k, weight)(i', j', c, k) == 0;
    }
    SumZero(v.channels, (c: nat) => a(Place(n, y, x, c)) * OneTap(i, j, ch, k, weight)(i', j', c, k));
  }

  /** What a weight at row `i` and column `j` of the filter is multiplied with: for output `(oy, ox)` the position
      `(oy * stride + i * dilation, ox * stride + j * dilation)`, of its own channel in a depthwise call. */
  lemma {:induction false} OneTapOutput(a: Image, v: Params, n: nat, oy: nat, ox: nat, i: nat, j: nat, ch: nat, k: nat, weight: int)
    requires i < v.kernel && j < v.kernel && if v.dense then ch < v.channels else ch == 0
    ensures Output(a, OneTap(i, j, ch, k, weight), v, n, oy, ox, k)
         == a(Place(n, oy * v.stride + i * v.dilation, ox * v.stride + j * v.dilation, if v.dense then ch else k)) * weight
  {
    hide Along;
    var filter := OneTap(i, j, ch, k, weight);
    var only := Tap(a, filter, v, n, Along(v, oy, i), Along(v, ox, j), i, j, k);
    assert only == a(Place(n, Along(v, oy, i), Along(v, ox, j), if v.dense then ch else k)) * weight by {
      if v.dense {
        SumSingle(v.channels, (c: nat) => a(Place(n, Along(v, oy, i), Along(v, ox, j), c)) * filter(i, j, c, k), ch);
      }
    }
    hide Tap, OneTap;
    forall i': nat | i' < v.kernel ensures Row(a, filter, v, n, oy, ox, i', k) == if i' == i then only else 0 {
      var taps := (j': nat) => Tap(a, filter, v, n, Along(v, oy, i'), Along(v, ox, j'), i', j', k);
      forall j': nat | i' != i || j' != j ensures taps(j') == 0 {
        OneTapElsewhere(a, v, n, Along(v, oy, i'), Along(v, ox, j'), i, j, ch, k, weight, i', j');
      }
      if i' == i {
        SumSingle(v.kernel, taps, j);
      } else {
        SumZero(v.kernel, taps);
      }
    }
    SumSingle(v.kernel, (i': nat) => Row(a, filter, v, n, oy, ox, i', k), i);
    assert Along(v, oy, i) == oy * v.stride + i * v.dilation && Along(v, ox, j) == ox * v.stride + j * v.dilation by { AlongIs(v, oy, i); AlongIs(v, ox, j); }
  }

  lemma AlongIs(v: Params, o: nat, i: nat)
    ensures Along(v, o, i) == o * v.stride + i * v.dilation
  {
  }

  /** An unsound program changes the output whose window meets source data, for the filter with that tap alone. */
  lemma {:induction false} UnsoundFold(ops: seq<Op>, fill: nat, window: nat, copy: nat, g: Geometry, v: Params,
                                       oy: nat, ox: nat, i: nat, j: nat) returns (s: State, data: nat -> State)
    requires Verified(g, v) && v.inputDilation == 1 && Scanned(ops, fill, window, copy) && !Sound(ops, fill, copy)
    requires Meets(g, v, oy, ox, i, j)
    ensures var end := Run(ops, |ops|, s, g, data);
      Output(Before(end, g, v).at, Single(i, j), v, 0, oy, ox, 0) != Output(After(end, g).at, Single(i, j), v, 0, oy, ox, 0)
  {
    hide Run, Foldable, ShapeMatches, Before, After, Output, Tap, Data, Origin, OutExtent, Scanned, Along;
    var y, x := Along(v, oy, i), Along(v, ox, j);
    s, data := if copy < fill then State(Zero(), One()) else State(Zero(), Zero()), if copy < fill then (i: nat) => State(Zero(), One()) else Late(copy);
    var end := Run(ops, |ops|, s, g, data);
    forall ch: nat ensures Before(end, g, v).at(Place(0, y, x, ch)) == 0 && After(end, g).at(Place(0, y, x, ch)) == 1 {
      FieldsAt(ops, fill, window, copy, s, g, v, data, Place(0, y, x, ch));
      var from := Origin(g, Place(0, y, x, ch));
      if copy < fill {
        OnesStay(ops, |ops|, s, g, data, from);
      } else {
        assert Scanned(ops, fill, window, copy) && fill != copy by { FillIsNotCopy(ops, fill, window, copy); }
        LateShows(ops, |ops|, copy, s, g, from);
        LateShows(ops, copy, copy, s, g, from);
      }
    }
    SingleOutput(Before(end, g, v).at, v, 0, oy, ox, i, j, 0);
    SingleOutput(After(end, g).at, v, 0, oy, ox, i, j, 0);
    SingleTap(Before(end, g, v).at, v, 0, y, x, i, j, 0, 0);
    SingleTap(After(end, g).at, v, 0, y, x, i, j, 0, 1);
  }

  lemma FillIsNotCopy(ops: seq<Op>, fill: nat, window: nat, copy: nat)
    requires Scanned(ops, fill, window, copy)
    ensures fill != copy
  {
  }

  /** Without filter dilation the first output always reads source data. */
  lemma {:induction false} FirstMeets(g: Geometry, v: Params)
    requires Verified(g, v) && v.inputDilation == 1 && v.dilation == 1
    ensures Meets(g, v, 0, 0, g.offset[1], g.offset[1]) && !Unread(g, v)
  {
    hide OutExtent;
    var pad := g.offset[1];
    assert Along(v, 0, pad) == pad;
    assert Hits(pad, pad, g.stride[1], g.size[1]) && Hits(pad, pad, g.stride[1], g.size[2]);
  }
}
