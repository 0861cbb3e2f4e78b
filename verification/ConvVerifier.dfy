/** What the convolutions' own verifier asks of an operation (`verifyConvShapes` in `lib/Gemmlir/GemmlirOps.cpp`), and that
    a folded padding leaves an operation it accepts. */
module ConvVerifier {
  import opened Arith
  import opened PaddingFold
  import opened Wrappers

  /** The shapes and element strides of input and output, the channels the filter expects and produces, the attributes,
      and the length of the bias. */
  datatype ConvOp = ConvOp(
    inShape: seq<nat>, inStrides: seq<int>, outShape: seq<nat>, outStrides: seq<int>, channels: nat, outChannels: nat,
    kernel: nat, stride: int, padding: int, dilation: int, poolSize: int, poolStride: int, poolPadding: int, inputDilation: int,
    bias: Option<nat>) {
    ghost predicate Ranked() { |inShape| == |inStrides| == |outShape| == |outStrides| == 4 }
  }

  datatype Refusal = RowsTooWide | NotPositive | PaddingReachesKernel | BadInputDilation | DilationNeedsUnitStride | BadPooling
    | WrongChannels | WrongBatch | WrongOutputs | KernelTooLarge(axis: nat) | WrongExtent(axis: nat) | WrongBias

  /** `rowsFollowTheStride`. */
  predicate RowsFollow(shape: seq<nat>, strides: seq<int>)
    requires |shape| == |strides| == 4
  {
    strides[3] == 1 && strides[1] == shape[2] * strides[2] && strides[0] == shape[1] * strides[1]
  }

  /** `poolOutExtent`. */
  function PoolOutExtent(convOut: int, poolSize: int, poolStride: int, poolPadding: int): int
    requires poolStride >= 0
  {
    if poolStride == 0 then convOut else TowardZero(convOut + 2 * poolPadding - poolSize, poolStride) + 1
  }

  /** Without a stride there is no pooling; with one the extent is the number of pooling windows that fit. */
  lemma PoolOutExtentFits(convOut: int, poolSize: int, poolStride: int, poolPadding: int)
    requires poolStride >= 0
    ensures var n := PoolOutExtent(convOut, poolSize, poolStride, poolPadding);
      if poolStride == 0 then n == convOut
      else convOut + 2 * poolPadding >= poolSize ==>
        (n - 1) * poolStride + poolSize <= convOut + 2 * poolPadding < n * poolStride + poolSize
  {
  }

  /** Rows follow the pixel stride exactly when every element lies where the runtime looks for it, one number apart from the
      next pixel. */
  lemma {:induction false} RowsFollowMeans(shape: seq<nat>, strides: seq<int>)
    requires |shape| == |strides| == 4
    ensures RowsFollow(shape, strides) <==> forall n: nat, y: nat, x: nat, ch: nat :: PixelAt(shape, strides, n, y, x, ch)
  {
    if RowsFollow(shape, strides) {
      forall n: nat, y: nat, x: nat, ch: nat ensures PixelAt(shape, strides, n, y, x, ch) {
        PixelsFollow(shape[1], shape[2], strides[2], n, y, x);
      }
    } else {
      assert PixelAt(shape, strides, 0, 0, 0, 1) <==> strides[3] == 1;
      assert PixelAt(shape, strides, 0, 1, 0, 0) <==> strides[1] == shape[2] * strides[2];
      assert strides[1] == shape[2] * strides[2] ==> (PixelAt(shape, strides, 1, 0, 0, 0) <==> strides[0] == shape[1] * strides[1]) by {
        FirstImage(shape[1], shape[2], strides[2]);
      }
    }
  }

  predicate PixelAt(shape: seq<nat>, strides: seq<int>, n: nat, y: nat, x: nat, ch: nat)
    requires |shape| == |strides| == 4
  {
    n * strides[0] + y * strides[1] + x * strides[2] + ch * strides[3] == ((n * shape[1] + y) * shape[2] + x) * strides[2] + ch
  }

  lemma PixelsFollow(rows: nat, cols: nat, pixel: int, n: nat, y: nat, x: nat)
    ensures n * (rows * (cols * pixel)) + y * (cols * pixel) + x * pixel == ((n * rows + y) * cols + x) * pixel
  {
    assert (n * rows + y) * cols == n * rows * cols + y * cols;
    assert ((n * rows + y) * cols + x) * pixel == n * rows * cols * pixel + y * cols * pixel + x * pixel;
  }

  lemma FirstImage(rows: nat, cols: nat, pixel: int)
    ensures ((1 * rows + 0) * cols + 0) * pixel == rows * (cols * pixel)
  {
  }

  function ConvOut(op: ConvOp, axis: nat): int
    requires op.Ranked() && axis < 2 && op.stride > 0 && op.dilation > 0
  {
    OutExtent(op.inputDilation * (op.inShape[axis + 1] as int - 1) + 1, op.kernel, op.stride, op.padding, op.dilation)
  }

  function VerifyAttributes(op: ConvOp): Option<Refusal>
    requires op.Ranked()
  {
    if !RowsFollow(op.inShape, op.inStrides) || !RowsFollow(op.outShape, op.outStrides) then Some(RowsTooWide)
    else if op.stride < 1 || op.dilation < 1 || op.padding < 0 then Some(NotPositive)
    else if op.padding >= op.kernel then Some(PaddingReachesKernel)
    else if op.inputDilation < 1 || op.inputDilation > 2 then Some(BadInputDilation)
    else if op.inputDilation > 1 && op.stride != 1 then Some(DilationNeedsUnitStride)
    else if op.poolStride < 0 || op.poolSize < 0 || op.poolPadding < 0 || (op.poolStride != 0 && op.poolSize < 1) then Some(BadPooling)
    else if op.inShape[3] != op.channels then Some(WrongChannels)
    else if op.outShape[0] != op.inShape[0] then Some(WrongBatch)
    else if op.outShape[3] != op.outChannels then Some(WrongOutputs)
    else None
  }

  function VerifyAxis(op: ConvOp, axis: nat): Option<Refusal>
    requires op.Ranked() && axis < 2 && op.stride > 0 && op.dilation > 0 && op.poolStride >= 0
  {
    if ConvOut(op, axis) < 1 then Some(KernelTooLarge(axis))
    else if op.outShape[axis + 1] != PoolOutExtent(ConvOut(op, axis), op.poolSize, op.poolStride, op.poolPadding) then Some(WrongExtent(axis))
    else None
  }

  /** What is wrong with an operation first, if anything is. */
  function Verify(op: ConvOp): Option<Refusal>
    requires op.Ranked()
  {
    var attributes := VerifyAttributes(op);
    if attributes.Some? then attributes
    else if VerifyAxis(op, 0).Some? then VerifyAxis(op, 0)
    else if VerifyAxis(op, 1).Some? then VerifyAxis(op, 1)
    else if op.bias.Some? && op.bias.value != op.outChannels then Some(WrongBias)
    else None
  }

  /** What an axis of the input looks like to the filter, and how far a window reaches. */
  function SeenExtent(op: ConvOp, axis: nat): int
    requires op.Ranked() && axis < 2
  {
    op.inputDilation * (op.inShape[axis + 1] as int - 1) + 1 + 2 * op.padding
  }

  function WindowReach(op: ConvOp): int { op.dilation * (op.kernel - 1) + 1 }

  /** The output has as many elements as windows fit: the last one does and the next would not. */
  ghost predicate WindowsFit(op: ConvOp, axis: nat)
    requires op.Ranked() && axis < 2
  {
    var n := op.outShape[axis + 1];
    n >= 1 && (n - 1) * op.stride + WindowReach(op) <= SeenExtent(op, axis) < n * op.stride + WindowReach(op)
  }

  /** One element, of a window that does not fit, but by less than a stride. */
  ghost predicate Overreaches(op: ConvOp, axis: nat)
    requires op.Ranked() && axis < 2
  {
    op.outShape[axis + 1] == 1 && SeenExtent(op, axis) < WindowReach(op) < SeenExtent(op, axis) + op.stride
  }

  /** Without pooling the verifier accepts exactly the operations whose rows follow the pixel stride, whose attributes the
      runtime takes, whose shapes go together and whose output has as many rows and columns as windows fit -- or one, where
      not even one fits but by less than a stride, since the division rounds toward zero. */
  lemma {:induction false} VerifyExactly(op: ConvOp)
    requires op.Ranked() && op.poolStride == 0
    ensures Verify(op).None? <==>
      && RowsFollow(op.inShape, op.inStrides) && RowsFollow(op.outShape, op.outStrides)
      && op.stride >= 1 && op.dilation >= 1 && 0 <= op.padding < op.kernel
      && (op.inputDilation == 1 || (op.inputDilation == 2 && op.stride == 1)) && op.poolSize >= 0 && op.poolPadding >= 0
      && op.inShape[3] == op.channels && op.outShape[0] == op.inShape[0] && op.outShape[3] == op.outChannels
      && (WindowsFit(op, 0) || Overreaches(op, 0)) && (WindowsFit(op, 1) || Overreaches(op, 1))
      && (op.bias.Some? ==> op.bias.value == op.outChannels)
  {
    hide RowsFollow, WindowsFit, Overreaches;
    if op.stride >= 1 && op.dilation >= 1 && op.kernel >= 1 {
      WindowsExtent(op, 0);
      WindowsExtent(op, 1);
    }
    hide ConvOut;
  }

  lemma {:induction false} WindowsExtent(op: ConvOp, axis: nat)
    requires op.Ranked() && axis < 2 && op.stride >= 1 && op.dilation >= 1 && op.kernel >= 1
    ensures WindowsFit(op, axis) || Overreaches(op, axis) <==> ConvOut(op, axis) >= 1 && op.outShape[axis + 1] == ConvOut(op, axis)
  {
    assert ConvOut(op, axis) == TowardZero(SeenExtent(op, axis) - WindowReach(op), op.stride) + 1;
    hide TowardZero, ConvOut;
    WindowCount(SeenExtent(op, axis), WindowReach(op), op.stride, op.outShape[axis + 1]);
  }

  lemma WindowCount(seen: int, reach: int, stride: nat, n: nat)
    requires stride > 0
    ensures var count := TowardZero(seen - reach, stride) + 1;
      (n >= 1 && (n - 1) * stride + reach <= seen < n * stride + reach) || (n == 1 && seen < reach < seen + stride) <==> count >= 1 && n == count
  {
    var d := seen - reach;
    Between(d, stride, n);
    if d >= 0 {
      QuotientIs(d, stride, n);
    } else {
      QuotientIs(-d, stride, 1);
    }
  }

  /** A window before a point that is not negative. */
  lemma Between(d: int, stride: nat, n: nat)
    requires stride > 0
    ensures n >= 1 && (n - 1) * stride <= d < n * stride ==> d >= 0
    ensures n * stride == (n - 1) * stride + stride
  {
    if n >= 1 {
      MulLess(0, n - 1, stride);
    }
  }

  lemma QuotientIs(d: nat, stride: nat, n: nat)
    requires stride > 0
    ensures n >= 1 ==> ((n - 1) * stride <= d < n * stride <==> n == d / stride + 1)
    ensures d / stride == 0 <==> d < stride
  {
    var q := d / stride;
    assert q * stride <= d < q * stride + stride;
    if n >= 1 {
      Between(d, stride, n);
      if n - 1 < q {
        MulLess(n, q, stride);
      } else if q < n - 1 {
        MulLess(q + 1, n - 1, stride);
        Between(d, stride, q + 2);
      }
    }
  }

  /** Three taps at a stride of two over two rows and columns: the one window does not fit, and the operation is accepted. */
  lemma {:induction false} WindowTooLarge()
    ensures var op := ConvOp([1, 2, 2, 1], [4, 2, 1, 1], [1, 1, 1, 1], [1, 1, 1, 1], 1, 1, 3, 2, 0, 1, 0, 0, 0, 1, None);
      op.Ranked() && Verify(op).None? && SeenExtent(op, 0) == 2 && WindowReach(op) == 3
  {
    var op := ConvOp([1, 2, 2, 1], [4, 2, 1, 1], [1, 1, 1, 1], [1, 1, 1, 1], 1, 1, 3, 2, 0, 1, 0, 0, 0, 1, None);
    assert Overreaches(op, 0) && Overreaches(op, 1);
    hide Overreaches, WindowsFit, Verify;
    VerifyExactly(op);
  }

  /** The operation the fold makes of one. */
  function FoldedOp(op: ConvOp, g: Geometry, sourceStrides: seq<int>): ConvOp
    requires ShapeMatches(g)
  {
    op.(inShape := g.size, inStrides := sourceStrides, padding := g.offset[1], inputDilation := g.stride[1])
  }

  lemma {:induction false} SameExtent(op: ConvOp, g: Geometry, sourceStrides: seq<int>, axis: nat)
    requires op.Ranked() && |sourceStrides| == 4 && ShapeMatches(g) && axis < 2 && op.inShape == g.full && op.padding == 0
    requires op.stride > 0 && op.dilation > 0 && op.inputDilation == 1
    ensures ConvOut(FoldedOp(op, g, sourceStrides), axis) == ConvOut(op, axis)
  {
    assert g.full[axis + 1] == g.stride[1] * (g.size[axis + 1] - 1) + 1 + 2 * g.offset[1];
  }

  lemma {:induction false} OtherExtent(op: ConvOp, g: Geometry, sourceStrides: seq<int>)
    requires op.Ranked() && |sourceStrides| == 4 && ShapeMatches(g) && op.inShape == g.full && op.padding == 0
    requires op.stride == 1 && op.dilation > 0 && op.inputDilation > 1 && g.full[1] > 1
    ensures ConvOut(FoldedOp(op, g, sourceStrides), 0) < ConvOut(op, 0)
  {
    hide OutExtent;
    OneStride(op.inputDilation * (g.full[1] - 1) + 1, op.kernel, op.dilation);
    OneStride(g.full[1], op.kernel, op.dilation);
    MulLess(2, op.inputDilation, g.full[1] - 1);
    FoldedExtent(op, g, sourceStrides);
  }

  lemma FoldedExtent(op: ConvOp, g: Geometry, sourceStrides: seq<int>)
    requires op.Ranked() && |sourceStrides| == 4 && ShapeMatches(g) && op.stride > 0 && op.dilation > 0
    ensures ConvOut(FoldedOp(op, g, sourceStrides), 0) == OutExtent(g.full[1], op.kernel, op.stride, 0, op.dilation)
  {
  }

  lemma NotPooled(op: ConvOp, axis: nat)
    requires op.Ranked() && axis < 2 && op.stride > 0 && op.dilation > 0 && op.poolStride >= 0
    ensures op.poolStride == 0 ==> PoolOutExtent(ConvOut(op, axis), op.poolSize, op.poolStride, op.poolPadding) == ConvOut(op, axis)
  {
    hide ConvOut;
  }

  /** An operation the verifier accepts is folded into one it accepts, when it did not dilate its input and the source's rows
      follow one another; the source's layout is not something the fold looks at. Without pooling that is also needed: with
      either missing, the folded operation is one the verifier refuses. */
  lemma {:induction false} FoldedVerifies(op: ConvOp, g: Geometry, dense: bool, sourceStrides: seq<int>)
    requires op.Ranked() && |sourceStrides| == 4 && Verify(op).None? && op.padding == 0 && op.inShape == g.full && op.inputDilation >= 1
    requires op.stride >= 0 && Foldable(g, dense, op.kernel, op.stride, op.inputDilation) && g.size[1] > 0
    ensures op.inputDilation == 1 && RowsFollow(g.size, sourceStrides) ==> Verify(FoldedOp(op, g, sourceStrides)).None?
    ensures op.poolStride == 0 && Verify(FoldedOp(op, g, sourceStrides)).None? ==> op.inputDilation == 1 && RowsFollow(g.size, sourceStrides)
  {
    hide OutExtent, PoolOutExtent, RowsFollow;
    var folded := FoldedOp(op, g, sourceStrides);
    if op.inputDilation == 1 {
      SameExtent(op, g, sourceStrides, 0);
      SameExtent(op, g, sourceStrides, 1);
      hide ConvOut;
    } else {
      assert g.full[1] > 1;
      OtherExtent(op, g, sourceStrides);
      NotPooled(op, 0);
      NotPooled(folded, 0);
      hide ConvOut;
    }
  }
}
