/** What filling only the border leaves to be met (`lib/Transforms/FillOnlyTheBorder/FillOnlyTheBorderPass.cpp`): the
    part of the fill that is dropped has to be written again before anything reads it. */
module BorderFill {
  import opened BorderSlabs
  import opened Odometer
  import opened RowMajor
  import opened Wrappers
  import FillToMemset

  // The two programs: either fill, and then whatever comes after it.

  type Buffer = Point -> int

  ghost function FillBox(buffer: Buffer, box: Box, value: int): Buffer {
    (p: Point) => if Inside(box, p) then value else buffer(p)
  }

  ghost function FillBoxes(buffer: Buffer, boxes: seq<Box>, value: int): Buffer {
    if boxes == [] then buffer
    else FillBox(FillBoxes(buffer, boxes[..|boxes| - 1], value), boxes[|boxes| - 1], value)
  }

  function Whole(shape: seq<nat>): Box {
    Box(seq(|shape|, _ => 0), shape)
  }

  /** What an operation after the fill does to the buffer, by whatever name and from whatever depth of regions: whether it
      is certain to run, what it reads and, after that, what it writes. */
  datatype Access = Access(certain: bool, sees: Point -> bool, writes: Point -> bool)

  /** Which of the operations run, and what they write, which may depend on all that was read. */
  datatype Run = Run(runs: nat -> bool, data: nat -> Buffer)

  ghost function After(buffer: Buffer, acts: seq<Access>, run: Run): Buffer {
    if acts == [] then buffer
    else
      var last := |acts| - 1;
      var before := After(buffer, acts[..last], run);
      if run.runs(last) then (p: Point) => if acts[last].writes(p) then run.data(last)(p) else before(p) else before
  }

  /** If operation `n` runs it sees the same in both programs. */
  ghost predicate SameSight(shape: seq<nat>, acts: seq<Access>, n: nat, run: Run, a: Buffer, b: Buffer)
    requires n < |acts|
  {
    run.runs(n) ==>
      forall p | InShape(shape, p) && acts[n].sees(p) :: After(a, acts[..n], run)(p) == After(b, acts[..n], run)(p)
  }

  ghost predicate SameBuffer(shape: seq<nat>, a: Buffer, b: Buffer) {
    forall p | InShape(shape, p) :: a(p) == b(p)
  }

  /** One run of the two: every operation sees the same, and the buffer ends up the same. */
  ghost predicate Agree(shape: seq<nat>, box: Box, acts: seq<Access>, value: int, buffer: Buffer, run: Run)
    requires Fits(shape, box)
  {
    var whole, border := FillBox(buffer, Whole(shape), value), FillBoxes(buffer, Slabs(shape, box, |shape|), value);
    && (forall n | 0 <= n < |acts| :: SameSight(shape, acts, n, run, whole, border))
    && SameBuffer(shape, After(whole, acts, run), After(border, acts, run))
  }

  ghost predicate Possible(acts: seq<Access>, run: Run) {
    forall n: nat | n < |acts| && acts[n].certain :: run.runs(n)
  }

  /** Filling the border keeps the program's meaning on every initial buffer, whatever is then written and whichever of the
      operations that are not certain to run do. */
  ghost predicate KeepsMeaning(shape: seq<nat>, box: Box, acts: seq<Access>, value: int)
    requires Fits(shape, box)
  {
    forall buffer: Buffer, run: Run | Possible(acts, run) :: Agree(shape, box, acts, value, buffer, run)
  }

  /** Operation `i` is certain to write the point, and nothing reads it until then. */
  ghost predicate RewrittenBy(acts: seq<Access>, i: nat, p: Point) {
    i < |acts| && acts[i].certain && acts[i].writes(p) && forall j: nat | j <= i :: !acts[j].sees(p)
  }

  ghost predicate Rewritten(acts: seq<Access>, p: Point) {
    exists i: nat :: RewrittenBy(acts, i, p)
  }

  ghost predicate AllRewritten(shape: seq<nat>, box: Box, acts: seq<Access>) {
    forall p | InShape(shape, p) && Inside(box, p) :: Rewritten(acts, p)
  }

  lemma {:induction false} FillBoxesAt(buffer: Buffer, boxes: seq<Box>, value: int, p: Point)
    ensures FillBoxes(buffer, boxes, value)(p) == if Count(boxes, p) > 0 then value else buffer(p)
  {
    if boxes != [] {
      FillBoxesAt(buffer, boxes[..|boxes| - 1], value, p);
    }
  }

  /** Where filling the slabs and filling the buffer leave the same thing: everywhere but in the box. */
  lemma {:induction false} FillsAgree(shape: seq<nat>, box: Box, buffer: Buffer, value: int, p: Point)
    requires Fits(shape, box) && InShape(shape, p)
    ensures FillBox(buffer, Whole(shape), value)(p) == value
    ensures FillBoxes(buffer, Slabs(shape, box, |shape|), value)(p) == if Inside(box, p) then buffer(p) else value
  {
    hide Slabs, Count;
    SlabsCoverBorder(shape, box, p);
    FillBoxesAt(buffer, Slabs(shape, box, |shape|), value, p);
    assert Inside(Whole(shape), p);
  }

  /** Where the two programs differ before the slice is written: in the box, when it did not hold the fill's value. */
  lemma {:induction false} FillsDiffer(shape: seq<nat>, box: Box, value: int, p: Point)
    requires Fits(shape, box) && InShape(shape, p) && Inside(box, p)
    ensures FillBox((q: Point) => value + 1, Whole(shape), value)(p) == value
    ensures FillBoxes((q: Point) => value + 1, Slabs(shape, box, |shape|), value)(p) == value + 1
  {
    hide Inside, Slabs, FillBoxes, FillBox, InShape, Fits;
    FillsAgree(shape, box, (q: Point) => value + 1, value, p);
  }

  /** Some operation before `n` is certain to have written the point. */
  ghost predicate WrittenBy(acts: seq<Access>, n: nat, p: Point) {
    exists i: nat :: i < n && i < |acts| && acts[i].certain && acts[i].writes(p)
  }

  lemma {:induction false} WritesMeet(acts: seq<Access>, n: nat, run: Run, a: Buffer, b: Buffer, p: Point)
    requires n <= |acts| && Possible(acts, run) && (a(p) == b(p) || WrittenBy(acts, n, p))
    ensures After(a, acts[..n], run)(p) == After(b, acts[..n], run)(p)
  {
    if n > 0 {
      assert acts[..n][..n - 1] == acts[..n - 1] && acts[..n][n - 1] == acts[n - 1];
      if a(p) == b(p) || WrittenBy(acts, n - 1, p) {
        WritesMeet(acts, n - 1, run, a, b, p);
      }
    }
  }

  /** A point no operation writes stays as it was. */
  lemma {:induction false} Untouched(acts: seq<Access>, n: nat, run: Run, a: Buffer, p: Point)
    requires n <= |acts| && forall i: nat | i < n && run.runs(i) :: !acts[i].writes(p)
    ensures After(a, acts[..n], run)(p) == a(p)
  {
    if n > 0 {
      assert acts[..n][..n - 1] == acts[..n - 1] && acts[..n][n - 1] == acts[n - 1];
      Untouched(acts, n - 1, run, a, p);
    }
  }

  /** The rewrite is sound if and only if every point of the box is certain to be written again before anything reads it. */
  lemma {:induction false} BorderExact(shape: seq<nat>, box: Box, acts: seq<Access>, value: int)
    requires Fits(shape, box)
    ensures KeepsMeaning(shape, box, acts, value) <==> AllRewritten(shape, box, acts)
  {
    hide KeepsMeaning, Rewritten, Fits, Inside, InShape;
    if AllRewritten(shape, box, acts) {
      BorderKeeps(shape, box, acts, value);
    } else {
      var p :| InShape(shape, p) && Inside(box, p) && !Rewritten(acts, p);
      BorderBreaks(shape, box, acts, value, p);
    }
  }

  lemma {:induction false} BorderKeeps(shape: seq<nat>, box: Box, acts: seq<Access>, value: int)
    requires Fits(shape, box) && AllRewritten(shape, box, acts)
    ensures KeepsMeaning(shape, box, acts, value)
  {
    hide Inside, Slabs, FillBoxes, FillBox, InShape, Fits, After, Possible;
    forall buffer: Buffer, run: Run | Possible(acts, run) ensures Agree(shape, box, acts, value, buffer, run) {
      var whole, border := FillBox(buffer, Whole(shape), value), FillBoxes(buffer, Slabs(shape, box, |shape|), value);
      forall n, p | 0 <= n <= |acts| && InShape(shape, p) && (n == |acts| || acts[n].sees(p))
        ensures After(whole, acts[..n], run)(p) == After(border, acts[..n], run)(p)
      {
        FillsAgree(shape, box, buffer, value, p);
        if Inside(box, p) {
          var i: nat :| RewrittenBy(acts, i, p);
          assert WrittenBy(acts, n, p);
        }
        WritesMeet(acts, n, run, whole, border, p);
      }
      assert acts[..|acts|] == acts;
    }
  }

  /** The first of the operations from `n` on that reads the point, or that is certain to write it. */
  lemma {:induction false} FirstTouch(acts: seq<Access>, n: nat, p: Point) returns (i: nat)
    requires n <= |acts|
    ensures n <= i <= |acts| && forall j: nat | n <= j < i :: !acts[j].sees(p) && !(acts[j].certain && acts[j].writes(p))
    ensures i < |acts| ==> acts[i].sees(p) || (acts[i].certain && acts[i].writes(p))
    decreases |acts| - n
  {
    if n == |acts| || acts[n].sees(p) || (acts[n].certain && acts[n].writes(p)) {
      i := n;
    } else {
      i := FirstTouch(acts, n + 1, p);
    }
  }

  /** The run in which of the operations that are not certain only `reader` runs. */
  function OnlyOne(acts: seq<Access>, reader: nat): Run {
    Run((n: nat) => n == reader || (n < |acts| && acts[n].certain), (n: nat) => ((p: Point) => 0))
  }

  lemma {:induction false} BorderBreaks(shape: seq<nat>, box: Box, acts: seq<Access>, value: int, p: Point)
    requires Fits(shape, box) && InShape(shape, p) && Inside(box, p) && !Rewritten(acts, p)
    ensures !KeepsMeaning(shape, box, acts, value)
  {
    hide Slabs, FillBoxes, FillBox, Inside, InShape, Fits, After;
    var other: Buffer := (q: Point) => value + 1;
    var whole, border := FillBox(other, Whole(shape), value), FillBoxes(other, Slabs(shape, box, |shape|), value);
    var i := FirstTouch(acts, 0, p);
    var run := OnlyOne(acts, i);
    assert i < |acts| && !acts[i].sees(p) ==> RewrittenBy(acts, i, p);
    FillsDiffer(shape, box, value, p);
    Untouched(acts, i, run, whole, p);
    Untouched(acts, i, run, border, p);
    assert acts[..|acts|] == acts;
    assert i < |acts| ==> !SameSight(shape, acts, i, run, whole, border);
    assert !Agree(shape, box, acts, value, other, run);
  }

  /** The first point of the box. */
  function Corner(shape: seq<nat>, box: Box): (p: Point)
    requires Fits(shape, box)
    ensures InShape(shape, p) && Inside(box, p)
  {
    seq(|shape|, d requires 0 <= d < |shape| => box.off[d])
  }

  // What the slice's user writes. The slice's offsets and sizes are coordinates of whatever it is a slice of, which need
  // not be the buffer that was filled.

  /** A view of the memory of the buffer: where its first element lies and how far its steps go, in elements from the
      buffer's first. */
  datatype View = View(start: int, strides: seq<int>)

  ghost predicate Locates(shape: seq<nat>, view: View, q: Point, p: Point) {
    |q| == |view.strides| && InShape(shape, p) && Flat(shape, p) == view.start + Dot(q, view.strides)
  }

  /** What is made to write the slice: its iterations, and where in the slice each writes. */
  datatype Writer = Writer(extents: seq<nat>, place: Point -> Point)

  /** Where an iteration writes, in the coordinates of what the slice is of. */
  ghost predicate Lands(writer: Writer, box: Box, it: Point, q: Point) {
    && InShape(writer.extents, it) && |writer.place(it)| == |q| == |box.off|
    && forall d | 0 <= d < |q| :: q[d] == box.off[d] + writer.place(it)[d]
  }

  /** The points of the filled buffer it writes. */
  ghost predicate Written(shape: seq<nat>, view: View, writer: Writer, box: Box, p: Point) {
    exists it, q :: Lands(writer, box, it, q) && Locates(shape, view, q, p)
  }

  ghost predicate Covers(shape: seq<nat>, view: View, box: Box, writer: Writer) {
    forall p | InShape(shape, p) && Inside(box, p) :: Written(shape, view, writer, box, p)
  }

  /** The view of a buffer of this shape that starts at `shift` and steps as the buffer does. */
  ghost predicate Shifted(shape: seq<nat>, view: View, shift: seq<nat>) {
    && |shift| == |shape| == |view.strides| && view.start == Flat(shape, shift)
    && FillToMemset.PackedFrom(shape, view.strides, 0)
  }

  function Sum(q: Point, shift: seq<nat>): Point
    requires |q| == |shift|
  {
    seq(|q|, d requires 0 <= d < |q| => q[d] + shift[d])
  }

  lemma {:induction false} FlatSum(shape: seq<nat>, q: Point, shift: seq<nat>)
    requires |q| == |shift| == |shape|
    ensures Flat(shape, Sum(q, shift)) == Flat(shape, q) + Flat(shape, shift)
  {
    if q != [] {
      var last := |q| - 1;
      FlatSum(shape[..last], q[..last], shift[..last]);
      assert Sum(q, shift)[..last] == Sum(q[..last], shift[..last]);
      var a, b, n := Flat(shape[..last], q[..last]), Flat(shape[..last], shift[..last]), shape[last];
      AddTimes(a, b, n);
      assert Flat(shape, Sum(q, shift)) == (a + b) * n + (q[last] + shift[last]);
    }
  }

  lemma AddTimes(a: nat, b: nat, n: nat)
    ensures (a + b) * n == a * n + b * n
  {
  }

  /** A shifted view locates its elements at the shifted coordinates. */
  lemma {:induction false} ShiftedAt(shape: seq<nat>, view: View, shift: seq<nat>, q: Point, p: Point)
    requires Shifted(shape, view, shift) && InShape(shape, q) && |p| == |shape| && InShape(shape, Sum(q, shift))
    ensures Locates(shape, view, q, p) <==> p == Sum(q, shift)
  {
    hide Flat, Dot, FillToMemset.PackedFrom;
    FillToMemset.DotIsFlat(shape, view.strides, q);
    FlatSum(shape, q, shift);
    if InShape(shape, p) && Flat(shape, p) == Flat(shape, Sum(q, shift)) {
      IndexOfFlat(shape, p);
      IndexOfFlat(shape, Sum(q, shift));
    }
  }

  // Which writers cover the slice, for output maps of iteration dimensions and zeros.

  function Projected(dims: seq<Option<nat>>, it: Point): Point {
    seq(|dims|, d requires 0 <= d < |dims| => if dims[d].Some? && dims[d].value < |it| then it[dims[d].value] else 0)
  }

  /** The writer whose output map has at each result an iteration dimension, or else zero. */
  function ByDims(extents: seq<nat>, dims: seq<Option<nat>>): Writer {
    Writer(extents, (it: Point) => Projected(dims, it))
  }

  /** A copy writes the slice element by element. */
  function ByCopy(box: Box): Writer
  {
    ByDims(box.size, seq(|box.size|, d requires 0 <= d < |box.size| => Some(d)))
  }

  /** The map fits the slice: an iteration dimension is as long as the dimension of the slice it runs along. */
  ghost predicate MapFits(box: Box, extents: seq<nat>, dims: seq<Option<nat>>) {
    && |dims| == |box.size|
    && forall d | 0 <= d < |dims| && dims[d].Some? :: dims[d].value < |extents| && extents[dims[d].value] == box.size[d]
  }

  /** No iteration dimension is empty, and only results of extent one are fixed or share their dimension. */
  predicate Spans(box: Box, extents: seq<nat>, dims: seq<Option<nat>>)
    requires |dims| == |box.size|
  {
    && (forall i | 0 <= i < |extents| :: extents[i] > 0)
    && forall d | 0 <= d < |dims| && box.size[d] > 1 :: dims[d].Some? && Alone(dims, d)
  }

  predicate Alone(dims: seq<Option<nat>>, d: nat)
    requires d < |dims|
  {
    forall e | 0 <= e < |dims| && e != d :: dims[e] != dims[d]
  }

  /** The result an iteration dimension is at, or the number of results. */
  function ResultOf(dims: seq<Option<nat>>, i: nat): (d: nat)
    ensures d <= |dims| && (d < |dims| ==> dims[d] == Some(i))
    ensures d == |dims| ==> forall e | 0 <= e < |dims| :: dims[e] != Some(i)
  {
    if dims == [] then 0 else if dims[0] == Some(i) then 0 else 1 + ResultOf(dims[1..], i)
  }

  /** Where along dimension `i` the iteration that writes `p` is. */
  function Turn(box: Box, dims: seq<Option<nat>>, p: Point, i: nat): nat
    requires |dims| == |box.size| == |box.off| == |p| && forall d | 0 <= d < |p| :: Within(box, p, d)
  {
    var d := ResultOf(dims, i);
    if d < |dims| then assert Within(box, p, d); p[d] - box.off[d] else 0
  }

  function Iteration(box: Box, extents: seq<nat>, dims: seq<Option<nat>>, p: Point): (it: Point)
    requires |dims| == |box.size| == |box.off| == |p| && forall d | 0 <= d < |p| :: Within(box, p, d)
    ensures |it| == |extents|
  {
    seq(|extents|, i requires 0 <= i < |extents| => Turn(box, dims, p, i))
  }

  /** The corner moved by one along `d`. */
  function Beside(shape: seq<nat>, box: Box, d: nat): (p: Point)
    requires Fits(shape, box) && d < |shape| && box.size[d] > 1
    ensures InShape(shape, p) && Inside(box, p)
  {
    Corner(shape, box)[d := box.off[d] + 1]
  }

  /** The slice lies within what it is of. */
  ghost predicate SliceFits(shape: seq<nat>, box: Box, shift: seq<nat>) {
    |box.off| == |box.size| == |shift| == |shape| && forall d | 0 <= d < |shape| :: box.off[d] + box.size[d] + shift[d] <= shape[d]
  }

  ghost predicate Zero(shift: seq<nat>) {
    forall d | 0 <= d < |shift| :: shift[d] == 0
  }

  lemma {:induction false} LandsInside(shape: seq<nat>, box: Box, extents: seq<nat>, dims: seq<Option<nat>>, it: Point, q: Point)
    requires Fits(shape, box) && MapFits(box, extents, dims) && Lands(ByDims(extents, dims), box, it, q)
    ensures |q| == |shape| && forall d | 0 <= d < |q| :: box.off[d] <= q[d] < box.off[d] + box.size[d] && q[d] == box.off[d] + Projected(dims, it)[d]
  {
  }

  /** Through a shifted view an iteration writes where it lands, shifted. */
  lemma {:induction false} WrittenAt(shape: seq<nat>, view: View, shift: seq<nat>, box: Box, extents: seq<nat>, dims: seq<Option<nat>>, p: Point)
    requires Fits(shape, box) && MapFits(box, extents, dims) && Shifted(shape, view, shift) && SliceFits(shape, box, shift)
    requires InShape(shape, p)
    ensures Written(shape, view, ByDims(extents, dims), box, p) <==>
      exists it, q :: Lands(ByDims(extents, dims), box, it, q) && |q| == |shift| && p == Sum(q, shift)
  {
    hide Shifted, Lands, Locates, Fits;
    var writer := ByDims(extents, dims);
    forall it, q | Lands(writer, box, it, q) ensures |q| == |shift| && (Locates(shape, view, q, p) <==> p == Sum(q, shift)) {
      LandsInside(shape, box, extents, dims, it, q);
      ShapeOf(shape, box);
      ShiftedAt(shape, view, shift, q, p);
    }
  }

  lemma ShapeOf(shape: seq<nat>, box: Box)
    requires Fits(shape, box)
    ensures |box.off| == |box.size| == |shape| && forall d | 0 <= d < |shape| :: box.off[d] >= 0 && box.size[d] > 0
  {
  }

  lemma {:induction false} SpansCovers(shape: seq<nat>, view: View, shift: seq<nat>, box: Box, extents: seq<nat>, dims: seq<Option<nat>>)
    requires Fits(shape, box) && MapFits(box, extents, dims) && Shifted(shape, view, shift) && SliceFits(shape, box, shift)
    requires Zero(shift) && Spans(box, extents, dims)
    ensures Covers(shape, view, box, ByDims(extents, dims))
  {
    hide Shifted;
    var writer := ByDims(extents, dims);
    forall p | InShape(shape, p) && Inside(box, p) ensures Written(shape, view, writer, box, p) {
      var it := Iteration(box, extents, dims, p);
      IterationLands(shape, box, extents, dims, p);
      assert p == Sum(p, shift);
      WrittenAt(shape, view, shift, box, extents, dims, p);
    }
  }

  lemma {:induction false} IterationLands(shape: seq<nat>, box: Box, extents: seq<nat>, dims: seq<Option<nat>>, p: Point)
    requires Fits(shape, box) && MapFits(box, extents, dims) && Spans(box, extents, dims) && InShape(shape, p) && Inside(box, p)
    ensures Lands(ByDims(extents, dims), box, Iteration(box, extents, dims, p), p)
  {
    var it := Iteration(box, extents, dims, p);
    forall i | 0 <= i < |extents| ensures it[i] < extents[i] {
      var d := ResultOf(dims, i);
      assert d < |dims| ==> Within(box, p, d);
    }
    forall d | 0 <= d < |p| ensures p[d] == box.off[d] + Projected(dims, it)[d] {
      assert Within(box, p, d);
      if box.size[d] > 1 {
        assert ResultOf(dims, dims[d].value) == d;
      } else if dims[d].Some? {
        assert it[dims[d].value] < 1;
      }
    }
  }

  /** The iteration that writes a point of the box. */
  lemma {:induction false} Hit(shape: seq<nat>, view: View, shift: seq<nat>, box: Box, extents: seq<nat>, dims: seq<Option<nat>>, p: Point) returns (it: Point)
    requires Fits(shape, box) && MapFits(box, extents, dims) && Shifted(shape, view, shift) && SliceFits(shape, box, shift)
    requires Covers(shape, view, box, ByDims(extents, dims)) && InShape(shape, p) && Inside(box, p)
    ensures InShape(extents, it) && forall d | 0 <= d < |shape| :: p[d] == box.off[d] + Projected(dims, it)[d] + shift[d]
  {
    hide Shifted, MapFits;
    WrittenAt(shape, view, shift, box, extents, dims, p);
    var it', q :| Lands(ByDims(extents, dims), box, it', q) && |q| == |shift| && p == Sum(q, shift);
    it := it';
    LandsInside(shape, box, extents, dims, it, q);
  }

  lemma {:induction false} CoversSpans(shape: seq<nat>, view: View, shift: seq<nat>, box: Box, extents: seq<nat>, dims: seq<Option<nat>>)
    requires Fits(shape, box) && MapFits(box, extents, dims) && Shifted(shape, view, shift) && SliceFits(shape, box, shift)
    requires Covers(shape, view, box, ByDims(extents, dims))
    ensures Zero(shift) && Spans(box, extents, dims)
  {
    hide Shifted, Covers, Inside;
    var corner := Corner(shape, box);
    var first := Hit(shape, view, shift, box, extents, dims, corner);
    forall d | 0 <= d < |dims| && box.size[d] > 1 ensures dims[d].Some? && Alone(dims, d) {
      var p := Beside(shape, box, d);
      var it := Hit(shape, view, shift, box, extents, dims, p);
      assert Projected(dims, it)[d] == 1;
      forall e | 0 <= e < |dims| && e != d ensures dims[e] != dims[d] {
        assert Projected(dims, it)[e] == 0;
      }
    }
  }

  /** What the scan would have to check: through a view that steps as the buffer does, the slice's user covers the box if
      and only if the view starts where the buffer does and its map spans the slice. */
  lemma {:induction false} CoversExactly(shape: seq<nat>, view: View, shift: seq<nat>, box: Box, extents: seq<nat>, dims: seq<Option<nat>>)
    requires Fits(shape, box) && MapFits(box, extents, dims) && Shifted(shape, view, shift) && SliceFits(shape, box, shift)
    ensures Covers(shape, view, box, ByDims(extents, dims)) <==> Zero(shift) && Spans(box, extents, dims)
  {
    assert |dims| == |box.size|;
    hide Shifted, SliceFits, MapFits, Spans;
    if Zero(shift) && Spans(box, extents, dims) {
      SpansCovers(shape, view, shift, box, extents, dims);
    } else if Covers(shape, view, box, ByDims(extents, dims)) {
      CoversSpans(shape, view, shift, box, extents, dims);
    }
  }

  /** A copy covers the box if and only if the slice is of the buffer from its start. */
  lemma {:induction false} CopyCovers(shape: seq<nat>, view: View, shift: seq<nat>, box: Box)
    requires Fits(shape, box) && Shifted(shape, view, shift) && SliceFits(shape, box, shift)
    ensures Covers(shape, view, box, ByCopy(box)) <==> Zero(shift)
  {
    hide Shifted, SliceFits;
    var dims := seq(|box.size|, d requires 0 <= d < |box.size| => Some(d));
    CoversExactly(shape, view, shift, box, box.size, dims);
  }

  // Finding the box.

  /** What the slice is used by, as far as the scan looks. */
  datatype User = CopyInto | CopyOutOf | WritesSlice(readsBuffer: bool, readsOld: bool) | AnythingElse

  /** What the scan takes an operation after the fill for: a slice of something that bottoms out where the buffer does with
      its single user, a slice of something else, an operation naming the buffer, one with regions, or none of these. */
  datatype Op = Slice(box: Box, oneUse: bool, user: User) | SliceElsewhere | NamesBuffer | HasRegions | Unrelated

  /** A slice that is written and not read back. */
  predicate Covered(op: Op) {
    op.Slice? && op.oneUse && (op.user.CopyInto? || op.user == WritesSlice(false, false))
  }

  predicate PassedOver(op: Op) {
    op.SliceElsewhere? || op.Unrelated?
  }

  /** `boxWrittenNext`: the first slice, provided nothing before it mentions the buffer. */
  method BoxWrittenNext(ops: seq<Op>) returns (found: Option<nat>)
    ensures found.Some? ==> 0 <= found.value < |ops| && Covered(ops[found.value])
    ensures found.Some? ==> forall i | 0 <= i < found.value :: PassedOver(ops[i])
    ensures found.None? ==> forall k | 0 <= k < |ops| && Covered(ops[k]) :: exists i :: 0 <= i < k && !PassedOver(ops[i])
  {
    for n := 0 to |ops|
      invariant forall i | 0 <= i < n :: PassedOver(ops[i])
    {
      match ops[n]
      case Slice(box, oneUse, user) =>
        if !oneUse {
          return None;
        }
        match user {
          case CopyInto => return Some(n);
          case WritesSlice(readsBuffer, readsOld) =>
            return if readsBuffer || readsOld then None else Some(n);
          case CopyOutOf => return None;
          case AnythingElse => return None;
        }
      case SliceElsewhere =>
      case NamesBuffer => return None;
      case HasRegions => return None;
      case Unrelated =>
    }
    return None;
  }

  /** What the slice's user does: it writes where its view and its map take it, if it runs. */
  ghost function Using(shape: seq<nat>, certain: bool, sees: Point -> bool, view: View, box: Box, writer: Writer): Access {
    Access(certain, sees, (p: Point) => Written(shape, view, writer, box, p))
  }

  ghost predicate SeesNone(shape: seq<nat>, box: Box, act: Access) {
    forall p | InShape(shape, p) && Inside(box, p) :: !act.sees(p)
  }

  ghost predicate WritesNone(shape: seq<nat>, box: Box, act: Access) {
    forall p | InShape(shape, p) && Inside(box, p) :: !act.writes(p)
  }

  /** When nothing else writes the box, what is left to be met after a successful scan is that the slice's user is certain
      to run, that it covers the box, and that neither it nor anything before it reads the box. */
  lemma {:induction false} ScanSuffices(shape: seq<nat>, ops: seq<Op>, k: nat, before: seq<Access>, user: Access, rest: seq<Access>, value: int,
                                        view: View, writer: Writer)
    requires k < |ops| && Covered(ops[k]) && (forall i | 0 <= i < k :: PassedOver(ops[i])) && Fits(shape, ops[k].box)
    requires user == Using(shape, user.certain, user.sees, view, ops[k].box, writer)
    requires forall act | act in before || act in rest :: WritesNone(shape, ops[k].box, act)
    ensures KeepsMeaning(shape, ops[k].box, before + [user] + rest, value) <==>
      && user.certain && Covers(shape, view, ops[k].box, writer)
      && SeesNone(shape, ops[k].box, user) && forall act | act in before :: SeesNone(shape, ops[k].box, act)
  {
    var box, acts := ops[k].box, before + [user] + rest;
    BorderExact(shape, box, acts, value);
    hide KeepsMeaning, Fits, Inside, InShape, Written;
    if user.certain && Covers(shape, view, box, writer) && SeesNone(shape, box, user) && forall act | act in before :: SeesNone(shape, box, act) {
      forall p | InShape(shape, p) && Inside(box, p) ensures Rewritten(acts, p) {
        ActsAt(before, user, rest);
        assert RewrittenBy(acts, |before|, p);
      }
    }
    if AllRewritten(shape, box, acts) {
      var corner := Corner(shape, box);
      ByUser(shape, box, before, user, rest, corner);
      forall p | InShape(shape, p) && Inside(box, p) ensures user.writes(p) && !user.sees(p) && forall act | act in before :: !act.sees(p) {
        ByUser(shape, box, before, user, rest, p);
      }
    }
  }

  lemma ActsAt(before: seq<Access>, user: Access, rest: seq<Access>)
    ensures var acts := before + [user] + rest;
      acts[|before|] == user && forall j: nat | j < |acts| && j != |before| :: if j < |before| then acts[j] in before else acts[j] in rest
  {
    var acts := before + [user] + rest;
    forall j: nat | j < |acts| && j != |before| ensures if j < |before| then acts[j] in before else acts[j] in rest {
      assert j < |before| ==> acts[j] == before[j];
      assert j > |before| ==> acts[j] == rest[j - |before| - 1];
    }
  }

  lemma {:induction false} ByUser(shape: seq<nat>, box: Box, before: seq<Access>, user: Access, rest: seq<Access>, p: Point)
    requires forall act | act in before || act in rest :: WritesNone(shape, box, act)
    requires InShape(shape, p) && Inside(box, p) && Rewritten(before + [user] + rest, p)
    ensures user.certain && user.writes(p) && !user.sees(p) && forall act | act in before :: !act.sees(p)
  {
    hide Inside, InShape;
    var acts := before + [user] + rest;
    var i: nat :| RewrittenBy(acts, i, p);
    ActsAt(before, user, rest);
    assert i == |before|;
    forall act | act in before ensures !act.sees(p) {
      var j: nat :| j < |before| && before[j] == act;
      assert acts[j] == act;
    }
  }

  // What the scan's answers are about: what an operation it looks at may do to the buffer.

  /** Through a slice with a single user only that user acts. A copy into the slice does not read what it writes; an
      elementwise operation reads the box if it has the buffer among its inputs or uses the element it is about to
      write. Anything that names the buffer otherwise, or has regions, may do anything, and so may all other users. */
  ghost predicate May(shape: seq<nat>, op: Op, act: Access) {
    match op
    case Slice(box, oneUse, user) =>
      !oneUse || user.CopyOutOf? || user.AnythingElse?
      || (user.WritesSlice? && (user.readsBuffer || user.readsOld))
      || SeesNone(shape, box, act)
    case SliceElsewhere => TouchesNothing(shape, act)
    case Unrelated => TouchesNothing(shape, act)
    case NamesBuffer => true
    case HasRegions => true
  }

  ghost predicate TouchesNothing(shape: seq<nat>, act: Access) {
    forall p | InShape(shape, p) :: !act.sees(p) && !act.writes(p)
  }

  /** It reads everything and writes nothing. */
  function Reader(): Access { Access(true, (p: Point) => true, (p: Point) => false) }

  function Writing(): Access { Access(true, (p: Point) => false, (p: Point) => true) }

  /** The slices the scan settles for are those through which nothing may read the box, and what it passes over is what may
      not touch the buffer at all. */
  lemma {:induction false} ScanExactly(shape: seq<nat>, op: Op)
    requires op.Slice? ==> Fits(shape, op.box)
    requires forall d | 0 <= d < |shape| :: shape[d] > 0
    ensures Covered(op) <==> op.Slice? && forall act | May(shape, op, act) :: SeesNone(shape, op.box, act)
    ensures PassedOver(op) <==> forall act | May(shape, op, act) :: TouchesNothing(shape, act)
  {
    hide Fits;
    var origin: Point := Zeros(|shape|);
    assert InShape(shape, origin);
    if op.Slice? {
      assert !SeesNone(shape, op.box, Reader()) by { var p := Corner(shape, op.box); assert Reader().sees(p); }
      assert May(shape, op, Writing()) && !TouchesNothing(shape, Writing()) by { assert Writing().writes(origin); }
      if !Covered(op) {
        assert May(shape, op, Reader());
      }
    } else if !PassedOver(op) {
      assert May(shape, op, Writing()) && !TouchesNothing(shape, Writing()) by { assert Writing().writes(origin); }
    }
  }

  function Zeros(n: nat): (p: Point)
    ensures |p| == n && forall d | 0 <= d < n :: p[d] == 0
  {
    seq(n, _ => 0)
  }

  /** A slice that is found, and whose user is certain to run and covers the box, makes filling the border enough: whatever
      the operations up to it may do, and whatever comes after it. */
  lemma {:induction false} FoundKeeps(shape: seq<nat>, ops: seq<Op>, k: nat, at: seq<nat>, before: seq<Access>, user: Access, rest: seq<Access>, value: int)
    requires k < |ops| && Covered(ops[k]) && (forall i | 0 <= i < k :: PassedOver(ops[i])) && Fits(shape, ops[k].box)
    requires |at| == |before| && forall i | 0 <= i < |at| :: at[i] < k && May(shape, ops[at[i]], before[i])
    requires May(shape, ops[k], user) && user.certain && forall p | InShape(shape, p) && Inside(ops[k].box, p) :: user.writes(p)
    ensures KeepsMeaning(shape, ops[k].box, before + [user] + rest, value)
  {
    hide KeepsMeaning, Fits, Inside;
    var box, acts := ops[k].box, before + [user] + rest;
    BorderExact(shape, box, acts, value);
    forall p | InShape(shape, p) && Inside(box, p) ensures Rewritten(acts, p) {
      ActsAt(before, user, rest);
      forall j: nat | j <= |before| ensures !acts[j].sees(p) {
        if j < |before| {
          assert acts[j] == before[j] && PassedOver(ops[at[j]]);
        }
      }
      assert RewrittenBy(acts, |before|, p);
    }
  }

  /** A slice the scan does not settle for has a user that may read the box before it is written, and then the part of the
      fill that is left out is missed. */
  lemma {:induction false} UncoveredBreaks(shape: seq<nat>, op: Op, rest: seq<Access>, value: int)
    requires op.Slice? && !Covered(op) && Fits(shape, op.box)
    ensures May(shape, op, Reader()) && !KeepsMeaning(shape, op.box, [Reader()] + rest, value)
  {
    hide KeepsMeaning, Fits;
    var acts, p := [Reader()] + rest, Corner(shape, op.box);
    assert acts[0].sees(p);
    OneOperation(shape, op.box, acts, p, value);
  }

  /** So may an operation before the slice that is not passed over. */
  lemma {:induction false} NotPassedBreaks(shape: seq<nat>, op: Op, box: Box, rest: seq<Access>, value: int)
    requires !op.Slice? && !PassedOver(op) && Fits(shape, box)
    ensures May(shape, op, Reader()) && !KeepsMeaning(shape, box, [Reader()] + rest, value)
  {
    hide KeepsMeaning, Fits;
    var acts, p := [Reader()] + rest, Corner(shape, box);
    assert acts[0].sees(p);
    OneOperation(shape, box, acts, p, value);
  }

  /** An operation that accumulates into the slice starts from what the fill left there: it is refused. */
  lemma {:induction false} Accumulates(value: int)
    ensures !Covered(Slice(Rows, true, WritesSlice(false, true))) && Fits([3, 4], Rows)
    ensures May([3, 4], Slice(Rows, true, WritesSlice(false, true)), Reader()) && !KeepsMeaning([3, 4], Rows, [Reader()], value)
  {
    UncoveredBreaks([3, 4], Slice(Rows, true, WritesSlice(false, true)), [], value);
    assert [Reader()] + [] == [Reader()];
  }

  // Four programs the scan and the rewrite accept and that lose part of the fill.

  /** A slice of two by four at the origin of a buffer of three by four. */
  const Rows := Box([0, 0], [2, 4])

  lemma RowsAccepted()
    ensures Fits([3, 4], Rows) && Volume(Rows.size) == 8 && Slabs([3, 4], Rows, 2) != []
  {
    assert [2, 4][..1] == [2] && [2][..0] == [];
    assert SlabsAt([3, 4], Rows, 0) == [Slab([3, 4], Rows, 0, 2, 3)];
    assert |Slabs([3, 4], Rows, 1)| == 1;
  }

  function Nothing(): Point -> bool { (p: Point) => false }

  /** The buffer itself. */
  function Itself(): View { View(0, [4, 1]) }

  lemma ItselfShifted()
    ensures Shifted([3, 4], Itself(), [0, 0]) && SliceFits([3, 4], Rows, [0, 0]) && Zero([0, 0])
  {
    FlatTwo(3, 4, 0, 0);
    assert [3, 4][1..] == [4] && [3, 4][2..] == [] && [4][..0] == [];
    assert Volume([4]) == 4;
  }

  /** A single operation that is not certain to write all of the box, or that is preceded by one that reads it. */
  lemma {:induction false} OneOperation(shape: seq<nat>, box: Box, acts: seq<Access>, p: Point, value: int)
    requires Fits(shape, box) && InShape(shape, p) && Inside(box, p)
    requires forall i | 0 <= i < |acts| :: acts[i].certain && acts[i].writes(p) ==> exists j :: 0 <= j <= i && acts[j].sees(p)
    ensures !KeepsMeaning(shape, box, acts, value)
  {
    hide KeepsMeaning, Inside, InShape, Fits;
    BorderExact(shape, box, acts, value);
  }

  /** The writer of output map `(d0) -> (d0, 0)` writes one column of the slice. */
  lemma {:induction false} OneColumn(value: int)
    ensures Covered(Slice(Rows, true, WritesSlice(false, false))) && Fits([3, 4], Rows)
    ensures !KeepsMeaning([3, 4], Rows, [Using([3, 4], true, Nothing(), Itself(), Rows, ByDims([2], [Some(0), None]))], value)
  {
    hide KeepsMeaning, Covers, AllRewritten;
    ItselfShifted();
    var writer := ByDims([2], [Some(0), None]);
    assert Rows.size[1] == 4;
    CoversExactly([3, 4], Itself(), [0, 0], Rows, [2], [Some(0), None]);
    BorderExact([3, 4], Rows, [Using([3, 4], true, Nothing(), Itself(), Rows, writer)], value);
    NotCovered([3, 4], Rows, true, Itself(), writer, value);
  }

  lemma {:induction false} NotCovered(shape: seq<nat>, box: Box, certain: bool, view: View, writer: Writer, value: int)
    requires Fits(shape, box) && !(certain && Covers(shape, view, box, writer))
    ensures !KeepsMeaning(shape, box, [Using(shape, certain, Nothing(), view, box, writer)], value)
  {
    hide KeepsMeaning, Fits, Inside, InShape, Written;
    var acts := [Using(shape, certain, Nothing(), view, box, writer)];
    if certain {
      var p :| InShape(shape, p) && Inside(box, p) && !Written(shape, view, writer, box, p);
      OneOperation(shape, box, acts, p, value);
    } else {
      OneOperation(shape, box, acts, Corner(shape, box), value);
    }
  }

  /** A copy under a condition may not happen. */
  lemma {:induction false} CopyUnderCondition(value: int)
    ensures Covered(Slice(Rows, true, CopyInto)) && Fits([3, 4], Rows)
    ensures !KeepsMeaning([3, 4], Rows, [Using([3, 4], false, Nothing(), Itself(), Rows, ByCopy(Rows))], value)
  {
    NotCovered([3, 4], Rows, false, Itself(), ByCopy(Rows), value);
  }

  /** An operation between the slice and the copy into it reads the slice's first row, which is no longer filled. */
  lemma {:induction false} ReadInBetween(value: int)
    ensures Covered(Slice(Rows, true, CopyInto)) && Fits([3, 4], Rows)
    ensures var reader := Access(true, (p: Point) => |p| == 2 && p[0] == 0, Nothing());
      !KeepsMeaning([3, 4], Rows, [reader, Using([3, 4], true, Nothing(), Itself(), Rows, ByCopy(Rows))], value)
  {
    hide KeepsMeaning, Written;
    var p: Point := [0, 0];
    assert InShape([3, 4], p) && Inside(Rows, p);
    var reader := Access(true, (p: Point) => |p| == 2 && p[0] == 0, Nothing());
    var acts := [reader, Using([3, 4], true, Nothing(), Itself(), Rows, ByCopy(Rows))];
    assert acts[0].sees(p);
    OneOperation([3, 4], Rows, acts, p, value);
  }

  /** Of a buffer of 64 by 64, the view that starts 16 rows and columns in, and its first 32 rows and columns. */
  const Middle := View(16 * 64 + 16, [64, 1])

  const Quarter := Box([0, 0], [32, 32])

  lemma QuarterAccepted()
    ensures Fits([64, 64], Quarter) && Volume(Quarter.size) == 1024 && Slabs([64, 64], Quarter, 2) != []
  {
    assert [32, 32][..1] == [32] && [32][..0] == [];
    assert SlabsAt([64, 64], Quarter, 0) == [Slab([64, 64], Quarter, 0, 32, 64)];
    assert |Slabs([64, 64], Quarter, 1)| == 1;
  }

  /** A slice of another view of the buffer is taken for one of the buffer: the fill leaves out the first rows and columns,
      and the copy writes further in. */
  lemma {:induction false} SliceOfView(value: int)
    ensures Covered(Slice(Quarter, true, CopyInto)) && Fits([64, 64], Quarter) && Shifted([64, 64], Middle, [16, 16])
    ensures !KeepsMeaning([64, 64], Quarter, [Using([64, 64], true, Nothing(), Middle, Quarter, ByCopy(Quarter))], value)
  {
    hide KeepsMeaning, Covers;
    MiddleShifted();
    CopyCovers([64, 64], Middle, [16, 16], Quarter);
    NotCovered([64, 64], Quarter, true, Middle, ByCopy(Quarter), value);
  }

  lemma MiddleShifted()
    ensures Shifted([64, 64], Middle, [16, 16]) && SliceFits([64, 64], Quarter, [16, 16]) && !Zero([16, 16])
  {
    FlatTwo(64, 64, 16, 16);
    assert [64, 64][1..] == [64] && [64, 64][2..] == [] && [64][..0] == [];
    assert Volume([64]) == 64;
    assert [16, 16][0] != 0;
  }
}
